/** Runs that show where the agent's promises stop. */
module AgentExamples {
  import opened Wrappers
  import opened Text
  import opened Sums
  import opened Limits
  import opened PoolStore
  import opened Demand
  import opened Drain
  import opened AgentModel
  import opened AgentBatches

  const POOL := "p"
  const CONFIG := Config("i", [POOL])

  function PlainLimits(revision: int): AdmissionLimits {
    AdmissionLimits(revision, 1, 0, None, None)
  }

  function PlainGrant(revision: int): Grant {
    Grant("g", "i", POOL, 1, revision, 0, 10, PlainLimits(revision))
  }

  function PlainPoll(revision: int): Event {
    PollReply(DesiredState(1, 0, [PlainGrant(revision)]), true, 0)
  }

  /** The state after one grant has been installed, acknowledged and published. */
  function Settled(revision: int): AgentState {
    AgentState(
      map[POOL := PlainLimits(revision)], map[POOL := PlainGrant(revision)], map[], map[], Some(1), Some(Clock(0, 0)),
      true, true, false, Idle, map[POOL := PlainLimits(0)],
      [Install(POOL, PlainLimits(revision), 1, 10, 0, 0)], 0)
  }

  function Sending(revision: int): AgentState {
    Settled(revision).(ready := false, armed := false, phase := Committing(PlainGrant(revision), [], map[]))
  }

  /** Just before the batch is applied. */
  function Fenced(): AgentState {
    Initial(CONFIG, map[POOL := PlainLimits(0)]).(clock := Some(Clock(0, 0)), epoch := Some(1))
  }

  lemma PlainBatch(revision: int)
    requires 1 <= revision <= MAX_SAFE_INTEGER
    ensures var s, g := Fenced(), PlainGrant(revision);
            && FirstReject(s.live, s.fallbacks, [g]).None?
            && Updates(s.live, s.fallbacks, [g]) == [GrantUpdate(g, None)]
            && Shrinks(s.live, s.fallbacks, [g]) == map[]
  {
    var s, g := Fenced(), PlainGrant(revision);
    assert [g][..0] == [];
    assert PlanFor(s.live, s.fallbacks, g) == Replace(None);
  }

  lemma PlainAccepted(revision: int)
    requires 1 <= revision <= MAX_SAFE_INTEGER
    ensures var s, batch := Fenced(), [GrantUpdate(PlainGrant(revision), None)];
            && Accepted(s.live, batch)
            && Installed(s.live, batch) == map[POOL := PlainLimits(revision)]
            && Remember(s.fallbacks, batch) == map[]
            && Additions(s, batch, 0) == [Install(POOL, PlainLimits(revision), 1, 10, 0, 0)]
  {
    var s, batch := Fenced(), [GrantUpdate(PlainGrant(revision), None)];
    assert batch[..0] == [];
    assert Trim("latchflo") == "latchflo" && Trim("g") == "g";
  }

  lemma PollInstalls(revision: int)
    requires 1 <= revision <= MAX_SAFE_INTEGER
    ensures Step(CONFIG, Initial(CONFIG, map[POOL := PlainLimits(0)]), PlainPoll(revision)) == Sending(revision)
  {
    hide Updates, FirstReject, Shrinks, Accepted, Installed, Remember, Additions, ApplyDesired, OnPollReply,
         ApplyChecked, PlanFor;
    var s, g := Fenced(), PlainGrant(revision);
    PlainBatch(revision);
    PlainAccepted(revision);
    PollCases(CONFIG, Initial(CONFIG, map[POOL := PlainLimits(0)]), DesiredState(1, 0, [g]), true, 0);
    ApplyCases(CONFIG, s, [g], 0);
    CheckedCases(s, [g], 0);
    assert Parsed(CONFIG, DesiredState(1, 0, [g])) by {
      assert Trim("g") == "g";
    }
    assert [g][0].pool == POOL && Granted([g], POOL);
    assert StillDesired(s.targets, [g]) == map[] && [g][1..] == [];
    assert ApplyDesired(CONFIG, s, [g], 0) == ApplyChecked(s, [g], 0);
    assert ApplyChecked(s, [g], 0) == Commit(s, [g], 0);
    assert Commit(s, [g], 0) == Sending(revision);
  }

  lemma AckAndPublishSettle(revision: int)
    ensures Step(CONFIG, Step(CONFIG, Sending(revision), AckReply(true)), Published(None, 0)) == Settled(revision)
  {
    var s := Settled(revision).(ready := false, armed := false, phase := Publishing);
    assert Step(CONFIG, Sending(revision), AckReply(true)) == s;
    assert Complete(CONFIG, s, 0);
  }

  lemma TimerAtTwenty(revision: int)
    requires revision == MAX_SAFE_INTEGER
    ensures Step(CONFIG, Settled(revision), TimerFired(20)) == Settled(revision).(armed := false, halted := true)
  {
    var s := Settled(revision);
    assert POOL in Expired(s, 20) && Expired(s, 20)[POOL] == PlainGrant(revision);
    assert !Installable(s.live, KillUpdate(s.live, s.grants[POOL]));
  }

  /**
   * The kill switch is not total: a grant at the last safe revision cannot be closed, because its
   * closing revision is not a safe integer, and the timer's callback throws. In the shipped program
   * nothing catches that and the process ends. Embedded in one that survives it, the pool keeps its
   * slot, the agent stays ready, and nothing sets the timer again until the next poll does.
   */
  lemma LastRevisionStaysOpen()
    ensures var s :=
              Run(CONFIG, map[POOL := PlainLimits(0)],
                  [PlainPoll(MAX_SAFE_INTEGER), AckReply(true), Published(None, 0), TimerFired(20)]);
            && s == Settled(MAX_SAFE_INTEGER).(armed := false, halted := true)
            && s.live[POOL].maxConcurrent == 1 && s.grants[POOL].expiresAt < 20 && s.ready
  {
    hide Step;
    var first, all :=
      map[POOL := PlainLimits(0)], [PlainPoll(MAX_SAFE_INTEGER), AckReply(true), Published(None, 0), TimerFired(20)];
    var r := MAX_SAFE_INTEGER;
    PollInstalls(r);
    AckAndPublishSettle(r);
    TimerAtTwenty(r);
    assert all[..3][..2] == all[..2] && all[..2][..1] == all[..1] && all[..1][..0] == [];
    assert Run(CONFIG, first, all[..1]) == Step(CONFIG, Initial(CONFIG, first), all[0]);
    assert Run(CONFIG, first, all[..2]) == Step(CONFIG, Run(CONFIG, first, all[..1]), all[1]);
    assert Run(CONFIG, first, all[..3]) == Step(CONFIG, Run(CONFIG, first, all[..2]), all[2]);
  }

  /** While the first grant is being acknowledged it is held and not watched: the timer is not set, and cannot fire. */
  lemma FirstCommitIsUnwatched(revision: int, now: int)
    requires 1 <= revision <= MAX_SAFE_INTEGER
    ensures var s := Run(CONFIG, map[POOL := PlainLimits(0)], [PlainPoll(revision)]);
            && s.grants == map[POOL := PlainGrant(revision)] && !s.armed && !s.halted
            && Step(CONFIG, s, TimerFired(now)) == s
  {
    PollInstalls(revision);
    var all := [PlainPoll(revision)];
    assert all[..0] == [];
    assert Run(CONFIG, map[POOL := PlainLimits(0)], all) ==
             Step(CONFIG, Initial(CONFIG, map[POOL := PlainLimits(0)]), all[0]);
    hide PlainPoll, OnPollReply;
  }

  /** Any earlier revision is closed, one revision up. */
  lemma EarlierRevisionCloses(revision: int)
    requires 1 <= revision < MAX_SAFE_INTEGER
    ensures var s :=
              Run(CONFIG, map[POOL := PlainLimits(0)],
                  [PlainPoll(revision), AckReply(true), Published(None, 0), TimerFired(20)]);
            && s.live == map[POOL := AdmissionLimits(revision + 1, 0, 0, None, None)]
            && s.grants == map[] && !s.ready && !s.armed
  {
    hide Step;
    var first, all :=
      map[POOL := PlainLimits(0)], [PlainPoll(revision), AckReply(true), Published(None, 0), TimerFired(20)];
    PollInstalls(revision);
    AckAndPublishSettle(revision);
    TimerCloses(revision);
    assert all[..3][..2] == all[..2] && all[..2][..1] == all[..1] && all[..1][..0] == [];
    assert Run(CONFIG, first, all[..1]) == Step(CONFIG, Initial(CONFIG, first), all[0]);
    assert Run(CONFIG, first, all[..2]) == Step(CONFIG, Run(CONFIG, first, all[..1]), all[1]);
    assert Run(CONFIG, first, all[..3]) == Step(CONFIG, Run(CONFIG, first, all[..2]), all[2]);
  }

  lemma TimerCloses(revision: int)
    requires 1 <= revision < MAX_SAFE_INTEGER
    ensures var s := Step(CONFIG, Settled(revision), TimerFired(20));
            && s.live == map[POOL := AdmissionLimits(revision + 1, 0, 0, None, None)]
            && s.grants == map[] && !s.ready && !s.armed
  {
    var s := Settled(revision);
    assert Expired(s, 20) == map[POOL := PlainGrant(revision)];
    PlainCloses(revision);
    hide Installable, KillUpdate, OnTimer;
    TimerCases(s, 20);
    assert Killable(s, 20);
    assert s.grants - Expired(s, 20).Keys == map[];
    assert KillLive(s, 20) == map[POOL := AdmissionLimits(revision + 1, 0, 0, None, None)];
  }

  lemma PlainCloses(revision: int)
    requires 1 <= revision < MAX_SAFE_INTEGER
    ensures var live, g := map[POOL := PlainLimits(revision)], PlainGrant(revision);
            && Installable(live, KillUpdate(live, g))
            && KillUpdate(live, g).limits == AdmissionLimits(revision + 1, 0, 0, None, None)
  {
    assert Trim("latchflo") == "latchflo" && Trim("g") == "g";
  }

  // ---------- Polls that fail without a rejection ----------

  function BudgetedLimits(): AdmissionLimits {
    AdmissionLimits(0, 1, 0, Some(TokenBudget(5, 0)), None)
  }

  const TABLE := map["a" := ClassLimits(Some(2), None, None, None)]

  function ClassedLimits(): AdmissionLimits {
    AdmissionLimits(0, 2, 0, None, Some(TABLE))
  }

  /** The grant passes the parser and every check made before `applyLimits`, which then throws. */
  ghost predicate ThrowsUnreported(live: AdmissionLimits, revision: int) {
    var s, d := Initial(CONFIG, map[POOL := live]), DesiredState(1, 0, [PlainGrant(revision)]);
    && Parsed(CONFIG, d)
    && FirstReject(s.live, s.fallbacks, d.grants).None?
    && Preflight(s.live, Updates(s.live, s.fallbacks, d.grants)) == Some(Threw)
    && Step(CONFIG, s, PlainPoll(revision)) == s.(clock := Some(Clock(0, 0)), epoch := Some(1))
  }

  lemma UnfitThrows(live: AdmissionLimits, revision: int)
    requires 1 <= revision <= MAX_SAFE_INTEGER
    requires var s := Initial(CONFIG, map[POOL := live]);
             && FirstReject(s.live, s.fallbacks, [PlainGrant(revision)]).None?
             && !Accepted(s.live, Updates(s.live, s.fallbacks, [PlainGrant(revision)]))
    ensures ThrowsUnreported(live, revision)
  {
    hide Updates, FirstReject, Accepted, ApplyDesired, OnPollReply, ApplyChecked, Preflight;
    var s, g := Initial(CONFIG, map[POOL := live]), PlainGrant(revision);
    var fenced, d := s.(clock := Some(Clock(0, 0)), epoch := Some(1)), DesiredState(1, 0, [g]);
    assert Parsed(CONFIG, d) by {
      assert Trim("g") == "g";
    }
    hide Parsed;
    PollBatch(s.live, s.fallbacks, d, CONFIG);
    PollCases(CONFIG, s, d, true, 0);
    ApplyCases(CONFIG, fenced, [g], 0);
    CheckedCases(fenced, [g], 0);
    assert [g][0].pool == POOL && Granted([g], POOL);
  }

  /** A grant without a token budget, for a pool that has one. */
  lemma TokenlessGrantThrows()
    ensures ThrowsUnreported(BudgetedLimits(), 1)
  {
    var s, g := Initial(CONFIG, map[POOL := BudgetedLimits()]), PlainGrant(1);
    assert [g][..0] == [];
    assert PlanFor(s.live, s.fallbacks, g) == Replace(None);
    assert Updates(s.live, s.fallbacks, [g]) == [GrantUpdate(g, None)];
    assert !Installable(s.live, [GrantUpdate(g, None)][0]);
    UnfitThrows(BudgetedLimits(), 1);
  }

  /** A grant of one slot that says nothing of classes, for a pool whose only class has a floor of two. */
  lemma FlooredGrantThrows()
    ensures ThrowsUnreported(ClassedLimits(), 1)
  {
    var s, g := Initial(CONFIG, map[POOL := ClassedLimits()]), PlainGrant(1);
    assert [g][..0] == [];
    assert s.fallbacks[POOL] == TABLE;
    assert PlanFor(s.live, s.fallbacks, g) == Replace(Some(TABLE));
    assert Updates(s.live, s.fallbacks, [g]) == [GrantUpdate(g, Some(TABLE))];
    FloorOfTwo();
    assert !Installable(s.live, [GrantUpdate(g, Some(TABLE))][0]);
    UnfitThrows(ClassedLimits(), 1);
  }

  lemma FloorOfTwo()
    ensures !TableOk(TABLE, 1, None)
  {
    FloorsInsert(map[], "a", ClassLimits(Some(2), None, None, None));
    SumZero(ConcurrentFloors(map[]));
    assert TABLE == map[]["a" := ClassLimits(Some(2), None, None, None)];
  }
}

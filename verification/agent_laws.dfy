/** What the agent's steps do, said in the fields of the grants, the limits and the clocks themselves. */
module AgentLaws {
  import opened Wrappers
  import opened Text
  import opened Limits
  import opened PoolStore
  import opened Demand
  import opened Drain
  import opened AgentModel
  import opened AgentInvariant
  import opened AgentSteps
  import opened AgentBatches
  import opened AgentTheorems

  // ---------- What has expired ----------

  /** The grant is past its end, by the local clock or by the controller's as last heard. */
  predicate Due(clock: Option<Clock>, g: Grant, now: int) {
    || g.expiresAt <= now
    || (clock.Some? && g.expiresAt <= clock.value.serverTimeMs + (now - clock.value.observedAtMs))
  }

  lemma ExpiredIsDue(s: AgentState, now: int, p: PoolId)
    ensures p in Expired(s, now) <==> p in s.grants && Due(s.clock, s.grants[p], now)
  {
  }

  /**
   * When the timer fires and does not throw, a held grant is let go and its pool closed, one revision
   * up, exactly when it is due. Every other grant stays held and every other pool keeps its limits.
   */
  lemma TimerClosesExactly(c: Config, s: AgentState, now: int, p: PoolId)
    requires Inv(c, s) && s.armed && p in s.live
    requires !Step(c, s, TimerFired(now)).halted
    ensures var t := Step(c, s, TimerFired(now));
            && p in t.live
            && (p in s.grants && Due(s.clock, s.grants[p], now) ==>
                  && p !in t.grants && p !in t.targets && !t.ready
                  && t.live[p].revision == s.grants[p].revision + 1
                  && HoldsNothing(t.live[p]))
            && (!(p in s.grants && Due(s.clock, s.grants[p], now)) ==>
                  && Find(t.grants, p) == Find(s.grants, p)
                  && Find(t.targets, p) == Find(s.targets, p)
                  && t.live[p] == s.live[p])
  {
    hide Expired, Killable, KillLive, HoldsNothing, Inv, OnTimer;
    ExpiredIsDue(s, now, p);
    TimerCases(s, now);
    if Expired(s, now) != map[] {
      KillSwitchCloses(c, s, now, p);
    }
  }

  /**
   * It throws, and then changes nothing but the timer, exactly when some due grant has the last safe
   * revision; and when nothing is due it only sets the timer anew.
   */
  lemma TimerThrowsExactly(c: Config, s: AgentState, now: int)
    requires Inv(c, s) && s.armed
    ensures var t := Step(c, s, TimerFired(now));
            && (t.halted <==>
                  exists p <- s.grants :: Due(s.clock, s.grants[p], now) && s.grants[p].revision == MAX_SAFE_INTEGER)
            && (t.halted ==> t == s.(armed := false, halted := true))
            && ((forall p <- s.grants :: !Due(s.clock, s.grants[p], now)) ==>
                  t == s.(armed := s.grants != map[], halted := false))
  {
    hide Killable, KillLive, Inv, OnTimer, Expired;
    TimerCases(s, now);
    forall p <- s.grants
      ensures p in Expired(s, now) <==> Due(s.clock, s.grants[p], now)
      ensures s.grants[p].revision <= MAX_SAFE_INTEGER
    {
      ExpiredIsDue(s, now, p);
      HeldIsSafe(c, s, p);
    }
    OnlyHeldExpire(s, now);
    if Expired(s, now) != map[] {
      KillSwitchTotal(c, s, now);
    }
  }

  lemma HeldIsSafe(c: Config, s: AgentState, p: PoolId)
    requires Inv(c, s) && p in s.grants
    ensures s.grants[p].revision <= MAX_SAFE_INTEGER
  {
  }

  lemma OnlyHeldExpire(s: AgentState, now: int)
    ensures Expired(s, now).Keys <= s.grants.Keys
    ensures Expired(s, now) == map[] <==> Expired(s, now).Keys == {}
  {
  }

  // ---------- Readiness ----------

  /** Every managed pool holds a grant that is not due. */
  predicate AllCurrent(c: Config, s: AgentState, now: int) {
    forall p <- c.managed :: p in s.grants && !Due(s.clock, s.grants[p], now)
  }

  lemma CompleteIsCurrent(c: Config, s: AgentState, now: int)
    ensures Complete(c, s, now) <==> AllCurrent(c, s, now)
  {
  }

  function TimeOf(e: Event): int {
    match e
    case PollReply(_, _, now) => now
    case PollFailed(now) => now
    case RejectionAcked(now) => now
    case Published(_, now) => now
    case TimerFired(now) => now
    case _ => 0
  }

  /**
   * Readiness after any step. A step that looks at the grants again leaves the agent ready exactly when
   * every managed pool holds a grant that is not due, and a rejection for anything but an expired grant
   * withdraws it. Otherwise it is lost by a stop or by a kill switch that closes something, and never
   * gained.
   */
  lemma ReadinessExactly(c: Config, s: AgentState, e: Event)
    requires Inv(c, s)
    ensures var t, now := Step(c, s, e), TimeOf(e);
            t.ready <==>
              if Rechecks(c, s, e) then AllCurrent(c, t, now) && (e.RejectionAcked? ==> s.phase.recheck)
              else
                && s.ready && !e.Stopped?
                && !(e.TimerFired? && s.armed && !t.halted && exists p <- s.grants :: Due(s.clock, s.grants[p], now))
  {
    hide OnPollReply, OnAckReply, OnPublished, OnRejectionAcked, ShortReply, Retire, Complete, OnTimer, Inv, AllCurrent,
         Due;
    CompleteIsCurrent(c, Step(c, s, e), TimeOf(e));
    match e
    case PollReply(d, topologyAccepted, now) => ReplyReadiness(c, s, d, topologyAccepted, now);
    case TimerFired(now) => TimerReadiness(c, s, now);
    case PollFailed(now) => CompleteDepends(c, s, Step(c, s, e), now);
    case RejectionAcked(now) => RejectionReadiness(c, s, now);
    case Published(demand, now) => PublishedReadiness(c, s, demand, now);
    case AckReply(ok) => AckKeeps(s, ok);
    case _ =>
  }

  lemma RejectionReadiness(c: Config, s: AgentState, now: int)
    ensures var t := OnRejectionAcked(c, s, now);
            t.ready <==> if s.phase.Rejecting? then Complete(c, t, now) && s.phase.recheck else s.ready
  {
  }

  lemma PublishedReadiness(c: Config, s: AgentState, demand: Option<seq<PoolDemandSnapshot>>, now: int)
    ensures var t := OnPublished(c, s, demand, now);
            t.ready <==> if s.phase.Publishing? then Complete(c, t, now) else s.ready
  {
    hide Retire;
  }

  lemma ReplyReadiness(c: Config, s: AgentState, d: DesiredState, topologyAccepted: bool, now: int)
    ensures var t := OnPollReply(c, s, d, topologyAccepted, now);
            t.ready <==> if ShortReply(c, s, d, topologyAccepted) then Complete(c, t, now) else s.ready
  {
    hide Complete, OnPollReply, Parsed, Granted, ApplyDesired, EffectiveNow;
    if !s.phase.Idle? {
      NotIdle(c, s, d, topologyAccepted, now);
    } else if ShortReply(c, s, d, topologyAccepted) {
      TimerAfterShort(c, s, d, topologyAccepted, now);
    } else {
      PollCases(c, s, d, topologyAccepted, now);
      var fenced := s.(clock := Some(Clock(d.serverTime, now)), epoch := Some(d.controllerEpoch));
      ApplyCases(c, fenced, d.grants, now);
      CheckedKeepsReady(fenced, d.grants, now);
      hide ApplyChecked;
    }
  }

  lemma CheckedKeepsReady(s: AgentState, grants: seq<Grant>, now: int)
    ensures ApplyChecked(s, grants, now).ready == s.ready
  {
    hide FirstReject, Updates, Accepted, Installed, Remember, Shrinks, StillDesired, Additions;
  }

  lemma TimerReadiness(c: Config, s: AgentState, now: int)
    requires Inv(c, s)
    ensures var t := OnTimer(s, now);
            t.ready <==>
              s.ready && !(s.armed && !t.halted && exists p <- s.grants :: Due(s.clock, s.grants[p], now))
  {
    hide Killable, KillLive, Inv, Expired, OnTimer;
    if s.armed {
      TimerCases(s, now);
      OnlyHeldExpire(s, now);
      forall p <- s.grants
        ensures p in Expired(s, now) <==> Due(s.clock, s.grants[p], now)
      {
        ExpiredIsDue(s, now, p);
      }
    } else {
      FiringUnset(s, now);
    }
  }

  // ---------- Deciding a grant ----------

  /** The live limits say what the grant says; a grant that omits classes says nothing about them. */
  predicate SaysTheSame(l: AdmissionLimits, g: Grant) {
    && l.maxConcurrent == g.limits.maxConcurrent
    && l.maxQueue == g.limits.maxQueue
    && l.tokenBudget == g.limits.tokenBudget
    && (g.limits.admissionClasses.Some? ==> l.admissionClasses == g.limits.admissionClasses)
  }

  /**
   * A grant is kept exactly at the live revision with the live content, refused for its content exactly
   * at the live revision with other content, and refused as behind exactly below it. Above it, it is
   * installed with its own classes, which need the keys of the remembered table, or else of the live
   * one; or with that table, if it omits classes.
   */
  lemma DecisionsExactly(live: map<PoolId, AdmissionLimits>, fallbacks: map<PoolId, ClassTable>, g: Grant)
    requires g.limits.revision == g.revision
    ensures var plan := PlanFor(live, fallbacks, g);
            && (plan == Reject(UnknownManagedPool) <==> g.pool !in live)
            && (g.pool in live ==>
                  var l := live[g.pool];
                  var table := if g.pool in fallbacks then Some(fallbacks[g.pool]) else l.admissionClasses;
                  && (plan == Keep <==> l.revision == g.revision && SaysTheSame(l, g))
                  && (plan == Reject(RevisionContentConflict) <==> l.revision == g.revision && !SaysTheSame(l, g))
                  && (plan == Reject(LocalRevisionAhead) <==> g.revision < l.revision)
                  && (l.revision < g.revision ==>
                        if g.limits.admissionClasses.None? then plan == Replace(table)
                        else if table.None? then plan == Reject(ClassesNotConfigured)
                        else if table.value.Keys != g.limits.admissionClasses.value.Keys
                          then plan == Reject(ClassKeyMismatch)
                        else plan == Replace(g.limits.admissionClasses)))
  {
  }

  /** The grant is the first that is refused, with that reason. */
  ghost predicate FirstRefused(live: map<PoolId, AdmissionLimits>, fallbacks: map<PoolId, ClassTable>,
                               grants: seq<Grant>, i: nat, reason: Reason)
  {
    && i < |grants|
    && PlanFor(live, fallbacks, grants[i]) == Reject(reason)
    && forall j | 0 <= j < i :: !PlanFor(live, fallbacks, grants[j]).Reject?
  }

  /** The batch is refused with the reason of the first grant that is. */
  lemma {:induction false} FirstRejectIsFirst(live: map<PoolId, AdmissionLimits>, fallbacks: map<PoolId, ClassTable>,
                                              grants: seq<Grant>, reason: Reason)
    ensures FirstReject(live, fallbacks, grants) == Some(reason) <==>
              exists i: nat :: FirstRefused(live, fallbacks, grants, i, reason)
    decreases |grants|
  {
    hide PlanFor;
    if grants != [] {
      var n := |grants| - 1;
      FirstRejectIsFirst(live, fallbacks, grants[..n], reason);
      NoReject(live, fallbacks, grants[..n]);
      forall i: nat | FirstRefused(live, fallbacks, grants[..n], i, reason)
        ensures FirstRefused(live, fallbacks, grants, i, reason)
      {
      }
      forall i: nat | FirstRefused(live, fallbacks, grants, i, reason)
        ensures i < n ==> FirstRefused(live, fallbacks, grants[..n], i, reason)
        ensures i == n ==> FirstReject(live, fallbacks, grants[..n]).None?
                           && PlanFor(live, fallbacks, grants[n]) == Reject(reason)
      {
        assert forall j | 0 <= j < n :: grants[..n][j] == grants[j];
      }
      if FirstReject(live, fallbacks, grants[..n]).None? && PlanFor(live, fallbacks, grants[n]) == Reject(reason) {
        forall j | 0 <= j < n
          ensures !PlanFor(live, fallbacks, grants[j]).Reject?
        {
          assert grants[..n][j] == grants[j];
        }
        assert FirstRefused(live, fallbacks, grants, n, reason);
      }
    }
  }

  /** A reply that is parsed, current, accepted by the router and grants every managed pool. */
  ghost predicate FullReply(c: Config, s: AgentState, d: DesiredState) {
    && s.phase.Idle? && Parsed(c, d)
    && !(s.epoch.Some? && d.controllerEpoch < s.epoch.value)
    && forall p <- c.managed :: Granted(d.grants, p)
  }

  /** Some grant of the reply is past its end, by the local clock or by the reply's own time. */
  predicate SomeDue(d: DesiredState, now: int) {
    exists i | 0 <= i < |d.grants| :: d.grants[i].expiresAt <= now || d.grants[i].expiresAt <= d.serverTime
  }

  /**
   * Such a reply is rejected as expired exactly when some grant of it is past its end; and for another
   * reason exactly when none is and that is the reason of the first grant refused.
   */
  lemma ReplyRejectsExactly(c: Config, s: AgentState, d: DesiredState, now: int, reason: Reason)
    requires FullReply(c, s, d)
    ensures var t := Step(c, s, PollReply(d, true, now));
            && (t.phase == Rejecting(GrantExpired, true) <==> SomeDue(d, now))
            && (reason != GrantExpired ==>
                  (t.phase == Rejecting(reason, false) <==>
                     !SomeDue(d, now) && exists i: nat :: FirstRefused(s.live, s.fallbacks, d.grants, i, reason)))
  {
    hide FullReply, SomeDue, FirstReject, FirstRefused, OnPollReply;
    FullReplyCases(c, s, d, now);
    CheckedRejects(s.(clock := Some(Clock(d.serverTime, now)), epoch := Some(d.controllerEpoch)), d.grants, now,
                   reason);
    FirstRejectIsFirst(s.live, s.fallbacks, d.grants, reason);
  }

  lemma FullReplyCases(c: Config, s: AgentState, d: DesiredState, now: int)
    requires FullReply(c, s, d)
    ensures s.phase.Idle?
    ensures OnPollReply(c, s, d, true, now) ==
              if SomeDue(d, now) then Fenced(s, d, now).(phase := Rejecting(GrantExpired, true))
              else ApplyChecked(Fenced(s, d, now), d.grants, now)
  {
    hide Parsed, Granted, ApplyDesired, ApplyChecked, SomeDue;
    var fenced := Fenced(s, d, now);
    PollCases(c, s, d, true, now);
    ApplyCases(c, fenced, d.grants, now);
    DueAtReply(fenced, d, now);
  }

  lemma DueAtReply(s: AgentState, d: DesiredState, now: int)
    requires s.clock == Some(Clock(d.serverTime, now))
    ensures SomeDue(d, now) <==> exists i | 0 <= i < |d.grants| :: d.grants[i].expiresAt <= EffectiveNow(s.clock, now)
  {
  }

  lemma CheckedRejects(s: AgentState, grants: seq<Grant>, now: int, reason: Reason)
    requires s.phase.Idle?
    ensures var t := ApplyChecked(s, grants, now);
            && t.phase != Rejecting(GrantExpired, true)
            && (t.phase == Rejecting(reason, false) <==> FirstReject(s.live, s.fallbacks, grants) == Some(reason))
  {
    hide FirstReject, Updates, Accepted, Installed, Remember, Shrinks, StillDesired, Additions;
  }

  /** A rejection is followed by a second look at the grants exactly when it was for an expired grant. */
  predicate RechecksExpired(s: AgentState) {
    s.phase.Rejecting? ==> (s.phase.recheck <==> s.phase.reason.GrantExpired?)
  }

  lemma {:induction false} OnlyExpiredIsRechecked(c: Config, live: map<PoolId, AdmissionLimits>, events: seq<Event>)
    ensures RechecksExpired(Run(c, live, events))
    decreases |events|
  {
    hide Step, RechecksExpired;
    if events == [] {
      InitialRechecks(c, live);
    } else {
      var n := |events| - 1;
      OnlyExpiredIsRechecked(c, live, events[..n]);
      StepRechecks(c, Run(c, live, events[..n]), events[n]);
    }
  }

  lemma InitialRechecks(c: Config, live: map<PoolId, AdmissionLimits>)
    ensures RechecksExpired(Initial(c, live))
  {
  }

  lemma StepRechecks(c: Config, s: AgentState, e: Event)
    requires RechecksExpired(s)
    ensures RechecksExpired(Step(c, s, e))
  {
    hide OnPollReply, Retire, Complete, AckTarget, OnTimer;
    match e
    case PollReply(d, topologyAccepted, now) => ReplyRechecks(c, s, d, topologyAccepted, now);
    case TimerFired(now) => TimerKeepsPhase(s, now);
    case _ =>
  }

  lemma TimerKeepsPhase(s: AgentState, now: int)
    ensures OnTimer(s, now).phase == s.phase
  {
    hide Killable, KillLive, Expired, OnTimer;
    if s.armed {
      TimerCases(s, now);
    } else {
      FiringUnset(s, now);
    }
  }

  lemma ReplyRechecks(c: Config, s: AgentState, d: DesiredState, topologyAccepted: bool, now: int)
    requires RechecksExpired(s)
    ensures RechecksExpired(OnPollReply(c, s, d, topologyAccepted, now))
  {
    hide OnPollReply, SameHoldings, Accepted, FirstReject, Updates, Parsed;
    ReplyKinds(c, s, d, topologyAccepted, now);
    if Commits(c, s, d, topologyAccepted, now) {
      CommitIsNoRejection(Fenced(s, d, now), d.grants, now);
    }
    hide Commit, Commits;
  }

  lemma CommitIsNoRejection(s: AgentState, grants: seq<Grant>, now: int)
    ensures !Commit(s, grants, now).phase.Rejecting?
  {
    hide Updates, Installed, Remember, Shrinks, StillDesired, Additions;
  }

  // ---------- The three ways a reply can go ----------

  /** Limits, grants, tables, targets and history are the same. */
  predicate SameHoldings(s: AgentState, t: AgentState) {
    t == s.(clock := t.clock, epoch := t.epoch, ready := t.ready, armed := t.armed, halted := t.halted,
            phase := t.phase)
  }

  function Fenced(s: AgentState, d: DesiredState, now: int): AgentState {
    s.(clock := Some(Clock(d.serverTime, now)), epoch := Some(d.controllerEpoch))
  }

  /** The reply is applied. */
  ghost predicate Commits(c: Config, s: AgentState, d: DesiredState, topologyAccepted: bool, now: int) {
    && FullReply(c, s, d) && topologyAccepted && !SomeDue(d, now)
    && FirstReject(s.live, s.fallbacks, d.grants).None? && Accepted(s.live, Updates(s.live, s.fallbacks, d.grants))
  }

  /** Nothing is applied: the phase stays, or a rejection begins, with a second look only for an expired grant. */
  predicate TurnedAway(s: AgentState, t: AgentState) {
    SameHoldings(s, t) && (t.phase == s.phase || (s.phase.Idle? && t.phase.Rejecting? && RechecksExpired(t)))
  }

  /** A reply is applied, or it is turned away; and only the first touches holdings. */
  lemma ReplyKinds(c: Config, s: AgentState, d: DesiredState, topologyAccepted: bool, now: int)
    ensures var t := OnPollReply(c, s, d, topologyAccepted, now);
            if Commits(c, s, d, topologyAccepted, now) then t == Commit(Fenced(s, d, now), d.grants, now)
            else TurnedAway(s, t)
  {
    hide OnPollReply, SomeDue, FullReply, Commit, FirstReject, Accepted, Updates, ApplyChecked, TurnedAway, Fenced;
    if !s.phase.Idle? {
      NotIdle(c, s, d, topologyAccepted, now);
      NotFull(c, s, d);
      Aside(s, s);
    } else if FullReply(c, s, d) && topologyAccepted {
      FullReplyCases(c, s, d, now);
      CheckedKinds(s, d, now);
    } else {
      OtherReply(c, s, d, topologyAccepted, now);
      Aside(s, OnPollReply(c, s, d, topologyAccepted, now));
    }
  }

  lemma Aside(s: AgentState, t: AgentState)
    requires SameHoldings(s, t)
             && (t.phase == s.phase || (s.phase.Idle? && t.phase.Rejecting? && RechecksExpired(t)))
    ensures TurnedAway(s, t)
  {
  }

  lemma CheckedKinds(s: AgentState, d: DesiredState, now: int)
    requires s.phase.Idle?
    ensures TurnedAway(s, Fenced(s, d, now).(phase := Rejecting(GrantExpired, true)))
    ensures var t, u := ApplyChecked(Fenced(s, d, now), d.grants, now), Fenced(s, d, now);
            if FirstReject(s.live, s.fallbacks, d.grants).None?
            && Accepted(s.live, Updates(s.live, s.fallbacks, d.grants))
            then t == Commit(u, d.grants, now)
            else TurnedAway(s, t)
  {
    hide Commit, FirstReject, Accepted, Updates, ApplyChecked;
    CheckedCases(Fenced(s, d, now), d.grants, now);
    NeverRejectedAsExpired(s.live, s.fallbacks, d.grants);
  }

  lemma NotFull(c: Config, s: AgentState, d: DesiredState)
    requires !s.phase.Idle?
    ensures !FullReply(c, s, d)
  {
    hide Parsed;
  }

  lemma OtherReply(c: Config, s: AgentState, d: DesiredState, topologyAccepted: bool, now: int)
    requires s.phase.Idle? && !(FullReply(c, s, d) && topologyAccepted)
    ensures var t := OnPollReply(c, s, d, topologyAccepted, now); SameHoldings(s, t) && t.phase == s.phase
  {
    hide Parsed, Granted, ApplyDesired, OnPollReply, Fenced, EffectiveNow;
    PollCases(c, s, d, topologyAccepted, now);
    var fenced := s.(clock := Some(Clock(d.serverTime, now)), epoch := Some(d.controllerEpoch));
    if exists p <- c.managed :: !Granted(d.grants, p) {
      ShortAside(c, fenced, d.grants, now);
    }
  }

  lemma ShortAside(c: Config, s: AgentState, grants: seq<Grant>, now: int)
    requires exists p <- c.managed :: !Granted(grants, p)
    ensures var t := ApplyDesired(c, s, grants, now); SameHoldings(s, t) && t.phase == s.phase
  {
    hide Granted, Recheck, ApplyDesired;
    RecheckAside(c, s, now);
    IsRecheck(c, s, grants, now);
  }

  lemma IsRecheck(c: Config, s: AgentState, grants: seq<Grant>, now: int)
    requires exists p <- c.managed :: !Granted(grants, p)
    ensures ApplyDesired(c, s, grants, now) == Recheck(c, s, now)
  {
    hide Granted, Recheck, Commit, Accepted, FirstReject, Updates, EffectiveNow;
  }

  lemma RecheckAside(c: Config, s: AgentState, now: int)
    ensures var t := Recheck(c, s, now);
            SameHoldings(s, t) && t.phase == s.phase && t.clock == s.clock && t.epoch == s.epoch
  {
    hide Complete;
  }

  lemma NeverRejectedAsExpired(live: map<PoolId, AdmissionLimits>, fallbacks: map<PoolId, ClassTable>,
                               grants: seq<Grant>)
    ensures FirstReject(live, fallbacks, grants) != Some(GrantExpired)
  {
    hide FirstRefused;
    FirstRejectIsFirst(live, fallbacks, grants, GrantExpired);
    if FirstReject(live, fallbacks, grants) == Some(GrantExpired) {
      var i: nat :| FirstRefused(live, fallbacks, grants, i, GrantExpired);
      NotRefusedAsExpired(live, fallbacks, grants, i);
    }
  }

  lemma NotRefusedAsExpired(live: map<PoolId, AdmissionLimits>, fallbacks: map<PoolId, ClassTable>,
                            grants: seq<Grant>, i: nat)
    ensures !FirstRefused(live, fallbacks, grants, i, GrantExpired)
  {
  }

  // ---------- What a commit installs ----------

  /**
   * Once a desired state has been applied, every pool it grants has the revision, slots, queue and
   * budget of its grant, with the grant's classes if it has any.
   */
  lemma CommittedLimits(c: Config, live: map<PoolId, AdmissionLimits>, fallbacks: map<PoolId, ClassTable>,
                        d: DesiredState, i: nat)
    requires Parsed(c, d) && i < |d.grants|
    requires FirstReject(live, fallbacks, d.grants).None?
    requires Accepted(live, Updates(live, fallbacks, d.grants))
    ensures var g, after := d.grants[i], Installed(live, Updates(live, fallbacks, d.grants));
            g.pool in after && after[g.pool].revision == g.revision && SaysTheSame(after[g.pool], g)
  {
    hide Accepted, Installed, Updates, FirstReject;
    NoReject(live, fallbacks, d.grants);
    InstalledFor(live, fallbacks, d.grants, i);
    assert GrantParsed(c, d.grants[i], d.controllerEpoch);
  }

  /** A pool that is not granted keeps its limits. */
  lemma UngrantedKeep(live: map<PoolId, AdmissionLimits>, fallbacks: map<PoolId, ClassTable>, grants: seq<Grant>,
                      p: PoolId)
    requires DistinctGrants(grants) && Accepted(live, Updates(live, fallbacks, grants))
    requires p in live && !Granted(grants, p)
    ensures var after := Installed(live, Updates(live, fallbacks, grants)); p in after && after[p] == live[p]
  {
    hide PlanFor, Acceptable, ProvenanceOk;
    var updates := Updates(live, fallbacks, grants);
    BatchSpec(live, fallbacks, grants);
    forall j | 0 <= j < |updates|
      ensures updates[j].pool != p && updates[j].pool in live
    {
      assert updates[j] in updates && Installable(live, updates[j]);
      var k :| 0 <= k < |grants| && UpdateFor(live, fallbacks, grants[k], updates[j]);
    }
    InstalledExactly(live, updates);
  }

  /** So the same grants, brought again, are all kept, whatever tables are remembered by then. */
  lemma RepeatIsKept(c: Config, live: map<PoolId, AdmissionLimits>, fallbacks: map<PoolId, ClassTable>,
                     d: DesiredState, i: nat, remembered: map<PoolId, ClassTable>)
    requires Parsed(c, d) && i < |d.grants|
    requires FirstReject(live, fallbacks, d.grants).None?
    requires Accepted(live, Updates(live, fallbacks, d.grants))
    ensures PlanFor(Installed(live, Updates(live, fallbacks, d.grants)), remembered, d.grants[i]) == Keep
  {
    hide Accepted, Installed, Updates, FirstReject;
    CommittedLimits(c, live, fallbacks, d, i);
    assert GrantParsed(c, d.grants[i], d.controllerEpoch);
    DecisionsExactly(Installed(live, Updates(live, fallbacks, d.grants)), remembered, d.grants[i]);
  }

  lemma {:induction false} AllKept(live: map<PoolId, AdmissionLimits>, fallbacks: map<PoolId, ClassTable>,
                                   grants: seq<Grant>)
    requires forall i | 0 <= i < |grants| :: PlanFor(live, fallbacks, grants[i]) == Keep
    ensures FirstReject(live, fallbacks, grants).None?
    ensures Updates(live, fallbacks, grants) == [] && Shrinks(live, fallbacks, grants) == map[]
    decreases |grants|
  {
    hide PlanFor, DrainTargetOf;
    if grants != [] {
      var n := |grants| - 1;
      assert forall i | 0 <= i < n :: grants[..n][i] == grants[i];
      AllKept(live, fallbacks, grants[..n]);
    }
  }

  /** The grants of the reply are what is live; nothing of it is past its end. */
  ghost predicate Repeats(c: Config, s: AgentState, d: DesiredState, now: int) {
    && FullReply(c, s, d) && !SomeDue(d, now)
    && forall i | 0 <= i < |d.grants| :: PlanFor(s.live, s.fallbacks, d.grants[i]) == Keep
  }

  /** Polling again for what is live changes no limits, no history and no readiness, and asks for no new drain. */
  lemma RepeatChangesNothing(c: Config, s: AgentState, d: DesiredState, now: int)
    requires Repeats(c, s, d, now)
    ensures var t := Step(c, s, PollReply(d, true, now));
            && t.live == s.live && t.installs == s.installs && t.fallbacks == s.fallbacks && t.ready == s.ready
            && t.phase ==
               (if d.grants == [] then Publishing else Committing(d.grants[0], d.grants[1..], map[]))
            && t.targets == StillDesired(s.targets, d.grants)
  {
    hide FullReply, SomeDue, PlanFor, OnPollReply, StillDesired;
    FullReplyCases(c, s, d, now);
    AllKept(s.live, s.fallbacks, d.grants);
  }

  /**
   * Over a run: after a poll has been applied, and while no revision has moved since, a poll that
   * brings the same grants changes nothing.
   */
  lemma RepeatedPollChangesNothing(c: Config, live: map<PoolId, AdmissionLimits>, events: seq<Event>, i: nat,
                                   d: DesiredState, again: DesiredState, now: int)
    requires AllWellFormed(live) && i < |events| && events[i].PollReply? && events[i].desired == d
    requires var s := Run(c, live, events[..i]);
             && FullReply(c, s, d) && events[i].topologyAccepted && !SomeDue(d, events[i].now)
             && FirstReject(s.live, s.fallbacks, d.grants).None?
                && Accepted(s.live, Updates(s.live, s.fallbacks, d.grants))
    requires var s, t := Run(c, live, events[..i + 1]), Run(c, live, events);
             forall p <- s.live :: p in t.live && t.live[p].revision == s.live[p].revision
    requires again.grants == d.grants && FullReply(c, Run(c, live, events), again) && !SomeDue(again, now)
    ensures var u, v := Run(c, live, events), Step(c, Run(c, live, events), PollReply(again, true, now));
            && v.live == u.live && v.installs == u.installs && v.ready == u.ready
            && InCommit(v) && (v.phase.Committing? ==> v.phase.shrink == map[])
  {
    hide FullReply, SomeDue, PlanFor, FirstReject, Accepted, Updates, Installed, Run, Step, Advances, StillDesired;
    var s, t, u := Run(c, live, events[..i]), Run(c, live, events[..i + 1]), Run(c, live, events);
    LastStep(c, live, events, i);
    CommitInstalls(c, s, d, events[i].now);
    RunAdvances(c, live, events, i + 1);
    forall p <- t.live
      ensures u.live[p] == t.live[p]
    {
      StandsStill(t.live[p], u.live[p]);
    }
    assert u.live == t.live;
    FullIsParsed(c, s, d);
    forall j | 0 <= j < |again.grants|
      ensures PlanFor(u.live, u.fallbacks, again.grants[j]) == Keep
    {
      RepeatIsKept(c, s.live, s.fallbacks, d, j, u.fallbacks);
    }
    RepeatChangesNothing(c, u, again, now);
  }

  lemma FullIsParsed(c: Config, s: AgentState, d: DesiredState)
    requires FullReply(c, s, d)
    ensures Parsed(c, d)
  {
  }

  lemma StandsStill(a: AdmissionLimits, b: AdmissionLimits)
    requires Advances(a, b) && a.revision == b.revision
    ensures a == b
  {
  }

  lemma LastStep(c: Config, live: map<PoolId, AdmissionLimits>, events: seq<Event>, i: nat)
    requires i < |events|
    ensures Run(c, live, events[..i + 1]) == Step(c, Run(c, live, events[..i]), events[i])
  {
    hide Step;
    assert events[..i + 1][..i] == events[..i];
  }

  lemma CommitInstalls(c: Config, s: AgentState, d: DesiredState, now: int)
    requires FullReply(c, s, d) && !SomeDue(d, now)
    requires FirstReject(s.live, s.fallbacks, d.grants).None?
    requires Accepted(s.live, Updates(s.live, s.fallbacks, d.grants))
    ensures Step(c, s, PollReply(d, true, now)).live == Installed(s.live, Updates(s.live, s.fallbacks, d.grants))
  {
    hide FullReply, SomeDue, FirstReject, Updates, Accepted, Installed, OnPollReply, Remember, Shrinks, StillDesired,
         Additions;
    FullReplyCases(c, s, d, now);
  }

  // ---------- What is recorded ----------

  /** The record names the grant, and ends when it does. */
  predicate NamesGrant(u: PoolLimitsUpdate, g: Grant) {
    && u.provenance.Some?
    && u.provenance.value.source == "latchflo"
    && u.provenance.value.grantId == g.grantId
    && u.provenance.value.controllerEpoch == g.controllerEpoch
    && u.provenance.value.expiresAt == Some(g.expiresAt)
    && u.provenance.value.revision == u.limits.revision
  }

  /** Both the update that installs a grant and the one that closes its pool are recorded under the grant. */
  lemma UpdatesNameGrants(live: map<PoolId, AdmissionLimits>, g: Grant, classes: Option<ClassTable>)
    requires g.limits.revision == g.revision
    ensures var u := GrantUpdate(g, classes); NamesGrant(u, g) && u.pool == g.pool && u.limits.revision == g.revision
    ensures g.pool in live ==>
              var u := KillUpdate(live, g);
              NamesGrant(u, g) && u.pool == g.pool && u.limits.revision == g.revision + 1
  {
  }

  /** The installation is that of the grant, at the later of the two times the reply brings. */
  predicate Records(a: Install, g: Grant, d: DesiredState, now: int, live: map<PoolId, AdmissionLimits>) {
    && a.pool == g.pool && g.pool in live && a.limits == live[g.pool]
    && a.epoch == d.controllerEpoch && a.expiresAt == g.expiresAt
    && a.at == if now < d.serverTime then d.serverTime else now
  }

  /** Every installation that applying a reply adds to the history is that of one of its grants. */
  lemma InstallsRecordGrants(c: Config, s: AgentState, d: DesiredState, now: int, k: nat)
    requires Commits(c, s, d, true, now)
    requires |s.installs| <= k < |Step(c, s, PollReply(d, true, now)).installs|
    ensures var t := Step(c, s, PollReply(d, true, now));
            exists i | 0 <= i < |d.grants| :: Records(t.installs[k], d.grants[i], d, now, t.live)
  {
    hide OnPollReply, Commits, Updates, Installed, Remember, Shrinks, StillDesired, PlanFor, Additions;
    ReplyKinds(c, s, d, true, now);
    CommitRecords(c, s, d, now, k - |s.installs|);
  }

  lemma CommitRecords(c: Config, s: AgentState, d: DesiredState, now: int, j: nat)
    requires Commits(c, s, d, true, now) && j < |Updates(s.live, s.fallbacks, d.grants)|
    ensures var u := Updates(s.live, s.fallbacks, d.grants);
            var live := Installed(s.live, u);
            exists i | 0 <= i < |d.grants| ::
              Records(InstallOf(Fenced(s, d, now), u[j], now), d.grants[i], d, now, live)
  {
    hide Installed, PlanFor, FirstReject, Accepted, Updates, SomeDue, GrantParsed, Granted;
    var updates := Updates(s.live, s.fallbacks, d.grants);
    BatchSpec(s.live, s.fallbacks, d.grants);
    assert updates[j] in updates;
    var i :| 0 <= i < |d.grants| && UpdateFor(s.live, s.fallbacks, d.grants[i], updates[j]);
    InstalledFor(s.live, s.fallbacks, d.grants, i);
    assert GrantParsed(c, d.grants[i], d.controllerEpoch);
    EpochOf(c, d.grants[i], d.controllerEpoch);
    assert Records(InstallOf(Fenced(s, d, now), updates[j], now), d.grants[i], d, now,
                   Installed(s.live, updates));
  }

  lemma EpochOf(c: Config, g: Grant, epoch: int)
    requires GrantParsed(c, g, epoch)
    ensures g.controllerEpoch == epoch
  {
  }

  // ---------- Clock, epoch and timer ----------

  /**
   * The clock is taken from every reply that is let through. The epoch is too, unless that would lower
   * it; only a registration may lower it, and nothing else touches either.
   */
  lemma FenceExactly(c: Config, s: AgentState, e: Event)
    ensures var t := Step(c, s, e);
            && t.clock == (if e.PollReply? && s.phase.Idle? && Parsed(c, e.desired)
                           then Some(Clock(e.desired.serverTime, e.now)) else s.clock)
            && t.epoch == (if e.Registered? then Some(e.epoch)
                           else if e.PollReply? && s.phase.Idle? && Parsed(c, e.desired)
                                   && (s.epoch.Some? ==> s.epoch.value <= e.desired.controllerEpoch)
                           then Some(e.desired.controllerEpoch) else s.epoch)
            && t.registrations == s.registrations + (if e.Registered? then 1 else 0)
  {
    hide OnPollReply, OnTimer, Parsed, Complete, Retire, AckTarget;
    match e
    case PollReply(d, topologyAccepted, now) => ReplyFences(c, s, d, topologyAccepted, now);
    case TimerFired(now) => TimerKeepsFence(s, now);
    case _ =>
  }

  lemma TimerKeepsFence(s: AgentState, now: int)
    ensures var t := OnTimer(s, now); t.clock == s.clock && t.epoch == s.epoch && t.registrations == s.registrations
  {
    hide Killable, KillLive, Expired, OnTimer;
    if s.armed {
      TimerCases(s, now);
    } else {
      FiringUnset(s, now);
    }
  }

  lemma ReplyFences(c: Config, s: AgentState, d: DesiredState, topologyAccepted: bool, now: int)
    ensures var t := OnPollReply(c, s, d, topologyAccepted, now);
            && t.registrations == s.registrations
            && (if !s.phase.Idle? || !Parsed(c, d) then t.clock == s.clock && t.epoch == s.epoch
                else
                  && t.clock == Some(Clock(d.serverTime, now))
                  && (if s.epoch.Some? && d.controllerEpoch < s.epoch.value then t.epoch == s.epoch
                      else t.epoch == Some(d.controllerEpoch)))
  {
    hide OnPollReply, Parsed, ApplyDesired;
    if !s.phase.Idle? {
      NotIdle(c, s, d, topologyAccepted, now);
    } else {
      PollCases(c, s, d, topologyAccepted, now);
      ApplyKeepsFence(c, s.(clock := Some(Clock(d.serverTime, now)), epoch := Some(d.controllerEpoch)), d.grants, now);
    }
  }

  lemma ApplyKeepsFence(c: Config, s: AgentState, grants: seq<Grant>, now: int)
    ensures var t := ApplyDesired(c, s, grants, now);
            t.clock == s.clock && t.epoch == s.epoch && t.registrations == s.registrations
  {
    hide ApplyDesired, ApplyChecked, Granted, Recheck, EffectiveNow;
    if exists p <- c.managed :: !Granted(grants, p) {
      IsRecheck(c, s, grants, now);
      RecheckAside(c, s, now);
    } else {
      ApplyCases(c, s, grants, now);
      CheckedKeepsFence(s, grants, now);
    }
  }

  lemma CheckedKeepsFence(s: AgentState, grants: seq<Grant>, now: int)
    ensures var t := ApplyChecked(s, grants, now);
            t.clock == s.clock && t.epoch == s.epoch && t.registrations == s.registrations
  {
    hide FirstReject, Accepted, Updates, Installed, Remember, Shrinks, StillDesired, Additions;
  }

  /** The timer has been given up since it threw or was stopped exactly until something sets it anew. */
  lemma HaltedExactly(c: Config, s: AgentState, e: Event)
    requires Inv(c, s)
    ensures var t := Step(c, s, e);
            t.halted <==>
              || e.Stopped?
              || (if e.TimerFired? && s.armed then
                    exists p <- s.grants :: Due(s.clock, s.grants[p], e.now) && s.grants[p].revision == MAX_SAFE_INTEGER
                  else s.halted && !Reschedules(c, s, e))
  {
    hide OnPollReply, OnTimer, OnAckReply, OnPublished, OnRejectionAcked, Inv, ShortReply, Due;
    match e
    case PollReply(d, topologyAccepted, now) => TimerAfterReply(c, s, d, topologyAccepted, now);
    case TimerFired(now) =>
      if s.armed {
        TimerThrowsExactly(c, s, now);
      } else {
        FiringUnset(s, now);
      }
    case AckReply(ok) => AckKeepsHalted(s, ok);
    case RejectionAcked(now) => RejectionHalts(c, s, now);
    case Published(demand, now) => PublishedHalts(c, s, demand, now);
    case _ =>
  }

  lemma AckKeepsHalted(s: AgentState, ok: bool)
    ensures OnAckReply(s, ok).halted == s.halted
  {
    hide AckTarget;
  }

  lemma RejectionHalts(c: Config, s: AgentState, now: int)
    ensures OnRejectionAcked(c, s, now).halted == (s.halted && !(s.phase.Rejecting? && s.phase.recheck))
  {
    hide Complete;
  }

  lemma PublishedHalts(c: Config, s: AgentState, demand: Option<seq<PoolDemandSnapshot>>, now: int)
    ensures OnPublished(c, s, demand, now).halted == (s.halted && !s.phase.Publishing?)
  {
    hide Complete, Retire;
  }
}

/** The life of a drain target: what sets one, what keeps it, and what ends it. */
module AgentTargets {
  import opened Wrappers
  import opened Limits
  import opened PoolStore
  import opened Demand
  import opened Drain
  import opened AgentModel
  import opened AgentInvariant
  import opened AgentSteps
  import opened AgentBatches
  import opened AgentTheorems
  import opened AgentLaws
  import opened Stats
  import DrainLaws
  import RoutingBuilder

  /** A commit asks to drain exactly what each newly installed grant takes away from the limits it replaces. */
  lemma {:induction false} ShrinksExactly(live: map<PoolId, AdmissionLimits>, fallbacks: map<PoolId, ClassTable>,
                                          grants: seq<Grant>, p: PoolId)
    requires DistinctGrants(grants)
    ensures !Granted(grants, p) ==> p !in Shrinks(live, fallbacks, grants)
    ensures forall i | 0 <= i < |grants| && grants[i].pool == p ::
              Find(Shrinks(live, fallbacks, grants), p) == ShrinkOf(live, fallbacks, grants[i])
    decreases |grants|
  {
    hide PlanFor, DrainTargetOf;
    if grants != [] {
      var n := |grants| - 1;
      ShrinksExactly(live, fallbacks, grants[..n], p);
      assert forall i | 0 <= i < n :: grants[..n][i] == grants[i];
      if grants[n].pool == p {
        assert !Granted(grants[..n], p);
      } else if Granted(grants[..n], p) {
        var i :| 0 <= i < n && grants[..n][i].pool == p;
        assert grants[i].pool == p;
      }
    }
  }

  /** The drain that installing the grant calls for. */
  ghost function ShrinkOf(live: map<PoolId, AdmissionLimits>, fallbacks: map<PoolId, ClassTable>, g: Grant):
    Option<DrainTarget>
  {
    var plan := PlanFor(live, fallbacks, g);
    if plan.Replace? && g.pool in live then DrainTargetOf(live[g.pool], g.limits, plan.classes) else None
  }

  /** While a commit is under way, what it asked for stays what it was. */
  lemma ShrinkStays(c: Config, s: AgentState, e: Event)
    requires s.phase.Committing? && Step(c, s, e).phase.Committing?
    ensures Step(c, s, e).phase.shrink == s.phase.shrink
  {
    hide OnPollReply, Retire, Complete, AckTarget, OnTimer;
    match e
    case PollReply(d, topologyAccepted, now) => NotIdle(c, s, d, topologyAccepted, now);
    case TimerFired(now) => TimerKeepsPhase(s, now);
    case _ =>
  }

  /** The acknowledgement of the grant for `p` was delivered, and the grant asks for a drain there. */
  predicate Arms(s: AgentState, e: Event, p: PoolId) {
    s.phase.Committing? && e == AckReply(true) && s.phase.acking.pool == p && p in s.phase.shrink
  }

  /** Published demand for `p` meets its target. */
  ghost predicate Meets(s: AgentState, e: Event, p: PoolId) {
    && p in s.targets
    && exists demand :: Publishes(s, e, demand) && p in ByPool(demand) && TargetReady(ByPool(demand)[p], s.targets[p])
  }

  /** The desired state asks for this revision of `p`. */
  predicate Asks(d: DesiredState, p: PoolId, revision: int) {
    exists i | 0 <= i < |d.grants| :: d.grants[i].pool == p && d.grants[i].revision == revision
  }

  /** The step ends the target of `p`. */
  ghost predicate Ends(c: Config, s: AgentState, e: Event, p: PoolId)
    requires p in s.targets
  {
    match e
    case PollReply(d, topologyAccepted, now) =>
      Commits(c, s, d, topologyAccepted, now) && !Asks(d, p, s.targets[p].revision)
    case TimerFired(now) =>
      s.armed && !Step(c, s, e).halted && p in s.grants && Due(s.clock, s.grants[p], now)
    case Stopped => true
    case _ => Meets(s, e, p)
  }

  /**
   * A target is set, as the commit asked for it, exactly by a delivered acknowledgement. Once set it
   * stays as it is, whatever happens, until an acknowledgement replaces it, published demand meets it,
   * a desired state that is applied no longer asks for its revision, the kill switch closes its pool,
   * or the agent is stopped; and each of these does end it.
   */
  lemma TargetLife(c: Config, s: AgentState, e: Event, p: PoolId)
    requires Inv(c, s) && p in s.live
    ensures var t := Step(c, s, e);
            Find(t.targets, p) ==
              if Arms(s, e, p) then Some(s.phase.shrink[p])
              else if p in s.targets && !Ends(c, s, e, p) then Some(s.targets[p])
              else None
  {
    hide OnPollReply, OnTimer, Inv, Complete, Commits, TargetReady, ByPool, Due;
    match e
    case PollReply(d, topologyAccepted, now) => ReplyTargets(c, s, d, topologyAccepted, now, p);
    case TimerFired(now) => TimerTargets(c, s, now, p);
    case HeartbeatReply(accepted) => MeetsOne(s, e, accepted, p);
    case Published(demand, now) =>
      if demand.Some? {
        MeetsOne(s, e, demand.value, p);
      }
    case _ =>
  }

  lemma MeetsOne(s: AgentState, e: Event, demand: seq<PoolDemandSnapshot>, p: PoolId)
    requires e == HeartbeatReply(demand) || (e.Published? && e.demand == Some(demand))
    ensures p in s.targets && Publishes(s, e, demand) ==>
              (Meets(s, e, p) <==> p in ByPool(demand) && TargetReady(ByPool(demand)[p], s.targets[p]))
  {
    hide TargetReady, ByPool;
  }

  lemma TimerTargets(c: Config, s: AgentState, now: int, p: PoolId)
    requires Inv(c, s) && p in s.live
    ensures var t := OnTimer(s, now);
            Find(t.targets, p) ==
              if s.armed && !t.halted && p in s.grants && Due(s.clock, s.grants[p], now) then None
              else Find(s.targets, p)
  {
    hide OnTimer, Inv, HoldsNothing, Due;
    if !s.armed {
      FiringUnset(s, now);
    } else if OnTimer(s, now).halted {
      TimerThrowsExactly(c, s, now);
    } else {
      TimerClosesExactly(c, s, now, p);
    }
  }

  lemma ReplyTargets(c: Config, s: AgentState, d: DesiredState, topologyAccepted: bool, now: int, p: PoolId)
    ensures var t := OnPollReply(c, s, d, topologyAccepted, now);
            Find(t.targets, p) ==
              if p in s.targets && Commits(c, s, d, topologyAccepted, now)
              && !Asks(d, p, s.targets[p].revision) then None
              else Find(s.targets, p)
  {
    hide OnPollReply, Commits, Commit;
    ReplyKinds(c, s, d, topologyAccepted, now);
    CommitTargetsAre(Fenced(s, d, now), d.grants, now);
  }

  lemma CommitTargetsAre(s: AgentState, grants: seq<Grant>, now: int)
    ensures Commit(s, grants, now).targets == StillDesired(s.targets, grants)
  {
    hide Updates, Installed, Remember, Shrinks, StillDesired, Additions;
  }

  /** What counts for a pool is the last snapshot published for it. */
  lemma {:induction false} LastPublished(demand: seq<PoolDemandSnapshot>, i: nat)
    requires i < |demand| && forall j | i < j < |demand| :: demand[j].pool != demand[i].pool
    ensures demand[i].pool in ByPool(demand) && ByPool(demand)[demand[i].pool] == demand[i]
    decreases |demand|
  {
    var n := |demand| - 1;
    if i < n {
      assert forall j | i <= j < n :: demand[..n][j] == demand[j];
      LastPublished(demand[..n], i);
    }
  }

  lemma {:induction false} NothingPublished(demand: seq<PoolDemandSnapshot>, p: PoolId)
    ensures p in ByPool(demand) ==> ByPool(demand)[p] in demand && ByPool(demand)[p].pool == p
    decreases |demand|
  {
    if demand != [] {
      var n := |demand| - 1;
      NothingPublished(demand[..n], p);
      assert demand == demand[..n] + [demand[n]];
    }
  }

  /**
   * From the statistics to the retired target, over any run: when a heartbeat carries what the reporter
   * captured from statistics that add up, a target it retires is one those statistics are within.
   */
  lemma RetiredTargetsFit(c: Config, live: map<PoolId, AdmissionLimits>, events: seq<Event>, e: Event,
                          demand: seq<PoolDemandSnapshot>, base: Checkpoints, stats: map<PoolId, PoolStats>,
                          capturedAt: int, p: PoolId)
    requires AllWellFormed(live)
    requires Publishes(Run(c, live, events), e, demand)
    requires SnapshotsOk(demand, base, c.managed, stats, capturedAt)
    requires forall q <- stats :: RoutingBuilder.Accounted(stats[q])
    requires p in Run(c, live, events).targets && p !in Step(c, Run(c, live, events), e).targets
    ensures p in stats && DrainLaws.Fits(stats[p], Run(c, live, events).targets[p])
  {
    hide Run, ByPool, TargetReady, TargetSound, Complete, SnapshotOk, RoutingBuilder.Accounted, DrainLaws.Fits,
         Captured;
    var s := Run(c, live, events);
    RunInv(c, live, events);
    assert Step(c, s, e).targets == Retire(s.targets, demand);
    RetiredIsReady(s.targets, demand, p);
    SoundTarget(c, s, p);
    NothingPublished(demand, p);
    var i :| 0 <= i < |demand| && demand[i] == ByPool(demand)[p];
    hide Step, Inv;
    SnapshotPool(demand[i], base, Captured(base, c.managed[..i], stats, capturedAt), c.managed[i],
                 stats[c.managed[i]], capturedAt);
    DrainLaws.MetMeansFits(demand[i], base, Captured(base, c.managed[..i], stats, capturedAt), p, stats[p], capturedAt,
                           s.targets[p]);
  }

  lemma SnapshotPool(snapshot: PoolDemandSnapshot, base: Checkpoints, sofar: Checkpoints, p: PoolId, s: PoolStats,
                     now: int)
    requires SnapshotOk(snapshot, base, sofar, p, s, now)
    ensures snapshot.pool == p
  {
    hide ClassSnapshotsOk;
  }
}

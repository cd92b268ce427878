/**
 * `LatchfloTyrAgent` of `src/latchflo.ts`: its fields, and what each of its methods does between two
 * awaits. Every method is proved to take the step of the state machine that bears its event.
 */
module Agent {
  import opened Wrappers
  import opened Text
  import opened Limits
  import opened PoolStore
  import opened Demand
  import opened Drain
  import opened AgentModel
  import opened AgentInvariant
  import opened AgentSteps
  import opened AgentBatches

  // ---------- Loops over a desired state ----------

  /** `parseDesiredState`, on a reply whose JSON has the right shape. */
  method ParseDesiredState(c: Config, d: DesiredState) returns (ok: bool)
    ensures ok <==> Parsed(c, d)
  {
    hide GrantParsed;
    if !(1 <= d.controllerEpoch <= MAX_SAFE_INTEGER) {
      return false;
    }
    var seenPools: set<PoolId> := {};
    for i := 0 to |d.grants|
      invariant forall j | 0 <= j < i :: d.grants[j].pool in seenPools && GrantParsed(c, d.grants[j], d.controllerEpoch)
      invariant forall p <- seenPools :: exists j | 0 <= j < i :: d.grants[j].pool == p
      invariant forall j, k | 0 <= j < k < i :: d.grants[j].pool != d.grants[k].pool
    {
      var g := d.grants[i];
      if g.pool in seenPools {
        return false;
      }
      var grantOk := ParseGrant(c, g, d.controllerEpoch);
      if !grantOk {
        return false;
      }
      seenPools := seenPools + {g.pool};
    }
    return true;
  }

  method ParseGrant(c: Config, g: Grant, epoch: int) returns (ok: bool)
    ensures ok <==> GrantParsed(c, g, epoch)
  {
    hide ParsedLimits;
    if g.instanceId != c.instanceId || g.pool !in c.managed {
      return false;
    }
    var limitsOk := ParseLimits(g.limits);
    if g.controllerEpoch != epoch || g.revision < 1 || !limitsOk || g.limits.revision != g.revision {
      return false;
    }
    return g.issuedAt < g.expiresAt && !Blank(g.grantId);
  }

  /**
   * The loop of `#applyDesiredState` over the grants: it stops at the first grant that is rejected,
   * and otherwise collects the batch to apply and the drain targets that go with it.
   */
  method PlanBatch(current: map<PoolId, AdmissionLimits>, fallbacks: map<PoolId, ClassTable>, grants: seq<Grant>)
    returns (rejection: Option<Reason>, updates: seq<PoolLimitsUpdate>, shrinkTargets: map<PoolId, DrainTarget>)
    ensures rejection == FirstReject(current, fallbacks, grants)
    ensures rejection.None? ==>
              updates == Updates(current, fallbacks, grants) && shrinkTargets == Shrinks(current, fallbacks, grants)
  {
    hide DrainTargetOf, ResolveClasses, LimitsEqual;
    updates, shrinkTargets := [], map[];
    for i := 0 to |grants|
      invariant FirstReject(current, fallbacks, grants[..i]).None?
      invariant updates == Updates(current, fallbacks, grants[..i])
      invariant shrinkTargets == Shrinks(current, fallbacks, grants[..i])
    {
      var g := grants[i];
      assert grants[..i + 1][..i] == grants[..i];
      var plan := Decide(current, fallbacks, g);
      match plan {
        case Reject(reason) =>
          RejectStops(current, fallbacks, grants, i + 1);
          return Some(reason), [], map[];
        case Keep =>
        case Replace(classes) =>
          var shrinkTarget := DrainEvidenceTarget(current[g.pool], g.limits, classes);
          if shrinkTarget.Some? {
            shrinkTargets := shrinkTargets[g.pool := shrinkTarget.value];
          }
          updates := updates + [GrantUpdate(g, classes)];
      }
    }
    assert grants[..|grants|] == grants;
    rejection := None;
  }

  /** The body of that loop. */
  method Decide(current: map<PoolId, AdmissionLimits>, fallbacks: map<PoolId, ClassTable>, g: Grant)
    returns (plan: Plan)
    ensures plan == PlanFor(current, fallbacks, g)
    ensures plan.Replace? ==> g.pool in current
  {
    if g.pool !in current {
      return Reject(UnknownManagedPool);
    }
    var applied := current[g.pool];
    if applied.revision > g.revision {
      return Reject(LocalRevisionAhead);
    }
    if applied.revision == g.revision {
      if !LimitsEqual(applied, g.limits) {
        return Reject(RevisionContentConflict);
      }
      return Keep;
    }
    return ResolveClasses(applied, g.limits.admissionClasses, Find(fallbacks, g.pool));
  }

  method PruneTargets(targets: map<PoolId, DrainTarget>, grants: seq<Grant>) returns (kept: map<PoolId, DrainTarget>)
    ensures kept == StillDesired(targets, grants)
  {
    kept := targets;
    var remaining := targets.Keys;
    while remaining != {}
      invariant remaining <= targets.Keys
      invariant kept == map p | p in targets && (p in remaining || p in StillDesired(targets, grants)) :: targets[p]
      decreases |remaining|
    {
      var pool :| pool in remaining;
      var desired := exists i | 0 <= i < |grants| ::
        grants[i].pool == pool && grants[i].revision == targets[pool].revision;
      if !desired {
        kept := kept - {pool};
      }
      remaining := remaining - {pool};
    }
  }

  /** The loop of `#commitPublishedDrainEvidence`. */
  method CommitEvidence(targets: map<PoolId, DrainTarget>, demand: seq<PoolDemandSnapshot>)
    returns (kept: map<PoolId, DrainTarget>)
    ensures kept == Retire(targets, demand)
  {
    hide TargetReady, ByPool;
    var publishedByPool := ByPool(demand);
    kept := targets;
    var remaining := targets.Keys;
    while remaining != {}
      invariant remaining <= targets.Keys
      invariant kept ==
                map p | p in targets
                        && (p in remaining || !(p in publishedByPool && TargetReady(publishedByPool[p], targets[p]))) ::
                  targets[p]
      decreases |remaining|
    {
      var pool :| pool in remaining;
      if pool in publishedByPool {
        var ready := PublishedDrainTargetReady(publishedByPool[pool], targets[pool]);
        if ready {
          kept := kept - {pool};
        }
      }
      remaining := remaining - {pool};
    }
  }

  /** The filter that picks the expired grants out of the held ones, in the map's order. */
  method ListExpired(ghost s: AgentState, grants: map<PoolId, Grant>, effectiveNow: int, ghost now: int)
    returns (expired: seq<Grant>)
    requires grants == s.grants && effectiveNow == EffectiveNow(s.clock, now)
    requires forall p <- grants :: grants[p].pool == p
    ensures Lists(expired, s, now)
  {
    expired := [];
    var remaining := grants.Keys;
    while remaining != {}
      invariant remaining <= grants.Keys
      invariant DistinctGrants(expired)
      invariant forall i | 0 <= i < |expired| ::
                  && expired[i].pool in Expired(s, now) && expired[i].pool !in remaining
                  && expired[i] == s.grants[expired[i].pool]
      invariant forall p <- Expired(s, now) | p !in remaining :: Granted(expired, p)
      decreases |remaining|
    {
      var pool :| pool in remaining;
      ghost var before := expired;
      if grants[pool].expiresAt <= effectiveNow {
        expired := expired + [grants[pool]];
        assert expired[|before|].pool == pool;
      }
      forall p | Granted(before, p)
        ensures Granted(expired, p)
      {
        var i :| 0 <= i < |before| && before[i].pool == p;
        assert expired[i].pool == p;
      }
      remaining := remaining - {pool};
    }
  }

  method BuildKillUpdates(current: map<PoolId, AdmissionLimits>, expired: seq<Grant>)
    returns (updates: seq<PoolLimitsUpdate>)
    requires forall i | 0 <= i < |expired| :: expired[i].pool in current
    ensures KillUpdates(current, expired, updates)
  {
    updates := [];
    for i := 0 to |expired|
      invariant |updates| == i
      invariant forall j | 0 <= j < i :: updates[j] == KillUpdate(current, expired[j])
    {
      updates := updates + [KillUpdate(current, expired[i])];
    }
  }

  // ---------- The agent ----------

  class LatchfloTyrAgent {
    const config: Config
    const control: Pools
    var grants: map<PoolId, Grant>
    var admissionClassFallbacks: map<PoolId, ClassTable>
    var drainEvidenceTargets: map<PoolId, DrainTarget>
    var controllerEpoch: Option<int>
    var controlPlaneClock: Option<Clock>
    var ready: bool
    var timerSet: bool
    var phase: Phase
    ghost var halted: bool
    ghost var initial: map<PoolId, AdmissionLimits>
    ghost var installs: seq<Install>
    ghost var registrations: nat

    /** The agent's own fields, beside the limits that are live. */
    ghost function Beside(live: map<PoolId, AdmissionLimits>): (s: AgentState)
      reads this
      ensures s.live == live && s.armed == timerSet && s.phase == phase && s.clock == controlPlaneClock
              && s.epoch == controllerEpoch
      ensures s.grants == grants && s.fallbacks == admissionClassFallbacks && s.targets == drainEvidenceTargets
              && s.installs == installs
    {
      AgentState(live, grants, admissionClassFallbacks, drainEvidenceTargets, controllerEpoch, controlPlaneClock,
                 ready, timerSet, halted, phase, initial, installs, registrations)
    }

    ghost function State(): AgentState
      reads this, control, control.byName.Values
    {
      Beside(control.Live())
    }

    ghost predicate Valid()
      reads this, control, control.byName.Values
    {
      control.Valid() && Inv(config, State())
    }

    constructor (config: Config, control: Pools)
      requires control.Valid() && AllWellFormed(control.Live())
      ensures Valid() && this.config == config && this.control == control
      ensures State() == Initial(config, control.Live())
    {
      hide Inv, Pools.Live, Pools.Valid;
      var initialLimits := control.Limits();
      this.config, this.control := config, control;
      grants, drainEvidenceTargets := map[], map[];
      admissionClassFallbacks :=
        map p | p in initialLimits && p in config.managed && initialLimits[p].admissionClasses.Some? ::
        initialLimits[p].admissionClasses.value;
      controllerEpoch, controlPlaneClock := None, None;
      ready, timerSet, phase := false, false, Idle;
      halted, initial, installs, registrations := false, initialLimits, [], 0;
      InitialInv(config, initialLimits);
    }

    /** `#hasCompleteUnexpiredGrantSet`. */
    method HasCompleteUnexpiredGrantSet(localNow: int, ghost live: map<PoolId, AdmissionLimits>)
      returns (complete: bool)
      ensures complete <==> Complete(config, Beside(live), localNow)
    {
      var now := EffectiveNow(controlPlaneClock, localNow);
      for i := 0 to |config.managed|
        invariant forall j | 0 <= j < i :: config.managed[j] in grants && now < grants[config.managed[j]].expiresAt
      {
        var pool := config.managed[i];
        if pool !in grants || grants[pool].expiresAt <= now {
          return false;
        }
      }
      return true;
    }

    /** `#scheduleExpiration`. */
    method ScheduleExpiration(ghost live: map<PoolId, AdmissionLimits>)
      modifies this`timerSet, this`halted
      ensures Beside(live) == Schedule(old(Beside(live)))
    {
      timerSet := grants != map[];
      halted := false;
    }

    method RecheckReady(localNow: int, ghost live: map<PoolId, AdmissionLimits>)
      modifies this`ready, this`timerSet, this`halted
      ensures Beside(live) == Recheck(config, old(Beside(live)), localNow)
    {
      hide Complete;
      ready := HasCompleteUnexpiredGrantSet(localNow, live);
      ScheduleExpiration(live);
    }

    /** The method is suspended at an await. */
    method Await(next: Phase, ghost live: map<PoolId, AdmissionLimits>)
      modifies this`phase
      ensures Beside(live) == old(Beside(live)).(phase := next)
    {
      phase := next;
    }

    method SetReady(value: bool, ghost live: map<PoolId, AdmissionLimits>)
      modifies this`ready
      ensures Beside(live) == old(Beside(live)).(ready := value)
    {
      ready := value;
    }

    /** The fields that an applied batch sets. */
    method Adopt(fallbacks: map<PoolId, ClassTable>, targets: map<PoolId, DrainTarget>, held: map<PoolId, Grant>,
                 next: Phase, ghost added: seq<Install>, ghost before: map<PoolId, AdmissionLimits>,
                 ghost after: map<PoolId, AdmissionLimits>)
      modifies this
      ensures Beside(after) ==
                old(Beside(before)).(live := after, fallbacks := fallbacks, targets := targets, grants := held,
                                                    phase := next, installs := old(installs) + added)
    {
      admissionClassFallbacks, drainEvidenceTargets, grants, phase := fallbacks, targets, held, next;
      installs := installs + added;
    }

    /** The batch has been applied: remember its class tables, prune targets, and hold the first grant. */
    method BeginCommit(desired: seq<Grant>, updates: seq<PoolLimitsUpdate>, changes: map<PoolId, Change>,
                       shrinkTargets: map<PoolId, DrainTarget>, ghost s: AgentState, ghost localNow: int)
      requires updates == Updates(s.live, s.fallbacks, desired)
               && shrinkTargets == Shrinks(s.live, s.fallbacks, desired)
      requires changes == ChangesOf(s.live, updates) && Accepted(s.live, updates)
      requires Beside(s.live) == s
      modifies this
      ensures Beside(Installed(s.live, updates)) == Commit(s, desired, localNow)
    {
      hide Updates, Shrinks, StillDesired, Remember, ChangesOf, Accepted, Installed, Additions, Pools.Live, Beside;
      var remembered := RememberChanges(s.live, admissionClassFallbacks, updates, changes);
      var kept := PruneTargets(drainEvidenceTargets, desired);
      var held := if desired == [] then map[] else map[desired[0].pool := desired[0]];
      var next := if desired == [] then Publishing else Committing(desired[0], desired[1..], shrinkTargets);
      Adopt(remembered, kept, held, next, Additions(s, updates, localNow), s.live, Installed(s.live, updates));
    }

    /** `#applyDesiredState` up to its first await. */
    method ApplyDesiredState(d: DesiredState, localNow: int)
      requires Valid() && Parsed(config, d) && phase.Idle? && controllerEpoch == Some(d.controllerEpoch)
      modifies this, control.byName.Values
      ensures Valid() && State() == ApplyDesired(config, old(State()), d.grants, localNow)
    {
      hide Inv, Pools.Live, Pools.Valid, ApplyDesired, ApplyChecked, Recheck, Parsed, Granted, Beside;
      ghost var s := State();
      ApplyInv(config, s, d, localNow);
      ApplyCases(config, s, d.grants, localNow);
      var missing := MissingPool(d.grants);
      var now := EffectiveNow(controlPlaneClock, localNow);
      if missing {
        RecheckReady(localNow, control.Live());
      } else if exists i | 0 <= i < |d.grants| :: d.grants[i].expiresAt <= now {
        Await(Rejecting(GrantExpired, true), control.Live());
      } else {
        ApplyBatch(d, localNow);
      }
    }

    /** The rest of it: decide every grant, then apply the batch. */
    method ApplyBatch(d: DesiredState, localNow: int)
      requires control.Valid() && Parsed(config, d) && phase.Idle?
      modifies this, control.byName.Values
      ensures control.Valid() && State() == ApplyChecked(old(State()), d.grants, localNow)
    {
      hide Pools.Live, Pools.Valid, ApplyChecked, Commit, FirstReject, Updates, Shrinks, Parsed, Accepted, Beside;
      ghost var s := State();
      CheckedCases(s, d.grants, localNow);
      var current := control.Limits();
      var rejection, updates, shrinkTargets := PlanBatch(current, admissionClassFallbacks, d.grants);
      if rejection.Some? {
        Await(Rejecting(rejection.value, false), control.Live());
      } else {
        Install(d, updates, shrinkTargets, s, localNow);
      }
    }

    /** The call to `applyLimits`. It applies the batch or throws; a refusal never comes. */
    method Install(d: DesiredState, updates: seq<PoolLimitsUpdate>, shrinkTargets: map<PoolId, DrainTarget>,
                   ghost s: AgentState, ghost localNow: int)
      requires control.Valid() && State() == s && Parsed(config, d)
      requires updates == Updates(s.live, s.fallbacks, d.grants)
               && shrinkTargets == Shrinks(s.live, s.fallbacks, d.grants)
      modifies this, control.byName.Values
      ensures control.Valid()
      ensures State() == if Accepted(s.live, updates) then Commit(s, d.grants, localNow) else s
    {
      hide Pools.Live, Pools.Valid, Commit, Updates, Shrinks, Parsed, Accepted, Preflight, Installed, Beside;
      PollBatch(s.live, s.fallbacks, d, config);
      EmptyBatch(s.live);
      var result := Applied(map[]);
      if |updates| > 0 {
        result := control.ApplyLimits(updates);
      }
      if result.Applied? {
        BeginCommit(d.grants, updates, result.pools, shrinkTargets, s, localNow);
      } else {
        assert result.Threw?;
      }
    }

    method MissingPool(desired: seq<Grant>) returns (missing: bool)
      ensures missing <==> exists p <- config.managed :: !Granted(desired, p)
    {
      hide Granted;
      missing := false;
      for i := 0 to |config.managed|
        invariant missing <==> exists j | 0 <= j < i :: !Granted(desired, config.managed[j])
      {
        if !Granted(desired, config.managed[i]) {
          missing := true;
        }
      }
    }

    /** `#poll`, from the reply on. `topologyAccepted` says whether the routing callback returned or threw. */
    method OnPollReply(d: DesiredState, topologyAccepted: bool, localNow: int)
      requires Valid() && phase.Idle?
      modifies this, control.byName.Values
      ensures Valid() && State() == AgentModel.OnPollReply(config, old(State()), d, topologyAccepted, localNow)
    {
      hide Inv, ApplyDesired, AgentModel.OnPollReply, Parsed, Pools.Live, Pools.Valid, Beside;
      ghost var s := State();
      PollInv(config, s, d, topologyAccepted, localNow);
      PollCases(config, s, d, topologyAccepted, localNow);
      FenceInv(config, s, d, localNow);
      var ok := ParseDesiredState(config, d);
      if !ok {
        return;
      }
      var current := Fence(d, localNow, control.Live());
      if current && topologyAccepted {
        ApplyDesiredState(d, localNow);
      }
    }

    /** The clock is taken from every reply; a reply of an older epoch is then dropped. */
    method Fence(d: DesiredState, localNow: int, ghost live: map<PoolId, AdmissionLimits>) returns (current: bool)
      modifies this`controlPlaneClock, this`controllerEpoch
      ensures current <==> !(old(controllerEpoch).Some? && d.controllerEpoch < old(controllerEpoch).value)
      ensures Beside(live) ==
              if current
              then old(Beside(live)).(clock := Some(Clock(d.serverTime, localNow)), epoch := Some(d.controllerEpoch))
              else old(Beside(live)).(clock := Some(Clock(d.serverTime, localNow)))
    {
      controlPlaneClock := Some(Clock(d.serverTime, localNow));
      if controllerEpoch.Some? && d.controllerEpoch < controllerEpoch.value {
        return false;
      }
      controllerEpoch := Some(d.controllerEpoch);
      return true;
    }

    /** An acknowledgement has been answered, or has failed; the loop over the grants goes on. */
    method OnAckReply(ok: bool)
      requires Valid() && phase.Committing?
      modifies this
      ensures Valid() && State() == AgentModel.OnAckReply(old(State()), ok)
    {
      hide Inv, Pools.Live, Pools.Valid, AgentModel.OnAckReply, Beside;
      AckInv(config, State(), ok);
      TakeAck(ok, control.Live());
    }

    /** The target of the acknowledged grant is armed if it was delivered, and the next grant is held. */
    method TakeAck(ok: bool, ghost live: map<PoolId, AdmissionLimits>)
      requires phase.Committing?
      modifies this
      ensures Beside(live) == AgentModel.OnAckReply(old(Beside(live)), ok)
    {
      var acking, rest, shrink := phase.acking, phase.rest, phase.shrink;
      if ok && acking.pool in shrink {
        drainEvidenceTargets := drainEvidenceTargets[acking.pool := shrink[acking.pool]];
      }
      if rest != [] {
        grants := grants[rest[0].pool := rest[0]];
      }
      phase := if rest == [] then Publishing else Committing(rest[0], rest[1..], shrink);
    }

    /** The rejections of a desired state have been acknowledged. */
    method OnRejectionAcked(localNow: int)
      requires Valid() && phase.Rejecting?
      modifies this
      ensures Valid() && State() == AgentModel.OnRejectionAcked(config, old(State()), localNow)
    {
      hide Inv, Pools.Live, Pools.Valid, AgentModel.OnRejectionAcked, Beside;
      RejectionInv(config, State(), localNow);
      FinishRejection(localNow, control.Live());
    }

    method FinishRejection(localNow: int, ghost live: map<PoolId, AdmissionLimits>)
      requires phase.Rejecting?
      modifies this
      ensures Beside(live) == AgentModel.OnRejectionAcked(config, old(Beside(live)), localNow)
    {
      hide Complete, Beside;
      ghost var s := Beside(live);
      var recheck := phase.recheck;
      CompleteLooksAtGrants(config, s, s.(phase := Idle), localNow);
      Await(Idle, live);
      if recheck {
        RecheckReady(localNow, live);
      } else {
        SetReady(false, live);
      }
    }

    /** The heartbeat that follows the acknowledgements has settled; `None` when it failed or carried no demand. */
    method OnPublished(demand: Option<seq<PoolDemandSnapshot>>, localNow: int)
      requires Valid() && phase.Publishing?
      modifies this
      ensures Valid() && State() == AgentModel.OnPublished(config, old(State()), demand, localNow)
    {
      hide Inv, Pools.Live, Pools.Valid, AgentModel.OnPublished, Beside;
      PublishedInv(config, State(), demand, localNow);
      FinishPublish(demand, localNow, control.Live());
    }

    method FinishPublish(demand: Option<seq<PoolDemandSnapshot>>, localNow: int,
                         ghost live: map<PoolId, AdmissionLimits>)
      requires phase.Publishing?
      modifies this
      ensures Beside(live) == AgentModel.OnPublished(config, old(Beside(live)), demand, localNow)
    {
      hide Complete, Retire, Beside;
      ghost var s := Beside(live);
      if demand.Some? {
        Evidence(demand.value, live);
      }
      Await(Idle, live);
      CompleteLooksAtGrants(config, s, Beside(live), localNow);
      RecheckReady(localNow, live);
    }

    /** An ordinary heartbeat has been accepted. */
    method OnHeartbeatReply(demand: seq<PoolDemandSnapshot>)
      requires Valid()
      modifies this
      ensures Valid() && State() == Step(config, old(State()), HeartbeatReply(demand))
    {
      hide Inv, Pools.Live, Pools.Valid, Retire, Beside;
      RetireInv(config, State(), demand);
      Evidence(demand, control.Live());
    }

    /** `#commitPublishedDrainEvidence`. */
    method Evidence(demand: seq<PoolDemandSnapshot>, ghost live: map<PoolId, AdmissionLimits>)
      modifies this`drainEvidenceTargets
      ensures Beside(live) == old(Beside(live)).(targets := Retire(old(drainEvidenceTargets), demand))
    {
      hide Retire;
      drainEvidenceTargets := CommitEvidence(drainEvidenceTargets, demand);
    }

    /**
     * `#failClosedExpiredGrants`, run by the timer. The branch for a batch that is refused without
     * throwing is never taken.
     */
    method FailClosedExpiredGrants(localNow: int)
      requires Valid() && timerSet
      modifies this, control.byName.Values
      ensures Valid() && State() == OnTimer(old(State()), localNow)
    {
      hide Inv, Pools.Live, Pools.Valid, Killable, KillLive, Lists, Expired, OnTimer, Beside;
      ghost var s := State();
      TimerInv(config, s, localNow);
      TimerCases(s, localNow);
      HeldByName(config, s);
      var now := EffectiveNow(controlPlaneClock, localNow);
      var expired := ListExpired(s, grants, now, localNow);
      EmptyList(expired, s, localNow);
      if |expired| == 0 {
        ScheduleExpiration(control.Live());
      } else {
        CloseExpired(s, expired, localNow);
      }
    }

    /** Close the pools of the expired grants in one batch. */
    method CloseExpired(ghost s: AgentState, expired: seq<Grant>, ghost localNow: int)
      requires control.Valid() && State() == s && Inv(config, s) && timerSet
      requires expired != [] && Lists(expired, s, localNow)
      modifies this, control.byName.Values
      ensures control.Valid() && State() == OnTimer(s, localNow)
    {
      hide Inv, Pools.Live, Pools.Valid, Killable, KillLive, Lists, Expired, OnTimer, Beside;
      TimerCases(s, localNow);
      EmptyList(expired, s, localNow);
      var closed := ClosePools(s, expired, localNow);
      if closed {
        DropExpired(s, expired, localNow);
      } else {
        Halt(s.live);
      }
    }

    /** The timer is spent and nothing sets it again. */
    method Halt(ghost live: map<PoolId, AdmissionLimits>)
      modifies this`timerSet, this`halted
      ensures Beside(live) == old(Beside(live)).(armed := false, halted := true)
    {
      timerSet, halted := false, true;
    }

    /** The call to `applyLimits`: `false` when it threw. The refusal after it is never reached. */
    method ClosePools(ghost s: AgentState, expired: seq<Grant>, ghost localNow: int) returns (closed: bool)
      requires control.Valid() && control.Live() == s.live && Inv(config, s) && Lists(expired, s, localNow)
      modifies control.byName.Values
      ensures control.Valid()
      ensures closed <==> Killable(s, localNow)
      ensures control.Live() == if closed then KillLive(s, localNow) else s.live
    {
      hide Inv, Pools.Live, Pools.Valid, Accepted, Preflight, Killable, KillLive, KillUpdates, Lists, Expired,
           Installed;
      var current := control.Limits();
      ExpiredAreLive(config, s, expired, localNow);
      var updates := BuildKillUpdates(current, expired);
      KillBatch(config, s, localNow, expired, updates);
      var result := control.ApplyLimits(updates);
      if result.Threw? {
        return false;
      }
      if !result.Applied? {
        assert false;
      }
      return true;
    }

    /** The expired pools are closed: their grants and targets go, and the timer is set for the others. */
    method DropExpired(ghost s: AgentState, expired: seq<Grant>, ghost localNow: int)
      requires timerSet && Beside(s.live) == s && Expired(s, localNow) != map[]
      requires Lists(expired, s, localNow) && Killable(s, localNow)
      modifies this
      ensures Beside(KillLive(s, localNow)) == OnTimer(s, localNow)
    {
      hide Expired, OnTimer, Lists, KillLive, Killable;
      TimerCases(s, localNow);
      var held, kept := RemoveExpired(s, expired, grants, drainEvidenceTargets, localNow);
      grants, drainEvidenceTargets, ready, timerSet := held, kept, false, held != map[];
      halted := false;
    }

    /** A poll has failed; only readiness is looked at again. */
    method OnPollFailed(localNow: int)
      requires Valid() && phase.Idle?
      modifies this
      ensures Valid() && State() == Step(config, old(State()), PollFailed(localNow))
    {
      hide Inv, Pools.Live, Pools.Valid, Complete, Beside;
      OtherInv(config, State(), PollFailed(localNow));
      var complete := HasCompleteUnexpiredGrantSet(localNow, control.Live());
      SetReady(complete, control.Live());
    }

    /** `#register` has been answered. */
    method OnRegistered(epoch: int)
      requires Valid()
      modifies this
      ensures Valid() && State() == Step(config, old(State()), Registered(epoch))
    {
      hide Inv, Pools.Live, Pools.Valid;
      OtherInv(config, State(), Registered(epoch));
      controllerEpoch := Some(epoch);
      registrations := registrations + 1;
    }

    method Stop()
      requires Valid()
      modifies this
      ensures Valid() && State() == Step(config, old(State()), Stopped)
    {
      hide Inv, Pools.Live, Pools.Valid, Beside;
      OtherInv(config, State(), Stopped);
      Clear(control.Live());
    }

    method Clear(ghost live: map<PoolId, AdmissionLimits>)
      modifies this`drainEvidenceTargets, this`timerSet, this`halted, this`ready
      ensures Beside(live) == old(Beside(live)).(targets := map[], armed := false, halted := true, ready := false)
    {
      drainEvidenceTargets := map[];
      timerSet, halted := false, true;
      ready := false;
    }
  }

  // ---------- Small facts the methods use ----------

  lemma CompleteLooksAtGrants(c: Config, s: AgentState, t: AgentState, now: int)
    requires s.grants == t.grants && s.clock == t.clock
    ensures Complete(c, s, now) == Complete(c, t, now)
  {
  }

  lemma EmptyBatch(live: map<PoolId, AdmissionLimits>)
    ensures Accepted(live, []) && Installed(live, []) == live && ChangesOf(live, []) == map[]
  {
  }

  lemma FenceInv(c: Config, s: AgentState, d: DesiredState, now: int)
    requires Inv(c, s)
    ensures Inv(c, s.(clock := Some(Clock(d.serverTime, now))))
    ensures !(s.epoch.Some? && d.controllerEpoch < s.epoch.value) ==>
              Inv(c, s.(clock := Some(Clock(d.serverTime, now)), epoch := Some(d.controllerEpoch)))
  {
    hide Held, Pending, Origins, Tables, Ledger, TargetSound;
    SameStoreInv(c, s, s.(clock := Some(Clock(d.serverTime, now))));
    if !(s.epoch.Some? && d.controllerEpoch < s.epoch.value) {
      SameStoreInv(c, s, s.(clock := Some(Clock(d.serverTime, now)), epoch := Some(d.controllerEpoch)));
    }
  }

  lemma HeldByName(c: Config, s: AgentState)
    requires Inv(c, s)
    ensures forall p <- s.grants :: s.grants[p].pool == p && p in s.live
  {
    hide Pending, Origins, Tables, Targets, Ledger, Watched;
  }

  lemma EmptyList(expired: seq<Grant>, s: AgentState, now: int)
    requires Lists(expired, s, now)
    ensures expired == [] <==> Expired(s, now) == map[]
  {
    if expired != [] {
      assert expired[0].pool in Expired(s, now);
    } else {
      assert forall p <- Expired(s, now) :: Granted(expired, p);
    }
  }

  lemma ExpiredAreLive(c: Config, s: AgentState, expired: seq<Grant>, now: int)
    requires Inv(c, s) && Lists(expired, s, now)
    ensures forall i | 0 <= i < |expired| :: expired[i].pool in s.live
  {
    HeldByName(c, s);
  }

  /** The loop over `result.pools`: every pool just changed is remembered with its new table. */
  method RememberChanges(ghost live: map<PoolId, AdmissionLimits>, fallbacks: map<PoolId, ClassTable>,
                         ghost updates: seq<PoolLimitsUpdate>,
                         changes: map<PoolId, Change>) returns (r: map<PoolId, ClassTable>)
    requires changes == ChangesOf(live, updates) && Accepted(live, updates)
    ensures r == Remember(fallbacks, updates)
  {
    hide Accepted, ChangesOf, Remember;
    r := fallbacks;
    var remaining := changes.Keys;
    while remaining != {}
      invariant remaining <= changes.Keys
      invariant forall p ::
                  Find(r, p) == if p in changes && p !in remaining && changes[p].current.admissionClasses.Some?
                                          then changes[p].current.admissionClasses else Find(fallbacks, p)
      decreases |remaining|
    {
      var pool :| pool in remaining;
      if changes[pool].current.admissionClasses.Some? {
        r := r[pool := changes[pool].current.admissionClasses.value];
      }
      remaining := remaining - {pool};
    }
    RememberedChanges(live, fallbacks, updates, changes, r);
  }

  lemma RememberedChanges(live: map<PoolId, AdmissionLimits>, fallbacks: map<PoolId, ClassTable>,
                          updates: seq<PoolLimitsUpdate>,
                          changes: map<PoolId, Change>, r: map<PoolId, ClassTable>)
    requires changes == ChangesOf(live, updates) && Accepted(live, updates)
    requires forall p :: Find(r, p) == if p in changes && changes[p].current.admissionClasses.Some?
                                       then changes[p].current.admissionClasses else Find(fallbacks, p)
    ensures r == Remember(fallbacks, updates)
  {
    hide Installable;
    KnownPools(live, updates);
    forall p
      ensures Find(r, p) == Find(Remember(fallbacks, updates), p)
    {
      RememberSpec(fallbacks, updates, p);
      ChangesSpec(live, updates, p);
    }
    SameFinds(r, Remember(fallbacks, updates));
  }

  lemma {:induction false} ChangesSpec(live: map<PoolId, AdmissionLimits>, updates: seq<PoolLimitsUpdate>, p: PoolId)
    requires DistinctPools(updates)
    requires forall i | 0 <= i < |updates| :: updates[i].pool in live
    ensures p in ChangesOf(live, updates) <==> Named(updates, p)
    ensures forall i | 0 <= i < |updates| && updates[i].pool == p ::
              ChangesOf(live, updates)[p].current == updates[i].limits
  {
    if updates != [] {
      var n := |updates| - 1;
      ChangesSpec(live, updates[..n], p);
      NamedSplit(updates, n);
      assert updates[..n + 1] == updates;
      forall i | 0 <= i < n && updates[i].pool == p
        ensures ChangesOf(live, updates)[p].current == updates[i].limits
      {
        assert updates[..n][i] == updates[i];
      }
    }
  }

  lemma SameFinds<V>(a: map<PoolId, V>, b: map<PoolId, V>)
    requires forall p :: Find(a, p) == Find(b, p)
    ensures a == b
  {
    forall p <- a
      ensures p in b && a[p] == b[p]
    {
      assert Find(a, p) == Find(b, p);
    }
    forall p <- b
      ensures p in a
    {
      assert Find(a, p) == Find(b, p);
    }
  }

  /** The loop that lets expired grants and their drain targets go. */
  method RemoveExpired(ghost s: AgentState, expired: seq<Grant>, grants: map<PoolId, Grant>,
                       targets: map<PoolId, DrainTarget>, ghost now: int)
    returns (held: map<PoolId, Grant>, kept: map<PoolId, DrainTarget>)
    requires Lists(expired, s, now)
    ensures held == grants - Expired(s, now).Keys && kept == targets - Expired(s, now).Keys
  {
    hide Expired;
    held, kept := grants, targets;
    ghost var gone: set<PoolId> := {};
    for i := 0 to |expired|
      invariant forall p :: p in gone <==> exists j | 0 <= j < i :: expired[j].pool == p
      invariant held == grants - gone && kept == targets - gone
    {
      held, kept := held - {expired[i].pool}, kept - {expired[i].pool};
      gone := gone + {expired[i].pool};
    }
    assert gone == Expired(s, now).Keys by {
      forall p <- Expired(s, now)
        ensures p in gone
      {
        assert Granted(expired, p);
      }
    }
  }
}

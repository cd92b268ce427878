/** Lemmas that connect the loops of the grant agent to the steps of its state machine. */
module AgentBatches {
  import opened Wrappers
  import opened Text
  import opened Limits
  import opened PoolStore
  import opened Drain
  import opened AgentModel
  import opened AgentInvariant
  import opened AgentSteps

  lemma {:induction false} RejectStops(live: map<PoolId, AdmissionLimits>, fallbacks: map<PoolId, ClassTable>,
                                       grants: seq<Grant>, i: nat)
    requires i <= |grants| && FirstReject(live, fallbacks, grants[..i]).Some?
    ensures FirstReject(live, fallbacks, grants) == FirstReject(live, fallbacks, grants[..i])
    decreases |grants|
  {
    hide PlanFor;
    if i == |grants| {
      assert grants[..i] == grants;
    } else {
      var n := |grants| - 1;
      assert grants[..n][..i] == grants[..i];
      RejectStops(live, fallbacks, grants[..n], i);
    }
  }

  /** A batch of known pools, each named once and with a fresh revision, is accepted or makes preflight throw. */
  lemma {:induction false} AcceptedOrThrows(live: map<PoolId, AdmissionLimits>, updates: seq<PoolLimitsUpdate>)
    requires DistinctPools(updates)
    requires forall i | 0 <= i < |updates| ::
               updates[i].pool in live && live[updates[i].pool].revision < updates[i].limits.revision
    ensures Preflight(live, updates) == (if Accepted(live, updates) then None else Some(Threw))
  {
    hide Acceptable, ProvenanceOk;
    PreflightAccepts(live, updates);
    if updates != [] {
      var n := |updates| - 1;
      AcceptedOrThrows(live, updates[..n]);
      forall i | 0 <= i < n
        ensures updates[..n][i].pool != updates[n].pool
      {
        assert updates[..n][i] == updates[i];
      }
      assert !Named(updates[..n], updates[n].pool);
      PreflightAccepts(live, updates[..n]);
    }
  }

  /** The batch a poll builds never names an unknown, repeated or stale pool. */
  lemma PollBatch(live: map<PoolId, AdmissionLimits>, fallbacks: map<PoolId, ClassTable>, d: DesiredState, c: Config)
    requires Parsed(c, d)
    ensures var updates := Updates(live, fallbacks, d.grants);
            Preflight(live, updates) == (if Accepted(live, updates) then None else Some(Threw))
  {
    hide Accepted, Preflight, ResolveClasses, Updates;
    var updates := Updates(live, fallbacks, d.grants);
    BatchSpec(live, fallbacks, d.grants);
    forall j | 0 <= j < |updates|
      ensures updates[j].pool in live && live[updates[j].pool].revision < updates[j].limits.revision
    {
      assert updates[j] in updates;
      var i :| 0 <= i < |d.grants| && UpdateFor(live, fallbacks, d.grants[i], updates[j]);
      assert GrantParsed(c, d.grants[i], d.controllerEpoch);
    }
    AcceptedOrThrows(live, updates);
  }

  // ---------- The branches of the larger steps, one by one ----------

  lemma ApplyCases(c: Config, s: AgentState, grants: seq<Grant>, now: int)
    ensures (exists p <- c.managed :: !Granted(grants, p)) ==> ApplyDesired(c, s, grants, now) == Recheck(c, s, now)
    ensures (forall p <- c.managed :: Granted(grants, p)) ==>
              ((exists i | 0 <= i < |grants| :: grants[i].expiresAt <= EffectiveNow(s.clock, now)) ==>
                 ApplyDesired(c, s, grants, now) == s.(phase := Rejecting(GrantExpired, true)))
    ensures (forall p <- c.managed :: Granted(grants, p)) ==>
              ((forall i | 0 <= i < |grants| :: EffectiveNow(s.clock, now) < grants[i].expiresAt) ==>
                 ApplyDesired(c, s, grants, now) == ApplyChecked(s, grants, now))
  {
    hide Granted, Recheck, Commit, Accepted, FirstReject, Updates;
  }

  /** The rest of `ApplyDesired`, once no pool is missing and no grant has expired. */
  ghost function ApplyChecked(s: AgentState, grants: seq<Grant>, now: int): AgentState {
    var rejection := FirstReject(s.live, s.fallbacks, grants);
    if rejection.Some? then s.(phase := Rejecting(rejection.value, false))
    else if Accepted(s.live, Updates(s.live, s.fallbacks, grants)) then Commit(s, grants, now)
    else s
  }

  lemma CheckedCases(s: AgentState, grants: seq<Grant>, now: int)
    ensures FirstReject(s.live, s.fallbacks, grants).Some? ==>
              ApplyChecked(s, grants, now) ==
                s.(phase := Rejecting(FirstReject(s.live, s.fallbacks, grants).value, false))
    ensures FirstReject(s.live, s.fallbacks, grants).None? ==>
              ApplyChecked(s, grants, now) ==
                if Accepted(s.live, Updates(s.live, s.fallbacks, grants)) then Commit(s, grants, now) else s
  {
    hide Commit, Accepted, FirstReject, Updates;
  }

  lemma PollCases(c: Config, s: AgentState, d: DesiredState, topologyAccepted: bool, now: int)
    requires s.phase.Idle?
    ensures var timed := s.(clock := Some(Clock(d.serverTime, now)));
            var fenced := s.(clock := Some(Clock(d.serverTime, now)), epoch := Some(d.controllerEpoch));
            OnPollReply(c, s, d, topologyAccepted, now) ==
              if !Parsed(c, d) then s
              else if s.epoch.Some? && d.controllerEpoch < s.epoch.value then timed
              else if topologyAccepted then ApplyDesired(c, fenced, d.grants, now)
              else fenced
  {
    hide Parsed, ApplyDesired;
  }

  lemma TimerCases(s: AgentState, now: int)
    requires s.armed
    ensures Expired(s, now) == map[] ==> OnTimer(s, now) == Schedule(s)
    ensures Expired(s, now) != map[] && Killable(s, now) ==>
              OnTimer(s, now) == s.(live := KillLive(s, now),
                                    grants := s.grants - Expired(s, now).Keys,
                                    targets := s.targets - Expired(s, now).Keys,
                                    ready := false,
                                    armed := s.grants - Expired(s, now).Keys != map[],
                                    halted := false)
    ensures Expired(s, now) != map[] && !Killable(s, now) ==> OnTimer(s, now) == s.(armed := false, halted := true)
  {
    hide Expired, Killable, KillLive;
  }

  // ---------- The kill switch ----------

  /** The sequence lists the expired grants, each once. */
  ghost predicate Lists(expired: seq<Grant>, s: AgentState, now: int) {
    && DistinctGrants(expired)
    && (forall i | 0 <= i < |expired| :: expired[i].pool in Expired(s, now) && expired[i] == s.grants[expired[i].pool])
    && (forall p <- Expired(s, now) :: Granted(expired, p))
  }

  predicate KillUpdates(live: map<PoolId, AdmissionLimits>, expired: seq<Grant>, updates: seq<PoolLimitsUpdate>) {
    && |updates| == |expired|
    && forall i | 0 <= i < |expired| :: expired[i].pool in live && updates[i] == KillUpdate(live, expired[i])
  }

  /** In whatever order the expired grants are listed, the batch closes exactly their pools or makes preflight throw. */
  lemma KillBatch(c: Config, s: AgentState, now: int, expired: seq<Grant>, updates: seq<PoolLimitsUpdate>)
    requires Inv(c, s) && Lists(expired, s, now) && KillUpdates(s.live, expired, updates)
    ensures Accepted(s.live, updates) <==> Killable(s, now)
    ensures Killable(s, now) ==> Installed(s.live, updates) == KillLive(s, now)
    ensures !Killable(s, now) ==> Preflight(s.live, updates) == Some(Threw)
  {
    hide Installable, Closed, Origins, Preflight, Installed, KillLive, GrantSane;
    forall i | 0 <= i < |updates|
      ensures updates[i].pool == expired[i].pool && s.grants[expired[i].pool].pool == expired[i].pool
    {
    }
    forall p <- Expired(s, now)
      ensures s.grants[p].pool == p && p in s.live
      ensures exists i | 0 <= i < |updates| :: expired[i].pool == p && updates[i] == KillUpdate(s.live, s.grants[p])
    {
      var i :| 0 <= i < |expired| && expired[i].pool == p;
    }
    KillFresh(s, now, expired, updates, c);
    AcceptedOrThrows(s.live, updates);
    if Killable(s, now) {
      KillInstalled(s, now, expired, updates);
    }
  }

  lemma KillFresh(s: AgentState, now: int, expired: seq<Grant>, updates: seq<PoolLimitsUpdate>, c: Config)
    requires Inv(c, s) && Lists(expired, s, now) && KillUpdates(s.live, expired, updates)
    ensures DistinctPools(updates)
    ensures forall i | 0 <= i < |updates| ::
              updates[i].pool in s.live && s.live[updates[i].pool].revision < updates[i].limits.revision
  {
    hide Origins, Tables, Ledger, Pending, Watched, GrantSane, FailClosedClasses;
  }

  lemma KillInstalled(s: AgentState, now: int, expired: seq<Grant>, updates: seq<PoolLimitsUpdate>)
    requires DistinctPools(updates) && Lists(expired, s, now) && KillUpdates(s.live, expired, updates)
    requires forall p <- Expired(s, now) :: s.grants[p].pool == p && p in s.live
    ensures Installed(s.live, updates) == KillLive(s, now)
  {
    hide KillUpdate, Expired;
    forall i | 0 <= i < |updates|
      ensures updates[i].pool in s.live
    {
    }
    InstalledExactly(s.live, updates);
    forall p <- s.live
      ensures Installed(s.live, updates)[p] == KillLive(s, now)[p]
    {
      KilledPool(s, now, expired, updates, p);
    }
  }

  lemma KilledPool(s: AgentState, now: int, expired: seq<Grant>, updates: seq<PoolLimitsUpdate>, p: PoolId)
    requires DistinctPools(updates) && Lists(expired, s, now) && KillUpdates(s.live, expired, updates)
    requires forall q <- Expired(s, now) :: s.grants[q].pool == q && q in s.live
    requires p in s.live && p in Installed(s.live, updates)
    requires forall i | 0 <= i < |updates| ::
               updates[i].pool in Installed(s.live, updates)
               && Installed(s.live, updates)[updates[i].pool] == updates[i].limits
    requires !Named(updates, p) ==> Installed(s.live, updates)[p] == s.live[p]
    ensures Installed(s.live, updates)[p] == KillLive(s, now)[p]
  {
    hide KillUpdate, Installed;
    if p in Expired(s, now) {
      assert Granted(expired, p);
      var i :| 0 <= i < |expired| && expired[i].pool == p;
      assert updates[i].pool == p;
    } else {
      forall i | 0 <= i < |updates|
        ensures updates[i].pool != p
      {
        assert updates[i].pool == expired[i].pool;
      }
      assert !Named(updates, p);
    }
  }
}

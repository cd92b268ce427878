/** What every step of the grant agent keeps. */
module AgentInvariant {
  import opened Wrappers
  import opened Text
  import opened Limits
  import opened PoolStore
  import opened Demand
  import opened Drain
  import opened AgentModel

  // ---------- The invariant ----------

  predicate GrantSane(g: Grant) {
    !Blank(g.grantId) && 1 <= g.controllerEpoch <= MAX_SAFE_INTEGER && 1 <= g.revision <= MAX_SAFE_INTEGER
  }

  /** The pool is live at exactly this grant's revision, and agrees about having a token budget. */
  predicate Matches(g: Grant, live: map<PoolId, AdmissionLimits>) {
    && g.pool in live
    && live[g.pool].revision == g.revision
    && live[g.pool].tokenBudget.Some? == g.limits.tokenBudget.Some?
    && GrantSane(g)
  }

  ghost predicate Held(c: Config, s: AgentState) {
    forall p <- s.grants :: p in c.managed && s.grants[p].pool == p && Matches(s.grants[p], s.live)
  }

  /** Installed grants that are not held yet match too, and no held grant is in their way. */
  ghost predicate Pending(c: Config, s: AgentState) {
    s.phase.Committing? ==>
      && DistinctGrants(s.phase.rest)
      && forall i | 0 <= i < |s.phase.rest| ::
           && s.phase.rest[i].pool in c.managed
           && s.phase.rest[i].pool !in s.grants
           && Matches(s.phase.rest[i], s.live)
  }

  function LastInstall(installs: seq<Install>, p: PoolId): Option<Install> {
    if installs == [] then None
    else
      var n := |installs| - 1;
      if installs[n].pool == p then Some(installs[n]) else LastInstall(installs[..n], p)
  }

  /** The limits a pool was last given on purpose: by its last installed grant, or at the start. */
  function Base(s: AgentState, p: PoolId): AdmissionLimits
    requires p in s.initial
  {
    var last := LastInstall(s.installs, p);
    if last.Some? then last.value.limits else s.initial[p]
  }

  /** A pool has what it was last given, or it has been failed closed since. */
  ghost predicate OriginOf(s: AgentState, p: PoolId)
    requires p in s.initial && p in s.live
  {
    var base, live := Base(s, p), s.live[p];
    && WellFormed(base)
    && WellFormed(live)
    && SameShape(base, live)
    && (live == base || (HoldsNothing(live) && base.revision < live.revision))
  }

  ghost predicate Origins(s: AgentState) {
    && s.initial.Keys == s.live.Keys
    && forall p <- s.live :: OriginOf(s, p)
  }

  /** The remembered class tables are those of the limits last given on purpose, and no others. */
  predicate Tables(c: Config, s: AgentState) {
    && (forall p <- s.fallbacks :: p in c.managed && p in s.initial)
    && (forall p <- s.initial | p in c.managed :: Find(s.fallbacks, p) == Base(s, p).admissionClasses)
  }

  ghost predicate Targets(s: AgentState) {
    && (forall p <- s.targets :: TargetSound(s.targets[p]))
    && (s.phase.Committing? ==> forall p <- s.phase.shrink :: TargetSound(s.phase.shrink[p]))
  }

  /** The record of installations. */
  ghost predicate Ledger(s: AgentState) {
    && (forall i | 0 <= i < |s.installs| :: InstallOk(s, s.installs[i]))
    && (forall i, j | 0 <= i < j < |s.installs| :: Ordered(s.installs[i], s.installs[j]))
  }

  predicate InstallOk(s: AgentState, a: Install) {
    && a.at < a.expiresAt
    && a.pool in s.live
    && a.pool in s.initial
    && s.initial[a.pool].revision < a.limits.revision <= s.live[a.pool].revision
    && a.registration <= s.registrations
    && (a.registration == s.registrations ==> s.epoch.Some? && a.epoch <= s.epoch.value)
  }

  /** Revisions rise pool by pool, and epochs do not fall between two registrations. */
  predicate Ordered(a: Install, b: Install) {
    && (a.pool == b.pool ==> a.limits.revision < b.limits.revision)
    && a.registration <= b.registration
    && (a.registration == b.registration ==> a.epoch <= b.epoch)
  }

  predicate Awaited(s: AgentState, p: PoolId) {
    s.phase.Committing? && Granted(s.phase.rest, p)
  }

  /** A ready agent holds, or is about to hold, a grant for every pool; and a held grant is watched. */
  predicate Watched(c: Config, s: AgentState) {
    && (s.ready ==> forall p <- c.managed :: p in s.grants || Awaited(s, p))
    && ((s.phase.Idle? || s.phase.Rejecting?) && s.grants != map[] && !s.halted ==> s.armed)
  }

  ghost predicate Inv(c: Config, s: AgentState) {
    Held(c, s) && Pending(c, s) && Origins(s) && Tables(c, s) && Targets(s) && Ledger(s) && Watched(c, s)
  }

  // ---------- Batches ----------

  /** The update is the one the agent makes for the grant. */
  predicate UpdateFor(live: map<PoolId, AdmissionLimits>, fallbacks: map<PoolId, ClassTable>, g: Grant,
                      u: PoolLimitsUpdate)
  {
    PlanFor(live, fallbacks, g).Replace? && u == GrantUpdate(g, PlanFor(live, fallbacks, g).classes)
  }

  /** The batch has one update for each grant to be installed, and nothing else. */
  lemma {:induction false} BatchSpec(live: map<PoolId, AdmissionLimits>, fallbacks: map<PoolId, ClassTable>,
                                     grants: seq<Grant>)
    requires DistinctGrants(grants)
    ensures DistinctPools(Updates(live, fallbacks, grants))
    ensures forall u <- Updates(live, fallbacks, grants) ::
              exists i | 0 <= i < |grants| :: UpdateFor(live, fallbacks, grants[i], u)
    ensures forall i | 0 <= i < |grants| && PlanFor(live, fallbacks, grants[i]).Replace? ::
              GrantUpdate(grants[i], PlanFor(live, fallbacks, grants[i]).classes) in Updates(live, fallbacks, grants)
  {
    hide PlanFor;
    if grants != [] {
      var n := |grants| - 1;
      var before := Updates(live, fallbacks, grants[..n]);
      BatchSpec(live, fallbacks, grants[..n]);
      forall u <- before
        ensures u.pool != grants[n].pool
        ensures exists i | 0 <= i < |grants| :: UpdateFor(live, fallbacks, grants[i], u)
      {
        var i :| 0 <= i < n && UpdateFor(live, fallbacks, grants[..n][i], u);
        assert UpdateFor(live, fallbacks, grants[i], u);
      }
      if PlanFor(live, fallbacks, grants[n]).Replace? {
        assert UpdateFor(live, fallbacks, grants[n],
                         GrantUpdate(grants[n], PlanFor(live, fallbacks, grants[n]).classes));
      }
      forall i | 0 <= i < |grants| && PlanFor(live, fallbacks, grants[i]).Replace?
        ensures GrantUpdate(grants[i], PlanFor(live, fallbacks, grants[i]).classes) in Updates(live, fallbacks, grants)
      {
        assert i < n ==> grants[..n][i] == grants[i];
      }
    }
  }

  /** Installing the batch: each granted pool gets its update if it has one, every other pool keeps its limits. */
  lemma InstalledFor(live: map<PoolId, AdmissionLimits>, fallbacks: map<PoolId, ClassTable>, grants: seq<Grant>, i: nat)
    requires DistinctGrants(grants) && i < |grants|
    requires Accepted(live, Updates(live, fallbacks, grants))
    ensures var plan, after := PlanFor(live, fallbacks, grants[i]), Installed(live, Updates(live, fallbacks, grants));
            && after.Keys == live.Keys
            && (plan.Replace? ==>
                  grants[i].pool in live
                  && after[grants[i].pool] == grants[i].limits.(admissionClasses := plan.classes))
            && (!plan.Replace? && grants[i].pool in live ==> after[grants[i].pool] == live[grants[i].pool])
  {
    hide PlanFor, Acceptable, ProvenanceOk;
    var updates := Updates(live, fallbacks, grants);
    BatchSpec(live, fallbacks, grants);
    InstalledExactly(live, updates);
    var plan := PlanFor(live, fallbacks, grants[i]);
    if plan.Replace? {
      var u := GrantUpdate(grants[i], plan.classes);
      var j :| 0 <= j < |updates| && updates[j] == u;
      assert Installable(live, updates[j]);
    } else {
      NotInBatch(live, fallbacks, grants, i);
    }
  }

  lemma NotInBatch(live: map<PoolId, AdmissionLimits>, fallbacks: map<PoolId, ClassTable>, grants: seq<Grant>, i: nat)
    requires DistinctGrants(grants) && i < |grants| && !PlanFor(live, fallbacks, grants[i]).Replace?
    ensures !Named(Updates(live, fallbacks, grants), grants[i].pool)
  {
    hide PlanFor;
    var updates := Updates(live, fallbacks, grants);
    BatchSpec(live, fallbacks, grants);
    forall j | 0 <= j < |updates|
      ensures updates[j].pool != grants[i].pool
    {
      assert updates[j] in updates;
      var k :| 0 <= k < |grants| && UpdateFor(live, fallbacks, grants[k], updates[j]);
    }
  }

  lemma {:induction false} NoReject(live: map<PoolId, AdmissionLimits>, fallbacks: map<PoolId, ClassTable>,
                                    grants: seq<Grant>)
    ensures FirstReject(live, fallbacks, grants).None? <==>
              forall i | 0 <= i < |grants| :: !PlanFor(live, fallbacks, grants[i]).Reject?
  {
    hide PlanFor;
    if grants != [] {
      var n := |grants| - 1;
      NoReject(live, fallbacks, grants[..n]);
      assert forall i | 0 <= i < n :: grants[..n][i] == grants[i];
    }
  }

  /** Every grant of an applied desired state is matched by what is then live. */
  lemma AppliedMatches(c: Config, live: map<PoolId, AdmissionLimits>, fallbacks: map<PoolId, ClassTable>,
                       d: DesiredState, i: nat)
    requires Parsed(c, d) && i < |d.grants|
    requires FirstReject(live, fallbacks, d.grants).None?
    requires Accepted(live, Updates(live, fallbacks, d.grants))
    ensures Matches(d.grants[i], Installed(live, Updates(live, fallbacks, d.grants)))
  {
    var g := d.grants[i];
    NoReject(live, fallbacks, d.grants);
    InstalledFor(live, fallbacks, d.grants, i);
    assert GrantParsed(c, g, d.controllerEpoch);
  }
}

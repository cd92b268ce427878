/** The proof that every step of the grant agent keeps the invariant. */
module AgentSteps {
  import opened Wrappers
  import opened Text
  import opened Limits
  import opened PoolStore
  import opened Demand
  import opened Drain
  import opened AgentModel
  import opened AgentInvariant

  // ---------- Installing a batch ----------

  lemma {:induction false} LastInstallConcat(a: seq<Install>, b: seq<Install>, p: PoolId)
    ensures LastInstall(a + b, p) == if LastInstall(b, p).Some? then LastInstall(b, p) else LastInstall(a, p)
    decreases |b|
  {
    if b == [] {
      assert a + b == a;
    } else {
      var n := |b| - 1;
      assert (a + b)[..|a + b| - 1] == a + b[..n];
      LastInstallConcat(a, b[..n], p);
    }
  }

  lemma {:induction false} LastInstallIs(b: seq<Install>, p: PoolId)
    ensures LastInstall(b, p).Some? <==> exists i | 0 <= i < |b| :: b[i].pool == p
    ensures LastInstall(b, p).Some? ==> LastInstall(b, p).value in b && LastInstall(b, p).value.pool == p
  {
    if b != [] {
      var n := |b| - 1;
      LastInstallIs(b[..n], p);
      assert b == b[..n] + [b[n]];
      if LastInstall(b, p).Some? && b[n].pool != p {
        var i :| 0 <= i < n && b[..n][i].pool == p;
        assert b[i].pool == p;
      }
    }
  }

  lemma LastAdded(s: AgentState, updates: seq<PoolLimitsUpdate>, now: int, p: PoolId)
    ensures LastInstall(Additions(s, updates, now), p).Some? <==> Named(updates, p)
    ensures Named(updates, p) ==>
              exists i | 0 <= i < |updates| ::
                updates[i].pool == p
                && LastInstall(Additions(s, updates, now), p) == Some(InstallOf(s, updates[i], now))
  {
    var added := Additions(s, updates, now);
    LastInstallIs(added, p);
    if Named(updates, p) {
      var i :| 0 <= i < |updates| && updates[i].pool == p;
      assert added[i].pool == p;
    }
    if LastInstall(added, p).Some? {
      var j :| 0 <= j < |added| && added[j] == LastInstall(added, p).value;
      assert updates[j].pool == p;
    }
  }

  /** What a batch makes the last deliberate limits of a pool. */
  lemma BaseAfter(s: AgentState, updates: seq<PoolLimitsUpdate>, now: int, p: PoolId)
    requires p in s.initial && p in s.live && Accepted(s.live, updates)
    ensures p in Installed(s.live, updates)
    ensures Base(s.(installs := s.installs + Additions(s, updates, now)), p) ==
              if Named(updates, p) then Installed(s.live, updates)[p] else Base(s, p)
  {
    hide Installable, Additions;
    LastInstallConcat(s.installs, Additions(s, updates, now), p);
    LastAdded(s, updates, now, p);
    KnownPools(s.live, updates);
    InstalledExactly(s.live, updates);
  }

  lemma KnownPools(live: map<PoolId, AdmissionLimits>, updates: seq<PoolLimitsUpdate>)
    requires Accepted(live, updates)
    ensures forall i | 0 <= i < |updates| :: updates[i].pool in live
  {
    forall i | 0 <= i < |updates|
      ensures updates[i].pool in live
    {
      assert Installable(live, updates[i]);
    }
  }

  lemma {:induction false} RememberSpec(fallbacks: map<PoolId, ClassTable>, updates: seq<PoolLimitsUpdate>, p: PoolId)
    requires DistinctPools(updates)
    ensures !Named(updates, p) ==> Find(Remember(fallbacks, updates), p) == Find(fallbacks, p)
    ensures forall i | 0 <= i < |updates| && updates[i].pool == p ::
              Find(Remember(fallbacks, updates), p) ==
                if updates[i].limits.admissionClasses.Some? then updates[i].limits.admissionClasses
                else Find(fallbacks, p)
  {
    if updates != [] {
      var n := |updates| - 1;
      var before := updates[..n];
      RememberSpec(fallbacks, before, p);
      NamedSplit(updates, n);
      assert updates[..n + 1] == updates;
      if updates[n].pool == p {
        forall j | 0 <= j < n
          ensures before[j].pool != p
        {
          assert before[j] == updates[j];
        }
        assert !Named(before, p);
      } else {
        forall i | 0 <= i < |updates| && updates[i].pool == p
          ensures Find(Remember(fallbacks, updates), p) ==
                    if updates[i].limits.admissionClasses.Some? then updates[i].limits.admissionClasses
                    else Find(fallbacks, p)
        {
          assert before[i] == updates[i];
        }
      }
    }
  }

  // ---------- The commit step, part by part ----------

  /** When a batch is committed: the poll is idle, its reply parsed, its epoch fenced, nothing rejected. */
  ghost predicate Committable(c: Config, s: AgentState, d: DesiredState, now: int) {
    && Parsed(c, d)
    && s.epoch == Some(d.controllerEpoch)
    && (forall p <- c.managed :: Granted(d.grants, p))
    && (forall i | 0 <= i < |d.grants| :: EffectiveNow(s.clock, now) < d.grants[i].expiresAt)
    && FirstReject(s.live, s.fallbacks, d.grants).None?
    && Accepted(s.live, Updates(s.live, s.fallbacks, d.grants))
  }

  lemma CommitHolds(c: Config, s: AgentState, d: DesiredState, now: int)
    requires Committable(c, s, d, now)
    ensures Held(c, Commit(s, d.grants, now)) && Pending(c, Commit(s, d.grants, now))
  {
    hide Matches, Updates, Installed, Remember, Additions, Shrinks, StillDesired, Accepted;
    var t := Commit(s, d.grants, now);
    forall i | 0 <= i < |d.grants|
      ensures d.grants[i].pool in c.managed && Matches(d.grants[i], t.live)
    {
      AppliedMatches(c, s.live, s.fallbacks, d, i);
      assert GrantParsed(c, d.grants[i], d.controllerEpoch);
    }
  }

  lemma CommitOrigins(c: Config, s: AgentState, d: DesiredState, now: int)
    requires Committable(c, s, d, now) && Origins(s)
    ensures Origins(Commit(s, d.grants, now))
  {
    hide Updates, Remember, Additions, Shrinks, StillDesired, WellFormed, Base, SameShape, HoldsNothing;
    var t, updates := Commit(s, d.grants, now), Updates(s.live, s.fallbacks, d.grants);
    KnownPools(s.live, updates);
    InstalledExactly(s.live, updates);
    forall p <- t.live
      ensures OriginOf(t, p)
    {
      assert OriginOf(s, p);
      SameBase(s.(installs := s.installs + Additions(s, updates, now)), t, p);
      BaseAfter(s, updates, now, p);
      if Named(updates, p) {
        var i :| 0 <= i < |updates| && updates[i].pool == p;
        assert Installable(s.live, updates[i]);
        SelfShape(t.live[p]);
      }
    }
  }

  lemma SelfShape(l: AdmissionLimits)
    ensures SameShape(l, l)
  {
  }

  lemma SameBase(s: AgentState, t: AgentState, p: PoolId)
    requires s.initial == t.initial && s.installs == t.installs && p in s.initial
    ensures Base(s, p) == Base(t, p)
  {
  }

  lemma CommitTables(c: Config, s: AgentState, d: DesiredState, now: int)
    requires Committable(c, s, d, now) && Origins(s) && Tables(c, s)
    ensures Tables(c, Commit(s, d.grants, now))
  {
    hide Updates, Additions, Shrinks, StillDesired, WellFormed, Base, HoldsNothing, Remember, PlanFor;
    var t, updates := Commit(s, d.grants, now), Updates(s.live, s.fallbacks, d.grants);
    KnownPools(s.live, updates);
    InstalledExactly(s.live, updates);
    forall p <- t.fallbacks
      ensures p in c.managed && p in t.initial
    {
      RememberSpec(s.fallbacks, updates, p);
      if Named(updates, p) {
        NamedIsManaged(c, s, d, p);
      }
    }
    forall p <- t.initial | p in c.managed
      ensures Find(t.fallbacks, p) == Base(t, p).admissionClasses
    {
      assert OriginOf(s, p);
      RememberSpec(s.fallbacks, updates, p);
      SameBase(s.(installs := s.installs + Additions(s, updates, now)), t, p);
      BaseAfter(s, updates, now, p);
      if Named(updates, p) {
        var i :| 0 <= i < |updates| && updates[i].pool == p;
        assert Installable(s.live, updates[i]);
      }
    }
  }

  lemma NamedIsManaged(c: Config, s: AgentState, d: DesiredState, p: PoolId)
    requires Parsed(c, d) && Named(Updates(s.live, s.fallbacks, d.grants), p)
    ensures p in c.managed
  {
    hide PlanFor, Updates;
    var updates := Updates(s.live, s.fallbacks, d.grants);
    BatchSpec(s.live, s.fallbacks, d.grants);
    var i :| 0 <= i < |updates| && updates[i].pool == p;
    assert updates[i] in updates;
    var k :| 0 <= k < |d.grants| && UpdateFor(s.live, s.fallbacks, d.grants[k], updates[i]);
    assert GrantParsed(c, d.grants[k], d.controllerEpoch);
  }

  lemma CommitTargets(c: Config, s: AgentState, d: DesiredState, now: int)
    requires Committable(c, s, d, now) && Targets(s)
    ensures Targets(Commit(s, d.grants, now))
  {
    hide TargetSound, Updates, Installed, Remember, Additions, Accepted;
    var t := Commit(s, d.grants, now);
    forall i | 0 <= i < |d.grants| && PlanFor(s.live, s.fallbacks, d.grants[i]).Replace?
      ensures TargetAllowed(s, d.grants[i])
    {
      ReplacementFits(s, d, i);
    }
    ShrinksSound(s, d.grants);
  }

  /** The replacement limits of a grant, if it has any, are well-formed and shaped like what is live. */
  ghost predicate TargetAllowed(s: AgentState, g: Grant) {
    var plan := PlanFor(s.live, s.fallbacks, g);
    plan.Replace? ==>
      && g.pool in s.live
      && SameShape(s.live[g.pool], g.limits.(admissionClasses := plan.classes))
      && WellFormed(g.limits.(admissionClasses := plan.classes))
  }

  lemma ReplacementFits(s: AgentState, d: DesiredState, i: nat)
    requires i < |d.grants| && DistinctGrants(d.grants)
    requires Accepted(s.live, Updates(s.live, s.fallbacks, d.grants))
    ensures TargetAllowed(s, d.grants[i])
  {
    hide PlanFor, Updates, WellFormed, SameShape;
    var g, plan := d.grants[i], PlanFor(s.live, s.fallbacks, d.grants[i]);
    if plan.Replace? {
      BatchSpec(s.live, s.fallbacks, d.grants);
      var updates, u := Updates(s.live, s.fallbacks, d.grants), GrantUpdate(g, plan.classes);
      var j :| 0 <= j < |updates| && updates[j] == u;
      assert Installable(s.live, updates[j]);
    }
  }

  lemma {:induction false} ShrinksSound(s: AgentState, grants: seq<Grant>)
    requires forall i | 0 <= i < |grants| && PlanFor(s.live, s.fallbacks, grants[i]).Replace? ::
               TargetAllowed(s, grants[i])
    ensures forall p <- Shrinks(s.live, s.fallbacks, grants) :: TargetSound(Shrinks(s.live, s.fallbacks, grants)[p])
  {
    hide TargetSound, PlanFor, DrainTargetOf, WellFormed, SameShape;
    if grants != [] {
      var n := |grants| - 1;
      assert forall i | 0 <= i < n :: grants[..n][i] == grants[i];
      ShrinksSound(s, grants[..n]);
      var g, plan := grants[n], PlanFor(s.live, s.fallbacks, grants[n]);
      if plan.Replace? && DrainTargetOf(s.live[g.pool], g.limits, plan.classes).Some? {
        assert TargetAllowed(s, g);
        TargetIgnoresClasses(s.live[g.pool], g.limits, plan.classes);
        TargetOfIsSound(s.live[g.pool], g.limits, plan.classes);
      }
    }
  }

  lemma TargetIgnoresClasses(live: AdmissionLimits, l: AdmissionLimits, classes: Option<ClassTable>)
    ensures DrainTargetOf(live, l, classes) == DrainTargetOf(live, l.(admissionClasses := classes), classes)
  {
  }

  lemma CommitLedger(c: Config, s: AgentState, d: DesiredState, now: int)
    requires Committable(c, s, d, now) && Origins(s) && Ledger(s)
    ensures Ledger(Commit(s, d.grants, now))
  {
    hide Updates, Remember, Shrinks, StillDesired, WellFormed, Accepted, SameShape, Installed, InstallOk, Ordered,
         FirstReject;
    var t, updates := Commit(s, d.grants, now), Updates(s.live, s.fallbacks, d.grants);
    var n := |s.installs|;
    forall i | 0 <= i < |t.installs|
      ensures InstallOk(t, t.installs[i])
    {
      if i < n {
        LedgerGrows(c, s, d, now, s.installs[i]);
      } else {
        AddedOk(c, s, d, now, i - n);
      }
    }
    forall i, j | 0 <= i < j < |t.installs|
      ensures Ordered(t.installs[i], t.installs[j])
    {
      if j >= n {
        if i < n {
          OldBeforeAdded(c, s, d, now, s.installs[i], j - n);
        } else {
          AddedApart(c, s, d, now, i - n, j - n);
        }
      }
    }
  }

  lemma LedgerGrows(c: Config, s: AgentState, d: DesiredState, now: int, a: Install)
    requires Committable(c, s, d, now) && Origins(s) && InstallOk(s, a)
    ensures InstallOk(Commit(s, d.grants, now), a)
  {
    hide Updates, Remember, Additions, Shrinks, StillDesired, WellFormed, Accepted, SameShape, Installed, FirstReject;
    OriginsWellFormed(s);
    InstalledAdvances(s.live, Updates(s.live, s.fallbacks, d.grants));
  }

  lemma OriginsWellFormed(s: AgentState)
    requires Origins(s)
    ensures AllWellFormed(s.live)
  {
    hide WellFormed, SameShape, HoldsNothing, Base;
    forall p <- s.live
      ensures WellFormed(s.live[p])
    {
      assert OriginOf(s, p);
    }
  }

  /** An update of the batch, traced back to its grant. */
  lemma UpdateOf(c: Config, s: AgentState, d: DesiredState, now: int, j: nat)
    requires Committable(c, s, d, now) && j < |Updates(s.live, s.fallbacks, d.grants)|
    ensures var u, a :=
              Updates(s.live, s.fallbacks, d.grants)[j], InstallOf(s, Updates(s.live, s.fallbacks, d.grants)[j], now);
            && a.epoch == d.controllerEpoch
            && a.at < a.expiresAt
            && a.pool in s.live
            && Installable(s.live, u)
            && u.pool in Installed(s.live, Updates(s.live, s.fallbacks, d.grants))
            && Installed(s.live, Updates(s.live, s.fallbacks, d.grants))[u.pool] == u.limits
  {
    hide PlanFor, Updates, FirstReject, Acceptable;
    var updates := Updates(s.live, s.fallbacks, d.grants);
    BatchSpec(s.live, s.fallbacks, d.grants);
    assert updates[j] in updates;
    var k :| 0 <= k < |d.grants| && UpdateFor(s.live, s.fallbacks, d.grants[k], updates[j]);
    assert GrantParsed(c, d.grants[k], d.controllerEpoch);
    KnownPools(s.live, updates);
    InstalledExactly(s.live, updates);
  }

  /** A pool's live revision is never below the one it started with, nor below any installed one. */
  lemma RevisionFloor(s: AgentState, p: PoolId)
    requires Origins(s) && Ledger(s) && p in s.live
    ensures s.initial[p].revision <= s.live[p].revision
    ensures forall i | 0 <= i < |s.installs| && s.installs[i].pool == p ::
              s.installs[i].limits.revision <= s.live[p].revision
  {
    hide WellFormed, SameShape, HoldsNothing;
    assert OriginOf(s, p);
    LastInstallIs(s.installs, p);
    if LastInstall(s.installs, p).Some? {
      var i :| 0 <= i < |s.installs| && s.installs[i] == LastInstall(s.installs, p).value;
      assert InstallOk(s, s.installs[i]);
    }
    assert forall i | 0 <= i < |s.installs| :: InstallOk(s, s.installs[i]);
  }

  lemma AddedOk(c: Config, s: AgentState, d: DesiredState, now: int, j: nat)
    requires Committable(c, s, d, now) && Origins(s) && Ledger(s)
    requires j < |Updates(s.live, s.fallbacks, d.grants)|
    ensures InstallOk(Commit(s, d.grants, now), InstallOf(s, Updates(s.live, s.fallbacks, d.grants)[j], now))
  {
    hide Updates, Remember, Additions, Shrinks, StillDesired, Accepted, Installed, FirstReject, OriginOf, Ledger,
         Acceptable;
    UpdateOf(c, s, d, now, j);
    RevisionFloor(s, Updates(s.live, s.fallbacks, d.grants)[j].pool);
  }

  lemma OldBeforeAdded(c: Config, s: AgentState, d: DesiredState, now: int, a: Install, j: nat)
    requires Committable(c, s, d, now) && InstallOk(s, a)
    requires j < |Updates(s.live, s.fallbacks, d.grants)|
    ensures Ordered(a, InstallOf(s, Updates(s.live, s.fallbacks, d.grants)[j], now))
  {
    hide Updates, Accepted, Installed, FirstReject, Acceptable;
    UpdateOf(c, s, d, now, j);
  }

  lemma AddedApart(c: Config, s: AgentState, d: DesiredState, now: int, i: nat, j: nat)
    requires Committable(c, s, d, now) && i < j < |Updates(s.live, s.fallbacks, d.grants)|
    ensures var updates := Updates(s.live, s.fallbacks, d.grants);
            Ordered(InstallOf(s, updates[i], now), InstallOf(s, updates[j], now))
  {
    hide Updates, Installed, FirstReject, Installable;
    UpdateOf(c, s, d, now, i);
    UpdateOf(c, s, d, now, j);
  }

  lemma CommitWatched(c: Config, s: AgentState, d: DesiredState, now: int)
    requires Committable(c, s, d, now)
    ensures Watched(c, Commit(s, d.grants, now))
  {
    hide Updates, Installed, Remember, Additions, Shrinks, StillDesired, Accepted, FirstReject, Parsed;
    var t := Commit(s, d.grants, now);
    forall p <- c.managed
      ensures p in t.grants || Awaited(t, p)
    {
      assert Granted(d.grants, p);
      var i :| 0 <= i < |d.grants| && d.grants[i].pool == p;
      if i > 0 {
        assert d.grants[1..][i - 1] == d.grants[i];
      }
    }
  }

  lemma CommitInv(c: Config, s: AgentState, d: DesiredState, now: int)
    requires Committable(c, s, d, now) && Origins(s) && Tables(c, s) && Targets(s) && Ledger(s)
    ensures Inv(c, Commit(s, d.grants, now))
  {
    hide Committable, Commit, Held, Pending, Origins, Tables, Targets, Ledger, Watched;
    CommitHolds(c, s, d, now);
    CommitOrigins(c, s, d, now);
    CommitTables(c, s, d, now);
    CommitTargets(c, s, d, now);
    CommitLedger(c, s, d, now);
    CommitWatched(c, s, d, now);
  }

  // ---------- Steps that leave most of the state alone ----------

  /** Only clocks, epochs that rise, readiness, the timer and the phase may differ. */
  predicate SameStore(s: AgentState, t: AgentState) {
    && t.live == s.live && t.grants == s.grants && t.fallbacks == s.fallbacks
    && t.initial == s.initial && t.installs == s.installs
    && (t.registrations == s.registrations ==> s.epoch.Some? ==> t.epoch.Some? && s.epoch.value <= t.epoch.value)
    && s.registrations <= t.registrations
  }

  lemma SameStoreInv(c: Config, s: AgentState, t: AgentState)
    requires Inv(c, s) && SameStore(s, t)
    requires t.phase == s.phase || !t.phase.Committing?
    requires Targets(t) && Watched(c, t)
    ensures Inv(c, t)
  {
    hide Matches, WellFormed, SameShape, HoldsNothing, TargetSound, Ordered, Watched;
    forall p <- t.live
      ensures OriginOf(t, p)
    {
      assert OriginOf(s, p);
      SameBase(s, t, p);
    }
    forall i | 0 <= i < |t.installs|
      ensures InstallOk(t, t.installs[i])
    {
      assert InstallOk(s, s.installs[i]);
    }
    assert Tables(c, t);
  }

  lemma FewerTargets(s: AgentState, t: AgentState)
    requires Targets(s)
    requires forall p <- t.targets :: p in s.targets && t.targets[p] == s.targets[p]
    requires t.phase == s.phase || !t.phase.Committing?
    ensures Targets(t)
  {
    hide TargetSound;
  }

  lemma CompleteIsWatched(c: Config, s: AgentState, localNow: int)
    ensures Watched(c, Recheck(c, s, localNow))
    ensures s.armed || s.grants == map[] || s.halted || !(s.phase.Idle? || s.phase.Rejecting?) ==>
              Watched(c, s.(ready := Complete(c, s, localNow)))
  {
  }

  /** `t` is `s` after an acknowledgement: the next installed grant, if any, is now held. */
  predicate Acked(s: AgentState, t: AgentState)
    requires s.phase.Committing?
  {
    && t.live == s.live && t.ready == s.ready
    && (s.phase.rest == [] ==> t.grants == s.grants && t.phase == Publishing)
    && (s.phase.rest != [] ==>
          && t.grants == s.grants[s.phase.rest[0].pool := s.phase.rest[0]]
          && t.phase == Committing(s.phase.rest[0], s.phase.rest[1..], s.phase.shrink))
  }

  lemma AckInv(c: Config, s: AgentState, ok: bool)
    requires Inv(c, s)
    ensures Inv(c, OnAckReply(s, ok))
  {
    hide Held, Pending, Origins, Tables, Targets, Ledger, Watched, AckTarget;
    if s.phase.Committing? {
      var t := OnAckReply(s, ok);
      assert Acked(s, t);
      AckTargets(s, t, ok);
      AckHeld(c, s, t);
      AckWatched(c, s, t);
      AckLedger(c, s, t);
    }
  }

  lemma AckTargets(s: AgentState, t: AgentState, ok: bool)
    requires Targets(s) && s.phase.Committing? && Acked(s, t) && t.targets == AckTarget(s, ok)
    ensures Targets(t)
  {
    hide TargetSound;
  }

  lemma AckHeld(c: Config, s: AgentState, t: AgentState)
    requires Held(c, s) && Pending(c, s) && s.phase.Committing? && Acked(s, t)
    ensures Held(c, t) && Pending(c, t)
  {
    hide Matches;
    var rest := s.phase.rest;
    if rest != [] {
      forall i | 0 <= i < |t.phase.rest|
        ensures t.phase.rest[i] == rest[i + 1] && rest[i + 1].pool != rest[0].pool
      {
      }
    }
  }

  lemma AckWatched(c: Config, s: AgentState, t: AgentState)
    requires Watched(c, s) && s.phase.Committing? && Acked(s, t)
    ensures Watched(c, t)
  {
    var rest := s.phase.rest;
    forall p | Granted(rest, p)
      ensures p in t.grants || Awaited(t, p)
    {
      var i :| 0 <= i < |rest| && rest[i].pool == p;
      if i > 0 {
        assert rest[1..][i - 1] == rest[i];
      }
    }
  }

  /** Holding one more grant changes nothing about origins, tables or the ledger. */
  lemma AckLedger(c: Config, s: AgentState, t: AgentState)
    requires Origins(s) && Tables(c, s) && Ledger(s)
    requires t.live == s.live && t.fallbacks == s.fallbacks && t.initial == s.initial && t.installs == s.installs
    requires t.registrations == s.registrations && t.epoch == s.epoch
    ensures Origins(t) && Tables(c, t) && Ledger(t)
  {
    hide WellFormed, SameShape, HoldsNothing, Ordered;
    forall p <- t.live
      ensures OriginOf(t, p)
    {
      assert OriginOf(s, p);
      SameBase(s, t, p);
    }
    forall i | 0 <= i < |t.installs|
      ensures InstallOk(t, t.installs[i])
    {
      assert InstallOk(s, s.installs[i]);
    }
  }

  // ---------- The kill switch ----------

  /** A held grant's pool can be closed exactly when there is a safe integer above the grant's revision. */
  lemma KillInstallable(c: Config, s: AgentState, p: PoolId)
    requires Held(c, s) && Origins(s) && p in s.grants
    ensures p in s.live
    ensures Installable(s.live, KillUpdate(s.live, s.grants[p])) <==> s.grants[p].revision < MAX_SAFE_INTEGER
  {
    hide WellFormed, Acceptable;
    assert OriginOf(s, p);
    var g := s.grants[p];
    ClosedAcceptable(s.live[p], g.revision + 1, g.limits.tokenBudget.Some?);
  }

  /** What closing does to one expired pool. */
  lemma KillOne(c: Config, s: AgentState, now: int, p: PoolId)
    requires Held(c, s) && Origins(s) && Killable(s, now) && p in Expired(s, now)
    ensures p in s.live && p in KillLive(s, now)
    ensures KillLive(s, now)[p] == Closed(s.live[p], s.live[p].revision + 1, s.live[p].tokenBudget.Some?)
    ensures KillLive(s, now)[p].revision == s.live[p].revision + 1
    ensures HoldsNothing(KillLive(s, now)[p])
    ensures WellFormed(KillLive(s, now)[p]) && SameShape(s.live[p], KillLive(s, now)[p])
  {
    hide WellFormed, HoldsNothing, SameShape, FailClosedClasses, OriginOf;
    ClosedHoldsNothing(s.live[p], s.grants[p].revision + 1, s.grants[p].limits.tokenBudget.Some?);
    assert Installable(s.live, KillUpdate(s.live, s.grants[p]));
  }

  lemma KillOrigins(c: Config, s: AgentState, now: int)
    requires Held(c, s) && Origins(s) && Killable(s, now)
    ensures Origins(s.(live := KillLive(s, now)))
  {
    hide WellFormed, HoldsNothing, SameShape, Base, Killable, Closed, Held;
    var t := s.(live := KillLive(s, now));
    forall p <- t.live
      ensures OriginOf(t, p)
    {
      assert OriginOf(s, p);
      SameBase(s, t, p);
      if p in Expired(s, now) {
        KillOne(c, s, now, p);
        ShapeTransitive(Base(s, p), s.live[p], t.live[p]);
      }
    }
  }

  lemma KillAdvances(c: Config, s: AgentState, now: int, p: PoolId)
    requires Held(c, s) && Origins(s) && Killable(s, now) && p in s.live
    ensures p in KillLive(s, now)
    ensures s.live[p].revision <= KillLive(s, now)[p].revision
    ensures p !in Expired(s, now) ==> KillLive(s, now)[p] == s.live[p]
  {
    hide WellFormed, HoldsNothing, Killable, Closed, Origins, Held, SameShape;
    if p in Expired(s, now) {
      KillOne(c, s, now, p);
    }
  }

  lemma KillInv(c: Config, s: AgentState, now: int)
    requires Inv(c, s) && s.armed && Expired(s, now) != map[] && Killable(s, now)
    ensures Inv(c, OnTimer(s, now))
  {
    hide KillLive, Killable, WellFormed, SameShape, HoldsNothing, TargetSound, Ordered, GrantSane;
    var t := OnTimer(s, now);
    forall p <- s.live
      ensures p in t.live && s.live[p].revision <= t.live[p].revision
      ensures p !in Expired(s, now) ==> t.live[p] == s.live[p]
    {
      KillAdvances(c, s, now, p);
    }
    KillOrigins(c, s, now);
    KillHolds(c, s, t, now);
    KillLedger(c, s, t);
    FewerTargets(s, t);
    KillRest(c, s, s.(live := KillLive(s, now)), t);
  }

  lemma KillHolds(c: Config, s: AgentState, t: AgentState, now: int)
    requires Held(c, s) && Pending(c, s)
    requires t.phase == s.phase && t.grants == s.grants - Expired(s, now).Keys
    requires forall p <- s.live :: p in t.live && (p !in Expired(s, now) ==> t.live[p] == s.live[p])
    ensures Held(c, t) && Pending(c, t)
  {
    hide GrantSane;
    if t.phase.Committing? {
      forall i | 0 <= i < |t.phase.rest|
        ensures t.phase.rest[i].pool in c.managed && t.phase.rest[i].pool !in t.grants
                && Matches(t.phase.rest[i], t.live)
      {
        assert t.phase.rest[i].pool !in Expired(s, now);
      }
    }
  }

  lemma KillLedger(c: Config, s: AgentState, t: AgentState)
    requires Ledger(s)
    requires forall p <- s.live :: p in t.live && s.live[p].revision <= t.live[p].revision
    requires t.initial == s.initial && t.installs == s.installs && t.registrations == s.registrations
             && t.epoch == s.epoch
    ensures Ledger(t)
  {
    hide Ordered;
    forall i | 0 <= i < |t.installs|
      ensures InstallOk(t, t.installs[i])
    {
      assert InstallOk(s, s.installs[i]);
    }
  }

  lemma KillRest(c: Config, s: AgentState, u: AgentState, t: AgentState)
    requires Tables(c, s) && Origins(u)
    requires u.live == t.live && u.initial == t.initial && u.installs == t.installs
    requires t.fallbacks == s.fallbacks && t.initial == s.initial && t.installs == s.installs
    ensures Tables(c, t) && Origins(t)
  {
    hide WellFormed, SameShape, HoldsNothing;
    forall p <- t.live
      ensures OriginOf(t, p)
    {
      assert OriginOf(u, p);
      SameBase(u, t, p);
    }
  }

  // ---------- Every step ----------

  lemma TimerInv(c: Config, s: AgentState, now: int)
    requires Inv(c, s)
    ensures Inv(c, OnTimer(s, now))
  {
    hide Held, Pending, Origins, Tables, Ledger, TargetSound, Killable, KillLive, Complete;
    if s.armed {
      if Expired(s, now) == map[] {
        SameStoreInv(c, s, Schedule(s));
      } else if Killable(s, now) {
        KillInv(c, s, now);
      } else {
        SameStoreInv(c, s, s.(armed := false, halted := true));
      }
    }
  }

  lemma ApplyInv(c: Config, s: AgentState, d: DesiredState, now: int)
    requires Inv(c, s) && Parsed(c, d) && s.epoch == Some(d.controllerEpoch) && s.phase.Idle?
    ensures Inv(c, ApplyDesired(c, s, d.grants, now))
  {
    hide Held, Pending, Origins, Tables, Ledger, TargetSound, Complete, Commit, Accepted, Updates, FirstReject,
         Parsed, Granted;
    if exists p <- c.managed :: !Granted(d.grants, p) {
      CompleteIsWatched(c, s, now);
      SameStoreInv(c, s, Recheck(c, s, now));
    } else if exists i | 0 <= i < |d.grants| :: d.grants[i].expiresAt <= EffectiveNow(s.clock, now) {
      SameStoreInv(c, s, s.(phase := Rejecting(GrantExpired, true)));
    } else if FirstReject(s.live, s.fallbacks, d.grants).Some? {
      SameStoreInv(c, s, s.(phase := Rejecting(FirstReject(s.live, s.fallbacks, d.grants).value, false)));
    } else if Accepted(s.live, Updates(s.live, s.fallbacks, d.grants)) {
      CommitInv(c, s, d, now);
    }
  }

  lemma PollInv(c: Config, s: AgentState, d: DesiredState, topologyAccepted: bool, now: int)
    requires Inv(c, s)
    ensures Inv(c, OnPollReply(c, s, d, topologyAccepted, now))
  {
    hide Held, Pending, Origins, Tables, Ledger, TargetSound, ApplyDesired, Parsed;
    if s.phase.Idle? && Parsed(c, d) {
      var timed := s.(clock := Some(Clock(d.serverTime, now)));
      SameStoreInv(c, s, timed);
      if !(s.epoch.Some? && d.controllerEpoch < s.epoch.value) {
        var fenced := timed.(epoch := Some(d.controllerEpoch));
        SameStoreInv(c, timed, fenced);
        ApplyInv(c, fenced, d, now);
      }
    }
  }

  lemma RetireInv(c: Config, s: AgentState, demand: seq<PoolDemandSnapshot>)
    requires Inv(c, s)
    ensures Inv(c, s.(targets := Retire(s.targets, demand)))
  {
    hide Held, Pending, Origins, Tables, Ledger, TargetSound, TargetReady, ByPool;
    var t := s.(targets := Retire(s.targets, demand));
    FewerTargets(s, t);
    SameStoreInv(c, s, t);
  }

  lemma PublishedInv(c: Config, s: AgentState, demand: Option<seq<PoolDemandSnapshot>>, now: int)
    requires Inv(c, s)
    ensures Inv(c, OnPublished(c, s, demand, now))
  {
    hide Held, Pending, Origins, Tables, Ledger, TargetSound, TargetReady, ByPool;
    if s.phase.Publishing? {
      var t := OnPublished(c, s, demand, now);
      FewerTargets(s, t);
      SameStoreInv(c, s, t);
    }
  }

  lemma RejectionInv(c: Config, s: AgentState, now: int)
    requires Inv(c, s)
    ensures Inv(c, OnRejectionAcked(c, s, now))
  {
    hide Held, Pending, Origins, Tables, Ledger, TargetSound;
    if s.phase.Rejecting? {
      SameStoreInv(c, s, OnRejectionAcked(c, s, now));
    }
  }

  lemma OtherInv(c: Config, s: AgentState, e: Event)
    requires Inv(c, s) && (e.PollFailed? || e.Registered? || e.Stopped?)
    ensures Inv(c, Step(c, s, e))
  {
    hide Held, Pending, Origins, Tables, Ledger, TargetSound;
    SameStoreInv(c, s, Step(c, s, e));
  }

  lemma StepInv(c: Config, s: AgentState, e: Event)
    requires Inv(c, s)
    ensures Inv(c, Step(c, s, e))
  {
    hide Inv;
    match e
    case PollReply(d, topologyAccepted, now) => PollInv(c, s, d, topologyAccepted, now);
    case RejectionAcked(now) => RejectionInv(c, s, now);
    case AckReply(ok) => AckInv(c, s, ok);
    case Published(demand, now) => PublishedInv(c, s, demand, now);
    case HeartbeatReply(accepted) => RetireInv(c, s, accepted);
    case TimerFired(now) => TimerInv(c, s, now);
    case PollFailed(now) => OtherInv(c, s, e);
    case Registered(epoch) => OtherInv(c, s, e);
    case Stopped => OtherInv(c, s, e);
  }

  lemma InitialInv(c: Config, live: map<PoolId, AdmissionLimits>)
    requires AllWellFormed(live)
    ensures Inv(c, Initial(c, live))
  {
    hide WellFormed, HoldsNothing;
    var s := Initial(c, live);
    forall p <- live
      ensures OriginOf(s, p)
    {
      SelfShape(live[p]);
    }
  }

  /** The invariant holds in every reachable state, whatever the order of events. */
  lemma {:induction false} RunInv(c: Config, live: map<PoolId, AdmissionLimits>, events: seq<Event>)
    requires AllWellFormed(live)
    ensures Inv(c, Run(c, live, events))
  {
    hide Inv, Step;
    if events == [] {
      InitialInv(c, live);
    } else {
      RunInv(c, live, events[..|events| - 1]);
      StepInv(c, Run(c, live, events[..|events| - 1]), events[|events| - 1]);
    }
  }
}

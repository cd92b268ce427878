/**
 * The limit store of `src/pools.ts`: one object per pool, and the multi-pool
 * transaction that installs new limits over several of them.
 */
module PoolStore {
  import opened Wrappers
  import opened Text
  import opened Limits
  import Stats

  const MAX_RETAINED_PROVENANCE_REVISIONS := 64
  const MAX_RETAINED_ADMISSION_PROVENANCE_EVENTS := 512

  /** `expiresAt` is `None` when the timestamp does not parse. */
  datatype Provenance = Provenance(
    source: string,
    grantId: string,
    controllerEpoch: int,
    revision: int,
    expiresAt: Option<int>)

  datatype PoolLimitsUpdate = PoolLimitsUpdate(
    pool: PoolId,
    limits: AdmissionLimits,
    provenance: Option<Provenance>)

  /** What the bulkhead reports when a request has been admitted. */
  datatype AdmitEvent = AdmitEvent(
    admissionId: string,
    priority: Stats.Priority,
    admissionClass: Option<ClassId>,
    limitRevision: int,
    reservedTokens: nat,
    resources: Resources)

  /** What the bulkhead says an admission holds; only whether its slot is borrowed is read here. */
  datatype Resources = Resources(borrowedConcurrency: bool)

  datatype ProvenanceEvent = ProvenanceEvent(
    sequence: nat,
    admittedAt: int,
    pool: PoolId,
    event: AdmitEvent,
    limits: AdmissionLimits,
    grant: Option<Provenance>)

  datatype Change = Change(previous: AdmissionLimits, current: AdmissionLimits)

  datatype ApplyResult =
    | Applied(pools: map<PoolId, Change>)
    | DuplicatePool(pool: PoolId)
    | UnknownPool(pool: PoolId)
    | StaleRevision(pool: PoolId, current: AdmissionLimits)
    | Threw

  /** A record about this revision with every field in order, its grant identifier trimmed. */
  predicate ProvenanceInOrder(limitRevision: int, p: Provenance) {
    && p.source == "latchflo"
    && p.grantId != "" && Trim(p.grantId) == p.grantId
    && 1 <= p.controllerEpoch <= MAX_SAFE_INTEGER
    && SafeNat(p.revision) && p.revision == limitRevision
    && p.expiresAt.Some?
  }

  /** `validateAdmissionProvenance`: the normalised record, or `None` where the source throws. */
  function NormalizeProvenance(limitRevision: int, p: Provenance): (r: Option<Provenance>)
    ensures r.Some? ==> r.value.revision == limitRevision
  {
    if && p.source == "latchflo"
       && !Blank(p.grantId)
       && 1 <= p.controllerEpoch <= MAX_SAFE_INTEGER
       && SafeNat(p.revision)
       && p.revision == limitRevision
       && p.expiresAt.Some?
    then
      Some(p.(grantId := Trim(p.grantId)))
    else
      None
  }

  /** What is kept is in order, what is in order is kept as it is, and what only needs trimming is kept. */
  lemma NormalizeProvenanceExactly(limitRevision: int, p: Provenance)
    ensures var r := NormalizeProvenance(limitRevision, p);
            && (r.Some? ==> ProvenanceInOrder(limitRevision, r.value))
            && (r == Some(p) <==> ProvenanceInOrder(limitRevision, p))
            && (r.Some? <==> ProvenanceInOrder(limitRevision, p.(grantId := Trim(p.grantId))))
  {
    TrimIdempotent(p.grantId);
  }

  lemma NormalizeProvenanceIdempotent(limitRevision: int, p: Provenance)
    requires NormalizeProvenance(limitRevision, p).Some?
    ensures NormalizeProvenance(limitRevision, NormalizeProvenance(limitRevision, p).value) ==
              NormalizeProvenance(limitRevision, p)
  {
    TrimIdempotent(p.grantId);
  }

  // ---------- The transaction, declaratively ----------

  predicate ProvenanceOk(u: PoolLimitsUpdate) {
    u.provenance.Some? ==> NormalizeProvenance(u.limits.revision, u.provenance.value).Some?
  }

  predicate Named(updates: seq<PoolLimitsUpdate>, p: PoolId) {
    exists i | 0 <= i < |updates| :: updates[i].pool == p
  }

  predicate DistinctPools(updates: seq<PoolLimitsUpdate>) {
    forall i, j | 0 <= i < j < |updates| :: updates[i].pool != updates[j].pool
  }

  /** The update, on its own, may replace what is live. */
  ghost predicate Installable(live: map<PoolId, AdmissionLimits>, u: PoolLimitsUpdate) {
    && u.pool in live
    && Acceptable(live[u.pool], u.limits)
    && ProvenanceOk(u)
    && live[u.pool].revision < u.limits.revision
  }

  ghost predicate Accepted(live: map<PoolId, AdmissionLimits>, updates: seq<PoolLimitsUpdate>) {
    && DistinctPools(updates)
    && forall i | 0 <= i < |updates| :: Installable(live, updates[i])
  }

  /** What preflight answers for `u` once the updates in `before` have passed it. */
  ghost function Refusal(live: map<PoolId, AdmissionLimits>, before: seq<PoolLimitsUpdate>,
                         u: PoolLimitsUpdate): Option<ApplyResult>
  {
    if Named(before, u.pool) then Some(DuplicatePool(u.pool))
    else if u.pool !in live then Some(UnknownPool(u.pool))
    else if !Acceptable(live[u.pool], u.limits) || !ProvenanceOk(u) then Some(Threw)
    else if u.limits.revision <= live[u.pool].revision then Some(StaleRevision(u.pool, live[u.pool]))
    else None
  }

  /** Preflight of a whole batch: the refusal of the first update that is refused, if any. */
  ghost function Preflight(live: map<PoolId, AdmissionLimits>, updates: seq<PoolLimitsUpdate>): Option<ApplyResult> {
    if updates == [] then None
    else
      var n := |updates| - 1;
      var earlier := Preflight(live, updates[..n]);
      if earlier.Some? then earlier else Refusal(live, updates[..n], updates[n])
  }

  /** A batch passes preflight exactly when it names known pools once each, with fresh, acceptable limits. */
  lemma {:induction false} PreflightAccepts(live: map<PoolId, AdmissionLimits>, updates: seq<PoolLimitsUpdate>)
    ensures Preflight(live, updates).None? <==> Accepted(live, updates)
  {
    hide Acceptable, ProvenanceOk;
    if updates != [] {
      var n := |updates| - 1;
      PreflightAccepts(live, updates[..n]);
      assert updates == updates[..n] + [updates[n]];
      if Accepted(live, updates) {
        assert Accepted(live, updates[..n]);
        assert !Named(updates[..n], updates[n].pool);
      }
    }
  }

  /** Once an update is refused, the rest of the batch does not change the answer. */
  lemma {:induction false} PreflightStops(live: map<PoolId, AdmissionLimits>, updates: seq<PoolLimitsUpdate>, i: nat)
    requires i <= |updates| && Preflight(live, updates[..i]).Some?
    ensures Preflight(live, updates) == Preflight(live, updates[..i])
    decreases |updates|
  {
    if i == |updates| {
      assert updates[..i] == updates;
    } else {
      var n := |updates| - 1;
      assert updates[..n][..i] == updates[..i];
      PreflightStops(live, updates[..n], i);
    }
  }

  function Installed(live: map<PoolId, AdmissionLimits>, updates: seq<PoolLimitsUpdate>): map<PoolId, AdmissionLimits> {
    if updates == [] then live
    else
      var last := updates[|updates| - 1];
      Installed(live, updates[..|updates| - 1])[last.pool := last.limits]
  }

  /** An accepted batch sets exactly the pools it names, each to the snapshot given for it. */
  lemma {:induction false} InstalledExactly(live: map<PoolId, AdmissionLimits>, updates: seq<PoolLimitsUpdate>)
    requires DistinctPools(updates)
    requires forall i | 0 <= i < |updates| :: updates[i].pool in live
    ensures Installed(live, updates).Keys == live.Keys
    ensures forall i | 0 <= i < |updates| :: Installed(live, updates)[updates[i].pool] == updates[i].limits
    ensures forall p <- live | !Named(updates, p) :: Installed(live, updates)[p] == live[p]
  {
    if updates != [] {
      var n := |updates| - 1;
      var before := updates[..n];
      InstalledExactly(live, before);
      forall i | 0 <= i < n
        ensures before[i] == updates[i] && updates[i].pool != updates[n].pool
      {
      }
      forall p <- live | !Named(updates, p)
        ensures Installed(live, updates)[p] == live[p]
      {
        assert updates[n].pool != p;
        assert !Named(before, p);
      }
    }
  }

  // ---------- Runs of transactions ----------

  ghost function ApplyAll(live: map<PoolId, AdmissionLimits>,
                          batches: seq<seq<PoolLimitsUpdate>>): map<PoolId, AdmissionLimits>
  {
    if batches == [] then live
    else
      var before := ApplyAll(live, batches[..|batches| - 1]);
      var batch := batches[|batches| - 1];
      if Accepted(before, batch) then Installed(before, batch) else before
  }

  ghost predicate AllWellFormed(live: map<PoolId, AdmissionLimits>) {
    forall p <- live :: WellFormed(live[p])
  }

  /** The relation one accepted batch puts between a pool's old and new limits. */
  predicate Advances(was: AdmissionLimits, now: AdmissionLimits) {
    && SameShape(was, now)
    && was.revision <= now.revision
    && (was.revision == now.revision ==> was == now)
  }

  lemma InstalledAdvances(live: map<PoolId, AdmissionLimits>, updates: seq<PoolLimitsUpdate>)
    requires AllWellFormed(live) && Accepted(live, updates)
    ensures Installed(live, updates).Keys == live.Keys
    ensures AllWellFormed(Installed(live, updates))
    ensures forall p <- live :: Advances(live[p], Installed(live, updates)[p])
  {
    InstalledExactly(live, updates);
    forall p <- live
      ensures WellFormed(Installed(live, updates)[p]) && Advances(live[p], Installed(live, updates)[p])
    {
      if Named(updates, p) {
        var i :| 0 <= i < |updates| && updates[i].pool == p;
        assert Installable(live, updates[i]);
      }
    }
  }

  /**
   * Over any run of batches, accepted or not, no pool appears or disappears, class keys and
   * token-budget presence never change, floors stay inside the envelope, revisions never
   * drop, and a revision that has not moved still carries the same limits.
   */
  lemma {:induction false} RunKeepsShape(live: map<PoolId, AdmissionLimits>, batches: seq<seq<PoolLimitsUpdate>>)
    requires AllWellFormed(live)
    ensures ApplyAll(live, batches).Keys == live.Keys
    ensures AllWellFormed(ApplyAll(live, batches))
    ensures forall p <- live :: Advances(live[p], ApplyAll(live, batches)[p])
  {
    if batches != [] {
      var n := |batches| - 1;
      RunKeepsShape(live, batches[..n]);
      var before := ApplyAll(live, batches[..n]);
      if Accepted(before, batches[n]) {
        InstalledAdvances(before, batches[n]);
      }
    }
  }

  // ---------- One pool ----------

  function Last<T>(s: seq<T>, n: nat): (r: seq<T>)
    ensures |r| == Min(|s|, n)
  {
    if |s| <= n then s else s[|s| - n..]
  }

  lemma LastAt<T>(s: seq<T>, n: nat, i: nat)
    requires i < |Last(s, n)|
    ensures Last(s, n)[i] == s[|s| - |Last(s, n)| + i]
  {
  }

  /** Appending one entry and, if there is then one too many, dropping the oldest. */
  lemma LastPush<T>(s: seq<T>, n: nat, x: T)
    ensures var pushed := Last(s, n) + [x]; Last(s + [x], n) == if |pushed| > n then pushed[1..] else pushed
  {
  }

  /** The entry of a ledger that belongs to a revision. */
  function GrantFor(ledger: seq<Provenance>, revision: int): (r: Option<Provenance>)
    ensures r.Some? ==> r.value in ledger && r.value.revision == revision
    ensures r.None? ==> forall p <- ledger :: p.revision != revision
  {
    if ledger == [] then None
    else
      var n := |ledger| - 1;
      assert ledger == ledger[..n] + [ledger[n]];
      var earlier := GrantFor(ledger[..n], revision);
      if earlier.Some? then earlier
      else if ledger[n].revision == revision then Some(ledger[n])
      else None
  }

  class Pool {
    const name: PoolId
    /** The bulkhead's own snapshot, as `bulkhead.limits()` returns it. */
    var limits: AdmissionLimits
    /** The revision-keyed map, in the insertion order a JavaScript `Map` keeps. */
    var provenanceByRevision: seq<Provenance>
    var events: seq<ProvenanceEvent>
    var dropped: nat
    var captureFailures: nat
    var nextSequence: nat
    /** Every provenance ever retained, and every admission ever recorded. */
    ghost var retained: seq<Provenance>
    ghost var recorded: seq<ProvenanceEvent>

    ghost predicate Valid()
      reads this
    {
      LedgerOk() && RingOk()
    }

    ghost predicate LedgerOk()
      reads this`limits, this`provenanceByRevision, this`retained
    {
      && (forall i, j | 0 <= i < j < |retained| :: retained[i].revision < retained[j].revision)
      && (forall i | 0 <= i < |retained| :: retained[i].revision <= limits.revision)
      && provenanceByRevision == Last(retained, MAX_RETAINED_PROVENANCE_REVISIONS)
    }

    ghost predicate RingOk()
      reads this`events, this`recorded, this`dropped, this`nextSequence
    {
      && events == Last(recorded, MAX_RETAINED_ADMISSION_PROVENANCE_EVENTS)
      && dropped == |recorded| - |events|
      && nextSequence == |recorded| + 1
      && (forall i | 0 <= i < |recorded| :: RecordOk(recorded[i], i + 1))
    }

    /** The evidence on one record is about the revision that record admitted under. */
    static predicate RecordOk(e: ProvenanceEvent, sequence: nat) {
      && e.sequence == sequence
      && e.limits.revision == e.event.limitRevision
      && (e.grant.Some? ==> e.grant.value.revision == e.event.limitRevision)
    }

    constructor (name: PoolId, initial: AdmissionLimits)
      ensures Valid() && this.name == name && limits == initial
      ensures retained == [] && recorded == []
    {
      this.name := name;
      limits := initial;
      provenanceByRevision, events := [], [];
      dropped, captureFailures, nextSequence := 0, 0, 1;
      retained, recorded := [], [];
    }

    /** The library call, as assumed: it succeeds exactly when the revision rises. */
    method BulkheadApplyLimits(next: AdmissionLimits) returns (applied: bool)
      modifies this`limits
      ensures applied == (old(limits).revision < next.revision)
      ensures limits == if applied then next else old(limits)
    {
      applied := limits.revision < next.revision;
      if applied {
        limits := next;
      }
    }

    /** `retainProvenance`: set in the map, then evict the oldest keys beyond the cap. */
    method RetainProvenance(p: Provenance)
      requires forall i | 0 <= i < |retained| :: retained[i].revision < p.revision
      requires provenanceByRevision == Last(retained, MAX_RETAINED_PROVENANCE_REVISIONS)
      modifies this`provenanceByRevision, this`retained
      ensures retained == old(retained) + [p]
      ensures provenanceByRevision == Last(retained, MAX_RETAINED_PROVENANCE_REVISIONS)
    {
      // The key is new, so `Map.set` appends it.
      LastPush(retained, MAX_RETAINED_PROVENANCE_REVISIONS, p);
      retained := retained + [p];
      provenanceByRevision := Evict(provenanceByRevision + [p]);
    }

    /** The loop that drops the oldest keys. */
    static method Evict(entries: seq<Provenance>) returns (kept: seq<Provenance>)
      ensures kept == Last(entries, MAX_RETAINED_PROVENANCE_REVISIONS)
    {
      kept := entries;
      while |kept| > MAX_RETAINED_PROVENANCE_REVISIONS
        invariant Min(|entries|, MAX_RETAINED_PROVENANCE_REVISIONS) <= |kept| <= |entries|
        invariant kept == entries[|entries| - |kept|..]
      {
        kept := kept[1..];
      }
    }

    /** `controller.applyLimits`; `threw` when the provenance is refused. */
    method ApplyLimits(next: AdmissionLimits, provenance: Option<Provenance>) returns (threw: bool, applied: bool)
      requires Valid()
      modifies this`limits, this`provenanceByRevision, this`retained
      ensures Valid()
      ensures threw <==> provenance.Some? && NormalizeProvenance(next.revision, provenance.value).None?
      ensures applied <==> !threw && old(limits).revision < next.revision
      ensures limits == if applied then next else old(limits)
      ensures retained == if applied && provenance.Some?
                          then old(retained) + [NormalizeProvenance(next.revision, provenance.value).value]
                          else old(retained)
    {
      var normalized: Option<Provenance> := None;
      if provenance.Some? {
        normalized := NormalizeProvenance(next.revision, provenance.value);
        if normalized.None? {
          return true, false;
        }
      }
      threw := false;
      applied := BulkheadApplyLimits(next);
      if applied && normalized.Some? {
        RetainProvenance(normalized.value);
      }
    }

    /**
     * The `admit` handler. When the live revision is not the admission's, only the failure
     * counter moves; otherwise one record joins the ring, with the grant retained for
     * exactly that revision, if there is one.
     */
    method OnAdmit(event: AdmitEvent, now: int)
      requires Valid()
      modifies this`captureFailures, this`nextSequence, this`events, this`recorded, this`dropped
      ensures Valid()
      ensures captureFailures == old(captureFailures) + if limits.revision == event.limitRevision then 0 else 1
      ensures recorded == old(recorded) +
                if limits.revision != event.limitRevision then []
                else [ProvenanceEvent(old(nextSequence), now, name, event, limits,
                                      GrantFor(provenanceByRevision, event.limitRevision))]
    {
      hide LedgerOk, GrantFor, Last;
      if limits.revision != event.limitRevision {
        captureFailures := captureFailures + 1;
        return;
      }
      var grant := Provenance(event.limitRevision);
      var record := ProvenanceEvent(nextSequence, now, name, event, limits, grant);
      LastPush(recorded, MAX_RETAINED_ADMISSION_PROVENANCE_EVENTS, record);
      nextSequence := nextSequence + 1;
      events := events + [record];
      recorded := recorded + [record];
      if |events| > MAX_RETAINED_ADMISSION_PROVENANCE_EVENTS {
        events := events[1..];
        dropped := dropped + 1;
      }
    }

    /** `controller.provenance(revision)`. */
    method Provenance(revision: int) returns (r: Option<Provenance>)
      ensures r == GrantFor(provenanceByRevision, revision)
    {
      r := None;
      for i := 0 to |provenanceByRevision|
        invariant r == GrantFor(provenanceByRevision[..i], revision)
      {
        assert provenanceByRevision[..i + 1][..i] == provenanceByRevision[..i];
        if r.None? && provenanceByRevision[i].revision == revision {
          r := Some(provenanceByRevision[i]);
        }
      }
      assert provenanceByRevision[..|provenanceByRevision|] == provenanceByRevision;
    }

    /**
     * What an operator may rely on when reading the ring: sequence numbers are exactly
     * dropped + 1 to nextSequence - 1, at most 512 of them, and no grant is misattributed.
     */
    lemma RingIsExact()
      requires Valid()
      ensures |events| <= MAX_RETAINED_ADMISSION_PROVENANCE_EVENTS
      ensures nextSequence == dropped + |events| + 1
      ensures dropped > 0 ==> |events| == MAX_RETAINED_ADMISSION_PROVENANCE_EVENTS
      ensures forall i | 0 <= i < |events| :: RecordOk(events[i], dropped + 1 + i)
    {
      hide LedgerOk, RecordOk, Last;
      forall i | 0 <= i < |events|
        ensures RecordOk(events[i], dropped + 1 + i)
      {
        LastAt(recorded, MAX_RETAINED_ADMISSION_PROVENANCE_EVENTS, i);
      }
    }

    /** The map holds the 64 newest provenance-bearing revisions and no other. */
    lemma LedgerIsExact(p: Provenance)
      requires Valid() && p in retained
      ensures |provenanceByRevision| <= MAX_RETAINED_PROVENANCE_REVISIONS
      ensures p in provenanceByRevision <==>
                |set q <- retained | q.revision > p.revision| < MAX_RETAINED_PROVENANCE_REVISIONS
    {
      var i :| 0 <= i < |retained| && retained[i] == p;
      NewerCount(retained, i);
      var k := |retained| - |provenanceByRevision|;
      if i >= k {
        assert provenanceByRevision[i - k] == p;
      } else {
        forall j | 0 <= j < |provenanceByRevision|
          ensures provenanceByRevision[j] != p
        {
          assert provenanceByRevision[j] == retained[k + j];
        }
      }
    }
  }

  /** In a sequence of rising revisions, the entries newer than the i-th are those after it. */
  lemma {:induction false} NewerCount(s: seq<Provenance>, i: nat)
    requires i < |s|
    requires forall a, b | 0 <= a < b < |s| :: s[a].revision < s[b].revision
    ensures |set q <- s | q.revision > s[i].revision| == |s| - 1 - i
    decreases |s|
  {
    var n := |s| - 1;
    var newer := set q <- s | q.revision > s[i].revision;
    if i == n {
      assert newer == {};
    } else {
      NewerCount(s[..n], i);
      var before := set q <- s[..n] | q.revision > s[..n][i].revision;
      assert s[n] !in before;
      forall q
        ensures q in newer <==> q in before || q == s[n]
      {
        assert s == s[..n] + [s[n]];
      }
      assert newer == before + {s[n]};
    }
  }

  // ---------- All pools ----------

  class Pools {
    const byName: map<PoolId, Pool>

    ghost predicate Valid()
      reads this, byName.Values
    {
      forall n <- byName :: byName[n].name == n && byName[n].Valid()
    }

    ghost function Live(): (live: map<PoolId, AdmissionLimits>)
      reads this, byName.Values
      ensures live.Keys == byName.Keys
    {
      map n <- byName :: byName[n].limits
    }

    /** The provenance ever retained, pool by pool. */
    ghost function Retained(): (retained: map<PoolId, seq<Provenance>>)
      reads this, byName.Values
      ensures retained.Keys == byName.Keys
    {
      map n <- byName :: byName[n].retained
    }

    constructor (byName: map<PoolId, Pool>)
      requires forall n <- byName :: byName[n].name == n && byName[n].Valid()
      ensures Valid() && this.byName == byName
    {
      this.byName := byName;
    }

    method Limits() returns (r: map<PoolId, AdmissionLimits>)
      requires Valid()
      ensures r == Live()
    {
      r := map n <- byName :: byName[n].limits;
    }

    /**
     * `applyLimits`. Preflight runs over every update before any pool is touched, and the first
     * update it refuses decides the answer. After that the application phase cannot fail: the
     * throw for a pool that "became stale" in between would surface here as `Threw` with
     * some pools already changed, which the second and third clauses exclude.
     */
    method ApplyLimits(updates: seq<PoolLimitsUpdate>) returns (r: ApplyResult)
      requires Valid()
      modifies byName.Values
      ensures Valid()
      ensures r.Applied? <==> Accepted(old(Live()), updates)
      ensures !r.Applied? ==> Preflight(old(Live()), updates) == Some(r)
      ensures Live() == if r.Applied? then Installed(old(Live()), updates) else old(Live())
      ensures r.Applied? ==> r.pools == ChangesOf(old(Live()), updates)
      ensures Retained() == if r.Applied? then RetainedAfter(old(Retained()), updates) else old(Retained())
    {
      hide Pool.Valid, Accepted;
      PreflightAccepts(Live(), updates);
      var refusal, resolved := PreflightAll(updates);
      if refusal.Some? {
        return refusal.value;
      }
      r := Commit(resolved, updates);
    }

    /** The first loop of `applyLimits`. */
    method PreflightAll(updates: seq<PoolLimitsUpdate>)
      returns (refusal: Option<ApplyResult>, resolved: seq<PoolLimitsUpdate>)
      requires Valid()
      ensures refusal == Preflight(Live(), updates)
      ensures refusal.Some? ==> !refusal.value.Applied?
      ensures refusal.None? ==> resolved == NormalizedUpdates(updates)
    {
      hide Pool.Valid, Acceptable, NormalizeProvenance;
      var seen: set<PoolId> := {};
      resolved := [];
      ghost var live := Live();
      for i := 0 to |updates|
        invariant forall p :: p in seen <==> Named(updates[..i], p)
        invariant Preflight(live, updates[..i]).None?
        invariant resolved == NormalizedUpdates(updates[..i])
      {
        var update := updates[i];
        assert updates[..i + 1][..i] == updates[..i];
        if Preflight(live, updates[..i + 1]).Some? {
          PreflightStops(live, updates, i + 1);
        }
        if update.pool in seen {
          return Some(DuplicatePool(update.pool)), [];
        }
        NamedSplit(updates, i);
        seen := seen + {update.pool};
        if update.pool !in byName {
          return Some(UnknownPool(update.pool)), [];
        }
        var current := byName[update.pool].limits;
        var next := ValidateLimitSnapshot(current, update.limits);
        if next.None? {
          return Some(Threw), [];
        }
        var provenance: Option<Provenance> := None;
        if update.provenance.Some? {
          provenance := NormalizeProvenance(next.value.revision, update.provenance.value);
          if provenance.None? {
            return Some(Threw), [];
          }
        }
        if next.value.revision <= current.revision {
          return Some(StaleRevision(update.pool, current)), [];
        }
        resolved := resolved + [PoolLimitsUpdate(update.pool, next.value, provenance)];
      }
      assert updates[..|updates|] == updates;
      refusal := None;
    }

    /** One turn of the second loop. */
    method InstallOne(item: PoolLimitsUpdate) returns (installed: bool, change: Change)
      requires Valid() && item.pool in byName
      requires item.provenance.Some? ==>
                 NormalizeProvenance(item.limits.revision, item.provenance.value) == item.provenance
      modifies byName[item.pool]
      ensures Valid()
      ensures installed <==> old(Live())[item.pool].revision < item.limits.revision
      ensures change == Change(old(Live())[item.pool], Live()[item.pool])
      ensures Live() == if installed then old(Live())[item.pool := item.limits] else old(Live())
      ensures Retained() == if installed && item.provenance.Some?
                            then old(Retained())[item.pool := old(Retained())[item.pool] + [item.provenance.value]]
                            else old(Retained())
    {
      hide Pool.Valid, NormalizeProvenance;
      var pool := byName[item.pool];
      var previous := pool.limits;
      var threw, applied := pool.ApplyLimits(item.limits, item.provenance);
      installed, change := applied, Change(previous, pool.limits);
    }

    /** The second loop of `applyLimits`. */
    method Commit(resolved: seq<PoolLimitsUpdate>, ghost updates: seq<PoolLimitsUpdate>) returns (r: ApplyResult)
      requires Valid() && Accepted(Live(), updates) && resolved == NormalizedUpdates(updates)
      modifies byName.Values
      ensures Valid()
      ensures r == Applied(ChangesOf(old(Live()), updates))
      ensures Live() == Installed(old(Live()), updates)
      ensures Retained() == RetainedAfter(old(Retained()), updates)
    {
      hide Valid, Live, Retained, Accepted, NormalizeProvenance, NormalizedUpdates;
      var changes: map<PoolId, Change> := map[];
      ghost var live := Live();
      for k := 0 to |resolved|
        invariant Valid()
        invariant Live() == Installed(live, updates[..k])
        invariant changes == ChangesOf(live, updates[..k])
        invariant Retained() == RetainedAfter(old(Retained()), updates[..k])
      {
        var item := resolved[k];
        ResolvedAt(live, updates, k);
        assert updates[..k + 1][..k] == updates[..k];
        var installed, change := InstallOne(item);
        if !installed {
          return Threw;
        }
        changes := changes[item.pool := change];
      }
      assert updates[..|updates|] == updates;
      return Applied(changes);
    }
  }

  /** The updates as preflight resolves them: limits as given, provenance normalised. */
  function NormalizedUpdates(updates: seq<PoolLimitsUpdate>): (r: seq<PoolLimitsUpdate>)
    ensures |r| == |updates|
  {
    if updates == [] then []
    else
      var u := updates[|updates| - 1];
      NormalizedUpdates(updates[..|updates| - 1])
      + [PoolLimitsUpdate(u.pool, u.limits, NormalizedProvenance(u))]
  }

  function NormalizedProvenance(u: PoolLimitsUpdate): Option<Provenance> {
    if u.provenance.None? then None else NormalizeProvenance(u.limits.revision, u.provenance.value)
  }

  lemma {:induction false} NormalizedAt(updates: seq<PoolLimitsUpdate>, k: nat)
    requires k < |updates|
    ensures NormalizedUpdates(updates)[k] == updates[k].(provenance := NormalizedProvenance(updates[k]))
  {
    if k < |updates| - 1 {
      NormalizedAt(updates[..|updates| - 1], k);
    }
  }

  /** Halfway through an accepted batch, the next pool still has the limits preflight saw. */
  lemma ResolvedAt(live: map<PoolId, AdmissionLimits>, updates: seq<PoolLimitsUpdate>, k: nat)
    requires Accepted(live, updates) && k < |updates|
    ensures var item := NormalizedUpdates(updates)[k];
            && item == updates[k].(provenance := NormalizedProvenance(updates[k]))
            && item.pool in live
            && (item.provenance.Some? ==>
                  NormalizeProvenance(item.limits.revision, item.provenance.value) == item.provenance)
            && item.pool in Installed(live, updates[..k])
            && Installed(live, updates[..k])[item.pool] == live[item.pool]
            && live[item.pool].revision < item.limits.revision
  {
    NormalizedAt(updates, k);
    assert Installable(live, updates[k]);
    InstalledExactly(live, updates[..k]);
    assert !Named(updates[..k], updates[k].pool);
    if updates[k].provenance.Some? {
      NormalizeProvenanceIdempotent(updates[k].limits.revision, updates[k].provenance.value);
    }
  }

  /** The report of an applied batch: what each named pool had, and what it has now. */
  function ChangesOf(live: map<PoolId, AdmissionLimits>, updates: seq<PoolLimitsUpdate>): map<PoolId, Change> {
    if updates == [] then map[]
    else
      var u := updates[|updates| - 1];
      var earlier := ChangesOf(live, updates[..|updates| - 1]);
      if u.pool in live then earlier[u.pool := Change(live[u.pool], u.limits)] else earlier
  }

  /** The provenance a batch leaves behind: one more entry for each pool it named with one. */
  function RetainedAfter(retained: map<PoolId, seq<Provenance>>,
                         updates: seq<PoolLimitsUpdate>): map<PoolId, seq<Provenance>>
  {
    if updates == [] then retained
    else
      var u := updates[|updates| - 1];
      var earlier := RetainedAfter(retained, updates[..|updates| - 1]);
      var p := NormalizedProvenance(u);
      if u.pool in earlier && p.Some? then earlier[u.pool := earlier[u.pool] + [p.value]] else earlier
  }

  lemma NamedSplit(updates: seq<PoolLimitsUpdate>, i: nat)
    requires i < |updates|
    ensures forall p :: Named(updates[..i + 1], p) <==> p == updates[i].pool || Named(updates[..i], p)
  {
    forall p
      ensures Named(updates[..i + 1], p) <==> p == updates[i].pool || Named(updates[..i], p)
    {
      if p == updates[i].pool {
        assert updates[..i + 1][i].pool == p;
      }
      if Named(updates[..i], p) {
        var j :| 0 <= j < i && updates[j].pool == p;
        assert updates[..i + 1][j].pool == p;
      }
    }
  }
}

/**
 * The demand reporter of `src/demand.ts`: deltas since the last accepted heartbeat, and
 * checkpoints that advance only when a heartbeat has been accepted.
 */
module Demand {
  import opened Wrappers
  import opened Limits
  import opened Stats

  datatype Counters = Counters(admitted: nat, rejected: nat, budgetRejected: nat, concurrencyRejected: nat)

  const ZERO_CHECKPOINT := Counters(0, 0, 0, 0)

  /** `recent` holds the four delta fields of the wire format. */
  datatype AdmissionClassDemandSnapshot = AdmissionClassDemandSnapshot(
    admissionClass: ClassId,
    recent: Counters,
    inFlight: int,
    protectedConcurrent: int,
    protectedConcurrentInUse: int,
    borrowedConcurrent: int,
    maxConcurrent: Option<int>,
    inFlightTokens: Option<int>,
    protectedInFlightTokens: Option<int>,
    protectedTokensInUse: Option<int>,
    borrowedInFlightTokens: Option<int>,
    maxInFlightTokens: Option<int>,
    lastRequestAt: Option<int>)

  datatype PoolDemandSnapshot = PoolDemandSnapshot(
    pool: PoolId,
    observedAt: int,
    recent: Counters,
    inFlight: int,
    pending: int,
    inFlightTokens: Option<int>,
    availableTokens: Option<int>,
    lastRequestAt: Option<int>,
    admissionClasses: Option<seq<AdmissionClassDemandSnapshot>>)

  /** Everything the reporter remembers between accepted heartbeats. */
  datatype Checkpoints = Checkpoints(
    pools: map<PoolId, Counters>,
    classes: map<PoolId, map<ClassId, Counters>>,
    lastRequestAt: map<PoolId, int>,
    classLastRequestAt: map<PoolId, map<ClassId, int>>)

  // ---------- One counter ----------

  function Checkpoint(s: LlmStats): Counters {
    Counters(
      s.admitted, s.rejected,
      if "budget_limit" in s.rejectedByReason then s.rejectedByReason["budget_limit"] else 0,
      if "concurrency_limit" in s.rejectedByReason then s.rejectedByReason["concurrency_limit"] else 0)
  }

  /** A counter below its checkpoint has been restarted, so its whole value is new. */
  function Delta(current: nat, previous: nat): nat {
    if current >= previous then current - previous else current
  }

  function Deltas(current: Counters, previous: Counters): Counters {
    Counters(
      Delta(current.admitted, previous.admitted),
      Delta(current.rejected, previous.rejected),
      Delta(current.budgetRejected, previous.budgetRejected),
      Delta(current.concurrencyRejected, previous.concurrencyRejected))
  }

  predicate Active(recent: Counters) {
    recent.admitted > 0 || recent.rejected > 0
  }

  function Lookup<K, V>(m: map<K, V>, k: K, default: V): V {
    if k in m then m[k] else default
  }

  function Find<K, V>(m: map<K, V>, k: K): Option<V> {
    if k in m then Some(m[k]) else None
  }

  // ---------- One capture, declaratively ----------

  function ClassCounters(classes: map<ClassId, ClassStats>): map<ClassId, Counters> {
    map c <- classes :: Checkpoint(classes[c].llm)
  }

  function ClassRecent(previous: map<ClassId, Counters>, classes: map<ClassId, ClassStats>, c: ClassId): Counters
    requires c in classes
  {
    Deltas(Checkpoint(classes[c].llm), Lookup(previous, c, ZERO_CHECKPOINT))
  }

  /** The request times of one pool's classes: every active class is stamped, the rest keep theirs. */
  function ClassStamps(stamps: map<ClassId, int>, previous: map<ClassId, Counters>, classes: map<ClassId, ClassStats>,
                       now: int): map<ClassId, int>
  {
    map c | c in stamps.Keys + classes.Keys && (c in stamps || Active(ClassRecent(previous, classes, c))) ::
      if c in classes && Active(ClassRecent(previous, classes, c)) then now else stamps[c]
  }

  lemma NothingCaptured(stamps: map<ClassId, int>, previous: map<ClassId, Counters>, now: int)
    ensures ClassStamps(stamps, previous, map[], now) == stamps
    ensures ClassCounters(map[]) == map[]
  {
  }

  /** Stamping one more class. */
  lemma StampOne(stamps: map<ClassId, int>, previous: map<ClassId, Counters>, done: map<ClassId, ClassStats>, now: int,
                 c: ClassId, s: ClassStats)
    requires c !in done
    ensures var earlier := ClassStamps(stamps, previous, done, now);
            ClassStamps(stamps, previous, done[c := s], now) ==
              if Active(Deltas(Checkpoint(s.llm), Lookup(previous, c, ZERO_CHECKPOINT))) then earlier[c := now]
              else earlier
    ensures Find(ClassStamps(stamps, previous, done, now), c) == Find(stamps, c)
  {
    hide Active, Deltas, Checkpoint;
  }

  function AddPool(base: Checkpoints, sofar: Checkpoints, p: PoolId, s: PoolStats, now: int): Checkpoints {
    var recent := Deltas(Checkpoint(s.llm), Lookup(base.pools, p, ZERO_CHECKPOINT));
    Checkpoints(
      sofar.pools[p := Checkpoint(s.llm)],
      if s.admissionClasses.None? then sofar.classes - {p}
      else sofar.classes[p := ClassCounters(s.admissionClasses.value.classes)],
      if Active(recent) then sofar.lastRequestAt[p := now] else sofar.lastRequestAt,
      if s.admissionClasses.None? then sofar.classLastRequestAt - {p}
      else sofar.classLastRequestAt[p := ClassStamps(
             Lookup(sofar.classLastRequestAt, p, map[]), Lookup(base.classes, p, map[]),
             s.admissionClasses.value.classes, now)])
  }

  /** The checkpoints a heartbeat would commit. */
  function Captured(base: Checkpoints, pools: seq<PoolId>, stats: map<PoolId, PoolStats>, now: int): Checkpoints
    requires forall p <- pools :: p in stats
  {
    if pools == [] then base.(pools := map[])
    else
      var n := |pools| - 1;
      assert forall p <- pools[..n] :: p in pools;
      AddPool(base, Captured(base, pools[..n], stats, now), pools[n], stats[pools[n]], now)
  }

  function SnapshotOfClass(recent: Counters, lastRequestAt: Option<int>, hasBudget: bool, c: ClassId,
                           s: ClassStats): (r: AdmissionClassDemandSnapshot)
    ensures r.admissionClass == c && r.recent == recent
  {
    AdmissionClassDemandSnapshot(
      c, recent, s.inFlight,
      s.limits.protectedConcurrent.GetOr(0), s.protectedConcurrentInUse, s.borrowedConcurrent, s.limits.maxConcurrent,
      if hasBudget then Some(s.inFlightTokens) else None,
      if hasBudget then Some(s.limits.protectedInFlightTokens.GetOr(0)) else None,
      if hasBudget then Some(s.protectedTokensInUse) else None,
      if hasBudget then Some(s.borrowedInFlightTokens) else None,
      if hasBudget then s.limits.maxInFlightTokens else None,
      lastRequestAt)
  }

  function ClassSnapshot(previous: map<ClassId, Counters>, stamps: map<ClassId, int>, now: int, hasBudget: bool,
                         classes: map<ClassId, ClassStats>, c: ClassId): (r: AdmissionClassDemandSnapshot)
    requires c in classes
    ensures r.admissionClass == c && r.recent == ClassRecent(previous, classes, c)
  {
    var recent := ClassRecent(previous, classes, c);
    SnapshotOfClass(recent, if Active(recent) then Some(now) else Find(stamps, c), hasBudget, c, classes[c])
  }

  function ClassIds(snapshots: seq<AdmissionClassDemandSnapshot>): (ids: seq<ClassId>) {
    seq(|snapshots|, i requires 0 <= i < |snapshots| => snapshots[i].admissionClass)
  }

  /** The sequence lists the set, each element once. */
  ghost predicate Enumerates(s: seq<ClassId>, elements: set<ClassId>) {
    && |s| == |elements|
    && (forall i, j | 0 <= i < j < |s| :: s[i] != s[j])
    && forall x :: x in s <==> x in elements
  }

  /** One snapshot for each class. */
  ghost predicate ClassSnapshotsOk(snapshots: seq<AdmissionClassDemandSnapshot>, previous: map<ClassId, Counters>,
                                   stamps: map<ClassId, int>, now: int, hasBudget: bool,
                                   classes: map<ClassId, ClassStats>)
  {
    && Enumerates(ClassIds(snapshots), classes.Keys)
    && forall i | 0 <= i < |snapshots| ::
         && snapshots[i].admissionClass in classes
         && snapshots[i] == ClassSnapshot(previous, stamps, now, hasBudget, classes, snapshots[i].admissionClass)
  }

  lemma ListedOnce(ids: seq<ClassId>, snapshots: seq<AdmissionClassDemandSnapshot>, previous: map<ClassId, Counters>,
                   stamps: map<ClassId, int>, now: int, hasBudget: bool, classes: map<ClassId, ClassStats>)
    requires Enumerates(ids, classes.Keys) && |snapshots| == |ids|
    requires forall j | 0 <= j < |ids| ::
               ids[j] in classes && snapshots[j] == ClassSnapshot(previous, stamps, now, hasBudget, classes, ids[j])
    ensures ClassSnapshotsOk(snapshots, previous, stamps, now, hasBudget, classes)
  {
    hide ClassSnapshot;
    assert ClassIds(snapshots) == ids;
  }

  ghost predicate SnapshotOk(snapshot: PoolDemandSnapshot, base: Checkpoints, sofar: Checkpoints, p: PoolId,
                             s: PoolStats, now: int)
  {
    && snapshot.pool == p
    && snapshot.observedAt == now
    && snapshot.recent == Deltas(Checkpoint(s.llm), Lookup(base.pools, p, ZERO_CHECKPOINT))
    && snapshot.inFlight == s.inFlight
    && snapshot.pending == s.pending
    && snapshot.inFlightTokens == (if s.tokenBudget.None? then None else Some(s.tokenBudget.value.inFlightTokens))
    && snapshot.availableTokens == (if s.tokenBudget.None? then None else Some(s.tokenBudget.value.available))
    && snapshot.lastRequestAt == (if Active(snapshot.recent) then Some(now) else Find(sofar.lastRequestAt, p))
    && snapshot.admissionClasses.Some? == s.admissionClasses.Some?
    && (s.admissionClasses.Some? ==>
          ClassSnapshotsOk(snapshot.admissionClasses.value, Lookup(base.classes, p, map[]),
                           Lookup(sofar.classLastRequestAt, p, map[]), now, s.tokenBudget.Some?,
                           s.admissionClasses.value.classes))
  }

  /** One snapshot for each managed pool, in order. */
  ghost predicate SnapshotsOk(snapshots: seq<PoolDemandSnapshot>, base: Checkpoints, pools: seq<PoolId>,
                              stats: map<PoolId, PoolStats>, now: int)
  {
    && |snapshots| == |pools|
    && forall i | 0 <= i < |pools| ::
         && pools[i] in stats
         && (forall p <- pools[..i] :: p in stats)
         && SnapshotOk(snapshots[i], base, Captured(base, pools[..i], stats, now), pools[i], stats[pools[i]], now)
  }

  // ---------- When something was last asked ----------

  /** Something was admitted or rejected since the last accepted capture. */
  predicate Asked(recent: Counters) {
    recent.admitted != 0 || recent.rejected != 0
  }

  /**
   * A pool's, and a class's, last request is dated by the capture that saw one; without one the earlier
   * date stands. The checkpoints keep the date that was published.
   */
  lemma RequestTimes(snapshot: PoolDemandSnapshot, base: Checkpoints, sofar: Checkpoints, p: PoolId, s: PoolStats,
                     now: int)
    requires SnapshotOk(snapshot, base, sofar, p, s, now)
    ensures var next := AddPool(base, sofar, p, s, now);
            && snapshot.lastRequestAt == (if Asked(snapshot.recent) then Some(now) else Find(sofar.lastRequestAt, p))
            && snapshot.lastRequestAt == Find(next.lastRequestAt, p)
            && (s.admissionClasses.Some? ==>
                  forall c <- snapshot.admissionClasses.value ::
                    && c.lastRequestAt ==
                       (if Asked(c.recent) then Some(now)
                        else Find(Lookup(sofar.classLastRequestAt, p, map[]), c.admissionClass))
                    && c.lastRequestAt == Find(Lookup(next.classLastRequestAt, p, map[]), c.admissionClass))
  {
    hide Deltas, Checkpoint, Enumerates;
    if s.admissionClasses.Some? {
      forall c <- snapshot.admissionClasses.value
        ensures c.lastRequestAt ==
                  (if Asked(c.recent) then Some(now)
                   else Find(Lookup(sofar.classLastRequestAt, p, map[]), c.admissionClass))
        ensures c.lastRequestAt ==
                  Find(Lookup(AddPool(base, sofar, p, s, now).classLastRequestAt, p, map[]), c.admissionClass)
      {
        var i :| 0 <= i < |snapshot.admissionClasses.value| && snapshot.admissionClasses.value[i] == c;
        ClassRequestTime(Lookup(base.classes, p, map[]), Lookup(sofar.classLastRequestAt, p, map[]), now,
                         s.tokenBudget.Some?, s.admissionClasses.value.classes, c.admissionClass);
      }
    }
  }

  lemma ClassRequestTime(previous: map<ClassId, Counters>, stamps: map<ClassId, int>, now: int, hasBudget: bool,
                         classes: map<ClassId, ClassStats>, id: ClassId)
    requires id in classes
    ensures var c := ClassSnapshot(previous, stamps, now, hasBudget, classes, id);
            && c.lastRequestAt == (if Asked(c.recent) then Some(now) else Find(stamps, id))
            && c.lastRequestAt == Find(ClassStamps(stamps, previous, classes, now), id)
  {
    hide Deltas, Checkpoint;
  }

  // ---------- The reporter ----------

  lemma NoSnapshots(base: Checkpoints, stats: map<PoolId, PoolStats>, now: int)
    ensures Captured(base, [], stats, now) == base.(pools := map[])
    ensures SnapshotsOk([], base, [], stats, now)
  {
  }

  /** One more pool: what is captured so far grows by that pool, and its snapshot is right. */
  lemma SnapshotsGrow(snapshots: seq<PoolDemandSnapshot>, base: Checkpoints, pools: seq<PoolId>, i: nat,
                      stats: map<PoolId, PoolStats>, now: int, snapshot: PoolDemandSnapshot)
    requires i < |pools| && pools[i] in stats
    requires forall p <- pools[..i] :: p in stats
    requires SnapshotsOk(snapshots, base, pools[..i], stats, now)
    requires SnapshotOk(snapshot, base, Captured(base, pools[..i], stats, now), pools[i], stats[pools[i]], now)
    ensures forall p <- pools[..i + 1] :: p in stats
    ensures Captured(base, pools[..i + 1], stats, now) ==
              AddPool(base, Captured(base, pools[..i], stats, now), pools[i], stats[pools[i]], now)
    ensures SnapshotsOk(snapshots + [snapshot], base, pools[..i + 1], stats, now)
  {
    hide AddPool, SnapshotOk;
    assert pools[..i + 1] == pools[..i] + [pools[i]];
    assert pools[..i + 1][..i] == pools[..i];
    forall j | 0 <= j < i
      ensures pools[..i + 1][..j] == pools[..i][..j]
    {
    }
  }

  /** The classes visited so far. */
  ghost function Taken(classes: map<ClassId, ClassStats>, ids: seq<ClassId>): map<ClassId, ClassStats> {
    map c | c in classes && c in ids :: classes[c]
  }

  lemma TakenGrows(classes: map<ClassId, ClassStats>, ids: seq<ClassId>, i: nat)
    requires Enumerates(ids, classes.Keys) && i < |ids|
    ensures ids[i] in classes && ids[i] !in Taken(classes, ids[..i])
    ensures Taken(classes, ids[..i + 1]) == Taken(classes, ids[..i])[ids[i] := classes[ids[i]]]
  {
    assert ids[..i + 1] == ids[..i] + [ids[i]];
  }

  lemma TakenAll(classes: map<ClassId, ClassStats>, ids: seq<ClassId>)
    requires Enumerates(ids, classes.Keys)
    ensures Taken(classes, ids[..0]) == map[] && Taken(classes, ids[..|ids|]) == classes
  {
    assert ids[..|ids|] == ids;
  }

  class TyrDemandReporter {
    const pools: seq<PoolId>
    var accepted: map<PoolId, Counters>
    var acceptedClasses: map<PoolId, map<ClassId, Counters>>
    var lastRequestAt: map<PoolId, int>
    var classLastRequestAt: map<PoolId, map<ClassId, int>>
    var pending: Option<Checkpoints>

    ghost function Accepted(): Checkpoints
      reads this
    {
      Checkpoints(accepted, acceptedClasses, lastRequestAt, classLastRequestAt)
    }

    constructor (pools: seq<PoolId>)
      ensures this.pools == pools && pending.None?
      ensures Accepted() == Checkpoints(map[], map[], map[], map[])
    {
      this.pools := pools;
      accepted, acceptedClasses, lastRequestAt, classLastRequestAt := map[], map[], map[], map[];
      pending := None;
    }

    /**
     * `capture`: `None` where the source throws because a managed pool has no statistics.
     * What has been accepted is left alone either way.
     */
    method Capture(stats: map<PoolId, PoolStats>, now: int) returns (r: Option<seq<PoolDemandSnapshot>>)
      modifies this`pending
      ensures r.Some? <==> forall p <- pools :: p in stats
      ensures r.None? ==> pending == old(pending)
      ensures r.Some? ==> pending == Some(Captured(Accepted(), pools, stats, now))
      ensures r.Some? ==> SnapshotsOk(r.value, Accepted(), pools, stats, now)
    {
      hide AddPool, SnapshotOk, SnapshotsOk, Captured;
      var next := Checkpoints(map[], acceptedClasses, lastRequestAt, classLastRequestAt);
      var snapshots: seq<PoolDemandSnapshot> := [];
      NoSnapshots(Accepted(), stats, now);
      for i := 0 to |pools|
        modifies {}
        invariant forall p <- pools[..i] :: p in stats
        invariant next == Captured(Accepted(), pools[..i], stats, now)
        invariant SnapshotsOk(snapshots, Accepted(), pools[..i], stats, now)
      {
        var pool := pools[i];
        if pool !in stats {
          return None;
        }
        var snapshot, after := CapturePool(pool, stats[pool], now, next);
        SnapshotsGrow(snapshots, Accepted(), pools, i, stats, now, snapshot);
        snapshots, next := snapshots + [snapshot], after;
      }
      assert pools[..|pools|] == pools;
      pending := Some(next);
      return Some(snapshots);
    }

    /** One turn of the loop over pools. */
    method CapturePool(pool: PoolId, stats: PoolStats, now: int, sofar: Checkpoints)
      returns (snapshot: PoolDemandSnapshot, next: Checkpoints)
      ensures next == AddPool(Accepted(), sofar, pool, stats, now)
      ensures SnapshotOk(snapshot, Accepted(), sofar, pool, stats, now)
    {
      hide ClassSnapshotsOk, ClassStamps, ClassCounters, Deltas, Active;
      var current := Checkpoint(stats.llm);
      var recent := Deltas(current, Lookup(accepted, pool, ZERO_CHECKPOINT));
      next := sofar.(pools := sofar.pools[pool := current]);
      if Active(recent) {
        next := next.(lastRequestAt := next.lastRequestAt[pool := now]);
      }
      var admissionClasses: Option<seq<AdmissionClassDemandSnapshot>> := None;
      if stats.admissionClasses.Some? {
        var snapshots, checkpointByClass, lastRequestByClass := CaptureClasses(
          Lookup(acceptedClasses, pool, map[]), Lookup(next.classLastRequestAt, pool, map[]),
          stats.tokenBudget.Some?, stats.admissionClasses.value.classes, now);
        admissionClasses := Some(snapshots);
        next := next.(classes := next.classes[pool := checkpointByClass],
                      classLastRequestAt := next.classLastRequestAt[pool := lastRequestByClass]);
      } else {
        next := next.(classes := next.classes - {pool}, classLastRequestAt := next.classLastRequestAt - {pool});
      }
      snapshot := PoolDemandSnapshot(
        pool, now, recent, stats.inFlight, stats.pending,
        if stats.tokenBudget.None? then None else Some(stats.tokenBudget.value.inFlightTokens),
        if stats.tokenBudget.None? then None else Some(stats.tokenBudget.value.available),
        Find(next.lastRequestAt, pool), admissionClasses);
    }

    /** The loop over one pool's classes. */
    static method CaptureClasses(previous: map<ClassId, Counters>, stamps: map<ClassId, int>, hasBudget: bool,
                                 classes: map<ClassId, ClassStats>, now: int)
      returns (snapshots: seq<AdmissionClassDemandSnapshot>, checkpoints: map<ClassId, Counters>,
               lastRequest: map<ClassId, int>)
      ensures checkpoints == ClassCounters(classes)
      ensures lastRequest == ClassStamps(stamps, previous, classes, now)
      ensures ClassSnapshotsOk(snapshots, previous, stamps, now, hasBudget, classes)
    {
      hide ClassCounters, ClassStamps, ClassRecent, ClassSnapshot, ClassSnapshotsOk, Taken;
      var ids := Keys(classes.Keys);
      snapshots, checkpoints, lastRequest := [], map[], stamps;
      TakenAll(classes, ids);
      NothingCaptured(stamps, previous, now);
      for i := 0 to |ids|
        invariant checkpoints == ClassCounters(Taken(classes, ids[..i]))
        invariant lastRequest == ClassStamps(stamps, previous, Taken(classes, ids[..i]), now)
        invariant |snapshots| == i
        invariant forall j | 0 <= j < i ::
                    snapshots[j] == ClassSnapshot(previous, stamps, now, hasBudget, classes, ids[j])
      {
        TakenGrows(classes, ids, i);
        var snapshot;
        snapshot, checkpoints, lastRequest := CaptureClass(
          previous, stamps, hasBudget, classes, now, ids[i], checkpoints, lastRequest, Taken(classes, ids[..i]));
        snapshots := snapshots + [snapshot];
      }
      ListedOnce(ids, snapshots, previous, stamps, now, hasBudget, classes);
    }

    /** One turn of the loop over classes. */
    static method CaptureClass(
        previous: map<ClassId, Counters>, ghost stamps: map<ClassId, int>, hasBudget: bool,
        classes: map<ClassId, ClassStats>, now: int, c: ClassId, counters: map<ClassId, Counters>,
        requested: map<ClassId, int>, ghost done: map<ClassId, ClassStats>)
      returns (snapshot: AdmissionClassDemandSnapshot, checkpoints: map<ClassId, Counters>,
               lastRequest: map<ClassId, int>)
      requires c in classes && c !in done
      requires counters == ClassCounters(done) && requested == ClassStamps(stamps, previous, done, now)
      ensures checkpoints == ClassCounters(done[c := classes[c]])
      ensures lastRequest == ClassStamps(stamps, previous, done[c := classes[c]], now)
      ensures snapshot == ClassSnapshot(previous, stamps, now, hasBudget, classes, c)
    {
      hide Deltas, Active, ClassStamps, SnapshotOfClass, Checkpoint;
      StampOne(stamps, previous, done, now, c, classes[c]);
      var recent := ClassRecent(previous, classes, c);
      lastRequest := requested;
      if Active(recent) {
        lastRequest := lastRequest[c := now];
      }
      snapshot := SnapshotOfClass(recent, Find(lastRequest, c), hasBudget, c, classes[c]);
      checkpoints := counters[c := Checkpoint(classes[c].llm)];
    }

    /** `Object.keys(...)`: the keys, each once. Their sorted order plays no part in this model. */
    static method Keys(keys: set<ClassId>) returns (ids: seq<ClassId>)
      ensures Enumerates(ids, keys)
    {
      ids := [];
      var remaining := keys;
      while remaining != {}
        invariant remaining <= keys
        invariant Enumerates(ids, keys - remaining)
        decreases |remaining|
      {
        var id :| id in remaining;
        ids := ids + [id];
        remaining := remaining - {id};
      }
    }

    /** `commit`: the most recent capture, if any, becomes what has been accepted. */
    method Commit()
      modifies this
      ensures pending.None?
      ensures Accepted() == if old(pending).None? then old(Accepted()) else old(pending).value
    {
      if pending.None? {
        return;
      }
      var p := pending.value;
      accepted, acceptedClasses := p.pools, p.classes;
      lastRequestAt, classLastRequestAt := p.lastRequestAt, p.classLastRequestAt;
      pending := None;
    }
  }
}

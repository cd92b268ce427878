/**
 * `poolCapacity` of `src/routing.ts`: what a replica publishes about one of its own pools, and the
 * agreement of builder and validator.
 */
module RoutingBuilder {
  import opened Wrappers
  import opened AdmissionPolicy
  import opened Json
  import opened Limits
  import opened Stats
  import opened Sums
  import opened RoutingCapacity

  // ---------- What is assumed of the statistics ----------

  ghost predicate SharedAccounted(s: SharedStats, stats: PoolStats, cs: map<ClassId, ClassStats>) {
    && SharedPot(stats.limits.maxConcurrent, stats.inFlight, Sum(ConcurrentFloors(Tables(cs))),
                 Sum(ProtectedSlotsInUse(cs)),
                 s.maxConcurrent, s.inFlight, s.availableConcurrent)
    && s.tokenBudget.Some? == stats.tokenBudget.Some?
    && (stats.tokenBudget.Some? ==>
          SharedPot(stats.tokenBudget.value.budget, stats.tokenBudget.value.inFlightTokens,
                    Sum(TokenFloors(Tables(cs))), Sum(ProtectedTokensInUse(cs)),
                    s.tokenBudget.value.budget, s.tokenBudget.value.inFlightTokens, s.tokenBudget.value.available))
  }

  ghost predicate ClassesAccounted(c: ClassesStats, stats: PoolStats) {
    && 1 <= |c.classes| <= MAX_ADMISSION_CLASSES
    && c.defaultClass in c.classes
    && (forall id <- c.classes ::
          NormalizeClassId(id) == Some(id) && ClassAccounted(c.classes[id], stats.tokenBudget.Some?))
    && stats.limits.admissionClasses == Some(Tables(c.classes))
    && stats.inFlight == Sum(SlotsInUse(c.classes))
    && (stats.tokenBudget.Some? ==> stats.tokenBudget.value.inFlightTokens == Sum(TokensInUse(c.classes)))
    && SharedAccounted(c.shared, stats, c.classes)
  }

  /** The bulkhead's promise: its limits are well formed, and its counts add up. */
  ghost predicate Accounted(stats: PoolStats) {
    && WellFormed(stats.limits)
    && SafeNat(stats.inFlight) && SafeNat(stats.pending)
    && stats.tokenBudget.Some? == stats.limits.tokenBudget.Some?
    && (stats.tokenBudget.Some? ==>
          var b := stats.tokenBudget.value;
          && b.budget == stats.limits.tokenBudget.value.budget
          && SafeNat(b.inFlightTokens)
          && b.available <= Max(0, b.budget - b.inFlightTokens))
    && (stats.admissionClasses.Some? ==> ClassesAccounted(stats.admissionClasses.value, stats))
  }

  // ---------- The builder ----------

  function QuotaOf(used: int, floor: Option<int>, inUse: int, borrowed: int, max: Option<int>): Quota {
    Quota(used, floor.GetOr(0), inUse, borrowed, Max(0, floor.GetOr(0) - used), max,
          if max.None? then None else Some(Max(0, max.value - used)))
  }

  function BuiltClass(s: ClassStats): ClassCapacity {
    ClassCapacity(
      QuotaOf(s.inFlight, s.limits.protectedConcurrent, s.protectedConcurrentInUse, s.borrowedConcurrent,
              s.limits.maxConcurrent),
      QuotaOf(s.inFlightTokens, s.limits.protectedInFlightTokens, s.protectedTokensInUse, s.borrowedInFlightTokens,
              s.limits.maxInFlightTokens))
  }

  function BuiltClasses(cs: map<ClassId, ClassStats>): map<ClassId, ClassCapacity> {
    map id <- cs :: BuiltClass(cs[id])
  }

  function BuiltShared(s: SharedStats): SharedCapacity {
    SharedCapacity(
      s.maxConcurrent, s.inFlight, s.availableConcurrent,
      if s.tokenBudget.None? then None
      else Some(SharedBudget(s.tokenBudget.value.budget, s.tokenBudget.value.inFlightTokens,
                             s.tokenBudget.value.available)))
  }

  function BuiltBudget(b: TokenStats): BudgetCapacity {
    BudgetCapacity(b.budget, b.inFlightTokens, Max(0, b.available), Max(0, b.budget - b.inFlightTokens))
  }

  function Built(s: PoolStats): PoolCapacity {
    PoolCapacity(
      s.limits.revision, s.mode, s.closed, s.limits.maxConcurrent, s.inFlight, s.pending, s.limits.maxQueue,
      Max(0, s.limits.maxConcurrent - s.inFlight),
      if s.tokenBudget.None? then None else Some(BuiltBudget(s.tokenBudget.value)),
      if s.admissionClasses.None? then None
      else Some(ClassesCapacity(
                  s.admissionClasses.value.defaultClass,
                  BuiltShared(s.admissionClasses.value.shared),
                  BuiltClasses(s.admissionClasses.value.classes))))
  }

  /** Every field of a published class is a number the statistics have, or what a floor or a ceiling leaves. */
  predicate PublishesClass(c: ClassCapacity, s: ClassStats) {
    && c.slots.used == s.inFlight && c.tokens.used == s.inFlightTokens
    && c.slots.floor == s.limits.protectedConcurrent.GetOr(0)
    && c.tokens.floor == s.limits.protectedInFlightTokens.GetOr(0)
    && c.slots.onFloor == s.protectedConcurrentInUse && c.slots.borrowed == s.borrowedConcurrent
    && c.tokens.onFloor == s.protectedTokensInUse && c.tokens.borrowed == s.borrowedInFlightTokens
    && c.slots.max == s.limits.maxConcurrent && c.tokens.max == s.limits.maxInFlightTokens
  }

  /** And so is every field of a published pool. */
  lemma BuiltPublishes(s: PoolStats)
    ensures var p := Built(s);
            && p.revision == s.limits.revision && p.mode == s.mode && p.closed == s.closed
            && p.maxConcurrent == s.limits.maxConcurrent && p.maxQueue == s.limits.maxQueue
            && p.inFlight == s.inFlight && p.pending == s.pending
            && p.tokenBudget.Some? == s.tokenBudget.Some?
            && (s.tokenBudget.Some? ==>
                  && p.tokenBudget.value.budget == s.tokenBudget.value.budget
                  && p.tokenBudget.value.inFlightTokens == s.tokenBudget.value.inFlightTokens
                  && p.tokenBudget.value.normalAvailable == Max(0, s.tokenBudget.value.available))
            && p.admissionClasses.Some? == s.admissionClasses.Some?
            && (s.admissionClasses.Some? ==>
                  var published, counted := p.admissionClasses.value, s.admissionClasses.value;
                  && published.defaultClass == counted.defaultClass
                  && published.classes.Keys == counted.classes.Keys
                  && forall id <- counted.classes :: PublishesClass(published.classes[id], counted.classes[id]))
  {
  }

  method BuildPoolCapacity(stats: PoolStats) returns (p: PoolCapacity)
    ensures p == Built(stats)
  {
    var admissionClasses: Option<ClassesCapacity> := None;
    if stats.admissionClasses.Some? {
      var states := stats.admissionClasses.value.classes;
      var classes: map<ClassId, ClassCapacity> := map[];
      var remaining := states.Keys;
      while remaining != {}
        invariant remaining <= states.Keys
        invariant classes == map id | id in states && id !in remaining :: BuiltClass(states[id])
        decreases |remaining|
      {
        var id :| id in remaining;
        classes := classes[id := BuiltClass(states[id])];
        remaining := remaining - {id};
      }
      assert classes == BuiltClasses(states);
      admissionClasses := Some(ClassesCapacity(
                                 stats.admissionClasses.value.defaultClass,
                                 BuiltShared(stats.admissionClasses.value.shared),
                                 classes));
    }
    var tokenBudget := if stats.tokenBudget.None? then None else Some(BuiltBudget(stats.tokenBudget.value));
    return PoolCapacity(
        stats.limits.revision, stats.mode, stats.closed, stats.limits.maxConcurrent, stats.inFlight, stats.pending,
        stats.limits.maxQueue, Max(0, stats.limits.maxConcurrent - stats.inFlight), tokenBudget, admissionClasses);
  }

  // ---------- The builder emits what the validator demands ----------

  lemma BuiltClassOk(s: ClassStats, hasBudget: bool)
    requires ClassAccounted(s, hasBudget)
    ensures ClassOk(BuiltClass(s), hasBudget)
  {
  }

  lemma BuiltTotals(cs: map<ClassId, ClassStats>)
    ensures TotalsOf(BuiltClasses(cs)) ==
            Totals(Sum(ConcurrentFloors(Tables(cs))), Sum(ProtectedSlotsInUse(cs)), Sum(TokenFloors(Tables(cs))),
                   Sum(ProtectedTokensInUse(cs)))
  {
    hide Sum;
    assert SlotFloors(BuiltClasses(cs)) == ConcurrentFloors(Tables(cs));
    assert SlotsOnFloors(BuiltClasses(cs)) == ProtectedSlotsInUse(cs);
    assert TokenFloorsOf(BuiltClasses(cs)) == TokenFloors(Tables(cs));
    assert TokensOnFloors(BuiltClasses(cs)) == ProtectedTokensInUse(cs);
  }

  /** What uses a floor is no more than the floors, and no more than what is in use. */
  lemma OnFloorsBounds(cs: map<ClassId, ClassStats>, hasBudget: bool)
    requires forall id <- cs :: ClassAccounted(cs[id], hasBudget)
    ensures 0 <= Sum(ProtectedSlotsInUse(cs)) <= Sum(SlotsInUse(cs))
    ensures 0 <= Sum(ProtectedTokensInUse(cs)) <= Sum(TokensInUse(cs))
    ensures 0 <= Sum(ConcurrentFloors(Tables(cs))) && 0 <= Sum(TokenFloors(Tables(cs)))
  {
    hide Sum;
    var none := map id <- cs :: 0;
    SumZero(none);
    SumLe(none, ProtectedSlotsInUse(cs));
    SumLe(ProtectedSlotsInUse(cs), SlotsInUse(cs));
    SumLe(none, ProtectedTokensInUse(cs));
    SumLe(ProtectedTokensInUse(cs), TokensInUse(cs));
    SumLe(none, ConcurrentFloors(Tables(cs)));
    SumLe(none, TokenFloors(Tables(cs)));
  }

  lemma BuiltSharedOk(c: ClassesStats, stats: PoolStats)
    requires Accounted(stats) && stats.admissionClasses == Some(c)
    ensures SharedOk(BuiltShared(c.shared), stats.limits.maxConcurrent, stats.inFlight, Built(stats).tokenBudget,
                     TotalsOf(BuiltClasses(c.classes)))
  {
    hide Sum, TotalsOf, ClassAccounted, NormalizeClassId, ConcurrentFloors, TokenFloors, ProtectedSlotsInUse,
         ProtectedTokensInUse, SlotsInUse, TokensInUse;
    BuiltTotals(c.classes);
    OnFloorsBounds(c.classes, stats.tokenBudget.Some?);
    assert TableOk(Tables(c.classes), stats.limits.maxConcurrent, stats.limits.tokenBudget);
  }

  lemma BuiltNumbersOk(stats: PoolStats)
    requires Accounted(stats)
    ensures NumbersOk(Built(stats))
  {
    hide ClassesAccounted, TableOk, BuiltClasses, BuiltShared;
  }

  lemma BuiltTableFits(c: ClassesStats, stats: PoolStats)
    requires Accounted(stats) && stats.admissionClasses == Some(c)
    ensures TableFits(Built(stats).admissionClasses.value, Built(stats))
  {
    hide ClassOk, SharedOk, TotalsOf, SharedAccounted, ClassAccounted, NormalizeClassId, BuiltClass, BuiltShared,
         BuiltBudget, TableOk, BudgetOk;
    BuiltSharedOk(c, stats);
    forall id <- c.classes
      ensures NormalizeClassId(id) == Some(id) && ClassOk(BuiltClasses(c.classes)[id], stats.tokenBudget.Some?)
    {
      BuiltClassOk(c.classes[id], stats.tokenBudget.Some?);
    }
    assert BuiltClasses(c.classes).Keys == c.classes.Keys;
    assert |c.classes| == |c.classes.Keys| == |BuiltClasses(c.classes)|;
  }

  /** For statistics that add up, the published snapshot satisfies every equation. */
  lemma BuiltOk(stats: PoolStats)
    requires Accounted(stats)
    ensures CapacityOk(Built(stats))
  {
    hide NumbersOk, TableFits, Accounted, BuiltBudget, BuiltShared, BuiltClasses;
    BuiltNumbersOk(stats);
    if stats.admissionClasses.Some? {
      BuiltTableFits(stats.admissionClasses.value, stats);
    }
  }

  // ---------- JSON out ----------

  function NumberOrNull(n: Option<int>): Field {
    if n.None? then Null else Number(n.value)
  }

  function EncodeQuota(q: Quota): RawQuota {
    RawQuota(Number(q.used), Number(q.floor), Number(q.onFloor), Number(q.borrowed), Number(q.freeFloor),
             NumberOrNull(q.max), NumberOrNull(q.free))
  }

  function EncodeShared(s: SharedCapacity): RawShared {
    RawShared(Number(s.maxConcurrent), Number(s.inFlight), Number(s.availableConcurrency),
              if s.tokenBudget.None? then Undefined
              else Record(RawSharedBudget(Number(s.tokenBudget.value.budget),
                                          Number(s.tokenBudget.value.inFlightTokens),
                                          Number(s.tokenBudget.value.available))))
  }

  ghost predicate Orders(ids: seq<ClassId>, p: PoolCapacity) {
    p.admissionClasses.Some? ==>
      && (forall id :: id in ids <==> id in p.admissionClasses.value.classes)
      && (forall i, j | 0 <= i < j < |ids| :: ids[i] != ids[j])
  }

  /** The JSON of a snapshot, with the classes in some order. */
  function Encode(p: PoolCapacity, ids: seq<ClassId>): RawPool
    requires p.admissionClasses.Some? ==> forall id <- ids :: id in p.admissionClasses.value.classes
  {
    RawPool(
      Number(p.revision), Some(p.mode), Some(p.closed), Number(p.maxConcurrent), Number(p.inFlight),
      Number(p.pending), Number(p.maxQueue), Number(p.availableConcurrency),
      if p.tokenBudget.None? then Undefined
      else Record(RawBudget(Number(p.tokenBudget.value.budget), Number(p.tokenBudget.value.inFlightTokens),
                            Number(p.tokenBudget.value.normalAvailable), Number(p.tokenBudget.value.highAvailable))),
      if p.admissionClasses.None? then Undefined
      else Record(EncodeTable(p.admissionClasses.value, ids)))
  }

  function EncodeTable(c: ClassesCapacity, ids: seq<ClassId>): RawClasses
    requires forall id <- ids :: id in c.classes
  {
    RawClasses(Some(c.defaultClass), Record(EncodeShared(c.shared)),
               Record(seq(|ids|, i requires 0 <= i < |ids| => EncodeEntry(c.classes, ids[i]))))
  }

  function EncodeEntry(cs: map<ClassId, ClassCapacity>, id: ClassId): RawEntry
    requires id in cs
  {
    RawEntry(id, Record(RawClass(EncodeQuota(cs[id].slots), EncodeQuota(cs[id].tokens))))
  }

  lemma EncodedEntry(cs: map<ClassId, ClassCapacity>, id: ClassId, hasBudget: bool)
    requires id in cs && ClassesOk(cs, hasBudget)
    ensures ReadsEntry(EncodeEntry(cs, id), 3, cs)
  {
    hide NormalizeClassId;
    assert NormalizeClassId(id) == Some(id) && ClassOk(cs[id], hasBudget);
  }

  lemma EncodedEntries(entries: seq<RawEntry>, ids: seq<ClassId>, cs: map<ClassId, ClassCapacity>, hasBudget: bool)
    requires ClassesOk(cs, hasBudget)
    requires forall id :: id in ids <==> id in cs
    requires forall i, j | 0 <= i < j < |ids| :: ids[i] != ids[j]
    requires |entries| == |ids| && forall i | 0 <= i < |ids| :: entries[i] == EncodeEntry(cs, ids[i])
    ensures ReadsClasses(entries, 3, cs)
  {
    hide NormalizeClassId, ClassOk, ReadsEntry;
    forall i | 0 <= i < |entries|
      ensures entries[i].id == ids[i] && ReadsEntry(entries[i], 3, cs) && NormalizeClassId(ids[i]) == Some(ids[i])
    {
      EncodedEntry(cs, ids[i], hasBudget);
    }
    forall id <- cs
      ensures Mentions(entries, id)
    {
      var i :| 0 <= i < |ids| && ids[i] == id;
      assert NormalizeClassId(entries[i].id) == Some(id);
    }
  }

  lemma EncodedTable(p: PoolCapacity, ids: seq<ClassId>)
    requires p.admissionClasses.Some? && TableFits(p.admissionClasses.value, p) && Orders(ids, p)
    ensures ReadsTable(EncodeTable(p.admissionClasses.value, ids), 3, p, p.admissionClasses.value)
  {
    hide NormalizeClassId, TotalsOf, ReadsClasses, ClassOk, EncodeEntry;
    var c := p.admissionClasses.value;
    EncodedEntries(EncodeTable(c, ids).entries.value, ids, c.classes, p.tokenBudget.Some?);
    assert NormalizeClassId(c.defaultClass) == Some(c.defaultClass);
  }

  /**
   * Reading back the JSON of a snapshot that satisfies the equations gives that snapshot, whatever the
   * order of its classes.
   */
  lemma EncodedReads(p: PoolCapacity, ids: seq<ClassId>)
    requires CapacityOk(p) && Orders(ids, p)
    ensures Reads(Record(Encode(p, ids)), 3, p)
  {
    hide TableFits, ReadsTable, EncodeTable, NumbersOk;
    if p.admissionClasses.Some? {
      EncodedTable(p, ids);
    }
  }

  /** What one replica publishes, another reads unchanged. */
  method PublishAndRead(stats: PoolStats, ids: seq<ClassId>)
    returns (sent: PoolCapacity, received: Option<PoolCapacity>)
    requires Accounted(stats) && Orders(ids, Built(stats))
    ensures sent == Built(stats) && received == Some(sent)
  {
    hide Accounted, Built, Reads, CapacityOk;
    sent := BuildPoolCapacity(stats);
    BuiltOk(stats);
    EncodedReads(sent, ids);
    received := ValidatePoolCapacity(Record(Encode(sent, ids)), 3);
  }

  /**
   * A snapshot accepted under schema 1 or 2 is a schema 3 snapshot in which no class has a floor and
   * everything is shared.
   */
  lemma LegacyLift(raw: Record<RawPool>, schema: int, p: PoolCapacity, ids: seq<ClassId>)
    requires schema < 3 && Reads(raw, schema, p) && CapacityOk(p) && Orders(ids, p)
    ensures Reads(Record(Encode(p, ids)), 3, p)
    ensures p.admissionClasses.Some? ==>
              var c := p.admissionClasses.value;
              && (forall id <- c.classes :: c.classes[id].slots.floor == 0 && c.classes[id].tokens.floor == 0)
              && c.shared == WholePool(p.maxConcurrent, p.inFlight, p.availableConcurrency, p.tokenBudget)
  {
    EncodedReads(p, ids);
    hide CapacityOk, Encode, ReadsClasses, ReadsNumbers, NormalizeClassId;
    if p.admissionClasses.Some? {
      LegacyTotals(raw.value.admissionClasses.value.entries.value, schema, p.admissionClasses.value.classes);
    }
  }
}

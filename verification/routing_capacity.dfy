/**
 * The capacity snapshots replicas exchange (`src/routing.ts`): the builder that publishes one
 * pool, and the validator that reads one back from JSON. The validator is proved to accept
 * exactly the snapshots that satisfy the accounting equations, and to return what it read.
 *
 * A class has the same seven numbers for slots and for tokens, so both are a `Quota`.
 */
module RoutingCapacity {
  import opened Wrappers
  import opened AdmissionPolicy
  import opened Json
  import opened Limits
  import opened Sums
  import opened Stats

  // ---------- Snapshots ----------

  /**
   * For slots: `inFlight`, `protectedConcurrent`, `protectedConcurrentInUse`, `borrowedConcurrent`,
   * `availableProtectedConcurrency`, `maxConcurrent`, `availableConcurrency`; likewise for tokens.
   */
  datatype Quota = Quota(
    used: int, floor: int, onFloor: int, borrowed: int, freeFloor: int, max: Option<int>, free: Option<int>)

  datatype ClassCapacity = ClassCapacity(slots: Quota, tokens: Quota)

  datatype SharedBudget = SharedBudget(budget: int, inFlightTokens: int, available: int)

  datatype SharedCapacity = SharedCapacity(
    maxConcurrent: int, inFlight: int, availableConcurrency: int, tokenBudget: Option<SharedBudget>)

  datatype ClassesCapacity = ClassesCapacity(
    defaultClass: ClassId, shared: SharedCapacity, classes: map<ClassId, ClassCapacity>)

  datatype BudgetCapacity = BudgetCapacity(budget: int, inFlightTokens: int, normalAvailable: int, highAvailable: int)

  datatype PoolCapacity = PoolCapacity(
    revision: int,
    mode: AdmissionMode,
    closed: bool,
    maxConcurrent: int,
    inFlight: int,
    pending: int,
    maxQueue: int,
    availableConcurrency: int,
    tokenBudget: Option<BudgetCapacity>,
    admissionClasses: Option<ClassesCapacity>)

  // ---------- The equations of schema 3 ----------

  /** The two halves of a quota: how its use splits over the floor, and what its ceiling leaves. */
  predicate QuotaOk(q: Quota) {
    && SafeNat(q.used) && SafeNat(q.floor) && SafeNat(q.onFloor) && SafeNat(q.borrowed) && SafeNat(q.freeFloor)
    && OptionalSafeNat(q.max) && OptionalSafeNat(q.free)
    && Split(q.used, q.floor, q.onFloor, q.borrowed)
    && q.freeFloor == Max(0, q.floor - q.used)
    && q.max.Some? == q.free.Some?
    && (q.max.Some? ==> q.free.value == Max(0, q.max.value - q.used) && q.floor <= q.max.value)
  }

  predicate ClassOk(c: ClassCapacity, hasBudget: bool) {
    QuotaOk(c.slots) && QuotaOk(c.tokens) && (!hasBudget ==> c.tokens.floor == 0)
  }

  ghost predicate ClassesOk(cs: map<ClassId, ClassCapacity>, hasBudget: bool) {
    forall id <- cs :: NormalizeClassId(id) == Some(id) && ClassOk(cs[id], hasBudget)
  }

  ghost function SlotFloors(cs: map<ClassId, ClassCapacity>): map<ClassId, int> {
    map id <- cs :: cs[id].slots.floor
  }

  ghost function SlotsOnFloors(cs: map<ClassId, ClassCapacity>): map<ClassId, int> {
    map id <- cs :: cs[id].slots.onFloor
  }

  ghost function TokenFloorsOf(cs: map<ClassId, ClassCapacity>): map<ClassId, int> {
    map id <- cs :: cs[id].tokens.floor
  }

  ghost function TokensOnFloors(cs: map<ClassId, ClassCapacity>): map<ClassId, int> {
    map id <- cs :: cs[id].tokens.onFloor
  }

  /** The four totals the validator accumulates. */
  datatype Totals = Totals(slotFloors: int, slotsOnFloors: int, tokenFloors: int, tokensOnFloors: int)

  ghost function TotalsOf(cs: map<ClassId, ClassCapacity>): Totals {
    Totals(Sum(SlotFloors(cs)), Sum(SlotsOnFloors(cs)), Sum(TokenFloorsOf(cs)), Sum(TokensOnFloors(cs)))
  }

  predicate SharedSafe(s: SharedCapacity) {
    && SafeNat(s.maxConcurrent) && SafeNat(s.inFlight) && SafeNat(s.availableConcurrency)
    && (s.tokenBudget.Some? ==>
          SafeNat(s.tokenBudget.value.budget) && SafeNat(s.tokenBudget.value.inFlightTokens)
          && SafeNat(s.tokenBudget.value.available))
  }

  predicate SharedOk(s: SharedCapacity, maxConcurrent: int, inFlight: int, budget: Option<BudgetCapacity>, t: Totals) {
    && SharedSafe(s)
    && t.slotFloors <= maxConcurrent
    && SharedPot(maxConcurrent, inFlight, t.slotFloors, t.slotsOnFloors, s.maxConcurrent, s.inFlight,
                 s.availableConcurrency)
    && s.tokenBudget.Some? == budget.Some?
    && (budget.Some? ==>
          && t.tokenFloors <= budget.value.budget
          && SharedPot(budget.value.budget, budget.value.inFlightTokens, t.tokenFloors, t.tokensOnFloors,
                       s.tokenBudget.value.budget, s.tokenBudget.value.inFlightTokens, s.tokenBudget.value.available))
  }

  predicate BudgetCapacityOk(b: BudgetCapacity) {
    && SafeNat(b.budget) && SafeNat(b.inFlightTokens) && SafeNat(b.normalAvailable) && SafeNat(b.highAvailable)
    && b.normalAvailable <= b.highAvailable <= b.budget
  }

  predicate NumbersOk(p: PoolCapacity) {
    && SafeNat(p.revision) && SafeNat(p.maxConcurrent) && SafeNat(p.inFlight) && SafeNat(p.pending)
    && SafeNat(p.maxQueue)
    && SafeNat(p.availableConcurrency)
    && p.availableConcurrency == Max(0, p.maxConcurrent - p.inFlight)
    && (p.tokenBudget.Some? ==> BudgetCapacityOk(p.tokenBudget.value))
  }

  ghost predicate TableFits(c: ClassesCapacity, p: PoolCapacity) {
    && 1 <= |c.classes| <= MAX_ADMISSION_CLASSES
    && c.defaultClass in c.classes
    && ClassesOk(c.classes, p.tokenBudget.Some?)
    && SharedOk(c.shared, p.maxConcurrent, p.inFlight, p.tokenBudget, TotalsOf(c.classes))
  }

  ghost predicate CapacityOk(p: PoolCapacity) {
    NumbersOk(p) && (p.admissionClasses.Some? ==> TableFits(p.admissionClasses.value, p))
  }

  // ---------- JSON ----------

  datatype RawQuota = RawQuota(
    used: Field, floor: Field, onFloor: Field, borrowed: Field, freeFloor: Field, max: Field, free: Field)

  datatype RawClass = RawClass(slots: RawQuota, tokens: RawQuota)

  datatype RawEntry = RawEntry(id: string, state: Record<RawClass>)

  datatype RawSharedBudget = RawSharedBudget(budget: Field, inFlightTokens: Field, available: Field)

  datatype RawShared = RawShared(
    maxConcurrent: Field, inFlight: Field, availableConcurrency: Field, tokenBudget: Record<RawSharedBudget>)

  /** `entries` is `Object.entries` of the class table; `defaultClass` is `None` when it is no string. */
  datatype RawClasses = RawClasses(defaultClass: Option<string>, shared: Record<RawShared>,
                                   entries: Record<seq<RawEntry>>)

  datatype RawBudget = RawBudget(budget: Field, inFlightTokens: Field, normalAvailable: Field, highAvailable: Field)

  datatype RawPool = RawPool(
    revision: Field,
    mode: Option<AdmissionMode>,
    closed: Option<bool>,
    maxConcurrent: Field,
    inFlight: Field,
    pending: Field,
    maxQueue: Field,
    availableConcurrency: Field,
    tokenBudget: Record<RawBudget>,
    admissionClasses: Record<RawClasses>)

  predicate NonNegativeSafeInteger(f: Field) {
    f.Number? && SafeNat(f.n)
  }

  predicate NullOrNonNegativeSafeInteger(f: Field) {
    f.Null? || NonNegativeSafeInteger(f)
  }

  function Nullable(f: Field): Option<int> {
    if f.Number? then Some(f.n) else None
  }

  // ---------- What a raw snapshot says, under a schema version ----------

  /** Versions 1 and 2 know no floors: everything in use counts as borrowed. */
  predicate ReadsQuota(raw: RawQuota, schema: int, q: Quota) {
    && raw.used == Number(q.used)
    && NullOrNonNegativeSafeInteger(raw.max) && q.max == Nullable(raw.max)
    && NullOrNonNegativeSafeInteger(raw.free) && q.free == Nullable(raw.free)
    && if schema >= 3
       then raw.floor == Number(q.floor) && raw.onFloor == Number(q.onFloor)
            && raw.borrowed == Number(q.borrowed) && raw.freeFloor == Number(q.freeFloor)
       else q.floor == 0 && q.onFloor == 0 && q.borrowed == q.used && q.freeFloor == 0
  }

  predicate ReadsEntry(e: RawEntry, schema: int, cs: map<ClassId, ClassCapacity>) {
    && NormalizeClassId(e.id).Some?
    && NormalizeClassId(e.id).value in cs
    && e.state.Record?
    && ReadsQuota(e.state.value.slots, schema, cs[NormalizeClassId(e.id).value].slots)
    && ReadsQuota(e.state.value.tokens, schema, cs[NormalizeClassId(e.id).value].tokens)
  }

  ghost predicate Mentions(entries: seq<RawEntry>, id: ClassId) {
    exists i | 0 <= i < |entries| :: NormalizeClassId(entries[i].id) == Some(id)
  }

  /** Every entry is one class, and every class is one entry. */
  ghost predicate ReadsClasses(entries: seq<RawEntry>, schema: int, cs: map<ClassId, ClassCapacity>) {
    && (forall i | 0 <= i < |entries| :: ReadsEntry(entries[i], schema, cs))
    && (forall i, j | 0 <= i < j < |entries| :: NormalizeClassId(entries[i].id) != NormalizeClassId(entries[j].id))
    && (forall id <- cs :: Mentions(entries, id))
  }

  predicate ReadsSharedBudget(raw: Record<RawSharedBudget>, b: Option<SharedBudget>) {
    if b.None? then raw.Undefined?
    else
      && raw.Record?
      && raw.value ==
         RawSharedBudget(Number(b.value.budget), Number(b.value.inFlightTokens), Number(b.value.available))
  }

  /** Versions 1 and 2 publish no shared pot: the whole pool is shared. */
  predicate ReadsShared(raw: Record<RawShared>, schema: int, p: PoolCapacity, s: SharedCapacity) {
    if schema >= 3 then
      && raw.Record?
      && raw.value.maxConcurrent == Number(s.maxConcurrent)
      && raw.value.inFlight == Number(s.inFlight)
      && raw.value.availableConcurrency == Number(s.availableConcurrency)
      && ReadsSharedBudget(raw.value.tokenBudget, s.tokenBudget)
    else
      s == WholePool(p.maxConcurrent, p.inFlight, p.availableConcurrency, p.tokenBudget)
  }

  function WholePool(maxConcurrent: int, inFlight: int, availableConcurrency: int,
                     b: Option<BudgetCapacity>): SharedCapacity
  {
    SharedCapacity(
      maxConcurrent, inFlight, availableConcurrency,
      if b.None? then None
      else Some(SharedBudget(b.value.budget, b.value.inFlightTokens, Max(0, b.value.budget - b.value.inFlightTokens))))
  }

  predicate ReadsBudget(raw: Record<RawBudget>, b: Option<BudgetCapacity>) {
    if b.None? then raw.Undefined?
    else raw.Record? && raw.value == RawBudget(Number(b.value.budget), Number(b.value.inFlightTokens),
                                               Number(b.value.normalAvailable), Number(b.value.highAvailable))
  }

  predicate ReadsNumbers(raw: RawPool, p: PoolCapacity) {
    && raw.revision == Number(p.revision)
    && raw.mode == Some(p.mode)
    && raw.closed == Some(p.closed)
    && raw.maxConcurrent == Number(p.maxConcurrent)
    && raw.inFlight == Number(p.inFlight)
    && raw.pending == Number(p.pending)
    && raw.maxQueue == Number(p.maxQueue)
    && raw.availableConcurrency == Number(p.availableConcurrency)
    && ReadsBudget(raw.tokenBudget, p.tokenBudget)
  }

  ghost predicate ReadsTable(raw: RawClasses, schema: int, p: PoolCapacity, c: ClassesCapacity) {
    && raw.defaultClass.Some? && NormalizeClassId(raw.defaultClass.value) == Some(c.defaultClass)
    && raw.entries.Record? && ReadsClasses(raw.entries.value, schema, c.classes)
    && ReadsShared(raw.shared, schema, p, c.shared)
  }

  /** The snapshot is what the raw value says. */
  ghost predicate Reads(raw: Record<RawPool>, schema: int, p: PoolCapacity) {
    && raw.Record?
    && ReadsNumbers(raw.value, p)
    && if p.admissionClasses.None? then raw.value.admissionClasses.Undefined?
       else
         && raw.value.admissionClasses.Record?
         && ReadsTable(raw.value.admissionClasses.value, schema, p, p.admissionClasses.value)
  }

  // ---------- The validator ----------

  method ValidateQuota(raw: RawQuota, schema: int) returns (r: Option<Quota>)
    ensures forall q :: r == Some(q) <==> ReadsQuota(raw, schema, q) && QuotaOk(q)
  {
    if !NonNegativeSafeInteger(raw.used) || !NullOrNonNegativeSafeInteger(raw.max)
       || !NullOrNonNegativeSafeInteger(raw.free) {
      return None;
    }
    var used, max, free := raw.used.n, Nullable(raw.max), Nullable(raw.free);
    if max.Some? != free.Some? {
      return None;
    }
    if max.Some? && free.value != Max(0, max.value - used) {
      return None;
    }
    if schema >= 3 && (!NonNegativeSafeInteger(raw.floor) || !NonNegativeSafeInteger(raw.onFloor)
                       || !NonNegativeSafeInteger(raw.borrowed) || !NonNegativeSafeInteger(raw.freeFloor)) {
      return None;
    }
    var floor, onFloor, borrowed, freeFloor := 0, 0, used, 0;
    if schema >= 3 {
      floor, onFloor, borrowed, freeFloor := raw.floor.n, raw.onFloor.n, raw.borrowed.n, raw.freeFloor.n;
    }
    if onFloor != Min(used, floor) || borrowed != Max(0, used - onFloor) || freeFloor != Max(0, floor - used) {
      return None;
    }
    if max.Some? && floor > max.value {
      return None;
    }
    return Some(Quota(used, floor, onFloor, borrowed, freeFloor, max, free));
  }

  /** One class of the table. */
  method ValidateClass(raw: Record<RawClass>, schema: int, hasBudget: bool) returns (r: Option<ClassCapacity>)
    ensures forall c :: r == Some(c) <==>
              && raw.Record?
              && ReadsQuota(raw.value.slots, schema, c.slots) && ReadsQuota(raw.value.tokens, schema, c.tokens)
              && ClassOk(c, hasBudget)
  {
    hide ReadsQuota, QuotaOk;
    if !raw.Record? {
      return None;
    }
    var slots := ValidateQuota(raw.value.slots, schema);
    var tokens := ValidateQuota(raw.value.tokens, schema);
    if slots.None? || tokens.None? {
      return None;
    }
    FloorIsSafe(tokens.value);
    if !hasBudget && tokens.value.floor > 0 {
      return None;
    }
    return Some(ClassCapacity(slots.value, tokens.value));
  }

  lemma FloorIsSafe(q: Quota)
    ensures QuotaOk(q) ==> SafeNat(q.floor)
  {
  }

  function AddTotals(t: Totals, c: ClassCapacity): Totals {
    Totals(t.slotFloors + c.slots.floor, t.slotsOnFloors + c.slots.onFloor,
           t.tokenFloors + c.tokens.floor, t.tokensOnFloors + c.tokens.onFloor)
  }

  lemma TotalsInsert(cs: map<ClassId, ClassCapacity>, id: ClassId, c: ClassCapacity)
    requires id !in cs
    ensures TotalsOf(cs[id := c]) == AddTotals(TotalsOf(cs), c)
  {
    hide Sum;
    SlotTotalsInsert(cs, id, c);
    SumInsert(TokenFloorsOf(cs), id, c.tokens.floor);
    SumInsert(TokensOnFloors(cs), id, c.tokens.onFloor);
    assert TokenFloorsOf(cs[id := c]) == TokenFloorsOf(cs)[id := c.tokens.floor];
    assert TokensOnFloors(cs[id := c]) == TokensOnFloors(cs)[id := c.tokens.onFloor];
    hide TokenFloorsOf, TokensOnFloors, SlotFloors, SlotsOnFloors;
  }

  lemma SlotTotalsInsert(cs: map<ClassId, ClassCapacity>, id: ClassId, c: ClassCapacity)
    requires id !in cs
    ensures Sum(SlotFloors(cs[id := c])) == Sum(SlotFloors(cs)) + c.slots.floor
    ensures Sum(SlotsOnFloors(cs[id := c])) == Sum(SlotsOnFloors(cs)) + c.slots.onFloor
  {
    hide Sum;
    SumInsert(SlotFloors(cs), id, c.slots.floor);
    SumInsert(SlotsOnFloors(cs), id, c.slots.onFloor);
    assert SlotFloors(cs[id := c]) == SlotFloors(cs)[id := c.slots.floor];
    assert SlotsOnFloors(cs[id := c]) == SlotsOnFloors(cs)[id := c.slots.onFloor];
  }

  /** One raw table says one thing. */
  lemma ReadsOnce(entries: seq<RawEntry>, schema: int, a: map<ClassId, ClassCapacity>, b: map<ClassId, ClassCapacity>)
    requires ReadsClasses(entries, schema, a) && ReadsClasses(entries, schema, b)
    ensures a == b
  {
    hide NormalizeClassId;
    forall id <- a.Keys + b.Keys
      ensures id in a && id in b && a[id] == b[id]
    {
      assert Mentions(entries, id);
      var i :| 0 <= i < |entries| && NormalizeClassId(entries[i].id) == Some(id);
      assert ReadsEntry(entries[i], schema, a) && ReadsEntry(entries[i], schema, b);
    }
  }

  lemma ReadsMore(entries: seq<RawEntry>, i: nat, schema: int, cs: map<ClassId, ClassCapacity>, id: ClassId,
                  c: ClassCapacity)
    requires i < |entries| && ReadsClasses(entries[..i], schema, cs) && id !in cs
    requires NormalizeClassId(entries[i].id) == Some(id) && ReadsEntry(entries[i], schema, map[id := c])
    ensures ReadsClasses(entries[..i + 1], schema, cs[id := c])
  {
    hide NormalizeClassId, ReadsQuota;
    var after := entries[..i + 1];
    forall j | 0 <= j < i
      ensures after[j] == entries[..i][j] && NormalizeClassId(after[j].id).Some?
              && NormalizeClassId(after[j].id).value in cs
    {
      assert ReadsEntry(entries[..i][j], schema, cs);
    }
    forall j | 0 <= j <= i
      ensures ReadsEntry(after[j], schema, cs[id := c])
    {
      assert j < i ==> ReadsEntry(entries[..i][j], schema, cs);
    }
    forall k <- cs[id := c]
      ensures Mentions(after, k)
    {
      hide ReadsEntry;
      MentionsMore(entries, i, k);
    }
  }

  lemma MentionsMore(entries: seq<RawEntry>, i: nat, k: ClassId)
    requires i < |entries| && (Mentions(entries[..i], k) || NormalizeClassId(entries[i].id) == Some(k))
    ensures Mentions(entries[..i + 1], k)
  {
    hide NormalizeClassId;
    var after := entries[..i + 1];
    if NormalizeClassId(entries[i].id) == Some(k) {
      assert NormalizeClassId(after[i].id) == Some(k);
    } else {
      var j :| 0 <= j < i && NormalizeClassId(entries[..i][j].id) == Some(k);
      assert NormalizeClassId(after[j].id) == Some(k);
    }
  }

  /** The class table, with the totals the loop keeps. The original refuses an empty or oversized one first. */
  method ValidateClasses(entries: seq<RawEntry>, schema: int, hasBudget: bool)
    returns (r: Option<map<ClassId, ClassCapacity>>, totals: Totals)
    ensures forall cs :: r == Some(cs) <==> ReadsClasses(entries, schema, cs) && ClassesOk(cs, hasBudget)
    ensures r.Some? ==> |r.value| == |entries| && totals == TotalsOf(r.value)
  {
    hide NormalizeClassId, ReadsQuota, ClassOk, TotalsOf, ReadsClasses;
    var classes: map<ClassId, ClassCapacity> := map[];
    totals := Totals(0, 0, 0, 0);
    NoClasses(entries, schema);
    for i := 0 to |entries|
      invariant |classes| == i && ReadsClasses(entries[..i], schema, classes)
      invariant forall id <- classes :: NormalizeClassId(id) == Some(id) && ClassOk(classes[id], hasBudget)
      invariant totals == TotalsOf(classes)
    {
      var id := NormalizeClassId(entries[i].id);
      var capacity := ValidateEntry(entries, i, schema, hasBudget, classes);
      if capacity.None? {
        return None, totals;
      }
      NormalizeIdempotent(entries[i].id);
      TotalsInsert(classes, id.value, capacity.value);
      ReadsMore(entries, i, schema, classes, id.value, capacity.value);
      totals := AddTotals(totals, capacity.value);
      classes := classes[id.value := capacity.value];
    }
    assert entries[..|entries|] == entries;
    r := Some(classes);
    forall cs | ReadsClasses(entries, schema, cs)
      ensures cs == classes
    {
      ReadsOnce(entries, schema, cs, classes);
    }
  }

  lemma NoClasses(entries: seq<RawEntry>, schema: int)
    ensures ReadsClasses(entries[..0], schema, map[])
    ensures TotalsOf(map[]) == Totals(0, 0, 0, 0)
  {
    SumZero(SlotFloors(map[]));
    SumZero(SlotsOnFloors(map[]));
    SumZero(TokenFloorsOf(map[]));
    SumZero(TokensOnFloors(map[]));
  }

  /** One turn of the loop: a new normalised ID with a valid state, or the whole table is refused. */
  method ValidateEntry(entries: seq<RawEntry>, i: nat, schema: int, hasBudget: bool,
                       classes: map<ClassId, ClassCapacity>)
    returns (r: Option<ClassCapacity>)
    requires i < |entries| && ReadsClasses(entries[..i], schema, classes)
    ensures r.Some? ==>
              && NormalizeClassId(entries[i].id).Some? && NormalizeClassId(entries[i].id).value !in classes
              && ReadsEntry(entries[i], schema, map[NormalizeClassId(entries[i].id).value := r.value])
              && ClassOk(r.value, hasBudget)
    ensures r.None? ==> forall cs :: !(ReadsClasses(entries, schema, cs) && ClassesOk(cs, hasBudget))
  {
    hide NormalizeClassId, ReadsQuota, ClassOk;
    var id := NormalizeClassId(entries[i].id);
    if id.None? {
      assert forall cs :: !ReadsEntry(entries[i], schema, cs);
      return None;
    }
    if id.value in classes {
      assert Mentions(entries[..i], id.value);
      var j :| 0 <= j < i && NormalizeClassId(entries[..i][j].id) == id;
      assert NormalizeClassId(entries[j].id) == NormalizeClassId(entries[i].id);
      return None;
    }
    r := ValidateClass(entries[i].state, schema, hasBudget);
    if r.None? {
      forall cs | ReadsClasses(entries, schema, cs)
        ensures !ClassesOk(cs, hasBudget)
      {
        assert ReadsEntry(entries[i], schema, cs);
        assert !ClassOk(cs[id.value], hasBudget);
      }
    }
  }

  // ---------- The rest of the validator ----------

  method ValidateBudget(raw: RawBudget) returns (r: Option<BudgetCapacity>)
    ensures forall b :: r == Some(b) <==> ReadsBudget(Record(raw), Some(b)) && BudgetCapacityOk(b)
  {
    if !NonNegativeSafeInteger(raw.budget) || !NonNegativeSafeInteger(raw.inFlightTokens)
       || !NonNegativeSafeInteger(raw.normalAvailable) || !NonNegativeSafeInteger(raw.highAvailable) {
      return None;
    }
    if raw.normalAvailable.n > raw.highAvailable.n || raw.highAvailable.n > raw.budget.n {
      return None;
    }
    return Some(BudgetCapacity(raw.budget.n, raw.inFlightTokens.n, raw.normalAvailable.n, raw.highAvailable.n));
  }

  /** Everything but the class table. */
  method ValidateNumbers(raw: RawPool) returns (r: Option<PoolCapacity>)
    ensures r.Some? ==> r.value.admissionClasses.None?
    ensures forall p: PoolCapacity | p.admissionClasses.None? :: r == Some(p) <==> ReadsNumbers(raw, p) && NumbersOk(p)
  {
    hide BudgetCapacityOk;
    if !NonNegativeSafeInteger(raw.revision) || raw.mode.None? || raw.closed.None? {
      return None;
    }
    if !NonNegativeSafeInteger(raw.maxConcurrent) || !NonNegativeSafeInteger(raw.inFlight)
       || !NonNegativeSafeInteger(raw.pending)
       || !NonNegativeSafeInteger(raw.maxQueue) || !NonNegativeSafeInteger(raw.availableConcurrency) {
      return None;
    }
    if raw.availableConcurrency.n != Max(0, raw.maxConcurrent.n - raw.inFlight.n) {
      return None;
    }
    var tokenBudget: Option<BudgetCapacity> := None;
    if !raw.tokenBudget.Undefined? {
      if raw.tokenBudget.NotAnObject? {
        return None;
      }
      tokenBudget := ValidateBudget(raw.tokenBudget.value);
      if tokenBudget.None? {
        return None;
      }
    }
    return Some(PoolCapacity(raw.revision.n, raw.mode.value, raw.closed.value, raw.maxConcurrent.n, raw.inFlight.n,
                             raw.pending.n, raw.maxQueue.n, raw.availableConcurrency.n, tokenBudget, None));
  }

  method ValidateSharedBudget(raw: Record<RawSharedBudget>, b: Option<BudgetCapacity>, t: Totals)
    returns (ok: bool, r: Option<SharedBudget>)
    requires b.Some? ==> t.tokenFloors <= b.value.budget
    ensures forall s :: ok && r == s <==>
              && ReadsSharedBudget(raw, s)
              && s.Some? == b.Some?
              && (b.Some? ==>
                    && SafeNat(s.value.budget) && SafeNat(s.value.inFlightTokens) && SafeNat(s.value.available)
                    && SharedPot(b.value.budget, b.value.inFlightTokens, t.tokenFloors, t.tokensOnFloors,
                                 s.value.budget, s.value.inFlightTokens, s.value.available))
  {
    if b.None? {
      return raw.Undefined?, None;
    }
    if !raw.Record? || !NonNegativeSafeInteger(raw.value.budget) || !NonNegativeSafeInteger(raw.value.inFlightTokens)
       || !NonNegativeSafeInteger(raw.value.available) {
      return false, None;
    }
    var s := SharedBudget(raw.value.budget.n, raw.value.inFlightTokens.n, raw.value.available.n);
    if s.budget != Max(0, b.value.budget - t.tokenFloors)
       || s.inFlightTokens != Max(0, b.value.inFlightTokens - t.tokensOnFloors)
       || s.available != Max(0, s.budget - s.inFlightTokens) {
      return false, None;
    }
    return true, Some(s);
  }

  /** The shared pot, and the floors against the pool's envelope. */
  method ValidateShared(raw: Record<RawShared>, schema: int, p: PoolCapacity, t: Totals)
    returns (r: Option<SharedCapacity>)
    requires NumbersOk(p) && (schema < 3 ==> t == Totals(0, 0, 0, 0))
    ensures forall s :: r == Some(s) <==>
              ReadsShared(raw, schema, p, s) && SharedOk(s, p.maxConcurrent, p.inFlight, p.tokenBudget, t)
  {
    if t.slotFloors > p.maxConcurrent || (p.tokenBudget.Some? && t.tokenFloors > p.tokenBudget.value.budget) {
      return None;
    }
    if schema < 3 {
      return Some(WholePool(p.maxConcurrent, p.inFlight, p.availableConcurrency, p.tokenBudget));
    }
    if !raw.Record? || !NonNegativeSafeInteger(raw.value.maxConcurrent) || !NonNegativeSafeInteger(raw.value.inFlight)
       || !NonNegativeSafeInteger(raw.value.availableConcurrency) {
      return None;
    }
    var max, used, left := raw.value.maxConcurrent.n, raw.value.inFlight.n, raw.value.availableConcurrency.n;
    if !SharedPot(p.maxConcurrent, p.inFlight, t.slotFloors, t.slotsOnFloors, max, used, left) {
      return None;
    }
    var ok, tokenBudget := ValidateSharedBudget(raw.value.tokenBudget, p.tokenBudget, t);
    if !ok {
      return None;
    }
    return Some(SharedCapacity(max, used, left, tokenBudget));
  }

  lemma LegacyTotals(entries: seq<RawEntry>, schema: int, cs: map<ClassId, ClassCapacity>)
    requires schema < 3 && ReadsClasses(entries, schema, cs)
    ensures TotalsOf(cs) == Totals(0, 0, 0, 0)
    ensures forall id <- cs :: cs[id].slots.floor == 0 && cs[id].tokens.floor == 0
  {
    hide Sum, NormalizeClassId;
    forall id <- cs
      ensures cs[id].slots.floor == 0 && cs[id].slots.onFloor == 0 && cs[id].tokens.floor == 0
              && cs[id].tokens.onFloor == 0
    {
      assert Mentions(entries, id);
      var i :| 0 <= i < |entries| && NormalizeClassId(entries[i].id) == Some(id);
      assert ReadsEntry(entries[i], schema, cs);
    }
    SumZero(SlotFloors(cs));
    SumZero(SlotsOnFloors(cs));
    SumZero(TokenFloorsOf(cs));
    SumZero(TokensOnFloors(cs));
  }

  lemma {:induction false} OnceEach(ids: seq<ClassId>, keys: set<ClassId>)
    requires forall i, j | 0 <= i < j < |ids| :: ids[i] != ids[j]
    requires forall k :: k in keys <==> k in ids
    ensures |keys| == |ids|
  {
    if ids != [] {
      var n := |ids| - 1;
      OnceEach(ids[..n], keys - {ids[n]});
    } else {
      assert keys == {};
    }
  }

  /** As many classes as entries. */
  lemma OneEntryEach(entries: seq<RawEntry>, schema: int, cs: map<ClassId, ClassCapacity>)
    requires ReadsClasses(entries, schema, cs)
    ensures |cs| == |entries|
  {
    hide NormalizeClassId, ReadsQuota;
    forall i | 0 <= i < |entries|
      ensures NormalizeClassId(entries[i].id).Some? && NormalizeClassId(entries[i].id).value in cs
    {
      assert ReadsEntry(entries[i], schema, cs);
    }
    var ids := seq(|entries|, i requires 0 <= i < |entries| => NormalizeClassId(entries[i].id).value);
    forall k
      ensures k in cs.Keys <==> k in ids
    {
      if k in cs {
        assert Mentions(entries, k);
        var i :| 0 <= i < |entries| && NormalizeClassId(entries[i].id) == Some(k);
        assert ids[i] == k;
      }
    }
    OnceEach(ids, cs.Keys);
  }

  method ValidateTable(raw: RawClasses, schema: int, p: PoolCapacity) returns (r: Option<ClassesCapacity>)
    requires NumbersOk(p)
    ensures forall c :: r == Some(c) <==> ReadsTable(raw, schema, p, c) && TableFits(c, p)
  {
    hide NormalizeClassId, ReadsClasses, ReadsShared, SharedOk, ClassesOk, NumbersOk, TotalsOf;
    if raw.defaultClass.None? || !raw.entries.Record? {
      return None;
    }
    var entries := raw.entries.value;
    var defaultClass := NormalizeClassId(raw.defaultClass.value);
    forall cs | ReadsClasses(entries, schema, cs)
      ensures |cs| == |entries|
    {
      OneEntryEach(entries, schema, cs);
    }
    if defaultClass.None? || |entries| == 0 || |entries| > MAX_ADMISSION_CLASSES {
      return None;
    }
    var classes, totals := ValidateClasses(entries, schema, p.tokenBudget.Some?);
    if classes.None? || defaultClass.value !in classes.value {
      return None;
    }
    if schema < 3 {
      LegacyTotals(entries, schema, classes.value);
    }
    var shared := ValidateShared(raw.shared, schema, p, totals);
    if shared.None? {
      return None;
    }
    return Some(ClassesCapacity(defaultClass.value, shared.value, classes.value));
  }

  /**
   * `validatePoolCapacity`: a raw value is accepted as a snapshot exactly when it says that snapshot
   * and the snapshot satisfies every equation of schema 3, whichever schema it was published under.
   */
  method ValidatePoolCapacity(raw: Record<RawPool>, schema: int) returns (r: Option<PoolCapacity>)
    ensures forall p :: r == Some(p) <==> Reads(raw, schema, p) && CapacityOk(p)
  {
    hide NumbersOk, ReadsNumbers, ReadsTable, TableFits;
    if !raw.Record? {
      return None;
    }
    var numbers := ValidateNumbers(raw.value);
    forall p
      ensures ReadsNumbers(raw.value, p) && NumbersOk(p) <==> numbers == Some(p.(admissionClasses := None))
    {
      NumbersAlone(raw.value, p);
    }
    if numbers.None? {
      return None;
    }
    if raw.value.admissionClasses.Undefined? {
      return numbers;
    }
    if raw.value.admissionClasses.NotAnObject? {
      return None;
    }
    var table := ValidateTable(raw.value.admissionClasses.value, schema, numbers.value);
    forall p: PoolCapacity, c | numbers == Some(p.(admissionClasses := None))
      ensures ReadsTable(raw.value.admissionClasses.value, schema, p, c) ==
                ReadsTable(raw.value.admissionClasses.value, schema, numbers.value, c)
      ensures TableFits(c, p) == TableFits(c, numbers.value)
    {
      TableAlone(raw.value.admissionClasses.value, schema, p, c);
    }
    if table.None? {
      return None;
    }
    return Some(numbers.value.(admissionClasses := table));
  }

  lemma NumbersAlone(raw: RawPool, p: PoolCapacity)
    ensures ReadsNumbers(raw, p) == ReadsNumbers(raw, p.(admissionClasses := None))
    ensures NumbersOk(p) == NumbersOk(p.(admissionClasses := None))
  {
  }

  lemma TableAlone(raw: RawClasses, schema: int, p: PoolCapacity, c: ClassesCapacity)
    ensures ReadsTable(raw, schema, p, c) == ReadsTable(raw, schema, p.(admissionClasses := None), c)
    ensures TableFits(c, p) == TableFits(c, p.(admissionClasses := None))
  {
  }
}

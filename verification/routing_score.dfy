/**
 * `scoreCapacityCandidate` of `src/routing.ts`, and what its verdict protects: admitting a request
 * it calls admissible never eats into the floor of another class. Ratios are exact reals.
 */
module RoutingScore {
  import opened Wrappers
  import opened Limits
  import opened Stats
  import opened Sums
  import opened RoutingCapacity

  datatype Candidate = Candidate(
    instanceId: string,
    local: bool,
    baseUrl: Option<string>,
    pool: PoolCapacity,
    admissible: bool,
    concurrencyHeadroom: int,
    tokenHeadroom: Option<int>,
    admissionClass: Option<ClassId>,
    classConcurrencyHeadroom: Option<int>,
    classTokenHeadroom: Option<int>,
    sharedConcurrencyHeadroom: Option<int>,
    sharedTokenHeadroom: Option<int>,
    score: real)

  /** What is asked of a replica; `reserved` is zero when there is no reservation. */
  datatype Request = Request(priority: Priority, admissionClass: Option<ClassId>, reserved: nat)

  // ---------- Headroom ----------

  function AvailableTokens(p: PoolCapacity, priority: Priority): Option<int> {
    if p.tokenBudget.None? then None
    else Some(if priority.HighPriority? then p.tokenBudget.value.highAvailable else p.tokenBudget.value.normalAvailable)
  }

  function SelectedClass(p: PoolCapacity, r: Request): Option<ClassId> {
    if r.admissionClass.Some? then r.admissionClass
    else if p.admissionClasses.Some? then Some(p.admissionClasses.value.defaultClass)
    else None
  }

  function ClassState(p: PoolCapacity, r: Request): Option<ClassCapacity> {
    var c := SelectedClass(p, r);
    if c.Some? && p.admissionClasses.Some? && c.value in p.admissionClasses.value.classes
    then Some(p.admissionClasses.value.classes[c.value])
    else None
  }

  function Less(available: Option<int>, wanted: int): Option<int> {
    if available.None? then None else Some(available.value - wanted)
  }

  /** What the request takes from the shared pot: the part its own floor does not cover. */
  function BorrowedSlots(c: ClassCapacity): int {
    if c.slots.freeFloor > 0 then 0 else 1
  }

  function BorrowedTokens(c: ClassCapacity, r: Request): int {
    Max(0, r.reserved - c.tokens.freeFloor)
  }

  ghost function FreeTokenFloors(cs: map<ClassId, ClassCapacity>): map<ClassId, int> {
    map id <- cs :: cs[id].tokens.freeFloor
  }

  ghost function UnusedProtectedTokens(p: PoolCapacity): int {
    if p.admissionClasses.None? then 0 else Sum(FreeTokenFloors(p.admissionClasses.value.classes))
  }

  /** The reduction over the classes. */
  method SumUnusedProtectedTokens(p: PoolCapacity) returns (total: int)
    ensures total == UnusedProtectedTokens(p)
  {
    total := 0;
    if p.admissionClasses.None? {
      return;
    }
    var classes := p.admissionClasses.value.classes;
    ghost var done: map<ClassId, ClassCapacity> := map[];
    var remaining := classes.Keys;
    SumZero(FreeTokenFloors(done));
    while remaining != {}
      invariant remaining <= classes.Keys
      invariant done == map id | id in classes && id !in remaining :: classes[id]
      invariant total == Sum(FreeTokenFloors(done))
      decreases |remaining|
    {
      var id :| id in remaining;
      SumInsert(FreeTokenFloors(done), id, classes[id].tokens.freeFloor);
      assert FreeTokenFloors(done[id := classes[id]]) == FreeTokenFloors(done)[id := classes[id].tokens.freeFloor];
      total := total + classes[id].tokens.freeFloor;
      done := done[id := classes[id]];
      remaining := remaining - {id};
    }
    assert done == classes;
  }

  /** The six headrooms; a constraint that does not apply has none. */
  datatype Headrooms = Headrooms(
    pool: int,
    poolTokens: Option<int>,
    cls: Option<int>,
    clsTokens: Option<int>,
    shared: Option<int>,
    sharedTokens: Option<int>)

  function HeadroomsOf(p: PoolCapacity, r: Request, unusedProtectedTokens: int): Headrooms {
    var available := AvailableTokens(p, r.priority);
    var state := ClassState(p, r);
    if state.None? then
      Headrooms(p.availableConcurrency - 1, Less(available, r.reserved), None, None, None, None)
    else
      var c := state.value;
      Headrooms(
        p.availableConcurrency - 1,
        Less(available, r.reserved),
        Less(c.slots.free, 1),
        Less(c.tokens.free, r.reserved),
        if p.admissionClasses.None? then None
        else Some(p.admissionClasses.value.shared.availableConcurrency - BorrowedSlots(c)),
        if available.None? then None else Some(Max(0, available.value - unusedProtectedTokens) - BorrowedTokens(c, r)))
  }

  predicate NotNegative(h: Option<int>) {
    h.Some? ==> h.value >= 0
  }

  predicate Admissible(p: PoolCapacity, r: Request, h: Headrooms) {
    && (SelectedClass(p, r).Some? ==> ClassState(p, r).Some?)
    && p.mode.Enforce? && !p.closed && p.availableConcurrency > 0
    && NotNegative(h.poolTokens) && NotNegative(h.cls) && NotNegative(h.clsTokens) && NotNegative(h.shared)
    && NotNegative(h.sharedTokens)
  }

  // ---------- The score ----------

  function Ratio(headroom: Option<int>, capacity: int): real {
    headroom.GetOr(0) as real / Max(1, capacity) as real
  }

  /** The smallest of the six ratios; a constraint that does not apply counts as 1. */
  function ScoreOf(p: PoolCapacity, r: Request, h: Headrooms): real {
    var state := ClassState(p, r);
    var pool := if p.maxConcurrent <= 0 then -1.0 else h.pool as real / p.maxConcurrent as real;
    var poolTokens := if p.tokenBudget.None? then 1.0 else Ratio(h.poolTokens, p.tokenBudget.value.budget);
    var cls := if state.None? || state.value.slots.max.None? then 1.0 else Ratio(h.cls, state.value.slots.max.value);
    var clsTokens :=
      if state.None? || state.value.tokens.max.None? then 1.0 else Ratio(h.clsTokens, state.value.tokens.max.value);
    var shared := if state.None? || p.admissionClasses.None? || BorrowedSlots(state.value) == 0 then 1.0
                  else Ratio(h.shared, p.admissionClasses.value.shared.maxConcurrent);
    var sharedTokens := if state.None? || p.admissionClasses.None? || BorrowedTokens(state.value, r) == 0 then 1.0
                        else Ratio(h.sharedTokens,
                                   if p.admissionClasses.value.shared.tokenBudget.None? then 1
                                   else p.admissionClasses.value.shared.tokenBudget.value.budget);
    MinReal(MinReal(MinReal(pool, poolTokens), MinReal(cls, clsTokens)), MinReal(shared, sharedTokens))
  }

  ghost function Scored(instanceId: string, local: bool, baseUrl: Option<string>, p: PoolCapacity,
                        r: Request): (c: Candidate)
    ensures c.instanceId == instanceId && c.local == local && c.baseUrl == baseUrl
  {
    var h := HeadroomsOf(p, r, UnusedProtectedTokens(p));
    var admissible := Admissible(p, r, h);
    Candidate(instanceId, local, baseUrl, p, admissible, h.pool, h.poolTokens, SelectedClass(p, r), h.cls, h.clsTokens,
              h.shared,
              h.sharedTokens, if admissible then ScoreOf(p, r, h) else -1.0)
  }

  method ScoreCapacityCandidate(instanceId: string, local: bool, baseUrl: Option<string>, p: PoolCapacity, r: Request)
    returns (c: Candidate)
    ensures c == Scored(instanceId, local, baseUrl, p, r)
  {
    var unused := SumUnusedProtectedTokens(p);
    var h := HeadroomsOf(p, r, unused);
    var admissible := Admissible(p, r, h);
    return Candidate(instanceId, local, baseUrl, p, admissible, h.pool, h.poolTokens, SelectedClass(p, r), h.cls,
                     h.clsTokens, h.shared,
                     h.sharedTokens, if admissible then ScoreOf(p, r, h) else -1.0);
  }

  ghost predicate Admits(p: PoolCapacity, r: Request) {
    Admissible(p, r, HeadroomsOf(p, r, UnusedProtectedTokens(p)))
  }

  /** The class the request is counted under: the one it names, or the pool's default. */
  predicate CountsUnder(p: PoolCapacity, r: Request, id: ClassId) {
    && p.admissionClasses.Some?
    && id in p.admissionClasses.value.classes
    && id == (if r.admissionClass.Some? then r.admissionClass.value else p.admissionClasses.value.defaultClass)
  }

  /** The class has room: under its ceilings, and in the shared pot for what its own floor does not cover. */
  ghost predicate ClassHasRoom(p: PoolCapacity, r: Request, id: ClassId)
    requires p.admissionClasses.Some? && id in p.admissionClasses.value.classes
  {
    var c, shared := p.admissionClasses.value.classes[id], p.admissionClasses.value.shared;
    && (c.slots.max.Some? ==> c.slots.used < c.slots.max.value)
    && (c.tokens.max.Some? && r.reserved > 0 ==> c.tokens.used + r.reserved <= c.tokens.max.value)
    && (c.slots.used >= c.slots.floor ==> shared.availableConcurrency >= 1)
    && (p.tokenBudget.Some? && r.reserved > Max(0, c.tokens.floor - c.tokens.used) ==>
          r.reserved - Max(0, c.tokens.floor - c.tokens.used) <=
            TokensPublished(p.tokenBudget.value, r.priority) - UnusedProtectedTokens(p))
  }

  function TokensPublished(b: BudgetCapacity, priority: Priority): int {
    match priority
    case NormalPriority => b.normalAvailable
    case HighPriority => b.highAvailable
  }

  /**
   * A consistent snapshot admits a request exactly when it is of an open pool that enforces its limits,
   * has a slot and the tokens for the request's priority, and has room in the request's class. A pool
   * with classes needs the class to be one of its own; one without needs none to be named.
   */
  lemma VerdictExactly(p: PoolCapacity, r: Request)
    requires CapacityOk(p)
    ensures Admits(p, r) <==>
              && p.mode.Enforce? && !p.closed && p.inFlight < p.maxConcurrent
              && (p.tokenBudget.Some? ==> r.reserved <= TokensPublished(p.tokenBudget.value, r.priority))
              && (if p.admissionClasses.None? then r.admissionClass.None?
                  else exists id <- p.admissionClasses.value.classes :: CountsUnder(p, r, id) && ClassHasRoom(p, r, id))
  {
    hide Admits, ClassHasRoom, TableFits, NumbersOk;
    if p.admissionClasses.None? {
      ClasslessVerdict(p, r);
    } else if id :| id in p.admissionClasses.value.classes && CountsUnder(p, r, id) {
      ClassVerdict(p, r, id);
    } else {
      hide CapacityOk;
      UnknownClassVerdict(p, r);
    }
  }

  lemma ClasslessVerdict(p: PoolCapacity, r: Request)
    requires CapacityOk(p) && p.admissionClasses.None?
    ensures Admits(p, r) <==>
              && p.mode.Enforce? && !p.closed && p.inFlight < p.maxConcurrent && r.admissionClass.None?
              && (p.tokenBudget.Some? ==> r.reserved <= TokensPublished(p.tokenBudget.value, r.priority))
  {
  }

  lemma UnknownClassVerdict(p: PoolCapacity, r: Request)
    requires p.admissionClasses.Some? && forall id <- p.admissionClasses.value.classes :: !CountsUnder(p, r, id)
    ensures !Admits(p, r)
  {
    hide UnusedProtectedTokens;
    var id := SelectedClass(p, r).value;
    assert id in p.admissionClasses.value.classes ==> CountsUnder(p, r, id);
  }

  lemma ClassVerdict(p: PoolCapacity, r: Request, id: ClassId)
    requires CapacityOk(p) && CountsUnder(p, r, id)
    ensures Admits(p, r) <==>
              && p.mode.Enforce? && !p.closed && p.inFlight < p.maxConcurrent
              && (p.tokenBudget.Some? ==> r.reserved <= TokensPublished(p.tokenBudget.value, r.priority))
              && ClassHasRoom(p, r, id)
  {
    hide TotalsOf, UnusedProtectedTokens, SharedPot;
    assert SharedSafe(p.admissionClasses.value.shared);
    hide SharedOk;
    assert ClassState(p, r) == Some(p.admissionClasses.value.classes[id]);
    assert ClassOk(p.admissionClasses.value.classes[id], p.tokenBudget.Some?);
    hide TableFits, ClassesOk;
  }

  lemma RatioSign(h: Option<int>, capacity: int)
    requires NotNegative(h)
    ensures Ratio(h, capacity) >= 0.0
  {
  }

  lemma FractionBelowOne(h: int, capacity: int)
    requires 0 <= h < capacity
    ensures 0.0 <= h as real / capacity as real < 1.0
  {
  }

  /** A candidate is admissible exactly when its score is not negative, and its score is always below 1. */
  lemma ScoreIsVerdict(instanceId: string, local: bool, baseUrl: Option<string>, p: PoolCapacity, r: Request)
    requires CapacityOk(p)
    ensures var c := Scored(instanceId, local, baseUrl, p, r);
            && (c.admissible <==> c.score >= 0.0)
            && (!c.admissible <==> c.score == -1.0)
            && c.score < 1.0
  {
    hide TableFits, BudgetCapacityOk, UnusedProtectedTokens, Ratio;
    var h := HeadroomsOf(p, r, UnusedProtectedTokens(p));
    if Admissible(p, r, h) {
      FractionBelowOne(h.pool, p.maxConcurrent);
      var state := ClassState(p, r);
      if p.tokenBudget.Some? {
        RatioSign(h.poolTokens, p.tokenBudget.value.budget);
      }
      if state.Some? {
        if state.value.slots.max.Some? {
          RatioSign(h.cls, state.value.slots.max.value);
        }
        if state.value.tokens.max.Some? {
          RatioSign(h.clsTokens, state.value.tokens.max.value);
        }
        RatioSign(h.shared, p.admissionClasses.value.shared.maxConcurrent);
        RatioSign(h.sharedTokens, 1);
        if p.admissionClasses.value.shared.tokenBudget.Some? {
          RatioSign(h.sharedTokens, p.admissionClasses.value.shared.tokenBudget.value.budget);
        }
      }
    }
  }

  // ---------- The score is the scarcest share ----------

  /** A score is no more than the share of the capacity that is left. */
  predicate WithinShare(score: real, left: Option<int>, capacity: int) {
    score <= Ratio(left, capacity)
  }

  /**
   * The score of an admissible candidate is at most the share left of each thing the request draws
   * on: the pool's slots and tokens, its class's ceilings, and the shared pot when it borrows.
   */
  lemma ScoreIsScarcestShare(instanceId: string, local: bool, baseUrl: Option<string>, p: PoolCapacity, r: Request)
    requires CapacityOk(p) && Admits(p, r)
    ensures var c := Scored(instanceId, local, baseUrl, p, r);
            && WithinShare(c.score, Some(p.availableConcurrency - 1), p.maxConcurrent)
            && (p.tokenBudget.Some? ==> WithinShare(c.score, c.tokenHeadroom, p.tokenBudget.value.budget))
    ensures var c, state := Scored(instanceId, local, baseUrl, p, r), ClassState(p, r);
            state.Some? ==>
              && (state.value.slots.max.Some? ==>
                    WithinShare(c.score, c.classConcurrencyHeadroom, state.value.slots.max.value))
              && (state.value.tokens.max.Some? ==>
                    WithinShare(c.score, c.classTokenHeadroom, state.value.tokens.max.value))
              && (BorrowedSlots(state.value) > 0 ==>
                    WithinShare(c.score, c.sharedConcurrencyHeadroom, p.admissionClasses.value.shared.maxConcurrent))
              && (BorrowedTokens(state.value, r) > 0 && p.tokenBudget.Some? ==>
                    && p.admissionClasses.value.shared.tokenBudget.Some?
                    && WithinShare(c.score, c.sharedTokenHeadroom,
                                   p.admissionClasses.value.shared.tokenBudget.value.budget))
  {
    hide TotalsOf, ClassesOk, UnusedProtectedTokens, BorrowedTokens, BorrowedSlots;
  }

  /** And it is exactly one of these shares. */
  lemma ScoreIsOneShare(instanceId: string, local: bool, baseUrl: Option<string>, p: PoolCapacity, r: Request)
    requires CapacityOk(p) && Admits(p, r)
    ensures var c, state := Scored(instanceId, local, baseUrl, p, r), ClassState(p, r);
            || c.score == Ratio(Some(p.availableConcurrency - 1), p.maxConcurrent)
            || (p.tokenBudget.Some? && c.score == Ratio(c.tokenHeadroom, p.tokenBudget.value.budget))
            || (&& state.Some?
                && (|| (state.value.slots.max.Some?
                        && c.score == Ratio(c.classConcurrencyHeadroom, state.value.slots.max.value))
                    || (state.value.tokens.max.Some?
                        && c.score == Ratio(c.classTokenHeadroom, state.value.tokens.max.value))
                    || (BorrowedSlots(state.value) > 0
                        && c.score == Ratio(c.sharedConcurrencyHeadroom, p.admissionClasses.value.shared.maxConcurrent))
                    || (BorrowedTokens(state.value, r) > 0
                        && c.score == Ratio(c.sharedTokenHeadroom,
                                            if p.admissionClasses.value.shared.tokenBudget.None? then 1
                                            else p.admissionClasses.value.shared.tokenBudget.value.budget))))
  {
    hide TableFits, BudgetCapacityOk, UnusedProtectedTokens, Ratio;
    var h := HeadroomsOf(p, r, UnusedProtectedTokens(p));
    FractionBelowOne(h.pool, p.maxConcurrent);
    assert Ratio(Some(h.pool), p.maxConcurrent) == h.pool as real / p.maxConcurrent as real by {
      PlainRatio(h.pool, p.maxConcurrent);
    }
  }

  lemma PlainRatio(h: int, capacity: int)
    requires capacity > 0
    ensures Ratio(Some(h), capacity) == h as real / capacity as real
  {
  }
}

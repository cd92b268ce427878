/**
 * Versioned admission limits, and the two functions that vet them:
 * `validateLimitSnapshot` (`src/pools.ts`) and `parseLimits` (`src/latchflo.ts`).
 */
module Limits {
  import opened Wrappers
  import opened Sums
  import opened AdmissionPolicy

  const MAX_SAFE_INTEGER: int := 9007199254740991

  type PoolId = string
  type ClassId = string

  datatype ClassLimits = ClassLimits(
    protectedConcurrent: Option<int>,
    maxConcurrent: Option<int>,
    protectedInFlightTokens: Option<int>,
    maxInFlightTokens: Option<int>)

  type ClassTable = map<ClassId, ClassLimits>

  datatype TokenBudget = TokenBudget(budget: int, highPriorityReserve: int)

  datatype AdmissionLimits = AdmissionLimits(
    revision: int,
    maxConcurrent: int,
    maxQueue: int,
    tokenBudget: Option<TokenBudget>,
    admissionClasses: Option<ClassTable>)

  /** A non-negative safe integer. */
  predicate SafeNat(n: int) {
    0 <= n <= MAX_SAFE_INTEGER
  }

  predicate OptionalSafeNat(n: Option<int>) {
    n.Some? ==> SafeNat(n.value)
  }

  // ---------- What well-formed limits are ----------

  ghost function ConcurrentFloors(t: ClassTable): map<ClassId, int> {
    map id <- t :: t[id].protectedConcurrent.GetOr(0)
  }

  ghost function TokenFloors(t: ClassTable): map<ClassId, int> {
    map id <- t :: t[id].protectedInFlightTokens.GetOr(0)
  }

  predicate ClassLimitsOk(c: ClassLimits, hasBudget: bool) {
    && OptionalSafeNat(c.protectedConcurrent)
    && OptionalSafeNat(c.maxConcurrent)
    && OptionalSafeNat(c.protectedInFlightTokens)
    && OptionalSafeNat(c.maxInFlightTokens)
    && (c.protectedConcurrent.Some? && c.maxConcurrent.Some? ==>
          c.protectedConcurrent.value <= c.maxConcurrent.value)
    && (c.protectedInFlightTokens.Some? && c.maxInFlightTokens.Some? ==>
          c.protectedInFlightTokens.value <= c.maxInFlightTokens.value)
    && (c.protectedInFlightTokens.Some? || c.maxInFlightTokens.Some? ==> hasBudget)
  }

  /** The floors of a class table fit inside the pool's envelope. */
  ghost predicate FloorsFit(t: ClassTable, maxConcurrent: int, budget: Option<TokenBudget>) {
    && Sum(ConcurrentFloors(t)) <= maxConcurrent
    && (budget.Some? ==> Sum(TokenFloors(t)) <= budget.value.budget)
  }

  ghost predicate TableOk(t: ClassTable, maxConcurrent: int, budget: Option<TokenBudget>) {
    && (forall id <- t :: ClassLimitsOk(t[id], budget.Some?))
    && FloorsFit(t, maxConcurrent, budget)
  }

  predicate BudgetOk(b: TokenBudget) {
    SafeNat(b.budget) && SafeNat(b.highPriorityReserve) && b.highPriorityReserve <= b.budget
  }

  ghost predicate WellFormed(l: AdmissionLimits) {
    && SafeNat(l.revision)
    && SafeNat(l.maxConcurrent)
    && SafeNat(l.maxQueue)
    && (l.tokenBudget.Some? ==> BudgetOk(l.tokenBudget.value))
    && (l.admissionClasses.Some? ==> TableOk(l.admissionClasses.value, l.maxConcurrent, l.tokenBudget))
  }

  /** Same token-budget presence, same class-table presence, same class keys. */
  predicate SameShape(a: AdmissionLimits, b: AdmissionLimits) {
    && a.tokenBudget.Some? == b.tokenBudget.Some?
    && a.admissionClasses.Some? == b.admissionClasses.Some?
    && (a.admissionClasses.Some? ==> a.admissionClasses.value.Keys == b.admissionClasses.value.Keys)
  }

  ghost predicate Acceptable(current: AdmissionLimits, next: AdmissionLimits) {
    WellFormed(next) && SameShape(current, next)
  }

  // ---------- The loops that decide it ----------

  lemma FloorsInsert(t: ClassTable, id: ClassId, c: ClassLimits)
    requires id !in t
    ensures Sum(ConcurrentFloors(t[id := c])) == Sum(ConcurrentFloors(t)) + c.protectedConcurrent.GetOr(0)
    ensures Sum(TokenFloors(t[id := c])) == Sum(TokenFloors(t)) + c.protectedInFlightTokens.GetOr(0)
  {
    SumInsert(ConcurrentFloors(t), id, c.protectedConcurrent.GetOr(0));
    SumInsert(TokenFloors(t), id, c.protectedInFlightTokens.GetOr(0));
    assert ConcurrentFloors(t[id := c]) == ConcurrentFloors(t)[id := c.protectedConcurrent.GetOr(0)];
    assert TokenFloors(t[id := c]) == TokenFloors(t)[id := c.protectedInFlightTokens.GetOr(0)];
  }

  lemma NoFloors()
    ensures Sum(ConcurrentFloors(map[])) == Sum(TokenFloors(map[])) == 0
  {
    SumZero(ConcurrentFloors(map[]));
    SumZero(TokenFloors(map[]));
  }

  /**
   * The loop both functions run over a class table: every class is checked, its
   * two floors are added to running totals, and the totals are compared last.
   */
  method CheckClassTable(t: ClassTable, maxConcurrent: int, budget: Option<TokenBudget>) returns (ok: bool)
    ensures ok <==> TableOk(t, maxConcurrent, budget)
  {
    hide ClassLimitsOk, ConcurrentFloors, TokenFloors, Sum;
    NoFloors();
    var protectedConcurrentTotal, protectedInFlightTokensTotal := 0, 0;
    var remaining := t.Keys;
    ghost var done: ClassTable := map[];
    while remaining != {}
      invariant remaining <= t.Keys
      invariant done == map id | id in t && id !in remaining :: t[id]
      invariant forall id <- done :: ClassLimitsOk(t[id], budget.Some?)
      invariant protectedConcurrentTotal == Sum(ConcurrentFloors(done))
      invariant protectedInFlightTokensTotal == Sum(TokenFloors(done))
      decreases |remaining|
    {
      var id :| id in remaining;
      var c := t[id];
      if !ClassLimitsOk(c, budget.Some?) {
        return false;
      }
      FloorsInsert(done, id, c);
      protectedConcurrentTotal := protectedConcurrentTotal + c.protectedConcurrent.GetOr(0);
      protectedInFlightTokensTotal := protectedInFlightTokensTotal + c.protectedInFlightTokens.GetOr(0);
      done := done[id := c];
      remaining := remaining - {id};
    }
    assert done == t;
    if protectedConcurrentTotal > maxConcurrent {
      return false;
    }
    return budget.None? || protectedInFlightTokensTotal <= budget.value.budget;
  }

  /** `validateLimitSnapshot`: the normalised snapshot, or `None` where the source throws. */
  method ValidateLimitSnapshot(current: AdmissionLimits, next: AdmissionLimits) returns (r: Option<AdmissionLimits>)
    ensures r == if Acceptable(current, next) then Some(next) else None
  {
    if !SafeNat(next.revision) || !SafeNat(next.maxConcurrent) || !SafeNat(next.maxQueue) {
      return None;
    }
    if current.tokenBudget.Some? {
      if next.tokenBudget.None? || !BudgetOk(next.tokenBudget.value) {
        return None;
      }
    } else if next.tokenBudget.Some? {
      return None;
    }
    if current.admissionClasses.Some? {
      if next.admissionClasses.None? {
        return None;
      }
      if current.admissionClasses.value.Keys != next.admissionClasses.value.Keys {
        return None;
      }
      var ok := CheckClassTable(next.admissionClasses.value, next.maxConcurrent, next.tokenBudget);
      if !ok {
        return None;
      }
    } else if next.admissionClasses.Some? {
      return None;
    }
    return Some(next);
  }

  /** What `parseLimits` lets through: well-formed limits with 1 to 64 classes, if any. */
  ghost predicate ParsedLimits(l: AdmissionLimits) {
    && WellFormed(l)
    && (l.admissionClasses.Some? ==> 1 <= |l.admissionClasses.value| <= MAX_ADMISSION_CLASSES)
  }

  method ParseLimits(l: AdmissionLimits) returns (ok: bool)
    ensures ok <==> ParsedLimits(l)
  {
    if !SafeNat(l.revision) || !SafeNat(l.maxConcurrent) || !SafeNat(l.maxQueue) {
      return false;
    }
    if l.tokenBudget.Some? && !BudgetOk(l.tokenBudget.value) {
      return false;
    }
    if l.admissionClasses.None? {
      return true;
    }
    var t := l.admissionClasses.value;
    if |t| == 0 || |t| > MAX_ADMISSION_CLASSES {
      return false;
    }
    ok := CheckClassTable(t, l.maxConcurrent, l.tokenBudget);
  }

  // ---------- Failing closed ----------

  /** `failClosedAdmissionClasses`: floors drop to zero, ceilings stay, absent fields stay absent. */
  function FailClosedClasses(t: ClassTable): (closed: ClassTable)
    ensures closed.Keys == t.Keys
    ensures forall id <- t :: closed[id].maxConcurrent == t[id].maxConcurrent
                           && closed[id].maxInFlightTokens == t[id].maxInFlightTokens
  {
    map id <- t :: ClassLimits(
      if t[id].protectedConcurrent.None? then None else Some(0),
      t[id].maxConcurrent,
      if t[id].protectedInFlightTokens.None? then None else Some(0),
      t[id].maxInFlightTokens)
  }

  /** The snapshot the expiration kill switch writes over `live`. */
  function Closed(live: AdmissionLimits, revision: int, hasBudget: bool): AdmissionLimits {
    AdmissionLimits(
      revision, 0, 0,
      if hasBudget then Some(TokenBudget(0, 0)) else None,
      if live.admissionClasses.None? then None else Some(FailClosedClasses(live.admissionClasses.value)))
  }

  /** No capacity, no queue, no budget and no floor is left. */
  ghost predicate HoldsNothing(l: AdmissionLimits) {
    && l.maxConcurrent == 0
    && l.maxQueue == 0
    && (l.tokenBudget.Some? ==> l.tokenBudget.value == TokenBudget(0, 0))
    && (l.admissionClasses.Some? ==>
          forall id <- l.admissionClasses.value ::
            && l.admissionClasses.value[id].protectedConcurrent.GetOr(0) == 0
            && l.admissionClasses.value[id].protectedInFlightTokens.GetOr(0) == 0)
  }

  lemma ClosedFloors(t: ClassTable)
    ensures Sum(ConcurrentFloors(FailClosedClasses(t))) == 0 && Sum(TokenFloors(FailClosedClasses(t))) == 0
  {
    SumZero(ConcurrentFloors(FailClosedClasses(t)));
    SumZero(TokenFloors(FailClosedClasses(t)));
  }

  lemma ClosedTableOk(t: ClassTable, hasBudget: bool)
    requires forall id <- t :: ClassLimitsOk(t[id], hasBudget)
    ensures TableOk(FailClosedClasses(t), 0, if hasBudget then Some(TokenBudget(0, 0)) else None)
  {
    hide Sum, ConcurrentFloors, TokenFloors;
    ClosedFloors(t);
    forall id <- FailClosedClasses(t)
      ensures ClassLimitsOk(FailClosedClasses(t)[id], hasBudget)
    {
      assert ClassLimitsOk(t[id], hasBudget);
    }
    hide FailClosedClasses, ClassLimitsOk;
  }

  /**
   * The closed snapshot passes `validateLimitSnapshot` exactly when its revision is a safe
   * integer and it agrees with the pool about having a token budget.
   */
  lemma ClosedAcceptable(live: AdmissionLimits, revision: int, hasBudget: bool)
    requires WellFormed(live) && 0 <= revision
    ensures Acceptable(live, Closed(live, revision, hasBudget)) <==>
              revision <= MAX_SAFE_INTEGER && hasBudget == live.tokenBudget.Some?
  {
    if live.admissionClasses.Some? && hasBudget == live.tokenBudget.Some? {
      ClosedTableOk(live.admissionClasses.value, hasBudget);
    }
  }

  lemma ClosedHoldsNothing(live: AdmissionLimits, revision: int, hasBudget: bool)
    ensures HoldsNothing(Closed(live, revision, hasBudget))
  {
  }

  /** Closing touches floors alone: every class keeps its ceilings, and has the floors it had, at zero. */
  lemma ClosedKeepsCeilings(live: AdmissionLimits, revision: int, hasBudget: bool, id: ClassId)
    requires live.admissionClasses.Some? && id in live.admissionClasses.value
    ensures var closed := Closed(live, revision, hasBudget);
            && closed.revision == revision && closed.tokenBudget.Some? == hasBudget
            && closed.admissionClasses.Some? && id in closed.admissionClasses.value
            && var was, now := live.admissionClasses.value[id], closed.admissionClasses.value[id];
               && now.maxConcurrent == was.maxConcurrent && now.maxInFlightTokens == was.maxInFlightTokens
               && now.protectedConcurrent.Some? == was.protectedConcurrent.Some?
               && now.protectedInFlightTokens.Some? == was.protectedInFlightTokens.Some?
  {
  }

  lemma ShapeTransitive(a: AdmissionLimits, b: AdmissionLimits, c: AdmissionLimits)
    requires SameShape(a, b) && SameShape(b, c)
    ensures SameShape(a, c)
  {
  }

  // ---------- What well-formed limits promise ----------

  /** Absent, or a whole number that JavaScript represents exactly. */
  predicate Countable(n: Option<int>) {
    n.None? || (0 <= n.value && n.value <= 9007199254740991)
  }

  /** The class's floor is one it may use: no higher than its ceiling, and of tokens only if there is a budget. */
  predicate FloorsUsable(c: ClassLimits, hasBudget: bool) {
    && Countable(c.protectedConcurrent) && Countable(c.maxConcurrent)
    && Countable(c.protectedInFlightTokens) && Countable(c.maxInFlightTokens)
    && (c.maxConcurrent.Some? ==> c.protectedConcurrent.GetOr(0) <= c.maxConcurrent.value)
    && (c.maxInFlightTokens.Some? ==> c.protectedInFlightTokens.GetOr(0) <= c.maxInFlightTokens.value)
    && (!hasBudget ==> c.protectedInFlightTokens.None? && c.maxInFlightTokens.None?)
  }

  /**
   * Limits are well formed exactly when their numbers are countable, the reserve is part of the budget,
   * and all classes may use their floors at once: each within its own ceilings, and together within the
   * slots and the budget.
   */
  lemma WellFormedExactly(l: AdmissionLimits)
    ensures WellFormed(l) <==>
              && Countable(Some(l.revision)) && Countable(Some(l.maxConcurrent)) && Countable(Some(l.maxQueue))
              && (l.tokenBudget.Some? ==>
                    && Countable(Some(l.tokenBudget.value.budget))
                    && 0 <= l.tokenBudget.value.highPriorityReserve <= l.tokenBudget.value.budget)
              && (l.admissionClasses.Some? ==>
                    var t := l.admissionClasses.value;
                    && (forall id <- t :: FloorsUsable(t[id], l.tokenBudget.Some?))
                    && Sum(map id <- t :: t[id].protectedConcurrent.GetOr(0)) <= l.maxConcurrent
                    && (l.tokenBudget.Some? ==>
                          Sum(map id <- t :: t[id].protectedInFlightTokens.GetOr(0)) <= l.tokenBudget.value.budget))
  {
    hide Sum;
    if l.admissionClasses.Some? {
      var t := l.admissionClasses.value;
      assert ConcurrentFloors(t) == map id <- t :: t[id].protectedConcurrent.GetOr(0);
      assert TokenFloors(t) == map id <- t :: t[id].protectedInFlightTokens.GetOr(0);
      forall id <- t
        ensures ClassLimitsOk(t[id], l.tokenBudget.Some?) <==> FloorsUsable(t[id], l.tokenBudget.Some?)
      {
        UsableFloors(t[id], l.tokenBudget.Some?);
      }
    }
  }

  lemma UsableFloors(c: ClassLimits, hasBudget: bool)
    ensures ClassLimitsOk(c, hasBudget) <==> FloorsUsable(c, hasBudget)
  {
  }
}

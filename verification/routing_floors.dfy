/**
 * What the scorer's verdict protects, over any sequence of admissions and releases: the floors of
 * the other classes, the pool's envelope, and the class ceilings.
 */
module RoutingFloors {
  import opened Wrappers
  import opened Text
  import opened AdmissionPolicy
  import opened Limits
  import opened Stats
  import opened Sums
  import opened RoutingCapacity
  import opened RoutingBuilder
  import opened RoutingScore

  /** What one class holds or is owed: the larger of its use and its floor. */
  ghost function SlotClaims(cs: map<ClassId, ClassStats>): map<ClassId, int> {
    map id <- cs :: Max(cs[id].inFlight, cs[id].limits.protectedConcurrent.GetOr(0))
  }

  ghost function TokenClaims(cs: map<ClassId, ClassStats>): map<ClassId, int> {
    map id <- cs :: Max(cs[id].inFlightTokens, cs[id].limits.protectedInFlightTokens.GetOr(0))
  }

  // ---------- Claims, and what the snapshot says of them ----------

  /** Claims are the floors and what is borrowed beyond them. */
  lemma SlotClaimsSum(cs: map<ClassId, ClassStats>, hasBudget: bool)
    requires forall id <- cs :: ClassAccounted(cs[id], hasBudget)
    ensures Sum(SlotClaims(cs)) ==
              Sum(ConcurrentFloors(Tables(cs))) + Sum(SlotsInUse(cs)) - Sum(ProtectedSlotsInUse(cs))
  {
    hide Sum;
    var claimed := map id <- cs :: SlotClaims(cs)[id] + cs[id].protectedConcurrentInUse;
    SumAdd(SlotClaims(cs), ProtectedSlotsInUse(cs), claimed);
    SumAdd(ConcurrentFloors(Tables(cs)), SlotsInUse(cs), claimed);
  }

  ghost function FreeFloors(cs: map<ClassId, ClassStats>): map<ClassId, int> {
    map id <- cs :: Max(0, cs[id].limits.protectedInFlightTokens.GetOr(0) - cs[id].inFlightTokens)
  }

  /** Claims are what is in use and the floors not yet used. */
  lemma TokenClaimsSum(cs: map<ClassId, ClassStats>)
    ensures Sum(TokenClaims(cs)) == Sum(TokensInUse(cs)) + Sum(FreeFloors(cs))
  {
    hide Sum;
    SumAdd(TokensInUse(cs), FreeFloors(cs), TokenClaims(cs));
  }

  lemma PublishedFreeFloors(cs: map<ClassId, ClassStats>)
    ensures FreeTokenFloors(BuiltClasses(cs)) == FreeFloors(cs)
  {
  }

  // ---------- One admission ----------

  ghost predicate Classed(s: PoolStats) {
    Accounted(s) && s.admissionClasses.Some?
  }

  ghost function ClassesIn(s: PoolStats): map<ClassId, ClassStats>
    requires s.admissionClasses.Some?
  {
    s.admissionClasses.value.classes
  }

  /** A request the class's own floor covers leaves the claims alone; one it does not cover fits in the shared pot. */
  lemma SlotsFit(s: PoolStats, r: Request, id: ClassId)
    requires Classed(s) && Admits(Built(s), r) && SelectedClass(Built(s), r) == Some(id)
    ensures id in ClassesIn(s)
    ensures ClassesIn(s)[id].inFlight < ClassesIn(s)[id].limits.protectedConcurrent.GetOr(0)
            || Sum(SlotClaims(ClassesIn(s))) + 1 <= s.limits.maxConcurrent
  {
    hide Sum, WellFormed, ConcurrentFloors, TokenFloors, SlotClaims, Tables, SlotsInUse, TokensInUse,
         ProtectedSlotsInUse, ProtectedTokensInUse;
    SlotClaimsSum(ClassesIn(s), s.tokenBudget.Some?);
  }

  lemma TokensFit(s: PoolStats, r: Request, id: ClassId)
    requires Classed(s) && s.tokenBudget.Some? && Admits(Built(s), r) && SelectedClass(Built(s), r) == Some(id)
    ensures id in ClassesIn(s)
    ensures var c := ClassesIn(s)[id];
            var beyond := Max(0, r.reserved - Max(0, c.limits.protectedInFlightTokens.GetOr(0) - c.inFlightTokens));
            beyond == 0 || Sum(TokenClaims(ClassesIn(s))) + beyond <= s.tokenBudget.value.budget
  {
    hide Sum, WellFormed, ConcurrentFloors, TokenFloors, TokenClaims, Tables, SlotsInUse, TokensInUse,
         ProtectedSlotsInUse, ProtectedTokensInUse, FreeFloors, FreeTokenFloors;
    TokenClaimsSum(ClassesIn(s));
    PublishedFreeFloors(ClassesIn(s));
  }

  // ---------- Runs ----------

  /** The same pool under the same limits. */
  ghost predicate SamePool(s: PoolStats, t: PoolStats) {
    Classed(s) && Classed(t) && s.limits == t.limits
  }

  /** A request that the scorer calls admissible has been admitted. */
  ghost predicate AdmittedInto(s: PoolStats, t: PoolStats, r: Request, id: ClassId) {
    && SamePool(s, t)
    && Admits(Built(s), r)
    && SelectedClass(Built(s), r) == Some(id)
    && id in ClassesIn(s)
    && SlotsInUse(ClassesIn(t)) == SlotsInUse(ClassesIn(s))[id := ClassesIn(s)[id].inFlight + 1]
    && TokensInUse(ClassesIn(t)) == TokensInUse(ClassesIn(s))[id := ClassesIn(s)[id].inFlightTokens + r.reserved]
  }

  /** Work has ended, or holds have shrunk. */
  ghost predicate Released(s: PoolStats, t: PoolStats) {
    && SamePool(s, t)
    && ClassesIn(s).Keys == ClassesIn(t).Keys
    && forall id <- ClassesIn(s) ::
         ClassesIn(t)[id].inFlight <= ClassesIn(s)[id].inFlight
         && ClassesIn(t)[id].inFlightTokens <= ClassesIn(s)[id].inFlightTokens
  }

  ghost predicate Step(s: PoolStats, t: PoolStats) {
    Released(s, t) || exists r: Request, id: ClassId :: AdmittedInto(s, t, r, id)
  }

  ghost predicate Run(states: seq<PoolStats>) {
    && (forall i | 0 <= i < |states| :: Classed(states[i]))
    && (forall i | 0 < i < |states| :: Step(states[i - 1], states[i]))
  }

  /** The table, class by class, is that of the limits. */
  lemma SameTables(s: PoolStats, t: PoolStats)
    requires SamePool(s, t)
    ensures ClassesIn(s).Keys == ClassesIn(t).Keys
    ensures forall id <- ClassesIn(s) :: ClassesIn(s)[id].limits == ClassesIn(t)[id].limits
  {
    hide Sum, WellFormed, ClassAccounted, SharedAccounted, Tables;
    SameLimits(ClassesIn(s), ClassesIn(t));
  }

  lemma SameLimits(a: map<ClassId, ClassStats>, b: map<ClassId, ClassStats>)
    requires Tables(a) == Tables(b)
    ensures a.Keys == b.Keys
    ensures forall id <- a :: a[id].limits == b[id].limits
  {
    assert Tables(a).Keys == a.Keys && Tables(b).Keys == b.Keys;
    forall id <- a
      ensures a[id].limits == b[id].limits
    {
      assert Tables(a)[id] == Tables(b)[id];
    }
  }

  lemma SlotsAfter(s: PoolStats, t: PoolStats, r: Request, id: ClassId)
    requires AdmittedInto(s, t, r, id)
    ensures Sum(SlotClaims(ClassesIn(t))) <= Max(Sum(SlotClaims(ClassesIn(s))), s.limits.maxConcurrent)
  {
    hide Sum, Accounted, Admits, Built, SelectedClass, SlotClaims;
    SlotsFit(s, r, id);
    SameTables(s, t);
    ClaimsAfter(ClassesIn(s), ClassesIn(t), id, ClassesIn(s)[id].inFlight + 1,
                ClassesIn(s)[id].inFlightTokens + r.reserved);
  }

  lemma TokensAfter(s: PoolStats, t: PoolStats, r: Request, id: ClassId)
    requires AdmittedInto(s, t, r, id) && s.tokenBudget.Some?
    ensures Sum(TokenClaims(ClassesIn(t))) <= Max(Sum(TokenClaims(ClassesIn(s))), s.tokenBudget.value.budget)
  {
    hide Sum, Accounted, Admits, Built, SelectedClass, TokenClaims;
    TokensFit(s, r, id);
    SameTables(s, t);
    ClaimsAfter(ClassesIn(s), ClassesIn(t), id, ClassesIn(s)[id].inFlight + 1,
                ClassesIn(s)[id].inFlightTokens + r.reserved);
  }

  /** Only the admitted class's claims change. */
  lemma ClaimsAfter(was: map<ClassId, ClassStats>, now: map<ClassId, ClassStats>, id: ClassId, slots: int, tokens: int)
    requires id in was && now.Keys == was.Keys && forall k <- was :: was[k].limits == now[k].limits
    requires SlotsInUse(now) == SlotsInUse(was)[id := slots] && TokensInUse(now) == TokensInUse(was)[id := tokens]
    ensures var floor := was[id].limits.protectedConcurrent.GetOr(0);
            Sum(SlotClaims(now)) == Sum(SlotClaims(was)) - Max(was[id].inFlight, floor) + Max(slots, floor)
    ensures var floor := was[id].limits.protectedInFlightTokens.GetOr(0);
            Sum(TokenClaims(now)) == Sum(TokenClaims(was)) - Max(was[id].inFlightTokens, floor) + Max(tokens, floor)
  {
    hide Sum, SlotsInUse, TokensInUse, Max;
    UsesAfter(was, now, id, slots, tokens);
    var slotClaim := Max(slots, was[id].limits.protectedConcurrent.GetOr(0));
    assert SlotClaims(now) == SlotClaims(was)[id := slotClaim];
    SumUpdate(SlotClaims(was), id, slotClaim);
    var tokenClaim := Max(tokens, was[id].limits.protectedInFlightTokens.GetOr(0));
    assert TokenClaims(now) == TokenClaims(was)[id := tokenClaim];
    SumUpdate(TokenClaims(was), id, tokenClaim);
  }

  lemma UsesAfter(was: map<ClassId, ClassStats>, now: map<ClassId, ClassStats>, id: ClassId, slots: int, tokens: int)
    requires id in was && now.Keys == was.Keys
    requires SlotsInUse(now) == SlotsInUse(was)[id := slots] && TokensInUse(now) == TokensInUse(was)[id := tokens]
    ensures now[id].inFlight == slots && now[id].inFlightTokens == tokens
    ensures forall k <- was | k != id ::
              now[k].inFlight == was[k].inFlight && now[k].inFlightTokens == was[k].inFlightTokens
  {
    assert SlotsInUse(now)[id] == slots && TokensInUse(now)[id] == tokens;
    forall k <- was | k != id
      ensures now[k].inFlight == was[k].inFlight && now[k].inFlightTokens == was[k].inFlightTokens
    {
      assert SlotsInUse(now)[k] == SlotsInUse(was)[k] && TokensInUse(now)[k] == TokensInUse(was)[k];
    }
  }

  lemma ReleaseLowers(s: PoolStats, t: PoolStats)
    requires Released(s, t)
    ensures Sum(SlotClaims(ClassesIn(t))) <= Sum(SlotClaims(ClassesIn(s)))
    ensures Sum(TokenClaims(ClassesIn(t))) <= Sum(TokenClaims(ClassesIn(s)))
  {
    hide Sum, Accounted;
    SameTables(s, t);
    SumLe(SlotClaims(ClassesIn(t)), SlotClaims(ClassesIn(s)));
    SumLe(TokenClaims(ClassesIn(t)), TokenClaims(ClassesIn(s)));
  }

  /** The budget is the one in the limits. */
  ghost function Budget(s: PoolStats): int
    requires Classed(s) && s.tokenBudget.Some?
  {
    s.limits.tokenBudget.value.budget
  }

  lemma StepProtects(s: PoolStats, t: PoolStats)
    requires Step(s, t)
    ensures SamePool(s, t)
    ensures Sum(SlotClaims(ClassesIn(t))) <= Max(Sum(SlotClaims(ClassesIn(s))), s.limits.maxConcurrent)
    ensures s.tokenBudget.Some? == t.tokenBudget.Some?
    ensures s.tokenBudget.Some? ==>
              Sum(TokenClaims(ClassesIn(t))) <= Max(Sum(TokenClaims(ClassesIn(s))), Budget(s))
  {
    hide Sum, SlotClaims, TokenClaims, WellFormed, ClassesAccounted, Admits, SelectedClass, Built;
    if Released(s, t) {
      ReleaseLowers(s, t);
    } else {
      var r: Request, id: ClassId :| AdmittedInto(s, t, r, id);
      SlotsAfter(s, t, r, id);
      if s.tokenBudget.Some? {
        TokensAfter(s, t, r, id);
      }
    }
  }

  /**
   * Over any sequence of admissions and releases, the slots and tokens in use or owed to floors
   * never pass the larger of what they were at the start and the pool's capacity.
   */
  lemma {:induction false} FloorsProtected(states: seq<PoolStats>)
    requires Run(states) && states != []
    ensures var first, last := states[0], states[|states| - 1];
            && SamePool(first, last)
            && Sum(SlotClaims(ClassesIn(last))) <= Max(Sum(SlotClaims(ClassesIn(first))), first.limits.maxConcurrent)
            && first.tokenBudget.Some? == last.tokenBudget.Some?
            && (first.tokenBudget.Some? ==>
                  Sum(TokenClaims(ClassesIn(last))) <= Max(Sum(TokenClaims(ClassesIn(first))), Budget(first)))
    decreases |states|
  {
    hide Sum, SlotClaims, TokenClaims, Accounted, Step;
    if |states| > 1 {
      var n := |states| - 1;
      FloorsProtected(states[..n]);
      StepProtects(states[n - 1], states[n]);
      assert states[..n][n - 1] == states[n - 1];
    }
  }

  // ---------- What the protection is worth ----------

  /** The floors of every class can still be honoured. */
  ghost predicate Honoured(s: PoolStats)
    requires s.admissionClasses.Some?
  {
    && Sum(SlotClaims(ClassesIn(s))) <= s.limits.maxConcurrent
    && (s.tokenBudget.Some? ==> Sum(TokenClaims(ClassesIn(s))) <= s.tokenBudget.value.budget)
  }

  /** An idle pool honours its floors. */
  lemma IdleIsHonoured(s: PoolStats)
    requires Classed(s)
    requires forall id <- ClassesIn(s) :: ClassesIn(s)[id].inFlight == 0 && ClassesIn(s)[id].inFlightTokens == 0
    ensures Honoured(s)
  {
    hide Sum, SharedAccounted, ClassAccounted, SlotClaims, TokenClaims, ConcurrentFloors, TokenFloors, BudgetOk;
    IdleClaims(ClassesIn(s), s.tokenBudget.Some?);
    assert TableOk(Tables(ClassesIn(s)), s.limits.maxConcurrent, s.limits.tokenBudget);
  }

  lemma IdleClaims(cs: map<ClassId, ClassStats>, hasBudget: bool)
    requires forall id <- cs :: ClassAccounted(cs[id], hasBudget) && cs[id].inFlight == 0 && cs[id].inFlightTokens == 0
    ensures SlotClaims(cs) == ConcurrentFloors(Tables(cs)) && TokenClaims(cs) == TokenFloors(Tables(cs))
  {
    forall id <- cs
      ensures SlotClaims(cs)[id] == ConcurrentFloors(Tables(cs))[id]
              && TokenClaims(cs)[id] == TokenFloors(Tables(cs))[id]
    {
      assert ClassAccounted(cs[id], hasBudget);
    }
  }

  /** The room left for one class's claim. */
  lemma OneBelowSum(cs: map<ClassId, ClassStats>, id: ClassId)
    requires id in cs
    ensures Sum(SlotsInUse(cs)) - cs[id].inFlight <= Sum(SlotClaims(cs)) - SlotClaims(cs)[id]
    ensures Sum(TokensInUse(cs)) - cs[id].inFlightTokens <= Sum(TokenClaims(cs)) - TokenClaims(cs)[id]
  {
    hide Sum;
    SumRemove(SlotsInUse(cs), id);
    SumRemove(SlotClaims(cs), id);
    SumLe(SlotsInUse(cs) - {id}, SlotClaims(cs) - {id});
    SumRemove(TokensInUse(cs), id);
    SumRemove(TokenClaims(cs), id);
    SumLe(TokensInUse(cs) - {id}, TokenClaims(cs) - {id});
  }

  /** The class is below its floors, by at least one slot and by the tokens reserved. */
  ghost predicate FloorUnused(s: PoolStats, r: Request, id: ClassId) {
    && s.admissionClasses.Some? && id in ClassesIn(s)
    && ClassesIn(s)[id].inFlight < ClassesIn(s)[id].limits.protectedConcurrent.GetOr(0)
    && ClassesIn(s)[id].inFlightTokens + r.reserved <= ClassesIn(s)[id].limits.protectedInFlightTokens.GetOr(0)
  }

  lemma RoomForFloor(s: PoolStats, r: Request, id: ClassId)
    requires Classed(s) && Honoured(s) && FloorUnused(s, r, id)
    ensures s.inFlight < s.limits.maxConcurrent
    ensures s.tokenBudget.Some? ==> s.tokenBudget.value.inFlightTokens + r.reserved <= s.tokenBudget.value.budget
  {
    hide Sum, WellFormed, Tables, SlotsInUse, TokensInUse, SharedAccounted, ClassAccounted;
    OneBelowSum(ClassesIn(s), id);
  }

  /** A published class that needs nothing from the shared pot is admissible exactly when the pool has the tokens. */
  lemma NothingBorrowed(p: PoolCapacity, r: Request, c: ClassCapacity)
    requires p.mode.Enforce? && !p.closed && p.availableConcurrency > 0 && p.admissionClasses.Some?
    requires ClassState(p, r) == Some(c) && BorrowedSlots(c) == 0 && BorrowedTokens(c, r) == 0
    requires p.admissionClasses.value.shared.availableConcurrency >= 0
    requires NotNegative(Less(c.slots.free, 1)) && NotNegative(Less(c.tokens.free, r.reserved))
    ensures Admits(p, r) <==> NotNegative(Less(AvailableTokens(p, r.priority), r.reserved))
  {
    hide UnusedProtectedTokens, BorrowedSlots, BorrowedTokens, ClassState;
  }

  /** The reserve that is kept from normal requests leaves enough for this one. */
  predicate ReserveAllows(s: PoolStats, r: Request) {
    s.tokenBudget.Some? && r.priority.NormalPriority? ==> r.reserved <= Max(0, s.tokenBudget.value.available)
  }

  /**
   * In a pool that honours its floors, a request within its class's unused floor is admissible: always
   * at high priority, and at normal priority exactly when the high-priority reserve allows it.
   */
  lemma FloorIsUsable(s: PoolStats, r: Request, id: ClassId)
    requires Classed(s) && Honoured(s) && s.mode.Enforce? && !s.closed
    requires SelectedClass(Built(s), r) == Some(id) && FloorUnused(s, r, id)
    ensures Admits(Built(s), r) <==> ReserveAllows(s, r)
  {
    hide Accounted, Honoured, Admits, BuiltClass, BorrowedSlots, BorrowedTokens, SelectedClass;
    RoomForFloor(s, r, id);
    SharedNotNegative(s);
    ClassRoom(s, r, id);
    hide FloorUnused;
    NothingBorrowed(Built(s), r, BuiltClass(ClassesIn(s)[id]));
  }

  /** Its ceilings leave the class at least what its floors do. */
  lemma ClassRoom(s: PoolStats, r: Request, id: ClassId)
    requires Classed(s) && FloorUnused(s, r, id)
    ensures var c := BuiltClass(ClassesIn(s)[id]);
            && BorrowedSlots(c) == 0 && BorrowedTokens(c, r) == 0
            && (c.slots.free.Some? ==> c.slots.free.value >= 1)
            && (c.tokens.free.Some? ==> c.tokens.free.value >= r.reserved)
  {
    hide WellFormed, SharedAccounted, Sum, Tables;
    assert ClassAccounted(ClassesIn(s)[id], s.tokenBudget.Some?);
  }

  lemma SharedNotNegative(s: PoolStats)
    requires Classed(s)
    ensures s.admissionClasses.value.shared.availableConcurrent >= 0
  {
    hide Sum, WellFormed, Tables, SlotsInUse, TokensInUse, ProtectedSlotsInUse, ProtectedTokensInUse,
         ConcurrentFloors, TokenFloors;
  }

  /** From an idle start, a class's unused floor is always there for it, as far as the reserve allows. */
  lemma FloorsAreGuaranteed(states: seq<PoolStats>, r: Request, id: ClassId)
    requires Run(states) && states != []
    requires forall k <- ClassesIn(states[0]) ::
               ClassesIn(states[0])[k].inFlight == 0 && ClassesIn(states[0])[k].inFlightTokens == 0
    requires var last := states[|states| - 1];
             && last.mode.Enforce? && !last.closed
             && SelectedClass(Built(last), r) == Some(id) && FloorUnused(last, r, id)
    ensures Admits(Built(states[|states| - 1]), r) <==> ReserveAllows(states[|states| - 1], r)
  {
    hide Sum, SlotClaims, TokenClaims, Step, Admits, SelectedClass, Built, WellFormed, ClassesAccounted;
    IdleIsHonoured(states[0]);
    FloorsProtected(states);
    FloorIsUsable(states[|states| - 1], r, id);
  }

  // ---------- A pool in which all of this happens ----------

  const FLOORED := ClassLimits(Some(1), None, Some(10), None)
  const QUIET := LlmStats(0, 0, map[])

  /** Two slots and 100 tokens, of which one slot and ten tokens are the floor of the only class. */
  function FlooredPool(slots: nat, tokens: nat, available: int, sharedSlots: nat): PoolStats {
    PoolStats(
      AdmissionLimits(1, 2, 0, Some(TokenBudget(100, 0)), Some(map["a" := FLOORED])), Enforce, false, slots, 0,
      Some(TokenStats(100, tokens, available)),
      Some(ClassesStats("a",
                        map["a" := ClassStats(FLOORED, slots, Min(slots, 1), sharedSlots, tokens, tokens, 0, QUIET)],
                        SharedStats(1, sharedSlots, 1 - sharedSlots, Some(TokenStats(90, 0, 90))))),
      QUIET)
  }

  lemma OneClass(v: int)
    ensures Sum(map["a" := v]) == v
  {
    SumZero<string>(map[]);
    SumInsert<string>(map[], "a", v);
    assert map["a" := v] == map[]["a" := v];
  }

  lemma FlooredSums(slots: nat, tokens: nat)
    requires slots <= 1 && tokens <= 10
    ensures var cs := ClassesIn(FlooredPool(slots, tokens, 0, 0));
            && Tables(cs) == map["a" := FLOORED]
            && Sum(ConcurrentFloors(Tables(cs))) == 1 && Sum(TokenFloors(Tables(cs))) == 10
            && Sum(SlotsInUse(cs)) == slots == Sum(ProtectedSlotsInUse(cs))
            && Sum(TokensInUse(cs)) == tokens == Sum(ProtectedTokensInUse(cs))
  {
    OneClass(1);
    OneClass(10);
    OneClass(slots);
    OneClass(tokens);
    hide Sum;
    var cs := ClassesIn(FlooredPool(slots, tokens, 0, 0));
    assert Tables(cs) == map["a" := FLOORED];
    assert ConcurrentFloors(Tables(cs)) == map["a" := 1] && TokenFloors(Tables(cs)) == map["a" := 10];
    assert SlotsInUse(cs) == map["a" := slots] == ProtectedSlotsInUse(cs);
    assert TokensInUse(cs) == map["a" := tokens] == ProtectedTokensInUse(cs);
  }

  lemma ClassName()
    ensures NormalizeClassId("a") == Some("a")
  {
    assert Trim("a") == "a";
  }

  lemma FlooredLimits(slots: nat, tokens: nat)
    requires slots <= 1 && tokens <= 10
    ensures WellFormed(FlooredPool(slots, tokens, 0, 0).limits)
    ensures ClassAccounted(ClassesIn(FlooredPool(slots, tokens, 0, 0))["a"], true)
  {
    FlooredSums(slots, tokens);
    hide Sum, ConcurrentFloors, TokenFloors;
  }

  lemma FlooredPoolAddsUp(slots: nat, tokens: nat)
    requires slots <= 1 && tokens <= 10
    ensures Classed(FlooredPool(slots, tokens, 100 - tokens, 0))
  {
    hide Sum, Tables, ConcurrentFloors, TokenFloors, SlotsInUse, TokensInUse, ProtectedSlotsInUse, ProtectedTokensInUse;
    hide NormalizeClassId, ClassAccounted, WellFormed;
    ClassName();
    FlooredSums(slots, tokens);
    FlooredLimits(slots, tokens);
    var s := FlooredPool(slots, tokens, 100 - tokens, 0);
    assert |ClassesIn(s)| == 1;
  }

  /** From idle, a request within the floor is admissible, and admitting it is a step of such a run. */
  lemma AnAdmission()
    ensures var s, t := FlooredPool(0, 0, 100, 0), FlooredPool(1, 5, 95, 0);
            Run([s, t]) && Honoured(s) && AdmittedInto(s, t, Request(HighPriority, None, 5), "a")
  {
    hide Accounted, Honoured, Admits, BuiltBudget, BuiltShared, BuiltClasses;
    var s, t, r := FlooredPool(0, 0, 100, 0), FlooredPool(1, 5, 95, 0), Request(HighPriority, None, 5);
    FlooredPoolAddsUp(0, 0);
    FlooredPoolAddsUp(1, 5);
    IdleIsHonoured(s);
    FloorIsUsable(s, r, "a");
    OneMoreInUse();
    assert AdmittedInto(s, t, r, "a");
    hide AdmittedInto, FlooredPool;
    assert Step(s, t);
  }

  lemma OneMoreInUse()
    ensures var was, now := ClassesIn(FlooredPool(0, 0, 100, 0)), ClassesIn(FlooredPool(1, 5, 95, 0));
            && SlotsInUse(now) == SlotsInUse(was)["a" := 1]
            && TokensInUse(now) == TokensInUse(was)["a" := 5]
  {
  }
}

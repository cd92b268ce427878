/**
 * The ceilings the scorer's verdict keeps: the pool's slots and tokens, with classes or without, and
 * the ceilings of each class. On a replica's own numbers they hold over any run. Of a snapshot that
 * came from a peer, slots and class ceilings hold, and tokens exactly when what it publishes adds up.
 */
module RoutingCeilings {
  import opened Wrappers
  import opened Limits
  import opened Stats
  import opened Sums
  import opened RoutingCapacity
  import opened RoutingBuilder
  import opened RoutingScore
  import opened RoutingFloors

  // ---------- One admission ----------

  /** A request admitted on the replica's own numbers fits in the pool, whatever its priority. */
  lemma AdmissionFits(s: PoolStats, r: Request)
    requires Accounted(s) && Admits(Built(s), r)
    ensures s.inFlight + 1 <= s.limits.maxConcurrent
    ensures s.tokenBudget.Some? && r.reserved > 0 ==>
              s.tokenBudget.value.inFlightTokens + r.reserved <= s.tokenBudget.value.budget
  {
    hide ClassesAccounted, UnusedProtectedTokens, BuiltClasses, BuiltShared, WellFormed;
  }

  /** And it fits under the ceilings of its class. */
  lemma AdmissionFitsClass(s: PoolStats, r: Request, id: ClassId)
    requires Classed(s) && Admits(Built(s), r) && SelectedClass(Built(s), r) == Some(id)
    ensures id in ClassesIn(s)
    ensures var c := ClassesIn(s)[id];
            && (c.limits.maxConcurrent.Some? ==> c.inFlight + 1 <= c.limits.maxConcurrent.value)
            && (c.limits.maxInFlightTokens.Some? && r.reserved > 0 ==>
                  c.inFlightTokens + r.reserved <= c.limits.maxInFlightTokens.value)
  {
    hide UnusedProtectedTokens, BuiltShared, WellFormed, SharedAccounted, Tables, Sum;
  }

  // ---------- Runs of any pool ----------

  ghost function TokensHeld(s: PoolStats): int {
    if s.tokenBudget.None? then 0 else s.tokenBudget.value.inFlightTokens
  }

  ghost predicate SameLimitsAccounted(s: PoolStats, t: PoolStats) {
    Accounted(s) && Accounted(t) && s.limits == t.limits
  }

  /** An admissible request has been admitted, or work has ended; seen from the pool's totals. */
  ghost predicate PoolAdmits(s: PoolStats, t: PoolStats, r: Request) {
    && Admits(Built(s), r)
    && t.inFlight == s.inFlight + 1
    && (s.tokenBudget.Some? ==> TokensHeld(t) == TokensHeld(s) + r.reserved)
  }

  ghost predicate PoolReleases(s: PoolStats, t: PoolStats) {
    t.inFlight <= s.inFlight && TokensHeld(t) <= TokensHeld(s)
  }

  ghost predicate PoolStep(s: PoolStats, t: PoolStats) {
    SameLimitsAccounted(s, t) && (PoolReleases(s, t) || exists r: Request :: PoolAdmits(s, t, r))
  }

  ghost predicate PoolRun(states: seq<PoolStats>) {
    && (forall i | 0 <= i < |states| :: Accounted(states[i]))
    && (forall i | 0 < i < |states| :: PoolStep(states[i - 1], states[i]))
  }

  lemma PoolStepKeepsCeilings(s: PoolStats, t: PoolStats)
    requires PoolStep(s, t)
    ensures t.inFlight <= Max(s.inFlight, s.limits.maxConcurrent)
    ensures s.tokenBudget.Some? == t.tokenBudget.Some?
    ensures s.tokenBudget.Some? ==> TokensHeld(t) <= Max(TokensHeld(s), s.limits.tokenBudget.value.budget)
  {
    hide Admits, Built, ClassesAccounted, WellFormed;
    if !PoolReleases(s, t) {
      var r: Request :| PoolAdmits(s, t, r);
      AdmissionFits(s, r);
    }
  }

  /**
   * Over any sequence of admissions and releases, with classes or without, the slots and the tokens in
   * use never pass the larger of what they were at the start and the pool's limits.
   */
  lemma {:induction false} PoolCeilingsKept(states: seq<PoolStats>)
    requires PoolRun(states) && states != []
    ensures var first, last := states[0], states[|states| - 1];
            && SameLimitsAccounted(first, last)
            && last.inFlight <= Max(first.inFlight, first.limits.maxConcurrent)
            && first.tokenBudget.Some? == last.tokenBudget.Some?
            && (first.tokenBudget.Some? ==>
                  TokensHeld(last) <= Max(TokensHeld(first), first.limits.tokenBudget.value.budget))
    decreases |states|
  {
    hide Accounted, TokensHeld, PoolReleases, PoolAdmits;
    if |states| > 1 {
      var n := |states| - 1;
      PoolCeilingsKept(states[..n]);
      assert states[..n][n - 1] == states[n - 1];
      PoolStepKeepsCeilings(states[n - 1], states[n]);
      SameBudget(states[0], states[n - 1]);
    }
  }

  lemma SameBudget(s: PoolStats, t: PoolStats)
    requires SameLimitsAccounted(s, t)
    ensures s.tokenBudget.Some? == t.tokenBudget.Some? == s.limits.tokenBudget.Some?
  {
    hide ClassesAccounted, WellFormed;
  }

  // ---------- Runs of a pool with classes ----------

  lemma ClassTotals(s: PoolStats)
    requires Classed(s)
    ensures s.inFlight == Sum(SlotsInUse(ClassesIn(s)))
    ensures s.tokenBudget.Some? ==> TokensHeld(s) == Sum(TokensInUse(ClassesIn(s)))
  {
    hide Sum, WellFormed, Tables, SharedAccounted, ClassAccounted, SlotsInUse, TokensInUse;
  }

  lemma ReleaseIsPoolRelease(s: PoolStats, t: PoolStats)
    requires Released(s, t)
    ensures PoolReleases(s, t)
  {
    hide Sum, Accounted, TokensHeld;
    ClassTotals(s);
    ClassTotals(t);
    SameBudget(s, t);
    SumLe(SlotsInUse(ClassesIn(t)), SlotsInUse(ClassesIn(s)));
    SumLe(TokensInUse(ClassesIn(t)), TokensInUse(ClassesIn(s)));
    if s.tokenBudget.None? {
      NoTokensHeld(s);
      NoTokensHeld(t);
    }
  }

  lemma NoTokensHeld(s: PoolStats)
    requires s.tokenBudget.None?
    ensures TokensHeld(s) == 0
  {
  }

  lemma AdmissionIsPoolAdmission(s: PoolStats, t: PoolStats, r: Request, id: ClassId)
    requires AdmittedInto(s, t, r, id)
    ensures PoolAdmits(s, t, r)
  {
    hide Sum, Accounted, TokensHeld, Admits, Built, SelectedClass;
    ClassTotals(s);
    ClassTotals(t);
    SameBudget(s, t);
    var was := ClassesIn(s);
    SumUpdate(SlotsInUse(was), id, was[id].inFlight + 1);
    SumUpdate(TokensInUse(was), id, was[id].inFlightTokens + r.reserved);
  }

  /** A step that names a class is such a step of the whole pool. */
  lemma ClassStepIsPoolStep(s: PoolStats, t: PoolStats)
    requires RoutingFloors.Step(s, t)
    ensures PoolStep(s, t)
  {
    hide Accounted, PoolReleases, PoolAdmits, Admits, SelectedClass;
    if Released(s, t) {
      ReleaseIsPoolRelease(s, t);
    } else {
      var r: Request, id: ClassId :| AdmittedInto(s, t, r, id);
      AdmissionIsPoolAdmission(s, t, r, id);
    }
  }

  lemma ClassRunIsPoolRun(states: seq<PoolStats>)
    requires RoutingFloors.Run(states)
    ensures PoolRun(states)
  {
    hide Accounted, PoolStep, RoutingFloors.Step;
    forall i | 0 < i < |states|
      ensures PoolStep(states[i - 1], states[i])
    {
      ClassStepIsPoolStep(states[i - 1], states[i]);
    }
  }

  ghost predicate ClassWithin(was: ClassStats, now: ClassStats) {
    && was.limits == now.limits
    && (was.limits.maxConcurrent.Some? ==> now.inFlight <= Max(was.inFlight, was.limits.maxConcurrent.value))
    && (was.limits.maxInFlightTokens.Some? ==>
          now.inFlightTokens <= Max(was.inFlightTokens, was.limits.maxInFlightTokens.value))
  }

  lemma AdmissionKeepsClassCeilings(s: PoolStats, t: PoolStats, r: Request, id: ClassId, k: ClassId)
    requires AdmittedInto(s, t, r, id) && k in ClassesIn(s)
    ensures k in ClassesIn(t) && ClassWithin(ClassesIn(s)[k], ClassesIn(t)[k])
  {
    hide Sum, Admits, Built, SelectedClass, Accounted;
    AdmissionFitsClass(s, r, id);
    SameTables(s, t);
    var was := ClassesIn(s)[id];
    UsesAfter(ClassesIn(s), ClassesIn(t), id, was.inFlight + 1, was.inFlightTokens + r.reserved);
    hide SlotsInUse, TokensInUse;
  }

  lemma StepKeepsClassCeilings(s: PoolStats, t: PoolStats, k: ClassId)
    requires RoutingFloors.Step(s, t) && k in ClassesIn(s)
    ensures k in ClassesIn(t) && ClassWithin(ClassesIn(s)[k], ClassesIn(t)[k])
  {
    hide Accounted, Admits, SelectedClass, SlotsInUse, TokensInUse;
    if Released(s, t) {
      SameTables(s, t);
    } else {
      var r: Request, id: ClassId :| AdmittedInto(s, t, r, id);
      AdmissionKeepsClassCeilings(s, t, r, id, k);
    }
  }

  /** Over the same runs, each class stays within the larger of what it used at the start and its ceilings. */
  lemma {:induction false} ClassCeilingsKept(states: seq<PoolStats>, k: ClassId)
    requires RoutingFloors.Run(states) && states != [] && k in ClassesIn(states[0])
    ensures var last := states[|states| - 1];
            Classed(last) && k in ClassesIn(last) && ClassWithin(ClassesIn(states[0])[k], ClassesIn(last)[k])
    decreases |states|
  {
    hide Accounted, RoutingFloors.Step;
    if |states| > 1 {
      var n := |states| - 1;
      ClassCeilingsKept(states[..n], k);
      assert states[..n][n - 1] == states[n - 1];
      StepKeepsClassCeilings(states[n - 1], states[n], k);
    }
  }

  // ---------- Snapshots from elsewhere ----------

  /**
   * Of a snapshot that passed the validator: slots and class ceilings are kept, tokens are kept to
   * what is published as available.
   */
  lemma PublishedCeilingsKept(p: PoolCapacity, r: Request)
    requires CapacityOk(p) && Admits(p, r)
    ensures p.inFlight + 1 <= p.maxConcurrent
    ensures p.tokenBudget.Some? && r.reserved > 0 ==>
              r.reserved <= p.tokenBudget.value.highAvailable <= p.tokenBudget.value.budget
    ensures var c := ClassState(p, r);
            c.Some? ==>
              && (c.value.slots.max.Some? ==> c.value.slots.used + 1 <= c.value.slots.max.value)
              && (c.value.tokens.max.Some? && r.reserved > 0 ==>
                    c.value.tokens.used + r.reserved <= c.value.tokens.max.value)
  {
    hide SharedOk, TotalsOf, UnusedProtectedTokens;
    if ClassState(p, r).Some? {
      assert ClassOk(ClassState(p, r).value, p.tokenBudget.Some?);
    }
  }

  predicate TokensFitBudget(b: BudgetCapacity, r: Request) {
    r.reserved > 0 ==> b.inFlightTokens + r.reserved <= b.budget
  }

  /** What is published as available is not already in use. */
  predicate TokensAddUp(b: BudgetCapacity) {
    b.highAvailable == 0 || b.inFlightTokens + b.highAvailable <= b.budget
  }

  /** A published budget that adds up is kept, with classes or without and at either priority. */
  lemma PublishedTokensKept(p: PoolCapacity, r: Request)
    requires CapacityOk(p) && p.tokenBudget.Some? && TokensAddUp(p.tokenBudget.value) && Admits(p, r)
    ensures TokensFitBudget(p.tokenBudget.value, r)
  {
    hide TableFits, UnusedProtectedTokens;
  }

  /**
   * The most tokens that a request of a class can be admitted with: at high priority, what is available,
   * what the class's own floor and the unclaimed rest hold, and what its ceiling leaves.
   */
  ghost function MostTokens(p: PoolCapacity, admissionClass: Option<ClassId>): int
    requires p.tokenBudget.Some?
  {
    var available := p.tokenBudget.value.highAvailable;
    var state := ClassState(p, Request(HighPriority, admissionClass, 0));
    if state.None? then available
    else
      var tokens := state.value.tokens;
      Min(Min(available, tokens.freeFloor + Max(0, available - UnusedProtectedTokens(p))),
          tokens.free.GetOr(available))
  }

  /** No admissible request of the class holds more, and one holds that much. */
  lemma MostTokensIsMost(p: PoolCapacity, r: Request)
    requires CapacityOk(p) && p.tokenBudget.Some? && Admits(p, r) && r.reserved > 0
    ensures r.reserved <= MostTokens(p, r.admissionClass)
    ensures Admits(p, Request(HighPriority, r.admissionClass, MostTokens(p, r.admissionClass)))
  {
    hide CapacityOk, Admits;
    NoMoreTokens(p, r);
    SomeTokensAdmitted(p, r, MostTokens(p, r.admissionClass));
  }

  lemma NoMoreTokens(p: PoolCapacity, r: Request)
    requires CapacityOk(p) && p.tokenBudget.Some? && Admits(p, r) && r.reserved > 0
    ensures r.reserved <= MostTokens(p, r.admissionClass)
  {
    hide TableFits, UnusedProtectedTokens;
    assert ClassState(p, r) == ClassState(p, Request(HighPriority, r.admissionClass, 0));
  }

  /** Where something is admissible, so is any reservation up to that, at high priority. */
  lemma SomeTokensAdmitted(p: PoolCapacity, r: Request, reserved: nat)
    requires CapacityOk(p) && p.tokenBudget.Some? && Admits(p, r) && reserved <= MostTokens(p, r.admissionClass)
    ensures Admits(p, Request(HighPriority, r.admissionClass, reserved))
  {
    hide TableFits, UnusedProtectedTokens;
    assert ClassState(p, Request(HighPriority, r.admissionClass, reserved)) == ClassState(p, r)
           == ClassState(p, Request(HighPriority, r.admissionClass, 0));
  }

  /**
   * A validated snapshot keeps its token budget for all requests exactly when it does for the largest
   * admissible one of every class that can be asked for.
   */
  lemma PublishedTokensKeptExactly(p: PoolCapacity)
    requires CapacityOk(p) && p.tokenBudget.Some?
    ensures var b := p.tokenBudget.value;
            (forall r | Admits(p, r) :: TokensFitBudget(b, r)) <==>
              (forall id | Admits(p, Request(HighPriority, id, 1)) :: b.inFlightTokens + MostTokens(p, id) <= b.budget)
  {
    hide CapacityOk, Admits, MostTokens;
    var b := p.tokenBudget.value;
    if forall r | Admits(p, r) :: TokensFitBudget(b, r) {
      forall id | Admits(p, Request(HighPriority, id, 1))
        ensures b.inFlightTokens + MostTokens(p, id) <= b.budget
      {
        MostTokensIsMost(p, Request(HighPriority, id, 1));
      }
    } else {
      var r :| Admits(p, r) && !TokensFitBudget(b, r);
      MostTokensIsMost(p, r);
      SomeTokensAdmitted(p, r, 1);
    }
  }

  /** Without classes, and with a slot left, that is exactly when the published budget adds up. */
  lemma PublishedTokensKeptUnclassed(p: PoolCapacity)
    requires CapacityOk(p) && p.tokenBudget.Some? && p.admissionClasses.None?
    requires p.mode.Enforce? && !p.closed && p.availableConcurrency > 0
    ensures var b := p.tokenBudget.value; (forall r | Admits(p, r) :: TokensFitBudget(b, r)) <==> TokensAddUp(b)
  {
    var b := p.tokenBudget.value;
    if TokensAddUp(b) {
      forall r | Admits(p, r)
        ensures TokensFitBudget(b, r)
      {
        PublishedTokensKept(p, r);
      }
    } else {
      var most := Request(HighPriority, None, b.highAvailable);
      assert Admits(p, most) && !TokensFitBudget(b, most);
    }
  }

  /** What a replica builds from its own numbers always adds up; so only a foreign publisher's may not. */
  lemma BuiltTokensAddUp(s: PoolStats)
    requires Accounted(s) && s.tokenBudget.Some?
    ensures CapacityOk(Built(s)) && TokensAddUp(Built(s).tokenBudget.value)
  {
    hide CapacityOk, ClassesAccounted, WellFormed;
    BuiltOk(s);
  }

  /**
   * The validator does not ask that they add up: a full pool may publish all of its tokens as available.
   */
  lemma PublishedTokensAreTrusted()
    ensures var p := PoolCapacity(0, Enforce, false, 1, 0, 0, 0, 1, Some(BudgetCapacity(100, 100, 100, 100)), None);
            CapacityOk(p) && Admits(p, Request(NormalPriority, None, 100)) && !TokensAddUp(p.tokenBudget.value)
  {
  }
}

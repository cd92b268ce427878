/**
 * Drain evidence (`src/latchflo.ts`): the target a shrinking or floor-restoring grant sets, and
 * the check on published occupancy that retires it.
 */
module Drain {
  import opened Wrappers
  import opened Sums
  import opened Limits
  import opened Stats
  import opened Demand

  datatype ClassDrainTarget = ClassDrainTarget(
    sharedMaxConcurrent: Option<int>,
    sharedTokenBudget: Option<int>,
    classes: ClassTable)

  datatype DrainTarget = DrainTarget(
    revision: int,
    maxConcurrent: int,
    tokenBudget: Option<int>,
    requireTokenEvidence: bool,
    admissionClasses: Option<ClassDrainTarget>)

  // ---------- The target, declaratively ----------

  predicate ConcurrentFloorRose(before: ClassLimits, after: ClassLimits) {
    before.protectedConcurrent.GetOr(0) < after.protectedConcurrent.GetOr(0)
  }

  predicate TokenFloorRose(before: ClassLimits, after: ClassLimits) {
    before.protectedInFlightTokens.GetOr(0) < after.protectedInFlightTokens.GetOr(0)
  }

  predicate Shrank(before: Option<int>, after: Option<int>) {
    after.Some? && (before.None? || after.value < before.value)
  }

  predicate CeilingShrank(before: ClassLimits, after: ClassLimits) {
    Shrank(before.maxConcurrent, after.maxConcurrent) || Shrank(before.maxInFlightTokens, after.maxInFlightTokens)
  }

  /** The classes both tables know. */
  function Common(before: ClassTable, after: ClassTable): ClassTable {
    map id | id in after && id in before :: after[id]
  }

  ghost predicate AnyConcurrentFloorRose(before: ClassTable, after: ClassTable) {
    exists id <- after :: id in before && ConcurrentFloorRose(before[id], after[id])
  }

  ghost predicate AnyTokenFloorRose(before: ClassTable, after: ClassTable) {
    exists id <- after :: id in before && TokenFloorRose(before[id], after[id])
  }

  ghost predicate AnyCeilingShrank(before: ClassTable, after: ClassTable) {
    exists id <- after :: id in before && CeilingShrank(before[id], after[id])
  }

  ghost function ClassTargetOf(before: ClassTable, after: ClassTable, maxConcurrent: int,
                               budget: Option<int>): Option<ClassDrainTarget>
  {
    var common := Common(before, after);
    var slots, tokens := AnyConcurrentFloorRose(before, common), AnyTokenFloorRose(before, common);
    if !slots && !tokens && !AnyCeilingShrank(before, common) then None
    else Some(ClassDrainTarget(
                if slots then Some(Max(0, maxConcurrent - Sum(ConcurrentFloors(common)))) else None,
                if tokens && budget.Some? then Some(Max(0, budget.value - Sum(TokenFloors(common)))) else None,
                after))
  }

  function BudgetOf(l: AdmissionLimits): Option<int> {
    if l.tokenBudget.None? then None else Some(l.tokenBudget.value.budget)
  }

  ghost function DrainTargetOf(current: AdmissionLimits, desired: AdmissionLimits,
                               desiredClasses: Option<ClassTable>): Option<DrainTarget>
  {
    var budget := BudgetOf(desired);
    var slots := desired.maxConcurrent < current.maxConcurrent;
    var tokens := Shrank(BudgetOf(current), budget);
    var classes :=
      if current.admissionClasses.None? || desiredClasses.None? then None
      else ClassTargetOf(current.admissionClasses.value, desiredClasses.value, desired.maxConcurrent, budget);
    if !slots && !tokens && classes.None? then None
    else Some(DrainTarget(desired.revision, desired.maxConcurrent, budget, tokens, classes))
  }

  // ---------- The loop that computes it ----------

  lemma NothingRose(before: ClassTable)
    ensures !AnyConcurrentFloorRose(before, map[]) && !AnyTokenFloorRose(before, map[])
            && !AnyCeilingShrank(before, map[])
    ensures Sum(ConcurrentFloors(map[])) == 0 == Sum(TokenFloors(map[]))
  {
  }

  lemma AnyInsert(before: ClassTable, t: ClassTable, id: ClassId, c: ClassLimits)
    requires id in before && id !in t
    ensures AnyConcurrentFloorRose(before, t[id := c]) <==>
              AnyConcurrentFloorRose(before, t) || ConcurrentFloorRose(before[id], c)
    ensures AnyTokenFloorRose(before, t[id := c]) <==> AnyTokenFloorRose(before, t) || TokenFloorRose(before[id], c)
    ensures AnyCeilingShrank(before, t[id := c]) <==> AnyCeilingShrank(before, t) || CeilingShrank(before[id], c)
  {
    hide ConcurrentFloorRose, TokenFloorRose, CeilingShrank;
    var u := t[id := c];
    assert id in u && forall x <- t :: x in u && u[x] == t[x];
  }

  /** `admissionClassDrainEvidenceTarget`. */
  method AdmissionClassDrainEvidenceTarget(before: ClassTable, after: ClassTable, maxConcurrent: int,
                                           budget: Option<int>)
    returns (r: Option<ClassDrainTarget>)
    ensures r == ClassTargetOf(before, after, maxConcurrent, budget)
  {
    hide ConcurrentFloorRose, TokenFloorRose, CeilingShrank, AnyConcurrentFloorRose, AnyTokenFloorRose,
         AnyCeilingShrank;
    hide ConcurrentFloors, TokenFloors;
    NothingRose(before);
    var protectedConcurrentIncreased, protectedTokensIncreased, hardLimitShrank := false, false, false;
    var desiredProtectedConcurrentTotal, desiredProtectedTokenTotal := 0, 0;
    var remaining := after.Keys;
    ghost var done: ClassTable := map[];
    while remaining != {}
      invariant remaining <= after.Keys
      invariant done == map id | id in after && id in before && id !in remaining :: after[id]
      invariant desiredProtectedConcurrentTotal == Sum(ConcurrentFloors(done))
      invariant desiredProtectedTokenTotal == Sum(TokenFloors(done))
      invariant protectedConcurrentIncreased <==> AnyConcurrentFloorRose(before, done)
      invariant protectedTokensIncreased <==> AnyTokenFloorRose(before, done)
      invariant hardLimitShrank <==> AnyCeilingShrank(before, done)
      decreases |remaining|
    {
      var id :| id in remaining;
      remaining := remaining - {id};
      if id !in before {
        continue;
      }
      var was, now := before[id], after[id];
      FloorsInsert(done, id, now);
      AnyInsert(before, done, id, now);
      desiredProtectedConcurrentTotal := desiredProtectedConcurrentTotal + now.protectedConcurrent.GetOr(0);
      desiredProtectedTokenTotal := desiredProtectedTokenTotal + now.protectedInFlightTokens.GetOr(0);
      if ConcurrentFloorRose(was, now) {
        protectedConcurrentIncreased := true;
      }
      if TokenFloorRose(was, now) {
        protectedTokensIncreased := true;
      }
      if CeilingShrank(was, now) {
        hardLimitShrank := true;
      }
      done := done[id := now];
    }
    assert done == Common(before, after);
    if !protectedConcurrentIncreased && !protectedTokensIncreased && !hardLimitShrank {
      return None;
    }
    return Some(ClassDrainTarget(
                  if protectedConcurrentIncreased then Some(Max(0, maxConcurrent - desiredProtectedConcurrentTotal))
                  else None,
                  if protectedTokensIncreased && budget.Some?
                  then Some(Max(0, budget.value - desiredProtectedTokenTotal)) else None,
                  after));
  }

  /** `drainEvidenceTarget`. */
  method DrainEvidenceTarget(current: AdmissionLimits, desired: AdmissionLimits, desiredClasses: Option<ClassTable>)
    returns (r: Option<DrainTarget>)
    ensures r == DrainTargetOf(current, desired, desiredClasses)
  {
    var physicalConcurrentShrink := desired.maxConcurrent < current.maxConcurrent;
    var requireTokenEvidence := Shrank(BudgetOf(current), BudgetOf(desired));
    var admissionClasses: Option<ClassDrainTarget> := None;
    if current.admissionClasses.Some? && desiredClasses.Some? {
      admissionClasses := AdmissionClassDrainEvidenceTarget(
        current.admissionClasses.value, desiredClasses.value, desired.maxConcurrent, BudgetOf(desired));
    }
    if !physicalConcurrentShrink && !requireTokenEvidence && admissionClasses.None? {
      return None;
    }
    return Some(DrainTarget(desired.revision, desired.maxConcurrent, BudgetOf(desired), requireTokenEvidence,
                            admissionClasses));
  }

  // ---------- The check on published occupancy ----------

  /** What the loop demands of one published class. */
  predicate ClassReady(s: AdmissionClassDemandSnapshot, desired: ClassLimits, needTokens: bool) {
    && s.protectedConcurrent == desired.protectedConcurrent.GetOr(0)
    && s.maxConcurrent == desired.maxConcurrent
    && (desired.maxConcurrent.Some? ==> s.inFlight <= desired.maxConcurrent.value)
    && (needTokens ==>
          && s.inFlightTokens.Some? && s.protectedInFlightTokens.Some? && s.borrowedInFlightTokens.Some?
          && s.protectedInFlightTokens.value == desired.protectedInFlightTokens.GetOr(0)
          && s.maxInFlightTokens == desired.maxInFlightTokens
          && (desired.maxInFlightTokens.Some? ==> s.inFlightTokens.value <= desired.maxInFlightTokens.value))
  }

  predicate NeedsTokens(t: ClassDrainTarget, id: ClassId)
    requires id in t.classes
  {
    t.sharedTokenBudget.Some? || t.classes[id].maxInFlightTokens.Some?
  }

  /** The `Map` keyed by class ID: of two entries with one ID, the later wins. */
  function ByClass(published: seq<AdmissionClassDemandSnapshot>): (m: map<ClassId, AdmissionClassDemandSnapshot>) {
    if published == [] then map[]
    else
      var n := |published| - 1;
      var earlier := ByClass(published[..n]);
      earlier[published[n].admissionClass := published[n]]
  }

  ghost function BorrowedSlots(t: ClassDrainTarget, m: map<ClassId, AdmissionClassDemandSnapshot>): map<ClassId, int> {
    map id | id in t.classes && id in m :: m[id].borrowedConcurrent
  }

  ghost function BorrowedTokens(t: ClassDrainTarget, m: map<ClassId, AdmissionClassDemandSnapshot>): map<ClassId, int> {
    map id | id in t.classes && id in m ::
      if NeedsTokens(t, id) && m[id].borrowedInFlightTokens.Some? then m[id].borrowedInFlightTokens.value else 0
  }

  ghost predicate ClassTargetReady(published: seq<AdmissionClassDemandSnapshot>, t: ClassDrainTarget) {
    var m := ByClass(published);
    && |published| == |t.classes|
    && (forall id <- t.classes :: id in m && ClassReady(m[id], t.classes[id], NeedsTokens(t, id)))
    && (t.sharedMaxConcurrent.Some? ==> Sum(BorrowedSlots(t, m)) <= t.sharedMaxConcurrent.value)
    && (t.sharedTokenBudget.Some? ==> Sum(BorrowedTokens(t, m)) <= t.sharedTokenBudget.value)
  }

  ghost predicate TargetReady(s: PoolDemandSnapshot, t: DrainTarget) {
    && s.inFlight <= t.maxConcurrent
    && (t.requireTokenEvidence ==>
          s.inFlightTokens.Some? && t.tokenBudget.Some? && s.inFlightTokens.value <= t.tokenBudget.value)
    && (t.admissionClasses.Some? ==>
          s.admissionClasses.Some? && ClassTargetReady(s.admissionClasses.value, t.admissionClasses.value))
  }

  lemma NothingBorrowed(t: ClassDrainTarget, m: map<ClassId, AdmissionClassDemandSnapshot>)
    ensures Sum(BorrowedSlots(t.(classes := map[]), m)) == 0 == Sum(BorrowedTokens(t.(classes := map[]), m))
  {
  }

  lemma SlotsInsert(t: ClassDrainTarget, done: ClassTable, m: map<ClassId, AdmissionClassDemandSnapshot>, id: ClassId,
                    c: ClassLimits)
    requires id !in done && id in m
    ensures Sum(BorrowedSlots(t.(classes := done[id := c]), m)) ==
              Sum(BorrowedSlots(t.(classes := done), m)) + m[id].borrowedConcurrent
  {
    var before := BorrowedSlots(t.(classes := done), m);
    SumInsert(before, id, m[id].borrowedConcurrent);
    assert BorrowedSlots(t.(classes := done[id := c]), m) == before[id := m[id].borrowedConcurrent];
  }

  lemma TokensInsert(t: ClassDrainTarget, done: ClassTable, m: map<ClassId, AdmissionClassDemandSnapshot>, id: ClassId,
                     c: ClassLimits)
    requires id !in done && id in m
    ensures Sum(BorrowedTokens(t.(classes := done[id := c]), m)) ==
              Sum(BorrowedTokens(t.(classes := done), m)) + BorrowedTokens(t.(classes := map[id := c]), m)[id]
  {
    var before, tokens := BorrowedTokens(t.(classes := done), m), BorrowedTokens(t.(classes := map[id := c]), m)[id];
    SumInsert(before, id, tokens);
    assert BorrowedTokens(t.(classes := done[id := c]), m) == before[id := tokens];
  }

  /** `#publishedAdmissionClassTargetReady`. */
  method PublishedClassTargetReady(published: seq<AdmissionClassDemandSnapshot>, t: ClassDrainTarget)
    returns (ready: bool)
    ensures ready <==> ClassTargetReady(published, t)
  {
    hide ClassReady, ByClass, BorrowedSlots;
    var byClass := ByClass(published);
    if |published| != |t.classes| {
      return false;
    }
    var borrowedConcurrent, borrowedTokens := 0, 0;
    var remaining := t.classes.Keys;
    ghost var done: ClassTable := map[];
    NothingBorrowed(t, byClass);
    while remaining != {}
      invariant remaining <= t.classes.Keys
      invariant done == map id | id in t.classes && id !in remaining :: t.classes[id]
      invariant forall id <- done :: id in byClass && ClassReady(byClass[id], done[id], NeedsTokens(t, id))
      invariant borrowedConcurrent == Sum(BorrowedSlots(t.(classes := done), byClass))
      invariant borrowedTokens == Sum(BorrowedTokens(t.(classes := done), byClass))
      decreases |remaining|
    {
      var id :| id in remaining;
      if id !in byClass {
        return false;
      }
      var snapshot, desired := byClass[id], t.classes[id];
      if !ClassReady(snapshot, desired, NeedsTokens(t, id)) {
        return false;
      }
      SlotsInsert(t, done, byClass, id, desired);
      TokensInsert(t, done, byClass, id, desired);
      borrowedConcurrent := borrowedConcurrent + snapshot.borrowedConcurrent;
      if NeedsTokens(t, id) && snapshot.borrowedInFlightTokens.Some? {
        borrowedTokens := borrowedTokens + snapshot.borrowedInFlightTokens.value;
      }
      done := done[id := desired];
      remaining := remaining - {id};
    }
    assert done == t.classes;
    if t.sharedMaxConcurrent.Some? && borrowedConcurrent > t.sharedMaxConcurrent.value {
      return false;
    }
    return t.sharedTokenBudget.None? || borrowedTokens <= t.sharedTokenBudget.value;
  }

  /** `#publishedDrainTargetReady`. */
  method PublishedDrainTargetReady(s: PoolDemandSnapshot, t: DrainTarget) returns (ready: bool)
    ensures ready <==> TargetReady(s, t)
  {
    if s.inFlight > t.maxConcurrent {
      return false;
    }
    if t.requireTokenEvidence
       && !(s.inFlightTokens.Some? && t.tokenBudget.Some? && s.inFlightTokens.value <= t.tokenBudget.value) {
      return false;
    }
    if t.admissionClasses.None? {
      return true;
    }
    if s.admissionClasses.None? {
      return false;
    }
    ready := PublishedClassTargetReady(s.admissionClasses.value, t.admissionClasses.value);
  }

  // ---------- Why retiring a target is sound ----------

  /** The target's pots and floors are parts of one envelope. */
  ghost predicate TargetSound(t: DrainTarget) {
    t.admissionClasses.Some? ==>
      var c := t.admissionClasses.value;
      && (c.sharedMaxConcurrent.Some? ==>
            c.sharedMaxConcurrent.value + Sum(ConcurrentFloors(c.classes)) <= t.maxConcurrent)
      && (c.sharedTokenBudget.Some? ==>
            && t.tokenBudget.Some?
            && c.sharedTokenBudget.value + Sum(TokenFloors(c.classes)) <= t.tokenBudget.value)
  }

  /** Every target set for limits that pass preflight is sound. */
  lemma TargetOfIsSound(current: AdmissionLimits, desired: AdmissionLimits, classes: Option<ClassTable>)
    requires SameShape(current, desired.(admissionClasses := classes))
    requires WellFormed(desired.(admissionClasses := classes))
    requires DrainTargetOf(current, desired, classes).Some?
    ensures TargetSound(DrainTargetOf(current, desired, classes).value)
  {
    if current.admissionClasses.Some? {
      assert Common(current.admissionClasses.value, classes.value) == classes.value;
    }
  }

  /** What the bulkhead is assumed to publish: each class's use, split at its floor. */
  predicate Accounted(s: AdmissionClassDemandSnapshot) {
    && s.borrowedConcurrent == s.inFlight - Min(s.inFlight, s.protectedConcurrent)
    && (s.inFlightTokens.Some? && s.protectedInFlightTokens.Some? && s.borrowedInFlightTokens.Some? ==>
          s.borrowedInFlightTokens.value ==
            s.inFlightTokens.value - Min(s.inFlightTokens.value, s.protectedInFlightTokens.value))
  }

  /** Slots a class occupies or may reclaim at any moment: its use, or its floor if that is larger. */
  ghost function SlotClaims(c: ClassDrainTarget, m: map<ClassId, AdmissionClassDemandSnapshot>): map<ClassId, int> {
    map id | id in c.classes && id in m :: Max(m[id].inFlight, c.classes[id].protectedConcurrent.GetOr(0))
  }

  ghost function TokenClaims(c: ClassDrainTarget, m: map<ClassId, AdmissionClassDemandSnapshot>): map<ClassId, int> {
    map id | id in c.classes && id in m ::
      Max(m[id].inFlightTokens.GetOr(0), c.classes[id].protectedInFlightTokens.GetOr(0))
  }

  lemma {:induction false} ByClassSize(published: seq<AdmissionClassDemandSnapshot>)
    ensures |ByClass(published)| <= |published|
  {
    if published != [] {
      var n := |published| - 1;
      ByClassSize(published[..n]);
      OneMore(ByClass(published[..n]), published[n].admissionClass, published[n]);
    }
  }

  lemma {:induction false} ByClassIn(published: seq<AdmissionClassDemandSnapshot>, id: ClassId)
    requires id in ByClass(published)
    ensures ByClass(published)[id] in published
  {
    var n := |published| - 1;
    assert published == published[..n] + [published[n]];
    if id != published[n].admissionClass {
      ByClassIn(published[..n], id);
    }
  }

  lemma OneMore<K, V>(m: map<K, V>, k: K, v: V)
    ensures |m[k := v]| == |m| + if k in m then 0 else 1
  {
    assert m[k := v].Keys == m.Keys + {k};
    assert |m.Keys + {k}| == |m.Keys| + if k in m.Keys then 0 else 1;
  }

  lemma {:induction false} ByClassOnce(published: seq<AdmissionClassDemandSnapshot>, i: nat)
    requires |ByClass(published)| == |published| && i < |published|
    ensures published[i].admissionClass in ByClass(published)
    ensures ByClass(published)[published[i].admissionClass] == published[i]
  {
    var n := |published| - 1;
    ByClassSize(published[..n]);
    OneMore(ByClass(published[..n]), published[n].admissionClass, published[n]);
    if i < n {
      ByClassOnce(published[..n], i);
    }
  }

  /**
   * As many published classes as desired ones, and every desired one among them: then each
   * published entry is the only one for its class, and no class is published that is not desired.
   */
  lemma PublishedIsDesired(published: seq<AdmissionClassDemandSnapshot>, classes: ClassTable)
    requires |published| == |classes|
    requires forall id <- classes :: id in ByClass(published)
    ensures ByClass(published).Keys == classes.Keys
    ensures forall i | 0 <= i < |published| ::
              published[i].admissionClass in classes && ByClass(published)[published[i].admissionClass] == published[i]
  {
    hide ByClass;
    var have, want := ByClass(published).Keys, classes.Keys;
    ByClassSize(published);
    assert want <= have && |have| <= |want|;
    SubsetOfSameSize(want, have);
    forall i | 0 <= i < |published|
      ensures published[i].admissionClass in classes && ByClass(published)[published[i].admissionClass] == published[i]
    {
      ByClassOnce(published, i);
    }
  }

  lemma SubsetOfSameSize<T>(a: set<T>, b: set<T>)
    requires a <= b && |b| <= |a|
    ensures a == b
  {
    assert b == a + (b - a);
    assert |b| == |a| + |b - a|;
    assert b - a == {};
  }

  /**
   * When the check passes, what the classes occupy or may reclaim fits the new envelope, for slots
   * whenever a slot floor rose and for tokens whenever a token floor rose, and every class is
   * within its new ceilings.
   */
  lemma RetirementIsSound(s: PoolDemandSnapshot, t: DrainTarget)
    requires TargetSound(t) && TargetReady(s, t) && t.admissionClasses.Some?
    requires forall i | 0 <= i < |s.admissionClasses.value| :: Accounted(s.admissionClasses.value[i])
    ensures var c, m := t.admissionClasses.value, ByClass(s.admissionClasses.value);
            && m.Keys == c.classes.Keys
            && (forall i | 0 <= i < |s.admissionClasses.value| ::
                  var p := s.admissionClasses.value[i];
                  p.admissionClass in m && m[p.admissionClass] == p)
            && (c.sharedMaxConcurrent.Some? ==> Sum(SlotClaims(c, m)) <= t.maxConcurrent)
            && (c.sharedTokenBudget.Some? ==> Sum(TokenClaims(c, m)) <= t.tokenBudget.value)
            && (forall id <- c.classes ::
                  && (c.classes[id].maxConcurrent.Some? ==> m[id].inFlight <= c.classes[id].maxConcurrent.value)
                  && (c.classes[id].maxInFlightTokens.Some? ==>
                        m[id].inFlightTokens.Some?
                        && m[id].inFlightTokens.value <= c.classes[id].maxInFlightTokens.value))
  {
    hide ByClass;
    var published, c := s.admissionClasses.value, t.admissionClasses.value;
    var m := ByClass(published);
    PublishedIsDesired(published, c.classes);
    forall id <- c.classes
      ensures Accounted(m[id])
    {
      ByClassIn(published, id);
    }
    SlotClaimsBound(c, m);
    if c.sharedTokenBudget.Some? {
      TokenClaimsBound(c, m);
    }
  }

  lemma SlotClaimsBound(c: ClassDrainTarget, m: map<ClassId, AdmissionClassDemandSnapshot>)
    requires forall id <- c.classes ::
               id in m && ClassReady(m[id], c.classes[id], NeedsTokens(c, id)) && Accounted(m[id])
    ensures Sum(SlotClaims(c, m)) == Sum(ConcurrentFloors(c.classes)) + Sum(BorrowedSlots(c, m))
  {
    SumAdd(ConcurrentFloors(c.classes), BorrowedSlots(c, m), SlotClaims(c, m));
  }

  lemma TokenClaimsBound(c: ClassDrainTarget, m: map<ClassId, AdmissionClassDemandSnapshot>)
    requires c.sharedTokenBudget.Some?
    requires forall id <- c.classes ::
               id in m && ClassReady(m[id], c.classes[id], NeedsTokens(c, id)) && Accounted(m[id])
    ensures Sum(TokenClaims(c, m)) == Sum(TokenFloors(c.classes)) + Sum(BorrowedTokens(c, m))
  {
    SumAdd(TokenFloors(c.classes), BorrowedTokens(c, m), TokenClaims(c, m));
  }
}

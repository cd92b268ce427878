/**
 * `compareCandidates` and `chooseCapacityCandidate` of `src/routing.ts`. The comparison of
 * identifiers, `localeCompare`, is a parameter; it is assumed to be a strict total order.
 */
module RoutingChoice {
  import opened Wrappers
  import opened RoutingScore

  /** `less(a, b)` when `a.localeCompare(b) < 0`. */
  ghost predicate StrictTotal(less: (string, string) -> bool) {
    && (forall a, b :: less(a, b) ==> !less(b, a))
    && (forall a, b :: less(a, b) || less(b, a) || a == b)
    && (forall a, b, c :: less(a, b) && less(b, c) ==> less(a, c))
  }

  // ---------- The comparator ----------

  /** The sign of a difference `right - left` in which `None` is positive infinity: the larger headroom goes first. */
  function LargerFirst(left: Option<int>, right: Option<int>): int {
    if left == right then 0
    else if left.None? then -1
    else if right.None? then 1
    else if left.value > right.value then -1
    else 1
  }

  /** The sign of `compareCandidates(left, right)`. */
  function Compare(less: (string, string) -> bool, left: Candidate, right: Candidate): int {
    if left.admissible != right.admissible then
      if left.admissible then -1 else 1
    else if left.score != right.score then
      if left.score > right.score then -1 else 1
    else if left.classTokenHeadroom != right.classTokenHeadroom then
      LargerFirst(left.classTokenHeadroom, right.classTokenHeadroom)
    else if left.classConcurrencyHeadroom != right.classConcurrencyHeadroom then
      LargerFirst(left.classConcurrencyHeadroom, right.classConcurrencyHeadroom)
    else if left.tokenHeadroom != right.tokenHeadroom then
      LargerFirst(left.tokenHeadroom, right.tokenHeadroom)
    else if left.concurrencyHeadroom != right.concurrencyHeadroom then
      LargerFirst(Some(left.concurrencyHeadroom), Some(right.concurrencyHeadroom))
    else if left.local != right.local then
      if left.local then -1 else 1
    else if less(left.instanceId, right.instanceId) then -1
    else if less(right.instanceId, left.instanceId) then 1
    else 0
  }

  ghost predicate Before(less: (string, string) -> bool, left: Candidate, right: Candidate) {
    Compare(less, left, right) < 0
  }

  lemma LargerFirstTotal(a: Option<int>, b: Option<int>, c: Option<int>)
    ensures LargerFirst(a, b) == -LargerFirst(b, a)
    ensures LargerFirst(a, b) == 0 <==> a == b
    ensures LargerFirst(a, b) <= 0 && LargerFirst(b, c) <= 0 ==> LargerFirst(a, c) <= 0
    ensures LargerFirst(a, b) < 0 && LargerFirst(b, c) <= 0 ==> LargerFirst(a, c) < 0
    ensures LargerFirst(a, b) <= 0 && LargerFirst(b, c) < 0 ==> LargerFirst(a, c) < 0
  {
  }

  /**
   * Of two candidates with distinct identifiers exactly one comes first, and coming first is transitive;
   * an admissible one comes before any other.
   */
  lemma ComparatorIsStrictTotalOrder(less: (string, string) -> bool, a: Candidate, b: Candidate, c: Candidate)
    requires StrictTotal(less)
    ensures Compare(less, a, b) == -Compare(less, b, a)
    ensures a.instanceId != b.instanceId ==> Before(less, a, b) || Before(less, b, a)
    ensures Before(less, a, b) && Before(less, b, c) ==> Before(less, a, c)
    ensures a.admissible && !b.admissible ==> Before(less, a, b)
  {
    CompareOpposite(less, a, b);
    if Before(less, a, b) && Before(less, b, c) {
      CompareTransitive(less, a, b, c);
    }
  }

  lemma CompareOpposite(less: (string, string) -> bool, a: Candidate, b: Candidate)
    requires StrictTotal(less)
    ensures Compare(less, a, b) == -Compare(less, b, a)
    ensures Compare(less, a, b) == 0 ==> a.instanceId == b.instanceId
  {
  }

  lemma CompareTransitive(less: (string, string) -> bool, a: Candidate, b: Candidate, c: Candidate)
    requires StrictTotal(less) && Before(less, a, b) && Before(less, b, c)
    ensures Before(less, a, c)
  {
  }

  // ---------- The choice ----------

  function Admitted(candidates: seq<Candidate>): (r: seq<Candidate>)
    ensures forall c :: c in r <==> c in candidates && c.admissible
  {
    if candidates == [] then []
    else
      var n := |candidates| - 1;
      var earlier := Admitted(candidates[..n]);
      assert candidates == candidates[..n] + [candidates[n]];
      if candidates[n].admissible then earlier + [candidates[n]] else earlier
  }

  /** The element a sort puts first: the earliest of those that nothing precedes. */
  method First(less: (string, string) -> bool, candidates: seq<Candidate>) returns (best: Candidate)
    requires StrictTotal(less) && candidates != []
    ensures best in candidates
    ensures forall c <- candidates :: !Before(less, c, best)
  {
    hide Compare, StrictTotal;
    best := candidates[0];
    CompareOpposite(less, best, best);
    for i := 1 to |candidates|
      invariant best in candidates[..i]
      invariant forall j | 0 <= j < i :: !Before(less, candidates[j], best)
    {
      if Compare(less, candidates[i], best) < 0 {
        forall j | 0 <= j <= i
          ensures !Before(less, candidates[j], candidates[i])
        {
          CompareOpposite(less, candidates[j], candidates[i]);
          CompareOpposite(less, candidates[j], best);
          if Before(less, candidates[j], candidates[i]) {
            CompareTransitive(less, candidates[j], candidates[i], best);
          }
        }
        best := candidates[i];
      }
    }
  }

  /** The chosen candidate: admissible, listed, and before every other admissible one. */
  ghost predicate Best(less: (string, string) -> bool, candidates: seq<Candidate>, c: Candidate) {
    && c in candidates && c.admissible
    && forall d <- candidates | d.admissible && d != c :: Before(less, c, d)
  }

  ghost predicate DistinctIds(candidates: seq<Candidate>) {
    forall c, d | c in candidates && d in candidates && c.instanceId == d.instanceId :: c == d
  }

  /** There is no choice exactly when nothing is admissible, and otherwise the choice is the best. */
  method ChooseCapacityCandidate(less: (string, string) -> bool, candidates: seq<Candidate>)
    returns (r: Option<Candidate>)
    requires StrictTotal(less) && DistinctIds(candidates)
    ensures r.None? <==> forall c <- candidates :: !c.admissible
    ensures r.Some? ==> Best(less, candidates, r.value)
  {
    hide Compare, StrictTotal;
    var admissible := Admitted(candidates);
    if |admissible| == 0 {
      forall c <- candidates
        ensures !c.admissible
      {
        assert c !in admissible;
      }
      return None;
    }
    var best := First(less, admissible);
    forall d <- candidates | d.admissible && d != best
      ensures Before(less, best, d)
    {
      assert d in admissible;
      CompareOpposite(less, best, d);
    }
    return Some(best);
  }

  /** There is only one best candidate, and it does not depend on the order of the list or on repetitions in it. */
  lemma ChoiceIgnoresOrder(less: (string, string) -> bool, a: seq<Candidate>, b: seq<Candidate>, x: Candidate,
                           y: Candidate)
    requires StrictTotal(less)
    requires forall c :: c in a <==> c in b
    requires Best(less, a, x) && Best(less, b, y)
    ensures x == y
  {
    hide Compare, StrictTotal;
    CompareOpposite(less, x, y);
  }

  /**
   * The best candidate has the highest score. Among equals in all that is compared first, it has the
   * most class tokens, then class slots, then tokens, then slots to spare (no limit beats any), and is
   * local if the other is; and of two that are equal in all of this it has the smaller identifier.
   */
  lemma BestIsOptimal(less: (string, string) -> bool, candidates: seq<Candidate>, best: Candidate, c: Candidate)
    requires Best(less, candidates, best) && c in candidates && c.admissible
    ensures c.score <= best.score
    ensures c.score == best.score ==> AtLeast(best.classTokenHeadroom, c.classTokenHeadroom)
    ensures c.score == best.score && c.classTokenHeadroom == best.classTokenHeadroom ==>
              AtLeast(best.classConcurrencyHeadroom, c.classConcurrencyHeadroom)
    ensures SameClassRoom(c, best) ==> AtLeast(best.tokenHeadroom, c.tokenHeadroom)
    ensures SameClassRoom(c, best) && c.tokenHeadroom == best.tokenHeadroom ==>
              c.concurrencyHeadroom <= best.concurrencyHeadroom
    ensures SameRoom(c, best) && c.local ==> best.local
    ensures SameRoom(c, best) && c.local == best.local ==> c == best || less(best.instanceId, c.instanceId)
  {
    assert c == best || Before(less, best, c);
  }

  predicate SameClassRoom(a: Candidate, b: Candidate) {
    && a.score == b.score
    && a.classTokenHeadroom == b.classTokenHeadroom
    && a.classConcurrencyHeadroom == b.classConcurrencyHeadroom
  }

  predicate SameRoom(a: Candidate, b: Candidate) {
    SameClassRoom(a, b) && a.tokenHeadroom == b.tokenHeadroom && a.concurrencyHeadroom == b.concurrencyHeadroom
  }

  /** At least as much to spare; `None` is without limit. */
  predicate AtLeast(a: Option<int>, b: Option<int>) {
    a.None? || (b.Some? && b.value <= a.value)
  }
}

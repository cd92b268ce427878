/**
 * Retry hints for refused admissions: `src/retry-hint.ts`. Averages are exact reals, and the
 * exponential weight is a parameter known only to lie above 0 and at most 1.
 */
module RetryHint {
  import opened Wrappers

  datatype Options = Options(enabled: bool, minMs: real, maxMs: real, minSamples: nat)

  datatype Reason = ConcurrencyLimit | QueueLimit | BudgetLimit | Timeout | Shutdown | Aborted | UnshareableResult

  datatype BudgetDetail = BudgetDetail(requested: int, available: int)

  datatype Detail = Detail(pending: Option<nat>, tokenBudget: Option<BudgetDetail>)

  datatype PoolState = PoolState(intervalMs: real, tokensPerCompletion: real, lastCompletionAtMs: real, samples: nat)

  datatype Completion = Completion(releasedTokens: real, nowMs: real)

  /** What the constructor lets through. */
  predicate OptionsOk(o: Options) {
    0.0 <= o.minMs <= o.maxMs && o.minSamples >= 1
  }

  /** `Math.pow(0.5, gap / halfLife)`, for a positive half-life. */
  ghost predicate Decays(decay: real -> real) {
    forall gap :: gap >= 0.0 ==> 0.0 < decay(gap) <= 1.0
  }

  // ---------- Averages ----------

  function Gap(s: PoolState, c: Completion): real {
    MaxReal(0.0, c.nowMs - s.lastCompletionAtMs)
  }

  /** A product, named so that a proof can keep it whole. */
  function Times(a: real, b: real): real {
    a * b
  }

  function Blend(was: real, now: real, alpha: real): real {
    Times(was, alpha) + Times(now, 1.0 - alpha)
  }

  /** The state after the first completion, and after each later one. */
  function First(c: Completion): PoolState {
    PoolState(0.0, MaxReal(0.0, c.releasedTokens), c.nowMs, 0)
  }

  function Next(decay: real -> real, s: PoolState, c: Completion): PoolState {
    var gap := Gap(s, c);
    var alpha := decay(gap);
    PoolState(
      if s.samples == 0 then gap else Blend(s.intervalMs, gap, alpha),
      Blend(s.tokensPerCompletion, MaxReal(0.0, c.releasedTokens), alpha),
      c.nowMs,
      s.samples + 1)
  }

  function Observed(decay: real -> real, completions: seq<Completion>): PoolState
    requires completions != []
  {
    var n := |completions| - 1;
    if n == 0 then First(completions[0]) else Next(decay, Observed(decay, completions[..n]), completions[n])
  }

  lemma TimesMonotone(a: real, b: real, t: real)
    requires a <= b && t >= 0.0
    ensures Times(a, t) <= Times(b, t)
  {
  }

  lemma Shares(x: real, alpha: real)
    ensures Times(x, alpha) + Times(x, 1.0 - alpha) == x
  {
  }

  /** A weighted mean lies between its two values. */
  lemma BlendBetween(was: real, now: real, alpha: real, low: real, high: real)
    requires 0.0 < alpha <= 1.0
    requires low <= was <= high && low <= now <= high
    ensures low <= Blend(was, now, alpha) <= high
  {
    hide Times;
    TimesMonotone(low, was, alpha);
    TimesMonotone(was, high, alpha);
    TimesMonotone(low, now, 1.0 - alpha);
    TimesMonotone(now, high, 1.0 - alpha);
    Shares(low, alpha);
    Shares(high, alpha);
  }

  /** The gap between consecutive completions, never counted as negative. */
  function GapAt(completions: seq<Completion>, i: nat): real
    requires 0 < i < |completions|
  {
    MaxReal(0.0, completions[i].nowMs - completions[i - 1].nowMs)
  }

  /** Every observed gap, and every observed release, lies in the range. */
  ghost predicate GapsWithin(completions: seq<Completion>, low: real, high: real) {
    forall i | 0 < i < |completions| :: low <= GapAt(completions, i) <= high
  }

  ghost predicate ReleasesWithin(completions: seq<Completion>, low: real, high: real) {
    forall i | 0 <= i < |completions| :: low <= MaxReal(0.0, completions[i].releasedTokens) <= high
  }

  /**
   * The interval average stays between the smallest and the largest observed gap, and the average
   * release between the smallest and the largest release. There is one gap fewer than completions.
   */
  lemma {:induction false} AveragesAreBounded(decay: real -> real, completions: seq<Completion>, low: real, high: real,
                                              least: real, most: real)
    requires Decays(decay) && completions != []
    requires GapsWithin(completions, low, high) && ReleasesWithin(completions, least, most)
    ensures var s := Observed(decay, completions);
            && s.samples == |completions| - 1
            && s.lastCompletionAtMs == completions[|completions| - 1].nowMs
            && (s.samples > 0 ==> low <= s.intervalMs <= high)
            && least <= s.tokensPerCompletion <= most
    decreases |completions|
  {
    var n := |completions| - 1;
    if n > 0 {
      var before, c := completions[..n], completions[n];
      forall i | 0 < i < n
        ensures GapAt(before, i) == GapAt(completions, i)
      {
      }
      AveragesAreBounded(decay, before, low, high, least, most);
      var s := Observed(decay, before);
      assert Gap(s, c) == GapAt(completions, n);
      var alpha := decay(Gap(s, c));
      BlendBetween(s.tokensPerCompletion, MaxReal(0.0, c.releasedTokens), alpha, least, most);
      if s.samples > 0 {
        BlendBetween(s.intervalMs, Gap(s, c), alpha, low, high);
      }
    }
  }

  /**
   * Each observation pulls the averages towards itself: what is left of the distance to it is the
   * decay of the gap before it. A gap that does not decay leaves them where they are, and the first gap
   * is taken whole.
   */
  lemma LatestPulls(decay: real -> real, s: PoolState, c: Completion)
    ensures var t, gap, released := Next(decay, s, c), Gap(s, c), MaxReal(0.0, c.releasedTokens);
            && (s.samples == 0 ==> t.intervalMs == gap)
            && (s.samples > 0 ==> t.intervalMs - gap == decay(gap) * (s.intervalMs - gap))
            && t.tokensPerCompletion - released == decay(gap) * (s.tokensPerCompletion - released)
            && (decay(gap) == 1.0 ==>
                  t.tokensPerCompletion == s.tokensPerCompletion && (s.samples > 0 ==> t.intervalMs == s.intervalMs))
  {
    hide Times;
    var alpha, gap, released := decay(Gap(s, c)), Gap(s, c), MaxReal(0.0, c.releasedTokens);
    BlendDistance(s.intervalMs, gap, alpha);
    BlendDistance(s.tokensPerCompletion, released, alpha);
  }

  lemma BlendDistance(was: real, now: real, alpha: real)
    ensures Blend(was, now, alpha) - now == alpha * (was - now)
    ensures alpha == 1.0 ==> Blend(was, now, alpha) == was
  {
  }

  // ---------- Hints ----------

  /** `Math.round`: the nearest integer, halves upwards. */
  function Round(x: real): int {
    (x + 0.5).Floor
  }

  /** `Math.ceil`. */
  function Ceil(x: real): (c: int)
    ensures (c - 1) as real < x <= c as real
  {
    -((-x).Floor)
  }

  predicate Hintable(r: Reason) {
    r.ConcurrencyLimit? || r.QueueLimit? || r.BudgetLimit? || r.Timeout?
  }

  /** `#completionsAhead`. */
  function CompletionsAhead(r: Reason, d: Option<Detail>, s: PoolState): Option<int> {
    if r.BudgetLimit? then
      if d.None? || d.value.tokenBudget.None? then None
      else
        var deficit := Max(0, d.value.tokenBudget.value.requested - d.value.tokenBudget.value.available);
        if deficit == 0 then Some(1)
        else if s.tokensPerCompletion <= 0.0 then None
        else Some(Max(1, Ceil(deficit as real / s.tokensPerCompletion)))
    else Some(Max(1, (if d.None? then 0 else d.value.pending.GetOr(0)) + 1))
  }

  function RawWait(r: Reason, d: Option<Detail>, s: PoolState, nowMs: real): Option<real> {
    var ahead := CompletionsAhead(r, d, s);
    if ahead.None? then None
    else Some(Wait(ahead.value, s, nowMs))
  }

  /** From `nowMs` until so many completions are due, one every average interval; negative once they are late. */
  function Wait(completionsAhead: int, s: PoolState, nowMs: real): real {
    completionsAhead as real * s.intervalMs - MaxReal(0.0, nowMs - s.lastCompletionAtMs)
  }

  function Clamp(o: Options, raw: real): real {
    MinReal(o.maxMs, MaxReal(o.minMs, raw))
  }

  function HintFor(o: Options, state: Option<PoolState>, r: Reason, d: Option<Detail>, nowMs: real): Option<int> {
    if !o.enabled || !Hintable(r) || state.None? || state.value.samples < o.minSamples
       || state.value.intervalMs <= 0.0 then None
    else
      var raw := RawWait(r, d, state.value, nowMs);
      if raw.None? then None else Some(Round(Clamp(o, raw.value)))
  }

  /**
   * There is a hint exactly when hints are on, the pool has been watched long enough and is moving, and
   * the refusal is one that time can lift: for want of slots, of a place in the queue or of time; or for
   * want of tokens, if completions release any or none are missing.
   */
  lemma HintedExactly(o: Options, state: Option<PoolState>, r: Reason, d: Option<Detail>, nowMs: real)
    ensures HintFor(o, state, r, d, nowMs).Some? <==>
              && o.enabled && state.Some? && state.value.samples >= o.minSamples && state.value.intervalMs > 0.0
              && (|| r == ConcurrencyLimit || r == QueueLimit || r == Timeout
                  || (&& r == BudgetLimit && d.Some? && d.value.tokenBudget.Some?
                      && (state.value.tokensPerCompletion > 0.0
                          || d.value.tokenBudget.value.requested <= d.value.tokenBudget.value.available)))
  {
    hide Round, Clamp, Wait, Ceil;
  }

  /** So many average completions release enough. */
  predicate Covers(completions: int, tokensEach: real, deficit: real) {
    deficit <= completions as real * tokensEach
  }

  /** A wait for tokens counts the fewest average completions that cover the deficit. */
  lemma BudgetWaitIsLeast(d: Detail, s: PoolState)
    requires d.tokenBudget.Some? && d.tokenBudget.value.requested > d.tokenBudget.value.available
             && s.tokensPerCompletion > 0.0
    ensures var deficit := (d.tokenBudget.value.requested - d.tokenBudget.value.available) as real;
            var n := CompletionsAhead(BudgetLimit, Some(d), s);
            && n.Some? && n.value >= 1
            && Covers(n.value, s.tokensPerCompletion, deficit)
            && forall m | Covers(m, s.tokensPerCompletion, deficit) :: n.value <= m
  {
    var deficit := (d.tokenBudget.value.requested - d.tokenBudget.value.available) as real;
    var t := s.tokensPerCompletion;
    var x := deficit / t;
    assert x * t == deficit;
    assert x > 0.0;
    var n := Ceil(x);
    assert n >= 1;
    TimesMonotone(x, n as real, t);
    forall m | Covers(m, t, deficit)
      ensures n <= m
    {
      CoversQuotient(deficit, m as real, t);
    }
  }

  /** With nothing missing, a refusal for want of tokens waits for the next completion. */
  lemma NothingMissingWaitsForOne(d: Detail, s: PoolState)
    requires d.tokenBudget.Some? && d.tokenBudget.value.requested <= d.tokenBudget.value.available
    ensures CompletionsAhead(BudgetLimit, Some(d), s) == Some(1)
  {
  }

  lemma CoversQuotient(deficit: real, m: real, t: real)
    requires t > 0.0 && deficit <= m * t
    ensures deficit / t <= m
  {
  }

  lemma RoundMonotone(a: real, b: real)
    requires a <= b
    ensures Round(a) <= Round(b)
  {
  }

  /** A hint lies between the rounded bounds, whatever was observed. */
  lemma HintWithinRounded(o: Options, state: Option<PoolState>, r: Reason, d: Option<Detail>, nowMs: real)
    requires OptionsOk(o)
    ensures var h := HintFor(o, state, r, d, nowMs); h.Some? ==> Round(o.minMs) <= h.value <= Round(o.maxMs)
  {
    if HintFor(o, state, r, d, nowMs).Some? {
      var w := Clamp(o, RawWait(r, d, state.value, nowMs).value);
      RoundMonotone(o.minMs, w);
      RoundMonotone(w, o.maxMs);
    }
  }

  /**
   * Waiting that long ends when the last completion needed is due, if completions keep coming at the
   * average interval; and a hint that is not cut off by the bounds is that wait to within half a millisecond.
   */
  lemma HintReachesLastNeeded(o: Options, s: PoolState, r: Reason, d: Option<Detail>, nowMs: real)
    requires HintFor(o, Some(s), r, d, nowMs).Some? && s.lastCompletionAtMs <= nowMs
    ensures var hint := HintFor(o, Some(s), r, d, nowMs).value;
            var due := s.lastCompletionAtMs + CompletionsAhead(r, d, s).value as real * s.intervalMs;
            o.minMs <= due - nowMs <= o.maxMs ==> due - 0.5 < nowMs + hint as real <= due + 0.5
  {
    hide CompletionsAhead;
    var wait := RawWait(r, d, s, nowMs).value;
    if o.minMs <= wait <= o.maxMs {
      assert Clamp(o, wait) == wait;
    }
  }

  /** Without a token shortage, the requests in the queue go first, and one more completion makes room for this one. */
  lemma QueueWaitsForAllBefore(r: Reason, pending: nat, budget: Option<BudgetDetail>, s: PoolState)
    requires r.ConcurrencyLimit? || r.QueueLimit? || r.Timeout?
    ensures CompletionsAhead(r, Some(Detail(Some(pending), budget)), s) == Some(pending + 1)
    ensures CompletionsAhead(r, None, s) == Some(1) == CompletionsAhead(r, Some(Detail(None, budget)), s)
  {
  }

  predicate WithinBounds(o: Options, hint: Option<int>) {
    hint.Some? ==> o.minMs <= hint.value as real <= o.maxMs
  }

  /** Rounding does not take the bounds themselves outside. It never does when they are integers. */
  predicate BoundsRoundInward(o: Options) {
    o.minMs <= Round(o.minMs) as real && Round(o.maxMs) as real <= o.maxMs
  }

  /** Hints lie within the configured bounds exactly when rounding leaves the bounds inside. */
  lemma HintsWithinBoundsExactly(o: Options)
    requires OptionsOk(o) && o.enabled
    ensures (forall state, r, d, nowMs :: WithinBounds(o, HintFor(o, state, r, d, nowMs))) <==> BoundsRoundInward(o)
  {
    hide HintFor, Round;
    if BoundsRoundInward(o) {
      forall state, r, d, nowMs
        ensures WithinBounds(o, HintFor(o, state, r, d, nowMs))
      {
        HintWithinRounded(o, state, r, d, nowMs);
      }
    } else {
      BoundsAreReached(o);
      var low, lowAt :| HintFor(o, low, QueueLimit, None, lowAt) == Some(Round(o.minMs));
      var high, highAt :| HintFor(o, high, QueueLimit, None, highAt) == Some(Round(o.maxMs));
      assert !WithinBounds(o, HintFor(o, low, QueueLimit, None, lowAt))
             || !WithinBounds(o, HintFor(o, high, QueueLimit, None, highAt)) by {
        assert Round(o.minMs) <= Round(o.maxMs) by {
          RoundMonotone(o.minMs, o.maxMs);
        }
      }
    }
  }

  lemma IntegerBoundsRoundInward(o: Options, minMs: int, maxMs: int)
    requires o.minMs == minMs as real && o.maxMs == maxMs as real
    ensures BoundsRoundInward(o)
  {
    RoundInteger(minMs);
    RoundInteger(maxMs);
    hide Round;
  }

  /** A floor of 0.4 milliseconds rounds to nothing, and a wait within it is hinted as nothing. */
  lemma FloorRoundsOutward()
    ensures var o, s := Options(true, 0.4, 30000.0, 3), PoolState(1.0, 0.0, 0.0, 3);
            && OptionsOk(o) && !BoundsRoundInward(o)
            && HintFor(o, Some(s), QueueLimit, None, 1.0) == Some(0)
            && !WithinBounds(o, Some(0))
  {
    assert CompletionsAhead(QueueLimit, None, PoolState(1.0, 0.0, 0.0, 3)) == Some(1);
    assert Round(0.4) == 0;
  }

  lemma RoundInteger(n: int)
    ensures Round(n as real) == n
  {
  }

  /** Both bounds are hinted for some observations. */
  lemma BoundsAreReached(o: Options)
    requires OptionsOk(o) && o.enabled
    ensures exists state, nowMs :: HintFor(o, state, QueueLimit, None, nowMs) == Some(Round(o.minMs))
    ensures exists state, nowMs :: HintFor(o, state, QueueLimit, None, nowMs) == Some(Round(o.maxMs))
  {
    var soon := PoolState(1.0, 0.0, 0.0, o.minSamples);
    assert HintFor(o, Some(soon), QueueLimit, None, 1.0) == Some(Round(o.minMs));
    var late := PoolState(o.maxMs + 1.0, 0.0, 0.0, o.minSamples);
    assert HintFor(o, Some(late), QueueLimit, None, 0.0) == Some(Round(o.maxMs));
  }

  // ---------- Retry-After, section 10.2.3 of RFC 9110 ----------

  const RETRY_AFTER_RESOLUTION_MS := 1000

  function RetryAfterSeconds(hintMs: int): Option<int> {
    if hintMs < RETRY_AFTER_RESOLUTION_MS then None else Some(Ceil(hintMs as real / RETRY_AFTER_RESOLUTION_MS as real))
  }

  /**
   * The header is never shorter than the hint and overshoots by less than a second; it is absent
   * exactly below one second.
   */
  lemma RetryAfterCoversHint(hintMs: int)
    ensures RetryAfterSeconds(hintMs).None? <==> hintMs < 1000
    ensures RetryAfterSeconds(hintMs).Some? ==> hintMs <= RetryAfterSeconds(hintMs).value * 1000 < hintMs + 1000
  {
    if hintMs >= 1000 {
      var s := RetryAfterSeconds(hintMs).value;
      assert hintMs as real / 1000.0 <= s as real;
      assert hintMs as real <= s as real * 1000.0;
      assert (s - 1) as real * 1000.0 < hintMs as real;
    }
  }

  /** The longest wait the header can ask for, in milliseconds: a property of the options alone. */
  function LongestHeaderMs(o: Options): int {
    RetryAfterSeconds(Round(o.maxMs)).GetOr(0) * RETRY_AFTER_RESOLUTION_MS
  }

  /** The wait is past the ceiling, and past what the ceiling becomes once it is whole seconds. */
  predicate CutOff(o: Options, wait: real) {
    wait > o.maxMs && wait > LongestHeaderMs(o) as real
  }

  /** The wait is over so many seconds; and it, or the floor if larger, by less than half a millisecond. */
  predicate JustOver(o: Options, wait: real, seconds: nat) {
    && (seconds * RETRY_AFTER_RESOLUTION_MS) as real < wait
    && MaxReal(o.minMs, wait) < (seconds * RETRY_AFTER_RESOLUTION_MS) as real + 0.5
  }

  /** The wait is within the ceiling, and rounding to milliseconds leaves whole seconds shorter than it. */
  ghost predicate RoundedDown(o: Options, wait: real) {
    wait <= o.maxMs && exists seconds: nat :: JustOver(o, wait, seconds)
  }

  /**
   * The header covers the wait that was estimated, so that a caller who obeys it does not come before
   * the last completion needed is due, exactly when the wait was neither cut off nor rounded down.
   */
  lemma HeaderCoversWaitExactly(o: Options, s: PoolState, r: Reason, d: Option<Detail>, nowMs: real, hint: int,
                                seconds: int)
    requires OptionsOk(o)
    requires HintFor(o, Some(s), r, d, nowMs) == Some(hint) && RetryAfterSeconds(hint) == Some(seconds)
    ensures var wait := RawWait(r, d, s, nowMs);
            && wait.Some?
            && (wait.value <= (seconds * RETRY_AFTER_RESOLUTION_MS) as real <==>
                  !CutOff(o, wait.value) && !RoundedDown(o, wait.value))
  {
    hide RawWait;
    var wait := RawWait(r, d, s, nowMs).value;
    RetryAfterCoversHint(hint);
    hide RetryAfterSeconds;
    if wait > o.maxMs {
      assert Clamp(o, wait) == o.maxMs;
    } else {
      assert Clamp(o, wait) == MaxReal(o.minMs, wait);
      CoveredExactly(o, wait, hint, seconds);
    }
  }

  /** Within the ceiling, the header falls short of the wait exactly when the wait is just over whole seconds. */
  lemma CoveredExactly(o: Options, wait: real, hint: int, seconds: int)
    requires hint == Round(MaxReal(o.minMs, wait)) && 1000 <= hint <= seconds * 1000 < hint + 1000
    ensures wait <= (seconds * 1000) as real <==> !exists n: nat :: JustOver(o, wait, n)
  {
    RoundIsNear(MaxReal(o.minMs, wait));
    if (seconds * 1000) as real < wait {
      assert hint == seconds * 1000;
      assert JustOver(o, wait, seconds);
    }
    forall n: nat | JustOver(o, wait, n)
      ensures n == seconds && (seconds * 1000) as real < wait
    {
      assert hint == n * 1000;
    }
  }

  lemma RoundIsNear(x: real)
    ensures Round(x) as real - 0.5 <= x < Round(x) as real + 0.5
  {
  }

  lemma WholeSecondsOrMore(whole: int, seconds: int)
    requires whole * 1000 <= seconds * 1000 < whole * 1000 + 1000
    ensures whole == seconds
  {
  }

  /** With integer bounds and a ceiling of whole seconds, a wait is cut off exactly when it is past the ceiling. */
  lemma WholeCeilingCutsOff(o: Options, ceiling: nat, wait: real)
    requires o.maxMs == (ceiling * 1000) as real && ceiling > 0
    ensures LongestHeaderMs(o) == ceiling * 1000
    ensures CutOff(o, wait) <==> wait > o.maxMs
  {
    RoundInteger(ceiling * 1000);
    RetryAfterCoversHint(ceiling * 1000);
    WholeSecondsOrMore(ceiling, RetryAfterSeconds(ceiling * 1000).value);
  }

  const DEFAULTS := Options(true, 50.0, 30000.0, 3)

  /** Ten completions at ten seconds each are due in 100 seconds; the header says 30. */
  lemma CutOffComesEarly()
    ensures var s := PoolState(10000.0, 0.0, 0.0, 3);
            var d := Some(Detail(Some(9), None));
            && RawWait(QueueLimit, d, s, 0.0) == Some(100000.0)
            && HintFor(DEFAULTS, Some(s), QueueLimit, d, 0.0) == Some(30000)
            && RetryAfterSeconds(30000) == Some(30)
            && CutOff(DEFAULTS, 100000.0) && !RoundedDown(DEFAULTS, 100000.0)
  {
    WholeCeilingCutsOff(DEFAULTS, 30, 100000.0);
    SecondsOf(30);
    assert CompletionsAhead(QueueLimit, Some(Detail(Some(9), None)), PoolState(10000.0, 0.0, 0.0, 3)) == Some(10);
    assert RawWait(QueueLimit, Some(Detail(Some(9), None)), PoolState(10000.0, 0.0, 0.0, 3), 0.0) == Some(100000.0);
    RoundInteger(30000);
  }

  /** One completion is due in 1000.25 milliseconds; the header says one second. */
  lemma RoundingComesEarly()
    ensures var s := PoolState(1000.25, 0.0, 0.0, 3);
            && RawWait(QueueLimit, None, s, 0.0) == Some(1000.25)
            && HintFor(DEFAULTS, Some(s), QueueLimit, None, 0.0) == Some(1000)
            && RetryAfterSeconds(1000) == Some(1)
            && RoundedDown(DEFAULTS, 1000.25) && !CutOff(DEFAULTS, 1000.25)
  {
    SecondsOf(1);
    assert CompletionsAhead(QueueLimit, None, PoolState(1000.25, 0.0, 0.0, 3)) == Some(1);
    assert Round(1000.25) == 1000;
    assert JustOver(DEFAULTS, 1000.25, 1);
    assert LongestHeaderMs(DEFAULTS) == 30000 by {
      WholeCeilingCutsOff(DEFAULTS, 30, 1000.25);
    }
  }

  lemma SecondsOf(seconds: nat)
    requires seconds > 0
    ensures RetryAfterSeconds(seconds * 1000) == Some(seconds)
  {
    RetryAfterCoversHint(seconds * 1000);
    WholeSecondsOrMore(seconds, RetryAfterSeconds(seconds * 1000).value);
  }

  // ---------- The estimator ----------

  lemma FirstObserved(decay: real -> real, c: Completion)
    ensures Observed(decay, [c]) == First(c)
  {
  }

  lemma ObservedMore(decay: real -> real, seen: seq<Completion>, c: Completion)
    requires seen != []
    ensures Observed(decay, seen + [c]) == Next(decay, Observed(decay, seen), c)
  {
    assert (seen + [c])[..|seen|] == seen;
  }

  function Recorded(history: map<string, seq<Completion>>, pool: string, c: Completion): map<string, seq<Completion>> {
    history[pool := if pool in history then history[pool] + [c] else [c]]
  }

  class RetryHintEstimator {
    const opts: Options
    const decay: real -> real
    var pools: map<string, PoolState>
    ghost var history: map<string, seq<Completion>>

    /** Each pool's state is the average of its own completions. */
    ghost predicate Valid()
      reads this
    {
      && pools.Keys == history.Keys
      && forall p <- pools :: history[p] != [] && pools[p] == Observed(decay, history[p])
    }

    /** Where the original throws, no estimator is built. */
    constructor (opts: Options, decay: real -> real)
      requires OptionsOk(opts)
      ensures Valid() && this.opts == opts && this.decay == decay && history == map[]
    {
      this.opts, this.decay := opts, decay;
      pools, history := map[], map[];
    }

    method ObserveCompletion(pool: string, releasedTokens: real, nowMs: real)
      requires Valid()
      modifies this
      ensures Valid()
      ensures history ==
                if opts.enabled then Recorded(old(history), pool, Completion(releasedTokens, nowMs)) else old(history)
    {
      hide Blend, Observed;
      if !opts.enabled {
        return;
      }
      ghost var completion := Completion(releasedTokens, nowMs);
      if pool !in pools {
        FirstObserved(decay, completion);
        pools := pools[pool := PoolState(0.0, MaxReal(0.0, releasedTokens), nowMs, 0)];
      } else {
        ObservedMore(decay, history[pool], completion);
        var state := pools[pool];
        var gap := MaxReal(0.0, nowMs - state.lastCompletionAtMs);
        var alpha := decay(gap);
        var intervalMs := if state.samples == 0 then gap else Blend(state.intervalMs, gap, alpha);
        var tokensPerCompletion := Blend(state.tokensPerCompletion, MaxReal(0.0, releasedTokens), alpha);
        pools := pools[pool := PoolState(intervalMs, tokensPerCompletion, nowMs, state.samples + 1)];
      }
      history := Recorded(history, pool, completion);
    }

    method HintMs(pool: string, reason: Reason, detail: Option<Detail>, nowMs: real) returns (hint: Option<int>)
      requires Valid()
      ensures hint ==
                HintFor(opts, if pool in history then Some(Observed(decay, history[pool])) else None,
                        reason, detail, nowMs)
    {
      hide Round, CompletionsAhead, Observed, Wait;
      if !opts.enabled || !Hintable(reason) || pool !in pools {
        return None;
      }
      var state := pools[pool];
      if state.samples < opts.minSamples || state.intervalMs <= 0.0 {
        return None;
      }
      var completionsAhead := CompletionsAhead(reason, detail, state);
      if completionsAhead.None? {
        return None;
      }
      var raw := Wait(completionsAhead.value, state, nowMs);
      return Some(Round(MinReal(opts.maxMs, MaxReal(opts.minMs, raw))));
    }
  }
}

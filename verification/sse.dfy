/**
 * The incremental usage extractor of `src/sse.ts`. JSON parsing is a parameter that turns a data
 * line into the event the extractor looks for, so every result holds for any parser.
 */
module SSE {
  import opened Wrappers
  import opened Text

  /** A field that should hold a number: `NotFinite` stands for anything else. */
  datatype Amount = NotFinite | Finite(value: real)

  datatype Event =
    | Malformed
    | MessageStart(inputTokens: Amount)
    | MessageDelta(outputTokens: Amount)
    | OtherEvent

  datatype UsageObservation = UsageObservation(input: int, output: int)

  datatype Usage = Usage(input: int, output: int, sawAny: bool)

  const START := Usage(0, 0, false)

  // ---------- The meaning of a stream, taken whole ----------

  function IndexOfNewline(s: string): (idx: int)
    ensures -1 <= idx < |s|
    ensures idx >= 0 ==> s[idx] == '\n' && '\n' !in s[..idx]
    ensures idx == -1 ==> '\n' !in s
  {
    if s == "" then -1
    else if s[0] == '\n' then 0
    else
      var rest := IndexOfNewline(s[1..]);
      assert s == [s[0]] + s[1..];
      if rest == -1 then -1
      else
        assert s[..rest + 1] == [s[0]] + s[1..][..rest];
        rest + 1
  }

  /** The complete lines of a text, and what follows the last newline. */
  function Lines(text: string): seq<string>
    decreases |text|
  {
    var idx := IndexOfNewline(text);
    if idx == -1 then [] else [text[..idx]] + Lines(text[idx + 1..])
  }

  function Tail(text: string): (tail: string)
    ensures '\n' !in tail
    decreases |text|
  {
    var idx := IndexOfNewline(text);
    if idx == -1 then text else Tail(text[idx + 1..])
  }

  predicate StartsWith(s: string, prefix: string) {
    |prefix| <= |s| && s[..|prefix|] == prefix
  }

  function DropCarriageReturn(line: string): string {
    if line != "" && line[|line| - 1] == '\r' then line[..|line| - 1] else line
  }

  /** The event a line carries, if it is a data line. */
  function EventOf(parse: string -> Event, raw: string): Event {
    var line := DropCarriageReturn(raw);
    if StartsWith(line, "data:") then parse(Trim(line[5..])) else OtherEvent
  }

  function Observe(u: Usage, e: Event): Usage {
    match e
    case MessageStart(Finite(n)) => if n >= 0.0 then Usage(n.Floor, u.output, true) else u
    case MessageDelta(Finite(n)) => if n >= 0.0 then Usage(u.input, Max(u.output, n.Floor), true) else u
    case _ => u
  }

  predicate Reports(e: Event) {
    match e
    case MessageStart(Finite(n)) => n >= 0.0
    case MessageDelta(Finite(n)) => n >= 0.0
    case _ => false
  }

  /** The usage after a sequence of lines. */
  function UsageAfter(parse: string -> Event, u: Usage, lines: seq<string>): Usage
    decreases |lines|
  {
    if lines == [] then u else UsageAfter(parse, Observe(u, EventOf(parse, lines[0])), lines[1..])
  }

  /** The callbacks a sequence of lines causes, in order. */
  function Callbacks(parse: string -> Event, u: Usage, lines: seq<string>): seq<UsageObservation>
    decreases |lines|
  {
    if lines == [] then []
    else
      var e := EventOf(parse, lines[0]);
      var next := Observe(u, e);
      (if Reports(e) then [UsageObservation(next.input, next.output)] else []) + Callbacks(parse, next, lines[1..])
  }

  // ---------- The extractor ----------

  class SSEUsageExtractor {
    const parse: string -> Event
    var buffer: string
    var input: int
    var output: int
    var sawAny: bool
    /** Everything fed so far, and every callback made. */
    ghost var fed: string
    ghost var called: seq<UsageObservation>

    /** Whatever the chunks were, the state is that of the whole text fed so far. */
    ghost predicate Valid()
      reads this
    {
      && buffer == Tail(fed)
      && Usage(input, output, sawAny) == UsageAfter(parse, START, Lines(fed))
      && called == Callbacks(parse, START, Lines(fed))
    }

    constructor (parse: string -> Event)
      ensures Valid() && this.parse == parse && fed == "" && called == []
    {
      this.parse := parse;
      buffer, input, output, sawAny := "", 0, 0, false;
      fed, called := "", [];
    }

    /** `handleDataLine`; the result is the callback made, if any. */
    method HandleDataLine(json: string) returns (observed: Option<UsageObservation>)
      modifies this`input, this`output, this`sawAny
      ensures Usage(input, output, sawAny) == Observe(old(Usage(input, output, sawAny)), parse(json))
      ensures observed == if Reports(parse(json)) then Some(UsageObservation(input, output)) else None
    {
      observed := None;
      match parse(json) {
        case MessageStart(Finite(n)) =>
          if n >= 0.0 {
            input := n.Floor;
            sawAny := true;
            observed := Some(UsageObservation(input, output));
          }
        case MessageDelta(Finite(n)) =>
          if n >= 0.0 {
            output := Max(output, n.Floor);
            sawAny := true;
            observed := Some(UsageObservation(input, output));
          }
        case _ =>
      }
    }

    /** `push`: the callbacks made for this chunk. */
    method Push(chunk: string) returns (observations: seq<UsageObservation>)
      requires Valid()
      modifies this
      ensures Valid() && fed == old(fed) + chunk && called == old(called) + observations
    {
      hide Tail, Lines, UsageAfter, Callbacks;
      buffer := buffer + chunk;
      observations := HandleLines();
      Appended(parse, fed, chunk);
      fed, called := fed + chunk, called + observations;
    }

    /** The loop over the complete lines in the buffer. */
    method HandleLines() returns (observations: seq<UsageObservation>)
      modifies this`buffer, this`input, this`output, this`sawAny
      ensures buffer == Tail(old(buffer))
      ensures Usage(input, output, sawAny) ==
                UsageAfter(parse, old(Usage(input, output, sawAny)), Lines(old(buffer)))
      ensures observations == Callbacks(parse, old(Usage(input, output, sawAny)), Lines(old(buffer)))
    {
      hide EventOf, Observe, Reports, Tail, Lines, UsageAfter, Callbacks, IndexOfNewline;
      ghost var before, all := Usage(input, output, sawAny), buffer;
      observations := [];
      var idx := IndexOfNewline(buffer);
      NothingHandled(parse, before, all);
      while idx != -1
        invariant idx == IndexOfNewline(buffer)
        invariant Tail(buffer) == Tail(all)
        invariant UsageAfter(parse, Usage(input, output, sawAny), Lines(buffer)) ==
                    UsageAfter(parse, before, Lines(all))
        invariant observations + Callbacks(parse, Usage(input, output, sawAny), Lines(buffer)) ==
                    Callbacks(parse, before, Lines(all))
        decreases |buffer|
      {
        OneLine(parse, Usage(input, output, sawAny), buffer);
        var observed := HandleLine(buffer[..idx]);
        buffer := buffer[idx + 1..];
        observations := observations + observed;
        idx := IndexOfNewline(buffer);
      }
      NoLine(parse, Usage(input, output, sawAny), buffer);
    }

    /** The body of the loop, for one complete line. */
    method HandleLine(raw: string) returns (observed: seq<UsageObservation>)
      modifies this`input, this`output, this`sawAny
      ensures Usage(input, output, sawAny) == Observe(old(Usage(input, output, sawAny)), EventOf(parse, raw))
      ensures observed == if Reports(EventOf(parse, raw)) then [UsageObservation(input, output)] else []
    {
      hide Trim;
      var line := DropCarriageReturn(raw);
      observed := [];
      if StartsWith(line, "data:") {
        var o := HandleDataLine(Trim(line[5..]));
        if o.Some? {
          observed := [o.value];
        }
      }
    }

    /** `current`. */
    method Current() returns (r: Option<UsageObservation>)
      requires Valid()
      ensures r == if called == [] then None else Some(called[|called| - 1])
    {
      LastCallback(parse, START, Lines(fed));
      return if sawAny then Some(UsageObservation(input, output)) else None;
    }
  }

  // ---------- Splitting does not matter ----------

  lemma NothingHandled(parse: string -> Event, u: Usage, all: string)
    ensures [] + Callbacks(parse, u, Lines(all)) == Callbacks(parse, u, Lines(all))
  {
  }

  /** The first line of a text, and the rest. */
  lemma OneLine(parse: string -> Event, u: Usage, text: string)
    requires IndexOfNewline(text) != -1
    ensures var idx := IndexOfNewline(text);
            var rest := text[idx + 1..];
            var e := EventOf(parse, text[..idx]);
            var next := Observe(u, e);
            && Tail(text) == Tail(rest)
            && UsageAfter(parse, u, Lines(text)) == UsageAfter(parse, next, Lines(rest))
            && Callbacks(parse, u, Lines(text)) ==
               (if Reports(e) then [UsageObservation(next.input, next.output)] else [])
               + Callbacks(parse, next, Lines(rest))
  {
    hide EventOf, Observe, Reports, IndexOfNewline;
    LinesOf(text);
    hide Lines, Tail;
    var rest := Lines(text[IndexOfNewline(text) + 1..]);
    assert Lines(text)[1..] == rest;
  }

  lemma NoLine(parse: string -> Event, u: Usage, text: string)
    requires IndexOfNewline(text) == -1
    ensures Tail(text) == text && UsageAfter(parse, u, Lines(text)) == u && Callbacks(parse, u, Lines(text)) == []
  {
  }

  lemma {:induction false} OnlyFirst(s: string, i: nat)
    requires i < |s| && s[i] == '\n' && '\n' !in s[..i]
    ensures IndexOfNewline(s) == i
  {
    if i > 0 {
      assert s[..i][0] == s[0];
      assert s[..i] == [s[0]] + s[1..][..i - 1];
      OnlyFirst(s[1..], i - 1);
    }
  }

  /** The first newline of a text is the first newline of any longer one. */
  lemma IndexOfFirst(a: string, b: string)
    requires IndexOfNewline(a) != -1
    ensures IndexOfNewline(a + b) == IndexOfNewline(a)
  {
    var i := IndexOfNewline(a);
    assert (a + b)[..i] == a[..i];
    OnlyFirst(a + b, i);
  }

  /** Feeding more text: the lines seen so far stay, and the rest come from the leftover and the new text. */
  lemma {:induction false} LinesAppend(a: string, b: string)
    ensures Lines(a + b) == Lines(a) + Lines(Tail(a) + b)
    ensures Tail(a + b) == Tail(Tail(a) + b)
    decreases |a|
  {
    hide Lines, Tail, IndexOfNewline;
    if IndexOfNewline(a) == -1 {
      NoLines(a);
    } else {
      var line, rest := a[..IndexOfNewline(a)], a[IndexOfNewline(a) + 1..];
      LinesOf(a);
      FirstLineStays(a, b);
      LinesAppend(rest, b);
      assert [line] + Lines(rest) + Lines(Tail(a) + b) == [line] + (Lines(rest) + Lines(Tail(a) + b));
    }
  }

  lemma FirstLineStays(a: string, b: string)
    requires IndexOfNewline(a) != -1
    ensures var idx := IndexOfNewline(a);
            && Lines(a + b) == [a[..idx]] + Lines(a[idx + 1..] + b)
            && Tail(a + b) == Tail(a[idx + 1..] + b)
  {
    hide Lines, Tail, IndexOfNewline;
    IndexOfFirst(a, b);
    LinesOf(a + b);
    Slices(a, b, IndexOfNewline(a));
  }

  lemma Slices(a: string, b: string, i: nat)
    requires i < |a|
    ensures (a + b)[..i] == a[..i] && (a + b)[i + 1..] == a[i + 1..] + b
  {
  }

  lemma NoLines(a: string)
    requires IndexOfNewline(a) == -1
    ensures Lines(a) == [] && Tail(a) == a
  {
  }

  lemma LinesOf(a: string)
    requires IndexOfNewline(a) != -1
    ensures var idx := IndexOfNewline(a); Lines(a) == [a[..idx]] + Lines(a[idx + 1..]) && Tail(a) == Tail(a[idx + 1..])
  {
  }

  lemma {:induction false} AfterAppend(parse: string -> Event, u: Usage, a: seq<string>, b: seq<string>)
    ensures UsageAfter(parse, u, a + b) == UsageAfter(parse, UsageAfter(parse, u, a), b)
    ensures Callbacks(parse, u, a + b) == Callbacks(parse, u, a) + Callbacks(parse, UsageAfter(parse, u, a), b)
    decreases |a|
  {
    hide EventOf, Observe, Reports;
    if a == [] {
      assert a + b == b;
    } else {
      assert (a + b)[1..] == a[1..] + b;
      AfterAppend(parse, Observe(u, EventOf(parse, a[0])), a[1..], b);
    }
  }

  lemma Appended(parse: string -> Event, fed: string, chunk: string)
    ensures Tail(fed + chunk) == Tail(Tail(fed) + chunk)
    ensures UsageAfter(parse, START, Lines(fed + chunk)) ==
            UsageAfter(parse, UsageAfter(parse, START, Lines(fed)), Lines(Tail(fed) + chunk))
    ensures Callbacks(parse, START, Lines(fed + chunk)) ==
            Callbacks(parse, START, Lines(fed))
            + Callbacks(parse, UsageAfter(parse, START, Lines(fed)), Lines(Tail(fed) + chunk))
  {
    LinesAppend(fed, chunk);
    AfterAppend(parse, START, Lines(fed), Lines(Tail(fed) + chunk));
  }

  // ---------- What the callbacks say ----------

  /** The last callback is the current usage, and there has been one exactly when any usage was seen. */
  lemma {:induction false} LastCallback(parse: string -> Event, u: Usage, lines: seq<string>)
    ensures var after, called := UsageAfter(parse, u, lines), Callbacks(parse, u, lines);
            && (called == [] ==> after == u)
            && (called != [] ==> after.sawAny && called[|called| - 1] == UsageObservation(after.input, after.output))
    decreases |lines|
  {
    if lines != [] {
      LastCallback(parse, Observe(u, EventOf(parse, lines[0])), lines[1..]);
    }
  }

  predicate Rising(low: int, called: seq<UsageObservation>) {
    && (forall i | 0 <= i < |called| :: low <= called[i].output)
    && (forall i, j | 0 <= i < j < |called| :: called[i].output <= called[j].output)
  }

  lemma RisingCons(low: int, first: UsageObservation, rest: seq<UsageObservation>)
    requires low <= first.output && Rising(first.output, rest)
    ensures Rising(low, [first] + rest)
  {
  }

  /** From one callback to the next the output never falls, and it never falls below where it started. */
  lemma {:induction false} OutputNeverDecreases(parse: string -> Event, u: Usage, lines: seq<string>)
    ensures u.output <= UsageAfter(parse, u, lines).output
    ensures Rising(u.output, Callbacks(parse, u, lines))
    decreases |lines|
  {
    hide Rising, EventOf;
    if lines == [] {
      assert Rising(u.output, []) by {
        NothingRises(u.output);
      }
    } else {
      var e := EventOf(parse, lines[0]);
      var next := Observe(u, e);
      OutputNeverDecreases(parse, next, lines[1..]);
      var rest := Callbacks(parse, next, lines[1..]);
      if Reports(e) {
        RisingCons(u.output, UsageObservation(next.input, next.output), rest);
      } else {
        assert Callbacks(parse, u, lines) == rest;
      }
    }
  }

  lemma NothingRises(low: int)
    ensures Rising(low, [])
  {
  }

  // ---------- Whole streams ----------

  function Concat(chunks: seq<string>): string {
    if chunks == [] then "" else Concat(chunks[..|chunks| - 1]) + chunks[|chunks| - 1]
  }

  /** Feeding a stream in chunks, however it is split, is feeding it whole. */
  method FeedInChunks(parse: string -> Event, chunks: seq<string>)
    returns (observations: seq<UsageObservation>, current: Option<UsageObservation>, leftover: string)
    ensures observations == Callbacks(parse, START, Lines(Concat(chunks)))
    ensures leftover == Tail(Concat(chunks))
    ensures current == if observations == [] then None else Some(observations[|observations| - 1])
  {
    var extractor := new SSEUsageExtractor(parse);
    observations := [];
    for i := 0 to |chunks|
      invariant extractor.Valid() && extractor.parse == parse && fresh(extractor)
      invariant extractor.fed == Concat(chunks[..i]) && extractor.called == observations
    {
      assert chunks[..i + 1][..i] == chunks[..i];
      var more := extractor.Push(chunks[i]);
      observations := observations + more;
    }
    assert chunks[..|chunks|] == chunks;
    current := extractor.Current();
    leftover := extractor.buffer;
  }

  // ---------- What a stream says ----------

  /** The line brings a usable count of the given kind. */
  ghost predicate StartsAt(parse: string -> Event, line: string, n: int) {
    match EventOf(parse, line)
    case MessageStart(Finite(x)) => x >= 0.0 && n as real <= x < n as real + 1.0
    case _ => false
  }

  ghost predicate ReachesOutput(parse: string -> Event, line: string, n: int) {
    match EventOf(parse, line)
    case MessageDelta(Finite(x)) => x >= 0.0 && n as real <= x < n as real + 1.0
    case _ => false
  }

  /** The output is the largest count of output, rounded down, or stays as it was if none is larger. */
  lemma {:induction false} OutputIsLargest(parse: string -> Event, u: Usage, lines: seq<string>)
    ensures var v := UsageAfter(parse, u, lines);
            && u.output <= v.output
            && (forall i, n | 0 <= i < |lines| && ReachesOutput(parse, lines[i], n) :: n <= v.output)
            && (v.output == u.output || exists i | 0 <= i < |lines| :: ReachesOutput(parse, lines[i], v.output))
    decreases |lines|
  {
    hide EventOf;
    if lines != [] {
      var rest, next := lines[1..], Observe(u, EventOf(parse, lines[0]));
      var v := UsageAfter(parse, next, rest);
      OutputIsLargest(parse, next, rest);
      forall i, n | 0 <= i < |lines| && ReachesOutput(parse, lines[i], n)
        ensures n <= v.output
      {
        assert i > 0 ==> lines[i] == rest[i - 1];
      }
      if i :| 0 <= i < |rest| && ReachesOutput(parse, rest[i], v.output) {
        assert lines[i + 1] == rest[i];
      } else if v.output != u.output {
        assert ReachesOutput(parse, lines[0], v.output);
      }
    }
  }

  /** The count is the last count of input in the lines. */
  ghost predicate LastInput(parse: string -> Event, lines: seq<string>, n: int) {
    exists i | 0 <= i < |lines| :: StartsAt(parse, lines[i], n) && NoInputAfter(parse, lines, i + 1)
  }

  ghost predicate NoInputAfter(parse: string -> Event, lines: seq<string>, from: nat) {
    forall j, m | from <= j < |lines| :: !StartsAt(parse, lines[j], m)
  }

  /** The input is the last count of input, rounded down, or stays as it was if there is none. */
  lemma {:induction false} InputIsLast(parse: string -> Event, u: Usage, lines: seq<string>)
    ensures var v := UsageAfter(parse, u, lines);
            LastInput(parse, lines, v.input) || (NoInputAfter(parse, lines, 0) && v.input == u.input)
    decreases |lines|
  {
    hide EventOf;
    if lines != [] {
      var rest, next := lines[1..], Observe(u, EventOf(parse, lines[0]));
      var v := UsageAfter(parse, next, rest);
      InputIsLast(parse, next, rest);
      assert forall j | 0 < j < |lines| :: lines[j] == rest[j - 1];
      if LastInput(parse, rest, v.input) {
        var i :| 0 <= i < |rest| && StartsAt(parse, rest[i], v.input) && NoInputAfter(parse, rest, i + 1);
        assert StartsAt(parse, lines[i + 1], v.input) && NoInputAfter(parse, lines, i + 2);
      } else {
        assert NoInputAfter(parse, lines, 1);
        assert StartsAt(parse, lines[0], next.input) || (next.input == u.input && NoInputAfter(parse, lines, 0));
      }
    }
  }

  /** A line is a data line when it begins with `data:`; what follows is read without the white space around it. */
  lemma DataLines(parse: string -> Event, payload: string, line: string)
    ensures '\r' !in payload ==> EventOf(parse, "data:" + payload) == parse(Trim(payload))
    ensures EventOf(parse, "data:" + payload + "\r") == parse(Trim(payload))
    ensures !StartsWith(line, "data:") ==> EventOf(parse, line) == OtherEvent
  {
  }

  function Rejoined(lines: seq<string>): string {
    if lines == [] then "" else lines[0] + "\n" + Rejoined(lines[1..])
  }

  /** The lines and the tail are the text, cut at every newline. */
  lemma {:induction false} LinesRejoin(text: string)
    ensures Rejoined(Lines(text)) + Tail(text) == text
    ensures forall line <- Lines(text) :: '\n' !in line
    decreases |text|
  {
    hide Lines, Tail, IndexOfNewline, Rejoined;
    var idx := IndexOfNewline(text);
    if idx == -1 {
      NoLines(text);
      RejoinedOne([], "");
    } else {
      var line, rest := text[..idx], text[idx + 1..];
      LinesOf(text);
      LinesRejoin(rest);
      RejoinedOne(Lines(rest), line);
      assert text == line + "\n" + rest;
      assert (line + "\n" + Rejoined(Lines(rest))) + Tail(rest) == line + "\n" + (Rejoined(Lines(rest)) + Tail(rest));
    }
  }

  lemma RejoinedOne(lines: seq<string>, line: string)
    ensures Rejoined([]) == "" && Rejoined([line] + lines) == line + "\n" + Rejoined(lines)
  {
    assert ([line] + lines)[1..] == lines;
  }
}

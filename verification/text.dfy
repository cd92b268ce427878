/** The string operations the source takes from JavaScript. */
module Text {

  /** The white space that `String.prototype.trim` removes. */
  predicate IsSpace(c: char) {
    var n := c as int;
    || 9 <= n <= 13 || n == 32 || n == 160 || n == 5760 || 8192 <= n <= 8202 || n == 8232
    || n == 8233 || n == 8239 || n == 8287 || n == 12288 || n == 65279
  }

  function TrimLeft(s: string): (r: string)
    ensures r == "" || !IsSpace(r[0])
  {
    if s != "" && IsSpace(s[0]) then TrimLeft(s[1..]) else s
  }

  function TrimRight(s: string): (r: string)
    ensures r <= s
    ensures r == "" || !IsSpace(r[|r| - 1])
  {
    if s != "" && IsSpace(s[|s| - 1]) then TrimRight(s[..|s| - 1]) else s
  }

  function Trim(s: string): (r: string)
    ensures r == "" || (!IsSpace(r[0]) && !IsSpace(r[|r| - 1]))
  {
    TrimRight(TrimLeft(s))
  }

  /** Trimming twice is trimming once. */
  lemma TrimIdempotent(s: string)
    ensures Trim(Trim(s)) == Trim(s)
  {
    var t := Trim(s);
    if t != "" {
      assert TrimLeft(t) == t;
    }
  }

  predicate Blank(s: string) {
    Trim(s) == ""
  }

  predicate AllSpace(s: string) {
    forall c <- s :: IsSpace(c)
  }

  /** Trimming takes white space off both ends and leaves the rest. */
  lemma TrimExactly(s: string) returns (left: string, right: string)
    ensures s == left + Trim(s) + right && AllSpace(left) && AllSpace(right)
  {
    left := TakenLeft(s);
    right := TakenRight(TrimLeft(s));
  }

  lemma {:induction false} TakenLeft(s: string) returns (left: string)
    ensures s == left + TrimLeft(s) && AllSpace(left)
  {
    left := "";
    if s != "" && IsSpace(s[0]) {
      var more := TakenLeft(s[1..]);
      left := [s[0]] + more;
    }
  }

  lemma {:induction false} TakenRight(s: string) returns (right: string)
    ensures s == TrimRight(s) + right && AllSpace(right)
  {
    right := "";
    if s != "" && IsSpace(s[|s| - 1]) {
      var more := TakenRight(s[..|s| - 1]);
      right := more + [s[|s| - 1]];
    }
  }
}

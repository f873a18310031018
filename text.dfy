/**
 * The .NET string operations the serial-link client relies on, with ordinal
 * (character-by-character) comparison: `IndexOf`, `Contains`, `StartsWith`,
 * `Trim` and the decimal rendering of an `int`.
 */
module Text {
  import opened Wrappers

  /** The characters for which .NET's `Char.IsWhiteSpace` holds. */
  predicate IsWhiteSpace(c: char) {
    var n := c as int;
    (9 <= n <= 13) || n == 0x20 || n == 0x85 || n == 0xA0 || n == 0x1680
    || (0x2000 <= n <= 0x200A) || n == 0x2028 || n == 0x2029
    || n == 0x202F || n == 0x205F || n == 0x3000
  }

  predicate NoWhiteSpace(s: string) {
    forall k :: 0 <= k < |s| ==> !IsWhiteSpace(s[k])
  }

  /** `s` with its leading white space removed. */
  function TrimStart(s: string): (r: string)
    ensures |r| <= |s| && r == s[|s| - |r|..]
    ensures r == [] || !IsWhiteSpace(r[0])
  {
    if |s| > 0 && IsWhiteSpace(s[0]) then TrimStart(s[1..]) else s
  }

  /** `s` with its trailing white space removed. */
  function TrimEnd(s: string): (r: string)
    ensures |r| <= |s| && r == s[..|r|]
    ensures r == [] || !IsWhiteSpace(r[|r| - 1])
  {
    if |s| > 0 && IsWhiteSpace(s[|s| - 1]) then TrimEnd(s[..|s| - 1]) else s
  }

  /** .NET's `String.Trim()`: white space removed at both ends. */
  function Trim(s: string): string {
    TrimEnd(TrimStart(s))
  }

  /** Everything `TrimStart` cuts off is white space. */
  lemma {:induction false} TrimStartCutsWhiteSpace(s: string)
    ensures forall k :: 0 <= k < |s| - |TrimStart(s)| ==> IsWhiteSpace(s[k])
    decreases |s|
  {
    if |s| > 0 && IsWhiteSpace(s[0]) {
      TrimStartCutsWhiteSpace(s[1..]);
      forall k | 1 <= k < |s| - |TrimStart(s)| ensures IsWhiteSpace(s[k]) {
        assert s[k] == s[1..][k - 1];
      }
    }
  }

  /** Everything `TrimEnd` cuts off is white space. */
  lemma {:induction false} TrimEndCutsWhiteSpace(s: string)
    ensures forall k :: |TrimEnd(s)| <= k < |s| ==> IsWhiteSpace(s[k])
    decreases |s|
  {
    if |s| > 0 && IsWhiteSpace(s[|s| - 1]) {
      TrimEndCutsWhiteSpace(s[..|s| - 1]);
    }
  }

  /**
   * What `Trim` returns is the infix `s[i..i + |r|]`, and everything cut
   * off on either side is white space.
   */
  lemma TrimShape(s: string) returns (i: nat)
    ensures i + |Trim(s)| <= |s| && Trim(s) == s[i..i + |Trim(s)|]
    ensures forall k :: 0 <= k < i ==> IsWhiteSpace(s[k])
    ensures forall k :: i + |Trim(s)| <= k < |s| ==> IsWhiteSpace(s[k])
  {
    var t := TrimStart(s);
    i := |s| - |t|;
    var r := TrimEnd(t);
    TrimStartCutsWhiteSpace(s);
    TrimEndCutsWhiteSpace(t);
    forall k | i + |r| <= k < |s| ensures IsWhiteSpace(s[k]) {
      assert s[k] == t[k - i];
    }
  }

  /** The result of `Trim` neither starts nor ends with white space. */
  lemma TrimEnds(s: string)
    ensures Trim(s) == [] || (!IsWhiteSpace(Trim(s)[0]) && !IsWhiteSpace(Trim(s)[|Trim(s)| - 1]))
  {
    var t := TrimStart(s);
    var r := TrimEnd(t);
    if r != [] {
      assert r[0] == t[0];
    }
  }

  /** A string without white space at either end is its own trim. */
  lemma TrimNoWhiteSpace(s: string)
    requires s == [] || (!IsWhiteSpace(s[0]) && !IsWhiteSpace(s[|s| - 1]))
    ensures Trim(s) == s
  {
  }

  /** Trimming twice is trimming once. */
  lemma {:induction false} TrimIdempotent(s: string)
    ensures Trim(Trim(s)) == Trim(s)
  {
    TrimEnds(s);
    TrimNoWhiteSpace(Trim(s));
  }

  /** `pat` occurs in `s` starting at index `i`. */
  predicate OccursAt(s: string, pat: string, i: int) {
    0 <= i && i + |pat| <= |s| && s[i..i + |pat|] == pat
  }

  /**
   * .NET's `s.IndexOf(pat, from)`: the leftmost index at or after `from`
   * where `pat` occurs, or -1 when there is none (see `IndexOfFromIsFirst`
   * and `IndexOfFromNone`).
   */
  function IndexOfFrom(s: string, pat: string, from: nat): (r: int)
    requires from <= |s|
    ensures r == -1 || (from <= r && OccursAt(s, pat, r))
    decreases |s| - from
  {
    if from + |pat| > |s| then -1
    else if s[from..from + |pat|] == pat then from
    else IndexOfFrom(s, pat, from + 1)
  }

  /** .NET's `s.IndexOf(pat)`. */
  function IndexOf(s: string, pat: string): int {
    IndexOfFrom(s, pat, 0)
  }

  /** The leftmost occurrence of `pat` at or after `from` is at `i`. */
  predicate FirstAt(s: string, pat: string, from: int, i: int) {
    from <= i && OccursAt(s, pat, i) && forall k :: from <= k < i ==> !OccursAt(s, pat, k)
  }

  /** Whether `pat` occurs at `k` depends only on the first `n` characters. */
  lemma OccursInWindow(s: string, t: string, pat: string, k: nat, n: nat)
    requires k + |pat| <= n <= |s| && n <= |t| && s[..n] == t[..n]
    ensures OccursAt(s, pat, k) <==> OccursAt(t, pat, k)
  {
    assert s[k..k + |pat|] == s[..n][k..k + |pat|];
    assert t[k..k + |pat|] == t[..n][k..k + |pat|];
  }

  /** What `IndexOfFrom` finds is the leftmost occurrence. */
  lemma {:induction false} IndexOfFromFound(s: string, pat: string, from: nat)
    requires from <= |s| && IndexOfFrom(s, pat, from) != -1
    ensures FirstAt(s, pat, from, IndexOfFrom(s, pat, from))
    decreases |s| - from
  {
    if !OccursAt(s, pat, from) {
      IndexOfFromFound(s, pat, from + 1);
    }
  }

  /** When `IndexOfFrom` finds nothing, the pattern occurs nowhere from there on. */
  lemma {:induction false} IndexOfFromNone(s: string, pat: string, from: nat, k: int)
    requires from <= |s| && IndexOfFrom(s, pat, from) == -1 && from <= k
    ensures !OccursAt(s, pat, k)
    decreases |s| - from
  {
    if from + |pat| <= |s| && k > from {
      IndexOfFromNone(s, pat, from + 1, k);
    }
  }

  /** The leftmost occurrence is what `IndexOfFrom` finds. */
  lemma IndexOfFromIsFirst(s: string, pat: string, from: nat, i: int)
    requires from <= |s| && FirstAt(s, pat, from, i)
    ensures IndexOfFrom(s, pat, from) == i
  {
    var r := IndexOfFrom(s, pat, from);
    if r == -1 {
      IndexOfFromNone(s, pat, from, i);
    } else {
      IndexOfFromFound(s, pat, from);
    }
  }

  /** .NET's `s.Contains(pat)`. */
  predicate Contains(s: string, pat: string) {
    IndexOf(s, pat) != -1
  }

  /** `Contains` holds exactly when the pattern occurs somewhere. */
  lemma ContainsIff(s: string, pat: string)
    ensures Contains(s, pat) <==> exists k :: OccursAt(s, pat, k)
  {
    if !Contains(s, pat) {
      forall k ensures !OccursAt(s, pat, k) {
        if 0 <= k {
          IndexOfFromNone(s, pat, 0, k);
        }
      }
    }
  }

  /** Extending a string keeps its leftmost occurrence of a pattern. */
  lemma IndexOfExtend(x: string, y: string, pat: string)
    requires Contains(x, pat)
    ensures IndexOf(x + y, pat) == IndexOf(x, pat)
  {
    var i := IndexOf(x, pat);
    IndexOfFromFound(x, pat, 0);
    assert (x + y)[i..i + |pat|] == x[i..i + |pat|];
    forall k | 0 <= k < i
      ensures !OccursAt(x + y, pat, k)
    {
      assert !OccursAt(x, pat, k);
      assert (x + y)[k..k + |pat|] == x[k..k + |pat|];
    }
    IndexOfFromIsFirst(x + y, pat, 0, i);
  }

  /** `c` occurs nowhere in `s`. */
  predicate Lacks(s: string, c: char) {
    forall k :: 0 <= k < |s| ==> s[k] != c
  }

  lemma LacksAppend(a: string, b: string, c: char)
    requires Lacks(a, c) && Lacks(b, c)
    ensures Lacks(a + b, c)
  {
    forall k | 0 <= k < |a + b| ensures (a + b)[k] != c {
      if k >= |a| {
        assert (a + b)[k] == b[k - |a|];
      }
    }
  }

  // ---------------------------------------------------------------------
  // Sequence facts, stated once so that callers need not re-derive them

  lemma AppendAssoc<T>(a: seq<T>, b: seq<T>, c: seq<T>)
    ensures a + (b + c) == (a + b) + c
  {
  }

  lemma ConsAppend<T>(a: seq<T>, b: seq<T>)
    requires a != []
    ensures (a + b)[0] == a[0] && (a + b)[1..] == a[1..] + b
  {
  }

  lemma AppendEmpty<T>(a: seq<T>)
    ensures a + [] == a && [] + a == a
  {
  }

  /** A suffix of a suffix is a suffix. */
  lemma SuffixOfSuffix<T>(s: seq<T>, k: nat, r: seq<T>)
    requires k <= |s| && |r| <= |s| - k && r == s[k..][|s| - k - |r|..]
    ensures r == s[|s| - |r|..]
  {
  }

  /** .NET's `s.StartsWith(p)`. */
  predicate StartsWith(s: string, p: string) {
    |p| <= |s| && s[..|p|] == p
  }

  // ---------------------------------------------------------------------
  // Decimal rendering of integers, as `int.ToString()` and `$"{n}"` give it

  function DigitChar(d: nat): (c: char)
    requires d < 10
    ensures '0' <= c <= '9' && (c as int) - ('0' as int) == d
  {
    (('0' as int) + d) as char
  }

  predicate IsDigits(s: string) {
    |s| > 0 && forall k :: 0 <= k < |s| ==> '0' <= s[k] <= '9'
  }

  /** The decimal digits of `n`, without leading zeros. */
  function NatToString(n: nat): (s: string)
    ensures IsDigits(s)
    ensures s[0] == '0' ==> n == 0
  {
    if n < 10 then [DigitChar(n)] else NatToString(n / 10) + [DigitChar(n % 10)]
  }

  /** `int.ToString()` with the invariant culture's negative sign. */
  function IntToString(n: int): string {
    if n < 0 then "-" + NatToString(-n) else NatToString(n)
  }

  /** The value of a string of decimal digits. */
  function DigitsValue(s: string): nat
    requires IsDigits(s)
  {
    var d := (s[|s| - 1] as int) - ('0' as int);
    if |s| == 1 then d else DigitsValue(s[..|s| - 1]) * 10 + d
  }

  /** Reads back what `IntToString` wrote; `None` for anything else. */
  function ParseInt(s: string): Option<int> {
    if IsDigits(s) then Some(DigitsValue(s) as int)
    else if |s| > 1 && s[0] == '-' && IsDigits(s[1..]) then Some(-(DigitsValue(s[1..]) as int))
    else None
  }

  lemma {:induction false} NatToStringRoundTrip(n: nat)
    ensures DigitsValue(NatToString(n)) == n
  {
    if n >= 10 {
      NatToStringRoundTrip(n / 10);
      var s := NatToString(n);
      assert s[..|s| - 1] == NatToString(n / 10);
    }
  }

  /** Rendering an integer and reading it back gives the integer. */
  lemma {:induction false} IntToStringRoundTrip(n: int)
    ensures ParseInt(IntToString(n)) == Some(n)
  {
    if n < 0 {
      var digits := NatToString(-n);
      NatToStringRoundTrip(-n);
      assert IntToString(n) == "-" + digits;
      assert ("-" + digits)[1..] == digits;
      assert !IsDigits("-" + digits);
    } else {
      NatToStringRoundTrip(n);
    }
  }

  /** Distinct integers are rendered as distinct strings. */
  lemma IntToStringInjective(a: int, b: int)
    ensures IntToString(a) == IntToString(b) ==> a == b
  {
    IntToStringRoundTrip(a);
    IntToStringRoundTrip(b);
  }

  /** A rendered integer holds only digits and possibly a leading minus. */
  lemma IntToStringChars(n: int)
    ensures forall k :: 0 <= k < |IntToString(n)| ==>
      ('0' <= IntToString(n)[k] <= '9') || (k == 0 && IntToString(n)[k] == '-')
  {
  }
}

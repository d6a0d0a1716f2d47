/** Small pieces of Go's runtime that several modules share: optional values, 64-bit
    durations, truncating division, and the parts of package strings the bridge calls. */
module Basics {

  datatype Option<+T> = None | Some(value: T)

  newtype byte = x: int | 0 <= x < 256

  const MAX_INT64: int := 0x7FFF_FFFF_FFFF_FFFF
  const MIN_INT64: int := -0x8000_0000_0000_0000

  predicate IsInt64(x: int) {
    MIN_INT64 <= x <= MAX_INT64
  }

  /** Two's-complement wrap-around of an int64 result. */
  function Wrap64(x: int): int {
    (x - MIN_INT64) % 0x1_0000_0000_0000_0000 + MIN_INT64
  }

  /** time.Time.Sub: the difference of two instants, saturated to an int64 duration. */
  function TimeSub(a: int, b: int): int {
    if a - b > MAX_INT64 then MAX_INT64
    else if a - b < MIN_INT64 then MIN_INT64
    else a - b
  }

  function Min(a: int, b: int): int {
    if a <= b then a else b
  }

  /** Go's `/` and `%` round toward zero. */
  function TruncDiv(a: int, b: int): int
    requires b > 0
  {
    if a >= 0 then a / b else -((-a) / b)
  }

  function TruncMod(a: int, b: int): int
    requires b > 0
  {
    if a >= 0 then a % b else -((-a) % b)
  }

  /** unicode.IsSpace. */
  predicate IsSpace(c: char) {
    || '\t' <= c <= '\r'
    || c == ' ' || c == '\U{85}' || c == '\U{A0}' || c == '\U{1680}'
    || '\U{2000}' <= c <= '\U{200A}'
    || c == '\U{2028}' || c == '\U{2029}' || c == '\U{202F}' || c == '\U{205F}' || c == '\U{3000}'
  }

  function TrimLeft(s: string): string {
    if s != [] && IsSpace(s[0]) then TrimLeft(s[1..]) else s
  }

  function TrimRight(s: string): string {
    if s != [] && IsSpace(s[|s| - 1]) then TrimRight(s[..|s| - 1]) else s
  }

  /** strings.TrimSpace. */
  function TrimSpace(s: string): string {
    TrimRight(TrimLeft(s))
  }

  /** strings.ToLower on the runes whose lower case is an ASCII letter. */
  function LowerRune(c: char): char {
    if 'A' <= c <= 'Z' then ((c as int) + 32) as char
    else if c == '\U{130}' then 'i'
    else if c == '\U{212A}' then 'k'
    else c
  }

  function ToLower(s: string): string {
    seq(|s|, i requires 0 <= i < |s| => LowerRune(s[i]))
  }

  /** The representative of a rune under simple folding, for the orbits that hold an ASCII letter. */
  function FoldRune(c: char): char {
    if 'A' <= c <= 'Z' then ((c as int) + 32) as char
    else if c == '\U{17F}' then 's'
    else if c == '\U{212A}' then 'k'
    else c
  }

  /** strings.EqualFold. */
  predicate EqualFold(a: string, b: string) {
    |a| == |b| && forall i :: 0 <= i < |a| ==> FoldRune(a[i]) == FoldRune(b[i])
  }

  /** Go's `<` on strings. */
  predicate StringLess(a: string, b: string) {
    if b == [] then false
    else if a == [] then true
    else if a[0] != b[0] then a[0] < b[0]
    else StringLess(a[1..], b[1..])
  }

  lemma {:induction false} StringLessIsTotal(a: string, b: string)
    ensures a == b || StringLess(a, b) || StringLess(b, a)
    ensures !(StringLess(a, b) && StringLess(b, a))
    ensures !StringLess(a, a)
  {
    if a != [] {
      StringLessIsTotal(a[1..], a[1..]);
      if b != [] && a[0] == b[0] {
        StringLessIsTotal(a[1..], b[1..]);
        assert a == [a[0]] + a[1..] && b == [b[0]] + b[1..];
      }
    }
  }

  lemma {:induction false} StringLessIsTransitive(a: string, b: string, c: string)
    requires StringLess(a, b) && StringLess(b, c)
    ensures StringLess(a, c)
  {
    if a != [] && a[0] == b[0] == c[0] {
      StringLessIsTransitive(a[1..], b[1..], c[1..]);
    }
  }

  // ---- What these functions mean ----

  function Abs(n: int): nat {
    if n >= 0 then n else -n
  }

  /** A difference of instants is the int64 nearest to the true one. */
  lemma TimeSubIsNearest(a: int, b: int, x: int)
    ensures IsInt64(TimeSub(a, b))
    ensures IsInt64(x) ==> Abs(TimeSub(a, b) - (a - b)) <= Abs(x - (a - b))
  {
  }

  /** Wrapping changes a number by a multiple of 2^64 only, into int64. */
  lemma Wrap64IsCongruent(x: int)
    ensures IsInt64(Wrap64(x)) && (Wrap64(x) - x) % 0x1_0000_0000_0000_0000 == 0
    ensures IsInt64(x) ==> Wrap64(x) == x
  {
  }

  lemma QuotientAndRest(a: int, b: int)
    requires b > 0
    ensures a == b * (a / b) + a % b && 0 <= a % b < b
  {
  }

  /** Division and remainder toward zero: the remainder is short of the divisor and has the dividend's sign. */
  lemma TruncDivides(a: int, b: int)
    requires b > 0
    ensures a == b * TruncDiv(a, b) + TruncMod(a, b)
    ensures Abs(TruncMod(a, b)) < b && (a >= 0 ==> TruncMod(a, b) >= 0) && (a <= 0 ==> TruncMod(a, b) <= 0)
  {
    QuotientAndRest(a, b);
    QuotientAndRest(-a, b);
  }

  /** The ASCII spaces: tab, line feed, vertical tab, form feed, carriage return and the blank. */
  lemma ASCIISpaces(c: char)
    requires c < '\U{80}'
    ensures IsSpace(c) <==> c as int in {9, 10, 11, 12, 13, 32}
  {
  }

  predicate AllSpace(s: string) {
    forall i :: 0 <= i < |s| ==> IsSpace(s[i])
  }

  lemma {:induction false} TrimLeftDropsSpace(s: string) returns (i: nat)
    ensures i <= |s| && TrimLeft(s) == s[i..] && AllSpace(s[..i])
    ensures i < |s| ==> !IsSpace(s[i])
  {
    hide IsSpace;
    if s != [] && IsSpace(s[0]) {
      i := TrimLeftDropsSpace(s[1..]);
      assert s[1..][i..] == s[i + 1..] && s[..i + 1] == [s[0]] + s[1..][..i];
      i := i + 1;
    } else {
      i := 0;
    }
  }

  lemma LastOfTail(s: string, j: nat)
    requires j < |s|
    ensures s[j..] == s[j..|s| - 1] + [s[|s| - 1]]
  {
  }

  lemma {:induction false} TrimRightDropsSpace(s: string) returns (j: nat)
    ensures j <= |s| && TrimRight(s) == s[..j] && AllSpace(s[j..])
    ensures j > 0 ==> !IsSpace(s[j - 1])
  {
    hide IsSpace;
    if s != [] && IsSpace(s[|s| - 1]) {
      var n := |s| - 1;
      j := TrimRightDropsSpace(s[..n]);
      assert s[..n][..j] == s[..j] && s[..n][j..] == s[j..n];
      LastOfTail(s, j);
    } else {
      j := |s|;
    }
  }

  /** Trimming takes off space at both ends, all of it, and nothing else. */
  lemma TrimSpaceTrims(s: string) returns (i: nat, j: nat)
    ensures i <= j <= |s| && TrimSpace(s) == s[i..j]
    ensures AllSpace(s[..i]) && AllSpace(s[j..])
    ensures i < j ==> !IsSpace(s[i]) && !IsSpace(s[j - 1])
  {
    hide IsSpace;
    i := TrimLeftDropsSpace(s);
    var k := TrimRightDropsSpace(s[i..]);
    j := i + k;
    assert s[i..][..k] == s[i..j] && s[i..][k..] == s[j..];
    if k > 0 {
      assert s[i..][k - 1] == s[j - 1];
    }
  }

  /** So the trimmed text is empty exactly when there is nothing but space. */
  lemma BlankIsAllSpace(s: string)
    ensures TrimSpace(s) == "" <==> AllSpace(s)
  {
    hide IsSpace, TrimSpace;
    var i, j := TrimSpaceTrims(s);
    if i == j {
      assert s == s[..i] + s[j..];
    }
  }

  /** `k` is where two strings first differ, and how: the first ends, or has the smaller rune. */
  ghost predicate LessAt(s: string, t: string, k: nat) {
    k <= |s| && k < |t| && s[..k] == t[..k] && (k == |s| || s[k] < t[k])
  }

  lemma LessAtHead(s: string, t: string, k: nat)
    requires k > 0 && LessAt(s, t, k)
    ensures s[0] == t[0] && LessAt(s[1..], t[1..], k - 1)
  {
    assert s[0] == s[..k][0] && t[0] == t[..k][0];
    assert s[1..][..k - 1] == s[..k][1..] && t[1..][..k - 1] == t[..k][1..];
  }

  lemma LessAtTail(s: string, t: string, k: nat)
    requires s != [] && t != [] && s[0] == t[0] && LessAt(s[1..], t[1..], k)
    ensures LessAt(s, t, k + 1)
  {
    assert s[..k + 1] == [s[0]] + s[1..][..k] && t[..k + 1] == [t[0]] + t[1..][..k];
  }

  lemma LessAtStart(s: string, t: string)
    ensures LessAt(s, t, 0) <==> t != [] && (s == [] || s[0] < t[0])
  {
    assert s[..0] == [];
    if t != [] {
      assert t[..0] == [];
    }
  }

  lemma {:induction false} LessAtSomewhere(s: string, t: string)
    requires StringLess(s, t)
    ensures exists k: nat :: LessAt(s, t, k)
  {
    LessAtStart(s, t);
    if s != [] && s[0] == t[0] {
      LessAtSomewhere(s[1..], t[1..]);
      var k: nat :| LessAt(s[1..], t[1..], k);
      LessAtTail(s, t, k);
    }
  }

  lemma {:induction false} LessAtMeansLess(s: string, t: string, k: nat)
    requires LessAt(s, t, k)
    ensures StringLess(s, t)
  {
    if k == 0 {
      LessAtStart(s, t);
    } else {
      LessAtHead(s, t, k);
      LessAtMeansLess(s[1..], t[1..], k - 1);
    }
  }

  /** String order is by the first rune that differs, a proper prefix coming first. */
  lemma StringLessIsLexicographic(s: string, t: string)
    ensures StringLess(s, t) <==> exists k: nat :: LessAt(s, t, k)
  {
    hide StringLess, LessAt;
    if StringLess(s, t) {
      LessAtSomewhere(s, t);
    }
    if k: nat :| LessAt(s, t, k) {
      LessAtMeansLess(s, t, k);
    }
  }

  predicate IsASCII(s: string) {
    forall i :: 0 <= i < |s| ==> s[i] < '\U{80}'
  }

  predicate IsLetter(c: char) {
    'a' <= c <= 'z' || 'A' <= c <= 'Z'
  }

  /** On ASCII text folding ignores exactly the case of letters. */
  lemma FoldIgnoresCase(s: string, t: string)
    requires IsASCII(s) && IsASCII(t)
    ensures EqualFold(s, t) <==>
              |s| == |t| && forall i :: 0 <= i < |s| ==>
                s[i] == t[i] || (IsLetter(s[i]) && IsLetter(t[i]) && Abs(s[i] as int - t[i] as int) == 32)
  {
  }

  /** On ASCII text lowering leaves no capital and the same text but for case. */
  lemma LowerHasNoCapitals(s: string)
    requires IsASCII(s)
    ensures IsASCII(ToLower(s)) && EqualFold(ToLower(s), s)
    ensures forall i :: 0 <= i < |ToLower(s)| ==> !('A' <= ToLower(s)[i] <= 'Z')
  {
  }
}

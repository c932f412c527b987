/** Text primitives of the Go standard library that the modelled code relies on.
    A Go string is modelled as the sequence of its code points. */
module Text {

  /** `unicode.IsSpace`. */
  predicate IsSpace(c: char) {
    || c == ' ' || '\t' <= c <= '\r'
    || c == '\U{85}' || c == '\U{A0}' || c == '\U{1680}'
    || '\U{2000}' <= c <= '\U{200A}'
    || c == '\U{2028}' || c == '\U{2029}' || c == '\U{202F}' || c == '\U{205F}' || c == '\U{3000}'
  }

  predicate AllSpace(s: string) {
    forall i :: 0 <= i < |s| ==> IsSpace(s[i])
  }

  /** Empty, or starting and ending with a non-space. */
  predicate Trimmed(s: string) {
    s == "" || (!IsSpace(s[0]) && !IsSpace(s[|s| - 1]))
  }

  function TrimLeft(s: string): string {
    if s != "" && IsSpace(s[0]) then TrimLeft(s[1..]) else s
  }

  function TrimRight(s: string): string {
    if s != "" && IsSpace(s[|s| - 1]) then TrimRight(s[..|s| - 1]) else s
  }

  /** `strings.TrimSpace`. */
  function TrimSpace(s: string): string {
    TrimRight(TrimLeft(s))
  }

  /** t is s without spaces at its start. */
  predicate StartsOff(s: string, t: string) {
    && |t| <= |s| && s == s[..|s| - |t|] + t && AllSpace(s[..|s| - |t|])
    && (t == "" || !IsSpace(t[0]))
  }

  /** u is s without spaces at its end. */
  predicate EndsOff(s: string, u: string) {
    && |u| <= |s| && s == u + s[|u|..] && AllSpace(s[|u|..])
    && (u == "" || !IsSpace(u[|u| - 1]))
  }

  lemma SpaceAtStart(s: string, t: string)
    requires s != "" && IsSpace(s[0]) && StartsOff(s[1..], t)
    ensures StartsOff(s, t)
  {
    var k := |s| - |t|;
    assert s[..k] == [s[0]] + s[1..][..k - 1];
    assert s == s[..k] + s[k..];
    assert s[1..][k - 1..] == s[k..];
  }

  lemma SpaceAtEnd(s: string, u: string)
    requires s != "" && IsSpace(s[|s| - 1]) && EndsOff(s[..|s| - 1], u)
    ensures EndsOff(s, u)
  {
    var front, tail := s[..|s| - 1], s[|u|..];
    assert s == front + [s[|s| - 1]];
    assert tail == front[|u|..] + [s[|s| - 1]];
  }

  lemma {:induction false} TrimLeftSplits(s: string)
    ensures StartsOff(s, TrimLeft(s))
  {
    if s != "" && IsSpace(s[0]) {
      TrimLeftSplits(s[1..]);
      SpaceAtStart(s, TrimLeft(s[1..]));
    } else {
      assert StartsOff(s, s);
    }
  }

  lemma {:induction false} TrimRightSplits(s: string)
    ensures EndsOff(s, TrimRight(s))
  {
    if s != "" && IsSpace(s[|s| - 1]) {
      TrimRightSplits(s[..|s| - 1]);
      SpaceAtEnd(s, TrimRight(s[..|s| - 1]));
    } else {
      assert EndsOff(s, s);
    }
  }

  lemma BothEndsOff(s: string, t: string, u: string)
    requires StartsOff(s, t) && EndsOff(t, u)
    ensures s == s[..|s| - |t|] + u + t[|u|..] && Trimmed(u)
  {
    assert u != "" ==> u[0] == t[0];
  }

  /** Trimming cuts a run of spaces off either end and nothing else. */
  lemma TrimSpaceSplits(s: string) returns (left: string, right: string)
    ensures s == left + TrimSpace(s) + right
    ensures AllSpace(left) && AllSpace(right)
    ensures Trimmed(TrimSpace(s))
  {
    var t := TrimLeft(s);
    var u := TrimRight(t);
    TrimLeftSplits(s);
    TrimRightSplits(t);
    BothEndsOff(s, t, u);
    left, right := s[..|s| - |t|], t[|u|..];
  }

  /** A trimmed text is a fixed point. */
  lemma TrimmedIsFixed(s: string)
    requires Trimmed(s)
    ensures TrimSpace(s) == s
  {
  }

  /** `strings.ToUpper`, letter by letter.  Two letters outside ASCII have a capital inside
      ASCII: dotless i and long s.  Every other letter outside ASCII has its capital outside
      ASCII as well and is left alone: no comparison in the modelled code tells the two apart. */
  function UpperChar(c: char): char {
    if 'a' <= c <= 'z' then c - 'a' + 'A'
    else if c == '\U{131}' then 'I'
    else if c == '\U{17F}' then 'S'
    else c
  }

  function ToUpper(s: string): (r: string)
    ensures |r| == |s|
    ensures forall i :: 0 <= i < |s| ==> r[i] == UpperChar(s[i])
  {
    seq(|s|, i requires 0 <= i < |s| => UpperChar(s[i]))
  }

  predicate OccursAt(s: string, pat: string, i: nat) {
    i + |pat| <= |s| && s[i..i + |pat|] == pat
  }

  /** `strings.Index`: the leftmost occurrence, or -1. */
  function Index(s: string, pat: string): (r: int)
    ensures r == -1 || (0 <= r && OccursAt(s, pat, r))
  {
    IndexFrom(s, pat, 0)
  }

  function IndexFrom(s: string, pat: string, from: nat): (r: int)
    requires from <= |s|
    ensures r == -1 || (from <= r && OccursAt(s, pat, r))
    decreases |s| - from
  {
    if OccursAt(s, pat, from) then from
    else if from < |s| then IndexFrom(s, pat, from + 1)
    else -1
  }

  lemma {:induction false} IndexFromLeast(s: string, pat: string, from: nat, i: nat)
    requires from <= i && OccursAt(s, pat, i)
    ensures 0 <= IndexFrom(s, pat, from) <= i
    decreases i - from
  {
    if !OccursAt(s, pat, from) {
      IndexFromLeast(s, pat, from + 1, i);
    }
  }

  /** No occurrence lies to the left of the one `Index` returns. */
  lemma IndexLeast(s: string, pat: string, i: nat)
    requires OccursAt(s, pat, i)
    ensures 0 <= Index(s, pat) <= i
  {
    IndexFromLeast(s, pat, 0, i);
  }

  /** `strings.HasPrefix`. */
  predicate HasPrefix(s: string, p: string) {
    p <= s
  }

  /** `strings.TrimSuffix`. */
  function TrimSuffix(s: string, p: string): string {
    if |p| <= |s| && s[|s| - |p|..] == p then s[..|s| - |p|] else s
  }

  predicate IsDigit(c: char) { '0' <= c <= '9' }

  function DigitChar(d: nat): (c: char)
    requires d < 10
    ensures IsDigit(c)
  {
    '0' + d as char
  }

  /** The decimal rendering of `%d`. */
  function Digits(n: nat): (r: string)
    ensures r != "" && forall i :: 0 <= i < |r| ==> IsDigit(r[i])
  {
    if n < 10 then [DigitChar(n)] else Digits(n / 10) + [DigitChar(n % 10)]
  }

  function Decimal(n: int): string {
    if n < 0 then "-" + Digits(-n) else Digits(n)
  }

  /** The number a digit string denotes. */
  function Value(s: string): nat
    requires forall i :: 0 <= i < |s| ==> IsDigit(s[i])
  {
    if s == "" then 0
    else
      assert IsDigit(s[|s| - 1]);
      10 * Value(s[..|s| - 1]) + (s[|s| - 1] as int - '0' as int)
  }

  lemma {:induction false} ValueOfDigits(n: nat)
    ensures Value(Digits(n)) == n
  {
    if n < 10 {
    } else {
      ValueOfDigits(n / 10);
      var d := Digits(n);
      assert d[..|d| - 1] == Digits(n / 10);
    }
  }
}

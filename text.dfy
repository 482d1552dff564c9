/** The few Python 2 string operations the plugin relies on, with their
    CPython semantics written out: `find`/`rfind`, slicing with negative and
    out-of-range bounds, `str()` of an integer, `split` on one character,
    `startswith`, string ordering and `re.escape`. */
module Text {

  // ---------------------------------------------------------------------------
  // Searching: str.find and str.rfind
  // ---------------------------------------------------------------------------

  /** `pat` occurs in `s` starting at index `k`. */
  predicate OccursAt(s: string, pat: string, k: int) {
    0 <= k && k + |pat| <= |s| && s[k..k + |pat|] == pat
  }

  /** `s.find(pat, start)`: the lowest index `k >= start` at which `pat`
      occurs, or -1 when there is none. */
  function Find(s: string, pat: string, start: nat): (r: int)
    ensures r == -1 || (start <= r && OccursAt(s, pat, r))
    ensures r == -1 ==> forall k :: start <= k ==> !OccursAt(s, pat, k)
    ensures r != -1 ==> forall k :: start <= k < r ==> !OccursAt(s, pat, k)
    decreases |s| - start
  {
    if start + |pat| > |s| then -1
    else if s[start..start + |pat|] == pat then start
    else Find(s, pat, start + 1)
  }

  /** `s.rfind(pat)`: the highest index at which `pat` occurs, or -1. */
  function RFind(s: string, pat: string): (r: int)
    ensures r == -1 || OccursAt(s, pat, r)
    ensures r == -1 ==> forall k :: !OccursAt(s, pat, k)
    ensures r != -1 ==> forall k :: r < k ==> !OccursAt(s, pat, k)
  {
    RFindBelow(s, pat, |s| - |pat|)
  }

  /** The highest index `k <= top` at which `pat` occurs, or -1. */
  function RFindBelow(s: string, pat: string, top: int): (r: int)
    requires top + |pat| <= |s|
    ensures r == -1 || (r <= top && OccursAt(s, pat, r))
    ensures r == -1 ==> forall k :: k <= top ==> !OccursAt(s, pat, k)
    ensures r != -1 ==> forall k :: r < k <= top ==> !OccursAt(s, pat, k)
    decreases top + 1
  {
    if top < 0 then -1
    else if s[top..top + |pat|] == pat then top
    else RFindBelow(s, pat, top - 1)
  }

  // ---------------------------------------------------------------------------
  // Slicing: s[i:j] with Python's treatment of negative and large bounds
  // ---------------------------------------------------------------------------

  /** A slice bound as Python resolves it against a string of length `n`:
      a negative bound counts from the end, and the result is clamped. */
  function SliceBound(i: int, n: nat): (b: nat)
    ensures b <= n
    ensures 0 <= i <= n ==> b == i
    ensures i > n ==> b == n
    ensures i < 0 && 0 <= i + n ==> b == i + n
    ensures i + n < 0 ==> b == 0
  {
    if i < 0 then (if i + n < 0 then 0 else i + n)
    else if i > n then n
    else i
  }

  /** `s[i:j]` */
  function Slice(s: string, i: int, j: int): (r: string)
    ensures var a, b := SliceBound(i, |s|), SliceBound(j, |s|);
      if a < b then r == s[a..b] else r == []
    ensures |r| <= |s|
    ensures 0 <= i <= j <= |s| ==> r == s[i..j]
    ensures 0 <= i < |s| && j == -1 ==> r == s[i..|s| - 1]
    ensures 0 <= j <= i ==> r == []
  {
    var a, b := SliceBound(i, |s|), SliceBound(j, |s|);
    if a < b then s[a..b] else []
  }

  /** `s[i:]` */
  function SliceFrom(s: string, i: int): (r: string)
    ensures r == Slice(s, i, |s|)
  {
    Slice(s, i, |s|)
  }

  /** `s[:j]` */
  function SliceTo(s: string, j: int): (r: string)
    ensures r == Slice(s, 0, j)
  {
    Slice(s, 0, j)
  }

  /** `s.startswith(p)` */
  predicate StartsWith(s: string, p: string) {
    |p| <= |s| && s[..|p|] == p
  }

  // ---------------------------------------------------------------------------
  // str() of an integer, with its inverse
  // ---------------------------------------------------------------------------

  function DigitChar(d: nat): (c: char)
    requires d < 10
    ensures '0' <= c <= '9'
  {
    ('0' as int + d) as char
  }

  function DigitValue(c: char): (d: nat)
    requires '0' <= c <= '9'
    ensures d < 10 && DigitChar(d) == c
  {
    (c as int - '0' as int) as nat
  }

  predicate IsDigits(s: string) {
    forall k :: 0 <= k < |s| ==> '0' <= s[k] <= '9'
  }

  /** Decimal digits of `n`, most significant first, without leading zeros. */
  function NatToString(n: nat): (s: string)
    ensures |s| >= 1 && IsDigits(s)
    ensures |s| > 1 ==> s[0] != '0'
  {
    if n < 10 then [DigitChar(n)]
    else NatToString(n / 10) + [DigitChar(n % 10)]
  }

  /** `str(n)` in Python: a minus sign for negative numbers. */
  function IntToString(n: int): (s: string)
    ensures |s| >= 1
  {
    if n < 0 then "-" + NatToString(-n) else NatToString(n)
  }

  /** The value of a string of decimal digits. */
  function DigitsValue(s: string): nat
    requires IsDigits(s)
  {
    if s == [] then 0 else 10 * DigitsValue(s[..|s| - 1]) + DigitValue(s[|s| - 1])
  }

  /** `int(s)` on what `str` produces. */
  function ParseInt(s: string): int
    requires |s| >= 1
    requires s[0] == '-' ==> IsDigits(s[1..])
    requires s[0] != '-' ==> IsDigits(s)
  {
    if s[0] == '-' then 0 - DigitsValue(s[1..]) else DigitsValue(s)
  }

  lemma {:induction false} NatToStringValue(n: nat)
    ensures DigitsValue(NatToString(n)) == n
  {
    if n >= 10 {
      NatToStringValue(n / 10);
      var s := NatToString(n);
      assert s[..|s| - 1] == NatToString(n / 10);
    }
  }

  /** `int(str(n)) == n` */
  lemma IntToStringRoundTrip(n: int)
    ensures var s := IntToString(n);
      (s[0] == '-' ==> IsDigits(s[1..])) && (s[0] != '-' ==> IsDigits(s)) && ParseInt(s) == n
  {
    if n < 0 {
      var s := IntToString(n);
      assert s[1..] == NatToString(-n);
      NatToStringValue(-n);
    } else {
      NatToStringValue(n);
    }
  }

  /** Distinct integers print differently. */
  lemma IntToStringInjective(m: int, n: int)
    requires IntToString(m) == IntToString(n)
    ensures m == n
  {
    IntToStringRoundTrip(m);
    IntToStringRoundTrip(n);
  }

  // ---------------------------------------------------------------------------
  // s.split(c) and c.join(parts) for a one-character separator
  // ---------------------------------------------------------------------------

  /** `s.split(c)`: the pieces between the occurrences of `c`. */
  function Split(s: string, c: char): (parts: seq<string>)
    ensures |parts| >= 1
    decreases |s|
  {
    var k := Find(s, [c], 0);
    if k == -1 then [s]
    else [s[..k]] + Split(s[k + 1..], c)
  }

  /** `c.join(parts)` */
  function Join(parts: seq<string>, c: char): string
    requires |parts| >= 1
  {
    if |parts| == 1 then parts[0] else parts[0] + [c] + Join(parts[1..], c)
  }

  /** Splitting a joined list gives the list back when no piece contains the
      separator. */
  lemma {:induction false} SplitJoin(parts: seq<string>, c: char)
    requires |parts| >= 1
    requires forall i :: 0 <= i < |parts| ==> c !in parts[i]
    ensures Split(Join(parts, c), c) == parts
  {
    var s := Join(parts, c);
    if |parts| == 1 {
      NoOccurrence(parts[0], c);
    } else {
      var rest := Join(parts[1..], c);
      assert s == parts[0] + [c] + rest;
      var n := |parts[0]|;
      assert OccursAt(s, [c], n) by { assert s[n..n + 1] == [c]; }
      forall k | 0 <= k < n ensures !OccursAt(s, [c], k) {
        assert s[k] == parts[0][k];
        assert s[k..k + 1][0] == s[k];
      }
      assert Find(s, [c], 0) == n;
      assert s[..n] == parts[0];
      assert s[n + 1..] == rest;
      SplitJoin(parts[1..], c);
    }
  }

  lemma NoOccurrence(s: string, c: char)
    requires c !in s
    ensures Find(s, [c], 0) == -1
  {
    forall k | 0 <= k && k + 1 <= |s| ensures !OccursAt(s, [c], k) {
      assert s[k..k + 1][0] == s[k];
    }
  }

  // ---------------------------------------------------------------------------
  // String ordering (Python compares code points, a prefix first)
  // ---------------------------------------------------------------------------

  /** `a <= b` on Python strings. */
  predicate LessEq(a: string, b: string) {
    if a == [] then true
    else if b == [] then false
    else a[0] < b[0] || (a[0] == b[0] && LessEq(a[1..], b[1..]))
  }

  lemma LessEqTotal(a: string, b: string)
    ensures LessEq(a, b) || LessEq(b, a)
  {}

  lemma LessEqTransitive(a: string, b: string, c: string)
    requires LessEq(a, b) && LessEq(b, c)
    ensures LessEq(a, c)
  {}

  lemma LessEqAntisymmetric(a: string, b: string)
    requires LessEq(a, b) && LessEq(b, a)
    ensures a == b
  {}

  /** The least string of a non-empty set, returned with its proof. */
  lemma LeastOf(s: set<string>) returns (m: string)
    requires s != {}
    ensures m in s && forall y :: y in s ==> LessEq(m, y)
    decreases |s|
  {
    var x :| x in s;
    if s == {x} {
      LessEqTotal(x, x);
      m := x;
    } else {
      var rest := LeastOf(s - {x});
      LessEqTotal(x, rest);
      if LessEq(x, rest) {
        forall y | y in s ensures LessEq(x, y) {
          if y == x { LessEqTotal(x, x); } else { LessEqTransitive(x, rest, y); }
        }
        m := x;
      } else {
        m := rest;
      }
    }
  }

  lemma HasLeast(s: set<string>)
    requires s != {}
    ensures exists m :: m in s && forall y :: y in s ==> LessEq(m, y)
  {
    var m := LeastOf(s);
  }

  lemma LeastIsUnique()
    ensures forall a, b :: LessEq(a, b) && LessEq(b, a) ==> a == b
  {
    forall a, b | LessEq(a, b) && LessEq(b, a) ensures a == b {
      LessEqAntisymmetric(a, b);
    }
  }

  /** The least element of a non-empty set of strings. */
  function Least(s: set<string>): (m: string)
    requires s != {}
    ensures m in s && forall y :: y in s ==> LessEq(m, y)
  {
    HasLeast(s);
    LeastIsUnique();
    var m :| m in s && forall y :: y in s ==> LessEq(m, y); m
  }

  /** `sorted(s)` for a set of strings: every element once, in ascending order. */
  function Sorted(s: set<string>): (r: seq<string>)
    ensures |r| == |s|
    ensures forall x :: x in s <==> x in r
    ensures forall i, j :: 0 <= i < j < |r| ==> LessEq(r[i], r[j]) && r[i] != r[j]
    decreases |s|
  {
    if s == {} then []
    else
      var m := Least(s);
      [m] + Sorted(s - {m})
  }

  // ---------------------------------------------------------------------------
  // re.escape (Python 2.7) and the literal its output matches
  // ---------------------------------------------------------------------------

  /** The characters `re.escape` leaves alone: ASCII letters, digits and `_`. */
  predicate IsAlnum(c: char) {
    ('a' <= c <= 'z') || ('A' <= c <= 'Z') || ('0' <= c <= '9') || c == '_'
  }

  /** `re.escape(s)`: every other character gets a backslash in front, and
      the NUL character becomes the octal escape `\000`. */
  function ReEscape(s: string): (r: string)
    ensures |r| >= |s|
  {
    if s == [] then []
    else
      var c := s[0];
      (if IsAlnum(c) then [c] else if c == '\0' then "\\000" else ['\\', c]) + ReEscape(s[1..])
  }

  /** The literal text a regular expression made only of plain characters
      and backslash escapes of non-alphanumerics (and `\000`) matches. */
  function RegexLiteral(p: string): string
    decreases |p|
  {
    if p == [] then []
    else if p[0] == '\\' && |p| >= 4 && p[1..4] == "000" then ['\0'] + RegexLiteral(p[4..])
    else if p[0] == '\\' && |p| >= 2 then [p[1]] + RegexLiteral(p[2..])
    else [p[0]] + RegexLiteral(p[1..])
  }

  /** The escaped pattern matches exactly the text it was built from. */
  lemma {:induction false} ReEscapeLiteral(s: string)
    ensures RegexLiteral(ReEscape(s)) == s
  {
    if s != [] {
      var c := s[0];
      var head := if IsAlnum(c) then [c] else if c == '\0' then "\\000" else ['\\', c];
      var p := head + ReEscape(s[1..]);
      assert ReEscape(s) == p;
      ReEscapeLiteral(s[1..]);
      if IsAlnum(c) {
        assert p[0] != '\\';
        assert p[1..] == ReEscape(s[1..]);
      } else if c == '\0' {
        assert p[1..4] == "000";
        assert p[4..] == ReEscape(s[1..]);
      } else {
        assert p[0] == '\\' && p[1] == c;
        assert !(|p| >= 4 && p[1..4] == "000") by {
          if |p| >= 4 { assert p[1..4][0] == p[1]; }
        }
        assert p[2..] == ReEscape(s[1..]);
      }
    }
  }

  /** Escaping loses nothing: different texts give different patterns. */
  lemma ReEscapeInjective(s: string, t: string)
    requires ReEscape(s) == ReEscape(t)
    ensures s == t
  {
    ReEscapeLiteral(s);
    ReEscapeLiteral(t);
  }
}

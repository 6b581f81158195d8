/** String helpers shared by the model: JavaScript-style `includes`, ASCII
    `toLowerCase`, decimal rendering of integers, `join` and `split(...)[0]`. */
module Text {
  import opened Wrappers

  // ---------------------------------------------------------------------------
  // Substring search (String.prototype.includes)
  // ---------------------------------------------------------------------------

  predicate StartsWith(s: string, prefix: string) {
    |prefix| <= |s| && s[..|prefix|] == prefix
  }

  /** `sub` occurs in `s` at offset `i`. */
  predicate OccursAt(s: string, sub: string, i: int) {
    0 <= i <= |s| - |sub| && s[i..i + |sub|] == sub
  }

  /** `s.includes(sub)`: some offset of `s` starts an occurrence of `sub`. */
  predicate Contains(s: string, sub: string) {
    exists i :: 0 <= i <= |s| - |sub| && OccursAt(s, sub, i)
  }

  /** Every string includes the empty string. */
  lemma ContainsEmpty(s: string)
    ensures Contains(s, "")
  {
    assert OccursAt(s, "", 0);
  }

  /** A string that includes `a + b` also includes `b`. */
  lemma {:induction false} ContainsSuffix(s: string, a: string, b: string)
    requires Contains(s, a + b)
    ensures Contains(s, b)
  {
    var i :| 0 <= i <= |s| - |a + b| && OccursAt(s, a + b, i);
    assert s[i + |a|..i + |a| + |b|] == s[i..i + |a + b|][|a|..];
    assert (a + b)[|a|..] == b;
    assert OccursAt(s, b, i + |a|);
  }

  /** A string that includes `a + b` also includes `a`. */
  lemma {:induction false} ContainsPrefix(s: string, a: string, b: string)
    requires Contains(s, a + b)
    ensures Contains(s, a)
  {
    var i :| 0 <= i <= |s| - |a + b| && OccursAt(s, a + b, i);
    assert s[i..i + |a|] == s[i..i + |a + b|][..|a|];
    assert (a + b)[..|a|] == a;
    assert OccursAt(s, a, i);
  }

  /** A needle holding a character that the haystack lacks does not occur in it. */
  lemma {:induction false} NotContainsMissingChar(s: string, sub: string, c: char)
    requires c in sub && c !in s
    ensures !Contains(s, sub)
  {
    var k :| 0 <= k < |sub| && sub[k] == c;
    forall i | 0 <= i <= |s| - |sub|
      ensures !OccursAt(s, sub, i)
    {
      assert s[i + k] in s;
      assert s[i..i + |sub|][k] == s[i + k] != sub[k];
    }
  }

  // ---------------------------------------------------------------------------
  // ASCII lower-casing (String.prototype.toLowerCase on ASCII letters)
  // ---------------------------------------------------------------------------

  function LowerChar(c: char): char {
    if 'A' <= c <= 'Z' then (c as int + 32) as char else c
  }

  function Lower(s: string): (r: string)
    ensures |r| == |s|
    ensures forall i :: 0 <= i < |s| ==> r[i] == LowerChar(s[i])
    ensures forall i :: 0 <= i < |r| ==> !('A' <= r[i] <= 'Z')
  {
    seq(|s|, i requires 0 <= i < |s| => LowerChar(s[i]))
  }

  /** Lower-casing twice is lower-casing once. */
  lemma LowerIdempotent(s: string)
    ensures Lower(Lower(s)) == Lower(s)
  {
  }

  /** Lower-casing keeps every occurrence: `s.includes(t)` implies
      `s.toLowerCase().includes(t.toLowerCase())`. */
  lemma {:induction false} ContainsLower(s: string, sub: string)
    requires Contains(s, sub)
    ensures Contains(Lower(s), Lower(sub))
  {
    var i :| 0 <= i <= |s| - |sub| && OccursAt(s, sub, i);
    assert Lower(s)[i..i + |sub|] == Lower(sub);
    assert OccursAt(Lower(s), Lower(sub), i);
  }

  // ---------------------------------------------------------------------------
  // Decimal rendering (template-literal interpolation of an integer)
  // ---------------------------------------------------------------------------

  predicate IsDigit(c: char) {
    '0' <= c <= '9'
  }

  predicate AllDigits(s: string) {
    forall i :: 0 <= i < |s| ==> IsDigit(s[i])
  }

  function DigitChar(d: nat): (c: char)
    requires d < 10
    ensures IsDigit(c) && c as int - '0' as int == d
  {
    ('0' as int + d) as char
  }

  /** `${n}` for a non-negative integer: most significant digit first, no
      leading zeros. */
  function NatToString(n: nat): (s: string)
    ensures |s| >= 1 && AllDigits(s)
    ensures |s| > 1 ==> s[0] != '0'
    ensures n < 10 <==> |s| == 1
  {
    if n < 10 then [DigitChar(n)] else NatToString(n / 10) + [DigitChar(n % 10)]
  }

  /** The value of a string of decimal digits. */
  function DigitsValue(s: string): nat
    requires AllDigits(s)
  {
    if s == [] then 0 else 10 * DigitsValue(s[..|s| - 1]) + (s[|s| - 1] as int - '0' as int)
  }

  /** Reading back the digits of `${n}` gives `n`. */
  lemma {:induction false} NatToStringRoundTrip(n: nat)
    ensures DigitsValue(NatToString(n)) == n
  {
    if n >= 10 {
      NatToStringRoundTrip(n / 10);
      var s := NatToString(n);
      assert s[..|s| - 1] == NatToString(n / 10);
    }
  }

  /** Different numbers render differently. */
  lemma NatToStringInjective(a: nat, b: nat)
    requires NatToString(a) == NatToString(b)
    ensures a == b
  {
    NatToStringRoundTrip(a);
    NatToStringRoundTrip(b);
  }

  /** `${i}` for any integer: a minus sign before the digits of `-i` when negative. */
  function IntToString(i: int): (s: string)
    ensures i >= 0 ==> s == NatToString(i)
    ensures i < 0 ==> s == "-" + NatToString(-i)
  {
    if i < 0 then "-" + NatToString(-i) else NatToString(i)
  }

  lemma IntToStringInjective(a: int, b: int)
    requires IntToString(a) == IntToString(b)
    ensures a == b
  {
    assert (a < 0) == (IntToString(a)[0] == '-');
    assert (b < 0) == (IntToString(b)[0] == '-');
    if a < 0 {
      assert NatToString(-a) == IntToString(a)[1..];
      NatToStringInjective(-a, -b);
    } else {
      NatToStringInjective(a, b);
    }
  }

  // ---------------------------------------------------------------------------
  // Array.prototype.join and String.prototype.split(sep)[0]
  // ---------------------------------------------------------------------------

  /** `words.join(sep)`. */
  function Join(words: seq<string>, sep: string): string {
    if |words| == 0 then ""
    else if |words| == 1 then words[0]
    else words[0] + sep + Join(words[1..], sep)
  }

  /** `s.split(sep)[0]` for a one-character separator: everything before the
      first `sep`, or the whole string when there is none. */
  function FirstSegment(s: string, sep: char): (r: string)
    ensures sep !in r
    ensures StartsWith(s, r)
    ensures r == s || s[|r|] == sep
  {
    if s == [] then ""
    else if s[0] == sep then ""
    else [s[0]] + FirstSegment(s[1..], sep)
  }
  /** `s.split(sep)[0]` on `a + [sep] + b` is `a` when `a` holds no `sep`. */
  lemma {:induction false} FirstSegmentOf(a: string, sep: char, b: string)
    requires sep !in a
    ensures FirstSegment(a + [sep] + b, sep) == a
    decreases |a|
  {
    if a != [] {
      assert (a + [sep] + b)[1..] == a[1..] + [sep] + b;
      FirstSegmentOf(a[1..], sep, b);
    } else {
      assert (a + [sep] + b)[0] == sep;
    }
  }

  // ---------------------------------------------------------------------------
  // String.prototype.padStart
  // ---------------------------------------------------------------------------

  /** `s.padStart(width, fill)`: `fill` characters in front of `s` up to
      `width` characters; `s` itself when it is already that long. */
  function PadStart(s: string, width: nat, fill: char): (r: string)
    ensures |r| == if |s| >= width then |s| else width
    ensures r[|r| - |s|..] == s
    ensures forall i :: 0 <= i < |r| - |s| ==> r[i] == fill
  {
    if |s| >= width then s else seq(width - |s|, _ => fill) + s
  }
}

/** The string operations bot.js uses: case mapping, `startsWith`, the `>`
    comparison of two strings, and the decimal rendering of a number inside a
    template string. Case mapping covers ASCII letters only. */
module Text {

  function LowerChar(c: char): char
  {
    if 'A' <= c <= 'Z' then (c as int + 32) as char else c
  }

  function UpperChar(c: char): char
  {
    if 'a' <= c <= 'z' then (c as int - 32) as char else c
  }

  /** `toLowerCase`: every character lowered, nothing added or removed; the
      result is lower case, and a lower-case string is its own lowering. */
  function Lower(s: string): (r: string)
    ensures |r| == |s|
    ensures forall i :: 0 <= i < |s| ==> r[i] == LowerChar(s[i])
    ensures IsLowerCase(r)
    ensures IsLowerCase(s) ==> r == s
  {
    seq(|s|, i requires 0 <= i < |s| => LowerChar(s[i]))
  }

  predicate IsLowerCase(s: string)
  {
    forall i :: 0 <= i < |s| ==> !('A' <= s[i] <= 'Z')
  }

  /** `s.charAt(0).toUpperCase() + s.slice(1)`: the first character upper
      case, the rest unchanged. */
  function Capitalise(s: string): (r: string)
    ensures |r| == |s|
    ensures |s| > 0 ==> !('a' <= r[0] <= 'z') && r[1..] == s[1..]
    ensures Lower(r) == Lower(s)
  {
    if |s| == 0 then s
    else
      var r := [UpperChar(s[0])] + s[1..];
      assert Lower(r)[0] == Lower(s)[0];
      assert forall i :: 1 <= i < |s| ==> Lower(r)[i] == Lower(s)[i];
      r
  }

  /** `s.startsWith(p)`: `p` is no longer than `s` and agrees with it
      character by character. */
  predicate StartsWith(s: string, p: string)
    ensures StartsWith(s, p) <==> |p| <= |s| && forall i :: 0 <= i < |p| ==> s[i] == p[i]
  {
    |p| <= |s| && s[..|p|] == p
  }

  /** `s.endsWith(p)`. */
  predicate EndsWith(s: string, p: string)
  {
    |p| <= |s| && s[|s| - |p|..] == p
  }

  /** Three strings written one after another: the first opens the result,
      the last closes it, and all three occur in it. */
  lemma ThreeParts(a: string, b: string, c: string)
    ensures StartsWith(a + b + c, a) && EndsWith(a + b + c, c)
    ensures Contains(a + b + c, a) && Contains(a + b + c, b) && Contains(a + b + c, c)
  {
    assert (a + b + c)[..|a|] == a;
    assert OccursAt(a, a + b + c, 0);
    assert OccursAt(b, a + b + c, |a|);
    assert (a + b + c)[|a + b|..] == c;
    assert OccursAt(c, a + b + c, |a + b|);
  }

  lemma ContainsTransitive(a: string, b: string, c: string)
    requires Contains(a, b) && Contains(b, c)
    ensures Contains(a, c)
  {
    var i: nat :| i <= |a| && OccursAt(b, a, i);
    var j: nat :| j <= |b| && OccursAt(c, b, j);
    assert forall k :: 0 <= k < |c| ==> a[i + j + k] == b[j + k] == c[k];
    assert a[i + j..i + j + |c|] == c;
    assert OccursAt(c, a, i + j);
  }

  lemma EndsWithTransitive(a: string, b: string, c: string)
    requires EndsWith(a, b) && EndsWith(b, c)
    ensures EndsWith(a, c)
  {
    assert a[|a| - |c|..] == a[|a| - |b|..][|b| - |c|..];
  }

  lemma StartsWithTransitive(a: string, b: string, c: string)
    requires StartsWith(a, b) && StartsWith(b, c)
    ensures StartsWith(a, c)
  {
    assert a[..|c|] == a[..|b|][..|c|];
  }

  /** `needle` occurs in `hay` at position `i`. */
  predicate OccursAt(needle: string, hay: string, i: nat)
  {
    i + |needle| <= |hay| && hay[i..i + |needle|] == needle
  }

  /** `hay.includes(needle)`. */
  predicate Contains(hay: string, needle: string)
  {
    exists i: nat | i <= |hay| :: OccursAt(needle, hay, i)
  }

  lemma ContainsMiddle(a: string, b: string, c: string)
    ensures Contains(a + b + c, b)
  {
    assert OccursAt(b, a + b + c, |a|);
  }

  lemma ContainsInner(a: string, b: string, c: string, d: string)
    ensures Contains(a + b + c + d, b) && Contains(a + b + c + d, c)
  {
    assert OccursAt(b, a + b + c + d, |a|);
    assert OccursAt(c, a + b + c + d, |a + b|);
  }

  /** `a < b` on JavaScript strings: lexicographic order, where a proper
      prefix comes first. */
  predicate Before(a: string, b: string)
    ensures Before(a, b) ==> a != b && |b| > 0
    ensures |a| < |b| && b[..|a|] == a ==> Before(a, b)
  {
    if |b| == 0 then false
    else if |a| == 0 then true
    else if a[0] != b[0] then a[0] < b[0]
    else Before(a[1..], b[1..])
  }

  lemma {:induction false} BeforeIrreflexive(a: string)
    ensures !Before(a, a)
  {
    if |a| > 0 {
      BeforeIrreflexive(a[1..]);
    }
  }

  lemma {:induction false} BeforeTransitive(a: string, b: string, c: string)
    requires Before(a, b) && Before(b, c)
    ensures Before(a, c)
  {
    if |a| > 0 && a[0] == b[0] && b[0] == c[0] {
      BeforeTransitive(a[1..], b[1..], c[1..]);
    }
  }

  /** Any two distinct strings are ordered one way or the other, never both. */
  lemma {:induction false} BeforeTotal(a: string, b: string)
    ensures a == b <==> !Before(a, b) && !Before(b, a)
    ensures !(Before(a, b) && Before(b, a))
  {
    if a == b {
      BeforeIrreflexive(a);
    } else if |a| > 0 && |b| > 0 && a[0] == b[0] {
      BeforeTotal(a[1..], b[1..]);
      assert a == [a[0]] + a[1..] && b == [b[0]] + b[1..];
    }
  }

  /** Strings that agree up to a point are ordered by their first
      difference. */
  lemma {:induction false} BeforeAtFirstDifference(p: string, a: string, b: string)
    requires |a| > 0 && |b| > 0 && a[0] < b[0]
    ensures Before(p + a, p + b)
  {
    if p != [] {
      BeforeAtFirstDifference(p[1..], a, b);
      assert (p + a)[1..] == p[1..] + a;
      assert (p + b)[1..] == p[1..] + b;
    }
  }

  predicate IsDigit(c: char)
  {
    '0' <= c <= '9'
  }

  predicate AllDigits(s: string)
  {
    forall i :: 0 <= i < |s| ==> IsDigit(s[i])
  }

  function DigitChar(d: nat): (c: char)
    requires d < 10
    ensures IsDigit(c)
  {
    ('0' as int + d) as char
  }

  /** The value a run of decimal digits denotes. */
  function DigitsValue(s: string): nat
    requires AllDigits(s)
    decreases |s|
  {
    if s == [] then 0
    else DigitsValue(s[..|s| - 1]) * 10 + (s[|s| - 1] as int - '0' as int)
  }

  /** `${n}` for a non-negative integer: its shortest decimal form. */
  function DecimalString(n: nat): (r: string)
    ensures |r| >= 1 && AllDigits(r)
    ensures r[0] == '0' <==> n == 0
    decreases n
  {
    if n < 10 then [DigitChar(n)]
    else DecimalString(n / 10) + [DigitChar(n % 10)]
  }

  lemma {:induction false} DecimalRoundTrip(n: nat)
    ensures DigitsValue(DecimalString(n)) == n
  {
    if n >= 10 {
      DecimalRoundTrip(n / 10);
      var s := DecimalString(n / 10);
      assert (s + [DigitChar(n % 10)])[..|s|] == s;
    }
  }

  /** Length of the longest run of digits that `s` starts with. */
  function LeadingDigits(s: string): (k: nat)
    ensures k <= |s| && AllDigits(s[..k])
    ensures k < |s| ==> !IsDigit(s[k])
  {
    if s == [] || !IsDigit(s[0]) then 0
    else
      var k := 1 + LeadingDigits(s[1..]);
      assert s[..k] == [s[0]] + s[1..][..k - 1];
      k
  }

  lemma {:induction false} LeadingDigitsOfDigitsThen(d: string, t: string)
    requires AllDigits(d)
    requires t == [] || !IsDigit(t[0])
    ensures LeadingDigits(d + t) == |d|
  {
    if d != [] {
      LeadingDigitsOfDigitsThen(d[1..], t);
      assert (d + t)[1..] == d[1..] + t;
    }
  }
}

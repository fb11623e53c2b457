/** The array operations the bot chains together (`filter`, `map`,
    `slice(0, n)`, `join`), as functions over sequences with the properties
    the rest of the model relies on. */
module Sequences {

  /** `a` can be obtained from `b` by deleting elements: the elements of `a`
      occur in `b` in the same relative order. */
  ghost predicate IsSubsequence<T>(a: seq<T>, b: seq<T>)
    decreases |b|
  {
    && |a| <= |b|
    && (|a| == 0
        || (a[0] == b[0] && IsSubsequence(a[1..], b[1..]))
        || IsSubsequence(a, b[1..]))
  }

  lemma SubsequenceOfLonger<T>(a: seq<T>, x: T, b: seq<T>)
    requires IsSubsequence(a, b)
    ensures IsSubsequence(a, [x] + b)
  {
    assert ([x] + b)[1..] == b;
  }

  /** Number of elements of `s` that satisfy `p`. */
  function CountWhere<T>(s: seq<T>, p: T -> bool): nat
  {
    if s == [] then 0 else (if p(s[0]) then 1 else 0) + CountWhere(s[1..], p)
  }

  /** `Array.prototype.filter`: keeps exactly the elements satisfying `p`,
      every one of them, in their original order. */
  function Filter<T(==)>(s: seq<T>, p: T -> bool): (r: seq<T>)
    ensures |r| == CountWhere(s, p) <= |s|
    ensures forall i :: 0 <= i < |r| ==> p(r[i]) && r[i] in s
    ensures forall i :: 0 <= i < |s| && p(s[i]) ==> s[i] in r
    ensures IsSubsequence(r, s)
  {
    if s == [] then []
    else if p(s[0]) then
      var rest := Filter(s[1..], p);
      assert ([s[0]] + rest)[1..] == rest;
      [s[0]] + rest
    else
      Filter(s[1..], p)
  }

  /** Filtering by a stronger predicate keeps a subsequence of what the weaker
      one keeps. */
  lemma {:induction false} FilterStronger<T>(s: seq<T>, p: T -> bool, q: T -> bool)
    requires forall x :: q(x) ==> p(x)
    ensures IsSubsequence(Filter(s, q), Filter(s, p))
  {
    if s != [] {
      FilterStronger(s[1..], p, q);
      var fq, fp := Filter(s[1..], q), Filter(s[1..], p);
      if q(s[0]) {
        assert ([s[0]] + fq)[1..] == fq;
        assert ([s[0]] + fp)[1..] == fp;
      } else if p(s[0]) {
        SubsequenceOfLonger(fq, s[0], fp);
      }
    }
  }

  /** A predicate that holds of every element filters nothing out. */
  lemma {:induction false} FilterKeepsAll<T>(s: seq<T>, p: T -> bool)
    requires forall i :: 0 <= i < |s| ==> p(s[i])
    ensures Filter(s, p) == s
  {
    if s != [] {
      FilterKeepsAll(s[1..], p);
      assert [s[0]] + s[1..] == s;
    }
  }

  /** `Array.prototype.map`. */
  function Map<A, B>(s: seq<A>, f: A -> B): (r: seq<B>)
    ensures |r| == |s|
    ensures forall i :: 0 <= i < |s| ==> r[i] == f(s[i])
  {
    seq(|s|, i requires 0 <= i < |s| => f(s[i]))
  }

  /** `slice(0, n)`: the first `n` elements, or all of them when there are
      fewer. */
  function Take<T>(s: seq<T>, n: nat): (r: seq<T>)
    ensures |r| == if |s| <= n then |s| else n
    ensures r == s[..|r|]
  {
    if |s| <= n then s else s[..n]
  }

  function TotalLength(parts: seq<string>): nat
  {
    if parts == [] then 0 else |parts[0]| + TotalLength(parts[1..])
  }

  /** `Array.prototype.join(sep)` over strings: a single part is itself
      (the first clause with the length), its length is the parts' total
      plus one separator fewer than there are parts, and `JoinAppend` adds
      every further part after one more separator, so the text is the parts
      in order with a separator between each pair and nothing else. */
  function Join(parts: seq<string>, sep: string): (r: string)
    ensures |parts| > 0 ==> |r| == TotalLength(parts) + (|parts| - 1) * |sep|
    ensures |parts| > 0 ==> r[..|parts[0]|] == parts[0]
    ensures |parts| > 1 ==> r[|parts[0]|..|parts[0]| + |sep|] == sep
  {
    if |parts| == 0 then ""
    else if |parts| == 1 then parts[0]
    else
      var rest := Join(parts[1..], sep);
      OneMoreSeparator(|parts| - 2, |sep|);
      var r := parts[0] + sep + rest;
      assert r[..|parts[0]|] == parts[0];
      assert r[|parts[0]|..|parts[0]| + |sep|] == sep;
      r
  }

  lemma OneMoreSeparator(n: nat, width: nat)
    ensures (n + 1) * width == width + n * width
  {
  }

  /** Appending a part appends a separator and that part, as the standard's
      left-to-right definition of `join` builds the text. */
  lemma {:induction false} JoinAppend(parts: seq<string>, last: string, sep: string)
    requires |parts| > 0
    ensures Join(parts + [last], sep) == Join(parts, sep) + sep + last
  {
    var longer := parts + [last];
    if |parts| == 1 {
      assert longer[1..] == [last];
    } else {
      var tail := parts[1..];
      var a, b := parts[0] + sep, Join(tail, sep);
      assert Join(longer, sep) == a + (b + sep + last) by {
        assert longer[1..] == tail + [last];
        JoinAppend(tail, last, sep);
      }
      assert a + (b + sep + last) == (a + b) + sep + last;
    }
  }
}

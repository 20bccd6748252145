/** The two JavaScript array primitives the route handlers use to edit
    sub-lists: `indexOf` and `splice(start, 1)`. */
module JsArray {

  /** `Array.prototype.indexOf`: the first index holding `x`, or -1 when
      no element equals `x`. */
  function IndexOf<T(==)>(s: seq<T>, x: T): (r: int)
    ensures -1 <= r < |s|
    ensures r == -1 <==> x !in s
    ensures 0 <= r ==> s[r] == x && forall j :: 0 <= j < r ==> s[j] != x
  {
    if |s| == 0 then -1
    else if s[0] == x then 0
    else
      var k := IndexOf(s[1..], x);
      if k == -1 then -1 else k + 1
  }

  /** Where `splice(start, ...)` starts on an array of length `n`: a
      negative start counts back from the end, and the result is clamped
      to `[0, n]`. */
  function SpliceStart(n: nat, start: int): (k: nat)
    ensures k <= n
    ensures 0 <= start <= n ==> k == start
    ensures start < 0 && 0 <= n + start ==> k == n + start
    ensures n + start < 0 ==> k == 0
    ensures n < start ==> k == n
  {
    if start < 0 then (if n + start < 0 then 0 else n + start)
    else if start > n then n
    else start
  }

  /** The array left behind by `splice(start, 1)`: the element at the
      normalised start is removed, unless the start is past the end. */
  function SpliceOne<T>(s: seq<T>, start: int): (r: seq<T>)
    ensures 0 <= start < |s| ==> r == s[..start] + s[start + 1..]
    ensures start == -1 && |s| > 0 ==> r == s[..|s| - 1]
    ensures start < -|s| && |s| > 0 ==> r == s[1..]
    ensures |s| <= start ==> r == s
    ensures |s| == 0 ==> r == []
    ensures |r| == if start < |s| && |s| > 0 then |s| - 1 else |s|
  {
    var k := SpliceStart(|s|, start);
    if k < |s| then s[..k] + s[k + 1..] else s
  }

  /** Removing the first occurrence of `x` through `indexOf` + `splice`
      when `x` is present: exactly one element goes, the one at the first
      index holding `x`, and the others keep their order. */
  lemma SpliceAtIndexOf<T>(s: seq<T>, x: T)
    requires x in s
    ensures var k := IndexOf(s, x);
      0 <= k < |s| && s[k] == x && (forall j :: 0 <= j < k ==> s[j] != x) &&
      SpliceOne(s, k) == s[..k] + s[k + 1..] && |SpliceOne(s, k)| == |s| - 1
  {
    var k := IndexOf(s, x);
    assert 0 <= k < |s|;
    var r := SpliceOne(s, k);
    assert r == s[..k] + s[k + 1..];
  }

  /** The pitfall of `splice(indexOf(...), 1)`: when `x` is absent the
      index is -1, and `splice(-1, 1)` removes the LAST element of a
      non-empty array and leaves an empty one empty. */
  lemma SpliceAtMissingIndexDropsLast<T>(s: seq<T>, x: T)
    requires x !in s
    ensures IndexOf(s, x) == -1
    ensures |s| > 0 ==> SpliceOne(s, IndexOf(s, x)) == s[..|s| - 1]
    ensures |s| == 0 ==> SpliceOne(s, IndexOf(s, x)) == []
  {
  }

  /** After removing index `k`, position `i` holds the element that was at
      `i` before `k` and at `i + 1` from `k` on. */
  lemma RemovedAt<T>(s: seq<T>, k: nat, i: nat)
    requires k < |s| && i < |s| - 1
    ensures (s[..k] + s[k + 1..])[i] == s[if i < k then i else i + 1]
  {
  }

  /** Removing two different indices gives two different arrays when the
      elements around the later index differ. */
  lemma RemovalsDiffer<T>(s: seq<T>, k: nat, m: nat)
    requires k < m < |s| && s[m - 1] != s[m]
    ensures s[..k] + s[k + 1..] != s[..m] + s[m + 1..]
  {
    RemovedAt(s, k, m - 1);
    RemovedAt(s, m, m - 1);
  }

  /** `indexOf` finds `x` right after a prefix that does not hold it. */
  lemma IndexOfPastPrefix<T>(p: seq<T>, x: T, t: seq<T>)
    requires x !in p
    ensures IndexOf(p + [x] + t, x) == |p|
  {
    var s := p + [x] + t;
    assert s[|p|] == x;
    assert forall j :: 0 <= j < |p| ==> s[j] == p[j];
  }
}

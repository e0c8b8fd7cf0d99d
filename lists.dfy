/** The array built-ins the stores are written with: `findIndex`,
    `splice(ix, 1)`, index assignment and `filter`. */
module Lists {

  /** `findIndex`: the first index whose element satisfies `p`, or -1. */
  function FindIndex<T>(s: seq<T>, p: T -> bool): (ix: int)
    ensures -1 <= ix < |s|
    ensures 0 <= ix ==> p(s[ix])
    ensures forall k :: 0 <= k < |s| && (ix == -1 || k < ix) ==> !p(s[k])
  {
    if |s| == 0 then -1
    else if p(s[0]) then 0
    else
      var r := FindIndex(s[1..], p);
      if r == -1 then -1 else r + 1
  }

  /** The first index is the one after a prefix with no match. */
  lemma FindIndexAfterPrefix<T>(a: seq<T>, x: T, b: seq<T>, p: T -> bool)
    requires forall k :: 0 <= k < |a| ==> !p(a[k])
    requires p(x)
    ensures FindIndex(a + [x] + b, p) == |a|
  {
    var s := a + [x] + b;
    assert s[|a|] == x;
    assert forall k :: 0 <= k < |a| ==> s[k] == a[k];
  }

  /** `findIndex` then `splice(ix, 1)` when found: drop the first match. */
  function RemoveFirst<T>(s: seq<T>, p: T -> bool): (r: seq<T>)
    ensures |r| == if exists k :: 0 <= k < |s| && p(s[k]) then |s| - 1 else |s|
  {
    var ix := FindIndex(s, p);
    if ix > -1 then s[..ix] + s[ix + 1..] else s
  }

  /** Removing deletes exactly the first match and keeps the rest in order. */
  lemma RemoveFirstSplit<T>(a: seq<T>, x: T, b: seq<T>, p: T -> bool)
    requires forall k :: 0 <= k < |a| ==> !p(a[k])
    requires p(x)
    ensures RemoveFirst(a + [x] + b, p) == a + b
  {
    var s := a + [x] + b;
    FindIndexAfterPrefix(a, x, b, p);
    assert s[..|a|] == a;
    assert s[|a| + 1..] == b;
  }

  /** Removing when nothing matches changes nothing. */
  lemma RemoveFirstAbsent<T>(s: seq<T>, p: T -> bool)
    requires forall k :: 0 <= k < |s| ==> !p(s[k])
    ensures RemoveFirst(s, p) == s
  {
    assert FindIndex(s, p) == -1;
  }

  /** `findIndex`, then `s[ix] = x` when found and `push(x)` otherwise. */
  function ReplaceFirstOrAppend<T>(s: seq<T>, x: T, p: T -> bool): (r: seq<T>)
    ensures x in r
  {
    var ix := FindIndex(s, p);
    if ix > -1 then assert s[ix := x][ix] == x; s[ix := x] else s + [x]
  }

  /** The first match is replaced in place; length and every other
      position are unchanged. */
  lemma ReplaceFirstSplit<T>(a: seq<T>, y: T, b: seq<T>, x: T, p: T -> bool)
    requires forall k :: 0 <= k < |a| ==> !p(a[k])
    requires p(y)
    ensures ReplaceFirstOrAppend(a + [y] + b, x, p) == a + [x] + b
  {
    FindIndexAfterPrefix(a, y, b, p);
    assert (a + [y] + b)[|a| := x] == a + [x] + b;
  }

  /** With no match the element is appended. */
  lemma ReplaceFirstAbsent<T>(s: seq<T>, x: T, p: T -> bool)
    requires forall k :: 0 <= k < |s| ==> !p(s[k])
    ensures ReplaceFirstOrAppend(s, x, p) == s + [x]
  {
    assert FindIndex(s, p) == -1;
  }

  /** Upserting the same element twice is the same as upserting it once. */
  lemma ReplaceFirstIdempotent<T>(s: seq<T>, x: T, p: T -> bool)
    requires p(x)
    ensures ReplaceFirstOrAppend(ReplaceFirstOrAppend(s, x, p), x, p) == ReplaceFirstOrAppend(s, x, p)
  {
    var ix := FindIndex(s, p);
    if ix > -1 {
      ReplaceFirstSplit(s[..ix], s[ix], s[ix + 1..], x, p);
      assert s == s[..ix] + [s[ix]] + s[ix + 1..];
      var t := s[..ix] + [x] + s[ix + 1..];
      ReplaceFirstSplit(s[..ix], x, s[ix + 1..], x, p);
    } else {
      ReplaceFirstSplit(s, x, [], x, p);
      assert s + [x] + [] == s + [x];
    }
  }

  /** `filter`: the elements satisfying `p`, in their original order. */
  function Filter<T>(s: seq<T>, p: T -> bool): (r: seq<T>)
    ensures |r| <= |s|
    ensures forall k :: 0 <= k < |r| ==> p(r[k])
    ensures forall k :: 0 <= k < |r| ==> r[k] in s
    ensures forall k :: 0 <= k < |s| && p(s[k]) ==> s[k] in r
  {
    if |s| == 0 then [] else (if p(s[0]) then [s[0]] else []) + Filter(s[1..], p)
  }

  /** Filtering distributes over concatenation, so survivors keep their
      relative order. */
  lemma {:induction false} FilterConcat<T>(a: seq<T>, b: seq<T>, p: T -> bool)
    ensures Filter(a + b, p) == Filter(a, p) + Filter(b, p)
  {
    if |a| > 0 {
      assert (a + b)[0] == a[0];
      assert (a + b)[1..] == a[1..] + b;
      FilterConcat(a[1..], b, p);
    } else {
      assert a + b == b;
    }
  }

  /** A sequence whose every element satisfies `p` is left whole. */
  lemma {:induction false} FilterKeepsAll<T>(s: seq<T>, p: T -> bool)
    requires forall k :: 0 <= k < |s| ==> p(s[k])
    ensures Filter(s, p) == s
  {
    if |s| > 0 {
      FilterKeepsAll(s[1..], p);
    }
  }

  /** Filtering twice is filtering once. */
  lemma FilterIdempotent<T>(s: seq<T>, p: T -> bool)
    ensures Filter(Filter(s, p), p) == Filter(s, p)
  {
    FilterKeepsAll(Filter(s, p), p);
  }
}

/**
 Concatenation of per-graph values along the leading axis, and the slice
 arrays that remember where each graph's part starts.
 */
module Segments {
  import opened Offsets

  /** Sizes of the parts along the concatenation axis. */
  function Lengths<T>(parts: seq<seq<T>>): seq<nat>
  {
    seq(|parts|, i requires 0 <= i < |parts| => |parts[i]|)
  }

  /** `torch.cat(parts, dim=0)`: the parts one after another, in graph order. */
  function Flatten<T>(parts: seq<seq<T>>): (r: seq<T>)
    ensures |r| == Sum(Lengths(parts))
  {
    if |parts| == 0 then []
    else
      assert Lengths(parts)[..|parts| - 1] == Lengths(parts[..|parts| - 1]);
      Flatten(parts[..|parts| - 1]) + parts[|parts| - 1]
  }

  /** Segment `i` of a concatenation, delimited by the slice array. */
  ghost predicate SegmentIs<T>(parts: seq<seq<T>>, i: nat)
    requires i < |parts|
  {
    var s := Ptr(Lengths(parts));
    s[i] <= s[i + 1] <= |Flatten(parts)| && Flatten(parts)[s[i]..s[i + 1]] == parts[i]
  }

  /** The slice array of a concatenation: segment `i` of `Flatten(parts)`,
      delimited by the prefix sums of the part sizes, is exactly `parts[i]`. */
  lemma {:induction false} FlattenSlice<T>(parts: seq<seq<T>>, i: nat)
    requires i < |parts|
    ensures SegmentIs(parts, i)
  {
    if i < |parts| - 1 {
      FlattenSlice(parts[..|parts| - 1], i);
      SegmentOfPrefix(parts, i);
    } else {
      SegmentOfLast(parts);
    }
  }

  lemma {:induction false} SegmentOfPrefix<T>(parts: seq<seq<T>>, i: nat)
    requires i < |parts| - 1
    requires SegmentIs(parts[..|parts| - 1], i)
    ensures SegmentIs(parts, i)
  {
    var n := |parts|;
    var p := parts[..n - 1];
    var s := Ptr(Lengths(parts));
    var sp := Ptr(Lengths(p));
    SlicesOfPrefix(parts);
    assert s[i] == sp[i] && s[i + 1] == sp[i + 1];
    SliceOfAppend(Flatten(p), parts[n - 1], sp[i], sp[i + 1]);
  }

  lemma {:induction false} SegmentOfLast<T>(parts: seq<seq<T>>)
    requires |parts| > 0
    ensures SegmentIs(parts, |parts| - 1)
  {
    var n := |parts|;
    var p := parts[..n - 1];
    var s := Ptr(Lengths(parts));
    SlicesOfPrefix(parts);
    assert s[n - 1] == Ptr(Lengths(p))[n - 1] == |Flatten(p)|;
    assert s[n] == s[n - 1] + |parts[n - 1]|;
    SliceOfTail(Flatten(p), parts[n - 1]);
  }

  lemma {:induction false} SliceOfTail<T>(a: seq<T>, b: seq<T>)
    ensures (a + b)[|a|..|a| + |b|] == b
  {
  }

  lemma {:induction false} SliceOfAppend<T>(a: seq<T>, b: seq<T>, lo: nat, hi: nat)
    requires lo <= hi <= |a|
    ensures (a + b)[lo..hi] == a[lo..hi]
  {
  }

  lemma {:induction false} SliceIndex<T>(a: seq<T>, lo: nat, hi: nat, k: nat)
    requires lo <= k < hi <= |a|
    ensures a[lo..hi][k - lo] == a[k]
  {
  }

  /** Dropping the last part keeps the slice array of the others. */
  lemma {:induction false} SlicesOfPrefix<T>(parts: seq<seq<T>>)
    requires |parts| > 0
    ensures Ptr(Lengths(parts))[..|parts|] == Ptr(Lengths(parts[..|parts| - 1]))
    ensures Flatten(parts) == Flatten(parts[..|parts| - 1]) + parts[|parts| - 1]
  {
    assert Lengths(parts)[..|parts| - 1] == Lengths(parts[..|parts| - 1]);
  }

  /** Every element of a concatenation comes from one of its parts. */
  lemma {:induction false} FlattenMember<T>(parts: seq<seq<T>>, x: T)
    requires x in Flatten(parts)
    ensures exists i :: 0 <= i < |parts| && x in parts[i]
  {
    var n := |parts|;
    var p := parts[..n - 1];
    assert Flatten(parts) == Flatten(p) + parts[n - 1];
    if x in Flatten(p) {
      FlattenMember(p, x);
      var i :| 0 <= i < |p| && x in p[i];
      assert parts[i] == p[i];
    } else {
      assert x in parts[n - 1];
    }
  }

  /** A sequence cut at `s[1]` into two delimited segments is their
      concatenation. */
  lemma {:induction false} TwoSegments<T>(a: seq<T>, s: seq<nat>, p: seq<T>, q: seq<T>)
    requires |s| == 3 && s[0] == 0 && s[0] <= s[1] <= s[2] && s[2] == |a|
    requires a[s[0]..s[1]] == p && a[s[1]..s[2]] == q
    ensures a == p + q
  {
    assert a == a[..s[1]] + a[s[1]..];
  }
}

/**
 Offset bookkeeping of a batch: the pointer array (cumulative node counts)
 and the membership vector (which graph owns each merged row).
 */
module Offsets {

  /** Sum of a sequence of counts, peeling off the last element. */
  function Sum(c: seq<nat>): nat
  {
    if |c| == 0 then 0 else Sum(c[..|c| - 1]) + c[|c| - 1]
  }

  /** The pointer array `ptr`: `ptr[i]` is the number of rows owned by the
      graphs before graph `i`. */
  function Ptr(c: seq<nat>): (ptr: seq<nat>)
    ensures |ptr| == |c| + 1
    ensures ptr[0] == 0
    ensures forall i :: 0 <= i < |c| ==> ptr[i + 1] == ptr[i] + c[i]
    ensures ptr[|c|] == Sum(c)
  {
    if |c| == 0 then [0]
    else
      var p := Ptr(c[..|c| - 1]);
      p + [p[|c| - 1] + c[|c| - 1]]
  }

  /** The pointer array is non-decreasing. */
  lemma {:induction false} PtrMonotone(c: seq<nat>, i: nat, j: nat)
    requires i <= j <= |c|
    ensures Ptr(c)[i] <= Ptr(c)[j]
    decreases j - i
  {
    if i < j {
      PtrMonotone(c, i + 1, j);
    }
  }

  /** `s` can delimit `n` consecutive segments of a sequence of length `len`. */
  predicate IsSliceArray(s: seq<nat>, n: nat, len: nat)
  {
    && |s| == n + 1
    && (forall i :: 0 <= i < n ==> s[i] <= s[i + 1])
    && (forall i :: 0 <= i <= n ==> s[i] <= len)
  }

  /** A pointer array delimits one segment per count inside the total. */
  lemma {:induction false} PtrIsSliceArray(c: seq<nat>)
    ensures IsSliceArray(Ptr(c), |c|, Sum(c))
  {
    forall i | 0 <= i <= |c|
      ensures Ptr(c)[i] <= Sum(c)
    {
      PtrMonotone(c, i, |c|);
    }
  }

  /** `n` copies of the graph index `g`. */
  function Repeat(g: nat, n: nat): (r: seq<nat>)
    ensures |r| == n
    ensures forall k :: 0 <= k < n ==> r[k] == g
  {
    seq(n, _ => g)
  }

  /** The membership vector `batch`: graph index `i` repeated `c[i]` times,
      in graph order. */
  function Membership(c: seq<nat>): (batch: seq<nat>)
    ensures |batch| == Sum(c)
    ensures forall j :: 0 <= j < |batch| ==> batch[j] < |c|
  {
    if |c| == 0 then []
    else Membership(c[..|c| - 1]) + Repeat(|c| - 1, c[|c| - 1])
  }

  /** Row `j` belongs to graph `i` exactly when it lies in `[ptr[i], ptr[i+1])`. */
  lemma {:induction false} MembershipSegment(c: seq<nat>, i: nat, j: nat)
    requires i < |c| && j < Sum(c)
    ensures Membership(c)[j] == i <==> Ptr(c)[i] <= j < Ptr(c)[i + 1]
  {
    var n := |c|;
    var p := c[..n - 1];
    var mp := Membership(p);
    var pp := Ptr(p);
    var ptr := Ptr(c);
    assert ptr == pp + [pp[n - 1] + c[n - 1]];
    assert Membership(c) == mp + Repeat(n - 1, c[n - 1]);
    assert |mp| == pp[n - 1];
    if j < |mp| {
      assert Membership(c)[j] == mp[j];
      if i < n - 1 {
        MembershipSegment(p, i, j);
        assert ptr[i] == pp[i] && ptr[i + 1] == pp[i + 1];
      } else {
        assert mp[j] < n - 1;
        assert ptr[i] == pp[n - 1];
      }
    } else {
      assert Membership(c)[j] == n - 1;
      if i < n - 1 {
        PtrMonotone(c, i + 1, n - 1);
      }
    }
  }

  /** Local row `l` of graph `i` is merged row `ptr[i] + l`, which exists and
      belongs to graph `i`. */
  lemma {:induction false} OwnedRow(c: seq<nat>, i: nat, l: nat)
    requires i < |c| && l < c[i]
    ensures Ptr(c)[i] + l < Sum(c)
    ensures Membership(c)[Ptr(c)[i] + l] == i
  {
    var ptr := Ptr(c);
    assert ptr[i + 1] == ptr[i] + c[i];
    PtrMonotone(c, i + 1, |c|);
    var j := ptr[i] + l;
    assert j < Sum(c);
    MembershipSegment(c, i, j);
  }

  /** The membership vector is non-decreasing. */
  lemma {:induction false} MembershipSorted(c: seq<nat>, j: nat, k: nat)
    requires j <= k < Sum(c)
    ensures Membership(c)[j] <= Membership(c)[k]
  {
    var a := Membership(c)[j];
    var b := Membership(c)[k];
    MembershipSegment(c, a, j);
    MembershipSegment(c, b, k);
    PtrOrder(c, a, b);
  }

  /** A graph after graph `b` starts no earlier than graph `b` ends. */
  lemma {:induction false} PtrOrder(c: seq<nat>, a: nat, b: nat)
    requires a < |c| && b < |c|
    ensures a <= b || Ptr(c)[b + 1] <= Ptr(c)[a]
  {
    if b < a {
      PtrMonotone(c, b + 1, a);
    }
  }

  /** Graph `i` owns exactly `c[i]` rows of the membership vector, and they
      are the rows `ptr[i] .. ptr[i+1]`. */
  lemma {:induction false} MembershipSlice(c: seq<nat>, i: nat)
    requires i < |c|
    ensures Ptr(c)[i] <= Ptr(c)[i + 1] <= |Membership(c)|
    ensures Membership(c)[Ptr(c)[i]..Ptr(c)[i + 1]] == Repeat(i, c[i])
  {
    var m := Membership(c);
    var ptr := Ptr(c);
    assert ptr[i + 1] == ptr[i] + c[i];
    PtrMonotone(c, i + 1, |c|);
    var s := m[ptr[i]..ptr[i + 1]];
    forall k | 0 <= k < c[i]
      ensures s[k] == i
    {
      OwnedRow(c, i, k);
    }
    assert s == Repeat(i, c[i]);
  }

  /** The two side tables describe the same partition of the rows, and the
      membership vector is sorted. */
  lemma {:induction false} SideTables(c: seq<nat>)
    ensures forall i, j :: 0 <= i < |c| && 0 <= j < Sum(c) ==>
              (Membership(c)[j] == i <==> Ptr(c)[i] <= j < Ptr(c)[i + 1])
    ensures forall j, k :: 0 <= j <= k < Sum(c) ==> Membership(c)[j] <= Membership(c)[k]
  {
    forall i, j | 0 <= i < |c| && 0 <= j < Sum(c)
      ensures Membership(c)[j] == i <==> Ptr(c)[i] <= j < Ptr(c)[i + 1]
    {
      MembershipSegment(c, i, j);
    }
    forall j, k | 0 <= j <= k < Sum(c)
      ensures Membership(c)[j] <= Membership(c)[k]
    {
      MembershipSorted(c, j, k);
    }
  }

  /** Every count is at most the total, and all-zero counts sum to zero. */
  lemma {:induction false} SumBounds(c: seq<nat>)
    ensures forall t :: 0 <= t < |c| ==> c[t] <= Sum(c)
    ensures (forall t :: 0 <= t < |c| ==> c[t] == 0) ==> Sum(c) == 0
  {
    if forall t :: 0 <= t < |c| ==> c[t] == 0 {
      ZeroSum(c);
    }
    forall t | 0 <= t < |c|
      ensures c[t] <= Sum(c)
    {
      PtrMonotone(c, t + 1, |c|);
    }
  }

  /** One more count adds one entry to the pointer array. */
  lemma {:induction false} PtrExtend(c: seq<nat>, i: nat)
    requires i < |c|
    ensures Ptr(c[..i + 1]) == Ptr(c[..i]) + [Ptr(c[..i])[i] + c[i]]
  {
    assert c[..i + 1][..i] == c[..i];
  }

  /** Single-pass cumulative sum, as the batching code builds `ptr`. */
  method CumSum(c: seq<nat>) returns (ptr: seq<nat>)
    ensures ptr == Ptr(c)
  {
    ptr := [0];
    var i := 0;
    while i < |c|
      invariant 0 <= i <= |c|
      invariant ptr == Ptr(c[..i])
    {
      PtrExtend(c, i);
      ptr := ptr + [ptr[i] + c[i]];
      i := i + 1;
    }
    assert c[..|c|] == c;
  }

  /** Single-pass `repeat_interleave(arange(n), c)`, as the batching code builds
      the membership vector. */
  method RepeatInterleave(c: seq<nat>) returns (batch: seq<nat>)
    ensures batch == Membership(c)
  {
    batch := [];
    var i := 0;
    while i < |c|
      invariant 0 <= i <= |c|
      invariant batch == Membership(c[..i])
    {
      var k := 0;
      var run: seq<nat> := [];
      while k < c[i]
        invariant 0 <= k <= c[i]
        invariant run == Repeat(i, k)
      {
        run := run + [i];
        k := k + 1;
      }
      assert c[..i + 1][..i] == c[..i];
      assert Membership(c[..i + 1]) == Membership(c[..i]) + Repeat(i, c[i]);
      batch := batch + run;
      i := i + 1;
    }
    assert c[..|c|] == c;
  }

  /** Sum of the pointwise sum of two count vectors. */
  lemma {:induction false} SumPointwise(a: seq<nat>, b: seq<nat>)
    requires |a| == |b|
    ensures Sum(seq(|a|, t requires 0 <= t < |a| => a[t] + b[t])) == Sum(a) + Sum(b)
  {
    var s := seq(|a|, t requires 0 <= t < |a| => a[t] + b[t]);
    if |a| > 0 {
      var n := |a|;
      assert s[..n - 1] == seq(n - 1, t requires 0 <= t < n - 1 => a[..n - 1][t] + b[..n - 1][t]);
      SumPointwise(a[..n - 1], b[..n - 1]);
    }
  }

  /** Column `t` of a count table whose rows all have width `w`. */
  function Column(m: seq<seq<nat>>, w: nat, t: nat): (col: seq<nat>)
    requires forall i :: 0 <= i < |m| ==> |m[i]| == w
    requires t < w
    ensures |col| == |m|
  {
    seq(|m|, i requires 0 <= i < |m| => m[i][t])
  }

  /** Summing a count table column by column gives the same total as summing
      it row by row. */
  lemma {:induction false} SumSwap(m: seq<seq<nat>>, w: nat)
    requires forall i :: 0 <= i < |m| ==> |m[i]| == w
    ensures Sum(seq(w, t requires 0 <= t < w => Sum(Column(m, w, t))))
         == Sum(seq(|m|, i requires 0 <= i < |m| => Sum(m[i])))
  {
    var cols := seq(w, t requires 0 <= t < w => Sum(Column(m, w, t)));
    var rows := seq(|m|, i requires 0 <= i < |m| => Sum(m[i]));
    if |m| == 0 {
      ZeroSum(cols);
    } else {
      var n := |m|;
      var p := m[..n - 1];
      var colsP := seq(w, t requires 0 <= t < w => Sum(Column(p, w, t)));
      SumSwap(p, w);
      forall t | 0 <= t < w
        ensures cols[t] == colsP[t] + m[n - 1][t]
      {
        assert Column(m, w, t)[..n - 1] == Column(p, w, t);
      }
      assert cols == seq(w, t requires 0 <= t < w => colsP[t] + m[n - 1][t]);
      SumPointwise(colsP, m[n - 1]);
      assert rows[..n - 1] == seq(|p|, i requires 0 <= i < |p| => Sum(p[i]));
    }
  }

  /** A vector of column totals adds up to the sum of the row totals. */
  lemma {:induction false} SumOfColumns(m: seq<seq<nat>>, w: nat, totals: seq<nat>)
    requires forall i :: 0 <= i < |m| ==> |m[i]| == w
    requires |totals| == w && forall t :: 0 <= t < w ==> totals[t] == Sum(Column(m, w, t))
    ensures Sum(totals) == Sum(seq(|m|, i requires 0 <= i < |m| => Sum(m[i])))
  {
    SumSwap(m, w);
    assert totals == seq(w, t requires 0 <= t < w => Sum(Column(m, w, t)));
  }

  /** A vector of zeros sums to zero. */
  lemma {:induction false} ZeroSum(c: seq<nat>)
    requires forall t :: 0 <= t < |c| ==> c[t] == 0
    ensures Sum(c) == 0
  {
    if |c| > 0 {
      ZeroSum(c[..|c| - 1]);
    }
  }
}

/**
 Edge indices: a `[2, num_edges]` index tensor is modelled column by column,
 as a sequence of (source, destination) pairs of node indices.
 */
module Edges {

  datatype Edge = Edge(src: int, dst: int)

  /** Add `ds` to every source index and `dd` to every destination index;
      collation uses it with the node offsets, separation with their negation. */
  function Shift(es: seq<Edge>, ds: int, dd: int): (r: seq<Edge>)
    ensures |r| == |es|
  {
    seq(|es|, k requires 0 <= k < |es| => Edge(es[k].src + ds, es[k].dst + dd))
  }

  /** Row 0 of the index tensor. */
  function Sources(es: seq<Edge>): seq<int>
  {
    seq(|es|, k requires 0 <= k < |es| => es[k].src)
  }

  /** Row 1 of the index tensor. */
  function Targets(es: seq<Edge>): seq<int>
  {
    seq(|es|, k requires 0 <= k < |es| => es[k].dst)
  }

  /** Every edge runs between source nodes `[lo, hi)` and destination nodes
      `[dlo, dhi)`. */
  predicate Within(es: seq<Edge>, lo: int, hi: int, dlo: int, dhi: int)
  {
    forall k :: 0 <= k < |es| ==> lo <= es[k].src < hi && dlo <= es[k].dst < dhi
  }

  /** Subtracting the offsets that were added restores the local indices. */
  lemma {:induction false} ShiftRoundTrip(es: seq<Edge>, ds: int, dd: int)
    ensures Shift(Shift(es, ds, dd), -ds, -dd) == es
  {
  }

  /** Shifting by zero changes nothing (the first graph of a batch). */
  lemma {:induction false} ShiftZero(es: seq<Edge>)
    ensures Shift(es, 0, 0) == es
  {
  }

  /** Each row of a shifted index tensor is the original row plus its own offset. */
  lemma {:induction false} ShiftRows(es: seq<Edge>, ds: int, dd: int)
    ensures |Sources(Shift(es, ds, dd))| == |Sources(es)|
    ensures forall k :: 0 <= k < |es| ==>
              Sources(Shift(es, ds, dd))[k] == Sources(es)[k] + ds
              && Targets(Shift(es, ds, dd))[k] == Targets(es)[k] + dd
  {
  }

  /** Local indices valid for `ns` source and `nd` destination nodes stay in
      the window the offsets open for this graph. */
  lemma {:induction false} ShiftWithin(es: seq<Edge>, ns: nat, nd: nat, ds: int, dd: int)
    requires Within(es, 0, ns, 0, nd)
    ensures Within(Shift(es, ds, dd), ds, ds + ns, dd, dd + nd)
  {
  }
}

/**
 Stores: the attributes that share one row space. A node store holds the
 node-level attributes of one graph (or of one node type of a heterogeneous
 graph); an edge store holds the index tensors and edge-level attributes of
 one graph (or of one edge type). Collation merges the stores of many
 graphs; separation cuts one graph's store back out.
 */
module Stores {
  import opened Offsets
  import opened Segments
  import opened Edges

  /** Node-level attributes: the node count and a list of feature blocks, each
      concatenated along the node axis. A plain `x` tensor is one block; a
      keyed or listed `x` is one block per entry, in key order. */
  datatype NodeStore<T> = NodeStore(numNodes: nat, x: seq<seq<T>>)

  /** Edge-level attributes: a list of index blocks (`edge_index`, a list of
      `edge_index` tensors, or an adjacency in coordinate form) and the edge
      attribute rows (`edge_attr`). */
  datatype EdgeStore<E> = EdgeStore(index: seq<seq<Edge>>, attr: seq<E>)

  /** Merged node store with its side tables: one slice array per feature
      block, the pointer array `ptr` and the membership vector `batch`. */
  datatype NodeBatch<T> = NodeBatch(
    numNodes: nat,
    x: seq<seq<T>>,
    xSlices: seq<seq<nat>>,
    ptr: seq<nat>,
    batch: seq<nat>)

  /** Merged edge store with one slice array per index block and one for the
      attribute rows. */
  datatype EdgeBatch<E> = EdgeBatch(
    index: seq<seq<Edge>>,
    indexSlices: seq<seq<nat>>,
    attr: seq<E>,
    attrSlices: seq<nat>)

  /** A merged node store of `n` graphs whose tables can be cut back into graphs. */
  predicate NodesWellFormed<T>(nb: NodeBatch<T>, n: nat)
  {
    && |nb.ptr| == n + 1
    && (forall i :: 0 <= i < n ==> nb.ptr[i] <= nb.ptr[i + 1])
    && |nb.xSlices| == |nb.x|
    && (forall b :: 0 <= b < |nb.x| ==> IsSliceArray(nb.xSlices[b], n, |nb.x[b]|))
  }

  /** A merged edge store of `n` graphs whose tables can be cut back into graphs. */
  predicate EdgesWellFormed<E>(eb: EdgeBatch<E>, n: nat)
  {
    && |eb.indexSlices| == |eb.index|
    && (forall b :: 0 <= b < |eb.index| ==> IsSliceArray(eb.indexSlices[b], n, |eb.index[b]|))
    && IsSliceArray(eb.attrSlices, n, |eb.attr|)
  }

  /** Every node store carries `w` feature blocks. */
  predicate FeatureBlocks<T>(ss: seq<NodeStore<T>>, w: nat)
  {
    forall i :: 0 <= i < |ss| ==> |ss[i].x| == w
  }

  /** Every edge store carries `w` index blocks. */
  predicate IndexBlocks<E>(ss: seq<EdgeStore<E>>, w: nat)
  {
    forall i :: 0 <= i < |ss| ==> |ss[i].index| == w
  }

  function NodeCounts<T>(ss: seq<NodeStore<T>>): seq<nat>
  {
    seq(|ss|, i requires 0 <= i < |ss| => ss[i].numNodes)
  }

  /** Feature block `b` of every graph, in graph order. */
  function FeatureColumn<T>(ss: seq<NodeStore<T>>, w: nat, b: nat): seq<seq<T>>
    requires FeatureBlocks(ss, w) && b < w
  {
    seq(|ss|, i requires 0 <= i < |ss| => ss[i].x[b])
  }

  /** Index block `b` of every graph, each shifted by that graph's offsets. */
  function IndexColumn<E>(ss: seq<EdgeStore<E>>, w: nat, b: nat, srcOff: seq<nat>, dstOff: seq<nat>): seq<seq<Edge>>
    requires IndexBlocks(ss, w) && b < w
    requires |srcOff| >= |ss| && |dstOff| >= |ss|
  {
    seq(|ss|, i requires 0 <= i < |ss| => Shift(ss[i].index[b], srcOff[i], dstOff[i]))
  }

  /** Edge attribute rows of every graph, in graph order. */
  function AttrColumn<E>(ss: seq<EdgeStore<E>>): seq<seq<E>>
  {
    seq(|ss|, i requires 0 <= i < |ss| => ss[i].attr)
  }

  /** Every feature block's slice array delimits one segment per graph. */
  lemma {:induction false} FeatureSlices<T>(ss: seq<NodeStore<T>>, w: nat)
    requires FeatureBlocks(ss, w)
    ensures forall b :: 0 <= b < w ==>
              IsSliceArray(Ptr(Lengths(FeatureColumn(ss, w, b))), |ss|, |Flatten(FeatureColumn(ss, w, b))|)
  {
    forall b | 0 <= b < w
      ensures IsSliceArray(Ptr(Lengths(FeatureColumn(ss, w, b))), |ss|, |Flatten(FeatureColumn(ss, w, b))|)
    {
      PtrIsSliceArray(Lengths(FeatureColumn(ss, w, b)));
    }
  }

  /** Every index block's slice array delimits one segment per graph. */
  lemma {:induction false} IndexSlices<E>(ss: seq<EdgeStore<E>>, w: nat, srcOff: seq<nat>, dstOff: seq<nat>)
    requires IndexBlocks(ss, w) && |srcOff| >= |ss| && |dstOff| >= |ss|
    ensures forall b :: 0 <= b < w ==>
              IsSliceArray(Ptr(Lengths(IndexColumn(ss, w, b, srcOff, dstOff))), |ss|,
                           |Flatten(IndexColumn(ss, w, b, srcOff, dstOff))|)
  {
    forall b | 0 <= b < w
      ensures IsSliceArray(Ptr(Lengths(IndexColumn(ss, w, b, srcOff, dstOff))), |ss|,
                           |Flatten(IndexColumn(ss, w, b, srcOff, dstOff))|)
    {
      PtrIsSliceArray(Lengths(IndexColumn(ss, w, b, srcOff, dstOff)));
    }
  }

  /** Merge the node stores of `|ss|` graphs: counts become `ptr` and `batch`,
      each feature block is concatenated in graph order with its own slice array. */
  function CollateNodes<T>(ss: seq<NodeStore<T>>, w: nat): (r: NodeBatch<T>)
    requires FeatureBlocks(ss, w)
    ensures NodesWellFormed(r, |ss|) && |r.x| == w
    ensures r.numNodes == |r.batch| == r.ptr[|ss|]
  {
    var counts := NodeCounts(ss);
    FeatureSlices(ss, w);
    NodeBatch(
      Sum(counts),
      seq(w, b requires 0 <= b < w => Flatten(FeatureColumn(ss, w, b))),
      seq(w, b requires 0 <= b < w => Ptr(Lengths(FeatureColumn(ss, w, b)))),
      Ptr(counts),
      Membership(counts))
  }

  /** Merge the edge stores of `|ss|` graphs: index block entries of graph `i`
      are shifted by `srcOff[i]` (row 0) and `dstOff[i]` (row 1) before the
      blocks are concatenated; attribute rows are concatenated unshifted. */
  function CollateEdges<E>(ss: seq<EdgeStore<E>>, w: nat, srcOff: seq<nat>, dstOff: seq<nat>): (r: EdgeBatch<E>)
    requires IndexBlocks(ss, w)
    requires |srcOff| >= |ss| && |dstOff| >= |ss|
    ensures EdgesWellFormed(r, |ss|) && |r.index| == w
  {
    IndexSlices(ss, w, srcOff, dstOff);
    PtrIsSliceArray(Lengths(AttrColumn(ss)));
    EdgeBatch(
      seq(w, b requires 0 <= b < w => Flatten(IndexColumn(ss, w, b, srcOff, dstOff))),
      seq(w, b requires 0 <= b < w => Ptr(Lengths(IndexColumn(ss, w, b, srcOff, dstOff)))),
      Flatten(AttrColumn(ss)),
      Ptr(Lengths(AttrColumn(ss))))
  }

  /** Cut graph `i`'s node store out of a merged one. */
  function SeparateNodes<T>(nb: NodeBatch<T>, n: nat, i: nat): (r: NodeStore<T>)
    requires NodesWellFormed(nb, n) && i < n
    ensures nb.ptr[i] + r.numNodes == nb.ptr[i + 1]
    ensures |r.x| == |nb.x|
    ensures forall b :: 0 <= b < |nb.x| ==>
              nb.xSlices[b][i] + |r.x[b]| == nb.xSlices[b][i + 1]
              && forall k :: 0 <= k < |r.x[b]| ==> r.x[b][k] == nb.x[b][nb.xSlices[b][i] + k]
  {
    NodeStore(
      nb.ptr[i + 1] - nb.ptr[i],
      seq(|nb.x|, b requires 0 <= b < |nb.x| => nb.x[b][nb.xSlices[b][i]..nb.xSlices[b][i + 1]]))
  }

  /** Cut graph `i`'s edge store out of a merged one, subtracting the offsets
      `srcOff` and `dstOff` that collation added to its index blocks. */
  function SeparateEdges<E>(eb: EdgeBatch<E>, n: nat, i: nat, srcOff: int, dstOff: int): (r: EdgeStore<E>)
    requires EdgesWellFormed(eb, n) && i < n
    ensures |r.index| == |eb.index|
    ensures forall b :: 0 <= b < |eb.index| ==>
              eb.indexSlices[b][i] + |r.index[b]| == eb.indexSlices[b][i + 1]
              && forall k :: 0 <= k < |r.index[b]| ==>
                   var e := eb.index[b][eb.indexSlices[b][i] + k];
                   r.index[b][k].src + srcOff == e.src && r.index[b][k].dst + dstOff == e.dst
    ensures eb.attrSlices[i] + |r.attr| == eb.attrSlices[i + 1]
    ensures forall k :: 0 <= k < |r.attr| ==> r.attr[k] == eb.attr[eb.attrSlices[i] + k]
  {
    EdgeStore(
      seq(|eb.index| , b requires 0 <= b < |eb.index| =>
        Shift(eb.index[b][eb.indexSlices[b][i]..eb.indexSlices[b][i + 1]], -srcOff, -dstOff)),
      eb.attr[eb.attrSlices[i]..eb.attrSlices[i + 1]])
  }

  /** Separating graph `i` from merged node stores gives back its node store. */
  lemma {:induction false} NodesRoundTrip<T>(ss: seq<NodeStore<T>>, w: nat, i: nat)
    requires FeatureBlocks(ss, w) && i < |ss|
    ensures SeparateNodes(CollateNodes(ss, w), |ss|, i) == ss[i]
  {
    var r := SeparateNodes(CollateNodes(ss, w), |ss|, i);
    forall b | 0 <= b < w
      ensures r.x[b] == ss[i].x[b]
    {
      FlattenSlice(FeatureColumn(ss, w, b), i);
    }
    assert r.x == ss[i].x;
  }

  /** The side tables of merged node stores: `ptr` is the prefix sum of the
      node counts starting at 0, `num_nodes` is their total, and the
      membership vector has one entry per merged node, is non-decreasing and
      names graph `i` exactly on the rows `ptr[i] .. ptr[i+1]`. */
  lemma {:induction false} NodeTables<T>(ss: seq<NodeStore<T>>, w: nat)
    requires FeatureBlocks(ss, w)
    ensures var nb := CollateNodes(ss, w);
            && |nb.ptr| == |ss| + 1 && nb.ptr[0] == 0
            && (forall i :: 0 <= i < |ss| ==> nb.ptr[i + 1] == nb.ptr[i] + ss[i].numNodes)
            && nb.numNodes == nb.ptr[|ss|] == |nb.batch|
            && (forall i, j :: 0 <= i < |ss| && 0 <= j < nb.numNodes ==>
                  (nb.batch[j] == i <==> nb.ptr[i] <= j < nb.ptr[i + 1]))
            && (forall j, k :: 0 <= j <= k < nb.numNodes ==> nb.batch[j] <= nb.batch[k])
  {
    SideTables(NodeCounts(ss));
  }

  /** Segment `i` of merged feature block `b` is graph `i`'s block, and the
      slice array advances by its size. */
  lemma {:induction false} FeatureSegment<T>(ss: seq<NodeStore<T>>, w: nat, b: nat, i: nat)
    requires FeatureBlocks(ss, w) && b < w && i < |ss|
    ensures var nb := CollateNodes(ss, w);
            && nb.xSlices[b][i + 1] == nb.xSlices[b][i] + |ss[i].x[b]|
            && nb.x[b][nb.xSlices[b][i]..nb.xSlices[b][i + 1]] == ss[i].x[b]
  {
    FlattenSlice(FeatureColumn(ss, w, b), i);
  }

  /** Segment `i` of merged index block `b` is graph `i`'s block shifted by
      graph `i`'s offsets. */
  lemma {:induction false} EdgeSegment<E>(ss: seq<EdgeStore<E>>, w: nat, srcOff: seq<nat>, dstOff: seq<nat>, b: nat, i: nat)
    requires IndexBlocks(ss, w) && |srcOff| >= |ss| && |dstOff| >= |ss|
    requires b < w && i < |ss|
    ensures var eb := CollateEdges(ss, w, srcOff, dstOff);
            eb.index[b][eb.indexSlices[b][i]..eb.indexSlices[b][i + 1]]
              == Shift(ss[i].index[b], srcOff[i], dstOff[i])
  {
    FlattenSlice(IndexColumn(ss, w, b, srcOff, dstOff), i);
  }

  /** Segment `i` of the merged edge attribute rows is graph `i`'s rows. */
  lemma {:induction false} AttrSegment<E>(ss: seq<EdgeStore<E>>, w: nat, srcOff: seq<nat>, dstOff: seq<nat>, i: nat)
    requires IndexBlocks(ss, w) && |srcOff| >= |ss| && |dstOff| >= |ss| && i < |ss|
    ensures var eb := CollateEdges(ss, w, srcOff, dstOff);
            && eb.attrSlices[i + 1] == eb.attrSlices[i] + |ss[i].attr|
            && eb.attr[eb.attrSlices[i]..eb.attrSlices[i + 1]] == ss[i].attr
  {
    FlattenSlice(AttrColumn(ss), i);
  }

  /** The edge attribute rows of the batch are the graphs' rows in graph
      order: the slice array starts at 0, advances by each graph's edge
      count, ends at the merged size and delimits each graph's rows. */
  lemma {:induction false} AttrSegments<E>(ss: seq<EdgeStore<E>>, w: nat, srcOff: seq<nat>, dstOff: seq<nat>)
    requires IndexBlocks(ss, w) && |srcOff| >= |ss| && |dstOff| >= |ss|
    ensures var eb := CollateEdges(ss, w, srcOff, dstOff);
            && eb.attrSlices[0] == 0 && eb.attrSlices[|ss|] == |eb.attr|
            && forall i :: 0 <= i < |ss| ==>
                 && eb.attrSlices[i + 1] == eb.attrSlices[i] + |ss[i].attr|
                 && eb.attr[eb.attrSlices[i]..eb.attrSlices[i + 1]] == ss[i].attr
  {
    var eb := CollateEdges(ss, w, srcOff, dstOff);
    forall i | 0 <= i < |ss|
      ensures eb.attrSlices[i + 1] == eb.attrSlices[i] + |ss[i].attr|
      ensures eb.attr[eb.attrSlices[i]..eb.attrSlices[i + 1]] == ss[i].attr
    {
      AttrSegment(ss, w, srcOff, dstOff, i);
    }
  }

  /** Separating graph `i` with the offsets collation used gives back its edge
      store: the index blocks unshifted and the attribute rows. */
  lemma {:induction false} EdgesRoundTrip<E>(ss: seq<EdgeStore<E>>, w: nat, srcOff: seq<nat>, dstOff: seq<nat>, i: nat)
    requires IndexBlocks(ss, w) && |srcOff| >= |ss| && |dstOff| >= |ss|
    requires i < |ss|
    ensures SeparateEdges(CollateEdges(ss, w, srcOff, dstOff), |ss|, i, srcOff[i], dstOff[i]) == ss[i]
  {
    var r := SeparateEdges(CollateEdges(ss, w, srcOff, dstOff), |ss|, i, srcOff[i], dstOff[i]);
    forall b | 0 <= b < w
      ensures r.index[b] == ss[i].index[b]
    {
      EdgeSegment(ss, w, srcOff, dstOff, b, i);
      ShiftRoundTrip(ss[i].index[b], srcOff[i], dstOff[i]);
    }
    assert r.index == ss[i].index;
    FlattenSlice(AttrColumn(ss), i);
  }

  /** If every graph's index block `b` only names its own `srcCounts[i]` source
      and `dstCounts[i]` destination nodes, the merged block only names nodes
      of the merged row spaces. */
  lemma {:induction false} EdgesWithin<E>(ss: seq<EdgeStore<E>>, w: nat, srcCounts: seq<nat>, dstCounts: seq<nat>, b: nat)
    requires IndexBlocks(ss, w) && b < w
    requires |srcCounts| == |ss| && |dstCounts| == |ss|
    requires forall i :: 0 <= i < |ss| ==> Within(ss[i].index[b], 0, srcCounts[i], 0, dstCounts[i])
    ensures Within(CollateEdges(ss, w, Ptr(srcCounts), Ptr(dstCounts)).index[b], 0, Sum(srcCounts), 0, Sum(dstCounts))
  {
    var col := IndexColumn(ss, w, b, Ptr(srcCounts), Ptr(dstCounts));
    var merged := CollateEdges(ss, w, Ptr(srcCounts), Ptr(dstCounts)).index[b];
    assert merged == Flatten(col);
    forall k | 0 <= k < |merged|
      ensures 0 <= merged[k].src < Sum(srcCounts) && 0 <= merged[k].dst < Sum(dstCounts)
    {
      var e := merged[k];
      FlattenMember(col, e);
      var i :| 0 <= i < |col| && e in col[i];
      ShiftWithin(ss[i].index[b], srcCounts[i], dstCounts[i], Ptr(srcCounts)[i], Ptr(dstCounts)[i]);
      PtrMonotone(srcCounts, i + 1, |ss|);
      PtrMonotone(dstCounts, i + 1, |ss|);
    }
  }

  /** Edge `m` of graph `i`, valid in its graph and shifted by `ptr[i]`, joins
      two merged nodes that the membership vector assigns to graph `i`. */
  lemma {:induction false} OwnedEdge(c: seq<nat>, i: nat, local: seq<Edge>, m: nat)
    requires i < |c| && m < |local| && Within(local, 0, c[i], 0, c[i])
    ensures var e := Shift(local, Ptr(c)[i], Ptr(c)[i])[m];
            && 0 <= e.src < Sum(c) && 0 <= e.dst < Sum(c)
            && Membership(c)[e.src] == i && Membership(c)[e.dst] == i
  {
    OwnedRow(c, i, local[m].src);
    OwnedRow(c, i, local[m].dst);
  }

  /** An edge at position `k` of a merged block, inside the segment that
      holds graph `i`'s edges shifted by `ptr[i]`, joins two merged nodes of
      graph `i`. */
  lemma {:induction false} OwnedMergedEdge(c: seq<nat>, i: nat, local: seq<Edge>, merged: seq<Edge>, lo: nat, hi: nat, k: nat)
    requires i < |c| && Within(local, 0, c[i], 0, c[i])
    requires lo <= k < hi <= |merged| && merged[lo..hi] == Shift(local, Ptr(c)[i], Ptr(c)[i])
    ensures 0 <= merged[k].src < Sum(c) && 0 <= merged[k].dst < Sum(c)
    ensures Membership(c)[merged[k].src] == i && Membership(c)[merged[k].dst] == i
  {
    SliceIndex(merged, lo, hi, k);
    OwnedEdge(c, i, local, k - lo);
  }
}

/**
 Heterogeneous batching: a graph holds one node store per node type and one
 edge store per edge type `(source type, destination type)`. Each node type
 keeps its own pointer array and membership vector; an edge type's index
 rows are shifted by two independent offsets, the source type's and the
 destination type's node counts of the earlier graphs.
 */
module Hetero {
  import opened Results
  import opened Offsets
  import opened Segments
  import opened Edges
  import opened Stores

  /** An edge type between node types `src` and `dst` (positions in the node
      type list) with its store. */
  datatype EdgeType<E> = EdgeType(src: nat, dst: nat, store: EdgeStore<E>)

  /** One heterogeneous graph (`HeteroData`). */
  datatype HeteroData<T, E> = HeteroData(nodes: seq<NodeStore<T>>, edges: seq<EdgeType<E>>)

  datatype EdgeTypeBatch<E> = EdgeTypeBatch(src: nat, dst: nat, store: EdgeBatch<E>)

  /** A batch of heterogeneous graphs: one merged store per node type and per
      edge type. */
  datatype HeteroBatch<T, E> = HeteroBatch(
    numGraphs: nat,
    nodes: seq<NodeBatch<T>>,
    edges: seq<EdgeTypeBatch<E>>)

  predicate WellFormed<T, E>(hb: HeteroBatch<T, E>)
  {
    && (forall t :: 0 <= t < |hb.nodes| ==> NodesWellFormed(hb.nodes[t], hb.numGraphs))
    && (forall e :: 0 <= e < |hb.edges| ==>
          && hb.edges[e].src < |hb.nodes| && hb.edges[e].dst < |hb.nodes|
          && EdgesWellFormed(hb.edges[e].store, hb.numGraphs))
  }

  /** Graph `d` has the node types, edge types and block counts of `first`. */
  predicate LayoutMatches<T, E>(d: HeteroData<T, E>, first: HeteroData<T, E>)
  {
    && |d.nodes| == |first.nodes|
    && (forall t :: 0 <= t < |d.nodes| ==> |d.nodes[t].x| == |first.nodes[t].x|)
    && |d.edges| == |first.edges|
    && (forall e :: 0 <= e < |d.edges| ==>
          && d.edges[e].src == first.edges[e].src
          && d.edges[e].dst == first.edges[e].dst
          && |d.edges[e].store.index| == |first.edges[e].store.index|)
  }

  /** Every edge type of `d` connects node types that `d` has. */
  predicate TypesKnown<T, E>(d: HeteroData<T, E>)
  {
    forall e :: 0 <= e < |d.edges| ==> d.edges[e].src < |d.nodes| && d.edges[e].dst < |d.nodes|
  }

  predicate SameLayout<T, E>(ds: seq<HeteroData<T, E>>)
  {
    |ds| > 0 ==> TypesKnown(ds[0]) && forall i :: 0 <= i < |ds| ==> LayoutMatches(ds[i], ds[0])
  }

  /** Node type `t`'s store of every graph, in graph order. */
  function TypeStores<T, E>(ds: seq<HeteroData<T, E>>, t: nat): (r: seq<NodeStore<T>>)
    requires forall i :: 0 <= i < |ds| ==> t < |ds[i].nodes|
    ensures |r| == |ds|
  {
    seq(|ds|, i requires 0 <= i < |ds| => ds[i].nodes[t])
  }

  /** Edge type `e`'s store of every graph, in graph order. */
  function RelStores<T, E>(ds: seq<HeteroData<T, E>>, e: nat): (r: seq<EdgeStore<E>>)
    requires forall i :: 0 <= i < |ds| ==> e < |ds[i].edges|
    ensures |r| == |ds|
  {
    seq(|ds|, i requires 0 <= i < |ds| => ds[i].edges[e].store)
  }

  /** Merged stores of every node type. */
  function CollateTypes<T, E>(ds: seq<HeteroData<T, E>>): (r: seq<NodeBatch<T>>)
    requires |ds| > 0 && SameLayout(ds)
    ensures |r| == |ds[0].nodes|
    ensures forall t :: 0 <= t < |r| ==>
              r[t] == CollateNodes(TypeStores(ds, t), |ds[0].nodes[t].x|) && NodesWellFormed(r[t], |ds|)
  {
    seq(|ds[0].nodes|, t requires 0 <= t < |ds[0].nodes| =>
      CollateNodes(TypeStores(ds, t), |ds[0].nodes[t].x|))
  }

  /** Merged stores of every edge type, each index row shifted by the pointer
      array of the node type it refers to. */
  function CollateRelations<T, E>(ds: seq<HeteroData<T, E>>, nodes: seq<NodeBatch<T>>): (r: seq<EdgeTypeBatch<E>>)
    requires |ds| > 0 && SameLayout(ds)
    requires |nodes| == |ds[0].nodes| && forall t :: 0 <= t < |nodes| ==> |nodes[t].ptr| == |ds| + 1
    ensures |r| == |ds[0].edges|
    ensures forall e :: 0 <= e < |r| ==>
              && r[e].src == ds[0].edges[e].src && r[e].dst == ds[0].edges[e].dst
              && r[e].store == CollateEdges(RelStores(ds, e), |ds[0].edges[e].store.index|,
                                            nodes[r[e].src].ptr, nodes[r[e].dst].ptr)
  {
    seq(|ds[0].edges|, e requires 0 <= e < |ds[0].edges| =>
      var et := ds[0].edges[e];
      EdgeTypeBatch(et.src, et.dst,
        CollateEdges(RelStores(ds, e), |et.store.index|, nodes[et.src].ptr, nodes[et.dst].ptr)))
  }

  /** `Batch.from_data_list` on heterogeneous graphs: refused when the graphs
      disagree on their types or blocks, or name an unknown node type. */
  function FromDataList<T, E>(ds: seq<HeteroData<T, E>>): (r: Result<HeteroBatch<T, E>>)
    ensures r.Ok? <==> SameLayout(ds)
    ensures r.Ok? ==> WellFormed(r.value) && r.value.numGraphs == |ds|
  {
    if !SameLayout(ds) then Err(StructuralMismatch)
    else if |ds| == 0 then Ok(HeteroBatch(0, [], []))
    else
      var nodes := CollateTypes(ds);
      Ok(HeteroBatch(|ds|, nodes, CollateRelations(ds, nodes)))
  }

  /** `batch[i]`: graph `i` of a heterogeneous batch, every index row reduced
      by the offset of the node type it refers to. */
  function Separate<T, E>(hb: HeteroBatch<T, E>, i: nat): (r: HeteroData<T, E>)
    requires WellFormed(hb) && i < hb.numGraphs
    ensures |r.nodes| == |hb.nodes| && |r.edges| == |hb.edges|
    ensures forall t :: 0 <= t < |hb.nodes| ==>
              hb.nodes[t].ptr[i] + r.nodes[t].numNodes == hb.nodes[t].ptr[i + 1]
    ensures forall e :: 0 <= e < |hb.edges| ==>
              r.edges[e].src == hb.edges[e].src && r.edges[e].dst == hb.edges[e].dst
  {
    HeteroData(
      seq(|hb.nodes|, t requires 0 <= t < |hb.nodes| => SeparateNodes(hb.nodes[t], hb.numGraphs, i)),
      seq(|hb.edges|, e requires 0 <= e < |hb.edges| =>
        var eb := hb.edges[e];
        EdgeType(eb.src, eb.dst,
          SeparateEdges(eb.store, hb.numGraphs, i, hb.nodes[eb.src].ptr[i], hb.nodes[eb.dst].ptr[i]))))
  }

  /** `to_data_list` on a heterogeneous batch. */
  function ToDataList<T, E>(hb: HeteroBatch<T, E>): (r: seq<HeteroData<T, E>>)
    requires WellFormed(hb)
    ensures |r| == hb.numGraphs
  {
    seq(hb.numGraphs, i requires 0 <= i < hb.numGraphs => Separate(hb, i))
  }

  /** Node counts of every type of one graph. */
  function TypeCounts<T, E>(d: HeteroData<T, E>): seq<nat>
  {
    seq(|d.nodes|, t requires 0 <= t < |d.nodes| => d.nodes[t].numNodes)
  }

  /** `num_nodes` of a heterogeneous graph: the total over its node types. */
  function NumNodes<T, E>(d: HeteroData<T, E>): (r: nat)
    ensures forall t :: 0 <= t < |d.nodes| ==> d.nodes[t].numNodes <= r
    ensures (forall t :: 0 <= t < |d.nodes| ==> d.nodes[t].numNodes == 0) ==> r == 0
  {
    var c := TypeCounts(d);
    assert forall t :: 0 <= t < |c| ==> c[t] == d.nodes[t].numNodes;
    SumBounds(c);
    Sum(c)
  }

  /** Merged node counts of every type of a batch. */
  function BatchTypeCounts<T, E>(hb: HeteroBatch<T, E>): seq<nat>
  {
    seq(|hb.nodes|, t requires 0 <= t < |hb.nodes| => hb.nodes[t].numNodes)
  }

  /** `num_nodes` of a heterogeneous batch: the total over its node types. */
  function BatchNumNodes<T, E>(hb: HeteroBatch<T, E>): (r: nat)
    ensures forall t :: 0 <= t < |hb.nodes| ==> hb.nodes[t].numNodes <= r
    ensures (forall t :: 0 <= t < |hb.nodes| ==> hb.nodes[t].numNodes == 0) ==> r == 0
  {
    var c := BatchTypeCounts(hb);
    assert forall t :: 0 <= t < |c| ==> c[t] == hb.nodes[t].numNodes;
    SumBounds(c);
    Sum(c)
  }

  /** Each node type has its own pointer array and membership vector, built
      from that type's node counts alone. */
  lemma {:induction false} TypeTables<T, E>(ds: seq<HeteroData<T, E>>, hb: HeteroBatch<T, E>, t: nat)
    requires FromDataList(ds) == Ok(hb) && t < |hb.nodes|
    ensures |ds| > 0 && forall i :: 0 <= i < |ds| ==> t < |ds[i].nodes|
    ensures |hb.nodes[t].ptr| == |ds| + 1 && hb.nodes[t].ptr[0] == 0
    ensures forall i :: 0 <= i < |ds| ==> hb.nodes[t].ptr[i + 1] == hb.nodes[t].ptr[i] + ds[i].nodes[t].numNodes
    ensures hb.nodes[t].numNodes == hb.nodes[t].ptr[|ds|] == |hb.nodes[t].batch|
    ensures forall i, j :: 0 <= i < |ds| && 0 <= j < hb.nodes[t].numNodes ==>
              (hb.nodes[t].batch[j] == i <==> hb.nodes[t].ptr[i] <= j < hb.nodes[t].ptr[i + 1])
  {
    NodeTables(TypeStores(ds, t), |ds[0].nodes[t].x|);
  }

  /** Segment `i` of an edge type's index block holds graph `i`'s block with
      the source row shifted by the source type's `ptr[i]` and the
      destination row by the destination type's `ptr[i]`. */
  lemma {:induction false} RelationShifted<T, E>(ds: seq<HeteroData<T, E>>, hb: HeteroBatch<T, E>, e: nat, blk: nat, i: nat)
    requires FromDataList(ds) == Ok(hb) && e < |hb.edges| && blk < |hb.edges[e].store.index| && i < |ds|
    ensures e < |ds[i].edges| && blk < |ds[i].edges[e].store.index|
    ensures hb.edges[e].src == ds[i].edges[e].src && hb.edges[e].dst == ds[i].edges[e].dst
    ensures var eb := hb.edges[e].store;
            eb.index[blk][eb.indexSlices[blk][i]..eb.indexSlices[blk][i + 1]]
              == Shift(ds[i].edges[e].store.index[blk],
                       hb.nodes[hb.edges[e].src].ptr[i], hb.nodes[hb.edges[e].dst].ptr[i])
  {
    var src, dst := hb.edges[e].src, hb.edges[e].dst;
    EdgeSegment(RelStores(ds, e), |ds[0].edges[e].store.index|, hb.nodes[src].ptr, hb.nodes[dst].ptr, blk, i);
  }

  /** Index validity per edge type: local indices valid for the graph's own
      source and destination types stay valid for the merged types. */
  lemma {:induction false} RelationValid<T, E>(ds: seq<HeteroData<T, E>>, hb: HeteroBatch<T, E>, e: nat, blk: nat)
    requires FromDataList(ds) == Ok(hb) && e < |hb.edges| && blk < |hb.edges[e].store.index|
    requires forall i :: 0 <= i < |ds| ==>
               e < |ds[i].edges| && blk < |ds[i].edges[e].store.index|
               && ds[i].edges[e].src < |ds[i].nodes| && ds[i].edges[e].dst < |ds[i].nodes|
               && Within(ds[i].edges[e].store.index[blk],
                         0, ds[i].nodes[ds[i].edges[e].src].numNodes,
                         0, ds[i].nodes[ds[i].edges[e].dst].numNodes)
    ensures Within(hb.edges[e].store.index[blk],
                   0, hb.nodes[hb.edges[e].src].numNodes, 0, hb.nodes[hb.edges[e].dst].numNodes)
  {
    var src, dst := hb.edges[e].src, hb.edges[e].dst;
    var cs := NodeCounts(TypeStores(ds, src));
    var cd := NodeCounts(TypeStores(ds, dst));
    EdgesWithin(RelStores(ds, e), |ds[0].edges[e].store.index|, cs, cd, blk);
  }

  /** Separating graph `i` gives back its store of node type `t`. */
  lemma {:induction false} TypeRoundTrip<T, E>(ds: seq<HeteroData<T, E>>, hb: HeteroBatch<T, E>, i: nat, t: nat)
    requires FromDataList(ds) == Ok(hb) && i < |ds| && t < |hb.nodes|
    ensures t < |ds[i].nodes| && SeparateNodes(hb.nodes[t], hb.numGraphs, i) == ds[i].nodes[t]
  {
    NodesRoundTrip(TypeStores(ds, t), |ds[0].nodes[t].x|, i);
  }

  /** Separating graph `i` gives back its store of edge type `e`, both index
      rows reduced by the offsets collation added. */
  lemma {:induction false} RelationRoundTrip<T, E>(ds: seq<HeteroData<T, E>>, hb: HeteroBatch<T, E>, i: nat, e: nat)
    requires FromDataList(ds) == Ok(hb) && i < |ds| && e < |hb.edges|
    ensures e < |ds[i].edges|
    ensures var eb := hb.edges[e];
            EdgeType(eb.src, eb.dst,
              SeparateEdges(eb.store, hb.numGraphs, i, hb.nodes[eb.src].ptr[i], hb.nodes[eb.dst].ptr[i]))
            == ds[i].edges[e]
  {
    var src, dst := hb.edges[e].src, hb.edges[e].dst;
    EdgesRoundTrip(RelStores(ds, e), |ds[0].edges[e].store.index|, hb.nodes[src].ptr, hb.nodes[dst].ptr, i);
  }

  /** Round trip: separating graph `i` gives back every node type's store and
      every edge type's store with both index rows unshifted. */
  lemma {:induction false} RoundTrip<T, E>(ds: seq<HeteroData<T, E>>, hb: HeteroBatch<T, E>, i: nat)
    requires FromDataList(ds) == Ok(hb) && i < |ds|
    ensures Separate(hb, i) == ds[i]
  {
    var r := Separate(hb, i);
    forall t | 0 <= t < |hb.nodes|
      ensures r.nodes[t] == ds[i].nodes[t]
    {
      TypeRoundTrip(ds, hb, i, t);
    }
    forall e | 0 <= e < |hb.edges|
      ensures r.edges[e] == ds[i].edges[e]
    {
      RelationRoundTrip(ds, hb, i, e);
    }
    assert r.nodes == ds[i].nodes;
    assert r.edges == ds[i].edges;
  }

  /** `to_data_list` of a heterogeneous batch gives back its list. */
  lemma {:induction false} ToDataListRoundTrip<T, E>(ds: seq<HeteroData<T, E>>, hb: HeteroBatch<T, E>)
    requires FromDataList(ds) == Ok(hb)
    ensures ToDataList(hb) == ds
  {
    forall i | 0 <= i < |ds|
      ensures ToDataList(hb)[i] == ds[i]
    {
      RoundTrip(ds, hb, i);
    }
  }

  /** Node-count table of a list of graphs: row `i` holds graph `i`'s count
      per node type. */
  function CountTable<T, E>(ds: seq<HeteroData<T, E>>): (m: seq<seq<nat>>)
    ensures |m| == |ds|
  {
    seq(|ds|, i requires 0 <= i < |ds| => TypeCounts(ds[i]))
  }

  /** The merged count of node type `t` is column `t` of the count table. */
  lemma {:induction false} TypeTotal<T, E>(ds: seq<HeteroData<T, E>>, hb: HeteroBatch<T, E>, t: nat)
    requires FromDataList(ds) == Ok(hb) && t < |hb.nodes|
    requires forall i :: 0 <= i < |ds| ==> |CountTable(ds)[i]| == |hb.nodes|
    ensures hb.nodes[t].numNodes == Sum(Column(CountTable(ds), |hb.nodes|, t))
  {
    assert NodeCounts(TypeStores(ds, t)) == Column(CountTable(ds), |hb.nodes|, t);
  }

  /** Every row of the count table has one entry per node type of the batch. */
  lemma {:induction false} TableWidth<T, E>(ds: seq<HeteroData<T, E>>, hb: HeteroBatch<T, E>)
    requires FromDataList(ds) == Ok(hb)
    ensures forall i :: 0 <= i < |ds| ==> |CountTable(ds)[i]| == |hb.nodes|
  {
  }

  /** The batch's `num_nodes` is the sum of the graphs' `num_nodes`, each of
      which is the total over that graph's node types. */
  lemma {:induction false} NumNodesAdd<T, E>(ds: seq<HeteroData<T, E>>, hb: HeteroBatch<T, E>)
    requires FromDataList(ds) == Ok(hb)
    ensures BatchNumNodes(hb) == Sum(seq(|ds|, i requires 0 <= i < |ds| => NumNodes(ds[i])))
  {
    var m := CountTable(ds);
    var w := |hb.nodes|;
    TableWidth(ds, hb);
    var perType := BatchTypeCounts(hb);
    forall t | 0 <= t < w
      ensures perType[t] == Sum(Column(m, w, t))
    {
      TypeTotal(ds, hb, t);
    }
    SumOfColumns(m, w, perType);
    assert seq(|ds|, i requires 0 <= i < |ds| => NumNodes(ds[i]))
        == seq(|m|, i requires 0 <= i < |m| => Sum(m[i]));
  }

  /** Feature block `blk` of node type `t` is the concatenation of the
      graphs' blocks of that type, in graph order. */
  lemma {:induction false} TypeFeatures<T, E>(ds: seq<HeteroData<T, E>>, hb: HeteroBatch<T, E>, t: nat, blk: nat)
    requires FromDataList(ds) == Ok(hb) && t < |hb.nodes| && blk < |hb.nodes[t].x|
    ensures forall i :: 0 <= i < |ds| ==> t < |ds[i].nodes| && blk < |ds[i].nodes[t].x|
    ensures hb.nodes[t].xSlices[blk][0] == 0
    ensures hb.nodes[t].xSlices[blk][|ds|] == |hb.nodes[t].x[blk]|
    ensures forall i :: 0 <= i < |ds| ==>
              && hb.nodes[t].xSlices[blk][i + 1] == hb.nodes[t].xSlices[blk][i] + |ds[i].nodes[t].x[blk]|
              && hb.nodes[t].x[blk][hb.nodes[t].xSlices[blk][i]..hb.nodes[t].xSlices[blk][i + 1]]
                   == ds[i].nodes[t].x[blk]
  {
    var w := |ds[0].nodes[t].x|;
    forall i | 0 <= i < |ds|
      ensures hb.nodes[t].xSlices[blk][i + 1] == hb.nodes[t].xSlices[blk][i] + |ds[i].nodes[t].x[blk]|
      ensures hb.nodes[t].x[blk][hb.nodes[t].xSlices[blk][i]..hb.nodes[t].xSlices[blk][i + 1]]
                == ds[i].nodes[t].x[blk]
    {
      FeatureSegment(TypeStores(ds, t), w, blk, i);
    }
  }

  /** Two heterogeneous graphs, node type `t`: `ptr` is `[0, n1, n1 + n2]`
      for that type's counts and every feature block of the type is the
      first graph's block followed by the second's. */
  lemma {:induction false} TwoGraphsType<T, E>(d1: HeteroData<T, E>, d2: HeteroData<T, E>, hb: HeteroBatch<T, E>, t: nat)
    requires FromDataList([d1, d2]) == Ok(hb) && t < |hb.nodes|
    ensures t < |d1.nodes| && t < |d2.nodes|
    ensures hb.nodes[t].ptr == [0, d1.nodes[t].numNodes, d1.nodes[t].numNodes + d2.nodes[t].numNodes]
    ensures hb.nodes[t].numNodes == |hb.nodes[t].batch| == d1.nodes[t].numNodes + d2.nodes[t].numNodes
    ensures forall blk :: 0 <= blk < |hb.nodes[t].x| ==>
              blk < |d1.nodes[t].x| && blk < |d2.nodes[t].x|
              && hb.nodes[t].x[blk] == d1.nodes[t].x[blk] + d2.nodes[t].x[blk]
  {
    TypeTables([d1, d2], hb, t);
    forall blk | 0 <= blk < |hb.nodes[t].x|
      ensures hb.nodes[t].x[blk] == d1.nodes[t].x[blk] + d2.nodes[t].x[blk]
    {
      TypeFeatures([d1, d2], hb, t, blk);
      TwoSegments(hb.nodes[t].x[blk], hb.nodes[t].xSlices[blk], d1.nodes[t].x[blk], d2.nodes[t].x[blk]);
    }
  }

  /** Two heterogeneous graphs, edge type `e` from type `src` to type `dst`:
      every index block is the first graph's block followed by the second's
      with the source row shifted by the first graph's `src` count and the
      destination row by its `dst` count; the edge attribute rows are the
      first graph's followed by the second's. */
  lemma {:induction false} TwoGraphsRelation<T, E>(d1: HeteroData<T, E>, d2: HeteroData<T, E>, hb: HeteroBatch<T, E>, e: nat)
    requires FromDataList([d1, d2]) == Ok(hb) && e < |hb.edges|
    ensures e < |d1.edges| && e < |d2.edges|
    ensures hb.edges[e].src == d1.edges[e].src < |d1.nodes| && hb.edges[e].dst == d1.edges[e].dst < |d1.nodes|
    ensures forall blk :: 0 <= blk < |hb.edges[e].store.index| ==>
              blk < |d1.edges[e].store.index| && blk < |d2.edges[e].store.index|
              && hb.edges[e].store.index[blk]
                   == d1.edges[e].store.index[blk]
                      + Shift(d2.edges[e].store.index[blk],
                              d1.nodes[d1.edges[e].src].numNodes, d1.nodes[d1.edges[e].dst].numNodes)
    ensures hb.edges[e].store.attr == d1.edges[e].store.attr + d2.edges[e].store.attr
  {
    var ds := [d1, d2];
    var src, dst := hb.edges[e].src, hb.edges[e].dst;
    var w := |d1.edges[e].store.index|;
    TwoGraphsType(d1, d2, hb, src);
    TwoGraphsType(d1, d2, hb, dst);
    var eb := hb.edges[e].store;
    forall blk | 0 <= blk < |eb.index|
      ensures eb.index[blk] == d1.edges[e].store.index[blk]
                + Shift(d2.edges[e].store.index[blk], d1.nodes[src].numNodes, d1.nodes[dst].numNodes)
    {
      RelationShifted(ds, hb, e, blk, 0);
      RelationShifted(ds, hb, e, blk, 1);
      ShiftZero(d1.edges[e].store.index[blk]);
      PtrIsSliceArray(Lengths(IndexColumn(RelStores(ds, e), w, blk, hb.nodes[src].ptr, hb.nodes[dst].ptr)));
      TwoSegments(eb.index[blk], eb.indexSlices[blk], d1.edges[e].store.index[blk],
                  Shift(d2.edges[e].store.index[blk], d1.nodes[src].numNodes, d1.nodes[dst].numNodes));
    }
    AttrSegments(RelStores(ds, e), w, hb.nodes[src].ptr, hb.nodes[dst].ptr);
    TwoSegments(eb.attr, eb.attrSlices, d1.edges[e].store.attr, d2.edges[e].store.attr);
  }
}

/**
 Homogeneous batching: `Batch.from_data_list` merges a list of graphs into
 one batch, and `batch[i]`, `index_select` and `to_data_list` cut graphs back
 out of it.
 */
module Batching {
  import opened Results
  import opened Offsets
  import opened Segments
  import opened Edges
  import opened Stores

  /** One graph: its node store, its edge store and a graph-level attribute.
      The graph-level attribute stands for every attribute that is not
      concatenated along a row axis: a scalar label, a tensor whose
      concatenation dimension is `None`, or a string. */
  datatype Data<T, E, G> = Data(nodes: NodeStore<T>, edges: EdgeStore<E>, graph: G)

  /** A batch of `numGraphs` graphs: merged stores with their side tables and
      the graph-level attributes stacked along a new leading axis. */
  datatype Batch<T, E, G> = Batch(
    numGraphs: nat,
    nodes: NodeBatch<T>,
    edges: EdgeBatch<E>,
    graph: seq<G>)

  /** A batch whose side tables can cut every one of its graphs back out. */
  predicate WellFormed<T, E, G>(b: Batch<T, E, G>)
  {
    && NodesWellFormed(b.nodes, b.numGraphs)
    && EdgesWellFormed(b.edges, b.numGraphs)
    && |b.graph| == b.numGraphs
  }

  /** All graphs carry as many feature blocks and index blocks as the first. */
  predicate SameLayout<T, E, G>(ds: seq<Data<T, E, G>>)
  {
    forall i :: 0 <= i < |ds| ==>
      |ds[i].nodes.x| == |ds[0].nodes.x| && |ds[i].edges.index| == |ds[0].edges.index|
  }

  function FeatureWidth<T, E, G>(ds: seq<Data<T, E, G>>): nat
  {
    if |ds| == 0 then 0 else |ds[0].nodes.x|
  }

  function IndexWidth<T, E, G>(ds: seq<Data<T, E, G>>): nat
  {
    if |ds| == 0 then 0 else |ds[0].edges.index|
  }

  function NodeStores<T, E, G>(ds: seq<Data<T, E, G>>): seq<NodeStore<T>>
  {
    seq(|ds|, i requires 0 <= i < |ds| => ds[i].nodes)
  }

  function EdgeStores<T, E, G>(ds: seq<Data<T, E, G>>): seq<EdgeStore<E>>
  {
    seq(|ds|, i requires 0 <= i < |ds| => ds[i].edges)
  }

  /** Node counts of the graphs, in order. */
  function Counts<T, E, G>(ds: seq<Data<T, E, G>>): seq<nat>
  {
    seq(|ds|, i requires 0 <= i < |ds| => ds[i].nodes.numNodes)
  }

  /** `Batch.from_data_list`: refused when the graphs disagree on their
      attribute layout; otherwise a well-formed batch of `|ds|` graphs. Index
      blocks of graph `i` are shifted by `ptr[i]` in both rows. */
  function FromDataList<T, E, G>(ds: seq<Data<T, E, G>>): (r: Result<Batch<T, E, G>>)
    ensures r.Ok? <==> SameLayout(ds)
    ensures r.Ok? ==> WellFormed(r.value) && r.value.numGraphs == |ds|
    ensures r.Ok? ==> |r.value.nodes.x| == FeatureWidth(ds) && |r.value.edges.index| == IndexWidth(ds)
  {
    if !SameLayout(ds) then Err(StructuralMismatch)
    else
      var nodes := CollateNodes(NodeStores(ds), FeatureWidth(ds));
      var edges := CollateEdges(EdgeStores(ds), IndexWidth(ds), nodes.ptr, nodes.ptr);
      Ok(Batch(|ds|, nodes, edges, seq(|ds|, i requires 0 <= i < |ds| => ds[i].graph)))
  }

  /** `batch[i]` for an index known to be in range. */
  function Separate<T, E, G>(b: Batch<T, E, G>, i: nat): (r: Data<T, E, G>)
    requires WellFormed(b) && i < b.numGraphs
    ensures b.nodes.ptr[i] + r.nodes.numNodes == b.nodes.ptr[i + 1]
    ensures |r.nodes.x| == |b.nodes.x| && |r.edges.index| == |b.edges.index|
    ensures r.graph == b.graph[i]
  {
    Data(
      SeparateNodes(b.nodes, b.numGraphs, i),
      SeparateEdges(b.edges, b.numGraphs, i, b.nodes.ptr[i], b.nodes.ptr[i]),
      b.graph[i])
  }

  /** `batch[i]`: graph `i`, or an error when `i` is outside `[0, num_graphs)`. */
  function Get<T, E, G>(b: Batch<T, E, G>, i: int): (r: Result<Data<T, E, G>>)
    requires WellFormed(b)
    ensures r.Ok? <==> 0 <= i < b.numGraphs
    ensures r.Ok? ==> r.value == Separate(b, i)
    ensures r.Err? ==> r.error == IndexOutOfRange(i)
  {
    if 0 <= i < b.numGraphs then Ok(Separate(b, i)) else Err(IndexOutOfRange(i))
  }

  /** Every index of `idx` names a graph of the batch. */
  predicate AllInRange(idx: seq<int>, n: nat)
  {
    forall k :: 0 <= k < |idx| ==> 0 <= idx[k] < n
  }

  /** `index_select(idx)`: one separated graph per index, in the order of
      `idx` (repetitions allowed); the first index out of range is reported. */
  function IndexSelect<T, E, G>(b: Batch<T, E, G>, idx: seq<int>): (r: Result<seq<Data<T, E, G>>>)
    requires WellFormed(b)
    ensures r.Ok? <==> AllInRange(idx, b.numGraphs)
    ensures r.Ok? ==> |r.value| == |idx|
    ensures r.Ok? ==> forall k :: 0 <= k < |idx| ==> r.value[k] == Separate(b, idx[k])
    ensures r.Err? ==> exists k :: 0 <= k < |idx| && r.error == IndexOutOfRange(idx[k])
                                   && !(0 <= idx[k] < b.numGraphs) && AllInRange(idx[..k], b.numGraphs)
  {
    if |idx| == 0 then Ok([])
    else if !(0 <= idx[0] < b.numGraphs) then
      assert idx[..0] == [];
      Err(IndexOutOfRange(idx[0]))
    else
      match IndexSelect(b, idx[1..])
      case Ok(rest) => Ok([Separate(b, idx[0])] + rest)
      case Err(e) =>
        assert forall k :: 0 <= k < |idx| - 1 ==> idx[1..][..k] == idx[..k + 1][1..];
        Err(e)
  }

  /** Number of `true` entries of a mask. */
  function CountTrue(mask: seq<bool>): nat
  {
    if |mask| == 0 then 0
    else CountTrue(mask[..|mask| - 1]) + (if mask[|mask| - 1] then 1 else 0)
  }

  /** Positions of the `true` entries of a boolean mask, in increasing order. */
  function TrueIndices(mask: seq<bool>): (r: seq<int>)
    ensures forall k :: 0 <= k < |r| ==> 0 <= r[k] < |mask| && mask[r[k]]
    ensures forall j :: 0 <= j < |mask| && mask[j] ==> j in r
    ensures forall k, m :: 0 <= k < m < |r| ==> r[k] < r[m]
    ensures |r| == CountTrue(mask)
  {
    if |mask| == 0 then []
    else
      var n := |mask|;
      var p := TrueIndices(mask[..n - 1]);
      if mask[n - 1] then p + [n - 1] else p
  }

  /** `index_select(mask)` with a boolean mask: the graphs at the `true`
      positions, in order. */
  function MaskSelect<T, E, G>(b: Batch<T, E, G>, mask: seq<bool>): (r: Result<seq<Data<T, E, G>>>)
    requires WellFormed(b)
    ensures r.Ok? <==> forall j :: 0 <= j < |mask| && mask[j] ==> j < b.numGraphs
    ensures r.Ok? ==> |r.value| == CountTrue(mask)
    ensures r.Ok? ==> forall k :: 0 <= k < |r.value| ==>
              var j := TrueIndices(mask)[k]; 0 <= j < b.numGraphs && mask[j] && r.value[k] == Separate(b, j)
  {
    IndexSelect(b, TrueIndices(mask))
  }

  /** The graph indices `range(n)[start:stop]` of a Python slice with
      non-negative bounds and step 1. */
  function SliceIndices(n: nat, start: nat, stop: nat): (r: seq<int>)
    ensures |r| == (if start < stop && start < n then (if stop < n then stop else n) - start else 0)
    ensures forall k :: 0 <= k < |r| ==> r[k] == start + k && r[k] < n
  {
    var hi := if stop < n then stop else n;
    if start < hi then seq(hi - start, k requires 0 <= k < hi - start => start + k) else []
  }

  /** `batch[start:stop]`: the graphs of a Python slice of the graph order. */
  function SliceSelect<T, E, G>(b: Batch<T, E, G>, start: nat, stop: nat): (r: seq<Data<T, E, G>>)
    requires WellFormed(b)
    ensures |r| == |SliceIndices(b.numGraphs, start, stop)|
    ensures forall k :: 0 <= k < |r| ==> start + k < b.numGraphs && r[k] == Separate(b, start + k)
  {
    IndexSelect(b, SliceIndices(b.numGraphs, start, stop)).value
  }

  /** `to_data_list`: every graph of the batch, in order. */
  function ToDataList<T, E, G>(b: Batch<T, E, G>): (r: seq<Data<T, E, G>>)
    requires WellFormed(b)
    ensures |r| == b.numGraphs
  {
    SliceSelect(b, 0, b.numGraphs)
  }

  /** The pointer array starts at 0, advances by each graph's node count and
      ends at the total number of merged nodes, which is also the length of
      the membership vector. */
  lemma {:induction false} PointerArray<T, E, G>(ds: seq<Data<T, E, G>>, b: Batch<T, E, G>)
    requires FromDataList(ds) == Ok(b)
    ensures |b.nodes.ptr| == |ds| + 1 && b.nodes.ptr[0] == 0
    ensures forall i :: 0 <= i < |ds| ==> b.nodes.ptr[i + 1] == b.nodes.ptr[i] + ds[i].nodes.numNodes
    ensures b.nodes.numNodes == b.nodes.ptr[|ds|] == Sum(Counts(ds))
    ensures |b.nodes.batch| == b.nodes.numNodes
  {
    BatchNodeTables(ds, b);
    var c := Counts(ds);
    forall i | 0 <= i < |ds|
      ensures b.nodes.ptr[i + 1] == b.nodes.ptr[i] + ds[i].nodes.numNodes
    {
      assert Ptr(c)[i + 1] == Ptr(c)[i] + c[i];
    }
  }

  /** The membership vector names graph `i` exactly on the rows
      `ptr[i] .. ptr[i+1]`, and is non-decreasing. */
  lemma {:induction false} MembershipVector<T, E, G>(ds: seq<Data<T, E, G>>, b: Batch<T, E, G>)
    requires FromDataList(ds) == Ok(b)
    ensures |b.nodes.ptr| == |ds| + 1 && |b.nodes.batch| == b.nodes.numNodes
    ensures forall i, j :: 0 <= i < |ds| && 0 <= j < b.nodes.numNodes ==>
              (b.nodes.batch[j] == i <==> b.nodes.ptr[i] <= j < b.nodes.ptr[i + 1])
    ensures forall j, k :: 0 <= j <= k < b.nodes.numNodes ==> b.nodes.batch[j] <= b.nodes.batch[k]
  {
    BatchNodeTables(ds, b);
    SideTables(Counts(ds));
  }

  /** Feature block `blk` of the batch is the concatenation of the graphs'
      blocks in graph order: its slice array starts at 0, advances by each
      graph's block size, ends at the merged size, and delimits each graph's
      block unchanged. */
  lemma {:induction false} FeaturesConcatenated<T, E, G>(ds: seq<Data<T, E, G>>, b: Batch<T, E, G>, blk: nat)
    requires FromDataList(ds) == Ok(b) && blk < |b.nodes.x|
    ensures b.nodes.xSlices[blk][0] == 0
    ensures b.nodes.xSlices[blk][|ds|] == |b.nodes.x[blk]|
    ensures forall i :: 0 <= i < |ds| ==>
              b.nodes.xSlices[blk][i + 1] == b.nodes.xSlices[blk][i] + |ds[i].nodes.x[blk]|
    ensures forall i :: 0 <= i < |ds| ==>
              b.nodes.x[blk][b.nodes.xSlices[blk][i]..b.nodes.xSlices[blk][i + 1]] == ds[i].nodes.x[blk]
  {
    forall i | 0 <= i < |ds|
      ensures b.nodes.xSlices[blk][i + 1] == b.nodes.xSlices[blk][i] + |ds[i].nodes.x[blk]|
      ensures b.nodes.x[blk][b.nodes.xSlices[blk][i]..b.nodes.xSlices[blk][i + 1]] == ds[i].nodes.x[blk]
    {
      FeatureSegment(NodeStores(ds), FeatureWidth(ds), blk, i);
    }
  }

  /** Segment `i` of index block `blk` is graph `i`'s block with both rows
      shifted by `ptr[i]`. */
  lemma {:induction false} EdgeSegmentShifted<T, E, G>(ds: seq<Data<T, E, G>>, b: Batch<T, E, G>, blk: nat, i: nat)
    requires FromDataList(ds) == Ok(b) && blk < |b.edges.index| && i < |ds|
    ensures b.edges.indexSlices[blk][i + 1] == b.edges.indexSlices[blk][i] + |ds[i].edges.index[blk]|
    ensures b.edges.index[blk][b.edges.indexSlices[blk][i]..b.edges.indexSlices[blk][i + 1]]
              == Shift(ds[i].edges.index[blk], b.nodes.ptr[i], b.nodes.ptr[i])
  {
    EdgeSegment(EdgeStores(ds), IndexWidth(ds), b.nodes.ptr, b.nodes.ptr, blk, i);
  }

  /** Index block `blk` of the batch holds, in segment `i`, graph `i`'s block
      with both rows shifted by `ptr[i]`; the segments follow each other in
      graph order and fill the merged block. */
  lemma {:induction false} EdgeIndexShifted<T, E, G>(ds: seq<Data<T, E, G>>, b: Batch<T, E, G>, blk: nat)
    requires FromDataList(ds) == Ok(b) && blk < |b.edges.index|
    ensures b.edges.indexSlices[blk][0] == 0
    ensures b.edges.indexSlices[blk][|ds|] == |b.edges.index[blk]|
    ensures forall i :: 0 <= i < |ds| ==>
              b.edges.indexSlices[blk][i + 1] == b.edges.indexSlices[blk][i] + |ds[i].edges.index[blk]|
    ensures forall i :: 0 <= i < |ds| ==>
              b.edges.index[blk][b.edges.indexSlices[blk][i]..b.edges.indexSlices[blk][i + 1]]
                == Shift(ds[i].edges.index[blk], b.nodes.ptr[i], b.nodes.ptr[i])
  {
    forall i | 0 <= i < |ds|
      ensures b.edges.indexSlices[blk][i + 1] == b.edges.indexSlices[blk][i] + |ds[i].edges.index[blk]|
      ensures b.edges.index[blk][b.edges.indexSlices[blk][i]..b.edges.indexSlices[blk][i + 1]]
                == Shift(ds[i].edges.index[blk], b.nodes.ptr[i], b.nodes.ptr[i])
    {
      EdgeSegmentShifted(ds, b, blk, i);
    }
  }

  /** Every graph's edges stay inside its own node window after merging: an
      edge of segment `i` whose local endpoints were valid nodes of graph `i`
      joins two merged nodes that the membership vector assigns to graph `i`,
      so edges of different graphs never share a node. */
  lemma {:induction false} EdgeOwnership<T, E, G>(ds: seq<Data<T, E, G>>, b: Batch<T, E, G>, blk: nat, i: nat, k: nat)
    requires FromDataList(ds) == Ok(b) && blk < |b.edges.index| && i < |ds|
    requires Within(ds[i].edges.index[blk], 0, ds[i].nodes.numNodes, 0, ds[i].nodes.numNodes)
    requires b.edges.indexSlices[blk][i] <= k < b.edges.indexSlices[blk][i + 1]
    ensures 0 <= b.edges.index[blk][k].src < b.nodes.numNodes
    ensures 0 <= b.edges.index[blk][k].dst < b.nodes.numNodes
    ensures b.nodes.batch[b.edges.index[blk][k].src] == i
    ensures b.nodes.batch[b.edges.index[blk][k].dst] == i
  {
    BatchNodeTables(ds, b);
    EdgeSegmentShifted(ds, b, blk, i);
    OwnedMergedEdge(Counts(ds), i, ds[i].edges.index[blk], b.edges.index[blk],
                    b.edges.indexSlices[blk][i], b.edges.indexSlices[blk][i + 1], k);
  }

  /** The node side tables of a batch are the pointer array, the membership
      vector and the total of the graphs' node counts. */
  lemma {:induction false} BatchNodeTables<T, E, G>(ds: seq<Data<T, E, G>>, b: Batch<T, E, G>)
    requires FromDataList(ds) == Ok(b)
    ensures b.nodes.ptr == Ptr(Counts(ds))
    ensures b.nodes.batch == Membership(Counts(ds))
    ensures b.nodes.numNodes == Sum(Counts(ds))
  {
    assert NodeCounts(NodeStores(ds)) == Counts(ds);
  }

  /** Index validity: when every graph's index block only names its own nodes,
      the merged block only names merged nodes. */
  lemma {:induction false} EdgeIndexValid<T, E, G>(ds: seq<Data<T, E, G>>, b: Batch<T, E, G>, blk: nat)
    requires FromDataList(ds) == Ok(b) && blk < |b.edges.index|
    requires forall i :: 0 <= i < |ds| ==>
               Within(ds[i].edges.index[blk], 0, ds[i].nodes.numNodes, 0, ds[i].nodes.numNodes)
    ensures Within(b.edges.index[blk], 0, b.nodes.numNodes, 0, b.nodes.numNodes)
  {
    var c := Counts(ds);
    assert NodeCounts(NodeStores(ds)) == c;
    EdgesWithin(EdgeStores(ds), IndexWidth(ds), c, c, blk);
  }

  /** Two index blocks that agree in every graph (an adjacency stored next to
      the `edge_index` it was built from) agree in the batch. */
  lemma {:induction false} IndexBlocksAgree<T, E, G>(ds: seq<Data<T, E, G>>, b: Batch<T, E, G>, b1: nat, b2: nat)
    requires FromDataList(ds) == Ok(b) && b1 < |b.edges.index| && b2 < |b.edges.index|
    requires forall i :: 0 <= i < |ds| ==> ds[i].edges.index[b1] == ds[i].edges.index[b2]
    ensures b.edges.index[b1] == b.edges.index[b2]
  {
    var w := IndexWidth(ds);
    assert IndexColumn(EdgeStores(ds), w, b1, b.nodes.ptr, b.nodes.ptr)
        == IndexColumn(EdgeStores(ds), w, b2, b.nodes.ptr, b.nodes.ptr);
  }

  /** Graph-level attributes are stacked along a new leading axis: row `i` of
      the batch is graph `i`'s value, so `num_graphs` values of width `w` form
      a `(num_graphs, w)` table. */
  lemma {:induction false} GraphAttrsStacked<T, E, V>(ds: seq<Data<T, E, seq<V>>>, b: Batch<T, E, seq<V>>, w: nat)
    requires FromDataList(ds) == Ok(b)
    requires forall i :: 0 <= i < |ds| ==> |ds[i].graph| == w
    ensures |b.graph| == |ds|
    ensures forall i :: 0 <= i < |ds| ==> |b.graph[i]| == w && b.graph[i] == ds[i].graph
  {
  }

  /** Round trip: separating graph `i` of the batch gives back graph `i`, with
      its node count, feature blocks, unshifted index blocks, edge attribute
      rows and graph-level attribute. */
  lemma {:induction false} RoundTrip<T, E, G>(ds: seq<Data<T, E, G>>, b: Batch<T, E, G>, i: nat)
    requires FromDataList(ds) == Ok(b) && i < |ds|
    ensures Separate(b, i) == ds[i]
  {
    NodesRoundTrip(NodeStores(ds), FeatureWidth(ds), i);
    EdgesRoundTrip(EdgeStores(ds), IndexWidth(ds), b.nodes.ptr, b.nodes.ptr, i);
  }

  /** `to_data_list` of a batch gives back the list it was built from. */
  lemma {:induction false} ToDataListRoundTrip<T, E, G>(ds: seq<Data<T, E, G>>, b: Batch<T, E, G>)
    requires FromDataList(ds) == Ok(b)
    ensures ToDataList(b) == ds
  {
    var r := ToDataList(b);
    forall i | 0 <= i < |ds|
      ensures r[i] == ds[i]
    {
      RoundTrip(ds, b, i);
    }
  }

  /** `batch[start:stop]` of a batch that separates into `ds` is the Python
      slice `ds[start:stop]`: the stop is clipped to the list length and an
      empty range gives an empty list. */
  lemma {:induction false} SliceGraphs<T, E, G>(ds: seq<Data<T, E, G>>, b: Batch<T, E, G>, start: nat, stop: nat)
    requires WellFormed(b) && b.numGraphs == |ds|
    requires forall i :: 0 <= i < |ds| ==> Separate(b, i) == ds[i]
    ensures var hi := if stop < |ds| then stop else |ds|;
            SliceSelect(b, start, stop) == if start < hi then ds[start..hi] else []
  {
  }

  /** Slicing a collated batch gives the same slice of the original list. */
  lemma {:induction false} SliceRoundTrip<T, E, G>(ds: seq<Data<T, E, G>>, b: Batch<T, E, G>, start: nat, stop: nat)
    requires FromDataList(ds) == Ok(b)
    ensures var hi := if stop < |ds| then stop else |ds|;
            SliceSelect(b, start, stop) == if start < hi then ds[start..hi] else []
  {
    forall i | 0 <= i < |ds|
      ensures Separate(b, i) == ds[i]
    {
      RoundTrip(ds, b, i);
    }
    SliceGraphs(ds, b, start, stop);
  }

  /** `index_select` with a mask over the graphs gives back the original
      graphs at the mask's `true` positions, in order. */
  lemma {:induction false} MaskGraphs<T, E, G>(ds: seq<Data<T, E, G>>, b: Batch<T, E, G>, mask: seq<bool>)
    requires FromDataList(ds) == Ok(b)
    requires forall j :: 0 <= j < |mask| && mask[j] ==> j < |ds|
    ensures MaskSelect(b, mask).Ok?
    ensures |MaskSelect(b, mask).value| == CountTrue(mask)
    ensures forall k :: 0 <= k < CountTrue(mask) ==> MaskSelect(b, mask).value[k] == ds[TrueIndices(mask)[k]]
  {
    SelectGraphs(ds, b, TrueIndices(mask));
  }

  /** `index_select` with indices in range gives back the original graphs
      at those positions, in the order of the indices. */
  lemma {:induction false} SelectGraphs<T, E, G>(ds: seq<Data<T, E, G>>, b: Batch<T, E, G>, idx: seq<int>)
    requires FromDataList(ds) == Ok(b) && AllInRange(idx, |ds|)
    ensures IndexSelect(b, idx).Ok?
    ensures |IndexSelect(b, idx).value| == |idx|
    ensures forall k :: 0 <= k < |idx| ==> IndexSelect(b, idx).value[k] == ds[idx[k]]
  {
    forall k | 0 <= k < |idx|
      ensures IndexSelect(b, idx).value[k] == ds[idx[k]]
    {
      RoundTrip(ds, b, idx[k]);
    }
  }

  /** A batch of two graphs with `n1` and `n2` nodes: `ptr` is `[0, n1, n1 + n2]`,
      the membership vector is `n1` zeros then `n2` ones, every feature block
      is the first graph's block followed by the second's, and every index
      block is the first graph's block followed by the second's shifted by `n1`. */
  lemma {:induction false} TwoGraphs<T, E, G>(d1: Data<T, E, G>, d2: Data<T, E, G>, b: Batch<T, E, G>)
    requires FromDataList([d1, d2]) == Ok(b)
    ensures b.numGraphs == 2
    ensures b.nodes.ptr == [0, d1.nodes.numNodes, d1.nodes.numNodes + d2.nodes.numNodes]
    ensures b.nodes.numNodes == d1.nodes.numNodes + d2.nodes.numNodes
    ensures b.nodes.batch == Repeat(0, d1.nodes.numNodes) + Repeat(1, d2.nodes.numNodes)
    ensures |b.nodes.x| == |d1.nodes.x| && |b.edges.index| == |d1.edges.index|
    ensures forall blk :: 0 <= blk < |b.nodes.x| ==>
              blk < |d2.nodes.x| && b.nodes.x[blk] == d1.nodes.x[blk] + d2.nodes.x[blk]
    ensures forall blk :: 0 <= blk < |b.edges.index| ==>
              blk < |d2.edges.index|
              && b.edges.index[blk] == d1.edges.index[blk]
                                       + Shift(d2.edges.index[blk], d1.nodes.numNodes, d1.nodes.numNodes)
    ensures b.graph == [d1.graph, d2.graph]
  {
    var ds := [d1, d2];
    var n1, n2 := d1.nodes.numNodes, d2.nodes.numNodes;
    PointerArray(ds, b);
    assert b.nodes.ptr == [0, n1, n1 + n2];
    var m := b.nodes.batch;
    assert m == Repeat(0, n1) + Repeat(1, n2) by {
      forall j | 0 <= j < |m|
        ensures m[j] == (Repeat(0, n1) + Repeat(1, n2))[j]
      {
        if j < n1 {
          assert m[j] == 0;
        } else {
          assert m[j] == 1;
        }
      }
    }
    forall blk | 0 <= blk < |b.nodes.x|
      ensures b.nodes.x[blk] == d1.nodes.x[blk] + d2.nodes.x[blk]
    {
      FeaturesConcatenated(ds, b, blk);
      TwoSegments(b.nodes.x[blk], b.nodes.xSlices[blk], d1.nodes.x[blk], d2.nodes.x[blk]);
    }
    forall blk | 0 <= blk < |b.edges.index|
      ensures b.edges.index[blk] == d1.edges.index[blk] + Shift(d2.edges.index[blk], n1, n1)
    {
      EdgeIndexShifted(ds, b, blk);
      ShiftZero(d1.edges.index[blk]);
      TwoSegments(b.edges.index[blk], b.edges.indexSlices[blk],
                  d1.edges.index[blk], Shift(d2.edges.index[blk], n1, n1));
    }
  }
}

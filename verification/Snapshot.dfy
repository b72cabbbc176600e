/** `save_snapshot` and `load_snapshot`. */
module Snapshots {
  import opened Bytes
  import opened LogFormat
  import opened Graphs
  import opened Neighbours
  import opened HnswIndexes
  import opened Filters
  import opened Shards

  // A shard flattened into arrays, and put together again.

  const SNAPSHOT_FORMAT := 3

  // ---------------------------------------------------------------- lists of different lengths, in two arrays

  /** `cumsum([0] + lengths)`. */
  function Offsets<T>(lists: seq<seq<T>>): (offsets: seq<nat>)
    ensures |offsets| == |lists| + 1 && offsets[0] == 0
  {
    if lists == [] then [0]
    else
      var before := Offsets(lists[..|lists| - 1]);
      before + [before[|lists| - 1] + |lists[|lists| - 1]|]
  }

  function Joined<T>(lists: seq<seq<T>>): seq<T> {
    if lists == [] then [] else Joined(lists[..|lists| - 1]) + lists[|lists| - 1]
  }

  /** Where the offsets say list i is; nothing, if they make no sense. */
  function Portion<T>(items: seq<T>, offsets: seq<nat>, i: nat): seq<T>
    requires i + 1 < |offsets|
  {
    if offsets[i] <= offsets[i + 1] <= |items| then items[offsets[i]..offsets[i + 1]] else []
  }

  function Cut<T>(items: seq<T>, offsets: seq<nat>): (lists: seq<seq<T>>)
    requires offsets != []
    ensures |lists| == |offsets| - 1 && forall i :: 0 <= i < |lists| ==> lists[i] == Portion(items, offsets, i)
  {
    seq(|offsets| - 1, i requires 0 <= i < |offsets| - 1 => Portion(items, offsets, i))
  }

  lemma {:induction false} LastOffset<T>(lists: seq<seq<T>>)
    ensures Offsets(lists)[|lists|] == |Joined(lists)|
  {
    if lists != [] {
      LastOffset(lists[..|lists| - 1]);
    }
  }

  /** Flattening loses nothing: cut at the offsets, the items are the lists again. */
  lemma {:induction false} CutJoined<T>(lists: seq<seq<T>>)
    ensures Cut(Joined(lists), Offsets(lists)) == lists
  {
    if lists != [] {
      var front, last := lists[..|lists| - 1], lists[|lists| - 1];
      CutJoined(front);
      LastOffset(front);
      var items, offsets := Joined(lists), Offsets(lists);
      forall i | 0 <= i < |lists|
        ensures Portion(items, offsets, i) == lists[i]
      {
        if i < |front| {
          OffsetsFit(front, i);
          assert Portion(Joined(front), Offsets(front), i) == front[i];
        } else {
          assert items[offsets[i]..offsets[i + 1]] == last;
        }
      }
    }
  }

  lemma {:induction false} OffsetsFit<T>(lists: seq<seq<T>>, i: nat)
    requires i < |lists|
    ensures Offsets(lists)[i] <= Offsets(lists)[i + 1] <= |Joined(lists)|
  {
    LastOffset(lists);
    if i < |lists| - 1 {
      OffsetsFit(lists[..|lists| - 1], i);
    }
  }

  // ---------------------------------------------------------------- one layer

  datatype LayerArrays = LayerArrays(nodes: seq<nat>, offsets: seq<nat>, neighbours: seq<nat>)

  function Adjacency(layer: Layer, nodes: seq<nat>): (lists: seq<seq<nat>>)
    requires forall n :: n in nodes ==> n in layer
    ensures |lists| == |nodes| && forall i :: 0 <= i < |nodes| ==> nodes[i] in nodes && lists[i] == layer[nodes[i]]
  {
    seq(|nodes|, i requires 0 <= i < |nodes| => assert nodes[i] in nodes; layer[nodes[i]])
  }

  /** The layer's lists, in the order its dictionary gives the nodes. */
  function SavedLayer(layer: Layer, nodes: seq<nat>): LayerArrays
    requires forall n :: n in nodes ==> n in layer
  {
    var lists := Adjacency(layer, nodes);
    LayerArrays(nodes, Offsets(lists), Joined(lists))
  }

  /** `{node: neighbors[offsets[i]:offsets[i + 1]] for i, node in enumerate(nodes)}`. */
  method LoadLayer(arrays: LayerArrays) returns (layer: Layer)
    ensures |arrays.offsets| == |arrays.nodes| + 1 && Distinct(arrays.nodes) ==>
              layer.Keys == Members(arrays.nodes)
              && forall i :: 0 <= i < |arrays.nodes| ==>
                   arrays.nodes[i] in layer && layer[arrays.nodes[i]] == Portion(arrays.neighbours, arrays.offsets, i)
  {
    layer := map[];
    for i := 0 to |arrays.nodes|
      invariant |arrays.offsets| == |arrays.nodes| + 1 && Distinct(arrays.nodes) ==>
        layer.Keys == Members(arrays.nodes[..i])
        && forall j :: 0 <= j < i ==>
             arrays.nodes[j] in layer && layer[arrays.nodes[j]] == Portion(arrays.neighbours, arrays.offsets, j)
    {
      var node := arrays.nodes[i];
      assert arrays.nodes[..i + 1] == arrays.nodes[..i] + [node];
      layer := layer[node := if i + 1 < |arrays.offsets| then Portion(arrays.neighbours, arrays.offsets, i) else []];
    }
    assert arrays.nodes[..|arrays.nodes|] == arrays.nodes;
  }

  /** Saving and loading a layer gives it back. */
  lemma LayerRoundTrip(layer: Layer, nodes: seq<nat>, loaded: Layer)
    requires Distinct(nodes) && Members(nodes) == layer.Keys
    requires forall n :: n in nodes ==> n in layer
    requires var arrays := SavedLayer(layer, nodes);
             && loaded.Keys == Members(nodes)
             && forall i :: 0 <= i < |nodes| ==>
                  nodes[i] in loaded && loaded[nodes[i]] == Portion(arrays.neighbours, arrays.offsets, i)
    ensures loaded == layer
  {
    var lists := Adjacency(layer, nodes);
    CutJoined(lists);
    forall n | n in loaded
      ensures loaded[n] == layer[n]
    {
      assert n in nodes;
      var i :| 0 <= i < |nodes| && nodes[i] == n;
      assert Cut(Joined(lists), Offsets(lists))[i] == lists[i];
    }
  }

  // ---------------------------------------------------------------- a whole shard

  datatype Meta<R> = Meta(
    format: int, lastSeq: nat, m: nat, efConstruction: nat, efSearch: nat, selection: Option<Selection>,
    entryPoint: Option<nat>, topLayer: int, numLayers: nat, rngState: R)

  datatype PayloadArrays = PayloadArrays(offsets: seq<nat>, bytes: seq<u8>)

  datatype Arrays<V, R> = Arrays(
    vectors: seq<V>, globalIds: seq<int>, payloads: Option<PayloadArrays>, layers: seq<LayerArrays>, meta: Meta<R>)

  /**
    These arrays are what saving this state gives, today or, before payloads and the choice of
    selection existed, in one of the older formats; format 1 has the vectors as inserted. The
    order of a layer's nodes is its dictionary's.
    */
  ghost predicate SavedAs<V, R>(s: ShardState<V, R>, lastSeq: nat, normalize: V -> V, arrays: Arrays<V, R>) {
    var meta, index := arrays.meta, s.index;
    && 1 <= meta.format <= SNAPSHOT_FORMAT
    && |index.vectors| == |arrays.vectors|
    && (forall i :: 0 <= i < |arrays.vectors| ==>
          index.vectors[i] == if meta.format == 1 then normalize(arrays.vectors[i]) else arrays.vectors[i])
    && arrays.globalIds == s.globalIds
    && (if arrays.payloads.Some?
        then arrays.payloads.value == PayloadArrays(Offsets(s.payloads), Joined(s.payloads))
        else s.payloads == seq(|s.globalIds|, _ => []))
    && |arrays.layers| == |index.graph| == meta.numLayers
    && (forall l :: 0 <= l < |arrays.layers| ==> LayerSavedAs(index.graph[l], arrays.layers[l]))
    && meta.lastSeq == lastSeq && meta.m == index.m && meta.efConstruction == index.efConstruction
    && index.selection == (if meta.selection.Some? then meta.selection.value else ClosestFirst)
    && meta.entryPoint == index.entryPoint && meta.topLayer == index.topLayer && meta.rngState == index.rng
  }

  function AtUnitLength<V>(vectors: seq<V>, normalize: V -> V, format: int): seq<V> {
    if format >= 2 then vectors else seq(|vectors|, i requires 0 <= i < |vectors| => normalize(vectors[i]))
  }

  function SelectionOrClosest(selection: Option<Selection>): Selection {
    if selection.Some? then selection.value else ClosestFirst
  }

  ghost predicate LayerSavedAs(layer: Layer, arrays: LayerArrays) {
    && Distinct(arrays.nodes) && Members(arrays.nodes) == layer.Keys
    && (forall n :: n in arrays.nodes ==> n in layer)
    && arrays == SavedLayer(layer, arrays.nodes)
  }

  /** `list(adjacency)`. */
  method NodesOf(layer: Layer) returns (nodes: seq<nat>)
    ensures Distinct(nodes) && Members(nodes) == layer.Keys && forall n :: n in nodes ==> n in layer
  {
    nodes := [];
    var rest := layer.Keys;
    while rest != {}
      invariant rest <= layer.Keys && Distinct(nodes) && Members(nodes) == layer.Keys - rest
      invariant forall n :: n in nodes ==> n in layer && n !in rest
      decreases |rest|
    {
      var n :| n in rest;
      assert forall i :: 0 <= i < |nodes| ==> nodes[i] in nodes;
      nodes := nodes + [n];
      rest := rest - {n};
    }
  }

  /** `save_snapshot`, up to the arrays. */
  method SaveSnapshot<V(0), R>(shard: Shard<V, R>, lastSeq: nat) returns (arrays: Arrays<V, R>)
    requires shard.index.count <= shard.index.data.Length
    ensures SavedAs(shard.State(), lastSeq, shard.index.normalize, arrays)
    ensures arrays.meta.format == SNAPSHOT_FORMAT && arrays.payloads.Some? && arrays.meta.selection.Some?
    ensures arrays.meta.efSearch == shard.index.efSearch
  {
    var index := shard.index;
    var layers := [];
    for l := 0 to |index.graph|
      invariant |layers| == l && forall k :: 0 <= k < l ==> LayerSavedAs(index.graph[k], layers[k])
    {
      var nodes := NodesOf(index.graph[l]);
      layers := layers + [SavedLayer(index.graph[l], nodes)];
    }
    var meta := Meta(SNAPSHOT_FORMAT, lastSeq, index.m, index.efConstruction, index.efSearch, Some(index.selection),
                     index.entryPoint, index.topLayer, |index.graph|, index.rng);
    arrays := Arrays(index.Vectors(), shard.globalIds,
                     Some(PayloadArrays(Offsets(shard.payloads), Joined(shard.payloads))), layers, meta);
  }

  datatype Loaded<V(0), R> = Opened(shard: Shard<V, R>, lastSeq: nat) | Unsupported(format: int)

  /** A state that a shard can be in. */
  ghost predicate Possible<V, R>(s: ShardState<V, R>) {
    && s.index.m > 0 && s.index.topLayer == |s.index.graph| - 1
    && |s.globalIds| == |s.payloads| == |s.index.vectors|
    && GoodGraph(s.index.graph, |s.index.vectors|, s.index.entryPoint, s.index.m)
  }

  method LoadGraph(layers: seq<LayerArrays>, ghost saved: seq<Layer>) returns (graph: seq<Layer>)
    requires |layers| == |saved| && forall l :: 0 <= l < |saved| ==> LayerSavedAs(saved[l], layers[l])
    ensures graph == saved
  {
    graph := [];
    for l := 0 to |layers|
      invariant |graph| == l && forall k :: 0 <= k < l ==> graph[k] == saved[k]
    {
      assert LayerSavedAs(saved[l], layers[l]);
      var layer := LoadLayer(layers[l]);
      LayerRoundTrip(saved[l], layers[l].nodes, layer);
      graph := graph + [layer];
    }
  }

  method LoadPayloads(arrays: Option<PayloadArrays>, count: nat, ghost saved: seq<Text>) returns (payloads: seq<Text>)
    requires if arrays.Some? then arrays.value == PayloadArrays(Offsets(saved), Joined(saved))
             else saved == seq(count, _ => [])
    ensures payloads == saved
  {
    if arrays.Some? {
      CutJoined(saved);
      payloads := Cut(arrays.value.bytes, arrays.value.offsets);
    } else {
      payloads := seq(count, _ => []);
    }
  }

  method LoadIndex<V(0), R>(vectors: seq<V>, meta: Meta<R>, efSearch: Option<nat>, distance: (V, V) -> real,
                            normalize: V -> V, drawLevel: R -> (nat, R), graph: seq<Layer>)
      returns (index: Hnsw<V, R>)
    requires meta.m > 0 && meta.topLayer == |graph| - 1
    requires GoodGraph(graph, |vectors|, meta.entryPoint, meta.m)
    ensures fresh(index) && fresh(index.data) && index.Valid()
    ensures index.Functions() == Maths(distance, normalize, drawLevel)
    ensures index.efSearch == if efSearch.Some? then efSearch.value else meta.efSearch
    ensures index.State() ==
              IndexState(meta.m, meta.efConstruction,
                         SelectionOrClosest(meta.selection), meta.rngState,
                         AtUnitLength(vectors, normalize, meta.format), graph, meta.entryPoint, meta.topLayer)
  {
    hide GoodGraph;
    index := new Hnsw<V, R>(meta.m, meta.efConstruction, if efSearch.Some? then efSearch.value else meta.efSearch,
                            SelectionOrClosest(meta.selection), distance, normalize, drawLevel, meta.rngState);
    index.SetVectors(vectors, meta.format >= 2);
    index.graph, index.entryPoint, index.topLayer := graph, meta.entryPoint, meta.topLayer;
  }

  lemma VectorsSaved<V, R>(s: ShardState<V, R>, normalize: V -> V, arrays: Arrays<V, R>)
    requires SavedAs(s, arrays.meta.lastSeq, normalize, arrays)
    ensures s.index.vectors == AtUnitLength(arrays.vectors, normalize, arrays.meta.format)
  {
    hide LayerSavedAs, Offsets, Joined;
  }

  /** `load_snapshot`, from the arrays: the very state that was saved; `ef_search` as saved, or as given. */
  method LoadSnapshot<V(0), R>(arrays: Arrays<V, R>, efSearch: Option<nat>, distance: (V, V) -> real, normalize: V -> V,
                               drawLevel: R -> (nat, R), read: Text -> Json, ghost s: ShardState<V, R>)
      returns (r: Loaded<V, R>)
    requires 1 <= arrays.meta.format <= SNAPSHOT_FORMAT ==>
               Possible(s) && SavedAs(s, arrays.meta.lastSeq, normalize, arrays)
    ensures r.Unsupported? <==> !(1 <= arrays.meta.format <= SNAPSHOT_FORMAT)
    ensures r.Opened? ==>
      && r.lastSeq == arrays.meta.lastSeq && fresh(r.shard) && fresh(r.shard.index) && fresh(r.shard.index.data)
      && r.shard.Valid()
      && r.shard.index.Functions() == Maths(distance, normalize, drawLevel)
      && r.shard.State() == s
      && r.shard.index.efSearch == if efSearch.Some? then efSearch.value else arrays.meta.efSearch
  {
    var meta := arrays.meta;
    if meta.format !in {1, 2, SNAPSHOT_FORMAT} {
      return Unsupported(meta.format);
    }
    hide GoodGraph, LayerSavedAs, Offsets, Joined, AtUnitLength;
    VectorsSaved(s, normalize, arrays);
    var graph := LoadGraph(arrays.layers, s.index.graph);
    var payloads := LoadPayloads(arrays.payloads, |arrays.globalIds|, s.payloads);
    var index := LoadIndex(arrays.vectors, meta, efSearch, distance, normalize, drawLevel, graph);
    var payloadIndex := new PayloadIndex(read);
    var shard := new Shard(index, payloadIndex, arrays.globalIds, payloads);
    r := Opened(shard, meta.lastSeq);
  }

  /** What is open in memory can always be saved, and comes back the same. */
  method SaveAndLoad<V(0), R>(shard: Shard<V, R>, lastSeq: nat, efSearch: Option<nat>) returns (again: Shard<V, R>)
    requires shard.Valid()
    ensures again.Valid() && fresh(again) && fresh(again.index) && fresh(again.index.data)
    ensures again.State() == shard.State() && again.index.Functions() == shard.index.Functions()
    ensures again.index.efSearch == if efSearch.Some? then efSearch.value else shard.index.efSearch
  {
    var arrays := SaveSnapshot(shard, lastSeq);
    var index := shard.index;
    var r := LoadSnapshot(arrays, efSearch, index.distance, index.normalize, index.drawLevel, shard.payloadIndex.read,
                          shard.State());
    again := r.shard;
  }
}

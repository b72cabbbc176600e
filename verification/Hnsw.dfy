/** `HNSW`: the layered graph index. */
module HnswIndexes {
  import opened Bytes
  import opened Graphs
  import opened BeamSearch
  import opened Neighbours

  // ---------------------------------------------------------------- what every index keeps

  /** Layer 0 has room for twice as many links. */
  function MostLinks(m: nat, layer: nat): nat {
    if layer == 0 then m * 2 else m
  }

  ghost predicate AllLinked(layer: Layer) {
    |layer.Keys| >= 2 ==> forall n :: n in layer ==> layer[n] != []
  }

  ghost predicate Bounded(layer: Layer, most: nat) {
    forall n :: n in layer ==> |layer[n]| <= most
  }

  /** Links stay in the layer, without loops or repeats, not too many, and at least one if there is another node. */
  ghost predicate GoodLayer(layer: Layer, most: nat) {
    Closed(layer) && NoRepeats(layer) && NoLoops(layer) && Bounded(layer, most) && AllLinked(layer)
  }

  /**
    Layer 0 holds all nodes, each layer above some of those below, and the entry point is the first
    node that got to the top.
    */
  ghost predicate Layered(graph: seq<Layer>, count: nat, entry: Option<nat>) {
    && (graph == [] <==> count == 0) && (entry.None? <==> count == 0)
    && (graph != [] ==> forall n: nat :: n in graph[0] <==> n < count)
    && (forall l :: 0 < l < |graph| ==> graph[l].Keys <= graph[l - 1].Keys)
    && (entry.Some? ==> IsFirstOf(graph[|graph| - 1], entry.value))
  }

  /** Nodes are numbered in the order they come. */
  predicate IsFirstOf(layer: Layer, n: nat) {
    n in layer && forall other :: other in layer ==> n <= other
  }

  ghost predicate GoodGraph(graph: seq<Layer>, count: nat, entry: Option<nat>, m: nat) {
    Layered(graph, count, entry) && forall l :: 0 <= l < |graph| ==> GoodLayer(graph[l], MostLinks(m, l))
  }

  // ---------------------------------------------------------------- linking one new node in one layer

  /** Neighbour n's links, once it has been linked back to the new node. */
  ghost predicate LinkedBack(links: seq<nat>, later: seq<nat>, id: nat, most: nat, between: Between, how: Selection,
                             n: nat) {
    var more := links + [id];
    if |more| <= most then later == more
    else IsSelection(more, DistancesTo(between, n, more), between, most, how, later)
         && later != [] && |later| <= most && Distinct(later) && forall x :: x in later ==> x in more
  }

  /** `1.0 - data[links] @ data[n]`. */
  function DistancesTo(between: Between, n: nat, ids: seq<nat>): (dists: seq<real>)
    ensures |dists| == |ids| && forall i :: 0 <= i < |ids| ==> dists[i] == between(ids[i], n)
  {
    seq(|ids|, i requires 0 <= i < |ids| => between(ids[i], n))
  }

  /** The layer once the new node is linked with `neighbours`, and nothing else has changed. */
  ghost predicate Connected(before: Layer, later: Layer, id: nat, neighbours: seq<nat>, most: nat,
                            between: Between, how: Selection) {
    && id in before && later.Keys == before.Keys && later[id] == neighbours
    && (forall n :: n in before && n != id && n !in neighbours ==> later[n] == before[n])
    && (forall n :: n in before && n != id && n in neighbours ==>
          LinkedBack(before[n], later[n], id, most, between, how, n))
  }

  ghost function LinksBack(links: seq<nat>, id: nat, most: nat, between: Between, how: Selection, n: nat): seq<nat> {
    var more := links + [id];
    if |more| <= most then more else Selected(more, DistancesTo(between, n, more), between, most, how)
  }

  /** The only layer that `Connected` allows. */
  ghost function ConnectedLayer(layer: Layer, id: nat, neighbours: seq<nat>, most: nat, between: Between,
                                how: Selection): Layer {
    map n | n in layer :: if n == id then neighbours
                          else if n in neighbours then LinksBack(layer[n], id, most, between, how, n) else layer[n]
  }

  lemma ConnectedIsUnique(before: Layer, later: Layer, id: nat, neighbours: seq<nat>, most: nat,
                          between: Between, how: Selection)
    requires most > 0 && Connected(before, later, id, neighbours, most, between, how)
    ensures later == ConnectedLayer(before, id, neighbours, most, between, how)
  {
    hide IsSelection;
    forall n | n in before && n != id && n in neighbours
      ensures later[n] == LinksBack(before[n], id, most, between, how, n)
    {
      var more := before[n] + [id];
      if |more| > most {
        SelectionIsUnique(more, DistancesTo(between, n, more), between, most, how, later[n]);
      }
    }
    assert later.Keys == before.Keys;
  }

  /** `links.append(id)`, and the selection that follows if they are too many. */
  method LinkBack(links: seq<nat>, id: nat, most: nat, between: Between, how: Selection, n: nat)
      returns (later: seq<nat>)
    requires Distinct(links) && id !in links && most > 0
    ensures LinkedBack(links, later, id, most, between, how, n)
  {
    later := links + [id];
    if |later| > most {
      BackLinkIsNew(links, id);
      later := SelectNeighbours(later, DistancesTo(between, n, later), between, most, how);
    }
  }

  method Connect(layer: Layer, id: nat, neighbours: seq<nat>, most: nat, between: Between, how: Selection)
      returns (later: Layer)
    requires id in layer && layer[id] == [] && most > 0 && NoRepeats(layer)
    requires forall n :: n in layer ==> id !in layer[n]
    requires Distinct(neighbours) && forall n :: n in neighbours ==> n in layer && n != id
    ensures Connected(layer, later, id, neighbours, most, between, how)
  {
    later := layer;
    assert neighbours[..0] == [];
    assert Connected(layer, later, id, [], most, between, how);
    hide Connected, LinkedBack, Distinct;
    for j := 0 to |neighbours|
      invariant Connected(layer, later, id, neighbours[..j], most, between, how)
    {
      var n := neighbours[j];
      ghost var before := later;
      NotLinkedYet(layer, before, id, neighbours, j, most, between, how);
      later := later[id := later[id] + [n]];
      var links := LinkBack(later[n], id, most, between, how, n);
      later := later[n := links];
      OneMoreLink(layer, before, later, id, neighbours, j, most, between, how);
    }
    assert neighbours[..|neighbours|] == neighbours;
  }

  lemma NotLinkedYet(layer: Layer, before: Layer, id: nat, neighbours: seq<nat>, j: nat, most: nat,
                     between: Between, how: Selection)
    requires j < |neighbours| && Connected(layer, before, id, neighbours[..j], most, between, how)
    requires Distinct(neighbours) && neighbours[j] in layer && neighbours[j] != id
    ensures before.Keys == layer.Keys && id in before && before[neighbours[j]] == layer[neighbours[j]]
  {
    assert neighbours[j] !in neighbours[..j];
  }

  lemma BackLinkIsNew(links: seq<nat>, id: nat)
    requires Distinct(links) && id !in links
    ensures Distinct(links + [id])
  {
  }

  lemma OneMoreLink(layer: Layer, before: Layer, later: Layer, id: nat, neighbours: seq<nat>, j: nat, most: nat,
                    between: Between, how: Selection)
    requires j < |neighbours| && Distinct(neighbours) && id in layer
    requires Connected(layer, before, id, neighbours[..j], most, between, how)
    requires neighbours[j] in layer && neighbours[j] != id
    requires id in before && later.Keys == layer.Keys && later[id] == before[id] + [neighbours[j]]
    requires LinkedBack(before[neighbours[j]], later[neighbours[j]], id, most, between, how, neighbours[j])
    requires forall n :: n in layer && n != id && n != neighbours[j] ==> later[n] == before[n]
    ensures Connected(layer, later, id, neighbours[..j + 1], most, between, how)
  {
    hide LinkedBack;
    assert neighbours[..j + 1] == neighbours[..j] + [neighbours[j]];
    assert neighbours[j] !in neighbours[..j];
  }

  lemma StaysGood(links: seq<nat>, later: seq<nat>, id: nat, most: nat, between: Between, how: Selection, n: nat)
    requires LinkedBack(links, later, id, most, between, how, n)
    requires Distinct(links) && n !in links && n != id && id !in links
    ensures Distinct(later) && n !in later && |later| <= most && later != []
    ensures forall x :: x in later ==> x in links || x == id
  {
    hide IsSelection;
    BackLinkIsNew(links, id);
  }

  lemma OnlyNode(layer: Layer, n: nat)
    requires n in layer && |layer.Keys| < 2
    ensures forall x :: x in layer ==> x == n
  {
    assert layer.Keys == {n} + (layer.Keys - {n});
    assert |layer.Keys - {n}| == |layer.Keys| - 1;
  }

  ghost predicate GoodNode(layer: Layer, n: nat, most: nat)
    requires n in layer
  {
    && Distinct(layer[n]) && n !in layer[n] && |layer[n]| <= most && layer[n] != []
    && forall x :: x in layer[n] ==> x in layer
  }

  lemma GoodNodes(layer: Layer, most: nat)
    requires forall n :: n in layer ==> GoodNode(layer, n, most)
    ensures GoodLayer(layer, most)
  {
  }

  lemma OldNodeStaysGood(layer: Layer, later: Layer, id: nat, neighbours: seq<nat>, most: nat, between: Between,
                         how: Selection, n: nat)
    requires GoodLayer(layer, most) && id !in layer && n in layer
    requires neighbours != [] && forall x :: x in neighbours ==> x in layer
    requires Connected(layer[id := []], later, id, neighbours, most, between, how)
    ensures n in later && GoodNode(later, n, most)
  {
    hide LinkedBack, Distinct;
    assert layer[id := []][n] == layer[n];
    assert later.Keys == layer.Keys + {id};
    if n in neighbours {
      StaysGood(layer[n], later[n], id, most, between, how, n);
    } else if |layer.Keys| < 2 {
      assert neighbours[0] in neighbours;
      OnlyNode(layer, neighbours[0]);
    }
  }

  /** Linking a new node, with at least one neighbour, keeps a layer good. */
  lemma ConnectedIsGood(layer: Layer, later: Layer, id: nat, neighbours: seq<nat>, most: nat, between: Between,
                        how: Selection)
    requires GoodLayer(layer, most) && id !in layer
    requires neighbours != [] && |neighbours| <= most && Distinct(neighbours)
    requires forall n :: n in neighbours ==> n in layer
    requires Connected(layer[id := []], later, id, neighbours, most, between, how)
    ensures GoodLayer(later, most) && later.Keys == layer.Keys + {id}
  {
    assert later.Keys == layer.Keys + {id} && later[id] == neighbours;
    assert GoodNode(later, id, most);
    hide Connected, GoodNode, GoodLayer;
    forall n | n in later
      ensures GoodNode(later, n, most)
    {
      if n != id {
        OldNodeStaysGood(layer, later, id, neighbours, most, between, how, n);
      }
    }
    GoodNodes(later, most);
  }

  // ---------------------------------------------------------------- ranking what a search found

  /** Each of some nodes once, closest first; by id where distances are equal. */
  ghost predicate Ranked(d: BeamSearch.Distances, nodes: set<nat>, ranking: seq<nat>) {
    && Distinct(ranking) && Members(ranking) == nodes
    && forall i, j :: 0 <= i < j < |ranking| ==> Before(d, ranking[i], ranking[j])
  }

  ghost function Ranking(d: BeamSearch.Distances, nodes: set<nat>): seq<nat>
    decreases |nodes|
  {
    if nodes == {} then [] else [ClosestOf(d, nodes)] + Ranking(d, nodes - {ClosestOf(d, nodes)})
  }

  lemma RankingGoesOn(d: BeamSearch.Distances, rest: set<nat>, ranking: seq<nat>)
    requires rest != {}
    ensures var c := ClosestOf(d, rest);
            ranking + Ranking(d, rest) == ranking + [c] + Ranking(d, rest - {c})
  {
    var c := ClosestOf(d, rest);
    assert ranking + ([c] + Ranking(d, rest - {c})) == ranking + [c] + Ranking(d, rest - {c});
  }

  /** `sorted`. */
  method Sort(d: BeamSearch.Distances, nodes: set<nat>) returns (ranking: seq<nat>)
    ensures Ranked(d, nodes, ranking) && |ranking| == |nodes|
    ensures ranking == Ranking(d, nodes)
  {
    ranking := [];
    var rest := nodes;
    assert [] + Ranking(d, nodes) == Ranking(d, nodes);
    assert Ranking(d, {}) == [];
    hide Ranking, ClosestOf;
    while rest != {}
      invariant ranking + Ranking(d, rest) == Ranking(d, nodes)
      invariant rest <= nodes && Ranked(d, nodes - rest, ranking) && |ranking| == |nodes| - |rest|
      invariant forall a, b :: a in ranking && b in rest ==> Before(d, a, b)
    {
      var c := Closest(d, rest);
      assert IsClosest(d, rest, c);
      RankNext(d, nodes, rest, ranking, c);
      RankingGoesOn(d, rest, ranking);
      ranking := ranking + [c];
      rest := rest - {c};
    }
    assert nodes - {} == nodes;
    assert ranking + [] == ranking;
  }

  lemma RankNext(d: BeamSearch.Distances, nodes: set<nat>, rest: set<nat>, ranking: seq<nat>, c: nat)
    requires rest <= nodes && Ranked(d, nodes - rest, ranking) && c in rest
    requires forall a, b :: a in ranking && b in rest ==> Before(d, a, b)
    ensures Ranked(d, nodes - (rest - {c}), ranking + [c])
  {
    forall i | 0 <= i < |ranking|
      ensures ranking[i] in nodes - rest && Before(d, ranking[i], c)
    {
      assert ranking[i] in Members(ranking);
    }
  }

  /** Any first k of a ranking are the k closest. */
  lemma FirstAreClosest(d: BeamSearch.Distances, nodes: set<nat>, ranking: seq<nat>, k: nat)
    requires Ranked(d, nodes, ranking)
    ensures var top := if |ranking| <= k then ranking else ranking[..k];
            Distinct(top) && |Members(top)| == |top| && AreClosest(d, nodes, k, Members(top))
  {
    var top := if |ranking| <= k then ranking else ranking[..k];
    DistinctCount(top);
    if |ranking| > k {
      forall r, n | r in Members(top) && n in nodes && n !in Members(top)
        ensures d(r) <= d(n)
      {
        assert n in ranking;
        var i :| 0 <= i < k && ranking[i] == r;
        assert ranking == top + ranking[k..];
        var j :| 0 <= j < |ranking[k..]| && ranking[k..][j] == n;
        assert ranking[k + j] == n;
      }
    } else {
      assert Members(top) == nodes;
    }
  }

  lemma {:induction false} DistinctCount(s: seq<nat>)
    requires Distinct(s)
    ensures |Members(s)| == |s|
  {
    if s != [] {
      var front := s[..|s| - 1];
      DistinctCount(front);
      assert s == front + [s[|s| - 1]];
      assert Members(s) == Members(front) + {s[|s| - 1]};
      assert s[|s| - 1] !in front;
    }
  }

  // ---------------------------------------------------------------- answers

  /** The k nearest of some nodes, closest first. */
  ghost predicate Answers(d: BeamSearch.Distances, pool: set<nat>, k: nat, ids: seq<nat>) {
    && Distinct(ids) && AreClosest(d, pool, k, Members(ids))
    && forall i, j :: 0 <= i < j < |ids| ==> Before(d, ids[i], ids[j])
  }

  function Top(ranking: seq<nat>, k: nat): seq<nat> {
    if |ranking| <= k then ranking else ranking[..k]
  }

  lemma AnswersCount(d: BeamSearch.Distances, pool: set<nat>, k: nat, ids: seq<nat>)
    requires Answers(d, pool, k, ids)
    ensures |ids| == Least(k, |pool|)
  {
    DistinctCount(ids);
    HowMany(d, pool, k, Members(ids));
  }

  lemma TopAnswers(d: BeamSearch.Distances, nodes: set<nat>, ranking: seq<nat>, k: nat)
    requires Ranked(d, nodes, ranking)
    ensures Answers(d, nodes, k, Top(ranking, k))
  {
    FirstAreClosest(d, nodes, ranking, k);
  }

  /** The k closest of the ef closest are the min(k, ef) closest. */
  lemma ClosestOfClosest(d: BeamSearch.Distances, pool: set<nat>, ef: nat, kept: set<nat>, k: nat, few: set<nat>)
    requires AreClosest(d, pool, ef, kept) && AreClosest(d, kept, k, few)
    ensures AreClosest(d, pool, Least(k, ef), few)
  {
    HowMany(d, kept, k, few);
    HowMany(d, pool, ef, kept);
  }

  lemma RankedAnswers(d: BeamSearch.Distances, pool: set<nat>, k: nat, few: set<nat>, ranking: seq<nat>)
    requires AreClosest(d, pool, k, few) && Ranked(d, few, ranking)
    ensures Answers(d, pool, k, ranking)
  {
  }

  /** `argpartition(dists, k)[:k]`: some k closest, in no particular order. */
  method Partition(d: BeamSearch.Distances, nodes: set<nat>, k: nat) returns (few: set<nat>)
    ensures AreClosest(d, nodes, k, few)
  {
    var ranking := Sort(d, nodes);
    TopAnswers(d, nodes, ranking, k);
    few := Members(Top(ranking, k));
  }

  /** What a search of layer 0 answers. */
  ghost predicate Searched(layer: Layer, d: BeamSearch.Distances, entry: nat, ef: nat, ok: set<nat>, k: nat,
                           seen: set<nat>, ids: seq<nat>) {
    var within := Reach(layer, entry) * ok;
    && entry in layer && seen <= Reach(layer, entry)
    && |ids| == Least(k, Least(ef, |within|))
    && Answers(d, seen * ok, Least(k, ef), ids)
    && (|within| <= ef ==> Answers(d, within, k, ids))
  }

  lemma SearchAnswers(layer: Layer, d: BeamSearch.Distances, entry: nat, ef: nat, ok: set<nat>, k: nat,
                      seen: set<nat>, expanded: set<nat>, results: set<nat>, ranking: seq<nat>)
    requires entry in layer && Found(layer, d, entry, ef, ok, seen, expanded, results)
    requires Ranked(d, results, ranking)
    ensures Searched(layer, d, entry, ef, ok, k, seen, Top(ranking, k))
  {
    var ids := Top(ranking, k);
    TopAnswers(d, results, ranking, k);
    AnswersCount(d, results, k, ids);
    ClosestOfClosest(d, seen * ok, ef, results, k, Members(ids));
  }

  /** `sorted(scored)[:k]` after a plain search. */
  method AnswerPlain(layer: Layer, d: BeamSearch.Distances, entry: nat, ef: nat, k: nat)
      returns (ids: seq<nat>, ghost seen: set<nat>)
    requires Closed(layer) && NoRepeats(layer) && entry in layer
    ensures Searched(layer, d, entry, AtLeastOne(ef), layer.Keys, k, seen, ids)
  {
    hide *;
    var results, visited, expanded := SearchLayer(layer, d, entry, ef);
    var ranking := Sort(d, results);
    seen := visited;
    SearchAnswers(layer, d, entry, AtLeastOne(ef), layer.Keys, k, seen, expanded, results, ranking);
    ids := Top(ranking, k);
  }

  /** And after a filtered one. */
  method AnswerAllowed(layer: Layer, d: BeamSearch.Distances, entry: nat, ef: nat, allowed: set<nat>, k: nat)
      returns (ids: seq<nat>, ghost seen: set<nat>)
    requires Closed(layer) && NoRepeats(layer) && entry in layer && ef > 0
    ensures Searched(layer, d, entry, ef, allowed, k, seen, ids)
  {
    hide *;
    var results, visited, expanded := SearchLayerFiltered(layer, d, entry, ef, allowed);
    var ranking := Sort(d, results);
    seen := visited;
    SearchAnswers(layer, d, entry, ef, allowed, k, seen, expanded, results, ranking);
    ids := Top(ranking, k);
  }

  // ---------------------------------------------------------------- one layer of an insert

  function DistancesOf(d: BeamSearch.Distances, ids: seq<nat>): (dists: seq<real>)
    ensures |dists| == |ids| && forall i :: 0 <= i < |ids| ==> dists[i] == d(ids[i])
  {
    seq(|ids|, i requires 0 <= i < |ids| => d(ids[i]))
  }

  /** The neighbours are selected among what a beam search from the entry finds, closest first. */
  ghost predicate Chosen(layer: Layer, entry: nat, d: BeamSearch.Distances, ef: nat, between: Between, m: nat,
                         how: Selection, scored: seq<nat>, neighbours: seq<nat>) {
    && (exists seen, expanded :: Found(layer, d, entry, AtLeastOne(ef), layer.Keys, seen, expanded, Members(scored)))
    && Distinct(scored)
    && (forall i, j :: 0 <= i < j < |scored| ==> d(scored[i]) <= d(scored[j]))
    && IsSelection(scored, DistancesOf(d, scored), between, m, how, neighbours)
  }

  /** The search begins at `entry`, and `next` is the closest it finds. */
  ghost predicate SearchedFor(before: Layer, layer: Layer, d: BeamSearch.Distances, ef: nat, between: Between, m: nat,
                              how: Selection, entry: nat, next: nat, neighbours: seq<nat>) {
    entry in before &&
    exists scored :: Chosen(layer, entry, d, ef, between, m, how, scored, neighbours)
                     && scored != [] && next == scored[0]
  }

  /** A layer before and after the new node is linked in it. */
  ghost predicate Linked(before: Layer, later: Layer, id: nat, most: nat, d: BeamSearch.Distances, ef: nat,
                         between: Between, m: nat, how: Selection, entry: nat, next: nat) {
    && id in later
    && Connected(before[id := []], later, id, later[id], most, between, how)
    && SearchedFor(before, before[id := []], d, ef, between, m, how, entry, next, later[id])
  }

  /** A node just registered has no links, and nobody links to it. */
  lemma JustRegistered(before: Layer, id: nat, entry: nat, most: nat)
    requires GoodLayer(before, most) && id !in before && entry in before
    ensures var layer := before[id := []];
            && Closed(layer) && NoRepeats(layer) && (forall n :: n in layer ==> id !in layer[n])
            && Reach(layer, entry) <= before.Keys
  {
    var layer := before[id := []];
    assert forall n :: n in before ==> layer[n] == before[n];
    assert before.Keys <= layer.Keys;
    NothingLeavesClosedSet(layer, entry, before.Keys);
  }

  lemma FoundWithin(layer: Layer, d: BeamSearch.Distances, entry: nat, ef: nat, seen: set<nat>, expanded: set<nat>,
                    results: set<nat>, nodes: set<nat>)
    requires Found(layer, d, entry, ef, layer.Keys, seen, expanded, results) && Reach(layer, entry) <= nodes
    ensures results <= nodes
  {
  }

  /** What a search of the layer finds, closest first. */
  ghost function Scored(layer: Layer, d: BeamSearch.Distances, entry: nat, ef: nat): seq<nat> {
    Ranking(d, Answer(Quest(layer, d, entry, ef, layer.Keys, false)))
  }

  ghost function ChosenFrom(scored: seq<nat>, d: BeamSearch.Distances, between: Between, m: nat,
                            how: Selection): seq<nat> {
    Selected(scored, DistancesOf(d, scored), between, m, how)
  }

  /** Search the layer from the entry, and select neighbours for the new node among what is found. */
  method Choose(ghost before: Layer, layer: Layer, id: nat, entry: nat, d: BeamSearch.Distances, ef: nat,
                between: Between, m: nat, how: Selection)
      returns (neighbours: seq<nat>, closest: nat)
    requires Closed(layer) && NoRepeats(layer) && entry in layer && Reach(layer, entry) <= before.Keys && m > 0
    requires entry in before
    ensures SearchedFor(before, layer, d, ef, between, m, how, entry, closest, neighbours)
    ensures neighbours != [] && |neighbours| <= m && Distinct(neighbours) && closest in before
    ensures forall n :: n in neighbours ==> n in before
    ensures var scored := Scored(layer, d, entry, ef);
            scored != [] && closest == scored[0] && neighbours == ChosenFrom(scored, d, between, m, how)
  {
    hide Closed, NoRepeats, Found, IsSelection, Reach, Answer, Ranking, LocallyBest;
    var results, seen, expanded := SearchLayer(layer, d, entry, ef);
    FoundWithin(layer, d, entry, AtLeastOne(ef), seen, expanded, results, before.Keys);
    var scored := Sort(d, results);
    assert forall n: nat :: n in scored ==> n in Members(scored);
    closest := scored[0];
    assert closest in scored;
    neighbours := SelectNeighbours(scored, DistancesOf(d, scored), between, m, how);
    SelectionIsUnique(scored, DistancesOf(d, scored), between, m, how, neighbours);
    assert Chosen(layer, entry, d, ef, between, m, how, scored, neighbours) by {
      assert Found(layer, d, entry, AtLeastOne(ef), layer.Keys, seen, expanded, Members(scored));
      assert forall i, j :: 0 <= i < j < |scored| ==> Before(d, scored[i], scored[j]);
    }
  }

  /** One round of Phase B: search the layer, select, link, and go on from the closest node found. */
  method LinkLayer(ghost before: Layer, layer: Layer, id: nat, entry: nat, d: BeamSearch.Distances, ef: nat,
                   between: Between, m: nat, most: nat, how: Selection)
      returns (later: Layer, next: nat)
    requires GoodLayer(before, most) && id !in before && entry in before && layer == before[id := []]
    requires 0 < m <= most
    ensures Linked(before, later, id, most, d, ef, between, m, how, entry, next)
    ensures GoodLayer(later, most) && later.Keys == before.Keys + {id} && next in before
    ensures var scored := Scored(layer, d, entry, ef);
            && scored != [] && next == scored[0]
            && later == ConnectedLayer(layer, id, ChosenFrom(scored, d, between, m, how), most, between, how)
  {
    JustRegistered(before, id, entry, most);
    hide *;
    var neighbours, closest := Choose(before, layer, id, entry, d, ef, between, m, how);
    later := Connect(layer, id, neighbours, most, between, how);
    ConnectedIsUnique(layer, later, id, neighbours, most, between, how);
    ConnectedIsGood(before, later, id, neighbours, most, between, how);
    LinkedSo(before, later, id, neighbours, most, d, ef, between, m, how, entry, closest);
    next := closest;
  }

  lemma LinkedSo(before: Layer, later: Layer, id: nat, neighbours: seq<nat>, most: nat, d: BeamSearch.Distances,
                 ef: nat, between: Between, m: nat, how: Selection, entry: nat, next: nat)
    requires Connected(before[id := []], later, id, neighbours, most, between, how)
    requires SearchedFor(before, before[id := []], d, ef, between, m, how, entry, next, neighbours)
    ensures Linked(before, later, id, most, d, ef, between, m, how, entry, next)
  {
  }

  // ---------------------------------------------------------------- an insert, layer by layer

  function BetweenNodes<V>(distance: (V, V) -> real, vectors: seq<V>): (between: Between)
    ensures forall a: nat, b: nat :: a < |vectors| && b < |vectors| ==>
              between(a, b) == distance(vectors[a], vectors[b])
  {
    (a: nat, b: nat) => if a < |vectors| && b < |vectors| then distance(vectors[a], vectors[b]) else 0.0
  }

  function FromQuery<V>(distance: (V, V) -> real, vectors: seq<V>, query: V): (d: BeamSearch.Distances)
    ensures forall n: nat :: n < |vectors| ==> d(n) == distance(vectors[n], query)
  {
    (n: nat) => if n < |vectors| then distance(vectors[n], query) else 0.0
  }

  /** The layers with the new node on those up to its level, not linked yet. */
  function Registered(graph: seq<Layer>, id: nat, level: nat): (later: seq<Layer>)
    ensures |later| == if |graph| <= level then level + 1 else |graph|
    ensures forall l :: 0 <= l < |later| ==>
              later[l] == if l >= |graph| then map[id := []] else if l <= level then graph[l][id := []] else graph[l]
  {
    seq(if |graph| <= level then level + 1 else |graph|, l requires l >= 0 =>
      if l >= |graph| then map[id := []] else if l <= level then graph[l][id := []] else graph[l])
  }

  ghost predicate LinkedWell(before: Layer, later: Layer, id: nat, most: nat, d: BeamSearch.Distances, ef: nat,
                             between: Between, m: nat, how: Selection, entry: nat, next: nat) {
    && Linked(before, later, id, most, d, ef, between, m, how, entry, next)
    && GoodLayer(later, most) && later.Keys == before.Keys + {id}
  }

  /** The search of layer j begins at `starts[j + 1]`, and finds `starts[j]` closest. */
  ghost predicate LinkedAt(j: nat, before: Layer, later: Layer, id: nat, d: BeamSearch.Distances, ef: nat,
                           between: Between, m: nat, how: Selection, starts: map<nat, nat>) {
    && j in starts && j + 1 in starts
    && LinkedWell(before, later, id, MostLinks(m, j), d, ef, between, m, how, starts[j + 1], starts[j])
  }

  /**
    The new node is linked on its layers from `l` up, and only registered on those below. Where the
    search of a layer finds the closest node, that of the layer below begins.
    */
  ghost predicate InsertedFrom(l: nat, before: seq<Layer>, now: seq<Layer>, id: nat, level: nat,
                               d: BeamSearch.Distances, ef: nat, between: Between, m: nat, how: Selection,
                               starts: map<nat, nat>) {
    && |now| == |Registered(before, id, level)|
    && forall j: nat :: j < |now| ==>
         if l <= j <= level && j < |before|
         then LinkedAt(j, before[j], now[j], id, d, ef, between, m, how, starts)
         else now[j] == Registered(before, id, level)[j]
  }

  lemma StartLinking(l: nat, before: seq<Layer>, id: nat, level: nat, d: BeamSearch.Distances, ef: nat,
                     between: Between, m: nat, how: Selection,
                     starts: map<nat, nat>)
    requires l > level || l >= |before|
    ensures InsertedFrom(l, before, Registered(before, id, level), id, level, d, ef, between, m, how, starts)
  {
  }

  lemma NextLayer(l: nat, before: seq<Layer>, now: seq<Layer>, id: nat, level: nat, d: BeamSearch.Distances, ef: nat,
                  between: Between, m: nat, how: Selection, layer: Layer, starts: map<nat, nat>, next: nat)
    requires l <= level && l < |before| && InsertedFrom(l + 1, before, now, id, level, d, ef, between, m, how, starts)
    requires l + 1 in starts
    requires LinkedWell(before[l], layer, id, MostLinks(m, l), d, ef, between, m, how, starts[l + 1], next)
    ensures |now| >= |before|
    ensures InsertedFrom(l, before, now[l := layer], id, level, d, ef, between, m, how, starts[l := next])
  {
    hide LinkedWell;
    forall j: nat | l < j <= level && j < |before|
      ensures LinkedAt(j, before[j], now[j], id, d, ef, between, m, how, starts[l := next])
    {
      assert LinkedAt(j, before[j], now[j], id, d, ef, between, m, how, starts);
    }
  }

  lemma NotYetLinked(l: nat, before: seq<Layer>, now: seq<Layer>, id: nat, level: nat, d: BeamSearch.Distances, ef: nat,
                     between: Between, m: nat, how: Selection,
                     starts: map<nat, nat>)
    requires l <= level && l < |before| && InsertedFrom(l + 1, before, now, id, level, d, ef, between, m, how, starts)
    ensures |now| >= |before| && now[l] == before[l][id := []]
  {
    hide LinkedAt;
  }

  /** The entry point after an insert: the new node, if it is taller than all before. */
  function EntryAfter(graph: seq<Layer>, entry: Option<nat>, id: nat, level: nat): Option<nat> {
    if |graph| <= level then Some(id) else entry
  }

  lemma NewLayerIsGood(id: nat, most: nat)
    ensures GoodLayer(map[id := []], most)
  {
    var layer: Layer := map[id := []];
    assert layer.Keys == {id};
  }

  /** Layer by layer, what the insert leaves. */
  lemma LayerAfter(before: seq<Layer>, now: seq<Layer>, id: nat, level: nat, d: BeamSearch.Distances, ef: nat,
                   between: Between, m: nat, how: Selection, starts: map<nat, nat>, l: nat)
    requires InsertedFrom(0, before, now, id, level, d, ef, between, m, how, starts) && l < |now|
    requires forall j :: 0 <= j < |before| ==> GoodLayer(before[j], MostLinks(m, j))
    ensures GoodLayer(now[l], MostLinks(m, l))
    ensures now[l].Keys == (if l < |before| then before[l].Keys else {}) + (if l <= level then {id} else {})
  {
    hide GoodLayer, Linked;
    if l >= |before| {
      NewLayerIsGood(id, MostLinks(m, l));
    } else if l <= level {
      assert LinkedAt(l, before[l], now[l], id, d, ef, between, m, how, starts);
    }
  }

  /** The entry point stays the first node that got to the top, or becomes it. */
  lemma FirstAtTop(before: seq<Layer>, top: Layer, id: nat, level: nat, entry: Option<nat>)
    requires Layered(before, id, entry)
    requires top.Keys == (if level < |before| then before[|before| - 1].Keys else {})
                         + (if level >= |before| - 1 then {id} else {})
    ensures EntryAfter(before, entry, id, level).Some? && IsFirstOf(top, EntryAfter(before, entry, id, level).value)
  {
    if level < |before| {
      var first := entry.value;
      FoundBelow(before, 0, |before| - 1);
      assert first in before[0];
      forall other | other in top
        ensures first <= other
      {
        assert other in top.Keys;
      }
      assert first in top.Keys;
    } else {
      assert id in top.Keys;
      forall other | other in top
        ensures id <= other
      {
        assert other in top.Keys;
      }
    }
  }

  /** An insert keeps the graph good. */
  lemma InsertedIsGood(before: seq<Layer>, now: seq<Layer>, id: nat, level: nat, d: BeamSearch.Distances, ef: nat,
                       between: Between, m: nat, how: Selection, entry: Option<nat>,
                       starts: map<nat, nat>)
    requires GoodGraph(before, id, entry, m)
    requires InsertedFrom(0, before, now, id, level, d, ef, between, m, how, starts)
    ensures GoodGraph(now, id + 1, EntryAfter(before, entry, id, level), m)
  {
    hide GoodLayer, LinkedAt;
    forall l | 0 <= l < |now|
      ensures GoodLayer(now[l], MostLinks(m, l))
      ensures now[l].Keys == (if l < |before| then before[l].Keys else {}) + (if l <= level then {id} else {})
    {
      LayerAfter(before, now, id, level, d, ef, between, m, how, starts, l);
    }
    hide InsertedFrom, Registered;
    assert |now| == if |before| <= level then level + 1 else |before| by {
      assert |now| == |Registered(before, id, level)|;
    }
    hide MostLinks;
    FirstAtTop(before, now[|now| - 1], id, level, entry);
    hide IsFirstOf;
    forall n: nat
      ensures n in now[0] <==> n < id + 1
    {
      if |before| > 0 { assert n in before[0] <==> n < id; }
      assert n in now[0] <==> n in now[0].Keys;
    }
  }

  /** Links are cut back only where they are more than 2M on layer 0, or M above; other lists lose nothing. */
  lemma LinksAreKept(before: seq<Layer>, now: seq<Layer>, id: nat, level: nat, d: BeamSearch.Distances, ef: nat,
                     between: Between, m: nat, how: Selection, starts: map<nat, nat>, l: nat, n: nat)
    requires InsertedFrom(0, before, now, id, level, d, ef, between, m, how, starts)
    requires l < |before| && n in before[l] && n != id && l < |now|
    requires |before[l][n]| + 1 <= if l == 0 then 2 * m else m
    ensures n in now[l] && before[l][n] <= now[l][n]
    ensures forall x :: x in now[l][n] ==> x in before[l][n] || x == id
  {
    if l <= level {
      assert LinkedAt(l, before[l], now[l], id, d, ef, between, m, how, starts);
    }
  }

  lemma InsertedCount(before: seq<Layer>, now: seq<Layer>, id: nat, level: nat, d: BeamSearch.Distances, ef: nat,
                      between: Between, m: nat, how: Selection,
                      starts: map<nat, nat>)
    requires InsertedFrom(0, before, now, id, level, d, ef, between, m, how, starts)
    ensures |now| == if |before| <= level then level + 1 else |before|
  {
    hide LinkedAt;
  }

  lemma InsertLeaves(before: seq<Layer>, now: seq<Layer>, id: nat, level: nat, d: BeamSearch.Distances, ef: nat,
                     between: Between, m: nat, how: Selection, entry: Option<nat>)
    requires GoodGraph(before, id, entry, m)
    requires InsertedAlong(before, now, id, level, d, ef, between, m, how, entry)
    ensures |now| == if |before| <= level then level + 1 else |before|
    ensures GoodGraph(now, id + 1, if |before| <= level then Some(id) else entry, m)
  {
    hide GoodGraph, InsertedFrom, BeginsBelow;
    var starts :| InsertedFrom(0, before, now, id, level, d, ef, between, m, how, starts);
    InsertedIsGood(before, now, id, level, d, ef, between, m, how, entry, starts);
    InsertedCount(before, now, id, level, d, ef, between, m, how, starts);
  }

  lemma GraphFacts(graph: seq<Layer>, count: nat, entry: Option<nat>, m: nat)
    requires GoodGraph(graph, count, entry, m)
    ensures (entry.None? <==> graph == []) && (entry.None? <==> count == 0)
  {
  }

  // ---------------------------------------------------------------- the way down

  lemma {:induction false} FoundBelow(graph: seq<Layer>, low: nat, high: nat)
    requires forall l :: 0 < l < |graph| ==> graph[l].Keys <= graph[l - 1].Keys
    requires low <= high < |graph|
    ensures graph[high].Keys <= graph[low].Keys
    decreases high - low
  {
    if low < high {
      FoundBelow(graph, low, high - 1);
    }
  }

  /** From `entry`, greedy walks through the layers from `top` down to `bottom`, each from where the last one ended. */
  ghost predicate WalkedDown(graph: seq<Layer>, d: BeamSearch.Distances, entry: nat, top: int, bottom: nat, e: nat)
    requires top < |graph|
    decreases if top < bottom then 0 else top - bottom + 1
  {
    if top < bottom then e == entry
    else exists path :: IsGreedyWalk(graph[top], d, path) && path[0] == entry
                        && WalkedDown(graph, d, path[|path| - 1], top - 1, bottom, e)
  }

  lemma NoWalks(graph: seq<Layer>, d: BeamSearch.Distances, entry: nat, top: int, bottom: nat)
    requires top < |graph| && top < bottom
    ensures WalkedDown(graph, d, entry, top, bottom, entry)
  {
  }

  /** One layer more. */
  lemma {:induction false} WalksOn(graph: seq<Layer>, d: BeamSearch.Distances, entry: nat, top: int, l: nat,
                                   path: seq<nat>)
    requires l <= top < |graph| && IsGreedyWalk(graph[l], d, path) && WalkedDown(graph, d, entry, top, l + 1, path[0])
    ensures WalkedDown(graph, d, entry, top, l, path[|path| - 1])
    decreases top
  {
    hide IsHop;
    if l == top {
      NoWalks(graph, d, path[|path| - 1], top - 1, l);
    } else {
      var front :| IsGreedyWalk(graph[top], d, front) && front[0] == entry
                   && WalkedDown(graph, d, front[|front| - 1], top - 1, l + 1, path[0]);
      WalksOn(graph, d, front[|front| - 1], top - 1, l, path);
    }
  }

  /** The first search begins where the greedy walks through the layers above the new node's end. */
  ghost predicate BeginsBelow(before: seq<Layer>, level: nat, d: BeamSearch.Distances, entry: nat,
                              starts: map<nat, nat>) {
    before != [] ==>
      var first := Least(level, |before| - 1) + 1;
      first in starts && WalkedDown(before, d, entry, |before| - 1, level + 1, starts[first])
  }

  /** An insert into a graph with this entry point. */
  ghost predicate InsertedAlong(before: seq<Layer>, now: seq<Layer>, id: nat, level: nat, d: BeamSearch.Distances,
                                ef: nat, between: Between, m: nat, how: Selection, entry: Option<nat>) {
    exists starts ::
      && InsertedFrom(0, before, now, id, level, d, ef, between, m, how, starts)
      && (entry.Some? ==> BeginsBelow(before, level, d, entry.value, starts))
  }

  /** Where the greedy walks through the layers from `top` down to `bottom` end. */
  ghost function DescendedTo(graph: seq<Layer>, d: BeamSearch.Distances, entry: nat, top: int, bottom: nat): nat
    requires top < |graph|
    decreases if top < bottom then 0 else top - bottom + 1
  {
    if top < bottom then entry
    else DescendedTo(graph, d, if entry in graph[top] then Descended(graph[top], d, entry) else entry, top - 1, bottom)
  }

  lemma DescendsOneLayer(graph: seq<Layer>, d: BeamSearch.Distances, e: nat, l: nat, bottom: nat)
    requires bottom <= l < |graph| && e in graph[l]
    ensures DescendedTo(graph, d, e, l, bottom) == DescendedTo(graph, d, Descended(graph[l], d, e), l - 1, bottom)
  {
    hide Descended;
  }

  lemma DescentEnds(graph: seq<Layer>, d: BeamSearch.Distances, e: nat, l: int, bottom: nat)
    requires l < bottom && l < |graph|
    ensures DescendedTo(graph, d, e, l, bottom) == e
  {
  }

  /**
    The greedy walks through the layers from `top` down to `bottom`: they end no farther than
    they began, on a node of every layer from there down. `graph` may have new nodes on its
    layers below `bottom` that are not in `before`.
    */
  method Descend(graph: seq<Layer>, ghost before: seq<Layer>, d: BeamSearch.Distances, entry: nat, top: nat,
                 bottom: nat)
      returns (e: nat)
    requires top + 1 == |before| <= |graph| && forall l :: bottom <= l <= top ==> graph[l] == before[l]
    requires forall l :: 0 < l <= top ==> before[l].Keys <= before[l - 1].Keys
    requires forall l :: 0 <= l <= top ==> Closed(before[l])
    requires entry in before[top]
    ensures d(e) <= d(entry)
    ensures forall l :: 0 <= l <= bottom && l <= top ==> e in before[l]
    ensures e == DescendedTo(graph, d, entry, top, bottom)
    ensures WalkedDown(before, d, entry, top, bottom, e)
  {
    e := entry;
    var l: int := top;
    ghost var at: nat := top;
    hide DescendedTo, Descended, Reachable, WalkedDown, IsGreedyWalk;
    NoWalks(before, d, entry, top, top + 1);
    while l >= bottom
      invariant -1 <= l <= top && d(e) <= d(entry)
      invariant WalkedDown(before, d, entry, top, l + 1, e) && (l == top ==> e == entry)
      invariant DescendedTo(graph, d, entry, top, bottom) == DescendedTo(graph, d, e, l, bottom)
      invariant l <= at <= top && at <= l + 1 && e in before[at]
      invariant l < top ==> at == l + 1 >= bottom
    {
      FoundBelow(before, l, at);
      DescendsOneLayer(graph, d, e, l, bottom);
      ghost var path;
      e, path := GreedyDescend(graph[l], d, e);
      WalksOn(before, d, entry, top, l, path);
      at := l;
      l := l - 1;
    }
    DescentEnds(graph, d, e, l, bottom);
    if top < bottom {
      NoWalks(before, d, entry, top, bottom);
    }
    forall k | 0 <= k <= bottom && k <= top
      ensures e in before[k]
    {
      if k <= at {
        FoundBelow(before, k, at);
      }
    }
  }

  /** Phase B, from layer l - 1 down. */
  ghost function LinkedDown(graph: seq<Layer>, id: nat, entry: nat, l: nat, d: BeamSearch.Distances, ef: nat,
                            between: Between, m: nat, how: Selection): (later: seq<Layer>)
    requires l <= |graph|
    ensures |later| == |graph|
    decreases l
  {
    if l == 0 then graph
    else
      var scored := Scored(graph[l - 1], d, entry, ef);
      var neighbours := ChosenFrom(scored, d, between, m, how);
      var layer := ConnectedLayer(graph[l - 1], id, neighbours, MostLinks(m, l - 1), between, how);
      LinkedDown(graph[l - 1 := layer], id, if scored == [] then entry else scored[0], l - 1, d, ef, between, m, how)
  }

  lemma LinkOneMore(graph: seq<Layer>, id: nat, entry: nat, l: nat, d: BeamSearch.Distances, ef: nat,
                    between: Between, m: nat, how: Selection, layer: Layer)
    requires l < |graph|
    requires var scored := Scored(graph[l], d, entry, ef);
             && scored != []
             && layer == ConnectedLayer(graph[l], id, ChosenFrom(scored, d, between, m, how), MostLinks(m, l), between,
                                        how)
    ensures LinkedDown(graph, id, entry, l + 1, d, ef, between, m, how) ==
              LinkedDown(graph[l := layer], id, Scored(graph[l], d, entry, ef)[0], l, d, ef, between, m, how)
  {
    hide Scored, ChosenFrom, ConnectedLayer, MostLinks;
  }

  /**
    Phase A and Phase B of `insert`: find the new node's place on each of the layers there
    were, and link it there.
    */
  method Link(ghost before: seq<Layer>, registered: seq<Layer>, id: nat, level: nat, top: nat, entry: nat,
              d: BeamSearch.Distances, ef: nat, between: Between, m: nat, how: Selection)
      returns (graph: seq<Layer>)
    requires m > 0 && top + 1 == |before| && registered == Registered(before, id, level)
    requires GoodGraph(before, id, Some(entry), m)
    ensures InsertedAlong(before, graph, id, level, d, ef, between, m, how, Some(entry))
    ensures |registered| >= |before|
    ensures graph == LinkedDown(registered, id, DescendedTo(registered, d, entry, top, level + 1),
                                Least(level, top) + 1,
                                d, ef, between, m, how)
  {
    graph := registered;
    hide *;
    var e := DescendAbove(registered, before, id, level, top, entry, d, m);
    ghost var start := e;
    var layers := (if level < top then level else top) + 1;
    ghost var starts: map<nat, nat> := map[layers := e];
    LinkingBegins(before, id, level, top, d, ef, between, m, how, starts);
    for l := layers downto 0
      invariant InsertedFrom(l, before, graph, id, level, d, ef, between, m, how, starts)
      invariant l in starts && starts[l] == e && layers in starts && starts[layers] == start
      invariant |graph| == |registered|
      invariant LinkedDown(registered, id, start, layers, d, ef, between, m, how)
                == LinkedDown(graph, id, e, l, d, ef, between, m, how)
      invariant OnAll(before, l, e)
    {
      LayerFacts(before, id, entry, m, l, e);
      graph, e := LinkOne(l, before, graph, id, level, e, d, ef, between, m, how, starts);
      starts := starts[l := e];
      OnAllBelow(before, id, entry, m, l, e);
    }
    AllLayersLinked(graph, id, e, d, ef, between, m, how);
    InsertedSo(before, graph, id, level, d, ef, between, m, how, entry, starts);
  }

  lemma FirstInsert(before: seq<Layer>, id: nat, level: nat, d: BeamSearch.Distances, ef: nat, between: Between, m: nat,
                    how: Selection)
    requires before == []
    ensures InsertedAlong(before, Registered(before, id, level), id, level, d, ef, between, m, how, None)
  {
    hide LinkedWell, Registered;
    StartLinking(0, before, id, level, d, ef, between, m, how, map[]);
  }

  lemma InsertedSo(before: seq<Layer>, now: seq<Layer>, id: nat, level: nat, d: BeamSearch.Distances, ef: nat,
                   between: Between, m: nat, how: Selection, entry: nat, starts: map<nat, nat>)
    requires InsertedFrom(0, before, now, id, level, d, ef, between, m, how, starts) && before != []
    requires var first := (if level < |before| - 1 then level else |before| - 1) + 1;
             first in starts && WalkedDown(before, d, entry, |before| - 1, level + 1, starts[first])
    ensures InsertedAlong(before, now, id, level, d, ef, between, m, how, Some(entry))
  {
    hide InsertedFrom, WalkedDown;
    assert BeginsBelow(before, level, d, Some(entry).value, starts);
  }

  /** The node is on every layer below l. */
  ghost predicate OnAll(before: seq<Layer>, l: nat, n: nat) {
    l <= |before| && forall k :: 0 <= k < l ==> n in before[k]
  }

  lemma LayerFacts(before: seq<Layer>, id: nat, entry: nat, m: nat, l: nat, e: nat)
    requires GoodGraph(before, id, Some(entry), m) && OnAll(before, l + 1, e)
    ensures l < |before| && GoodLayer(before[l], MostLinks(m, l)) && id !in before[l] && e in before[l]
  {
    GoodFacts(before, id, Some(entry), m);
  }

  lemma OnAllBelow(before: seq<Layer>, id: nat, entry: nat, m: nat, l: nat, e: nat)
    requires GoodGraph(before, id, Some(entry), m) && l < |before| && e in before[l]
    ensures OnAll(before, l, e)
  {
    GoodFacts(before, id, Some(entry), m);
    forall k | 0 <= k < l
      ensures e in before[k]
    {
      FoundBelow(before, k, l);
    }
  }

  /** Phase A of `insert`. */
  method DescendAbove(registered: seq<Layer>, ghost before: seq<Layer>, ghost id: nat, level: nat, top: nat, entry: nat,
                      d: BeamSearch.Distances, ghost m: nat)
      returns (e: nat)
    requires top + 1 == |before| && registered == Registered(before, id, level)
    requires GoodGraph(before, id, Some(entry), m)
    ensures |registered| >= |before| && OnAll(before, Least(level, top) + 1, e)
    ensures e == DescendedTo(registered, d, entry, top, level + 1)
    ensures WalkedDown(before, d, entry, top, level + 1, e)
  {
    hide GoodGraph, WalkedDown, DescendedTo;
    GoodFacts(before, id, Some(entry), m);
    hide GoodLayer, Closed, NoRepeats;
    e := Descend(registered, before, d, entry, top, level + 1);
  }

  lemma LinkingBegins(before: seq<Layer>, id: nat, level: nat, top: nat, d: BeamSearch.Distances, ef: nat,
                      between: Between, m: nat, how: Selection,
                      starts: map<nat, nat>)
    requires top + 1 == |before|
    ensures var layers := Least(level, top) + 1;
            && layers == (if level < top then level else top) + 1
            && InsertedFrom(layers, before, Registered(before, id, level), id, level, d, ef, between, m, how, starts)
  {
    StartLinking(Least(level, top) + 1, before, id, level, d, ef, between, m, how, starts);
  }

  /** The loop of Phase B, once. */
  method LinkOne(l: nat, ghost before: seq<Layer>, graph: seq<Layer>, id: nat, ghost level: nat, entry: nat,
                 d: BeamSearch.Distances, ef: nat, between: Between, m: nat, how: Selection,
                 ghost starts: map<nat, nat>)
      returns (later: seq<Layer>, next: nat)
    requires l + 1 in starts && starts[l + 1] == entry
    requires l <= level && l < |before| && m > 0 && entry in before[l] && id !in before[l]
    requires GoodLayer(before[l], MostLinks(m, l))
    requires InsertedFrom(l + 1, before, graph, id, level, d, ef, between, m, how, starts)
    ensures InsertedFrom(l, before, later, id, level, d, ef, between, m, how, starts[l := next])
    ensures l < |graph| == |later| && next in before[l]
    ensures LinkedDown(graph, id, entry, l + 1, d, ef, between, m, how)
            == LinkedDown(later, id, next, l, d, ef, between, m, how)
  {
    NotYetLinked(l, before, graph, id, level, d, ef, between, m, how, starts);
    EnoughRoom(m, l);
    hide *;
    var layer, closest := LinkLayer(before[l], graph[l], id, entry, d, ef, between, m, MostLinks(m, l), how);
    LinkOneMore(graph, id, entry, l, d, ef, between, m, how, layer);
    LinkedAndGood(before[l], layer, id, MostLinks(m, l), d, ef, between, m, how, entry, closest);
    NextLayer(l, before, graph, id, level, d, ef, between, m, how, layer, starts, closest);
    later, next := graph[l := layer], closest;
  }

  lemma AllLayersLinked(graph: seq<Layer>, id: nat, entry: nat, d: BeamSearch.Distances, ef: nat, between: Between,
                        m: nat, how: Selection)
    ensures LinkedDown(graph, id, entry, 0, d, ef, between, m, how) == graph
  {
  }

  lemma EnoughRoom(m: nat, l: nat)
    ensures m <= MostLinks(m, l)
  {
  }

  lemma LinkedAndGood(before: Layer, later: Layer, id: nat, most: nat, d: BeamSearch.Distances, ef: nat,
                      between: Between, m: nat, how: Selection, entry: nat, next: nat)
    requires Linked(before, later, id, most, d, ef, between, m, how, entry, next)
    requires GoodLayer(later, most) && later.Keys == before.Keys + {id}
    ensures LinkedWell(before, later, id, most, d, ef, between, m, how, entry, next)
  {
  }

  lemma GoodFacts(graph: seq<Layer>, count: nat, entry: Option<nat>, m: nat)
    requires GoodGraph(graph, count, entry, m)
    ensures forall l :: 0 < l < |graph| ==> graph[l].Keys <= graph[l - 1].Keys
    ensures forall l :: 0 <= l < |graph| ==>
              GoodLayer(graph[l], MostLinks(m, l)) && Closed(graph[l]) && NoRepeats(graph[l])
    ensures forall l :: 0 <= l < |graph| ==> count !in graph[l]
    ensures graph != [] ==> entry.Some? && entry.value in graph[|graph| - 1]
  {
    forall l | 0 <= l < |graph|
      ensures count !in graph[l]
    {
      FoundBelow(graph, 0, l);
      assert count !in graph[0];
    }
  }

  // ---------------------------------------------------------------- the index

  /** All that shapes what an index becomes. `ef_search` does not: it is a setting of queries. */
  datatype IndexState<V, R> = IndexState(
    m: nat, efConstruction: nat, selection: Selection, rng: R,
    vectors: seq<V>, graph: seq<Layer>, entryPoint: Option<nat>, topLayer: int)

  /** The distance, the scaling to unit length, and the drawing of levels. */
  datatype Maths<!V, !R> = Maths(distance: (V, V) -> real, normalize: V -> V, drawLevel: R -> (nat, R))

  /** What the layers become, the new node's links and all. */
  ghost function GraphAfter(graph: seq<Layer>, id: nat, level: nat, top: int, entry: Option<nat>,
                            d: BeamSearch.Distances, ef: nat, between: Between, m: nat,
                            how: Selection): (later: seq<Layer>)
    requires top < |graph|
    ensures |later| == if |graph| <= level then level + 1 else |graph|
  {
    var registered := Registered(graph, id, level);
    if entry.None? || top < 0 then registered
    else LinkedDown(registered, id, DescendedTo(registered, d, entry.value, top, level + 1), Least(level, top) + 1,
                    d, ef, between, m, how)
  }

  /** `insert`, as a function of the index's state. */
  ghost function Inserted<V, R>(f: Maths<V, R>, s: IndexState<V, R>, v: V): (later: IndexState<V, R>)
    requires s.topLayer < |s.graph|
    ensures later.topLayer < |later.graph|
  {
    var id, unit := |s.vectors|, f.normalize(v);
    var vectors := s.vectors + [unit];
    var (level, rng) := f.drawLevel(s.rng);
    s.(rng := rng, vectors := vectors,
       graph := GraphAfter(s.graph, id, level, s.topLayer, s.entryPoint, FromQuery(f.distance, vectors, unit),
                           s.efConstruction, BetweenNodes(f.distance, vectors), s.m, s.selection),
       entryPoint := EntryAfter(s.graph, s.entryPoint, id, level),
       topLayer := if level > s.topLayer then level else s.topLayer)
  }

  const INITIAL_CAPACITY := 16

  class Hnsw<V(0), R> {
    const m: nat
    const efConstruction: nat
    const selection: Selection
    const distance: (V, V) -> real
    const normalize: V -> V
    const drawLevel: R -> (nat, R)      // a node's top layer, and the generator's next state
    var efSearch: nat
    var rng: R
    var data: array<V>                  // room for more vectors than there are
    var count: nat
    var graph: seq<Layer>
    var entryPoint: Option<nat>
    var topLayer: int

    ghost predicate Valid()
      reads this
    {
      && m > 0 && count <= data.Length && topLayer == |graph| - 1
      && GoodGraph(graph, count, entryPoint, m)
    }

    function Vectors(): (vectors: seq<V>)
      requires count <= data.Length
      reads this, data
    {
      data[..count]
    }

    ghost function Functions(): Maths<V, R> {
      Maths(distance, normalize, drawLevel)
    }

    ghost function State(): IndexState<V, R>
      requires count <= data.Length
      reads this, data
    {
      IndexState(m, efConstruction, selection, rng, Vectors(), graph, entryPoint, topLayer)
    }

    constructor (m: nat, efConstruction: nat, efSearch: nat, selection: Selection, distance: (V, V) -> real,
                 normalize: V -> V, drawLevel: R -> (nat, R), seed: R)
      requires m > 0
      ensures Valid() && count == 0 && fresh(data) && rng == seed
      ensures this.m == m && this.efConstruction == efConstruction && this.efSearch == efSearch
      ensures this.selection == selection && this.distance == distance && this.normalize == normalize
      ensures this.drawLevel == drawLevel
    {
      this.m, this.efConstruction, this.efSearch, this.selection := m, efConstruction, efSearch, selection;
      this.distance, this.normalize, this.drawLevel := distance, normalize, drawLevel;
      rng := seed;
      data := new V[0];
      count, graph, entryPoint, topLayer := 0, [], None, -1;
    }

    /** `set_vectors`: rows that are normalized already are kept as they are. */
    method SetVectors(rows: seq<V>, normalized: bool)
      modifies `data, `count
      ensures fresh(data) && data.Length == count == |rows|
      ensures Vectors() == if normalized then rows else seq(|rows|, i requires 0 <= i < |rows| => normalize(rows[i]))
    {
      data := new V[|rows|];
      for i := 0 to |rows|
        invariant fresh(data) && data.Length == |rows|
        invariant forall j :: 0 <= j < i ==> data[j] == if normalized then rows[j] else normalize(rows[j])
      {
        data[i] := if normalized then rows[i] else normalize(rows[i]);
      }
      count := |rows|;
    }

    /** `_append`: the vectors stored so far stay as they are when the capacity is doubled. */
    method Append(unit: V) returns (id: nat)
      requires count <= data.Length
      modifies `data, `count, data
      ensures id == old(count) && count == old(count) + 1 <= data.Length
      ensures Vectors() == old(Vectors()) + [unit]
      ensures fresh(data) || data == old(data)
      ensures data.Length == if old(data.Length) == 0 then INITIAL_CAPACITY
                             else if old(count) == old(data.Length) then 2 * old(data.Length)
                             else old(data.Length)
    {
      if data.Length == 0 {
        data := new V[INITIAL_CAPACITY];
      } else if count == data.Length {
        var grown := new V[2 * data.Length];
        for i := 0 to count
          invariant data == old(data) && count == old(count) == data.Length && grown.Length == 2 * data.Length
          invariant grown[..i] == old(data[..])[..i]
          invariant data[..] == old(data[..])
        {
          grown[i] := data[i];
        }
        data := grown;
      }
      assert data[..count] == old(data[..count]);
      data[count] := unit;
      count := count + 1;
      return count - 1;
    }

    /** `_random_level`. */
    method RandomLevel() returns (level: nat)
      modifies `rng
      ensures (level, rng) == drawLevel(old(rng))
    {
      var drawn := drawLevel(rng);
      level, rng := drawn.0, drawn.1;
    }

    /** Make sure the graph has enough layers, and register the node on its own. */
    method Register(id: nat, level: nat)
      modifies `graph
      ensures graph == Registered(old(graph), id, level)
    {
      ghost var before := graph;
      while |graph| <= level
        invariant |graph| == |before| || |before| < |graph| <= level + 1
        invariant |before| <= |graph|
        invariant forall l :: 0 <= l < |graph| ==> graph[l] == if l < |before| then before[l] else map[]
      {
        graph := graph + [map[]];
      }
      for l := 0 to level + 1
        invariant |graph| == |Registered(before, id, level)|
        invariant forall k :: 0 <= k < l ==> graph[k] == Registered(before, id, level)[k]
        invariant forall k :: l <= k < |graph| ==> graph[k] == if k < |before| then before[k] else map[]
      {
        var layer: Layer := graph[l][id := []];
        graph := graph[l := layer];
      }
      assert graph == Registered(before, id, level);
    }

    /** The layers, once the node just appended is on those up to its level and linked there. */
    method Grow(id: nat, level: nat, d: BeamSearch.Distances, between: Between)
      requires m > 0 && topLayer == |graph| - 1 && GoodGraph(graph, id, entryPoint, m)
      modifies `graph, `entryPoint, `topLayer
      ensures graph == GraphAfter(old(graph), id, level, old(topLayer), old(entryPoint), d, efConstruction, between, m,
                                  selection)
      ensures InsertedAlong(old(graph), graph, id, level, d, efConstruction, between, m, selection, old(entryPoint))
      ensures if old(entryPoint).Some? && level <= old(topLayer)
              then entryPoint == old(entryPoint) && topLayer == old(topLayer)
              else entryPoint == Some(id) && topLayer == level
    {
      hide InsertedFrom, InsertedAlong, Registered, GoodGraph, LinkedDown, DescendedTo;
      ghost var before := graph;
      GraphFacts(graph, id, entryPoint, m);
      Register(id, level);
      if entryPoint.None? {
        FirstInsert(before, id, level, d, efConstruction, between, m, selection);
        entryPoint, topLayer := Some(id), level;
        return;
      }
      graph := Link(before, graph, id, level, topLayer, entryPoint.value, d, efConstruction, between, m, selection);
      if level > topLayer {
        topLayer, entryPoint := level, Some(id);
      }
    }

    /**
      `insert`: the vector becomes the next node, on the layers up to the level drawn for it;
      on each that existed it is linked with neighbours selected from a beam search there,
      both ways, and nothing else is changed. The index stays good, and what it becomes is a
      function of what it was.
      */
    method Insert(vector: V)
      requires Valid()
      modifies this, data
      ensures Valid() && (fresh(data) || data == old(data))
      ensures count == old(count) + 1 && efSearch == old(efSearch)
      ensures Vectors() == old(Vectors()) + [normalize(vector)]
      ensures State() == Inserted(Functions(), old(State()), vector)
      ensures var (level, next) := drawLevel(old(rng));
              && rng == next
              && (if old(count) > 0 && level <= old(topLayer)
                  then entryPoint == old(entryPoint) && topLayer == old(topLayer)
                  else entryPoint == Some(old(count)) && topLayer == level)
              && InsertedAlong(old(graph), graph, old(count), level,
                               FromQuery(distance, Vectors(), normalize(vector)), efConstruction,
                               BetweenNodes(distance, Vectors()), m, selection, old(entryPoint))
    {
      hide GoodGraph, InsertedAlong, GraphAfter, Registered, MostLinks, WalkedDown, LinkedDown, DescendedTo;
      ghost var before, entry := graph, entryPoint;
      var unit := normalize(vector);
      GraphFacts(graph, count, entryPoint, m);
      var id := Append(unit);
      var level := RandomLevel();
      var d, between := FromQuery(distance, Vectors(), unit), BetweenNodes(distance, Vectors());
      Grow(id, level, d, between);
      InsertLeaves(before, graph, id, level, d, efConstruction, between, m, selection, entry);
    }

    /** Which nodes a boolean array allows. */
    ghost function Allowed(allowed: Option<seq<bool>>): set<nat>
      reads this
    {
      set n: nat | n < count && (allowed.None? || (n < |allowed.value| && allowed.value[n]))
    }

    /**
      `search_with_distances`: from the node the greedy walks lead to, the search answers with
      min(k, ef, nodes within reach that are allowed) nodes, closest first; they are the
      nearest of those it saw, and the true nearest within reach if ef covers those.
      */
    method SearchWithDistances(query: V, k: nat, allowed: Option<seq<bool>>)
        returns (ids: seq<nat>, ghost entry: nat, ghost seen: set<nat>)
      requires Valid()
      requires allowed.Some? ==> |allowed.value| == count && (efSearch > 0 || k > 0)
      ensures count == 0 ==> ids == []
      ensures count > 0 ==>
        var ef := if allowed.None? then AtLeastOne(efSearch) else if efSearch > k then efSearch else k;
        var d := FromQuery(distance, Vectors(), normalize(query));
        && WalkedDown(graph, d, entryPoint.value, topLayer, 1, entry) && d(entry) <= d(entryPoint.value)
        && Searched(graph[0], d, entry, ef, Allowed(allowed), k, seen, ids)
    {
      if entryPoint.None? {
        return [], 0, {};
      }
      GoodFacts(graph, count, entryPoint, m);
      hide GoodLayer, Closed, NoRepeats, Found, Searched, Reach, Ranked, LocallyBest, Answer, Ranking, DescendedTo, Top,
           WalkedDown;
      var d := FromQuery(distance, Vectors(), normalize(query));
      var e := Descend(graph, graph, d, entryPoint.value, topLayer, 1);
      entry := e;
      if allowed.None? {
        ids, seen := AnswerPlain(graph[0], d, e, efSearch, k);
        assert Allowed(allowed) == graph[0].Keys;
      } else {
        var ef := if efSearch > k then efSearch else k;
        var ok := set n: nat | n < count && allowed.value[n];
        assert ok == Allowed(allowed);
        ids, seen := AnswerAllowed(graph[0], d, e, ef, ok, k);
      }
    }

    /** `exact_among`: the true k nearest of the given nodes, however the graph is linked. */
    method ExactAmong(query: V, nodes: seq<nat>, k: nat) returns (ids: seq<nat>)
      requires count <= data.Length && Distinct(nodes) && forall n :: n in nodes ==> n < count
      ensures Answers(FromQuery(distance, Vectors(), normalize(query)), Members(nodes), k, ids)
    {
      var d := FromQuery(distance, Vectors(), normalize(query));
      var nearest := Members(nodes);
      if |nodes| > k {
        nearest := Partition(d, nearest, k);
      } else {
        DistinctCount(nodes);
      }
      ids := Sort(d, nearest);
      RankedAnswers(d, Members(nodes), k, nearest, ids);
    }
  }
}

/** `Shard`, and how it answers a query. */
module Shards {
  import opened Bytes
  import opened LogFormat
  import opened Graphs
  import opened BeamSearch
  import opened HnswIndexes
  import opened Filters
  import opened Merging

  /** How many vectors exact search compares in the time the graph walk takes to pass one node. */
  const EXACT_ADVANTAGE := 100

  datatype Strategy = Exact | ByGraph

  /** `filter_strategy`. */
  function FilterStrategy(matches: nat, size: nat, ef: nat): Strategy {
    if matches * matches <= EXACT_ADVANTAGE * ef * size then Exact else ByGraph
  }

  /** No more matches than that, and the rule has to choose exact search: there are never more matches than vectors. */
  lemma FewMatchesAreExact(matches: nat, size: nat, ef: nat)
    requires matches <= size && matches <= EXACT_ADVANTAGE * ef
    ensures FilterStrategy(matches, size, ef) == Exact
  {
    var bound := EXACT_ADVANTAGE * ef;
    assert matches * matches <= bound * matches;
    assert bound * matches <= bound * size;
  }

  /** And so it does exactly when the matches, squared, are no more than that many vectors squared. */
  lemma ExactIff(matches: nat, size: nat, ef: nat)
    ensures FilterStrategy(matches, size, ef).Exact? <==> matches * matches <= EXACT_ADVANTAGE * ef * size
  {
  }

  /** `flatnonzero`: the marked positions, in order. */
  function FlatNonzero(marks: seq<bool>): (nodes: seq<nat>)
    ensures Distinct(nodes)
    ensures forall n: nat :: n in nodes <==> n < |marks| && marks[n]
  {
    if marks == [] then []
    else
      var last := |marks| - 1;
      var front := FlatNonzero(marks[..last]);
      assert forall n: nat :: n < last ==> marks[..last][n] == marks[n];
      assert forall i :: 0 <= i < |front| ==> front[i] in front;
      if marks[last] then front + [last] else front
  }

  predicate IdsRise(ids: seq<int>) {
    forall a, b :: 0 <= a < b < |ids| ==> ids[a] < ids[b]
  }

  /** The hits some nodes make. */
  ghost function HitsOf(d: BeamSearch.Distances, globalIds: seq<int>, nodes: set<nat>): set<Hit>
    requires forall n :: n in nodes ==> n < |globalIds|
  {
    set n | n in nodes :: Hit(d(n), globalIds[n])
  }

  function HitsInOrder(d: BeamSearch.Distances, globalIds: seq<int>, nodes: seq<nat>): (hits: seq<Hit>)
    requires forall n :: n in nodes ==> n < |globalIds|
    ensures |hits| == |nodes|
    ensures forall i :: 0 <= i < |nodes| ==> nodes[i] in nodes && hits[i] == Hit(d(nodes[i]), globalIds[nodes[i]])
  {
    seq(|nodes|, i requires 0 <= i < |nodes| => assert nodes[i] in nodes; Hit(d(nodes[i]), globalIds[nodes[i]]))
  }

  lemma {:induction false} CountHits(d: BeamSearch.Distances, globalIds: seq<int>, nodes: set<nat>)
    requires IdsRise(globalIds) && forall n :: n in nodes ==> n < |globalIds|
    ensures |HitsOf(d, globalIds, nodes)| == |nodes|
    decreases |nodes|
  {
    if nodes != {} {
      var n :| n in nodes;
      var rest := nodes - {n};
      CountHits(d, globalIds, rest);
      var h := Hit(d(n), globalIds[n]);
      assert HitsOf(d, globalIds, nodes) == HitsOf(d, globalIds, rest) + {h};
      forall other | other in rest
        ensures globalIds[other] != globalIds[n]
      {
        assert other < n || n < other;
      }
    }
  }

  /** The hits made by a list of nodes, and no others. */
  lemma HitsAreTheirs(d: BeamSearch.Distances, globalIds: seq<int>, nodes: seq<nat>, h: Hit)
    requires forall n :: n in nodes ==> n < |globalIds|
    ensures h in HitsInOrder(d, globalIds, nodes) <==> exists n :: n in nodes && h == Hit(d(n), globalIds[n])
  {
    var hits := HitsInOrder(d, globalIds, nodes);
    if h in hits {
      var i :| 0 <= i < |hits| && hits[i] == h;
      assert nodes[i] in nodes;
    }
    if n :| n in nodes && h == Hit(d(n), globalIds[n]) {
      var j :| 0 <= j < |nodes| && nodes[j] == n;
      assert hits[j] in hits;
    }
  }

  /** What the nodes' ids tell apart, the hits' ids do. */
  lemma HitsAreOrdered(d: BeamSearch.Distances, globalIds: seq<int>, nodes: seq<nat>)
    requires IdsRise(globalIds) && (forall n :: n in nodes ==> n < |globalIds|) && Distinct(nodes)
    requires forall i, j :: 0 <= i < j < |nodes| ==> Before(d, nodes[i], nodes[j])
    ensures Ordered(HitsInOrder(d, globalIds, nodes))
  {
    var hits := HitsInOrder(d, globalIds, nodes);
    forall i, j | 0 <= i < j < |hits|
      ensures Closer(hits[i], hits[j])
    {
      assert Before(d, nodes[i], nodes[j]) && nodes[i] != nodes[j];
    }
  }

  /** What is not among the hits is no closer. */
  lemma OthersAreFarther(d: BeamSearch.Distances, globalIds: seq<int>, pool: set<nat>, k: nat, nodes: seq<nat>, a: Hit,
                         h: Hit)
    requires (forall n :: n in pool ==> n < |globalIds|) && AreClosest(d, pool, k, Members(nodes))
    requires forall n :: n in nodes ==> n in pool
    requires a in HitsInOrder(d, globalIds, nodes) && h in HitsOf(d, globalIds, pool)
    requires h !in HitsInOrder(d, globalIds, nodes)
    ensures a.dist <= h.dist
  {
    HitsAreTheirs(d, globalIds, nodes, a);
    HitsAreTheirs(d, globalIds, nodes, h);
    hide HitsInOrder;
    var m :| m in nodes && a == Hit(d(m), globalIds[m]);
    var n :| n in pool && h == Hit(d(n), globalIds[n]);
    assert n !in Members(nodes) && m in Members(nodes);
  }

  /** The k nearest nodes of some, with their global ids, are the k nearest hits. */
  lemma AnswersAreNearest(d: BeamSearch.Distances, globalIds: seq<int>, pool: set<nat>, k: nat, nodes: seq<nat>)
    requires IdsRise(globalIds) && forall n :: n in pool ==> n < |globalIds|
    requires Answers(d, pool, k, nodes)
    ensures forall n :: n in nodes ==> n in pool
    ensures IsNearest(HitsOf(d, globalIds, pool), k, HitsInOrder(d, globalIds, nodes))
  {
    hide IdsRise, Ordered, Before;
    assert forall n :: n in nodes ==> n in Members(nodes);
    AnswersCount(d, pool, k, nodes);
    CountHits(d, globalIds, pool);
    HitsAreOrdered(d, globalIds, nodes);
    var hits := HitsInOrder(d, globalIds, nodes);
    forall h | h in hits
      ensures h in HitsOf(d, globalIds, pool)
    {
      HitsAreTheirs(d, globalIds, nodes, h);
    }
    forall a, h | a in hits && h in HitsOf(d, globalIds, pool) && h !in hits
      ensures a.dist <= h.dist
    {
      OthersAreFarther(d, globalIds, pool, k, nodes, a, h);
    }
  }

  // ---------------------------------------------------------------- what a shard holds

  /** All there is to a shard; its payload index is worked out again when it is needed. */
  datatype ShardState<V, R> = ShardState(index: IndexState<V, R>, globalIds: seq<int>, payloads: seq<Text>)

  /** `add`, as a function of the shard's state. */
  ghost function Added<V, R>(f: Maths<V, R>, s: ShardState<V, R>, id: int, v: V, text: Text): (later: ShardState<V, R>)
    requires s.index.topLayer < |s.index.graph|
    ensures later.index.topLayer < |later.index.graph|
  {
    ShardState(Inserted(f, s.index, v), s.globalIds + [id], s.payloads + [text])
  }

  /** The first n rows of a batch, one after the other. */
  ghost function AddedRows<V, R>(f: Maths<V, R>, s: ShardState<V, R>, ids: seq<int>, vectors: seq<V>, texts: seq<Text>,
                                 n: nat): (later: ShardState<V, R>)
    requires s.index.topLayer < |s.index.graph| && n <= |ids| && n <= |vectors| && n <= |texts|
    ensures later.index.topLayer < |later.index.graph|
  {
    if n == 0 then s
    else Added(f, AddedRows(f, s, ids, vectors, texts, n - 1), ids[n - 1], vectors[n - 1], texts[n - 1])
  }

  /** No payloads at all stand for blank ones. */
  function Given(ids: seq<int>, texts: seq<Text>): seq<Text> {
    if texts == [] then seq(|ids|, _ => []) else texts
  }

  /** How many rows `zip` makes of three lists. */
  function Rows<V>(ids: seq<int>, vectors: seq<V>, texts: seq<Text>): (n: nat)
    ensures n <= |ids| && n <= |vectors| && n <= |Given(ids, texts)|
    ensures n == |ids| || n == |vectors| || n == |Given(ids, texts)|
  {
    Least(|ids|, Least(|vectors|, |Given(ids, texts)|))
  }

  /** `add_batch`, as a function of the shard's state. */
  ghost function AddedBatch<V, R>(f: Maths<V, R>, s: ShardState<V, R>, ids: seq<int>, vectors: seq<V>, texts: seq<Text>)
      : (later: ShardState<V, R>)
    requires s.index.topLayer < |s.index.graph|
    ensures later.index.topLayer < |later.index.graph|
  {
    AddedRows(f, s, ids, vectors, Given(ids, texts), Rows(ids, vectors, texts))
  }

  // ---------------------------------------------------------------- one shard

  class Shard<V(0), R> {
    const index: Hnsw<V, R>
    const payloadIndex: PayloadIndex
    var globalIds: seq<int>
    var payloads: seq<Text>

    ghost predicate Valid()
      reads this, index, payloadIndex
    {
      && index.Valid() && payloadIndex.Valid()
      && |globalIds| == |payloads| == index.count
      && payloadIndex.payloads <= payloads
    }

    ghost function State(): ShardState<V, R>
      requires index.count <= index.data.Length
      reads this, index, index.data
    {
      ShardState(index.State(), globalIds, payloads)
    }

    /** A shard over an index; a new one has nothing yet, a restored one what was saved with its index. */
    constructor (index: Hnsw<V, R>, payloadIndex: PayloadIndex, globalIds: seq<int>, payloads: seq<Text>)
      requires index.Valid() && |globalIds| == |payloads| == index.count
      requires payloadIndex.Valid() && payloadIndex.payloads == []
      ensures Valid() && this.index == index && this.payloadIndex == payloadIndex
      ensures this.globalIds == globalIds && this.payloads == payloads
    {
      this.index, this.payloadIndex, this.globalIds, this.payloads := index, payloadIndex, globalIds, payloads;
    }

    /** `add`. */
    method Add(globalId: int, vector: V, payload: Text)
      requires Valid()
      modifies this, index, index.data
      ensures Valid() && (fresh(index.data) || index.data == old(index.data))
      ensures globalIds == old(globalIds) + [globalId] && payloads == old(payloads) + [payload]
      ensures index.Vectors() == old(index.Vectors()) + [index.normalize(vector)]
      ensures State() == Added(index.Functions(), old(State()), globalId, vector, payload)
      ensures index.efSearch == old(index.efSearch)
    {
      hide Inserted, InsertedFrom, GoodGraph, EntryAfter;
      index.Insert(vector);
      globalIds := globalIds + [globalId];
      payloads := payloads + [payload];
    }

    /** `add_batch`: no payloads at all stand for blank ones, and the shortest list decides. */
    method AddBatch(ids: seq<int>, vectors: seq<V>, texts: seq<Text>)
      requires Valid()
      modifies this, index, index.data
      ensures Valid() && (fresh(index.data) || index.data == old(index.data))
      ensures var given, n := Given(ids, texts), Rows(ids, vectors, texts);
              && given == (if texts == [] then seq(|ids|, _ => []) else texts)
              && n <= |ids| && n <= |vectors| && n <= |given| && (n == |ids| || n == |vectors| || n == |given|)
              && globalIds == old(globalIds) + ids[..n]
              && payloads == old(payloads) + given[..n]
              && index.Vectors() == old(index.Vectors()) + Normalized(vectors[..n])
      ensures State() == AddedBatch(index.Functions(), old(State()), ids, vectors, texts)
      ensures index.efSearch == old(index.efSearch)
    {
      hide GoodGraph, InsertedFrom, Registered, EntryAfter, Indexes, Inserted;
      var given, n := Given(ids, texts), Rows(ids, vectors, texts);
      for i := 0 to n
        invariant Valid() && (fresh(index.data) || index.data == old(index.data))
        invariant globalIds == old(globalIds) + ids[..i] && payloads == old(payloads) + given[..i]
        invariant index.Vectors() == old(index.Vectors()) + Normalized(vectors[..i])
        invariant State() == AddedRows(index.Functions(), old(State()), ids, vectors, given, i)
        invariant index.efSearch == old(index.efSearch)
      {
        OneRowMore(ids, vectors, given, i);
        Add(ids[i], vectors[i], given[i]);
      }
    }

    lemma OneRowMore(ids: seq<int>, vectors: seq<V>, given: seq<Text>, i: nat)
      requires i < |ids| && i < |vectors| && i < |given|
      ensures ids[..i + 1] == ids[..i] + [ids[i]] && given[..i + 1] == given[..i] + [given[i]]
      ensures Normalized(vectors[..i + 1]) == Normalized(vectors[..i]) + [index.normalize(vectors[i])]
    {
    }

    function Normalized(vectors: seq<V>): (units: seq<V>)
      ensures |units| == |vectors|
    {
      seq(|vectors|, i requires 0 <= i < |vectors| => index.normalize(vectors[i]))
    }

    /** `next_global_id`: one more than the largest id here, 0 if there is none. */
    method NextGlobalId() returns (next: int)
      ensures globalIds == [] ==> next == 0
      ensures forall id :: id in globalIds ==> id < next
      ensures globalIds != [] && (forall id :: id in globalIds ==> id >= 0) ==> next - 1 in globalIds
    {
      var largest := -1;
      for i := 0 to |globalIds|
        invariant i == 0 ==> largest == -1
        invariant forall j :: 0 <= j < i ==> globalIds[j] <= largest
        invariant largest == -1 || largest in globalIds
      {
        if globalIds[i] > largest {
          largest := globalIds[i];
        }
      }
      if globalIds != [] && largest == -1 {
        assert globalIds[0] in globalIds;
      }
      return largest + 1;
    }

    function Distance(query: V): BeamSearch.Distances
      requires index.count <= index.data.Length
      reads this, index, index.data
    {
      FromQuery(index.distance, index.Vectors(), index.normalize(query))
    }

    /** The vectors whose payload, read directly, matches the filter. */
    ghost function Matching(where: Filter): set<nat>
      reads this
    {
      set n: nat | n < |payloads| && Matches(where, Parsed(payloadIndex.read, payloads[n]))
    }

    function Width(k: nat): (ef: nat)
      reads index
      ensures ef >= k && ef >= index.efSearch && (ef == k || ef == index.efSearch)
    {
      if index.efSearch > k then index.efSearch else k
    }

    /** What the graph answers, among these nodes: layer 0 is searched from where the greedy walks above it end. */
    ghost predicate ByWalking(query: V, ef: nat, ok: set<nat>, k: nat, nodes: seq<nat>, entry: nat, seen: set<nat>)
      requires Valid()
      reads this, index, index.data, payloadIndex
    {
      && index.count > 0 && index.entryPoint.Some?
      && WalkedDown(index.graph, Distance(query), index.entryPoint.value, index.topLayer, 1, entry)
      && Searched(index.graph[0], Distance(query), entry, ef, ok, k, seen, nodes)
    }

    /**
      `_nearest`: without a filter, the graph's answer. With one: if the matches are few
      enough for exact search, the true k nearest of them, however the graph is linked;
      otherwise what the filtered walk finds among them.
      */
    method Nearest(query: V, k: nat, where: Filter) returns (nodes: seq<nat>, ghost entry: nat, ghost seen: set<nat>)
      requires Valid() && IsNormal(where) && (where == map[] || Width(k) > 0)
      modifies payloadIndex
      ensures Valid()
      ensures forall n :: n in nodes ==> n < |globalIds| && n in Matching(where)
      ensures where == map[] && index.count == 0 ==> nodes == []
      ensures where == map[] && index.count > 0 ==>
                ByWalking(query, AtLeastOne(index.efSearch), index.graph[0].Keys, k, nodes, entry, seen)
      ensures where != map[] ==>
                if FewMatches(this, k, where) then Answers(Distance(query), Matching(where), k, nodes)
                else ByWalking(query, Width(k), Matching(where), k, nodes, entry, seen)
    {
      hide GoodGraph, Matches, Searched, Answers, Indexes, IsNormal, FromQuery, Distinct, FilterStrategy, FewMatches,
           WalkedDown;
      if where == map[] {
        nodes, entry, seen := index.SearchWithDistances(query, k, None);
        AllAllowed();
        AllMatch();
        if index.count > 0 {
          AnswersWithin(index.graph[0], Distance(query), entry, AtLeastOne(index.efSearch), index.graph[0].Keys, k,
                        seen, nodes);
        }
        return;
      }
      entry, seen := 0, {};
      var allowed, matching := Marked(where);
      StrategyIs(k, where);
      if matching == [] {
        NoAnswers(Distance(query), Matching(where), k, |payloads|, Width(k));
        return [], entry, seen;
      }
      if FilterStrategy(|matching|, |globalIds|, Width(k)).Exact? {
        nodes := index.ExactAmong(query, matching, k);
        AnswersAmong(Distance(query), Matching(where), k, nodes);
      } else {
        assert index.Allowed(Some(allowed)) == Matching(where);
        assert matching[0] in matching;
        AllAllowed();
        nodes, entry, seen := index.SearchWithDistances(query, k, Some(allowed));
        AnswersWithin(index.graph[0], Distance(query), entry, Width(k), Matching(where), k, seen, nodes);
      }
    }

    lemma AllMatch()
      ensures forall n: nat :: n in Matching(map[]) <==> n < |payloads|
    {
    }

    lemma StrategyIs(k: nat, where: Filter)
      ensures FilterStrategy(|Matching(where)|, |payloads|, Width(k)).Exact? <==> FewMatches(this, k, where)
    {
      hide Matches;
      ExactIff(|Matching(where)|, |payloads|, Width(k));
    }

    lemma FewOfThem(k: nat, where: Filter)
      ensures FewMatches(this, k, where) <==>
              |Matching(where)| * |Matching(where)| <= EXACT_ADVANTAGE * Width(k) * |payloads|
      ensures |Matching(where)| <= EXACT_ADVANTAGE * Width(k) ==> FewMatches(this, k, where)
    {
      hide Matches;
      SomeOf(|payloads|, Matching(where));
      ExactIff(|Matching(where)|, |payloads|, Width(k));
      if |Matching(where)| <= EXACT_ADVANTAGE * Width(k) {
        FewMatchesAreExact(|Matching(where)|, |payloads|, Width(k));
      }
    }

    lemma AllAllowed()
      requires Valid()
      ensures index.count > 0 ==>
                index.graph != [] && index.entryPoint.Some? && index.Allowed(None) == index.graph[0].Keys
      ensures index.count > 0 ==> forall n :: n in index.graph[0].Keys ==> n < |globalIds|
    {
    }

    /** The matching vectors: as marks, and as a list. */
    method Marked(where: Filter) returns (allowed: seq<bool>, matching: seq<nat>)
      requires Valid() && IsNormal(where)
      modifies payloadIndex
      ensures Valid() && payloadIndex.payloads == payloads
      ensures |allowed| == |payloads|
      ensures forall n: nat :: n < |allowed| ==> (allowed[n] <==> n in Matching(where))
      ensures Distinct(matching) && Members(matching) == Matching(where) && |matching| == |Matching(where)|
      ensures forall n :: n in matching ==> n < |payloads|
    {
      hide GoodGraph, Matches, Indexes, IsNormal;
      payloadIndex.CatchUp(payloads);
      allowed := payloadIndex.Matching(where, |globalIds|);
      matching := FlatNonzero(allowed);
      MatchCount(allowed, matching, Matching(where));
    }

    /**
      `search`: the distances and global ids of what `_nearest` answers. With few enough matches,
      and in particular with no more than EXACT_ADVANTAGE * max(ef_search, k), the true k nearest.
      */
    method Search(query: V, k: nat, where: Filter)
        returns (hits: seq<Hit>, ghost nodes: seq<nat>, ghost entry: nat, ghost seen: set<nat>)
      requires Valid() && IsNormal(where) && (where == map[] || Width(k) > 0)
      modifies payloadIndex
      ensures Valid()
      ensures forall n :: n in nodes ==> n < |globalIds| && n in Matching(where)
      ensures where == map[] && index.count == 0 ==> nodes == []
      ensures where == map[] && index.count > 0 ==>
                ByWalking(query, AtLeastOne(index.efSearch), index.graph[0].Keys, k, nodes, entry, seen)
      ensures where != map[] ==>
                var matches, most := Matching(where), EXACT_ADVANTAGE * Width(k) * |payloads|;
                if |matches| * |matches| <= most then Answers(Distance(query), matches, k, nodes)
                else ByWalking(query, Width(k), matches, k, nodes, entry, seen)
      ensures hits == HitsInOrder(Distance(query), globalIds, nodes)
      ensures forall h :: h in hits ==> h in HitsOf(Distance(query), globalIds, Matching(where))
      ensures where != map[] && FewMatches(this, k, where) && IdsRise(globalIds) ==>
                IsNearest(HitsOf(Distance(query), globalIds, Matching(where)), k, hits)
      ensures |Matching(where)| <= EXACT_ADVANTAGE * Width(k) ==> FewMatches(this, k, where)
    {
      hide GoodGraph, Matches, Searched, Answers, Indexes, IsNormal, FromQuery, Distinct, FilterStrategy, IdsRise,
           IsNearest, ByWalking, FewMatches;
      var found;
      found, entry, seen := Nearest(query, k, where);
      nodes := found;
      hits := HitsInOrder(Distance(query), globalIds, found);
      FewOfThem(k, where);
      HitsMatch(Distance(query), globalIds, Matching(where), nodes);
      if where != map[] && FewMatches(this, k, where) && IdsRise(globalIds) {
        AnswersAreNearest(Distance(query), globalIds, Matching(where), k, nodes);
      }
    }
  }

  lemma HitsMatch(d: BeamSearch.Distances, globalIds: seq<int>, pool: set<nat>, nodes: seq<nat>)
    requires (forall n :: n in pool ==> n < |globalIds|) && forall n :: n in nodes ==> n in pool
    ensures forall h :: h in HitsInOrder(d, globalIds, nodes) ==> h in HitsOf(d, globalIds, pool)
  {
    forall h | h in HitsInOrder(d, globalIds, nodes)
      ensures h in HitsOf(d, globalIds, pool)
    {
      HitsAreTheirs(d, globalIds, nodes, h);
    }
  }

  // ---------------------------------------------------------------- all shards

  /** Shards that share nothing, and no global id. */
  ghost predicate Separate<V(0), R>(shards: seq<Shard<V, R>>)
    reads shards
    reads set i | 0 <= i < |shards| :: shards[i].index
    reads set i | 0 <= i < |shards| :: shards[i].payloadIndex
  {
    && (forall i :: 0 <= i < |shards| ==> shards[i].Valid() && IdsRise(shards[i].globalIds))
    && (forall i, j :: 0 <= i < j < |shards| ==> shards[i].payloadIndex != shards[j].payloadIndex)
    && (forall i, j, x :: 0 <= i < j < |shards| && x in shards[i].globalIds ==> x !in shards[j].globalIds)
  }

  /** A shard's matching vectors, as hits. */
  ghost function MatchingHits<V(0), R>(shard: Shard<V, R>, query: V, where: Filter): set<Hit>
    requires shard.index.count <= shard.index.data.Length && |shard.globalIds| == |shard.payloads|
    reads shard, shard.index, shard.index.data
  {
    HitsOf(shard.Distance(query), shard.globalIds, shard.Matching(where))
  }

  /** Few enough of its vectors match for exact search. */
  ghost predicate FewMatches<V(0), R>(shard: Shard<V, R>, k: nat, where: Filter)
    reads shard, shard.index
  {
    |shard.Matching(where)| * |shard.Matching(where)| <= EXACT_ADVANTAGE * shard.Width(k) * |shard.payloads|
  }

  /** Every vector of these shards that matches, as a hit, shard by shard. */
  ghost predicate ArePools<V(0), R>(pools: seq<set<Hit>>, shards: seq<Shard<V, R>>, query: V, where: Filter)
    reads shards
    reads set i | 0 <= i < |shards| :: shards[i].index
    reads set i | 0 <= i < |shards| :: shards[i].index.data
  {
    && |pools| == |shards|
    && forall i :: 0 <= i < |shards| ==>
         && shards[i].index.count <= shards[i].index.data.Length && |shards[i].globalIds| == |shards[i].payloads|
         && pools[i] == MatchingHits(shards[i], query, where)
  }

  ghost predicate AllIn(hits: seq<Hit>, pool: set<Hit>) {
    forall h :: h in hits ==> h in pool
  }

  method SearchOne<V(0), R>(shards: seq<Shard<V, R>>, i: nat, query: V, k: nat, where: Filter,
                            ghost pools: seq<set<Hit>>)
      returns (found: seq<Hit>)
    requires Separate(shards) && i < |shards| && IsNormal(where) && (where == map[] || shards[i].Width(k) > 0)
    requires ArePools(pools, shards, query, where)
    modifies shards[i].payloadIndex
    ensures Separate(shards) && ArePools(pools, shards, query, where)
    ensures i < |pools| && AllIn(found, pools[i])
    ensures where != map[] && FewMatches(shards[i], k, where) ==> IsNearest(pools[i], k, found)
  {
    hide HitsOf, IsNearest, GoodGraph, Indexes, IsNormal, IdsRise, FewMatches, Answers, Searched, WalkedDown, Matches;
    assert pools[i] == MatchingHits(shards[i], query, where);
    var hits, _, _, _ := shards[i].Search(query, k, where);
    assert pools[i] == MatchingHits(shards[i], query, where);
    found := hits;
  }

  /**
    `_scatter` and the merge, in sequence: the result has vectors that match only; if on every
    shard few enough do for exact search, it is the k nearest of all of them together.
    */
  method SearchAll<V(0), R>(shards: seq<Shard<V, R>>, query: V, k: nat, where: Filter, ghost pools: seq<set<Hit>>)
      returns (hits: seq<Hit>)
    requires Separate(shards) && IsNormal(where)
    requires where == map[] || forall i :: 0 <= i < |shards| ==> shards[i].Width(k) > 0
    requires ArePools(pools, shards, query, where)
    modifies set i | 0 <= i < |shards| :: shards[i].payloadIndex
    ensures Separate(shards)
    ensures forall h :: h in hits ==> h in Union(pools)
    ensures where != map[] && (forall i :: 0 <= i < |shards| ==> FewMatches(shards[i], k, where)) ==>
              IsNearest(Union(pools), k, hits)
  {
    hide Separate, ArePools, FewMatches, IsNearest, MergeTopK, Union, IsNormal;
    var perShard: seq<seq<Hit>> := [];
    SameCount(shards, query, where, pools);
    for i := 0 to |shards|
      invariant |perShard| == i && Separate(shards) && ArePools(pools, shards, query, where)
      invariant |pools| == |shards|
      invariant where != map[] ==>
        forall j :: 0 <= j < i && FewMatches(shards[j], k, where) ==> IsNearest(pools[j], k, perShard[j])
      invariant forall j :: 0 <= j < i ==> AllIn(perShard[j], pools[j])
    {
      var found := SearchOne(shards, i, query, k, where, pools);
      perShard := perShard + [found];
    }
    PoolsApart(shards, query, where, pools);
    hits := MergeTopK(perShard, k);
    MergedFrom(pools, perShard, k);
    if where != map[] && forall i :: 0 <= i < |shards| ==> FewMatches(shards[i], k, where) {
      MergeIsGloballyNearest(pools, k, perShard);
    }
  }

  lemma MergedFrom(pools: seq<set<Hit>>, perShard: seq<seq<Hit>>, k: nat)
    requires |perShard| == |pools| && forall j :: 0 <= j < |perShard| ==> AllIn(perShard[j], pools[j])
    ensures forall h :: h in MergeTopK(perShard, k) ==> h in Union(pools)
  {
    hide MergeTopK;
    forall h | h in MergeTopK(perShard, k)
      ensures h in Union(pools)
    {
      MergeAddsNothing(perShard, k, h);
      var i :| 0 <= i < |perShard| && h in perShard[i];
      assert AllIn(perShard[i], pools[i]);
    }
  }

  lemma SameCount<V(0), R>(shards: seq<Shard<V, R>>, query: V, where: Filter, pools: seq<set<Hit>>)
    requires ArePools(pools, shards, query, where)
    ensures |pools| == |shards|
  {
  }

  lemma PoolsApart<V(0), R>(shards: seq<Shard<V, R>>, query: V, where: Filter, pools: seq<set<Hit>>)
    requires Separate(shards) && ArePools(pools, shards, query, where)
    ensures Apart(pools)
  {
    hide Matches, GoodGraph, Indexes, FromQuery;
    forall i, j | 0 <= i < j < |pools|
      ensures pools[i] !! pools[j]
    {
      forall h | h in pools[i]
        ensures h !in pools[j]
      {
        assert h.id in shards[i].globalIds;
      }
    }
  }

  lemma AnswersAmong(d: BeamSearch.Distances, pool: set<nat>, k: nat, nodes: seq<nat>)
    requires Answers(d, pool, k, nodes)
    ensures forall n :: n in nodes ==> n in pool
  {
    assert forall n :: n in nodes ==> n in Members(nodes);
  }

  lemma AnswersWithin(layer: Layer, d: BeamSearch.Distances, entry: nat, ef: nat, ok: set<nat>, k: nat, seen: set<nat>,
                      nodes: seq<nat>)
    requires Searched(layer, d, entry, ef, ok, k, seen, nodes)
    ensures forall n :: n in nodes ==> n in ok
  {
    AnswersAmong(d, seen * ok, Least(k, ef), nodes);
  }

  lemma {:induction false} SomeOf(n: nat, some: set<nat>)
    requires forall i :: i in some ==> i < n
    ensures |some| <= n
  {
    if n > 0 {
      SomeOf(n - 1, some - {n - 1});
      if n - 1 in some {
        assert |some - {n - 1}| == |some| - 1;
      } else {
        assert some - {n - 1} == some;
      }
    } else {
      assert some == {};
    }
  }

  lemma NoAnswers(d: BeamSearch.Distances, matching: set<nat>, k: nat, size: nat, ef: nat)
    requires |matching| == 0
    ensures Answers(d, matching, k, []) && FilterStrategy(|matching|, size, ef).Exact?
  {
    assert EXACT_ADVANTAGE * ef * size >= 0;
  }

  lemma MatchCount(allowed: seq<bool>, nodes: seq<nat>, matching: set<nat>)
    requires nodes == FlatNonzero(allowed) && forall n: nat :: n in matching <==> n < |allowed| && allowed[n]
    ensures Members(nodes) == matching && |nodes| == |matching| && Distinct(nodes)
  {
    DistinctCount(nodes);
  }
}

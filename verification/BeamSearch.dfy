/** The walks of one layer. */
module BeamSearch {
  import opened Bytes
  import opened Graphs

  // The greedy one, and the beam search in its plain and its filtered form.

  /** How far each node is from the query. */
  type Distances = nat -> real

  /** The order of (distance, id) pairs. */
  predicate Before(d: Distances, a: nat, b: nat) {
    d(a) < d(b) || (d(a) == d(b) && a <= b)
  }

  /** The order of (-distance, id) pairs. */
  predicate FartherFirst(d: Distances, a: nat, b: nat) {
    d(a) > d(b) || (d(a) == d(b) && a <= b)
  }

  lemma {:induction false} ClosestExists(d: Distances, s: set<nat>) returns (c: nat)
    requires s != {}
    ensures c in s && forall x: nat :: x in s ==> Before(d, c, x)
    decreases |s|
  {
    var y :| y in s;
    var rest := s - {y};
    c := y;
    if rest != {} {
      var other := ClosestExists(d, rest);
      c := if Before(d, other, y) then other else y;
    }
    forall x: nat | x in s
      ensures Before(d, c, x)
    {
      assert x == y || x in rest;
    }
  }

  lemma FarthestExists(d: Distances, s: set<nat>) returns (c: nat)
    requires s != {}
    ensures c in s && forall x: nat :: x in s ==> FartherFirst(d, c, x)
  {
    var minus: Distances := (n: nat) => -d(n);
    c := ClosestExists(minus, s);
    forall x: nat | x in s
      ensures FartherFirst(d, c, x)
    {
      assert Before(minus, c, x);
    }
  }

  ghost predicate IsClosest(d: Distances, s: set<nat>, c: nat) {
    c in s && forall x: nat :: x in s ==> Before(d, c, x)
  }

  ghost predicate IsFarthest(d: Distances, s: set<nat>, c: nat) {
    c in s && forall x: nat :: x in s ==> FartherFirst(d, c, x)
  }

  lemma SomeClosest(d: Distances, s: set<nat>)
    requires s != {}
    ensures exists c: nat :: IsClosest(d, s, c)
  {
    var c := ClosestExists(d, s);
    assert IsClosest(d, s, c);
  }

  lemma SomeFarthest(d: Distances, s: set<nat>)
    requires s != {}
    ensures exists c: nat :: IsFarthest(d, s, c)
  {
    var c := FarthestExists(d, s);
    assert IsFarthest(d, s, c);
  }

  /** The only closest node: where distances are equal, the smallest id. */
  ghost function ClosestOf(d: Distances, s: set<nat>): (c: nat)
    requires s != {}
    ensures IsClosest(d, s, c) && forall x: nat :: IsClosest(d, s, x) ==> x == c
  {
    SomeClosest(d, s);
    var c: nat :| IsClosest(d, s, c);
    c
  }

  ghost function FarthestOf(d: Distances, s: set<nat>): (c: nat)
    requires s != {}
    ensures IsFarthest(d, s, c) && forall x: nat :: IsFarthest(d, s, x) ==> x == c
  {
    SomeFarthest(d, s);
    var c: nat :| IsFarthest(d, s, c);
    c
  }

  /** What `heappop` takes from the candidates. */
  method Closest(d: Distances, s: set<nat>) returns (c: nat)
    requires s != {}
    ensures c == ClosestOf(d, s) && IsClosest(d, s, c)
  {
    ghost var first := ClosestOf(d, s);
    c :| c in s && forall x: nat :: x in s ==> Before(d, c, x);
    assert IsClosest(d, s, c);
  }

  /** What `heappop` takes from the results: the farthest of them. */
  method Farthest(d: Distances, s: set<nat>) returns (c: nat)
    requires s != {}
    ensures c == FarthestOf(d, s) && IsFarthest(d, s, c)
  {
    ghost var first := FarthestOf(d, s);
    c :| c in s && forall x: nat :: x in s ==> FartherFirst(d, c, x);
    assert IsFarthest(d, s, c);
  }

  // ---------------------------------------------------------------- the greedy walk

  ghost function CloserThan(layer: Layer, d: Distances, bound: real): set<nat> {
    set n | n in layer && d(n) < bound
  }

  ghost predicate IsArgMin(d: Distances, ids: seq<nat>, best: nat) {
    && best < |ids| && (forall i :: 0 <= i < |ids| ==> d(ids[best]) <= d(ids[i]))
    && forall i :: 0 <= i < best ==> d(ids[best]) < d(ids[i])
  }

  /** `argmin`: the first of the smallest. */
  method ArgMin(d: Distances, ids: seq<nat>) returns (best: nat)
    requires ids != []
    ensures best < |ids| && forall i :: 0 <= i < |ids| ==> d(ids[best]) <= d(ids[i])
    ensures forall i :: 0 <= i < best ==> d(ids[best]) < d(ids[i])
  {
    best := 0;
    for i := 1 to |ids|
      invariant best < i
      invariant forall j :: 0 <= j < i ==> d(ids[best]) <= d(ids[j])
      invariant forall j :: 0 <= j < best ==> d(ids[best]) < d(ids[j])
    {
      if d(ids[i]) < d(ids[best]) {
        best := i;
      }
    }
  }

  /** The node of a list that is closest, the first such. */
  ghost function Nearest(d: Distances, ids: seq<nat>): (n: nat)
    requires ids != []
    ensures n in ids && forall best: nat :: IsArgMin(d, ids, best) ==> n == ids[best]
  {
    if |ids| == 1 then ids[0]
    else
      var n, last := Nearest(d, ids[..|ids| - 1]), ids[|ids| - 1];
      NearestGrows(d, ids, n);
      if d(last) < d(n) then last else n
  }

  lemma NearestGrows(d: Distances, ids: seq<nat>, n: nat)
    requires |ids| > 1 && n in ids[..|ids| - 1]
    requires forall best: nat :: IsArgMin(d, ids[..|ids| - 1], best) ==> n == ids[best]
    ensures forall best: nat :: IsArgMin(d, ids, best) ==>
              ids[best] == if d(ids[|ids| - 1]) < d(n) then ids[|ids| - 1] else n
  {
    var front := ids[..|ids| - 1];
    var k :| 0 <= k < |front| && front[k] == n;
    forall best: nat | IsArgMin(d, ids, best)
      ensures ids[best] == if d(ids[|ids| - 1]) < d(n) then ids[|ids| - 1] else n
    {
      if best < |front| {
        assert IsArgMin(d, front, best);
      } else {
        assert d(ids[best]) < d(ids[k]);
      }
    }
  }

  /** Where the greedy walk from `current` ends. */
  ghost function Descended(layer: Layer, d: Distances, current: nat): nat
    requires current in layer
    decreases CloserThan(layer, d, d(current))
  {
    if layer[current] == [] then current
    else
      var next := Nearest(d, layer[current]);
      if d(next) >= d(current) || next !in layer then current
      else
        assert next in CloserThan(layer, d, d(current)) && next !in CloserThan(layer, d, d(next));
        Descended(layer, d, next)
  }

  /** From node a a greedy walk goes on to b: the first of its closest neighbours, closer than a. */
  ghost predicate IsHop(layer: Layer, d: Distances, a: nat, b: nat) {
    a in layer && d(b) < d(a) &&
    exists j :: 0 <= j < |layer[a]| && layer[a][j] == b && IsFirstClosest(d, layer[a], j)
  }

  ghost predicate IsFirstClosest(d: Distances, ids: seq<nat>, j: nat)
    requires j < |ids|
  {
    forall i :: 0 <= i < |ids| ==> if i < j then d(ids[j]) < d(ids[i]) else d(ids[j]) <= d(ids[i])
  }

  /** A greedy walk has got to this node. */
  ghost predicate WalksTo(layer: Layer, d: Distances, path: seq<nat>, current: nat) {
    && path != [] && (forall i :: 0 <= i < |path| ==> path[i] in layer)
    && (forall i :: 0 < i < |path| ==> IsHop(layer, d, path[i - 1], path[i]))
    && path[|path| - 1] == current
  }

  /** It stops where no neighbour is closer, and not before. */
  ghost predicate IsGreedyWalk(layer: Layer, d: Distances, path: seq<nat>) {
    && path != [] && WalksTo(layer, d, path, path[|path| - 1])
    && forall n :: n in layer[path[|path| - 1]] ==> d(n) >= d(path[|path| - 1])
  }

  lemma WalkBegins(layer: Layer, d: Distances, entry: nat)
    requires entry in layer
    ensures WalksTo(layer, d, [entry], entry)
  {
  }

  lemma HopsOn(layer: Layer, d: Distances, path: seq<nat>, current: nat, best: nat)
    requires WalksTo(layer, d, path, current) && best < |layer[current]| && layer[current][best] in layer
    requires IsFirstClosest(d, layer[current], best) && d(layer[current][best]) < d(current)
    ensures path != [] && WalksTo(layer, d, path + [layer[current][best]], layer[current][best])
  {
    hide IsFirstClosest;
    var b := layer[current][best];
    assert IsHop(layer, d, current, b);
    hide IsHop;
    var more := path + [b];
    forall i | 0 < i < |more|
      ensures IsHop(layer, d, more[i - 1], more[i])
    {
      if i < |path| {
        assert IsHop(layer, d, path[i - 1], path[i]);
      }
    }
  }

  lemma WalkEnds(layer: Layer, d: Distances, path: seq<nat>, current: nat)
    requires WalksTo(layer, d, path, current) && forall n :: n in layer[current] ==> d(n) >= d(current)
    ensures IsGreedyWalk(layer, d, path) && path != [] && path[|path| - 1] == current
  {
  }

  /**
    `_greedy_descend`: hops from the entry to the closest neighbour as long as that is closer, and
    so ends at a local minimum that can be reached from the entry, and is no farther.
    */
  method GreedyDescend(layer: Layer, d: Distances, entry: nat) returns (current: nat, ghost path: seq<nat>)
    requires Closed(layer) && entry in layer
    ensures IsGreedyWalk(layer, d, path) && path != [] && path[0] == entry && path[|path| - 1] == current
    ensures current in layer && Reachable(layer, entry, current)
    ensures d(current) <= d(entry)
    ensures forall n :: n in layer[current] ==> d(n) >= d(current)
    ensures current == entry <==> forall n :: n in layer[entry] ==> d(n) >= d(entry)
    ensures current == Descended(layer, d, entry)
  {
    hide WalksTo, IsGreedyWalk, Reachable;
    current, path := entry, [entry];
    ReachesItself(layer, entry);
    WalkBegins(layer, d, entry);
    while true
      invariant current in layer && Reachable(layer, entry, current)
      invariant d(current) <= d(entry)
      invariant current == entry || exists n :: n in layer[entry] && d(n) < d(entry)
      invariant current == entry || d(current) < d(entry)
      invariant WalksTo(layer, d, path, current) && path != [] && path[0] == entry
      invariant Descended(layer, d, entry) == Descended(layer, d, current)
      decreases CloserThan(layer, d, d(current))
    {
      var neighbours := layer[current];
      if neighbours == [] {
        WalkEnds(layer, d, path, current);
        return;
      }
      var best := ArgMin(d, neighbours);
      assert IsArgMin(d, neighbours, best);
      if d(neighbours[best]) >= d(current) {
        WalkEnds(layer, d, path, current);
        return;
      }
      ReachesNeighbours(layer, entry, current);
      assert neighbours[best] in CloserThan(layer, d, d(current));
      assert neighbours[best] !in CloserThan(layer, d, d(neighbours[best]));
      HopsOn(layer, d, path, current, best);
      current, path := neighbours[best], path + [neighbours[best]];
    }
  }

  // ---------------------------------------------------------------- the closest of some nodes

  /** `few` are the k closest nodes of the pool, or all of them if it has no more than k. */
  ghost predicate AreClosest(d: Distances, pool: set<nat>, k: nat, few: set<nat>) {
    && few <= pool && |few| <= k
    && (|few| < k ==> few == pool)
    && forall r, n :: r in few && n in pool && n !in few ==> d(r) <= d(n)
  }

  lemma HowMany(d: Distances, pool: set<nat>, k: nat, few: set<nat>)
    requires AreClosest(d, pool, k, few)
    ensures |few| == if |pool| < k then |pool| else k
    ensures |pool| <= k ==> few == pool
  {
    assert |pool - few| == |pool| - |few|;
  }

  /** What becomes of the kept nodes when n joins them: the farthest leaves if they are too many. */
  ghost predicate Joins(d: Distances, few: set<nat>, k: nat, n: nat, later: set<nat>) {
    var more := few + {n};
    if |more| <= k then later == more
    else exists worst :: worst in more && later == more - {worst} && forall r: nat :: r in more ==> d(r) <= d(worst)
  }

  lemma ClosestGrow(d: Distances, pool: set<nat>, k: nat, few: set<nat>, n: nat, later: set<nat>)
    requires AreClosest(d, pool, k, few) && n !in pool && Joins(d, few, k, n, later)
    requires |few| < k || exists r :: r in few && d(n) < d(r)
    ensures AreClosest(d, pool + {n}, k, later)
  {
    var more := few + {n};
    if |few| == k {
      var worst :| worst in more && later == more - {worst} && forall r: nat :: r in more ==> d(r) <= d(worst);
      assert forall x :: x in pool && x !in few ==> d(n) <= d(x);
      forall r, x | r in later && x in pool + {n} && x !in later
        ensures d(r) <= d(x)
      {
        assert x == worst || x !in few;
      }
    }
  }

  lemma ClosestStay(d: Distances, pool: set<nat>, k: nat, few: set<nat>, n: nat)
    requires AreClosest(d, pool, k, few)
    requires |few| == k && forall r :: r in few ==> d(r) <= d(n)
    ensures AreClosest(d, pool + {n}, k, few)
  {
  }

  // ---------------------------------------------------------------- what a beam search keeps

  /**
    In the middle of a search: `seen` are the nodes looked at, `expanded` those whose
    neighbours have all been, `waiting` those that may yet be expanded.
    */
  ghost predicate Walked(layer: Layer, entry: nat, seen: set<nat>, expanded: set<nat>, waiting: set<nat>) {
    && entry in seen && seen <= layer.Keys
    && (forall n :: n in seen ==> Reachable(layer, entry, n))
    && expanded !! waiting && expanded <= seen && waiting <= seen
    && (forall n, m :: n in expanded && m in layer[n] ==> m in seen)
  }

  /** `results` are the `ef` closest allowed nodes so far; nothing closer than them was given up. */
  ghost predicate Beam(d: Distances, ef: nat, allowed: set<nat>, seen: set<nat>, queued: set<nat>, results: set<nat>) {
    && AreClosest(d, seen * allowed, ef, results)
    && results <= queued <= seen
    && (|results| < ef ==> seen == queued)
    && (forall r, n :: r in results && n in seen && n !in queued ==> d(r) <= d(n))
  }

  /**
    The finished search: the results are the ef closest of the allowed nodes it saw, all of
    them expanded, and as many as can be had.
    */
  ghost predicate Found(layer: Layer, d: Distances, entry: nat, ef: nat, allowed: set<nat>,
                        seen: set<nat>, expanded: set<nat>, results: set<nat>) {
    && results <= expanded <= seen <= Reach(layer, entry)
    && (forall n, m :: n in expanded && m in layer[n] ==> m in seen)
    && AreClosest(d, seen * allowed, ef, results)
    && |results| == (if |Reach(layer, entry) * allowed| < ef then |Reach(layer, entry) * allowed| else ef)
    && (|Reach(layer, entry) * allowed| <= ef ==> results == Reach(layer, entry) * allowed)
  }

  /** Nothing is waiting that is as close as a result: the search is over. */
  lemma BeamEnds(layer: Layer, d: Distances, entry: nat, ef: nat, allowed: set<nat>,
                 seen: set<nat>, expanded: set<nat>, waiting: set<nat>, results: set<nat>)
    requires Walked(layer, entry, seen, expanded, waiting)
    requires Beam(d, ef, allowed, seen, expanded + waiting, results)
    requires waiting == {} || |results| == ef
    requires forall r, n :: r in results && n in waiting ==> d(r) < d(n)
    ensures Found(layer, d, entry, ef, allowed, seen, expanded, results)
  {
    var within := Reach(layer, entry) * allowed;
    assert seen <= Reach(layer, entry);
    assert results <= expanded;
    if |results| < ef {
      assert seen == expanded;
      NothingLeavesClosedSet(layer, entry, seen);
      assert results == within;
    } else {
      assert |within - results| == |within| - |results|;
    }
  }

  lemma BeamStarts(layer: Layer, d: Distances, entry: nat, ef: nat, allowed: set<nat>)
    requires entry in layer && ef > 0
    ensures Walked(layer, entry, {entry}, {}, {entry})
    ensures Beam(d, ef, allowed, {entry}, {} + {entry}, if entry in allowed then {entry} else {})
  {
    ReachesItself(layer, entry);
  }

  /** All neighbours of c have been looked at. */
  lemma NodeExpanded(layer: Layer, entry: nat, seen: set<nat>, expanded: set<nat>, waiting: set<nat>, c: nat)
    requires Walked(layer, entry, seen, expanded, waiting)
    requires c in waiting && c in layer && Members(layer[c]) <= seen
    ensures Walked(layer, entry, seen, expanded + {c}, waiting - {c})
    ensures expanded + {c} + (waiting - {c}) == expanded + waiting
  {
  }

  /** Nodes the walk can go on to. */
  ghost predicate Onward(layer: Layer, entry: nat, nodes: seq<nat>) {
    forall n :: n in nodes ==> n in layer && Reachable(layer, entry, n)
  }

  /** One more node is looked at, with or without being queued. */
  lemma NodeSeen(layer: Layer, entry: nat, seen: set<nat>, expanded: set<nat>, waiting: set<nat>, n: nat,
                 nodes: seq<nat>)
    requires Walked(layer, entry, seen, expanded, waiting)
    requires n !in seen && n in nodes && Onward(layer, entry, nodes)
    ensures n in layer
    ensures Walked(layer, entry, seen + {n}, expanded, waiting)
    ensures Walked(layer, entry, seen + {n}, expanded, waiting + {n})
    ensures expanded + (waiting + {n}) == expanded + waiting + {n}
  {
  }

  lemma JoinFacts(d: Distances, few: set<nat>, k: nat, n: nat, later: set<nat>)
    requires Joins(d, few, k, n, later) && |few| <= k && n !in few
    ensures later <= few + {n} && |later| == if |few| < k then |few| + 1 else k
  {
  }

  /** The node is close enough. */
  lemma BeamAccepts(d: Distances, ef: nat, allowed: set<nat>, seen: set<nat>, queued: set<nat>, results: set<nat>,
                    n: nat, later: set<nat>)
    requires Beam(d, ef, allowed, seen, queued, results) && n !in seen
    requires |results| < ef || exists r :: r in results && d(n) < d(r)
    requires if n in allowed then Joins(d, results, ef, n, later) else later == results
    ensures Beam(d, ef, allowed, seen + {n}, queued + {n}, later)
  {
    if n in allowed {
      assert (seen + {n}) * allowed == seen * allowed + {n};
      ClosestGrow(d, seen * allowed, ef, results, n, later);
      JoinFacts(d, results, ef, n, later);
    } else {
      assert (seen + {n}) * allowed == seen * allowed;
    }
    hide AreClosest, Joins;
    forall r, x | r in later && x in seen + {n} && x !in queued + {n}
      ensures d(r) <= d(x)
    {
      if |results| == ef && r == n {
        var farther :| farther in results && d(n) < d(farther);
        assert d(farther) <= d(x);
      }
    }
  }

  /** It is not. */
  lemma BeamRejects(d: Distances, ef: nat, allowed: set<nat>, seen: set<nat>, queued: set<nat>, results: set<nat>,
                    n: nat)
    requires Beam(d, ef, allowed, seen, queued, results) && n !in seen
    requires |results| == ef && forall r :: r in results ==> d(r) <= d(n)
    ensures Beam(d, ef, allowed, seen + {n}, queued, results)
  {
    if n in allowed {
      assert (seen + {n}) * allowed == seen * allowed + {n};
      ClosestStay(d, seen * allowed, ef, results, n);
    } else {
      assert (seen + {n}) * allowed == seen * allowed;
    }
  }

  /** `[n for n in neighbours if n not in visited]`. */
  function Unseen(neighbours: seq<nat>, visited: set<nat>): (left: seq<nat>)
    ensures forall n :: n in left <==> n in neighbours && n !in visited
    ensures Distinct(neighbours) ==> Distinct(left)
  {
    if neighbours == [] then []
    else
      var last := neighbours[|neighbours| - 1];
      var rest := neighbours[..|neighbours| - 1];
      assert neighbours == rest + [last];
      if last in visited then Unseen(rest, visited) else Unseen(rest, visited) + [last]
  }

  // ---------------------------------------------------------------- what a search computes

  /** What waits to be expanded, and what is kept. */
  datatype Front = Front(candidates: set<nat>, results: set<nat>)

  ghost function Pushed(d: Distances, results: set<nat>, ef: nat, n: nat): set<nat> {
    var more := results + {n};
    if |more| <= ef then more else more - {FarthestOf(d, more)}
  }

  /** One unvisited neighbour: queued if it is close enough, and then kept if it is allowed. */
  ghost function Considered(d: Distances, ef: nat, allowed: set<nat>, q: Front, n: nat): Front {
    if |q.results| < ef || (q.results != {} && d(n) < d(FarthestOf(d, q.results)))
    then Front(q.candidates + {n}, if n in allowed then Pushed(d, q.results, ef, n) else q.results)
    else q
  }

  ghost function AllConsidered(d: Distances, ef: nat, allowed: set<nat>, q: Front, nodes: seq<nat>): Front {
    if nodes == [] then q
    else Considered(d, ef, allowed, AllConsidered(d, ef, allowed, q, nodes[..|nodes| - 1]), nodes[|nodes| - 1])
  }

  /** The rest of a search, from the middle of it. It expands no node twice, nor one the layer does not have. */
  ghost function SearchedOn(layer: Layer, d: Distances, ef: nat, allowed: set<nat>, filtered: bool, visited: set<nat>,
                            q: Front, expanded: set<nat>): set<nat>
    decreases layer.Keys - expanded
  {
    if q.candidates == {} then q.results
    else
      var c := ClosestOf(d, q.candidates);
      var far := (filtered ==> ef <= |q.results|) && q.results != {} && d(c) > d(FarthestOf(d, q.results));
      if far || c !in layer || c in expanded then q.results
      else
        var unseen := Unseen(layer[c], visited);
        var next := AllConsidered(d, ef, allowed, Front(q.candidates - {c}, q.results), unseen);
        assert c in layer.Keys - expanded;
        SearchedOn(layer, d, ef, allowed, filtered, visited + Members(unseen), next, expanded + {c})
  }

  lemma NextConsidered(d: Distances, ef: nat, allowed: set<nat>, q: Front, nodes: seq<nat>, j: nat)
    requires j < |nodes|
    ensures AllConsidered(d, ef, allowed, q, nodes[..j + 1]) ==
              Considered(d, ef, allowed, AllConsidered(d, ef, allowed, q, nodes[..j]), nodes[j])
  {
    assert nodes[..j + 1][..j] == nodes[..j];
  }

  lemma SearchGoesOn(layer: Layer, d: Distances, ef: nat, allowed: set<nat>, filtered: bool, visited: set<nat>,
                     q: Front, expanded: set<nat>, c: nat)
    requires q.candidates != {} && c == ClosestOf(d, q.candidates) && c in layer && c !in expanded
    requires !filtered ==> q.results != {}
    ensures var unseen := Unseen(layer[c], visited);
            var next := AllConsidered(d, ef, allowed, Front(q.candidates - {c}, q.results), unseen);
            SearchedOn(layer, d, ef, allowed, filtered, visited, q, expanded) ==
              if (filtered ==> ef <= |q.results|) && q.results != {} && d(c) > d(FarthestOf(d, q.results))
              then q.results
              else SearchedOn(layer, d, ef, allowed, filtered, visited + Members(unseen), next, expanded + {c})
  {
    hide AllConsidered;
  }

  lemma SearchEnds(layer: Layer, d: Distances, ef: nat, allowed: set<nat>, filtered: bool, visited: set<nat>,
                   q: Front, expanded: set<nat>)
    requires q.candidates == {}
    ensures SearchedOn(layer, d, ef, allowed, filtered, visited, q, expanded) == q.results
  {
  }

  // ---------------------------------------------------------------- the search, plain and filtered

  /** A search, plain or filtered. */
  datatype Quest = Quest(layer: Layer, d: Distances, entry: nat, ef: nat, allowed: set<nat>, filtered: bool)

  ghost predicate Sensible(q: Quest) {
    && Closed(q.layer) && NoRepeats(q.layer) && q.entry in q.layer
    && if q.filtered then q.ef > 0 else q.allowed == q.layer.Keys
  }

  /** `heappush(results, n)`, then `heappop` if there are more than ef. */
  method PushResult(d: Distances, results: set<nat>, ef: nat, n: nat) returns (later: set<nat>)
    ensures Joins(d, results, ef, n, later) && later == Pushed(d, results, ef, n)
  {
    later := results + {n};
    if |later| > ef {
      var worst := Farthest(d, later);
      later := later - {worst};
    }
  }

  /** The plain search keeps its entry whatever `ef` is, so zero does as one. */
  function AtLeastOne(ef: nat): nat {
    if ef == 0 then 1 else ef
  }

  lemma SomeResult(d: Distances, ef: nat, allowed: set<nat>, seen: set<nat>, queued: set<nat>, results: set<nat>,
                   all: set<nat>)
    requires Beam(d, AtLeastOne(ef), allowed, seen, queued, results)
    requires ef == 0 ==> allowed == all && seen <= all && seen != {}
    requires ef <= |results|
    ensures results != {} && |results| == AtLeastOne(ef)
  {
    if ef == 0 {
      assert seen * allowed == seen;
    }
  }

  lemma JoinsAtLeastOne(d: Distances, results: set<nat>, ef: nat, n: nat, later: set<nat>)
    requires Joins(d, results, ef, n, later) && n !in results && (ef == 0 ==> results != {})
    ensures Joins(d, results, AtLeastOne(ef), n, later)
  {
    if ef == 0 {
      var r :| r in results;
      assert {r, n} <= results + {n};
      assert |results + {n} - {r, n}| == |results + {n}| - 2;
    }
  }

  /** Is this node close enough to be queued, and kept if it is allowed? */
  method Consider(d: Distances, ef: nat, allowed: set<nat>, ghost seen: set<nat>, ghost queued: set<nat>,
                  ghost candidates: set<nat>, kept: set<nat>, n: nat, ghost all: set<nat>)
      returns (takes: bool, results: set<nat>)
    requires Beam(d, AtLeastOne(ef), allowed, seen, queued, kept) && n !in seen
    requires ef == 0 ==> allowed == all && seen <= all && seen != {}
    ensures Beam(d, AtLeastOne(ef), allowed, seen + {n}, if takes then queued + {n} else queued, results)
    ensures Considered(d, ef, allowed, Front(candidates, kept), n) ==
              Front(if takes then candidates + {n} else candidates, results)
  {
    hide Beam, Joins, AtLeastOne, Pushed, FarthestOf;
    takes, results := |kept| < ef, kept;
    AtLeast(ef);
    if !takes {
      SomeResult(d, ef, allowed, seen, queued, kept, all);
      var worst := Farthest(d, kept);
      takes := d(n) < d(worst);
    }
    if takes {
      if n in allowed {
        results := PushResult(d, kept, ef, n);
        NotYetKept(d, AtLeastOne(ef), allowed, seen, queued, kept, n);
        JoinsAtLeastOne(d, kept, ef, n, results);
      }
      BeamAccepts(d, AtLeastOne(ef), allowed, seen, queued, kept, n, results);
    } else {
      BeamRejects(d, AtLeastOne(ef), allowed, seen, queued, kept, n);
    }
  }

  lemma AtLeast(ef: nat)
    ensures ef <= AtLeastOne(ef) && AtLeastOne(ef) > 0
  {
  }

  lemma NotYetKept(d: Distances, ef: nat, allowed: set<nat>, seen: set<nat>, queued: set<nat>, results: set<nat>,
                   n: nat)
    requires Beam(d, ef, allowed, seen, queued, results) && n !in seen
    ensures n !in results
  {
  }

  /** A node taken from the queue: it and its neighbours are part of the walk. */
  lemma Popped(layer: Layer, entry: nat, seen: set<nat>, expanded: set<nat>, waiting: set<nat>, c: nat)
    requires Closed(layer) && Walked(layer, entry, seen, expanded, waiting) && c in waiting
    ensures c in layer && c in seen && c !in expanded && seen <= layer.Keys
    ensures Onward(layer, entry, layer[c])
    ensures waiting - {c} + {c} == waiting
  {
    ReachesNeighbours(layer, entry, c);
  }

  /** `seen` is `before` with the first j of the unseen nodes. */
  ghost predicate SeenUpTo(before: set<nat>, unseen: seq<nat>, j: nat, seen: set<nat>) {
    && Distinct(unseen) && (forall n :: n in unseen ==> n !in before)
    && j <= |unseen| && seen == before + Members(unseen[..j])
  }

  lemma NextUnseen(before: set<nat>, unseen: seq<nat>, j: nat, seen: set<nat>)
    requires SeenUpTo(before, unseen, j, seen) && j < |unseen|
    ensures unseen[j] !in seen && SeenUpTo(before, unseen, j + 1, seen + {unseen[j]})
  {
    assert unseen[..j + 1] == unseen[..j] + [unseen[j]];
  }

  lemma AllSeen(before: set<nat>, unseen: seq<nat>, seen: set<nat>)
    requires SeenUpTo(before, unseen, |unseen|, seen)
    ensures seen == before + Members(unseen)
  {
    assert unseen[..|unseen|] == unseen;
  }

  lemma NoneMissed(neighbours: seq<nat>, before: set<nat>)
    ensures Members(neighbours) <= before + Members(Unseen(neighbours, before))
  {
  }

  /** How the sets of a half-finished expansion of c lie in each other. */
  ghost predicate Queues(candidates: set<nat>, c: nat, open: set<nat>, expanded: set<nat>, queued: set<nat>,
                         seen: set<nat>, all: set<nat>) {
    && open == candidates + {c} && queued == expanded + open
    && c !in candidates && c in seen && candidates <= seen <= all
  }

  lemma QueuesGrow(candidates: set<nat>, c: nat, open: set<nat>, expanded: set<nat>, queued: set<nat>,
                   seen: set<nat>, all: set<nat>, n: nat)
    requires Queues(candidates, c, open, expanded, queued, seen, all) && n !in seen && n in all
    ensures seen != {} && seen <= all
    ensures Queues(candidates, c, open, expanded, queued, seen + {n}, all)
    ensures Queues(candidates + {n}, c, open + {n}, expanded, queued + {n}, seen + {n}, all)
  {
  }

  lemma QueuesEnd(candidates: set<nat>, c: nat, open: set<nat>, expanded: set<nat>, queued: set<nat>,
                  seen: set<nat>, all: set<nat>)
    requires Queues(candidates, c, open, expanded, queued, seen, all)
    ensures open - {c} == candidates && c in open && queued == expanded + {c} + candidates
  {
  }

  /** The sets of a half-finished expansion: nodes seen, nodes not expanded, nodes ever queued. */
  datatype Half = Half(seen: set<nat>, open: set<nat>, queued: set<nat>)

  /** Half-way through expanding c: the first j of its unseen neighbours have been looked at. */
  ghost predicate Looking(q: Quest, before: set<nat>, unseen: seq<nat>, j: nat, start: Front, now: Front, h: Half,
                          expanded: set<nat>, c: nat) {
    && SeenUpTo(before, unseen, j, h.seen)
    && Queues(now.candidates, c, h.open, expanded, h.queued, h.seen, q.layer.Keys)
    && Walked(q.layer, q.entry, h.seen, expanded, h.open)
    && Beam(q.d, AtLeastOne(q.ef), q.allowed, h.seen, h.queued, now.results)
    && now == AllConsidered(q.d, q.ef, q.allowed, start, unseen[..j])
  }

  /** One neighbour. */
  method LookAtOne(q: Quest, ghost before: set<nat>, unseen: seq<nat>, j: nat, ghost start: Front, now: Front,
                   ghost h: Half, ghost expanded: set<nat>, c: nat)
      returns (next: Front, ghost later: Half)
    requires Sensible(q) && j < |unseen| && Onward(q.layer, q.entry, unseen)
    requires Looking(q, before, unseen, j, start, now, h, expanded, c)
    ensures Looking(q, before, unseen, j + 1, start, next, later, expanded, c)
  {
    var n := unseen[j];
    hide AllConsidered, Considered, Beam, SeenUpTo, Queues, Walked, Onward;
    NextUnseen(before, unseen, j, h.seen);
    NodeSeen(q.layer, q.entry, h.seen, expanded, h.open, n, unseen);
    QueuesGrow(now.candidates, c, h.open, expanded, h.queued, h.seen, q.layer.Keys, n);
    NextConsidered(q.d, q.ef, q.allowed, start, unseen, j);
    hide Sensible;
    var takes, results := Consider(q.d, q.ef, q.allowed, h.seen, h.queued, now.candidates, now.results, n,
                                   q.layer.Keys);
    later := h.(seen := h.seen + {n});
    if takes {
      next, later := Front(now.candidates + {n}, results), Half(later.seen, h.open + {n}, h.queued + {n});
    } else {
      next := Front(now.candidates, results);
    }
  }

  lemma LookingStarts(q: Quest, before: set<nat>, unseen: seq<nat>, start: Front, expanded: set<nat>, c: nat)
    requires Sensible(q) && c !in start.candidates && c in q.layer && unseen == Unseen(q.layer[c], before)
    requires Walked(q.layer, q.entry, before, expanded, start.candidates + {c})
    requires Beam(q.d, AtLeastOne(q.ef), q.allowed, before, expanded + (start.candidates + {c}), start.results)
    ensures Onward(q.layer, q.entry, unseen)
    ensures Looking(q, before, unseen, 0, start, start,
                    Half(before, start.candidates + {c}, expanded + (start.candidates + {c})),
                    expanded, c)
  {
    var open := start.candidates + {c};
    Popped(q.layer, q.entry, before, expanded, open, c);
    assert start.candidates <= before by { assert open <= before; }
    assert Distinct(q.layer[c]);
    UnseenFacts(q.layer[c], before);
    hide Beam, Walked, Closed, NoRepeats, Reachable, Distinct, Unseen;
    assert unseen[..0] == [];
    assert AllConsidered(q.d, q.ef, q.allowed, start, []) == start;
    assert Queues(start.candidates, c, open, expanded, expanded + open, before, q.layer.Keys);
  }

  lemma UnseenFacts(neighbours: seq<nat>, before: set<nat>)
    requires Distinct(neighbours)
    ensures SeenUpTo(before, Unseen(neighbours, before), 0, before)
  {
    assert before + Members([]) == before;
    var unseen := Unseen(neighbours, before);
    assert unseen[..0] == [];
  }

  lemma LookingEnds(q: Quest, before: set<nat>, unseen: seq<nat>, start: Front, now: Front, h: Half, expanded: set<nat>,
                    c: nat)
    requires c in q.layer && unseen == Unseen(q.layer[c], before)
    requires Looking(q, before, unseen, |unseen|, start, now, h, expanded, c)
    ensures Walked(q.layer, q.entry, before + Members(unseen), expanded + {c}, now.candidates)
    ensures Beam(q.d, AtLeastOne(q.ef), q.allowed, before + Members(unseen), expanded + {c} + now.candidates,
                 now.results)
    ensures now == AllConsidered(q.d, q.ef, q.allowed, start, unseen)
  {
    hide Walked, Beam, AllConsidered;
    AllSeen(before, unseen, h.seen);
    assert unseen[..|unseen|] == unseen;
    NoneMissed(q.layer[c], before);
    QueuesEnd(now.candidates, c, h.open, expanded, h.queued, h.seen, q.layer.Keys);
    NodeExpanded(q.layer, q.entry, h.seen, expanded, h.open, c);
  }

  /**
    The body of both searches' loops: look at the neighbours of c not visited yet, queue those
    that are close enough, and keep those that are allowed.
    */
  method LookAround(q: Quest, before: set<nat>, start: Front, ghost expanded: set<nat>, c: nat)
      returns (visited: set<nat>, front: Front)
    requires Sensible(q) && c !in start.candidates && c in q.layer
    requires Walked(q.layer, q.entry, before, expanded, start.candidates + {c})
    requires Beam(q.d, AtLeastOne(q.ef), q.allowed, before, expanded + (start.candidates + {c}), start.results)
    ensures Walked(q.layer, q.entry, visited, expanded + {c}, front.candidates)
    ensures Beam(q.d, AtLeastOne(q.ef), q.allowed, visited, expanded + {c} + front.candidates, front.results)
    ensures visited == before + Members(Unseen(q.layer[c], before))
    ensures front == AllConsidered(q.d, q.ef, q.allowed, start, Unseen(q.layer[c], before))
  {
    hide *;
    var unseen := Unseen(q.layer[c], before);
    visited, front := before + Members(unseen), start;
    ghost var h := Half(before, start.candidates + {c}, expanded + (start.candidates + {c}));
    LookingStarts(q, before, unseen, start, expanded, c);
    for j := 0 to |unseen|
      invariant Looking(q, before, unseen, j, start, front, h, expanded, c)
    {
      front, h := LookAtOne(q, before, unseen, j, start, front, h, expanded, c);
    }
    LookingEnds(q, before, unseen, start, front, h, expanded, c);
  }

  lemma NothingCloserWaits(d: Distances, waiting: set<nat>, c: nat, results: set<nat>, worst: nat)
    requires IsClosest(d, waiting, c) && IsFarthest(d, results, worst)
    requires d(c) > d(worst)
    ensures forall r, n :: r in results && n in waiting ==> d(r) < d(n)
  {
    forall r, n | r in results && n in waiting
      ensures d(r) < d(n)
    {
      assert Before(d, c, n) && FartherFirst(d, worst, r);
    }
  }

  /** A plain search never stops early with room to spare: everything seen is then a result. */
  lemma StopsWhenFull(d: Distances, ef: nat, all: set<nat>, seen: set<nat>, queued: set<nat>, results: set<nat>,
                      c: nat)
    requires Beam(d, ef, all, seen, queued, results) && seen <= all && c in seen
    requires forall r :: r in results ==> d(r) < d(c)
    ensures |results| == ef
  {
    assert c in seen * all && c !in results;
  }

  /** A neighbour of a result, if it is allowed, is a result too, or no closer than any of them. */
  ghost predicate LocallyBest(layer: Layer, d: Distances, allowed: set<nat>, results: set<nat>) {
    forall r, n :: r in results && r in layer && n in layer[r] && n in allowed && n !in results ==>
      forall kept :: kept in results ==> d(kept) <= d(n)
  }

  /** What a finished search has found, whatever it saw on the way. */
  lemma LocallyOptimal(layer: Layer, d: Distances, entry: nat, ef: nat, allowed: set<nat>,
                       seen: set<nat>, expanded: set<nat>, results: set<nat>)
    requires Found(layer, d, entry, ef, allowed, seen, expanded, results)
    ensures results <= Reach(layer, entry) * allowed && |results| == Least(ef, |Reach(layer, entry) * allowed|)
    ensures LocallyBest(layer, d, allowed, results)
  {
    forall r, n | r in results && r in layer && n in layer[r] && n in allowed && n !in results
      ensures forall kept :: kept in results ==> d(kept) <= d(n)
    {
      assert n in seen;
    }
  }

  lemma NeverEmpty(d: Distances, ef: nat, allowed: set<nat>, seen: set<nat>, queued: set<nat>, results: set<nat>)
    requires Beam(d, ef, allowed, seen, queued, results) && ef > 0 && seen != {} && seen <= allowed
    ensures results != {}
  {
    assert seen * allowed == seen;
  }

  ghost function FirstFront(q: Quest): Front {
    Front({q.entry}, {q.entry} * q.allowed)
  }

  /** What the search will have found. */
  ghost function Answer(q: Quest): set<nat> {
    SearchedOn(q.layer, q.d, q.ef, q.allowed, q.filtered, {q.entry}, FirstFront(q), {})
  }

  /** Where a search is, in the middle of it. */
  ghost predicate Underway(q: Quest, visited: set<nat>, front: Front, expanded: set<nat>) {
    && Walked(q.layer, q.entry, visited, expanded, front.candidates)
    && Beam(q.d, AtLeastOne(q.ef), q.allowed, visited, expanded + front.candidates, front.results)
    && SearchedOn(q.layer, q.d, q.ef, q.allowed, q.filtered, visited, front, expanded) == Answer(q)
  }

  /** The next candidate c is too far to be worth it. */
  ghost predicate TooFar(q: Quest, results: set<nat>, c: nat) {
    (q.filtered ==> q.ef <= |results|) && results != {} && q.d(c) > q.d(FarthestOf(q.d, results))
  }

  lemma SetsOut(q: Quest)
    requires Sensible(q)
    ensures Underway(q, {q.entry}, FirstFront(q), {})
  {
    BeamStarts(q.layer, q.d, q.entry, AtLeastOne(q.ef), q.allowed);
    hide Walked, Beam, SearchedOn;
    assert {} + {q.entry} == {q.entry};
    assert {q.entry} * q.allowed == if q.entry in q.allowed then {q.entry} else {};
  }

  lemma SomethingKept(q: Quest, visited: set<nat>, front: Front, expanded: set<nat>)
    requires Sensible(q) && Underway(q, visited, front, expanded)
    ensures !q.filtered ==> front.results != {}
    ensures q.filtered ==> |front.results| <= q.ef
  {
    hide SearchedOn;
    if !q.filtered {
      NeverEmpty(q.d, AtLeastOne(q.ef), q.allowed, visited, expanded + front.candidates, front.results);
    }
  }

  /** The rest of the loops' bodies: expand c. */
  method Expand(q: Quest, visited: set<nat>, front: Front, ghost expanded: set<nat>, c: nat)
      returns (seen: set<nat>, next: Front)
    requires Sensible(q) && Underway(q, visited, front, expanded)
    requires front.candidates != {} && c == ClosestOf(q.d, front.candidates) && !TooFar(q, front.results, c)
    ensures Underway(q, seen, next, expanded + {c})
    ensures c in q.layer.Keys - expanded
  {
    SomethingKept(q, visited, front, expanded);
    assert c in front.candidates && front.candidates - {c} + {c} == front.candidates;
    Popped(q.layer, q.entry, visited, expanded, front.candidates, c);
    hide Walked, Beam, SearchedOn, AllConsidered, ClosestOf, Onward, Closed, NoRepeats;
    SearchGoesOn(q.layer, q.d, q.ef, q.allowed, q.filtered, visited, front, expanded, c);
    seen, next := LookAround(q, visited, Front(front.candidates - {c}, front.results), expanded, c);
  }

  /** The loops' ends: nothing is waiting, or nothing that is close enough. */
  lemma Arrives(q: Quest, visited: set<nat>, front: Front, expanded: set<nat>)
    requires Sensible(q) && Underway(q, visited, front, expanded)
    requires front.candidates != {} ==> TooFar(q, front.results, ClosestOf(q.d, front.candidates))
    ensures Found(q.layer, q.d, q.entry, AtLeastOne(q.ef), q.allowed, visited, expanded, front.results)
    ensures front.results == Answer(q)
  {
    var candidates, results := front.candidates, front.results;
    SomethingKept(q, visited, front, expanded);
    if candidates == {} {
      SearchEnds(q.layer, q.d, q.ef, q.allowed, q.filtered, visited, front, expanded);
    } else {
      var c := ClosestOf(q.d, candidates);
      Popped(q.layer, q.entry, visited, expanded, candidates, c);
      SearchGoesOn(q.layer, q.d, q.ef, q.allowed, q.filtered, visited, front, expanded, c);
      NothingCloserWaits(q.d, candidates, c, results, FarthestOf(q.d, results));
      if !q.filtered {
        StopsWhenFull(q.d, AtLeastOne(q.ef), q.allowed, visited, expanded + candidates, results, c);
      }
    }
    hide Walked, Beam, SearchedOn, ClosestOf, FarthestOf, Found;
    BeamEnds(q.layer, q.d, q.entry, AtLeastOne(q.ef), q.allowed, visited, expanded, candidates, results);
  }

  /**
    `_search_layer_with_distances`: on any graph it ends with the ef closest of the nodes it
    saw, every one of them expanded; min(ef, nodes reachable from the entry) of them.
    */
  method SearchLayer(layer: Layer, d: Distances, entry: nat, ef: nat)
      returns (results: set<nat>, ghost seen: set<nat>, ghost expanded: set<nat>)
    requires Closed(layer) && NoRepeats(layer) && entry in layer
    ensures Found(layer, d, entry, AtLeastOne(ef), layer.Keys, seen, expanded, results)
    ensures results != {}
    ensures results <= Reach(layer, entry) && |results| == Least(AtLeastOne(ef), |Reach(layer, entry)|)
    ensures LocallyBest(layer, d, layer.Keys, results)
    ensures results == Answer(Quest(layer, d, entry, ef, layer.Keys, false))
  {
    ghost var q := Quest(layer, d, entry, ef, layer.Keys, false);
    var visited, front := {entry}, Front({entry}, {entry});
    expanded := {};
    assert front == FirstFront(q);
    SetsOut(q);
    hide Underway, Found, SearchedOn, Closed, NoRepeats;
    while front.candidates != {}
      invariant Underway(q, visited, front, expanded)
      decreases layer.Keys - expanded
    {
      var c := Closest(d, front.candidates);
      SomethingKept(q, visited, front, expanded);
      var worst := Farthest(d, front.results);
      if d(c) > d(worst) {
        break;
      }
      visited, front := Expand(Quest(layer, d, entry, ef, layer.Keys, false), visited, front, expanded, c);
      expanded := expanded + {c};
    }
    results, seen := front.results, visited;
    Arrives(q, visited, front, expanded);
    SomethingKept(q, visited, front, expanded);
    LocallyOptimal(layer, d, entry, AtLeastOne(ef), layer.Keys, seen, expanded, results);
    assert Reach(layer, entry) * layer.Keys == Reach(layer, entry);
  }

  /**
    `_search_layer_filtered`: the same among the allowed nodes, min(ef, allowed nodes reachable
    from the entry) of them, though the walk goes through the others too.
    */
  method SearchLayerFiltered(layer: Layer, d: Distances, entry: nat, ef: nat, allowed: set<nat>)
      returns (results: set<nat>, ghost seen: set<nat>, ghost expanded: set<nat>)
    requires Closed(layer) && NoRepeats(layer) && entry in layer && ef > 0
    ensures Found(layer, d, entry, ef, allowed, seen, expanded, results)
    ensures results <= Reach(layer, entry) * allowed && |results| == Least(ef, |Reach(layer, entry) * allowed|)
    ensures LocallyBest(layer, d, allowed, results)
    ensures results == Answer(Quest(layer, d, entry, ef, allowed, true))
  {
    ghost var q := Quest(layer, d, entry, ef, allowed, true);
    var visited, front := {entry}, Front({entry}, if entry in allowed then {entry} else {});
    expanded := {};
    assert front == FirstFront(q);
    SetsOut(q);
    assert AtLeastOne(ef) == ef;
    hide Underway, Found, SearchedOn, Closed, NoRepeats, AtLeastOne, Answer, LocallyBest, Reach, FarthestOf, ClosestOf,
         IsClosest, IsFarthest;
    while front.candidates != {}
      invariant Underway(q, visited, front, expanded)
      decreases layer.Keys - expanded
    {
      var c := Closest(d, front.candidates);
      if |front.results| >= ef {
        assert front.results != {};
        var worst := Farthest(d, front.results);
        if d(c) > d(worst) {
          break;
        }
      }
      visited, front := Expand(Quest(layer, d, entry, ef, allowed, true), visited, front, expanded, c);
      expanded := expanded + {c};
    }
    results, seen := front.results, visited;
    Arrives(q, visited, front, expanded);
    LocallyOptimal(layer, d, entry, ef, allowed, seen, expanded, results);
  }
}

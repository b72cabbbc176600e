/** One layer of an HNSW graph: every node with the list of its neighbours. */
module Graphs {
  type Layer = map<nat, seq<nat>>

  predicate Distinct(s: seq<nat>) {
    forall a, b :: 0 <= a < b < |s| ==> s[a] != s[b]
  }

  function Members(s: seq<nat>): (members: set<nat>)
    ensures forall n: nat :: n in members <==> n in s
  {
    set n | n in s
  }

  /** Links stay within the layer. */
  predicate Closed(layer: Layer) {
    forall n, m :: n in layer && m in layer[n] ==> m in layer
  }

  predicate NoRepeats(layer: Layer) {
    forall n :: n in layer ==> Distinct(layer[n])
  }

  predicate NoLoops(layer: Layer) {
    forall n :: n in layer ==> n !in layer[n]
  }

  /** A walk along the links. */
  predicate IsWalk(layer: Layer, walk: seq<nat>) {
    && |walk| > 0
    && (forall i :: 0 <= i < |walk| ==> walk[i] in layer)
    && forall i :: 0 < i < |walk| ==> walk[i] in layer[walk[i - 1]]
  }

  ghost predicate Reachable(layer: Layer, from: nat, to: nat) {
    exists walk :: IsWalk(layer, walk) && walk[0] == from && walk[|walk| - 1] == to
  }

  ghost function Reach(layer: Layer, from: nat): set<nat> {
    set n | n in layer && Reachable(layer, from, n)
  }

  lemma ReachesItself(layer: Layer, n: nat)
    requires n in layer
    ensures Reachable(layer, n, n)
  {
    assert IsWalk(layer, [n]);
  }

  lemma ReachesNeighbours(layer: Layer, from: nat, n: nat)
    requires Closed(layer) && n in layer && Reachable(layer, from, n)
    ensures forall m :: m in layer[n] ==> Reachable(layer, from, m)
  {
    var walk :| IsWalk(layer, walk) && walk[0] == from && walk[|walk| - 1] == n;
    forall m | m in layer[n]
      ensures Reachable(layer, from, m)
    {
      assert IsWalk(layer, walk + [m]);
    }
  }

  /** A set of nodes that no link leaves holds all that can be reached from within it. */
  lemma NothingLeavesClosedSet(layer: Layer, from: nat, nodes: set<nat>)
    requires from in nodes && nodes <= layer.Keys
    requires forall n, m :: n in nodes && m in layer[n] ==> m in nodes
    ensures Reach(layer, from) <= nodes
  {
    forall n | n in Reach(layer, from)
      ensures n in nodes
    {
      var walk :| IsWalk(layer, walk) && walk[0] == from && walk[|walk| - 1] == n;
      WalkStays(layer, walk, nodes);
    }
  }

  lemma {:induction false} WalkStays(layer: Layer, walk: seq<nat>, nodes: set<nat>)
    requires IsWalk(layer, walk) && walk[0] in nodes && nodes <= layer.Keys
    requires forall n, m :: n in nodes && m in layer[n] ==> m in nodes
    ensures walk[|walk| - 1] in nodes
    decreases |walk|
  {
    if |walk| > 1 {
      assert IsWalk(layer, walk[..|walk| - 1]);
      WalkStays(layer, walk[..|walk| - 1], nodes);
    }
  }
}

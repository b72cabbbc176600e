/** `_select_neighbors`: which candidates a node links to. */
module Neighbours {
  import opened Bytes
  import opened Graphs

  // ---------------------------------------------------------------- stable order

  predicate IsBefore(dists: seq<real>, a: nat, b: nat)
    requires a < |dists| && b < |dists|
  {
    dists[a] < dists[b] || (dists[a] == dists[b] && a < b)
  }

  /** The order `argsort(kind="stable")` puts positions in. */
  predicate InOrder(dists: seq<real>, order: seq<nat>) {
    && (forall i :: 0 <= i < |order| ==> order[i] < |dists|)
    && forall i, j :: 0 <= i < j < |order| ==> IsBefore(dists, order[i], order[j])
  }

  lemma AppendInOrder(dists: seq<real>, order: seq<nat>, p: nat)
    requires InOrder(dists, order) && p < |dists|
    requires forall q :: q in order ==> IsBefore(dists, q, p)
    ensures InOrder(dists, order + [p])
  {
    assert forall i :: 0 <= i < |order| ==> order[i] in order;
  }

  /** Put position p, larger than all those in it, into an ordered list. */
  function Placed(dists: seq<real>, order: seq<nat>, p: nat): (later: seq<nat>)
    requires p < |dists| && InOrder(dists, order) && forall q :: q in order ==> q < p
    ensures InOrder(dists, later) && |later| == |order| + 1
    ensures forall q :: q in later <==> q in order || q == p
  {
    if order == [] then [p]
    else
      var last, front := order[|order| - 1], order[..|order| - 1];
      assert order == front + [last];
      assert forall q :: q in front ==> q in order && IsBefore(dists, q, last);
      if dists[last] <= dists[p] then
        AppendInOrder(dists, order, p);
        order + [p]
      else
        var more := Placed(dists, front, p);
        AppendInOrder(dists, more, last);
        more + [last]
  }

  /** `argsort(dists, kind="stable")`, of the first n positions. */
  function ArgSort(dists: seq<real>, n: nat): (order: seq<nat>)
    requires n <= |dists|
    ensures InOrder(dists, order) && |order| == n
    ensures forall p: nat :: p in order <==> p < n
  {
    if n == 0 then [] else Placed(dists, ArgSort(dists, n - 1), n - 1)
  }

  // ---------------------------------------------------------------- what is chosen

  type Between = (nat, nat) -> real

  function Pick<T>(items: seq<T>, places: seq<nat>): (picked: seq<T>)
    requires forall i :: 0 <= i < |places| ==> places[i] < |items|
    ensures |picked| == |places| && forall i :: 0 <= i < |picked| ==> picked[i] == items[places[i]]
  {
    seq(|places|, i requires 0 <= i < |places| => items[places[i]])
  }

  /** How far down the list the choice looked. */
  function Looked(count: nat, m: nat, picks: seq<nat>): nat {
    if picks != [] && |picks| == m then picks[m - 1] + 1 else count
  }

  /** Candidate p is closer to the base than to every candidate picked before it. */
  ghost predicate SetsApart(ids: seq<nat>, near: seq<real>, between: Between, picks: seq<nat>, p: nat)
    requires |ids| == |near| && p < |ids| && forall q :: q in picks ==> q < |ids|
  {
    forall q :: q in picks && q < p ==> near[p] < between(ids[q], ids[p])
  }

  /**
    From nearest to farthest, and until m are picked, a candidate is picked exactly if it is
    closer to the base than to every one picked before.
    */
  ghost predicate Diverse(ids: seq<nat>, near: seq<real>, between: Between, m: nat, picks: seq<nat>)
    requires |ids| == |near|
  {
    && |picks| <= m
    && (forall i :: 0 <= i < |picks| ==> picks[i] < |ids|)
    && (forall i, j :: 0 <= i < j < |picks| ==> picks[i] < picks[j])
    && forall p: nat :: p < Looked(|ids|, m, picks) && p < |ids| ==>
         (p in picks <==> SetsApart(ids, near, between, picks, p))
  }

  /** So there is only one possible choice, and it is not empty if there is anything to choose from. */
  lemma DiverseIsUnique(ids: seq<nat>, near: seq<real>, between: Between, m: nat, a: seq<nat>, b: seq<nat>)
    requires |ids| == |near| && m > 0
    requires Diverse(ids, near, between, m, a) && Diverse(ids, near, between, m, b)
    ensures a == b
    ensures ids != [] ==> a != [] && a[0] == 0
  {
    var n := SamePicks(ids, near, between, m, a, b, |ids|);
    assert a == a[..n] && b == b[..n];
    if ids != [] {
      assert SetsApart(ids, near, between, a, 0);
      assert 0 in a;
    }
  }

  /** Below position p, two choices have the same picks: the first n of each. */
  lemma {:induction false} SamePicks(ids: seq<nat>, near: seq<real>, between: Between, m: nat,
                                     a: seq<nat>, b: seq<nat>, p: nat)
      returns (n: nat)
    requires |ids| == |near| && m > 0 && p <= |ids|
    requires Diverse(ids, near, between, m, a) && Diverse(ids, near, between, m, b)
    ensures n <= |a| && n <= |b| && a[..n] == b[..n]
    ensures forall i :: 0 <= i < n ==> a[i] < p
    ensures forall i :: n <= i < |a| ==> p <= a[i]
    ensures forall i :: n <= i < |b| ==> p <= b[i]
    ensures n < |a| ==> p <= a[n] < |ids|
    ensures n < |b| ==> p <= b[n] < |ids|
  {
    if p == 0 {
      return 0;
    }
    n := SamePicks(ids, near, between, m, a, b, p - 1);
    if n < m {
      NextPick(ids, near, between, m, a, n, p - 1);
      NextPick(ids, near, between, m, b, n, p - 1);
      if n < |a| && a[n] == p - 1 {
        n := n + 1;
      }
    }
  }

  /** When n < m are picked below p, p is picked next exactly if it sets itself apart from those. */
  lemma NextPick(ids: seq<nat>, near: seq<real>, between: Between, m: nat, a: seq<nat>, n: nat, p: nat)
    requires |ids| == |near| && Diverse(ids, near, between, m, a) && p < |ids|
    requires n < m && n <= |a|
    requires forall i :: 0 <= i < n ==> a[i] < p
    requires forall i :: n <= i < |a| ==> p <= a[i]
    ensures forall i :: 0 <= i < n ==> a[..n][i] < |ids|
    ensures n < |a| && a[n] == p <==> SetsApart(ids, near, between, a[..n], p)
  {
    assert p < Looked(|ids|, m, a);
    assert SetsApart(ids, near, between, a, p) <==> SetsApart(ids, near, between, a[..n], p);
    assert p in a <==> n < |a| && a[n] == p;
  }

  // ---------------------------------------------------------------- the choice

  /** `nearest_kept[p]`: the distance from candidate p to the closest one picked, if any is. */
  ghost predicate IsNearest(near: Option<real>, ids: seq<nat>, between: Between, picks: seq<nat>, p: nat)
    requires p < |ids| && forall q :: q in picks ==> q < |ids|
  {
    && (near.None? <==> picks == [])
    && (near.Some? ==> forall q :: q in picks ==> near.value <= between(ids[q], ids[p]))
    && (near.Some? ==> exists q :: q in picks && near.value == between(ids[q], ids[p]))
  }

  lemma NearerNow(near: Option<real>, ids: seq<nat>, between: Between, picks: seq<nat>, p: nat, q: nat)
    requires p < |ids| && q < |ids| && forall r :: r in picks ==> r < |ids|
    requires IsNearest(near, ids, between, picks, p)
    ensures IsNearest(Nearer(near, between(ids[q], ids[p])), ids, between, picks + [q], p)
  {
    assert q in picks + [q];
    if near.Some? && near.value <= between(ids[q], ids[p]) {
      var r :| r in picks && near.value == between(ids[r], ids[p]);
      assert r in picks + [q];
    }
  }

  function Nearer(near: Option<real>, distance: real): Option<real> {
    if near.Some? && near.value <= distance then near else Some(distance)
  }

  /** The picks so far, when the positions below i have been looked at. */
  ghost predicate PickedSoFar(ids: seq<nat>, near: seq<real>, between: Between, picks: seq<nat>, i: nat)
    requires |ids| == |near|
  {
    && (forall k :: 0 <= k < |picks| ==> picks[k] < |ids| && picks[k] < i)
    && (forall k, l :: 0 <= k < l < |picks| ==> picks[k] < picks[l])
    && forall p: nat :: p < i && p < |ids| ==> (p in picks <==> SetsApart(ids, near, between, picks, p))
  }

  lemma LookAtNext(ids: seq<nat>, near: seq<real>, between: Between, picks: seq<nat>, i: nat, nearest: Option<real>)
    requires |ids| == |near| && PickedSoFar(ids, near, between, picks, i) && i < |ids|
    requires IsNearest(nearest, ids, between, picks, i)
    ensures nearest.None? || near[i] < nearest.value ==> PickedSoFar(ids, near, between, picks + [i], i + 1)
    ensures !(nearest.None? || near[i] < nearest.value) ==> PickedSoFar(ids, near, between, picks, i + 1)
  {
    var takes := nearest.None? || near[i] < nearest.value;
    assert takes <==> SetsApart(ids, near, between, picks, i);
    assert forall q :: q in picks ==> q < i;
    if takes {
      forall p: nat | p < i + 1
        ensures p in picks + [i] <==> SetsApart(ids, near, between, picks + [i], p)
      {
        assert SetsApart(ids, near, between, picks + [i], p) <==> SetsApart(ids, near, between, picks, p);
      }
    }
  }

  /** `nearest_kept`, for all candidates. */
  ghost predicate AllNearest(nearest: seq<Option<real>>, ids: seq<nat>, between: Between, picks: seq<nat>)
    requires forall q :: q in picks ==> q < |ids|
  {
    |nearest| == |ids| && forall p :: 0 <= p < |ids| ==> IsNearest(nearest[p], ids, between, picks, p)
  }

  /** The heuristic: nearest first, each one kept if it is closer to the base than to all kept before. */
  method SelectDiverse(ids: seq<nat>, near: seq<real>, between: Between, m: nat) returns (picks: seq<nat>)
    requires |ids| == |near| && m > 0
    ensures Diverse(ids, near, between, m, picks)
  {
    hide SetsApart, IsNearest;
    picks := [];
    var nearestKept: seq<Option<real>> := seq(|ids|, _ => None);
    NothingPicked(ids, near, between, nearestKept);
    for i := 0 to |ids|
      invariant |picks| < m && PickedSoFar(ids, near, between, picks, i)
      invariant AllNearest(nearestKept, ids, between, picks)
    {
      LookAtNext(ids, near, between, picks, i, nearestKept[i]);
      if nearestKept[i].None? || near[i] < nearestKept[i].value {
        picks := picks + [i];
        if |picks| == m {
          return;
        }
        nearestKept := Minimum(nearestKept, ids, between, picks[..|picks| - 1], i);
        assert picks[..|picks| - 1] + [i] == picks;
      }
    }
  }

  lemma NothingPicked(ids: seq<nat>, near: seq<real>, between: Between, nearest: seq<Option<real>>)
    requires |ids| == |near| && nearest == seq(|ids|, _ => None)
    ensures PickedSoFar(ids, near, between, [], 0) && AllNearest(nearest, ids, between, [])
  {
  }

  /** `np.minimum(nearest_kept, between[i], out=nearest_kept)`. */
  method Minimum(nearest: seq<Option<real>>, ids: seq<nat>, between: Between, ghost picks: seq<nat>, i: nat)
      returns (later: seq<Option<real>>)
    requires i < |ids| && (forall q :: q in picks ==> q < |ids|) && AllNearest(nearest, ids, between, picks)
    ensures AllNearest(later, ids, between, picks + [i])
  {
    later := seq(|ids|, p requires 0 <= p < |ids| => Nearer(nearest[p], between(ids[i], ids[p])));
    forall p | 0 <= p < |ids|
      ensures IsNearest(later[p], ids, between, picks + [i], p)
    {
      NearerNow(nearest[p], ids, between, picks, p, i);
    }
  }

  datatype Selection = Heuristic | ClosestFirst

  lemma PickDistinct(items: seq<nat>, places: seq<nat>)
    requires Distinct(items) && (forall i :: 0 <= i < |places| ==> places[i] < |items|)
    requires Distinct(places)
    ensures Distinct(Pick(items, places)) && forall n :: n in Pick(items, places) ==> n in items
  {
  }

  /**
    `_select_neighbors`: at most m of the candidates, in stable order of distance; the m
    nearest, or, if the heuristic has to choose, a diverse few of them.
    */
  method SelectNeighbours(candidates: seq<nat>, dists: seq<real>, between: Between, m: nat, how: Selection)
      returns (kept: seq<nat>)
    requires |candidates| == |dists| && m > 0 && Distinct(candidates)
    ensures |kept| <= m && Distinct(kept) && forall n :: n in kept ==> n in candidates
    ensures candidates != [] ==> kept != []
    ensures IsSelection(candidates, dists, between, m, how, kept)
  {
    hide Diverse, ArgSort, InOrder;
    var order := ArgSort(dists, |dists|);
    InOrderFacts(dists, order);
    var ids := Pick(candidates, order);
    PickDistinct(candidates, order);
    if |candidates| <= m || how.ClosestFirst? {
      kept := if |ids| <= m then ids else ids[..m];
      return;
    }
    var near := Pick(dists, order);
    var picks := SelectDiverse(ids, near, between, m);
    DiverseIsUnique(ids, near, between, m, picks, picks);
    DiverseFacts(ids, near, between, m, picks);
    PickDistinct(ids, picks);
    kept := Pick(ids, picks);
  }

  lemma InOrderFacts(dists: seq<real>, order: seq<nat>)
    requires InOrder(dists, order)
    ensures Distinct(order) && forall i :: 0 <= i < |order| ==> order[i] < |dists|
  {
  }

  lemma DiverseFacts(ids: seq<nat>, near: seq<real>, between: Between, m: nat, picks: seq<nat>)
    requires |ids| == |near| && Diverse(ids, near, between, m, picks)
    ensures Distinct(picks) && |picks| <= m && forall i :: 0 <= i < |picks| ==> picks[i] < |ids|
  {
  }

  lemma LookedPast(ids: seq<nat>, near: seq<real>, between: Between, m: nat, picks: seq<nat>, at: nat)
    requires |ids| == |near| && Diverse(ids, near, between, m, picks) && Looked(|ids|, m, picks) <= at < |ids|
    ensures |picks| == m && forall i :: 0 <= i < |picks| ==> picks[i] < at
  {
  }

  /** What is selected: the first m in stable order, or the one diverse choice there is. */
  ghost predicate IsSelection(candidates: seq<nat>, dists: seq<real>, between: Between, m: nat, how: Selection,
                              kept: seq<nat>)
    requires |candidates| == |dists|
  {
    var order := ArgSort(dists, |dists|);
    var ids, near := Pick(candidates, order), Pick(dists, order);
    if |candidates| <= m || how.ClosestFirst? then
      kept == if |ids| <= m then ids else ids[..m]
    else
      exists picks :: Diverse(ids, near, between, m, picks) && kept == Pick(ids, picks)
  }

  /** The selection there is, if any. */
  ghost function Selected(candidates: seq<nat>, dists: seq<real>, between: Between, m: nat, how: Selection): seq<nat>
    requires |candidates| == |dists|
  {
    if exists kept :: IsSelection(candidates, dists, between, m, how, kept)
    then var kept :| IsSelection(candidates, dists, between, m, how, kept); kept
    else []
  }

  lemma SelectionIsUnique(candidates: seq<nat>, dists: seq<real>, between: Between, m: nat, how: Selection,
                          kept: seq<nat>)
    requires |candidates| == |dists| && m > 0 && IsSelection(candidates, dists, between, m, how, kept)
    ensures kept == Selected(candidates, dists, between, m, how)
  {
    var other := Selected(candidates, dists, between, m, how);
    assert IsSelection(candidates, dists, between, m, how, other);
    var order := ArgSort(dists, |dists|);
    var ids, near := Pick(candidates, order), Pick(dists, order);
    hide Diverse;
    if !(|candidates| <= m || how.ClosestFirst?) {
      var a :| Diverse(ids, near, between, m, a) && kept == Pick(ids, a);
      var b :| Diverse(ids, near, between, m, b) && other == Pick(ids, b);
      DiverseIsUnique(ids, near, between, m, a, b);
    }
  }

  lemma FirstOnes(candidates: seq<nat>, dists: seq<real>, between: Between, m: nat, how: Selection, kept: seq<nat>)
    requires |candidates| == |dists| && m > 0 && Distinct(candidates) && (|candidates| <= m || how.ClosestFirst?)
    requires IsSelection(candidates, dists, between, m, how, kept)
    ensures |kept| == (if |candidates| <= m then |candidates| else m) && Distinct(kept)
    ensures var order := ArgSort(dists, |dists|);
            forall a :: 0 <= a < |kept| ==> kept[a] in kept && kept[a] == candidates[order[a]]
  {
    hide ArgSort;
    InOrderFacts(dists, ArgSort(dists, |dists|));
    PickDistinct(candidates, ArgSort(dists, |dists|));
  }

  lemma OnePlace(items: seq<nat>, i: nat, j: nat)
    requires Distinct(items) && i < |items| && j < |items| && items[i] == items[j]
    ensures i == j
  {
  }

  lemma PlacedBefore(dists: seq<real>, order: seq<nat>, i: nat, j: nat)
    requires InOrder(dists, order) && i < j < |order|
    ensures order[i] < |dists| && order[j] < |dists|
    ensures var p, q := order[i], order[j]; dists[p] < dists[q] || (dists[p] == dists[q] && p < q)
  {
    assert IsBefore(dists, order[i], order[j]);
  }

  /** If it is not for the heuristic to choose: the m nearest, of equally near ones those that come first. */
  lemma ClosestAreKept(candidates: seq<nat>, dists: seq<real>, between: Between, m: nat, how: Selection, kept: seq<nat>)
    requires |candidates| == |dists| && m > 0 && Distinct(candidates) && (|candidates| <= m || how.ClosestFirst?)
    requires IsSelection(candidates, dists, between, m, how, kept)
    ensures |kept| == (if |candidates| <= m then |candidates| else m) && Distinct(kept)
    ensures forall p, q :: 0 <= p < |dists| && 0 <= q < |dists| && candidates[p] in kept && candidates[q] !in kept ==>
              dists[p] < dists[q] || (dists[p] == dists[q] && p < q)
  {
    hide ArgSort, InOrder, Distinct, IsBefore, IsSelection;
    var order := ArgSort(dists, |dists|);
    InOrderFacts(dists, order);
    PickDistinct(candidates, order);
    FirstOnes(candidates, dists, between, m, how, kept);
    forall p, q | 0 <= p < |dists| && 0 <= q < |dists| && candidates[p] in kept && candidates[q] !in kept
      ensures dists[p] < dists[q] || (dists[p] == dists[q] && p < q)
    {
      assert p in order && q in order;
      var i :| 0 <= i < |kept| && kept[i] == candidates[p];
      var j :| 0 <= j < |order| && order[j] == q;
      OnePlace(candidates, order[i], p);
      assert j >= |kept|;
      PlacedBefore(dists, order, i, j);
    }
  }

  /** A picked candidate is closer to the base than to each one picked before it. */
  lemma KeptIsApart(ids: seq<nat>, near: seq<real>, between: Between, m: nat, picks: seq<nat>, a: nat, b: nat)
    requires |ids| == |near| && Diverse(ids, near, between, m, picks) && a < b < |picks|
    ensures near[picks[b]] < between(ids[picks[a]], ids[picks[b]])
  {
    assert picks[b] in picks && SetsApart(ids, near, between, picks, picks[b]);
    assert picks[a] in picks;
  }

  /** If there was room to the end, one not picked is as close to some picked one as to the base. */
  lemma RejectedIsCovered(ids: seq<nat>, near: seq<real>, between: Between, m: nat, picks: seq<nat>, p: nat)
      returns (i: nat)
    requires |ids| == |near| && Diverse(ids, near, between, m, picks) && p < Looked(|ids|, m, picks)
    requires p < |ids| && p !in picks
    ensures i < |picks| && picks[i] < p && between(ids[picks[i]], ids[p]) <= near[p]
  {
    assert !SetsApart(ids, near, between, picks, p);
    var q :| q in picks && q < p && near[p] >= between(ids[q], ids[p]);
    i :| i < |picks| && picks[i] == q;
  }

  /**
    The heuristic's choice, read off the candidates: each one kept is strictly closer to the
    base than to every one kept before it; each one not kept is at least as close to some kept
    one as to the base, or else m were kept, none of them farther from the base than it is.
    */
  lemma SelectionIsDiverse(candidates: seq<nat>, dists: seq<real>, between: Between, m: nat, kept: seq<nat>)
    requires |candidates| == |dists| > m > 0 && Distinct(candidates)
    requires IsSelection(candidates, dists, between, m, Heuristic, kept)
    ensures forall a: nat, b: nat :: a < b < |kept| ==> KeptApart(candidates, dists, between, kept[a], kept[b])
    ensures forall p :: 0 <= p < |dists| && candidates[p] !in kept ==>
              || Covered(between, kept, candidates[p], dists[p])
              || (|kept| == m && NoneFarther(candidates, dists, kept, dists[p]))
  {
    var order := ArgSort(dists, |dists|);
    var ids, near := Pick(candidates, order), Pick(dists, order);
    var picks :| Diverse(ids, near, between, m, picks) && kept == Pick(ids, picks);
    assert forall p: nat :: p in order <==> p < |dists|;
    hide ArgSort, Diverse, InOrder;
    DiverseFacts(ids, near, between, m, picks);
    forall a: nat, b: nat | a < b < |kept|
      ensures KeptApart(candidates, dists, between, kept[a], kept[b])
    {
      KeptIsApart(ids, near, between, m, picks, a, b);
      var p := order[picks[b]];
      assert candidates[p] == kept[b] && dists[p] == near[picks[b]];
    }
    forall p: nat | p < |dists| && candidates[p] !in kept
      ensures || Covered(between, kept, candidates[p], dists[p])
              || (|kept| == m && NoneFarther(candidates, dists, kept, dists[p]))
    {
      assert p in order;
      var at :| 0 <= at < |order| && order[at] == p;
      PickedIsKept(ids, picks, at);
      if at < Looked(|ids|, m, picks) {
        var i := RejectedIsCovered(ids, near, between, m, picks, at);
        assert kept[i] in kept;
      } else {
        LookedPast(ids, near, between, m, picks, at);
        PicksAreNearer(candidates, dists, order, picks, at);
      }
    }
  }

  ghost predicate Covered(between: Between, kept: seq<nat>, candidate: nat, dist: real) {
    exists k :: k in kept && between(k, candidate) <= dist
  }

  ghost predicate NoneFarther(candidates: seq<nat>, dists: seq<real>, kept: seq<nat>, dist: real)
    requires |candidates| == |dists|
  {
    forall q :: 0 <= q < |dists| && candidates[q] in kept ==> dists[q] <= dist
  }

  lemma PicksAreNearer(candidates: seq<nat>, dists: seq<real>, order: seq<nat>, picks: seq<nat>, at: nat)
    requires |candidates| == |dists| && Distinct(candidates) && InOrder(dists, order) && |order| == |dists|
    requires (forall i :: 0 <= i < |picks| ==> picks[i] < |order|) && at < |order|
    requires forall i :: 0 <= i < |picks| ==> picks[i] < at
    ensures NoneFarther(candidates, dists, Pick(Pick(candidates, order), picks), dists[order[at]])
  {
    var kept := Pick(Pick(candidates, order), picks);
    forall q | 0 <= q < |dists| && candidates[q] in kept
      ensures dists[q] <= dists[order[at]]
    {
      var i :| 0 <= i < |kept| && kept[i] == candidates[q];
      assert q == order[picks[i]];
      assert IsBefore(dists, order[picks[i]], order[at]);
    }
  }

  lemma PickedIsKept(ids: seq<nat>, picks: seq<nat>, at: nat)
    requires (forall i :: 0 <= i < |picks| ==> picks[i] < |ids|) && at < |ids|
    ensures at in picks ==> ids[at] in Pick(ids, picks)
  {
    if at in picks {
      var i :| 0 <= i < |picks| && picks[i] == at;
      assert Pick(ids, picks)[i] == ids[at];
    }
  }

  /** `later` is closer to the base than to `earlier`. */
  ghost predicate KeptApart(candidates: seq<nat>, dists: seq<real>, between: Between, earlier: nat, later: nat)
    requires |candidates| == |dists|
  {
    exists p :: 0 <= p < |dists| && candidates[p] == later && dists[p] < between(earlier, later)
  }
}

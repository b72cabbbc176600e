/** Merging the shards' answers. */
module Merging {
  import opened Bytes

  // The best of each shard's best are the best of all.

  /** One result; results are compared by distance, then by global id. */
  datatype Hit = Hit(dist: real, id: int)

  predicate Closer(a: Hit, b: Hit) {
    a.dist < b.dist || (a.dist == b.dist && a.id < b.id)
  }

  function Elements(hits: seq<Hit>): (all: set<Hit>)
    ensures forall h :: h in all <==> h in hits
  {
    set h | h in hits
  }

  ghost predicate Ordered(hits: seq<Hit>) {
    forall i, j :: 0 <= i < j < |hits| ==> Closer(hits[i], hits[j])
  }

  /** The k closest of a pool of hits, closest first; all of them if there are no more than k. */
  ghost predicate IsTop(pool: set<Hit>, k: nat, top: seq<Hit>) {
    && Ordered(top) && Elements(top) <= pool && |top| == Least(k, |pool|)
    && forall a, h :: a in top && h in pool && h !in top ==> Closer(a, h)
  }

  /** The same, but with no say in which of several equally distant hits are left out. */
  ghost predicate IsNearest(pool: set<Hit>, k: nat, top: seq<Hit>) {
    && Ordered(top) && Elements(top) <= pool && |top| == Least(k, |pool|)
    && forall a, h :: a in top && h in pool && h !in top ==> a.dist <= h.dist
  }

  // ---------------------------------------------------------------- sorting

  function Insert(hits: seq<Hit>, h: Hit): seq<Hit> {
    if hits == [] then [h]
    else if Closer(h, hits[|hits| - 1]) then Insert(hits[..|hits| - 1], h) + [hits[|hits| - 1]]
    else hits + [h]
  }

  function Sorted(hits: seq<Hit>): seq<Hit> {
    if hits == [] then [] else Insert(Sorted(hits[..|hits| - 1]), hits[|hits| - 1])
  }

  function Flatten(lists: seq<seq<Hit>>): seq<Hit> {
    if lists == [] then [] else Flatten(lists[..|lists| - 1]) + lists[|lists| - 1]
  }

  /** `merge_top_k_scored`: `nsmallest(k, chain.from_iterable(per_shard))`. */
  function MergeTopK(perShard: seq<seq<Hit>>, k: nat): seq<Hit> {
    var all := Sorted(Flatten(perShard));
    if |all| <= k then all else all[..k]
  }

  lemma {:induction false} InsertKeepsOrder(hits: seq<Hit>, h: Hit)
    requires Ordered(hits) && h !in hits
    ensures Ordered(Insert(hits, h)) && |Insert(hits, h)| == |hits| + 1
    ensures forall x :: x in Insert(hits, h) <==> x in hits || x == h
  {
    if hits != [] {
      var front, last := hits[..|hits| - 1], hits[|hits| - 1];
      assert hits == front + [last];
      if Closer(h, last) {
        InsertKeepsOrder(front, h);
        var more := Insert(front, h);
        forall i | 0 <= i < |more|
          ensures Closer(more[i], last)
        {
          assert more[i] in more;
          assert more[i] == h || more[i] in front;
        }
      } else {
        forall i | 0 <= i < |hits|
          ensures Closer(hits[i], h)
        {
          assert hits[i] in hits && last in hits;
        }
      }
    }
  }

  ghost predicate NoDuplicates(hits: seq<Hit>) {
    forall i, j :: 0 <= i < j < |hits| ==> hits[i] != hits[j]
  }

  lemma {:induction false} SortedIsOrdered(hits: seq<Hit>)
    requires NoDuplicates(hits)
    ensures Ordered(Sorted(hits)) && |Sorted(hits)| == |hits|
    ensures forall h :: h in Sorted(hits) <==> h in hits
  {
    if hits != [] {
      var front, last := hits[..|hits| - 1], hits[|hits| - 1];
      assert hits == front + [last];
      SortedIsOrdered(front);
      assert last !in front;
      InsertKeepsOrder(Sorted(front), last);
    }
  }

  lemma {:induction false} CountElements(hits: seq<Hit>)
    requires NoDuplicates(hits)
    ensures |Elements(hits)| == |hits|
  {
    if hits != [] {
      var front, last := hits[..|hits| - 1], hits[|hits| - 1];
      assert hits == front + [last];
      CountElements(front);
      assert Elements(hits) == Elements(front) + {last} && last !in front;
    }
  }

  /** Whatever the shards answered, merging gives the k closest of their hits. */
  lemma MergeIsTopOfAnswers(perShard: seq<seq<Hit>>, k: nat)
    requires NoDuplicates(Flatten(perShard))
    ensures IsTop(Elements(Flatten(perShard)), k, MergeTopK(perShard, k))
  {
    var hits := Flatten(perShard);
    SortedIsOrdered(hits);
    CountElements(hits);
    var all, top := Sorted(hits), MergeTopK(perShard, k);
    assert forall h :: h in top ==> h in all;
    forall a, h | a in top && h in hits && h !in top
      ensures Closer(a, h)
    {
      assert h in all && all == top + all[|top|..];
      var i :| 0 <= i < |top| && top[i] == a;
      var j :| 0 <= j < |all[|top|..]| && all[|top|..][j] == h;
      assert all[i] == a && all[|top| + j] == h;
    }
  }

  // ---------------------------------------------------------------- the theorem

  ghost predicate Apart(pools: seq<set<Hit>>) {
    forall i, j :: 0 <= i < j < |pools| ==> pools[i] !! pools[j]
  }

  ghost function Union(pools: seq<set<Hit>>): set<Hit> {
    set i, h | 0 <= i < |pools| && h in pools[i] :: h
  }

  ghost predicate AllTop(pools: seq<set<Hit>>, k: nat, tops: seq<seq<Hit>>) {
    |tops| == |pools| && forall i :: 0 <= i < |pools| ==> IsTop(pools[i], k, tops[i])
  }

  ghost predicate AllNearest(pools: seq<set<Hit>>, k: nat, tops: seq<seq<Hit>>) {
    |tops| == |pools| && forall i :: 0 <= i < |pools| ==> IsNearest(pools[i], k, tops[i])
  }

  lemma {:induction false} FlattenMembers(lists: seq<seq<Hit>>, h: Hit)
    ensures h in Flatten(lists) <==> exists i :: 0 <= i < |lists| && h in lists[i]
  {
    if lists != [] {
      var front := lists[..|lists| - 1];
      FlattenMembers(front, h);
      assert lists == front + [lists[|lists| - 1]];
    }
  }

  lemma {:induction false} NothingTwice(pools: seq<set<Hit>>, k: nat, tops: seq<seq<Hit>>)
    requires AllNearest(pools, k, tops) && Apart(pools)
    ensures NoDuplicates(Flatten(tops))
  {
    if tops != [] {
      var front, last := tops[..|tops| - 1], tops[|tops| - 1];
      NothingTwice(pools[..|pools| - 1], k, front);
      forall h | h in Flatten(front)
        ensures h !in last
      {
        FlattenMembers(front, h);
        var i :| 0 <= i < |front| && h in front[i];
        assert h in Elements(tops[i]) && IsNearest(pools[i], k, tops[i]);
        assert pools[i] !! pools[|pools| - 1];
        assert IsNearest(pools[|pools| - 1], k, last);
        assert h in last ==> h in Elements(last);
      }
      assert IsNearest(pools[|pools| - 1], k, last);
      AppendNoDuplicates(Flatten(front), last);
    }
  }

  lemma AppendNoDuplicates(a: seq<Hit>, b: seq<Hit>)
    requires NoDuplicates(a) && NoDuplicates(b) && forall h :: h in a ==> h !in b
    ensures NoDuplicates(a + b)
  {
    forall i, j | 0 <= i < j < |a + b|
      ensures (a + b)[i] != (a + b)[j]
    {
      if i < |a| <= j {
        assert a[i] in a && b[j - |a|] in b;
      }
    }
  }

  lemma Offered(pools: seq<set<Hit>>, k: nat, tops: seq<seq<Hit>>)
    requires AllNearest(pools, k, tops)
    ensures Elements(Flatten(tops)) <= Union(pools)
    ensures Least(k, |Elements(Flatten(tops))|) == Least(k, |Union(pools)|)
  {
    var offered, all := Elements(Flatten(tops)), Union(pools);
    forall h | h in offered
      ensures h in all
    {
      FlattenMembers(tops, h);
      var i :| 0 <= i < |tops| && h in tops[i];
      assert IsNearest(pools[i], k, tops[i]) && h in Elements(tops[i]);
    }
    SubsetCount(offered, all);
    if h :| h in all && h !in offered {
      var i :| 0 <= i < |pools| && h in pools[i];
      assert IsNearest(pools[i], k, tops[i]);
      FlattenMembers(tops, h);
      CountElements(tops[i]);
      SubsetCount(Elements(tops[i]) + {h}, pools[i]);
      forall l | l in Elements(tops[i])
        ensures l in offered
      {
        FlattenMembers(tops, l);
      }
      SubsetCount(Elements(tops[i]), offered);
    } else {
      assert offered == all;
    }
  }

  lemma SubsetCount(a: set<Hit>, b: set<Hit>)
    requires a <= b
    ensures |a| <= |b|
  {
    assert |b - a| == |b| - |a|;
  }

  /** A shard that left a hit out offers k others; a hit all of those are closer than is crowded out. */
  lemma CrowdedOut(pools: seq<set<Hit>>, k: nat, tops: seq<seq<Hit>>, best: seq<Hit>, i: nat, h: Hit, a: Hit)
    requires AllNearest(pools, k, tops) && i < |pools| && h in pools[i] && h !in tops[i]
    requires IsTop(Elements(Flatten(tops)), k, best)
    requires forall l :: l in tops[i] ==> Closer(l, a)
    ensures a !in best
  {
    var own := Elements(tops[i]);
    assert IsNearest(pools[i], k, tops[i]);
    CountElements(tops[i]);
    CountElements(best);
    SubsetCount(own + {h}, pools[i]);
    if a in best {
      forall l | l in own
        ensures l in Elements(best) && l != a
      {
        assert l in tops[i];
        FlattenMembers(tops, l);
      }
      SubsetCount(own + {a}, Elements(best));
    }
  }

  /** A hit left out of the merged answer is, for each one in it, no closer. */
  lemma LeftOut(pools: seq<set<Hit>>, k: nat, tops: seq<seq<Hit>>, best: seq<Hit>, i: nat, a: Hit, h: Hit)
    requires AllNearest(pools, k, tops) && i < |pools| && h in pools[i]
    requires IsTop(Elements(Flatten(tops)), k, best) && a in best && h !in best
    ensures a.dist <= h.dist
    ensures IsTop(pools[i], k, tops[i]) ==> Closer(a, h)
  {
    assert IsNearest(pools[i], k, tops[i]);
    if h in tops[i] {
      FlattenMembers(tops, h);
    } else if a.dist > h.dist || (IsTop(pools[i], k, tops[i]) && !Closer(a, h)) {
      CrowdedOut(pools, k, tops, best, i, h, a);
    }
  }

  lemma TopsAreNearest(pools: seq<set<Hit>>, k: nat, tops: seq<seq<Hit>>)
    requires AllTop(pools, k, tops)
    ensures AllNearest(pools, k, tops)
  {
    forall i | 0 <= i < |pools|
      ensures IsNearest(pools[i], k, tops[i])
    {
      assert IsTop(pools[i], k, tops[i]);
    }
  }

  /**
    However the vectors are spread over the shards: if each answers with its own k closest,
    choosing freely among equally distant ones, merging gives the k closest of them all up to
    that choice.
    */
  lemma MergeIsGloballyNearest(pools: seq<set<Hit>>, k: nat, tops: seq<seq<Hit>>)
    requires AllNearest(pools, k, tops) && Apart(pools)
    ensures IsNearest(Union(pools), k, MergeTopK(tops, k))
  {
    NothingTwice(pools, k, tops);
    MergeIsTopOfAnswers(tops, k);
    Offered(pools, k, tops);
    var best := MergeTopK(tops, k);
    hide MergeTopK, AllNearest, Apart, Flatten;
    forall a, h | a in best && h in Union(pools) && h !in best
      ensures a.dist <= h.dist
    {
      var i :| 0 <= i < |pools| && h in pools[i];
      LeftOut(pools, k, tops, best, i, a, h);
    }
  }

  lemma {:induction false} InsertAddsOne(hits: seq<Hit>, h: Hit, x: Hit)
    requires x in Insert(hits, h)
    ensures x in hits || x == h
  {
    if hits != [] && Closer(h, hits[|hits| - 1]) && x != hits[|hits| - 1] {
      InsertAddsOne(hits[..|hits| - 1], h, x);
    }
  }

  lemma {:induction false} SortedAddsNothing(hits: seq<Hit>, x: Hit)
    requires x in Sorted(hits)
    ensures x in hits
  {
    if hits != [] {
      var front, last := hits[..|hits| - 1], hits[|hits| - 1];
      InsertAddsOne(Sorted(front), last, x);
      if x != last {
        SortedAddsNothing(front, x);
      }
    }
  }

  /** What is merged is some shard's answer. */
  lemma MergeAddsNothing(perShard: seq<seq<Hit>>, k: nat, h: Hit)
    requires h in MergeTopK(perShard, k)
    ensures exists i :: 0 <= i < |perShard| && h in perShard[i]
  {
    SortedAddsNothing(Flatten(perShard), h);
    FlattenMembers(perShard, h);
  }

  /** ... and if they choose the smaller id first, exactly the k closest of them all. */
  lemma MergeIsGlobalTop(pools: seq<set<Hit>>, k: nat, tops: seq<seq<Hit>>)
    requires AllTop(pools, k, tops) && Apart(pools)
    ensures IsTop(Union(pools), k, MergeTopK(tops, k))
  {
    TopsAreNearest(pools, k, tops);
    MergeIsGloballyNearest(pools, k, tops);
    NothingTwice(pools, k, tops);
    MergeIsTopOfAnswers(tops, k);
    var best := MergeTopK(tops, k);
    assert forall i :: 0 <= i < |pools| ==> IsTop(pools[i], k, tops[i]);
    hide MergeTopK, AllNearest, AllTop, Apart, Flatten;
    forall a, h | a in best && h in Union(pools) && h !in best
      ensures Closer(a, h)
    {
      var i :| 0 <= i < |pools| && h in pools[i];
      LeftOut(pools, k, tops, best, i, a, h);
    }
  }
}

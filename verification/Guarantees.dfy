/** What every run of the cluster guarantees about histories and ids. */
module Guarantees {
  import opened Bytes
  import opened LogFormat
  import opened Histories
  import opened ReplicaGroups
  import opened Clusters

  predicate IsReplica(c: Cluster, k: nat, i: nat) {
    k < |c.groups| && i < |c.groups[k].replicas|
  }

  function HistoryOf(c: Cluster, k: nat, i: nat): History
    requires IsReplica(c, k, i)
  {
    c.groups[k].replicas[i].history
  }

  /** The write with this sequence number. */
  function Write(h: History, number: nat): Batch
    requires 1 <= number <= |h|
  {
    h[number - 1]
  }

  lemma OwnCopy(c: Cluster, k: nat, i: nat)
    requires IsReplica(c, k, i)
    ensures Somewhere(c.groups[k], HistoryOf(c, k, i))
  {
    assert HistoryOf(c, k, i) in CopiesOf(c.groups[k].replicas[i]);
  }

  /**
    In every run, of any two replicas of a shard one holds the beginning of what the other
    holds. So a sequence number names the same write on every replica that has it.
    */
  lemma HistoriesAgree(start: Cluster, actions: seq<Action>, k: nat, i: nat, j: nat)
    requires Initial(start) && IsRun(start, actions)
    requires IsReplica(Final(start, actions), k, i) && IsReplica(Final(start, actions), k, j)
    ensures var c := Final(start, actions);
            var a, b := HistoryOf(c, k, i), HistoryOf(c, k, j);
            && Comparable(a, b)
            && forall number :: 1 <= number <= |a| && number <= |b| ==> Write(a, number) == Write(b, number)
  {
    InitiallySafe(start);
    RunSafe(start, actions);
    var c := Final(start, actions);
    OwnCopy(c, k, i);
    OwnCopy(c, k, j);
    assert Comparable(HistoryOf(c, k, i), HistoryOf(c, k, j));
  }

  // ---------------------------------------------------------------- ids

  lemma {:induction false} IdsListed(h: History, x: int)
    requires x in GlobalIds(h)
    ensures HasId(h, x)
  {
    var front, last := h[..|h| - 1], h[|h| - 1];
    if x in last.ids {
      assert x in h[|h| - 1].ids;
    } else {
      IdsListed(front, x);
      var j :| 0 <= j < |front| && x in front[j].ids;
      assert x in h[j].ids;
    }
  }

  lemma {:induction false} IdsIncrease(h: History)
    requires Increasing(h)
    ensures IncreasingIds(GlobalIds(h))
  {
    if h != [] {
      var front, last := h[..|h| - 1], h[|h| - 1];
      PrefixFacts(front, h);
      IdsIncrease(front);
      var ids := GlobalIds(front);
      forall a, b | 0 <= a < |ids| && 0 <= b < |last.ids|
        ensures ids[a] < last.ids[b]
      {
        IdsListed(front, ids[a]);
        var j :| 0 <= j < |front| && ids[a] in front[j].ids;
        assert ids[a] in h[j].ids && last.ids[b] in h[|h| - 1].ids;
      }
    }
  }

  lemma {:induction false} IdsPrefix(a: History, b: History)
    requires a <= b
    ensures GlobalIds(a) <= GlobalIds(b)
  {
    if a != b {
      IdsPrefix(a, b[..|b| - 1]);
    }
  }

  /**
    In every run of successive coordinators, with writes that failed or reached only some
    replicas: the ids a replica stores strictly increase with local id, and the same id
    found on two replicas is at the same place of the same shard.
    */
  lemma IdsAreUnique(start: Cluster, actions: seq<Action>, k: nat, i: nat, l: nat, j: nat, p: nat, q: nat)
    requires Initial(start) && IsRun(start, actions)
    requires IsReplica(Final(start, actions), k, i) && IsReplica(Final(start, actions), l, j)
    requires p < |GlobalIds(HistoryOf(Final(start, actions), k, i))|
    requires q < |GlobalIds(HistoryOf(Final(start, actions), l, j))|
    ensures var c := Final(start, actions);
            var a, b := GlobalIds(HistoryOf(c, k, i)), GlobalIds(HistoryOf(c, l, j));
            && IncreasingIds(a)
            && (a[p] == b[q] ==> k == l && p == q)
  {
    InitiallySafe(start);
    RunSafe(start, actions);
    var c := Final(start, actions);
    var g, h := HistoryOf(c, k, i), HistoryOf(c, l, j);
    OwnCopy(c, k, i);
    OwnCopy(c, l, j);
    IdsIncrease(g);
    IdsIncrease(h);
    IdsListed(g, GlobalIds(g)[p]);
    IdsListed(h, GlobalIds(h)[q]);
    if GlobalIds(g)[p] == GlobalIds(h)[q] {
      assert OwnsId(c.groups[k], c.todo[k], GlobalIds(g)[p]);
      assert OwnsId(c.groups[l], c.todo[l], GlobalIds(h)[q]);
      assert k == l;
      assert Comparable(g, h);
      if g <= h { IdsPrefix(g, h); } else { IdsPrefix(h, g); }
    }
  }

  // ---------------------------------------------------------------- the coordinator's own checks

  /** `add` never finds that the replicas which acknowledged one chunk report different sizes. */
  lemma SizesNeverDiverge(start: Cluster, actions: seq<Action>, k: nat, i: nat, j: nat)
    requires Initial(start) && IsRun(start, actions)
    requires var c := Final(start, actions);
             k < |c.groups| && c.groups[k].view.Writing? && i in c.groups[k].view.acks && j in c.groups[k].view.acks
    ensures var acks := Final(start, actions).groups[k].view.acks;
            |GlobalIds(acks[i].history)| == |GlobalIds(acks[j].history)|
  {
    InitiallySafe(start);
    RunSafe(start, actions);
    AckedAlike(Final(start, actions).groups[k], i, j);
  }
}

/** What a shard is held to: the fold of `apply` over its writes. */
module Histories {
  import opened Bytes
  import opened LogFormat

  // Write number n (counting from 1) is entry n-1 of the history.

  type History = seq<Batch>

  const SEQ_LIMIT := 0x1_0000_0000_0000_0000

  /** One is the beginning of the other. */
  predicate Comparable(a: History, b: History) {
    a <= b || b <= a
  }

  function Fold<S>(empty: S, apply: (S, Batch) -> S, h: History): S {
    if h == [] then empty else apply(Fold(empty, apply, h[..|h| - 1]), h[|h| - 1])
  }

  /** How many vectors some writes hold together. */
  function Weight(h: History): nat {
    if h == [] then 0 else Weight(h[..|h| - 1]) + |h[|h| - 1].ids|
  }

  /** The log records of the writes after number `from`. */
  function Tail(h: History, from: nat): (records: seq<Record>)
    requires from <= |h| < SEQ_LIMIT
    ensures |records| == |h| - from
    ensures forall i :: 0 <= i < |records| ==> records[i] == Record(from + i + 1, h[from + i])
  {
    seq(|h| - from, i requires 0 <= i < |h| - from => Record(from + i + 1, h[from + i]))
  }

  /** The records numbered after `seqNo`. */
  function Newer(records: seq<Record>, seqNo: nat): (newer: seq<Record>)
    ensures |newer| <= |records|
  {
    if records == [] then []
    else (if records[0].seqNo > seqNo then [records[0]] else []) + Newer(records[1..], seqNo)
  }

  lemma {:induction false} NewerConcat(a: seq<Record>, b: seq<Record>, n: nat)
    ensures Newer(a + b, n) == Newer(a, n) + Newer(b, n)
  {
    if a == [] {
      assert a + b == b;
    } else {
      assert (a + b)[1..] == a[1..] + b;
      NewerConcat(a[1..], b, n);
    }
  }

  lemma {:induction false} NewerNewer(records: seq<Record>, n: nat, m: nat)
    requires n <= m
    ensures Newer(Newer(records, n), m) == Newer(records, m)
  {
    if records != [] {
      NewerNewer(records[1..], n, m);
      var first := if records[0].seqNo > n then [records[0]] else [];
      NewerConcat(first, Newer(records[1..], n), m);
    }
  }

  lemma {:induction false} NewerOfTail(h: History, from: nat, n: nat)
    requires from <= n <= |h| < SEQ_LIMIT
    ensures Newer(Tail(h, from), n) == Tail(h, n)
    decreases |h| - from
  {
    if from < |h| {
      assert Tail(h, from)[1..] == Tail(h, from + 1);
      if from < n {
        NewerOfTail(h, from + 1, n);
      } else {
        AllNewer(Tail(h, from), n);
      }
    }
  }

  lemma {:induction false} AllNewer(records: seq<Record>, n: nat)
    requires forall i :: 0 <= i < |records| ==> records[i].seqNo > n
    ensures Newer(records, n) == records
  {
    if records != [] {
      AllNewer(records[1..], n);
    }
  }

  lemma {:induction false} NoneNewer(records: seq<Record>, n: nat, k: nat)
    requires k <= |records| && Newer(records, n) == []
    ensures Newer(records[..k], n) == []
  {
    if k > 0 {
      NoneNewer(records[1..], n, k - 1);
      assert records[..k][1..] == records[1..][..k - 1];
    }
  }

  lemma TailExtends(h: History, from: nat, b: Batch)
    requires from <= |h| < SEQ_LIMIT - 1
    ensures Tail(h + [b], from) == Tail(h, from) + [Record(|h| + 1, b)]
  {
  }

  lemma FoldExtends<S>(empty: S, apply: (S, Batch) -> S, h: History, b: Batch)
    ensures Fold(empty, apply, h + [b]) == apply(Fold(empty, apply, h), b)
  {
    assert (h + [b])[..|h|] == h;
  }

  lemma WeightExtends(h: History, from: nat, b: Batch)
    requires from <= |h|
    ensures Weight((h + [b])[from..]) == Weight(h[from..]) + |b.ids|
  {
    assert (h + [b])[from..] == h[from..] + [b];
    assert (h[from..] + [b])[..|h| - from] == h[from..];
  }
}

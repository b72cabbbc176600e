/** `_scatter_gather`. */
module Failovers {
  import opened Graphs
  import opened Merging

  // One answer from every shard a search needs, failing over between its replicas.

  /** What comes of one Search call. Unavailable stands for the retryable errors, Refused for the others. */
  datatype Reply = Hits(hits: seq<Hit>) | Unavailable | Refused

  /** Replica i of shard s replies like this, in the course of one search. */
  type Replies = (nat, nat) -> Reply

  datatype Gathered = Scored(hits: seq<Hit>, missing: seq<nat>) | Raised

  // ---------------------------------------------------------------- the order to try replicas in

  /** `replicas[start:] + replicas[:start]`. */
  function Rotated(n: nat, start: nat): (order: seq<nat>)
    requires start < n
    ensures |order| == n && forall i :: 0 <= i < n ==> order[i] == if start + i < n then start + i else start + i - n
  {
    seq(n, i => if start + i < n then start + i else start + i - n)
  }

  function NextTurn(start: nat, n: nat): (next: nat)
    requires start < n
    ensures next < n
  {
    (start + 1) % n
  }

  function Those(order: seq<nat>, down: seq<int>, now: int, up: bool): (some: seq<nat>)
    requires forall r :: r in order ==> r < |down|
    ensures forall r :: r in some <==> r in order && (down[r] <= now) == up
    ensures Distinct(order) ==> Distinct(some)
  {
    if order == [] then []
    else
      var last, front := order[|order| - 1], order[..|order| - 1];
      assert order == front + [last] && last in order && forall r :: r in front ==> r in order;
      var rest := Those(front, down, now, up);
      assert forall i :: 0 <= i < |rest| ==> rest[i] in rest;
      if (down[last] <= now) == up then rest + [last] else rest
  }

  /** Every replica once; those that failed lately after all the others. */
  ghost predicate IsOrder(order: seq<nat>, n: nat, down: seq<int>, now: int)
    requires |down| == n
  {
    && Distinct(order) && (forall r: nat :: r in order <==> r < n)
    && forall i, j :: 0 <= i < j < |order| && order[i] < n && order[j] < n && down[order[i]] > now ==>
      down[order[j]] > now
  }

  lemma RotatedIsAll(n: nat, start: nat)
    requires start < n
    ensures Distinct(Rotated(n, start)) && forall r: nat :: r in Rotated(n, start) <==> r < n
  {
    var order := Rotated(n, start);
    forall r: nat | r < n
      ensures r in order
    {
      assert order[if r >= start then r - start else r - start + n] == r;
    }
  }

  /** `_replica_order`, for a shard whose turn is at replica `start`. */
  function ReplicaOrder(n: nat, start: nat, down: seq<int>, now: int): (order: seq<nat>)
    requires start < n == |down|
  {
    var rotated := Rotated(n, start);
    RotatedIsAll(n, start);
    Those(rotated, down, now, true) + Those(rotated, down, now, false)
  }

  lemma ReplicaOrderIsFair(n: nat, start: nat, down: seq<int>, now: int)
    requires start < n == |down|
    ensures IsOrder(ReplicaOrder(n, start, down, now), n, down, now)
    ensures ReplicaOrder(n, start, down, now) != []
    ensures down[start] <= now ==> ReplicaOrder(n, start, down, now)[0] == start
  {
    var rotated := Rotated(n, start);
    RotatedIsAll(n, start);
    var up, rest := Those(rotated, down, now, true), Those(rotated, down, now, false);
    var order := up + rest;
    assert forall i :: 0 <= i < |up| ==> up[i] in up;
    assert forall i :: 0 <= i < |rest| ==> rest[i] in rest;
    assert 0 in rotated;
    assert 0 in order;
    FirstStaysFirst(rotated, down, now);
  }

  lemma {:induction false} FirstStaysFirst(order: seq<nat>, down: seq<int>, now: int)
    requires order != [] && (forall r :: r in order ==> r < |down|) && order[0] < |down|
    ensures down[order[0]] <= now ==>
              Those(order, down, now, true) != [] && Those(order, down, now, true)[0] == order[0]
  {
    if |order| > 1 {
      var front := order[..|order| - 1];
      assert front[0] == order[0] && forall r :: r in front ==> r in order;
      FirstStaysFirst(front, down, now);
    }
  }

  /** How long a replica has to wait from when the turn is at `start`. */
  function Wait(r: nat, start: nat, n: nat): nat
    requires r < n && start < n
  {
    if r >= start then r - start else r + n - start
  }

  /** Those whose turn comes sooner are first. */
  ghost predicate InTurn(order: seq<nat>, start: nat, n: nat)
    requires start < n
  {
    && (forall i :: 0 <= i < |order| ==> order[i] < n)
    && forall i, j :: 0 <= i < j < |order| ==> Wait(order[i], start, n) < Wait(order[j], start, n)
  }

  lemma RotatedInTurn(n: nat, start: nat)
    requires start < n
    ensures InTurn(Rotated(n, start), start, n)
  {
  }

  /** Of two that are both up, or both down, the one whose turn comes sooner goes first. */
  lemma ReplicaOrderIsInTurn(n: nat, start: nat, down: seq<int>, now: int, i: nat, j: nat)
    requires start < n == |down| && i < j < |ReplicaOrder(n, start, down, now)|
    ensures var order := ReplicaOrder(n, start, down, now);
            && order[i] < n && order[j] < n
            && ((down[order[i]] <= now) == (down[order[j]] <= now) ==>
                  Wait(order[i], start, n) < Wait(order[j], start, n))
  {
    hide Those, Wait;
    RotatedIsAll(n, start);
    RotatedInTurn(n, start);
    var rotated := Rotated(n, start);
    hide Rotated;
    var up, rest := Those(rotated, down, now, true), Those(rotated, down, now, false);
    assert (up + rest)[i] in up + rest && (up + rest)[j] in up + rest;
    ThoseInTurn(rotated, down, now, true, start);
    ThoseInTurn(rotated, down, now, false, start);
    assert forall k :: 0 <= k < |up| ==> up[k] in up;
    assert forall k :: 0 <= k < |rest| ==> rest[k] in rest;
  }

  lemma OneMoreInTurn(order: seq<nat>, last: nat, start: nat, n: nat)
    requires start < n && last < n && InTurn(order, start, n)
    requires forall r :: r in order ==> r < n && Wait(r, start, n) < Wait(last, start, n)
    ensures InTurn(order + [last], start, n)
  {
    hide Wait;
    assert forall i :: 0 <= i < |order| ==> order[i] in order;
  }

  /** What comes before the last, in an order by turns. */
  lemma BeforeTheLast(order: seq<nat>, start: nat, n: nat)
    requires start < n && order != [] && InTurn(order, start, n)
    ensures var last, front := order[|order| - 1], order[..|order| - 1];
            && last < n && InTurn(front, start, n)
            && forall r :: r in front ==> r < n && Wait(r, start, n) < Wait(last, start, n)
  {
    hide Wait;
  }

  lemma {:induction false} ThoseInTurn(order: seq<nat>, down: seq<int>, now: int, up: bool, start: nat)
    requires start < |down| && (forall r :: r in order ==> r < |down|) && InTurn(order, start, |down|)
    ensures InTurn(Those(order, down, now, up), start, |down|)
  {
    hide Wait, InTurn;
    if order == [] {
      NoneInTurn(start, |down|);
    } else {
      var last, front := order[|order| - 1], order[..|order| - 1];
      assert order == front + [last] && forall r :: r in front ==> r in order;
      BeforeTheLast(order, start, |down|);
      ThoseInTurn(front, down, now, up, start);
      OneMoreInTurn(Those(front, down, now, up), last, start, |down|);
    }
  }

  lemma NoneInTurn(start: nat, n: nat)
    requires start < n
    ensures InTurn([], start, n)
  {
  }

  /** The turn, after k searches. */
  function TurnAfter(start: nat, n: nat, k: nat): (turn: nat)
    requires start < n
    ensures turn < n
  {
    if k == 0 then start else NextTurn(TurnAfter(start, n, k - 1), n)
  }

  lemma NextTurnIs(start: nat, n: nat)
    requires start < n
    ensures NextTurn(start, n) == if start + 1 < n then start + 1 else 0
  {
  }

  /** Of n searches, each replica has the first turn in one. */
  lemma {:induction false} TurnsGoRound(start: nat, n: nat, k: nat)
    requires start < n && k <= n
    ensures TurnAfter(start, n, k) == if start + k < n then start + k else start + k - n
  {
    hide NextTurn;
    if k > 0 {
      TurnsGoRound(start, n, k - 1);
      NextTurnIs(TurnAfter(start, n, k - 1), n);
    }
  }

  lemma EachHasATurn(start: nat, n: nat, r: nat)
    requires start < n && r < n
    ensures Wait(r, start, n) < n && TurnAfter(start, n, Wait(r, start, n)) == r
    ensures forall k: nat :: k < n && TurnAfter(start, n, k) == r ==> k == Wait(r, start, n)
  {
    TurnsGoRound(start, n, Wait(r, start, n));
    forall k: nat | k < n && TurnAfter(start, n, k) == r
      ensures k == Wait(r, start, n)
    {
      TurnsGoRound(start, n, k);
    }
  }

  // ---------------------------------------------------------------- failing over

  type Orders = map<nat, seq<nat>>

  /** The first t replicas tried for the shard all failed. */
  ghost predicate FailedBefore(replies: Replies, order: seq<nat>, shard: nat, t: nat) {
    t <= |order| && forall i :: 0 <= i < t ==> replies(shard, order[i]).Unavailable?
  }

  /** The shard's answer is that of the first replica that did not fail. */
  ghost predicate AnsweredBy(replies: Replies, order: seq<nat>, shard: nat, t: nat, hits: seq<Hit>) {
    t < |order| && FailedBefore(replies, order, shard, t) && replies(shard, order[t]) == Hits(hits)
  }

  /** How many attempts failed, over all these shards. */
  ghost function Failures(shards: seq<nat>, tried: map<nat, nat>): nat
    requires forall s :: s in shards ==> s in tried
  {
    if shards == [] then 0 else Failures(shards[..|shards| - 1], tried) + tried[shards[|shards| - 1]]
  }

  lemma {:induction false} OneMoreFailure(shards: seq<nat>, tried: map<nat, nat>, s: nat)
    requires Distinct(shards) && s in shards && forall x :: x in shards ==> x in tried
    ensures Failures(shards, tried[s := tried[s] + 1]) == Failures(shards, tried) + 1
  {
    var front, last := shards[..|shards| - 1], shards[|shards| - 1];
    assert shards == front + [last];
    if s == last {
      SameFailures(front, tried, tried[s := tried[s] + 1]);
    } else {
      OneMoreFailure(front, tried, s);
    }
  }

  lemma {:induction false} SameFailures(shards: seq<nat>, a: map<nat, nat>, b: map<nat, nat>)
    requires forall x :: x in shards ==> x in a && x in b && a[x] == b[x]
    ensures Failures(shards, a) == Failures(shards, b)
  {
    if shards != [] {
      var front := shards[..|shards| - 1];
      assert shards == front + [shards[|shards| - 1]];
      SameFailures(front, a, b);
    }
  }

  // ---------------------------------------------------------------- the loop

  datatype Answer = Answer(shard: nat, hits: seq<Hit>)

  function ShardsOf(answers: seq<Answer>): (shards: seq<nat>)
    ensures |shards| == |answers| && forall i :: 0 <= i < |answers| ==> shards[i] == answers[i].shard
  {
    seq(|answers|, i requires 0 <= i < |answers| => answers[i].shard)
  }

  function ListsOf(answers: seq<Answer>): (lists: seq<seq<Hit>>)
    ensures |lists| == |answers| && forall i :: 0 <= i < |answers| ==> lists[i] == answers[i].hits
  {
    seq(|answers|, i requires 0 <= i < |answers| => answers[i].hits)
  }

  /** The variables of the loop: `waiting` are those of `pending` not looked at yet in this round. */
  datatype Progress = Progress(tried: map<nat, nat>, answers: seq<Answer>, missing: seq<nat>, waiting: seq<nat>,
                               retries: seq<nat>)

  ghost predicate Answered(replies: Replies, orders: Orders, tried: map<nat, nat>, a: Answer) {
    && a.shard in orders && a.shard in tried
    && AnsweredBy(replies, orders[a.shard], a.shard, tried[a.shard], a.hits)
  }

  ghost predicate GivenUp(replies: Replies, orders: Orders, tried: map<nat, nat>, s: nat) {
    && s in orders && s in tried && tried[s] == |orders[s]|
    && FailedBefore(replies, orders[s], s, tried[s])
  }

  /** n of the shard's replicas have failed, and there is another to ask. */
  ghost predicate Asking(replies: Replies, orders: Orders, tried: map<nat, nat>, n: nat, s: nat) {
    && s in orders && s in tried && tried[s] == n < |orders[s]|
    && FailedBefore(replies, orders[s], s, n)
  }

  ghost predicate EachOnce(targets: seq<nat>, p: Progress) {
    multiset(targets) == multiset(ShardsOf(p.answers)) + multiset(p.missing) + multiset(p.waiting) + multiset(p.retries)
  }

  /** Each target is in exactly one place, and each place means what it says. n is the round. */
  ghost predicate OnTrack(replies: Replies, orders: Orders, targets: seq<nat>, p: Progress, n: nat) {
    && EachOnce(targets, p)
    && (forall s :: s in targets ==> s in p.tried)
    && (forall a :: a in p.answers ==> Answered(replies, orders, p.tried, a))
    && (forall s :: s in p.missing ==> GivenUp(replies, orders, p.tried, s))
    && (forall s :: s in p.waiting ==> Asking(replies, orders, p.tried, n, s))
    && (forall s :: s in p.retries ==> Asking(replies, orders, p.tried, n + 1, s))
  }

  function TookAnswer(p: Progress, hits: seq<Hit>): Progress
    requires p.waiting != []
  {
    p.(answers := p.answers + [Answer(p.waiting[0], hits)], waiting := p.waiting[1..])
  }

  function TookFailure(p: Progress, more: bool): Progress
    requires p.waiting != [] && p.waiting[0] in p.tried
  {
    var s := p.waiting[0];
    var later := p.(tried := p.tried[s := p.tried[s] + 1], waiting := p.waiting[1..]);
    if more then later.(retries := p.retries + [s]) else later.(missing := p.missing + [s])
  }

  lemma {:induction false} OnlyOnce(targets: seq<nat>, s: nat)
    requires Distinct(targets)
    ensures multiset(targets)[s] <= 1
  {
    if targets != [] {
      var front := targets[..|targets| - 1];
      assert targets == front + [targets[|targets| - 1]];
      OnlyOnce(front, s);
      assert targets[|targets| - 1] !in front;
    }
  }

  /** The shard looked at next is nowhere else. */
  lemma NowhereElse(replies: Replies, orders: Orders, targets: seq<nat>, p: Progress, n: nat)
    requires Distinct(targets) && OnTrack(replies, orders, targets, p, n) && p.waiting != []
    ensures var s := p.waiting[0];
            && s in targets && s !in p.waiting[1..] && s !in p.retries && s !in p.missing
            && s !in ShardsOf(p.answers)
            && forall a :: a in p.answers ==> a.shard != s
  {
    var s := p.waiting[0];
    OnlyOnce(targets, s);
    assert p.waiting == [s] + p.waiting[1..];
    assert multiset(p.waiting)[s] == 1 + multiset(p.waiting[1..])[s];
    assert s in multiset(targets);
    assert s !in ShardsOf(p.answers);
    forall a | a in p.answers
      ensures a.shard != s
    {
      var i :| 0 <= i < |p.answers| && p.answers[i] == a;
      assert ShardsOf(p.answers)[i] == a.shard;
    }
  }

  lemma AnswerKeepsTrack(replies: Replies, orders: Orders, targets: seq<nat>, p: Progress, n: nat, hits: seq<Hit>)
    requires Distinct(targets) && OnTrack(replies, orders, targets, p, n) && p.waiting != []
    requires p.waiting[0] in orders && n < |orders[p.waiting[0]]|
    requires replies(p.waiting[0], orders[p.waiting[0]][n]) == Hits(hits)
    ensures OnTrack(replies, orders, targets, TookAnswer(p, hits), n)
  {
    var s, later := p.waiting[0], TookAnswer(p, hits);
    assert s in p.waiting && p.waiting == [s] + p.waiting[1..];
    assert ShardsOf(later.answers) == ShardsOf(p.answers) + [s];
    assert Asking(replies, orders, p.tried, n, s);
    assert Answered(replies, orders, p.tried, Answer(s, hits));
    hide Answered, GivenUp, Asking, FailedBefore, AnsweredBy;
    assert forall a :: a in later.answers ==> a in p.answers || a == Answer(s, hits);
  }

  lemma FailureKeepsTrack(replies: Replies, orders: Orders, targets: seq<nat>, p: Progress, n: nat)
    requires Distinct(targets) && OnTrack(replies, orders, targets, p, n) && p.waiting != []
    requires p.waiting[0] in orders && n < |orders[p.waiting[0]]|
    requires replies(p.waiting[0], orders[p.waiting[0]][n]).Unavailable?
    ensures p.waiting[0] in p.tried && p.waiting[0] in targets
    ensures OnTrack(replies, orders, targets, TookFailure(p, n + 1 < |orders[p.waiting[0]]|), n)
  {
    NowhereElse(replies, orders, targets, p, n);
    var s := p.waiting[0];
    var more := n + 1 < |orders[s]|;
    var later := TookFailure(p, more);
    assert if more then Asking(replies, orders, later.tried, n + 1, s)
           else GivenUp(replies, orders, later.tried, s) by {
      assert s in p.waiting && Asking(replies, orders, p.tried, n, s);
    }
    OthersStand(replies, orders, targets, p, n, later.tried);
    FailureMovesShard(targets, p, more);
    hide Answered, GivenUp, Asking, FailedBefore, EachOnce;
    assert forall x :: x in later.retries ==> x in p.retries || (more && x == s);
    assert forall x :: x in later.missing ==> x in p.missing || (!more && x == s);
  }

  lemma FailureMovesShard(targets: seq<nat>, p: Progress, more: bool)
    requires EachOnce(targets, p) && p.waiting != [] && p.waiting[0] in p.tried
    ensures EachOnce(targets, TookFailure(p, more))
  {
    assert p.waiting == [p.waiting[0]] + p.waiting[1..];
  }

  /** Counting a failure of the shard looked at says nothing new of the others. */
  lemma OthersStand(replies: Replies, orders: Orders, targets: seq<nat>, p: Progress, n: nat, tried: map<nat, nat>)
    requires OnTrack(replies, orders, targets, p, n) && p.waiting != []
    requires forall s :: s in p.tried && s != p.waiting[0] ==> s in tried && tried[s] == p.tried[s]
    requires p.waiting[0] !in p.waiting[1..] + p.retries + p.missing
    requires forall a :: a in p.answers ==> a.shard != p.waiting[0]
    ensures forall a :: a in p.answers ==> Answered(replies, orders, tried, a)
    ensures forall x :: x in p.missing ==> GivenUp(replies, orders, tried, x)
    ensures forall x :: x in p.waiting[1..] ==> Asking(replies, orders, tried, n, x)
    ensures forall x :: x in p.retries ==> Asking(replies, orders, tried, n + 1, x)
  {
    hide FailedBefore, AnsweredBy;
    forall x | x in p.waiting[1..]
      ensures Asking(replies, orders, tried, n, x)
    {
      assert x in p.waiting && Asking(replies, orders, p.tried, n, x);
    }
  }

  /** The end of a round: those that failed and have another replica are asked again. */
  lemma NextRound(replies: Replies, orders: Orders, targets: seq<nat>, p: Progress, n: nat)
    requires OnTrack(replies, orders, targets, p, n) && p.waiting == []
    ensures OnTrack(replies, orders, targets, p.(waiting := p.retries, retries := []), n + 1)
  {
  }

  /** The orders name replicas there are. */
  ghost predicate Fits(orders: Orders, replicas: seq<nat>) {
    forall s :: s in orders ==> s < |replicas| && Distinct(orders[s]) && forall r :: r in orders[s] ==> r < replicas[s]
  }

  lemma NotAnswered(replies: Replies, orders: Orders, targets: seq<nat>, p: Progress, n: nat, replicas: seq<nat>)
    requires Distinct(targets) && OnTrack(replies, orders, targets, p, n) && p.waiting != [] && Fits(orders, replicas)
    ensures p.waiting[0] !in ShardsOf(p.answers) && p.waiting[0] in orders && Distinct(orders[p.waiting[0]])
  {
    NowhereElse(replies, orders, targets, p, n);
    assert p.waiting[0] in p.waiting && Asking(replies, orders, p.tried, n, p.waiting[0]);
  }

  lemma AllTracked(replies: Replies, orders: Orders, targets: seq<nat>, p: Progress, n: nat)
    requires OnTrack(replies, orders, targets, p, n)
    ensures forall s :: s in targets ==> s in p.tried
  {
  }

  /** A round starts with every shard still being asked, and asks the next replica of each. */
  lemma AskNext(replies: Replies, orders: Orders, targets: seq<nat>, p: Progress, n: nat, replicas: seq<nat>)
    requires OnTrack(replies, orders, targets, p, n) && p.waiting != [] && Fits(orders, replicas)
    ensures var s := p.waiting[0];
            && s in orders && n < |orders[s]| && s < |replicas| && orders[s][n] < replicas[s]
            && s in p.tried && p.tried[s] == n
  {
    var s := p.waiting[0];
    assert s in p.waiting && Asking(replies, orders, p.tried, n, s);
    assert orders[s][n] in orders[s];
  }

  /** The call that comes next, to a replica whose forerunners all failed, is refused. */
  ghost predicate RefusedNow(replies: Replies, orders: Orders, p: Progress, n: nat) {
    && p.waiting != []
    && var s := p.waiting[0];
       s in orders && n < |orders[s]| && replies(s, orders[s][n]).Refused?
  }

  // ---------------------------------------------------------------- who is put last next time

  /** Until when a shard's replicas are put last: set anew for those that failed, cleared for one that answered. */
  ghost predicate MarkedFor(before: seq<int>, down: seq<int>, order: seq<nat>, tried: nat, answered: bool,
                            times: Times) {
    && |down| == |before|
    && forall j :: 0 <= j < |order| && order[j] < |down| ==>
         if j < tried then IsRetryTime(times, down[order[j]])
         else if j == tried && answered then down[order[j]] == 0
         else down[order[j]] == before[order[j]]
  }

  /** The time since a search began: the readings of the clock from number `from` to before number `end`. */
  datatype Times = Times(clock: nat -> int, retryAfter: int, from: nat, end: nat)

  /** Some while after one of these readings. */
  ghost predicate IsRetryTime(times: Times, time: int) {
    exists tick: nat :: times.from <= tick < times.end && time == times.clock(tick) + times.retryAfter
  }

  ghost predicate Marked(before: seq<seq<int>>, down: seq<seq<int>>, orders: Orders, p: Progress, times: Times) {
    && |down| == |before|
    && (forall s: nat :: s < |down| && s !in orders ==> down[s] == before[s])
    && forall s: nat :: s < |down| && s in orders ==>
         s in p.tried && MarkedFor(before[s], down[s], orders[s], p.tried[s], s in ShardsOf(p.answers), times)
  }

  lemma TimePasses(before: seq<seq<int>>, down: seq<seq<int>>, orders: Orders, p: Progress, times: Times, end: nat)
    requires Marked(before, down, orders, p, times) && times.end <= end
    ensures Marked(before, down, orders, p, times.(end := end))
  {
    hide ShardsOf;
    forall time: int | IsRetryTime(times, time)
      ensures IsRetryTime(times.(end := end), time)
    {
      var tick: nat :| times.from <= tick < times.end && time == times.clock(tick) + times.retryAfter;
      assert time == times.(end := end).clock(tick) + times.retryAfter;
    }
    hide IsRetryTime;
  }

  lemma MarkFailure(before: seq<seq<int>>, down: seq<seq<int>>, orders: Orders, p: Progress, times: Times, n: nat,
                    more: bool)
    requires Marked(before, down, orders, p, times) && p.waiting != [] && times.from <= times.end
    requires var s := p.waiting[0];
             && s in orders && s < |down| && s in p.tried && p.tried[s] == n < |orders[s]|
             && s !in ShardsOf(p.answers) && Distinct(orders[s]) && orders[s][n] < |down[s]|
    ensures var s, time := p.waiting[0], times.clock(times.end) + times.retryAfter;
            Marked(before, down[s := down[s][orders[s][n] := time]], orders, TookFailure(p, more),
                   times.(end := times.end + 1))
  {
    hide IsRetryTime;
    var later := times.(end := times.end + 1);
    TimePasses(before, down, orders, p, times, later.end);
    NowIsRetryTime(later);
    var s, time := p.waiting[0], times.clock(times.end) + times.retryAfter;
    var marked := down[s][orders[s][n] := time];
    assert MarkedFor(before[s], down[s], orders[s], n, false, later);
    assert MarkedFor(before[s], marked, orders[s], n + 1, false, later);
  }

  lemma NowIsRetryTime(times: Times)
    requires times.from < times.end
    ensures IsRetryTime(times, times.clock(times.end - 1) + times.retryAfter)
  {
  }

  lemma MarkAnswer(before: seq<seq<int>>, down: seq<seq<int>>, orders: Orders, p: Progress, times: Times, n: nat,
                   hits: seq<Hit>)
    requires Marked(before, down, orders, p, times) && p.waiting != []
    requires var s := p.waiting[0];
             && s in orders && s < |down| && s in p.tried && p.tried[s] == n < |orders[s]|
             && s !in ShardsOf(p.answers) && Distinct(orders[s]) && orders[s][n] < |down[s]|
    ensures var s := p.waiting[0];
            Marked(before, down[s := down[s][orders[s][n] := 0]], orders, TookAnswer(p, hits), times)
  {
    var s, later := p.waiting[0], TookAnswer(p, hits);
    assert ShardsOf(later.answers) == ShardsOf(p.answers) + [s];
    assert MarkedFor(before[s], down[s], orders[s], n, false, times);
    assert MarkedFor(before[s], down[s][orders[s][n] := 0], orders[s], n, true, times);
  }

  lemma NothingMarked(before: seq<seq<int>>, orders: Orders, p: Progress, times: Times)
    requires p.answers == [] && forall s :: s in orders ==> s in p.tried && p.tried[s] == 0
    ensures Marked(before, before, orders, p, times)
  {
  }

  /** Only what was tried, and who answered, matters to the marks. */
  lemma MarksStay(before: seq<seq<int>>, down: seq<seq<int>>, orders: Orders, p: Progress, later: Progress,
                  times: Times)
    requires Marked(before, down, orders, p, times) && later.tried == p.tried && later.answers == p.answers
    ensures Marked(before, down, orders, later, times)
  {
  }

  /** A target is missing exactly if each of its replicas was tried, and failed. */
  lemma MissingIffAllFailed(replies: Replies, orders: Orders, targets: seq<nat>, p: Progress, n: nat, s: nat)
    requires OnTrack(replies, orders, targets, p, n) && p.waiting == [] && p.retries == [] && s in targets
             && s in orders
    ensures s in p.missing <==> forall i :: 0 <= i < |orders[s]| ==> replies(s, orders[s][i]).Unavailable?
    ensures s in ShardsOf(p.answers) <==> exists i :: 0 <= i < |orders[s]| && !replies(s, orders[s][i]).Unavailable?
  {
    assert s in multiset(targets);
    assert s in p.missing || s in ShardsOf(p.answers);
    if s in p.missing {
      assert GivenUp(replies, orders, p.tried, s);
    }
    if s in ShardsOf(p.answers) {
      var i :| 0 <= i < |p.answers| && p.answers[i].shard == s;
      assert p.answers[i] in p.answers && Answered(replies, orders, p.tried, p.answers[i]);
    }
  }

  lemma FirstRound(replies: Replies, orders: Orders, targets: seq<nat>, p: Progress)
    requires p.answers == [] && p.missing == [] && p.waiting == targets && p.retries == []
    requires forall s :: s in targets ==> s in p.tried && p.tried[s] == 0
    requires forall s :: s in targets ==> s in orders && orders[s] != []
    ensures OnTrack(replies, orders, targets, p, 0) && Failures(targets, p.tried) == 0
    ensures forall s :: s in targets ==> s in p.tried
  {
    NoFailures(targets, p.tried);
  }

  lemma {:induction false} NoFailures(shards: seq<nat>, tried: map<nat, nat>)
    requires forall s :: s in shards ==> s in tried && tried[s] == 0
    ensures Failures(shards, tried) == 0
  {
    if shards != [] {
      assert shards == shards[..|shards| - 1] + [shards[|shards| - 1]];
      NoFailures(shards[..|shards| - 1], tried);
    }
  }

  lemma WaitingIsTarget(replies: Replies, orders: Orders, targets: seq<nat>, p: Progress, n: nat)
    requires OnTrack(replies, orders, targets, p, n) && p.waiting != []
    ensures p.waiting[0] in targets
  {
    assert p.waiting[0] in multiset(p.waiting);
    assert p.waiting[0] in multiset(targets);
  }

  /** The orders of these shards have been worked out, and their turns moved on. */
  ghost predicate OrdersTaken(shards: seq<nat>, orders: Orders, replicas: seq<nat>, nexts: seq<nat>, later: seq<nat>,
                              down: seq<seq<int>>, now: int) {
    && |nexts| == |later| == |replicas| == |down|
    && orders.Keys == Members(shards)
    && (forall s :: s in shards ==> s < |replicas|)
    && (forall s: nat :: s < |replicas| ==> |down[s]| == replicas[s] > nexts[s])
    && (forall s :: s in shards ==> orders[s] == ReplicaOrder(replicas[s], nexts[s], down[s], now))
    && forall s: nat :: s < |replicas| ==>
         later[s] == if s in shards then NextTurn(nexts[s], replicas[s]) else nexts[s]
  }

  lemma OneMoreOrder(shards: seq<nat>, orders: Orders, replicas: seq<nat>, nexts: seq<nat>, before: seq<nat>,
                     later: seq<nat>, down: seq<seq<int>>, now: int, shard: nat, order: seq<nat>)
    requires OrdersTaken(shards, orders, replicas, nexts, before, down, now)
    requires shard < |replicas| && shard !in shards && |before| == |replicas| == |down|
    requires before[shard] < replicas[shard] == |down[shard]|
    requires order == ReplicaOrder(replicas[shard], before[shard], down[shard], now)
    requires later == before[shard := NextTurn(before[shard], replicas[shard])]
    ensures OrdersTaken(shards + [shard], orders[shard := order], replicas, nexts, later, down, now)
  {
    hide ReplicaOrder, NextTurn;
    assert Members(shards + [shard]) == Members(shards) + {shard};
  }

  lemma OrdersAreFair(targets: seq<nat>, orders: Orders, replicas: seq<nat>, nexts: seq<nat>, later: seq<nat>,
                      down: seq<seq<int>>, now: int)
    requires OrdersTaken(targets, orders, replicas, nexts, later, down, now)
    ensures forall s :: s in targets ==>
              s < |replicas| && s in orders && |down[s]| == replicas[s]
              && IsOrder(orders[s], replicas[s], down[s], now) && orders[s] != []
    ensures Fits(orders, replicas) && forall s :: s in orders ==> s in targets
  {
    forall s | s in targets
      ensures IsOrder(orders[s], replicas[s], down[s], now) && orders[s] != []
    {
      ReplicaOrderIsFair(replicas[s], nexts[s], down[s], now);
    }
    forall s | s in orders
      ensures s < |replicas| && Distinct(orders[s]) && forall r :: r in orders[s] ==> r < replicas[s]
    {
      assert s in targets && IsOrder(orders[s], replicas[s], down[s], now);
    }
  }

  lemma {:induction false} LongestOrder(shards: seq<nat>, orders: Orders) returns (most: nat)
    requires forall s :: s in shards ==> s in orders
    ensures forall s :: s in shards ==> |orders[s]| <= most
  {
    if shards == [] {
      return 0;
    }
    var front, last := shards[..|shards| - 1], shards[|shards| - 1];
    assert shards == front + [last];
    most := LongestOrder(front, orders);
    most := if |orders[last]| > most then |orders[last]| else most;
  }

  // ---------------------------------------------------------------- sorted(missing)

  function InsertShard(shards: seq<nat>, s: nat): seq<nat> {
    if shards == [] then [s]
    else if s < shards[|shards| - 1] then InsertShard(shards[..|shards| - 1], s) + [shards[|shards| - 1]]
    else shards + [s]
  }

  function SortShards(shards: seq<nat>): seq<nat> {
    if shards == [] then [] else InsertShard(SortShards(shards[..|shards| - 1]), shards[|shards| - 1])
  }

  ghost predicate Ascending(shards: seq<nat>) {
    forall i, j :: 0 <= i < j < |shards| ==> shards[i] <= shards[j]
  }

  lemma {:induction false} InsertShardKeeps(shards: seq<nat>, s: nat)
    ensures multiset(InsertShard(shards, s)) == multiset(shards) + multiset{s}
  {
    if shards != [] {
      var front, last := shards[..|shards| - 1], shards[|shards| - 1];
      assert shards == front + [last];
      if s < last {
        InsertShardKeeps(front, s);
      }
    }
  }

  lemma {:induction false} InsertShardSorts(shards: seq<nat>, s: nat)
    requires Ascending(shards)
    ensures Ascending(InsertShard(shards, s))
    ensures forall x :: x in InsertShard(shards, s) ==> x in shards || x == s
  {
    if shards != [] {
      var front, last := shards[..|shards| - 1], shards[|shards| - 1];
      assert shards == front + [last];
      if s < last {
        InsertShardSorts(front, s);
        var more := InsertShard(front, s);
        assert forall i :: 0 <= i < |more| ==> more[i] in more;
      }
    }
  }

  lemma {:induction false} SortShardsSorts(shards: seq<nat>)
    ensures Ascending(SortShards(shards)) && multiset(SortShards(shards)) == multiset(shards)
    ensures |SortShards(shards)| == |shards|
  {
    if shards != [] {
      var front, last := shards[..|shards| - 1], shards[|shards| - 1];
      assert shards == front + [last];
      SortShardsSorts(front);
      InsertShardSorts(SortShards(front), last);
      InsertShardKeeps(SortShards(front), last);
    }
    assert |multiset(SortShards(shards))| == |multiset(shards)|;
  }

  class SearchCoordinator {
    const replicas: seq<nat>           // how many replicas each shard has
    const retryAfter: int              // how long a failed replica is put last
    const clock: nat -> int
    var ticks: nat
    var nextReplica: seq<nat>          // per shard: the replica to start with next time
    var downUntil: seq<seq<int>>       // per shard and replica
    var failovers: int

    ghost predicate Valid()
      reads this
    {
      && |nextReplica| == |downUntil| == |replicas|
      && forall s :: 0 <= s < |replicas| ==> |downUntil[s]| == replicas[s] > nextReplica[s]
    }

    ghost function Since(from: nat): Times
      reads this
    {
      Times(clock, retryAfter, from, ticks)
    }

    constructor (replicas: seq<nat>, retryAfter: int, clock: nat -> int)
      requires forall s :: 0 <= s < |replicas| ==> replicas[s] > 0
      ensures Valid() && failovers == 0
    {
      this.replicas, this.retryAfter, this.clock := replicas, retryAfter, clock;
      ticks, failovers := 0, 0;
      nextReplica := seq(|replicas|, _ => 0);
      downUntil := seq(|replicas|, s requires 0 <= s < |replicas| => seq(replicas[s], _ => 0));
    }

    /** `_replica_order`, for one shard. */
    method TakeOrder(shard: nat, now: int) returns (order: seq<nat>)
      requires Valid() && shard < |replicas|
      modifies `nextReplica
      ensures Valid() && order == ReplicaOrder(replicas[shard], old(nextReplica[shard]), downUntil[shard], now)
      ensures nextReplica == old(nextReplica)[shard := NextTurn(old(nextReplica[shard]), replicas[shard])]
      ensures order != [] && IsOrder(order, replicas[shard], downUntil[shard], now)
    {
      var start, n := nextReplica[shard], replicas[shard];
      ReplicaOrderIsFair(n, start, downUntil[shard], now);
      nextReplica := nextReplica[shard := NextTurn(start, n)];
      order := ReplicaOrder(n, start, downUntil[shard], now);
    }

    /** `replica.down_until = time`. */
    method Mark(shard: nat, replica: nat, time: int)
      requires Valid() && shard < |replicas| && replica < replicas[shard]
      modifies `downUntil
      ensures Valid() && shard < |old(downUntil)| && replica < |old(downUntil)[shard]|
      ensures downUntil == old(downUntil)[shard := old(downUntil)[shard][replica := time]]
    {
      downUntil := downUntil[shard := downUntil[shard][replica := time]];
    }

    /** The next pending call has failed: its replica is put last for a while, and the shard's next one asked. */
    method NoteFailure(p: Progress, orders: Orders, replies: Replies, n: nat, ghost targets: seq<nat>,
                       ghost before: seq<seq<int>>, ghost from: nat) returns (later: Progress)
      requires Valid() && Distinct(targets) && Fits(orders, replicas)
      requires OnTrack(replies, orders, targets, p, n) && p.waiting != []
      requires var s := p.waiting[0]; s in orders && n < |orders[s]| && replies(s, orders[s][n]).Unavailable?
      requires from <= ticks && Marked(before, downUntil, orders, p, Since(from))
      requires forall s :: s in targets ==> s in p.tried
      modifies `downUntil, `failovers, `ticks
      ensures Valid() && OnTrack(replies, orders, targets, later, n) && later.waiting == p.waiting[1..]
      ensures forall s :: s in targets ==> s in later.tried
      ensures failovers + |later.missing| - Failures(targets, later.tried)
                == old(failovers) + |p.missing| - Failures(targets, p.tried)
      ensures old(ticks) <= ticks && Marked(before, downUntil, orders, later, Since(from))
    {
      hide OnTrack, Asking, Answered, GivenUp, Fits, Failures, Distinct, Marked;
      AskNext(replies, orders, targets, p, n, replicas);
      NotAnswered(replies, orders, targets, p, n, replicas);
      var shard := p.waiting[0];
      var more := n + 1 < |orders[shard]|;
      MarkFailure(before, downUntil, orders, p, Since(from), n, more);
      Mark(shard, orders[shard][n], clock(ticks) + retryAfter);
      ticks := ticks + 1;
      if more {
        failovers := failovers + 1;
      }
      FailureKeepsTrack(replies, orders, targets, p, n);
      OneMoreFailure(targets, p.tried, shard);
      later := TookFailure(p, more);
    }

    /** One pass over the pending calls. `raised` if one was refused with an error that is not retryable. */
    method Round(start: Progress, orders: Orders, replies: Replies, n: nat, ghost targets: seq<nat>,
                 ghost before: seq<seq<int>>, ghost from: nat)
        returns (p: Progress, raised: bool)
      requires Valid() && Distinct(targets) && Fits(orders, replicas)
      requires OnTrack(replies, orders, targets, start, n)
      requires from <= ticks && Marked(before, downUntil, orders, start, Since(from))
      modifies `downUntil, `failovers, `ticks
      ensures Valid() && OnTrack(replies, orders, targets, p, n)
      ensures failovers + |p.missing| - Failures(targets, p.tried)
                == old(failovers) + |start.missing| - Failures(targets, start.tried)
      ensures if raised then RefusedNow(replies, orders, p, n) else p.waiting == []
      ensures old(ticks) <= ticks && Marked(before, downUntil, orders, p, Since(from))
    {
      hide OnTrack, Asking, Answered, GivenUp, Fits, Failures, Distinct, Marked;
      p, raised := start, false;
      AllTracked(replies, orders, targets, p, n);
      while p.waiting != []
        invariant Valid() && OnTrack(replies, orders, targets, p, n)
        invariant forall s :: s in targets ==> s in p.tried
        invariant failovers + |p.missing| - Failures(targets, p.tried)
                    == old(failovers) + |start.missing| - Failures(targets, start.tried)
        invariant old(ticks) <= ticks && Marked(before, downUntil, orders, p, Since(from))
        decreases |p.waiting|
      {
        AskNext(replies, orders, targets, p, n, replicas);
        NotAnswered(replies, orders, targets, p, n, replicas);
        var shard := p.waiting[0];
        var replica := orders[shard][n];
        match replies(shard, replica)
        case Refused =>
          raised := true;
          assert RefusedNow(replies, orders, p, n);
          return;
        case Unavailable =>
          p := NoteFailure(p, orders, replies, n, targets, before, from);
        case Hits(hits) =>
          MarkAnswer(before, downUntil, orders, p, Since(from), n, hits);
          Mark(shard, replica, 0);
          AnswerKeepsTrack(replies, orders, targets, p, n, hits);
          p := TookAnswer(p, hits);
      }
    }

    /** An order for every target, worked out one after the other. */
    method TakeOrders(targets: seq<nat>, now: int) returns (orders: Orders)
      requires Valid() && Distinct(targets) && forall s :: s in targets ==> s < |replicas|
      modifies `nextReplica
      ensures Valid() && OrdersTaken(targets, orders, replicas, old(nextReplica), nextReplica, downUntil, now)
    {
      orders := map[];
      for i := 0 to |targets|
        invariant Valid() && OrdersTaken(targets[..i], orders, replicas, old(nextReplica), nextReplica, downUntil, now)
      {
        var shard := targets[i];
        assert shard in targets && shard !in targets[..i];
        assert targets[..i + 1] == targets[..i] + [shard];
        hide ReplicaOrder, IsOrder, Distinct, OrdersTaken, NextTurn, Members;
        ghost var before := nextReplica;
        var order := TakeOrder(shard, now);
        OneMoreOrder(targets[..i], orders, replicas, old(nextReplica), before, nextReplica, downUntil, now, shard,
                     order);
        orders := orders[shard := order];
      }
      assert targets[..|targets|] == targets;
    }

    /**
      `_scatter_gather`, over the shards a search needs. It ends for every pattern of
      failures. Each target contributes the answer of the first replica that gave one, or is
      missing, never both, and is missing only when every replica was tried and failed; the
      answers are merged; failovers grows by the failed attempts that were followed by another.
      Replicas that failed are put last for a while, one that answered is not any more.
      */
    method ScatterGather(targets: seq<nat>, k: nat, now: int, replies: Replies)
        returns (r: Gathered, ghost orders: Orders, ghost p: Progress, ghost n: nat)
      requires Valid() && Distinct(targets) && forall s :: s in targets ==> s < |replicas|
      modifies this
      ensures Valid()
      ensures r.Raised? ==> OnTrack(replies, orders, targets, p, n) && RefusedNow(replies, orders, p, n)
      ensures OrdersTaken(targets, orders, replicas, old(nextReplica), nextReplica, old(downUntil), now)
      ensures forall s :: s in targets ==>
                s in orders && IsOrder(orders[s], replicas[s], old(downUntil[s]), now)
      ensures Marked(old(downUntil), downUntil, orders, p, Since(old(ticks)))
      ensures r.Scored? ==>
        && OnTrack(replies, orders, targets, p, n) && p.waiting == [] && p.retries == []
        && r.hits == MergeTopK(ListsOf(p.answers), k)
        && multiset(r.missing) == multiset(p.missing)
        && Ascending(r.missing)
        && failovers == old(failovers) + Failures(targets, p.tried) - |r.missing|
    {
      hide OnTrack, Asking, Answered, GivenUp, Fits, Failures, IsOrder, ReplicaOrder, Marked, OrdersTaken, RefusedNow;
      var chosen := TakeOrders(targets, now);
      orders := chosen;
      OrdersAreFair(targets, chosen, replicas, old(nextReplica), nextReplica, downUntil, now);
      var state, raised, round := AskAround(targets, chosen, replies);
      p, n := state, round;
      if raised {
        return Raised, orders, p, n;
      }
      SortShardsSorts(state.missing);
      r := Scored(MergeTopK(ListsOf(state.answers), k), SortShards(state.missing));
    }

    /** The rounds: until nobody is left to ask, or a call is refused. */
    method AskAround(targets: seq<nat>, orders: Orders, replies: Replies)
        returns (state: Progress, raised: bool, ghost round: nat)
      requires Valid() && Distinct(targets) && Fits(orders, replicas)
      requires (forall s :: s in targets ==> s in orders && orders[s] != []) && forall s :: s in orders ==> s in targets
      modifies `downUntil, `failovers, `ticks
      ensures Valid() && OnTrack(replies, orders, targets, state, round)
      ensures Marked(old(downUntil), downUntil, orders, state, Since(old(ticks)))
      ensures if raised then RefusedNow(replies, orders, state, round)
              else state.waiting == [] && state.retries == []
                   && failovers + |state.missing| == old(failovers) + Failures(targets, state.tried)
    {
      hide OnTrack, Asking, Answered, GivenUp, Fits, Failures, IsOrder, ReplicaOrder, Marked, RefusedNow;
      ghost var most := LongestOrder(targets, orders);
      state := Progress(map s | s in targets :: 0, [], [], targets, []);
      var at := 0;
      raised, round := false, 0;
      FirstRound(replies, orders, targets, state);
      NothingMarked(downUntil, orders, state, Since(ticks));
      while state.waiting != []
        invariant Valid() && OnTrack(replies, orders, targets, state, at) && state.retries == []
        invariant forall s :: s in targets ==> s in state.tried
        invariant failovers + |state.missing| == old(failovers) + Failures(targets, state.tried)
        invariant at <= most
        invariant old(ticks) <= ticks && Marked(old(downUntil), downUntil, orders, state, Since(old(ticks)))
        decreases most - at
      {
        AskNext(replies, orders, targets, state, at, replicas);
        WaitingIsTarget(replies, orders, targets, state, at);
        state, raised := Round(state, orders, replies, at, targets, old(downUntil), old(ticks));
        if raised {
          round := at;
          return;
        }
        NextRound(replies, orders, targets, state, at);
        AllTracked(replies, orders, targets, state, at);
        MarksStay(old(downUntil), downUntil, orders, state, state.(waiting := state.retries, retries := []),
                  Since(old(ticks)));
        state, at := state.(waiting := state.retries, retries := []), at + 1;
      }
      round := at;
    }
  }
}

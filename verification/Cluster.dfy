/** Every run of a cluster of durable shards. */
module Clusters {
  import opened Bytes
  import opened LogFormat
  import opened Histories
  import opened ReplicaGroups

  // Replicas crash, restart, lose their disks, take snapshots and sync at any time, and one
  // coordinator at a time checks, writes, sends repairs, forgets, or is replaced by a new one.

  /** A write `add` saw acknowledged by every replica of its shard, and the disks they had then. */
  datatype Entry = Entry(shard: nat, history: History, disks: map<nat, nat>)

  datatype Activity = Idle | Inspecting(shard: nat) | Adding

  datatype Cluster = Cluster(
    groups: seq<Group>,
    size: int,              // the coordinator's next free global id
    todo: seq<History>,     // per shard: the chunks of the current `add` not sent yet
    activity: Activity,
    ledger: seq<Entry>)

  datatype Action =
    | Step(shard: nat, replica: nat, move: Move)
    | Sync(shard: nat, replica: nat, source: nat)
    | StartCheck(shard: nat)
    | AskNext
    | FinishCheck
    | AbandonCheck
    | StartAdd(batches: seq<History>, newSize: int)
    | SendChunks
    | Reach(shard: nat, replica: nat, acked: bool)
    | Miss(shard: nat, replica: nat)
    | FinishChunks
    | FinishAdd
    | Refresh
    | NewCoordinator

  // ---------------------------------------------------------------- what can happen

  /** `add` numbers its vectors from `size` on, in order, each to one shard. */
  ghost predicate Fresh(c: Cluster, batches: seq<History>, newSize: int) {
    && |batches| == |c.groups|
    && c.size <= newSize
    && (forall k :: 0 <= k < |batches| ==> Increasing(batches[k]))
    && (forall k, id :: 0 <= k < |batches| && HasId(batches[k], id) ==> c.size <= id < newSize)
    && (forall k, l, id :: 0 <= k < |batches| && 0 <= l < |batches| && k != l && HasId(batches[k], id) ==>
          !HasId(batches[l], id))
  }

  predicate AllKnown(c: Cluster) {
    forall k :: 0 <= k < |c.groups| ==> c.groups[k].view.Known?
  }

  predicate NothingLeft(c: Cluster) {
    forall k :: 0 <= k < |c.todo| ==> c.todo[k] == []
  }

  predicate AllReplied(c: Cluster) {
    forall k :: 0 <= k < |c.groups| && c.groups[k].view.Writing? ==> c.groups[k].view.pending == {}
  }

  predicate SomeFailed(c: Cluster) {
    exists k :: 0 <= k < |c.groups| && c.groups[k].view.Writing? && c.groups[k].view.failed
  }

  predicate IsShard(c: Cluster, k: nat) {
    k < |c.groups| == |c.todo|
  }

  ghost predicate Can(c: Cluster, a: Action) {
    match a
    case Step(k, i, move) => IsShard(c, k) && CanMove(c.groups[k], i, move)
    case Sync(k, i, source) => c.activity.Idle? && IsShard(c, k) && CanStartSync(c.groups[k], i, source)
    case StartCheck(k) => c.activity.Idle? && IsShard(c, k) && c.groups[k].view.Unknown?
    case AskNext => c.activity.Inspecting? && IsShard(c, c.activity.shard) && CanAsk(c.groups[c.activity.shard])
    case FinishCheck =>
      c.activity.Inspecting? && IsShard(c, c.activity.shard) && CanConclude(c.groups[c.activity.shard])
    case AbandonCheck => c.activity.Inspecting? && IsShard(c, c.activity.shard)
    case StartAdd(batches, newSize) => c.activity.Idle? && AllKnown(c) && Fresh(c, batches, newSize)
    case SendChunks => c.activity.Adding? && |c.todo| == |c.groups| && AllKnown(c) && !NothingLeft(c)
    case Reach(k, i, _) => IsShard(c, k) && CanDeliver(c.groups[k], i)
    case Miss(k, i) => IsShard(c, k) && CanDrop(c.groups[k], i)
    case FinishChunks => c.activity.Adding? && |c.todo| == |c.groups| && !AllKnown(c) && AllReplied(c)
    case FinishAdd => c.activity.Adding? && AllKnown(c) && NothingLeft(c)
    case Refresh => c.activity.Idle?
    case NewCoordinator => true
  }

  // ---------------------------------------------------------------- what it does

  function Put(c: Cluster, k: nat, g: Group): Cluster
    requires IsShard(c, k)
  {
    c.(groups := c.groups[k := g])
  }

  function Forgotten(c: Cluster): (groups: seq<Group>)
    ensures |groups| == |c.groups|
  {
    seq(|c.groups|, k requires 0 <= k < |c.groups| => Forget(c.groups[k]))
  }

  function Empty(n: nat): seq<History> {
    seq(n, _ => [])
  }

  function Largest(found: seq<Found>, size: int): (m: int)
    ensures m >= size && forall i :: 0 <= i < |found| ==> found[i].nextId <= m
  {
    if found == [] then size
    else
      var m := Largest(found[..|found| - 1], size);
      assert forall i :: 0 <= i < |found| - 1 ==> found[i] == found[..|found| - 1][i];
      if found[|found| - 1].nextId > m then found[|found| - 1].nextId else m
  }

  function Sent(c: Cluster, k: nat): Group
    requires k < |c.groups| == |c.todo| && AllKnown(c)
  {
    if c.todo[k] == [] then c.groups[k] else BeginWrite(c.groups[k], c.todo[k][0])
  }

  function Rest(h: History): History {
    if h == [] then [] else h[1..]
  }

  function Settled(g: Group): Group {
    if g.view.Writing? then EndWrite(g) else g
  }

  function EntryFor(k: nat, view: View): (e: Entry)
    requires view.Writing? && 0 in view.acks
    ensures e.shard == k && e.history == view.acks[0].history
    ensures forall i :: i in e.disks <==> i in view.acks
    ensures forall i :: i in e.disks ==> e.disks[i] == view.acks[i].disk
  {
    Entry(k, view.acks[0].history, map i | i in view.acks :: view.acks[i].disk)
  }

  /** The ledger's entries for the chunks just acknowledged, shards 0 to k-1. */
  function Entries(c: Cluster, k: nat): seq<Entry>
    requires k <= |c.groups|
  {
    if k == 0 then []
    else
      var view := c.groups[k - 1].view;
      Entries(c, k - 1) +
      if view.Writing? && 0 in view.acks then [EntryFor(k - 1, view)] else []
  }

  function After(c: Cluster, a: Action): Cluster
    requires Can(c, a)
  {
    match a
    case Step(k, i, move) => Put(c, k, AfterMove(c.groups[k], i, move))
    case Sync(k, i, source) => Put(c, k, StartSync(c.groups[k], i, source))
    case StartCheck(k) => Put(c, k, c.groups[k].(view := Checking([]))).(activity := Inspecting(k))
    case AskNext => Put(c, c.activity.shard, Ask(c.groups[c.activity.shard]))
    case FinishCheck =>
      var g := c.groups[c.activity.shard];
      Put(c, c.activity.shard, Conclude(g)).(size := Largest(g.view.found, c.size), activity := Idle)
    case AbandonCheck => Put(c, c.activity.shard, Forget(c.groups[c.activity.shard])).(activity := Idle)
    case StartAdd(batches, newSize) => c.(todo := batches, size := newSize, activity := Adding)
    case SendChunks =>
      c.(groups := seq(|c.groups|, k requires 0 <= k < |c.groups| => Sent(c, k)),
         todo := seq(|c.todo|, k requires 0 <= k < |c.todo| => Rest(c.todo[k])))
    case Reach(k, i, acked) => Put(c, k, Deliver(c.groups[k], i, acked))
    case Miss(k, i) => Put(c, k, Drop(c.groups[k], i))
    case FinishChunks =>
      if SomeFailed(c) then
        c.(groups := Forgotten(c), todo := Empty(|c.groups|), activity := Idle)
      else
        c.(groups := seq(|c.groups|, k requires 0 <= k < |c.groups| => Settled(c.groups[k])),
           ledger := c.ledger + Entries(c, |c.groups|))
    case FinishAdd => c.(activity := Idle)
    case Refresh => c.(groups := Forgotten(c))
    case NewCoordinator => c.(groups := Forgotten(c), size := 0, todo := Empty(|c.groups|), activity := Idle)
  }

  // ---------------------------------------------------------------- what every run keeps

  /** How the ids stored in a shard, being sent to it, and still to be sent are ordered. */
  ghost predicate IdsFit(g: Group, todo: History, size: int) {
    && (g.view.Known? || g.view.Writing? ==> forall h :: Somewhere(g, h) ==> IdsBelow(h, size))
    && Increasing(todo) && IdsBelow(todo, size)
    && (todo != [] ==> forall h :: Somewhere(g, h) ==> IdsBefore(h, todo))
    && (g.view.Writing? ==>
          && Increasing([g.view.batch])
          && IdsBelow([g.view.batch], size)
          && IdsBefore([g.view.batch], todo)
          && forall h :: Somewhere(g, h) && |h| <= g.view.n ==> IdsBefore(h, [g.view.batch]))
  }

  ghost predicate OwnsId(g: Group, todo: History, id: int) {
    || (exists h :: Somewhere(g, h) && HasId(h, id))
    || HasId(todo, id)
    || (g.view.Writing? && HasId([g.view.batch], id))
  }

  ghost predicate Disjoint(c: Cluster)
    requires |c.todo| == |c.groups|
  {
    forall k, l, id ::
      0 <= k < |c.groups| && 0 <= l < |c.groups| && k != l && OwnsId(c.groups[k], c.todo[k], id) ==>
        !OwnsId(c.groups[l], c.todo[l], id)
  }

  ghost predicate InStep(c: Cluster)
    requires |c.todo| == |c.groups|
  {
    match c.activity
    case Idle =>
      forall k :: 0 <= k < |c.groups| ==> c.todo[k] == [] && (c.groups[k].view.Unknown? || c.groups[k].view.Known?)
    case Inspecting(s) =>
      && s < |c.groups| && c.groups[s].view.Checking?
      && (forall k :: 0 <= k < |c.groups| ==> c.todo[k] == [])
      && (forall k :: 0 <= k < |c.groups| && k != s ==> c.groups[k].view.Unknown? || c.groups[k].view.Known?)
    case Adding =>
      forall k :: 0 <= k < |c.groups| ==> c.groups[k].view.Known? || c.groups[k].view.Writing?
  }

  ghost predicate Safe(c: Cluster) {
    && |c.todo| == |c.groups|
    && InStep(c)
    && (forall k :: 0 <= k < |c.groups| ==> Sound(c.groups[k]) && IdsFit(c.groups[k], c.todo[k], c.size))
    && Disjoint(c)
  }

  ghost predicate Initial(c: Cluster) {
    && |c.todo| == |c.groups| && c.activity == Idle && c.size == 0 && c.ledger == []
    && forall k :: 0 <= k < |c.groups| ==>
         && c.todo[k] == [] && c.groups[k].view.Unknown?
         && |c.groups[k].replicas| > 0
         && forall i :: 0 <= i < |c.groups[k].replicas| ==>
              && c.groups[k].replicas[i].history == [] && c.groups[k].replicas[i].snapshotSeq == 0
              && c.groups[k].replicas[i].disk == 0 && c.groups[k].replicas[i].session.None?
              && !c.groups[k].replicas[i].stuck
  }

  ghost predicate IsRun(c: Cluster, actions: seq<Action>)
    decreases |actions|
  {
    actions == [] || (Can(c, actions[0]) && IsRun(After(c, actions[0]), actions[1..]))
  }

  ghost function Final(c: Cluster, actions: seq<Action>): Cluster
    requires IsRun(c, actions)
    decreases |actions|
  {
    if actions == [] then c else Final(After(c, actions[0]), actions[1..])
  }

  // ---------------------------------------------------------------- ids, one shard at a time

  lemma BeforeOwnBatch(h: History, b: History, n: nat)
    requires h <= b && |h| <= n && n + 1 == |b| && Increasing(b)
    ensures IdsBefore(h, [b[n]])
  {
    forall x, y | HasId(h, x) && HasId([b[n]], y)
      ensures x < y
    {
      var j :| 0 <= j < |h| && x in h[j].ids;
      assert x in b[j].ids && y in b[n].ids;
    }
  }

  lemma PrefixIds(h: History, b: History)
    requires h <= b
    ensures forall m :: IdsBelow(b, m) ==> IdsBelow(h, m)
    ensures forall t :: IdsBefore(b, t) ==> IdsBefore(h, t)
    ensures forall x :: HasId(h, x) ==> HasId(b, x)
  {
    PrefixFacts(h, b);
  }

  /** Steps that only move, cut or copy what is there leave the order of ids alone. */
  lemma CoveredIdsFit(later: Group, g: Group, todo: History, size: int)
    requires Sound(g) && IdsFit(g, todo, size) && Covered(later, g)
    requires later.view == g.view || later.view.Unknown? || later.view.Checking?
    ensures IdsFit(later, todo, size)
  {
    forall h | Somewhere(later, h)
      ensures g.view.Known? || g.view.Writing? ==> IdsBelow(h, size)
      ensures todo != [] ==> IdsBefore(h, todo)
      ensures g.view.Writing? && |h| <= g.view.n ==> IdsBefore(h, [g.view.batch])
    {
      assert Under(g, h);
      var b :| Somewhere(g, b) && h <= b;
      PrefixIds(h, b);
      if g.view.Writing? && |h| <= g.view.n < |b| {
        BeforeOwnBatch(h, b, g.view.n);
      }
    }
  }

  lemma CoveredOwns(later: Group, g: Group, todo: History, id: int)
    requires Covered(later, g) && OwnsId(later, todo, id)
    requires later.view.Writing? ==> g.view.Writing? && later.view.batch == g.view.batch
    ensures OwnsId(g, todo, id)
  {
    if exists h :: Somewhere(later, h) && HasId(h, id) {
      var h :| Somewhere(later, h) && HasId(h, id);
      assert Under(g, h);
      var b :| Somewhere(g, b) && h <= b;
      PrefixIds(h, b);
    }
  }

  // ---------------------------------------------------------------- the steps of one shard

  /** Replacing one shard's group by one that is sound, and owns no new id. */
  lemma PutKeepsDisjoint(c: Cluster, k: nat, g: Group)
    requires IsShard(c, k) && Disjoint(c)
    requires forall id :: OwnsId(g, c.todo[k], id) ==> OwnsId(c.groups[k], c.todo[k], id)
    ensures Disjoint(Put(c, k, g))
  {
  }

  lemma LocalStepSafe(c: Cluster, k: nat, g: Group)
    requires Safe(c) && IsShard(c, k) && Sound(g) && Covered(g, c.groups[k])
    requires g.view == c.groups[k].view
    ensures Safe(Put(c, k, g))
  {
    CoveredIdsFit(g, c.groups[k], c.todo[k], c.size);
    forall id | OwnsId(g, c.todo[k], id)
      ensures OwnsId(c.groups[k], c.todo[k], id)
    {
      CoveredOwns(g, c.groups[k], c.todo[k], id);
    }
    PutKeepsDisjoint(c, k, g);
  }

  lemma CheckStepSafe(c: Cluster, k: nat, g: Group, activity: Activity)
    requires Safe(c) && IsShard(c, k) && Sound(g) && Covered(g, c.groups[k])
    requires g.view.Unknown? || g.view.Checking?
    requires !c.activity.Adding? && (c.activity.Inspecting? ==> c.activity.shard == k)
    requires activity == if g.view.Checking? then Inspecting(k) else Idle
    ensures Safe(Put(c, k, g).(activity := activity))
  {
    CoveredIdsFit(g, c.groups[k], c.todo[k], c.size);
    forall id | OwnsId(g, c.todo[k], id)
      ensures OwnsId(c.groups[k], c.todo[k], id)
    {
      CoveredOwns(g, c.groups[k], c.todo[k], id);
    }
    PutKeepsDisjoint(c, k, g);
  }

  lemma LargerSize(g: Group, todo: History, size: int, newSize: int)
    requires IdsFit(g, todo, size) && size <= newSize
    ensures IdsFit(g, todo, newSize)
  {
    forall h | IdsBelow(h, size)
      ensures IdsBelow(h, newSize)
    {
    }
  }

  lemma FinishCheckSafe(c: Cluster)
    requires Safe(c) && Can(c, FinishCheck)
    ensures Safe(After(c, FinishCheck))
  {
    var k := c.activity.shard;
    var g := c.groups[k];
    var later, next := Conclude(g), After(c, FinishCheck);
    ConcludeSound(g);
    SameReplicas(later, g);
    forall h | Somewhere(later, h)
      ensures IdsBelow(h, next.size)
    {
      assert Somewhere(g, h);
    }
    assert IdsFit(later, c.todo[k], next.size) by {
      assert c.todo[k] == [];
    }
    forall id | OwnsId(later, c.todo[k], id)
      ensures OwnsId(g, c.todo[k], id)
    {
      CoveredOwns(later, g, c.todo[k], id);
    }
    PutKeepsDisjoint(c, k, later);
    forall l | 0 <= l < |next.groups|
      ensures Sound(next.groups[l]) && IdsFit(next.groups[l], next.todo[l], next.size)
    {
      if l != k {
        LargerSize(c.groups[l], c.todo[l], c.size, next.size);
      }
    }
  }

  lemma MissSafe(c: Cluster, k: nat, i: nat)
    requires Safe(c) && Can(c, Miss(k, i))
    ensures Safe(After(c, Miss(k, i)))
  {
    var g := c.groups[k];
    var later := Drop(g, i);
    DropSound(g, i);
    assert g.view.batch == later.view.batch && g.view.n == later.view.n;
    CoveredIdsFit(later.(view := g.view), g, c.todo[k], c.size) by {
      assert Covered(later.(view := g.view), g) by { SameCopies(g); }
    }
    forall h | Somewhere(later, h)
      ensures Somewhere(g, h)
    {
      DropCopies(g, i, h);
    }
    forall id | OwnsId(later, c.todo[k], id)
      ensures OwnsId(g, c.todo[k], id)
    {
      CoveredOwns(later, g, c.todo[k], id);
    }
    PutKeepsDisjoint(c, k, later);
  }

  lemma SameCopies(g: Group)
    ensures Covered(g, g)
  {
    forall h | Somewhere(g, h)
      ensures Under(g, h)
    {
      assert h <= h;
    }
  }

  lemma DropCopies(g: Group, i: nat, h: History)
    requires CanDrop(g, i) && Somewhere(Drop(g, i), h)
    ensures Somewhere(g, h)
  {
    var later := Drop(g, i);
    if exists j :: 0 <= j < |later.replicas| && h in CopiesOf(later.replicas[j]) {
      var j :| 0 <= j < |later.replicas| && h in CopiesOf(later.replicas[j]);
      assert h in CopiesOf(g.replicas[j]);
    }
  }

  lemma AppendIds(base: History, batch: Batch)
    requires Increasing(base) && Increasing([batch]) && IdsBefore(base, [batch])
    ensures Increasing(base + [batch])
    ensures forall x :: HasId(base + [batch], x) ==> HasId(base, x) || HasId([batch], x)
  {
    var h := base + [batch];
    assert [batch][0] == batch;
    forall j, k, x, y | 0 <= j < k < |h| && x in h[j].ids && y in h[k].ids
      ensures x < y
    {
      if k == |base| {
        assert HasId(base, x) && HasId([batch], y);
      }
    }
    forall x | HasId(h, x)
      ensures HasId(base, x) || HasId([batch], x)
    {
      var j :| 0 <= j < |h| && x in h[j].ids;
      if j < |base| {
        assert x in base[j].ids;
      }
    }
  }

  lemma DeliverIdsFit(g: Group, i: nat, acked: bool, todo: History, size: int)
    requires Sound(g) && IdsFit(g, todo, size) && CanDeliver(g, i)
    ensures Sound(Deliver(g, i, acked)) && IdsFit(Deliver(g, i, acked), todo, size)
    ensures forall x :: OwnsId(Deliver(g, i, acked), todo, x) ==> OwnsId(g, todo, x)
  {
    var later, base := Deliver(g, i, acked), g.replicas[i].history;
    assert base in CopiesOf(g.replicas[i]);
    assert Somewhere(g, base);
    AppendIds(base, g.view.batch);
    DeliverSound(g, i, acked);
    hide Sound, Increasing, CopiesOf, Somewhere;
    forall h | Somewhere(later, h)
      ensures IdsBelow(h, size)
      ensures todo != [] ==> IdsBefore(h, todo)
      ensures |h| <= g.view.n ==> IdsBefore(h, [g.view.batch])
      ensures forall x :: HasId(h, x) ==> OwnsId(g, todo, x)
    {
      DeliverCopies(g, i, acked, h);
    }
  }

  lemma ReachSafe(c: Cluster, k: nat, i: nat, acked: bool)
    requires Safe(c) && Can(c, Reach(k, i, acked))
    ensures Safe(After(c, Reach(k, i, acked)))
  {
    DeliverIdsFit(c.groups[k], i, acked, c.todo[k], c.size);
    PutKeepsDisjoint(c, k, Deliver(c.groups[k], i, acked));
  }

  // ---------------------------------------------------------------- the steps of all shards at once

  lemma AllForgottenSafe(c: Cluster, size: int, todo: seq<History>)
    requires Safe(c) && |todo| == |c.groups|
    requires forall k :: 0 <= k < |todo| ==> todo[k] == []
    ensures Safe(c.(groups := Forgotten(c), size := size, todo := todo, activity := Idle))
  {
    var next := c.(groups := Forgotten(c), size := size, todo := todo, activity := Idle);
    forall k | 0 <= k < |c.groups|
      ensures Sound(next.groups[k]) && IdsFit(next.groups[k], todo[k], size)
      ensures forall id :: OwnsId(next.groups[k], todo[k], id) ==> OwnsId(c.groups[k], c.todo[k], id)
    {
      ForgetSound(c.groups[k]);
      forall id | OwnsId(next.groups[k], todo[k], id)
        ensures OwnsId(c.groups[k], c.todo[k], id)
      {
        CoveredOwns(next.groups[k], c.groups[k], [], id);
      }
    }
  }

  lemma StartAddSafe(c: Cluster, batches: seq<History>, newSize: int)
    requires Safe(c) && Can(c, StartAdd(batches, newSize))
    ensures Safe(After(c, StartAdd(batches, newSize)))
  {
    forall k | 0 <= k < |c.groups|
      ensures IdsFit(c.groups[k], batches[k], newSize)
    {
      forall h | Somewhere(c.groups[k], h)
        ensures IdsBelow(h, newSize) && IdsBefore(h, batches[k])
      {
        assert IdsBelow(h, c.size);
      }
    }
    forall k, l, id | 0 <= k < |c.groups| && 0 <= l < |c.groups| && k != l && OwnsId(c.groups[k], batches[k], id)
      ensures !OwnsId(c.groups[l], batches[l], id)
    {
      OldOrNew(c, k, batches[k], id);
      if OwnsId(c.groups[l], batches[l], id) {
        OldOrNew(c, l, batches[l], id);
      }
    }
  }

  lemma OldOrNew(c: Cluster, k: nat, planned: History, id: int)
    requires Safe(c) && k < |c.groups| && c.groups[k].view.Known? && OwnsId(c.groups[k], planned, id)
    ensures (id < c.size && OwnsId(c.groups[k], c.todo[k], id)) || HasId(planned, id)
  {
  }

  lemma SendOneSafe(g: Group, todo: History, size: int)
    requires Sound(g) && IdsFit(g, todo, size) && g.view.Known? && todo != []
    ensures Sound(BeginWrite(g, todo[0])) && IdsFit(BeginWrite(g, todo[0]), todo[1..], size)
    ensures forall id :: OwnsId(BeginWrite(g, todo[0]), todo[1..], id) ==> OwnsId(g, todo, id)
  {
    var first, rest, later := [todo[0]], todo[1..], BeginWrite(g, todo[0]);
    BeginWriteSound(g, todo[0]);
    forall x | HasId(first, x) || HasId(rest, x)
      ensures HasId(todo, x)
    {
      if HasId(rest, x) {
        var j :| 0 <= j < |rest| && x in rest[j].ids;
        assert x in todo[j + 1].ids;
      }
    }
    assert Increasing(rest) && IdsBefore(first, rest) by {
      forall j, k, x, y | 0 <= j < k < |rest| && x in rest[j].ids && y in rest[k].ids
        ensures x < y
      {
        assert x in todo[j + 1].ids && y in todo[k + 1].ids;
      }
      forall x, y | HasId(first, x) && HasId(rest, y)
        ensures x < y
      {
        var k :| 0 <= k < |rest| && y in rest[k].ids;
        assert x in todo[0].ids && y in todo[k + 1].ids;
      }
    }
    forall h | Somewhere(later, h)
      ensures Somewhere(g, h)
    {
      var i :| 0 <= i < |later.replicas| && h in CopiesOf(later.replicas[i]);
      assert h in CopiesOf(g.replicas[i]);
    }
  }

  lemma SendChunksSafe(c: Cluster)
    requires Safe(c) && Can(c, SendChunks)
    ensures Safe(After(c, SendChunks))
  {
    var next := After(c, SendChunks);
    forall k | 0 <= k < |c.groups|
      ensures Sound(next.groups[k]) && IdsFit(next.groups[k], next.todo[k], next.size)
      ensures forall id :: OwnsId(next.groups[k], next.todo[k], id) ==> OwnsId(c.groups[k], c.todo[k], id)
    {
      if c.todo[k] != [] {
        SendOneSafe(c.groups[k], c.todo[k], c.size);
      }
    }
  }

  lemma SettleOneSafe(g: Group, todo: History, size: int)
    requires Sound(g) && IdsFit(g, todo, size) && (g.view.Known? || (CanEndWrite(g) && !g.view.failed))
    ensures Sound(Settled(g)) && IdsFit(Settled(g), todo, size) && Settled(g).view.Known?
    ensures forall id :: OwnsId(Settled(g), todo, id) ==> OwnsId(g, todo, id)
  {
    if g.view.Writing? {
      EndWriteSound(g);
      SameReplicas(EndWrite(g), g);
    }
  }

  lemma FinishChunksSafe(c: Cluster)
    requires Safe(c) && Can(c, FinishChunks)
    ensures Safe(After(c, FinishChunks))
  {
    if SomeFailed(c) {
      AllForgottenSafe(c, c.size, Empty(|c.groups|));
    } else {
      var next := After(c, FinishChunks);
      forall k | 0 <= k < |c.groups|
        ensures Sound(next.groups[k]) && IdsFit(next.groups[k], next.todo[k], next.size)
        ensures next.groups[k].view.Known?
        ensures forall id :: OwnsId(next.groups[k], next.todo[k], id) ==> OwnsId(c.groups[k], c.todo[k], id)
      {
        SettleOneSafe(c.groups[k], c.todo[k], c.size);
      }
    }
  }

  // ---------------------------------------------------------------- every run

  lemma StepSafe(c: Cluster, a: Action)
    requires Safe(c) && Can(c, a)
    ensures Safe(After(c, a))
  {
    match a {
      case Step(k, i, move) =>
        MoveSound(c.groups[k], i, move);
        LocalStepSafe(c, k, AfterMove(c.groups[k], i, move));
      case Sync(k, i, source) =>
        StartSyncSound(c.groups[k], i, source);
        LocalStepSafe(c, k, StartSync(c.groups[k], i, source));
      case StartCheck(k) =>
        BeginCheckSound(c.groups[k]);
        CheckStepSafe(c, k, c.groups[k].(view := Checking([])), Inspecting(k));
      case AskNext =>
        AskSound(c.groups[c.activity.shard]);
        CheckStepSafe(c, c.activity.shard, Ask(c.groups[c.activity.shard]), c.activity);
      case FinishCheck => FinishCheckSafe(c);
      case AbandonCheck =>
        ForgetSound(c.groups[c.activity.shard]);
        CheckStepSafe(c, c.activity.shard, Forget(c.groups[c.activity.shard]), Idle);
      case StartAdd(batches, newSize) => StartAddSafe(c, batches, newSize);
      case SendChunks => SendChunksSafe(c);
      case Reach(k, i, acked) => ReachSafe(c, k, i, acked);
      case Miss(k, i) => MissSafe(c, k, i);
      case FinishChunks => FinishChunksSafe(c);
      case FinishAdd =>
      case Refresh => AllForgottenSafe(c, c.size, c.todo);
      case NewCoordinator => AllForgottenSafe(c, 0, Empty(|c.groups|));
    }
  }

  lemma InitiallySafe(c: Cluster)
    requires Initial(c)
    ensures Safe(c)
  {
    forall k, h | 0 <= k < |c.groups| && Somewhere(c.groups[k], h)
      ensures h == []
    {
      var i :| 0 <= i < |c.groups[k].replicas| && h in CopiesOf(c.groups[k].replicas[i]);
    }
  }

  lemma {:induction false} RunSafe(c: Cluster, actions: seq<Action>)
    requires Safe(c) && IsRun(c, actions)
    ensures Safe(Final(c, actions))
    decreases |actions|
  {
    if actions != [] {
      StepSafe(c, actions[0]);
      RunSafe(After(c, actions[0]), actions[1..]);
    }
  }

  lemma {:induction false} RunOn(c: Cluster, actions: seq<Action>, a: Action)
    requires IsRun(c, actions) && Can(Final(c, actions), a)
    ensures IsRun(c, actions + [a]) && Final(c, actions + [a]) == After(Final(c, actions), a)
    decreases |actions|
  {
    if actions == [] {
      assert [] + [a] == [a];
      assert [a][1..] == [];
    } else {
      assert (actions + [a])[1..] == actions[1..] + [a];
      RunOn(After(c, actions[0]), actions[1..], a);
    }
  }
}

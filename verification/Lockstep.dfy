/** Runs that lose no disk. */
module Lockstep {
  import opened Bytes
  import opened LogFormat
  import opened Histories
  import opened ReplicaGroups
  import opened Clusters
  import opened Guarantees
  import opened Durability

  // The replicas of a shard are never more than one write apart.

  ghost predicate NoDiskLost(g: Group) {
    forall i :: 0 <= i < |g.replicas| ==> g.replicas[i].disk == 0
  }

  ghost predicate NoneStuck(g: Group) {
    forall i :: 0 <= i < |g.replicas| ==> !g.replicas[i].stuck
  }

  ghost predicate WithinOne(g: Group) {
    forall a, b :: Somewhere(g, a) && Somewhere(g, b) ==> |a| <= |b| + 1
  }

  ghost predicate Level(g: Group) {
    && Ahead(g) && NoneStuck(g)
    && WithinOne(g)
    && match g.view
       case Unknown => true
       case Known(n) => forall h :: Somewhere(g, h) ==> |h| == n
       case Writing(n, _, _, failed, acks) =>
         && (forall h :: Somewhere(g, h) ==> n <= |h| <= n + 1)
         && (!failed ==> forall i :: i in acks && i < |g.replicas| ==>
               |g.replicas[i].history| == n + 1 && g.replicas[i].session.None?)
       case Checking(found) =>
         forall i :: 0 <= i < |found| && i < |g.replicas| ==> |g.replicas[i].history| == found[i].lastSeq
  }

  /** Every copy is as long as one there was before. */
  ghost predicate NoNewLength(later: Group, g: Group) {
    forall h :: Somewhere(later, h) ==> exists b :: Somewhere(g, b) && |b| == |h|
  }

  lemma MovedLengths(g: Group, i: nat, move: Move, h: History) returns (b: History)
    requires Sound(g) && Level(g) && CanMove(g, i, move) && !move.LoseDisk? && NoDiskLost(g)
    requires h in CopiesOf(Moved(g, i, move))
    ensures Somewhere(g, b) && |b| == |h|
  {
    var r := g.replicas[i];
    assert r.history in CopiesOf(r) && IsAhead(g, r);
    assert Somewhere(g, r.history);
    if h == r.history {
      b := h;
    } else {
      match move {
        case FetchLog =>
          assert h in CopiesOf(g.replicas[r.session.value.source]);
          b := h;
        case FetchSnapshot =>
          var source := g.replicas[r.session.value.source];
          assert source.history in CopiesOf(source);
          assert Somewhere(g, source.history);
          b := source.history;
        case ApplyRecord =>
          var base := r.session.value.phase.base;
          assert base in CopiesOf(r);
          assert Somewhere(g, base);
          b := base;
        case Checkpoint =>
          assert h in CopiesOf(r);
          b := h;
        case Install =>
          assert h in CopiesOf(r);
          b := h;
        case _ =>
          b := h;
          assert false;
      }
    }
  }

  lemma MoveNoNewLength(g: Group, i: nat, move: Move)
    requires Sound(g) && Level(g) && CanMove(g, i, move) && !move.LoseDisk? && NoDiskLost(g)
    ensures NoNewLength(AfterMove(g, i, move), g)
  {
    var later := AfterMove(g, i, move);
    forall h | Somewhere(later, h)
      ensures exists b :: Somewhere(g, b) && |b| == |h|
    {
      if exists j :: 0 <= j < |later.replicas| && h in CopiesOf(later.replicas[j]) {
        var j :| 0 <= j < |later.replicas| && h in CopiesOf(later.replicas[j]);
        if j == i {
          var b := MovedLengths(g, i, move, h);
        } else {
          assert h in CopiesOf(g.replicas[j]);
          assert Somewhere(g, h);
        }
      } else {
        assert Somewhere(g, h);
      }
    }
  }

  lemma SameLengthsLevel(later: Group, g: Group)
    requires Level(g) && NoNewLength(later, g) && later.view == g.view
    ensures WithinOne(later)
    ensures later.view.Known? ==> forall h :: Somewhere(later, h) ==> |h| == later.view.n
    ensures later.view.Writing? ==> forall h :: Somewhere(later, h) ==> later.view.n <= |h| <= later.view.n + 1
  {
    forall a, b | Somewhere(later, a) && Somewhere(later, b)
      ensures |a| <= |b| + 1
    {
      var c :| Somewhere(g, c) && |c| == |a|;
      var d :| Somewhere(g, d) && |d| == |b|;
    }
  }

  /** A move leaves the replicas the coordinator has heard from as they were. */
  lemma HeardFromStay(g: Group, i: nat, move: Move)
    requires CanMove(g, i, move) && !move.LoseDisk? && g.replicas[i].session.None?
    ensures Moved(g, i, move).history == g.replicas[i].history && Moved(g, i, move).session.None?
  {
  }

  lemma MoveLevel(g: Group, i: nat, move: Move)
    requires Sound(g) && Level(g) && CanMove(g, i, move) && !move.LoseDisk? && NoDiskLost(g)
    ensures Level(AfterMove(g, i, move))
  {
    hide Sound, Ahead, WithinOne, NoneStuck, Somewhere, Moved, IsAhead, NoDiskLost, NoNewLength;
    var later := AfterMove(g, i, move);
    MoveNoNewLength(g, i, move);
    SameLengthsLevel(later, g);
    if move.FetchSnapshot? {
      StillTheSameDisk(g, i, move);
    }
    MoveAhead(g, i, move);
    HeardFrom(g, i, move);
    MoveUnsticks(g, i, move);
    assert later.view == g.view && |later.replicas| == |g.replicas|;
  }

  /** Where no disk is lost, the source has the one it refused its log from. */
  lemma StillTheSameDisk(g: Group, i: nat, move: Move)
    requires Ahead(g) && NoDiskLost(g) && CanMove(g, i, move) && move.FetchSnapshot?
    ensures var s := g.replicas[i].session.value; s.phase.disk == g.replicas[s.source].disk
  {
    assert IsAhead(g, g.replicas[i]);
  }

  /** Only an install that goes back can wedge a disk. */
  lemma MoveUnsticks(g: Group, i: nat, move: Move)
    requires Ahead(g) && NoneStuck(g) && CanMove(g, i, move)
    ensures NoneStuck(AfterMove(g, i, move))
  {
    assert IsAhead(g, g.replicas[i]);
  }

  /** What Level says of the replicas that answered the check, or acknowledged the write. */
  lemma HeardFrom(g: Group, i: nat, move: Move)
    requires Sound(g) && Level(g) && CanMove(g, i, move) && !move.LoseDisk?
    ensures var later := AfterMove(g, i, move);
            && (g.view.Writing? && !g.view.failed ==> forall j :: j in g.view.acks && j < |g.replicas| ==>
                  |later.replicas[j].history| == g.view.n + 1 && later.replicas[j].session.None?)
            && (g.view.Checking? ==> forall j :: 0 <= j < |g.view.found| && j < |g.replicas| ==>
                  |later.replicas[j].history| == g.view.found[j].lastSeq)
  {
    hide Chain, Somewhere, CopiesOf, Ahead, Increasing, WithinOne, Fits;
    assert Checked(g);
    if g.replicas[i].session.None? {
      HeardFromStay(g, i, move);
    }
  }

  lemma DeliverLevel(g: Group, i: nat, acked: bool)
    requires Sound(g) && Level(g) && CanDeliver(g, i) && Ahead(Deliver(g, i, acked))
    ensures Level(Deliver(g, i, acked))
  {
    var later := Deliver(g, i, acked);
    forall h | Somewhere(later, h)
      ensures g.view.n <= |h| <= g.view.n + 1
    {
      DeliverCopies(g, i, acked, h);
    }
  }

  lemma ForgetLevel(g: Group, view: View)
    requires Level(g) && !view.Writing? && Ahead(g.(view := view))
    requires view.Unknown? || view == Checking([])
    ensures Level(g.(view := view))
  {
    SameReplicas(g.(view := view), g);
  }

  lemma ConcludeLevel(g: Group)
    requires Sound(g) && Level(g) && CanConclude(g) && Ahead(Conclude(g))
    ensures Level(Conclude(g))
  {
    SameReplicas(Conclude(g), g);
    assert Checked(g);
    forall h | Somewhere(Conclude(g), h)
      ensures Conclude(g).view.Known? ==> |h| == Conclude(g).view.n
    {
      var i :| 0 <= i < |g.replicas| && h in CopiesOf(g.replicas[i]);
    }
  }

  /** A write that failed nowhere is on every replica, and nobody is syncing. */
  lemma AllWritten(g: Group, h: History)
    requires Acked(g) && Level(g) && CanEndWrite(g) && !g.view.failed && Somewhere(g.(view := Unknown), h)
    ensures |h| == g.view.n + 1
  {
    hide Ahead, WithinOne, NoneStuck;
    var i :| 0 <= i < |g.replicas| && h in CopiesOf(g.replicas[i]);
    assert i in g.view.acks;
  }

  lemma EndWriteLevel(g: Group)
    requires Sound(g) && Level(g) && CanEndWrite(g) && Ahead(EndWrite(g))
    ensures Level(EndWrite(g))
  {
    var later := EndWrite(g);
    SameReplicas(later, g);
    assert Acked(g);
    hide Sound, Ahead, Somewhere, NoneStuck;
    assert NoneStuck(later) by { assert NoneStuck(g); SameStuck(g, later); }
    assert WithinOne(later) by { assert WithinOne(g); }
    if !g.view.failed {
      forall h | Somewhere(later, h)
        ensures |h| == g.view.n + 1
      {
        SameSomewhere(g, later, h);
        AllWritten(g, h);
      }
    }
  }

  lemma SameStuck(g: Group, later: Group)
    requires NoneStuck(g) && later.replicas == g.replicas
    ensures NoneStuck(later)
  {
  }

  lemma SameSomewhere(g: Group, later: Group, h: History)
    requires later.replicas == g.replicas && !later.view.Writing? && Somewhere(later, h)
    ensures Somewhere(g.(view := Unknown), h)
  {
  }

  lemma BeginWriteLevel(g: Group, batch: Batch)
    requires Level(g) && g.view.Known? && Ahead(BeginWrite(g, batch))
    ensures Level(BeginWrite(g, batch))
  {
    var later := BeginWrite(g, batch);
    forall h | Somewhere(later, h)
      ensures Somewhere(g, h)
    {
      var i :| 0 <= i < |later.replicas| && h in CopiesOf(later.replicas[i]);
      assert h in CopiesOf(g.replicas[i]);
    }
  }

  lemma StartSyncLevel(g: Group, i: nat, source: nat)
    requires Level(g) && CanStartSync(g, i, source) && Ahead(StartSync(g, i, source))
    ensures Level(StartSync(g, i, source))
  {
    var later := StartSync(g, i, source);
    forall h | Somewhere(later, h)
      ensures Somewhere(g, h)
    {
      var j :| 0 <= j < |later.replicas| && h in CopiesOf(later.replicas[j]);
      assert h in CopiesOf(g.replicas[j]);
    }
  }

  lemma DropLevel(g: Group, i: nat)
    requires Level(g) && CanDrop(g, i) && Ahead(Drop(g, i))
    ensures Level(Drop(g, i))
  {
    forall h | Somewhere(Drop(g, i), h)
      ensures Somewhere(g, h)
    {
      DropCopies(g, i, h);
    }
  }

  // ---------------------------------------------------------------- every step, every run

  lemma DiskAges(g: Group, i: nat, move: Move)
    requires CanMove(g, i, move)
    ensures g.replicas[i].disk <= Moved(g, i, move).disk
  {
  }

  /** Lost disks stay lost. */
  lemma LossIsForever(c: Cluster, a: Action, k: nat)
    requires Safe(c) && Can(c, a) && k < |c.groups|
    requires |After(c, a).groups| == |c.groups| && NoDiskLost(After(c, a).groups[k])
    ensures NoDiskLost(c.groups[k])
  {
    var g, later := c.groups[k], After(c, a).groups[k];
    hide Sound, IdsFit, Disjoint, InStep, Moved;
    if a.Step? && a.shard == k {
      DiskAges(g, a.replica, a.move);
    }
    assert |later.replicas| == |g.replicas|;
    forall i | 0 <= i < |g.replicas|
      ensures g.replicas[i].disk == 0
    {
      assert later.replicas[i].disk == 0 && g.replicas[i].disk <= later.replicas[i].disk;
    }
  }

  lemma LosingADiskIsALoss(c: Cluster, k: nat, i: nat)
    requires Can(c, Step(k, i, LoseDisk))
    ensures var later := After(c, Step(k, i, LoseDisk));
            |later.groups| == |c.groups| && !NoDiskLost(later.groups[k])
  {
    var later := After(c, Step(k, i, LoseDisk)).groups[k];
    assert later.replicas[i].disk == c.groups[k].replicas[i].disk + 1;
  }

  lemma StepLevel(c: Cluster, a: Action, k: nat)
    requires Safe(c) && Can(c, a) && k < |c.groups| && Level(c.groups[k]) && NoDiskLost(c.groups[k])
    requires a.Step? && a.shard == k ==> !a.move.LoseDisk?
    ensures |After(c, a).groups| == |c.groups| && Level(After(c, a).groups[k])
  {
    var g := c.groups[k];
    if a.Step? && a.shard == k {
      MoveLevel(g, a.replica, a.move);
    } else {
      OtherStepsAhead(c, a, k);
      OtherStepLevel(c, a, k);
    }
  }

  lemma OtherStepLevel(c: Cluster, a: Action, k: nat)
    requires Safe(c) && Can(c, a) && k < |c.groups| && Level(c.groups[k])
    requires !(a.Step? && a.shard == k)
    requires |After(c, a).groups| == |c.groups| && Ahead(After(c, a).groups[k])
    ensures Level(After(c, a).groups[k])
  {
    if a.SendChunks? || a.Reach? || a.Miss? || a.FinishChunks? || a.FinishAdd? {
      WritingLevel(c, a, k);
    } else {
      CheckingLevel(c, a, k);
    }
  }

  lemma CheckingLevel(c: Cluster, a: Action, k: nat)
    requires Safe(c) && Can(c, a) && k < |c.groups| && Level(c.groups[k])
    requires !(a.Step? && a.shard == k) && !a.SendChunks? && !a.Reach? && !a.Miss? && !a.FinishChunks?
    requires |After(c, a).groups| == |c.groups| && Ahead(After(c, a).groups[k])
    ensures Level(After(c, a).groups[k])
  {
    var g := c.groups[k];
    hide Level, Ahead, Sound, IdsFit, Disjoint, InStep;
    match a {
      case Sync(shard, i, source) => if shard == k { StartSyncLevel(g, i, source); }
      case StartCheck(shard) => if shard == k { ForgetLevel(g, Checking([])); }
      case AskNext => if c.activity.shard == k { AskLevel(g); }
      case FinishCheck => if c.activity.shard == k { ConcludeLevel(g); }
      case AbandonCheck => if c.activity.shard == k { ForgetLevel(g, Unknown); }
      case Refresh => ForgetLevel(g, Unknown);
      case NewCoordinator => ForgetLevel(g, Unknown);
      case _ =>
    }
  }

  lemma WritingLevel(c: Cluster, a: Action, k: nat)
    requires Safe(c) && Can(c, a) && k < |c.groups| && Level(c.groups[k])
    requires a.SendChunks? || a.Reach? || a.Miss? || a.FinishChunks? || a.FinishAdd?
    requires |After(c, a).groups| == |c.groups| && Ahead(After(c, a).groups[k])
    ensures Level(After(c, a).groups[k])
  {
    hide Level, Ahead, Safe, Can, After;
    match a {
      case SendChunks => SendLevel(c, k);
      case FinishChunks => FinishLevel(c, k);
      case FinishAdd => NothingMoves(c, k);
      case _ => CallLevel(c, a, k);
    }
  }

  lemma NothingMoves(c: Cluster, k: nat)
    requires Can(c, FinishAdd) && k < |c.groups|
    ensures After(c, FinishAdd).groups == c.groups
  {
  }

  lemma SendLevel(c: Cluster, k: nat)
    requires Can(c, SendChunks) && k < |c.groups| && Level(c.groups[k])
    requires |After(c, SendChunks).groups| == |c.groups| && Ahead(After(c, SendChunks).groups[k])
    ensures Level(After(c, SendChunks).groups[k])
  {
    hide Level, Ahead, NothingLeft;
    if c.todo[k] != [] {
      BeginWriteLevel(c.groups[k], c.todo[k][0]);
    }
  }

  lemma CallLevel(c: Cluster, a: Action, k: nat)
    requires Safe(c) && Can(c, a) && k < |c.groups| && Level(c.groups[k]) && (a.Reach? || a.Miss?)
    requires |After(c, a).groups| == |c.groups| && Ahead(After(c, a).groups[k])
    ensures Level(After(c, a).groups[k])
  {
    hide Level, Ahead, Sound, IdsFit, Disjoint, InStep;
    var g := c.groups[k];
    match a {
      case Reach(shard, i, acked) => if shard == k { DeliverLevel(g, i, acked); }
      case Miss(shard, i) => if shard == k { DropLevel(g, i); }
    }
  }

  lemma FinishLevel(c: Cluster, k: nat)
    requires Safe(c) && Can(c, FinishChunks) && k < |c.groups| && Level(c.groups[k])
    requires |After(c, FinishChunks).groups| == |c.groups| && Ahead(After(c, FinishChunks).groups[k])
    ensures Level(After(c, FinishChunks).groups[k])
  {
    hide Level, Ahead, Sound, IdsFit, Disjoint, InStep, AllKnown, Entries;
    var g := c.groups[k];
    if SomeFailed(c) {
      ForgetLevel(g, Unknown);
    } else if g.view.Writing? {
      EndWriteLevel(g);
    }
  }

  lemma AskLevel(g: Group)
    requires Level(g) && CanAsk(g) && Ahead(Ask(g))
    ensures Level(Ask(g))
  {
    SameReplicas(Ask(g), g);
    hide Somewhere, CopiesOf, NextId, Ahead;
  }

  lemma {:induction false} RunLevel(c: Cluster, actions: seq<Action>, k: nat)
    requires Safe(c) && IsRun(c, actions) && k < |c.groups| && Level(c.groups[k])
    ensures |Final(c, actions).groups| == |c.groups|
    ensures NoDiskLost(Final(c, actions).groups[k]) ==> NoDiskLost(c.groups[k]) && Level(Final(c, actions).groups[k])
    decreases |actions|
  {
    if actions != [] {
      var next := After(c, actions[0]);
      StepSafe(c, actions[0]);
      LedgerStep(c, actions[0]);
      if actions[0].Step? && actions[0].shard == k && actions[0].move.LoseDisk? {
        LosingADiskIsALoss(c, k, actions[0].replica);
        LossRemains(next, actions[1..], k);
      } else if NoDiskLost(next.groups[k]) {
        LossIsForever(c, actions[0], k);
        StepLevel(c, actions[0], k);
        RunLevel(next, actions[1..], k);
      } else {
        LossRemains(next, actions[1..], k);
      }
    }
  }

  lemma {:induction false} LossRemains(c: Cluster, actions: seq<Action>, k: nat)
    requires Safe(c) && IsRun(c, actions) && k < |c.groups| && !NoDiskLost(c.groups[k])
    ensures |Final(c, actions).groups| == |c.groups| && !NoDiskLost(Final(c, actions).groups[k])
    decreases |actions|
  {
    if actions != [] {
      StepSafe(c, actions[0]);
      LedgerStep(c, actions[0]);
      if NoDiskLost(After(c, actions[0]).groups[k]) {
        LossIsForever(c, actions[0], k);
      }
      LossRemains(After(c, actions[0]), actions[1..], k);
    }
  }

  /**
    In every run that has cost shard k no disk, the last sequence numbers of its replicas
    differ by at most one; and when the coordinator believes a number, every replica is at it.
    */
  lemma LastSeqsWithinOne(start: Cluster, actions: seq<Action>, k: nat, i: nat, j: nat)
    requires Initial(start) && IsRun(start, actions)
    requires IsReplica(Final(start, actions), k, i) && IsReplica(Final(start, actions), k, j)
    requires NoDiskLost(Final(start, actions).groups[k])
    ensures var c := Final(start, actions);
            && |HistoryOf(c, k, i)| <= |HistoryOf(c, k, j)| + 1
            && !c.groups[k].replicas[i].stuck
            && (c.groups[k].view.Known? ==> |HistoryOf(c, k, i)| == c.groups[k].view.n)
  {
    InitiallySafe(start);
    SameShards(start, actions);
    forall h | Somewhere(start.groups[k], h)
      ensures h == []
    {
      var r :| 0 <= r < |start.groups[k].replicas| && h in CopiesOf(start.groups[k].replicas[r]);
    }
    RunLevel(start, actions, k);
    OwnCopy(Final(start, actions), k, i);
    OwnCopy(Final(start, actions), k, j);
  }

  lemma {:induction false} SameShards(c: Cluster, actions: seq<Action>)
    requires IsRun(c, actions)
    ensures |Final(c, actions).groups| == |c.groups|
    decreases |actions|
  {
    if actions != [] {
      LedgerStep(c, actions[0]);
      SameShards(After(c, actions[0]), actions[1..]);
    }
  }
}

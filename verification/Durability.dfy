/** What becomes of a write once `add` has returned. */
module Durability {
  import opened Bytes
  import opened LogFormat
  import opened Histories
  import opened ReplicaGroups
  import opened Clusters
  import opened Guarantees

  // The write stays on every replica that keeps its disk, as long as no snapshot is installed
  // over more than it holds.
  //
  // `install_snapshot` checks nothing. `catch_up` asks for a snapshot only after the source has
  // said its log no longer reaches back, so the snapshot is newer than the follower; unless the
  // source lost its disk between the two calls. Every chunk of the reply carries the number of
  // the snapshot's last write, and comparing that number with the follower's own tells, in
  // every run, exactly whether installing would lose anything.

  // ---------------------------------------------------------------- when an install loses nothing

  predicate Installs(move: Move) {
    move.Install? || move.Torn? || move.Wedge?
  }

  /** The step is not an install, whole or torn, of a snapshot with fewer writes than the follower has. */
  predicate InstallsForward(c: Cluster, a: Action) {
    a.Step? && Installs(a.move) && IsShard(c, a.shard) && CanMove(c.groups[a.shard], a.replica, a.move) ==>
      var r := c.groups[a.shard].replicas[a.replica];
      |r.history| <= |r.session.value.phase.snapshot|
  }

  /**
    In every run: an install keeps all the follower has if and only if the snapshot's last
    sequence number is at least the follower's.
    */
  lemma InstallKeepsIff(start: Cluster, actions: seq<Action>, k: nat, i: nat)
    requires Initial(start) && IsRun(start, actions)
    requires Can(Final(start, actions), Step(k, i, Install))
    ensures var c := Final(start, actions);
            var after := After(c, Step(k, i, Install));
            HistoryOf(c, k, i) <= HistoryOf(after, k, i) <==> InstallsForward(c, Step(k, i, Install))
  {
    InitiallySafe(start);
    RunSafe(start, actions);
    var c := Final(start, actions);
    var r := c.groups[k].replicas[i];
    var snapshot := r.session.value.phase.snapshot;
    assert snapshot in CopiesOf(r) && r.history in CopiesOf(r);
    assert Somewhere(c.groups[k], snapshot) && Somewhere(c.groups[k], r.history);
    assert Comparable(snapshot, r.history);
  }

  // ---------------------------------------------------------------- what the ledger says still holds

  /** Nothing at or before write number `n` is ahead of the coordinator. */
  predicate Taken(view: View, n: nat) {
    (view.Known? || view.Writing?) ==> n <= view.n
  }

  ghost predicate EntryKept(c: Cluster, e: Entry) {
    && e.shard < |c.groups|
    && forall i :: i in e.disks ==>
         && i < |c.groups[e.shard].replicas|
         && var r := c.groups[e.shard].replicas[i];
            && e.disks[i] <= r.disk
            && (e.disks[i] == r.disk ==> e.history <= r.history && Taken(c.groups[e.shard].view, |e.history|))
  }

  ghost predicate AcksKept(g: Group) {
    g.view.Writing? ==>
      forall i :: i in g.view.acks && i < |g.replicas| ==>
        && g.view.acks[i].disk <= g.replicas[i].disk
        && (g.view.acks[i].disk == g.replicas[i].disk ==> g.view.acks[i].history <= g.replicas[i].history)
  }

  ghost predicate Durable(c: Cluster) {
    && (forall n :: 0 <= n < |c.ledger| ==> EntryKept(c, c.ledger[n]))
    && (forall k :: 0 <= k < |c.groups| ==> AcksKept(c.groups[k]))
  }

  /** A replica keeps its writes, or has lost a disk. */
  predicate Grows(r: Replica, later: Replica) {
    later.disk > r.disk || (later.disk == r.disk && r.history <= later.history)
  }

  ghost predicate GroupGrows(g: Group, later: Group) {
    && |later.replicas| == |g.replicas|
    && forall i :: 0 <= i < |g.replicas| ==> Grows(g.replicas[i], later.replicas[i])
  }

  lemma InstallGrows(g: Group, i: nat)
    requires Sound(g) && CanMove(g, i, Install)
    requires |g.replicas[i].history| <= |g.replicas[i].session.value.phase.snapshot|
    ensures g.replicas[i].history <= g.replicas[i].session.value.phase.snapshot
  {
    var r := g.replicas[i];
    assert r.history in CopiesOf(r) && r.session.value.phase.snapshot in CopiesOf(r);
    assert Somewhere(g, r.history) && Somewhere(g, r.session.value.phase.snapshot);
    assert Comparable(r.history, r.session.value.phase.snapshot);
  }

  lemma MoveGrows(g: Group, i: nat, move: Move)
    requires Sound(g) && CanMove(g, i, move)
    requires Installs(move) ==> |g.replicas[i].history| <= |g.replicas[i].session.value.phase.snapshot|
    ensures Grows(g.replicas[i], Moved(g, i, move))
  {
    if move.Install? {
      InstallGrows(g, i);
    }
    hide Sound;
  }

  lemma StepGrows(c: Cluster, a: Action, k: nat)
    requires Safe(c) && Can(c, a) && InstallsForward(c, a) && k < |c.groups|
    ensures |After(c, a).groups| == |c.groups| && GroupGrows(c.groups[k], After(c, a).groups[k])
  {
    hide Sound, IdsFit, Disjoint, InStep, Moved;
    if a.Step? && a.shard == k {
      MoveGrows(c.groups[k], a.replica, a.move);
    }
  }

  /** How a step may change one shard's view, as far as numbers are concerned. */
  lemma StepViews(c: Cluster, a: Action, k: nat)
    requires Safe(c) && Can(c, a) && k < |c.groups|
    ensures var before, view := c.groups[k].view, After(c, a).groups[k].view;
            view.Writing? ==>
              && (before.Writing? || before.Known?) && before.n == view.n
              && forall i :: i in view.acks && i < |After(c, a).groups[k].replicas| ==>
                   var r := After(c, a).groups[k].replicas[i];
                   view.acks[i] == Ack(r.history, r.disk)
                   || (before.Writing? && i in before.acks && view.acks[i] == before.acks[i])
  {
    hide Sound, IdsFit, Disjoint, Safe;
    assert |c.todo| == |c.groups| && InStep(c) by { StepsInStep(c); }
  }

  lemma StepsInStep(c: Cluster)
    requires Safe(c)
    ensures |c.todo| == |c.groups| && InStep(c)
  {
  }

  lemma EntryStep(c: Cluster, a: Action, e: Entry)
    requires Safe(c) && Can(c, a) && Safe(After(c, a)) && InstallsForward(c, a) && EntryKept(c, e)
    ensures EntryKept(After(c, a), e)
  {
    var next, k := After(c, a), e.shard;
    StepGrows(c, a, k);
    StepViews(c, a, k);
    hide Safe, Can, After, InstallsForward;
    forall i | i in e.disks
      ensures i < |next.groups[k].replicas| && e.disks[i] <= next.groups[k].replicas[i].disk
      ensures e.disks[i] == next.groups[k].replicas[i].disk ==>
                e.history <= next.groups[k].replicas[i].history && Taken(next.groups[k].view, |e.history|)
    {
      assert Grows(c.groups[k].replicas[i], next.groups[k].replicas[i]);
      if e.disks[i] == next.groups[k].replicas[i].disk && next.groups[k].view.Known? {
        KnownBounds(next, k, i);
      }
    }
  }

  lemma KnownBounds(c: Cluster, k: nat, i: nat)
    requires Safe(c) && IsReplica(c, k, i) && c.groups[k].view.Known?
    ensures |HistoryOf(c, k, i)| <= c.groups[k].view.n
  {
    OwnCopy(c, k, i);
  }

  lemma AcksStep(c: Cluster, a: Action, k: nat)
    requires Safe(c) && Can(c, a) && InstallsForward(c, a) && k < |c.groups| && AcksKept(c.groups[k])
    ensures AcksKept(After(c, a).groups[k])
  {
    StepGrows(c, a, k);
    StepViews(c, a, k);
    hide Safe, Can, After, InstallsForward;
    var g, later := c.groups[k], After(c, a).groups[k];
    if later.view.Writing? {
      forall i | i in later.view.acks && i < |later.replicas|
        ensures later.view.acks[i].disk <= later.replicas[i].disk
        ensures later.view.acks[i].disk == later.replicas[i].disk ==>
                  later.view.acks[i].history <= later.replicas[i].history
      {
        assert Grows(g.replicas[i], later.replicas[i]);
      }
    }
  }

  /** The entry for the chunk of shard k, if that shard has one. */
  lemma EntryOfAcks(g: Group, k: nat, next: Cluster)
    requires Sound(g) && AcksKept(g) && g.view.Writing? && 0 in g.view.acks
    requires k < |next.groups| && next.groups[k].replicas == g.replicas && next.groups[k].view == Known(g.view.n + 1)
    ensures EntryKept(next, EntryFor(k, g.view))
  {
    assert Acked(g);
    forall i | i in g.view.acks
      ensures g.view.acks[i].history == g.view.acks[0].history
    {
      AckedAlike(g, i, 0);
    }
  }

  lemma {:induction false} EntriesKept(c: Cluster, next: Cluster, k: nat)
    requires Safe(c) && Durable(c) && k <= |c.groups| == |next.groups|
    requires forall j :: 0 <= j < |c.groups| ==> next.groups[j] == Settled(c.groups[j])
    requires forall j :: 0 <= j < |c.groups| && c.groups[j].view.Writing? ==> !c.groups[j].view.failed
    ensures forall n :: 0 <= n < |Entries(c, k)| ==> EntryKept(next, Entries(c, k)[n])
  {
    hide Sound, EntryKept, AcksKept, IdsFit, Disjoint, InStep, EntryFor;
    if k > 0 {
      EntriesKept(c, next, k - 1);
      var g := c.groups[k - 1];
      if g.view.Writing? && 0 in g.view.acks {
        assert next.groups[k - 1] == EndWrite(g);
        EntryOfAcks(g, k - 1, next);
      }
    }
  }

  lemma LedgerStep(c: Cluster, a: Action)
    requires Can(c, a)
    ensures |After(c, a).groups| == |c.groups|
    ensures After(c, a).ledger
            == c.ledger + if a.FinishChunks? && !SomeFailed(c) then Entries(c, |c.groups|) else []
  {
    assert c.ledger + [] == c.ledger;
  }

  lemma NewEntriesKept(c: Cluster)
    requires Safe(c) && Durable(c) && Can(c, FinishChunks) && !SomeFailed(c)
    ensures forall n :: 0 <= n < |Entries(c, |c.groups|)| ==>
              EntryKept(After(c, FinishChunks), Entries(c, |c.groups|)[n])
  {
    EntriesKept(c, After(c, FinishChunks), |c.groups|);
  }

  lemma StepDurable(c: Cluster, a: Action)
    requires Safe(c) && Durable(c) && Can(c, a) && InstallsForward(c, a)
    ensures Durable(After(c, a))
  {
    hide Safe, Can, After, InstallsForward, EntryKept, AcksKept, Entries;
    StepSafe(c, a);
    LedgerStep(c, a);
    var next := After(c, a);
    if a.FinishChunks? && !SomeFailed(c) {
      NewEntriesKept(c);
    }
    forall k | 0 <= k < |next.groups|
      ensures AcksKept(next.groups[k])
    {
      AcksStep(c, a, k);
    }
    forall n | 0 <= n < |c.ledger|
      ensures EntryKept(next, c.ledger[n])
    {
      EntryStep(c, a, c.ledger[n]);
    }
  }

  ghost predicate AllForward(c: Cluster, actions: seq<Action>)
    requires IsRun(c, actions)
    decreases |actions|
  {
    actions == [] || (InstallsForward(c, actions[0]) && AllForward(After(c, actions[0]), actions[1..]))
  }

  lemma {:induction false} RunDurable(c: Cluster, actions: seq<Action>)
    requires Safe(c) && Durable(c) && IsRun(c, actions) && AllForward(c, actions)
    ensures Durable(Final(c, actions)) && Safe(Final(c, actions))
    decreases |actions|
  {
    if actions != [] {
      StepSafe(c, actions[0]);
      StepDurable(c, actions[0]);
      RunDurable(After(c, actions[0]), actions[1..]);
    }
  }

  /**
    A write acknowledged by `add`, in every later state of a run whose installs go forward:
    each replica still on the disk it had holds it, with all before it. While there is one,
    whatever the coordinator sends next to that shard gets a later number.
    */
  lemma AcknowledgedWritesStay(start: Cluster, actions: seq<Action>, n: nat, i: nat)
    requires Initial(start) && IsRun(start, actions) && AllForward(start, actions)
    requires n < |Final(start, actions).ledger| && i in Final(start, actions).ledger[n].disks
    ensures var c := Final(start, actions);
            var e := c.ledger[n];
            && IsReplica(c, e.shard, i)
            && (c.groups[e.shard].replicas[i].disk == e.disks[i] ==>
                  && e.history <= HistoryOf(c, e.shard, i)
                  && var view := c.groups[e.shard].view;
                     (view.Writing? ==> view.n + 1 > |e.history|))
  {
    InitiallySafe(start);
    RunDurable(start, actions);
    assert EntryKept(Final(start, actions), Final(start, actions).ledger[n]);
  }

  // ---------------------------------------------------------------- what a successful round records

  lemma {:induction false} EntryIsListed(c: Cluster, k: nat, upto: nat) returns (n: nat)
    requires k < upto <= |c.groups| && c.groups[k].view.Writing? && 0 in c.groups[k].view.acks
    ensures n < |Entries(c, upto)| && Entries(c, upto)[n] == EntryFor(k, c.groups[k].view)
  {
    hide EntryFor;
    if upto == k + 1 {
      n := |Entries(c, k)|;
    } else {
      n := EntryIsListed(c, k, upto - 1);
    }
  }

  /** When a round of chunks succeeds, each one is in the ledger, acknowledged by every replica. */
  lemma SuccessIsRecorded(c: Cluster, k: nat) returns (n: nat)
    requires Safe(c) && Can(c, FinishChunks) && !SomeFailed(c)
    requires k < |c.groups| && c.groups[k].view.Writing? && |c.groups[k].replicas| > 0
    ensures |c.ledger| <= n < |After(c, FinishChunks).ledger|
    ensures var e, g := After(c, FinishChunks).ledger[n], c.groups[k];
            && e.shard == k
            && (forall i: nat :: i < |g.replicas| <==> i in e.disks)
            && |e.history| == g.view.n + 1 && e.history[g.view.n] == g.view.batch
  {
    hide *;
    EveryoneAcked(c, k);
    LedgerStep(c, FinishChunks);
    var m := EntryIsListed(c, k, |c.groups|);
    var next, g := After(c, FinishChunks), c.groups[k];
    assert next.ledger == c.ledger + Entries(c, |c.groups|);
    n := |c.ledger| + m;
    var e := next.ledger[n];
    assert e == EntryFor(k, g.view);
    assert |e.history| == g.view.n + 1 && e.history[g.view.n] == g.view.batch;
    assert forall i: nat :: i < |g.replicas| <==> i in e.disks;
  }

  lemma EveryoneAcked(c: Cluster, k: nat)
    requires Safe(c) && Can(c, FinishChunks) && !SomeFailed(c)
    requires k < |c.groups| && c.groups[k].view.Writing? && |c.groups[k].replicas| > 0
    ensures var g := c.groups[k];
            && (forall i: nat :: i < |g.replicas| <==> i in g.view.acks)
            && |g.view.acks[0].history| == g.view.n + 1 && g.view.acks[0].history[g.view.n] == g.view.batch
  {
    var g := c.groups[k];
    assert Acked(g) && !g.view.failed && g.view.pending == {};
    assert 0 in g.view.acks;
    assert Somewhere(g, g.view.acks[0].history);
    assert Fits(g.view, g.view.acks[0].history);
  }

  // ---------------------------------------------------------------- when installs do go forward

  /** Replica r will move forward if it installs what it holds, or is about to fetch. */
  predicate IsAhead(g: Group, r: Replica) {
    r.session.Some? ==>
      var s := r.session.value;
      match s.phase
      case Refused(disk) =>
        s.source < |g.replicas| ==>
          && disk <= g.replicas[s.source].disk
          && (disk == g.replicas[s.source].disk ==> |r.history| < g.replicas[s.source].snapshotSeq)
      case Carrying(snapshot) => |r.history| < |snapshot|
      case _ => true
  }

  ghost predicate Ahead(g: Group) {
    forall i :: 0 <= i < |g.replicas| ==> IsAhead(g, g.replicas[i])
  }

  /** As a source, a replica's snapshot only gets newer, unless its disk is lost. */
  predicate SnapshotStays(r: Replica, later: Replica) {
    later.disk > r.disk || (later.disk == r.disk && later.snapshotSeq >= r.snapshotSeq)
  }

  ghost predicate SnapshotsStay(g: Group, later: Group) {
    && |later.replicas| == |g.replicas|
    && forall i :: 0 <= i < |g.replicas| ==> SnapshotStays(g.replicas[i], later.replicas[i])
  }

  lemma StillAhead(g: Group, later: Group, r: Replica)
    requires IsAhead(g, r) && SnapshotsStay(g, later)
    ensures IsAhead(later, r)
  {
  }

  /** No snapshot is fetched from a source that has lost its disk since it refused its log. */
  predicate SameDisk(c: Cluster, a: Action) {
    a.Step? && a.move.FetchSnapshot? && IsShard(c, a.shard) && CanMove(c.groups[a.shard], a.replica, FetchSnapshot) ==>
      var g := c.groups[a.shard];
      var s := g.replicas[a.replica].session.value;
      s.phase.disk == g.replicas[s.source].disk
  }

  lemma MovedAhead(g: Group, i: nat, move: Move)
    requires Sound(g) && Ahead(g) && CanMove(g, i, move)
    requires move.FetchSnapshot? ==> var s := g.replicas[i].session.value; s.phase.disk == g.replicas[s.source].disk
    ensures SnapshotStays(g.replicas[i], Moved(g, i, move))
    ensures IsAhead(g, Moved(g, i, move))
  {
    hide Chain, Somewhere, Fits, Increasing, Checked, Acked;
    assert IsAhead(g, g.replicas[i]);
  }

  lemma MoveAhead(g: Group, i: nat, move: Move)
    requires Sound(g) && Ahead(g) && CanMove(g, i, move)
    requires move.FetchSnapshot? ==> var s := g.replicas[i].session.value; s.phase.disk == g.replicas[s.source].disk
    ensures Ahead(AfterMove(g, i, move))
  {
    MovedAhead(g, i, move);
    hide Sound, CanMove, Moved, IsAhead;
    var later := AfterMove(g, i, move);
    assert SnapshotsStay(g, later);
    forall j | 0 <= j < |later.replicas|
      ensures IsAhead(later, later.replicas[j])
    {
      StillAhead(g, later, later.replicas[j]);
    }
  }

  /** The snapshots stay, and every replica is as before, but for a session that may have begun. */
  ghost predicate SessionsMayBegin(g: Group, later: Group) {
    && SnapshotsStay(g, later)
    && forall j :: 0 <= j < |g.replicas| ==>
         || later.replicas[j] == g.replicas[j]
         || later.replicas[j].session.None?
         || later.replicas[j].session.value.phase.Asking?
  }

  lemma UndisturbedAhead(g: Group, later: Group)
    requires Ahead(g) && SessionsMayBegin(g, later)
    ensures Ahead(later)
  {
    hide SnapshotStays;
    forall j | 0 <= j < |later.replicas|
      ensures IsAhead(later, later.replicas[j])
    {
      assert IsAhead(g, later.replicas[j]);
      StillAhead(g, later, later.replicas[j]);
    }
  }

  lemma OtherStepsUndisturbed(c: Cluster, a: Action, k: nat)
    requires Safe(c) && Can(c, a) && k < |c.groups| && !(a.Step? && a.shard == k)
    ensures |After(c, a).groups| == |c.groups| && SessionsMayBegin(c.groups[k], After(c, a).groups[k])
  {
    hide Sound, IdsFit, Disjoint, InStep, AllKnown, AllReplied, NothingLeft, SomeFailed, Entries, Largest;
  }

  /** Steps other than a replica's own touch no session that has got further than asking. */
  lemma OtherStepsAhead(c: Cluster, a: Action, k: nat)
    requires Safe(c) && Can(c, a) && k < |c.groups| && Ahead(c.groups[k])
    requires !(a.Step? && a.shard == k)
    ensures |After(c, a).groups| == |c.groups| && Ahead(After(c, a).groups[k])
  {
    hide Safe, Can, After, Ahead, SessionsMayBegin;
    OtherStepsUndisturbed(c, a, k);
    UndisturbedAhead(c.groups[k], After(c, a).groups[k]);
  }

  lemma StepAhead(c: Cluster, a: Action, k: nat)
    requires Safe(c) && Can(c, a) && SameDisk(c, a) && k < |c.groups| && Ahead(c.groups[k])
    ensures |After(c, a).groups| == |c.groups| && Ahead(After(c, a).groups[k])
  {
    if a.Step? && a.shard == k {
      hide Sound, Ahead;
      MoveAhead(c.groups[k], a.replica, a.move);
    } else {
      OtherStepsAhead(c, a, k);
    }
  }

  ghost predicate AllSameDisk(c: Cluster, actions: seq<Action>)
    requires IsRun(c, actions)
    decreases |actions|
  {
    actions == [] || (SameDisk(c, actions[0]) && AllSameDisk(After(c, actions[0]), actions[1..]))
  }

  lemma {:induction false} SameDiskInstallsForward(c: Cluster, actions: seq<Action>)
    requires Safe(c) && IsRun(c, actions) && AllSameDisk(c, actions)
    requires forall k :: 0 <= k < |c.groups| ==> Ahead(c.groups[k])
    ensures AllForward(c, actions)
    decreases |actions|
  {
    if actions != [] {
      StepSafe(c, actions[0]);
      forall k | 0 <= k < |c.groups|
        ensures |After(c, actions[0]).groups| == |c.groups| && Ahead(After(c, actions[0]).groups[k])
      {
        StepAhead(c, actions[0], k);
      }
      assert |After(c, actions[0]).groups| == |c.groups|;
      SameDiskInstallsForward(After(c, actions[0]), actions[1..]);
    }
  }

  // ---------------------------------------------------------------- disks that cannot be opened

  /** The disk of every replica can be opened. */
  ghost predicate NobodyStuck(c: Cluster) {
    forall k, i :: 0 <= k < |c.groups| && 0 <= i < |c.groups[k].replicas| ==> !c.groups[k].replicas[i].stuck
  }

  lemma MoveUnsticks(g: Group, i: nat, move: Move)
    requires CanMove(g, i, move) && !g.replicas[i].stuck
    requires Installs(move) ==> |g.replicas[i].history| <= |g.replicas[i].session.value.phase.snapshot|
    ensures !Moved(g, i, move).stuck
  {
  }

  lemma StepUnsticks(c: Cluster, a: Action)
    requires Safe(c) && Can(c, a) && InstallsForward(c, a) && NobodyStuck(c)
    ensures NobodyStuck(After(c, a))
  {
    hide Sound, IdsFit, Disjoint, InStep, Moved;
    if a.Step? {
      MoveUnsticks(c.groups[a.shard], a.replica, a.move);
    }
  }

  /** Only an install of fewer writes than the follower has can leave a disk that cannot be opened. */
  lemma {:induction false} ForwardNeverStuck(c: Cluster, actions: seq<Action>)
    requires Safe(c) && IsRun(c, actions) && AllForward(c, actions) && NobodyStuck(c)
    ensures NobodyStuck(Final(c, actions))
    decreases |actions|
  {
    if actions != [] {
      StepSafe(c, actions[0]);
      StepUnsticks(c, actions[0]);
      hide Safe, NobodyStuck, InstallsForward;
      ForwardNeverStuck(After(c, actions[0]), actions[1..]);
    }
  }

  /**
    Replicas may crash and lose disks at any other moment: unless a source loses its disk
    after refusing its log and before sending its snapshot, every install goes forward, so
    acknowledged writes stay, and every disk can be opened.
    */
  lemma NoLossWhileFetching(start: Cluster, actions: seq<Action>)
    requires Initial(start) && IsRun(start, actions) && AllSameDisk(start, actions)
    ensures AllForward(start, actions)
    ensures Durable(Final(start, actions)) && NobodyStuck(Final(start, actions))
  {
    InitiallySafe(start);
    SameDiskInstallsForward(start, actions);
    RunDurable(start, actions);
    ForwardNeverStuck(start, actions);
  }
}

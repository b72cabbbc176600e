/** The replicas of a shard, and what the coordinator knows of them. */
module ReplicaGroups {
  import opened Bytes
  import opened LogFormat
  import opened Histories

  // A replica's history is what its disk holds (`Disks.LifeRecovers`: a crash at any disk step,
  // and a restart, leave it alone, and a write in flight is in it or not). Every call to a
  // replica is one step under its lock. A write call is applied and acknowledged, applied with
  // its reply lost, or never applied. A `SyncFrom` holds the follower's lock from start to end,
  // and may outlive the coordinator's interest in it.

  /** How far a follower's `catch_up` has come. */
  datatype Phase =
    | Asking                      // about to fetch the source's log
    | Copying(base: History)      // the log arrived: it reaches to the end of `base`
    | Refused(disk: nat)          // the log no longer reaches back, said the source from this disk
    | Carrying(snapshot: History) // the snapshot arrived: taken from this history

  datatype Session = Session(source: nat, phase: Phase)

  /** `disk` counts the disks this replica has lost; a `stuck` one has a disk that cannot be opened. */
  datatype Replica = Replica(
    history: History,
    snapshotSeq: nat,
    up: bool,
    stuck: bool,
    disk: nat,
    session: Option<Session>)

  /** What a Status reply says: the last write's number, and the first id above all those stored. */
  datatype Found = Found(lastSeq: nat, nextId: int)

  /** The state of a replica when it acknowledged the write in flight. */
  datatype Ack = Ack(history: History, disk: nat)

  /** The coordinator's side: `_last_seqs[shard]`, or the calls that are under way. */
  datatype View =
    | Unknown
    | Checking(found: seq<Found>)
    | Known(n: nat)
    | Writing(n: nat, batch: Batch, pending: set<nat>, failed: bool, acks: map<nat, Ack>)

  datatype Group = Group(replicas: seq<Replica>, view: View)

  // ---------------------------------------------------------------- global ids

  ghost predicate HasId(h: History, id: int) {
    exists j :: 0 <= j < |h| && id in h[j].ids
  }

  ghost predicate IncreasingIds(ids: seq<int>) {
    forall a, b :: 0 <= a < b < |ids| ==> ids[a] < ids[b]
  }

  /** Ids grow within each write and from write to write. */
  ghost predicate Increasing(h: History) {
    && (forall j :: 0 <= j < |h| ==> IncreasingIds(h[j].ids))
    && (forall j, k, x, y :: 0 <= j < k < |h| && x in h[j].ids && y in h[k].ids ==> x < y)
  }

  /** Every id of `h` is smaller than every id of `later`. */
  ghost predicate IdsBefore(h: History, later: History) {
    forall x, y :: HasId(h, x) && HasId(later, y) ==> x < y
  }

  ghost predicate IdsBelow(h: History, limit: int) {
    forall x :: HasId(h, x) ==> x < limit
  }

  /** The ids a shard stores, in the order of its local ids. */
  function GlobalIds(h: History): (ids: seq<int>)
    ensures forall j, x :: 0 <= j < |h| && x in h[j].ids ==> x in ids
  {
    if h == [] then []
    else
      assert forall j :: 0 <= j < |h| - 1 ==> h[..|h| - 1][j] == h[j];
      GlobalIds(h[..|h| - 1]) + h[|h| - 1].ids
  }

  function Max(ids: seq<int>): (m: int)
    requires ids != []
    ensures m in ids && forall x :: x in ids ==> x <= m
  {
    if |ids| == 1 then ids[0]
    else
      var m := Max(ids[1..]);
      assert forall x :: x in ids ==> x == ids[0] || x in ids[1..];
      if ids[0] > m then ids[0] else m
  }

  /** `next_global_id`: `max(self.global_ids, default=-1) + 1`. */
  function NextId(h: History): (next: int)
    ensures IdsBelow(h, next)
  {
    assert forall x :: HasId(h, x) ==> x in GlobalIds(h);
    if GlobalIds(h) == [] then 0 else Max(GlobalIds(h)) + 1
  }

  // ---------------------------------------------------------------- copies of the history

  /** The histories a replica stands for: its own, and what its session has fetched. */
  function CopiesOf(r: Replica): set<History> {
    {r.history} +
    if r.session.None? then {}
    else
      match r.session.value.phase
      case Copying(base) => {base}
      case Carrying(snapshot) => {snapshot}
      case _ => {}
  }

  /** `h` is on some replica, on its way to one, or was there when it acknowledged the write in flight. */
  ghost predicate Somewhere(g: Group, h: History) {
    || (exists i :: 0 <= i < |g.replicas| && h in CopiesOf(g.replicas[i]))
    || (g.view.Writing? && exists i :: i in g.view.acks && g.view.acks[i].history == h)
  }

  /** `h` is the start of something that is somewhere. */
  ghost predicate Under(g: Group, h: History) {
    exists b :: Somewhere(g, b) && h <= b
  }

  ghost predicate Covered(later: Group, g: Group) {
    forall h :: Somewhere(later, h) ==> Under(g, h)
  }

  ghost predicate Chain(g: Group) {
    forall a, b :: Somewhere(g, a) && Somewhere(g, b) ==> Comparable(a, b)
  }

  /** No copy is longer than what the coordinator believes, but for the write it is sending. */
  predicate Fits(view: View, h: History) {
    match view
    case Known(n) => |h| <= n
    case Writing(n, batch, _, _, _) => |h| <= n || (|h| == n + 1 && h[n] == batch)
    case _ => true
  }

  ghost predicate Checked(g: Group) {
    g.view.Checking? ==>
      && |g.view.found| <= |g.replicas|
      && forall i :: 0 <= i < |g.view.found| ==>
           && g.replicas[i].session.None?
           && |g.replicas[i].history| <= g.view.found[i].lastSeq
           && IdsBelow(g.replicas[i].history, g.view.found[i].nextId)
  }

  ghost predicate Acked(g: Group) {
    g.view.Writing? ==>
      && (forall i :: i in g.view.acks ==> i < |g.replicas| && |g.view.acks[i].history| == g.view.n + 1)
      && (!g.view.failed ==> forall i: nat :: i < |g.replicas| ==> i in g.view.pending || i in g.view.acks)
  }

  /** What every step keeps. */
  ghost predicate Sound(g: Group) {
    && Chain(g)
    && (forall h :: Somewhere(g, h) ==> Fits(g.view, h) && Increasing(h))
    && Checked(g)
    && Acked(g)
    && forall i :: 0 <= i < |g.replicas| ==> g.replicas[i].snapshotSeq <= |g.replicas[i].history|
  }

  lemma PrefixFacts(a: History, b: History)
    requires a <= b
    ensures forall view :: Fits(view, b) ==> Fits(view, a)
    ensures Increasing(b) ==> Increasing(a)
    ensures forall x :: HasId(a, x) ==> HasId(b, x)
  {
    assert forall j :: 0 <= j < |a| ==> a[j] == b[j];
  }

  lemma CoveredChain(later: Group, g: Group)
    requires Covered(later, g) && Chain(g)
    ensures Chain(later)
  {
    forall a, b | Somewhere(later, a) && Somewhere(later, b)
      ensures Comparable(a, b)
    {
      assert Under(g, a) && Under(g, b);
      var c :| Somewhere(g, c) && a <= c;
      var d :| Somewhere(g, d) && b <= d;
      assert Comparable(c, d);
    }
  }

  /** Whatever only moves, cuts or copies what is already there keeps the copies sound. */
  lemma CoveredSound(later: Group, g: Group)
    requires Covered(later, g) && Sound(g) && later.view == g.view
    ensures Chain(later)
    ensures forall h :: Somewhere(later, h) ==> Fits(later.view, h) && Increasing(h)
  {
    CoveredChain(later, g);
    forall h | Somewhere(later, h)
      ensures Fits(later.view, h) && Increasing(h)
    {
      assert Under(g, h);
      var b :| Somewhere(g, b) && h <= b;
      PrefixFacts(h, b);
    }
  }

  // ---------------------------------------------------------------- steps no coordinator asked for

  /**
    Steps of one replica. Losing a disk happens while it is down; it comes back empty. An
    install of fewer writes than the replica has may be torn by a crash: some of the later
    writes are then still in the log, and are kept (`Torn`), or the log jumps past the
    snapshot, and the disk cannot be opened (`Wedge`).
    */
  datatype Move =
    | Crash | Restart | LoseDisk | Checkpoint
    | FetchLog | ApplyRecord | FetchSnapshot | Install | Torn(kept: nat) | Wedge | EndSync

  predicate CanMove(g: Group, i: nat, move: Move) {
    && i < |g.replicas|
    && var r := g.replicas[i];
       var syncing := r.up && r.session.Some? && r.session.value.source < |g.replicas|;
       match move
       case Crash => r.up
       case Restart => !r.up && !r.stuck
       case LoseDisk => !r.up
       case Checkpoint => r.up
       case FetchLog => syncing && r.session.value.phase.Asking? && g.replicas[r.session.value.source].up
       case ApplyRecord => syncing && r.session.value.phase.Copying? && |r.history| < |r.session.value.phase.base|
       case FetchSnapshot => syncing && r.session.value.phase.Refused? && g.replicas[r.session.value.source].up
       case Install => syncing && r.session.value.phase.Carrying?
       case Torn(kept) =>
         && syncing && r.session.value.phase.Carrying? && |r.session.value.phase.snapshot| < |r.history|
         && |r.session.value.phase.snapshot| <= kept <= |r.history|
       case Wedge =>
         syncing && r.session.value.phase.Carrying? && |r.session.value.phase.snapshot| < |r.history|
       case EndSync => r.session.Some?
  }

  function Moved(g: Group, i: nat, move: Move): Replica
    requires CanMove(g, i, move)
  {
    var r := g.replicas[i];
    match move
    case Crash => r.(up := false, session := None)
    case Restart => r.(up := true, session := None)
    case LoseDisk => r.(history := [], snapshotSeq := 0, stuck := false, disk := r.disk + 1, session := None)
    case Checkpoint => r.(snapshotSeq := |r.history|)
    case FetchLog =>
      var from := r.session.value.source;
      var source := g.replicas[from];
      r.(session := Some(Session(from, if |r.history| < source.snapshotSeq then Refused(source.disk)
                                       else Copying(source.history))))
    case ApplyRecord => r.(history := r.history + [r.session.value.phase.base[|r.history|]])
    case FetchSnapshot =>
      var from := r.session.value.source;
      var source := g.replicas[from];
      r.(session := Some(Session(from, Carrying(if source.snapshotSeq <= |source.history|
                                                then source.history[..source.snapshotSeq] else []))))
    case Install =>
      var snapshot := r.session.value.phase.snapshot;
      r.(history := snapshot, snapshotSeq := |snapshot|,
         session := Some(Session(r.session.value.source, Asking)))
    case Torn(kept) =>
      r.(history := r.history[..kept], snapshotSeq := |r.session.value.phase.snapshot|, up := false, session := None)
    case Wedge =>
      var snapshot := r.session.value.phase.snapshot;
      r.(history := snapshot, snapshotSeq := |snapshot|, up := false, stuck := true, session := None)
    case EndSync => r.(session := None)
  }

  function AfterMove(g: Group, i: nat, move: Move): Group
    requires CanMove(g, i, move)
  {
    g.(replicas := g.replicas[i := Moved(g, i, move)])
  }

  lemma MoveCovers(g: Group, i: nat, move: Move)
    requires Sound(g) && CanMove(g, i, move)
    ensures forall h :: h in CopiesOf(Moved(g, i, move)) ==> Under(g, h)
  {
    var r, r' := g.replicas[i], Moved(g, i, move);
    assert r.history in CopiesOf(r);
    assert Somewhere(g, r.history);
    forall h | h in CopiesOf(r')
      ensures Under(g, h)
    {
      match move {
        case LoseDisk =>
          assert [] <= r.history;
        case FetchLog =>
          var source := g.replicas[r.session.value.source];
          assert source.history in CopiesOf(source);
          assert Somewhere(g, source.history);
        case FetchSnapshot =>
          var source := g.replicas[r.session.value.source];
          assert source.history in CopiesOf(source);
          assert Somewhere(g, source.history);
          assert h == r.history || h <= source.history;
        case ApplyRecord =>
          var base := r.session.value.phase.base;
          assert base in CopiesOf(r);
          assert Somewhere(g, base);
          assert Comparable(r.history, base);
          assert h <= base;
        case Install =>
          var snapshot := r.session.value.phase.snapshot;
          assert snapshot in CopiesOf(r);
          assert Somewhere(g, snapshot);
        case Torn(kept) =>
          assert h <= r.history;
        case Wedge =>
          var snapshot := r.session.value.phase.snapshot;
          assert snapshot in CopiesOf(r);
          assert Somewhere(g, snapshot);
        case _ =>
          assert h in CopiesOf(r);
          assert Somewhere(g, h);
      }
    }
  }

  /** A group with one replica replaced by one whose copies were already there. */
  lemma ReplaceCovers(g: Group, i: nat, r: Replica)
    requires i < |g.replicas|
    requires forall h :: h in CopiesOf(r) ==> Under(g, h)
    ensures Covered(g.(replicas := g.replicas[i := r]), g)
  {
    var later := g.(replicas := g.replicas[i := r]);
    forall h | Somewhere(later, h)
      ensures Under(g, h)
    {
      if exists j :: 0 <= j < |later.replicas| && h in CopiesOf(later.replicas[j]) {
        var j :| 0 <= j < |later.replicas| && h in CopiesOf(later.replicas[j]);
        if j != i {
          assert h in CopiesOf(g.replicas[j]);
          assert Somewhere(g, h);
        }
      } else {
        assert Somewhere(g, h);
      }
    }
  }

  lemma MoveSound(g: Group, i: nat, move: Move)
    requires Sound(g) && CanMove(g, i, move)
    ensures Sound(AfterMove(g, i, move)) && Covered(AfterMove(g, i, move), g)
  {
    var later := AfterMove(g, i, move);
    MoveCovers(g, i, move);
    ReplaceCovers(g, i, Moved(g, i, move));
    CoveredSound(later, g);
    assert Checked(later) by {
      if g.view.Checking? && i < |g.view.found| {
        PrefixFacts([], g.replicas[i].history);
      }
    }
  }

  // ---------------------------------------------------------------- steps of the coordinator

  /** `repair` asks replica i to sync from another. */
  predicate CanStartSync(g: Group, i: nat, source: nat) {
    && i < |g.replicas| && source < |g.replicas| && source != i
    && g.replicas[i].up && g.replicas[i].session.None?
    && (g.view.Unknown? || g.view.Known?)
  }

  function StartSync(g: Group, i: nat, source: nat): Group
    requires CanStartSync(g, i, source)
  {
    g.(replicas := g.replicas[i := g.replicas[i].(session := Some(Session(source, Asking)))])
  }

  /** The next replica's Status, answered under its lock. */
  predicate CanAsk(g: Group) {
    && g.view.Checking?
    && var i := |g.view.found|;
       i < |g.replicas| && g.replicas[i].up && g.replicas[i].session.None?
  }

  function Ask(g: Group): Group
    requires CanAsk(g)
  {
    var h := g.replicas[|g.view.found|].history;
    g.(view := Checking(g.view.found + [Found(|h|, NextId(h))]))
  }

  predicate CanConclude(g: Group) {
    g.view.Checking? && |g.view.found| == |g.replicas| > 0
  }

  predicate InAgreement(found: seq<Found>) {
    forall i :: 0 <= i < |found| ==> found[i].lastSeq == found[0].lastSeq
  }

  /** All replicas answered: agreed on a last write, or out of sync. */
  function Conclude(g: Group): Group
    requires CanConclude(g)
  {
    g.(view := if InAgreement(g.view.found) then Known(g.view.found[0].lastSeq) else Unknown)
  }

  function Everyone(n: nat): (s: set<nat>)
    ensures forall i: nat :: i in s <==> i < n
  {
    if n == 0 then {} else Everyone(n - 1) + {n - 1}
  }

  function BeginWrite(g: Group, batch: Batch): Group
    requires g.view.Known?
  {
    g.(view := Writing(g.view.n, batch, Everyone(|g.replicas|), false, map[]))
  }

  /** Replica i accepts the write: it is up, and the write's number is exactly its next one. */
  predicate CanDeliver(g: Group, i: nat) {
    && g.view.Writing? && i in g.view.pending && i < |g.replicas|
    && g.replicas[i].up && g.replicas[i].session.None?
    && |g.replicas[i].history| == g.view.n
  }

  /** The reply arrives, or is lost. */
  function Deliver(g: Group, i: nat, acked: bool): Group
    requires CanDeliver(g, i)
  {
    var r := g.replicas[i];
    var h := r.history + [g.view.batch];
    var pending := g.view.pending - {i};
    Group(g.replicas[i := r.(history := h)],
          if acked then g.view.(pending := pending, acks := g.view.acks[i := Ack(h, r.disk)])
          else g.view.(pending := pending, failed := true))
  }

  /** The write call fails and is never applied: unreachable, refused, or out of order. */
  predicate CanDrop(g: Group, i: nat) {
    g.view.Writing? && i in g.view.pending
  }

  function Drop(g: Group, i: nat): Group
    requires CanDrop(g, i)
  {
    g.(view := g.view.(pending := g.view.pending - {i}, failed := true))
  }

  predicate CanEndWrite(g: Group) {
    g.view.Writing? && g.view.pending == {}
  }

  function EndWrite(g: Group): Group
    requires g.view.Writing?
  {
    g.(view := if g.view.failed then Unknown else Known(g.view.n + 1))
  }

  function Forget(g: Group): Group {
    g.(view := Unknown)
  }

  // ---------------------------------------------------------------- and they too keep it sound

  lemma StartSyncSound(g: Group, i: nat, source: nat)
    requires Sound(g) && CanStartSync(g, i, source)
    ensures Sound(StartSync(g, i, source)) && Covered(StartSync(g, i, source), g)
  {
    var r := g.replicas[i].(session := Some(Session(source, Asking)));
    assert CopiesOf(r) <= CopiesOf(g.replicas[i]);
    forall h | h in CopiesOf(r)
      ensures Under(g, h)
    {
      assert Somewhere(g, h);
    }
    ReplaceCovers(g, i, r);
    CoveredSound(StartSync(g, i, source), g);
  }

  lemma SameReplicas(later: Group, g: Group)
    requires later.replicas == g.replicas && !later.view.Writing?
    ensures forall h :: Somewhere(later, h) ==> Somewhere(g, h)
    ensures Covered(later, g)
  {
    forall h | Somewhere(later, h)
      ensures Somewhere(g, h) && Under(g, h)
    {
      var i :| 0 <= i < |later.replicas| && h in CopiesOf(later.replicas[i]);
      assert h in CopiesOf(g.replicas[i]);
      assert Somewhere(g, h) && h <= h;
    }
  }

  lemma ForgetSound(g: Group)
    requires Sound(g)
    ensures Sound(Forget(g)) && Covered(Forget(g), g)
  {
    SameReplicas(Forget(g), g);
  }

  lemma BeginCheckSound(g: Group)
    requires Sound(g)
    ensures Sound(g.(view := Checking([]))) && Covered(g.(view := Checking([])), g)
  {
    SameReplicas(g.(view := Checking([])), g);
  }

  lemma AskSound(g: Group)
    requires Sound(g) && CanAsk(g)
    ensures Sound(Ask(g)) && Covered(Ask(g), g)
  {
    SameReplicas(Ask(g), g);
  }

  /**
    Agreement found one replica at a time bounds every copy there is: while the later ones
    are asked, the earlier ones can only have lost their disks.
    */
  lemma ConcludeSound(g: Group)
    requires Sound(g) && CanConclude(g)
    ensures Sound(Conclude(g)) && Covered(Conclude(g), g)
    ensures forall h, limit ::
              Somewhere(g, h) && (forall i :: 0 <= i < |g.view.found| ==> g.view.found[i].nextId <= limit) ==>
                IdsBelow(h, limit)
  {
    SameReplicas(Conclude(g), g);
    forall h | Somewhere(g, h)
      ensures Fits(Conclude(g).view, h)
      ensures exists i :: 0 <= i < |g.view.found| && IdsBelow(h, g.view.found[i].nextId)
    {
      var i :| 0 <= i < |g.replicas| && h in CopiesOf(g.replicas[i]);
      assert h == g.replicas[i].history;
    }
  }

  lemma BeginWriteSound(g: Group, batch: Batch)
    requires Sound(g) && g.view.Known?
    ensures Sound(BeginWrite(g, batch)) && Covered(BeginWrite(g, batch), g)
  {
    var later := BeginWrite(g, batch);
    hide Increasing, CopiesOf;
    forall h | Somewhere(later, h)
      ensures Somewhere(g, h) && Under(g, h) && Fits(later.view, h) && Increasing(h)
    {
      var i :| 0 <= i < |later.replicas| && h in CopiesOf(later.replicas[i]);
      assert h in CopiesOf(g.replicas[i]);
      assert Somewhere(g, h) && h <= h;
      assert Fits(g.view, h);
    }
    CoveredChain(later, g);
  }

  lemma DropSound(g: Group, i: nat)
    requires Sound(g) && CanDrop(g, i)
    ensures Sound(Drop(g, i)) && Covered(Drop(g, i), g)
  {
    var later := Drop(g, i);
    forall h | Somewhere(later, h)
      ensures Somewhere(g, h) && Under(g, h) && Fits(later.view, h)
    {
      assert h <= h;
      if exists j :: 0 <= j < |later.replicas| && h in CopiesOf(later.replicas[j]) {
        var j :| 0 <= j < |later.replicas| && h in CopiesOf(later.replicas[j]);
        assert h in CopiesOf(g.replicas[j]);
      }
      assert Somewhere(g, h);
      assert Fits(g.view, h);
    }
  }

  /** The copies after a delivery: those from before, and the written one. */
  lemma DeliverCopies(g: Group, i: nat, acked: bool, h: History)
    requires CanDeliver(g, i) && Somewhere(Deliver(g, i, acked), h)
    ensures h == g.replicas[i].history + [g.view.batch] || Somewhere(g, h)
  {
    var later := Deliver(g, i, acked);
    if exists j :: 0 <= j < |later.replicas| && h in CopiesOf(later.replicas[j]) {
      var j :| 0 <= j < |later.replicas| && h in CopiesOf(later.replicas[j]);
      if j != i {
        assert h in CopiesOf(g.replicas[j]);
      }
    } else {
      var j :| j in later.view.acks && later.view.acks[j].history == h;
    }
  }

  lemma DeliverSound(g: Group, i: nat, acked: bool)
    requires Sound(g) && CanDeliver(g, i)
    requires Increasing(g.replicas[i].history + [g.view.batch])
    ensures Sound(Deliver(g, i, acked))
  {
    var later, base := Deliver(g, i, acked), g.replicas[i].history;
    var written := base + [g.view.batch];
    assert base in CopiesOf(g.replicas[i]);
    assert Somewhere(g, base);
    forall a | Somewhere(g, a)
      ensures Comparable(a, written)
    {
      assert Comparable(a, base) && Fits(g.view, a);
    }
    forall a | Somewhere(later, a)
      ensures Fits(later.view, a) && Increasing(a) && Comparable(a, written)
      ensures a == written || Somewhere(g, a)
    {
      DeliverCopies(g, i, acked, a);
      if a != written {
        assert Fits(g.view, a);
      }
    }
  }

  lemma EndWriteSound(g: Group)
    requires Sound(g) && CanEndWrite(g)
    ensures Sound(EndWrite(g)) && Covered(EndWrite(g), g)
  {
    SameReplicas(EndWrite(g), g);
    assert forall h :: Somewhere(EndWrite(g), h) ==> Fits(g.view, h);
  }

  /**
    The replicas that acknowledged one write report the same size: "replicas of shard
    diverged" is never raised.
    */
  lemma AckedAlike(g: Group, i: nat, j: nat)
    requires Sound(g) && g.view.Writing? && i in g.view.acks && j in g.view.acks
    ensures g.view.acks[i].history == g.view.acks[j].history
  {
    assert Somewhere(g, g.view.acks[i].history) && Somewhere(g, g.view.acks[j].history);
    assert Comparable(g.view.acks[i].history, g.view.acks[j].history);
  }
}

/** Whatever a host does to its disk and its fields, its replica does in a few moves of its group. */
module Refinements {
  import opened Bytes
  import opened Framing
  import opened LogFormat
  import opened Histories
  import opened Disks
  import opened Worlds
  import C = Clusters
  import D = DurableShards
  import Durability
  import G = ReplicaGroups

  // A host shows a replica when its disk keeps the replica's history, its fields, if it is up, are
  // those of the history, and what its sync was sent is what the replica it asked held then.
  // Whatever a host does, and wherever a crash stops it, is a few moves of the replica it shows.

  // ---------------------------------------------------------------- what a host shows

  /** Every record in the log is the history's, where its number says. */
  ghost predicate Orderly(records: seq<Record>, h: History) {
    forall i :: 0 <= i < |records| ==> 1 <= records[i].seqNo <= |h| && records[i].batch == h[records[i].seqNo - 1]
  }

  /** The disk keeps the replica's history, and its snapshot reaches as far; or it cannot be opened. */
  ghost predicate ShowsDisk<S(!new)>(e: Engine<S>, d: Disk<S>, r: G.Replica) {
    if r.stuck then Reopen(e, d).Err?
    else
      && Keeps(e, d, r.history) && Orderly(Scan(e.codec, d.log).records, r.history)
      && SnapshotSeq(d) == r.snapshotSeq <= |r.history| && AllLoggable(e, r.history)
  }

  /** A shard that is open has the fields of its history. */
  ghost predicate ShowsMemory<S(!new)>(e: Engine<S>, h: Host<S>, r: G.Replica) {
    && (h.memory.Some? <==> r.up)
    && (r.up ==> !r.stuck && r.snapshotSeq <= |r.history| && Clean(e, h.disk)
                 && h.memory.value == Running(e, r.history, r.snapshotSeq))
  }

  /** What a sync was sent is what the replica it asked held then. */
  ghost predicate ShowsPhase<S(!new)>(e: Engine<S>, phase: SyncPhase<S>, here: History, shown: G.Phase) {
    match shown
    case Asking => phase.Asking?
    case Copying(base) =>
      && AllLoggable(e, base)
      && phase == Applying(if |here| <= |base| then Tail(base, |here|) else [])
    case Refused(disk) => phase == Refused(disk)
    case Carrying(g) => AllLoggable(e, g) && phase == Fetched(Snapshot(e.State(g), |g|))
  }

  ghost predicate ShowsSync<S(!new)>(e: Engine<S>, h: Host<S>, r: G.Replica) {
    && (h.sync.Some? <==> r.session.Some?) && (r.session.Some? ==> r.up)
    && (r.session.Some? ==>
          && h.sync.value.source == r.session.value.source
          && ShowsPhase(e, h.sync.value.phase, r.history, r.session.value.phase))
  }

  ghost predicate ShowsHost<S(!new)>(e: Engine<S>, h: Host<S>, r: G.Replica) {
    ShowsDisk(e, h.disk, r) && ShowsMemory(e, h, r) && ShowsSync(e, h, r) && h.disks == r.disk
  }

  ghost predicate ShowsHosts<S(!new)>(e: Engine<S>, hosts: seq<Host<S>>, g: G.Group) {
    |hosts| == |g.replicas| && forall i :: 0 <= i < |hosts| ==> ShowsHost(e, hosts[i], g.replicas[i])
  }

  // ---------------------------------------------------------------- disks

  lemma OrderlyGrows(records: seq<Record>, h: History, g: History)
    requires Orderly(records, h) && h <= g
    ensures Orderly(records, g)
  {
  }

  lemma OrderlyPrefix(left: seq<Record>, records: seq<Record>, h: History)
    requires Orderly(records, h) && left <= records
    ensures Orderly(left, h)
  {
  }

  lemma OrderlyAppend(records: seq<Record>, h: History, b: Batch)
    requires Orderly(records, h) && |h| + 1 < SEQ_LIMIT
    ensures Orderly(records + [Record(|h| + 1, b)], h + [b])
  {
    OrderlyGrows(records, h, h + [b]);
  }

  lemma LoggablePrefix<S(!new)>(e: Engine<S>, h: History, n: nat)
    requires AllLoggable(e, h) && n <= |h|
    ensures AllLoggable(e, h[..n])
  {
  }

  /** An image of an append. */
  lemma AppendShows<S(!new)>(e: Engine<S>, d: Disk<S>, r: G.Replica, b: Batch, i: nat)
    requires Faithful(e.codec) && !r.stuck && ShowsDisk(e, d, r) && Clean(e, d) && Acceptable(e, |r.history|, b)
    requires i < |AppendImages(e, d, Record(|r.history| + 1, b))|
    ensures var images := AppendImages(e, d, Record(|r.history| + 1, b));
            ShowsDisk(e, images[i], if i == |images| - 1 then r.(history := r.history + [b]) else r)
  {
    hide Scan, Keeps, Clean;
    AppendKeeps(e, d, r.history, b, i);
    var records := Scan(e.codec, d.log).records;
    OrderlyAppend(records, r.history, b);
    assert records + [] == records;
    hide Orderly;
  }

  /** An image of a checkpoint, or of an install of no fewer writes. */
  lemma ReplaceShows<S(!new)>(e: Engine<S>, d: Disk<S>, r: G.Replica, g: History, i: nat)
    requires !r.stuck && ShowsDisk(e, d, r) && r.history <= g && AllLoggable(e, g)
    requires i < |ReplaceImages(d, Snapshot(e.State(g), |g|))|
    ensures ShowsDisk(e, ReplaceImages(d, Snapshot(e.State(g), |g|))[i],
                      if i == 0 then r else r.(history := g, snapshotSeq := |g|))
  {
    hide Scan, Keeps;
    if i > 0 {
      ReplacedHolds(e, d, r.history, g, i);
      var image := ReplaceImages(d, Snapshot(e.State(g), |g|))[i];
      OrderlyPrefix(Scan(e.codec, image.log).records, Scan(e.codec, d.log).records, r.history);
      OrderlyGrows(Scan(e.codec, image.log).records, r.history, g);
    }
  }

  /** The newer of some of a history's records continue any beginning of it. */
  lemma OverlaidIsPrefix(h: History, g: History, left: seq<Record>)
    requires g <= h && Orderly(left, h) && Rising(left, |h|) && !Jumps(left, |g|)
    ensures var mid := Overlaid(g, left);
            |g| <= |mid| <= |h| && mid == h[..|mid|] && Orderly(left, mid)
  {
    NewerFollowOn(left, |g|, |h|);
    NewerAreOnes(left, |g|);
    var newer, mid := Newer(left, |g|), Overlaid(g, left);
    forall j | 0 <= j < |newer|
      ensures newer[j].batch == h[|g| + j]
    {
      assert newer[j] in left;
    }
    hide Jumps, Newer, Orderly;
    assert mid == h[..|mid|] by {
      hide Rising;
      assert forall j :: 0 <= j < |g| ==> mid[j] == h[j];
      assert forall j :: |g| <= j < |mid| ==> mid[j] == newer[j - |g|].batch;
    }
    OrderlyUpTo(left, h, |mid|);
  }

  lemma OrderlyUpTo(records: seq<Record>, h: History, n: nat)
    requires Orderly(records, h) && Rising(records, n) && n <= |h|
    ensures Orderly(records, h[..n])
  {
  }

  lemma {:induction false} NewerAreOnes(records: seq<Record>, n: nat)
    ensures forall r :: r in Newer(records, n) ==> r in records
  {
    if records != [] {
      NewerAreOnes(records[1..], n);
    }
  }

  /** An image of an install of fewer writes: torn, or stuck. */
  lemma OlderShows<S(!new)>(e: Engine<S>, d: Disk<S>, r: G.Replica, g: History, i: nat) returns (kept: Option<nat>)
    requires !r.stuck && ShowsDisk(e, d, r) && g <= r.history && |g| < |r.history|
    requires 0 < i < |ReplaceImages(d, Snapshot(e.State(g), |g|))|
    ensures kept.Some? ==> |g| <= kept.value <= |r.history|
    ensures var image := ReplaceImages(d, Snapshot(e.State(g), |g|))[i];
            if kept.Some? then ShowsDisk(e, image, r.(history := r.history[..kept.value], snapshotSeq := |g|))
            else Reopen(e, image).Err?
  {
    hide Scan, Keeps, Reopen;
    ReplacedHolds(e, d, r.history, g, i);
    var image := ReplaceImages(d, Snapshot(e.State(g), |g|))[i];
    var left := Scan(e.codec, image.log).records;
    if Jumps(left, |g|) {
      return None;
    }
    OrderlyPrefix(left, Scan(e.codec, d.log).records, r.history);
    assert Rising(left, |r.history|) by {
      KeepsRising(e, d, r.history);
      RisingPrefix(left, Scan(e.codec, d.log).records, |r.history|);
    }
    OverlaidIsPrefix(r.history, g, left);
    kept := Some(|Overlaid(g, left)|);
    LoggablePrefix(e, r.history, kept.value);
  }

  lemma KeepsRising<S(!new)>(e: Engine<S>, d: Disk<S>, h: History)
    requires Keeps(e, d, h)
    ensures Rising(Scan(e.codec, d.log).records, |h|)
  {
  }

  lemma RisingPrefix(left: seq<Record>, records: seq<Record>, n: nat)
    requires left <= records && Rising(records, n)
    ensures Rising(left, n)
  {
  }

  /** The disk an operation has replaced is clean. */
  lemma FreshIsClean<S>(e: Engine<S>, s: Snapshot<S>)
    ensures Clean(e, Disk(Some(s), []))
  {
    TooShort(e.codec, []);
  }

  // ---------------------------------------------------------------- several moves of one replica

  ghost predicate CanAll(g: G.Group, i: nat, moves: seq<G.Move>)
    decreases |moves|, 0
  {
    || moves == []
    || (CanAll(g, i, moves[..|moves| - 1]) && G.CanMove(AfterAll(g, i, moves[..|moves| - 1]), i, moves[|moves| - 1]))
  }

  ghost function AfterAll(g: G.Group, i: nat, moves: seq<G.Move>): G.Group
    requires CanAll(g, i, moves)
    decreases |moves|, 1
  {
    if moves == [] then g else G.AfterMove(AfterAll(g, i, moves[..|moves| - 1]), i, moves[|moves| - 1])
  }

  lemma AndThen(g: G.Group, i: nat, moves: seq<G.Move>, move: G.Move)
    requires CanAll(g, i, moves) && G.CanMove(AfterAll(g, i, moves), i, move)
    ensures CanAll(g, i, moves + [move])
    ensures AfterAll(g, i, moves + [move]) == G.AfterMove(AfterAll(g, i, moves), i, move)
  {
    assert (moves + [move])[..|moves|] == moves;
  }

  lemma JustOne(g: G.Group, i: nat, move: G.Move)
    requires G.CanMove(g, i, move)
    ensures CanAll(g, i, [move]) && AfterAll(g, i, [move]) == G.AfterMove(g, i, move)
  {
    AndThen(g, i, [], move);
    assert [] + [move] == [move];
  }

  /** They touch no other replica. */
  lemma {:induction false} OthersStay(g: G.Group, i: nat, moves: seq<G.Move>)
    requires CanAll(g, i, moves)
    ensures AfterAll(g, i, moves).view == g.view && |AfterAll(g, i, moves).replicas| == |g.replicas|
    ensures forall j :: 0 <= j < |g.replicas| && j != i ==> AfterAll(g, i, moves).replicas[j] == g.replicas[j]
    decreases |moves|
  {
    if moves != [] {
      OthersStay(g, i, moves[..|moves| - 1]);
    }
  }

  lemma HostMoved<S(!new)>(e: Engine<S>, hosts: seq<Host<S>>, g: G.Group, i: nat, moves: seq<G.Move>, h: Host<S>)
    requires ShowsHosts(e, hosts, g) && i < |hosts| && CanAll(g, i, moves)
    requires |AfterAll(g, i, moves).replicas| == |g.replicas| ==> ShowsHost(e, h, AfterAll(g, i, moves).replicas[i])
    ensures ShowsHosts(e, hosts[i := h], AfterAll(g, i, moves))
  {
    hide ShowsHost, CanAll, AfterAll;
    OthersStay(g, i, moves);
  }

  /** Perhaps a snapshot, and perhaps a crash. */
  function Then(snapped: bool, fallen: bool): seq<G.Move> {
    (if snapped then [G.Checkpoint] else []) + if fallen then [G.Crash] else []
  }

  function AndSo(r: G.Replica, snapped: bool, fallen: bool): G.Replica {
    var s := if snapped then r.(snapshotSeq := |r.history|) else r;
    if fallen then s.(up := false, session := None) else s
  }

  /** No install among them. */
  predicate Calm(moves: seq<G.Move>) {
    forall n :: 0 <= n < |moves| ==> !Durability.Installs(moves[n])
  }

  lemma CalmThen(move: G.Move, snapped: bool, fallen: bool)
    requires !Durability.Installs(move)
    ensures Calm([move]) && Calm([move] + Then(snapped, fallen))
  {
  }

  /** No install but the first move, and that of a snapshot with all the replica has. */
  ghost predicate Forwards(g: G.Group, i: nat, moves: seq<G.Move>) {
    && (forall n :: 0 < n < |moves| ==> !Durability.Installs(moves[n]))
    && (moves != [] && Durability.Installs(moves[0]) && G.CanMove(g, i, moves[0]) ==>
          |g.replicas[i].history| <= |g.replicas[i].session.value.phase.snapshot|)
  }

  /** Those moves, after any others that leave the replica up. */
  lemma AndSoOn(g: G.Group, i: nat, moves: seq<G.Move>, snapped: bool, fallen: bool)
    requires CanAll(g, i, moves) && i < |AfterAll(g, i, moves).replicas| && AfterAll(g, i, moves).replicas[i].up
    ensures CanAll(g, i, moves + Then(snapped, fallen))
    ensures var later := AfterAll(g, i, moves + Then(snapped, fallen));
            && i < |later.replicas|
            && later.replicas[i] == AndSo(AfterAll(g, i, moves).replicas[i], snapped, fallen)
  {
    var here := moves;
    assert moves + [] == moves;
    if snapped {
      AndThen(g, i, moves, G.Checkpoint);
      here := moves + [G.Checkpoint];
    }
    assert moves + Then(snapped, fallen) == here + if fallen then [G.Crash] else [];
    if fallen {
      AndThen(g, i, here, G.Crash);
    } else {
      assert here + [] == here;
    }
  }

  // ---------------------------------------------------------------- operations of a running host

  /** A replica that has accepted a write, or not. */
  function Written(r: G.Replica, b: Batch, applied: bool): G.Replica {
    if applied then r.(history := r.history + [b]) else r
  }

  lemma AddedMemory<S(!new)>(e: Engine<S>, h: History, n: nat, b: Batch)
    requires n <= |h|
    ensures var m := Running(e, h, n);
            Added(e, m, b) == Running(e, h + [b], if Due(e, Applied(e, m, b)) then |h| + 1 else n)
  {
    RunningApplied(e, h, n, b);
    assert (h + [b])[|h| + 1..] == [];
  }

  lemma SnappedMemory<S(!new)>(e: Engine<S>, h: History, n: nat)
    requires n <= |h|
    ensures Snapped(Running(e, h, n)) == Running(e, h, |h|)
  {
    assert h[|h|..] == [];
  }

  /** `add_batch` on a running shard, stopped or not: was the write applied, and a snapshot taken? */
  lemma AddRefines<S(!new)>(e: Engine<S>, h: Host<S>, r: G.Replica, b: Batch, crash: Option<nat>)
      returns (applied: bool, snapped: bool)
    requires Faithful(e.codec) && r.up && ShowsDisk(e, h.disk, r) && ShowsMemory(e, h, r)
    requires Acceptable(e, |r.history|, b)
    ensures snapped ==> applied
    ensures var later, shown := AfterAdd(e, h, b, crash), AndSo(Written(r, b, applied), snapped, false);
            && ShowsDisk(e, later.disk, shown)
            && (later.memory.Some? ==>
                  applied && ShowsMemory(e, later, shown) && later == h.(disk := later.disk, memory := later.memory))
            && (later.memory.None? ==> later == Fallen(h, later.disk))
  {
    var n, m := r.snapshotSeq, h.memory.value;
    var images := AddImages(e, h.disk, m, b);
    var appended := AppendImages(e, h.disk, Record(|r.history| + 1, b));
    var i := Stopped(images, crash);
    var due := Due(e, Applied(e, m, b));
    applied, snapped := i >= |appended| - 1, i > |appended|;
    AddedMemory(e, r.history, n, b);
    AddImage(e, h.disk, r, b, i);
    assert m == Running(e, r.history, n);
    hide ShowsDisk, Clean, Scan, Running, Added, Applied, Due, AddImages, AppendImages, Acceptable, Faithful;
    var later, shown := AfterAdd(e, h, b, crash), AndSo(Written(r, b, applied), snapped, false);
    assert later.disk == images[i];
    if !StopsAt(images, crash) {
      assert shown.snapshotSeq == if due then |r.history| + 1 else n;
    }
  }

  lemma AddImage<S(!new)>(e: Engine<S>, d: Disk<S>, r: G.Replica, b: Batch, i: nat)
    requires Faithful(e.codec) && !r.stuck && ShowsDisk(e, d, r) && Clean(e, d) && r.snapshotSeq <= |r.history|
    requires Acceptable(e, |r.history|, b)
    requires i < |AddImages(e, d, Running(e, r.history, r.snapshotSeq), b)|
    ensures var images := AddImages(e, d, Running(e, r.history, r.snapshotSeq), b);
            var appended := |AppendImages(e, d, Record(|r.history| + 1, b))|;
            && ShowsDisk(e, images[i], AndSo(Written(r, b, i >= appended - 1), i > appended, false))
            && (i == |images| - 1 ==> Clean(e, images[i]))
            && |images| >= appended
            && (if Due(e, Applied(e, Running(e, r.history, r.snapshotSeq), b)) then |images| > appended + 1
                else |images| == appended)
  {
    hide ShowsDisk, Clean, AddImages, AppendImages, ReplaceImages, Running, Applied, Due, DueAfter, Fold;
    AddImagesOf(e, d, r.history, r.snapshotSeq, b);
    var appended := AppendImages(e, d, Record(|r.history| + 1, b));
    var s := Snapshot(e.State(r.history + [b]), |r.history| + 1);
    AppendedIsClean(e, d, r, b);
    FreshIsClean(e, s);
    FirstReplaced(Last(appended), s);
    if i < |appended| {
      AppendShows(e, d, r, b, i);
    } else {
      SnappedImage(e, d, r, b, i - |appended|);
    }
  }

  /** An image of the checkpoint that follows a write. */
  lemma SnappedImage<S(!new)>(e: Engine<S>, d: Disk<S>, r: G.Replica, b: Batch, j: nat)
    requires Faithful(e.codec) && !r.stuck && ShowsDisk(e, d, r) && Clean(e, d) && r.snapshotSeq <= |r.history|
    requires Acceptable(e, |r.history|, b)
    requires var full := Last(AppendImages(e, d, Record(|r.history| + 1, b)));
             j < |ReplaceImages(full, Snapshot(e.State(r.history + [b]), |r.history| + 1))|
    ensures var full := Last(AppendImages(e, d, Record(|r.history| + 1, b)));
            ShowsDisk(e, ReplaceImages(full, Snapshot(e.State(r.history + [b]), |r.history| + 1))[j],
                      AndSo(Written(r, b, true), j > 0, false))
  {
    var h := r.history;
    var appended := AppendImages(e, d, Record(|h| + 1, b));
    AppendShows(e, d, r, b, |appended| - 1);
    LoggableMore(e, h, b);
    hide ShowsDisk, Clean, Scan, Holds, AllLoggable;
    ReplaceShows(e, Last(appended), r.(history := h + [b]), h + [b], j);
  }

  lemma LoggableMore<S(!new)>(e: Engine<S>, h: History, b: Batch)
    requires AllLoggable(e, h) && Acceptable(e, |h|, b)
    ensures AllLoggable(e, h + [b])
  {
  }

  lemma AppendedIsClean<S(!new)>(e: Engine<S>, d: Disk<S>, r: G.Replica, b: Batch)
    requires Faithful(e.codec) && !r.stuck && ShowsDisk(e, d, r) && Clean(e, d) && Acceptable(e, |r.history|, b)
    ensures Clean(e, Last(AppendImages(e, d, Record(|r.history| + 1, b))))
  {
    AppendCrash(e, d, r.history, b, |AppendImages(e, d, Record(|r.history| + 1, b))| - 1);
  }

  // ---------------------------------------------------------------- what a host does is what its replica does

  /** After these moves the replica is what this host shows. */
  ghost predicate Matches<S(!new)>(e: Engine<S>, g: G.Group, i: nat, moves: seq<G.Move>, h: Host<S>) {
    && CanAll(g, i, moves) && i < |AfterAll(g, i, moves).replicas|
    && ShowsHost(e, h, AfterAll(g, i, moves).replicas[i])
  }

  lemma NoMoves<S(!new)>(e: Engine<S>, g: G.Group, i: nat, h: Host<S>)
    requires i < |g.replicas| && ShowsHost(e, h, g.replicas[i])
    ensures Matches(e, g, i, [], h)
  {
  }

  lemma OneMove<S(!new)>(e: Engine<S>, g: G.Group, i: nat, move: G.Move, h: Host<S>)
    requires G.CanMove(g, i, move) && ShowsHost(e, h, G.Moved(g, i, move))
    ensures Matches(e, g, i, [move], h)
  {
    hide ShowsHost;
    JustOne(g, i, move);
  }

  lemma MoveAndSo<S(!new)>(e: Engine<S>, g: G.Group, i: nat, move: G.Move, snapped: bool, fallen: bool, h: Host<S>)
    requires G.CanMove(g, i, move) && G.Moved(g, i, move).up
    requires ShowsHost(e, h, AndSo(G.Moved(g, i, move), snapped, fallen))
    ensures Matches(e, g, i, [move] + Then(snapped, fallen), h)
  {
    hide ShowsHost;
    JustOne(g, i, move);
    AndSoOn(g, i, [move], snapped, fallen);
  }

  lemma FallenShows<S(!new)>(e: Engine<S>, h: Host<S>, r: G.Replica, d: Disk<S>)
    requires h.disks == r.disk && ShowsDisk(e, d, r)
    ensures ShowsHost(e, Fallen(h, d), r.(up := false, session := None))
  {
  }

  lemma CrashShows<S(!new)>(e: Engine<S>, g: G.Group, i: nat, h: Host<S>, d: Disk<S>)
    requires i < |g.replicas| && g.replicas[i].up && h.disks == g.replicas[i].disk && ShowsDisk(e, d, g.replicas[i])
    ensures Matches(e, g, i, [G.Crash], Fallen(h, d))
  {
    FallenShows(e, h, g.replicas[i], d);
    hide ShowsHost, ShowsDisk;
    OneMove(e, g, i, G.Crash, Fallen(h, d));
  }

  lemma OpenImageShows<S(!new)>(e: Engine<S>, d: Disk<S>, r: G.Replica, j: nat)
    requires !r.stuck && ShowsDisk(e, d, r) && j < |OpenImages(e, d)|
    ensures ShowsDisk(e, OpenImages(e, d)[j], r) && ShowsDisk(e, OpenImages(e, d)[j], r.(up := true, session := None))
    ensures Reopen(e, d) == Ok(Running(e, r.history, r.snapshotSeq)) && r.snapshotSeq <= |r.history|
    ensures j == |OpenImages(e, d)| - 1 ==> Clean(e, OpenImages(e, d)[j])
  {
    OpenKeeps(e, d, r.history);
    OpeningKeeps(e, d, r.history, j);
    OpenImageRecords(e, d, j);
    hide Scan, Keeps, Reopen, Running, OpenImages, Opened, Orderly;
    assert !r.stuck;
  }

  lemma OpenImageRecords<S(!new)>(e: Engine<S>, d: Disk<S>, j: nat)
    requires j < |OpenImages(e, d)|
    ensures Scan(e.codec, OpenImages(e, d)[j].log).records == Scan(e.codec, d.log).records
    ensures SnapshotSeq(OpenImages(e, d)[j]) == SnapshotSeq(d)
    ensures j == |OpenImages(e, d)| - 1 ==> OpenImages(e, d)[j] == Opened(e, d)
  {
    hide Scan;
    CutInTornTail(e.codec, d.log, |d.log| - j);
  }

  lemma OpenShows<S(!new)>(e: Engine<S>, g: G.Group, i: nat, h: Host<S>, crash: Option<nat>)
      returns (moves: seq<G.Move>)
    requires i < |g.replicas| && ShowsHost(e, h, g.replicas[i]) && h.memory.None?
    ensures Matches(e, g, i, moves, AfterOpen(e, h, crash))
    ensures Calm(moves)
  {
    hide Scan, Keeps, Orderly, AllLoggable, Running, OpenImages;
    var r := g.replicas[i];
    if r.stuck {
      NoMoves(e, g, i, h);
      return [];
    }
    var images := OpenImages(e, h.disk);
    var j := Stopped(images, crash);
    OpenImageShows(e, h.disk, r, j);
    hide ShowsDisk, Reopen, Clean;
    if StopsAt(images, crash) {
      NoMoves(e, g, i, Fallen(h, images[j]));
      return [];
    }
    OneMove(e, g, i, G.Restart, AfterOpen(e, h, crash));
    return [G.Restart];
  }

  lemma LoseDiskShows<S(!new)>(e: Engine<S>, g: G.Group, i: nat, h: Host<S>) returns (moves: seq<G.Move>)
    requires i < |g.replicas| && ShowsHost(e, h, g.replicas[i]) && h.memory.None?
    ensures Matches(e, g, i, moves, Host(Disk(None, []), None, h.disks + 1, None))
    ensures Calm(moves)
  {
    EmptyDiskHoldsNothing(e);
    TooShort(e.codec, []);
    hide Scan, Holds;
    OneMove(e, g, i, G.LoseDisk, Host(Disk(None, []), None, h.disks + 1, None));
    return [G.LoseDisk];
  }

  /** A host that is up, before a checkpoint; and after it. */
  lemma RunningFacts<S(!new)>(e: Engine<S>, h: Host<S>, r: G.Replica)
    requires ShowsHost(e, h, r) && h.memory.Some?
    ensures r.up && !r.stuck && r.snapshotSeq <= |r.history| && h.disks == r.disk && ShowsDisk(e, h.disk, r)
    ensures AllLoggable(e, r.history) && CurrentSnapshot(h.memory.value) == Snapshot(e.State(r.history), |r.history|)
  {
    hide Keeps, Scan, Orderly, Clean;
  }

  lemma CheckpointedShows<S(!new)>(e: Engine<S>, h: Host<S>, r: G.Replica)
    requires ShowsHost(e, h, r) && h.memory.Some?
    ensures ShowsHost(e, h.(disk := Disk(Some(CurrentSnapshot(h.memory.value)), []),
                            memory := Some(Snapped(h.memory.value))), r.(snapshotSeq := |r.history|))
  {
    hide Scan, Reopen;
    var s := Snapshot(e.State(r.history), |r.history|);
    KeptBounds(e, h.disk, r.history);
    SnappedMemory(e, r.history, r.snapshotSeq);
    FreshIsClean(e, s);
    D.SnapshotKeeps(e, r.history);
    TooShort(e.codec, []);
  }

  lemma CheckpointShows<S(!new)>(e: Engine<S>, g: G.Group, i: nat, h: Host<S>, crash: Option<nat>)
      returns (moves: seq<G.Move>)
    requires i < |g.replicas| && ShowsHost(e, h, g.replicas[i]) && h.memory.Some?
    ensures Matches(e, g, i, moves, AfterCheckpoint(h, crash))
    ensures Calm(moves)
    ensures AfterCheckpoint(h, crash).memory.Some? ==>
              AfterAll(g, i, moves).replicas[i] == g.replicas[i].(snapshotSeq := |g.replicas[i].history|)
  {
    hide ShowsHost, ShowsDisk, Clean, Scan, Running, Calm, ReplaceImages, CurrentSnapshot, AllLoggable;
    var r := g.replicas[i];
    RunningFacts(e, h, r);
    var images := ReplaceImages(h.disk, CurrentSnapshot(h.memory.value));
    var j := Stopped(images, crash);
    ReplaceShows(e, h.disk, r, r.history, j);
    CalmThen(G.Crash, false, false);
    CalmThen(G.Checkpoint, false, true);
    if StopsAt(images, crash) && j == 0 {
      CrashShows(e, g, i, h, images[j]);
      return [G.Crash];
    }
    var later := r.(snapshotSeq := |r.history|);
    if StopsAt(images, crash) {
      FallenShows(e, h, later, images[j]);
      MoveAndSo(e, g, i, G.Checkpoint, false, true, Fallen(h, images[j]));
      return [G.Checkpoint] + Then(false, true);
    }
    CheckpointedShows(e, h, r);
    OneMove(e, g, i, G.Checkpoint, AfterCheckpoint(h, crash));
    JustOne(g, i, G.Checkpoint);
    return [G.Checkpoint];
  }

  lemma EndSyncShows<S(!new)>(e: Engine<S>, g: G.Group, i: nat, h: Host<S>) returns (moves: seq<G.Move>)
    requires i < |g.replicas| && ShowsHost(e, h, g.replicas[i]) && h.sync.Some?
    ensures Matches(e, g, i, moves, h.(sync := None))
    ensures Calm(moves)
  {
    hide Keeps, Reopen, Scan, Running, Clean;
    OneMove(e, g, i, G.EndSync, h.(sync := None));
    return [G.EndSync];
  }

  /** A sync that goes on changes nothing else. */
  lemma SyncGoesOn<S(!new)>(e: Engine<S>, h: Host<S>, r: G.Replica, sync: Sync<S>, session: G.Session)
    requires ShowsHost(e, h, r) && r.up && sync.source == session.source
    requires ShowsPhase(e, sync.phase, r.history, session.phase)
    ensures ShowsHost(e, h.(sync := Some(sync)), r.(session := Some(session)))
  {
    hide Keeps, Scan, Reopen, Running, Clean, Orderly, AllLoggable;
  }

  /** What the source answers to FetchLog depends on its disk and its fields as on the replica shown. */
  lemma LogReplyShows<S(!new)>(e: Engine<S>, h: Host<S>, r: G.Replica, here: History)
    requires ShowsHost(e, h, r) && r.up
    ensures ShowsPhase(e, LogReply(e, h, |here|), here,
                       if |here| < r.snapshotSeq then G.Refused(r.disk) else G.Copying(r.history))
  {
    if r.snapshotSeq <= |here| {
      D.NewerThan(e, h.disk, r.history, |here|);
    }
    hide Scan, Keeps, Reopen, Running, Newer, Clean, Orderly, AllLoggable;
  }

  lemma FetchLogShows<S(!new)>(e: Engine<S>, hosts: seq<Host<S>>, g: G.Group, i: nat) returns (moves: seq<G.Move>)
    requires ShowsHosts(e, hosts, g) && CanDo(hosts, i, FetchLog)
    ensures var from := hosts[i].sync.value.source;
            Matches(e, g, i, moves,
                    hosts[i].(sync := Some(Sync(from, LogReply(e, hosts[from], hosts[i].memory.value.lastSeq)))))
    ensures Calm(moves)
  {
    var h, from := hosts[i], hosts[i].sync.value.source;
    var r, source := g.replicas[i], g.replicas[from];
    assert ShowsHost(e, h, r) && ShowsHost(e, hosts[from], source);
    assert h.memory.value.lastSeq == |r.history|;
    LogReplyShows(e, hosts[from], source, r.history);
    hide LogReply, ShowsDisk, ShowsPhase, Running, Clean;
    var phase := LogReply(e, hosts[from], |r.history|);
    var shown := if |r.history| < source.snapshotSeq then G.Refused(source.disk) else G.Copying(source.history);
    SyncGoesOn(e, h, r, Sync(from, phase), G.Session(from, shown));
    assert G.CanMove(g, i, G.FetchLog);
    hide ShowsHost;
    OneMove(e, g, i, G.FetchLog, h.(sync := Some(Sync(from, phase))));
    return [G.FetchLog];
  }

  /** What an `ApplyRecord` starts from: the sync is that of the replica's session. */
  lemma ApplySession<S(!new)>(e: Engine<S>, hosts: seq<Host<S>>, g: G.Group, i: nat, crash: Option<nat>)
      returns (base: History)
    requires ShowsHosts(e, hosts, g) && CanDo(hosts, i, ApplyRecord(crash))
    ensures i < |g.replicas| && G.CanMove(g, i, G.ApplyRecord) && ShowsHost(e, hosts[i], g.replicas[i])
    ensures base == g.replicas[i].session.value.phase.base && AllLoggable(e, base)
    ensures var n, records := |g.replicas[i].history|, hosts[i].sync.value.phase.records;
            n < |base| && records[0] == Record(n + 1, base[n]) && records[1..] == Tail(base, n + 1)
  {
    hide ShowsDisk, ShowsMemory, AllLoggable;
    assert ShowsHost(e, hosts[i], g.replicas[i]);
    base := g.replicas[i].session.value.phase.base;
  }

  /** Its disk and its memory, whatever is left of the sync. */
  lemma ApplyFacts<S(!new)>(e: Engine<S>, h: Host<S>, r: G.Replica, sync: Sync<S>)
    requires ShowsHost(e, h, r) && h.memory.Some?
    ensures h.memory.value.lastSeq == |r.history| && !r.stuck && ShowsDisk(e, h.disk, r)
    ensures ShowsMemory(e, h.(sync := Some(sync)), r)
  {
    hide ShowsDisk, Clean, ShowsPhase, AllLoggable;
  }

  lemma ApplyRecordShows<S(!new)>(e: Engine<S>, hosts: seq<Host<S>>, g: G.Group, i: nat, crash: Option<nat>)
      returns (moves: seq<G.Move>)
    requires Faithful(e.codec) && ShowsHosts(e, hosts, g) && CanDo(hosts, i, ApplyRecord(crash))
    ensures Matches(e, g, i, moves, AfterRecord(e, hosts[i], crash))
    ensures Calm(moves)
  {
    hide ShowsHosts, ShowsHost, ShowsDisk, ShowsMemory, Clean, Running, AfterAdd, Acceptable, AllLoggable, Faithful,
         Matches, Calm;
    var base := ApplySession(e, hosts, g, i, crash);
    var h, r, records := hosts[i], g.replicas[i], hosts[i].sync.value.phase.records;
    var b, left := records[0].batch, Sync(h.sync.value.source, Applying(records[1..]));
    ApplyFacts(e, h, r, left);
    if !Acceptable(e, |r.history|, b) {
      moves := EndSyncShows(e, g, i, h);
      return;
    }
    var from := h.(sync := Some(left));
    var applied, snapped := AddRefines(e, from, r, b, crash);
    var later := AfterAdd(e, from, b, crash);
    assert AfterRecord(e, h, crash) == later;
    CalmThen(G.ApplyRecord, snapped, later.memory.None?);
    if !applied {
      CalmThen(G.Crash, false, false);
      NotWritten(e, g, i, h, from, later, b);
      return [G.Crash];
    }
    RecordShown(e, g, i, h, later, base, b, snapped);
    return [G.ApplyRecord] + Then(snapped, later.memory.None?);
  }

  /** Stopped before the write was whole in the log. */
  lemma NotWritten<S(!new)>(e: Engine<S>, g: G.Group, i: nat, h: Host<S>, from: Host<S>, later: Host<S>, b: Batch)
    requires i < |g.replicas| && ShowsHost(e, h, g.replicas[i]) && g.replicas[i].up && from == h.(sync := from.sync)
    requires ShowsDisk(e, later.disk, AndSo(Written(g.replicas[i], b, false), false, false))
    requires later == Fallen(from, later.disk)
    ensures Matches(e, g, i, [G.Crash], later)
  {
    hide ShowsDisk;
    CrashShows(e, g, i, h, later.disk);
  }

  lemma RecordShown<S(!new)>(e: Engine<S>, g: G.Group, i: nat, h: Host<S>, later: Host<S>, base: History, b: Batch,
                             snapped: bool)
    requires G.CanMove(g, i, G.ApplyRecord) && ShowsHost(e, h, g.replicas[i])
    requires base == g.replicas[i].session.value.phase.base && b == base[|g.replicas[i].history|]
             && AllLoggable(e, base)
    requires var r := g.replicas[i];
             var shown := AndSo(Written(r, b, true), snapped, false);
             var sync := Some(Sync(h.sync.value.source, Applying(Tail(base, |r.history| + 1))));
             && ShowsDisk(e, later.disk, shown)
             && (later.memory.Some? ==> ShowsMemory(e, later, shown)
                                        && later == h.(sync := sync, disk := later.disk, memory := later.memory))
             && (later.memory.None? ==> later == Fallen(h.(sync := sync), later.disk))
    ensures Matches(e, g, i, [G.ApplyRecord] + Then(snapped, later.memory.None?), later)
  {
    hide ShowsDisk, Clean, Running;
    var shown := AndSo(G.Moved(g, i, G.ApplyRecord), snapped, false);
    if later.memory.None? {
      FallenShows(e, h, shown, later.disk);
    }
    MoveAndSo(e, g, i, G.ApplyRecord, snapped, later.memory.None?, later);
  }

  // ---------------------------------------------------------------- snapshots

  /** The source's snapshot is that of the writes it covers. */
  lemma SnapshotShows<S(!new)>(e: Engine<S>, h: Host<S>, r: G.Replica, here: History)
    requires ShowsHost(e, h, r) && r.up && h.disk.snapshot.Some?
    ensures r.snapshotSeq <= |r.history|
    ensures ShowsPhase(e, Fetched(h.disk.snapshot.value), here, G.Carrying(r.history[..r.snapshotSeq]))
  {
    LoggablePrefix(e, r.history, r.snapshotSeq);
    hide Scan, Reopen, Running, Clean, Orderly, AllLoggable;
  }

  /** The source has a snapshot, and sends it. */
  lemma FetchedShows<S(!new)>(e: Engine<S>, hosts: seq<Host<S>>, g: G.Group, i: nat) returns (moves: seq<G.Move>)
    requires ShowsHosts(e, hosts, g) && CanDo(hosts, i, FetchSnapshot(None))
    requires hosts[hosts[i].sync.value.source].disk.snapshot.Some?
    ensures var from := hosts[i].sync.value.source;
            Matches(e, g, i, moves, hosts[i].(sync := Some(Sync(from, Fetched(hosts[from].disk.snapshot.value)))))
    ensures Calm(moves)
  {
    hide ShowsDisk, Running, Clean, Calm;
    CalmThen(G.FetchSnapshot, false, false);
    var h, from := hosts[i], hosts[i].sync.value.source;
    var r, source := g.replicas[i], g.replicas[from];
    assert ShowsHost(e, h, r) && ShowsHost(e, hosts[from], source);
    SnapshotShows(e, hosts[from], source, r.history);
    assert G.CanMove(g, i, G.FetchSnapshot);
    var phase := Fetched(hosts[from].disk.snapshot.value);
    SyncGoesOn(e, h, r, Sync(from, phase), G.Session(from, G.Carrying(source.history[..source.snapshotSeq])));
    hide ShowsHost;
    OneMove(e, g, i, G.FetchSnapshot, h.(sync := Some(Sync(from, phase))));
    return [G.FetchSnapshot];
  }

  /** A whole install, of any snapshot. */
  lemma InstalledShows<S(!new)>(e: Engine<S>, h: Host<S>, r: G.Replica, g: History, source: nat)
    requires r.up && ShowsMemory(e, h, r) && h.disks == r.disk && AllLoggable(e, g)
    ensures var s := Snapshot(e.State(g), |g|);
            ShowsHost(e, Host(Disk(Some(s), []), Some(Memory(s.shard, s.lastSeq, s.lastSeq, 0)), h.disks,
                              Some(Sync(source, Asking))),
                      r.(history := g, snapshotSeq := |g|, session := Some(G.Session(source, G.Asking))))
  {
    SnapshotHolds(e, g);
    TooShort(e.codec, []);
    assert g[|g|..] == [];
    hide Scan, Holds;
  }

  /** Where an install starts from. */
  lemma InstallFacts<S(!new)>(e: Engine<S>, hosts: seq<Host<S>>, g: G.Group, i: nat, crash: Option<nat>)
      returns (fetched: History)
    requires ShowsHosts(e, hosts, g) && CanDo(hosts, i, Doing.Install(crash)) && G.Sound(g)
    ensures i < |g.replicas| && g.replicas[i].up && !g.replicas[i].stuck && g.replicas[i].session.Some?
    ensures G.CanMove(g, i, G.Install) && ShowsHost(e, hosts[i], g.replicas[i])
    ensures ShowsDisk(e, hosts[i].disk, g.replicas[i]) && ShowsMemory(e, hosts[i], g.replicas[i])
    ensures hosts[i].disks == g.replicas[i].disk && hosts[i].sync.value.source == g.replicas[i].session.value.source
    ensures fetched == g.replicas[i].session.value.phase.snapshot && AllLoggable(e, fetched)
    ensures hosts[i].sync.value.phase.snapshot == Snapshot(e.State(fetched), |fetched|)
    ensures Comparable(fetched, g.replicas[i].history)
  {
    assert ShowsHost(e, hosts[i], g.replicas[i]);
    var r := g.replicas[i];
    fetched := r.session.value.phase.snapshot;
    hide ShowsDisk, Clean, AllLoggable, Running, G.Sound;
    CarriedCompares(g, i);
  }

  lemma CarriedCompares(g: G.Group, i: nat)
    requires G.Sound(g) && i < |g.replicas| && g.replicas[i].session.Some?
             && g.replicas[i].session.value.phase.Carrying?
    ensures Comparable(g.replicas[i].session.value.phase.snapshot, g.replicas[i].history)
  {
    var r := g.replicas[i];
    var fetched := r.session.value.phase.snapshot;
    assert G.Chain(g);
    assert fetched in G.CopiesOf(r) && r.history in G.CopiesOf(r);
    assert G.Somewhere(g, fetched) && G.Somewhere(g, r.history);
  }

  /** An install, whole or stopped, of a snapshot newer or older than what is here. */
  lemma InstallShows<S(!new)>(e: Engine<S>, hosts: seq<Host<S>>, g: G.Group, i: nat, crash: Option<nat>)
      returns (moves: seq<G.Move>)
    requires ShowsHosts(e, hosts, g) && CanDo(hosts, i, Doing.Install(crash)) && G.Sound(g)
    ensures Matches(e, g, i, moves, AfterInstall(hosts[i], crash))
    ensures !BringsBack(hosts, i, Doing.Install(crash)) ==> Forwards(g, i, moves)
  {
    var fetched := InstallFacts(e, hosts, g, i, crash);
    var h, r := hosts[i], g.replicas[i];
    var s := Snapshot(e.State(fetched), |fetched|);
    var images := ReplaceImages(h.disk, s);
    var j := Stopped(images, crash);
    hide ShowsHosts, ShowsHost, ShowsDisk, ShowsMemory, AllLoggable, Matches, G.Sound;
    if !StopsAt(images, crash) {
      InstalledShows(e, h, r, fetched, h.sync.value.source);
      OneMove(e, g, i, G.Install, AfterInstall(h, crash));
      return [G.Install];
    }
    assert AfterInstall(h, crash) == Fallen(h, images[j]);
    if j == 0 {
      CrashShows(e, g, i, h, h.disk);
      return [G.Crash];
    }
    if |r.history| <= |fetched| {
      moves := StoppedForward(e, g, i, h, fetched, j);
    } else {
      moves := StoppedOlder(e, g, i, h, fetched, j);
    }
  }

  /** An install stopped after the rename: of a snapshot with all that is here, */
  lemma StoppedForward<S(!new)>(e: Engine<S>, g: G.Group, i: nat, h: Host<S>, fetched: History, j: nat)
      returns (moves: seq<G.Move>)
    requires G.CanMove(g, i, G.Install) && fetched == g.replicas[i].session.value.phase.snapshot
    requires !g.replicas[i].stuck && ShowsDisk(e, h.disk, g.replicas[i]) && h.disks == g.replicas[i].disk
    requires AllLoggable(e, fetched) && g.replicas[i].history <= fetched
    requires 0 < j < |ReplaceImages(h.disk, Snapshot(e.State(fetched), |fetched|))|
    ensures Matches(e, g, i, moves, Fallen(h, ReplaceImages(h.disk, Snapshot(e.State(fetched), |fetched|))[j]))
    ensures Forwards(g, i, moves)
  {
    var r := g.replicas[i];
    var image := ReplaceImages(h.disk, Snapshot(e.State(fetched), |fetched|))[j];
    hide ShowsHost, AllLoggable, Keeps, Scan, Orderly, Reopen, Matches, ShowsDisk;
    ReplaceShows(e, h.disk, r, fetched, j);
    FallenShows(e, h, G.Moved(g, i, G.Install), image);
    MoveAndSo(e, g, i, G.Install, false, true, Fallen(h, image));
    moves := [G.Install] + Then(false, true);
  }

  /** or of an older one. */
  lemma StoppedOlder<S(!new)>(e: Engine<S>, g: G.Group, i: nat, h: Host<S>, fetched: History, j: nat)
      returns (moves: seq<G.Move>)
    requires G.CanMove(g, i, G.Install) && fetched == g.replicas[i].session.value.phase.snapshot
    requires !g.replicas[i].stuck && ShowsDisk(e, h.disk, g.replicas[i]) && h.disks == g.replicas[i].disk
    requires AllLoggable(e, fetched) && fetched <= g.replicas[i].history && |fetched| < |g.replicas[i].history|
    requires 0 < j < |ReplaceImages(h.disk, Snapshot(e.State(fetched), |fetched|))|
    ensures Matches(e, g, i, moves, Fallen(h, ReplaceImages(h.disk, Snapshot(e.State(fetched), |fetched|))[j]))
  {
    hide ShowsHost, ShowsDisk, AllLoggable, Reopen, Matches, ReplaceImages;
    var r := g.replicas[i];
    var image := ReplaceImages(h.disk, Snapshot(e.State(fetched), |fetched|))[j];
    var kept := OlderShows(e, h.disk, r, fetched, j);
    if kept.Some? {
      TornShows(e, g, i, h, image, kept.value);
      return [G.Torn(kept.value)];
    }
    StuckShows(e, image, r.(history := fetched, snapshotSeq := |fetched|, stuck := true));
    OneMoveFallen(e, g, i, G.Wedge, h, image, r.(history := fetched, snapshotSeq := |fetched|, stuck := true));
    return [G.Wedge];
  }

  lemma StuckShows<S(!new)>(e: Engine<S>, d: Disk<S>, r: G.Replica)
    requires r.stuck && Reopen(e, d).Err?
    ensures ShowsDisk(e, d, r)
  {
    hide Reopen;
  }

  lemma TornShows<S(!new)>(e: Engine<S>, g: G.Group, i: nat, h: Host<S>, image: Disk<S>, kept: nat)
    requires G.CanMove(g, i, G.Torn(kept)) && h.disks == g.replicas[i].disk
    requires var r := g.replicas[i];
             ShowsDisk(e, image, r.(history := r.history[..kept], snapshotSeq := |r.session.value.phase.snapshot|))
    ensures Matches(e, g, i, [G.Torn(kept)], Fallen(h, image))
  {
    hide ShowsDisk, Matches, ShowsHost;
    var r := g.replicas[i];
    OneMoveFallen(e, g, i, G.Torn(kept), h, image,
                  r.(history := r.history[..kept], snapshotSeq := |r.session.value.phase.snapshot|));
  }

  lemma OneMoveFallen<S(!new)>(e: Engine<S>, g: G.Group, i: nat, move: G.Move, h: Host<S>, image: Disk<S>, r: G.Replica)
    requires G.CanMove(g, i, move) && G.Moved(g, i, move) == r.(up := false, session := None)
    requires h.disks == r.disk && ShowsDisk(e, image, r)
    ensures Matches(e, g, i, [move], Fallen(h, image))
  {
    hide Matches;
    FallenShows(e, h, r, image);
    hide *;
    OneMove(e, g, i, move, Fallen(h, image));
  }

  // ---------------------------------------------------------------- the hosts of one shard

  lemma Untouched(g: G.Group, i: nat)
    ensures CanAll(g, i, []) && AfterAll(g, i, []) == g
  {
  }

  lemma Matched<S(!new)>(e: Engine<S>, hosts: seq<Host<S>>, g: G.Group, i: nat, moves: seq<G.Move>, h: Host<S>)
    requires ShowsHosts(e, hosts, g) && i < |hosts| && Matches(e, g, i, moves, h)
    ensures CanAll(g, i, moves) && ShowsHosts(e, hosts[i := h], AfterAll(g, i, moves))
  {
    hide ShowsHost, CanAll, AfterAll;
    HostMoved(e, hosts, g, i, moves, h);
  }

  /** The source may have to take a snapshot first. */
  lemma SourceShows<S(!new)>(e: Engine<S>, hosts: seq<Host<S>>, g: G.Group, from: nat, crash: Option<nat>)
      returns (first: seq<G.Move>)
    requires ShowsHosts(e, hosts, g) && from < |hosts| && hosts[from].memory.Some?
    ensures CanAll(g, from, first)
    ensures Calm(first)
    ensures ShowsHosts(e, hosts[from := WithSnapshot(hosts[from], crash)], AfterAll(g, from, first))
  {
    hide ShowsHost, Matches, CanAll, AfterAll;
    if hosts[from].disk.snapshot.Some? {
      Untouched(g, from);
      assert hosts[from := hosts[from]] == hosts;
      return [];
    }
    first := CheckpointShows(e, g, from, hosts[from], crash);
    Matched(e, hosts, g, from, first, WithSnapshot(hosts[from], crash));
  }

  lemma FetchSnapshotShows<S(!new)>(e: Engine<S>, hosts: seq<Host<S>>, g: G.Group, i: nat, crash: Option<nat>)
      returns (from: nat, first: seq<G.Move>, moves: seq<G.Move>)
    requires Faithful(e.codec) && ShowsHosts(e, hosts, g) && CanDo(hosts, i, FetchSnapshot(crash))
    ensures CanAll(g, from, first) && CanAll(AfterAll(g, from, first), i, moves)
    ensures Calm(first) && Calm(moves)
    ensures ShowsHosts(e, Done(e, hosts, i, FetchSnapshot(crash)), AfterAll(AfterAll(g, from, first), i, moves))
  {
    hide ShowsHosts, Matches, CanAll, AfterAll, AfterCheckpoint, Done, WithSnapshot;
    from := hosts[i].sync.value.source;
    first := SourceShows(e, hosts, g, from, crash);
    FetchLeaves(e, hosts, i, crash);
    var source := WithSnapshot(hosts[from], crash);
    var now, later := hosts[from := source], AfterAll(g, from, first);
    moves := [];
    Untouched(later, i);
    if source.memory.Some? {
      SnapshotTaken(hosts[from], crash);
      moves := FetchedShows(e, now, later, i);
      Matched(e, now, later, i, moves, now[i].(sync := Some(Sync(from, Fetched(source.disk.snapshot.value)))));
    }
  }

  lemma FetchLeaves<S(!new)>(e: Engine<S>, hosts: seq<Host<S>>, i: nat, crash: Option<nat>)
    requires Faithful(e.codec) && CanDo(hosts, i, FetchSnapshot(crash))
    ensures var from := hosts[i].sync.value.source;
            var source := WithSnapshot(hosts[from], crash);
            Done(e, hosts, i, FetchSnapshot(crash)) ==
              if source.memory.None? || source.disk.snapshot.None? then hosts[from := source]
              else hosts[from := source][i := hosts[i].(sync := Some(Sync(from, Fetched(source.disk.snapshot.value))))]
  {
    hide AfterCheckpoint;
  }

  lemma SnapshotTaken<S>(h: Host<S>, crash: Option<nat>)
    requires h.memory.Some? && WithSnapshot(h, crash).memory.Some?
    ensures WithSnapshot(h, crash).disk.snapshot.Some?
  {
  }

  /** Whatever a host does, its group does in a few moves: first perhaps some of its source, then its own. */
  lemma DoingShows<S(!new)>(e: Engine<S>, hosts: seq<Host<S>>, g: G.Group, i: nat, doing: Doing)
      returns (from: nat, first: seq<G.Move>, moves: seq<G.Move>)
    requires Faithful(e.codec) && ShowsHosts(e, hosts, g) && CanDo(hosts, i, doing) && G.Sound(g)
    ensures CanAll(g, from, first) && CanAll(AfterAll(g, from, first), i, moves)
    ensures ShowsHosts(e, Done(e, hosts, i, doing), AfterAll(AfterAll(g, from, first), i, moves))
    ensures Calm(first) && (!BringsBack(hosts, i, doing) ==> Forwards(AfterAll(g, from, first), i, moves))
  {
    if doing.FetchSnapshot? {
      from, first, moves := FetchSnapshotShows(e, hosts, g, i, doing.crash);
      return;
    }
    from, first := i, [];
    Untouched(g, i);
    moves := OwnDoingShows(e, hosts, g, i, doing);
    hide Matches, ShowsHost, ShowsHosts, CanAll, AfterAll;
    Matched(e, hosts, g, i, moves, Done(e, hosts, i, doing)[i]);
    assert Done(e, hosts, i, doing) == hosts[i := Done(e, hosts, i, doing)[i]];
  }

  lemma OwnDoingShows<S(!new)>(e: Engine<S>, hosts: seq<Host<S>>, g: G.Group, i: nat, doing: Doing)
      returns (moves: seq<G.Move>)
    requires Faithful(e.codec) && ShowsHosts(e, hosts, g) && CanDo(hosts, i, doing) && G.Sound(g)
    requires !doing.FetchSnapshot?
    ensures i < |hosts| && |Done(e, hosts, i, doing)| == |hosts| && Matches(e, g, i, moves, Done(e, hosts, i, doing)[i])
    ensures !BringsBack(hosts, i, doing) ==> Forwards(g, i, moves)
  {
    hide ShowsHost, G.Sound, Matches, Calm, Forwards, AfterAdd, AfterOpen, AfterCheckpoint, AfterInstall, AfterRecord,
         LogReply, Faithful, Reopen;
    var h := hosts[i];
    assert ShowsHost(e, h, g.replicas[i]);
    match doing {
      case Crash =>
        RunningFacts(e, h, g.replicas[i]);
        CrashShows(e, g, i, h, h.disk);
        CalmThen(G.Crash, false, false);
        moves := [G.Crash];
      case Open(crash) => moves := OpenShows(e, g, i, h, crash);
      case LoseDisk => moves := LoseDiskShows(e, g, i, h);
      case Checkpoint(crash) => moves := CheckpointShows(e, g, i, h, crash);
      case FetchLog => moves := FetchLogShows(e, hosts, g, i);
      case ApplyRecord(crash) => moves := ApplyRecordShows(e, hosts, g, i, crash);
      case Install(crash) => moves := InstallShows(e, hosts, g, i, crash);
      case EndSync => moves := EndSyncShows(e, g, i, h);
    }
    if !doing.Install? {
      CalmForwards(g, i, moves);
    }
  }

  lemma CalmForwards(g: G.Group, i: nat, moves: seq<G.Move>)
    requires Calm(moves)
    ensures Forwards(g, i, moves)
  {
  }
}

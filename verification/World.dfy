/** A whole cluster as it is: bytes on disks, fields in memory, one coordinator. */
module Worlds {
  import opened Bytes
  import opened Framing
  import opened LogFormat
  import opened Histories
  import opened Disks
  import C = Clusters
  import G = ReplicaGroups

  // Nothing here knows of histories. A replica has a disk, and, while it is up, the fields of an
  // open shard; a sync under way has the records or the snapshot it was sent. The coordinator has
  // its numbers, and sees of a replica only what it replies. `Refinements` shows that every run
  // of this is a run of `Clusters`.

  datatype SyncPhase<S> =
    | Asking                               // about to fetch the source's log
    | Applying(records: seq<Record>)       // the records that are left of the source's reply
    | Refused(disks: nat)                  // the log no longer reaches back, said the source from this disk
    | Fetched(snapshot: Snapshot<S>)

  datatype Sync<S> = Sync(source: nat, phase: SyncPhase<S>)

  /** `disks` counts the disks it has lost. */
  datatype Host<S> = Host(disk: Disk<S>, memory: Option<Memory<S>>, disks: nat, sync: Option<Sync<S>>)

  /**
    A write that every replica of its shard acknowledged, with the number it was sent under, and
    how many disks each had lost when it took the write.
    */
  datatype Receipt = Receipt(shard: nat, number: nat, batch: Batch, disks: map<nat, nat>)

  /**
    What the coordinator has in mind is a cluster in which all replicas look the same. The ledger
    is a record for the reader, which nobody in the world sees.
    */
  datatype World<S> = World(shards: seq<seq<Host<S>>>, mind: C.Cluster, ledger: seq<Receipt>)

  /** What a replica does on its own; where it writes to its disk, a crash may stop it. */
  datatype Doing =
    | Crash
    | Open(crash: Option<nat>)
    | LoseDisk
    | Checkpoint(crash: Option<nat>)
    | FetchLog
    | ApplyRecord(crash: Option<nat>)
    | FetchSnapshot(crash: Option<nat>)    // a crash of the source, that is
    | Install(crash: Option<nat>)
    | EndSync

  datatype Happening =
    | Does(shard: nat, host: nat, doing: Doing)
    | StartSync(shard: nat, host: nat, source: nat)
    | Status                                                          // the next reply of a check
    | Arrive(shard: nat, host: nat, acked: bool, crash: Option<nat>)  // a write call reaches its replica
    | Decide(action: C.Action)                                        // the coordinator goes on

  // ---------------------------------------------------------------- what the coordinator cannot see

  const BLANK := G.Replica([], 0, false, false, 0, None)

  function Blanks(n: nat): seq<G.Replica> {
    seq(n, _ => BLANK)
  }

  /** Which disk an acknowledgement came from is kept for the ledger: no decision depends on it. */
  function BlurredView(view: G.View): G.View {
    match view
    case Writing(n, batch, pending, failed, acks) =>
      G.Writing(n, batch, pending, failed, map i | i in acks :: G.Ack([], acks[i].disk))
    case _ => view
  }

  function BlurredGroup(g: G.Group): G.Group {
    G.Group(Blanks(|g.replicas|), BlurredView(g.view))
  }

  function Blurred(c: C.Cluster): C.Cluster {
    c.(groups := seq(|c.groups|, k requires 0 <= k < |c.groups| => BlurredGroup(c.groups[k])), ledger := [])
  }

  /** The coordinator's own steps. */
  predicate IsDecision(a: C.Action) {
    match a
    case Step(_, _, _) => false
    case Sync(_, _, _) => false
    case AskNext => false
    case Reach(_, _, _) => false
    case _ => true
  }

  // ---------------------------------------------------------------- hosts

  function Fallen<S>(h: Host<S>, disk: Disk<S>): Host<S> {
    h.(disk := disk, memory := None, sync := None)
  }

  predicate StopsAt<S>(images: Images<S>, crash: Option<nat>) {
    crash.Some? && crash.value < |images|
  }

  /** An operation that takes the disk through these images, and memory to `m`, unless a crash stops it. */
  function Settled<S>(h: Host<S>, images: Images<S>, crash: Option<nat>, m: Memory<S>): Host<S>
    requires |images| > 0
  {
    if StopsAt(images, crash) then Fallen(h, images[crash.value])
    else h.(disk := Last(images), memory := Some(m))
  }

  /** A new snapshot of what `m` is. */
  function Snapped<S>(m: Memory<S>): Memory<S> {
    Memory(m.shard, m.lastSeq, m.lastSeq, 0)
  }

  function Added<S>(e: Engine<S>, m: Memory<S>, b: Batch): Memory<S> {
    var after := Applied(e, m, b);
    if Due(e, after) then Snapped(after) else after
  }

  function AfterAdd<S(!new)>(e: Engine<S>, h: Host<S>, b: Batch, crash: Option<nat>): Host<S>
    requires Faithful(e.codec) && h.memory.Some? && Acceptable(e, h.memory.value.lastSeq, b)
  {
    Settled(h, AddImages(e, h.disk, h.memory.value, b), crash, Added(e, h.memory.value, b))
  }

  function AfterCheckpoint<S>(h: Host<S>, crash: Option<nat>): Host<S>
    requires h.memory.Some?
  {
    Settled(h, ReplaceImages(h.disk, CurrentSnapshot(h.memory.value)), crash, Snapped(h.memory.value))
  }

  function AfterOpen<S>(e: Engine<S>, h: Host<S>, crash: Option<nat>): Host<S> {
    match Reopen(e, h.disk)
    case Err(_) => h
    case Ok(m) => Settled(h, OpenImages(e, h.disk), crash, m)
  }

  predicate Free<S>(h: Host<S>) {
    h.memory.Some? && h.sync.None?
  }

  predicate CanDo<S>(hosts: seq<Host<S>>, i: nat, doing: Doing) {
    && i < |hosts|
    && var h := hosts[i];
       var syncing := h.memory.Some? && h.sync.Some? && h.sync.value.source < |hosts| && h.sync.value.source != i;
       match doing
       case Crash => h.memory.Some?
       case Open(_) => h.memory.None?
       case LoseDisk => h.memory.None?
       case Checkpoint(_) => h.memory.Some?
       case FetchLog => syncing && h.sync.value.phase.Asking? && hosts[h.sync.value.source].memory.Some?
       case ApplyRecord(_) => syncing && h.sync.value.phase.Applying? && h.sync.value.phase.records != []
       case FetchSnapshot(_) => syncing && h.sync.value.phase.Refused? && hosts[h.sync.value.source].memory.Some?
       case Install(_) => syncing && h.sync.value.phase.Fetched?
       case EndSync => h.sync.Some?
  }

  /** An install of a snapshot with fewer writes than the host has. */
  predicate BringsBack<S>(hosts: seq<Host<S>>, i: nat, doing: Doing)
    requires CanDo(hosts, i, doing)
  {
    doing.Install? && hosts[i].sync.value.phase.snapshot.lastSeq < hosts[i].memory.value.lastSeq
  }

  /** The source's answer to FetchLog. */
  function LogReply<S>(e: Engine<S>, source: Host<S>, after: nat): SyncPhase<S>
    requires source.memory.Some?
  {
    if after < source.memory.value.snapshotSeq then Refused(source.disks)
    else Applying(Newer(Scan(e.codec, source.disk.log).records, after))
  }

  /** One record of the source's log is applied; one that cannot be ends the sync. */
  function AfterRecord<S(!new)>(e: Engine<S>, h: Host<S>, crash: Option<nat>): Host<S>
    requires Faithful(e.codec) && h.memory.Some?
    requires h.sync.Some? && h.sync.value.phase.Applying? && h.sync.value.phase.records != []
  {
    var m, records := h.memory.value, h.sync.value.phase.records;
    var r := records[0];
    if r.seqNo != m.lastSeq + 1 || !Acceptable(e, m.lastSeq, r.batch) then h.(sync := None)
    else AfterAdd(e, h.(sync := Some(Sync(h.sync.value.source, Applying(records[1..])))), r.batch, crash)
  }

  /** The source with a snapshot, taken first if there is none. */
  function WithSnapshot<S>(source: Host<S>, crash: Option<nat>): Host<S>
    requires source.memory.Some?
  {
    if source.disk.snapshot.Some? then source else AfterCheckpoint(source, crash)
  }

  function AfterInstall<S>(h: Host<S>, crash: Option<nat>): Host<S>
    requires h.memory.Some? && h.sync.Some? && h.sync.value.phase.Fetched?
  {
    var s := h.sync.value.phase.snapshot;
    Settled(h.(sync := Some(Sync(h.sync.value.source, Asking))), ReplaceImages(h.disk, s), crash,
            Memory(s.shard, s.lastSeq, s.lastSeq, 0))
  }

  function Done<S(!new)>(e: Engine<S>, hosts: seq<Host<S>>, i: nat, doing: Doing): seq<Host<S>>
    requires Faithful(e.codec) && CanDo(hosts, i, doing)
  {
    var h := hosts[i];
    match doing
    case Crash => hosts[i := Fallen(h, h.disk)]
    case Open(crash) => hosts[i := AfterOpen(e, h, crash)]
    case LoseDisk => hosts[i := Host(Disk(None, []), None, h.disks + 1, None)]
    case Checkpoint(crash) => hosts[i := AfterCheckpoint(h, crash)]
    case FetchLog =>
      var from := h.sync.value.source;
      hosts[i := h.(sync := Some(Sync(from, LogReply(e, hosts[from], h.memory.value.lastSeq))))]
    case ApplyRecord(crash) => hosts[i := AfterRecord(e, h, crash)]
    case FetchSnapshot(crash) =>
      var from := h.sync.value.source;
      var source := WithSnapshot(hosts[from], crash);
      if source.memory.None? || source.disk.snapshot.None? then hosts[from := source]
      else hosts[from := source][i := h.(sync := Some(Sync(from, Fetched(source.disk.snapshot.value))))]
    case Install(crash) => hosts[i := AfterInstall(h, crash)]
    case EndSync => hosts[i := h.(sync := None)]
  }

  // ---------------------------------------------------------------- the world

  predicate IsHost<S>(w: World<S>, k: nat, i: nat) {
    k < |w.shards| == |w.mind.groups| && i < |w.shards[k]|
  }

  predicate Awaits<S>(w: World<S>, k: nat, i: nat) {
    IsHost(w, k, i) && w.mind.groups[k].view.Writing? && i in w.mind.groups[k].view.pending
  }

  ghost predicate CanHappen<S>(w: World<S>, happening: Happening) {
    if happening.Decide? then IsDecision(happening.action) && C.Can(w.mind, happening.action)
    else CanOccur(w, happening)
  }

  /** All that can happen but the coordinator's decisions. */
  predicate CanOccur<S>(w: World<S>, happening: Happening) {
    match happening
    case Does(k, i, doing) => k < |w.shards| && CanDo(w.shards[k], i, doing)
    case StartSync(k, i, source) =>
      && IsHost(w, k, i) && IsHost(w, k, source) && source != i && w.mind.activity.Idle? && Free(w.shards[k][i])
      && (w.mind.groups[k].view.Unknown? || w.mind.groups[k].view.Known?)
    case Status =>
      && w.mind.activity.Inspecting?
      && var k := w.mind.activity.shard;
         && k < |w.shards| == |w.mind.groups| && w.mind.groups[k].view.Checking?
         && |w.mind.groups[k].view.found| < |w.shards[k]| && Free(w.shards[k][|w.mind.groups[k].view.found|])
    case Arrive(k, i, _, _) =>
      Awaits(w, k, i) && Free(w.shards[k][i]) && w.shards[k][i].memory.value.lastSeq == w.mind.groups[k].view.n
    case Decide(a) => false
  }

  predicate Onward<S>(w: World<S>, happening: Happening) {
    match happening
    case Does(k, i, doing) =>
      k < |w.shards| && CanDo(w.shards[k], i, doing) ==> !BringsBack(w.shards[k], i, doing)
    case _ => true
  }

  function WithHost<S>(w: World<S>, k: nat, i: nat, h: Host<S>): World<S>
    requires IsHost(w, k, i)
  {
    w.(shards := w.shards[k := w.shards[k][i := h]])
  }

  function WithView<S>(w: World<S>, k: nat, view: G.View): World<S>
    requires k < |w.mind.groups|
  {
    w.(mind := w.mind.(groups := w.mind.groups[k := w.mind.groups[k].(view := view)]))
  }

  /** The call of a write is over: acknowledged, from this disk, or failed as far as the coordinator can tell. */
  function Replied(view: G.View, i: nat, acked: bool, disks: nat): G.View
    requires view.Writing?
  {
    var pending := view.pending - {i};
    if acked then view.(pending := pending, acks := view.acks[i := G.Ack([], disks)])
    else view.(pending := pending, failed := true)
  }

  /** The receipt is from every replica of its shard, and no others. */
  ghost predicate IsWhole<S>(shards: seq<seq<Host<S>>>, receipt: Receipt) {
    && receipt.shard < |shards|
    && forall i: nat :: i in receipt.disks <==> i < |shards[receipt.shard]|
  }

  function ReceiptFor(k: nat, view: G.View): Receipt
    requires view.Writing?
  {
    Receipt(k, view.n + 1, view.batch, map i | i in view.acks :: view.acks[i].disk)
  }

  /** One for each of the shards 0 to k-1 that was written to in this round. */
  function Receipts(mind: C.Cluster, k: nat): seq<Receipt>
    requires k <= |mind.groups|
  {
    if k == 0 then []
    else
      var view := mind.groups[k - 1].view;
      Receipts(mind, k - 1) + if view.Writing? then [ReceiptFor(k - 1, view)] else []
  }

  /** A round of chunks that ends with no failed call is recorded. */
  function NewReceipts(mind: C.Cluster, a: C.Action): seq<Receipt> {
    if a.FinishChunks? && !C.SomeFailed(mind) then Receipts(mind, |mind.groups|) else []
  }

  /** The state replica i replies from, if a reply to the write arrives. */
  function ReplyTo<S(!new)>(e: Engine<S>, w: World<S>, k: nat, i: nat, acked: bool, crash: Option<nat>): Option<S>
    requires Faithful(e.codec) && CanOccur(w, Arrive(k, i, acked, crash))
  {
    var h, b := w.shards[k][i], w.mind.groups[k].view.batch;
    if !acked || !Acceptable(e, h.memory.value.lastSeq, b) then None
    else
      var later := AfterAdd(e, h, b, crash);
      if later.memory.None? then None else Some(later.memory.value.shard)
  }

  function Next<S(!new)>(e: Engine<S>, nextId: S -> int, w: World<S>, happening: Happening): World<S>
    requires Faithful(e.codec) && CanHappen(w, happening)
  {
    match happening
    case Does(k, i, doing) => w.(shards := w.shards[k := Done(e, w.shards[k], i, doing)])
    case StartSync(k, i, source) => WithHost(w, k, i, w.shards[k][i].(sync := Some(Sync(source, Asking))))
    case Status =>
      var k := w.mind.activity.shard;
      var found := w.mind.groups[k].view.found;
      var m := w.shards[k][|found|].memory.value;
      WithView(w, k, G.Checking(found + [G.Found(m.lastSeq, nextId(m.shard))]))
    case Arrive(k, i, acked, crash) =>
      var h, view := w.shards[k][i], w.mind.groups[k].view;
      if !Acceptable(e, h.memory.value.lastSeq, view.batch) then WithView(w, k, Replied(view, i, false, h.disks))
      else
        var later := AfterAdd(e, h, view.batch, crash);
        WithView(WithHost(w, k, i, later), k, Replied(view, i, acked && later.memory.Some?, h.disks))
    case Decide(a) => w.(mind := Blurred(C.After(w.mind, a)), ledger := w.ledger + NewReceipts(w.mind, a))
  }

  ghost predicate Happens<S(!new)>(e: Engine<S>, nextId: S -> int, w: World<S>, run: seq<Happening>)
    requires Faithful(e.codec)
    decreases |run|
  {
    run == [] || (CanHappen(w, run[0]) && Happens(e, nextId, Next(e, nextId, w, run[0]), run[1..]))
  }

  ghost predicate AllOnward<S(!new)>(e: Engine<S>, nextId: S -> int, w: World<S>, run: seq<Happening>)
    requires Faithful(e.codec) && Happens(e, nextId, w, run)
    decreases |run|
  {
    run == [] || (Onward(w, run[0]) && AllOnward(e, nextId, Next(e, nextId, w, run[0]), run[1..]))
  }

  ghost function Eventually<S(!new)>(e: Engine<S>, nextId: S -> int, w: World<S>, run: seq<Happening>): World<S>
    requires Faithful(e.codec) && Happens(e, nextId, w, run)
    decreases |run|
  {
    if run == [] then w else Eventually(e, nextId, Next(e, nextId, w, run[0]), run[1..])
  }

  /** Empty disks, nobody up, a coordinator that has done nothing. */
  predicate Begins<S>(w: World<S>) {
    && |w.shards| == |w.mind.groups| == |w.mind.todo| && w.ledger == []
    && w.mind.size == 0 && w.mind.activity.Idle? && w.mind.ledger == []
    && forall k :: 0 <= k < |w.shards| ==>
         && |w.shards[k]| > 0 && w.mind.todo[k] == []
         && w.mind.groups[k] == G.Group(Blanks(|w.shards[k]|), G.Unknown)
         && forall i :: 0 <= i < |w.shards[k]| ==> w.shards[k][i] == Host(Disk(None, []), None, 0, None)
  }
}

/** `DurableShard`: a shard whose acknowledged writes survive a crash. */
module DurableShards {
  import opened Bytes
  import opened Framing
  import opened LogFormat
  import opened Histories
  import opened Disks

  /** How `add_batch` can end. Unloggable: a field does not fit the log's fixed-width formats. */
  datatype AddReply = Added | OutOfOrder(expected: nat) | Unloggable

  /** The replay loop of the constructor, over the records read back from the log. */
  method ReplayLog<S>(e: Engine<S>, start: Memory<S>, records: seq<Record>) returns (r: Result<Memory<S>, LogJump>)
    ensures r == Replay(e, start, records)
  {
    var m := start;
    assert records[0..] == records;
    for i := 0 to |records|
      invariant Replay(e, start, records) == Replay(e, m, records[i..])
    {
      var record := records[i];
      assert records[i..][1..] == records[i + 1..];
      if record.seqNo <= m.lastSeq {
        continue;
      }
      if record.seqNo != m.lastSeq + 1 {
        return Err(LogJump(m.lastSeq, record.seqNo));
      }
      m := Memory(e.apply(m.shard, record.batch), record.seqNo, m.snapshotSeq,
                  m.sinceSnapshot + |record.batch.ids|);
    }
    return Ok(m);
  }

  class DurableShard<S(!new)> {
    const engine: Engine<S>
    var disk: Disk<S>
    var shard: S
    var lastSeq: nat
    var snapshotSeq: nat
    var vectorsSinceSnapshot: nat

    ghost var history: History          // every write accepted, in order
    ghost var images: seq<Disk<S>>      // every disk a crash could have left behind so far
    ghost var installs: seq<nat>        // the number of each snapshot installed since it was opened

    ghost predicate Valid()
      reads this
    {
      && Faithful(engine.codec)
      && AllLoggable(engine, history)
      && Keeps(engine, disk, history)
      && Clean(engine, disk)
      && Fields() == Running(engine, history, SnapshotSeq(disk))
    }

    function Fields(): Memory<S>
      reads this
    {
      Memory(shard, lastSeq, snapshotSeq, vectorsSinceSnapshot)
    }

    /**
      The constructor of the source: read the log, replay it over the snapshot, cut off its torn
      tail. It fails exactly if the log jumps; otherwise `h` is the history the disk keeps.
      */
    static method Open(engine: Engine<S>, d: Disk<S>, ghost h: History)
        returns (result: Result<DurableShard<S>, LogJump>)
      requires Faithful(engine.codec)
      requires Reopen(engine, d).Ok? ==> AllLoggable(engine, h) && Keeps(engine, d, h)
      ensures result.Err? <==> Reopen(engine, d).Err?
      ensures result.Err? ==> result.error == Reopen(engine, d).error
      ensures result.Ok? ==>
        && fresh(result.value) && result.value.Valid()
        && result.value.engine == engine && result.value.history == h && result.value.snapshotSeq == SnapshotSeq(d)
        && CrashSafe(engine, result.value.images, 0, h, h) && result.value.installs == []
    {
      var records, intact := ReadRecords(engine.codec, d.log);
      assert Scanned(records, intact) == Scan(engine.codec, d.log);
      var m := ReplayLog(engine, Loaded(engine, d), records);
      if m.Err? {
        return Err(m.error);
      }
      var durable := new DurableShard(engine, d, m.value, intact, h);
      return Ok(durable);
    }

    /** What opening has read becomes the fields. */
    constructor (engine: Engine<S>, d: Disk<S>, m: Memory<S>, intact: nat, ghost h: History)
      requires Faithful(engine.codec) && AllLoggable(engine, h) && Keeps(engine, d, h)
      requires Reopen(engine, d) == Ok(m) && intact == Scan(engine.codec, d.log).intact
      ensures Valid() && this.engine == engine && history == h
      ensures snapshotSeq == SnapshotSeq(d)
      ensures CrashSafe(engine, images, 0, h, h) && installs == []
    {
      hide Keeps, Holds, Clean, Scan, Reopen, Running, CrashSafe, CutImages;
      OpenKeeps(engine, d, h);
      OpeningIsSafe(engine, d, h);
      this.engine := engine;
      disk := d.(log := d.log[..intact]);
      shard := m.shard;
      lastSeq := m.lastSeq;
      snapshotSeq := m.snapshotSeq;
      vectorsSinceSnapshot := m.sinceSnapshot;
      history := h;
      images := CutImages(d, intact);
      installs := [];
    }

    /** Everything is in the snapshot, and nothing is in the log. */
    ghost predicate Snapshotted()
      reads this
    {
      && disk.snapshot == Some(Snapshot(shard, lastSeq)) && disk.log == []
      && snapshotSeq == lastSeq && vectorsSinceSnapshot == 0
    }

    /** Write `s` aside, rename it over the snapshot, then empty the log. */
    method ReplaceOnDisk(s: Snapshot<S>)
      modifies this`disk, this`images
      ensures disk == Disk(Some(s), [])
      ensures images == old(images) + ReplaceImages(old(disk), s)
    {
      images := images + SaveImages(disk, s);
      disk := disk.(snapshot := Some(s));
      images := images + CutImages(disk, 0);
      disk := disk.(log := []);
    }

    /** The body of `checkpoint`. */
    method WriteSnapshot()
      modifies this`disk, this`images, this`snapshotSeq, this`vectorsSinceSnapshot
      ensures Snapshotted() && disk == Disk(Some(CurrentSnapshot(old(Fields()))), [])
      ensures images == old(images) + ReplaceImages(old(disk), CurrentSnapshot(old(Fields())))
    {
      ReplaceOnDisk(Snapshot(shard, lastSeq));
      snapshotSeq := lastSeq;
      vectorsSinceSnapshot := 0;
    }

    /**
      `add_batch`. A given `number` (`seq`) must be exactly the next one. A snapshot is taken if
      and only if that many vectors have been written since the last one.
      */
    method AddBatch(batch: Batch, number: Option<nat>) returns (reply: AddReply)
      requires Valid()
      modifies this
      ensures Valid() && installs == old(installs)
      ensures reply.OutOfOrder? <==> number.Some? && number.value != |old(history)| + 1
      ensures reply.OutOfOrder? ==> reply.expected == |old(history)| + 1
      ensures reply.Unloggable? ==> !Acceptable(engine, |old(history)|, batch)
      ensures !reply.Added? ==> Fields() == old(Fields()) && disk == old(disk)
                                && history == old(history) && images == old(images)
      ensures reply.Added? ==>
        && Acceptable(engine, |old(history)|, batch)
        && history == old(history) + [batch]
        && (if 0 < engine.snapshotEvery <= old(vectorsSinceSnapshot) + |batch.ids|
            then Snapshotted() else snapshotSeq == old(snapshotSeq) && disk.snapshot == old(disk).snapshot
                                    && vectorsSinceSnapshot == old(vectorsSinceSnapshot) + |batch.ids|)
        && images == old(images) + AddImages(engine, old(disk), old(Fields()), batch)
        && CrashSafe(engine, images, |old(images)|, old(history), history)
    {
      var expected := lastSeq + 1;
      if number.Some? && number.value != expected {
        return OutOfOrder(expected);
      }
      if expected >= SEQ_LIMIT || !engine.codec.accepts(Record(expected, batch)) {
        return Unloggable;
      }
      LogAndApply(batch);
      return Added;
    }

    /** `wal.append`. */
    method Append(record: Record)
      requires Faithful(engine.codec) && engine.codec.accepts(record)
      modifies this`disk, this`images
      ensures images == old(images) + AppendImages(engine, old(disk), record)
      ensures disk == Last(AppendImages(engine, old(disk), record)) && disk.snapshot == old(disk).snapshot
    {
      var frame := Frame(engine.codec, record);
      assert frame[..|frame|] == frame;
      images := images + AppendImages(engine, disk, record);
      disk := disk.(log := disk.log + frame);
    }

    /** The write reaches the log, then the shard. */
    method Log(batch: Batch)
      requires Faithful(engine.codec) && Acceptable(engine, lastSeq, batch)
      modifies this
      ensures Fields() == Applied(engine, old(Fields()), batch) && disk.snapshot == old(disk).snapshot
      ensures disk == Last(AppendImages(engine, old(disk), Record(old(lastSeq) + 1, batch)))
      ensures images == old(images) + AppendImages(engine, old(disk), Record(old(lastSeq) + 1, batch))
      ensures history == old(history) + [batch] && installs == old(installs)
    {
      hide AppendImages, Frame;
      Append(Record(lastSeq + 1, batch));
      shard := engine.apply(shard, batch);
      lastSeq := lastSeq + 1;
      vectorsSinceSnapshot := vectorsSinceSnapshot + |batch.ids|;
      history := history + [batch];
    }

    /** The rest of `add_batch`, once the write is known to be the next one. */
    method LogAndApply(batch: Batch)
      requires Valid() && Acceptable(engine, |history|, batch)
      modifies this
      ensures Valid() && history == old(history) + [batch] && installs == old(installs)
      ensures if 0 < engine.snapshotEvery <= old(vectorsSinceSnapshot) + |batch.ids|
              then Snapshotted() else snapshotSeq == old(snapshotSeq) && disk.snapshot == old(disk).snapshot
                                      && vectorsSinceSnapshot == old(vectorsSinceSnapshot) + |batch.ids|
      ensures images == old(images) + AddImages(engine, old(disk), old(Fields()), batch)
      ensures CrashSafe(engine, images, |old(images)|, old(history), history)
    {
      hide Holds, Keeps, Clean, Running, Frame, CrashSafe, SnapshotSeqAfterAdd, Fold, AllLoggable, Faithful,
           AppendImages, ReplaceImages, SaveImages, CutImages, Scan;
      KeptBounds(engine, disk, history);
      OneMoreLoggable(engine, history, batch);
      AddIsCrashSafe(engine, disk, history, batch, |images|, images);
      AddLeaves(engine, disk, history, batch);
      ghost var m, appended := Fields(), AppendImages(engine, disk, Record(lastSeq + 1, batch));
      Log(batch);
      if engine.snapshotEvery != 0 && vectorsSinceSnapshot >= engine.snapshotEvery {
        WriteSnapshot();
        ghost var replaced := ReplaceImages(Last(appended), CurrentSnapshot(Applied(engine, m, batch)));
        assert images == old(images) + (appended + replaced);
      }
    }

    /** `checkpoint`. */
    method Checkpoint()
      requires Valid()
      modifies this
      ensures Valid() && history == old(history) && snapshotSeq == |history| && Snapshotted()
      ensures disk == Disk(Some(CurrentSnapshot(old(Fields()))), []) && installs == old(installs)
      ensures images == old(images) + ReplaceImages(old(disk), CurrentSnapshot(old(Fields())))
      ensures CrashSafe(engine, images, |old(images)|, history, history)
    {
      hide Keeps, Holds, Clean, CrashSafe, ReplaceImages;
      ghost var before := disk;
      KeptBounds(engine, disk, history);
      WriteSnapshot();
      SnapshotKeeps(engine, history);
      ReplaceIsCrashSafe(engine, before, history, history, old(images));
    }

    /** `records_after`: the log records past `after`, or None if the log no longer holds them all. */
    method RecordsAfter(after: nat) returns (records: Option<seq<Record>>)
      requires Valid()
      ensures records == if after < snapshotSeq then None
                         else Some(if after <= |history| then Tail(history, after) else [])
    {
      if after < snapshotSeq {
        return None;
      }
      var read, _ := ReadRecords(engine.codec, disk.log);
      NewerThan(engine, disk, history, after);
      return Some(Newer(read, after));
    }

    /** `snapshot_bytes`: the snapshot on disk, taking one first if there is none. */
    method SnapshotBytes() returns (s: Snapshot<S>)
      requires Valid()
      modifies this
      ensures Valid() && history == old(history)
      ensures s.lastSeq == snapshotSeq <= |history| && s.shard == engine.State(history[..snapshotSeq])
      ensures old(disk).snapshot.Some? ==> snapshotSeq == old(snapshotSeq)
      ensures old(disk).snapshot.None? ==> snapshotSeq == |history|
      ensures installs == old(installs)
      ensures |images| >= |old(images)| && images[..|old(images)|] == old(images)
      ensures CrashSafe(engine, images, |old(images)|, history, history)
    {
      if disk.snapshot.None? {
        Checkpoint();
      }
      s := disk.snapshot.value;
    }

    /**
      `install_snapshot`, with a snapshot taken from history `g`. Afterwards this shard is
      the one that accepted `g`. When `g` extends what was here, no crash on the way loses a
      write; nothing here checks that it does. Otherwise a crash after the rename leaves a disk
      that cannot be opened exactly if what is left of the log jumps past the snapshot.
      */
    method InstallSnapshot(s: Snapshot<S>, ghost g: History)
      requires Valid() && AllLoggable(engine, g) && s == Snapshot(engine.State(g), |g|)
      modifies this
      ensures Valid() && history == g && snapshotSeq == |g| && installs == old(installs) + [|g|]
      ensures images == old(images) + ReplaceImages(old(disk), s)
      ensures old(history) <= g ==> CrashSafe(engine, images, |old(images)|, old(history), g)
      ensures forall i :: |old(images)| < i < |images| ==> IsInstalled(engine, old(disk), images[i], g)
    {
      hide Keeps, Holds, Clean, Running, CrashSafe, IsInstalled, ReplaceImages;
      ghost var before, h, m := disk, history, |images|;
      KeptBounds(engine, disk, history);
      ReplaceOnDisk(s);
      shard, lastSeq := s.shard, s.lastSeq;
      snapshotSeq := lastSeq;
      vectorsSinceSnapshot := 0;
      history, installs := g, installs + [|g|];
      SnapshotKeeps(engine, g);
      forall i | m < i < |images|
        ensures IsInstalled(engine, before, images[i], g)
      {
        InstalledImage(engine, before, h, g, i - m);
      }
      if h <= g {
        ReplaceIsCrashSafe(engine, before, h, g, old(images));
      }
    }
  }

  /** A snapshot of `g` over what is left of the log there was. */
  ghost predicate IsInstalled<S(!new)>(e: Engine<S>, before: Disk<S>, d: Disk<S>, g: History) {
    var left := Scan(e.codec, d.log).records;
    && left <= Scan(e.codec, before.log).records && SnapshotSeq(d) == |g|
    && if Jumps(left, |g|) then Reopen(e, d).Err? else Reopen(e, d).Ok? && Keeps(e, d, Overlaid(g, left))
  }

  lemma InstalledImage<S(!new)>(e: Engine<S>, d: Disk<S>, h: History, g: History, i: nat)
    requires Keeps(e, d, h) && |g| < SEQ_LIMIT && 0 < i < |ReplaceImages(d, Snapshot(e.State(g), |g|))|
    ensures IsInstalled(e, d, ReplaceImages(d, Snapshot(e.State(g), |g|))[i], g)
  {
    hide Keeps, Scan, Reopen, Jumps, Overlaid, ReplaceImages;
    ReplacedHolds(e, d, h, g, i);
  }

  lemma SnapshotKeeps<S(!new)>(e: Engine<S>, g: History)
    requires |g| < SEQ_LIMIT
    ensures var d := Disk(Some(Snapshot(e.State(g), |g|)), []);
            && Keeps(e, d, g) && Clean(e, d) && SnapshotSeq(d) == |g|
            && Running(e, g, |g|) == Memory(e.State(g), |g|, |g|, 0)
  {
    SnapshotHolds(e, g);
    TooShort(e.codec, []);
    assert g[|g|..] == [];
  }

  /** Cutting off the torn tail loses nothing, wherever it stops. */
  lemma OpeningIsSafe<S(!new)>(e: Engine<S>, d: Disk<S>, h: History)
    requires Keeps(e, d, h)
    ensures CrashSafe(e, CutImages(d, Scan(e.codec, d.log).intact), 0, h, h)
  {
    hide Holds, Scan, Rising;
    forall k | Scan(e.codec, d.log).intact <= k <= |d.log|
      ensures Holds(e, d.(log := d.log[..k]), h)
    {
      OpenCrash(e, d, h, k);
    }
  }

  lemma NewerThan<S(!new)>(e: Engine<S>, d: Disk<S>, h: History, after: nat)
    requires Holds(e, d, h) && SnapshotSeq(d) <= after
    ensures Newer(Scan(e.codec, d.log).records, after) == if after <= |h| then Tail(h, after) else []
  {
    var n, records := SnapshotSeq(d), Scan(e.codec, d.log).records;
    NewerNewer(records, n, after);
    if after <= |h| {
      NewerOfTail(h, n, after);
    } else {
      NewerNewer(Tail(h, n), |h|, after);
      NewerOfTail(h, n, |h|);
    }
  }

  lemma ReplaceIsCrashSafe<S(!new)>(e: Engine<S>, d: Disk<S>, h: History, g: History, older: Images<S>)
    requires Holds(e, d, h) && h <= g && |g| < SEQ_LIMIT
    ensures CrashSafe(e, older + ReplaceImages(d, Snapshot(e.State(g), |g|)), |older|, h, g)
  {
    hide Holds;
    var images := ReplaceImages(d, Snapshot(e.State(g), |g|));
    forall i | |older| <= i < |older + images|
      ensures SomewhereBetween(e, (older + images)[i], h, g)
    {
      ReplaceCrash(e, d, h, g, i - |older|);
    }
  }

  lemma OneMoreLoggable<S(!new)>(e: Engine<S>, h: History, b: Batch)
    requires Faithful(e.codec) && AllLoggable(e, h) && Acceptable(e, |h|, b)
    ensures AllLoggable(e, h + [b]) && |e.codec.encode(Record(|h| + 1, b))| < 0x1_0000_0000
  {
  }

  /** The disk and the fields `add_batch` leaves. */
  lemma AddLeaves<S(!new)>(e: Engine<S>, d: Disk<S>, h: History, b: Batch)
    requires Faithful(e.codec) && Acceptable(e, |h|, b) && SnapshotSeq(d) <= |h|
    ensures var m, r := Running(e, h, SnapshotSeq(d)), Record(|h| + 1, b);
            var after, appended := Applied(e, m, b), d.(log := d.log + Frame(e.codec, r));
            && Last(AppendImages(e, d, r)) == appended
            && if Due(e, after)
               then Last(AddImages(e, d, m, b)) == Disk(Some(CurrentSnapshot(after)), [])
                    && Memory(after.shard, |h| + 1, |h| + 1, 0) == Running(e, h + [b], |h| + 1)
               else Last(AddImages(e, d, m, b)) == appended && after == Running(e, h + [b], SnapshotSeq(d))
  {
    var r := Record(|h| + 1, b);
    var frame := Frame(e.codec, r);
    assert frame[..|frame|] == frame;
    RunningApplied(e, h, SnapshotSeq(d), b);
    assert (h + [b])[|h| + 1..] == [];
  }

  lemma AddIsCrashSafe<S(!new)>(e: Engine<S>, d: Disk<S>, h: History, b: Batch, from: nat, older: Images<S>)
    requires Faithful(e.codec) && Keeps(e, d, h) && Clean(e, d) && Acceptable(e, |h|, b) && from == |older|
    ensures var m := Running(e, h, SnapshotSeq(d));
            CrashSafe(e, older + AddImages(e, d, m, b), from, h, h + [b])
    ensures var last := Last(AddImages(e, d, Running(e, h, SnapshotSeq(d)), b));
            Keeps(e, last, h + [b]) && Clean(e, last)
            && SnapshotSeq(last) == SnapshotSeqAfterAdd(e.snapshotEvery, h, SnapshotSeq(d), b)
  {
    hide *;
    KeptBounds(e, d, h);
    AddCrash(e, d, h, b, 0);
    AddKeeps(e, d, h, b, |AddImages(e, d, Running(e, h, SnapshotSeq(d)), b)| - 1);
    LastIsLast(AddImages(e, d, Running(e, h, SnapshotSeq(d)), b));
    var images := AddImages(e, d, Running(e, h, SnapshotSeq(d)), b);
    forall i | 0 <= i < |images|
      ensures SomewhereBetween(e, images[i], h, h + [b])
    {
      AddImageBetween(e, d, h, b, i);
    }
    BetweenIsSafe(e, older, images, h, h + [b]);
  }

  lemma LastIsLast<T>(s: seq<T>)
    requires s != []
    ensures Last(s) == s[|s| - 1]
  {
  }

  lemma BetweenIsSafe<S(!new)>(e: Engine<S>, older: Images<S>, images: Images<S>, low: History, high: History)
    requires forall i :: 0 <= i < |images| ==> SomewhereBetween(e, images[i], low, high)
    ensures CrashSafe(e, older + images, |older|, low, high)
  {
    hide SomewhereBetween;
  }

  lemma AddImageBetween<S(!new)>(e: Engine<S>, d: Disk<S>, h: History, b: Batch, i: nat)
    requires Faithful(e.codec) && Holds(e, d, h) && Clean(e, d) && Acceptable(e, |h|, b)
    requires i < |AddImages(e, d, Running(e, h, SnapshotSeq(d)), b)|
    ensures SomewhereBetween(e, AddImages(e, d, Running(e, h, SnapshotSeq(d)), b)[i], h, h + [b])
  {
    HeldBounds(e, d, h);
    hide Holds, Clean, Running, AddImages;
    AddCrash(e, d, h, b, i);
    assert h <= h <= h + [b];
    assert h <= h + [b] <= h + [b];
  }
}

/** What a shard keeps on disk, and what a crash can leave of it. */
module Disks {
  import opened Bytes
  import opened Framing
  import opened LogFormat
  import opened Histories

  // A disk is a snapshot file and a log file. Appending can stop after any number of bytes, and
  // so can cutting a file short; a snapshot is written aside and renamed into place, so it is
  // there entirely or not at all.

  datatype Result<+T, +E> = Ok(value: T) | Err(error: E)

  datatype Snapshot<S> = Snapshot(shard: S, lastSeq: nat)

  datatype Disk<S> = Disk(snapshot: Option<Snapshot<S>>, log: seq<u8>)

  /** How a shard is built: its log format, its data structure, and when it snapshots (0: never). */
  datatype Engine<!S> = Engine(codec: Codec<Record>, empty: S, apply: (S, Batch) -> S, snapshotEvery: nat) {
    function State(h: History): S {
      Fold(empty, apply, h)
    }
  }

  /** The fields of an open shard. */
  datatype Memory<S> = Memory(shard: S, lastSeq: nat, snapshotSeq: nat, sinceSnapshot: nat)

  /** "write-ahead log jumps from seq {after} to {found}" */
  datatype LogJump = LogJump(after: nat, found: nat)

  function SnapshotSeq<S>(d: Disk<S>): nat {
    if d.snapshot.None? then 0 else d.snapshot.value.lastSeq
  }

  // ---------------------------------------------------------------- reopening

  function Loaded<S>(e: Engine<S>, d: Disk<S>): Memory<S> {
    var n := SnapshotSeq(d);
    Memory(if d.snapshot.None? then e.empty else d.snapshot.value.shard, n, n, 0)
  }

  function Replay<S>(e: Engine<S>, m: Memory<S>, records: seq<Record>): Result<Memory<S>, LogJump>
    decreases records
  {
    if records == [] then Ok(m)
    else
      var r := records[0];
      if r.seqNo <= m.lastSeq then Replay(e, m, records[1..])
      else if r.seqNo != m.lastSeq + 1 then Err(LogJump(m.lastSeq, r.seqNo))
      else Replay(e, Memory(e.apply(m.shard, r.batch), r.seqNo, m.snapshotSeq,
                            m.sinceSnapshot + |r.batch.ids|), records[1..])
  }

  /** What opening this disk gives. */
  function Reopen<S>(e: Engine<S>, d: Disk<S>): Result<Memory<S>, LogJump> {
    Replay(e, Loaded(e, d), Scan(e.codec, d.log).records)
  }

  /** Every write of `h` could be logged where it stands. */
  ghost predicate AllLoggable<S(!new)>(e: Engine<S>, h: History) {
    |h| < SEQ_LIMIT && forall i :: 0 <= i < |h| ==> e.codec.accepts(Record(i + 1, h[i]))
  }

  // ---------------------------------------------------------------- a disk that holds a history

  /** The disk holds exactly the writes of `h`: some in its snapshot, the others in its log. */
  ghost predicate Holds<S(!new)>(e: Engine<S>, d: Disk<S>, h: History) {
    var n := SnapshotSeq(d);
    && n <= |h| < SEQ_LIMIT
    && (d.snapshot.Some? ==> d.snapshot.value.shard == e.State(h[..n]))
    && Newer(Scan(e.codec, d.log).records, n) == Tail(h, n)
  }

  /** An open shard's log has no torn tail. */
  predicate Clean<S>(e: Engine<S>, d: Disk<S>) {
    Scan(e.codec, d.log).intact == |d.log|
  }

  /** The fields of a shard that accepted `h` and last snapshotted after write number `n`. */
  function Running<S>(e: Engine<S>, h: History, n: nat): (m: Memory<S>)
    requires n <= |h|
    ensures m.lastSeq == |h| && m.snapshotSeq == n
  {
    Memory(e.State(h), |h|, n, Weight(h[n..]))
  }

  lemma {:induction false} ReplaySkipsOld<S>(e: Engine<S>, m: Memory<S>, records: seq<Record>)
    ensures Replay(e, m, records) == Replay(e, m, Newer(records, m.lastSeq))
    decreases |records|
  {
    if records != [] {
      var r, rest := records[0], records[1..];
      var newer := Newer(rest, m.lastSeq);
      NewerHead(records, m.lastSeq);
      hide Newer;
      if r.seqNo <= m.lastSeq {
        ReplaySkipsOld(e, m, rest);
      } else if r.seqNo == m.lastSeq + 1 {
        assert ([r] + newer)[1..] == newer;
        var m' := Memory(e.apply(m.shard, r.batch), r.seqNo, m.snapshotSeq, m.sinceSnapshot + |r.batch.ids|);
        ReplaySkipsOld(e, m', rest);
        ReplaySkipsOld(e, m', newer);
        NewerNewer(rest, m.lastSeq, m'.lastSeq);
      }
    }
  }

  lemma {:induction false} ReplayTail<S>(e: Engine<S>, h: History, n: nat, k: nat)
    requires n <= k <= |h| < SEQ_LIMIT
    ensures Replay(e, Running(e, h[..k], n), Tail(h, k)) == Ok(Running(e, h, n))
    decreases |h| - k
  {
    if k == |h| {
      assert h[..k] == h;
    } else {
      RunningStep(e, h, n, k);
      assert Tail(h, k)[1..] == Tail(h, k + 1);
      ReplayTail(e, h, n, k + 1);
    }
  }

  lemma RunningStep<S>(e: Engine<S>, h: History, n: nat, k: nat)
    requires n <= k < |h| < SEQ_LIMIT
    ensures var m, b := Running(e, h[..k], n), h[k];
            Running(e, h[..k + 1], n) == Memory(e.apply(m.shard, b), k + 1, n, m.sinceSnapshot + |b.ids|)
  {
    assert h[..k + 1] == h[..k] + [h[k]];
    FoldExtends(e.empty, e.apply, h[..k], h[k]);
    WeightExtends(h[..k], n, h[k]);
  }

  /**
    Opening a disk that holds a history gives the fold over that history: the very fields of
    a shard that accepted it and never stopped. "log jumps" is not reported.
    */
  lemma ReopenFolds<S(!new)>(e: Engine<S>, d: Disk<S>, h: History)
    requires Holds(e, d, h)
    ensures Reopen(e, d) == Ok(Running(e, h, SnapshotSeq(d)))
  {
    hide Scan;
    var n, records := SnapshotSeq(d), Scan(e.codec, d.log).records;
    assert Loaded(e, d) == Running(e, h[..n], n) by {
      assert h[..n][n..] == [];
    }
    ReplaySkipsOld(e, Loaded(e, d), records);
    ReplayTail(e, h, n, n);
  }

  lemma HeldBounds<S(!new)>(e: Engine<S>, d: Disk<S>, h: History)
    requires Holds(e, d, h)
    ensures SnapshotSeq(d) <= |h| < SEQ_LIMIT
  {
  }

  /** A disk holds at most one history's worth of state. */
  lemma HeldStateIsUnique<S(!new)>(e: Engine<S>, d: Disk<S>, h: History, g: History)
    requires Holds(e, d, h) && Holds(e, d, g)
    ensures |h| == |g| && e.State(h) == e.State(g)
  {
    ReopenFolds(e, d, h);
    ReopenFolds(e, d, g);
  }

  // ---------------------------------------------------------------- crash images

  type Images<S> = seq<Disk<S>>

  /** Appending a record: any number of its bytes may have reached the file. */
  function AppendImages<S>(e: Engine<S>, d: Disk<S>, r: Record): (images: Images<S>)
    requires |e.codec.encode(r)| < 0x1_0000_0000
    ensures |images| > 0
  {
    var frame := Frame(e.codec, r);
    seq(|frame| + 1, k requires 0 <= k <= |frame| => d.(log := d.log + frame[..k]))
  }

  /** Writing a snapshot aside, then renaming it into place. */
  function SaveImages<S>(d: Disk<S>, s: Snapshot<S>): (images: Images<S>)
    ensures |images| == 2 && images[0] == d && images[1] == d.(snapshot := Some(s))
  {
    [d, d.(snapshot := Some(s))]
  }

  /** Cutting the log down to its first `keep` bytes. */
  function CutImages<S>(d: Disk<S>, keep: nat): (images: Images<S>)
    requires keep <= |d.log|
    ensures |images| == |d.log| - keep + 1 && images[|images| - 1] == d.(log := d.log[..keep])
    ensures forall i :: 0 <= i < |images| ==> images[i] == d.(log := d.log[..|d.log| - i])
  {
    seq(|d.log| - keep + 1, i requires 0 <= i <= |d.log| - keep => d.(log := d.log[..|d.log| - i]))
  }

  function Last<T>(s: seq<T>): T
    requires |s| > 0
  {
    s[|s| - 1]
  }

  /** Replacing the snapshot, then emptying the log: `checkpoint` and `install_snapshot`. */
  function ReplaceImages<S>(d: Disk<S>, s: Snapshot<S>): (images: Images<S>)
    ensures |images| > 0 && Last(images) == Disk(Some(s), [])
  {
    var saved := d.(snapshot := Some(s));
    SaveImages(d, s) + CutImages(saved, 0)
  }

  /** The fields after accepting `b`, before any checkpoint. */
  function Applied<S>(e: Engine<S>, m: Memory<S>, b: Batch): Memory<S> {
    Memory(e.apply(m.shard, b), m.lastSeq + 1, m.snapshotSeq, m.sinceSnapshot + |b.ids|)
  }

  predicate Due<S>(e: Engine<S>, m: Memory<S>) {
    e.snapshotEvery != 0 && m.sinceSnapshot >= e.snapshotEvery
  }

  function CurrentSnapshot<S>(m: Memory<S>): Snapshot<S> {
    Snapshot(m.shard, m.lastSeq)
  }

  predicate Acceptable<S>(e: Engine<S>, lastSeq: nat, b: Batch) {
    lastSeq + 1 < SEQ_LIMIT && e.codec.accepts(Record(lastSeq + 1, b))
  }

  /** `add_batch`: append, and perhaps checkpoint. */
  function AddImages<S(!new)>(e: Engine<S>, d: Disk<S>, m: Memory<S>, b: Batch): (images: Images<S>)
    requires Faithful(e.codec) && Acceptable(e, m.lastSeq, b)
    ensures |images| > 0
  {
    var appended := AppendImages(e, d, Record(m.lastSeq + 1, b));
    var after := Applied(e, m, b);
    if Due(e, after) then appended + ReplaceImages(Last(appended), CurrentSnapshot(after)) else appended
  }

  /** The history's side of `Due`: does a shard holding `h`, last snapshotted after write `n`, snapshot? */
  predicate DueAfter(every: nat, h: History, n: nat)
    requires n <= |h|
  {
    every != 0 && Weight(h[n..]) >= every
  }

  /** The number of the last write in the snapshot, after accepting `b` on top of `h`. */
  function SnapshotSeqAfterAdd(every: nat, h: History, n: nat, b: Batch): (m: nat)
    requires n <= |h|
    ensures n <= m <= |h| + 1
  {
    if DueAfter(every, h + [b], n) then |h| + 1 else n
  }

  lemma RunningApplied<S>(e: Engine<S>, h: History, n: nat, b: Batch)
    requires n <= |h|
    ensures Applied(e, Running(e, h, n), b) == Running(e, h + [b], n)
  {
    FoldExtends(e.empty, e.apply, h, b);
    WeightExtends(h, n, b);
  }

  /** The images of a write on top of `h`, in the history's terms. */
  lemma AddImagesOf<S(!new)>(e: Engine<S>, d: Disk<S>, h: History, n: nat, b: Batch)
    requires Faithful(e.codec) && Acceptable(e, |h|, b) && n <= |h|
    ensures var appended := AppendImages(e, d, Record(|h| + 1, b));
            AddImages(e, d, Running(e, h, n), b)
            == if DueAfter(e.snapshotEvery, h + [b], n)
               then appended + ReplaceImages(Last(appended), Snapshot(e.State(h + [b]), |h| + 1)) else appended
    ensures Due(e, Applied(e, Running(e, h, n), b)) <==> DueAfter(e.snapshotEvery, h + [b], n)
  {
    hide AppendImages, ReplaceImages, Faithful;
    RunningApplied(e, h, n, b);
  }

  lemma AppendedSeq<S>(e: Engine<S>, d: Disk<S>, r: Record)
    requires |e.codec.encode(r)| < 0x1_0000_0000
    ensures SnapshotSeq(Last(AppendImages(e, d, r))) == SnapshotSeq(d)
  {
  }

  // ---------------------------------------------------------------- what each image holds

  lemma AppendCrash<S(!new)>(e: Engine<S>, d: Disk<S>, h: History, b: Batch, i: nat)
    requires Faithful(e.codec) && Holds(e, d, h) && Clean(e, d) && Acceptable(e, |h|, b)
    requires i < |AppendImages(e, d, Record(|h| + 1, b))|
    ensures var images := AppendImages(e, d, Record(|h| + 1, b));
            if i == |images| - 1 then Holds(e, images[i], h + [b]) && Clean(e, images[i])
            else Holds(e, images[i], h)
  {
    hide Scan, ReadHead;
    var r, n := Record(|h| + 1, b), SnapshotSeq(d);
    var frame, records := Frame(e.codec, r), Scan(e.codec, d.log).records;
    assert d.log[..|d.log|] == d.log;
    if i == |frame| {
      assert frame[..i] == frame;
      AppendAfterTruncate(e.codec, d.log, r);
      NewerConcat(records, [r], n);
      TailExtends(h, n, b);
      assert (h + [b])[..n] == h[..n];
    } else {
      HeadRoundTrip(e.codec, r, []);
      assert frame + [] == frame;
      TornHead(e.codec, frame, i);
      NothingToScan(e.codec, frame[..i]);
      ScanConcat(e.codec, d.log, frame[..i]);
      assert records + [] == records;
    }
  }

  lemma NothingToScan<R>(c: Codec<R>, data: seq<u8>)
    requires ReadHead(c, data).None?
    ensures Scan(c, data) == Scanned([], 0)
  {
  }

  /** A log none of whose records is newer than the snapshot can be cut anywhere. */
  lemma CutStaleLog<S(!new)>(e: Engine<S>, d: Disk<S>, h: History, k: nat)
    requires Holds(e, d, h) && SnapshotSeq(d) == |h| && k <= |d.log|
    ensures Holds(e, d.(log := d.log[..k]), h)
  {
    hide Scan;
    var s := Scan(e.codec, d.log);
    if k <= s.intact {
      var j := CutAnywhere(e.codec, d.log, k);
      NoneNewer(s.records, |h|, j);
    } else {
      CutInTornTail(e.codec, d.log, k);
    }
  }

  /**
    A snapshot of `g`, at least as long as the history held, replaces it: every image on the
    way holds the one or the other.
    */
  lemma ReplaceCrash<S(!new)>(e: Engine<S>, d: Disk<S>, h: History, g: History, i: nat)
    requires Holds(e, d, h) && |h| <= |g| < SEQ_LIMIT
    requires i < |ReplaceImages(d, Snapshot(e.State(g), |g|))|
    ensures var images := ReplaceImages(d, Snapshot(e.State(g), |g|));
            if i == 0 then Holds(e, images[i], h) else Holds(e, images[i], g)
    ensures Clean(e, Disk(Some(Snapshot(e.State(g), |g|)), []))
  {
    hide Scan, Holds;
    TooShort(e.codec, []);
    var s := Snapshot(e.State(g), |g|);
    if i >= 1 {
      RenamedHolds(e, d, h, g);
      if i >= 2 {
        CutStaleLog(e, d.(snapshot := Some(s)), g, |d.log| - (i - 2));
      }
    }
  }

  lemma RenamedHolds<S(!new)>(e: Engine<S>, d: Disk<S>, h: History, g: History)
    requires Holds(e, d, h) && |h| <= |g| < SEQ_LIMIT
    ensures Holds(e, d.(snapshot := Some(Snapshot(e.State(g), |g|))), g)
  {
    hide Scan;
    var records := Scan(e.codec, d.log).records;
    assert g[..|g|] == g;
    NewerNewer(records, SnapshotSeq(d), |h|);
    NewerOfTail(h, SnapshotSeq(d), |h|);
    NewerNewer(records, |h|, |g|);
  }

  /** Every image while a write is accepted holds it once or not at all, and all earlier ones once. */
  lemma AddCrash<S(!new)>(e: Engine<S>, d: Disk<S>, h: History, b: Batch, i: nat)
    requires Faithful(e.codec) && Holds(e, d, h) && Clean(e, d) && Acceptable(e, |h|, b)
    requires i < |AddImages(e, d, Running(e, h, SnapshotSeq(d)), b)|
    ensures var image := AddImages(e, d, Running(e, h, SnapshotSeq(d)), b)[i];
            Holds(e, image, h) || Holds(e, image, h + [b])
    ensures var last := Last(AddImages(e, d, Running(e, h, SnapshotSeq(d)), b));
            Holds(e, last, h + [b]) && Clean(e, last)
            && SnapshotSeq(last) == SnapshotSeqAfterAdd(e.snapshotEvery, h, SnapshotSeq(d), b)
  {
    hide Scan, Holds, Clean, AddImages, AppendImages, ReplaceImages, Running, DueAfter, Fold;
    HeldBounds(e, d, h);
    AddImagesOf(e, d, h, SnapshotSeq(d), b);
    var appended := AppendImages(e, d, Record(|h| + 1, b));
    var full := Last(appended);
    AppendedSeq(e, d, Record(|h| + 1, b));
    AppendCrash(e, d, h, b, |appended| - 1);
    if i < |appended| {
      AppendCrash(e, d, h, b, i);
    }
    if DueAfter(e.snapshotEvery, h + [b], SnapshotSeq(d)) {
      var replaced := ReplaceImages(full, Snapshot(e.State(h + [b]), |h| + 1));
      ReplaceCrash(e, full, h + [b], h + [b], |replaced| - 1);
      if i >= |appended| {
        ReplaceCrash(e, full, h + [b], h + [b], i - |appended|);
      }
    }
  }

  /** Cutting off the torn tail when opening, stopped anywhere. */
  lemma OpenCrash<S(!new)>(e: Engine<S>, d: Disk<S>, h: History, k: nat)
    requires Holds(e, d, h) && Scan(e.codec, d.log).intact <= k <= |d.log|
    ensures Holds(e, d.(log := d.log[..k]), h)
    ensures k == Scan(e.codec, d.log).intact ==> Clean(e, d.(log := d.log[..k]))
  {
    hide Scan;
    CutInTornTail(e.codec, d.log, k);
  }

  /** A snapshot file and an empty log hold what the snapshot was taken from. */
  lemma SnapshotHolds<S(!new)>(e: Engine<S>, g: History)
    requires |g| < SEQ_LIMIT
    ensures var d := Disk(Some(Snapshot(e.State(g), |g|)), []);
            Holds(e, d, g) && Clean(e, d) && SnapshotSeq(d) == |g|
  {
    TooShort(e.codec, []);
    assert g[..|g|] == g;
  }

  lemma EmptyDiskHoldsNothing<S(!new)>(e: Engine<S>)
    ensures Holds(e, Disk(None, []), [])
  {
    TooShort(e.codec, []);
  }

  /** Every image from number `from` on holds a history between `low` and `high`. */
  ghost predicate CrashSafe<S(!new)>(e: Engine<S>, images: Images<S>, from: nat, low: History, high: History) {
    forall i :: from <= i < |images| ==> SomewhereBetween(e, images[i], low, high)
  }

  ghost predicate SomewhereBetween<S(!new)>(e: Engine<S>, d: Disk<S>, low: History, high: History) {
    exists h :: low <= h <= high && Holds(e, d, h)
  }

  // ---------------------------------------------------------------- logs that jump

  /** The numbers in the log only go up, as far as n. */
  ghost predicate Rising(records: seq<Record>, n: nat) {
    && (forall i, j :: 0 <= i < j < |records| ==> records[i].seqNo < records[j].seqNo)
    && forall i :: 0 <= i < |records| ==> records[i].seqNo <= n
  }

  /** Some record past number n + 1 is there, and the one before it is not. */
  ghost predicate Jumps(records: seq<Record>, n: nat) {
    exists i :: 0 <= i < |records| && IsJump(records, n, i)
  }

  predicate IsJump(records: seq<Record>, n: nat, i: nat)
    requires i < |records|
  {
    records[i].seqNo > n + 1 && (i > 0 ==> records[i - 1].seqNo < records[i].seqNo - 1)
  }

  /** How the first record bears on whether there is a jump. */
  lemma JumpsStep(records: seq<Record>, n: nat, top: nat)
    requires Rising(records, top) && records != []
    ensures Rising(records[1..], top)
    ensures records[0].seqNo <= n ==> (Jumps(records, n) <==> Jumps(records[1..], n))
    ensures records[0].seqNo == n + 1 ==> (Jumps(records, n) <==> Jumps(records[1..], n + 1))
    ensures records[0].seqNo > n + 1 ==> Jumps(records, n)
  {
    var rest, first := records[1..], records[0].seqNo;
    if first > n + 1 {
      assert IsJump(records, n, 0);
    } else {
      var m := if first == n + 1 then n + 1 else n;
      forall i | 0 <= i < |rest|
        ensures IsJump(rest, m, i) <==> IsJump(records, n, i + 1)
      {
        assert rest[i] == records[i + 1];
      }
      if Jumps(rest, m) {
        var i :| 0 <= i < |rest| && IsJump(rest, m, i);
        assert IsJump(records, n, i + 1);
      }
      if Jumps(records, n) {
        var i :| 0 <= i < |records| && IsJump(records, n, i);
        assert IsJump(rest, m, i - 1);
      }
    }
  }

  /** The error is reported exactly for a log that jumps past the snapshot. */
  lemma {:induction false} ReplayErrsIff<S>(e: Engine<S>, m: Memory<S>, records: seq<Record>, top: nat)
    requires Rising(records, top)
    ensures Replay(e, m, records).Err? <==> Jumps(records, m.lastSeq)
    decreases |records|
  {
    if records != [] {
      JumpsStep(records, m.lastSeq, top);
      var r := records[0];
      hide Rising, Jumps;
      if r.seqNo <= m.lastSeq {
        ReplayErrsIff(e, m, records[1..], top);
      } else if r.seqNo == m.lastSeq + 1 {
        ReplayErrsIff(e, Memory(e.apply(m.shard, r.batch), r.seqNo, m.snapshotSeq, m.sinceSnapshot + |r.batch.ids|),
                      records[1..], top);
      }
    } else {
      assert !Jumps(records, m.lastSeq);
    }
  }

  function Batches(records: seq<Record>): (h: History)
    ensures |h| == |records| && forall i :: 0 <= i < |h| ==> h[i] == records[i].batch
  {
    seq(|records|, i requires 0 <= i < |records| => records[i].batch)
  }

  /** These records are numbered n + 1, n + 2 and so on. */
  ghost predicate FollowOn(records: seq<Record>, n: nat) {
    forall i :: 0 <= i < |records| ==> records[i].seqNo == n + 1 + i
  }

  lemma FollowOnMore(first: Record, rest: seq<Record>, n: nat)
    requires first.seqNo == n + 1 && FollowOn(rest, n + 1)
    ensures FollowOn([first] + rest, n)
  {
  }

  lemma NewerHead(records: seq<Record>, n: nat)
    requires records != []
    ensures Newer(records, n)
            == if records[0].seqNo > n then [records[0]] + Newer(records[1..], n) else Newer(records[1..], n)
  {
    assert [] + Newer(records[1..], n) == Newer(records[1..], n);
  }

  lemma NothingFollowsOn(n: nat)
    ensures Newer([], n) == [] && FollowOn([], n) && Rising([], n)
  {
  }

  /** Without a jump, the newer records follow on from number n, one by one. */
  lemma {:induction false} NewerFollowOn(records: seq<Record>, n: nat, top: nat)
    requires Rising(records, top) && !Jumps(records, n)
    ensures var newer := Newer(records, n);
            && FollowOn(newer, n)
            && (newer != [] ==> n + |newer| <= top)
            && Rising(records, n + |newer|)
    decreases |records|
  {
    hide Rising, Jumps, FollowOn, Newer;
    if records == [] {
      NothingFollowsOn(n);
    } else {
      JumpsStep(records, n, top);
      FirstIsLeast(records, top);
      NewerHead(records, n);
      var first, rest := records[0], records[1..];
      if first.seqNo <= n {
        NewerFollowOn(rest, n, top);
        RisingFromFirst(records, n + |Newer(rest, n)|, top);
      } else {
        SameNewer(rest, n + 1);
        NewerFollowOn(rest, n + 1, top);
        FollowOnMore(first, Newer(rest, n + 1), n);
        RisingFromFirst(records, n + 1 + |Newer(rest, n + 1)|, top);
      }
    }
  }

  lemma FirstIsLeast(records: seq<Record>, top: nat)
    requires records != [] && Rising(records, top)
    ensures records[0].seqNo <= top && forall i :: 0 <= i < |records[1..]| ==> records[1..][i].seqNo > records[0].seqNo
  {
  }

  lemma RisingFromFirst(records: seq<Record>, n: nat, top: nat)
    requires records != [] && Rising(records, top) && Rising(records[1..], n) && records[0].seqNo <= n
    ensures Rising(records, n)
  {
    forall i | 0 <= i < |records|
      ensures records[i].seqNo <= n
    {
      assert i > 0 ==> records[i] == records[1..][i - 1];
    }
  }

  /** None of these records is numbered n. */
  lemma {:induction false} SameNewer(records: seq<Record>, n: nat)
    requires forall i :: 0 <= i < |records| ==> records[i].seqNo > n
    ensures n > 0 ==> Newer(records, n - 1) == Newer(records, n)
  {
    if records != [] {
      SameNewer(records[1..], n);
    }
  }

  // ---------------------------------------------------------------- any snapshot, over any log

  /** The disk holds this history, and the numbers in its log only go up. */
  ghost predicate Keeps<S(!new)>(e: Engine<S>, d: Disk<S>, h: History) {
    Holds(e, d, h) && Rising(Scan(e.codec, d.log).records, |h|)
  }

  /** A snapshot of `g` over a log with these records: the writes of `g`, and those of the newer records. */
  function Overlaid(g: History, records: seq<Record>): History {
    g + Batches(Newer(records, |g|))
  }

  lemma KeptBounds<S(!new)>(e: Engine<S>, d: Disk<S>, h: History)
    requires Keeps(e, d, h)
    ensures Holds(e, d, h) && SnapshotSeq(d) <= |h| < SEQ_LIMIT
  {
  }

  /** Whatever the log was before, a disk with this snapshot opens exactly if its log does not jump past it. */
  lemma SnapshotOverLog<S(!new)>(e: Engine<S>, d: Disk<S>, g: History, top: nat)
    requires d.snapshot == Some(Snapshot(e.State(g), |g|)) && |g| < SEQ_LIMIT
    requires Rising(Scan(e.codec, d.log).records, top) && top < SEQ_LIMIT
    ensures var records := Scan(e.codec, d.log).records;
            && (Reopen(e, d).Err? <==> Jumps(records, |g|))
            && (!Jumps(records, |g|) ==> Keeps(e, d, Overlaid(g, records)))
            && (top <= |g| ==> !Jumps(records, |g|) && Overlaid(g, records) == g)
  {
    hide Scan;
    var records := Scan(e.codec, d.log).records;
    ReplayErrsIff(e, Loaded(e, d), records, top);
    if top <= |g| {
      forall i | 0 <= i < |records|
        ensures !IsJump(records, |g|, i)
      {
      }
    }
    hide Rising, Jumps;
    if !Jumps(records, |g|) {
      NewerFollowOn(records, |g|, top);
      OverlaidTail(g, records);
      if Newer(records, |g|) == [] {
        assert g + [] == g;
      }
    }
  }

  lemma OverlaidTail(g: History, records: seq<Record>)
    requires FollowOn(Newer(records, |g|), |g|) && |g| + |Newer(records, |g|)| < SEQ_LIMIT
    ensures var h := Overlaid(g, records);
            |h| == |g| + |Newer(records, |g|)| && h[..|g|] == g && Newer(records, |g|) == Tail(h, |g|)
  {
  }

  lemma CutLeavesPrefix<S(!new)>(e: Engine<S>, log: seq<u8>, k: nat, top: nat)
    requires k <= |log| && Rising(Scan(e.codec, log).records, top)
    ensures Scan(e.codec, log[..k]).records <= Scan(e.codec, log).records
    ensures Rising(Scan(e.codec, log[..k]).records, top)
  {
    hide Scan;
    if k <= Scan(e.codec, log).intact {
      var j := CutAnywhere(e.codec, log, k);
    } else {
      CutInTornTail(e.codec, log, k);
    }
  }

  /** The images after the rename: the new snapshot, over the log cut somewhere. */
  lemma ReplacedImage<S>(d: Disk<S>, s: Snapshot<S>, i: nat) returns (k: nat)
    requires 0 < i < |ReplaceImages(d, s)|
    ensures k <= |d.log| && ReplaceImages(d, s)[i] == Disk(Some(s), d.log[..k])
    ensures i == 1 ==> k == |d.log|
  {
    assert d.log[..|d.log|] == d.log;
    k := if i == 1 then |d.log| else |d.log| - (i - 2);
  }

  /**
    Any snapshot replaces what is here, and stops anywhere after the rename. The disk can be
    opened exactly if what is left of the log does not jump past the snapshot, and then holds
    the snapshot's writes and those of the newer records left.
    */
  lemma ReplacedHolds<S(!new)>(e: Engine<S>, d: Disk<S>, h: History, g: History, i: nat)
    requires Keeps(e, d, h) && |g| < SEQ_LIMIT
    requires 0 < i < |ReplaceImages(d, Snapshot(e.State(g), |g|))|
    ensures var image := ReplaceImages(d, Snapshot(e.State(g), |g|))[i];
            var left := Scan(e.codec, image.log).records;
            && SnapshotSeq(image) == |g| && left <= Scan(e.codec, d.log).records
            && (Reopen(e, image).Err? <==> Jumps(left, |g|))
            && (!Jumps(left, |g|) ==> Keeps(e, image, Overlaid(g, left)))
            && (|h| <= |g| ==> !Jumps(left, |g|) && Overlaid(g, left) == g)
            && (i == 1 ==> left == Scan(e.codec, d.log).records)
            && (i == |ReplaceImages(d, Snapshot(e.State(g), |g|))| - 1 ==> image.log == [] && left == [])
  {
    HeldBounds(e, d, h);
    hide Scan, Holds, Jumps, Rising;
    var s := Snapshot(e.State(g), |g|);
    var k := ReplacedImage(d, s, i);
    assert d.log[..|d.log|] == d.log;
    CutLeavesPrefix(e, d.log, k, |h|);
    SnapshotOverLog(e, Disk(Some(s), d.log[..k]), g, |h|);
    TooShort(e.codec, []);
  }

  // ---------------------------------------------------------------- whole lives of one shard

  datatype Op = Open | Add(batch: Batch) | Checkpoint | Install(source: History)

  /** An operation, run to its end or stopped by a crash at one of its images. */
  datatype Event = Event(op: Op, crash: Option<nat>)

  /** What `op` turns the history into. An install brings the history its snapshot was taken from, whatever is here. */
  function Outcome(op: Op, h: History): History {
    match op
    case Open => h
    case Add(b) => h + [b]
    case Checkpoint => h
    case Install(g) => g
  }

  /** A batch the log cannot hold is refused; numbers have 64 bits. */
  predicate Enabled<S>(e: Engine<S>, op: Op, lastSeq: nat) {
    match op
    case Add(b) => Acceptable(e, lastSeq, b)
    case Install(g) => |g| < SEQ_LIMIT
    case _ => true
  }

  ghost function OpImages<S(!new)>(e: Engine<S>, d: Disk<S>, m: Memory<S>, op: Op): (images: Images<S>)
    requires Faithful(e.codec) && Enabled(e, op, m.lastSeq)
    ensures |images| > 0
  {
    match op
    case Open => [d]
    case Add(b) => AddImages(e, d, m, b)
    case Checkpoint => ReplaceImages(d, CurrentSnapshot(m))
    case Install(g) => ReplaceImages(d, Snapshot(e.State(g), |g|))
  }

  function Opened<S>(e: Engine<S>, d: Disk<S>): Disk<S> {
    d.(log := d.log[..Scan(e.codec, d.log).intact])
  }

  /** Which image a crash leaves; the last one, if it comes too late. */
  function Stopped<S>(images: Images<S>, crash: Option<nat>): (i: nat)
    requires |images| > 0
    ensures i < |images| && (crash.None? ==> i == |images| - 1)
  {
    if crash.Some? && crash.value < |images| then crash.value else |images| - 1
  }

  /** Opening cuts off the torn tail. */
  function OpenImages<S>(e: Engine<S>, d: Disk<S>): (images: Images<S>)
    ensures |images| > 0 && Last(images) == Opened(e, d)
  {
    CutImages(d, Scan(e.codec, d.log).intact)
  }

  /** The disk after one event; opening may itself fail, or be stopped while it cuts off the torn tail. */
  ghost function Live<S(!new)>(e: Engine<S>, d: Disk<S>, event: Event): Result<Disk<S>, LogJump>
    requires Faithful(e.codec)
  {
    match Reopen(e, d)
    case Err(jump) => Err(jump)
    case Ok(m) =>
      if event.op.Open? then Ok(OpenImages(e, d)[Stopped(OpenImages(e, d), event.crash)])
      else if !Enabled(e, event.op, m.lastSeq) then Ok(Opened(e, d))
      else
        var images := OpImages(e, Opened(e, d), m, event.op);
        Ok(images[Stopped(images, event.crash)])
  }

  ghost function Life<S(!new)>(e: Engine<S>, d: Disk<S>, events: seq<Event>): Result<Disk<S>, LogJump>
    requires Faithful(e.codec)
    decreases |events|
  {
    if events == [] then Ok(d)
    else
      match Live(e, d, events[0])
      case Err(jump) => Err(jump)
      case Ok(next) => Life(e, next, events[1..])
  }

  /**
    What one event may turn a history into: run to its end, its outcome; stopped, also nothing;
    and an install of fewer writes, stopped, some of the writes that were here on top of them.
    */
  predicate MayBecome(event: Event, before: History, after: History) {
    || after == Outcome(event.op, before)
    || (event.crash.Some? &&
         (after == before
          || (event.op.Install? && |event.op.source| < |before|
              && event.op.source <= after && |after| <= |before|)))
  }

  /** `after` comes from `before` by the events, those that cannot be carried out changing nothing. */
  ghost predicate Explains<S>(e: Engine<S>, events: seq<Event>, before: History, after: History)
    decreases |events|
  {
    if events == [] then before == after
    else if !Enabled(e, events[0].op, |before|) then Explains(e, events[1..], before, after)
    else exists mid :: MayBecome(events[0], before, mid) && Explains(e, events[1..], mid, after)
  }

  /**
    An install stopped after its rename, leaving a log that jumps past the new snapshot.
    */
  ghost predicate Wedges<S(!new)>(e: Engine<S>, d: Disk<S>, event: Event)
    requires Faithful(e.codec)
  {
    && event.op.Install? && |event.op.source| < SEQ_LIMIT && event.crash.Some? && event.crash.value > 0
    && Reopen(e, d).Ok? && Live(e, d, event).Ok?
    && Jumps(Scan(e.codec, Live(e, d, event).value.log).records, |event.op.source|)
  }

  lemma OpenKeeps<S(!new)>(e: Engine<S>, d: Disk<S>, h: History)
    requires Keeps(e, d, h)
    ensures Keeps(e, Opened(e, d), h) && Clean(e, Opened(e, d))
    ensures Reopen(e, d) == Ok(Running(e, h, SnapshotSeq(d))) && SnapshotSeq(Opened(e, d)) == SnapshotSeq(d) <= |h|
    ensures Scan(e.codec, Opened(e, d).log).records == Scan(e.codec, d.log).records
  {
    ReopenFolds(e, d, h);
    HeldBounds(e, d, h);
    OpenCrash(e, d, h, Scan(e.codec, d.log).intact);
    hide Scan;
    CutInTornTail(e.codec, d.log, Scan(e.codec, d.log).intact);
  }

  // ---------------------------------------------------------------- events keep what they should

  lemma AppendKeeps<S(!new)>(e: Engine<S>, d: Disk<S>, h: History, b: Batch, i: nat)
    requires Faithful(e.codec) && Keeps(e, d, h) && Clean(e, d) && Acceptable(e, |h|, b)
    requires i < |AppendImages(e, d, Record(|h| + 1, b))|
    ensures var images := AppendImages(e, d, Record(|h| + 1, b));
            && SnapshotSeq(images[i]) == SnapshotSeq(d)
            && Keeps(e, images[i], if i == |images| - 1 then h + [b] else h)
            && Scan(e.codec, images[i].log).records ==
                 Scan(e.codec, d.log).records + if i == |images| - 1 then [Record(|h| + 1, b)] else []
  {
    hide Scan, ReadHead, Holds;
    AppendCrash(e, d, h, b, i);
    var r := Record(|h| + 1, b);
    var frame, records := Frame(e.codec, r), Scan(e.codec, d.log).records;
    assert d.log[..|d.log|] == d.log;
    if i == |frame| {
      assert frame[..i] == frame;
      AppendAfterTruncate(e.codec, d.log, r);
    } else {
      HeadRoundTrip(e.codec, r, []);
      assert frame + [] == frame;
      TornHead(e.codec, frame, i);
      NothingToScan(e.codec, frame[..i]);
      ScanConcat(e.codec, d.log, frame[..i]);
      assert records + [] == records;
    }
  }

  /** Every image while a write is accepted keeps the history with it, or without it. */
  lemma AddKeeps<S(!new)>(e: Engine<S>, d: Disk<S>, h: History, b: Batch, i: nat)
    requires Faithful(e.codec) && Keeps(e, d, h) && Clean(e, d) && Acceptable(e, |h|, b)
    requires i < |AddImages(e, d, Running(e, h, SnapshotSeq(d)), b)|
    ensures var images := AddImages(e, d, Running(e, h, SnapshotSeq(d)), b);
            && (Keeps(e, images[i], h) || Keeps(e, images[i], h + [b]))
            && (i == |images| - 1 ==> Keeps(e, images[i], h + [b]))
  {
    hide Keeps, Clean, Scan, AddImages, AppendImages, ReplaceImages, Running, DueAfter, Fold;
    KeptBounds(e, d, h);
    AddImagesOf(e, d, h, SnapshotSeq(d), b);
    var appended := AppendImages(e, d, Record(|h| + 1, b));
    var full, s := Last(appended), Snapshot(e.State(h + [b]), |h| + 1);
    AppendKeeps(e, d, h, b, |appended| - 1);
    if i < |appended| {
      AppendKeeps(e, d, h, b, i);
    } else if i == |appended| {
      FirstReplaced(full, s);
    } else {
      ReplacedHolds(e, full, h + [b], h + [b], i - |appended|);
    }
  }

  lemma FirstReplaced<S>(d: Disk<S>, s: Snapshot<S>)
    ensures |ReplaceImages(d, s)| > 1 && ReplaceImages(d, s)[0] == d
  {
  }

  /** A checkpoint, or an install, stopped at image i, when it leaves no jump. */
  lemma ReplaceKeeps<S(!new)>(e: Engine<S>, d: Disk<S>, h: History, g: History, i: nat) returns (mid: History)
    requires Keeps(e, d, h) && |g| < SEQ_LIMIT
    requires var images := ReplaceImages(d, Snapshot(e.State(g), |g|));
             i < |images| && (i > 0 ==> !Jumps(Scan(e.codec, images[i].log).records, |g|))
    ensures var images := ReplaceImages(d, Snapshot(e.State(g), |g|));
            && Keeps(e, images[i], mid)
            && (i == |images| - 1 ==> mid == g)
            && (mid == g || mid == h || (|g| < |h| && g <= mid && |mid| <= |h|))
  {
    hide Keeps, Jumps;
    var images := ReplaceImages(d, Snapshot(e.State(g), |g|));
    if i == 0 {
      return h;
    }
    ReplacedHolds(e, d, h, g, i);
    var left := Scan(e.codec, images[i].log).records;
    mid := Overlaid(g, left);
    if i == |images| - 1 {
      assert g + [] == g;
    }
    OverlaidBounds(e, d, h, g, left);
  }

  lemma OverlaidBounds<S(!new)>(e: Engine<S>, d: Disk<S>, h: History, g: History, left: seq<Record>)
    requires Keeps(e, d, h) && left <= Scan(e.codec, d.log).records && !Jumps(left, |g|)
    ensures Overlaid(g, left) == g || (|g| < |h| && g <= Overlaid(g, left) && |Overlaid(g, left)| <= |h|)
  {
    hide Scan, Holds, Jumps;
    assert Rising(left, |h|);
    NewerFollowOn(left, |g|, |h|);
    if Newer(left, |g|) == [] {
      assert g + [] == g;
    }
  }

  /** An event on a disk that keeps a history: it wedges the disk, or the disk keeps what the event may make of it. */
  lemma EventHolds<S(!new)>(e: Engine<S>, d: Disk<S>, h: History, event: Event) returns (g: History)
    requires Faithful(e.codec) && Keeps(e, d, h)
    ensures Reopen(e, d).Ok? && Live(e, d, event).Ok?
    ensures Wedges(e, d, event) <==> Reopen(e, Live(e, d, event).value).Err?
    ensures !Wedges(e, d, event) ==>
              && Keeps(e, Live(e, d, event).value, g)
              && if Enabled(e, event.op, |h|) then MayBecome(event, h, g) else g == h
  {
    OpenKeeps(e, d, h);
    var clean, m := Opened(e, d), Running(e, h, SnapshotSeq(d));
    g := h;
    if event.op.Open? {
      OpeningKeeps(e, d, h, Stopped(OpenImages(e, d), event.crash));
      return;
    }
    hide Scan, Keeps, Jumps, Reopen, Clean, OpImages;
    if !Enabled(e, event.op, |h|) {
      KeepsOpens(e, clean, h);
      return;
    }
    var images := OpImages(e, clean, m, event.op);
    var i := Stopped(images, event.crash);
    match event.op {
      case Open =>
      case Add(b) => g := AddHolds(e, clean, h, b, event.crash);
      case Checkpoint => g := ReplaceOutcome(e, clean, h, event);
      case Install(source) => g := ReplaceOutcome(e, clean, h, event);
    }
  }

  lemma OpeningKeeps<S(!new)>(e: Engine<S>, d: Disk<S>, h: History, i: nat)
    requires Keeps(e, d, h) && i < |OpenImages(e, d)|
    ensures Keeps(e, OpenImages(e, d)[i], h) && Reopen(e, OpenImages(e, d)[i]).Ok?
  {
    hide Scan, Reopen;
    OpenCrash(e, d, h, |d.log| - i);
    CutInTornTail(e.codec, d.log, |d.log| - i);
    KeepsOpens(e, OpenImages(e, d)[i], h);
  }

  lemma KeepsOpens<S(!new)>(e: Engine<S>, d: Disk<S>, h: History)
    requires Keeps(e, d, h)
    ensures Reopen(e, d) == Ok(Running(e, h, SnapshotSeq(d)))
  {
    OpenKeeps(e, d, h);
  }

  lemma AddHolds<S(!new)>(e: Engine<S>, clean: Disk<S>, h: History, b: Batch, crash: Option<nat>) returns (g: History)
    requires Faithful(e.codec) && Keeps(e, clean, h) && Clean(e, clean) && Acceptable(e, |h|, b)
             && SnapshotSeq(clean) <= |h|
    ensures var images := OpImages(e, clean, Running(e, h, SnapshotSeq(clean)), Op.Add(b));
            var image := images[Stopped(images, crash)];
            Keeps(e, image, g) && Reopen(e, image).Ok? && MayBecome(Event(Add(b), crash), h, g)
  {
    var images := AddImages(e, clean, Running(e, h, SnapshotSeq(clean)), b);
    var i := Stopped(images, crash);
    AddKeeps(e, clean, h, b, i);
    hide Keeps, Reopen;
    g := if Keeps(e, images[i], h + [b]) then h + [b] else h;
    KeepsOpens(e, images[i], g);
  }

  lemma ReplaceOutcome<S(!new)>(e: Engine<S>, clean: Disk<S>, h: History, event: Event) returns (g: History)
    requires Faithful(e.codec) && Keeps(e, clean, h) && SnapshotSeq(clean) <= |h| < SEQ_LIMIT
    requires (event.op.Checkpoint? || event.op.Install?) && Enabled(e, event.op, |h|)
    ensures var images := OpImages(e, clean, Running(e, h, SnapshotSeq(clean)), event.op);
            var i := Stopped(images, event.crash);
            var wedged := event.op.Install? && event.crash.Some? && event.crash.value > 0
                          && Jumps(Scan(e.codec, images[i].log).records, |event.op.source|);
            && (wedged <==> Reopen(e, images[i]).Err?)
            && (!wedged ==> Keeps(e, images[i], g) && MayBecome(event, h, g))
  {
    var source := Outcome(event.op, h);
    var images := ReplaceImages(clean, Snapshot(e.State(source), |source|));
    assert images == OpImages(e, clean, Running(e, h, SnapshotSeq(clean)), event.op);
    var i := Stopped(images, event.crash);
    hide Keeps, Reopen, Scan;
    if i > 0 {
      ReplacedHolds(e, clean, h, source, i);
      if i == |images| - 1 {
        assert !Jumps([], |source|);
      }
    }
    if i == 0 || !Jumps(Scan(e.codec, images[i].log).records, |source|) {
      hide Jumps;
      g := ReplaceKeeps(e, clean, h, source, i);
      KeepsOpens(e, images[i], g);
    } else {
      g := h;
    }
  }

  // ---------------------------------------------------------------- whole lives

  /** One of these events wedges the disk the ones before it leave. */
  ghost predicate GetsWedged<S(!new)>(e: Engine<S>, d: Disk<S>, events: seq<Event>)
    requires Faithful(e.codec)
    decreases |events|
  {
    && events != []
    && (Wedges(e, d, events[0])
        || (Live(e, d, events[0]).Ok? && GetsWedged(e, Live(e, d, events[0]).value, events[1..])))
  }

  lemma Stays<S(!new)>(e: Engine<S>, d: Disk<S>, events: seq<Event>)
    requires Faithful(e.codec) && Reopen(e, d).Err?
    ensures events != [] ==> Life(e, d, events).Err?
  {
  }

  /**
    The whole life of a shard on its disk: any writes, checkpoints and installs of any
    snapshots, with a crash between any two disk steps of any of them. In the end the disk can
    be opened if and only if no install on the way was stopped with a log that jumps past its
    snapshot. And then what it gives is the fold of a history holding every completed write
    exactly once, each interrupted one at most once.
    */
  lemma {:induction false} LifeRecovers<S(!new)>(e: Engine<S>, d: Disk<S>, h: History, events: seq<Event>)
      returns (g: History)
    requires Faithful(e.codec) && Keeps(e, d, h)
    ensures GetsWedged(e, d, events) <==> Life(e, d, events).Err? || Reopen(e, Life(e, d, events).value).Err?
    ensures !GetsWedged(e, d, events) ==>
              && Explains(e, events, h, g)
              && Keeps(e, Life(e, d, events).value, g)
              && Reopen(e, Life(e, d, events).value) == Ok(Running(e, g, SnapshotSeq(Life(e, d, events).value)))
    decreases |events|
  {
    hide Keeps, Wedges, Live, Reopen;
    if events == [] {
      g := h;
      KeepsOpens(e, d, h);
    } else {
      var mid := EventHolds(e, d, h, events[0]);
      var next := Live(e, d, events[0]).value;
      if Wedges(e, d, events[0]) {
        Stays(e, next, events[1..]);
        g := h;
      } else {
        g := LifeRecovers(e, next, mid, events[1..]);
      }
    }
  }

  // ---------------------------------------------------------------- a snapshot that is too old

  /**
    `install_snapshot` relies on the log records left over being older than the snapshot. A
    crash between its rename and the end of the emptying of the log can make the disk
    impossible to open if and only if the log, as it is before the call, jumps past the
    snapshot: it has a record after the snapshot's next one, and not the one before that.
    */
  lemma InstallMayWedgeIff<S(!new)>(e: Engine<S>, d: Disk<S>, h: History, g: History)
    requires Faithful(e.codec) && Keeps(e, d, h) && |g| < SEQ_LIMIT
    ensures (exists crash :: Wedges(e, d, Event(Install(g), crash))) <==> Jumps(Scan(e.codec, d.log).records, |g|)
    ensures |h| <= |g| ==> !Jumps(Scan(e.codec, d.log).records, |g|)
  {
    hide *;
    KeepsNoJump(e, d, h, g);
    if Jumps(Scan(e.codec, d.log).records, |g|) {
      JumpWedges(e, d, h, g);
      assert Wedges(e, d, Event(Install(g), Some(1)));
    }
    forall crash | Wedges(e, d, Event(Install(g), crash))
      ensures Jumps(Scan(e.codec, d.log).records, |g|)
    {
      WedgedByJump(e, d, h, g, crash);
    }
  }

  lemma KeepsNoJump<S(!new)>(e: Engine<S>, d: Disk<S>, h: History, g: History)
    requires Faithful(e.codec) && Keeps(e, d, h) && |g| < SEQ_LIMIT
    ensures |h| <= |g| ==> !Jumps(Scan(e.codec, d.log).records, |g|)
  {
    OpenKeeps(e, d, h);
    hide Scan, Keeps, Reopen;
    ReplacedHolds(e, Opened(e, d), h, g, 1);
  }

  lemma InstallLeaves<S(!new)>(e: Engine<S>, d: Disk<S>, h: History, g: History, crash: Option<nat>)
    requires Faithful(e.codec) && Keeps(e, d, h) && |g| < SEQ_LIMIT
    ensures var images := ReplaceImages(Opened(e, d), Snapshot(e.State(g), |g|));
            Reopen(e, d).Ok? && Live(e, d, Event(Install(g), crash)) == Ok(images[Stopped(images, crash)])
            && |images| > 1
    ensures Keeps(e, Opened(e, d), h) && Scan(e.codec, Opened(e, d).log).records == Scan(e.codec, d.log).records
  {
    OpenKeeps(e, d, h);
    hide Scan, Keeps, Reopen;
  }

  lemma JumpWedges<S(!new)>(e: Engine<S>, d: Disk<S>, h: History, g: History)
    requires Faithful(e.codec) && Keeps(e, d, h) && |g| < SEQ_LIMIT && Jumps(Scan(e.codec, d.log).records, |g|)
    ensures Wedges(e, d, Event(Install(g), Some(1)))
  {
    hide Live, Scan, Keeps, Reopen, Jumps, Opened;
    InstallLeaves(e, d, h, g, Some(1));
    ReplacedHolds(e, Opened(e, d), h, g, 1);
  }

  lemma WedgedByJump<S(!new)>(e: Engine<S>, d: Disk<S>, h: History, g: History, crash: Option<nat>)
    requires Faithful(e.codec) && Keeps(e, d, h) && |g| < SEQ_LIMIT && Wedges(e, d, Event(Install(g), crash))
    ensures Jumps(Scan(e.codec, d.log).records, |g|)
  {
    hide Live, Scan, Keeps, Reopen, Jumps, Opened, ReplaceImages;
    InstallLeaves(e, d, h, g, crash);
    var images := ReplaceImages(Opened(e, d), Snapshot(e.State(g), |g|));
    var i := Stopped(images, crash);
    ReplacedHolds(e, Opened(e, d), h, g, i);
    PrefixJumps(Scan(e.codec, images[i].log).records, Scan(e.codec, d.log).records, |g|);
  }

  lemma PrefixJumps(left: seq<Record>, records: seq<Record>, n: nat)
    requires left <= records && Jumps(left, n)
    ensures Jumps(records, n)
  {
    var i :| 0 <= i < |left| && IsJump(left, n, i);
    assert IsJump(records, n, i);
  }

  /**
    When nothing is missing inside the log, and it holds the writes after number m: it jumps
    past a snapshot exactly if the snapshot ends before m, and the log is not empty.
    */
  lemma JumpsPastTail(h: History, m: nat, n: nat)
    requires m <= |h| < SEQ_LIMIT
    ensures Jumps(Tail(h, m), n) <==> n < m < |h|
  {
    var records := Tail(h, m);
    if n < m < |h| {
      assert IsJump(records, n, 0);
    }
  }
}

/** `catch_up`: bringing a durable shard up to date with the replica at another address. */
module CatchUps {
  import opened Bytes
  import opened Framing
  import opened LogFormat
  import opened Histories
  import opened Disks
  import opened DurableShards

  /** What the peer may do on its own between two calls made to it. */
  datatype PeerOp = PeerAdd(batch: Batch) | PeerCheckpoint

  /**
    Everything outside the two shards. Before call number k the peer does `meanwhile(k)`; the
    reply to call k breaks off after `breaks(k)` messages, or arrives whole. Calls 2i and 2i+1
    are the FetchLog and the FetchSnapshot of attempt i.
    */
  datatype World = World(meanwhile: nat -> seq<PeerOp>, breaks: nat -> Option<nat>)

  ghost predicate Reliable(world: World) {
    forall k: nat :: world.breaks(k).None?
  }

  /** The peer takes no writes, though it may take snapshots. */
  ghost predicate Undisturbed(world: World) {
    forall k: nat :: NoAdds(world.meanwhile(k))
  }

  ghost predicate Quiet(world: World) {
    forall k: nat :: world.meanwhile(k) == []
  }

  predicate NoAdds(ops: seq<PeerOp>) {
    forall i :: 0 <= i < |ops| ==> ops[i].PeerCheckpoint?
  }

  datatype Method = ByLog | BySnapshot

  /** Broken: the call failed and its error was passed on. GaveUp: "could not catch up". */
  datatype Outcome = CaughtUp(how: Method, applied: nat) | Broken | GaveUp

  method Perform<S(!new)>(peer: DurableShard<S>, ops: seq<PeerOp>)
    requires peer.Valid()
    modifies peer
    ensures peer.Valid() && old(peer.history) <= peer.history && old(peer.snapshotSeq) <= peer.snapshotSeq
    ensures ops == [] ==> peer.history == old(peer.history) && peer.snapshotSeq == old(peer.snapshotSeq)
    ensures NoAdds(ops) ==> peer.history == old(peer.history)
  {
    for i := 0 to |ops|
      invariant peer.Valid() && old(peer.history) <= peer.history && old(peer.snapshotSeq) <= peer.snapshotSeq
      invariant i == 0 ==> peer.history == old(peer.history) && peer.snapshotSeq == old(peer.snapshotSeq)
      invariant NoAdds(ops) ==> peer.history == old(peer.history)
    {
      HeldBounds(peer.engine, peer.disk, peer.history);
      match ops[i] {
        case PeerAdd(batch) => var _ := peer.AddBatch(batch, None);
        case PeerCheckpoint => peer.Checkpoint();
      }
    }
  }

  lemma StillCrashSafe<S(!new)>(e: Engine<S>, images: Images<S>, all: Images<S>, from: nat,
                                low: History, mid: History, high: History)
    requires from <= |images| && images <= all && low <= mid <= high
    requires CrashSafe(e, images, from, low, mid)
    requires CrashSafe(e, all, |images|, mid, high)
    ensures CrashSafe(e, all, from, low, high)
  {
    hide Holds;
    forall i | from <= i < |all|
      ensures SomewhereBetween(e, all[i], low, high)
    {
      if i < |images| {
        assert SomewhereBetween(e, images[i], low, mid);
      } else {
        assert SomewhereBetween(e, all[i], mid, high);
      }
    }
  }

  lemma NoImagesYet<S(!new)>(e: Engine<S>, images: Images<S>, h: History)
    ensures CrashSafe(e, images, |images|, h, h)
  {
  }

  /** The two shards run the same data structure over the same log format. */
  ghost predicate SameKind<S(!new)>(a: Engine<S>, b: Engine<S>) {
    a.codec == b.codec && a.empty == b.empty && a.apply == b.apply
  }

  /** What the peer accepted, the follower can accept too, and it folds to the same state. */
  lemma PeerPrefix<S(!new)>(peer: Engine<S>, follower: Engine<S>, h: History, g: History)
    requires SameKind(follower, peer) && AllLoggable(peer, h) && g <= h
    ensures AllLoggable(follower, g) && peer.State(g) == follower.State(g)
  {
  }

  lemma NextIsAcceptable<S(!new)>(e: Engine<S>, target: History, n: nat)
    requires AllLoggable(e, target) && n < |target|
    ensures Acceptable(e, n, target[n])
    ensures target[..n] + [target[n]] == target[..n + 1]
  {
  }

  /** The inner loop: apply the records of one FetchLog reply, up to where the stream breaks. */
  method ApplyRecords<S(!new)>(follower: DurableShard<S>, ghost target: History, records: seq<Record>,
                               breaks: Option<nat>)
      returns (whole: bool)
    requires follower.Valid() && follower.history <= target && AllLoggable(follower.engine, target)
    requires records == Tail(target, |follower.history|)
    modifies follower
    ensures follower.Valid() && old(follower.history) <= follower.history <= target
    ensures whole ==> follower.history == target
    ensures follower.installs == old(follower.installs)
    ensures breaks.None? ==> whole
    ensures old(follower.images) <= follower.images
    ensures CrashSafe(follower.engine, follower.images, |old(follower.images)|, old(follower.history), follower.history)
  {
    hide Holds, Keeps, Clean, Running, CrashSafe, Faithful, AllLoggable, Acceptable, Fold;
    ghost var start, first, from := follower.history, follower.images, |follower.images|;
    NoImagesYet(follower.engine, follower.images, start);
    for j := 0 to |records|
      invariant follower.Valid() && follower.history == target[..|start| + j]
      invariant follower.installs == old(follower.installs)
      invariant first <= follower.images
      invariant CrashSafe(follower.engine, follower.images, from, start, follower.history)
    {
      if breaks == Some(j) {
        return false;
      }
      ghost var before, images := follower.history, follower.images;
      NextIsAcceptable(follower.engine, target, |before|);
      var reply := follower.AddBatch(records[j].batch, Some(records[j].seqNo));
      assert reply.Added?;
      StillCrashSafe(follower.engine, images, follower.images, from, start, before, follower.history);
    }
    assert target[..|target|] == target;
    return true;
  }

  datatype Fetch = Whole(applied: nat) | Cut | Refused

  /** Call number k, a FetchLog, with its records applied as they arrive. */
  method FetchLog<S(!new)>(follower: DurableShard<S>, peer: DurableShard<S>, world: World, k: nat)
      returns (fetch: Fetch)
    requires follower != peer && follower.Valid() && peer.Valid()
    requires SameKind(follower.engine, peer.engine)
    requires follower.history <= peer.history
    modifies follower, peer
    ensures follower.Valid() && peer.Valid()
    ensures old(follower.history) <= follower.history <= peer.history && old(peer.history) <= peer.history
    ensures old(peer.snapshotSeq) <= peer.snapshotSeq
    ensures NoAdds(world.meanwhile(k)) ==> peer.history == old(peer.history)
    ensures fetch.Whole? ==>
              follower.history == peer.history && fetch.applied == |follower.history| - |old(follower.history)|
    ensures fetch.Refused? ==> follower.history == old(follower.history) && |follower.history| < peer.snapshotSeq
    ensures follower.installs == old(follower.installs)
    ensures fetch.Refused? && world.meanwhile(k) == [] ==> |follower.history| < old(peer.snapshotSeq)
    ensures world.breaks(k).None? ==> !fetch.Cut?
    ensures old(follower.images) <= follower.images
    ensures CrashSafe(follower.engine, follower.images, |old(follower.images)|, old(follower.history), follower.history)
  {
    hide Holds, Keeps, Clean, Running, CrashSafe, Faithful;
    NoImagesYet(follower.engine, follower.images, follower.history);
    Perform(peer, world.meanwhile(k));
    var records := peer.RecordsAfter(follower.lastSeq);
    if records.None? {
      return Refused;
    }
    var whole := ApplyRecords(follower, peer.history, records.value, world.breaks(k));
    fetch := if whole then Whole(|records.value|) else Cut;
  }

  /** Call number k, a FetchSnapshot, and the install of what it brings. */
  method FetchSnapshot<S(!new)>(follower: DurableShard<S>, peer: DurableShard<S>, world: World, k: nat)
      returns (whole: bool)
    requires follower != peer && follower.Valid() && peer.Valid()
    requires SameKind(follower.engine, peer.engine)
    requires follower.history <= peer.history && |follower.history| < peer.snapshotSeq
    modifies follower, peer
    ensures follower.Valid() && peer.Valid()
    ensures old(follower.history) <= follower.history <= peer.history && old(peer.history) <= peer.history
    ensures old(peer.snapshotSeq) <= peer.snapshotSeq
    ensures NoAdds(world.meanwhile(k)) ==> peer.history == old(peer.history)
    ensures if whole then |follower.history| == peer.snapshotSeq else follower.history == old(follower.history)
    ensures follower.installs == old(follower.installs) + if whole then [|follower.history|] else []
    ensures world.breaks(k).None? ==> whole
    ensures old(follower.images) <= follower.images
    ensures CrashSafe(follower.engine, follower.images, |old(follower.images)|, old(follower.history), follower.history)
  {
    hide Holds, Keeps, Clean, Running, CrashSafe, Faithful, AllLoggable, Fold;
    NoImagesYet(follower.engine, follower.images, follower.history);
    Perform(peer, world.meanwhile(k));
    if world.breaks(k).Some? {
      return false;
    }
    var s := peer.SnapshotBytes();
    ghost var g := peer.history[..peer.snapshotSeq];
    PeerPrefix(peer.engine, follower.engine, peer.history, g);
    assert follower.history <= g;
    follower.InstallSnapshot(s, g);
    return true;
  }

  /**
    The follower's history only grows, and is a prefix of the peer's at every step, whatever
    the peer writes and snapshots between the calls; a crash of the follower at any disk step
    loses none of it. When it returns, the two histories are equal, and it says whether a
    snapshot was installed, and how many log records were applied since. It can give up only if
    the peer was busy before every FetchLog but the first: with a quiet peer two attempts do.
    */
  method CatchUp<S(!new)>(follower: DurableShard<S>, peer: DurableShard<S>, attempts: nat, world: World)
      returns (outcome: Outcome)
    requires follower != peer && follower.Valid() && peer.Valid()
    requires SameKind(follower.engine, peer.engine)
    requires follower.history <= peer.history
    modifies follower, peer
    ensures follower.Valid() && peer.Valid()
    ensures old(follower.history) <= follower.history <= peer.history
    ensures old(peer.history) <= peer.history
    ensures Undisturbed(world) ==> peer.history == old(peer.history)
    ensures outcome.CaughtUp? ==> follower.history == peer.history
    ensures old(follower.installs) <= follower.installs
    ensures outcome.CaughtUp? ==>
      if follower.installs == old(follower.installs) then
        outcome.how.ByLog? && outcome.applied == |follower.history| - |old(follower.history)|
      else
        outcome.how.BySnapshot? && outcome.applied == |follower.history| - Last(follower.installs)
    ensures outcome.GaveUp? ==> forall i :: 0 < i < attempts ==> world.meanwhile(2 * i) != []
    ensures Reliable(world) ==> !outcome.Broken?
    ensures old(follower.images) <= follower.images
    ensures CrashSafe(follower.engine, follower.images, |old(follower.images)|,
                      old(follower.history), follower.history)
  {
    hide Holds, Keeps, Clean, Running, CrashSafe, Faithful;
    var how := ByLog;
    ghost var start, from := follower.history, |follower.images|;
    NoImagesYet(follower.engine, follower.images, start);
    for i := 0 to attempts
      invariant follower.Valid() && peer.Valid()
      invariant start <= follower.history <= peer.history && old(peer.history) <= peer.history
      invariant how.ByLog? <==> i == 0
      invariant old(follower.installs) <= follower.installs && (i == 0 <==> follower.installs == old(follower.installs))
      invariant i > 0 ==> Last(follower.installs) == |follower.history|
      invariant i == 0 ==> follower.history == start
      invariant i > 0 ==> |follower.history| == peer.snapshotSeq
      invariant forall k :: 0 < k < i ==> world.meanwhile(2 * k) != []
      invariant Undisturbed(world) ==> peer.history == old(peer.history)
      invariant old(follower.images) <= follower.images
      invariant CrashSafe(follower.engine, follower.images, from, start, follower.history)
    {
      ghost var before, images := follower.history, follower.images;
      var fetch := FetchLog(follower, peer, world, 2 * i);
      StillCrashSafe(follower.engine, images, follower.images, from, start, before, follower.history);
      match fetch {
        case Whole(applied) => return CaughtUp(how, applied);
        case Cut => return Broken;
        case Refused =>
      }
      ghost var during := follower.images;
      var whole := FetchSnapshot(follower, peer, world, 2 * i + 1);
      StillCrashSafe(follower.engine, during, follower.images, from, start, before, follower.history);
      if !whole {
        return Broken;
      }
      how := BySnapshot;
    }
    return GaveUp;
  }
}

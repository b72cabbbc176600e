/** `repair`, for one shard. */
module Repairs {
  import opened Bytes
  import opened Framing
  import opened Histories
  import opened Disks
  import opened DurableShards
  import opened CatchUps

  // Every replica that answers catches up with the most advanced.

  const ATTEMPTS := 3

  datatype ReplicaSync = ReplicaSync(replica: nat, how: Method, applied: nat)

  datatype Repair = Repaired(synced: seq<ReplicaSync>) | Failed(replica: nat)

  function Names(synced: seq<ReplicaSync>): set<nat> {
    set s | s in synced :: s.replica
  }

  lemma NoNames()
    ensures Names([]) == {}
  {
  }

  lemma OneMoreName(synced: seq<ReplicaSync>, sync: ReplicaSync)
    ensures Names(synced + [sync]) == Names(synced) + {sync.replica}
  {
    forall n: nat
      ensures n in Names(synced + [sync]) <==> n in Names(synced) || n == sync.replica
    {
      if n in Names(synced) {
        var s :| s in synced && s.replica == n;
        assert s in synced + [sync];
      }
      if n == sync.replica {
        assert (synced + [sync])[|synced|] == sync;
      }
    }
  }

  // ---------------------------------------------------------------- the copies of one shard

  ghost function Copies<S(!new)>(group: seq<DurableShard<S>>): (copies: seq<History>)
    reads group
    ensures |copies| == |group| && forall i :: 0 <= i < |group| ==> copies[i] == group[i].history
  {
    seq(|group|, i requires 0 <= i < |group| reads group => group[i].history)
  }

  /** The snapshots each replica has installed, by their numbers. */
  ghost function Installs<S(!new)>(group: seq<DurableShard<S>>): (installs: seq<seq<nat>>)
    reads group
    ensures |installs| == |group| && forall i :: 0 <= i < |group| ==> installs[i] == group[i].installs
  {
    seq(|group|, i requires 0 <= i < |group| reads group => group[i].installs)
  }

  /** The replicas of one shard: separate ones, of one kind. */
  ghost predicate AllValid<S(!new)>(group: seq<DurableShard<S>>)
    reads group
  {
    && (forall i :: 0 <= i < |group| ==> group[i].Valid())
    && (forall i, j :: 0 <= i < j < |group| ==> group[i] != group[j])
    && (forall i, j :: 0 <= i < |group| && 0 <= j < |group| ==> SameKind(group[i].engine, group[j].engine))
  }

  ghost predicate AllComparable(copies: seq<History>) {
    forall i, j :: 0 <= i < |copies| && 0 <= j < |copies| ==> Comparable(copies[i], copies[j])
  }

  /** The first of the most advanced copies that answer. */
  ghost predicate IsSource(copies: seq<History>, answers: seq<bool>, source: nat)
    requires |answers| == |copies|
  {
    && source < |copies| && answers[source]
    && (forall i :: 0 <= i < |copies| && answers[i] ==> |copies[i]| <= |copies[source]|)
    && (forall i :: 0 <= i < source && answers[i] ==> |copies[i]| < |copies[source]|)
  }

  /** Ask every replica for its status, and pick the source: `max` returns the first maximum. */
  method FindSource<S(!new)>(group: seq<DurableShard<S>>, answers: seq<bool>)
      returns (statuses: seq<Option<nat>>, source: Option<nat>)
    requires |answers| == |group| && AllValid(group)
    ensures |statuses| == |group|
    ensures forall i :: 0 <= i < |group| ==> statuses[i] == if answers[i] then Some(|Copies(group)[i]|) else None
    ensures source.None? <==> forall i :: 0 <= i < |group| ==> !answers[i]
    ensures source.Some? ==>
              source.value < |group| && answers[source.value] && IsSource(Copies(group), answers, source.value)
  {
    hide Holds, Keeps, Clean, Faithful, AllLoggable;
    statuses, source := [], None;
    for i := 0 to |group|
      invariant |statuses| == i
      invariant forall j :: 0 <= j < i ==> statuses[j] == if answers[j] then Some(|group[j].history|) else None
      invariant source.None? <==> forall j :: 0 <= j < i ==> !answers[j]
      invariant source.Some? ==>
        && source.value < i && answers[source.value]
        && (forall j :: 0 <= j < i && answers[j] ==> |group[j].history| <= |group[source.value].history|)
        && (forall j :: 0 <= j < source.value && answers[j] ==> |group[j].history| < |group[source.value].history|)
    {
      assert group[i].Valid();
      statuses := statuses + [if answers[i] then Some(group[i].lastSeq) else None];
      if answers[i] && (source.None? || statuses[i].value > statuses[source.value].value) {
        source := Some(i);
      }
    }
  }

  // ---------------------------------------------------------------- what a repair reports

  /** What is said of one replica is what it did: the records applied, since a snapshot if it installed one. */
  ghost predicate IsSync(sync: ReplicaSync, before: seq<History>, now: seq<History>,
                         was: seq<seq<nat>>, installs: seq<seq<nat>>) {
    && sync.replica < |before| == |now| == |was| == |installs|
    && var i := sync.replica;
       if installs[i] == was[i] then
         sync.how.ByLog? && sync.applied == |now[i]| - |before[i]|
       else
         sync.how.BySnapshot? && installs[i] != [] && sync.applied == |now[i]| - Last(installs[i])
  }

  /** Reports of replicas below `end`, in their order. */
  ghost predicate AreSyncs(synced: seq<ReplicaSync>, end: nat, before: seq<History>, now: seq<History>,
                           was: seq<seq<nat>>, installs: seq<seq<nat>>) {
    && (forall k :: 0 <= k < |synced| ==> synced[k].replica < end && IsSync(synced[k], before, now, was, installs))
    && (forall k, l :: 0 <= k < l < |synced| ==> synced[k].replica < synced[l].replica)
  }

  /** Only replica i, with its report, and the source, which has none, change at the turn of i. */
  lemma OneMoreSync(synced: seq<ReplicaSync>, sync: ReplicaSync, i: nat, source: nat, before: seq<History>,
                    now: seq<History>, later: seq<History>, was: seq<seq<nat>>, installs: seq<seq<nat>>,
                    after: seq<seq<nat>>)
    requires AreSyncs(synced, i, before, now, was, installs) && sync.replica == i && source !in Names(synced)
    requires |later| == |now| && |after| == |installs| && IsSync(sync, before, later, was, after)
    requires forall j :: 0 <= j < |now| && j != i && j != source ==> later[j] == now[j]
    requires forall j :: 0 <= j < |installs| && j != i && j != source ==> after[j] == installs[j]
    ensures AreSyncs(synced + [sync], i + 1, before, later, was, after)
  {
    forall k | 0 <= k < |synced|
      ensures IsSync(synced[k], before, later, was, after)
    {
      assert synced[k].replica in Names(synced);
    }
  }

  lemma NoSync(synced: seq<ReplicaSync>, i: nat, before: seq<History>, now: seq<History>, was: seq<seq<nat>>,
               installs: seq<seq<nat>>)
    requires AreSyncs(synced, i, before, now, was, installs)
    ensures AreSyncs(synced, i + 1, before, now, was, installs)
  {
  }

  /** What a replica did at its turn is what it did since the start, if that left it alone until then. */
  lemma SameStart(sync: ReplicaSync, before: seq<History>, now: seq<History>, later: seq<History>,
                  was: seq<seq<nat>>, installs: seq<seq<nat>>, after: seq<seq<nat>>)
    requires IsSync(sync, now, later, installs, after) && |before| == |now| && |was| == |installs|
    requires now[sync.replica] == before[sync.replica] && installs[sync.replica] == was[sync.replica]
    ensures IsSync(sync, before, later, was, after)
  {
  }

  lemma NothingReported(end: nat, before: seq<History>, was: seq<seq<nat>>)
    ensures AreSyncs([], end, before, before, was, was)
  {
  }

  /** One SyncFrom: replica i catches up with the source. */
  method SyncFrom<S(!new)>(group: seq<DurableShard<S>>, source: nat, i: nat, world: World) returns (outcome: Outcome)
    requires AllValid(group) && source < |group| && i < |group| && i != source
    requires Copies(group)[i] <= Copies(group)[source]
    modifies group[i], group[source]
    ensures AllValid(group)
    ensures var now, later := old(Copies(group)), Copies(group);
            && now[i] <= later[i] <= later[source] && now[source] <= later[source]
            && (forall j :: 0 <= j < |group| && j != i && j != source ==> later[j] == now[j])
            && (outcome.CaughtUp? ==> later[i] == later[source])
            && (Undisturbed(world) ==> later[source] == now[source])
    ensures forall j :: 0 <= j < |group| && j != i && j != source ==> Installs(group)[j] == old(Installs(group))[j]
    ensures outcome.CaughtUp? ==>
              IsSync(ReplicaSync(i, outcome.how, outcome.applied), old(Copies(group)), Copies(group),
                     old(Installs(group)), Installs(group))
    ensures Reliable(world) && Quiet(world) ==> outcome.CaughtUp?
  {
    hide Holds, Keeps, Clean, Faithful, AllLoggable, Running, CrashSafe;
    assert group[i] != group[source] && forall j :: 0 <= j < |group| && j != i && j != source ==>
                                          group[j] != group[i] && group[j] != group[source];
    outcome := CatchUp(group[i], group[source], ATTEMPTS, world);
    assert world.meanwhile(2 * 1) == [] || !Quiet(world);
    forall j | 0 <= j < |group|
      ensures group[j].Valid()
    {
    }
  }

  // ---------------------------------------------------------------- how far a repair has come

  /**
    The copies once those below `turns` have had their turn, and those below `done` got through
    it, when they were `before` at the start.
    */
  ghost predicate Progress(before: seq<History>, now: seq<History>, answers: seq<bool>, source: nat,
                           turns: nat, done: nat) {
    && |answers| == |before| == |now| && source < |now| && answers[source]
    && (forall i :: 0 <= i < |now| ==> before[i] <= now[i])
    && (forall i :: 0 <= i < |now| && i != source && (!answers[i] || turns <= i) ==> now[i] == before[i])
    && (forall i :: 0 <= i < |now| && answers[i] ==> now[i] <= now[source])
    && (forall i :: 0 <= i < |now| && i < done && answers[i] ==> |before[source]| <= |now[i]|)
  }

  lemma Begin(before: seq<History>, answers: seq<bool>, source: nat)
    requires |answers| == |before| && AllComparable(before) && IsSource(before, answers, source)
    ensures Progress(before, before, answers, source, 0, 0)
  {
    forall i | 0 <= i < |before| && answers[i]
      ensures before[i] <= before[source]
    {
      assert Comparable(before[i], before[source]);
    }
  }

  /** Replica i caught up with the source; or tried to, and got somewhere. */
  lemma OneMore(before: seq<History>, now: seq<History>, later: seq<History>, answers: seq<bool>, source: nat, i: nat)
    requires Progress(before, now, answers, source, i, i) && i < |now| == |later| && answers[i] && i != source
    requires now[i] <= later[i] <= later[source] && now[source] <= later[source]
    requires forall j :: 0 <= j < |now| && j != i && j != source ==> later[j] == now[j]
    ensures Progress(before, later, answers, source, i + 1, i)
    ensures later[i] == later[source] ==> Progress(before, later, answers, source, i + 1, i + 1)
  {
    assert before[source] <= now[source];
  }

  lemma NextTurn(before: seq<History>, now: seq<History>, answers: seq<bool>, source: nat, i: nat)
    requires Progress(before, now, answers, source, i, i) && i < |now| && answers[i]
    ensures now[i] <= now[source] && before[source] <= now[source] && (i != source ==> now[i] == before[i])
  {
  }

  /** No turn for a replica that does not answer, or is not behind. */
  lemma NoTurn(before: seq<History>, now: seq<History>, answers: seq<bool>, source: nat, i: nat)
    requires Progress(before, now, answers, source, i, i) && i < |now|
    requires i == source || !answers[i] || |before[i]| >= |before[source]|
    ensures Progress(before, now, answers, source, i + 1, i + 1)
  {
  }

  /** If the source took no writes, then whatever happened to the calls, the copies are still comparable. */
  lemma StillComparable(before: seq<History>, now: seq<History>, answers: seq<bool>, source: nat,
                         turns: nat, done: nat)
    requires AllComparable(before) && Progress(before, now, answers, source, turns, done)
             && now[source] == before[source]
    ensures AllComparable(now)
  {
    forall i, j | 0 <= i < |now| && 0 <= j < |now|
      ensures Comparable(now[i], now[j])
    {
      var top := before[source];
      assert answers[i] ==> now[i] <= top;
      assert answers[j] ==> now[j] <= top;
      assert Comparable(before[i], before[j]) && Comparable(before[i], top) && Comparable(top, before[j]);
    }
  }

  // ---------------------------------------------------------------- repair

  /** What it means for `now` to be a finished repair of `before`, from a source that took no writes. */
  ghost predicate Level(before: seq<History>, now: seq<History>, answers: seq<bool>) {
    && |answers| == |before| == |now|
    && forall source: nat, i: nat :: IsSource(before, answers, source) && i < |now| && answers[i] ==>
         now[i] == before[source]
  }

  /** Where a repair leaves the copies, however it ends. */
  lemma Ends(before: seq<History>, now: seq<History>, answers: seq<bool>, source: nat, turns: nat, done: nat)
    requires AllComparable(before) && Progress(before, now, answers, source, turns, done)
             && IsSource(before, answers, source)
    ensures |now| == |before| && forall i :: 0 <= i < |now| ==> before[i] <= now[i]
    ensures forall i :: 0 <= i < |now| && !answers[i] ==> now[i] == before[i]
    ensures now[source] == before[source] ==> AllComparable(now)
    ensures now[source] == before[source] && done == |now| ==> Level(before, now, answers)
  {
    if now[source] == before[source] {
      StillComparable(before, now, answers, source, turns, done);
    }
  }

  /** The replicas that have something to catch up with. */
  ghost predicate IsBehind(copies: seq<History>, answers: seq<bool>, i: nat)
    requires |answers| == |copies|
  {
    i < |copies| && answers[i] && exists j :: 0 <= j < |copies| && answers[j] && |copies[i]| < |copies[j]|
  }

  lemma NobodyAnswers(copies: seq<History>, answers: seq<bool>)
    requires |answers| == |copies| && forall i :: 0 <= i < |copies| ==> !answers[i]
    ensures Level(copies, copies, answers) && forall i: nat :: !IsBehind(copies, answers, i)
  {
  }

  lemma BehindTheSource(copies: seq<History>, answers: seq<bool>, source: nat)
    requires |answers| == |copies| && IsSource(copies, answers, source)
    ensures forall i: nat :: IsBehind(copies, answers, i) <==>
            i < |copies| && answers[i] && |copies[i]| < |copies[source]|
  {
  }

  /** The turn of a replica that answered and is behind the source. */
  method TakeTurn<S(!new)>(group: seq<DurableShard<S>>, answers: seq<bool>, ghost before: seq<History>,
                           ghost was: seq<seq<nat>>, ghost synced: seq<ReplicaSync>, source: nat, i: nat, world: World)
      returns (outcome: Outcome)
    requires AllValid(group) && |answers| == |group| && i < |group| && source < |group| && answers[i] && i != source
    requires Progress(before, Copies(group), answers, source, i, i)
    requires AreSyncs(synced, i, before, Copies(group), was, Installs(group)) && source !in Names(synced)
    requires |was| == |group| && Installs(group)[i] == was[i]
    modifies group
    ensures AllValid(group)
    ensures Progress(before, Copies(group), answers, source, i + 1, if outcome.CaughtUp? then i + 1 else i)
    ensures forall j :: 0 <= j < |group| && j != i && j != source ==> Installs(group)[j] == old(Installs(group))[j]
    ensures outcome.CaughtUp? ==>
              AreSyncs(synced + [ReplicaSync(i, outcome.how, outcome.applied)], i + 1, before, Copies(group),
                       was, Installs(group))
    ensures Undisturbed(world) ==> Copies(group)[source] == old(Copies(group))[source]
    ensures Reliable(world) && Quiet(world) ==> outcome.CaughtUp?
  {
    hide *;
    ghost var now, installs := Copies(group), Installs(group);
    NextTurn(before, now, answers, source, i);
    outcome := SyncFrom(group, source, i, world);
    OneMore(before, now, Copies(group), answers, source, i);
    if outcome.CaughtUp? {
      ghost var sync := ReplicaSync(i, outcome.how, outcome.applied);
      SameStart(sync, before, now, Copies(group), was, installs, Installs(group));
      OneMoreSync(synced, sync, i, source, before, now, Copies(group), was, installs, Installs(group));
    }
  }

  /** Every replica that answered and is behind the source catches up with it, one after the other. */
  method SyncBehind<S(!new)>(group: seq<DurableShard<S>>, answers: seq<bool>, worlds: nat -> World,
                             statuses: seq<Option<nat>>, source: nat) returns (r: Repair)
    requires |answers| == |group| == |statuses| && AllValid(group)
    requires forall i :: 0 <= i < |group| ==> statuses[i] == if answers[i] then Some(|Copies(group)[i]|) else None
    requires source < |group| && answers[source] && Progress(Copies(group), Copies(group), answers, source, 0, 0)
    modifies group
    ensures AllValid(group)
    ensures match r
            case Repaired(_) => Progress(old(Copies(group)), Copies(group), answers, source, |group|, |group|)
            case Failed(i) => Progress(old(Copies(group)), Copies(group), answers, source, i + 1, i)
    ensures (forall i :: Undisturbed(worlds(i))) ==> Copies(group)[source] == old(Copies(group))[source]
    ensures r.Repaired? ==> forall i: nat :: i in Names(r.synced) <==>
              i < |group| && answers[i] && |old(Copies(group))[i]| < |old(Copies(group))[source]|
    ensures r.Repaired? ==>
              AreSyncs(r.synced, |group|, old(Copies(group)), Copies(group), old(Installs(group)), Installs(group))
    ensures (forall i :: Reliable(worlds(i)) && Quiet(worlds(i))) ==> r.Repaired?
  {
    hide *;
    ghost var before, was := Copies(group), Installs(group);
    NoNames();
    NothingReported(0, before, was);
    var newest := statuses[source].value;
    var synced := [];
    for i := 0 to |group|
      invariant AllValid(group)
      invariant Progress(before, Copies(group), answers, source, i, i)
      invariant (forall j :: Undisturbed(worlds(j))) ==> Copies(group)[source] == before[source]
      invariant forall j: nat :: j in Names(synced) <==> j < i && answers[j] && |before[j]| < |before[source]|
      invariant AreSyncs(synced, i, before, Copies(group), was, Installs(group))
      invariant forall j :: i <= j < |group| && j != source ==> Installs(group)[j] == was[j]
    {
      if statuses[i].Some? && statuses[i].value < newest {
        var outcome := TakeTurn(group, answers, before, was, synced, source, i, worlds(i));
        if !outcome.CaughtUp? {
          return Failed(i);
        }
        OneMoreName(synced, ReplicaSync(i, outcome.how, outcome.applied));
        synced := synced + [ReplicaSync(i, outcome.how, outcome.applied)];
      } else {
        NoTurn(before, Copies(group), answers, source, i);
        NoSync(synced, i, before, Copies(group), was, Installs(group));
      }
    }
    r := Repaired(synced);
  }

  /**
    `repair` for one shard, whose replica i answers when asked for its status if `answers[i]`;
    `worlds(i)` is what happens around the calls made for it. No copy ever loses a write, and
    one that does not answer is left alone. The report names the replicas that were behind, in
    order, and how each caught up. If the source takes no writes meanwhile, the copies
    stay comparable, and when repair finishes every replica that answered holds exactly what
    the most advanced of them held. If calls do not break and the source is quiet, it finishes.
    */
  method RepairShard<S(!new)>(group: seq<DurableShard<S>>, answers: seq<bool>, worlds: nat -> World) returns (r: Repair)
    requires |answers| == |group| && AllValid(group) && AllComparable(Copies(group))
    modifies group
    ensures AllValid(group)
    ensures forall i :: 0 <= i < |group| ==> old(Copies(group))[i] <= Copies(group)[i]
    ensures forall i :: 0 <= i < |group| && !answers[i] ==> Copies(group)[i] == old(Copies(group))[i]
    ensures (forall i :: Undisturbed(worlds(i))) ==> AllComparable(Copies(group))
    ensures (forall i :: Undisturbed(worlds(i))) && r.Repaired? ==> Level(old(Copies(group)), Copies(group), answers)
    ensures r.Repaired? ==> forall i: nat :: i in Names(r.synced) <==> IsBehind(old(Copies(group)), answers, i)
    ensures r.Repaired? ==>
              AreSyncs(r.synced, |group|, old(Copies(group)), Copies(group), old(Installs(group)), Installs(group))
    ensures (forall i :: Reliable(worlds(i)) && Quiet(worlds(i))) ==> r.Repaired?
  {
    hide *;
    ghost var before := Copies(group);
    NoNames();
    var statuses, found := FindSource(group, answers);
    if found.None? {
      NobodyAnswers(before, answers);
      NothingReported(|group|, before, Installs(group));
      return Repaired([]);
    }
    BehindTheSource(before, answers, found.value);
    Begin(before, answers, found.value);
    r := SyncBehind(group, answers, worlds, statuses, found.value);
    match r {
      case Repaired(_) => Ends(before, Copies(group), answers, found.value, |group|, |group|);
      case Failed(i) => Ends(before, Copies(group), answers, found.value, i + 1, i);
    }
  }
}

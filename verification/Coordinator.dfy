/**
  `GrpcCoordinator`: the methods that write.

  It writes to a world of disks. Everything it does, and everything the replicas do meanwhile,
  continues one run of that world; and so, on the cluster the world shows, a run in the sense
  of `Clusters`. What becomes of each call, and what the replicas do before it, are parameters.
  */
module Coordinators {
  import opened Bytes
  import opened LogFormat
  import opened Framing
  import opened Histories
  import opened ReplicaGroups
  import opened Clusters
  import opened Guarantees
  import opened Durability
  import opened Routing
  import opened LawfulWorlds
  import D = Disks
  import R = WorldRuns
  import W = Worlds

  /**
    What becomes of one call: answered, if the replica can; or its reply is lost, the replica
    perhaps crashing over it; or it never gets there.
    */
  datatype Fate = Answered | ReplyLost(crash: Option<nat>) | NotApplied

  /** One call made: Status or Add, to this replica, at this point of the run. */
  datatype Call = Call(shard: nat, replica: nat, writes: bool, point: nat, answered: bool)

  /** The coordinator is in the middle of a check, or of a round, that needs this call. */
  predicate IsDue<S>(at: W.World<S>, c: Call) {
    && c.shard < |at.shards| == |at.mind.groups| && c.replica < |at.shards[c.shard]|
    && var view := at.mind.groups[c.shard].view;
       if c.writes then view.Writing? && c.replica in view.pending
       else at.mind.activity == Inspecting(c.shard) && view.Checking? && c.replica == |view.found|
  }

  /** The replica can answer it. */
  predicate CanAnswer<S>(reader: Reader<S>, at: W.World<S>, c: Call)
    requires IsDue(at, c)
  {
    if c.writes then Takes(reader, at, c.shard, c.replica) else W.Free(at.shards[c.shard][c.replica])
  }

  /** It was due, and answered if and only if it came through and the replica could answer. */
  ghost predicate WasMade<S(!new)>(reader: Reader<S>, first: W.World<S>, run: seq<W.Happening>, fate: Fate, c: Call) {
    exists at: W.World<S> ::
      && Passed(reader, first, run, c.point, at) && IsDue(at, c)
      && (c.answered <==> fate.Answered? && CanAnswer(reader, at, c))
  }

  ghost predicate AllMade<S(!new)>(reader: Reader<S>, first: W.World<S>, run: seq<W.Happening>, fates: nat -> Fate,
                                   made: seq<Call>) {
    forall n :: 0 <= n < |made| ==> WasMade(reader, first, run, fates(n), made[n])
  }

  lemma StillMade<S(!new)>(reader: Reader<S>, first: W.World<S>, run: seq<W.Happening>, later: seq<W.Happening>,
                           fates: nat -> Fate, made: seq<Call>)
    requires AllMade(reader, first, run, fates, made) && run <= later
    ensures AllMade(reader, first, later, fates, made)
  {
    hide Passed, IsDue, CanAnswer;
    forall n | 0 <= n < |made|
      ensures WasMade(reader, first, later, fates(n), made[n])
    {
      var c := made[n];
      var at: W.World<S> :|
        Passed(reader, first, run, c.point, at) && IsDue(at, c)
        && (c.answered <==> fates(n).Answered? && CanAnswer(reader, at, c));
      StillPassed(reader, first, run, later, c.point, at);
    }
  }

  /** How many calls brought no answer. */
  function LostCalls(made: seq<Call>): nat {
    if made == [] then 0
    else LostCalls(made[..|made| - 1]) + if made[|made| - 1].answered then 0 else 1
  }

  /** More calls were made, none before this point of the run. */
  ghost predicate MadeSince(before: seq<Call>, made: seq<Call>, since: nat) {
    before <= made && forall n :: |before| <= n < |made| ==> since <= made[n].point
  }

  lemma NoneMade(made: seq<Call>, since: nat)
    ensures MadeSince(made, made, since)
  {
  }

  lemma MadeSinceThen(a: seq<Call>, b: seq<Call>, c: seq<Call>, since: nat, then': nat)
    requires MadeSince(a, b, since) && MadeSince(b, c, then') && since <= then'
    ensures MadeSince(a, c, since)
  {
  }

  /** One of these calls brought no answer. */
  ghost predicate SomeLost(made: seq<Call>, from: nat) {
    exists n :: from <= n < |made| && !made[n].answered
  }

  lemma {:induction false} LostIsCounted(before: seq<Call>, made: seq<Call>)
    requires before <= made
    ensures LostCalls(before) <= LostCalls(made)
    ensures LostCalls(before) < LostCalls(made) <==> SomeLost(made, |before|)
    decreases |made|
  {
    if before == made {
    } else {
      var front := made[..|made| - 1];
      LostIsCounted(before, front);
      if SomeLost(front, |before|) {
        var n :| |before| <= n < |front| && !front[n].answered;
        assert !made[n].answered;
      }
    }
  }

  lemma CallsLost(before: seq<Call>, made: seq<Call>, since: nat)
    requires MadeSince(before, made, since)
    ensures LostCalls(before) <= LostCalls(made)
    ensures LostCalls(before) < LostCalls(made) <==> SomeLost(made, |before|)
  {
    LostIsCounted(before, made);
  }

  lemma NoneLost(made: seq<Call>)
    ensures !SomeLost(made, |made|)
  {
  }

  datatype CheckResult = Ready | NoStatus(shard: nat) | NotInSync(shard: nat, seqs: seq<nat>)

  datatype AddResult =
    | Indexed
    | Unavailable(shard: nat)    // a Status call failed
    | OutOfSync(shard: nat, seqs: seq<nat>)  // "run repair() before writing": what its replicas reported
    | WriteFailed                // some replica did not acknowledge a chunk
    | Diverged(shard: nat)       // "replicas of shard diverged"
    | IdsExhausted               // an id would not fit 64 bits

  function Believed(view: View): Option<nat> {
    match view
    case Known(n) => Some(n)
    case Writing(n, _, _, _, _) => Some(n)
    case _ => None
  }

  function SeqsOf(found: seq<Found>): (seqs: seq<nat>)
    ensures |seqs| == |found| && forall i :: 0 <= i < |seqs| ==> seqs[i] == found[i].lastSeq
  {
    seq(|found|, i requires 0 <= i < |found| => found[i].lastSeq)
  }

  /** Not all the same. */
  predicate Differ(seqs: seq<nat>) {
    exists i :: 0 <= i < |seqs| && seqs[i] != seqs[0]
  }

  ghost predicate OneValue(sizes: set<nat>) {
    exists size :: sizes == {size}
  }

  /** The shards written to in this round, and no others, reported: one size each. */
  ghost predicate OneSizeEach(shares: seq<seq<Placed>>, from: nat, reported: map<nat, set<nat>>) {
    forall k :: 0 <= k < |shares| ==>
      if from < |shares[k]| then k in reported && OneValue(reported[k]) else k !in reported
  }

  /** The same shards with the same number of replicas each. */
  ghost predicate SameShape(w: Cluster, later: Cluster) {
    && |later.groups| == |w.groups|
    && forall k :: 0 <= k < |w.groups| ==> |later.groups[k].replicas| == |w.groups[k].replicas|
  }

  /** Nothing is different to the coordinator but its view of shard k. */
  ghost predicate OnlyView(w: Cluster, later: Cluster, k: nat) {
    && later == w.(groups := later.groups) && SameShape(w, later)
    && forall j :: 0 <= j < |w.groups| && j != k ==> later.groups[j].view == w.groups[j].view
  }

  lemma OnlyViewItself(w: Cluster, k: nat)
    ensures OnlyView(w, w, k)
  {
  }

  lemma OnlyViewGoesOn(a: Cluster, b: Cluster, c: Cluster, k: nat)
    requires OnlyView(a, b, k) && OnlyView(b, c, k)
    ensures OnlyView(a, c, k)
  {
  }

  lemma OnlyViewCounts(w: Cluster, later: Cluster, k: nat)
    requires OnlyView(w, later, k) && k < |w.groups|
    ensures |later.groups| == |w.groups| && |later.groups[k].replicas| == |w.groups[k].replicas|
  {
  }

  lemma UnseenIsOnly(w: Cluster, later: Cluster, k: nat)
    requires R.Unseen(w, later)
    ensures OnlyView(w, later, k) && |later.groups| == |w.groups|
    ensures k < |w.groups| ==> later.groups[k].view == w.groups[k].view
  {
  }

  lemma AnswerIsOnly(w: Cluster, later: Cluster, k: nat, view: View)
    requires R.HasAnswered(w, later, k, view)
    ensures OnlyView(w, later, k)
  {
  }

  lemma MissIsOnly(w: Cluster, k: nat, i: nat)
    requires Can(w, Miss(k, i))
    ensures OnlyView(w, After(w, Miss(k, i)), k) && |After(w, Miss(k, i)).groups| == |w.groups|
    ensures var before, view := w.groups[k].view, After(w, Miss(k, i)).groups[k].view;
            && view.Writing? && view.n == before.n && view.batch == before.batch
            && view.pending == before.pending - {i} && view.failed && view.acks == before.acks
  {
  }

  lemma ShapeStays(a: Cluster, b: Cluster, c: Cluster)
    requires SameShape(a, b) && SameShape(b, c)
    ensures SameShape(a, c)
  {
  }

  /** The chunk is in the ledger: acknowledged by every replica of its shard, as its last write. */
  ghost predicate Recorded(w: Cluster, k: nat, chunk: Batch) {
    exists n :: 0 <= n < |w.ledger| && RecordedAt(w, n, k, chunk)
  }

  ghost predicate RecordedAt(w: Cluster, n: nat, k: nat, chunk: Batch)
    requires n < |w.ledger|
  {
    && k < |w.groups|
    && w.ledger[n].shard == k
    && w.ledger[n].history != [] && w.ledger[n].history[|w.ledger[n].history| - 1] == chunk
    && forall i: nat :: i < |w.groups[k].replicas| ==> i in w.ledger[n].disks
  }

  /** The chunk is in the world's ledger: a receipt from every replica of its shard. */
  ghost predicate OnRecord<S>(w: W.World<S>, k: nat, chunk: Batch) {
    exists n :: 0 <= n < |w.ledger| && IsReceipt(w, n, k, chunk)
  }

  ghost predicate IsReceipt<S>(w: W.World<S>, n: nat, k: nat, chunk: Batch)
    requires n < |w.ledger|
  {
    w.ledger[n].shard == k && w.ledger[n].batch == chunk && W.IsWhole(w.shards, w.ledger[n])
  }

  /** Every request of every share is. */
  ghost predicate AllOnRecord<S>(w: W.World<S>, shares: seq<seq<Placed>>, dim: u32, per: nat)
    requires per > 0
  {
    && |shares| == |w.shards|
    && forall k: nat, j: nat :: k < |shares| && j < |Requests(dim, shares[k], per)| ==>
         OnRecord(w, k, Requests(dim, shares[k], per)[j])
  }

  lemma EntryOnRecord<S(!new)>(reader: Reader<S>, w: W.World<S>, c: Cluster, k: nat, chunk: Batch)
    requires R.ShowsWorld(reader.engine, w, c) && Recorded(c, k, chunk)
    ensures OnRecord(w, k, chunk)
  {
    hide R.ShowsWorld, W.IsWhole;
    var n :| 0 <= n < |c.ledger| && RecordedAt(c, n, k, chunk);
    R.SameLength(reader.engine, w, c);
    R.ReceiptFacts(reader.engine, w, c, n);
    assert IsReceipt(w, n, k, chunk);
  }

  lemma StoredOnRecord<S(!new)>(reader: Reader<S>, first: W.World<S>, run: seq<W.Happening>, world: W.World<S>,
                                shown: Cluster, shares: seq<seq<Placed>>, dim: u32, per: nat)
    requires per > 0 && IsLawful(reader, first, run, world, shown) && Stored(shown, shares, dim, per)
    ensures AllOnRecord(world, shares, dim, per)
  {
    hide R.ShowsWorld, LeadsTo, Safe, Requests, Recorded, OnRecord;
    R.SameLength(reader.engine, world, shown);
    forall k: nat, j: nat | k < |shares| && j < |Requests(dim, shares[k], per)|
      ensures OnRecord(world, k, Requests(dim, shares[k], per)[j])
    {
      assert AllRecorded(shown, k, shares[k], dim, per);
      EntryOnRecord(reader, world, shown, k, Requests(dim, shares[k], per)[j]);
    }
  }

  /** One world's ledger says of another's what the clusters' do. */
  lemma SameRecord<S(!new)>(reader: Reader<S>, first: W.World<S>, run: seq<W.Happening>, world: W.World<S>,
                            shown: Cluster, more: seq<W.Happening>, later: W.World<S>, next: Cluster)
    requires IsLawful(reader, first, run, world, shown) && IsLawful(reader, first, more, later, next)
    ensures shown.ledger <= next.ledger ==> world.ledger <= later.ledger
    ensures shown.ledger == next.ledger ==> world.ledger == later.ledger
  {
    hide R.ShowsWorld, LeadsTo, Safe;
    R.SameLength(reader.engine, world, shown);
    R.SameLength(reader.engine, later, next);
    if shown.ledger <= next.ledger {
      forall n | 0 <= n < |world.ledger|
        ensures world.ledger[n] == later.ledger[n]
      {
        R.ReceiptFacts(reader.engine, world, shown, n);
        R.ReceiptFacts(reader.engine, later, next, n);
      }
    }
  }

  lemma WriteIsDue<S(!new)>(reader: Reader<S>, first: W.World<S>, run: seq<W.Happening>, world: W.World<S>,
                            shown: Cluster, k: nat, i: nat)
    requires IsLawful(reader, first, run, world, shown) && k < |shown.groups|
    requires shown.groups[k].view.Writing? && i in shown.groups[k].view.pending && i < |shown.groups[k].replicas|
    ensures forall answered :: IsDue(world, Call(k, i, true, |run|, answered))
    ensures Takes(reader, world, k, i) ==> W.CanOccur(world, W.Arrive(k, i, true, None))
  {
    hide LeadsTo, R.ShowsWorld, W.CanOccur;
    InMind(reader, first, run, world, shown);
  }

  lemma NothingCovered(size: int)
    ensures CoversReplies(map[], size, size)
  {
  }

  /** Replies come from shards whose position was not known, one from each replica. */
  ghost predicate OfUnknown<S>(seqs: seq<Option<nat>>, shards: seq<seq<W.Host<S>>>, replies: map<nat, seq<Found>>) {
    forall k: nat :: k in replies ==>
      k < |seqs| == |shards| && seqs[k] == None && |replies[k]| == |shards[k]|
  }

  ghost predicate InSync(replies: map<nat, seq<Found>>) {
    forall k :: k in replies ==> InAgreement(replies[k])
  }

  /** Every shard whose position was not known was asked, and its replicas agreed. */
  ghost predicate AllAgree(seqs: seq<Option<nat>>, replies: map<nat, seq<Found>>) {
    InSync(replies) && forall k: nat :: k < |seqs| && seqs[k] == None ==> k in replies
  }

  /** The replicas of shard k do not, and reported these. */
  ghost predicate Disagree(replies: map<nat, seq<Found>>, k: nat, seqs: seq<nat>) {
    k in replies && !InAgreement(replies[k]) && seqs == SeqsOf(replies[k]) && Differ(seqs)
  }

  lemma NotAllInSync(replies: map<nat, seq<Found>>, k: nat, seqs: seq<nat>)
    requires Disagree(replies, k, seqs)
    ensures !InSync(replies)
  {
  }

  /** There are ids left for n rows, above this one and all that were reported. */
  ghost predicate Room(replies: map<nat, seq<Found>>, size: int, n: nat) {
    size + n <= ID_LIMIT && forall k, f :: k in replies && f in replies[k] ==> f.nextId + n <= ID_LIMIT
  }

  lemma RoomLeft(replies: map<nat, seq<Found>>, before: int, size: int, n: nat)
    requires CoversReplies(replies, before, size)
    ensures Room(replies, before, n) <==> size + n <= ID_LIMIT
  {
  }

  lemma NothingAsked<S(!new)>(reader: Reader<S>, first: W.World<S>, run: seq<W.Happening>, since: nat,
                              seqs: seq<Option<nat>>, shards: seq<seq<W.Host<S>>>)
    ensures AllWereReplies(reader, first, run, since, map[]) && OfUnknown(seqs, shards, map[])
  {
  }

  /** The next free id, `before` these replies and after: the largest of them all. */
  ghost predicate CoversReplies(replies: map<nat, seq<Found>>, before: int, size: int) {
    && before <= size
    && (forall k, f :: k in replies && f in replies[k] ==> f.nextId <= size)
    && (size == before || exists k, f :: k in replies && f in replies[k] && f.nextId == size)
  }

  lemma {:induction false} LargestIsReported(found: seq<Found>, size: int)
    ensures Largest(found, size) == size || exists f: Found :: f in found && f.nextId == Largest(found, size)
  {
    if found != [] {
      var front, last := found[..|found| - 1], found[|found| - 1];
      LargestIsReported(front, size);
      assert last in found && forall f: Found :: f in front ==> f in found;
    }
  }

  lemma CoversOneMore(replies: map<nat, seq<Found>>, before: int, size: int, k: nat, found: seq<Found>)
    requires CoversReplies(replies, before, size) && k !in replies
    ensures CoversReplies(replies[k := found], before, Largest(found, size))
  {
    LargestIsReported(found, size);
    var more, m := replies[k := found], Largest(found, size);
    forall j, f: Found | j in more && f in more[j]
      ensures f.nextId <= m
    {
      if j == k {
        var i :| 0 <= i < |found| && found[i] == f;
      }
    }
    if m == size && size != before {
      var j, f :| j in replies && f in replies[j] && f.nextId == size;
      assert j in more && f in more[j];
    } else if m != size {
      var f :| f in found && f.nextId == m;
      assert k in more && f in more[k];
    }
  }

  class GrpcCoordinator<S(!new)> {
    const reader: Reader<S>
    const meanwhile: nat -> seq<W.Happening>   // what the replicas do on their own before call n
    const fates: nat -> Fate                   // what becomes of call n
    var calls: nat
    var world: W.World<S>

    var size: int
    var shardSizes: seq<nat>
    var lastSeqs: seq<Option<nat>>

    ghost const first: W.World<S>
    ghost var run: seq<W.Happening>
    ghost var shown: Cluster
    ghost var made: seq<Call>              // the calls so far
    ghost var broken: nat                  // how many brought no answer

    /** The run has led to this world, which shows this cluster; and every call is accounted for. */
    ghost predicate Lawful()
      reads `world, `run, `shown, `calls, `made, `broken
    {
      && IsLawful(reader, first, run, world, shown)
      && |made| == calls && broken == LostCalls(made) && AllMade(reader, first, run, fates, made)
    }

    ghost predicate Mirrors()
      reads `shown, `size, `shardSizes, `lastSeqs
    {
      && size == shown.size && size >= 0
      && |lastSeqs| == |shardSizes| == |shown.groups|
      && forall k :: 0 <= k < |lastSeqs| ==> lastSeqs[k] == Believed(shown.groups[k].view)
    }

    ghost predicate Valid()
      reads `world, `run, `shown, `calls, `made, `broken, `size, `shardSizes, `lastSeqs
    {
      Lawful() && Mirrors() && shown.activity.Idle?
    }

    /** A coordinator begins, in a new world or in one that others have used, wherever they left it. */
    constructor (reader: Reader<S>, now: W.World<S>, ghost first: W.World<S>, ghost before: seq<W.Happening>,
                 meanwhile: nat -> seq<W.Happening>, fates: nat -> Fate)
      requires Reads(reader) && LeadsTo(reader, first, before, now)
      ensures Valid() && this.reader == reader && this.first == first && run == before + [W.Decide(NewCoordinator)]
      ensures world.shards == now.shards && world.ledger == now.ledger
      ensures size == 0 && forall k :: 0 <= k < |lastSeqs| ==> lastSeqs[k] == None
    {
      ghost var c := Begun(reader, first, before, now);
      Forgets(c);
      Decided(reader, first, before, now, c, NewCoordinator);
      this.reader, this.meanwhile, this.fates := reader, meanwhile, fates;
      calls := 0;
      world := W.Next(reader.engine, reader.nextId, now, W.Decide(NewCoordinator));
      size := 0;
      shardSizes := seq(|now.shards|, _ => 0);
      lastSeqs := seq(|now.shards|, _ => None);
      this.first := first;
      run := before + [W.Decide(NewCoordinator)];
      shown := After(c, NewCoordinator);
      made, broken := [], 0;
    }

    /** A decision. */
    method Take(a: Action)
      requires Lawful() && W.IsDecision(a) && Can(shown, a)
      modifies `world, `run, `shown
      ensures Lawful() && shown == After(old(shown), a) && SameShape(old(shown), shown)
      ensures run == old(run) + [W.Decide(a)]
    {
      hide IsLawful, W.Next, W.CanHappen, AllMade, LostCalls;
      StillMade(reader, first, run, run + [W.Decide(a)], fates, made);
      Decided(reader, first, run, world, shown, a);
      SameCounts(shown, a);
      world := W.Next(reader.engine, reader.nextId, world, W.Decide(a));
      run := run + [W.Decide(a)];
      shown := After(shown, a);
    }

    /** Time passes until the next call is answered, or given up on. */
    method Elapse() returns (fate: Fate)
      requires Lawful()
      modifies `world, `run, `shown
      ensures Lawful() && R.Unseen(old(shown), shown) && old(run) <= run && fate == fates(calls)
    {
      hide IsLawful, W.CanOccur, W.Next, AllMade, LostCalls;
      var steps := meanwhile(calls);
      for n := 0 to |steps|
        invariant Lawful() && R.Unseen(old(shown), shown) && old(run) <= run
      {
        if IsOutside(steps[n]) && W.CanOccur(world, steps[n]) {
          ghost var later := Occurred(reader, first, run, world, shown, steps[n]);
          StillMade(reader, first, run, run + [steps[n]], fates, made);
          world := W.Next(reader.engine, reader.nextId, world, steps[n]);
          run := run + [steps[n]];
          shown := later;
        }
      }
      fate := fates(calls);
    }

    /** A call is made, now. */
    method Count(ghost c: Call)
      requires Lawful() && c.point == |run| && IsDue(world, c)
      requires c.answered <==> fates(calls).Answered? && CanAnswer(reader, world, c)
      modifies `calls, `made, `broken
      ensures Lawful() && calls == old(calls) + 1 && made == old(made) + [c]
      ensures broken == if c.answered then old(broken) else old(broken) + 1
    {
      hide IsLawful, Passed, IsDue, CanAnswer;
      WasHere(reader, first, run, world, shown);
      assert WasMade(reader, first, run, fates(calls), c);
      assert (made + [c])[..|made|] == made;
      calls, made := calls + 1, made + [c];
      broken := if c.answered then broken else broken + 1;
    }

    /** The world was like this at point n of the run, which is not before `since`. */
    ghost predicate Was(at: W.World<S>, n: nat, since: nat)
      reads `run
    {
      since <= n && Passed(reader, first, run, n, at)
    }

    /** One Status call, to the next replica of shard k; it gets there at point n of the run, in this world. */
    method AskReplica(k: nat) returns (answered: bool, ghost n: nat, ghost at: W.World<S>, ghost said: Found)
      requires Lawful() && k < |shown.groups| && shown.activity == Inspecting(k)
      requires shown.groups[k].view.Checking? && |shown.groups[k].view.found| < |shown.groups[k].replicas|
      modifies `calls, `made, `broken, `world, `run, `shown
      ensures Lawful() && SameShape(old(shown), shown) && shown.ledger == old(shown).ledger
      ensures old(run) <= run && shown.size == old(shown).size
      ensures forall j :: 0 <= j < |shown.groups| && j != k ==> shown.groups[j].view == old(shown).groups[j].view
      ensures var found := old(shown).groups[k].view.found;
              && Was(at, n, |old(run)|) && k < |at.shards| && |found| < |at.shards[k]|
              && (answered <==> fates(old(calls)).Answered? && W.Free(at.shards[k][|found|]))
              && if answered then shown.activity == Inspecting(k) && shown.groups[k].view == Checking(found + [said])
                                  && Reports(reader, at, k, |found|, said)
                 else shown.activity == Idle && shown.groups[k].view == Unknown
      ensures broken == (if answered then old(broken) else old(broken) + 1)
      ensures MadeSince(old(made), made, |old(run)|)
    {
      hide IsLawful, Passed, Reports, W.Next, Safe, CanAsk, NextId, AllMade, LostCalls;
      var fate := Elapse();
      InMind(reader, first, run, world, shown);
      WasHere(reader, first, run, world, shown);
      n, at := |run|, world;
      ghost var asked := run;
      assert world.mind.groups[k].view == shown.groups[k].view;
      answered := fate.Answered? && W.Free(world.shards[k][|world.mind.groups[k].view.found|]);
      Count(Call(k, |shown.groups[k].view.found|, false, n, answered));
      if answered {
        said := Reported(reader, first, run, world, shown);
        world := W.Next(reader.engine, reader.nextId, world, W.Status);
        StillMade(reader, first, run, run + [W.Status], fates, made);
        run := run + [W.Status];
        shown := After(shown, AskNext);
        StillPassed(reader, first, asked, run, n, at);
        return;
      }
      Take(AbandonCheck);
      StillPassed(reader, first, asked, run, n, at);
      said := Found(0, 0);
    }

    /** All but the position of shard k, which is not known. */
    ghost predicate MirrorsBut(k: nat)
      reads `shown, `size, `shardSizes, `lastSeqs
    {
      && size == shown.size && size >= 0
      && k < |lastSeqs| == |shardSizes| == |shown.groups| && lastSeqs[k] == None
      && forall j :: 0 <= j < |lastSeqs| && j != k ==> lastSeqs[j] == Believed(shown.groups[j].view)
    }

    /** All the Status calls for shard k, up to one that fails. */
    method AskAll(k: nat) returns (answered: bool, ghost times: seq<nat>)
      requires Lawful() && MirrorsBut(k) && shown.activity == Inspecting(k)
      requires shown.groups[k].view == Checking([])
      modifies `calls, `made, `broken, `world, `run, `shown
      ensures Lawful() && SameShape(old(shown), shown) && shown.ledger == old(shown).ledger
      ensures MirrorsBut(k)
      ensures if answered then shown.activity == Inspecting(k) && shown.groups[k].view.Checking?
                               && |shown.groups[k].view.found| == |shown.groups[k].replicas|
              else shown.activity == Idle && shown.groups[k].view == Unknown
      ensures old(run) <= run
      ensures answered ==> AreReplies(reader, first, run, |old(run)|, times, k, shown.groups[k].view.found)
      ensures broken >= old(broken) && (answered <==> broken == old(broken))
      ensures MadeSince(old(made), made, |old(run)|)
    {
      hide Lawful, IsLawful, Believed, NextId, AreReplies, IsReply, Passed, Reports, MadeSince;
      NoneMade(made, |run|);
      times := [];
      NoReplies(reader, first, run, |run|, k);
      LawfulIsSafe();
      var replicas := |world.shards[k]|;
      for i := 0 to replicas
        invariant Lawful() && SameShape(old(shown), shown) && shown.ledger == old(shown).ledger
        invariant MirrorsBut(k) && broken == old(broken)
        invariant |shown.groups[k].replicas| == replicas && shown.activity == Inspecting(k)
        invariant shown.groups[k].view.Checking? && |shown.groups[k].view.found| == i
        invariant old(run) <= run
        invariant AreReplies(reader, first, run, |old(run)|, times, k, shown.groups[k].view.found)
        invariant MadeSince(old(made), made, |old(run)|)
      {
        ghost var before, found := run, shown.groups[k].view.found;
        ghost var calls := made;
        var one, n, at, said := AskReplica(k);
        MadeSinceThen(old(made), calls, made, |old(run)|, |before|);
        if !one {
          return false, times;
        }
        IsOneReply(reader, first, run, n, at, k, i, said);
        OneMoreReply(reader, first, before, run, |old(run)|, times, k, found, n, said);
        times := times + [n];
      }
      return true, times;
    }

    /** All replicas of shard k answered: take the position they agree on, and the next free id. */
    method TakePosition(k: nat) returns (r: CheckResult)
      requires Lawful() && MirrorsBut(k) && shown.activity == Inspecting(k) && shown.groups[k].view.Checking?
      requires |shown.groups[k].view.found| == |shown.groups[k].replicas|
      modifies `world, `run, `shown, `size, `lastSeqs
      ensures Valid() && SameShape(old(shown), shown) && shown.ledger == old(shown).ledger && old(run) <= run
      ensures size == Largest(old(shown).groups[k].view.found, old(size)) && |lastSeqs| == |old(lastSeqs)|
      ensures forall j :: 0 <= j < |lastSeqs| && j != k ==> lastSeqs[j] == old(lastSeqs)[j]
      ensures r == if InAgreement(old(shown).groups[k].view.found) then Ready
                   else NotInSync(k, SeqsOf(old(shown).groups[k].view.found))
      ensures r.Ready? <==> lastSeqs[k].Some?
    {
      hide Lawful, IsLawful, After, Can, Largest, InAgreement, Safe, SameShape, Believed;
      LawfulIsSafe();
      var found := world.mind.groups[k].view.found;
      FinishCheckLeaves(shown, k);
      size := Largest(found, size);
      Take(FinishCheck);
      if InAgreement(found) {
        lastSeqs := lastSeqs[k := Some(found[0].lastSeq)];
        return Ready;
      }
      return NotInSync(k, SeqsOf(found));
    }

    /** `_check_shards`, for one shard whose position is not known. */
    method CheckShard(k: nat) returns (r: CheckResult, ghost times: seq<nat>, ghost found: seq<Found>)
      requires Valid() && k < |lastSeqs| && lastSeqs[k] == None
      modifies `calls, `made, `broken, `world, `run, `shown, `size, `lastSeqs
      ensures Valid() && SameShape(old(shown), shown) && shown.ledger == old(shown).ledger
      ensures old(run) <= run
      ensures size >= old(size) && |lastSeqs| == |old(lastSeqs)|
      ensures forall j :: 0 <= j < |lastSeqs| && j != k ==> lastSeqs[j] == old(lastSeqs)[j]
      ensures r.Ready? <==> lastSeqs[k].Some?
      ensures r.NoStatus? <==> broken > old(broken)
      ensures broken >= old(broken) && (r.NotInSync? ==> Differ(r.seqs)) && (!r.Ready? ==> r.shard == k)
      ensures !r.NoStatus? ==>
        && |found| == |old(shown).groups[k].replicas| && AreReplies(reader, first, run, |old(run)|, times, k, found)
        && size == Largest(found, old(size))
        && r == if InAgreement(found) then Ready else NotInSync(k, SeqsOf(found))
      ensures MadeSince(old(made), made, |old(run)|)
    {
      hide Lawful, IsLawful, After, Can, Largest, InAgreement, Safe, SameShape, Differ, AreReplies, IsReply, MadeSince;
      IdleViews();
      LawfulIsSafe();
      StartCheckLeaves(shown, k);
      ghost var w0 := shown;
      Take(StartCheck(k));
      ghost var w1 := shown;
      found := [];
      ghost var since := |run|;
      var answered;
      NoneMade(made, |old(run)|);
      ghost var calls := made;
      answered, times := AskAll(k);
      MadeSinceThen(calls, calls, made, |old(run)|, since);
      ghost var w2, asked := shown, run;
      ShapeStays(w0, w1, w2);
      if !answered {
        return NoStatus(k), times, found;
      }
      found := shown.groups[k].view.found;
      if !InAgreement(found) {
        SeqsDiffer(found);
      }
      r := TakePosition(k);
      RepliesStay(reader, first, asked, run, |old(run)|, since, times, k, found);
      ShapeStays(w0, w2, shown);
    }

    /** `_check_shards`. */
    method CheckShards() returns (r: CheckResult, ghost replies: map<nat, seq<Found>>)
      requires Valid()
      modifies `calls, `made, `broken, `world, `run, `shown, `size, `lastSeqs
      ensures Valid() && SameShape(old(shown), shown) && shown.ledger == old(shown).ledger
      ensures size >= old(size) && |lastSeqs| == |old(lastSeqs)|
      ensures r.Ready? <==> forall k :: 0 <= k < |lastSeqs| ==> lastSeqs[k].Some?
      ensures r.NoStatus? <==> broken > old(broken)
      ensures broken >= old(broken) && (r.NotInSync? ==> Differ(r.seqs))
      ensures !r.Ready? ==> r.shard < |lastSeqs| && lastSeqs[r.shard] == None
      ensures !r.NoStatus? ==> CoversReplies(replies, old(size), size)
      ensures old(run) <= run && AllWereReplies(reader, first, run, |old(run)|, replies)
      ensures forall k: nat :: k in replies ==>
                k < |lastSeqs| && old(lastSeqs)[k] == None && |replies[k]| == |old(shown).groups[k].replicas|
      ensures r.Ready? ==>
                forall k: nat :: k < |lastSeqs| && old(lastSeqs)[k] == None ==> k in replies && InAgreement(replies[k])
      ensures r.NotInSync? ==>
                r.shard in replies && !InAgreement(replies[r.shard]) && r.seqs == SeqsOf(replies[r.shard])
      ensures MadeSince(old(made), made, |old(run)|)
    {
      hide Lawful, IsLawful, Mirrors, SameShape, Differ, Largest, InAgreement, CoversReplies, AreReplies,
           AllWereReplies, MadeSince;
      NoneMade(made, |run|);
      replies := map[];
      NothingCovered(size);
      NothingReplied(reader, first, run, |run|);
      SameShapeItself(shown);
      IdleViews();
      for k := 0 to |lastSeqs|
        invariant Valid() && SameShape(old(shown), shown) && shown.ledger == old(shown).ledger
        invariant |lastSeqs| == |old(lastSeqs)| == |old(shown).groups| && broken == old(broken) && size >= old(size)
        invariant forall j :: 0 <= j < k ==> lastSeqs[j].Some?
        invariant forall j :: k <= j < |lastSeqs| ==> lastSeqs[j] == old(lastSeqs)[j]
        invariant CoversReplies(replies, old(size), size)
        invariant old(run) <= run && AllWereReplies(reader, first, run, |old(run)|, replies)
        invariant MadeSince(old(made), made, |old(run)|)
        invariant forall j: nat :: j in replies ==>
          j < k && old(lastSeqs)[j] == None && |replies[j]| == |old(shown).groups[j].replicas|
        invariant forall j: nat :: j < k && old(lastSeqs)[j] == None ==> j in replies && InAgreement(replies[j])
      {
        if lastSeqs[k].None? {
          ghost var before, free, asked, calls := shown, size, run, made;
          var checked, times, found := CheckShard(k);
          MadeSinceThen(old(made), calls, made, |old(run)|, |asked|);
          ShapeStays(old(shown), before, shown);
          r := checked;
          if r.NoStatus? {
            AllStay(reader, first, asked, run, |old(run)|, replies);
            return r, replies;
          }
          SameCount(old(shown), before, k);
          CoversOneMore(replies, old(size), free, k, found);
          OneMoreShard(reader, first, asked, run, |old(run)|, |asked|, replies, times, k, found);
          replies := replies[k := found];
          if !r.Ready? {
            return r, replies;
          }
        }
      }
      return Ready, replies;
    }

    /** `refresh`. */
    method ForgetPositions()
      requires Valid()
      modifies `world, `run, `shown, `lastSeqs
      ensures Valid() && SameShape(old(shown), shown) && shown.ledger == old(shown).ledger
      ensures |lastSeqs| == |old(lastSeqs)| && forall k :: 0 <= k < |lastSeqs| ==> lastSeqs[k] == None
      ensures Can(old(shown), Refresh) && shown == After(old(shown), Refresh) && run == old(run) + [W.Decide(Refresh)]
    {
      hide IsLawful, AllMade, LostCalls, After, Can;
      RefreshLeaves(shown);
      Take(Refresh);
      lastSeqs := seq(|lastSeqs|, _ => None);
    }

    /**
      One Add call: the chunk under way in shard k, to replica i; it gets there at point n of the
      run, in this world. Its reply is the replica's size.
      */
    method CallAdd(k: nat, i: nat) returns (reported: Option<nat>, ghost n: nat, ghost at: W.World<S>)
      requires Lawful() && k < |shown.groups|
      requires shown.groups[k].view.Writing? && i in shown.groups[k].view.pending && i < |shown.groups[k].replicas|
      modifies `calls, `made, `broken, `world, `run, `shown
      ensures Lawful() && OnlyView(old(shown), shown, k) && old(run) <= run
      ensures var before, view := old(shown).groups[k].view, shown.groups[k].view;
              && view.Writing? && view.n == before.n && view.batch == before.batch
              && view.pending == before.pending - {i}
              && if reported.Some? then
                   view.failed == before.failed
                   && i in view.acks && view.acks == before.acks[i := view.acks[i]]
                   && reported.value == |GlobalIds(view.acks[i].history)|
                 else view.failed && view.acks == before.acks
      ensures Was(at, n, |old(run)|)
      ensures reported.Some? <==> fates(old(calls)).Answered? && Takes(reader, at, k, i)
      ensures broken == if reported.Some? then old(broken) else old(broken) + 1
      ensures MadeSince(old(made), made, |old(run)|)
    {
      hide IsLawful, Passed, W.CanOccur, Safe, GlobalIds, OnlyView, R.Unseen, After, SameShape, AllMade, LostCalls,
           Takes;
      var fate := Elapse();
      UnseenIsOnly(old(shown), shown, k);
      OnlyViewCounts(old(shown), shown, k);
      InMind(reader, first, run, world, shown);
      WasHere(reader, first, run, world, shown);
      n, at := |run|, world;
      ghost var asked, waiting := run, shown;
      WriteIsDue(reader, first, run, world, shown, k, i);
      Count(Call(k, i, true, n, fate.Answered? && Takes(reader, world, k, i)));
      var crash := if fate.ReplyLost? then fate.crash else None;
      reported := None;
      if !fate.NotApplied? && W.CanOccur(world, W.Arrive(k, i, fate.Answered?, crash)) {
        reported := Land(k, i, fate.Answered?, crash);
      } else {
        MissIsOnly(shown, k, i);
        Take(Miss(k, i));
      }
      OnlyViewGoesOn(old(shown), waiting, shown, k);
      StillPassed(reader, first, asked, run, n, at);
    }

    /** An Add call gets to replica i of shard k. */
    method Land(k: nat, i: nat, acked: bool, crash: Option<nat>) returns (reported: Option<nat>)
      requires Lawful() && k < |shown.groups| && shown.groups[k].view.Writing? && (acked ==> crash == None)
      requires W.CanOccur(world, W.Arrive(k, i, acked, crash))
      modifies `world, `run, `shown
      ensures Lawful() && OnlyView(old(shown), shown, k) && run == old(run) + [W.Arrive(k, i, acked, crash)]
      ensures var before, view := old(shown).groups[k].view, shown.groups[k].view;
              && view.Writing? && view.n == before.n && view.batch == before.batch
              && view.pending == before.pending - {i}
              && if reported.Some? then
                   view.failed == before.failed
                   && i in view.acks && view.acks == before.acks[i := view.acks[i]]
                   && reported.value == |GlobalIds(view.acks[i].history)|
                 else view.failed && view.acks == before.acks
      ensures reported.Some? <==> acked && Takes(reader, old(world), k, i)
    {
      hide IsLawful, Passed, W.Next, W.ReplyTo, W.CanOccur, Safe, GlobalIds, R.IsAnswer, Measures, OnlyView,
           R.HasAnswered, After, SameShape, AllMade, LostCalls, Takes;
      InMind(reader, first, run, world, shown);
      Measured(reader, first, run, world, shown);
      var reply := W.ReplyTo(reader.engine, world, k, i, acked, crash);
      if acked {
        AnsweredIfTaken(reader, world, k, i);
      } else {
        Unanswered(reader, world, k, i, crash);
      }
      ghost var later := Arrived(reader, first, run, world, shown, k, i, acked, crash);
      AnswerSays(reader, shown.groups[k], i, reply, later.groups[k].view);
      AnswerIsOnly(shown, later, k, later.groups[k].view);
      StillMade(reader, first, run, run + [W.Arrive(k, i, acked, crash)], fates, made);
      world := W.Next(reader.engine, reader.nextId, world, W.Arrive(k, i, acked, crash));
      run := run + [W.Arrive(k, i, acked, crash)];
      shown := later;
      reported := if reply.Some? then Some(reader.count(reply.value)) else None;
    }

    /** All the Add calls for the chunk under way in shard k, each one waited for. */
    method CollectReplies(k: nat) returns (sizes: set<nat>, whole: bool)
      requires Lawful() && k < |shown.groups|
      requires var view := shown.groups[k].view;
               view.Writing? && !view.failed && view.acks == map[]
               && forall i: nat :: i in view.pending <==> i < |shown.groups[k].replicas|
      modifies `calls, `made, `broken, `world, `run, `shown
      ensures Lawful() && OnlyView(old(shown), shown, k) && old(run) <= run
      ensures var before, view := old(shown).groups[k].view, shown.groups[k].view;
              && view.Writing? && view.n == before.n && view.batch == before.batch
              && view.pending == {} && (whole <==> !view.failed)
      ensures whole ==> OneValue(sizes)
      ensures broken >= old(broken) && (whole <==> broken == old(broken))
      ensures MadeSince(old(made), made, |old(run)|)
    {
      hide Lawful, Tallied, OnlyView, SameShape, MadeSince;
      NoneMade(made, |run|);
      LawfulIsSafe();
      sizes, whole := {}, true;
      var replicas := |world.shards[k]|;
      NothingTallied(shown.groups[k].view, replicas);
      OnlyViewItself(shown, k);
      for i := 0 to replicas
        invariant Lawful() && OnlyView(old(shown), shown, k) && old(run) <= run
        invariant MadeSince(old(made), made, |old(run)|)
        invariant |shown.groups| == |old(shown).groups| && |shown.groups[k].replicas| == replicas
        invariant var before, view := old(shown).groups[k].view, shown.groups[k].view;
                  view.Writing? && view.n == before.n && view.batch == before.batch
        invariant Tallied(shown.groups[k].view, i, replicas, sizes, whole)
        invariant broken >= old(broken) && (whole <==> broken == old(broken))
      {
        ghost var was, before, calls := shown, run, made;
        StillPending(was.groups[k].view, i, replicas, sizes, whole);
        var reported, _, _ := CallAdd(k, i);
        MadeSinceThen(old(made), calls, made, |old(run)|, |before|);
        OnlyViewCounts(was, shown, k);
        OnlyViewGoesOn(old(shown), was, shown, k);
        TallyOne(was.groups[k].view, shown.groups[k].view, i, replicas, sizes, whole, reported);
        if reported.Some? {
          sizes := sizes + {reported.value};
        } else {
          whole := false;
        }
      }
      AllTallied(shown.groups[k].view, replicas, sizes, whole);
      LawfulIsSafe();
      OneSize(shown, k, sizes);
    }

    /**
      One round of `add`: every shard's next chunk to all its replicas, all replies waited
      for, and the verdict. On failure every position is forgotten.
      */
    method SendRound(shares: seq<seq<Placed>>, dim: u32, per: nat, from: nat)
        returns (failure: bool, reported: map<nat, set<nat>>)
      requires Lawful() && shown.activity.Adding? && AllKnown(shown) && !NothingLeft(shown) && per > 0
      requires LeftToSend(shown, shares, dim, per, from)
      modifies `calls, `made, `broken, `world, `run, `shown
      ensures Lawful() && SameShape(old(shown), shown) && shown.size == old(shown).size && old(run) <= run
      ensures broken >= old(broken) && (failure <==> broken > old(broken))
      ensures failure ==> RoundFailed(old(shown), shown)
      ensures !failure ==>
        RoundSucceeded(old(shown), shown, shares, dim, per, from) && OneSizeEach(shares, from, reported)
      ensures MadeSince(old(made), made, |old(run)|)
    {
      hide Lawful, LeftToSend, RoundSoFar, JustSent,
           RoundFailed, RoundSucceeded, AllReplied, After, Can, IsOnItsWay, Safe, AllKnown, NothingLeft, OneValue,
           Requests, Slice, SomeFailed, SameShape, OneSizeEach, MadeSince;
      NoneMade(made, |run|);
      CanSend(shown, shares, dim, per, from);
      ghost var before := shown;
      SentChunks(shown, shares, dim, per, from);
      Take(SendChunks);
      ghost var sent, lost, calls, since := shown, broken, made, |run|;
      assert lost == old(broken);
      failure, reported := AwaitReplies(shares, dim, per, from);
      MadeSinceThen(calls, calls, made, |old(run)|, since);
      assert broken >= lost && (failure <==> broken > lost);
      SameNumbers(sent, shown);
      RoundEnds(sent, shown, failure);
      ShapeStays(before, sent, shown);
      LawfulIsSafe();
      CanFinish(shown);
      FinishRound(before, sent, shown, failure, shares, dim, per, from);
      ghost var replied := shown;
      ghost var lostNow := broken;
      Take(FinishChunks);
      assert broken == lostNow;
      ShapeStays(before, replied, shown);
    }

    /** The cluster shown has the world's shards and replicas, and the coordinator knows of them what it knows there. */
    lemma LawfulIsSafe()
      requires Lawful()
      ensures Safe(shown) && |world.shards| == |world.mind.groups| == |shown.groups|
      ensures forall k :: 0 <= k < |shown.groups| ==>
                && |world.shards[k]| == |shown.groups[k].replicas| > 0
                && (shown.groups[k].view.Checking? ==> world.mind.groups[k].view == shown.groups[k].view)
    {
      hide IsLawful, Safe;
      InMind(reader, first, run, world, shown);
    }

    /** The second half of the round: wait for every call, remembering whether any failed. */
    method AwaitReplies(shares: seq<seq<Placed>>, dim: u32, per: nat, from: nat)
        returns (failure: bool, reported: map<nat, set<nat>>)
      requires Lawful() && |shown.groups| == |shares| && per > 0
      requires forall k :: 0 <= k < |shares| ==> IsOnItsWay(shown, k, dim, Slice(shares[k], from, per))
      modifies `calls, `made, `broken, `world, `run, `shown
      ensures Lawful() && SameShape(old(shown), shown) && old(run) <= run
      ensures shown == old(shown).(groups := shown.groups)
      ensures RoundSoFar(old(shown), shown, |shares|, failure)
      ensures broken >= old(broken) && (failure <==> broken > old(broken))
      ensures !failure ==> OneSizeEach(shares, from, reported)
      ensures MadeSince(old(made), made, |old(run)|)
    {
      hide Lawful, RoundSoFar, MadeSince;
      NoneMade(made, |run|);
      failure, reported := false, map[];
      NoneReplied(shown);
      for k := 0 to |shares|
        invariant Lawful() && SameShape(old(shown), shown)
        invariant MadeSince(old(made), made, |old(run)|)
        invariant shown == old(shown).(groups := shown.groups) && old(run) <= run
        invariant RoundSoFar(old(shown), shown, k, failure)
        invariant broken >= old(broken) && (failure <==> broken > old(broken))
        invariant forall j :: 0 <= j < k ==>
          if from < |shares[j]| then j in reported && (!failure ==> OneValue(reported[j]))
          else j !in reported
        invariant forall j :: j in reported ==> j < k
      {
        NotYetReached(old(shown), shown, k, failure);
        ghost var was, before, calls := shown, run, made;
        var chunk := Slice(shares[k], from, per);
        assert IsOnItsWay(old(shown), k, dim, chunk);
        if chunk == [] {
          SkipShard(old(shown), shown, k, failure);
        } else {
          var sizes, whole := CollectReplies(k);
          MadeSinceThen(old(made), calls, made, |old(run)|, |before|);
          ShardReplied(old(shown), was, shown, k, failure);
          reported := reported[k := sizes];
          failure := failure || !whole;
        }
      }
    }

    /**
      Take over the sizes the replicas reported, and move every shard that was written to on
      by one; unless the replicas of some shard reported different sizes.
      */
    method NoteReplies(reported: map<nat, set<nat>>) returns (r: AddResult)
      requires |lastSeqs| == |shardSizes|
      requires forall k: nat :: k in reported && k < |lastSeqs| ==> lastSeqs[k].Some? && reported[k] != {}
      modifies `shardSizes, `lastSeqs
      ensures |lastSeqs| == |shardSizes| == |old(lastSeqs)|
      ensures r.Indexed? || (r.Diverged? && r.shard < |lastSeqs| && r.shard in reported && |reported[r.shard]| > 1)
      ensures r.Indexed? ==> forall k: nat :: k < |lastSeqs| ==>
                lastSeqs[k] == if k in reported then Some(old(lastSeqs)[k].value + 1) else old(lastSeqs)[k]
      ensures r.Indexed? ==> forall k: nat :: k < |lastSeqs| && k in reported ==> reported[k] == {shardSizes[k]}
    {
      for k := 0 to |lastSeqs|
        invariant |lastSeqs| == |shardSizes| == |old(lastSeqs)|
        invariant forall j: nat :: j < |lastSeqs| ==>
          lastSeqs[j] == if j < k && j in reported then Some(old(lastSeqs)[j].value + 1) else old(lastSeqs)[j]
        invariant forall j: nat :: j < k && j in reported ==> reported[j] == {shardSizes[j]}
      {
        if k in reported {
          if |reported[k]| > 1 {
            return Diverged(k);
          }
          var size :| size in reported[k];
          OnlyMember(reported[k], size);
          shardSizes := shardSizes[k := size];
          lastSeqs := lastSeqs[k := Some(lastSeqs[k].value + 1)];
        }
      }
      return Indexed;
    }

    /** After a round that succeeded, what the replies say is where the shards now are. */
    method NoteRound(ghost shares: seq<seq<Placed>>, ghost from: nat, reported: map<nat, set<nat>>)
        returns (r: AddResult)
      requires |lastSeqs| == |shardSizes|
      requires MovedOn(shown, shares, from, lastSeqs) && OneSizeEach(shares, from, reported)
      modifies `shardSizes, `lastSeqs
      ensures r.Indexed? && |lastSeqs| == |shardSizes| == |old(lastSeqs)| == |shown.groups|
      ensures forall k :: 0 <= k < |lastSeqs| ==> lastSeqs[k] == Believed(shown.groups[k].view)
    {
      hide MovedOn, OneSizeEach, OneValue, Believed;
      RepliesAgree(shares, from, reported);
      KnewAll(shown, shares, from, lastSeqs);
      ghost var seqs := lastSeqs;
      r := NoteReplies(reported);
      InStepAgain(shown, shares, from, reported, seqs, lastSeqs);
    }

    /** One round, and what the coordinator makes of it. */
    method SendNext(shares: seq<seq<Placed>>, dim: u32, per: nat, from: nat) returns (r: AddResult)
      requires Lawful() && Mirrors() && shown.activity.Adding? && AllKnown(shown) && per > 0
      requires LeftToSend(shown, shares, dim, per, from) && SentSoFar(shown, shares, dim, per, from)
      requires from < Longest(shares)
      modifies `calls, `made, `broken, `world, `run, `shown, `shardSizes, `lastSeqs
      ensures Lawful() && Mirrors() && SameShape(old(shown), shown) && |lastSeqs| == |old(lastSeqs)| && old(run) <= run
      ensures old(shown).ledger <= shown.ledger && size == old(size)
      ensures r.Indexed? || r.WriteFailed?
      ensures broken >= old(broken) && (r.WriteFailed? <==> broken > old(broken))
      ensures r.WriteFailed? ==> shown.activity.Idle? && forall k :: 0 <= k < |lastSeqs| ==> lastSeqs[k] == None
      ensures r.Indexed? ==>
        && shown.activity.Adding? && AllKnown(shown)
        && LeftToSend(shown, shares, dim, per, from + per) && SentSoFar(shown, shares, dim, per, from + per)
      ensures MadeSince(old(made), made, |old(run)|)
    {
      hide Lawful, LeftToSend, Safe, SentSoFar, RoundSucceeded,
           RoundFailed, SameShape, AllKnown, NothingLeft, Longest, Lawful, OneValue, OneSizeEach, MovedOn, Believed,
           MadeSince;
      SomethingLeft(shown, shares, dim, per, from);
      ghost var before := shown;
      var failure, reported := SendRound(shares, dim, per, from);
      SameNumbers(before, shown);
      if failure {
        AfterFailure(before, shown);
        lastSeqs := seq(|lastSeqs|, _ => None);
        return WriteFailed;
      }
      AfterSuccess(before, shown, shares, dim, per, from, lastSeqs);
      r := NoteRound(shares, from, reported);
    }

    /**
      The rounds of `add`: `from` runs over range(0, longest, per_request). When all succeed,
      every request of every share is in the ledger.
      */
    method SendAll(shares: seq<seq<Placed>>, dim: u32, per: nat) returns (r: AddResult)
      requires Lawful() && Mirrors() && shown.activity.Adding? && AllKnown(shown) && per > 0
      requires LeftToSend(shown, shares, dim, per, 0)
      modifies `calls, `made, `broken, `world, `run, `shown, `shardSizes, `lastSeqs
      ensures Valid() && SameShape(old(shown), shown) && |lastSeqs| == |old(lastSeqs)| && old(run) <= run
      ensures old(shown).ledger <= shown.ledger && size == old(size)
      ensures r.Indexed? || r.WriteFailed?
      ensures broken >= old(broken) && (r.WriteFailed? <==> broken > old(broken))
      ensures r.WriteFailed? ==> forall k :: 0 <= k < |lastSeqs| ==> lastSeqs[k] == None
      ensures r.Indexed? ==> Stored(shown, shares, dim, per)
      ensures MadeSince(old(made), made, |old(run)|)
    {
      hide Lawful, LeftToSend, Safe, SentSoFar, RoundSucceeded,
           RoundFailed, OneValue, SameShape, AllKnown, Longest, Stored, MadeSince;
      NoneMade(made, |run|);
      var longest := Longest(shares);
      var from := 0;
      NothingSentYet(shown, shares, dim, per);
      SameShapeItself(shown);
      r := Indexed;
      while from < longest && r.Indexed?
        invariant Lawful() && Mirrors() && SameShape(old(shown), shown) && |lastSeqs| == |old(lastSeqs)|
        invariant old(shown).ledger <= shown.ledger && size == old(size) && old(run) <= run
        invariant MadeSince(old(made), made, |old(run)|)
        invariant r.Indexed? || r.WriteFailed?
        invariant broken >= old(broken) && (r.WriteFailed? <==> broken > old(broken))
        invariant r.WriteFailed? ==> shown.activity.Idle? && forall k :: 0 <= k < |lastSeqs| ==> lastSeqs[k] == None
        invariant r.Indexed? ==>
          && shown.activity.Adding? && AllKnown(shown)
          && LeftToSend(shown, shares, dim, per, from) && SentSoFar(shown, shares, dim, per, from)
        decreases longest - from
      {
        ghost var before, since, calls := shown, run, made;
        r := SendNext(shares, dim, per, from);
        MadeSinceThen(old(made), calls, made, |old(run)|, |since|);
        ShapeStays(old(shown), before, shown);
        from := from + per;
      }
      if r.Indexed? {
        ghost var before := shown;
        EndAdd(shares, dim, per, from);
        ShapeStays(old(shown), before, shown);
      }
    }

    /** After the last round. */
    method EndAdd(ghost shares: seq<seq<Placed>>, ghost dim: u32, ghost per: nat, ghost from: nat)
      requires Lawful() && Mirrors() && shown.activity.Adding? && AllKnown(shown) && per > 0 && from >= Longest(shares)
      requires LeftToSend(shown, shares, dim, per, from) && SentSoFar(shown, shares, dim, per, from)
      modifies `world, `run, `shown
      ensures Valid() && SameShape(old(shown), shown) && old(run) <= run && shown.ledger == old(shown).ledger
      ensures Stored(shown, shares, dim, per)
    {
      hide Lawful, LeftToSend, Safe, SentSoFar, SameShape, AllKnown, Longest, Stored;
      ghost var before := shown;
      EverythingSent(shown, shares, dim, per, from);
      Take(FinishAdd);
      StillStored(before, shown, shares, dim, per);
    }

    lemma IdleViews()
      requires Valid()
      ensures |shown.groups| == |lastSeqs| && shown.size == size && shown.activity.Idle?
      ensures forall k :: 0 <= k < |shown.groups| && lastSeqs[k].Some? ==> shown.groups[k].view.Known?
    {
    }

    /** The rows get their ids and shards, and what is to be sent is laid out. */
    method BeginAdd(rows: seq<Row>, dim: u32, target: Option<nat>) returns (shares: seq<seq<Placed>>)
      requires Valid() && dim > 0 && |lastSeqs| > 0 && (target.Some? ==> target.value < |lastSeqs|)
      requires Uniform(rows, dim) && size + |rows| <= ID_LIMIT && forall k :: 0 <= k < |lastSeqs| ==> lastSeqs[k].Some?
      modifies `world, `run, `shown, `size
      ensures Lawful() && Mirrors() && shown.activity.Adding? && AllKnown(shown)
      ensures LeftToSend(shown, shares, dim, PerRequest(dim, rows), 0) && old(run) <= run
      ensures SameShape(old(shown), shown) && shown.ledger == old(shown).ledger && size == old(size) + |rows|
      ensures Spread(rows, old(size), shares) && OnRightShards(shares, target) && WithinLimits(rows, dim, shares)
    {
      hide Lawful, Spread, SameShape, PerRequest, Fresh, LeftToSend, WithinLimits, Uniform, OnRightShards;
      var per := PerRequest(dim, rows);
      shares := Route(rows, |lastSeqs|, target, size);
      RequestsWithinLimits(rows, dim, size, shares);
      ghost var ready := shown;
      var batches := shares;
      var requests := seq(|batches|, k requires 0 <= k < |batches| => Requests(dim, batches[k], per));
      IdleViews();
      CanStart(shown, rows, dim, per, batches);
      Take(StartAdd(requests, size + |rows|));
      Started(ready, rows, dim, per, batches);
      size := size + |rows|;
    }

    lemma LawfulNow()
      requires Lawful()
      ensures IsLawful(reader, first, run, world, shown) && broken == LostCalls(made)
    {
    }

    /** What is known once the shards are checked, for the rest of `add`. */
    method CheckFirst() returns (r: CheckResult, ghost replies: map<nat, seq<Found>>)
      requires Valid()
      modifies `calls, `made, `broken, `world, `run, `shown, `size, `lastSeqs
      ensures Valid() && |lastSeqs| == |old(lastSeqs)| && old(run) <= run && world.ledger == old(world).ledger
      ensures size >= old(size)
      ensures MadeSince(old(made), made, |old(run)|) && (r.NoStatus? <==> SomeLost(made, |old(made)|))
      ensures AllWereReplies(reader, first, run, |old(run)|, replies)
      ensures OfUnknown(old(lastSeqs), old(world).shards, replies)
      ensures !r.NoStatus? ==> CoversReplies(replies, old(size), size)
      ensures !r.Ready? ==> r.shard < |lastSeqs| && lastSeqs[r.shard] == None
      ensures r.Ready? ==> AllAgree(old(lastSeqs), replies) && forall k :: 0 <= k < |lastSeqs| ==> lastSeqs[k].Some?
      ensures r.NotInSync? ==> Disagree(replies, r.shard, r.seqs)
    {
      hide Lawful, IsLawful, SameShape, CoversReplies, AllWereReplies, InAgreement, Differ, SeqsOf, MadeSince, SomeLost;
      LawfulNow();
      LawfulIsSafe();
      ghost var before, at, was, calls := run, world, shown, made;
      r, replies := CheckShards();
      LawfulNow();
      SameRecord(reader, first, before, at, was, run, world, shown);
      CallsLost(calls, made, |before|);
    }

    /**
      `add`. It fails for want of an answer if and only if some call made brought none; as out of
      sync if and only if the replicas of a shard it asked disagree, with what they reported; and
      for want of ids if and only if there are not enough. Otherwise it returns with every row
      under its own id, and every request it went out in on record: acknowledged by every replica
      of its shard. When it fails before sending anything, nothing is put on record; when a chunk
      failed, every position is forgotten. Replicas that acknowledge one chunk never report
      different sizes. Whatever happens goes on from the run there was.
      */
    method Add(rows: seq<Row>, dim: u32, target: Option<nat>)
        returns (r: AddResult, ghost shares: seq<seq<Placed>>, ghost replies: map<nat, seq<Found>>)
      requires Valid() && dim > 0 && |lastSeqs| > 0 && (target.Some? ==> target.value < |lastSeqs|)
      requires Uniform(rows, dim)
      modifies `calls, `made, `broken, `world, `run, `shown, `size, `shardSizes, `lastSeqs
      ensures Valid() && |lastSeqs| == |old(lastSeqs)| && old(run) <= run
      ensures old(world).ledger <= world.ledger && old(size) <= size
      ensures MadeSince(old(made), made, |old(run)|)
      ensures rows == [] ==> r.Indexed? && world == old(world) && made == old(made)
      ensures !r.Diverged?
      ensures r.Unavailable? || r.WriteFailed? <==> SomeLost(made, |old(made)|)
      ensures AllWereReplies(reader, first, run, |old(run)|, replies)
      ensures OfUnknown(old(lastSeqs), old(world).shards, replies)
      ensures r.OutOfSync? ==> Disagree(replies, r.shard, r.seqs)
      ensures r.IdsExhausted? ==> !Room(replies, old(size), |rows|)
      ensures rows != [] && (r.Indexed? || r.WriteFailed?) ==>
                AllAgree(old(lastSeqs), replies) && CoversReplies(replies, old(size), size - |rows|) && size <= ID_LIMIT
      ensures !SomeLost(made, |old(made)|) && InSync(replies) && Room(replies, old(size), |rows|) ==> r.Indexed?
      ensures r.Unavailable? ==> r.shard < |lastSeqs| && lastSeqs[r.shard] == None
      ensures r.Unavailable? || r.OutOfSync? || r.IdsExhausted? ==> world.ledger == old(world).ledger
      ensures r.WriteFailed? ==> forall k :: 0 <= k < |lastSeqs| ==> lastSeqs[k] == None
      ensures r.Indexed? && rows != [] ==>
        && old(size) <= size - |rows| && Spread(rows, size - |rows|, shares)
        && AllOnRecord(world, shares, dim, PerRequest(dim, rows))
        && OnRightShards(shares, target) && WithinLimits(rows, dim, shares)
    {
      hide Lawful, IsLawful, Safe, Spread, Stored, SameShape, PerRequest, Fresh, LeftToSend, WithinLimits, Uniform,
           CoversReplies, AllWereReplies, InAgreement, Differ, SeqsOf, OnRightShards, AllOnRecord, MadeSince, SomeLost,
           Room, InSync, Disagree, AllAgree, OfUnknown;
      shares, replies := [], map[];
      NoneMade(made, |run|);
      NoneLost(made);
      NothingAsked(reader, first, run, |run|, lastSeqs, world.shards);
      if rows == [] {
        return Indexed, shares, replies;
      }
      ghost var calls, free, since := made, size, |run|;
      var checked;
      checked, replies := CheckFirst();
      match checked {
        case NoStatus(k) => return Unavailable(k), shares, replies;
        case NotInSync(k, seqs) =>
          NotAllInSync(replies, k, seqs);
          return OutOfSync(k, seqs), shares, replies;
        case Ready =>
      }
      RoomLeft(replies, free, size, |rows|);
      if size + |rows| > ID_LIMIT {
        return IdsExhausted, shares, replies;
      }
      LawfulNow();
      ghost var before, at, was, more := run, world, shown, made;
      var batches := BeginAdd(rows, dim, target);
      ghost var begun := |run|;
      shares := batches;
      r := SendAll(batches, dim, PerRequest(dim, rows));
      LawfulNow();
      SameRecord(reader, first, before, at, was, run, world, shown);
      AllStay(reader, first, before, run, since, replies);
      CallsLost(calls, more, since);
      CallsLost(more, made, begun);
      MadeSinceThen(calls, more, made, since, begun);
      CallsLost(calls, made, since);
      if r.Indexed? {
        StoredOnRecord(reader, first, run, world, shown, batches, dim, PerRequest(dim, rows));
      }
    }
  }

  method Route(rows: seq<Row>, n: nat, target: Option<nat>, start: nat) returns (shares: seq<seq<Placed>>)
    requires n > 0 && start + |rows| <= ID_LIMIT && (target.Some? ==> target.value < n)
    ensures |shares| == n && Spread(rows, start, shares) && OnRightShards(shares, target)
  {
    hide Spread;
    if target.None? {
      shares := RouteRoundRobin(rows, n, start);
    } else {
      shares := RouteToShard(rows, n, target.value, start);
    }
  }

  /** Vectors go round robin by id, or all to the one shard given. */
  ghost predicate OnRightShards(shares: seq<seq<Placed>>, target: Option<nat>) {
    forall k, p :: 0 <= k < |shares| && p in shares[k] ==>
      if target.None? then p.id % |shares| == k else k == target.value
  }

  /** A request of several rows keeps within MAX_ADD_BYTES, and replicas can log them all, if each row alone fits. */
  ghost predicate WithinLimits(rows: seq<Row>, dim: u32, shares: seq<seq<Placed>>)
    requires dim > 0
  {
    forall k: nat, j: nat :: k < |shares| && j < |Requests(dim, shares[k], PerRequest(dim, rows))| ==>
      var b := Requests(dim, shares[k], PerRequest(dim, rows))[j];
      (|b.ids| > 1 ==> RequestBytes(b) <= MAX_ADD_BYTES) && (Fit(rows, dim) ==> Loggable(b))
  }

  lemma RequestsWithinLimits(rows: seq<Row>, dim: u32, start: int, shares: seq<seq<Placed>>)
    requires dim > 0 && Uniform(rows, dim) && Spread(rows, start, shares)
    ensures WithinLimits(rows, dim, shares)
  {
    var per := PerRequest(dim, rows);
    hide Requests, PerRequest, Loggable, RequestBytes, Lands, InIdOrder, Uniform, Fit;
    forall k: nat, j: nat | k < |shares| && j < |Requests(dim, shares[k], per)|
      ensures var b := Requests(dim, shares[k], per)[j];
              (|b.ids| > 1 ==> RequestBytes(b) <= MAX_ADD_BYTES) && (Fit(rows, dim) ==> Loggable(b))
    {
      assert FromRows(rows, start, shares[k]);
      RequestWithinLimits(rows, dim, shares[k], j);
    }
  }

  /** A new add's requests are fresh: their ids run from the coordinator's next free one. */
  lemma CanStart(w: Cluster, rows: seq<Row>, dim: u32, per: nat, shares: seq<seq<Placed>>)
    requires per > 0 && w.activity.Idle? && |shares| == |w.groups|
    requires forall k :: 0 <= k < |w.groups| ==> w.groups[k].view.Known?
    requires Spread(rows, w.size, shares)
    ensures Can(w, StartAdd(seq(|shares|, k requires 0 <= k < |shares| => Requests(dim, shares[k], per)),
                            w.size + |rows|))
  {
    var requests := seq(|shares|, k requires 0 <= k < |shares| => Requests(dim, shares[k], per));
    assert Fresh(w, requests, w.size + |rows|) by {
      hide Requests, InIdOrder, Lands;
      forall k | 0 <= k < |requests|
        ensures Increasing(requests[k])
        ensures forall id :: HasId(requests[k], id) ==> exists p :: p in shares[k] && p.id == id
      {
        RequestsIncrease(dim, shares[k], per);
      }
      hide Increasing, HasId;
      forall k, id | 0 <= k < |requests| && HasId(requests[k], id)
        ensures w.size <= id < w.size + |rows|
      {
        var p :| p in shares[k] && p.id == id;
        assert FromRows(rows, w.size, shares[k]);
      }
      forall k, l, id | 0 <= k < |requests| && 0 <= l < |requests| && k != l && HasId(requests[k], id)
        ensures !HasId(requests[l], id)
      {
        var p :| p in shares[k] && p.id == id;
      }
    }
  }

  lemma Started(w: Cluster, rows: seq<Row>, dim: u32, per: nat, shares: seq<seq<Placed>>)
    requires per > 0 && |shares| == |w.groups|
    requires var requests := seq(|shares|, k requires 0 <= k < |shares| => Requests(dim, shares[k], per));
             Can(w, StartAdd(requests, w.size + |rows|))
    ensures var requests := seq(|shares|, k requires 0 <= k < |shares| => Requests(dim, shares[k], per));
            var begun := After(w, StartAdd(requests, w.size + |rows|));
            && begun.activity.Adding? && AllKnown(begun) && LeftToSend(begun, shares, dim, per, 0)
            && begun.groups == w.groups && begun.ledger == w.ledger && begun.size == w.size + |rows|
  {
    assert forall k :: 0 <= k < |shares| ==> DropFrom(shares[k], 0) == shares[k];
  }

  // ---------------------------------------------------------------- a check

  lemma StartCheckLeaves(w: Cluster, k: nat)
    requires Safe(w) && w.activity.Idle? && k < |w.groups| && !w.groups[k].view.Known?
    ensures Can(w, StartCheck(k))
    ensures var later := After(w, StartCheck(k));
            && later.activity == Inspecting(k) && later.size == w.size && later.ledger == w.ledger
            && |later.groups| == |w.groups| && later.groups[k].view == Checking([])
            && forall j :: 0 <= j < |w.groups| && j != k ==> later.groups[j].view == w.groups[j].view
  {
    hide Sound, IdsFit, Disjoint;
  }

  lemma FinishCheckLeaves(w: Cluster, k: nat)
    requires Safe(w) && k < |w.groups| && w.activity == Inspecting(k) && w.groups[k].view.Checking?
    requires |w.groups[k].view.found| == |w.groups[k].replicas| > 0
    ensures Can(w, FinishCheck)
    ensures var later, found := After(w, FinishCheck), w.groups[k].view.found;
            && later.activity == Idle && later.size == Largest(found, w.size) >= w.size && later.ledger == w.ledger
            && |later.groups| == |w.groups|
            && Believed(later.groups[k].view) == (if InAgreement(found) then Some(found[0].lastSeq) else None)
            && forall j :: 0 <= j < |w.groups| && j != k ==> later.groups[j].view == w.groups[j].view
  {
    hide Sound, IdsFit, Disjoint;
  }

  lemma SeqsDiffer(found: seq<Found>)
    requires !InAgreement(found)
    ensures Differ(SeqsOf(found))
  {
    var i :| 0 <= i < |found| && found[i].lastSeq != found[0].lastSeq;
    assert SeqsOf(found)[i] != SeqsOf(found)[0];
  }

  // ---------------------------------------------------------------- all rounds

  function Longest(shares: seq<seq<Placed>>): (n: nat)
    ensures forall share :: share in shares ==> |share| <= n
    ensures n > 0 ==> exists share :: share in shares && |share| == n
  {
    if shares == [] then 0
    else
      var n := Longest(shares[1..]);
      if |shares[0]| > n then |shares[0]| else n
  }

  lemma OnlyMember(s: set<nat>, x: nat)
    requires x in s && |s| <= 1
    ensures s == {x}
  {
    assert s == {x} + (s - {x});
    assert |s - {x}| == |s| - 1;
  }

  ghost predicate AllRecorded(w: Cluster, k: nat, share: seq<Placed>, dim: u32, per: nat)
    requires per > 0
  {
    forall j :: 0 <= j < |Requests(dim, share, per)| ==> Recorded(w, k, Requests(dim, share, per)[j])
  }

  /** Of share k, what came before `from` is recorded, and what is left is the rest of its requests. */
  ghost predicate ShareSoFar(w: Cluster, k: nat, share: seq<Placed>, dim: u32, per: nat, from: nat)
    requires per > 0
  {
    var all, left := Requests(dim, share, per), Requests(dim, DropFrom(share, from), per);
    && |left| <= |all| && all[|all| - |left|..] == left
    && forall j :: 0 <= j < |all| - |left| ==> Recorded(w, k, all[j])
  }

  ghost predicate SentSoFar(w: Cluster, shares: seq<seq<Placed>>, dim: u32, per: nat, from: nat)
    requires per > 0
  {
    |shares| == |w.groups| && forall k :: 0 <= k < |shares| ==> ShareSoFar(w, k, shares[k], dim, per, from)
  }

  lemma NothingSentYet(w: Cluster, shares: seq<seq<Placed>>, dim: u32, per: nat)
    requires per > 0 && LeftToSend(w, shares, dim, per, 0)
    ensures SentSoFar(w, shares, dim, per, 0)
  {
  }

  lemma SameShapeItself(w: Cluster)
    ensures SameShape(w, w)
  {
  }

  lemma SomethingLeft(w: Cluster, shares: seq<seq<Placed>>, dim: u32, per: nat, from: nat)
    requires per > 0 && LeftToSend(w, shares, dim, per, from) && from < Longest(shares)
    ensures !NothingLeft(w)
  {
    var share :| share in shares && |share| == Longest(shares);
    var k :| 0 <= k < |shares| && shares[k] == share;
    NextRequest(dim, shares[k], per, from);
    assert w.todo[k] != [];
  }

  lemma AfterFailure(w: Cluster, later: Cluster)
    requires RoundFailed(w, later)
    ensures later.ledger == w.ledger && later.activity.Idle?
    ensures forall k :: 0 <= k < |later.groups| ==> Believed(later.groups[k].view) == None
  {
  }

  lemma StillRecorded(w: Cluster, later: Cluster, k: nat, chunk: Batch)
    requires Recorded(w, k, chunk) && w.ledger <= later.ledger && SameShape(w, later)
    ensures Recorded(later, k, chunk)
  {
    var n :| 0 <= n < |w.ledger| && RecordedAt(w, n, k, chunk);
    assert RecordedAt(later, n, k, chunk);
  }

  lemma ShareMovesOn(w: Cluster, later: Cluster, k: nat, share: seq<Placed>, dim: u32, per: nat, from: nat)
    requires per > 0 && ShareSoFar(w, k, share, dim, per, from)
    requires w.ledger <= later.ledger && SameShape(w, later)
    requires from < |share| ==> Recorded(later, k, Request(dim, Slice(share, from, per)))
    ensures ShareSoFar(later, k, share, dim, per, from + per)
  {
    hide Recorded, Requests, SameShape, Request, Slice, DropFrom;
    NextRequest(dim, share, per, from);
    var all, left := Requests(dim, share, per), Requests(dim, DropFrom(share, from), per);
    StillAllRecorded(w, later, k, all, |all| - |left|);
    if from < |share| {
      ShorterTail(all, left);
    } else {
      NextRequest(dim, share, per, from + per);
    }
  }

  lemma StillAllRecorded(w: Cluster, later: Cluster, k: nat, all: History, upto: nat)
    requires w.ledger <= later.ledger && SameShape(w, later) && upto <= |all|
    requires forall j :: 0 <= j < upto ==> Recorded(w, k, all[j])
    ensures forall j :: 0 <= j < upto ==> Recorded(later, k, all[j])
  {
    hide Recorded, SameShape;
    forall j | 0 <= j < upto
      ensures Recorded(later, k, all[j])
    {
      StillRecorded(w, later, k, all[j]);
    }
  }

  lemma ShorterTail(all: History, left: History)
    requires |left| <= |all| && all[|all| - |left|..] == left && left != []
    ensures all[|all| - |left|] == left[0] && all[|all| - |left[1..]|..] == left[1..]
  {
  }

  lemma AfterSuccess(w: Cluster, later: Cluster, shares: seq<seq<Placed>>, dim: u32, per: nat, from: nat,
                     seqs: seq<Option<nat>>)
    requires per > 0 && RoundSucceeded(w, later, shares, dim, per, from) && SentSoFar(w, shares, dim, per, from)
    requires SameShape(w, later)
    requires |seqs| == |w.groups| && forall k :: 0 <= k < |seqs| ==> seqs[k] == Believed(w.groups[k].view)
    ensures later.activity.Adding? && AllKnown(later) && w.ledger <= later.ledger
    ensures LeftToSend(later, shares, dim, per, from + per) && SentSoFar(later, shares, dim, per, from + per)
    ensures MovedOn(later, shares, from, seqs)
  {
    hide Recorded, Requests, SameShape, NothingLeft;
    NextRound(w, later, shares, dim, per, from);
    assert w.ledger <= later.ledger && |w.groups| == |later.groups| == |later.todo| == |shares|;
    forall k | 0 <= k < |shares|
      ensures ShareSoFar(later, k, shares[k], dim, per, from + per)
      ensures seqs[k].Some?
      ensures Believed(later.groups[k].view) == if from < |shares[k]| then Some(seqs[k].value + 1) else seqs[k]
    {
      assert ShardFinished(w, later, k, shares[k], dim, per, from) && ShareSoFar(w, k, shares[k], dim, per, from);
      hide RoundSucceeded, SentSoFar, ShardFinished, ShareSoFar, Believed, LeftToSend, AllKnown;
      ShardMovesOn(w, later, k, shares[k], dim, per, from, seqs[k]);
    }
    hide RoundSucceeded, ShareSoFar, Believed, LeftToSend, AllKnown, ShardFinished;
  }

  /** The shards written to in this round are one write further than `seqs`. */
  ghost predicate MovedOn(w: Cluster, shares: seq<seq<Placed>>, from: nat, seqs: seq<Option<nat>>) {
    && |w.groups| == |seqs| == |shares|
    && forall k :: 0 <= k < |seqs| ==>
         && seqs[k].Some?
         && Believed(w.groups[k].view) == if from < |shares[k]| then Some(seqs[k].value + 1) else seqs[k]
  }

  lemma KnewAll(w: Cluster, shares: seq<seq<Placed>>, from: nat, seqs: seq<Option<nat>>)
    requires MovedOn(w, shares, from, seqs)
    ensures |seqs| == |shares| && forall k :: 0 <= k < |seqs| ==> seqs[k].Some?
  {
  }

  /** What the coordinator takes from the replies is where the shards now are. */
  lemma InStepAgain(w: Cluster, shares: seq<seq<Placed>>, from: nat, reported: map<nat, set<nat>>,
                    seqs: seq<Option<nat>>, later: seq<Option<nat>>)
    requires MovedOn(w, shares, from, seqs) && |later| == |seqs| && OneSizeEach(shares, from, reported)
    requires forall k: nat :: k < |seqs| && k in reported ==> seqs[k].Some?
    requires forall k: nat :: k < |later| ==>
               later[k] == if k in reported then Some(seqs[k].value + 1) else seqs[k]
    ensures |w.groups| == |later| && forall k :: 0 <= k < |later| ==> later[k] == Believed(w.groups[k].view)
  {
    RepliesAgree(shares, from, reported);
    hide OneSizeEach, Believed;
  }

  lemma ShardMovesOn(w: Cluster, later: Cluster, k: nat, share: seq<Placed>, dim: u32, per: nat, from: nat,
                     lastSeq: Option<nat>)
    requires per > 0 && k < |w.groups| == |later.groups| == |later.todo|
    requires ShardFinished(w, later, k, share, dim, per, from) && ShareSoFar(w, k, share, dim, per, from)
    requires w.ledger <= later.ledger && SameShape(w, later) && lastSeq == Believed(w.groups[k].view)
    ensures ShareSoFar(later, k, share, dim, per, from + per) && lastSeq.Some?
    ensures Believed(later.groups[k].view) == if from < |share| then Some(lastSeq.value + 1) else lastSeq
  {
    hide Recorded, Requests, SameShape, ShareSoFar;
    ShareMovesOn(w, later, k, share, dim, per, from);
  }

  /** Every request of every share is in the ledger. */
  ghost predicate Stored(w: Cluster, shares: seq<seq<Placed>>, dim: u32, per: nat)
    requires per > 0
  {
    |shares| == |w.groups| && forall k :: 0 <= k < |shares| ==> AllRecorded(w, k, shares[k], dim, per)
  }

  lemma RepliesAgree(shares: seq<seq<Placed>>, from: nat, reported: map<nat, set<nat>>)
    requires OneSizeEach(shares, from, reported)
    ensures forall k: nat :: k < |shares| && k in reported ==> reported[k] != {} && |reported[k]| == 1
    ensures forall k: nat :: k < |shares| ==> (k in reported <==> from < |shares[k]|)
  {
    forall k: nat | k < |shares| && k in reported
      ensures reported[k] != {} && |reported[k]| == 1
    {
      assert from < |shares[k]|;
      var size :| reported[k] == {size};
    }
  }

  lemma EverythingSent(w: Cluster, shares: seq<seq<Placed>>, dim: u32, per: nat, from: nat)
    requires per > 0 && SentSoFar(w, shares, dim, per, from) && LeftToSend(w, shares, dim, per, from)
    requires from >= Longest(shares)
    ensures NothingLeft(w) && Stored(w, shares, dim, per)
  {
    hide Recorded, Requests;
    forall k | 0 <= k < |shares|
      ensures w.todo[k] == [] && AllRecorded(w, k, shares[k], dim, per)
    {
      assert shares[k] in shares;
      NextRequest(dim, shares[k], per, from);
      assert ShareSoFar(w, k, shares[k], dim, per, from);
    }
  }

  lemma StillStored(w: Cluster, later: Cluster, shares: seq<seq<Placed>>, dim: u32, per: nat)
    requires per > 0 && Stored(w, shares, dim, per)
    requires w.ledger <= later.ledger && SameShape(w, later)
    ensures Stored(later, shares, dim, per)
  {
    hide Recorded;
    forall k, j | 0 <= k < |shares| && 0 <= j < |Requests(dim, shares[k], per)|
      ensures Recorded(later, k, Requests(dim, shares[k], per)[j])
    {
      assert AllRecorded(w, k, shares[k], dim, per);
      StillRecorded(w, later, k, Requests(dim, shares[k], per)[j]);
    }
  }

  lemma SameCount(w: Cluster, later: Cluster, k: nat)
    requires SameShape(w, later) && k < |w.groups|
    ensures k < |later.groups| && |later.groups[k].replicas| == |w.groups[k].replicas|
  {
  }

  lemma RefreshLeaves(c: Cluster)
    requires c.activity.Idle?
    ensures Can(c, Refresh)
    ensures var later := After(c, Refresh);
            && later == c.(groups := later.groups) && |later.groups| == |c.groups|
            && forall k :: 0 <= k < |c.groups| ==> later.groups[k].view == Unknown
  {
  }

  lemma Forgets(c: Cluster)
    ensures Can(c, NewCoordinator)
    ensures var later := After(c, NewCoordinator);
            && later.size == 0 && later.activity.Idle? && |later.groups| == |c.groups| && later.ledger == c.ledger
            && forall k :: 0 <= k < |c.groups| ==> Believed(later.groups[k].view) == None
  {
  }

  lemma SameNumbers(w: Cluster, later: Cluster)
    requires SameShape(w, later)
    ensures |later.groups| == |w.groups|
  {
  }

  // ---------------------------------------------------------------- one round

  ghost predicate LeftToSend(w: Cluster, shares: seq<seq<Placed>>, dim: u32, per: nat, from: nat)
    requires per > 0
  {
    && |shares| == |w.groups| == |w.todo|
    && forall k :: 0 <= k < |shares| ==> w.todo[k] == Requests(dim, DropFrom(shares[k], from), per)
  }

  ghost predicate RoundFailed(w: Cluster, later: Cluster) {
    && later.activity.Idle? && later.ledger == w.ledger
    && forall k :: 0 <= k < |later.groups| ==> later.groups[k].view == Unknown
  }

  ghost predicate RoundSucceeded(w: Cluster, later: Cluster, shares: seq<seq<Placed>>, dim: u32, per: nat, from: nat)
    requires per > 0
  {
    && later.activity.Adding?
    && |w.groups| == |later.groups| == |later.todo| == |shares|
    && w.ledger <= later.ledger
    && forall k :: 0 <= k < |shares| ==> ShardFinished(w, later, k, shares[k], dim, per, from)
  }

  /** What SendChunks leaves in the views. */
  ghost predicate JustSent(w: Cluster, sent: Cluster) {
    && AllKnown(w) && |sent.groups| == |w.groups| == |w.todo|
    && forall k :: 0 <= k < |w.groups| ==>
         if w.todo[k] == [] then sent.groups[k].view == w.groups[k].view
         else && sent.groups[k].view.Writing?
              && sent.groups[k].view.n == w.groups[k].view.n && sent.groups[k].view.batch == w.todo[k][0]
              && !sent.groups[k].view.failed && sent.groups[k].view.acks == map[]
              && forall i: nat :: i in sent.groups[k].view.pending <==> i < |sent.groups[k].replicas|
  }

  /** Shard k's replicas have all been sent the chunk, or there is none for it. */
  ghost predicate IsOnItsWay(w: Cluster, k: nat, dim: u32, chunk: seq<Placed>)
    requires k < |w.groups|
  {
    var view := w.groups[k].view;
    if chunk == [] then view.Known?
    else && view.Writing? && view.batch == Request(dim, chunk) && !view.failed && view.acks == map[]
         && forall i: nat :: i in view.pending <==> i < |w.groups[k].replicas|
  }

  lemma CanSend(w: Cluster, shares: seq<seq<Placed>>, dim: u32, per: nat, from: nat)
    requires per > 0 && w.activity.Adding? && AllKnown(w) && !NothingLeft(w) && LeftToSend(w, shares, dim, per, from)
    ensures Can(w, SendChunks)
  {
  }

  lemma CanFinish(w: Cluster)
    requires Safe(w) && w.activity.Adding? && !AllKnown(w) && AllReplied(w)
    ensures Can(w, FinishChunks)
  {
  }

  lemma SentChunks(w: Cluster, shares: seq<seq<Placed>>, dim: u32, per: nat, from: nat)
    requires per > 0 && Can(w, SendChunks) && LeftToSend(w, shares, dim, per, from)
    ensures JustSent(w, After(w, SendChunks))
    ensures var sent := After(w, SendChunks);
            && |sent.groups| == |shares|
            && !AllKnown(sent)
            && sent.activity.Adding? && sent.size == w.size && sent.ledger == w.ledger
            && |sent.todo| == |w.todo| && (forall k :: 0 <= k < |w.todo| ==> sent.todo[k] == Rest(w.todo[k]))
            && forall k :: 0 <= k < |shares| ==> IsOnItsWay(sent, k, dim, Slice(shares[k], from, per))
  {
    var sent := After(w, SendChunks);
    SentViews(w);
    forall k | 0 <= k < |shares|
      ensures IsOnItsWay(sent, k, dim, Slice(shares[k], from, per))
      ensures w.todo[k] != [] ==> sent.groups[k].view.Writing?
    {
      NextRequest(dim, shares[k], per, from);
    }
  }

  lemma NoneReplied(w: Cluster)
    ensures RoundSoFar(w, w, 0, false)
  {
  }

  lemma SentViews(w: Cluster)
    requires Can(w, SendChunks)
    ensures JustSent(w, After(w, SendChunks))
  {
  }

  /** Shards below `k` have replied in full, the others not at all. */
  ghost predicate RoundSoFar(sent: Cluster, w: Cluster, k: nat, failure: bool) {
    && |w.groups| == |sent.groups|
    && (forall j :: k <= j < |w.groups| ==> w.groups[j].view == sent.groups[j].view)
    && (forall j :: 0 <= j < k && j < |w.groups| ==> Replied(sent.groups[j].view, w.groups[j].view, failure))
    && (failure ==> exists j :: 0 <= j < k && j < |w.groups| && w.groups[j].view.Writing? && w.groups[j].view.failed)
  }

  ghost predicate Replied(sent: View, view: View, failure: bool) {
    if sent.Writing? then
      view.Writing? && view.n == sent.n && view.batch == sent.batch && view.pending == {} && (view.failed ==> failure)
    else view == sent
  }

  lemma NotYetReached(sent: Cluster, w: Cluster, k: nat, failure: bool)
    requires RoundSoFar(sent, w, k, failure) && k < |w.groups|
    ensures k < |sent.groups| && w.groups[k].view == sent.groups[k].view
  {
  }

  lemma SkipShard(sent: Cluster, w: Cluster, k: nat, failure: bool)
    requires RoundSoFar(sent, w, k, failure) && k < |w.groups| && !w.groups[k].view.Writing?
    ensures RoundSoFar(sent, w, k + 1, failure)
  {
  }

  lemma ShardReplied(sent: Cluster, was: Cluster, w: Cluster, k: nat, failure: bool)
    requires RoundSoFar(sent, was, k, failure) && k < |w.groups| == |was.groups|
    requires forall j :: 0 <= j < |w.groups| && j != k ==> w.groups[j].view == was.groups[j].view
    requires was.groups[k].view.Writing? && w.groups[k].view.Writing? && w.groups[k].view.pending == {}
    requires w.groups[k].view.n == was.groups[k].view.n && w.groups[k].view.batch == was.groups[k].view.batch
    ensures RoundSoFar(sent, w, k + 1, failure || w.groups[k].view.failed)
  {
  }

  lemma RoundEnds(sent: Cluster, w: Cluster, failure: bool)
    requires RoundSoFar(sent, w, |w.groups|, failure)
    ensures AllReplied(w) && (SomeFailed(w) <==> failure)
    ensures AllKnown(w) <==> AllKnown(sent)
  {
    assert forall k :: 0 <= k < |w.groups| && sent.groups[k].view.Known? ==> w.groups[k].view.Known?;
    assert forall k :: 0 <= k < |w.groups| ==> Replied(sent.groups[k].view, w.groups[k].view, failure);
  }

  /** What FinishChunks does to all shards alike. */
  lemma FinishChunksLeaves(w: Cluster)
    requires Can(w, FinishChunks)
    ensures var later := After(w, FinishChunks);
            && later.size == w.size && |later.groups| == |w.groups| == |later.todo|
            && if SomeFailed(w) then later.activity.Idle? && later.ledger == w.ledger
                                    && forall k :: 0 <= k < |later.groups| ==> later.groups[k].view == Unknown
               else later.activity.Adding? && w.ledger <= later.ledger
  {
  }

  lemma FinishRound(before: Cluster, sent: Cluster, replied: Cluster, failure: bool,
                    shares: seq<seq<Placed>>, dim: u32, per: nat, from: nat)
    requires per > 0 && LeftToSend(before, shares, dim, per, from)
    requires JustSent(before, sent) && RoundSoFar(sent, replied, |replied.groups|, failure)
    requires Safe(replied) && Can(replied, FinishChunks) && (SomeFailed(replied) <==> failure)
    requires forall k :: 0 <= k < |replied.groups| ==> |replied.groups[k].replicas| > 0
    requires replied.ledger == before.ledger
    requires |replied.todo| == |before.todo|
    requires forall k :: 0 <= k < |before.todo| ==> replied.todo[k] == Rest(before.todo[k])
    ensures After(replied, FinishChunks).size == replied.size
    ensures failure ==> RoundFailed(before, After(replied, FinishChunks))
    ensures !failure ==> RoundSucceeded(before, After(replied, FinishChunks), shares, dim, per, from)
  {
    FinishChunksLeaves(replied);
    hide After, Can, Safe, SomeFailed, ShardFinished, Requests, Replied;
    if !failure {
      assert |before.groups| == |sent.groups| == |replied.groups|;
      forall k | 0 <= k < |shares|
        ensures ShardFinished(before, After(replied, FinishChunks), k, shares[k], dim, per, from)
      {
        FinishShard(before, sent, replied, k, shares[k], dim, per, from);
      }
    }
  }

  /** After a round that succeeded, the shards are ready for the next one. */
  lemma NextRound(w: Cluster, later: Cluster, shares: seq<seq<Placed>>, dim: u32, per: nat, from: nat)
    requires per > 0 && RoundSucceeded(w, later, shares, dim, per, from)
    ensures AllKnown(later) && LeftToSend(later, shares, dim, per, from + per)
  {
    forall k | 0 <= k < |shares|
      ensures later.groups[k].view.Known? && later.todo[k] == Requests(dim, DropFrom(shares[k], from + per), per)
    {
      assert ShardFinished(w, later, k, shares[k], dim, per, from);
    }
  }

  ghost predicate ShardFinished(before: Cluster, later: Cluster, k: nat, share: seq<Placed>, dim: u32, per: nat,
                                from: nat)
    requires per > 0 && k < |before.groups| == |later.groups| == |later.todo|
  {
    && later.todo[k] == Requests(dim, DropFrom(share, from + per), per)
    && later.groups[k].view.Known? && before.groups[k].view.Known?
    && if from < |share|
       then Recorded(later, k, Request(dim, Slice(share, from, per)))
            && later.groups[k].view.n == before.groups[k].view.n + 1
       else later.groups[k].view == before.groups[k].view
  }

  lemma FinishShard(before: Cluster, sent: Cluster, replied: Cluster, k: nat, share: seq<Placed>, dim: u32, per: nat,
                    from: nat)
    requires per > 0 && k < |before.groups| == |before.todo| == |replied.groups| == |replied.todo|
    requires before.todo[k] == Requests(dim, DropFrom(share, from), per) && replied.todo[k] == Rest(before.todo[k])
    requires JustSent(before, sent) && Replied(sent.groups[k].view, replied.groups[k].view, false)
    requires Safe(replied) && Can(replied, FinishChunks) && !SomeFailed(replied) && |replied.groups[k].replicas| > 0
    ensures ShardFinished(before, After(replied, FinishChunks), k, share, dim, per, from)
  {
    hide Safe, Recorded, Requests;
    NextRequest(dim, share, per, from);
    if from < |share| {
      ChunkRecorded(replied, k);
    } else {
      NextRequest(dim, share, per, from + per);
    }
  }

  lemma ChunkRecorded(w: Cluster, k: nat)
    requires Safe(w) && Can(w, FinishChunks) && !SomeFailed(w)
    requires k < |w.groups| && w.groups[k].view.Writing? && |w.groups[k].replicas| > 0
    ensures Recorded(After(w, FinishChunks), k, w.groups[k].view.batch)
  {
    var n := SuccessIsRecorded(w, k);
    assert RecordedAt(After(w, FinishChunks), n, k, w.groups[k].view.batch);
  }

  // ---------------------------------------------------------------- the replies of one shard

  /** The calls to replicas below `upto` have ended; `sizes` are those reported, `whole` if all did. */
  ghost predicate Tallied(view: View, upto: nat, replicas: nat, sizes: set<nat>, whole: bool) {
    && view.Writing?
    && (whole <==> !view.failed)
    && (forall r: nat :: r in view.pending <==> upto <= r < replicas)
    && (forall r :: r in view.acks ==> r < upto && |GlobalIds(view.acks[r].history)| in sizes)
    && (forall size :: size in sizes ==> exists r :: r in view.acks && |GlobalIds(view.acks[r].history)| == size)
    && (whole ==> forall r: nat :: r < upto ==> r in view.acks)
  }

  lemma NothingTallied(view: View, replicas: nat)
    requires view.Writing? && !view.failed && view.acks == map[]
    requires forall i: nat :: i in view.pending <==> i < replicas
    ensures Tallied(view, 0, replicas, {}, true)
  {
  }

  lemma StillPending(view: View, i: nat, replicas: nat, sizes: set<nat>, whole: bool)
    requires Tallied(view, i, replicas, sizes, whole) && i < replicas
    ensures i in view.pending
  {
  }

  lemma TallyOne(view: View, later: View, i: nat, replicas: nat, sizes: set<nat>, whole: bool, reported: Option<nat>)
    requires Tallied(view, i, replicas, sizes, whole) && i < replicas
    requires later.Writing? && later.pending == view.pending - {i}
    requires if reported.Some? then
               later.failed == view.failed
               && i in later.acks && later.acks == view.acks[i := later.acks[i]]
               && reported.value == |GlobalIds(later.acks[i].history)|
             else later.failed && later.acks == view.acks
    ensures Tallied(later, i + 1, replicas, if reported.Some? then sizes + {reported.value} else sizes,
                    whole && reported.Some?)
  {
    hide GlobalIds;
    if reported.Some? {
      forall size | size in sizes
        ensures exists r :: r in later.acks && |GlobalIds(later.acks[r].history)| == size
      {
        var r :| r in view.acks && |GlobalIds(view.acks[r].history)| == size;
        assert later.acks[r] == view.acks[r];
      }
    }
  }

  lemma AllTallied(view: View, replicas: nat, sizes: set<nat>, whole: bool)
    requires Tallied(view, replicas, replicas, sizes, whole)
    ensures view.pending == {} && (whole <==> !view.failed)
    ensures whole && replicas > 0 ==> 0 in view.acks
    ensures forall r :: r in view.acks ==> |GlobalIds(view.acks[r].history)| in sizes
    ensures forall size :: size in sizes ==> exists r :: r in view.acks && |GlobalIds(view.acks[r].history)| == size
  {
    assert forall r: nat :: r !in view.pending;
  }

  /** If every replica acknowledged the chunk, they all reported one and the same size. */
  lemma OneSize(w: Cluster, k: nat, sizes: set<nat>)
    requires Safe(w) && k < |w.groups| && w.groups[k].view.Writing? && |w.groups[k].replicas| > 0
    requires var acks := w.groups[k].view.acks;
             && (forall r :: r in acks ==> |GlobalIds(acks[r].history)| in sizes)
             && (forall size :: size in sizes ==> exists r :: r in acks && |GlobalIds(acks[r].history)| == size)
    ensures 0 in w.groups[k].view.acks ==> OneValue(sizes)
  {
    var g := w.groups[k];
    if 0 in g.view.acks {
      var size := |GlobalIds(g.view.acks[0].history)|;
      forall other | other in sizes
        ensures other == size
      {
        var r :| r in g.view.acks && |GlobalIds(g.view.acks[r].history)| == other;
        AckedAlike(g, r, 0);
      }
      assert sizes == {size};
    }
  }

  lemma SameCounts(c: Cluster, a: Action)
    requires Can(c, a)
    ensures |After(c, a).groups| == |c.groups|
    ensures forall k :: 0 <= k < |c.groups| ==> |After(c, a).groups[k].replicas| == |c.groups[k].replicas|
  {
  }
}

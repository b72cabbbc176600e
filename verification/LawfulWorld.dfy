/**
  A world on a run, and the cluster it shows.

  A coordinator acts on a world by decisions and calls, and the world goes on meanwhile. Each of
  these continues the world's run, and takes the cluster it shows along.
  */
module LawfulWorlds {
  import opened Bytes
  import opened Framing
  import opened LogFormat
  import opened Histories
  import C = Clusters
  import D = Disks
  import G = ReplicaGroups
  import R = WorldRuns
  import W = Worlds

  /** How shards are run, and what Status and Add replies read off them. */
  datatype Reader<!S> = Reader(engine: D.Engine<S>, nextId: S -> int, count: S -> nat)

  /** `len` of a shard is the number of vectors its writes brought. */
  ghost predicate Measures<S(!new)>(e: D.Engine<S>, count: S -> nat) {
    forall h :: D.AllLoggable(e, h) ==> count(e.State(h)) == |G.GlobalIds(h)|
  }

  ghost predicate Reads<S(!new)>(reader: Reader<S>) {
    && Faithful(reader.engine.codec)
    && R.Counts(reader.engine, reader.nextId) && Measures(reader.engine, reader.count)
  }

  /** The run so far, from a world that begins, has led here; and this is a cluster it shows. */
  ghost predicate IsLawful<S(!new)>(reader: Reader<S>, first: W.World<S>, run: seq<W.Happening>, world: W.World<S>,
                                    shown: C.Cluster) {
    && Reads(reader) && LeadsTo(reader, first, run, world)
    && R.ShowsWorld(reader.engine, world, shown) && C.Safe(shown)
  }

  ghost predicate LeadsTo<S(!new)>(reader: Reader<S>, first: W.World<S>, run: seq<W.Happening>, world: W.World<S>) {
    && Faithful(reader.engine.codec)
    && W.Begins(first) && W.Happens(reader.engine, reader.nextId, first, run)
    && W.Eventually(reader.engine, reader.nextId, first, run) == world
  }

  lemma Continues<S(!new)>(reader: Reader<S>, first: W.World<S>, run: seq<W.Happening>, world: W.World<S>,
                           h: W.Happening)
    requires LeadsTo(reader, first, run, world) && W.CanHappen(world, h)
    ensures LeadsTo(reader, first, run + [h], W.Next(reader.engine, reader.nextId, world, h))
  {
    hide W.CanHappen, W.Next, W.Begins;
    R.RunsOn(reader.engine, reader.nextId, first, run, [h]);
    assert [h][1..] == [];
  }

  /** What the coordinator has in mind is so. */
  lemma InMind<S(!new)>(reader: Reader<S>, first: W.World<S>, run: seq<W.Happening>, world: W.World<S>,
                        shown: C.Cluster)
    requires IsLawful(reader, first, run, world, shown)
    ensures Faithful(reader.engine.codec) && C.Safe(shown) && |shown.todo| == |shown.groups|
    ensures |world.shards| == |world.mind.groups| == |shown.groups| && world.mind.activity == shown.activity
    ensures forall k :: 0 <= k < |shown.groups| ==>
              && |world.shards[k]| == |shown.groups[k].replicas| > 0
              && world.mind.groups[k].view == W.BlurredView(shown.groups[k].view)
  {
    hide LeadsTo, C.Safe, R.ShowsLedger, W.IsWhole, W.BlurredView;
    R.HostCounts(reader.engine, world, shown);
    R.ViewsBlur(shown);
    assert world.mind.activity == shown.activity;
  }

  // ---------------------------------------------------------------- what the coordinator does

  /** A decision. */
  lemma Decided<S(!new)>(reader: Reader<S>, first: W.World<S>, run: seq<W.Happening>, world: W.World<S>,
                         shown: C.Cluster, a: C.Action)
    requires IsLawful(reader, first, run, world, shown) && W.IsDecision(a) && C.Can(shown, a)
    ensures Faithful(reader.engine.codec) && W.CanHappen(world, W.Decide(a))
    ensures IsLawful(reader, first, run + [W.Decide(a)], W.Next(reader.engine, reader.nextId, world, W.Decide(a)),
                     C.After(shown, a))
  {
    hide R.Counts, Measures, LeadsTo, R.ShowsWorld, C.Safe, C.After, C.Can;
    R.MayDecide(reader.engine, world, shown, a);
    R.DecideShows(reader.engine, world, shown, a);
    C.StepSafe(shown, a);
    Continues(reader, first, run, world, W.Decide(a));
  }

  /** A Status call that is answered, by a replica that says this. */
  lemma Reported<S(!new)>(reader: Reader<S>, first: W.World<S>, run: seq<W.Happening>, world: W.World<S>,
                          shown: C.Cluster)
      returns (said: G.Found)
    requires IsLawful(reader, first, run, world, shown) && W.CanOccur(world, W.Status)
    ensures C.Can(shown, C.AskNext)
    ensures IsLawful(reader, first, run + [W.Status], W.Next(reader.engine, reader.nextId, world, W.Status),
                     C.After(shown, C.AskNext))
    ensures var k := shown.activity.shard;
            && k < |shown.groups| && shown.groups[k].view.Checking?
            && Reports(reader, world, k, |shown.groups[k].view.found|, said)
            && C.After(shown, C.AskNext)
               == C.Put(shown, k, shown.groups[k].(view := G.Checking(shown.groups[k].view.found + [said])))
  {
    hide IsLawful, LeadsTo, R.ShowsWorld, Reads, C.Safe, W.Next;
    InMind(reader, first, run, world, shown);
    StatusGoesOn(reader, first, run, world, shown);
    var later := W.Next(reader.engine, reader.nextId, world, W.Status);
    InMind(reader, first, run + [W.Status], later, C.After(shown, C.AskNext));
    var k := shown.activity.shard;
    said := G.Ask(shown.groups[k]).view.found[|shown.groups[k].view.found|];
    StatusSays(reader, world);
  }

  lemma StatusGoesOn<S(!new)>(reader: Reader<S>, first: W.World<S>, run: seq<W.Happening>, world: W.World<S>,
                              shown: C.Cluster)
    requires IsLawful(reader, first, run, world, shown) && W.CanOccur(world, W.Status)
    ensures C.Can(shown, C.AskNext)
    ensures IsLawful(reader, first, run + [W.Status], W.Next(reader.engine, reader.nextId, world, W.Status),
                     C.After(shown, C.AskNext))
  {
    hide LeadsTo, R.ShowsWorld, R.Counts, Measures, C.Safe, C.After, C.Can, W.CanOccur, W.Next;
    R.StatusShows(reader.engine, reader.nextId, world, shown);
    C.StepSafe(shown, C.AskNext);
    Continues(reader, first, run, world, W.Status);
  }

  lemma StatusSays<S(!new)>(reader: Reader<S>, world: W.World<S>)
    requires Faithful(reader.engine.codec) && W.CanOccur(world, W.Status)
    ensures var k := world.mind.activity.shard;
            var found := world.mind.groups[k].view.found;
            var later := W.Next(reader.engine, reader.nextId, world, W.Status).mind.groups;
            && |later| == |world.mind.groups| && later[k].view.Checking?
            && |later[k].view.found| == |found| + 1
            && Reports(reader, world, k, |found|, later[k].view.found[|found|])
  {
  }

  /** An Add call that gets to its replica. */
  lemma Arrived<S(!new)>(reader: Reader<S>, first: W.World<S>, run: seq<W.Happening>, world: W.World<S>,
                         shown: C.Cluster, k: nat, i: nat, acked: bool, crash: Option<nat>) returns (later: C.Cluster)
    requires IsLawful(reader, first, run, world, shown) && W.CanOccur(world, W.Arrive(k, i, acked, crash))
    ensures IsLawful(reader, first, run + [W.Arrive(k, i, acked, crash)],
                     W.Next(reader.engine, reader.nextId, world, W.Arrive(k, i, acked, crash)), later)
    ensures C.IsShard(shown, k) && G.CanDeliver(shown.groups[k], i) && k < |later.groups|
    ensures R.HasAnswered(shown, later, k, later.groups[k].view)
    ensures var reply := W.ReplyTo(reader.engine, world, k, i, acked, crash);
            R.IsAnswer(reader.engine, shown.groups[k], i, reply, later.groups[k].view)
  {
    hide LeadsTo, R.ShowsWorld, R.Counts, Measures, C.Safe, C.After, C.Can, W.CanOccur, W.Next, W.ReplyTo,
         R.HasAnswered, R.IsAnswer, C.IsRun, C.Final;
    var actions := R.ArriveShows(reader.engine, reader.nextId, world, shown, k, i, acked, crash);
    C.RunSafe(shown, actions);
    Continues(reader, first, run, world, W.Arrive(k, i, acked, crash));
    later := C.Final(shown, actions);
  }

  /** The replica is there, free, and at the number before the write's, which it can log. */
  predicate Takes<S>(reader: Reader<S>, at: W.World<S>, k: nat, i: nat) {
    && W.CanOccur(at, W.Arrive(k, i, true, None))
    && D.Acceptable(reader.engine, at.shards[k][i].memory.value.lastSeq, at.mind.groups[k].view.batch)
  }

  /** Without a crash, a call that gets there is answered exactly if the replica takes the write. */
  lemma AnsweredIfTaken<S(!new)>(reader: Reader<S>, world: W.World<S>, k: nat, i: nat)
    requires Faithful(reader.engine.codec) && W.CanOccur(world, W.Arrive(k, i, true, None))
    ensures W.ReplyTo(reader.engine, world, k, i, true, None).Some? <==> Takes(reader, world, k, i)
  {
  }

  /** A reply is the size of what was acknowledged; without one the call has failed. */
  lemma AnswerSays<S(!new)>(reader: Reader<S>, g: G.Group, i: nat, reply: Option<S>, view: G.View)
    requires Measures(reader.engine, reader.count) && G.CanDeliver(g, i) && R.IsAnswer(reader.engine, g, i, reply, view)
    ensures && view.Writing? && view.n == g.view.n && view.batch == g.view.batch && view.pending == g.view.pending - {i}
            && if reply.Some? then
                 view.failed == g.view.failed && i in view.acks && view.acks == g.view.acks[i := view.acks[i]]
                 && reader.count(reply.value) == |G.GlobalIds(view.acks[i].history)|
               else view.failed && view.acks == g.view.acks
  {
    hide D.AllLoggable, G.GlobalIds;
  }

  lemma Measured<S(!new)>(reader: Reader<S>, first: W.World<S>, run: seq<W.Happening>, world: W.World<S>,
                          shown: C.Cluster)
    requires IsLawful(reader, first, run, world, shown)
    ensures Faithful(reader.engine.codec) && Measures(reader.engine, reader.count)
  {
    hide R.Counts, Measures, LeadsTo, R.ShowsWorld, C.Safe;
  }

  lemma Unanswered<S(!new)>(reader: Reader<S>, world: W.World<S>, k: nat, i: nat, crash: Option<nat>)
    requires Faithful(reader.engine.codec) && W.CanOccur(world, W.Arrive(k, i, false, crash))
    ensures W.ReplyTo(reader.engine, world, k, i, false, crash).None?
  {
  }

  // ---------------------------------------------------------------- what goes on meanwhile

  predicate IsOutside(h: W.Happening) {
    h.Does? || h.StartSync?
  }

  lemma Occurred<S(!new)>(reader: Reader<S>, first: W.World<S>, run: seq<W.Happening>, world: W.World<S>,
                          shown: C.Cluster, h: W.Happening) returns (later: C.Cluster)
    requires IsLawful(reader, first, run, world, shown) && IsOutside(h) && W.CanOccur(world, h)
    ensures Faithful(reader.engine.codec) && W.CanHappen(world, h)
    ensures IsLawful(reader, first, run + [h], W.Next(reader.engine, reader.nextId, world, h), later)
    ensures R.Unseen(shown, later)
  {
    hide LeadsTo, R.ShowsWorld, R.Counts, Measures, C.Safe, C.After, C.Can, W.CanOccur, W.Next, R.Unseen, C.IsRun,
         C.Final, W.Onward;
    var actions := R.HappeningShows(reader.engine, reader.nextId, world, shown, h);
    C.RunSafe(shown, actions);
    Continues(reader, first, run, world, h);
    later := C.Final(shown, actions);
  }

  // ---------------------------------------------------------------- what a replica said, and when

  /** A world others have used, wherever they left it. */
  lemma Begun<S(!new)>(reader: Reader<S>, first: W.World<S>, run: seq<W.Happening>, world: W.World<S>)
      returns (c: C.Cluster)
    requires Reads(reader) && LeadsTo(reader, first, run, world)
    ensures IsLawful(reader, first, run, world, c)
  {
    hide R.Counts, Measures, W.Begins, R.ShowsWorld, C.Safe;
    var start, actions := R.WorldsAreRuns(reader.engine, reader.nextId, first, run);
    C.InitiallySafe(start);
    C.RunSafe(start, actions);
    c := C.Final(start, actions);
  }

  lemma WasHere<S(!new)>(reader: Reader<S>, first: W.World<S>, run: seq<W.Happening>, world: W.World<S>,
                         shown: C.Cluster)
    requires IsLawful(reader, first, run, world, shown)
    ensures Passed(reader, first, run, |run|, world)
  {
    hide Reads, LeadsTo, R.ShowsWorld, C.Safe;
    assert run[..|run|] == run;
  }

  /** The run was here after its first n happenings. */
  ghost predicate Passed<S(!new)>(reader: Reader<S>, first: W.World<S>, run: seq<W.Happening>, n: nat, at: W.World<S>) {
    n <= |run| && LeadsTo(reader, first, run[..n], at)
  }

  /** What replica j of shard k reports when it is asked at this point of the run. */
  ghost predicate IsReply<S(!new)>(reader: Reader<S>, first: W.World<S>, run: seq<W.Happening>, n: nat, k: nat, j: nat,
                                   found: G.Found) {
    exists at: W.World<S> :: Passed(reader, first, run, n, at) && Reports(reader, at, k, j, found)
  }

  predicate Reports<S>(reader: Reader<S>, at: W.World<S>, k: nat, j: nat, found: G.Found) {
    && k < |at.shards| && j < |at.shards[k]| && W.Free(at.shards[k][j])
    && var m := at.shards[k][j].memory.value;
       found == G.Found(m.lastSeq, reader.nextId(m.shard))
  }

  /** One reply of each replica of shard k, from the times they were asked, none before `since`. */
  ghost predicate AreReplies<S(!new)>(reader: Reader<S>, first: W.World<S>, run: seq<W.Happening>, since: nat,
                                      times: seq<nat>, k: nat, found: seq<G.Found>) {
    && |times| == |found|
    && forall j :: 0 <= j < |found| ==> since <= times[j] && IsReply(reader, first, run, times[j], k, j, found[j])
  }

  lemma StillPassed<S(!new)>(reader: Reader<S>, first: W.World<S>, run: seq<W.Happening>, later: seq<W.Happening>,
                             n: nat, at: W.World<S>)
    requires Passed(reader, first, run, n, at) && run <= later
    ensures Passed(reader, first, later, n, at)
  {
    assert later[..n] == run[..n];
  }

  lemma StillReply<S(!new)>(reader: Reader<S>, first: W.World<S>, run: seq<W.Happening>, later: seq<W.Happening>,
                            n: nat, k: nat, j: nat, found: G.Found)
    requires IsReply(reader, first, run, n, k, j, found) && run <= later
    ensures IsReply(reader, first, later, n, k, j, found)
  {
    hide Passed, Reports;
    var at: W.World<S> :| Passed(reader, first, run, n, at) && Reports(reader, at, k, j, found);
    StillPassed(reader, first, run, later, n, at);
  }

  lemma StillReplies<S(!new)>(reader: Reader<S>, first: W.World<S>, run: seq<W.Happening>, later: seq<W.Happening>,
                              since: nat, times: seq<nat>, k: nat, found: seq<G.Found>)
    requires AreReplies(reader, first, run, since, times, k, found) && run <= later
    ensures AreReplies(reader, first, later, since, times, k, found)
  {
    hide IsReply;
    forall j | 0 <= j < |found|
      ensures IsReply(reader, first, later, times[j], k, j, found[j])
    {
      StillReply(reader, first, run, later, times[j], k, j, found[j]);
    }
  }

  lemma OneMoreReply<S(!new)>(reader: Reader<S>, first: W.World<S>, run: seq<W.Happening>, later: seq<W.Happening>,
                              since: nat, times: seq<nat>, k: nat, found: seq<G.Found>, n: nat, one: G.Found)
    requires AreReplies(reader, first, run, since, times, k, found) && run <= later
    requires since <= n && IsReply(reader, first, later, n, k, |found|, one)
    ensures AreReplies(reader, first, later, since, times + [n], k, found + [one])
  {
    StillReplies(reader, first, run, later, since, times, k, found);
    hide IsReply;
  }

  lemma NoReplies<S(!new)>(reader: Reader<S>, first: W.World<S>, run: seq<W.Happening>, since: nat, k: nat)
    ensures AreReplies(reader, first, run, since, [], k, [])
  {
  }

  lemma IsOneReply<S(!new)>(reader: Reader<S>, first: W.World<S>, run: seq<W.Happening>, n: nat, at: W.World<S>, k: nat,
                            j: nat, found: G.Found)
    requires Passed(reader, first, run, n, at) && Reports(reader, at, k, j, found)
    ensures IsReply(reader, first, run, n, k, j, found)
  {
  }

  /** Replies stay what they were, and may be counted from an earlier point on. */
  lemma RepliesStay<S(!new)>(reader: Reader<S>, first: W.World<S>, run: seq<W.Happening>, later: seq<W.Happening>,
                             since: nat, from: nat, times: seq<nat>, k: nat, found: seq<G.Found>)
    requires AreReplies(reader, first, run, from, times, k, found) && run <= later && since <= from
    ensures AreReplies(reader, first, later, since, times, k, found)
  {
    StillReplies(reader, first, run, later, from, times, k, found);
    hide IsReply;
  }

  ghost predicate WereReplies<S(!new)>(reader: Reader<S>, first: W.World<S>, run: seq<W.Happening>, since: nat, k: nat,
                                       found: seq<G.Found>) {
    exists times :: AreReplies(reader, first, run, since, times, k, found)
  }

  ghost predicate AllWereReplies<S(!new)>(reader: Reader<S>, first: W.World<S>, run: seq<W.Happening>, since: nat,
                                          replies: map<nat, seq<G.Found>>) {
    forall k :: k in replies ==> WereReplies(reader, first, run, since, k, replies[k])
  }

  lemma NothingReplied<S(!new)>(reader: Reader<S>, first: W.World<S>, run: seq<W.Happening>, since: nat)
    ensures AllWereReplies(reader, first, run, since, map[])
  {
  }

  lemma AllStay<S(!new)>(reader: Reader<S>, first: W.World<S>, run: seq<W.Happening>, later: seq<W.Happening>,
                         since: nat, replies: map<nat, seq<G.Found>>)
    requires AllWereReplies(reader, first, run, since, replies) && run <= later
    ensures AllWereReplies(reader, first, later, since, replies)
  {
    hide AreReplies;
    forall j | j in replies
      ensures WereReplies(reader, first, later, since, j, replies[j])
    {
      var times :| AreReplies(reader, first, run, since, times, j, replies[j]);
      RepliesStay(reader, first, run, later, since, since, times, j, replies[j]);
    }
  }

  lemma OneMoreShard<S(!new)>(reader: Reader<S>, first: W.World<S>, run: seq<W.Happening>, later: seq<W.Happening>,
                              since: nat, from: nat, replies: map<nat, seq<G.Found>>, times: seq<nat>, k: nat,
                              found: seq<G.Found>)
    requires AllWereReplies(reader, first, run, since, replies) && run <= later && since <= from
    requires AreReplies(reader, first, later, from, times, k, found)
    ensures AllWereReplies(reader, first, later, since, replies[k := found])
  {
    hide AreReplies;
    AllStay(reader, first, run, later, since, replies);
    RepliesStay(reader, first, later, later, since, from, times, k, found);
  }
}

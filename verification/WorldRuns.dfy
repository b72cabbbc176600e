/** Runs of the world, down to the bytes on disk, and what holds in them. */
module WorldRuns {
  import opened Bytes
  import opened Framing
  import opened LogFormat
  import opened Histories
  import opened Disks
  import opened Worlds
  import opened Refinements
  import C = Clusters
  import Durability
  import G = ReplicaGroups
  import Guarantees
  import Lockstep

  /**
    A world is what this cluster looks like: its disks and memories, the coordinator's blurred
    view, and the same writes in the ledger.
    */
  ghost predicate ShowsWorld<S(!new)>(e: Engine<S>, w: World<S>, c: C.Cluster) {
    && w.mind == Blurred(c) && |w.shards| == |c.groups| == |c.todo|
    && (forall k :: 0 <= k < |w.shards| ==> |w.shards[k]| > 0 && ShowsHosts(e, w.shards[k], c.groups[k]))
    && ShowsLedger(w.ledger, c.ledger)
    && forall n :: 0 <= n < |w.ledger| ==> IsWhole(w.shards, w.ledger[n])
  }

  /** The receipt says which write the entry's history ends with. */
  predicate ShowsEntry(receipt: Receipt, entry: C.Entry) {
    && entry.history != []
    && receipt == Receipt(entry.shard, |entry.history|, entry.history[|entry.history| - 1], entry.disks)
  }

  /** Shards of the same sizes. */
  predicate SameSizes<S>(shards: seq<seq<Host<S>>>, later: seq<seq<Host<S>>>) {
    |later| == |shards| && forall k :: 0 <= k < |shards| ==> |later[k]| == |shards[k]|
  }

  lemma StillWhole<S>(shards: seq<seq<Host<S>>>, later: seq<seq<Host<S>>>, receipt: Receipt)
    requires SameSizes(shards, later) && IsWhole(shards, receipt)
    ensures IsWhole(later, receipt)
  {
  }

  lemma AllStillWhole<S>(shards: seq<seq<Host<S>>>, later: seq<seq<Host<S>>>, ledger: seq<Receipt>)
    requires SameSizes(shards, later) && forall n :: 0 <= n < |ledger| ==> IsWhole(shards, ledger[n])
    ensures forall n :: 0 <= n < |ledger| ==> IsWhole(later, ledger[n])
  {
    forall n | 0 <= n < |ledger|
      ensures IsWhole(later, ledger[n])
    {
      StillWhole(shards, later, ledger[n]);
    }
  }

  ghost predicate ShowsLedger(ledger: seq<Receipt>, entries: seq<C.Entry>) {
    |ledger| == |entries| && forall n :: 0 <= n < |ledger| ==> ShowsEntry(ledger[n], entries[n])
  }

  /** The next free id is read off the shard as it would be off the history. */
  ghost predicate Counts<S(!new)>(e: Engine<S>, nextId: S -> int) {
    forall h :: AllLoggable(e, h) ==> nextId(e.State(h)) == G.NextId(h)
  }

  // ---------------------------------------------------------------- runs of the cluster

  ghost function StepsOf(k: nat, i: nat, moves: seq<G.Move>): (actions: seq<C.Action>)
    ensures |actions| == |moves|
  {
    seq(|moves|, j requires 0 <= j < |moves| => C.Step(k, i, moves[j]))
  }

  lemma {:induction false} RunConcat(c: C.Cluster, a: seq<C.Action>, b: seq<C.Action>)
    requires C.IsRun(c, a) && C.IsRun(C.Final(c, a), b)
    ensures C.IsRun(c, a + b) && C.Final(c, a + b) == C.Final(C.Final(c, a), b)
    decreases |a|
  {
    if a == [] {
      assert a + b == b;
    } else {
      assert (a + b)[1..] == a[1..] + b;
      RunConcat(C.After(c, a[0]), a[1..], b);
    }
  }

  lemma PutTwice(c: C.Cluster, k: nat, g: G.Group, later: G.Group)
    requires C.IsShard(c, k)
    ensures C.Put(C.Put(c, k, g), k, later) == C.Put(c, k, later)
    ensures C.Put(c, k, c.groups[k]) == c
  {
    assert c.groups[k := g][k := later] == c.groups[k := later];
    assert c.groups[k := c.groups[k]] == c.groups;
  }

  /** Moves of one replica are steps of the cluster. */
  lemma {:induction false} RunMoves(c: C.Cluster, k: nat, i: nat, moves: seq<G.Move>)
    requires C.IsShard(c, k) && CanAll(c.groups[k], i, moves)
    ensures C.IsRun(c, StepsOf(k, i, moves))
    ensures C.Final(c, StepsOf(k, i, moves)) == C.Put(c, k, AfterAll(c.groups[k], i, moves))
    decreases |moves|
  {
    if moves == [] {
      PutTwice(c, k, c.groups[k], c.groups[k]);
    } else {
      var front, last := moves[..|moves| - 1], moves[|moves| - 1];
      RunMoves(c, k, i, front);
      var mid := AfterAll(c.groups[k], i, front);
      C.RunOn(c, StepsOf(k, i, front), C.Step(k, i, last));
      assert StepsOf(k, i, moves) == StepsOf(k, i, front) + [C.Step(k, i, last)];
      PutTwice(c, k, mid, AfterAll(c.groups[k], i, moves));
    }
  }

  /** No install among them. */
  ghost predicate AllCalm(actions: seq<C.Action>) {
    forall n :: 0 <= n < |actions| && actions[n].Step? ==> !Durability.Installs(actions[n].move)
  }

  lemma {:induction false} CalmIsForward(c: C.Cluster, actions: seq<C.Action>)
    requires C.IsRun(c, actions) && AllCalm(actions)
    ensures Durability.AllForward(c, actions)
    decreases |actions|
  {
    if actions != [] {
      CalmIsForward(C.After(c, actions[0]), actions[1..]);
    }
  }

  lemma {:induction false} ForwardConcat(c: C.Cluster, a: seq<C.Action>, b: seq<C.Action>)
    requires C.IsRun(c, a) && C.IsRun(C.Final(c, a), b)
    requires Durability.AllForward(c, a) && Durability.AllForward(C.Final(c, a), b)
    ensures C.IsRun(c, a + b) && Durability.AllForward(c, a + b)
    decreases |a|
  {
    RunConcat(c, a, b);
    if a == [] {
      assert a + b == b;
    } else {
      assert (a + b)[1..] == a[1..] + b;
      ForwardConcat(C.After(c, a[0]), a[1..], b);
    }
  }

  /** Moves of which only the first may be an install, and that of enough writes. */
  lemma MovesForward(c: C.Cluster, k: nat, i: nat, moves: seq<G.Move>)
    requires C.IsShard(c, k) && CanAll(c.groups[k], i, moves) && Forwards(c.groups[k], i, moves)
    ensures C.IsRun(c, StepsOf(k, i, moves)) && Durability.AllForward(c, StepsOf(k, i, moves))
  {
    RunMoves(c, k, i, moves);
    hide CanAll, AfterAll;
    var steps := StepsOf(k, i, moves);
    if steps != [] {
      assert AllCalm(steps[1..]);
      CalmIsForward(C.After(c, steps[0]), steps[1..]);
    }
  }

  // ---------------------------------------------------------------- what the coordinator does not see

  /** A shard whose replicas have changed, and whose view has not, looks the same. */
  lemma SameBlur(c: C.Cluster, k: nat, g: G.Group)
    requires C.IsShard(c, k) && |g.replicas| == |c.groups[k].replicas| && g.view == c.groups[k].view
    ensures Blurred(C.Put(c, k, g)) == Blurred(c)
  {
    assert Blurred(C.Put(c, k, g)).groups == Blurred(c).groups;
  }

  /** A shard whose view has changed. */
  lemma ViewBlur(c: C.Cluster, k: nat, g: G.Group)
    requires C.IsShard(c, k) && |g.replicas| == |c.groups[k].replicas|
    ensures Blurred(C.Put(c, k, g)) ==
              Blurred(c).(groups := Blurred(c).groups[k := Blurred(c).groups[k].(view := BlurredView(g.view))])
  {
    var one, two := Blurred(C.Put(c, k, g)).groups,
                    Blurred(c).groups[k := Blurred(c).groups[k].(view := BlurredView(g.view))];
    assert |one| == |two|;
    forall j | 0 <= j < |one|
      ensures one[j] == two[j]
    {
    }
  }

  lemma ViewsBlur(c: C.Cluster)
    ensures |Blurred(c).groups| == |c.groups|
    ensures forall k :: 0 <= k < |c.groups| ==>
              && Blurred(c).groups[k].view == BlurredView(c.groups[k].view)
              && |Blurred(c).groups[k].replicas| == |c.groups[k].replicas|
  {
  }

  lemma BlurSees(c: C.Cluster)
    ensures C.AllKnown(Blurred(c)) <==> C.AllKnown(c)
    ensures C.AllReplied(Blurred(c)) <==> C.AllReplied(c)
    ensures C.SomeFailed(Blurred(c)) <==> C.SomeFailed(c)
  {
    ViewsBlur(c);
    hide Blurred;
    if C.AllKnown(Blurred(c)) {
      assert forall k :: 0 <= k < |c.groups| ==> Blurred(c).groups[k].view.Known?;
    }
    if C.AllReplied(Blurred(c)) {
      assert forall k :: 0 <= k < |c.groups| && Blurred(c).groups[k].view.Writing? ==>
               Blurred(c).groups[k].view.pending == {};
    }
    if C.SomeFailed(c) {
      var k :| 0 <= k < |c.groups| && c.groups[k].view.Writing? && c.groups[k].view.failed;
      assert Blurred(c).groups[k].view.failed;
    }
  }

  /** The coordinator decides by what it sees. */
  lemma DecisionBlurs(c: C.Cluster, a: C.Action)
    requires IsDecision(a) && |c.todo| == |c.groups| && C.Can(Blurred(c), a)
    ensures C.Can(c, a) && (a.StartAdd? ==> |a.batches| == |c.groups|)
  {
    ViewsBlur(c);
    BlurSees(c);
    assert Blurred(c).todo == c.todo && Blurred(c).size == c.size && Blurred(c).activity == c.activity;
    hide Blurred, C.AllKnown, C.AllReplied, C.SomeFailed;
  }

  /** A decision is about views: replicas stay as they are. */
  lemma DecisionLeaves(c: C.Cluster, a: C.Action)
    requires IsDecision(a) && |c.todo| == |c.groups| && C.Can(c, a)
    requires a.StartAdd? ==> |a.batches| == |c.groups|
    ensures |C.After(c, a).groups| == |c.groups| == |C.After(c, a).todo|
    ensures forall k :: 0 <= k < |c.groups| ==> C.After(c, a).groups[k].replicas == c.groups[k].replicas
  {
    hide C.AllKnown, C.AllReplied, C.SomeFailed;
  }

  /** And what it sees afterwards depends on what it saw. */
  lemma DecisionViews(c: C.Cluster, a: C.Action, k: nat)
    requires IsDecision(a) && |c.todo| == |c.groups| && C.Can(c, a) && C.Can(Blurred(c), a) && k < |c.groups|
    ensures |C.After(c, a).groups| == |c.groups| == |C.After(Blurred(c), a).groups|
    ensures BlurredView(C.After(c, a).groups[k].view) == BlurredView(C.After(Blurred(c), a).groups[k].view)
  {
    if a.SendChunks? || a.FinishChunks? {
      ChunkViews(c, a, k);
    } else {
      ViewsBlur(c);
      assert Blurred(c).todo == c.todo && Blurred(c).size == c.size && Blurred(c).activity == c.activity;
      hide Blurred, C.AllKnown, C.AllReplied, C.SomeFailed, C.NothingLeft;
    }
  }

  lemma ChunkViews(c: C.Cluster, a: C.Action, k: nat)
    requires a.SendChunks? || a.FinishChunks?
    requires |c.todo| == |c.groups| && C.Can(c, a) && C.Can(Blurred(c), a) && k < |c.groups|
    ensures |C.After(c, a).groups| == |c.groups| == |C.After(Blurred(c), a).groups|
    ensures BlurredView(C.After(c, a).groups[k].view) == BlurredView(C.After(Blurred(c), a).groups[k].view)
  {
    ViewsBlur(c);
    BlurSees(c);
    assert Blurred(c).todo == c.todo && Blurred(c).size == c.size && Blurred(c).activity == c.activity;
    hide Blurred, C.AllKnown, C.AllReplied, C.SomeFailed;
  }

  lemma DecisionBlursOn(c: C.Cluster, a: C.Action)
    requires IsDecision(a) && |c.todo| == |c.groups| && C.Can(c, a) && C.Can(Blurred(c), a)
    ensures Blurred(C.After(Blurred(c), a)) == Blurred(C.After(c, a))
  {
    var one, two := C.After(Blurred(c), a), C.After(c, a);
    ViewsBlur(c);
    BlurSees(c);
    DecisionLeaves(c, a);
    DecisionLeaves(Blurred(c), a);
    forall k | 0 <= k < |c.groups|
      ensures BlurredGroup(one.groups[k]) == BlurredGroup(two.groups[k])
    {
      DecisionViews(c, a, k);
    }
    DecisionRest(c, a);
    hide C.After, C.Can;
    assert Blurred(one).groups == Blurred(two).groups;
  }

  lemma DecisionRest(c: C.Cluster, a: C.Action)
    requires IsDecision(a) && |c.todo| == |c.groups| && C.Can(c, a) && C.Can(Blurred(c), a)
    ensures var one, two := C.After(Blurred(c), a), C.After(c, a);
            one.size == two.size && one.todo == two.todo && one.activity == two.activity
  {
    ViewsBlur(c);
    BlurSees(c);
    assert Blurred(c).todo == c.todo && Blurred(c).size == c.size && Blurred(c).activity == c.activity;
    hide Blurred, C.AllKnown, C.AllReplied, C.SomeFailed;
  }

  /** What is allowed is decided by what it sees, too. */
  lemma MayDecide<S(!new)>(e: Engine<S>, w: World<S>, c: C.Cluster, a: C.Action)
    requires ShowsWorld(e, w, c) && IsDecision(a) && C.Can(c, a)
    ensures CanHappen(w, Decide(a))
  {
    hide ShowsHosts, ShowsLedger, IsWhole;
    ViewsBlur(c);
    BlurSees(c);
    assert w.mind.todo == c.todo && w.mind.size == c.size && w.mind.activity == c.activity;
    hide Blurred, C.AllKnown, C.AllReplied, C.SomeFailed;
  }

  // ---------------------------------------------------------------- everything that can happen

  /** Nothing the coordinator knows, awaits or has been told is different. */
  ghost predicate Unseen(c: C.Cluster, later: C.Cluster) {
    && later.size == c.size && later.todo == c.todo && later.activity == c.activity && later.ledger == c.ledger
    && |later.groups| == |c.groups|
    && forall k :: 0 <= k < |c.groups| ==>
         && later.groups[k].view == c.groups[k].view
         && |later.groups[k].replicas| == |c.groups[k].replicas|
  }

  lemma PutUnseen(c: C.Cluster, k: nat, g: G.Group)
    requires C.IsShard(c, k) && g.view == c.groups[k].view && |g.replicas| == |c.groups[k].replicas|
    ensures Unseen(c, C.Put(c, k, g))
  {
  }

  /** One shard's hosts, and their group, replaced. */
  lemma ShardReplaced<S(!new)>(e: Engine<S>, w: World<S>, c: C.Cluster, k: nat, hosts: seq<Host<S>>, g: G.Group)
    requires ShowsWorld(e, w, c) && C.IsShard(c, k) && ShowsHosts(e, hosts, g)
    requires |g.replicas| == |c.groups[k].replicas| && g.view == c.groups[k].view
    ensures ShowsWorld(e, w.(shards := w.shards[k := hosts]), C.Put(c, k, g))
  {
    hide ShowsHost, ShowsLedger, Blurred, IsWhole;
    SameBlur(c, k, g);
    AllStillWhole(w.shards, w.shards[k := hosts], w.ledger);
  }

  lemma DoesShows<S(!new)>(e: Engine<S>, w: World<S>, c: C.Cluster, k: nat, i: nat, doing: Doing)
      returns (actions: seq<C.Action>)
    requires Faithful(e.codec) && ShowsWorld(e, w, c) && C.Safe(c) && k < |w.shards| && CanDo(w.shards[k], i, doing)
    ensures C.IsRun(c, actions) && (!BringsBack(w.shards[k], i, doing) ==> Durability.AllForward(c, actions))
    ensures ShowsWorld(e, w.(shards := w.shards[k := Done(e, w.shards[k], i, doing)]), C.Final(c, actions))
    ensures Unseen(c, C.Final(c, actions))
  {
    hide ShowsWorld, ShowsHosts, C.Safe, G.Sound, CanDo, Done, Blurred, C.IsRun, C.Final, Unseen, CanAll, AfterAll,
         Forwards;
    ShardFacts(e, w, c, k);
    var g := c.groups[k];
    var from, first, moves := DoingShows(e, w.shards[k], g, i, doing);
    var mid := AfterAll(g, from, first);
    var later := AfterAll(mid, i, moves);
    OthersStay(g, from, first);
    OthersStay(mid, i, moves);
    RunMoves(c, k, from, first);
    RunMoves(C.Put(c, k, mid), k, i, moves);
    PutTwice(c, k, mid, later);
    PutUnseen(c, k, later);
    RunConcat(c, StepsOf(k, from, first), StepsOf(k, i, moves));
    ShardReplaced(e, w, c, k, Done(e, w.shards[k], i, doing), later);
    actions := StepsOf(k, from, first) + StepsOf(k, i, moves);
    if !BringsBack(w.shards[k], i, doing) {
      CalmForwards(g, from, first);
      MovesForward(c, k, from, first);
      MovesForward(C.Put(c, k, mid), k, i, moves);
      ForwardConcat(c, StepsOf(k, from, first), StepsOf(k, i, moves));
    }
  }

  lemma ShardFacts<S(!new)>(e: Engine<S>, w: World<S>, c: C.Cluster, k: nat)
    requires ShowsWorld(e, w, c) && C.Safe(c) && k < |w.shards|
    ensures C.IsShard(c, k) && ShowsHosts(e, w.shards[k], c.groups[k]) && G.Sound(c.groups[k])
  {
    hide ShowsHosts, G.Sound, C.IdsFit, C.Disjoint, ShowsLedger, IsWhole;
  }

  lemma JustRun(c: C.Cluster, a: C.Action)
    requires C.Can(c, a)
    ensures C.IsRun(c, [a]) && C.Final(c, [a]) == C.After(c, a)
  {
    C.RunOn(c, [], a);
    assert [] + [a] == [a];
  }

  lemma StartSyncShows<S(!new)>(e: Engine<S>, w: World<S>, c: C.Cluster, k: nat, i: nat, source: nat)
    requires ShowsWorld(e, w, c) && CanHappen(w, StartSync(k, i, source))
    ensures C.Can(c, C.Sync(k, i, source))
    ensures ShowsWorld(e, WithHost(w, k, i, w.shards[k][i].(sync := Some(Sync(source, Asking)))),
                       C.After(c, C.Sync(k, i, source)))
  {
    var g, h := c.groups[k], w.shards[k][i];
    ViewsBlur(c);
    assert ShowsHosts(e, w.shards[k], g);
    assert ShowsHost(e, h, g.replicas[i]);
    hide Blurred, ShowsDisk, Running, Clean, ShowsHosts;
    var r := g.replicas[i].(session := Some(G.Session(source, G.Asking)));
    StartedShows(e, h, g.replicas[i], source);
    hide ShowsHost, ShowsWorld;
    HostReplaced(e, w.shards[k], g, i, h.(sync := Some(Sync(source, Asking))), r);
    ShardReplaced(e, w, c, k, w.shards[k][i := h.(sync := Some(Sync(source, Asking)))], G.StartSync(g, i, source));
  }

  lemma SyncUnseen(c: C.Cluster, k: nat, i: nat, source: nat)
    requires C.Can(c, C.Sync(k, i, source))
    ensures Unseen(c, C.After(c, C.Sync(k, i, source)))
  {
  }

  lemma StartedShows<S(!new)>(e: Engine<S>, h: Host<S>, r: G.Replica, source: nat)
    requires ShowsHost(e, h, r) && r.up
    ensures ShowsHost(e, h.(sync := Some(Sync(source, Asking))), r.(session := Some(G.Session(source, G.Asking))))
  {
    SyncGoesOn(e, h, r, Sync(source, Asking), G.Session(source, G.Asking));
  }

  lemma HostReplaced<S(!new)>(e: Engine<S>, hosts: seq<Host<S>>, g: G.Group, i: nat, h: Host<S>, r: G.Replica)
    requires ShowsHosts(e, hosts, g) && i < |hosts| && ShowsHost(e, h, r)
    ensures ShowsHosts(e, hosts[i := h], g.(replicas := g.replicas[i := r]))
  {
    hide ShowsHost;
  }

  /** Hosts show the replicas of a group, whatever its view. */
  lemma AnyView<S(!new)>(e: Engine<S>, hosts: seq<Host<S>>, g: G.Group, view: G.View)
    requires ShowsHosts(e, hosts, g)
    ensures ShowsHosts(e, hosts, g.(view := view))
  {
    hide ShowsHost;
  }

  /** A shard's view, or its hosts too, replaced. */
  lemma ViewReplaced<S(!new)>(e: Engine<S>, w: World<S>, c: C.Cluster, k: nat, hosts: seq<Host<S>>, g: G.Group,
                              view: G.View)
    requires ShowsWorld(e, w, c) && C.IsShard(c, k) && ShowsHosts(e, hosts, g)
    requires |g.replicas| == |c.groups[k].replicas| && BlurredView(g.view) == view
    ensures k < |w.mind.groups| == |w.shards|
    ensures ShowsWorld(e, WithView(w.(shards := w.shards[k := hosts]), k, view), C.Put(c, k, g))
  {
    hide ShowsHost, ShowsLedger, Blurred, BlurredView, IsWhole;
    ViewBlur(c, k, g);
    ViewsBlur(c);
    AllStillWhole(w.shards, w.shards[k := hosts], w.ledger);
  }

  /** A reply to Status: the last write's number, and the next free id, as of the history. */
  lemma StatusShows<S(!new)>(e: Engine<S>, nextId: S -> int, w: World<S>, c: C.Cluster)
    requires Faithful(e.codec) && Counts(e, nextId) && ShowsWorld(e, w, c) && CanHappen(w, Status)
    ensures C.Can(c, C.AskNext)
    ensures ShowsWorld(e, Next(e, nextId, w, Status), C.After(c, C.AskNext))
  {
    var k := w.mind.activity.shard;
    ViewsBlur(c);
    var g, found := c.groups[k], w.mind.groups[k].view.found;
    var h, r := w.shards[k][|found|], g.replicas[|found|];
    assert ShowsHosts(e, w.shards[k], g);
    assert ShowsHost(e, h, r);
    assert h.memory.value == Running(e, r.history, r.snapshotSeq) && AllLoggable(e, r.history);
    hide Blurred, ShowsDisk, ShowsHost, Clean, ShowsHosts;
    assert nextId(h.memory.value.shard) == G.NextId(r.history);
    AnyView(e, w.shards[k], g, G.Ask(g).view);
    hide ShowsWorld, AllLoggable, Counts, Running;
    ViewReplaced(e, w, c, k, w.shards[k], G.Ask(g), G.Ask(g).view);
    assert w.shards[k := w.shards[k]] == w.shards;
  }

  lemma DecideShows<S(!new)>(e: Engine<S>, w: World<S>, c: C.Cluster, a: C.Action)
    requires ShowsWorld(e, w, c) && C.Safe(c) && IsDecision(a) && C.Can(w.mind, a)
    ensures C.Can(c, a)
    ensures ShowsWorld(e, w.(mind := Blurred(C.After(w.mind, a)), ledger := w.ledger + NewReceipts(w.mind, a)),
                       C.After(c, a))
  {
    hide C.Safe, C.Can, C.After, Blurred, ShowsHosts, ShowsLedger, NewReceipts, IsWhole;
    DecisionBlurs(c, a);
    DecisionBlursOn(c, a);
    DecisionLeaves(c, a);
    HostCounts(e, w, c);
    LedgerShows(w.ledger, c, a);
    NewOnesWhole(w, c, a);
    forall k | 0 <= k < |c.groups|
      ensures ShowsHosts(e, w.shards[k], C.After(c, a).groups[k])
    {
      AnyView(e, w.shards[k], c.groups[k], C.After(c, a).groups[k].view);
    }
  }

  lemma HostCounts<S(!new)>(e: Engine<S>, w: World<S>, c: C.Cluster)
    requires ShowsWorld(e, w, c)
    ensures forall k :: 0 <= k < |c.groups| ==> |c.groups[k].replicas| == |w.shards[k]| > 0
  {
    hide ShowsHost, ShowsLedger, Blurred, IsWhole;
  }

  // ---------------------------------------------------------------- the ledger

  /** And its receipts are from every replica. */
  lemma NewOnesWhole<S>(w: World<S>, c: C.Cluster, a: C.Action)
    requires w.mind == Blurred(c) && C.Safe(c) && IsDecision(a) && C.Can(c, a) && |w.shards| == |c.groups|
    requires forall k :: 0 <= k < |c.groups| ==> |c.groups[k].replicas| == |w.shards[k]| > 0
    ensures forall n :: 0 <= n < |NewReceipts(w.mind, a)| ==> IsWhole(w.shards, NewReceipts(w.mind, a)[n])
  {
    hide C.Safe, C.SomeFailed, Blurred, IsWhole;
    ViewsBlur(c);
    BlurSees(c);
    if a.FinishChunks? && !C.SomeFailed(c) {
      ReceiptsWhole(w, c, |c.groups|);
    }
  }

  lemma {:induction false} ReceiptsWhole<S>(w: World<S>, c: C.Cluster, k: nat)
    requires w.mind == Blurred(c) && |w.shards| == |c.groups| == |w.mind.groups|
    requires C.Safe(c) && C.Can(c, C.FinishChunks) && !C.SomeFailed(c) && k <= |c.groups|
    requires forall j :: 0 <= j < |c.groups| ==> |c.groups[j].replicas| == |w.shards[j]| > 0
    ensures forall n :: 0 <= n < |Receipts(w.mind, k)| ==> IsWhole(w.shards, Receipts(w.mind, k)[n])
  {
    hide C.Safe, C.SomeFailed, C.Can, Blurred;
    ViewsBlur(c);
    if k > 0 {
      ReceiptsWhole(w, c, k - 1);
      if c.groups[k - 1].view.Writing? {
        Durability.EveryoneAcked(c, k - 1);
      }
    }
  }

  /** A round that succeeds puts the same writes in both ledgers; no other decision touches them. */
  lemma LedgerShows(ledger: seq<Receipt>, c: C.Cluster, a: C.Action)
    requires ShowsLedger(ledger, c.ledger) && C.Safe(c) && IsDecision(a) && C.Can(c, a)
    requires forall k :: 0 <= k < |c.groups| ==> |c.groups[k].replicas| > 0
    ensures ShowsLedger(ledger + NewReceipts(Blurred(c), a), C.After(c, a).ledger)
  {
    hide C.Safe, C.SomeFailed, Blurred;
    ViewsBlur(c);
    BlurSees(c);
    if a.FinishChunks? && !C.SomeFailed(c) {
      ReceiptsShow(c, |c.groups|);
    } else {
      assert ledger + [] == ledger;
    }
  }

  lemma {:induction false} ReceiptsShow(c: C.Cluster, k: nat)
    requires C.Safe(c) && C.Can(c, C.FinishChunks) && !C.SomeFailed(c) && k <= |c.groups| == |Blurred(c).groups|
    requires forall j :: 0 <= j < |c.groups| ==> |c.groups[j].replicas| > 0
    ensures ShowsLedger(Receipts(Blurred(c), k), C.Entries(c, k))
  {
    hide C.Safe, C.SomeFailed, C.Can, Blurred, BlurredView;
    ViewsBlur(c);
    if k > 0 {
      ReceiptsShow(c, k - 1);
      if c.groups[k - 1].view.Writing? {
        ReceiptShows(c, k - 1);
      }
      ViewBlurs(c.groups[k - 1].view);
    }
  }

  lemma ViewBlurs(view: G.View)
    ensures BlurredView(view).Writing? <==> view.Writing?
  {
  }

  lemma ReceiptShows(c: C.Cluster, k: nat)
    requires C.Safe(c) && C.Can(c, C.FinishChunks) && !C.SomeFailed(c)
    requires k < |c.groups| && c.groups[k].view.Writing? && |c.groups[k].replicas| > 0
    ensures 0 in c.groups[k].view.acks && BlurredView(c.groups[k].view).Writing?
    ensures ShowsEntry(ReceiptFor(k, BlurredView(c.groups[k].view)), C.EntryFor(k, c.groups[k].view))
  {
    hide C.Safe, C.Can, C.SomeFailed;
    var view := c.groups[k].view;
    Durability.EveryoneAcked(c, k);
    assert ReceiptFor(k, BlurredView(view)).disks == C.EntryFor(k, view).disks;
  }

  // ---------------------------------------------------------------- a write arrives

  lemma OthersShow<S(!new)>(e: Engine<S>, hosts: seq<Host<S>>, g: G.Group, later: G.Group, i: nat, h: Host<S>)
    requires ShowsHosts(e, hosts, g) && i < |hosts| && |later.replicas| == |g.replicas|
    requires forall j :: 0 <= j < |g.replicas| && j != i ==> later.replicas[j] == g.replicas[j]
    requires ShowsHost(e, h, later.replicas[i])
    ensures ShowsHosts(e, hosts[i := h], later)
  {
    hide ShowsHost;
  }

  /** The coordinator sees of a call only whether it was acknowledged. */
  lemma RepliesBlur(g: G.Group, i: nat, acked: bool)
    requires G.CanDrop(g, i) && i < |g.replicas|
    ensures BlurredView(G.Drop(g, i).view) == Replied(BlurredView(g.view), i, false, g.replicas[i].disk)
    ensures G.CanDeliver(g, i) ==>
              BlurredView(G.Deliver(g, i, acked).view) == Replied(BlurredView(g.view), i, acked, g.replicas[i].disk)
  {
    if G.CanDeliver(g, i) && acked {
      assert BlurredView(G.Deliver(g, i, acked).view).acks
             == BlurredView(g.view).acks[i := G.Ack([], g.replicas[i].disk)];
    }
  }

  /** What is known when a write reaches a replica that can take it. */
  lemma ArriveFacts<S(!new)>(e: Engine<S>, w: World<S>, c: C.Cluster, k: nat, i: nat, acked: bool, crash: Option<nat>)
    requires ShowsWorld(e, w, c) && CanHappen(w, Arrive(k, i, acked, crash))
    ensures C.IsShard(c, k) && G.CanDeliver(c.groups[k], i) && ShowsHosts(e, w.shards[k], c.groups[k])
    ensures i < |w.shards[k]| && ShowsHost(e, w.shards[k][i], c.groups[k].replicas[i])
    ensures k < |w.mind.groups| && w.mind.groups[k].view == BlurredView(c.groups[k].view)
    ensures w.mind.groups[k].view.batch == c.groups[k].view.batch
    ensures w.shards[k][i].memory.value.lastSeq == |c.groups[k].replicas[i].history|
  {
    ViewsBlur(c);
    assert ShowsHosts(e, w.shards[k], c.groups[k]);
    assert ShowsHost(e, w.shards[k][i], c.groups[k].replicas[i]);
    hide Blurred, ShowsDisk, Clean;
  }

  /** The replica after the write, perhaps a snapshot, and perhaps a crash. */
  lemma ArrivedShows<S(!new)>(e: Engine<S>, h: Host<S>, r: G.Replica, later: Host<S>, b: Batch, snapped: bool)
    requires ShowsHost(e, h, r) && r.up && r.session.None?
    requires var shown := AndSo(Written(r, b, true), snapped, false);
             && ShowsDisk(e, later.disk, shown)
             && (later.memory.Some? ==> ShowsMemory(e, later, shown)
                                        && later == h.(disk := later.disk, memory := later.memory))
             && (later.memory.None? ==> later == Fallen(h, later.disk))
    ensures ShowsHost(e, later, AndSo(Written(r, b, true), snapped, later.memory.None?))
  {
    hide Keeps, Scan, Reopen, Orderly, AllLoggable, Clean, Running;
  }

  /** The call to shard k is over, and this is what the coordinator now knows of it. */
  ghost predicate HasAnswered(c: C.Cluster, later: C.Cluster, k: nat, view: G.View) {
    && later == c.(groups := later.groups) && k < |later.groups| == |c.groups|
    && later.groups[k].view == view && |later.groups[k].replicas| == |c.groups[k].replicas|
    && forall j :: 0 <= j < |c.groups| && j != k ==> later.groups[j] == c.groups[j]
  }

  lemma PutAnswers(c: C.Cluster, k: nat, g: G.Group)
    requires C.IsShard(c, k) && |g.replicas| == |c.groups[k].replicas|
    ensures HasAnswered(c, C.Put(c, k, g), k, g.view)
  {
  }

  lemma CallIsCalm(call: C.Action, k: nat, i: nat, snapped: bool, fallen: bool)
    requires !call.Step?
    ensures AllCalm([call] + StepsOf(k, i, Then(snapped, fallen)))
  {
  }

  lemma WrittenShows<S(!new)>(e: Engine<S>, w: World<S>, c: C.Cluster, k: nat, i: nat, acked: bool, later: Host<S>,
                              snapped: bool)
      returns (actions: seq<C.Action>)
    requires ShowsWorld(e, w, c) && C.IsShard(c, k) && G.CanDeliver(c.groups[k], i)
    requires ShowsHosts(e, w.shards[k], c.groups[k]) && i < |w.shards[k]|
    requires ShowsHost(e, later, AndSo(Written(c.groups[k].replicas[i], c.groups[k].view.batch, true), snapped,
                                       later.memory.None?))
    ensures C.IsRun(c, actions) && k < |w.mind.groups| && AllCalm(actions)
    ensures ShowsWorld(e, WithView(w.(shards := w.shards[k := w.shards[k][i := later]]), k,
                                   Replied(BlurredView(c.groups[k].view), i, acked, c.groups[k].replicas[i].disk)),
                       C.Final(c, actions))
    ensures HasAnswered(c, C.Final(c, actions), k, G.Deliver(c.groups[k], i, acked).view)
  {
    hide ShowsHosts, ShowsHost, Blurred, C.IsRun, C.Final, AllCalm, HasAnswered;
    CallIsCalm(C.Reach(k, i, acked), k, i, snapped, later.memory.None?);
    var g := c.groups[k];
    var mid, moves := G.Deliver(g, i, acked), Then(snapped, later.memory.None?);
    RepliesBlur(g, i, acked);
    ViewsBlur(c);
    assert |w.mind.groups| == |c.groups|;
    hide ShowsWorld;
    Untouched(mid, i);
    AndSoOn(mid, i, [], snapped, later.memory.None?);
    assert [] + moves == moves;
    OthersStay(mid, i, moves);
    hide CanAll, AfterAll, AndSo;
    var after := AfterAll(mid, i, moves);
    OthersShow(e, w.shards[k], g, after, i, later);
    JustRun(c, C.Reach(k, i, acked));
    RunMoves(C.Put(c, k, mid), k, i, moves);
    PutTwice(c, k, mid, after);
    PutAnswers(c, k, after);
    RunConcat(c, [C.Reach(k, i, acked)], StepsOf(k, i, moves));
    ViewReplaced(e, w, c, k, w.shards[k][i := later], after,
                 Replied(BlurredView(g.view), i, acked, g.replicas[i].disk));
    actions := [C.Reach(k, i, acked)] + StepsOf(k, i, moves);
  }

  /** The call failed: the replica refused the write, or fell before the write was whole in its log. */
  lemma MissedShows<S(!new)>(e: Engine<S>, w: World<S>, c: C.Cluster, k: nat, i: nat, later: Host<S>, fallen: bool)
      returns (actions: seq<C.Action>)
    requires ShowsWorld(e, w, c) && C.IsShard(c, k) && G.CanDeliver(c.groups[k], i)
    requires ShowsHosts(e, w.shards[k], c.groups[k]) && i < |w.shards[k]|
    requires ShowsHost(e, later, AndSo(c.groups[k].replicas[i], false, fallen))
    ensures C.IsRun(c, actions) && k < |w.mind.groups| && AllCalm(actions)
    ensures ShowsWorld(e, WithView(w.(shards := w.shards[k := w.shards[k][i := later]]), k,
                                   Replied(BlurredView(c.groups[k].view), i, false, c.groups[k].replicas[i].disk)),
                       C.Final(c, actions))
    ensures HasAnswered(c, C.Final(c, actions), k, G.Drop(c.groups[k], i).view)
  {
    hide ShowsHosts, ShowsHost, Blurred, C.IsRun, C.Final, AllCalm, HasAnswered;
    CallIsCalm(C.Miss(k, i), k, i, false, fallen);
    var g := c.groups[k];
    var mid, moves := G.Drop(g, i), Then(false, fallen);
    RepliesBlur(g, i, false);
    ViewsBlur(c);
    assert |w.mind.groups| == |c.groups|;
    hide ShowsWorld;
    Untouched(mid, i);
    AndSoOn(mid, i, [], false, fallen);
    assert [] + moves == moves;
    OthersStay(mid, i, moves);
    hide CanAll, AfterAll, AndSo;
    var after := AfterAll(mid, i, moves);
    OthersShow(e, w.shards[k], g, after, i, later);
    JustRun(c, C.Miss(k, i));
    RunMoves(C.Put(c, k, mid), k, i, moves);
    PutTwice(c, k, mid, after);
    PutAnswers(c, k, after);
    RunConcat(c, [C.Miss(k, i)], StepsOf(k, i, moves));
    ViewReplaced(e, w, c, k, w.shards[k][i := later], after,
                 Replied(BlurredView(g.view), i, false, g.replicas[i].disk));
    actions := [C.Miss(k, i)] + StepsOf(k, i, moves);
  }

  /** A reply is from the state the write led to; without one the call has failed. */
  ghost predicate IsAnswer<S(!new)>(e: Engine<S>, g: G.Group, i: nat, reply: Option<S>, view: G.View)
    requires G.CanDeliver(g, i)
  {
    if reply.None? then view == G.Drop(g, i).view
    else
      var h := g.replicas[i].history + [g.view.batch];
      view == G.Deliver(g, i, true).view && AllLoggable(e, h) && reply.value == e.State(h)
  }

  lemma ArriveShows<S(!new)>(e: Engine<S>, nextId: S -> int, w: World<S>, c: C.Cluster, k: nat, i: nat, acked: bool,
                             crash: Option<nat>)
      returns (actions: seq<C.Action>)
    requires Faithful(e.codec) && ShowsWorld(e, w, c) && CanHappen(w, Arrive(k, i, acked, crash))
    ensures C.IsRun(c, actions) && AllCalm(actions)
    ensures ShowsWorld(e, Next(e, nextId, w, Arrive(k, i, acked, crash)), C.Final(c, actions))
    ensures C.IsShard(c, k) && G.CanDeliver(c.groups[k], i) && k < |C.Final(c, actions).groups|
    ensures var view := C.Final(c, actions).groups[k].view;
            && HasAnswered(c, C.Final(c, actions), k, view)
            && IsAnswer(e, c.groups[k], i, ReplyTo(e, w, k, i, acked, crash), view)
  {
    hide ShowsWorld, ShowsHosts, Blurred, BlurredView, C.IsRun, C.Final, AfterAdd, Acceptable, Faithful, ShowsDisk,
         ShowsMemory, IsAnswer;
    ArriveFacts(e, w, c, k, i, acked, crash);
    var h, r, b := w.shards[k][i], c.groups[k].replicas[i], c.groups[k].view.batch;
    if !Acceptable(e, |r.history|, b) {
      assert w.shards[k][i := h] == w.shards[k] && w.shards[k := w.shards[k]] == w.shards;
      actions := MissedShows(e, w, c, k, i, h, false);
      NoAnswer(e, c.groups[k], i);
      return;
    }
    var applied, snapped := AddRefines(e, h, r, b, crash);
    var later := AfterAdd(e, h, b, crash);
    if applied {
      ArrivedShows(e, h, r, later, b, snapped);
      actions := WrittenShows(e, w, c, k, i, acked && later.memory.Some?, later, snapped);
      Answers(e, c.groups[k], i, acked, later, snapped);
    } else {
      FallenShows(e, h, r, later.disk);
      actions := MissedShows(e, w, c, k, i, later, true);
      NoAnswer(e, c.groups[k], i);
    }
  }

  lemma NoAnswer<S(!new)>(e: Engine<S>, g: G.Group, i: nat)
    requires G.CanDeliver(g, i)
    ensures IsAnswer(e, g, i, None, G.Drop(g, i).view)
    ensures G.Deliver(g, i, false).view == G.Drop(g, i).view
  {
  }

  lemma Answers<S(!new)>(e: Engine<S>, g: G.Group, i: nat, acked: bool, later: Host<S>, snapped: bool)
    requires G.CanDeliver(g, i)
    requires var shown := AndSo(Written(g.replicas[i], g.view.batch, true), snapped, later.memory.None?);
             ShowsHost(e, later, shown)
    ensures IsAnswer(e, g, i, if acked && later.memory.Some? then Some(later.memory.value.shard) else None,
                     G.Deliver(g, i, acked && later.memory.Some?).view)
  {
    hide Keeps, Scan, Orderly, Clean, Reopen, AllLoggable;
    NoAnswer(e, g, i);
  }

  // ---------------------------------------------------------------- every run

  /** Whatever happens in the world is a step or a few of the cluster it shows. */
  lemma HappeningShows<S(!new)>(e: Engine<S>, nextId: S -> int, w: World<S>, c: C.Cluster, happening: Happening)
      returns (actions: seq<C.Action>)
    requires Faithful(e.codec) && Counts(e, nextId) && ShowsWorld(e, w, c) && C.Safe(c) && CanHappen(w, happening)
    ensures C.IsRun(c, actions) && ShowsWorld(e, Next(e, nextId, w, happening), C.Final(c, actions))
    ensures Onward(w, happening) ==> Durability.AllForward(c, actions)
    ensures happening.Does? || happening.StartSync? ==> Unseen(c, C.Final(c, actions))
  {
    hide ShowsWorld, Faithful, Counts, C.Safe, C.Can, C.After, C.IsRun, C.Final, CanDo, Done, AfterAdd, Unseen,
         HasAnswered, IsAnswer;
    match happening {
      case Does(k, i, doing) => actions := DoesShows(e, w, c, k, i, doing);
      case StartSync(k, i, source) =>
        StartSyncShows(e, w, c, k, i, source);
        JustRun(c, C.Sync(k, i, source));
        SyncUnseen(c, k, i, source);
        actions := [C.Sync(k, i, source)];
      case Status =>
        StatusShows(e, nextId, w, c);
        JustRun(c, C.AskNext);
        actions := [C.AskNext];
      case Arrive(k, i, acked, crash) => actions := ArriveShows(e, nextId, w, c, k, i, acked, crash);
      case Decide(a) =>
        DecideShows(e, w, c, a);
        JustRun(c, a);
        actions := [a];
    }
    if !happening.Does? {
      CalmIsForward(c, actions);
    }
  }

  lemma {:induction false} RunShows<S(!new)>(e: Engine<S>, nextId: S -> int, w: World<S>, c: C.Cluster,
                                             run: seq<Happening>)
      returns (actions: seq<C.Action>)
    requires Faithful(e.codec) && Counts(e, nextId) && ShowsWorld(e, w, c) && C.Safe(c) && Happens(e, nextId, w, run)
    ensures C.IsRun(c, actions) && ShowsWorld(e, Eventually(e, nextId, w, run), C.Final(c, actions))
    ensures AllOnward(e, nextId, w, run) ==> Durability.AllForward(c, actions)
    decreases |run|
  {
    hide ShowsWorld, Faithful, Counts, C.Safe, CanHappen, Next;
    actions := [];
    if run != [] {
      var first := HappeningShows(e, nextId, w, c, run[0]);
      C.RunSafe(c, first);
      var rest := RunShows(e, nextId, Next(e, nextId, w, run[0]), C.Final(c, first), run[1..]);
      RunConcat(c, first, rest);
      actions := first + rest;
      if AllOnward(e, nextId, w, run) {
        ForwardConcat(c, first, rest);
      }
    }
  }

  /** The cluster a new world shows. */
  lemma BeginningShows<S(!new)>(e: Engine<S>, w: World<S>) returns (c: C.Cluster)
    requires Begins(w)
    ensures C.Initial(c) && ShowsWorld(e, w, c)
  {
    c := w.mind;
    EmptyDiskHoldsNothing(e);
    TooShort(e.codec, []);
    hide Scan, Holds;
    assert Blurred(c).groups == c.groups;
    forall k | 0 <= k < |w.shards|
      ensures ShowsHosts(e, w.shards[k], c.groups[k])
    {
    }
  }

  /**
    Every run of the world is a run of the cluster: what replicas do to their files, wherever
    crashes stop them, with syncs from sources that come back empty, torn installs and disks
    that cannot be opened, and a coordinator that sees only replies. If no host of the world
    installs fewer writes than it has, no replica of the cluster does.
    */
  lemma WorldsAreRuns<S(!new)>(e: Engine<S>, nextId: S -> int, w: World<S>, run: seq<Happening>)
      returns (start: C.Cluster, actions: seq<C.Action>)
    requires Faithful(e.codec) && Counts(e, nextId) && Begins(w) && Happens(e, nextId, w, run)
    ensures C.Initial(start) && C.IsRun(start, actions)
    ensures ShowsWorld(e, Eventually(e, nextId, w, run), C.Final(start, actions))
    ensures AllOnward(e, nextId, w, run) ==> Durability.AllForward(start, actions)
  {
    start := BeginningShows(e, w);
    C.InitiallySafe(start);
    actions := RunShows(e, nextId, w, start, run);
  }

  // ---------------------------------------------------------------- what that means for the disks

  lemma HostOfWorld<S(!new)>(e: Engine<S>, w: World<S>, c: C.Cluster, k: nat, i: nat)
    requires ShowsWorld(e, w, c) && k < |w.shards| && i < |w.shards[k]|
    ensures Guarantees.IsReplica(c, k, i) && ShowsHost(e, w.shards[k][i], c.groups[k].replicas[i])
  {
    assert ShowsHosts(e, w.shards[k], c.groups[k]);
    hide ShowsHost;
  }

  lemma OpenDiskShows<S(!new)>(e: Engine<S>, d: Disk<S>, r: G.Replica)
    requires ShowsDisk(e, d, r)
    ensures Reopen(e, d).Ok? <==> !r.stuck
    ensures !r.stuck ==> Reopen(e, d) == Ok(Running(e, r.history, SnapshotSeq(d))) && SnapshotSeq(d) <= |r.history|
  {
    if !r.stuck {
      KeepsOpens(e, d, r.history);
    }
    hide Keeps, Scan, Reopen;
  }

  /** What opening two disks of a shard gives. */
  ghost predicate AgreeOnDisk<S(!new)>(e: Engine<S>, d: Disk<S>, d': Disk<S>, a: History, b: History) {
    && Comparable(a, b) && Reopen(e, d).Ok? && Reopen(e, d').Ok?
    && var one, two := Reopen(e, d).value, Reopen(e, d').value;
       && one.lastSeq == |a| && one.shard == e.State(a)
       && two.lastSeq == |b| && two.shard == e.State(b)
       && (one.lastSeq == two.lastSeq ==> one.shard == two.shard)
  }

  lemma OpenAgree<S(!new)>(e: Engine<S>, d: Disk<S>, d': Disk<S>, r: G.Replica, r': G.Replica)
    requires ShowsDisk(e, d, r) && ShowsDisk(e, d', r') && Comparable(r.history, r'.history)
    requires Reopen(e, d).Ok? && Reopen(e, d').Ok?
    ensures AgreeOnDisk(e, d, d', r.history, r'.history)
  {
    OpenDiskShows(e, d, r);
    OpenDiskShows(e, d', r');
    hide ShowsDisk, Reopen;
    var a, b := r.history, r'.history;
    if |a| == |b| {
      assert a == b;
    }
  }

  lemma ShownDisks<S(!new)>(e: Engine<S>, w: World<S>, c: C.Cluster, k: nat, i: nat)
    requires ShowsWorld(e, w, c) && k < |w.shards| && i < |w.shards[k]|
    ensures Guarantees.IsReplica(c, k, i) && ShowsDisk(e, w.shards[k][i].disk, c.groups[k].replicas[i])
  {
    HostOfWorld(e, w, c, k, i);
    hide ShowsWorld, ShowsDisk;
  }

  /**
    In every run of the world: two disks of a shard that can be opened at all open as folds of
    histories one of which begins the other; so as equal shards, if their numbers are equal.
    */
  lemma OpenDisksAgree<S(!new)>(e: Engine<S>, nextId: S -> int, w: World<S>, run: seq<Happening>, k: nat, i: nat,
                                j: nat)
      returns (a: History, b: History)
    requires Faithful(e.codec) && Counts(e, nextId) && Begins(w) && Happens(e, nextId, w, run)
    requires var shards := Eventually(e, nextId, w, run).shards;
             && k < |shards| && i < |shards[k]| && j < |shards[k]|
             && Reopen(e, shards[k][i].disk).Ok? && Reopen(e, shards[k][j].disk).Ok?
    ensures var shards := Eventually(e, nextId, w, run).shards;
            AgreeOnDisk(e, shards[k][i].disk, shards[k][j].disk, a, b)
  {
    var start, actions := WorldsAreRuns(e, nextId, w, run);
    hide *;
    var last, c := Eventually(e, nextId, w, run), C.Final(start, actions);
    ShownDisks(e, last, c, k, i);
    ShownDisks(e, last, c, k, j);
    var r, r' := c.groups[k].replicas[i], c.groups[k].replicas[j];
    HistoriesCompare(start, actions, k, i, j);
    OpenAgree(e, last.shards[k][i].disk, last.shards[k][j].disk, r, r');
    a, b := r.history, r'.history;
  }

  lemma HistoriesCompare(start: C.Cluster, actions: seq<C.Action>, k: nat, i: nat, j: nat)
    requires C.Initial(start) && C.IsRun(start, actions)
    requires Guarantees.IsReplica(C.Final(start, actions), k, i) && Guarantees.IsReplica(C.Final(start, actions), k, j)
    ensures var c := C.Final(start, actions);
            && k < |c.groups| && i < |c.groups[k].replicas| && j < |c.groups[k].replicas|
            && Comparable(c.groups[k].replicas[i].history, c.groups[k].replicas[j].history)
  {
    Guarantees.HistoriesAgree(start, actions, k, i, j);
  }

  /**
    In every run of the world that has cost the shard no disk, each of its disks can be opened:
    "log jumps" is never reported. And their numbers differ by at most one.
    */
  lemma DisksOpen<S(!new)>(e: Engine<S>, nextId: S -> int, w: World<S>, run: seq<Happening>, k: nat, i: nat, j: nat)
    requires Faithful(e.codec) && Counts(e, nextId) && Begins(w) && Happens(e, nextId, w, run)
    requires var shards := Eventually(e, nextId, w, run).shards;
             && k < |shards| && i < |shards[k]| && j < |shards[k]|
             && forall l :: 0 <= l < |shards[k]| ==> shards[k][l].disks == 0
    ensures var shards := Eventually(e, nextId, w, run).shards;
            var one, two := Reopen(e, shards[k][i].disk), Reopen(e, shards[k][j].disk);
            one.Ok? && two.Ok? && one.value.lastSeq <= two.value.lastSeq + 1
  {
    var start, actions := WorldsAreRuns(e, nextId, w, run);
    var last, c := Eventually(e, nextId, w, run), C.Final(start, actions);
    hide ShowsWorld, Happens, Eventually, C.IsRun, C.Final, C.Initial, ShowsDisk, Reopen, Counts, Faithful;
    HostOfWorld(e, last, c, k, i);
    HostOfWorld(e, last, c, k, j);
    NoDiskLost(e, last, c, k);
    Lockstep.LastSeqsWithinOne(start, actions, k, i, j);
    Lockstep.LastSeqsWithinOne(start, actions, k, j, i);
    OpenDiskShows(e, last.shards[k][i].disk, c.groups[k].replicas[i]);
    OpenDiskShows(e, last.shards[k][j].disk, c.groups[k].replicas[j]);
  }

  lemma NoDiskLost<S(!new)>(e: Engine<S>, w: World<S>, c: C.Cluster, k: nat)
    requires ShowsWorld(e, w, c) && k < |w.shards|
    requires forall l :: 0 <= l < |w.shards[k]| ==> w.shards[k][l].disks == 0
    ensures k < |c.groups| && Lockstep.NoDiskLost(c.groups[k])
  {
    assert ShowsHosts(e, w.shards[k], c.groups[k]);
    forall l | 0 <= l < |c.groups[k].replicas|
      ensures c.groups[k].replicas[l].disk == 0
    {
      assert ShowsHost(e, w.shards[k][l], c.groups[k].replicas[l]);
    }
  }

  /** The disk keeps this history, and opens as it. */
  ghost predicate OpensAs<S(!new)>(e: Engine<S>, d: Disk<S>, h: History) {
    Keeps(e, d, h) && AllLoggable(e, h) && SnapshotSeq(d) <= |h| && Reopen(e, d) == Ok(Running(e, h, SnapshotSeq(d)))
  }

  /** And one that begins with `h`. */
  ghost predicate ReadsBack<S(!new)>(e: Engine<S>, d: Disk<S>, h: History) {
    exists longer :: h <= longer && OpensAs(e, d, longer)
  }

  /** The write, with all before it, is read back from every disk it was acknowledged from and that is not lost. */
  ghost predicate StillWritten<S(!new)>(e: Engine<S>, shards: seq<seq<Host<S>>>, receipt: Receipt) {
    && IsWhole(shards, receipt)
    && exists h :: h != [] && |h| == receipt.number && h[|h| - 1] == receipt.batch
                   && IsReadBack(e, shards[receipt.shard], receipt.disks, h)
  }

  ghost predicate IsReadBack<S(!new)>(e: Engine<S>, hosts: seq<Host<S>>, disks: map<nat, nat>, h: History) {
    forall i: nat :: i < |hosts| && i in disks && hosts[i].disks == disks[i] ==> ReadsBack(e, hosts[i].disk, h)
  }

  /**
    In every run of the world in which no host installs fewer writes than it has: every disk
    opens; and every write that all replicas of its shard acknowledged, in a round that succeeded,
    is read back under its number, with one and the same history before it, from every disk it
    was acknowledged from and that has not been lost, whatever crashed and wherever.
    */
  lemma AcknowledgedWritesAreOnDisk<S(!new)>(e: Engine<S>, nextId: S -> int, w: World<S>, run: seq<Happening>)
    requires Faithful(e.codec) && Counts(e, nextId) && Begins(w) && Happens(e, nextId, w, run)
    requires AllOnward(e, nextId, w, run)
    ensures var last := Eventually(e, nextId, w, run);
            && (forall k, i :: 0 <= k < |last.shards| && 0 <= i < |last.shards[k]| ==>
                  Reopen(e, last.shards[k][i].disk).Ok?)
            && forall n :: 0 <= n < |last.ledger| ==> StillWritten(e, last.shards, last.ledger[n])
  {
    var start, actions := WorldsAreRuns(e, nextId, w, run);
    hide *;
    var last, c := Eventually(e, nextId, w, run), C.Final(start, actions);
    NoDiskStuck(e, last, start, actions);
    forall n | 0 <= n < |last.ledger|
      ensures StillWritten(e, last.shards, last.ledger[n])
    {
      ReceiptOnDisk(e, last, start, actions, n);
    }
  }

  lemma NoDiskStuck<S(!new)>(e: Engine<S>, w: World<S>, start: C.Cluster, actions: seq<C.Action>)
    requires C.Initial(start) && C.IsRun(start, actions) && Durability.AllForward(start, actions)
    requires ShowsWorld(e, w, C.Final(start, actions))
    ensures forall k, i :: 0 <= k < |w.shards| && 0 <= i < |w.shards[k]| ==> Reopen(e, w.shards[k][i].disk).Ok?
  {
    hide ShowsWorld, ShowsDisk, Reopen, C.IsRun, C.Final;
    EveryoneOpens(start, actions);
    forall k, i | 0 <= k < |w.shards| && 0 <= i < |w.shards[k]|
      ensures Reopen(e, w.shards[k][i].disk).Ok?
    {
      ShownDisks(e, w, C.Final(start, actions), k, i);
      OpenDiskShows(e, w.shards[k][i].disk, C.Final(start, actions).groups[k].replicas[i]);
    }
  }

  lemma EveryoneOpens(start: C.Cluster, actions: seq<C.Action>)
    requires C.Initial(start) && C.IsRun(start, actions) && Durability.AllForward(start, actions)
    ensures Durability.NobodyStuck(C.Final(start, actions))
  {
    C.InitiallySafe(start);
    Durability.ForwardNeverStuck(start, actions);
  }

  lemma ReceiptOnDisk<S(!new)>(e: Engine<S>, w: World<S>, start: C.Cluster, actions: seq<C.Action>, n: nat)
    requires C.Initial(start) && C.IsRun(start, actions) && Durability.AllForward(start, actions)
    requires ShowsWorld(e, w, C.Final(start, actions)) && n < |w.ledger|
    ensures StillWritten(e, w.shards, w.ledger[n])
  {
    hide C.Initial, C.IsRun, C.Final, ShowsWorld, Durability.AllForward, ReadsBack;
    var c := C.Final(start, actions);
    ReceiptFacts(e, w, c, n);
    var receipt, entry := w.ledger[n], c.ledger[n];
    forall i: nat | i < |w.shards[receipt.shard]| && w.shards[receipt.shard][i].disks == receipt.disks[i]
      ensures ReadsBack(e, w.shards[receipt.shard][i].disk, entry.history)
    {
      EntryOnDisk(e, w, start, actions, n, i);
    }
    assert IsReadBack(e, w.shards[receipt.shard], receipt.disks, entry.history);
  }

  lemma SameLength<S(!new)>(e: Engine<S>, w: World<S>, c: C.Cluster)
    requires ShowsWorld(e, w, c)
    ensures |w.ledger| == |c.ledger| && |w.shards| == |c.groups|
  {
    hide ShowsHosts, IsWhole, Blurred;
  }

  lemma ReceiptFacts<S(!new)>(e: Engine<S>, w: World<S>, c: C.Cluster, n: nat)
    requires ShowsWorld(e, w, c) && n < |w.ledger|
    ensures |w.ledger| == |c.ledger| && ShowsEntry(w.ledger[n], c.ledger[n]) && IsWhole(w.shards, w.ledger[n])
  {
    hide ShowsHosts, ShowsEntry, IsWhole, Blurred;
  }

  lemma EntryOnDisk<S(!new)>(e: Engine<S>, w: World<S>, start: C.Cluster, actions: seq<C.Action>, n: nat, i: nat)
    requires C.Initial(start) && C.IsRun(start, actions) && Durability.AllForward(start, actions)
    requires ShowsWorld(e, w, C.Final(start, actions))
    requires n < |C.Final(start, actions).ledger| && i in C.Final(start, actions).ledger[n].disks
    ensures var entry := C.Final(start, actions).ledger[n];
            && entry.shard < |w.shards| && i < |w.shards[entry.shard]|
            && (w.shards[entry.shard][i].disks == entry.disks[i] ==>
                  ReadsBack(e, w.shards[entry.shard][i].disk, entry.history))
  {
    hide C.Initial, C.IsRun, C.Final, ShowsWorld, ShowsDisk, Durability.AllForward, OpensAs;
    var c := C.Final(start, actions);
    var entry := c.ledger[n];
    Durability.AcknowledgedWritesStay(start, actions, n, i);
    HostsOfWorld(e, w, c, entry.shard, i);
    EveryoneOpens(start, actions);
    var d, r := w.shards[entry.shard][i].disk, c.groups[entry.shard].replicas[i];
    ShownOpens(e, d, r);
    if w.shards[entry.shard][i].disks == entry.disks[i] {
      assert entry.history <= r.history && OpensAs(e, d, r.history);
    }
  }

  lemma ShownOpens<S(!new)>(e: Engine<S>, d: Disk<S>, r: G.Replica)
    requires ShowsDisk(e, d, r) && !r.stuck
    ensures OpensAs(e, d, r.history)
  {
    OpenDiskShows(e, d, r);
    hide Keeps, Scan, Reopen, Orderly, AllLoggable;
  }

  lemma HostsOfWorld<S(!new)>(e: Engine<S>, w: World<S>, c: C.Cluster, k: nat, i: nat)
    requires ShowsWorld(e, w, c) && Guarantees.IsReplica(c, k, i)
    ensures k < |w.shards| && i < |w.shards[k]| && w.shards[k][i].disks == c.groups[k].replicas[i].disk
    ensures ShowsDisk(e, w.shards[k][i].disk, c.groups[k].replicas[i])
  {
    hide ShowsDisk, ShowsLedger, IsWhole, Blurred;
    assert ShowsHosts(e, w.shards[k], c.groups[k]);
    assert ShowsHost(e, w.shards[k][i], c.groups[k].replicas[i]);
  }

  /** What is on record stays on record. */
  lemma {:induction false} LedgerGrows<S(!new)>(e: Engine<S>, nextId: S -> int, w: World<S>, run: seq<Happening>)
    requires Faithful(e.codec) && Happens(e, nextId, w, run)
    ensures w.ledger <= Eventually(e, nextId, w, run).ledger
    decreases |run|
  {
    hide CanOccur, AfterAdd, Done, NewReceipts, Blurred, C.After, C.Can;
    if run != [] {
      LedgerGrows(e, nextId, Next(e, nextId, w, run[0]), run[1..]);
    }
  }

  lemma {:induction false} RunsOn<S(!new)>(e: Engine<S>, nextId: S -> int, w: World<S>, run: seq<Happening>,
                                           more: seq<Happening>)
    requires Faithful(e.codec) && Happens(e, nextId, w, run)
    ensures Happens(e, nextId, w, run + more) <==> Happens(e, nextId, Eventually(e, nextId, w, run), more)
    ensures Happens(e, nextId, w, run + more) ==>
              Eventually(e, nextId, w, run + more) == Eventually(e, nextId, Eventually(e, nextId, w, run), more)
    decreases |run|
  {
    hide CanHappen, Next;
    if run == [] {
      assert run + more == more;
    } else {
      assert (run + more)[1..] == run[1..] + more;
      RunsOn(e, nextId, Next(e, nextId, w, run[0]), run[1..], more);
    }
  }

  lemma {:induction false} RunsUpTo<S(!new)>(e: Engine<S>, nextId: S -> int, w: World<S>, run: seq<Happening>, n: nat)
    requires Faithful(e.codec) && Happens(e, nextId, w, run) && n <= |run|
    ensures Happens(e, nextId, w, run[..n])
    decreases n
  {
    hide CanHappen, Next;
    if n > 0 {
      assert run[..n][1..] == run[1..][..n - 1];
      RunsUpTo(e, nextId, Next(e, nextId, w, run[0]), run[1..], n - 1);
    }
  }
}

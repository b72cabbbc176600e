/**
  A run in which a write that `add` saw acknowledged disappears from a replica that never lost
  its disk: the source it was catching up from lost its own disk at the wrong moment.
  */
module LostDiskExample {
  import opened Bytes
  import opened LogFormat
  import opened Histories
  import opened ReplicaGroups
  import opened Clusters
  import opened Durability

  function Vector(id: i64): Batch {
    Batch(0, [id], [], [[]])
  }

  function Idling(h: History, snapshotSeq: nat): Replica {
    Replica(h, snapshotSeq, true, false, 0, None)
  }

  function Pair(a: Replica, b: Replica, view: View): seq<Group> {
    [Group([a, b], view)]
  }

  /** A cluster of one shard, whose group becomes another. */
  lemma OneShard(c: Cluster, g: Group)
    requires |c.groups| == |c.todo| == 1
    ensures Put(c, 0, g).groups == [g]
  {
  }

  lemma Take(start: Cluster, actions: seq<Action>, a: Action, next: Cluster) returns (more: seq<Action>)
    requires IsRun(start, actions) && Can(Final(start, actions), a) && After(Final(start, actions), a) == next
    ensures IsRun(start, more) && Final(start, more) == next
  {
    RunOn(start, actions, a);
    more := actions + [a];
  }

  function Asked(h: History, found: seq<Found>, size: int, ledger: seq<Entry>): Cluster {
    Cluster(Pair(Idling(h, 0), Idling(h, 0), Checking(found)), size, [[]], Inspecting(0), ledger)
  }

  lemma AskBoth(start: Cluster, actions: seq<Action>, h: History, size: int, ledger: seq<Entry>)
      returns (more: seq<Action>)
    requires IsRun(start, actions) && Final(start, actions) == Asked(h, [], size, ledger)
    ensures var found := Found(|h|, NextId(h));
            IsRun(start, more) && Final(start, more) == Asked(h, [found, found], size, ledger)
  {
    hide IsRun, Final, NextId;
    var found := Found(|h|, NextId(h));
    assert [] + [found] == [found] && [found] + [found] == [found, found];
    OneShard(Asked(h, [], size, ledger), Asked(h, [found], size, ledger).groups[0]);
    more := Take(start, actions, AskNext, Asked(h, [found], size, ledger));
    OneShard(Asked(h, [found], size, ledger), Asked(h, [found, found], size, ledger).groups[0]);
    more := Take(start, more, AskNext, Asked(h, [found, found], size, ledger));
  }

  /** From a shard at rest with the writes `h` on both replicas, a check finds them in agreement. */
  lemma Check(start: Cluster, actions: seq<Action>, h: History, size: int, ledger: seq<Entry>)
      returns (more: seq<Action>, next: int)
    requires IsRun(start, actions)
    requires Final(start, actions)
             == Cluster(Pair(Idling(h, 0), Idling(h, 0), Unknown), size, [[]], Idle, ledger)
    ensures IsRun(start, more)
    ensures next == if NextId(h) > size then NextId(h) else size
    ensures Final(start, more)
            == Cluster(Pair(Idling(h, 0), Idling(h, 0), Known(|h|)), next, [[]], Idle, ledger)
  {
    hide IsRun, Final, NextId;
    var r, found := Idling(h, 0), Found(|h|, NextId(h));
    OneShard(Final(start, actions), Asked(h, [], size, ledger).groups[0]);
    more := Take(start, actions, StartCheck(0), Asked(h, [], size, ledger));
    more := AskBoth(start, more, h, size, ledger);
    next := Largest([found, found], size);
    assert [found, found][..1] == [found] && [found][..0] == [];
    assert Largest([], size) == size;
    assert Largest([found], size) == if NextId(h) > size then NextId(h) else size;
    var g := Group([r, r], Known(|h|));
    OneShard(Asked(h, [found, found], size, ledger), g);
    more := Take(start, more, FinishCheck, Cluster([g], next, [[]], Idle, ledger));
  }

  /** `add` with one vector: its write is on the way to both replicas. */
  lemma Send(start: Cluster, actions: seq<Action>, h: History, size: int, ledger: seq<Entry>)
      returns (more: seq<Action>)
    requires IsRun(start, actions) && -0x8000_0000_0000_0000 <= size < 0x8000_0000_0000_0000
    requires Final(start, actions)
             == Cluster(Pair(Idling(h, 0), Idling(h, 0), Known(|h|)), size, [[]], Idle, ledger)
    ensures IsRun(start, more)
    ensures Final(start, more)
            == Cluster(Pair(Idling(h, 0), Idling(h, 0), Writing(|h|, Vector(size), {0, 1}, false, map[])),
                       size + 1, [[]], Adding, ledger)
  {
    var r, b := Idling(h, 0), Vector(size);
    var c1 := Cluster(Pair(r, r, Known(|h|)), size + 1, [[b]], Adding, ledger);
    var c2 := Cluster(Pair(r, r, Writing(|h|, b, {0, 1}, false, map[])), size + 1, [[]], Adding, ledger);
    assert forall id :: HasId([b], id) <==> id == size by { assert [b][0].ids == [size]; }
    more := Take(start, actions, StartAdd([[b]], size + 1), c1);
    assert c1.todo[0] == [b] && [b][1..] == [];
    assert Everyone(2) == {0, 1};
    assert After(c1, SendChunks).groups == c2.groups && After(c1, SendChunks).todo == c2.todo;
    more := Take(start, more, SendChunks, c2);
  }

  function Sending(a: Replica, b: Replica, n: nat, batch: Batch, pending: set<nat>, failed: bool, acks: map<nat, Ack>,
                   size: int, ledger: seq<Entry>): Cluster {
    Cluster(Pair(a, b, Writing(n, batch, pending, failed, acks)), size, [[]], Adding, ledger)
  }

  /** The first write reaches both replicas, and `add` returns. */
  lemma BothAcknowledge(start: Cluster, actions: seq<Action>) returns (more: seq<Action>, e: Entry)
    requires IsRun(start, actions)
    requires Final(start, actions) == Sending(Idling([], 0), Idling([], 0), 0, Vector(0), {0, 1}, false, map[], 1, [])
    ensures IsRun(start, more)
    ensures e.shard == 0 && e.history == [Vector(0)] && 1 in e.disks && e.disks[1] == 0
    ensures Final(start, more)
            == Cluster(Pair(Idling([Vector(0)], 0), Idling([Vector(0)], 0), Known(1)), 1, [[]], Adding, [e])
  {
    hide IsRun, Final;
    var h, r := [Vector(0)], Idling([Vector(0)], 0);
    more := BothReached(start, actions);
    var c := Final(start, more);
    e := EntryFor(0, c.groups[0].view);
    var done := Cluster(Pair(r, r, Known(1)), 1, [[]], Adding, [e]);
    assert After(c, FinishChunks).groups == done.groups;
    assert Entries(c, 0) == [] && Entries(c, 1) == [e];
    more := Take(start, more, FinishChunks, done);
  }

  lemma BothReached(start: Cluster, actions: seq<Action>) returns (more: seq<Action>)
    requires IsRun(start, actions)
    requires Final(start, actions) == Sending(Idling([], 0), Idling([], 0), 0, Vector(0), {0, 1}, false, map[], 1, [])
    ensures IsRun(start, more)
    ensures var ack := Ack([Vector(0)], 0);
            Final(start, more) == Sending(Idling([Vector(0)], 0), Idling([Vector(0)], 0), 0, Vector(0), {}, false,
                                          map[0 := ack, 1 := ack], 1, [])
  {
    var h, r, r' := [Vector(0)], Idling([], 0), Idling([Vector(0)], 0);
    var ack := Ack(h, 0);
    assert [] + h == h && {0, 1} - {0} == {1} && {1} - {1} == {};
    hide IsRun, Final, Vector;
    var c1 := Sending(r', r, 0, Vector(0), {1}, false, map[0 := ack], 1, []);
    var c2 := Sending(r', r', 0, Vector(0), {}, false, map[0 := ack, 1 := ack], 1, []);
    OneShard(Final(start, actions), c1.groups[0]);
    assert [r, r][0 := r'] == [r', r] && [r', r][1 := r'] == [r', r'];
    more := Take(start, actions, Reach(0, 0, true), c1);
    OneShard(c1, c2.groups[0]);
    assert map[0 := ack][1 := ack] == map[0 := ack, 1 := ack];
    more := Take(start, more, Reach(0, 1, true), c2);
  }

  /** The second write reaches replica 0 only, which then snapshots. */
  lemma OneMisses(start: Cluster, actions: seq<Action>, ledger: seq<Entry>) returns (more: seq<Action>)
    requires IsRun(start, actions)
    requires Final(start, actions)
             == Sending(Idling([Vector(0)], 0), Idling([Vector(0)], 0), 1, Vector(1), {0, 1}, false, map[], 2, ledger)
    ensures IsRun(start, more)
    ensures Final(start, more)
            == Cluster(Pair(Idling([Vector(0), Vector(1)], 2), Idling([Vector(0)], 0), Unknown), 2, [[]], Idle, ledger)
  {
    hide IsRun, Final, Vector;
    var h, r := [Vector(0), Vector(1)], Idling([Vector(0)], 0);
    var r', s := Idling(h, 0), Idling(h, 2);
    more := OneReached(start, actions, ledger);
    var c := Final(start, more);
    var failed := Cluster(Pair(r', r, Unknown), 2, [[]], Idle, ledger);
    assert SomeFailed(c) by { assert c.groups[0].view.failed; }
    assert After(c, FinishChunks).groups == failed.groups && Empty(1) == [[]];
    more := Take(start, more, FinishChunks, failed);
    assert [r', r][0 := s] == [s, r];
    var saved := Cluster(Pair(s, r, Unknown), 2, [[]], Idle, ledger);
    OneShard(failed, saved.groups[0]);
    more := Take(start, more, Step(0, 0, Checkpoint), saved);
  }

  lemma OneReached(start: Cluster, actions: seq<Action>, ledger: seq<Entry>) returns (more: seq<Action>)
    requires IsRun(start, actions)
    requires Final(start, actions)
             == Sending(Idling([Vector(0)], 0), Idling([Vector(0)], 0), 1, Vector(1), {0, 1}, false, map[], 2, ledger)
    ensures IsRun(start, more)
    ensures Final(start, more) == Sending(Idling([Vector(0), Vector(1)], 0), Idling([Vector(0)], 0), 1, Vector(1), {},
                                          true, map[0 := Ack([Vector(0), Vector(1)], 0)], 2, ledger)
  {
    var h, r := [Vector(0), Vector(1)], Idling([Vector(0)], 0);
    var r', ack := Idling(h, 0), Ack(h, 0);
    assert [Vector(0)] + [Vector(1)] == h && {0, 1} - {0} == {1} && {1} - {1} == {};
    assert [r, r][0 := r'] == [r', r];
    hide IsRun, Final, Vector;
    var c1 := Sending(r', r, 1, Vector(1), {1}, false, map[0 := ack], 2, ledger);
    var c2 := Sending(r', r, 1, Vector(1), {}, true, map[0 := ack], 2, ledger);
    OneShard(Final(start, actions), c1.groups[0]);
    more := Take(start, actions, Reach(0, 0, true), c1);
    OneShard(c1, c2.groups[0]);
    more := Take(start, more, Miss(0, 1), c2);
  }

  /** Replica 1 is refused the log, and the source loses its disk. */
  lemma SourceIsLost(start: Cluster, actions: seq<Action>, ledger: seq<Entry>) returns (more: seq<Action>)
    requires IsRun(start, actions)
    requires Final(start, actions) == Now(Idling([Vector(0), Vector(1)], 2), Idling([Vector(0)], 0), ledger)
    ensures IsRun(start, more)
    ensures Final(start, more)
            == Now(Replica([], 0, true, false, 1, None),
                   Idling([Vector(0)], 0).(session := Some(Session(0, Refused(0)))), ledger)
  {
    var s, r := Idling([Vector(0), Vector(1)], 2), Idling([Vector(0)], 0);
    var down, lost := s.(up := false), Replica([], 0, false, false, 1, None);
    var back := Replica([], 0, true, false, 1, None);
    var asking, refused := r.(session := Some(Session(0, Asking))), r.(session := Some(Session(0, Refused(0))));
    hide IsRun, Final;
    more := Become(start, actions, s, r, ledger, Sync(0, 1, 0), 1, asking);
    more := Become(start, more, s, asking, ledger, Step(0, 1, FetchLog), 1, refused);
    more := Become(start, more, s, refused, ledger, Step(0, 0, Crash), 0, down);
    more := Become(start, more, down, refused, ledger, Step(0, 0, LoseDisk), 0, lost);
    more := Become(start, more, lost, refused, ledger, Step(0, 0, Restart), 0, back);
  }

  /** The empty snapshot the source now has is fetched and installed. */
  lemma EmptyInstall(start: Cluster, actions: seq<Action>, ledger: seq<Entry>)
      returns (more: seq<Action>, emptied: Replica)
    requires IsRun(start, actions)
    requires Final(start, actions)
             == Now(Replica([], 0, true, false, 1, None),
                    Idling([Vector(0)], 0).(session := Some(Session(0, Refused(0)))), ledger)
    ensures IsRun(start, more) && Final(start, more) == Now(Replica([], 0, true, false, 1, None), emptied, ledger)
    ensures emptied.history == [] && emptied.disk == 0
  {
    var back, r := Replica([], 0, true, false, 1, None), Idling([Vector(0)], 0);
    var refused, carrying := r.(session := Some(Session(0, Refused(0)))), r.(session := Some(Session(0, Carrying([]))));
    emptied := Idling([], 0).(session := Some(Session(0, Asking)));
    hide IsRun, Final;
    more := Become(start, actions, back, refused, ledger, Step(0, 1, FetchSnapshot), 1, carrying);
    more := Become(start, more, back, carrying, ledger, Step(0, 1, Install), 1, emptied);
  }

  function Now(a: Replica, b: Replica, ledger: seq<Entry>): Cluster {
    Cluster(Pair(a, b, Unknown), 2, [[]], Idle, ledger)
  }

  /** One step of replica i, in a cluster of one shard with replicas a and b. */
  lemma Become(start: Cluster, actions: seq<Action>, a: Replica, b: Replica, ledger: seq<Entry>,
               step: Action, i: nat, r: Replica)
      returns (more: seq<Action>)
    requires IsRun(start, actions) && Final(start, actions) == Now(a, b, ledger) && i < 2
    requires var g := Group([a, b], Unknown);
             || (step.Step? && step.shard == 0 && step.replica == i && CanMove(g, i, step.move)
                 && Moved(g, i, step.move) == r)
             || (step.Sync? && step.shard == 0 && step.replica == i && CanStartSync(g, i, step.source)
                 && r == g.replicas[i].(session := Some(Session(step.source, Asking))))
    ensures IsRun(start, more)
    ensures Final(start, more) == if i == 0 then Now(r, b, ledger) else Now(a, r, ledger)
  {
    hide IsRun, Final, CanMove, Moved, CanStartSync;
    var c, g := Now(a, b, ledger), Group([a, b], Unknown);
    assert g.replicas[i := r] == if i == 0 then [r, b] else [a, r];
    OneShard(c, g.(replicas := g.replicas[i := r]));
    more := Take(start, actions, step, After(c, step));
  }

  lemma TwoOnOne(start: Cluster, actions: seq<Action>, e: Entry) returns (more: seq<Action>)
    requires IsRun(start, actions)
    requires Final(start, actions)
             == Cluster(Pair(Idling([Vector(0)], 0), Idling([Vector(0)], 0), Known(1)), 1, [[]], Adding, [e])
    ensures IsRun(start, more)
    ensures Final(start, more) == Now(Idling([Vector(0), Vector(1)], 2), Idling([Vector(0)], 0), [e])
  {
    hide IsRun, Final;
    var h := [Vector(0)];
    more := Take(start, actions, FinishAdd, Cluster(Pair(Idling(h, 0), Idling(h, 0), Known(1)), 1, [[]], Idle, [e]));
    more := Send(start, more, h, 1, [e]);
    more := OneMisses(start, more, [e]);
  }

  /** An acknowledged write, gone from a replica still on the disk it was acknowledged from. */
  lemma AcknowledgedWriteVanishes() returns (start: Cluster, actions: seq<Action>)
    ensures Initial(start) && IsRun(start, actions)
    ensures var c := Final(start, actions);
            && |c.ledger| == 1 && c.ledger[0].shard == 0 && c.ledger[0].history == [Vector(0)]
            && |c.groups| == 1 && |c.groups[0].replicas| == 2
            && 1 in c.ledger[0].disks && c.ledger[0].disks[1] == c.groups[0].replicas[1].disk
            && c.groups[0].replicas[1].history == []
  {
    var r := Idling([], 0);
    start := Cluster(Pair(r, r, Unknown), 0, [[]], Idle, []);
    actions := [];
    assert Final(start, actions) == start && Initial(start) && IsRun(start, actions);
    hide IsRun, Final, Initial, Idling, Vector, NextId;
    var size, e, emptied;
    actions, size := Check(start, actions, [], 0, []);
    actions := Send(start, actions, [], 0, []);
    actions, e := BothAcknowledge(start, actions);
    actions := TwoOnOne(start, actions, e);
    actions := SourceIsLost(start, actions, [e]);
    actions, emptied := EmptyInstall(start, actions, [e]);
  }
}

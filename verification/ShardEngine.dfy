/** The fold of writes, for real shards. */
module ShardEngines {
  import opened Bytes
  import opened Framing
  import opened LogFormat
  import opened Histories
  import opened Neighbours
  import opened HnswIndexes
  import opened Filters
  import opened Shards
  import opened Snapshots
  import opened Worlds
  import D = Disks
  import W = WorldRuns
  import G = ReplicaGroups

  /** A vector, as the bit patterns of its 32-bit floats. */
  type Vector = seq<u32>

  /** What a new shard is made with. */
  datatype Setup<!R> = Setup(f: Maths<Vector, R>, m: nat, efConstruction: nat, selection: Selection, seed: R)

  /** `reshape(count, dim)`. */
  function Matrix(values: seq<u32>, dim: nat, count: nat): (rows: seq<Vector>)
    ensures |rows| <= count
  {
    if count == 0 || dim > |values| then [] else [values[..dim]] + Matrix(values[dim..], dim, count - 1)
  }

  lemma {:induction false} MatrixIsWhole(values: seq<u32>, dim: nat, count: nat)
    requires |values| == count * dim
    ensures |Matrix(values, dim, count)| == count
  {
    if count > 0 {
      assert count * dim == dim + (count - 1) * dim;
      assert (count - 1) * dim >= 0;
      MatrixIsWhole(values[dim..], dim, count - 1);
    }
  }

  function NewState<R>(p: Setup<R>): ShardState<Vector, R> {
    ShardState(IndexState(p.m, p.efConstruction, p.selection, p.seed, [], [], None, -1), [], [])
  }

  /** One write applied. */
  ghost function ApplyTo<R>(f: Maths<Vector, R>, s: ShardState<Vector, R>, b: Batch): ShardState<Vector, R> {
    if s.index.topLayer < |s.index.graph|
    then AddedBatch(f, s, b.ids, Matrix(b.values, b.dim, |b.ids|), b.payloads) else s
  }

  ghost function Applying<R>(f: Maths<Vector, R>): (ShardState<Vector, R>, Batch) -> ShardState<Vector, R> {
    (s, b) => ApplyTo(f, s, b)
  }

  /** The engine of `Disks` and all that builds on it, with the real log format and the real shard. */
  ghost function ShardEngine<R>(p: Setup<R>, crc: Checksum, snapshotEvery: nat): D.Engine<ShardState<Vector, R>> {
    D.Engine(LogCodec(crc), NewState(p), Applying(p.f), snapshotEvery)
  }

  // ---------------------------------------------------------------- shards compute the fold

  /** A write reaches a shard: `self.shard.add_batch(global_ids, vectors, payloads)`. */
  method ApplyWrite<R>(shard: Shard<Vector, R>, b: Batch)
    requires shard.Valid()
    modifies shard, shard.index, shard.index.data
    ensures shard.Valid() && (fresh(shard.index.data) || shard.index.data == old(shard.index.data))
    ensures shard.State() == ApplyTo(shard.index.Functions(), old(shard.State()), b)
    ensures shard.index.efSearch == old(shard.index.efSearch)
  {
    hide AddedBatch, GoodGraph;
    shard.AddBatch(b.ids, Matrix(b.values, b.dim, |b.ids|), b.payloads);
  }

  lemma FoldNext<S>(start: S, apply: (S, Batch) -> S, writes: History, i: nat)
    requires i < |writes|
    ensures Fold(start, apply, writes[..i + 1]) == apply(Fold(start, apply, writes[..i]), writes[i])
  {
    assert writes[..i + 1][..i] == writes[..i];
  }

  /** A shard that is sent some writes ends in the fold over them, from where it was. */
  method ApplyAll<R>(shard: Shard<Vector, R>, writes: History)
    requires shard.Valid()
    modifies shard, shard.index, shard.index.data
    ensures shard.Valid() && (fresh(shard.index.data) || shard.index.data == old(shard.index.data))
    ensures shard.State() == Fold(old(shard.State()), Applying(shard.index.Functions()), writes)
    ensures shard.index.efSearch == old(shard.index.efSearch)
  {
    ghost var start, apply := shard.State(), Applying(shard.index.Functions());
    assert writes[..0] == [];
    hide GoodGraph, ApplyTo;
    for i := 0 to |writes|
      invariant shard.Valid() && (fresh(shard.index.data) || shard.index.data == old(shard.index.data))
      invariant shard.State() == Fold(start, apply, writes[..i])
      invariant shard.index.efSearch == old(shard.index.efSearch)
    {
      FoldNext(start, apply, writes, i);
      ApplyWrite(shard, writes[i]);
    }
    assert writes[..|writes|] == writes;
  }

  /** A new shard that is sent the writes of a history is in the state the engine gives that history. */
  method Build<R>(p: Setup<R>, ghost crc: Checksum, ghost snapshotEvery: nat, efSearch: nat, read: Text -> Json,
                  h: History)
      returns (shard: Shard<Vector, R>)
    requires p.m > 0
    ensures shard.Valid() && fresh(shard)
    ensures shard.State() == ShardEngine(p, crc, snapshotEvery).State(h)
  {
    var index := new Hnsw<Vector, R>(p.m, p.efConstruction, efSearch, p.selection, p.f.distance, p.f.normalize,
                                     p.f.drawLevel, p.seed);
    var payloadIndex := new PayloadIndex(read);
    shard := new Shard(index, payloadIndex, [], []);
    assert shard.State() == NewState(p);
    ApplyAll(shard, h);
  }

  /**
    A shard saved and loaded again, with whatever `ef_search`, and then sent any writes, is and
    stays in the very state of the one that never stopped.
    */
  method RestoredStaysEqual<R>(shard: Shard<Vector, R>, lastSeq: nat, efSearch: Option<nat>, writes: History)
      returns (again: Shard<Vector, R>)
    requires shard.Valid()
    modifies shard, shard.index, shard.index.data
    ensures shard.Valid() && again.Valid() && fresh(again)
    ensures again.State() == shard.State()
    ensures shard.State() == Fold(old(shard.State()), Applying(shard.index.Functions()), writes)
  {
    again := SaveAndLoad(shard, lastSeq, efSearch);
    ApplyAll(shard, writes);
    ApplyAll(again, writes);
  }

  /** Two disks that hold the same history, however each is split into snapshot and log, open as equal shards. */
  lemma EqualHistoriesEqualShards<R(!new)>(p: Setup<R>, crc: Checksum, every: nat, other: nat,
                                           d: D.Disk<ShardState<Vector, R>>, d': D.Disk<ShardState<Vector, R>>,
                                           h: History)
    requires D.Holds(ShardEngine(p, crc, every), d, h) && D.Holds(ShardEngine(p, crc, other), d', h)
    ensures var one, two := D.Reopen(ShardEngine(p, crc, every), d), D.Reopen(ShardEngine(p, crc, other), d');
            one.Ok? && two.Ok? && one.value.shard == two.value.shard == ShardEngine(p, crc, every).State(h)
  {
    D.ReopenFolds(ShardEngine(p, crc, every), d, h);
    D.ReopenFolds(ShardEngine(p, crc, other), d', h);
  }

  // ---------------------------------------------------------------- what a Status reply reads

  ghost predicate AllShaped(h: History) {
    forall i :: 0 <= i < |h| ==> Shaped(h[i])
  }

  lemma {:induction false} AddedIds<R>(f: Maths<Vector, R>, s: ShardState<Vector, R>, ids: seq<int>,
                                       vectors: seq<Vector>, texts: seq<Text>, n: nat)
    requires s.index.topLayer < |s.index.graph| && n <= |ids| && n <= |vectors| && n <= |texts|
    ensures AddedRows(f, s, ids, vectors, texts, n).globalIds == s.globalIds + ids[..n]
  {
    hide Inserted;
    if n > 0 {
      AddedIds(f, s, ids, vectors, texts, n - 1);
      assert ids[..n] == ids[..n - 1] + [ids[n - 1]];
    }
  }

  /** The shard of a history stores the history's ids, in order: `len` and `next_global_id` are read off it. */
  lemma {:induction false} IdsOfState<R>(p: Setup<R>, crc: Checksum, every: nat, h: History)
    requires AllShaped(h)
    ensures var s := ShardEngine(p, crc, every).State(h);
            s.index.topLayer < |s.index.graph| && s.globalIds == G.GlobalIds(h)
  {
    if h != [] {
      var front, b := h[..|h| - 1], h[|h| - 1];
      IdsOfState(p, crc, every, front);
      var s := ShardEngine(p, crc, every).State(front);
      var rows := Matrix(b.values, b.dim, |b.ids|);
      assert Shaped(b);
      MatrixIsWhole(b.values, b.dim, |b.ids|);
      AddedIds(p.f, s, b.ids, rows, Given(b.ids, b.payloads), Rows(b.ids, rows, b.payloads));
      assert b.ids[..|b.ids|] == b.ids;
      assert ShardEngine(p, crc, every).State(h) == ApplyTo(p.f, s, b);
    }
  }

  // ---------------------------------------------------------------- what a shard holds of each row

  /** A row of a write as the shard stores it. */
  datatype Item = Item(id: int, payload: Text, vector: Vector)

  ghost function ItemsOf<R>(f: Maths<Vector, R>, b: Batch): (items: seq<Item>)
    requires Shaped(b)
    ensures |items| == |b.ids|
  {
    MatrixIsWhole(b.values, b.dim, |b.ids|);
    var rows := Matrix(b.values, b.dim, |b.ids|);
    seq(|b.ids|, i requires 0 <= i < |b.ids| => Item(b.ids[i], b.payloads[i], f.normalize(rows[i])))
  }

  ghost function Items<R>(f: Maths<Vector, R>, h: History): seq<Item>
    requires AllShaped(h)
  {
    if h == [] then [] else Items(f, h[..|h| - 1]) + ItemsOf(f, h[|h| - 1])
  }

  ghost predicate HoldsItems<R>(s: ShardState<Vector, R>, items: seq<Item>) {
    && |s.globalIds| == |s.payloads| == |s.index.vectors| == |items|
    && forall i :: 0 <= i < |items| ==> items[i] == Item(s.globalIds[i], s.payloads[i], s.index.vectors[i])
  }

  /** The item is one of the shard's: id, payload and vector in the same place. */
  ghost predicate IsHeld<R>(s: ShardState<Vector, R>, item: Item) {
    exists i :: 0 <= i < |s.globalIds| && i < |s.payloads| && i < |s.index.vectors|
                && item == Item(s.globalIds[i], s.payloads[i], s.index.vectors[i])
  }

  lemma {:induction false} AddedHolds<R>(f: Maths<Vector, R>, s: ShardState<Vector, R>, items: seq<Item>, ids: seq<int>,
                                         vectors: seq<Vector>, texts: seq<Text>, n: nat)
    requires s.index.topLayer < |s.index.graph| && n <= |ids| && n <= |vectors| && n <= |texts| && HoldsItems(s, items)
    ensures HoldsItems(AddedRows(f, s, ids, vectors, texts, n),
                  items + seq(n, i requires 0 <= i < n => Item(ids[i], texts[i], f.normalize(vectors[i]))))
  {
    hide GraphAfter, EntryAfter;
    if n == 0 {
      assert items + [] == items;
    } else {
      AddedHolds(f, s, items, ids, vectors, texts, n - 1);
    }
  }

  /** The shard of a history holds its writes' rows, in order, each vector under its id and with its payload. */
  lemma {:induction false} ItemsOfState<R>(p: Setup<R>, crc: Checksum, every: nat, h: History)
    requires AllShaped(h)
    ensures var s := ShardEngine(p, crc, every).State(h);
            s.index.topLayer < |s.index.graph| && HoldsItems(s, Items(p.f, h))
  {
    hide AddedRows, HoldsItems;
    if h == [] {
      NothingHeld(p);
    } else {
      var front, b := h[..|h| - 1], h[|h| - 1];
      ItemsOfState(p, crc, every, front);
      var s := ShardEngine(p, crc, every).State(front);
      var rows := Matrix(b.values, b.dim, |b.ids|);
      assert Shaped(b);
      MatrixIsWhole(b.values, b.dim, |b.ids|);
      BatchHolds(p, s, Items(p.f, front), b);
      assert ShardEngine(p, crc, every).State(h) == ApplyTo(p.f, s, b);
    }
  }

  lemma NothingHeld<R>(p: Setup<R>)
    ensures NewState(p).index.topLayer < |NewState(p).index.graph| && HoldsItems(NewState(p), [])
  {
  }

  lemma BatchHolds<R>(p: Setup<R>, s: ShardState<Vector, R>, items: seq<Item>, b: Batch)
    requires s.index.topLayer < |s.index.graph| && Shaped(b) && HoldsItems(s, items)
    ensures HoldsItems(ApplyTo(p.f, s, b), items + ItemsOf(p.f, b))
  {
    hide AddedRows, HoldsItems;
    MatrixIsWhole(b.values, b.dim, |b.ids|);
    var rows, n := Matrix(b.values, b.dim, |b.ids|), |b.ids|;
    assert Given(b.ids, b.payloads) == b.payloads;
    AddedHolds(p.f, s, items, b.ids, rows, b.payloads, n);
    assert ItemsOf(p.f, b) == seq(n, i requires 0 <= i < n => Item(b.ids[i], b.payloads[i], p.f.normalize(rows[i])));
  }

  lemma {:induction false} ItemAt<R>(f: Maths<Vector, R>, h: History, j: nat, m: nat) returns (i: nat)
    requires AllShaped(h) && j < |h| && m < |h[j].ids|
    ensures Shaped(h[j]) && i < |Items(f, h)| && Items(f, h)[i] == ItemsOf(f, h[j])[m]
  {
    var front := h[..|h| - 1];
    if j == |h| - 1 {
      i := |Items(f, front)| + m;
    } else {
      assert front[j] == h[j];
      i := ItemAt(f, front, j, m);
    }
  }

  /** Row m of write j is one of the shard's. */
  lemma HeldItem<R>(p: Setup<R>, crc: Checksum, every: nat, h: History, j: nat, m: nat)
    requires AllShaped(h) && j < |h| && m < |h[j].ids|
    ensures Shaped(h[j]) && IsHeld(ShardEngine(p, crc, every).State(h), ItemsOf(p.f, h[j])[m])
  {
    hide ItemsOf, Items, ShardEngine;
    ItemsOfState(p, crc, every, h);
    var i := ItemAt(p.f, h, j, m);
    var s := ShardEngine(p, crc, every).State(h);
    assert Items(p.f, h)[i] == Item(s.globalIds[i], s.payloads[i], s.index.vectors[i]);
  }

  lemma LoggableAreShaped<R(!new)>(p: Setup<R>, crc: Checksum, every: nat, h: History)
    requires D.AllLoggable(ShardEngine(p, crc, every), h)
    ensures AllShaped(h)
  {
    var e := ShardEngine(p, crc, every);
    forall i | 0 <= i < |h|
      ensures Shaped(h[i])
    {
      assert e.codec.accepts(Record(i + 1, h[i]));
    }
  }

  /** `next_global_id`, read off a shard. */
  function NextIdIn<R>(s: ShardState<Vector, R>): int {
    if s.globalIds == [] then 0 else G.Max(s.globalIds) + 1
  }

  /** The real engine meets what the runs of the world ask of one. */
  lemma RealEngine<R(!new)>(p: Setup<R>, crc: Checksum, every: nat)
    ensures Faithful(ShardEngine(p, crc, every).codec)
    ensures W.Counts(ShardEngine(p, crc, every), (s: ShardState<Vector, R>) => NextIdIn(s))
  {
    LogCodecIsFaithful(crc);
    var e := ShardEngine(p, crc, every);
    forall h | D.AllLoggable(e, h)
      ensures NextIdIn(e.State(h)) == G.NextId(h)
    {
      LoggableAreShaped(p, crc, every, h);
      IdsOfState(p, crc, every, h);
    }
  }

  /**
    In every run of a world of real shards, with crashes, lost disks, snapshots and syncs: two
    replicas of a shard whose disks open with the same last number are in the very same state,
    vectors, links, payloads and generator.
    */
  lemma ReplicasAreTwins<R(!new)>(p: Setup<R>, crc: Checksum, every: nat, w: World<ShardState<Vector, R>>,
                                  run: seq<Happening>, k: nat, i: nat, j: nat)
    requires Faithful(ShardEngine(p, crc, every).codec) && Begins(w)
    requires Happens(ShardEngine(p, crc, every), (s: ShardState<Vector, R>) => NextIdIn(s), w, run)
    requires var e := ShardEngine(p, crc, every);
             var shards := Eventually(e, (s: ShardState<Vector, R>) => NextIdIn(s), w, run).shards;
             && k < |shards| && i < |shards[k]| && j < |shards[k]|
             && D.Reopen(e, shards[k][i].disk).Ok? && D.Reopen(e, shards[k][j].disk).Ok?
             && D.Reopen(e, shards[k][i].disk).value.lastSeq == D.Reopen(e, shards[k][j].disk).value.lastSeq
    ensures var e := ShardEngine(p, crc, every);
            var shards := Eventually(e, (s: ShardState<Vector, R>) => NextIdIn(s), w, run).shards;
            D.Reopen(e, shards[k][i].disk).value.shard == D.Reopen(e, shards[k][j].disk).value.shard
  {
    RealEngine(p, crc, every);
    var a, b := W.OpenDisksAgree(ShardEngine(p, crc, every), (s: ShardState<Vector, R>) => NextIdIn(s), w, run, k, i,
                                 j);
  }
}

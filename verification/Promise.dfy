/** What `add` promises of the disks. */
module Promises {
  import opened Bytes
  import opened Framing
  import opened LogFormat
  import opened Histories
  import opened HnswIndexes
  import opened Shards
  import opened ShardEngines
  import opened Routing
  import opened Coordinators
  import opened LawfulWorlds
  import D = Disks
  import G = ReplicaGroups
  import R = WorldRuns
  import W = Worlds

  // Once `add` has returned, every request is on record in the coordinator's world. Whatever
  // happens to that world from then on, as long as no replica installs a snapshot with fewer
  // writes than it has: what is on record is read back from every disk it was acknowledged from
  // and that is not lost.

  // ---------------------------------------------------------------- what is on record is on disk

  /** More happens, and no replica installs fewer writes than it has. */
  ghost predicate GoesOn<S(!new)>(reader: Reader<S>, first: W.World<S>, run: seq<W.Happening>, world: W.World<S>,
                                  more: seq<W.Happening>) {
    && Reads(reader) && LeadsTo(reader, first, run, world)
    && W.Happens(reader.engine, reader.nextId, first, run + more)
    && W.AllOnward(reader.engine, reader.nextId, first, run + more)
  }

  /** The world that leads to. */
  ghost function Later<S(!new)>(reader: Reader<S>, first: W.World<S>, run: seq<W.Happening>, world: W.World<S>,
                                more: seq<W.Happening>): W.World<S>
    requires GoesOn(reader, first, run, world, more)
  {
    W.Eventually(reader.engine, reader.nextId, first, run + more)
  }

  lemma ReceiptsLast<S(!new)>(reader: Reader<S>, first: W.World<S>, run: seq<W.Happening>, world: W.World<S>,
                              more: seq<W.Happening>, n: nat)
    requires GoesOn(reader, first, run, world, more) && n < |world.ledger|
    ensures var last := Later(reader, first, run, world, more);
            world.ledger <= last.ledger && R.StillWritten(reader.engine, last.shards, world.ledger[n])
  {
    hide R.StillWritten, R.Counts, Measures, W.Happens, W.Eventually, W.AllOnward, W.Begins;
    R.RunsOn(reader.engine, reader.nextId, first, run, more);
    R.LedgerGrows(reader.engine, reader.nextId, world, more);
    R.AcknowledgedWritesAreOnDisk(reader.engine, reader.nextId, first, run + more);
  }

  /**
    Every request of an `add` that returned: from then on it is read back, under its number and
    after one and the same history, from every replica's disk that is not lost.
    */
  lemma AddedRequestsAreOnDisk<S(!new)>(reader: Reader<S>, first: W.World<S>, run: seq<W.Happening>, world: W.World<S>,
                                        more: seq<W.Happening>, shares: seq<seq<Placed>>, dim: u32, per: nat, k: nat,
                                        j: nat)
      returns (n: nat)
    requires per > 0 && GoesOn(reader, first, run, world, more) && AllOnRecord(world, shares, dim, per)
    requires k < |shares| && j < |Requests(dim, shares[k], per)|
    ensures n < |world.ledger| && IsReceipt(world, n, k, Requests(dim, shares[k], per)[j])
    ensures R.StillWritten(reader.engine, Later(reader, first, run, world, more).shards, world.ledger[n])
  {
    hide GoesOn, IsReceipt, R.StillWritten, Requests, Later;
    assert OnRecord(world, k, Requests(dim, shares[k], per)[j]);
    n :| n < |world.ledger| && IsReceipt(world, n, k, Requests(dim, shares[k], per)[j]);
    ReceiptsLast(reader, first, run, world, more, n);
  }

  // ---------------------------------------------------------------- every row of it

  /** Each row of a share goes out in one of its requests. */
  lemma {:induction false} InARequest(dim: u32, share: seq<Placed>, per: nat, i: nat) returns (j: nat, lo: nat, hi: nat)
    requires per > 0 && i < |share|
    ensures lo <= i < hi <= |share| && j < |Requests(dim, share, per)|
    ensures Requests(dim, share, per)[j] == Request(dim, share[lo..hi])
    decreases |share|
  {
    hide Request;
    if |share| <= per {
      assert share[0..|share|] == share;
      j, lo, hi := 0, 0, |share|;
    } else if i < per {
      j, lo, hi := 0, 0, per;
    } else {
      var rest := share[per..];
      j, lo, hi := InARequest(dim, rest, per, i - per);
      DropSlice(share, per, lo, hi);
      j, lo, hi := j + 1, per + lo, per + hi;
    }
  }

  lemma DropSlice<T>(s: seq<T>, n: nat, lo: nat, hi: nat)
    requires n <= |s| && lo <= hi <= |s| - n
    ensures s[n..][lo..hi] == s[n + lo..n + hi]
  {
  }

  /** The rows of a request, as the shard that gets it sees them. */
  lemma {:induction false} MatrixOfValues(placed: seq<Placed>, dim: nat, i: nat)
    requires dim > 0 && i < |placed| && forall p :: p in placed ==> |p.row.values| == dim
    ensures |Values(placed)| == |placed| * dim && |Matrix(Values(placed), dim, |placed|)| == |placed|
    ensures Matrix(Values(placed), dim, |placed|)[i] == placed[i].row.values
    decreases |placed|
  {
    var rest := placed[1..];
    ValuesHead(placed);
    assert placed[0] in placed;
    var values := Values(placed);
    assert values[..dim] == placed[0].row.values && values[dim..] == Values(rest);
    if rest == [] {
      assert Values(rest) == [] && |Matrix([], dim, 0)| == 0;
    } else {
      MatrixOfValues(rest, dim, if i == 0 then 0 else i - 1);
      assert |values| == |placed| * dim;
    }
  }

  lemma ValuesHead(placed: seq<Placed>)
    requires placed != []
    ensures Values(placed) == placed[0].row.values + Values(placed[1..])
  {
    var first := placed[0];
    assert [first] + placed[1..] == placed;
    ValuesConcat([first], placed[1..]);
    assert [first][..0] == [] && [] + first.row.values == first.row.values;
  }

  ghost function ItemFor<T>(p: Setup<T>, placed: Placed): Item {
    Item(placed.id, placed.row.payload, p.f.normalize(placed.row.values))
  }

  lemma RequestItems<T>(p: Setup<T>, dim: u32, placed: seq<Placed>, i: nat)
    requires dim > 0 && i < |placed| && Shaped(Request(dim, placed))
    requires forall q :: q in placed ==> |q.row.values| == dim
    ensures i < |ItemsOf(p.f, Request(dim, placed))| && ItemsOf(p.f, Request(dim, placed))[i] == ItemFor(p, placed[i])
  {
    MatrixOfValues(placed, dim, i);
  }

  /** This host's disk, unless it is not the one that took the write, opens with the item on it. */
  ghost predicate HasItem<T(!new)>(e: D.Engine<ShardState<Vector, T>>, host: W.Host<ShardState<Vector, T>>, disks: nat,
                                   item: Item) {
    host.disks == disks ==> D.Reopen(e, host.disk).Ok? && IsHeld(D.Reopen(e, host.disk).value.shard, item)
  }

  /**
    Every row of an `add` that returned, in a world of real shards: whatever happens from then
    on, and however often it crashes, each replica of its shard that still has the disk it
    acknowledged the write from comes up with that vector, under that id, with that payload.
    */
  lemma AddedRowsAreRead<T(!new)>(p: Setup<T>, crc: Checksum, every: nat, reader: Reader<ShardState<Vector, T>>,
                                  first: W.World<ShardState<Vector, T>>, run: seq<W.Happening>,
                                  world: W.World<ShardState<Vector, T>>, more: seq<W.Happening>,
                                  rows: seq<Row>, start: int, shares: seq<seq<Placed>>, dim: u32, k: nat, i: nat)
      returns (n: nat)
    requires reader.engine == ShardEngine(p, crc, every) && GoesOn(reader, first, run, world, more)
    requires dim > 0 && Uniform(rows, dim) && Spread(rows, start, shares)
    requires AllOnRecord(world, shares, dim, PerRequest(dim, rows)) && k < |shares| && i < |shares[k]|
    ensures n < |world.ledger| && world.ledger[n].shard == k && shares[k][i].id in world.ledger[n].batch.ids
    ensures var hosts, receipt := Later(reader, first, run, world, more).shards, world.ledger[n];
            && k < |hosts| && W.IsWhole(hosts, receipt)
            && forall l :: 0 <= l < |hosts[k]| ==>
                 HasItem(reader.engine, hosts[k][l], receipt.disks[l], ItemFor(p, shares[k][i]))
  {
    hide GoesOn, Later, Requests, AllOnRecord, Spread, Uniform, W.IsWhole, HasItem, PerRequest, ShardEngine, ItemFor,
         R.StillWritten, R.IsReadBack;
    var j, lo, hi := InARequest(dim, shares[k], PerRequest(dim, rows), i);
    var share := shares[k][lo..hi];
    assert share[i - lo] == shares[k][i];
    n := AddedRequestsAreOnDisk(reader, first, run, world, more, shares, dim, PerRequest(dim, rows), k, j);
    var receipt, last := world.ledger[n], Later(reader, first, run, world, more);
    assert share[i - lo].id == receipt.batch.ids[i - lo];
    ShareIsUniform(rows, start, shares, dim, k, lo, hi);
    var h := HistoryOfReceipt(reader.engine, last.shards, receipt);
    forall l | 0 <= l < |last.shards[k]|
      ensures HasItem(reader.engine, last.shards[k][l], receipt.disks[l], ItemFor(p, shares[k][i]))
    {
      ReadItem(p, crc, every, reader.engine, last.shards[k], receipt.disks, h, l, dim, share, i - lo);
    }
  }

  lemma HistoryOfReceipt<S(!new)>(e: D.Engine<S>, shards: seq<seq<W.Host<S>>>, receipt: W.Receipt) returns (h: History)
    requires R.StillWritten(e, shards, receipt)
    ensures W.IsWhole(shards, receipt) && receipt.shard < |shards|
    ensures forall l :: 0 <= l < |shards[receipt.shard]| ==> l in receipt.disks
    ensures h != [] && h[|h| - 1] == receipt.batch && R.IsReadBack(e, shards[receipt.shard], receipt.disks, h)
  {
    hide R.IsReadBack;
    h :| h != [] && |h| == receipt.number && h[|h| - 1] == receipt.batch
         && R.IsReadBack(e, shards[receipt.shard], receipt.disks, h);
  }

  lemma ShareIsUniform(rows: seq<Row>, start: int, shares: seq<seq<Placed>>, dim: u32, k: nat, lo: nat, hi: nat)
    requires Uniform(rows, dim) && Spread(rows, start, shares) && k < |shares| && lo <= hi <= |shares[k]|
    ensures forall q :: q in shares[k][lo..hi] ==> |q.row.values| == dim
  {
    hide InIdOrder, Lands;
    assert FromRows(rows, start, shares[k]);
    forall q | q in shares[k][lo..hi]
      ensures |q.row.values| == dim
    {
      assert q in shares[k] && q.row in rows;
    }
  }

  lemma ReadItem<T(!new)>(p: Setup<T>, crc: Checksum, every: nat, e: D.Engine<ShardState<Vector, T>>,
                          hosts: seq<W.Host<ShardState<Vector, T>>>, disks: map<nat, nat>, h: History, l: nat,
                          dim: u32, share: seq<Placed>, i: nat)
    requires e == ShardEngine(p, crc, every) && R.IsReadBack(e, hosts, disks, h) && l < |hosts| && l in disks
    requires h != [] && h[|h| - 1] == Request(dim, share) && i < |share|
    requires dim > 0 && forall q :: q in share ==> |q.row.values| == dim
    ensures HasItem(e, hosts[l], disks[l], ItemFor(p, share[i]))
  {
    hide D.Keeps, D.Reopen, D.AllLoggable, IsHeld, Items, ItemsOf, ItemFor, AllShaped, ShardEngine;
    if hosts[l].disks == disks[l] {
      assert R.ReadsBack(e, hosts[l].disk, h);
      var longer :| h <= longer && R.OpensAs(e, hosts[l].disk, longer);
      LoggableAreShaped(p, crc, every, longer);
      ShapedAt(longer, |h| - 1);
      RequestItems(p, dim, share, i);
      HeldItem(p, crc, every, longer, |h| - 1, i);
    }
  }

  lemma ShapedAt(h: History, i: nat)
    requires AllShaped(h) && i < |h|
    ensures Shaped(h[i])
  {
  }
}

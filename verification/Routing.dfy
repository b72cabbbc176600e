/**
  Which shard each new vector goes to, with which id, and how a shard's share of them is cut
  into requests.
  */
module Routing {
  import opened Bytes
  import opened LogFormat
  import opened Histories
  import opened ReplicaGroups

  /** A vector with its payload, as handed to `add`. */
  datatype Row = Row(values: seq<u32>, payload: Text)

  /** A row with the global id it was given. */
  datatype Placed = Placed(id: i64, row: Row)

  const ID_LIMIT := 0x8000_0000_0000_0000

  // ---------------------------------------------------------------- what routing has to do

  ghost predicate InIdOrder(placed: seq<Placed>) {
    forall a, b :: 0 <= a < b < |placed| ==> placed[a].id < placed[b].id
  }

  /**
    Row number o gets id start + o, and goes with its own values and payload to exactly one
    shard; every shard has its share in order.
    */
  ghost predicate Spread(rows: seq<Row>, start: int, batches: seq<seq<Placed>>) {
    && (forall k :: 0 <= k < |batches| ==> InIdOrder(batches[k]))
    && (forall k :: 0 <= k < |batches| ==> FromRows(rows, start, batches[k]))
    && (forall o :: 0 <= o < |rows| ==> Lands(rows, start, batches, o))
    && (forall k, l, p, q ::
          0 <= k < |batches| && 0 <= l < |batches| && k != l && p in batches[k] && q in batches[l] ==> p.id != q.id)
  }

  ghost predicate FromRows(rows: seq<Row>, start: int, share: seq<Placed>) {
    forall p :: p in share ==> start <= p.id < start + |rows| && p.row == rows[p.id - start]
  }

  ghost predicate Lands(rows: seq<Row>, start: int, batches: seq<seq<Placed>>, o: nat)
    requires o < |rows|
  {
    exists k, p :: 0 <= k < |batches| && p in batches[k] && p.id == start + o && p.row == rows[o]
  }

  lemma NothingSpread(start: int, batches: seq<seq<Placed>>)
    requires forall k :: 0 <= k < |batches| ==> batches[k] == []
    ensures Spread([], start, batches)
  {
  }

  // ---------------------------------------------------------------- round robin

  ghost predicate InTurn(batches: seq<seq<Placed>>, n: nat)
    requires n > 0
  {
    |batches| == n && forall k, p :: 0 <= k < n && p in batches[k] ==> p.id % n == k
  }

  lemma NoTurnsYet(batches: seq<seq<Placed>>, n: nat)
    requires n > 0 && |batches| == n && forall k :: 0 <= k < n ==> batches[k] == []
    ensures InTurn(batches, n)
  {
  }

  lemma TurnTaken(batches: seq<seq<Placed>>, n: nat, p: Placed)
    requires n > 0 && InTurn(batches, n) && p.id >= 0
    ensures InTurn(batches[p.id % n := batches[p.id % n] + [p]], n)
  {
  }

  lemma TurnsTaken(batches: seq<seq<Placed>>, n: nat)
    requires n > 0 && InTurn(batches, n)
    ensures forall k, p :: 0 <= k < n && p in batches[k] ==> p.id % n == k
  {
  }

  /** `route_round_robin`: id g goes to shard g % n. */
  method RouteRoundRobin(rows: seq<Row>, n: nat, start: nat) returns (batches: seq<seq<Placed>>)
    requires n > 0 && start + |rows| <= ID_LIMIT
    ensures |batches| == n && Spread(rows, start, batches)
    ensures forall k, p :: 0 <= k < n && p in batches[k] ==> p.id % n == k
  {
    hide Spread, InTurn;
    batches := seq(n, _ => []);
    NothingSpread(start, batches);
    NoTurnsYet(batches, n);
    assert rows[..0] == [];
    for offset := 0 to |rows|
      invariant |batches| == n
      invariant Spread(rows[..offset], start, batches) && InTurn(batches, n)
    {
      var id := start + offset;
      ghost var before := batches;
      batches := batches[id % n := batches[id % n] + [Placed(id, rows[offset])]];
      SpreadGrows(rows, start, before, offset, id % n);
      TurnTaken(before, n, Placed(id, rows[offset]));
    }
    TurnsTaken(batches, n);
    assert rows[..|rows|] == rows;
  }

  lemma ShareGrows(share: seq<Placed>, p: Placed)
    requires InIdOrder(share) && forall q :: q in share ==> q.id < p.id
    ensures InIdOrder(share + [p])
    ensures forall q :: q in share + [p] <==> q in share || q == p
  {
    assert forall a :: 0 <= a < |share| ==> share[a] in share;
  }

  lemma SpreadGrows(rows: seq<Row>, start: nat, batches: seq<seq<Placed>>, offset: nat, k: nat)
    requires offset < |rows| && start + |rows| <= ID_LIMIT && k < |batches|
    requires Spread(rows[..offset], start, batches)
    ensures var p := Placed(start + offset, rows[offset]);
            Spread(rows[..offset + 1], start, batches[k := batches[k] + [p]])
  {
    var p := Placed(start + offset, rows[offset]);
    var later := batches[k := batches[k] + [p]];
    ShareGrows(batches[k], p);
    var upto := rows[..offset + 1];
    forall l | 0 <= l < |later|
      ensures FromRows(upto, start, later[l])
    {
      FromMoreRows(rows, start, batches[l], offset);
    }
    forall o | 0 <= o < |upto|
      ensures Lands(upto, start, later, o)
    {
      if o < offset {
        LandsLater(rows, start, batches, offset, k, o);
      } else {
        assert p in later[k];
      }
    }
    hide InIdOrder, Lands;
    assert forall l, q :: 0 <= l < |batches| && q in batches[l] ==> q.id < p.id;
  }

  lemma FromMoreRows(rows: seq<Row>, start: nat, share: seq<Placed>, offset: nat)
    requires offset < |rows| && start + |rows| <= ID_LIMIT
    requires FromRows(rows[..offset], start, share)
    ensures FromRows(rows[..offset + 1], start, share)
    ensures FromRows(rows[..offset + 1], start, share + [Placed(start + offset, rows[offset])])
    ensures forall q :: q in share ==> q.id < start + offset
  {
  }

  lemma LandsLater(rows: seq<Row>, start: nat, batches: seq<seq<Placed>>, offset: nat, k: nat, o: nat)
    requires o < offset < |rows| && start + |rows| <= ID_LIMIT && k < |batches|
    requires Lands(rows[..offset], start, batches, o)
    ensures Lands(rows[..offset + 1], start,
                  batches[k := batches[k] + [Placed(start + offset, rows[offset])]], o)
  {
    var later := batches[k := batches[k] + [Placed(start + offset, rows[offset])]];
    var l, q :| 0 <= l < |batches| && q in batches[l] && q.id == start + o && q.row == rows[..offset][o];
    assert q in later[l];
  }

  lemma AllInOrder(rows: seq<Row>, start: nat, share: seq<Placed>)
    requires start + |rows| <= ID_LIMIT && |share| == |rows|
    requires forall o :: 0 <= o < |rows| ==> share[o] == Placed(start + o, rows[o])
    ensures InIdOrder(share) && FromRows(rows, start, share) && FromRows(rows, start, []) && InIdOrder([])
  {
    forall p | p in share
      ensures start <= p.id < start + |rows| && p.row == rows[p.id - start]
    {
      var o :| 0 <= o < |share| && share[o] == p;
    }
  }

  lemma AllToOne(rows: seq<Row>, start: nat, share: seq<Placed>, batches: seq<seq<Placed>>, shard: nat)
    requires start + |rows| <= ID_LIMIT && |share| == |rows| && shard < |batches|
    requires forall o :: 0 <= o < |rows| ==> share[o] == Placed(start + o, rows[o])
    requires forall k :: 0 <= k < |batches| ==> batches[k] == if k == shard then share else []
    ensures Spread(rows, start, batches)
  {
    hide InIdOrder, FromRows;
    AllInOrder(rows, start, share);
    forall o | 0 <= o < |rows|
      ensures Lands(rows, start, batches, o)
    {
      assert share[o] in batches[shard];
    }
    hide Lands;
  }

  /** `route_to_shard`: everything to one shard. */
  method RouteToShard(rows: seq<Row>, n: nat, shard: nat, start: nat) returns (batches: seq<seq<Placed>>)
    requires shard < n && start + |rows| <= ID_LIMIT
    ensures |batches| == n && Spread(rows, start, batches)
    ensures forall k :: 0 <= k < n && k != shard ==> batches[k] == []
  {
    var share := seq(|rows|, o requires 0 <= o < |rows| => Placed(start + o, rows[o]));
    batches := seq(n, k => if k == shard then share else []);
    AllToOne(rows, start, share, batches, shard);
  }

  // ---------------------------------------------------------------- requests

  function Ids(placed: seq<Placed>): (ids: seq<i64>)
    ensures |ids| == |placed| && forall i :: 0 <= i < |ids| ==> ids[i] == placed[i].id
  {
    seq(|placed|, i requires 0 <= i < |placed| => placed[i].id)
  }

  function Payloads(placed: seq<Placed>): (texts: seq<Text>)
    ensures |texts| == |placed| && forall i :: 0 <= i < |texts| ==> texts[i] == placed[i].row.payload
  {
    seq(|placed|, i requires 0 <= i < |placed| => placed[i].row.payload)
  }

  function Values(placed: seq<Placed>): seq<u32> {
    if placed == [] then [] else Values(placed[..|placed| - 1]) + placed[|placed| - 1].row.values
  }

  function Request(dim: u32, placed: seq<Placed>): Batch {
    Batch(dim, Ids(placed), Values(placed), Payloads(placed))
  }

  /** A shard's share, cut into requests of at most `per` vectors. */
  function Requests(dim: u32, placed: seq<Placed>, per: nat): (requests: History)
    requires per > 0
    decreases |placed|
  {
    if placed == [] then []
    else if |placed| <= per then [Request(dim, placed)]
    else [Request(dim, placed[..per])] + Requests(dim, placed[per..], per)
  }

  /** All the rows of some requests, in order, are the rows of the share: none is dropped, doubled or moved. */
  function AllIds(requests: History): seq<int> {
    if requests == [] then [] else requests[0].ids + AllIds(requests[1..])
  }

  function AllPayloads(requests: History): seq<Text> {
    if requests == [] then [] else requests[0].payloads + AllPayloads(requests[1..])
  }

  function AllValues(requests: History): seq<u32> {
    if requests == [] then [] else requests[0].values + AllValues(requests[1..])
  }

  lemma {:induction false} ValuesConcat(a: seq<Placed>, b: seq<Placed>)
    ensures Values(a + b) == Values(a) + Values(b)
  {
    if b == [] {
      assert a + b == a;
    } else {
      assert (a + b)[..|a + b| - 1] == a + b[..|b| - 1];
      ValuesConcat(a, b[..|b| - 1]);
    }
  }

  lemma SplitShare(placed: seq<Placed>, per: nat)
    requires per <= |placed|
    ensures Ids(placed[..per]) + Ids(placed[per..]) == Ids(placed)
    ensures Payloads(placed[..per]) + Payloads(placed[per..]) == Payloads(placed)
  {
    var front, rest := placed[..per], placed[per..];
    forall i | 0 <= i < |placed|
      ensures (Ids(front) + Ids(rest))[i] == placed[i].id
      ensures (Payloads(front) + Payloads(rest))[i] == placed[i].row.payload
    {
      assert if i < per then front[i] == placed[i] else rest[i - per] == placed[i];
    }
  }

  lemma {:induction false} RequestsKeepIds(dim: u32, placed: seq<Placed>, per: nat)
    requires per > 0
    ensures AllIds(Requests(dim, placed, per)) == Ids(placed)
    ensures forall j :: 0 <= j < |Requests(dim, placed, per)| ==> 0 < |Requests(dim, placed, per)[j].ids| <= per
    decreases |placed|
  {
    if |placed| > per {
      RequestsKeepIds(dim, placed[per..], per);
      SplitShare(placed, per);
    } else {
      assert Ids(placed) + [] == Ids(placed);
    }
  }

  lemma {:induction false} RequestsKeepPayloads(dim: u32, placed: seq<Placed>, per: nat)
    requires per > 0
    ensures AllPayloads(Requests(dim, placed, per)) == Payloads(placed)
    decreases |placed|
  {
    if |placed| > per {
      RequestsKeepPayloads(dim, placed[per..], per);
      SplitShare(placed, per);
    } else {
      assert Payloads(placed) + [] == Payloads(placed);
    }
  }

  lemma {:induction false} RequestsKeepValues(dim: u32, placed: seq<Placed>, per: nat)
    requires per > 0
    ensures AllValues(Requests(dim, placed, per)) == Values(placed)
    decreases |placed|
  {
    if |placed| > per {
      RequestsKeepValues(dim, placed[per..], per);
      assert placed[..per] + placed[per..] == placed;
      ValuesConcat(placed[..per], placed[per..]);
    } else {
      assert Values(placed) + [] == Values(placed);
    }
  }

  /** Where in the share an id of request j comes from: the first `per` rows make request 0. */
  lemma {:induction false} RequestIds(dim: u32, placed: seq<Placed>, per: nat, j: nat, id: int) returns (a: nat)
    requires per > 0 && j < |Requests(dim, placed, per)| && id in Requests(dim, placed, per)[j].ids
    ensures a < |placed| && placed[a].id == id
    ensures j == 0 <==> a < per
    decreases |placed|
  {
    if |placed| > per && j > 0 {
      a := RequestIds(dim, placed[per..], per, j - 1, id);
      a := a + per;
    } else {
      assert j == 0;
      var first := if |placed| > per then placed[..per] else placed;
      assert Requests(dim, placed, per)[0] == Request(dim, first);
      hide Requests;
      var ids := Ids(first);
      a :| 0 <= a < |ids| && ids[a] == id;
    }
  }

  lemma {:induction false} RequestOrder(dim: u32, placed: seq<Placed>, per: nat, j: nat, k: nat, x: int, y: int)
    requires per > 0 && InIdOrder(placed) && j < k < |Requests(dim, placed, per)|
    requires x in Requests(dim, placed, per)[j].ids && y in Requests(dim, placed, per)[k].ids
    ensures x < y
    decreases |placed|
  {
    if j > 0 {
      RequestOrder(dim, placed[per..], per, j - 1, k - 1, x, y);
    } else {
      var a := RequestIds(dim, placed, per, j, x);
      var b := RequestIds(dim, placed, per, k, y);
    }
  }

  lemma {:induction false} RequestShape(dim: u32, placed: seq<Placed>, per: nat, j: nat)
    requires per > 0 && j < |Requests(dim, placed, per)| && InIdOrder(placed)
    ensures IncreasingIds(Requests(dim, placed, per)[j].ids)
    decreases |placed|
  {
    if |placed| > per && j > 0 {
      RequestShape(dim, placed[per..], per, j - 1);
    }
  }

  /** The ids of the requests are those of the share, and grow within and from request to request. */
  lemma RequestsIncrease(dim: u32, placed: seq<Placed>, per: nat)
    requires per > 0 && InIdOrder(placed)
    ensures Increasing(Requests(dim, placed, per))
    ensures forall id :: HasId(Requests(dim, placed, per), id) ==> exists p :: p in placed && p.id == id
  {
    var requests := Requests(dim, placed, per);
    hide Requests;
    forall j: nat | j < |requests|
      ensures IncreasingIds(requests[j].ids)
    {
      RequestShape(dim, placed, per, j);
    }
    forall j: nat, k: nat, x, y | j < k < |requests| && x in requests[j].ids && y in requests[k].ids
      ensures x < y
    {
      RequestOrder(dim, placed, per, j, k, x, y);
    }
    forall id | HasId(requests, id)
      ensures exists p :: p in placed && p.id == id
    {
      var j :| 0 <= j < |requests| && id in requests[j].ids;
      var a := RequestIds(dim, placed, per, j, id);
      assert placed[a] in placed;
    }
  }

  // ---------------------------------------------------------------- request by request

  const MAX_ADD_BYTES := 2 * 1024 * 1024

  function LargestPayload(rows: seq<Row>): (n: nat)
    ensures forall r :: r in rows ==> |r.payload| <= n
  {
    if rows == [] then 0
    else
      var n := LargestPayload(rows[1..]);
      if |rows[0].payload| > n then |rows[0].payload| else n
  }

  /** `per_request`: as many vectors as leave room for their floats and the largest payload, at least one. */
  function PerRequest(dim: u32, rows: seq<Row>): (per: nat)
    requires dim > 0
    ensures per >= 1
  {
    var fit := MAX_ADD_BYTES / (dim * 4 + LargestPayload(rows));
    if fit < 1 then 1 else fit
  }

  function DropFrom<T>(s: seq<T>, start: nat): seq<T> {
    if start <= |s| then s[start..] else []
  }

  /** `s[start:start + per]`. */
  function Slice<T>(s: seq<T>, start: nat, per: nat): seq<T> {
    if |s| <= start then []
    else if |s| <= start + per then s[start..]
    else s[start..start + per]
  }

  /** The slices the loop of `add` takes are the share's requests, one after the other. */
  lemma NextRequest(dim: u32, share: seq<Placed>, per: nat, start: nat)
    requires per > 0
    ensures var left := Requests(dim, DropFrom(share, start), per);
            if start < |share| then
              left == [Request(dim, Slice(share, start, per))] + Requests(dim, DropFrom(share, start + per), per)
            else left == []
  {
    if start < |share| {
      var rest := share[start..];
      if |rest| > per {
        assert rest[..per] == Slice(share, start, per);
        assert rest[per..] == DropFrom(share, start + per);
      } else {
        assert DropFrom(share, start + per) == [];
      }
    }
  }

  // ---------------------------------------------------------------- how large a request gets

  /** The rows of one matrix. */
  ghost predicate Uniform(rows: seq<Row>, dim: nat) {
    forall r :: r in rows ==> |r.values| == dim
  }

  /** A row alone fits a record of the log. */
  ghost predicate Fit(rows: seq<Row>, dim: nat) {
    forall r :: r in rows ==> RECORD_START_SIZE + 12 + 4 * dim + |r.payload| < 0x1_0000_0000
  }

  function TextBytes(texts: seq<Text>): nat {
    if texts == [] then 0 else TextBytes(texts[..|texts| - 1]) + |texts[|texts| - 1]|
  }

  /** What a request weighs: its floats and its payloads. */
  function RequestBytes(b: Batch): nat {
    4 * |b.values| + TextBytes(b.payloads)
  }

  /** The rows that were placed are among these. */
  ghost predicate Among(placed: seq<Placed>, rows: seq<Row>) {
    forall p :: p in placed ==> p.row in rows
  }

  lemma {:induction false} RequestWeighs(rows: seq<Row>, dim: nat, placed: seq<Placed>)
    requires Uniform(rows, dim) && Among(placed, rows)
    ensures |Values(placed)| == |placed| * dim
    ensures TextBytes(Payloads(placed)) <= |placed| * LargestPayload(rows)
  {
    if placed != [] {
      var front, last := placed[..|placed| - 1], placed[|placed| - 1];
      assert last in placed && forall p :: p in front ==> p in placed;
      RequestWeighs(rows, dim, front);
      assert Payloads(placed)[..|placed| - 1] == Payloads(front);
      OneMoreTime(|placed|, dim);
      OneMoreTime(|placed|, LargestPayload(rows));
    }
  }

  lemma OneMoreTime(n: nat, x: nat)
    requires n > 0
    ensures n * x == (n - 1) * x + x
  {
  }

  /** No request has more rows than fit, unless it has just one. */
  lemma RowsFit(rows: seq<Row>, dim: u32, n: nat)
    requires dim > 0 && 1 < n <= PerRequest(dim, rows)
    ensures n * (4 * dim + LargestPayload(rows)) <= MAX_ADD_BYTES && n <= MAX_ADD_BYTES
  {
    Several(MAX_ADD_BYTES, 4 * dim + LargestPayload(rows), n);
  }

  /** And that is as many as fit: with one more, all with the largest payload, there would be too much. */
  lemma NoMoreFit(rows: seq<Row>, dim: u32)
    requires dim > 0
    ensures (PerRequest(dim, rows) + 1) * (4 * dim + LargestPayload(rows)) > MAX_ADD_BYTES
    ensures LargestPayload(rows) == 0 || exists r :: r in rows && |r.payload| == LargestPayload(rows)
  {
    LargestIsThere(rows);
    OneTooMany(MAX_ADD_BYTES, 4 * dim + LargestPayload(rows), PerRequest(dim, rows));
  }

  lemma OneTooMany(limit: nat, each: nat, n: nat)
    requires each > 0 && n >= limit / each
    ensures (n + 1) * each > limit
  {
    var fit := limit / each;
    assert fit * each + limit % each == limit;
    TimesMore(fit + 1, n + 1, each);
  }

  lemma {:induction false} LargestIsThere(rows: seq<Row>)
    ensures LargestPayload(rows) == 0 || exists r :: r in rows && |r.payload| == LargestPayload(rows)
  {
    if rows != [] {
      LargestIsThere(rows[1..]);
      assert rows[0] in rows && forall r :: r in rows[1..] ==> r in rows;
    }
  }

  lemma Several(limit: nat, each: nat, n: nat)
    requires each > 0 && n <= limit / each
    ensures n <= n * each <= limit
  {
    var fit := limit / each;
    assert fit * each + limit % each == limit;
    TimesMore(n, fit, each);
    TimesMore(1, each, n);
  }

  lemma TimesMore(a: nat, b: nat, x: nat)
    requires a <= b
    ensures a * x <= b * x
  {
  }

  /** The purpose of `per_request`: a request of more than one row stays within the limit. */
  lemma RequestFits(rows: seq<Row>, dim: u32, placed: seq<Placed>)
    requires dim > 0 && Uniform(rows, dim) && Among(placed, rows) && |placed| <= PerRequest(dim, rows)
    ensures |placed| > 1 ==> RequestBytes(Request(dim, placed)) <= MAX_ADD_BYTES
  {
    if |placed| > 1 {
      RequestWeighs(rows, dim, placed);
      RowsFit(rows, dim, |placed|);
      Weighed(|placed|, dim, LargestPayload(rows));
    }
  }

  lemma Weighed(n: nat, dim: nat, largest: nat)
    ensures n * (4 * dim + largest) == 4 * (n * dim) + n * largest
  {
  }

  lemma {:induction false} PayloadBytesSize(texts: seq<Text>)
    requires Short(texts)
    ensures |PayloadBytes(texts)| == 4 * |texts| + TextSize(texts)
  {
    if texts != [] {
      PayloadBytesSize(texts[1..]);
    }
  }

  /** The same sum, from the front. */
  function TextSize(texts: seq<Text>): nat {
    if texts == [] then 0 else |texts[0]| + TextSize(texts[1..])
  }

  lemma {:induction false} TextSums(texts: seq<Text>)
    ensures TextSize(texts) == TextBytes(texts)
  {
    if texts != [] {
      TextSums(texts[1..]);
      FirstText(texts);
    }
  }

  lemma {:induction false} FirstText(texts: seq<Text>)
    requires texts != []
    ensures TextBytes(texts) == |texts[0]| + TextBytes(texts[1..])
  {
    if |texts| > 1 {
      FirstText(texts[..|texts| - 1]);
      assert texts[..|texts| - 1][1..] == texts[1..][..|texts| - 2];
    }
  }

  /** Every request can be logged: its rows make a matrix with as many payloads, and the record fits the log. */
  lemma RequestIsLoggable(rows: seq<Row>, dim: u32, placed: seq<Placed>)
    requires dim > 0 && Uniform(rows, dim) && Fit(rows, dim) && Among(placed, rows)
    requires 0 < |placed| <= PerRequest(dim, rows)
    ensures Loggable(Request(dim, placed))
  {
    var b := Request(dim, placed);
    RequestWeighs(rows, dim, placed);
    RequestFits(rows, dim, placed);
    forall t | t in b.payloads
      ensures |t| < 0x1_0000_0000
    {
      var i :| 0 <= i < |placed| && t == placed[i].row.payload;
      assert placed[i] in placed;
    }
    if |placed| > 1 {
      RowsFit(rows, dim, |placed|);
    } else {
      assert placed[0] in placed;
      assert b.payloads[..0] == [];
    }
    PayloadBytesSize(b.payloads);
    TextSums(b.payloads);
    assert |BatchBytes(b)| <= 8 * |b.ids| + 4 * |b.values| + 4 * |b.payloads| + TextBytes(b.payloads);
  }

  /** So for all the requests of a share: within the limit unless they are of one row, and loggable if the rows are. */
  lemma {:induction false} RequestWithinLimits(rows: seq<Row>, dim: u32, placed: seq<Placed>, j: nat)
    requires dim > 0 && Uniform(rows, dim) && Among(placed, rows)
    requires j < |Requests(dim, placed, PerRequest(dim, rows))|
    ensures var b := Requests(dim, placed, PerRequest(dim, rows))[j];
            (|b.ids| > 1 ==> RequestBytes(b) <= MAX_ADD_BYTES) && (Fit(rows, dim) ==> Loggable(b))
    decreases |placed|
  {
    var per := PerRequest(dim, rows);
    hide Loggable, RequestBytes, Uniform, Fit, PerRequest;
    if |placed| > per && j > 0 {
      assert Among(placed[per..], rows);
      RequestWithinLimits(rows, dim, placed[per..], j - 1);
    } else {
      var first := if |placed| > per then placed[..per] else placed;
      assert Among(first, rows);
      RequestFits(rows, dim, first);
      if Fit(rows, dim) {
        RequestIsLoggable(rows, dim, first);
      }
    }
  }
}

/** The frame every log record travels in, and the loop that reads it. */
module Framing {
  import opened Bytes

  //     [body length: u32][checksum of body: u32] body
  //
  // Frames are read back until one is cut short or does not check out. What a body holds is left
  // to a codec, and the checksum is any function: nothing here depends on which ones. `LogFormat`
  // supplies the codec of the write-ahead log.

  type Checksum = seq<u8> -> u32

  const HEADER_SIZE := 8

  /** How a record becomes a body; decode answers None for bytes that are not one. */
  datatype Codec<!R> = Codec(
    crc: Checksum,
    accepts: R -> bool,
    encode: R -> seq<u8>,
    decode: seq<u8> -> Option<R>)

  /** Every record the codec accepts fits the length field and decodes to itself. */
  ghost predicate Faithful<R(!new)>(c: Codec<R>) {
    forall r: R :: c.accepts(r) ==> |c.encode(r)| < 0x1_0000_0000 && c.decode(c.encode(r)) == Some(r)
  }

  /** What reading some bytes gives: the records, and how many bytes they fill. */
  datatype Scanned<R> = Scanned(records: seq<R>, intact: nat)

  datatype Head<R> = Head(record: R, size: nat)

  // ---------------------------------------------------------------- writing

  function Frame<R>(c: Codec<R>, r: R): (b: seq<u8>)
    requires |c.encode(r)| < 0x1_0000_0000
    ensures |b| == HEADER_SIZE + |c.encode(r)|
  {
    U32(|c.encode(r)|) + U32(c.crc(c.encode(r))) + c.encode(r)
  }

  ghost predicate AllAccepted<R(!new)>(c: Codec<R>, records: seq<R>) {
    Faithful(c) && forall i :: 0 <= i < |records| ==> c.accepts(records[i])
  }

  ghost function FrameAll<R(!new)>(c: Codec<R>, records: seq<R>): seq<u8>
    requires AllAccepted(c, records)
  {
    if records == [] then [] else Frame(c, records[0]) + FrameAll(c, records[1..])
  }

  // ---------------------------------------------------------------- reading

  /** The record at the front of `data`, if an intact one is there. */
  function ReadHead<R>(c: Codec<R>, data: seq<u8>): (h: Option<Head<R>>)
    ensures h.Some? ==> HEADER_SIZE <= h.value.size <= |data|
  {
    if |data| < HEADER_SIZE then None
    else
      var length, sum := ReadU32(data[..4]), ReadU32(data[4..8]);
      if HEADER_SIZE + length > |data| then None
      else
        var body := data[8..8 + length];
        if c.crc(body) != sum || c.decode(body).None? then None
        else Some(Head(c.decode(body).value, HEADER_SIZE + length))
  }

  function Scan<R>(c: Codec<R>, data: seq<u8>): (s: Scanned<R>)
    ensures s.intact <= |data|
    decreases |data|
  {
    match ReadHead(c, data)
    case None => Scanned([], 0)
    case Some(h) =>
      var rest := Scan(c, data[h.size..]);
      Scanned([h.record] + rest.records, h.size + rest.intact)
  }

  lemma TooShort<R>(c: Codec<R>, data: seq<u8>)
    requires |data| < HEADER_SIZE
    ensures Scan(c, data) == Scanned([], 0)
  {
  }

  /** What the record starting at `pos` is, in terms of positions in the whole file. */
  lemma HeadAt<R>(c: Codec<R>, data: seq<u8>, pos: nat)
    requires pos + HEADER_SIZE <= |data|
    ensures var length: nat, sum := ReadU32(data[pos..pos + 4]), ReadU32(data[pos + 4..pos + 8]);
            var start, end := pos + HEADER_SIZE, pos + HEADER_SIZE + length;
            ReadHead(c, data[pos..]) ==
            if end > |data| || c.crc(data[start..end]) != sum || c.decode(data[start..end]).None? then None
            else Some(Head(c.decode(data[start..end]).value, HEADER_SIZE + length))
  {
    var here := data[pos..];
    assert here[..4] == data[pos..pos + 4] && here[4..8] == data[pos + 4..pos + 8];
    var length: nat := ReadU32(data[pos..pos + 4]);
    if pos + HEADER_SIZE + length <= |data| {
      assert here[8..8 + length] == data[pos + 8..pos + 8 + length];
    }
  }

  lemma ScanStep<R>(c: Codec<R>, data: seq<u8>, pos: nat, records: seq<R>)
    requires pos <= |data| && ReadHead(c, data[pos..]).Some?
    requires var rest := Scan(c, data[pos..]);
             Scan(c, data) == Scanned(records + rest.records, pos + rest.intact)
    ensures var h := ReadHead(c, data[pos..]).value;
            var rest := Scan(c, data[pos + h.size..]);
            Scan(c, data) == Scanned((records + [h.record]) + rest.records, pos + h.size + rest.intact)
  {
    hide ReadHead;
    var h := ReadHead(c, data[pos..]).value;
    assert data[pos..][h.size..] == data[pos + h.size..];
    var rest := Scan(c, data[pos + h.size..]);
    assert records + ([h.record] + rest.records) == (records + [h.record]) + rest.records;
  }

  /** The loop of `_read_records`, on the bytes of the file. */
  method ReadRecords<R>(c: Codec<R>, data: seq<u8>) returns (records: seq<R>, pos: nat)
    ensures Scanned(records, pos) == Scan(c, data)
  {
    hide ReadHead, FromLittle;
    records, pos := [], 0;
    assert data[0..] == data;
    assert forall rest: seq<R> :: [] + rest == rest;
    while pos + HEADER_SIZE <= |data|
      invariant pos <= |data|
      invariant var rest := Scan(c, data[pos..]);
                Scan(c, data) == Scanned(records + rest.records, pos + rest.intact)
      decreases |data| - pos
    {
      HeadAt(c, data, pos);
      var length: nat, sum := ReadU32(data[pos..pos + 4]), ReadU32(data[pos + 4..pos + 8]);
      var start, end := pos + HEADER_SIZE, pos + HEADER_SIZE + length;
      if end > |data| {
        break;
      }
      var body := data[start..end];
      if c.crc(body) != sum {
        break;
      }
      var record := c.decode(body);
      if record.None? {
        break;
      }
      ScanStep(c, data, pos, records);
      records := records + [record.value];
      pos := end;
    }
    if pos + HEADER_SIZE > |data| {
      TooShort(c, data[pos..]);
    }
  }

  lemma HeadRoundTrip<R(!new)>(c: Codec<R>, r: R, after: seq<u8>)
    requires Faithful(c) && c.accepts(r)
    ensures ReadHead(c, Frame(c, r) + after) == Some(Head(r, |Frame(c, r)|))
  {
    var data, body := Frame(c, r) + after, c.encode(r);
    assert data[..4] == U32(|body|) && data[4..8] == U32(c.crc(body)) && data[8..8 + |body|] == body;
  }

  // ---------------------------------------------------------------- what is read, and what is not

  /** From `start` to `end` the data is a whole frame, its checksum that of its body, and the body reads as r. */
  ghost predicate IsRecordAt<R>(c: Codec<R>, data: seq<u8>, start: nat, end: nat, r: R) {
    && start + 8 <= end <= |data|
    && FromLittle(data[start..start + 4]) == end - start - 8
    && FromLittle(data[start + 4..start + 8]) == c.crc(data[start + 8..end])
    && c.decode(data[start + 8..end]) == Some(r)
  }

  lemma HeadIsRecord<R(!new)>(c: Codec<R>, data: seq<u8>)
    ensures ReadHead(c, data).Some? ==> var Head(r, n) := ReadHead(c, data).value; IsRecordAt(c, data, 0, n, r)
    ensures ReadHead(c, data).None? ==> forall end: nat, r: R :: !IsRecordAt(c, data, 0, end, r)
  {
    assert |data| >= 8 ==> data[0..4] == data[..4];
  }

  lemma RecordInTheRest<R>(c: Codec<R>, data: seq<u8>, n: nat, start: nat, end: nat, r: R)
    requires n <= |data|
    ensures IsRecordAt(c, data[n..], start, end, r) <==> IsRecordAt(c, data, n + start, n + end, r)
  {
    if start + 8 <= end <= |data[n..]| {
      assert data[n..][start..start + 4] == data[n + start..n + start + 4];
      assert data[n..][start + 4..start + 8] == data[n + start + 4..n + start + 8];
      assert data[n..][start + 8..end] == data[n + start + 8..n + end];
    }
  }

  /** `ends` are the places where one record stops and the next begins; and no record begins at the last of them. */
  ghost predicate AreRecords<R(!new)>(c: Codec<R>, data: seq<u8>, records: seq<R>, ends: seq<nat>) {
    && |ends| == |records| + 1 && ends[0] == 0
    && (forall k :: 0 <= k < |records| ==> IsRecordAt(c, data, ends[k], ends[k + 1], records[k]))
    && forall end: nat, r: R :: !IsRecordAt(c, data, ends[|records|], end, r)
  }

  lemma OneRecordMore<R(!new)>(c: Codec<R>, data: seq<u8>, r: R, n: nat, records: seq<R>, ends: seq<nat>)
      returns (all: seq<nat>)
    requires IsRecordAt(c, data, 0, n, r) && AreRecords(c, data[n..], records, ends)
    ensures AreRecords(c, data, [r] + records, all) && all[|all| - 1] == n + ends[|records|]
  {
    hide IsRecordAt;
    var joined := [r] + records;
    all := [0] + seq(|ends|, i requires 0 <= i < |ends| => n + ends[i]);
    assert IsRecordAt(c, data, 0, n, r) ==> n <= |data| by { BeforeTheEnd(c, data, 0, n, r); }
    forall k | 0 < k < |joined|
      ensures IsRecordAt(c, data, all[k], all[k + 1], joined[k])
    {
      RecordInTheRest(c, data, n, ends[k - 1], ends[k], records[k - 1]);
    }
    var last := all[|records| + 1];
    forall end: nat, other: R
      ensures !IsRecordAt(c, data, last, end, other)
    {
      if IsRecordAt(c, data, last, end, other) {
        BeforeTheEnd(c, data, last, end, other);
        RecordInTheRest(c, data, n, ends[|records|], end - n, other);
      }
    }
  }

  lemma BeforeTheEnd<R>(c: Codec<R>, data: seq<u8>, start: nat, end: nat, r: R)
    requires IsRecordAt(c, data, start, end, r)
    ensures start + 8 <= end <= |data|
  {
  }

  /**
    For any bytes whatever: what is read is the records that check out, one after the other from
    the start, up to the first place where none does.
    */
  lemma {:induction false} ScanIsExact<R(!new)>(c: Codec<R>, data: seq<u8>) returns (ends: seq<nat>)
    ensures AreRecords(c, data, Scan(c, data).records, ends) && ends[|ends| - 1] == Scan(c, data).intact
    decreases |data|
  {
    hide ReadHead, Scan, IsRecordAt;
    HeadIsRecord(c, data);
    if ReadHead(c, data).None? {
      ScanNothing(c, data);
      return [0];
    }
    var Head(r, n) := ReadHead(c, data).value;
    ScanHead(c, data);
    var later := ScanIsExact(c, data[n..]);
    ends := OneRecordMore(c, data, r, n, Scan(c, data[n..]).records, later);
  }

  // ---------------------------------------------------------------- cutting and extending a log

  lemma SameSlice(a: seq<u8>, b: seq<u8>, n: nat, i: nat, j: nat)
    requires i <= j <= n <= |a| && n <= |b| && a[..n] == b[..n]
    ensures a[i..j] == b[i..j]
  {
    assert a[..n][i..j] == a[i..j] && b[..n][i..j] == b[i..j];
  }

  /** Reading one record looks at the bytes of that record and no further. */
  lemma HeadLocal<R>(c: Codec<R>, data: seq<u8>, other: seq<u8>)
    requires ReadHead(c, data).Some?
    requires var size := ReadHead(c, data).value.size; size <= |other| && other[..size] == data[..size]
    ensures ReadHead(c, other) == ReadHead(c, data)
  {
    var size := ReadHead(c, data).value.size;
    SameSlice(data, other, size, 0, 4);
    SameSlice(data, other, size, 4, 8);
    SameSlice(data, other, size, 8, size);
  }

  /** A record cut short is never taken for a record, and what is not a record does not become one. */
  lemma TornHead<R>(c: Codec<R>, data: seq<u8>, cut: nat)
    requires cut <= |data|
    requires ReadHead(c, data).Some? ==> cut < ReadHead(c, data).value.size
    ensures ReadHead(c, data[..cut]).None?
  {
    var torn := data[..cut];
    if cut >= HEADER_SIZE {
      assert torn[..4] == data[..4] && torn[4..8] == data[4..8];
      var length: nat := ReadU32(data[..4]);
      if HEADER_SIZE + length <= cut {
        assert torn[8..8 + length] == data[8..8 + length];
      }
    }
  }

  /** For any bytes: what follows the intact part is read on its own. */
  lemma ScanNothing<R>(c: Codec<R>, data: seq<u8>)
    requires ReadHead(c, data).None?
    ensures Scan(c, data) == Scanned([], 0)
  {
  }

  lemma ScanHead<R>(c: Codec<R>, data: seq<u8>)
    requires ReadHead(c, data).Some?
    ensures var Head(r, n) := ReadHead(c, data).value; var rest := Scan(c, data[n..]);
            Scan(c, data) == Scanned([r] + rest.records, n + rest.intact)
  {
    hide ReadHead;
  }

  lemma {:induction false} ScanConcat<R>(c: Codec<R>, data: seq<u8>, more: seq<u8>)
    ensures var s := Scan(c, data); var t := Scan(c, more);
            Scan(c, data[..s.intact] + more) == Scanned(s.records + t.records, s.intact + t.intact)
    decreases |data|
  {
    hide ReadHead, Scan;
    var s, t := Scan(c, data), Scan(c, more);
    var joined := data[..s.intact] + more;
    if ReadHead(c, data).None? {
      ScanNothing(c, data);
      assert joined == more && [] + t.records == t.records;
    } else {
      var Head(r, n) := ReadHead(c, data).value;
      var later := Scan(c, data[n..]);
      ScanHead(c, data);
      assert joined[..n] == data[..n];
      HeadLocal(c, data, joined);
      assert joined[n..] == data[n..][..later.intact] + more;
      ScanConcat(c, data[n..], more);
      ScanHead(c, joined);
      assert [r] + (later.records + t.records) == [r] + later.records + t.records;
    }
  }

  /** Truncating a log to the length reported, and reading it again, changes nothing. */
  lemma TruncateIsStable<R>(c: Codec<R>, data: seq<u8>)
    ensures Scan(c, data[..Scan(c, data).intact]) == Scan(c, data)
  {
    ScanConcat(c, data, []);
    var n := Scan(c, data).intact;
    assert data[..n] + [] == data[..n];
  }

  lemma ScanOne<R(!new)>(c: Codec<R>, r: R)
    requires Faithful(c) && c.accepts(r)
    ensures Scan(c, Frame(c, r)) == Scanned([r], |Frame(c, r)|)
  {
    HeadRoundTrip(c, r, []);
    var b := Frame(c, r);
    assert b + [] == b && b[|b|..] == [];
  }

  /** After opening a log (cutting its torn tail off), an append adds exactly its own record. */
  lemma AppendAfterTruncate<R(!new)>(c: Codec<R>, data: seq<u8>, r: R)
    requires Faithful(c) && c.accepts(r)
    ensures var s := Scan(c, data);
            Scan(c, data[..s.intact] + Frame(c, r))
            == Scanned(s.records + [r], s.intact + |Frame(c, r)|)
  {
    ScanOne(c, r);
    ScanConcat(c, data, Frame(c, r));
  }

  lemma {:induction false} ScanEncoded<R(!new)>(c: Codec<R>, records: seq<R>)
    requires AllAccepted(c, records)
    ensures Scan(c, FrameAll(c, records)) == Scanned(records, |FrameAll(c, records)|)
  {
    hide ReadHead, Frame;
    if records != [] {
      var data, n := FrameAll(c, records), |Frame(c, records[0])|;
      HeadRoundTrip(c, records[0], FrameAll(c, records[1..]));
      assert data[n..] == FrameAll(c, records[1..]);
      ScanEncoded(c, records[1..]);
    }
  }

  /** How many bytes the first `k` records of `data` fill. */
  function Boundary<R>(c: Codec<R>, data: seq<u8>, k: nat): (b: nat)
    requires k <= |Scan(c, data).records|
    ensures b <= Scan(c, data).intact
    decreases |data|
  {
    if k == 0 then 0
    else
      var n := ReadHead(c, data).value.size;
      n + Boundary(c, data[n..], k - 1)
  }

  /** Past the intact part, the cut does not matter. */
  lemma CutInTornTail<R>(c: Codec<R>, data: seq<u8>, cut: nat)
    requires Scan(c, data).intact <= cut <= |data|
    ensures Scan(c, data[..cut]) == Scan(c, data)
    decreases |data|
  {
    hide ReadHead;
    if ReadHead(c, data).None? {
      TornHead(c, data, cut);
    } else {
      var n := ReadHead(c, data).value.size;
      assert data[..cut][..n] == data[..n];
      HeadLocal(c, data, data[..cut]);
      assert data[..cut][n..] == data[n..][..cut - n];
      CutInTornTail(c, data[n..], cut - n);
    }
  }

  /**
    Any bytes, cut anywhere inside their intact part: what is read back is the records that
    lie wholly before the cut, and the bytes those fill.
    */
  lemma {:induction false} CutAnywhere<R>(c: Codec<R>, data: seq<u8>, cut: nat) returns (k: nat)
    requires cut <= Scan(c, data).intact
    ensures k <= |Scan(c, data).records|
    ensures Boundary(c, data, k) <= cut
    ensures k < |Scan(c, data).records| ==> cut < Boundary(c, data, k + 1)
    ensures Scan(c, data[..cut]) == Scanned(Scan(c, data).records[..k], Boundary(c, data, k))
    decreases |data|
  {
    hide ReadHead, Scan, Boundary;
    k := 0;
    NoBoundary(c, data);
    if ReadHead(c, data).None? {
      ScanNothing(c, data);
      assert data[..cut] == data[..0];
      TornHead(c, data, 0);
      ScanNothing(c, data[..cut]);
      return;
    }
    var Head(r, n) := ReadHead(c, data).value;
    ScanHead(c, data);
    if cut < n {
      BoundaryNext(c, data, 0);
      TornHead(c, data, cut);
      ScanNothing(c, data[..cut]);
    } else {
      HeadOfCut(c, data, cut);
      k := CutAnywhere(c, data[n..], cut - n);
      ScanHead(c, data[..cut]);
      BoundaryNext(c, data, k);
      var later := Scan(c, data[n..]).records;
      if k < |later| {
        BoundaryNext(c, data, k + 1);
      }
      assert [r] + later[..k] == ([r] + later)[..k + 1];
      k := k + 1;
    }
  }

  lemma NoBoundary<R>(c: Codec<R>, data: seq<u8>)
    ensures Boundary(c, data, 0) == 0
  {
  }

  /** Of the record after k others that follow the first one. */
  lemma BoundaryNext<R>(c: Codec<R>, data: seq<u8>, k: nat)
    requires ReadHead(c, data).Some? && k <= |Scan(c, data[ReadHead(c, data).value.size..]).records|
    ensures var n := ReadHead(c, data).value.size;
            k + 1 <= |Scan(c, data).records| && Boundary(c, data, k + 1) == n + Boundary(c, data[n..], k)
  {
    hide ReadHead;
  }

  lemma HeadOfCut<R>(c: Codec<R>, data: seq<u8>, cut: nat)
    requires ReadHead(c, data).Some? && ReadHead(c, data).value.size <= cut <= |data|
    ensures ReadHead(c, data[..cut]) == ReadHead(c, data)
    ensures var n := ReadHead(c, data).value.size; data[..cut][n..] == data[n..][..cut - n]
  {
    hide ReadHead;
    assert data[..cut][..ReadHead(c, data).value.size] == data[..ReadHead(c, data).value.size];
    HeadLocal(c, data, data[..cut]);
  }

  lemma {:induction false} BoundaryOfEncoded<R(!new)>(c: Codec<R>, records: seq<R>, k: nat)
    requires AllAccepted(c, records) && k <= |records|
    ensures Scan(c, FrameAll(c, records)).records == records
    ensures Boundary(c, FrameAll(c, records), k) == |FrameAll(c, records[..k])|
  {
    hide ReadHead, Frame, Scan;
    ScanEncoded(c, records);
    if k > 0 {
      var first, later := Frame(c, records[0]), FrameAll(c, records[1..]);
      var data := FrameAll(c, records);
      assert data == first + later;
      HeadRoundTrip(c, records[0], later);
      assert data[|first|..] == later;
      BoundaryOfEncoded(c, records[1..], k - 1);
      assert records[..k][1..] == records[1..][..k - 1];
      assert FrameAll(c, records[..k]) == first + FrameAll(c, records[1..][..k - 1]);
    }
  }

  /**
    The log of any list of writes, cut at any byte: reading it returns exactly the writes
    recorded wholly before the cut, and the number of bytes they fill.
    */
  lemma CutLogReadsWholeRecords<R(!new)>(c: Codec<R>, records: seq<R>, cut: nat) returns (k: nat)
    requires AllAccepted(c, records) && cut <= |FrameAll(c, records)|
    ensures k <= |records|
    ensures |FrameAll(c, records[..k])| <= cut
    ensures k < |records| ==> cut < |FrameAll(c, records[..k + 1])|
    ensures Scan(c, FrameAll(c, records)[..cut])
            == Scanned(records[..k], |FrameAll(c, records[..k])|)
  {
    hide ReadHead, Frame, Scan, FrameAll;
    ScanEncoded(c, records);
    k := CutAnywhere(c, FrameAll(c, records), cut);
    BoundaryOfEncoded(c, records, k);
    if k < |records| {
      BoundaryOfEncoded(c, records, k + 1);
    }
  }
}

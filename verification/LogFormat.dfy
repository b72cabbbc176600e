/** The body of a record of the write-ahead log. */
module LogFormat {
  import opened Bytes
  import opened Framing

  //     body = [seq: u64][count: u32][dim: u32][ids: count x i64][vectors: count*dim x f32]
  //            then, only when some payload is non-empty, count x ([length: u32] text)
  //
  // A 32-bit float is its bit pattern and a payload is its UTF-8 bytes.

  type Text = seq<u8>

  const RECORD_START_SIZE := 16

  /** One write to a shard: the rows of a (count, dim) matrix with their ids and payloads. */
  datatype Batch = Batch(dim: u32, ids: seq<i64>, values: seq<u32>, payloads: seq<Text>)

  datatype Record = Record(seqNo: u64, batch: Batch)

  // ---------------------------------------------------------------- writing

  function IdBytes(ids: seq<i64>): (b: seq<u8>)
    ensures |b| == 8 * |ids|
  {
    if ids == [] then [] else I64(ids[0]) + IdBytes(ids[1..])
  }

  function ValueBytes(values: seq<u32>): (b: seq<u8>)
    ensures |b| == 4 * |values|
  {
    if values == [] then [] else U32(values[0]) + ValueBytes(values[1..])
  }

  predicate Short(payloads: seq<Text>) {
    forall p :: p in payloads ==> |p| < 0x1_0000_0000
  }

  predicate NoPayload(payloads: seq<Text>) {
    forall p :: p in payloads ==> p == []
  }

  function PayloadBytes(payloads: seq<Text>): (b: seq<u8>)
    requires Short(payloads)
    ensures |b| >= 4 * |payloads|
  {
    if payloads == [] then [] else U32(|payloads[0]|) + payloads[0] + PayloadBytes(payloads[1..])
  }

  predicate Shaped(b: Batch) {
    && |b.ids| < 0x1_0000_0000
    && |b.values| == |b.ids| * b.dim
    && |b.payloads| == |b.ids|
    && Short(b.payloads)
  }

  function BatchBytes(b: Batch): seq<u8>
    requires Shaped(b)
  {
    IdBytes(b.ids) + ValueBytes(b.values) + if NoPayload(b.payloads) then [] else PayloadBytes(b.payloads)
  }

  function Body(r: Record): (body: seq<u8>)
    requires Shaped(r.batch)
    ensures |body| == RECORD_START_SIZE + |BatchBytes(r.batch)|
  {
    U64(r.seqNo) + U32(|r.batch.ids|) + U32(r.batch.dim) + BatchBytes(r.batch)
  }

  /** A batch the log can hold: its body length has to fit the 32-bit length field. */
  predicate Loggable(b: Batch) {
    Shaped(b) && RECORD_START_SIZE + |BatchBytes(b)| < 0x1_0000_0000
  }

  // ---------------------------------------------------------------- reading

  function ReadIds(b: seq<u8>, count: nat): (ids: seq<i64>)
    requires |b| == 8 * count
    ensures |ids| == count
  {
    if count == 0 then [] else [ReadI64(b[..8])] + ReadIds(b[8..], count - 1)
  }

  function ReadValues(b: seq<u8>, count: nat): (values: seq<u32>)
    requires |b| == 4 * count
    ensures |values| == count
  {
    if count == 0 then [] else [ReadU32(b[..4])] + ReadValues(b[4..], count - 1)
  }

  /** `count` length-prefixed texts filling `b` exactly. */
  function TakePayloads(b: seq<u8>, count: nat): Option<seq<Text>>
    decreases count
  {
    if count == 0 then
      if b == [] then Some([]) else None
    else if |b| < 4 || |b| < 4 + ReadU32(b[..4]) then None
    else
      var size := ReadU32(b[..4]);
      Prepend([b[4..4 + size]], TakePayloads(b[4 + size..], count - 1))
  }

  function Blanks(count: nat): (texts: seq<Text>)
    ensures |texts| == count && NoPayload(texts)
  {
    seq(count, _ => [])
  }

  function Prepend(front: seq<Text>, rest: Option<seq<Text>>): Option<seq<Text>> {
    if rest.None? then None else Some(front + rest.value)
  }

  function PayloadSection(b: seq<u8>, count: nat): Option<seq<Text>> {
    if b == [] then Some(Blanks(count)) else TakePayloads(b, count)
  }

  /** What follows the fixed-size start of a body: `count` ids, `cells` floats, payloads. */
  function ReadArrays(b: seq<u8>, seqNo: u64, count: nat, dim: u32, cells: nat): Option<Record> {
    var idsEnd, vectorsEnd := 8 * count, 8 * count + 4 * cells;
    if |b| < vectorsEnd then None
    else
      match PayloadSection(b[vectorsEnd..], count)
      case None => None
      case Some(payloads) =>
        Some(Record(seqNo, Batch(dim, ReadIds(b[..idsEnd], count),
                                 ReadValues(b[idsEnd..vectorsEnd], cells), payloads)))
  }

  function ReadBody(body: seq<u8>): Option<Record>
    requires |body| >= RECORD_START_SIZE
  {
    var seqNo, count, dim := ReadU64(body[..8]), ReadU32(body[8..12]), ReadU32(body[12..16]);
    ReadArrays(body[16..], seqNo, count, dim, count * dim)
  }

  // ---------------------------------------------------------------- the source's loop over payloads

  lemma PrependNothing(rest: Option<seq<Text>>)
    ensures Prepend([], rest) == rest
  {
    assert rest.Some? ==> [] + rest.value == rest.value;
  }

  lemma PrependTwice(front: seq<Text>, middle: seq<Text>, rest: Option<seq<Text>>)
    ensures Prepend(front, Prepend(middle, rest)) == Prepend(front + middle, rest)
  {
    assert rest.Some? ==> front + (middle + rest.value) == (front + middle) + rest.value;
  }

  /** What TakePayloads does with the payload at `pos`. */
  lemma FirstPayload(body: seq<u8>, pos: nat, count: nat)
    requires pos + 4 <= |body| && count > 0
    ensures var size := FromLittle(body[pos..pos + 4]);
            TakePayloads(body[pos..], count) ==
              if pos + 4 + size > |body| then None
              else Prepend([body[pos + 4..pos + 4 + size]], TakePayloads(body[pos + 4 + size..], count - 1))
  {
    var size := FromLittle(body[pos..pos + 4]);
    assert body[pos..][..4] == body[pos..pos + 4];
    if pos + 4 + size <= |body| {
      assert body[pos..][4..4 + size] == body[pos + 4..pos + 4 + size];
      assert body[pos..][4 + size..] == body[pos + 4 + size..];
    }
  }

  /** `_parse_payloads`. */
  method ParsePayloads(body: seq<u8>, start: nat, count: nat) returns (payloads: Option<seq<Text>>)
    requires start <= |body|
    ensures payloads == PayloadSection(body[start..], count)
  {
    if start == |body| {
      return Some(Blanks(count));
    }
    var pos, parsed := start, [];
    PrependNothing(TakePayloads(body[start..], count));
    for i := 0 to count
      invariant start <= pos <= |body|
      invariant TakePayloads(body[start..], count) == Prepend(parsed, TakePayloads(body[pos..], count - i))
    {
      if pos + 4 > |body| {
        return None;
      }
      var size := ReadU32(body[pos..pos + 4]);
      FirstPayload(body, pos, count - i);
      pos := pos + 4;
      if pos + size > |body| {
        return None;
      }
      PrependTwice(parsed, [body[pos..pos + size]], TakePayloads(body[pos + size..], count - i - 1));
      parsed := parsed + [body[pos..pos + size]];
      pos := pos + size;
    }
    assert body[start..] != [] && (pos == |body| <==> body[pos..] == []);
    assert parsed + [] == parsed;
    if pos == |body| { payloads := Some(parsed); } else { payloads := None; }
  }

  lemma ArraysOf(body: seq<u8>, idsEnd: nat, vectorsEnd: nat)
    requires 16 <= idsEnd <= vectorsEnd <= |body|
    ensures body[16..][..idsEnd - 16] == body[16..idsEnd]
    ensures body[16..][idsEnd - 16..vectorsEnd - 16] == body[idsEnd..vectorsEnd]
    ensures body[16..][vectorsEnd - 16..] == body[vectorsEnd..]
  {
  }

  method ReadRecordBody(body: seq<u8>) returns (r: Option<Record>)
    requires |body| >= RECORD_START_SIZE
    ensures r == ReadBody(body)
  {
    hide TakePayloads, ReadIds, ReadValues, FromLittle, ReadU64, ReadU32;
    var seqNo, count: nat, dim := ReadU64(body[..8]), ReadU32(body[8..12]), ReadU32(body[12..16]);
    var cells: nat := count * dim;
    var idsEnd: nat, vectorsEnd: nat := 16 + 8 * count, 16 + 8 * count + 4 * cells;
    if |body| < vectorsEnd {
      return None;
    }
    var payloads := ParsePayloads(body, vectorsEnd, count);
    ArraysOf(body, idsEnd, vectorsEnd);
    if payloads.None? {
      return None;
    }
    return Some(Record(seqNo, Batch(dim, ReadIds(body[16..idsEnd], count),
                                    ReadValues(body[idsEnd..vectorsEnd], cells), payloads.value)));
  }

  lemma {:induction false} IdsRoundTrip(ids: seq<i64>)
    ensures ReadIds(IdBytes(ids), |ids|) == ids
  {
    if ids != [] {
      var b := IdBytes(ids);
      assert b[..8] == I64(ids[0]) && b[8..] == IdBytes(ids[1..]);
      IdsRoundTrip(ids[1..]);
    }
  }

  lemma {:induction false} ValuesRoundTrip(values: seq<u32>)
    ensures ReadValues(ValueBytes(values), |values|) == values
  {
    if values != [] {
      var b := ValueBytes(values);
      assert b[..4] == U32(values[0]) && b[4..] == ValueBytes(values[1..]);
      ValuesRoundTrip(values[1..]);
    }
  }

  lemma {:induction false} PayloadsRoundTrip(payloads: seq<Text>)
    requires Short(payloads)
    ensures TakePayloads(PayloadBytes(payloads), |payloads|) == Some(payloads)
  {
    if payloads != [] {
      var b, size := PayloadBytes(payloads), |payloads[0]|;
      assert b[..4] == U32(size) && b[4..4 + size] == payloads[0];
      assert b[4 + size..] == PayloadBytes(payloads[1..]);
      PayloadsRoundTrip(payloads[1..]);
      assert [payloads[0]] + payloads[1..] == payloads;
    }
  }

  /** A batch none of whose vectors has a payload has no payload section, and still reads back. */
  lemma PayloadSectionRoundTrip(payloads: seq<Text>)
    requires Short(payloads)
    ensures PayloadSection(if NoPayload(payloads) then [] else PayloadBytes(payloads), |payloads|)
            == Some(payloads)
  {
    if NoPayload(payloads) {
      assert forall i :: 0 <= i < |payloads| ==> payloads[i] in payloads;
      assert payloads == Blanks(|payloads|);
    } else {
      PayloadsRoundTrip(payloads);
    }
  }

  lemma BodyRoundTrip(r: Record)
    requires Shaped(r.batch)
    ensures ReadBody(Body(r)) == Some(r)
  {
    hide IdBytes, ValueBytes, PayloadBytes, ReadIds, ReadValues, TakePayloads, U32, U64;
    var b := r.batch;
    var body, rest := Body(r), BatchBytes(b);
    var idsEnd, vectorsEnd := 8 * |b.ids|, 8 * |b.ids| + 4 * |b.values|;
    assert body[..8] == U64(r.seqNo) && body[8..12] == U32(|b.ids|) && body[12..16] == U32(b.dim);
    assert body[16..] == rest;
    assert rest[..idsEnd] == IdBytes(b.ids);
    assert rest[idsEnd..vectorsEnd] == ValueBytes(b.values);
    assert rest[vectorsEnd..] == if NoPayload(b.payloads) then [] else PayloadBytes(b.payloads);
    IdsRoundTrip(b.ids);
    ValuesRoundTrip(b.values);
    PayloadSectionRoundTrip(b.payloads);
  }

  // ---------------------------------------------------------------- nothing else is a body

  function Decode(body: seq<u8>): Option<Record> {
    if |body| < RECORD_START_SIZE then None else ReadBody(body)
  }

  /** All of a body but its payloads. */
  function FixedBytes(r: Record): seq<u8>
    requires |r.batch.ids| < 0x1_0000_0000
  {
    U64(r.seqNo) + U32(|r.batch.ids|) + U32(r.batch.dim) + IdBytes(r.batch.ids) + ValueBytes(r.batch.values)
  }

  /** The body of r; payloads that are all blank may be given, or left out. */
  ghost predicate IsBody(body: seq<u8>, r: Record) {
    && Shaped(r.batch)
    && (body == FixedBytes(r) + PayloadBytes(r.batch.payloads)
        || (NoPayload(r.batch.payloads) && body == FixedBytes(r)))
  }

  lemma {:induction false} BytesOfIds(b: seq<u8>, count: nat)
    requires |b| == 8 * count
    ensures IdBytes(ReadIds(b, count)) == b
  {
    hide ReadI64, I64;
    if count > 0 {
      BytesOfIds(b[8..], count - 1);
      U64OfRead(b[..8]);
      assert ReadIds(b, count)[1..] == ReadIds(b[8..], count - 1);
      assert b[..8] + b[8..] == b;
    }
  }

  lemma {:induction false} BytesOfValues(b: seq<u8>, count: nat)
    requires |b| == 4 * count
    ensures ValueBytes(ReadValues(b, count)) == b
  {
    hide ReadU32, U32;
    if count > 0 {
      BytesOfValues(b[4..], count - 1);
      U32OfRead(b[..4]);
      assert ReadValues(b, count)[1..] == ReadValues(b[4..], count - 1);
      assert b[..4] + b[4..] == b;
    }
  }

  lemma PayloadFirst(payloads: seq<Text>)
    requires Short(payloads) && payloads != []
    ensures PayloadBytes(payloads) == U32(|payloads[0]|) + payloads[0] + PayloadBytes(payloads[1..])
  {
  }

  lemma NoPayloadBytes()
    ensures PayloadBytes([]) == []
  {
  }

  lemma {:induction false} BytesOfPayloads(b: seq<u8>, count: nat)
    requires TakePayloads(b, count).Some?
    ensures var payloads := TakePayloads(b, count).value;
            |payloads| == count && Short(payloads) && PayloadBytes(payloads) == b
    decreases count
  {
    hide ReadU32, U32, PayloadBytes;
    if count == 0 {
      NoPayloadBytes();
    } else {
      var size := ReadU32(b[..4]);
      var rest := TakePayloads(b[4 + size..], count - 1).value;
      BytesOfPayloads(b[4 + size..], count - 1);
      U32OfRead(b[..4]);
      var payloads := [b[4..4 + size]] + rest;
      assert payloads[1..] == rest;
      PayloadFirst(payloads);
      assert b == b[..4] + b[4..4 + size] + b[4 + size..];
    }
  }

  lemma SectionIff(section: seq<u8>, payloads: seq<Text>)
    requires Short(payloads)
    ensures PayloadSection(section, |payloads|) == Some(payloads) <==>
            section == PayloadBytes(payloads) || (NoPayload(payloads) && section == [])
  {
    hide TakePayloads, PayloadBytes;
    if section == [] {
      assert NoPayload(payloads) ==> payloads == Blanks(|payloads|) by {
        assert forall i :: 0 <= i < |payloads| ==> payloads[i] in payloads;
      }
    } else {
      if TakePayloads(section, |payloads|) == Some(payloads) {
        BytesOfPayloads(section, |payloads|);
      }
      PayloadsRoundTrip(payloads);
    }
  }

  lemma PartsOfBody(r: Record, section: seq<u8>)
    requires |r.batch.ids| < 0x1_0000_0000
    ensures var b, body, idsEnd := r.batch, FixedBytes(r) + section, 8 * |r.batch.ids|;
            var rest, vectorsEnd := body[16..], idsEnd + 4 * |b.values|;
            && body[..8] == U64(r.seqNo) && body[8..12] == U32(|b.ids|) && body[12..16] == U32(b.dim)
            && |rest| == vectorsEnd + |section| && rest[..idsEnd] == IdBytes(b.ids)
            && rest[idsEnd..vectorsEnd] == ValueBytes(b.values) && rest[vectorsEnd..] == section
  {
    hide IdBytes, ValueBytes, U32, U64;
    var start := U64(r.seqNo) + U32(|r.batch.ids|) + U32(r.batch.dim);
    var ids, values := IdBytes(r.batch.ids), ValueBytes(r.batch.values);
    assert FixedBytes(r) + section == start + (ids + values + section);
    assert start[..8] == U64(r.seqNo) && start[8..12] == U32(|r.batch.ids|) && start[12..16] == U32(r.batch.dim);
    assert (start + (ids + values + section))[16..] == ids + values + section;
  }

  lemma BodyIsRead(r: Record, section: seq<u8>)
    requires Shaped(r.batch) && PayloadSection(section, |r.batch.payloads|) == Some(r.batch.payloads)
    ensures Decode(FixedBytes(r) + section) == Some(r)
  {
    PartsOfBody(r, section);
    hide IdBytes, ValueBytes, ReadIds, ReadValues, PayloadSection, U32, U64, FixedBytes;
    IdsRoundTrip(r.batch.ids);
    ValuesRoundTrip(r.batch.values);
  }

  /** What stands where in a body that is read. */
  lemma ReadIsBody(body: seq<u8>)
    requires Decode(body).Some?
    ensures var r := Decode(body).value;
            && |r.batch.ids| < 0x1_0000_0000
            && |r.batch.values| == |r.batch.ids| * r.batch.dim && |FixedBytes(r)| <= |body|
            && body[..|FixedBytes(r)|] == FixedBytes(r)
            && PayloadSection(body[|FixedBytes(r)|..], |r.batch.ids|) == Some(r.batch.payloads)
  {
    hide IdBytes, ValueBytes, ReadIds, ReadValues, PayloadSection, U32, U64, ReadU32, ReadU64;
    var r, rest := Decode(body).value, body[16..];
    var count, idsEnd := |r.batch.ids|, 8 * |r.batch.ids|;
    var vectorsEnd := idsEnd + 4 * |r.batch.values|;
    BytesOfIds(rest[..idsEnd], count);
    BytesOfValues(rest[idsEnd..vectorsEnd], |r.batch.values|);
    U64OfRead(body[..8]);
    U32OfRead(body[8..12]);
    U32OfRead(body[12..16]);
    assert body[..16 + vectorsEnd]
           == body[..8] + body[8..12] + body[12..16] + rest[..idsEnd] + rest[idsEnd..vectorsEnd];
    assert body[16 + vectorsEnd..] == rest[vectorsEnd..];
  }

  lemma SectionIsShort(section: seq<u8>, count: nat)
    requires PayloadSection(section, count).Some?
    ensures var payloads := PayloadSection(section, count).value; |payloads| == count && Short(payloads)
  {
    if section != [] {
      BytesOfPayloads(section, count);
    }
  }

  /** A body is read as a record exactly if it is that record written down, every byte of it. */
  lemma DecodeIff(body: seq<u8>, r: Record)
    ensures Decode(body) == Some(r) <==> IsBody(body, r)
  {
    hide Decode, FixedBytes, PayloadBytes, PayloadSection;
    if Decode(body) == Some(r) {
      ReadIsBody(body);
      var fixed := |FixedBytes(r)|;
      SectionIsShort(body[fixed..], |r.batch.ids|);
      SectionIff(body[fixed..], r.batch.payloads);
      assert body == FixedBytes(r) + body[fixed..];
    }
    if IsBody(body, r) {
      var listed := PayloadBytes(r.batch.payloads);
      var section := if body == FixedBytes(r) + listed then listed else [];
      SectionIff(section, r.batch.payloads);
      BodyIsRead(r, section);
      assert body == FixedBytes(r) + section;
    }
  }

  // ---------------------------------------------------------------- the codec of the log

  function LogCodec(crc: Checksum): Codec<Record> {
    Codec(crc,
          (r: Record) => Loggable(r.batch),
          (r: Record) => if Loggable(r.batch) then Body(r) else [],
          (body: seq<u8>) => Decode(body))
  }

  lemma LogCodecIsFaithful(crc: Checksum)
    ensures Faithful(LogCodec(crc))
  {
    var c := LogCodec(crc);
    forall r: Record | c.accepts(r)
      ensures |c.encode(r)| < 0x1_0000_0000 && c.decode(c.encode(r)) == Some(r)
    {
      BodyRoundTrip(r);
    }
  }

  // ---------------------------------------------------------------- where each field is

  /** The header's fields, the checksum of all that follows it, and the fixed fields of the body. */
  lemma RecordLayout(crc: Checksum, r: Record)
    requires Loggable(r.batch)
    ensures var f, b := Frame(LogCodec(crc), r), r.batch;
            && |f| >= 24 && FromLittle(f[..4]) == |f| - 8 && FromLittle(f[4..8]) == crc(f[8..])
            && FromLittle(f[8..16]) == r.seqNo && FromLittle(f[16..20]) == |b.ids| && FromLittle(f[20..24]) == b.dim
            && f[24..] == IdBytes(b.ids) + ValueBytes(b.values)
                          + if NoPayload(b.payloads) then [] else PayloadBytes(b.payloads)
  {
    hide IdBytes, ValueBytes, PayloadBytes, FromLittle, Little;
    var c, body := LogCodec(crc), Body(r);
    var f := Frame(c, r);
    assert f[..4] == U32(|body|) && f[4..8] == U32(crc(body)) && f[8..] == body;
    FixedFields(r);
    assert f[8..16] == body[..8] && f[16..20] == body[8..12] && f[20..24] == body[12..16] && f[24..] == body[16..];
  }

  lemma FixedFields(r: Record)
    requires Shaped(r.batch)
    ensures var body := Body(r);
            body[..8] == U64(r.seqNo) && body[8..12] == U32(|r.batch.ids|) && body[12..16] == U32(r.batch.dim)
            && body[16..] == BatchBytes(r.batch)
  {
    hide BatchBytes, U32, U64;
  }

  /** Eight bytes for each id, in two's complement. */
  lemma {:induction false} IdAt(ids: seq<i64>, i: nat)
    requires i < |ids|
    ensures FromLittle(IdBytes(ids)[8 * i..8 * i + 8])
            == if ids[i] >= 0 then ids[i] as int else (ids[i] as int) + 0x1_0000_0000_0000_0000
  {
    var b, rest := IdBytes(ids), IdBytes(ids[1..]);
    hide FromLittle, Little;
    if i == 0 {
      assert b[0..8] == I64(ids[0]);
    } else {
      IdAt(ids[1..], i - 1);
      assert b[8 * i..8 * i + 8] == rest[8 * (i - 1)..8 * (i - 1) + 8];
    }
  }

  /** Four for each float. */
  lemma {:induction false} ValueAt(values: seq<u32>, i: nat)
    requires i < |values|
    ensures FromLittle(ValueBytes(values)[4 * i..4 * i + 4]) == values[i]
  {
    var b, rest := ValueBytes(values), ValueBytes(values[1..]);
    hide FromLittle, Little;
    if i == 0 {
      assert b[0..4] == U32(values[0]);
    } else {
      ValueAt(values[1..], i - 1);
      assert b[4 * i..4 * i + 4] == rest[4 * (i - 1)..4 * (i - 1) + 4];
    }
  }

  /** Each payload after those before it, its length first. */
  lemma {:induction false} PayloadAt(payloads: seq<Text>, i: nat)
    requires Short(payloads) && i < |payloads|
    ensures Short(payloads[..i]) && Short(payloads[i + 1..])
    ensures PayloadBytes(payloads)
            == PayloadBytes(payloads[..i]) + U32(|payloads[i]|) + payloads[i] + PayloadBytes(payloads[i + 1..])
  {
    hide U32, PayloadBytes;
    PayloadFirst(payloads);
    if i == 0 {
      NoPayloadBytes();
      assert payloads[..0] == [];
    } else {
      PayloadAt(payloads[1..], i - 1);
      PayloadFirst(payloads[..i]);
      assert payloads[1..][..i - 1] == payloads[..i][1..] && payloads[1..][i..] == payloads[i + 1..];
    }
  }

  /**
    The log of any list of writes, cut at any byte: reading it returns exactly the writes
    recorded wholly before the cut, and the number of bytes they fill.
    */
  lemma LogCutAnywhere(crc: Checksum, writes: seq<Record>, cut: nat) returns (k: nat)
    requires AllAccepted(LogCodec(crc), writes) && cut <= |FrameAll(LogCodec(crc), writes)|
    ensures k <= |writes|
    ensures |FrameAll(LogCodec(crc), writes[..k])| <= cut
    ensures k < |writes| ==> cut < |FrameAll(LogCodec(crc), writes[..k + 1])|
    ensures Scan(LogCodec(crc), FrameAll(LogCodec(crc), writes)[..cut])
            == Scanned(writes[..k], |FrameAll(LogCodec(crc), writes[..k])|)
  {
    LogCodecIsFaithful(crc);
    k := CutLogReadsWholeRecords(LogCodec(crc), writes, cut);
  }
}

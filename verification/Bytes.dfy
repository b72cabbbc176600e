/** Fixed-width little-endian integers, as the `struct` formats of the log write them. */
module Bytes {
  type u8 = x: int | 0 <= x < 0x100
  type u32 = x: int | 0 <= x < 0x1_0000_0000
  type u64 = x: int | 0 <= x < 0x1_0000_0000_0000_0000
  type i64 = x: int | -0x8000_0000_0000_0000 <= x < 0x8000_0000_0000_0000

  datatype Option<+T> = None | Some(value: T)

  function Least(a: nat, b: nat): nat {
    if a < b then a else b
  }

  function Pow256(width: nat): (p: nat)
    ensures p >= 1
  {
    if width == 0 then 1 else 256 * Pow256(width - 1)
  }

  function Little(n: nat, width: nat): (b: seq<u8>)
    ensures |b| == width
  {
    if width == 0 then [] else [n % 256] + Little(n / 256, width - 1)
  }

  function FromLittle(b: seq<u8>): (n: nat)
    ensures n < Pow256(|b|)
  {
    if b == [] then 0 else b[0] + 256 * FromLittle(b[1..])
  }

  lemma {:induction false} LittleRoundTrip(n: nat, width: nat)
    requires n < Pow256(width)
    ensures FromLittle(Little(n, width)) == n
  {
    if width > 0 {
      LittleRoundTrip(n / 256, width - 1);
      assert Little(n, width)[1..] == Little(n / 256, width - 1);
    }
  }

  /** Bytes are the only ones of their value. */
  lemma {:induction false} LittleOfFromLittle(b: seq<u8>)
    ensures Little(FromLittle(b), |b|) == b
  {
    if b != [] {
      LittleOfFromLittle(b[1..]);
      LowDigit(b[0], FromLittle(b[1..]));
      assert b == [b[0]] + b[1..];
    }
  }

  lemma LowDigit(low: u8, high: nat)
    ensures (low + 256 * high) % 256 == low && (low + 256 * high) / 256 == high
  {
  }

  lemma Widths()
    ensures Pow256(4) == 0x1_0000_0000
    ensures Pow256(8) == 0x1_0000_0000_0000_0000
  {
    assert Pow256(2) == 0x1_0000;
    assert Pow256(4) == 0x1_0000 * 0x1_0000;
    assert Pow256(6) == 0x1_0000 * Pow256(4);
  }

  function U32(n: u32): (b: seq<u8>)
    ensures |b| == 4 && FromLittle(b) == n
  {
    Widths();
    LittleRoundTrip(n, 4);
    Little(n, 4)
  }

  function U64(n: u64): (b: seq<u8>)
    ensures |b| == 8 && FromLittle(b) == n
  {
    Widths();
    LittleRoundTrip(n, 8);
    Little(n, 8)
  }

  function ReadU32(b: seq<u8>): u32
    requires |b| == 4
  {
    Widths();
    FromLittle(b)
  }

  function ReadU64(b: seq<u8>): u64
    requires |b| == 8
  {
    Widths();
    FromLittle(b)
  }

  /** Two's complement. */
  function I64(x: i64): (b: seq<u8>)
    ensures |b| == 8 && ReadI64(b) == x
  {
    U64(if x < 0 then x + 0x1_0000_0000_0000_0000 else x)
  }

  function ReadI64(b: seq<u8>): i64
    requires |b| == 8
  {
    var n := ReadU64(b);
    if n < 0x8000_0000_0000_0000 then n else n - 0x1_0000_0000_0000_0000
  }

  lemma U32OfRead(b: seq<u8>)
    requires |b| == 4
    ensures U32(ReadU32(b)) == b
  {
    LittleOfFromLittle(b);
  }

  lemma U64OfRead(b: seq<u8>)
    requires |b| == 8
    ensures U64(ReadU64(b)) == b && I64(ReadI64(b)) == b
  {
    LittleOfFromLittle(b);
  }

  /** The low byte comes first. */
  lemma LowByteFirst(b: seq<u8>)
    requires |b| == 4
    ensures FromLittle(b) ==
              (b[0] as int) + 0x100 * (b[1] as int) + 0x1_0000 * (b[2] as int) + 0x100_0000 * (b[3] as int)
  {
    assert FromLittle(b[3..]) == b[3] + 256 * FromLittle([]) by { assert b[3..][1..] == []; }
    assert FromLittle(b[2..]) == b[2] + 256 * FromLittle(b[3..]) by { assert b[2..][1..] == b[3..]; }
    assert FromLittle(b[1..]) == b[1] + 256 * FromLittle(b[2..]) by { assert b[1..][1..] == b[2..]; }
  }

  /** And so it does in eight: the low half is the first. */
  lemma LowHalfFirst(b: seq<u8>)
    requires |b| == 8
    ensures FromLittle(b) == FromLittle(b[..4]) + 0x1_0000_0000 * FromLittle(b[4..])
  {
    Widths();
    LittleConcat(b[..4], b[4..]);
    assert b[..4] + b[4..] == b;
  }

  lemma {:induction false} LittleConcat(a: seq<u8>, b: seq<u8>)
    ensures FromLittle(a + b) == FromLittle(a) + Pow256(|a|) * FromLittle(b)
  {
    if a == [] {
      assert a + b == b;
    } else {
      LittleConcat(a[1..], b);
      assert (a + b)[1..] == a[1..] + b;
      Regroup(FromLittle(a[1..]), Pow256(|a| - 1), FromLittle(b));
    }
  }

  lemma Regroup(x: nat, p: nat, y: nat)
    ensures 256 * (x + p * y) == 256 * x + 256 * p * y
  {
  }
}

// protocol/src/lib.rs: the checksummed mock bulk payload.

module BulkPayload {
  import opened Bytes
  import opened Wrappers

  const BULK_MAGIC: seq<u8> := [0x57, 0x42, 0x55, 0x4c] // "WBUL"
  const BULK_VERSION: u8 := 1
  const BULK_HEADER_LEN := 16

  function RotateLeft5(x: u32): u32 {
    x % 0x800_0000 * 32 + x / 0x800_0000
  }

  function Mix(acc: u32, byte: u8): u32 {
    (RotateLeft5(acc) + byte) % TWO_TO_32
  }

  function ChecksumFrom(acc: u32, data: seq<u8>): u32
    decreases |data|
  {
    if data == [] then acc else ChecksumFrom(Mix(acc, data[0]), data[1..])
  }

  function Checksum(data: seq<u8>): u32 {
    ChecksumFrom(0, data)
  }

  // MockBulkPayload::encode panics on longer data.
  function BulkEncode(data: seq<u8>): (b: seq<u8>)
    requires |data| <= U32_MAX
    ensures |b| == BULK_HEADER_LEN + |data|
  {
    BULK_MAGIC + [BULK_VERSION, 0, 0, 0] + ToBe32(|data|) + ToBe32(Checksum(data)) + data
  }

  function BulkDecode(b: seq<u8>): (r: ProtocolResult<seq<u8>>) {
    if |b| < BULK_HEADER_LEN || b[..4] != BULK_MAGIC || b[4] != BULK_VERSION then Err(InvalidBulkPayload)
    else if |b| != BULK_HEADER_LEN + ReadBe32(b, 8) then Err(InvalidBulkPayload)
    else if Checksum(b[BULK_HEADER_LEN..]) != ReadBe32(b, 12) then Err(InvalidBulkPayload)
    else Ok(b[BULK_HEADER_LEN..])
  }

  lemma BulkRoundTrip(data: seq<u8>)
    requires |data| <= U32_MAX
    ensures BulkDecode(BulkEncode(data)) == Ok(data)
  {
    var b := BulkEncode(data);
    assert b[..4] == BULK_MAGIC;
    assert b[8..12] == ToBe32(|data|);
    assert b[12..16] == ToBe32(Checksum(data));
    assert b[16..] == data;
  }

  // ---- what the checksum is: bits turned left by five places, and sums of powers of 32

  function Bit(x: nat, i: nat): nat
    decreases i
  {
    if i == 0 then x % 2 else Bit(x / 2, i - 1)
  }

  function Pow2(n: nat): (p: nat)
    ensures p >= 1
  {
    if n == 0 then 1 else 2 * Pow2(n - 1)
  }

  // Bit i of h * 2^n + l, where l < 2^n, is bit i of l below n and bit i - n of h above.
  lemma {:induction false} BitOfJoined(h: nat, l: nat, n: nat, i: nat)
    requires l < Pow2(n)
    ensures Bit(h * Pow2(n) + l, i) == if i < n then Bit(l, i) else Bit(h, i - n)
    decreases n, i
  {
    if n > 0 {
      var half := h * Pow2(n - 1);
      assert h * Pow2(n) == 2 * half;
      if i > 0 {
        assert (2 * half + l) / 2 == half + l / 2;
        BitOfJoined(h, l / 2, n - 1, i - 1);
      }
    }
  }

  lemma PowersOf2()
    ensures Pow2(5) == 32 && Pow2(27) == 0x800_0000 && Pow2(32) == TWO_TO_32
  {
    assert Pow2(10) == 1024;
    assert Pow2(20) == 0x10_0000;
  }

  lemma Parts(x: u32) returns (h: nat, l: nat)
    ensures h < Pow2(5) && l < Pow2(27)
    ensures x == h * Pow2(27) + l && RotateLeft5(x) == l * Pow2(5) + h
  {
    PowersOf2();
    hide Pow2;
    h, l := x / 0x800_0000, x % 0x800_0000;
    var p27, p5 := Pow2(27), Pow2(5);
    assert p27 == 0x800_0000 && p5 == 32;
  }

  lemma TurnedBits(x: nat, r: nat, h: nat, l: nat, i: nat, j: nat)
    requires h < Pow2(5) && l < Pow2(27) && i < 32 && j == if i < 27 then i + 5 else i - 27
    requires x == h * Pow2(27) + l && r == l * Pow2(5) + h
    ensures Bit(r, j) == Bit(x, i)
  {
    hide Bit, Pow2;
    BitOfJoined(h, l, 27, i);
    BitOfJoined(l, h, 5, j);
  }

  // Every bit of the word moves up by five places, the top five to the bottom.
  lemma RotationMovesBits(x: u32, i: nat)
    requires i < 32
    ensures Bit(RotateLeft5(x), (i + 5) % 32) == Bit(x, i)
  {
    var j := if i < 27 then i + 5 else i - 27;
    assert (i + 5) % 32 == j;
    hide *;
    var h, l := Parts(x);
    TurnedBits(x, RotateLeft5(x), h, l, i, j);
  }

  // And the bits are all there is to a word.
  lemma {:induction false} BitsDetermineWord(x: nat, y: nat, n: nat)
    requires x < Pow2(n) && y < Pow2(n)
    requires forall i :: 0 <= i < n ==> Bit(x, i) == Bit(y, i)
    ensures x == y
    decreases n
  {
    if n > 0 {
      assert Bit(x, 0) == Bit(y, 0);
      forall i | 0 <= i < n - 1
        ensures Bit(x / 2, i) == Bit(y / 2, i)
      {
        assert Bit(x, i + 1) == Bit(y, i + 1);
      }
      BitsDetermineWord(x / 2, y / 2, n - 1);
    }
  }

  // No other word has its bits so placed.
  lemma RotationIsUnique(x: u32, y: u32)
    requires forall i :: 0 <= i < 32 ==> Bit(y, (i + 5) % 32) == Bit(x, i)
    ensures y == RotateLeft5(x)
  {
    PowersOf2();
    forall j | 0 <= j < 32
      ensures Bit(y, j) == Bit(RotateLeft5(x), j)
    {
      var i := (j + 27) % 32;
      assert (i + 5) % 32 == j;
      RotationMovesBits(x, i);
    }
    hide Bit, Pow2, RotateLeft5;
    BitsDetermineWord(y, RotateLeft5(x), 32);
  }

  function Pow32(n: nat): (p: nat)
    ensures p >= 1
  {
    if n == 0 then 1 else 32 * Pow32(n - 1)
  }

  // The first byte weighs most.
  function Weighted(data: seq<u8>): nat {
    if data == [] then 0 else data[0] * Pow32(|data| - 1) + Weighted(data[1..])
  }

  lemma SmallMix(acc: u32, byte: u8)
    requires acc < 0x400_0000
    ensures Mix(acc, byte) == 32 * acc + byte
  {
  }

  lemma PowersOf32(n: nat)
    requires n <= 4
    ensures Pow32(n) <= 0x10_0000 && Pow32(n + 1) == 32 * Pow32(n)
  {
    assert Pow32(4) == 0x10_0000;
  }

  // Up to five bytes nothing wraps around: the checksum is the data read as digits to the base 32.
  lemma {:induction false} ShortChecksum(acc: u32, data: seq<u8>)
    requires |data| <= 5 && 31 * acc <= 255 * (Pow32(5 - |data|) - 1)
    ensures ChecksumFrom(acc, data) == acc * Pow32(|data|) + Weighted(data)
    decreases |data|
  {
    hide Mix;
    if data != [] {
      PowersOf32(5 - |data|);
      SmallMix(acc, data[0]);
      var next := Mix(acc, data[0]);
      ShortChecksum(next, data[1..]);
      var p := Pow32(|data| - 1);
      assert next * p == acc * (32 * p) + data[0] * p;
    }
  }

  lemma ChecksumOfFew(data: seq<u8>)
    requires |data| <= 5
    ensures Checksum(data) == Weighted(data)
  {
    ShortChecksum(0, data);
  }

  // ---- error detection

  lemma RotateIsBijective(x: u32, y: u32)
    requires RotateLeft5(x) == RotateLeft5(y)
    ensures x == y
  {
    assert RotateLeft5(x) / 32 == x % 0x800_0000 && RotateLeft5(x) % 32 == x / 0x800_0000;
    assert RotateLeft5(y) / 32 == y % 0x800_0000 && RotateLeft5(y) % 32 == y / 0x800_0000;
  }

  lemma MixSeparates(x: u32, y: u32, byte: u8)
    requires Mix(x, byte) == Mix(y, byte)
    ensures x == y
  {
    SameAfterAdding(RotateLeft5(x), RotateLeft5(y), byte);
    RotateIsBijective(x, y);
  }

  lemma SameAfterAdding(x: u32, y: u32, byte: u8)
    requires (x + byte) % TWO_TO_32 == (y + byte) % TWO_TO_32
    ensures x == y
  {
    assert x + byte < 2 * TWO_TO_32 && y + byte < 2 * TWO_TO_32;
  }

  // Two different accumulators never meet again on the same remaining data.
  lemma {:induction false} ChecksumSeparates(x: u32, y: u32, data: seq<u8>)
    requires x != y
    ensures ChecksumFrom(x, data) != ChecksumFrom(y, data)
    decreases |data|
  {
    hide Mix;
    if data != [] {
      if Mix(x, data[0]) == Mix(y, data[0]) {
        MixSeparates(x, y, data[0]);
      }
      ChecksumSeparates(Mix(x, data[0]), Mix(y, data[0]), data[1..]);
    }
  }

  lemma {:induction false} OneByteChangesChecksum(acc: u32, data: seq<u8>, i: nat, v: u8)
    requires i < |data| && data[i] != v
    ensures ChecksumFrom(acc, data) != ChecksumFrom(acc, data[i := v])
    decreases |data|
  {
    var changed := data[i := v];
    if i == 0 {
      assert changed[1..] == data[1..];
      ChecksumSeparates(Mix(acc, data[0]), Mix(acc, v), data[1..]);
    } else {
      assert changed[1..] == data[1..][i - 1 := v];
      OneByteChangesChecksum(Mix(acc, data[0]), data[1..], i - 1, v);
    }
  }

  lemma Be32SeesOneByte(b: seq<u8>, i: nat, v: u8)
    requires |b| == 4 && i < 4 && b[i] != v
    ensures FromBe32(b) != FromBe32(b[i := v])
  {
    Be32Inverse(b);
    Be32Inverse(b[i := v]);
    assert b != b[i := v];
  }

  // A change to one byte of an encoded payload is rejected, unless it hits one of the reserved
  // bytes 5..8, in which case the data is unharmed.
  lemma SingleByteErrors(data: seq<u8>, i: nat, v: u8)
    requires |data| <= U32_MAX
    requires i < |BulkEncode(data)| && v != BulkEncode(data)[i]
    ensures BulkDecode(BulkEncode(data)[i := v]) == if 5 <= i < 8 then Ok(data) else Err(InvalidBulkPayload)
  {
    var b := BulkEncode(data);
    var c := b[i := v];
    BulkRoundTrip(data);
    if i < 4 {
      assert c[..4][i] != BULK_MAGIC[i];
    } else if i < 8 {
      assert c[..4] == b[..4] && c[8..12] == b[8..12] && c[12..16] == b[12..16] && c[16..] == b[16..];
    } else if i < 12 {
      assert c[8..12] == b[8..12][i - 8 := v];
      Be32SeesOneByte(b[8..12], i - 8, v);
    } else if i < 16 {
      assert c[12..16] == b[12..16][i - 12 := v];
      Be32SeesOneByte(b[12..16], i - 12, v);
      assert c[16..] == b[16..];
    } else {
      assert c[16..] == b[16..][i - 16 := v];
      OneByteChangesChecksum(0, b[16..], i - 16, v);
      assert c[12..16] == b[12..16];
    }
  }

  // What decode accepts is the encoding of the data it returns, reserved bytes aside.
  lemma BulkDecodedReencodes(b: seq<u8>)
    requires BulkDecode(b).Ok?
    ensures |BulkDecode(b).value| <= U32_MAX
    ensures BulkEncode(BulkDecode(b).value) == b[..5] + [0, 0, 0] + b[8..]
  {
    Be32Inverse(b[8..12]);
    Be32Inverse(b[12..16]);
    var c := b[..5] + [0, 0, 0] + b[8..];
    assert b[8..] == b[8..12] + b[12..16] + b[16..];
    assert c == b[..4] + [b[4], 0, 0, 0] + (b[8..12] + b[12..16] + b[16..]);
  }
}

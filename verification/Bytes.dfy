// Machine integers and the byte orders the wire formats use.

module Wrappers {
  datatype Option<+T> = None | Some(value: T)

  datatype Result<+T, +E> = Ok(value: T) | Err(error: E) {
    predicate IsFailure() {
      Err?
    }

    function PropagateFailure<U>(): Result<U, E>
      requires Err?
    {
      Err(error)
    }

    function Extract(): T
      requires Ok?
    {
      value
    }
  }

  lemma Associative<T>(a: seq<T>, b: seq<T>, c: seq<T>)
    ensures a + (b + c) == (a + b) + c
  {
  }

  // One step of a run that consumes `before` and `here` from the left and emits `out` first.
  lemma Splice<T>(before: seq<T>, here: seq<T>, later: seq<T>, out: seq<T>, after: seq<T>, delivered: seq<T>,
          left: seq<T>)
    requires before + here == out + after && after + later == delivered + left
    ensures before + (here + later) == (out + delivered) + left
  {
    assert before + (here + later) == (before + here) + later;
    assert (out + after) + later == out + (after + later);
  }

  // The classes of protocol::ProtocolError; the message texts are not modelled.
  datatype ProtocolError =
    | TruncatedHeader(actual: nat, expected: nat)
    | InvalidMagic
    | UnsupportedVersion(version: nat)
    | InvalidFrameType(code: nat)
    | InvalidDirection(code: nat)
    | InvalidTransferType(code: nat)
    | InvalidPayloadLength(actual: nat, expected: nat)
    | InvalidDescriptorSet
    | InvalidControlTransfer
    | InvalidBulkPayload
    | InvalidUsbIpPacket
    | InvalidHidReport

  type ProtocolResult<+T> = Result<T, ProtocolError>
}

module Bytes {
  const U32_MAX := 0xffff_ffff
  const TWO_TO_32 := 0x1_0000_0000
  const TWO_TO_64 := 0x1_0000_0000_0000_0000

  type u8 = x: int | 0 <= x < 0x100
  type u16 = x: int | 0 <= x < 0x1_0000
  type u32 = x: int | 0 <= x < TWO_TO_32
  type u64 = x: int | 0 <= x < TWO_TO_64
  type i32 = x: int | -0x8000_0000 <= x < 0x8000_0000

  function ToLe16(n: u16): (b: seq<u8>)
    ensures |b| == 2 && FromLe16(b) == n
  {
    [n % 0x100, n / 0x100]
  }

  function FromLe16(b: seq<u8>): u16
    requires |b| == 2
  {
    (b[0] as int) + 0x100 * (b[1] as int)
  }

  function ReadLe16(b: seq<u8>, offset: nat): u16
    requires offset + 2 <= |b|
  {
    FromLe16(b[offset..offset + 2])
  }

  function ToBe32(n: u32): (b: seq<u8>)
    ensures |b| == 4 && FromBe32(b) == n
  {
    var b2 := n / 0x100;
    var b1 := b2 / 0x100;
    [b1 / 0x100, b1 % 0x100, b2 % 0x100, n % 0x100]
  }

  function FromBe32(b: seq<u8>): u32
    requires |b| == 4
  {
    0x100_0000 * (b[0] as int) + 0x1_0000 * (b[1] as int) + 0x100 * (b[2] as int) + (b[3] as int)
  }

  function ReadBe32(b: seq<u8>, offset: nat): u32
    requires offset + 4 <= |b|
  {
    FromBe32(b[offset..offset + 4])
  }

  function ToBe64(n: u64): (b: seq<u8>)
    ensures |b| == 8 && FromBe64(b) == n
  {
    var b := ToBe32(n / TWO_TO_32) + ToBe32(n % TWO_TO_32);
    assert b[..4] == ToBe32(n / TWO_TO_32) && b[4..] == ToBe32(n % TWO_TO_32);
    b
  }

  function FromBe64(b: seq<u8>): u64
    requires |b| == 8
  {
    TWO_TO_32 * (FromBe32(b[..4]) as int) + (FromBe32(b[4..]) as int)
  }

  // Two's complement.
  function ToBeI32(n: i32): (b: seq<u8>)
    ensures |b| == 4 && FromBeI32(b) == n
  {
    ToBe32(if n < 0 then n + TWO_TO_32 else n)
  }

  function FromBeI32(b: seq<u8>): i32
    requires |b| == 4
  {
    var n := FromBe32(b);
    if n >= 0x8000_0000 then n - TWO_TO_32 else n
  }

  // Reading back what was written is the other half of each pair above.

  lemma Le16Inverse(b: seq<u8>)
    requires |b| == 2
    ensures ToLe16(FromLe16(b)) == b
  {
    assert ToLe16(FromLe16(b))[0] == b[0];
  }

  lemma Be32Inverse(b: seq<u8>)
    requires |b| == 4
    ensures ToBe32(FromBe32(b)) == b
  {
    var c := ToBe32(FromBe32(b));
    assert c[0] == b[0] && c[1] == b[1] && c[2] == b[2] && c[3] == b[3];
  }

  lemma Be64Inverse(b: seq<u8>)
    requires |b| == 8
    ensures ToBe64(FromBe64(b)) == b
  {
    var hi, lo := FromBe32(b[..4]), FromBe32(b[4..]);
    assert FromBe64(b) / TWO_TO_32 == hi && FromBe64(b) % TWO_TO_32 == lo;
    Be32Inverse(b[..4]);
    Be32Inverse(b[4..]);
    assert b == b[..4] + b[4..];
  }

  lemma BeI32Inverse(b: seq<u8>)
    requires |b| == 4
    ensures ToBeI32(FromBeI32(b)) == b
  {
    Be32Inverse(b);
  }
}

// Where each field lies on the wire, as numbers: what two ends written apart have to agree on.

module WireLayout {
  import opened BulkPayload
  import opened Bytes
  import opened ControlTransfers
  import opened Descriptors
  import opened FrameCodec
  import opened UsbIpCodec
  import opened Wrappers
  import C = ClientSpec

  // The number a byte string stands for, its first byte weighing most, or its last.
  function BigEndian(b: seq<u8>): nat {
    if b == [] then 0 else 256 * BigEndian(b[..|b| - 1]) + b[|b| - 1]
  }

  function LittleEndian(b: seq<u8>): nat {
    if b == [] then 0 else b[0] + 256 * LittleEndian(b[1..])
  }

  lemma BigEndianOf4(b: seq<u8>)
    requires |b| == 4
    ensures BigEndian(b) == FromBe32(b)
  {
    assert b[..3][..2] == b[..2] && b[..2][..1] == b[..1] && b[..1][..0] == [];
    assert BigEndian(b[..1]) == b[0];
    assert BigEndian(b[..2]) == 256 * BigEndian(b[..1]) + b[1];
    assert BigEndian(b[..3]) == 256 * BigEndian(b[..2]) + b[2];
  }

  lemma BigEndianConcat(a: seq<u8>, b: seq<u8>)
    requires |b| == 4
    ensures BigEndian(a + b) == TWO_TO_32 * BigEndian(a) + BigEndian(b)
  {
    var c := a + b;
    assert c[..|c| - 1] == a + b[..3] && c[|c| - 1] == b[3];
    assert (a + b[..3])[..|a| + 2] == a + b[..2];
    assert (a + b[..2])[..|a| + 1] == a + b[..1];
    assert (a + b[..1])[..|a|] == a;
    assert BigEndian(a + b[..1]) == 256 * BigEndian(a) + b[0];
    assert BigEndian(a + b[..2]) == 256 * BigEndian(a + b[..1]) + b[1];
    assert BigEndian(a + b[..3]) == 256 * BigEndian(a + b[..2]) + b[2];
    BigEndianOf4(b);
  }

  lemma WordsAreBigEndian(n: u32, m: u64, i: i32)
    ensures BigEndian(ToBe32(n)) == n
    ensures BigEndian(ToBe64(m)) == m
    ensures BigEndian(ToBeI32(i)) == if i < 0 then i + TWO_TO_32 else i
  {
    BigEndianOf4(ToBe32(n));
    BigEndianOf4(ToBeI32(i));
    var hi, lo := ToBe32(m / TWO_TO_32), ToBe32(m % TWO_TO_32);
    BigEndianConcat(hi, lo);
    BigEndianOf4(hi);
    BigEndianOf4(lo);
  }

  lemma ShortsAreLittleEndian(n: u16)
    ensures LittleEndian(ToLe16(n)) == n && ToLe16(n)[0] == n % 256
  {
    var b := ToLe16(n);
    assert LittleEndian(b[1..]) == b[1];
  }

  // ---- the WHY frame

  function TypeNumber(t: FrameType): nat {
    match t
    case Request => 1
    case Response => 2
    case Event => 3
    case AttachRequest => 4
    case AttachResponse => 5
    case DetachRequest => 6
    case DetachResponse => 7
    case CancelRequest => 8
    case CancelResponse => 9
    case ResetRequest => 10
    case ResetResponse => 11
  }

  lemma FrameLayout(f: Frame)
    requires Encodable(f)
    ensures var b := Encode(f);
            && |b| == 28 + |f.payload|
            && b[..5] == ['W' as u8, 'H' as u8, 'Y' as u8, '1' as u8, 1]
            && b[5] == TypeNumber(f.frameType)
            && b[6] == (if f.direction.HostToDevice? then 1 else 2)
            && b[7] == (match f.transferType
                        case Control => 1
                        case Bulk => 2
                        case Interrupt => 3
                        case Isochronous => 4)
            && BigEndian(b[8..16]) == f.requestId
            && b[16..20] == [f.endpoint, 0, 0, 0]
            && BigEndian(b[20..24]) == (if f.status < 0 then f.status + 0x1_0000_0000 else f.status)
            && BigEndian(b[24..28]) == |f.payload|
            && b[28..] == f.payload
  {
    WordsAreBigEndian(|f.payload|, f.requestId, f.status);
    hide ToBe32, ToBe64, ToBeI32, BigEndian;
    var b := Encode(f);
    assert b[8..16] == ToBe64(f.requestId);
    assert b[20..24] == ToBeI32(f.status);
    assert b[24..28] == ToBe32(|f.payload|);
  }

  // The codes of the transfer status in a frame.
  lemma StatusNumbers()
    ensures StatusCode(Success) == 0 && StatusCode(Failed) == -1 && StatusCode(Cancelled) == -2
    ensures StatusCode(Timeout) == -3 && StatusCode(Stall) == -4 && StatusCode(Reset) == -5
  {
  }

  lemma BulkLayout(data: seq<u8>)
    requires |data| <= U32_MAX
    ensures var b := BulkEncode(data);
            && b[..8] == ['W' as u8, 'B' as u8, 'U' as u8, 'L' as u8, 1, 0, 0, 0]
            && BigEndian(b[8..12]) == |data|
            && BigEndian(b[12..16]) == Checksum(data)
            && b[16..] == data
  {
    WordsAreBigEndian(|data|, 0, 0);
    WordsAreBigEndian(Checksum(data), 0, 0);
    hide ToBe32, BigEndian, Checksum;
    var b := BulkEncode(data);
    assert b[8..12] == ToBe32(|data|);
    assert b[12..16] == ToBe32(Checksum(data));
  }

  // ---- the synthetic bulk data: the id's bytes over and over, each plus its position

  // The digits of a number to the base 256, the lowest first.
  function Digits(x: nat, n: nat): (d: seq<u8>)
    ensures |d| == n
  {
    if n == 0 then [] else [x % 256] + Digits(x / 256, n - 1)
  }

  function Pow256(n: nat): nat {
    if n == 0 then 1 else 256 * Pow256(n - 1)
  }

  lemma {:induction false} DigitsStandFor(x: nat, n: nat)
    requires x < Pow256(n)
    ensures LittleEndian(Digits(x, n)) == x
    decreases n
  {
    if n > 0 {
      DigitsStandFor(x / 256, n - 1);
      assert Digits(x, n)[1..] == Digits(x / 256, n - 1);
    }
  }

  lemma {:induction false} SeedIsDigit(id: u64, n: nat, k: nat)
    requires k < n <= 8
    ensures Digits(id, n)[k] == C.SeedByte(id, k)
    decreases n
  {
    if k > 0 {
      SeedIsDigit(id / 256, n - 1, k - 1);
    }
  }

  // The byte at a position without what was added for the position.
  function Unshifted(data: seq<u8>, i: nat): u8
    requires i < |data|
  {
    (data[i] + 256 - i % 256) % 256
  }

  lemma Shifts(seed: int, m: int, before: int)
    requires 0 <= seed < 256 && 0 <= m < 256 && before == if m >= 8 then m - 8 else m + 248
    ensures ((seed + m) % 256 + 256 - m) % 256 == seed
    ensures (seed + m) % 256 == ((seed + before) % 256 + 8) % 256
  {
    assert (seed + m) % 256 == if seed + m < 256 then seed + m else seed + m - 256;
    assert (seed + before) % 256 == if seed + before < 256 then seed + before else seed + before - 256;
  }

  lemma Remainder256(turns: int, m: int)
    requires 0 <= m < 256
    ensures (256 * turns + m) % 256 == m
  {
  }

  lemma Remainder8(turns: int, m: int)
    requires 0 <= m < 8
    ensures (8 * turns + m) % 8 == m
  {
  }

  lemma EightBefore(i: nat)
    requires i >= 8
    ensures (i - 8) % 8 == i % 8
    ensures (i - 8) % 256 == if i % 256 >= 8 then i % 256 - 8 else i % 256 + 248
  {
    Remainder8(i / 8 - 1, i % 8);
    assert i - 8 == 8 * (i / 8 - 1) + i % 8;
    EightBefore256(i, i / 256, i % 256);
  }

  lemma EightBefore256(i: int, turns: int, m: int)
    requires i == 256 * turns + m && 0 <= m < 256
    ensures (i - 8) % 256 == if m >= 8 then m - 8 else m + 248
  {
    if m >= 8 {
      Remainder256(turns, m - 8);
      assert i - 8 == 256 * turns + (m - 8);
    } else {
      Remainder256(turns - 1, m + 248);
      assert i - 8 == 256 * (turns - 1) + (m + 248);
    }
  }

  lemma SyntheticBytes(id: u64, i: nat)
    ensures (C.SyntheticByte(id, i) + 256 - i % 256) % 256 == C.SeedByte(id, i % 8)
    ensures i >= 8 ==> C.SyntheticByte(id, i) == (C.SyntheticByte(id, i - 8) as int + 8) % 256
  {
    hide C.SeedByte;
    var seed := C.SeedByte(id, i % 8);
    Shifts(seed, i % 256, if i % 256 >= 8 then i % 256 - 8 else i % 256 + 248);
    if i >= 8 {
      EightBefore(i);
      assert C.SeedByte(id, (i - 8) % 8) == seed;
    }
  }

  // The first eight bytes, so read, are the id, lowest byte first; from then on each byte is eight
  // more than the one eight places before. Shorter data is the start of longer.
  lemma SyntheticLayout(id: u64, len: nat)
    requires len >= 8
    ensures var data := C.SyntheticData(id, len);
            && LittleEndian(seq(8, i requires 0 <= i < 8 => Unshifted(data, i))) == id
            && (forall i :: 8 <= i < len ==> data[i] == (data[i - 8] as int + 8) % 256)
            && forall n :: 0 <= n <= len ==> C.SyntheticData(id, n) == data[..n]
  {
    hide C.SyntheticByte, C.SeedByte, LittleEndian;
    var data := C.SyntheticData(id, len);
    var seeds := seq(8, i requires 0 <= i < 8 => Unshifted(data, i));
    forall i | 0 <= i < 8
      ensures seeds[i] == Digits(id, 8)[i]
    {
      SyntheticBytes(id, i);
      SeedIsDigit(id, 8, i);
    }
    assert seeds == Digits(id, 8);
    EightDigits();
    DigitsStandFor(id, 8);
    forall i | 8 <= i < len
      ensures data[i] == (data[i - 8] as int + 8) % 256
    {
      SyntheticBytes(id, i);
    }
  }

  lemma EightDigits()
    ensures Pow256(8) == TWO_TO_64
  {
    assert Pow256(4) == TWO_TO_32;
  }

  // ---- USB/IP

  lemma HeaderLayout(h: BasicHeader)
    ensures var b := HeaderBytes(h);
            && BigEndian(b[0..4]) == (match h.command
                                      case CmdSubmit => 1
                                      case CmdUnlink => 2
                                      case RetSubmit => 3
                                      case RetUnlink => 4)
            && BigEndian(b[4..8]) == h.seqnum && BigEndian(b[8..12]) == h.devid
            && BigEndian(b[12..16]) == (if h.direction.Out? then 0 else 1)
            && BigEndian(b[16..20]) == h.endpoint
  {
    var c, d := ToBe32(CommandCode(h.command)), ToBe32(PipeCode(h.direction));
    FiveParts(c, ToBe32(h.seqnum), ToBe32(h.devid), d, ToBe32(h.endpoint));
    WordsAreBigEndian(CommandCode(h.command), 0, 0);
    WordsAreBigEndian(h.seqnum, 0, 0);
    WordsAreBigEndian(h.devid, 0, 0);
    WordsAreBigEndian(PipeCode(h.direction), 0, 0);
    WordsAreBigEndian(h.endpoint, 0, 0);
    hide ToBe32, BigEndian;
  }

  lemma SubmitLayout(s: Submit)
    requires EncodeSubmit(s).Ok?
    ensures var b := EncodeSubmit(s).value;
            && |b| == 48 + |s.transferBuffer| && b[..20] == HeaderBytes(s.header)
            && BigEndian(b[20..24]) == s.transferFlags && BigEndian(b[24..28]) == s.transferBufferLength
            && BigEndian(b[28..32]) == s.startFrame && BigEndian(b[32..36]) == s.numberOfPackets
            && BigEndian(b[36..40]) == s.interval
            && b[40..48] == s.setup && b[48..] == s.transferBuffer
  {
    var b := EncodeSubmit(s).value;
    var words := Words(s.transferFlags, s.transferBufferLength, s.startFrame, s.numberOfPackets, s.interval);
    Join(HeaderBytes(s.header), words, s.setup, s.transferBuffer);
    WordsRead(s.transferFlags, s.transferBufferLength, s.startFrame, s.numberOfPackets, s.interval);
    ReadWords(b);
    BigEndianOf4(b[20..24]);
    BigEndianOf4(b[24..28]);
    BigEndianOf4(b[28..32]);
    BigEndianOf4(b[32..36]);
    BigEndianOf4(b[36..40]);
    hide BigEndian, FromBe32, Words, HeaderBytes;
  }

  lemma SubmitReplyLayout(r: SubmitReply)
    requires EncodeSubmitReply(r).Ok?
    ensures var b := EncodeSubmitReply(r).value;
            && |b| == 48 + |r.transferBuffer| && b[..20] == HeaderBytes(r.header)
            && BigEndian(b[20..24]) == (if r.status < 0 then r.status + 0x1_0000_0000 else r.status)
            && BigEndian(b[24..28]) == r.actualLength && BigEndian(b[28..32]) == r.startFrame
            && BigEndian(b[32..36]) == r.numberOfPackets && BigEndian(b[36..40]) == r.errorCount
            && b[40..48] == [0, 0, 0, 0, 0, 0, 0, 0] && b[48..] == r.transferBuffer
  {
    var b := EncodeSubmitReply(r).value;
    assert b[..20] == HeaderBytes(r.header) && b[40..48] == [0, 0, 0, 0, 0, 0, 0, 0] && b[48..] == r.transferBuffer;
    SubmitReplyRoundTrip(r);
    hide EncodeSubmitReply, BigEndian, FromBe32, HeaderBytes, HeaderOf;
    BigEndianOf4(b[20..24]);
    BigEndianOf4(b[24..28]);
    BigEndianOf4(b[28..32]);
    BigEndianOf4(b[32..36]);
    BigEndianOf4(b[36..40]);
  }

  lemma UnlinkLayout(u: Unlink, r: UnlinkReply)
    ensures var b := EncodeUnlink(u);
            && b[..20] == HeaderBytes(u.header) && BigEndian(b[20..24]) == u.unlinkSeqnum
            && forall i :: 24 <= i < 48 ==> b[i] == 0
    ensures var b := EncodeUnlinkReply(r);
            && b[..20] == HeaderBytes(r.header)
            && BigEndian(b[20..24]) == (if r.status < 0 then r.status + 0x1_0000_0000 else r.status)
            && forall i :: 24 <= i < 48 ==> b[i] == 0
  {
    WordsAreBigEndian(u.unlinkSeqnum, 0, r.status);
    hide ToBe32, ToBeI32, BigEndian, HeaderBytes;
    assert EncodeUnlink(u)[20..24] == ToBe32(u.unlinkSeqnum);
    assert EncodeUnlinkReply(r)[20..24] == ToBeI32(r.status);
  }

  // ---- USB

  lemma SetupLayout(t: ControlTransfer)
    ensures var b := EncodeTransfer(t);
            && b[0] == t.setup.requestType && b[1] == t.setup.request
            && LittleEndian(b[2..4]) == t.setup.value && LittleEndian(b[4..6]) == t.setup.index
            && LittleEndian(b[6..8]) == t.setup.length && b[8..] == t.data
  {
    ShortsAreLittleEndian(t.setup.value);
    ShortsAreLittleEndian(t.setup.index);
    ShortsAreLittleEndian(t.setup.length);
    hide ToLe16, LittleEndian;
    var b := EncodeTransfer(t);
    assert b[2..4] == ToLe16(t.setup.value);
    assert b[4..6] == ToLe16(t.setup.index);
    assert b[6..8] == ToLe16(t.setup.length);
  }

  lemma DeviceLayout(d: DeviceDescriptor, count: u8)
    ensures var b := DeviceBytes(d, count);
            && b[..2] == [18, 1] && LittleEndian(b[2..4]) == d.usbVersion
            && b[4..8] == [d.deviceClass, d.deviceSubClass, d.deviceProtocol, d.maxPacketSize0]
            && LittleEndian(b[8..10]) == d.vendorId && LittleEndian(b[10..12]) == d.productId
            && LittleEndian(b[12..14]) == d.deviceVersion
            && b[14..] == [d.manufacturerIndex, d.productIndex, d.serialNumberIndex, count]
  {
    ShortsAreLittleEndian(d.usbVersion);
    ShortsAreLittleEndian(d.vendorId);
    ShortsAreLittleEndian(d.productId);
    ShortsAreLittleEndian(d.deviceVersion);
    hide ToLe16, LittleEndian;
    var b := DeviceBytes(d, count);
    assert b[2..4] == ToLe16(d.usbVersion);
    assert b[8..10] == ToLe16(d.vendorId);
    assert b[10..12] == ToLe16(d.productId);
    assert b[12..14] == ToLe16(d.deviceVersion);
  }

  // A configuration descriptor announces the length of all that follows it in one read.
  lemma ConfigurationLayout(c: Configuration)
    requires ConfigurationEncodable(c)
    ensures var b := ConfigurationBytes(c);
            && b[..2] == [9, 2] && LittleEndian(b[2..4]) == |b|
            && b[4..9] == [|c.interfaces|, c.descriptor.configurationValue, c.descriptor.configurationIndex,
                           c.descriptor.attributes, c.descriptor.maxPower]
            && b[9..] == Concat(c.extras) + Concat(InterfaceParts(c.interfaces))
  {
    var b := ConfigurationBytes(c);
    ShortsAreLittleEndian(|b|);
    hide ToLe16, LittleEndian, Concat, InterfaceParts;
    assert b[2..4] == ToLe16(|b|);
  }

  lemma InterfaceLayout(d: InterfaceDescriptor, endpoints: u8, e: EndpointDescriptor)
    ensures InterfaceHeader(d, endpoints)
         == [9, 4, d.interfaceNumber, d.alternateSetting, endpoints,
             d.interfaceClass, d.interfaceSubClass, d.interfaceProtocol, d.interfaceIndex]
    ensures var b := EndpointBytes(e);
            && b[..4] == [7, 5, e.address, e.attributes] && LittleEndian(b[4..6]) == e.maxPacketSize
            && b[6] == e.interval
  {
    ShortsAreLittleEndian(e.maxPacketSize);
    hide ToLe16, LittleEndian;
    assert EndpointBytes(e)[4..6] == ToLe16(e.maxPacketSize);
  }

  // Number of configurations and of side-cars, and each side-car: where it belongs, and its length.
  lemma SetLayout(ds: DescriptorSet, s: Sidecar)
    requires SetEncodable(ds) && SidecarEncodable(s)
    ensures var b := SetBytes(ds);
            && b[..5] == ['W' as u8, 'D' as u8, 'E' as u8, 'S' as u8, 1] && b[5] == |ds.configurations|
            && LittleEndian(b[6..8]) == |SidecarsFrom(0, ds.configurations)|
    ensures var b := SidecarBytes(s);
            && b[..6] == [s.config, s.number, s.alternate, 0x22, 0, 0]
            && LittleEndian(b[6..8]) == |s.data| && b[8..] == s.data
  {
    var n := |SidecarsFrom(0, ds.configurations)|;
    ShortsAreLittleEndian(n);
    ShortsAreLittleEndian(|s.data|);
    hide ToLe16, LittleEndian, SidecarsFrom, Concat;
    assert SetBytes(ds)[6..8] == ToLe16(n);
    assert SidecarBytes(s)[6..8] == ToLe16(|s.data|);
  }
}

// protocol/src/lib.rs: the USB/IP packets a session exchanges, and their wire format.

module UsbIpCodec {
  import opened Bytes
  import opened Wrappers

  const USBIP_BASIC_LEN := 20
  const USBIP_HEADER_LEN := 48
  const NO_ISO_PACKETS: u32 := 0xffff_ffff

  datatype Command = CmdSubmit | CmdUnlink | RetSubmit | RetUnlink

  datatype PipeDirection = Out | In

  datatype BasicHeader = BasicHeader(command: Command, seqnum: u32, devid: u32, direction: PipeDirection, endpoint: u32)

  type SetupBytes = s: seq<u8> | |s| == 8 witness [0, 0, 0, 0, 0, 0, 0, 0]

  datatype Submit = Submit(
    header: BasicHeader,
    transferFlags: u32,
    transferBufferLength: u32,
    startFrame: u32,
    numberOfPackets: u32,
    interval: u32,
    setup: SetupBytes,
    transferBuffer: seq<u8>)

  datatype SubmitReply = SubmitReply(
    header: BasicHeader,
    status: i32,
    actualLength: u32,
    startFrame: u32,
    numberOfPackets: u32,
    errorCount: u32,
    transferBuffer: seq<u8>)

  datatype Unlink = Unlink(header: BasicHeader, unlinkSeqnum: u32)

  datatype UnlinkReply = UnlinkReply(header: BasicHeader, status: i32)

  // ---- the basic header

  function CommandCode(c: Command): u32 {
    match c
    case CmdSubmit => 1
    case CmdUnlink => 2
    case RetSubmit => 3
    case RetUnlink => 4
  }

  function CommandOf(code: u32): ProtocolResult<Command> {
    if code == 1 then Ok(CmdSubmit)
    else if code == 2 then Ok(CmdUnlink)
    else if code == 3 then Ok(RetSubmit)
    else if code == 4 then Ok(RetUnlink)
    else Err(InvalidUsbIpPacket)
  }

  function PipeCode(d: PipeDirection): u32 {
    match d
    case Out => 0
    case In => 1
  }

  function PipeOf(code: u32): ProtocolResult<PipeDirection> {
    if code == 0 then Ok(Out) else if code == 1 then Ok(In) else Err(InvalidUsbIpPacket)
  }

  lemma FiveParts(a: seq<u8>, b: seq<u8>, c: seq<u8>, d: seq<u8>, e: seq<u8>)
    requires |a| == |b| == |c| == |d| == |e| == 4
    ensures var w := a + b + c + d + e;
            w[0..4] == a && w[4..8] == b && w[8..12] == c && w[12..16] == d && w[16..20] == e
  {
  }

  function HeaderBytes(h: BasicHeader): (b: seq<u8>)
    ensures |b| == USBIP_BASIC_LEN
  {
    ToBe32(CommandCode(h.command)) + ToBe32(h.seqnum) + ToBe32(h.devid) + ToBe32(PipeCode(h.direction))
    + ToBe32(h.endpoint)
  }

  function HeaderOf(b: seq<u8>): ProtocolResult<BasicHeader> {
    if |b| < USBIP_BASIC_LEN then Err(InvalidUsbIpPacket)
    else
      var command :- CommandOf(ReadBe32(b, 0));
      var direction :- PipeOf(ReadBe32(b, 12));
      Ok(BasicHeader(command, ReadBe32(b, 4), ReadBe32(b, 8), direction, ReadBe32(b, 16)))
  }

  lemma HeaderRoundTrip(h: BasicHeader)
    ensures HeaderOf(HeaderBytes(h)) == Ok(h)
  {
    FiveParts(ToBe32(CommandCode(h.command)), ToBe32(h.seqnum), ToBe32(h.devid), ToBe32(PipeCode(h.direction)),
              ToBe32(h.endpoint));
  }

  lemma DecodedHeaderReencodes(b: seq<u8>)
    requires |b| == USBIP_BASIC_LEN && HeaderOf(b).Ok?
    ensures HeaderBytes(HeaderOf(b).value) == b
  {
    Be32Inverse(b[0..4]);
    Be32Inverse(b[4..8]);
    Be32Inverse(b[8..12]);
    Be32Inverse(b[12..16]);
    Be32Inverse(b[16..20]);
    assert b == b[0..4] + b[4..8] + b[8..12] + b[12..16] + b[16..20];
  }

  // ---- five words after a basic header, as every packet has room for

  function Words(a: u32, b: u32, c: u32, d: u32, e: u32): (w: seq<u8>)
    ensures |w| == 20
  {
    ToBe32(a) + ToBe32(b) + ToBe32(c) + ToBe32(d) + ToBe32(e)
  }

  lemma WordsRead(a: u32, b: u32, c: u32, d: u32, e: u32)
    ensures var w := Words(a, b, c, d, e);
            && ReadBe32(w, 0) == a && ReadBe32(w, 4) == b && ReadBe32(w, 8) == c
            && ReadBe32(w, 12) == d && ReadBe32(w, 16) == e
  {
    FiveParts(ToBe32(a), ToBe32(b), ToBe32(c), ToBe32(d), ToBe32(e));
  }

  lemma WordsWritten(w: seq<u8>)
    requires |w| == 20
    ensures Words(ReadBe32(w, 0), ReadBe32(w, 4), ReadBe32(w, 8), ReadBe32(w, 12), ReadBe32(w, 16)) == w
  {
    Be32Inverse(w[0..4]);
    Be32Inverse(w[4..8]);
    Be32Inverse(w[8..12]);
    Be32Inverse(w[12..16]);
    Be32Inverse(w[16..20]);
    assert w == w[0..4] + w[4..8] + w[8..12] + w[12..16] + w[16..20];
  }

  lemma SliceOfSlice(p: seq<u8>, from: nat, to: nat, i: nat, j: nat)
    requires i <= j && from + j <= to <= |p|
    ensures p[from..to][i..j] == p[from + i..from + j]
  {
    var inner, outer := p[from..to][i..j], p[from + i..from + j];
    assert forall k :: 0 <= k < |inner| ==> inner[k] == outer[k];
  }

  // A word of a packet, read from the five after its basic header.
  lemma WordAt(p: seq<u8>, offset: nat)
    requires |p| >= 40 && 20 <= offset <= 36
    ensures ReadBe32(p, offset) == ReadBe32(p[20..40], offset - 20)
  {
    SliceOfSlice(p, 20, 40, offset - 20, offset - 16);
  }

  lemma Join(header: seq<u8>, words: seq<u8>, eight: seq<u8>, payload: seq<u8>)
    requires |header| == 20 && |words| == 20 && |eight| == 8
    ensures var p := header + words + eight + payload;
            p[..20] == header && p[20..40] == words && p[40..48] == eight && p[48..] == payload
  {
  }

  lemma Split(p: seq<u8>)
    requires |p| >= USBIP_HEADER_LEN
    ensures p[..20] + p[20..40] + p[40..48] + p[48..] == p
  {
  }

  // ---- CMD_SUBMIT

  predicate SubmitEncodable(s: Submit) {
    && s.header.command == CmdSubmit
    && (s.header.direction == Out ==> |s.transferBuffer| == s.transferBufferLength)
    && (s.header.direction == In ==> s.transferBuffer == [])
  }

  function EncodeSubmit(s: Submit): ProtocolResult<seq<u8>> {
    if !SubmitEncodable(s) then Err(InvalidUsbIpPacket)
    else Ok(HeaderBytes(s.header)
            + Words(s.transferFlags, s.transferBufferLength, s.startFrame, s.numberOfPackets, s.interval)
            + s.setup + s.transferBuffer)
  }

  function DecodeSubmit(b: seq<u8>): ProtocolResult<Submit> {
    if |b| < USBIP_HEADER_LEN then Err(InvalidUsbIpPacket)
    else
      var header :- HeaderOf(b[..USBIP_BASIC_LEN]);
      if header.command != CmdSubmit then Err(InvalidUsbIpPacket)
      else
        var len := ReadBe32(b, 24);
        if |b| != USBIP_HEADER_LEN + (if header.direction == Out then len else 0) then Err(InvalidUsbIpPacket)
        else Ok(Submit(header, ReadBe32(b, 20), len, ReadBe32(b, 28), ReadBe32(b, 32), ReadBe32(b, 36),
                       b[40..48], b[USBIP_HEADER_LEN..]))
  }

  lemma SubmitRoundTrip(s: Submit)
    requires EncodeSubmit(s).Ok?
    ensures DecodeSubmit(EncodeSubmit(s).value) == Ok(s)
  {
    var b := EncodeSubmit(s).value;
    var words := Words(s.transferFlags, s.transferBufferLength, s.startFrame, s.numberOfPackets, s.interval);
    Join(HeaderBytes(s.header), words, s.setup, s.transferBuffer);
    HeaderRoundTrip(s.header);
    WordsRead(s.transferFlags, s.transferBufferLength, s.startFrame, s.numberOfPackets, s.interval);
    ReadWords(b);
  }

  lemma ReadWords(p: seq<u8>)
    requires |p| >= 40
    ensures var w := p[20..40];
            && ReadBe32(p, 20) == ReadBe32(w, 0) && ReadBe32(p, 24) == ReadBe32(w, 4)
            && ReadBe32(p, 28) == ReadBe32(w, 8)
            && ReadBe32(p, 32) == ReadBe32(w, 12) && ReadBe32(p, 36) == ReadBe32(w, 16)
  {
    WordAt(p, 20);
    WordAt(p, 24);
    WordAt(p, 28);
    WordAt(p, 32);
    WordAt(p, 36);
  }

  // Every accepted submit is the encoding of what decode returns, to the byte.
  lemma DecodedSubmitReencodes(b: seq<u8>)
    requires DecodeSubmit(b).Ok?
    ensures EncodeSubmit(DecodeSubmit(b).value) == Ok(b)
  {
    DecodedHeaderReencodes(b[..20]);
    ReadWords(b);
    WordsWritten(b[20..40]);
    Split(b);
  }

  // ---- RET_SUBMIT

  predicate SubmitReplyEncodable(r: SubmitReply) {
    r.header.command == RetSubmit && |r.transferBuffer| == r.actualLength
  }

  function EncodeSubmitReply(r: SubmitReply): ProtocolResult<seq<u8>> {
    if !SubmitReplyEncodable(r) then Err(InvalidUsbIpPacket)
    else Ok(HeaderBytes(r.header)
            + (ToBeI32(r.status) + ToBe32(r.actualLength) + ToBe32(r.startFrame) + ToBe32(r.numberOfPackets)
               + ToBe32(r.errorCount))
            + [0, 0, 0, 0, 0, 0, 0, 0] + r.transferBuffer)
  }

  function DecodeSubmitReply(b: seq<u8>): ProtocolResult<SubmitReply> {
    if |b| < USBIP_HEADER_LEN then Err(InvalidUsbIpPacket)
    else
      var header :- HeaderOf(b[..USBIP_BASIC_LEN]);
      if header.command != RetSubmit || |b| != USBIP_HEADER_LEN + ReadBe32(b, 24) then Err(InvalidUsbIpPacket)
      else Ok(SubmitReply(header, FromBeI32(b[20..24]), ReadBe32(b, 24), ReadBe32(b, 28), ReadBe32(b, 32),
                          ReadBe32(b, 36), b[USBIP_HEADER_LEN..]))
  }

  lemma SubmitReplyRoundTrip(r: SubmitReply)
    requires EncodeSubmitReply(r).Ok?
    ensures DecodeSubmitReply(EncodeSubmitReply(r).value) == Ok(r)
  {
    var b := EncodeSubmitReply(r).value;
    var first := FromBe32(ToBeI32(r.status));
    Be32Inverse(ToBeI32(r.status));
    var words := Words(first, r.actualLength, r.startFrame, r.numberOfPackets, r.errorCount);
    Join(HeaderBytes(r.header), words, [0, 0, 0, 0, 0, 0, 0, 0], r.transferBuffer);
    HeaderRoundTrip(r.header);
    WordsRead(first, r.actualLength, r.startFrame, r.numberOfPackets, r.errorCount);
    ReadWords(b);
    assert b[20..24] == b[20..40][0..4] == ToBeI32(r.status);
  }

  // ---- CMD_UNLINK and RET_UNLINK: their encoders check nothing, their decoders do

  function Padding(): (z: seq<u8>)
    ensures |z| == 24
  {
    seq(24, _ => 0)
  }

  function EncodeUnlink(u: Unlink): (b: seq<u8>)
    ensures |b| == USBIP_HEADER_LEN
  {
    HeaderBytes(u.header) + ToBe32(u.unlinkSeqnum) + Padding()
  }

  function DecodeUnlink(b: seq<u8>): ProtocolResult<Unlink> {
    if |b| != USBIP_HEADER_LEN then Err(InvalidUsbIpPacket)
    else
      var header :- HeaderOf(b[..USBIP_BASIC_LEN]);
      if header.command != CmdUnlink then Err(InvalidUsbIpPacket)
      else Ok(Unlink(header, ReadBe32(b, 20)))
  }

  lemma UnlinkRoundTrip(u: Unlink)
    ensures DecodeUnlink(EncodeUnlink(u)) == Ok(u) <==> u.header.command == CmdUnlink
  {
    var b := EncodeUnlink(u);
    assert b[..20] == HeaderBytes(u.header) && b[20..24] == ToBe32(u.unlinkSeqnum);
    HeaderRoundTrip(u.header);
  }

  function EncodeUnlinkReply(r: UnlinkReply): (b: seq<u8>)
    ensures |b| == USBIP_HEADER_LEN
  {
    HeaderBytes(r.header) + ToBeI32(r.status) + Padding()
  }

  function DecodeUnlinkReply(b: seq<u8>): ProtocolResult<UnlinkReply> {
    if |b| != USBIP_HEADER_LEN then Err(InvalidUsbIpPacket)
    else
      var header :- HeaderOf(b[..USBIP_BASIC_LEN]);
      if header.command != RetUnlink then Err(InvalidUsbIpPacket)
      else Ok(UnlinkReply(header, FromBeI32(b[20..24])))
  }

  lemma UnlinkReplyRoundTrip(r: UnlinkReply)
    ensures DecodeUnlinkReply(EncodeUnlinkReply(r)) == Ok(r) <==> r.header.command == RetUnlink
  {
    var b := EncodeUnlinkReply(r);
    assert b[..20] == HeaderBytes(r.header) && b[20..24] == ToBeI32(r.status);
    HeaderRoundTrip(r.header);
  }
}

// daemon/src/usbip_session.rs: cutting packets off the command stream.

module UsbIpStream {
  import opened Bytes
  import opened UsbIpCodec
  import opened Wrappers

  datatype ReadOutcome = Packet(bytes: seq<u8>) | Disconnected | ReadFailed

  predicate SubmitIsOut(header: seq<u8>)
    requires |header| == USBIP_HEADER_LEN
  {
    ReadBe32(header, 12) == 0
  }

  function SubmitTransferBufferLen(header: seq<u8>): nat
    requires |header| == USBIP_HEADER_LEN
  {
    ReadBe32(header, 24)
  }

  function PayloadLen(header: seq<u8>): nat
    requires |header| == USBIP_HEADER_LEN && HeaderOf(header[..USBIP_BASIC_LEN]).Ok?
  {
    if HeaderOf(header[..USBIP_BASIC_LEN]).value.command == CmdSubmit && SubmitIsOut(header)
    then SubmitTransferBufferLen(header) else 0
  }

  // The bytes the peer will still send before closing, and what reading one packet makes of them.
  function ReadPacket(stream: seq<u8>): (r: (ReadOutcome, seq<u8>))
    ensures r.0.Packet? ==>
              var p := r.0.bytes;
              && |p| >= USBIP_HEADER_LEN && p + r.1 == stream
              && HeaderOf(p[..USBIP_HEADER_LEN][..USBIP_BASIC_LEN]).Ok?
              && |p| == USBIP_HEADER_LEN + PayloadLen(p[..USBIP_HEADER_LEN])
  {
    if |stream| < USBIP_HEADER_LEN then (Disconnected, [])
    else
      var header, rest := stream[..USBIP_HEADER_LEN], stream[USBIP_HEADER_LEN..];
      if HeaderOf(header[..USBIP_BASIC_LEN]).Err? then (ReadFailed, rest)
      else
        var n := PayloadLen(header);
        if n > |rest| then (ReadFailed, [])
        else
          assert (header + rest[..n])[..USBIP_HEADER_LEN] == header;
          (Packet(header + rest[..n]), rest[n..])
  }

  class TcpStream {
    var pending: seq<u8>

    constructor (bytes: seq<u8>)
      ensures pending == bytes
    {
      pending := bytes;
    }

    method ReadExact(n: nat) returns (r: Option<seq<u8>>)
      modifies this
      ensures r == if n <= |old(pending)| then Some(old(pending)[..n]) else None
      ensures pending == if n <= |old(pending)| then old(pending)[n..] else []
    {
      if n > |pending| {
        pending := [];
        return None;
      }
      r := Some(pending[..n]);
      pending := pending[n..];
    }

    method ReadUsbIpPacket() returns (r: ReadOutcome)
      modifies this
      ensures (r, pending) == ReadPacket(old(pending))
    {
      var header := ReadExact(USBIP_HEADER_LEN);
      if header.None? {
        return Disconnected;
      }
      var basic := HeaderOf(header.value[..USBIP_BASIC_LEN]);
      if basic.Err? {
        return ReadFailed;
      }
      var payloadLen := if basic.value.command == CmdSubmit && SubmitIsOut(header.value)
      then SubmitTransferBufferLen(header.value) else 0;
      var packet := header.value;
      if payloadLen > 0 {
        var payload := ReadExact(payloadLen);
        if payload.None? {
          return ReadFailed;
        }
        packet := packet + payload.value;
      } else {
        assert packet + pending[..0] == packet && pending[0..] == pending;
      }
      return Packet(packet);
    }
  }

  // A packet the reader returns never fails to decode as the command its header names.
  lemma ReadPacketsDecode(stream: seq<u8>)
    requires ReadPacket(stream).0.Packet?
    ensures var p := ReadPacket(stream).0.bytes;
            && HeaderOf(p[..USBIP_BASIC_LEN]).Ok?
            && (HeaderOf(p[..USBIP_BASIC_LEN]).value.command == CmdSubmit ==> DecodeSubmit(p).Ok?)
            && (HeaderOf(p[..USBIP_BASIC_LEN]).value.command == CmdUnlink ==> DecodeUnlink(p).Ok?)
  {
    var p := ReadPacket(stream).0.bytes;
    var header := stream[..USBIP_HEADER_LEN];
    assert p[..USBIP_BASIC_LEN] == header[..USBIP_BASIC_LEN];
    assert p[24..28] == header[24..28];
    assert header[..USBIP_BASIC_LEN][12..16] == header[12..16];
  }

  // ---- the stream as a list of packets

  function ReadAll(stream: seq<u8>): (seq<seq<u8>>, ReadOutcome)
    decreases |stream|
  {
    var (r, rest) := ReadPacket(stream);
    if !r.Packet? then ([], r)
    else
      var (packets, end) := ReadAll(rest);
      ([r.bytes] + packets, end)
  }

  datatype ClientCommand = SubmitCommand(submit: Submit) | UnlinkCommand(unlink: Unlink)

  predicate CommandEncodable(c: ClientCommand) {
    match c
    case SubmitCommand(s) => SubmitEncodable(s)
    case UnlinkCommand(u) => u.header.command == CmdUnlink
  }

  function CommandBytes(c: ClientCommand): seq<u8>
    requires CommandEncodable(c)
  {
    match c
    case SubmitCommand(s) => EncodeSubmit(s).value
    case UnlinkCommand(u) => EncodeUnlink(u)
  }

  function CommandOfPacket(p: seq<u8>): ProtocolResult<ClientCommand> {
    var header :- HeaderOf(p);
    match header.command
    case CmdSubmit =>
      var s :- DecodeSubmit(p);
      Ok(SubmitCommand(s))
    case CmdUnlink =>
      var u :- DecodeUnlink(p);
      Ok(UnlinkCommand(u))
    case RetSubmit => Err(InvalidUsbIpPacket)
    case RetUnlink => Err(InvalidUsbIpPacket)
  }

  predicate AllEncodable(cs: seq<ClientCommand>) {
    forall i :: 0 <= i < |cs| ==> CommandEncodable(cs[i])
  }

  function Stream(cs: seq<ClientCommand>): seq<u8>
    requires AllEncodable(cs)
  {
    if cs == [] then [] else CommandBytes(cs[0]) + Stream(cs[1..])
  }

  function Packets(cs: seq<ClientCommand>): (ps: seq<seq<u8>>)
    requires AllEncodable(cs)
    ensures |ps| == |cs|
  {
    if cs == [] then [] else [CommandBytes(cs[0])] + Packets(cs[1..])
  }

  lemma HeaderFromPrefix(p: seq<u8>)
    requires |p| >= USBIP_BASIC_LEN
    ensures HeaderOf(p) == HeaderOf(p[..USBIP_BASIC_LEN])
  {
    var h := p[..USBIP_BASIC_LEN];
    assert h[0..4] == p[0..4] && h[4..8] == p[4..8] && h[8..12] == p[8..12] && h[12..16] == p[12..16];
    assert h[16..20] == p[16..20];
  }

  lemma CommandRoundTrip(c: ClientCommand)
    requires CommandEncodable(c)
    ensures CommandOfPacket(CommandBytes(c)) == Ok(c)
  {
    var p := CommandBytes(c);
    match c {
      case SubmitCommand(s) => SubmitRoundTrip(s);
      case UnlinkCommand(u) => UnlinkRoundTrip(u);
    }
    HeaderFromPrefix(p);
  }

  lemma CommandLength(c: ClientCommand)
    requires CommandEncodable(c)
    ensures var p := CommandBytes(c);
            && |p| >= USBIP_HEADER_LEN && HeaderOf(p[..USBIP_HEADER_LEN][..USBIP_BASIC_LEN]).Ok?
            && PayloadLen(p[..USBIP_HEADER_LEN]) == |p| - USBIP_HEADER_LEN
  {
    var p := CommandBytes(c);
    CommandRoundTrip(c);
    HeaderFromPrefix(p);
    assert p[..USBIP_HEADER_LEN][..USBIP_BASIC_LEN] == p[..USBIP_BASIC_LEN];
    SliceOfSlice(p, 0, USBIP_HEADER_LEN, 24, 28);
    SliceOfSlice(p, 0, USBIP_HEADER_LEN, 12, 16);
  }

  lemma HeaderNumbers(stream: seq<u8>)
    requires |stream| >= 48
    ensures var header := stream[..48];
            var command, direction := ReadBe32(stream, 0), ReadBe32(stream, 12);
            && (HeaderOf(header[..20]).Ok? <==> 1 <= command <= 4 && direction <= 1)
            && (HeaderOf(header[..20]).Ok? ==>
                  PayloadLen(header) == if command == 1 && direction == 0 then ReadBe32(stream, 24) else 0)
  {
    var header := stream[..48];
    SliceOfSlice(stream, 0, 48, 12, 16);
    SliceOfSlice(stream, 0, 48, 24, 28);
    SliceOfSlice(stream, 0, 48, 0, 4);
    SliceOfSlice(header, 0, 20, 0, 4);
    SliceOfSlice(header, 0, 20, 12, 16);
    hide FromBe32;
  }

  lemma CutAt(stream: seq<u8>, n: nat)
    requires 48 + n <= |stream|
    ensures stream[..48] + stream[48..][..n] == stream[..48 + n] && stream[48..][n..] == stream[48 + n..]
  {
  }

  // In numbers: fewer than 48 bytes are the end of the stream; an unknown command or direction, or an
  // OUT submit with less data than it announces, is a failure; all else is a packet.
  lemma ReadsExactly(stream: seq<u8>)
    ensures var (r, rest) := ReadPacket(stream);
            if |stream| < 48 then r == Disconnected
            else
              var command, direction, len := ReadBe32(stream, 0), ReadBe32(stream, 12), ReadBe32(stream, 24);
              var n := if command == 1 && direction == 0 then len else 0;
              if !(1 <= command <= 4) || direction > 1 || |stream| < 48 + n then r == ReadFailed
              else r == Packet(stream[..48 + n]) && rest == stream[48 + n..]
  {
    hide HeaderOf, PayloadLen, ReadBe32;
    if |stream| >= 48 {
      HeaderNumbers(stream);
      var n := if ReadBe32(stream, 0) == 1 && ReadBe32(stream, 12) == 0 then ReadBe32(stream, 24) else 0;
      if 48 + n <= |stream| {
        CutAt(stream, n);
      }
    }
  }

  // An encoded command announces its own length: the reader stops exactly at its end.
  lemma ReadsOneCommand(c: ClientCommand, rest: seq<u8>)
    requires CommandEncodable(c)
    ensures ReadPacket(CommandBytes(c) + rest) == (Packet(CommandBytes(c)), rest)
  {
    hide CommandBytes, HeaderOf, PayloadLen;
    var p := CommandBytes(c);
    CommandLength(c);
    var stream := p + rest;
    assert stream[..USBIP_HEADER_LEN] == p[..USBIP_HEADER_LEN];
    var after := stream[USBIP_HEADER_LEN..];
    var n := |p| - USBIP_HEADER_LEN;
    assert after == p[USBIP_HEADER_LEN..] + rest;
    assert after[..n] == p[USBIP_HEADER_LEN..] && after[n..] == rest;
    assert p[..USBIP_HEADER_LEN] + p[USBIP_HEADER_LEN..] == p;
  }

  // The stream is self-delimiting: reading it back gives exactly what was written, in order,
  // then the end of the stream; and each packet decodes to its command.
  lemma {:induction false} StreamIsSelfDelimiting(cs: seq<ClientCommand>)
    requires AllEncodable(cs)
    ensures ReadAll(Stream(cs)) == (Packets(cs), Disconnected)
    ensures forall i :: 0 <= i < |cs| ==> CommandOfPacket(Packets(cs)[i]) == Ok(cs[i])
    decreases |cs|
  {
    hide CommandBytes, CommandOfPacket, CommandEncodable;
    if cs != [] {
      ReadsOneCommand(cs[0], Stream(cs[1..]));
      StreamIsSelfDelimiting(cs[1..]);
      CommandRoundTrip(cs[0]);
      assert forall i :: 0 < i < |cs| ==> Packets(cs)[i] == Packets(cs[1..])[i - 1] && cs[i] == cs[1..][i - 1];
    }
  }

  // Hence two different command lists never give the same stream.
  lemma StreamInjective(a: seq<ClientCommand>, b: seq<ClientCommand>)
    requires AllEncodable(a) && AllEncodable(b) && Stream(a) == Stream(b)
    ensures a == b
  {
    StreamIsSelfDelimiting(a);
    StreamIsSelfDelimiting(b);
    assert |a| == |Packets(a)| == |b|;
    forall i | 0 <= i < |a|
      ensures a[i] == b[i]
    {
      assert Ok(a[i]) == CommandOfPacket(Packets(a)[i]) == CommandOfPacket(Packets(b)[i]);
    }
  }
}

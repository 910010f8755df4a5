// daemon/src/usbip_session.rs: the USB/IP front end of the mock device.

module UsbIpSession {
  import opened Bytes
  import opened ControlEndpoint
  import opened ControlTransfers
  import opened Descriptors
  import opened FrameCodec
  import opened UsbIpCodec
  import opened UsbIpStream
  import opened Wrappers

  datatype SessionState = SessionState(device: DeviceState, pending: seq<seq<u8>>)

  // ---- replies

  function OkFor(s: Submit, buffer: seq<u8>): SubmitReply {
    var header := BasicHeader(RetSubmit, s.header.seqnum, 0, Out, 0);
    SubmitReply(header, 0, |buffer| % TWO_TO_32, 0, NO_ISO_PACKETS, 0, buffer)
  }

  function FailedReply(s: Submit, status: TransferStatus): SubmitReply {
    OkFor(s, []).(status := StatusCode(status))
  }

  // ---- one submit

  function SetupIn(s: Submit): Setup {
    DecodeSetup(s.setup).value
  }

  function FrameFor(s: Submit): Frame {
    Frame(s.header.seqnum, Request, DirectionOfSetup(SetupIn(s)), Control, 0, 0,
          EncodeTransfer(ControlTransfer(SetupIn(s), s.transferBuffer)))
  }

  predicate IsReport(event: Frame) {
    event.transferType.Interrupt? && event.endpoint == 0x81
  }

  function Reports(events: seq<Frame>): seq<seq<u8>> {
    if events == [] then []
    else (if IsReport(events[0]) then [events[0].payload] else []) + Reports(events[1..])
  }

  function TransferData(payload: seq<u8>): seq<u8> {
    match DecodeTransfer(payload)
    case Ok(transfer) => transfer.data
    case Err(_) => []
  }

  function ReplyTo(s: Submit, response: Frame): SubmitReply {
    if response.status != 0 then OkFor(s, []).(status := response.status)
    else OkFor(s, TransferData(response.payload))
  }

  function HandleSubmit(s: Submit, ds: DescriptorSet, st: SessionState, keycodes: seq<u8>)
    : (SubmitReply, SessionState)
  {
    if s.header.endpoint == 0 then
      var o := HandleControl(FrameFor(s), Some(ds), st.device, keycodes);
      (ReplyTo(s, o.response), SessionState(o.device, st.pending + Reports(o.events)))
    else if s.header.endpoint == 0x81 then
      if st.pending == [] then (OkFor(s, []), st)
      else (OkFor(s, st.pending[0]), st.(pending := st.pending[1..]))
    else (FailedReply(s, Stall), st)
  }

  function HandleUnlink(u: Unlink): UnlinkReply {
    UnlinkReply(BasicHeader(RetUnlink, u.header.seqnum, 0, Out, 0), 0)
  }

  // ---- the session: packets in, what is written out

  function HandlePacket(p: seq<u8>, ds: DescriptorSet, st: SessionState, keycodes: seq<u8>)
    : (seq<seq<u8>>, SessionState)
    requires |p| >= USBIP_HEADER_LEN && HeaderOf(p[..USBIP_BASIC_LEN]).Ok?
  {
    match HeaderOf(p[..USBIP_BASIC_LEN]).value.command
    case CmdSubmit =>
      (match DecodeSubmit(p)
       case Ok(s) =>
         var (reply, st') := HandleSubmit(s, ds, st, keycodes);
         ReplySizes(s, ds, st, keycodes);
         (if EncodeSubmitReply(reply).Ok? then [EncodeSubmitReply(reply).value] else [], st')
       case Err(_) => ([], st))
    case CmdUnlink =>
      (match DecodeUnlink(p)
       case Ok(u) => ([EncodeUnlinkReply(HandleUnlink(u))], st)
       case Err(_) => ([], st))
    case _ => ([], st)
  }

  function Serve(stream: seq<u8>, ds: DescriptorSet, st: SessionState, keycodes: seq<u8>): (seq<seq<u8>>, SessionState)
    decreases |stream|
  {
    var (r, rest) := ReadPacket(stream);
    if !r.Packet? then ([], st)
    else
      ReadPacketsDecode(stream);
      var (out, st') := HandlePacket(r.bytes, ds, st, keycodes);
      var (later, last) := Serve(rest, ds, st', keycodes);
      (out + later, last)
  }

  // ---- every submit's reply encodes

  lemma SetupDecodes(s: Submit)
    ensures DecodeSetup(s.setup).Ok?
    ensures DecodeTransfer(FrameFor(s).payload) == Ok(ControlTransfer(SetupIn(s), s.transferBuffer))
  {
    TransferRoundTrip(ControlTransfer(SetupIn(s), s.transferBuffer));
  }

  // The detour through a frame and back loses nothing: the reply is the control endpoint's answer.
  lemma ControlReply(s: Submit, ds: DescriptorSet, dev: DeviceState, keycodes: seq<u8>)
    ensures var o, answer := HandleControl(FrameFor(s), Some(ds), dev, keycodes), Answer(SetupIn(s), Some(ds));
            && o.device == After(SetupIn(s), Some(ds), dev)
            && o.events == Events(SetupIn(s), Some(ds), keycodes)
            && ReplyTo(s, o.response) == OkFor(s, answer.data).(status := StatusCode(answer.status))
  {
    SetupDecodes(s);
    var answer := Answer(SetupIn(s), Some(ds));
    ReplyIsShort(SetupIn(s), Some(ds));
    TransferRoundTrip(ControlTransfer(SetupIn(s), answer.data));
  }

  predicate SmallReports(pending: seq<seq<u8>>) {
    forall i :: 0 <= i < |pending| ==> |pending[i]| == 8
  }

  lemma SmallConcat(a: seq<seq<u8>>, b: seq<seq<u8>>)
    requires SmallReports(a) && SmallReports(b)
    ensures SmallReports(a + b)
  {
  }

  lemma OkReplyEncodes(s: Submit, data: seq<u8>, status: TransferStatus)
    requires |data| <= 0xffff
    ensures var reply := OkFor(s, data).(status := StatusCode(status));
            EncodeSubmitReply(reply).Ok? && reply.header.seqnum == s.header.seqnum
  {
  }

  lemma ControlReplySizes(s: Submit, ds: DescriptorSet, st: SessionState, keycodes: seq<u8>)
    requires SmallReports(st.pending) && s.header.endpoint == 0
    ensures var (reply, st') := HandleSubmit(s, ds, st, keycodes);
            SmallReports(st'.pending) && EncodeSubmitReply(reply).Ok? && reply.header.seqnum == s.header.seqnum
  {
    var setup := SetupIn(s);
    ControlReply(s, ds, st.device, keycodes);
    ReplyIsShort(setup, Some(ds));
    ReportsOfEvents(setup, ds, keycodes);
    SmallConcat(st.pending, Reports(Events(setup, Some(ds), keycodes)));
    var answer := Answer(setup, Some(ds));
    OkReplyEncodes(s, answer.data, answer.status);
  }

  // The fixed fields of every reply; on 0x81 the oldest report if there is one, on any endpoint other
  // than it and zero a stall.
  lemma RepliesAreFormed(s: Submit, ds: DescriptorSet, st: SessionState, keycodes: seq<u8>)
    ensures var (r, st') := HandleSubmit(s, ds, st, keycodes);
            && r == SubmitReply(BasicHeader(RetSubmit, s.header.seqnum, 0, Out, 0), r.status, r.actualLength,
                                0, 0xffff_ffff, 0, r.transferBuffer)
            && (s.header.endpoint == 0x81 ==>
                  && r.status == 0
                  && if st.pending == [] then r.transferBuffer == [] && st' == st
                     else [r.transferBuffer] + st'.pending == st.pending && st'.device == st.device)
            && (s.header.endpoint != 0 && s.header.endpoint != 0x81 ==>
                  r.status == -4 && r.transferBuffer == [] && st' == st)
    ensures forall u :: HandleUnlink(u) == UnlinkReply(BasicHeader(RetUnlink, u.header.seqnum, 0, Out, 0), 0)
  {
    hide HandleControl, SetupIn, TransferData;
  }

  // The queue only ever holds eight-byte reports, so every reply's length field is right.
  lemma ReplySizes(s: Submit, ds: DescriptorSet, st: SessionState, keycodes: seq<u8>)
    ensures SmallReports(st.pending) ==>
              var (reply, st') := HandleSubmit(s, ds, st, keycodes);
              SmallReports(st'.pending) && EncodeSubmitReply(reply).Ok? && reply.header.seqnum == s.header.seqnum
  {
    if SmallReports(st.pending) {
      if s.header.endpoint == 0 {
        ControlReplySizes(s, ds, st, keycodes);
      } else {
        OkReplyEncodes(s, [], Stall);
        if st.pending != [] {
          OkReplyEncodes(s, st.pending[0], Success);
          assert st.pending[0] in st.pending;
        }
      }
    }
  }

  lemma {:induction false} ReportsAll(events: seq<Frame>)
    requires forall i :: 0 <= i < |events| ==> IsReport(events[i])
    ensures |Reports(events)| == |events|
    ensures forall i :: 0 <= i < |events| ==> Reports(events)[i] == events[i].payload
  {
    if events != [] {
      ReportsAll(events[1..]);
    }
  }

  // Interrupt events of any other endpoint are no reports.
  lemma {:induction false} ReportsComeFrom81(events: seq<Frame>, report: seq<u8>)
    ensures report in Reports(events)
       <==> exists i :: && 0 <= i < |events| && events[i].payload == report
                        && events[i].transferType.Interrupt? && events[i].endpoint == 0x81
    decreases |events|
  {
    if events != [] {
      ReportsComeFrom81(events[1..], report);
      assert forall i :: 0 < i < |events| ==> events[i] == events[1..][i - 1];
      var first := events[0];
      if first.payload == report && IsReport(first) {
        assert report in Reports(events);
      } else if report in Reports(events[1..]) {
        var i :| 0 <= i < |events[1..]| && events[1..][i].payload == report
                 && events[1..][i].transferType.Interrupt? && events[1..][i].endpoint == 0x81;
        assert events[i + 1].payload == report;
      }
    }
  }

  // Packets that only a server sends are passed over.
  lemma ReturnsAreIgnored(p: seq<u8>, ds: DescriptorSet, st: SessionState, keycodes: seq<u8>)
    requires |p| >= USBIP_HEADER_LEN && HeaderOf(p[..USBIP_BASIC_LEN]).Ok? && ReadBe32(p, 0) > 2
    ensures HandlePacket(p, ds, st, keycodes) == ([], st)
  {
    hide HandleSubmit, DecodeSubmit, DecodeUnlink, EncodeSubmitReply, FromBe32;
    SliceOfSlice(p, 0, USBIP_BASIC_LEN, 0, 4);
  }

  lemma ReportsOfEvents(setup: Setup, ds: DescriptorSet, keycodes: seq<u8>)
    ensures SmallReports(Reports(Events(setup, Some(ds), keycodes)))
  {
    ReportsAll(Events(setup, Some(ds), keycodes));
  }

  lemma ServeStep(stream: seq<u8>, ds: DescriptorSet, st: SessionState, keycodes: seq<u8>, written: seq<seq<u8>>)
    ensures !ReadPacket(stream).0.Packet? ==>
              written + Serve(stream, ds, st, keycodes).0 == written && Serve(stream, ds, st, keycodes).1 == st
    ensures ReadPacket(stream).0.Packet? ==>
              var (p, rest) := (ReadPacket(stream).0.bytes, ReadPacket(stream).1);
              && |rest| < |stream| && |p| >= USBIP_HEADER_LEN && HeaderOf(p[..USBIP_BASIC_LEN]).Ok?
              && var (out, st') := HandlePacket(p, ds, st, keycodes);
              && Serve(stream, ds, st, keycodes).1 == Serve(rest, ds, st', keycodes).1
              && written + Serve(stream, ds, st, keycodes).0 == (written + out) + Serve(rest, ds, st', keycodes).0
  {
    if ReadPacket(stream).0.Packet? {
      ReadPacketsDecode(stream);
      var (p, rest) := (ReadPacket(stream).0.bytes, ReadPacket(stream).1);
      var (out, st') := HandlePacket(p, ds, st, keycodes);
      Associative(written, out, Serve(rest, ds, st', keycodes).0);
    } else {
      assert written + [] == written;
    }
  }

  class Session {
    const stream: TcpStream
    const device: Device
    const descriptors: DescriptorSet
    const keycodes: seq<u8>
    var pendingInterruptReports: seq<seq<u8>>
    var written: seq<seq<u8>>

    constructor (bytes: seq<u8>, descriptors: DescriptorSet, keycodes: seq<u8>)
      ensures fresh(stream) && fresh(device)
      ensures stream.pending == bytes && View() == SessionState(DeviceState(0, 0), []) && written == []
      ensures this.descriptors == descriptors && this.keycodes == keycodes
    {
      stream := new TcpStream(bytes);
      device := new Device();
      this.descriptors, this.keycodes := descriptors, keycodes;
      pendingInterruptReports, written := [], [];
    }

    ghost function View(): SessionState
      reads this, device
    {
      SessionState(device.View(), pendingInterruptReports)
    }

    method QueueReports(events: seq<Frame>)
      modifies this`pendingInterruptReports
      ensures pendingInterruptReports == old(pendingInterruptReports) + Reports(events)
    {
      for k := 0 to |events|
        invariant pendingInterruptReports + Reports(events[k..]) == old(pendingInterruptReports) + Reports(events)
      {
        assert events[k..][1..] == events[k + 1..];
        if events[k].transferType == Interrupt && events[k].endpoint == 0x81 {
          Associative(pendingInterruptReports, [events[k].payload], Reports(events[k + 1..]));
          pendingInterruptReports := pendingInterruptReports + [events[k].payload];
        }
      }
      assert Reports(events[|events|..]) == [];
      assert pendingInterruptReports + [] == pendingInterruptReports;
    }

    method HandleControlSubmit(s: Submit) returns (reply: SubmitReply)
      requires s.header.endpoint == 0
      modifies device, this`pendingInterruptReports
      ensures (reply, View()) == HandleSubmit(s, descriptors, old(View()), keycodes)
    {
      SetupDecodes(s);
      var setup := DecodeSetup(s.setup);
      var frame := Frame(s.header.seqnum, Request, DirectionOfSetup(setup.value), Control, 0, 0,
                         EncodeTransfer(ControlTransfer(setup.value, s.transferBuffer)));
      var response, events := device.HandleControlRequest(frame, Some(descriptors), keycodes);
      QueueReports(events);
      var payload := TransferData(response.payload);
      reply := OkFor(s, payload).(status := response.status);
      if reply.status != 0 {
        reply := reply.(transferBuffer := [], actualLength := 0);
      }
    }

    method HandleOneSubmit(s: Submit) returns (reply: SubmitReply)
      modifies device, this`pendingInterruptReports
      ensures (reply, View()) == HandleSubmit(s, descriptors, old(View()), keycodes)
    {
      if s.header.endpoint == 0 {
        reply := HandleControlSubmit(s);
      } else if s.header.endpoint == 0x81 {
        var report := [];
        if pendingInterruptReports != [] {
          report := pendingInterruptReports[0];
          pendingInterruptReports := pendingInterruptReports[1..];
        }
        reply := OkFor(s, report);
      } else {
        reply := FailedReply(s, Stall);
      }
    }

    // Until the peer closes; one write per answered packet.
    method Run()
      requires SmallReports(pendingInterruptReports)
      modifies this, stream, device
      ensures written == old(written) + Serve(old(stream.pending), descriptors, old(View()), keycodes).0
      ensures View() == Serve(old(stream.pending), descriptors, old(View()), keycodes).1
    {
      while true
        invariant SmallReports(pendingInterruptReports)
        invariant Serve(stream.pending, descriptors, View(), keycodes).1
               == Serve(old(stream.pending), descriptors, old(View()), keycodes).1
        invariant written + Serve(stream.pending, descriptors, View(), keycodes).0
               == old(written) + Serve(old(stream.pending), descriptors, old(View()), keycodes).0
        decreases |stream.pending|
      {
        ghost var before := stream.pending;
        ServeStep(before, descriptors, View(), keycodes, written);
        var packet := stream.ReadUsbIpPacket();
        if !packet.Packet? {
          break;
        }
        HandleOnePacket(packet.bytes);
      }
    }

    method HandleOnePacket(packet: seq<u8>)
      requires SmallReports(pendingInterruptReports)
      requires |packet| >= USBIP_HEADER_LEN && HeaderOf(packet[..USBIP_BASIC_LEN]).Ok?
      modifies device, this
      ensures SmallReports(pendingInterruptReports)
      ensures var (out, st) := HandlePacket(packet, descriptors, old(View()), keycodes);
              written == old(written) + out && View() == st
    {
      var header := HeaderOf(packet[..USBIP_BASIC_LEN]);
      match header.value.command {
        case CmdSubmit =>
          var submit := DecodeSubmit(packet);
          if submit.Ok? {
            ReplySizes(submit.value, descriptors, View(), keycodes);
            var reply := HandleOneSubmit(submit.value);
            var bytes := EncodeSubmitReply(reply);
            written := written + [bytes.value];
          }
        case CmdUnlink =>
          var unlink := DecodeUnlink(packet);
          if unlink.Ok? {
            written := written + [EncodeUnlinkReply(HandleUnlink(unlink.value))];
          }
        case _ =>
      }
    }
  }
}

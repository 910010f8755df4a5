// The two front ends of the mock device: the WHY session and the USB/IP session.

// How an attached WHY session serves control requests: one response each, and the events after it.

module WhyFrontEnd {
  import opened Bytes
  import opened ControlEndpoint
  import opened Descriptors
  import opened FrameCodec
  import opened Wrappers
  import D = DaemonSpec
  import Runs = DaemonRuns

  predicate IsControlRequest(f: Frame) {
    f.frameType.Request? && f.transferType.Control? && f.endpoint == 0 && Encodable(f)
  }

  predicate AllControlRequests(fs: seq<Frame>) {
    forall i :: 0 <= i < |fs| ==> IsControlRequest(fs[i])
  }

  // The encoded frames arrive one after the other.
  function Arrivals(fs: seq<Frame>): (es: seq<D.Event>)
    requires AllControlRequests(fs)
    ensures |es| == |fs|
  {
    if fs == [] then [] else [D.Received(Encode(fs[0]), true)] + Arrivals(fs[1..])
  }

  predicate Serving(s: D.DaemonState, ds: DescriptorSet) {
    s.phase.Attached? && s.loop.Open? && s.descriptors == Some(ds) && D.Idle(s.queues) && D.HandOk(s)
  }

  function Sent(o: ControlOutcome): seq<seq<u8>>
    requires D.AllEncodable([o.response] + o.events)
  {
    D.EncodeAll([o.response] + o.events)
  }

  function Sends(fs: seq<Frame>, ds: DescriptorSet, dev: DeviceState, keycodes: seq<u8>): seq<seq<u8>>
    decreases |fs|
  {
    if fs == [] then []
    else
      D.ControlAnswersEncodable(fs[0], Some(ds), dev, keycodes);
      var o := HandleControl(fs[0], Some(ds), dev, keycodes);
      Sent(o) + Sends(fs[1..], ds, o.device, keycodes)
  }

  lemma OneArrival(s: D.DaemonState, cfg: D.Config, f: Frame, ds: DescriptorSet)
    requires D.ConfigOk(cfg) && Serving(s, ds) && IsControlRequest(f)
    ensures var o := HandleControl(f, Some(ds), s.device, cfg.keycodes);
            && D.AllEncodable([o.response] + o.events)
            && D.Step(s, cfg, D.Received(Encode(f), true)) == (s.(device := o.device), Sent(o))
  {
    hide HandleControl, D.Flushable, D.Flush, D.EncodeAll;
    D.IdleIsFlushable(s.queues);
    D.ControlAnswersEncodable(f, Some(ds), s.device, cfg.keycodes);
    RoundTrip(f);
    hide Encode, Decode;
  }

  // Over any number of them only the device changes, and exactly those frames are sent.
  lemma {:induction false} ArrivalsServed(s: D.DaemonState, cfg: D.Config, fs: seq<Frame>, ds: DescriptorSet)
    requires D.ConfigOk(cfg) && Serving(s, ds) && AllControlRequests(fs)
    ensures Runs.Run(s, cfg, Arrivals(fs))
         == (s.(device := ControlRun(fs, Some(ds), s.device, cfg.keycodes).2), Sends(fs, ds, s.device, cfg.keycodes))
    decreases |fs|
  {
    hide D.Step, HandleControl, Encode, Sent;
    if fs != [] {
      OneArrival(s, cfg, fs[0], ds);
      var o := HandleControl(fs[0], Some(ds), s.device, cfg.keycodes);
      ArrivalsServed(s.(device := o.device), cfg, fs[1..], ds);
      assert Arrivals(fs)[1..] == Arrivals(fs[1..]);
    }
  }
}

// The two front ends, driven by the same requests, show the same device.

module FrontEnds {
  import opened Bytes
  import opened ControlEndpoint
  import opened ControlTransfers
  import opened Descriptors
  import opened FrameCodec
  import opened UsbIpCodec
  import opened UsbIpSession
  import opened UsbIpStream
  import opened WhyFrontEnd
  import opened Wrappers
  import D = DaemonSpec
  import Runs = DaemonRuns

  function SubmitRun(ss: seq<Submit>, ds: DescriptorSet, st: SessionState, keycodes: seq<u8>)
    : (r: (seq<SubmitReply>, SessionState))
    ensures |r.0| == |ss|
    decreases |ss|
  {
    if ss == [] then ([], st)
    else
      var (reply, st') := HandleSubmit(ss[0], ds, st, keycodes);
      var (replies, last) := SubmitRun(ss[1..], ds, st', keycodes);
      ([reply] + replies, last)
  }

  // The frames carry the setups of the control submits, in order; ids, directions and data may differ.
  predicate SameRequests(ss: seq<Submit>, fs: seq<Frame>) {
    if ss == [] then fs == []
    else if ss[0].header.endpoint == 0 then
      && fs != [] && DecodeTransfer(fs[0].payload).Ok?
      && DecodeTransfer(fs[0].payload).value.setup == SetupIn(ss[0])
      && SameRequests(ss[1..], fs[1..])
    else SameRequests(ss[1..], fs)
  }

  // The status and data of each control reply.
  function UsbIpAnswers(ss: seq<Submit>, replies: seq<SubmitReply>): seq<(i32, seq<u8>)>
    requires |ss| == |replies|
  {
    if ss == [] then []
    else
      (if ss[0].header.endpoint == 0 then [(replies[0].status, replies[0].transferBuffer)] else [])
      + UsbIpAnswers(ss[1..], replies[1..])
  }

  function WhyAnswers(responses: seq<Frame>): seq<(i32, seq<u8>)> {
    if responses == [] then []
    else [(responses[0].status, TransferData(responses[0].payload))] + WhyAnswers(responses[1..])
  }

  // The reports returned on interrupt submits; an empty reply means none was waiting.
  function DeliveredReports(ss: seq<Submit>, replies: seq<SubmitReply>): seq<seq<u8>>
    requires |ss| == |replies|
  {
    if ss == [] then []
    else
      (if ss[0].header.endpoint == 0x81 && replies[0].transferBuffer != [] then [replies[0].transferBuffer] else [])
      + DeliveredReports(ss[1..], replies[1..])
  }

  lemma {:induction false} ReportsConcat(a: seq<Frame>, b: seq<Frame>)
    ensures Reports(a + b) == Reports(a) + Reports(b)
    decreases |a|
  {
    hide IsReport;
    if a == [] {
      assert a + b == b && [] + Reports(b) == Reports(b);
    } else {
      ReportsConcat(a[1..], b);
      assert (a + b)[0] == a[0] && (a + b)[1..] == a[1..] + b;
      var first := if IsReport(a[0]) then [a[0].payload] else [];
      assert first + (Reports(a[1..]) + Reports(b)) == (first + Reports(a[1..])) + Reports(b);
    }
  }

  // One control request through either front end.
  lemma OneRequest(s: Submit, f: Frame, ds: DescriptorSet, st: SessionState, keycodes: seq<u8>)
    requires s.header.endpoint == 0
    requires DecodeTransfer(f.payload).Ok? && DecodeTransfer(f.payload).value.setup == SetupIn(s)
    ensures var (reply, st') := HandleSubmit(s, ds, st, keycodes);
            var o := HandleControl(f, Some(ds), st.device, keycodes);
            && st' == SessionState(o.device, st.pending + Reports(o.events))
            && (reply.status, reply.transferBuffer) == (o.response.status, TransferData(o.response.payload))
  {
    ControlReply(s, ds, st.device, keycodes);
    TransferRoundTrip(ControlTransfer(SetupIn(s), Answer(SetupIn(s), Some(ds)).data));
  }

  // The fold of the control handler and the fold of the submit handler agree; the sessions around
  // them are added below.
  lemma {:induction false} HandlersAgree(ss: seq<Submit>, fs: seq<Frame>, ds: DescriptorSet, st: SessionState,
                                          keycodes: seq<u8>)
    requires SameRequests(ss, fs) && SmallReports(st.pending)
    ensures Agreed(ss, st.pending, RunBoth(ss, fs, ds, st, keycodes))
    decreases |ss|
  {
    if ss == [] {
      assert st.pending + [] == [] + st.pending;
    } else {
      var st' := HandleSubmit(ss[0], ds, st, keycodes).1;
      ReplySizes(ss[0], ds, st, keycodes);
      if ss[0].header.endpoint == 0 {
        HandlersAgree(ss[1..], fs[1..], ds, st', keycodes);
        ControlStep(ss, fs, ds, st, st', keycodes);
      } else {
        HandlersAgree(ss[1..], fs, ds, st', keycodes);
        OtherStep(ss, fs, ds, st, st', keycodes);
      }
    }
  }

  // Every reply encodes and keeps its submit's number.
  lemma {:induction false} EveryReplyEncodes(ss: seq<Submit>, ds: DescriptorSet, st: SessionState, keycodes: seq<u8>)
    requires SmallReports(st.pending)
    ensures var replies := SubmitRun(ss, ds, st, keycodes).0;
            forall i :: 0 <= i < |ss| ==>
                          EncodeSubmitReply(replies[i]).Ok? && replies[i].header.seqnum == ss[i].header.seqnum
    decreases |ss|
  {
    hide HandleSubmit, EncodeSubmitReply;
    if ss != [] {
      ReplySizes(ss[0], ds, st, keycodes);
      var (reply, st') := HandleSubmit(ss[0], ds, st, keycodes);
      EveryReplyEncodes(ss[1..], ds, st', keycodes);
      var replies, later := SubmitRun(ss, ds, st, keycodes).0, SubmitRun(ss[1..], ds, st', keycodes).0;
      assert replies == [reply] + later;
      forall i | 0 < i < |ss|
        ensures EncodeSubmitReply(replies[i]).Ok? && replies[i].header.seqnum == ss[i].header.seqnum
      {
        assert replies[i] == later[i - 1] && ss[i] == ss[1..][i - 1];
      }
    }
  }

  datatype Both = Both(usbip: (seq<SubmitReply>, SessionState), why: (seq<Frame>, seq<Frame>, DeviceState))

  // The two folds over the same requests, and that they agree when started with those reports waiting.
  function RunBoth(ss: seq<Submit>, fs: seq<Frame>, ds: DescriptorSet, st: SessionState, keycodes: seq<u8>): Both {
    Both(SubmitRun(ss, ds, st, keycodes), ControlRun(fs, Some(ds), st.device, keycodes))
  }

  predicate Agreed(ss: seq<Submit>, pending: seq<seq<u8>>, b: Both)
    requires |b.usbip.0| == |ss|
  {
    && b.usbip.1.device == b.why.2
    && UsbIpAnswers(ss, b.usbip.0) == WhyAnswers(b.why.0)
    && pending + Reports(b.why.1) == DeliveredReports(ss, b.usbip.0) + b.usbip.1.pending
  }

  lemma OtherStep(ss: seq<Submit>, fs: seq<Frame>, ds: DescriptorSet, st: SessionState, st': SessionState,
          keycodes: seq<u8>)
    requires ss != [] && ss[0].header.endpoint != 0 && SmallReports(st.pending)
    requires st' == HandleSubmit(ss[0], ds, st, keycodes).1
    requires Agreed(ss[1..], st'.pending, RunBoth(ss[1..], fs, ds, st', keycodes))
    ensures Agreed(ss, st.pending, RunBoth(ss, fs, ds, st, keycodes))
  {
    var s, reply := ss[0], HandleSubmit(ss[0], ds, st, keycodes).0;
    InterruptStep(s, ds, st, keycodes);
    var later := SubmitRun(ss[1..], ds, st', keycodes);
    assert ([reply] + later.0)[1..] == later.0;
    var events := ControlRun(fs, Some(ds), st.device, keycodes).1;
    var out := if s.header.endpoint == 0x81 && reply.transferBuffer != [] then [reply.transferBuffer] else [];
    Splice(st.pending, [], Reports(events), out, st'.pending, DeliveredReports(ss[1..], later.0), later.1.pending);
    assert [] + Reports(events) == Reports(events);
  }

  lemma InterruptStep(s: Submit, ds: DescriptorSet, st: SessionState, keycodes: seq<u8>)
    requires s.header.endpoint != 0 && SmallReports(st.pending)
    ensures var (reply, st') := HandleSubmit(s, ds, st, keycodes);
            var out := if s.header.endpoint == 0x81 && reply.transferBuffer != [] then [reply.transferBuffer] else [];
            st.pending + [] == out + st'.pending && st'.device == st.device
  {
    if st.pending != [] {
      assert |st.pending[0]| == 8;
      assert [st.pending[0]] + st.pending[1..] == st.pending;
    }
  }

  // One step, without the induction that Dafny would try by itself.
  lemma {:induction false} ControlStep(ss: seq<Submit>, fs: seq<Frame>, ds: DescriptorSet, st: SessionState,
                                       st': SessionState, keycodes: seq<u8>)
    requires ss != [] && ss[0].header.endpoint == 0 && SameRequests(ss, fs)
    requires st' == HandleSubmit(ss[0], ds, st, keycodes).1
    requires Agreed(ss[1..], st'.pending, RunBoth(ss[1..], fs[1..], ds, st', keycodes))
    ensures Agreed(ss, st.pending, RunBoth(ss, fs, ds, st, keycodes))
  {
    var reply := HandleSubmit(ss[0], ds, st, keycodes).0;
    OneRequest(ss[0], fs[0], ds, st, keycodes);
    var o := HandleControl(fs[0], Some(ds), st.device, keycodes);
    var later := SubmitRun(ss[1..], ds, st', keycodes);
    var (responses, events, device) := ControlRun(fs[1..], Some(ds), o.device, keycodes);
    assert ([reply] + later.0)[1..] == later.0 && ([o.response] + responses)[1..] == responses;
    ReportsConcat(o.events, events);
    assert [] + st'.pending == st'.pending;
    Splice(st.pending, Reports(o.events), Reports(events), [], st'.pending,
           DeliveredReports(ss[1..], later.0), later.1.pending);
  }

  // ---- the typed keys, read on 0x81

  predicate AllPolls(ss: seq<Submit>) {
    forall i :: 0 <= i < |ss| ==> ss[i].header.endpoint == 0x81
  }

  function Buffers(replies: seq<SubmitReply>): (bs: seq<seq<u8>>)
    ensures |bs| == |replies|
  {
    seq(|replies|, i requires 0 <= i < |replies| => replies[i].transferBuffer)
  }

  // As many polls as reports are waiting take them all, in order.
  lemma {:induction false} PollsTakeAll(ss: seq<Submit>, ds: DescriptorSet, st: SessionState, keycodes: seq<u8>)
    requires AllPolls(ss) && |ss| == |st.pending|
    ensures var (replies, last) := SubmitRun(ss, ds, st, keycodes);
            Buffers(replies) == st.pending && last == st.(pending := [])
    decreases |ss|
  {
    if ss != [] {
      PollsTakeAll(ss[1..], ds, st.(pending := st.pending[1..]), keycodes);
      var replies := SubmitRun(ss, ds, st, keycodes).0;
      assert replies[1..] == SubmitRun(ss[1..], ds, st.(pending := st.pending[1..]), keycodes).0;
      assert Buffers(replies) == [replies[0].transferBuffer] + Buffers(replies[1..]);
      assert [st.pending[0]] + st.pending[1..] == st.pending;
    }
  }

  predicate Configures(s: Submit, ds: DescriptorSet) {
    && s.header.endpoint == 0 && SetupIn(s).request == 9 && SetupIn(s).length == 0
    && 0 < SetupIn(s).value <= 255 && Supported(Some(ds), SetupIn(s).value)
  }

  lemma ConfiguringQueuesKeys(s: Submit, ds: DescriptorSet, st: SessionState, keycodes: seq<u8>)
    requires Configures(s, ds)
    ensures var (reply, st') := HandleSubmit(s, ds, st, keycodes);
            && reply.status == 0 && st'.device.configuration == SetupIn(s).value
            && st'.pending == st.pending + Payloads(KeyboardEvents(keycodes))
  {
    ControlReply(s, ds, st.device, keycodes);
    var events := KeyboardEvents(keycodes);
    ReportsAll(events);
    assert Reports(events) == Payloads(events);
    hide FrameFor, SetupIn, Payloads, KeyboardEvents, HandleControl;
  }

  // After a SET_CONFIGURATION that is accepted, polling 0x81 reads the keys being pressed and let go.
  lemma TypedKeysAreRead(s: Submit, polls: seq<Submit>, ds: DescriptorSet, st: SessionState, keycodes: seq<u8>)
    requires Configures(s, ds)
    requires st.pending == [] && AllPolls(polls) && |polls| == 2 * |keycodes|
    ensures var (replies, last) := SubmitRun([s] + polls, ds, st, keycodes);
            && replies[0].status == 0
            && Types(Buffers(replies[1..]), keycodes)
            && last.device.configuration == SetupIn(s).value && last.pending == []
  {
    hide HandleSubmit, SetupIn, Payloads, KeyboardEvents, Types;
    ConfiguringQueuesKeys(s, ds, st, keycodes);
    var st' := HandleSubmit(s, ds, st, keycodes).1;
    assert [] + Payloads(KeyboardEvents(keycodes)) == Payloads(KeyboardEvents(keycodes));
    KeyboardTypes(keycodes);
    PollsTakeAll(polls, ds, st', keycodes);
    assert ([s] + polls)[1..] == polls;
    var reply, later := HandleSubmit(s, ds, st, keycodes).0, SubmitRun(polls, ds, st', keycodes).0;
    assert ([reply] + later)[1..] == later;
  }

  // ---- over the wire

  function HandleCommand(c: ClientCommand, ds: DescriptorSet, st: SessionState, keycodes: seq<u8>)
    : (ProtocolResult<seq<u8>>, SessionState)
  {
    match c
    case SubmitCommand(s) =>
      var (reply, st') := HandleSubmit(s, ds, st, keycodes);
      (EncodeSubmitReply(reply), st')
    case UnlinkCommand(u) => (Ok(EncodeUnlinkReply(HandleUnlink(u))), st)
  }

  function CommandRun(cs: seq<ClientCommand>, ds: DescriptorSet, st: SessionState, keycodes: seq<u8>)
    : (r: (seq<ProtocolResult<seq<u8>>>, SessionState))
    ensures |r.0| == |cs|
    decreases |cs|
  {
    if cs == [] then ([], st)
    else
      var (reply, st') := HandleCommand(cs[0], ds, st, keycodes);
      var (replies, last) := CommandRun(cs[1..], ds, st', keycodes);
      ([reply] + replies, last)
  }

  predicate Answers(c: ClientCommand, packet: seq<u8>) {
    match c
    case SubmitCommand(s) =>
      DecodeSubmitReply(packet).Ok? && DecodeSubmitReply(packet).value.header.seqnum == s.header.seqnum
    case UnlinkCommand(u) => DecodeUnlinkReply(packet) == Ok(HandleUnlink(u))
  }

  lemma CommandAnswered(c: ClientCommand, ds: DescriptorSet, st: SessionState, keycodes: seq<u8>)
    requires CommandEncodable(c) && SmallReports(st.pending)
    ensures var (reply, st') := HandleCommand(c, ds, st, keycodes);
            && reply.Ok? && Answers(c, reply.value) && SmallReports(st'.pending)
            && HandlePacketOf(c, ds, st, keycodes) == ([reply.value], st')
  {
    CommandLength(c);
    CommandRoundTrip(c);
    var p := CommandBytes(c);
    assert p[..USBIP_HEADER_LEN][..USBIP_BASIC_LEN] == p[..USBIP_BASIC_LEN];
    HeaderFromPrefix(p);
    match c {
      case SubmitCommand(s) =>
        ReplySizes(s, ds, st, keycodes);
        SubmitReplyRoundTrip(HandleSubmit(s, ds, st, keycodes).0);
      case UnlinkCommand(u) =>
        UnlinkReplyRoundTrip(HandleUnlink(u));
    }
  }

  function HandlePacketOf(c: ClientCommand, ds: DescriptorSet, st: SessionState, keycodes: seq<u8>)
    : (seq<seq<u8>>, SessionState)
    requires CommandEncodable(c)
  {
    CommandLength(c);
    assert CommandBytes(c)[..USBIP_HEADER_LEN][..USBIP_BASIC_LEN] == CommandBytes(c)[..USBIP_BASIC_LEN];
    HandlePacket(CommandBytes(c), ds, st, keycodes)
  }

  lemma ServesOne(c: ClientCommand, rest: seq<u8>, ds: DescriptorSet, st: SessionState, keycodes: seq<u8>)
    requires CommandEncodable(c) && SmallReports(st.pending)
    ensures var (reply, st') := HandleCommand(c, ds, st, keycodes);
            && reply.Ok?
            && Serve(CommandBytes(c) + rest, ds, st, keycodes)
            == ([reply.value] + Serve(rest, ds, st', keycodes).0, Serve(rest, ds, st', keycodes).1)
  {
    ReadsOneCommand(c, rest);
    CommandAnswered(c, ds, st, keycodes);
  }

  predicate EachAnswered(cs: seq<ClientCommand>, replies: seq<ProtocolResult<seq<u8>>>, out: seq<seq<u8>>)
    decreases |cs|
  {
    if cs == [] then replies == [] && out == []
    else
      && replies != [] && out != []
      && replies[0] == Ok(out[0]) && Answers(cs[0], out[0])
      && EachAnswered(cs[1..], replies[1..], out[1..])
  }

  // A session fed the encoded commands writes exactly one packet for each, in order, and that
  // packet decodes as its answer.
  lemma {:induction false} SessionAnswersEach(cs: seq<ClientCommand>, ds: DescriptorSet, st: SessionState,
          keycodes: seq<u8>)
    requires AllEncodable(cs) && SmallReports(st.pending)
    ensures var (out, last) := Serve(Stream(cs), ds, st, keycodes);
            var (replies, last') := CommandRun(cs, ds, st, keycodes);
            last == last' && EachAnswered(cs, replies, out)
    decreases |cs|
  {
    if cs != [] {
      var c := cs[0];
      ServesOne(c, Stream(cs[1..]), ds, st, keycodes);
      CommandAnswered(c, ds, st, keycodes);
      var (reply, st') := HandleCommand(c, ds, st, keycodes);
      SessionAnswersEach(cs[1..], ds, st', keycodes);
      var replies, later := CommandRun(cs[1..], ds, st', keycodes).0, Serve(Stream(cs[1..]), ds, st', keycodes).0;
      assert ([reply] + replies)[1..] == replies && ([reply.value] + later)[1..] == later;
    }
  }

  // ---- the WHY session's side, read off what it sends

  function FrameAnswers(fs: seq<Frame>): seq<(i32, seq<u8>)> {
    if fs == [] then []
    else
      var first := if fs[0].frameType.Response? then [(fs[0].status, TransferData(fs[0].payload))] else [];
      first + FrameAnswers(fs[1..])
  }

  function FrameReports(fs: seq<Frame>): seq<seq<u8>> {
    if fs == [] then []
    else (if fs[0].frameType.Event? && IsReport(fs[0]) then [fs[0].payload] else []) + FrameReports(fs[1..])
  }

  // The frames a byte strings decode to; those that do not decode are dropped.
  function Received(bs: seq<seq<u8>>): seq<Frame> {
    if bs == [] then []
    else (match Decode(bs[0]) case Ok(f) => [f] case Err(_) => []) + Received(bs[1..])
  }

  // The status and data of each response among the bytes sent, and the reports of each event.
  function SentAnswers(bs: seq<seq<u8>>): seq<(i32, seq<u8>)> {
    FrameAnswers(Received(bs))
  }

  function SentReports(bs: seq<seq<u8>>): seq<seq<u8>> {
    FrameReports(Received(bs))
  }

  lemma {:induction false} ReceivedConcat(a: seq<seq<u8>>, b: seq<seq<u8>>)
    ensures Received(a + b) == Received(a) + Received(b)
    decreases |a|
  {
    hide Decode;
    if a == [] {
      assert a + b == b;
    } else {
      ReceivedConcat(a[1..], b);
      assert (a + b)[1..] == a[1..] + b;
    }
  }

  lemma {:induction false} ReceivedEncoded(fs: seq<Frame>)
    requires D.AllEncodable(fs)
    ensures Received(D.EncodeAll(fs)) == fs
    decreases |fs|
  {
    hide Decode, Encode;
    if fs != [] {
      RoundTrip(fs[0]);
      ReceivedEncoded(fs[1..]);
      assert D.EncodeAll(fs)[1..] == D.EncodeAll(fs[1..]);
    }
  }

  lemma {:induction false} FrameConcat(a: seq<Frame>, b: seq<Frame>)
    ensures FrameAnswers(a + b) == FrameAnswers(a) + FrameAnswers(b)
    ensures FrameReports(a + b) == FrameReports(a) + FrameReports(b)
    decreases |a|
  {
    hide TransferData, IsReport;
    if a == [] {
      assert a + b == b;
      assert [] + FrameAnswers(b) == FrameAnswers(b) && [] + FrameReports(b) == FrameReports(b);
    } else {
      FrameConcat(a[1..], b);
      assert (a + b)[0] == a[0] && (a + b)[1..] == a[1..] + b;
      var answer := if a[0].frameType.Response? then [(a[0].status, TransferData(a[0].payload))] else [];
      var report := if a[0].frameType.Event? && IsReport(a[0]) then [a[0].payload] else [];
      assert answer + (FrameAnswers(a[1..]) + FrameAnswers(b)) == (answer + FrameAnswers(a[1..])) + FrameAnswers(b);
      assert report + (FrameReports(a[1..]) + FrameReports(b)) == (report + FrameReports(a[1..])) + FrameReports(b);
    }
  }

  lemma {:induction false} EventsOnly(events: seq<Frame>)
    requires forall i :: 0 <= i < |events| ==> events[i].frameType.Event?
    ensures FrameAnswers(events) == [] && FrameReports(events) == Reports(events)
  {
    if events != [] {
      EventsOnly(events[1..]);
    }
  }

  lemma OutcomeRead(f: Frame, ds: DescriptorSet, dev: DeviceState, keycodes: seq<u8>)
    ensures var o := HandleControl(f, Some(ds), dev, keycodes);
            && D.AllEncodable([o.response] + o.events)
            && SentAnswers(Sent(o)) == [(o.response.status, TransferData(o.response.payload))]
            && SentReports(Sent(o)) == Reports(o.events)
  {
    D.ControlAnswersEncodable(f, Some(ds), dev, keycodes);
    var o := HandleControl(f, Some(ds), dev, keycodes);
    EventsOnly(o.events);
    ReceivedEncoded([o.response] + o.events);
    FrameConcat([o.response], o.events);
    assert FrameAnswers([o.response][1..]) == [] && FrameReports([o.response][1..]) == [];
    var answer := [(o.response.status, TransferData(o.response.payload))];
    assert answer + [] == answer;
  }

  lemma {:induction false} SendsRead(fs: seq<Frame>, ds: DescriptorSet, dev: DeviceState, keycodes: seq<u8>)
    ensures var (responses, events, last) := ControlRun(fs, Some(ds), dev, keycodes);
            && SentAnswers(Sends(fs, ds, dev, keycodes)) == WhyAnswers(responses)
            && SentReports(Sends(fs, ds, dev, keycodes)) == Reports(events)
    decreases |fs|
  {
    hide HandleControl, Sent, TransferData, Decode;
    if fs != [] {
      OutcomeRead(fs[0], ds, dev, keycodes);
      var o := HandleControl(fs[0], Some(ds), dev, keycodes);
      var later := Sends(fs[1..], ds, o.device, keycodes);
      SendsRead(fs[1..], ds, o.device, keycodes);
      ReceivedConcat(Sent(o), later);
      FrameConcat(Received(Sent(o)), Received(later));
      var (responses, events, last) := ControlRun(fs[1..], Some(ds), o.device, keycodes);
      ReportsConcat(o.events, events);
      assert ([o.response] + responses)[1..] == responses;
    }
  }

  // ---- the USB/IP session's side, read off the packets it writes

  function Commands(ss: seq<Submit>): (cs: seq<ClientCommand>)
    ensures |cs| == |ss|
  {
    if ss == [] then [] else [SubmitCommand(ss[0])] + Commands(ss[1..])
  }

  predicate AllSubmitsEncodable(ss: seq<Submit>) {
    forall i :: 0 <= i < |ss| ==> SubmitEncodable(ss[i])
  }

  lemma {:induction false} CommandsEncodable(ss: seq<Submit>)
    requires AllSubmitsEncodable(ss)
    ensures AllEncodable(Commands(ss))
    decreases |ss|
  {
    if ss != [] {
      CommandsEncodable(ss[1..]);
    }
  }

  function Replies(packets: seq<seq<u8>>): seq<SubmitReply> {
    if packets == [] then []
    else (match DecodeSubmitReply(packets[0]) case Ok(r) => [r] case Err(_) => []) + Replies(packets[1..])
  }

  lemma {:induction false} SubmitsServed(ss: seq<Submit>, ds: DescriptorSet, st: SessionState, keycodes: seq<u8>)
    requires AllSubmitsEncodable(ss) && SmallReports(st.pending)
    ensures AllEncodable(Commands(ss))
    ensures var r := Serve(Stream(Commands(ss)), ds, st, keycodes);
            && |r.0| == |ss|
            && Replies(r.0) == SubmitRun(ss, ds, st, keycodes).0
            && r.1 == SubmitRun(ss, ds, st, keycodes).1
    decreases |ss|
  {
    hide HandleSubmit, EncodeSubmitReply, DecodeSubmitReply, CommandBytes, ReadPacket;
    CommandsEncodable(ss);
    if ss != [] {
      var c := SubmitCommand(ss[0]);
      assert Commands(ss)[1..] == Commands(ss[1..]);
      CommandsEncodable(ss[1..]);
      ServesOne(c, Stream(Commands(ss[1..])), ds, st, keycodes);
      ReplySizes(ss[0], ds, st, keycodes);
      var (reply, st') := HandleSubmit(ss[0], ds, st, keycodes);
      SubmitReplyRoundTrip(reply);
      SubmitsServed(ss[1..], ds, st', keycodes);
      var later := Serve(Stream(Commands(ss[1..])), ds, st', keycodes).0;
      assert ([EncodeSubmitReply(reply).value] + later)[1..] == later;
    }
  }

  // ---- the two sessions side by side

  // An attached WHY session to which control requests arrive, and a USB/IP session that reads
  // submits with the same setups among any others, starting from the same device: the same status
  // and data for every request, the same address and configuration after them, and the reports the
  // one sends as events are those the other delivers on 0x81 or still holds, in the same order.
  lemma FrontEndsAgree(ss: seq<Submit>, fs: seq<Frame>, s: D.DaemonState, cfg: D.Config, ds: DescriptorSet,
          st: SessionState)
    requires D.ConfigOk(cfg) && Serving(s, ds) && AllControlRequests(fs)
    requires AllSubmitsEncodable(ss) && SmallReports(st.pending) && st.device == s.device
    requires SameRequests(ss, fs)
    ensures AllEncodable(Commands(ss))
    ensures var (s', sent) := Runs.Run(s, cfg, Arrivals(fs));
            var (packets, st') := Serve(Stream(Commands(ss)), ds, st, cfg.keycodes);
            var replies := Replies(packets);
            && |replies| == |packets| == |ss|
            && s' == s.(device := st'.device)
            && SentAnswers(sent) == UsbIpAnswers(ss, replies)
            && st.pending + SentReports(sent) == DeliveredReports(ss, replies) + st'.pending
  {
    hide HandleSubmit, HandleControl, Serve, Stream, Runs.Run, Arrivals, Sends, D.ConfigOk;
    ArrivalsServed(s, cfg, fs, ds);
    SendsRead(fs, ds, s.device, cfg.keycodes);
    SubmitsServed(ss, ds, st, cfg.keycodes);
    HandlersAgree(ss, fs, ds, st, cfg.keycodes);
  }
}

// daemon/src/session.rs: what the WHY session does with each event, as functions of its state.

module DaemonSpec {
  import opened BulkPayload
  import opened Bytes
  import opened ControlEndpoint
  import opened Descriptors
  import opened Driver
  import opened FrameCodec
  import opened RingSpec
  import opened Wrappers
  import Queue = EndpointQueue
  import QueueInvariant = EndpointQueueInvariant

  datatype Outcome = InjectStatus(injected: TransferStatus) | ShortPacket(len: nat)

  datatype OutcomeRule = OutcomeRule(requestId: u64, outcome: Outcome)

  // A session's settings. Whether a device is to be attached, the descriptors announced for it,
  // the keys typed once it is configured, and the faults to inject.
  datatype Config = Config(
    attachDevice: bool,
    descriptors: DescriptorSet,
    keycodes: seq<u8>,
    outcomes: seq<OutcomeRule>)

  // Frame::encode panics on a descriptor set that encodes to 2^32 bytes or more.
  ghost predicate ConfigOk(cfg: Config) {
    SetEncodable(cfg.descriptors) ==> |SetBytes(cfg.descriptors)| <= U32_MAX
  }

  datatype Phase = Connected | Attached | Detaching | Closed

  // The session loop runs, has been left, waits for the TX worker after the clean-up, or is over.
  datatype Loop = Open | Broken | Joining | Done

  datatype DaemonState = DaemonState(
    phase: Phase,
    attachedByControlPlane: bool,
    descriptors: Option<DescriptorSet>,
    device: DeviceState,
    queues: Queue.State,
    driver: DriverState,
    hand: Option<Frame>, // polled by the TX worker, not yet in the channel
    channel: seq<seq<u8>>,
    loop: Loop,
    attaches: nat, // driver attaches and detaches that succeeded so far
    detaches: nat)

  // "Mock response from daemon driver"
  const MOCK_RESPONSE_TEXT: seq<u8> := [
    0x4d, 0x6f, 0x63, 0x6b, 0x20, 0x72, 0x65, 0x73, 0x70, 0x6f, 0x6e, 0x73, 0x65, 0x20, 0x66, 0x72,
    0x6f, 0x6d, 0x20, 0x64, 0x61, 0x65, 0x6d, 0x6f, 0x6e, 0x20, 0x64, 0x72, 0x69, 0x76, 0x65, 0x72]

  predicate Idle(q: Queue.State) {
    q.queues == map[] && q.activeOrder == [] && q.activeKeys == {} && q.len == 0
  }

  predicate AllEncodable(frames: seq<Frame>) {
    forall i :: 0 <= i < |frames| ==> Encodable(frames[i])
  }

  function EncodeAll(frames: seq<Frame>): (bs: seq<seq<u8>>)
    requires AllEncodable(frames)
    ensures |bs| == |frames|
  {
    if frames == [] then [] else [Encode(frames[0])] + EncodeAll(frames[1..])
  }

  // ---- pure helpers

  function OutboundNetworkFrame(f: Frame): (r: Frame)
    ensures Encodable(f) ==> Encodable(r)
    ensures r.requestId == f.requestId
  {
    if f.frameType.Request? then
      match BulkDecode(f.payload)
      case Ok(data) => MockResponse(f, BulkEncode(data))
      case Err(_) => MockResponse(f, MOCK_RESPONSE_TEXT)
    else f
  }

  // A request becomes a successful response under its id, with the request's own bulk data where
  // it carries any; every other frame goes out as it came.
  lemma OutboundEchoes(f: Frame)
    ensures var r := OutboundNetworkFrame(f);
            && (!f.frameType.Request? ==> r == f)
            && (f.frameType.Request? ==>
                  r == Frame(f.requestId, Response, DeviceToHost, f.transferType, f.endpoint, 0, r.payload))
            && (f.frameType.Request? && BulkDecode(f.payload).Ok? ==> BulkDecode(r.payload) == BulkDecode(f.payload))
            && (f.frameType.Request? && BulkDecode(f.payload).Err? ==> r.payload == MOCK_RESPONSE_TEXT)
  {
    if BulkDecode(f.payload).Ok? {
      BulkRoundTrip(BulkDecode(f.payload).value);
    }
  }

  function FirstRule(rules: seq<OutcomeRule>, requestId: u64): Option<Outcome> {
    if rules == [] then None
    else if rules[0].requestId == requestId then Some(rules[0].outcome)
    else FirstRule(rules[1..], requestId)
  }

  function InjectedResponse(f: Frame, outcome: Outcome): (r: Frame)
    ensures Encodable(r) && r.requestId == f.requestId && r.frameType == Response
  {
    match outcome
    case InjectStatus(status) => StatusResponse(f, status)
    case ShortPacket(len) => MockResponse(f, Truncate(MOCK_RESPONSE_TEXT, len))
  }

  // ---- attach and detach; driverOk is what the driver's own attach or detach call returns

  function AttachSession(s: DaemonState, cfg: Config, driverOk: bool): (i32, DaemonState) {
    if s.phase.Attached? then (0, s)
    else if cfg.attachDevice then
      if !driverOk then (-1, s)
      else (0, s.(phase := Attached, attachedByControlPlane := true, attaches := s.attaches + 1))
    else (0, s.(phase := Attached))
  }

  function DetachSession(s: DaemonState, driverOk: bool): (i32, DaemonState) {
    if s.phase.Closed? then (0, s)
    else if s.attachedByControlPlane then
      if driverOk then (0, s.(phase := Closed, attachedByControlPlane := false, detaches := s.detaches + 1))
      else (-1, s.(phase := Detaching))
    else (0, s.(phase := Closed))
  }

  ghost function AttachReply(cfg: Config, f: Frame, status: i32): (r: Frame)
    requires ConfigOk(cfg)
    ensures Encodable(r) && r.requestId == f.requestId && r.frameType == AttachResponse
  {
    if status != 0 then LifecycleResponse(f, AttachResponse, status, [])
    else
      match EncodeSet(cfg.descriptors)
      case Ok(bytes) => LifecycleResponse(f, AttachResponse, 0, bytes)
      case Err(_) => LifecycleResponse(f, AttachResponse, -1, [])
  }

  // ---- dispatching what is queued

  ghost predicate QueueEncodable(q: Queue.State) {
    forall key, i :: key in q.queues && 0 <= i < |q.queues[key]| ==> Encodable(q.queues[key][i].frame)
  }

  ghost predicate Flushable(q: Queue.State) {
    QueueInvariant.Inv(q) && QueueEncodable(q)
  }

  lemma IdleIsFlushable(q: Queue.State)
    requires Idle(q)
    ensures Flushable(q)
  {
    QueueInvariant.EmptyContents(q.queues);
  }

  lemma EnqueueKeepsEncodable(q: Queue.State, f: Frame)
    requires QueueEncodable(q) && Encodable(f)
    ensures QueueEncodable(Queue.Enqueue(q, f).1)
  {
    var q' := Queue.Enqueue(q, f).1;
    assert forall key :: key in q'.queues && key != Queue.KeyOf(f) ==>
                           key in q.queues && q'.queues[key] == q.queues[key];
  }

  lemma EnqueueKeepsFlushable(q: Queue.State, f: Frame)
    requires Flushable(q) && Encodable(f)
    ensures Flushable(Queue.Enqueue(q, f).1)
  {
    QueueInvariant.EnqueueKeepsInv(q, f);
    EnqueueKeepsEncodable(q, f);
  }

  lemma PopKeepsEncodable(q: Queue.State)
    requires QueueInvariant.OrderOk(q) && QueueInvariant.QueuesOk(q.queues) && QueueEncodable(q)
    ensures var (t, q') := Queue.PopNext(q); QueueEncodable(q') && (t.Some? ==> Encodable(t.value.frame))
  {
    hide Encodable, Queue.PopNext;
    QueueInvariant.PopServesFront(q);
    if q.activeOrder != [] {
      assert q.queues[q.activeOrder[0]] != [];
    }
  }

  lemma PopKeepsFlushable(q: Queue.State)
    requires Flushable(q)
    ensures var (t, q') := Queue.PopNext(q);
            && Flushable(q')
            && (t.Some? ==> Encodable(t.value.frame) && q'.len == q.len - 1 && q.len > 0)
  {
    PopKeepsEncodable(q);
    QueueInvariant.PopServesFront(q);
    QueueInvariant.PopKeepsInv(q);
    QueueInvariant.PopFindsNothingWhenEmpty(q);
    hide Encodable, QueueEncodable, QueueInvariant.Contents, QueueInvariant.OrderOk, QueueInvariant.QueuesOk;
  }

  // One transfer to the driver, which is pumped once if it took it.
  function Dispatch(d: DriverState, f: Frame): (r: (DriverState, seq<Frame>))
    requires Encodable(f)
    ensures AllEncodable(r.1)
  {
    var (ok, d') := PushRx(d, Encode(f));
    if ok then (Pump(d').1, []) else (d', [StatusResponse(f, Failed)])
  }

  ghost function Flush(q: Queue.State, d: DriverState): (r: (Queue.State, DriverState, seq<Frame>))
    requires Flushable(q)
    ensures AllEncodable(r.2)
    decreases q.len
  {
    PopKeepsFlushable(q);
    var (t, q') := Queue.PopNext(q);
    if t.None? then (q', d, [])
    else
      var (d', failed) := Dispatch(d, t.value.frame);
      var (last, d'', later) := Flush(q', d');
      (last, d'', failed + later)
  }

  // From idle queues, a request goes straight through.
  lemma FlushOne(q: Queue.State, f: Frame, d: DriverState)
    requires Idle(q) && f.frameType.Request? && Encodable(f)
    ensures Flushable(Queue.Enqueue(q, f).1)
    ensures var (q', d', failed) := Flush(Queue.Enqueue(q, f).1, d);
            Idle(q') && (d', failed) == Dispatch(d, f)
  {
    IdleIsFlushable(q);
    EnqueueKeepsFlushable(q, f);
    var q1 := Queue.Enqueue(q, f).1;
    var key := Queue.KeyOf(f);
    assert q1.activeOrder == [key] && |q1.queues[key]| == 1 && q1.queues[key][0].frame == f;
    QueueInvariant.PopServesFront(q1);
    var q2 := Queue.PopNext(q1).1;
    assert q2.queues == map[] && q2.activeOrder == [];
    PopKeepsFlushable(q1);
    assert Flush(q2, Dispatch(d, f).0) == (q2, Dispatch(d, f).0, []);
    assert Dispatch(d, f).1 + [] == Dispatch(d, f).1;
  }

  // ---- frames from the network

  ghost function ReceiveAttach(s: DaemonState, cfg: Config, f: Frame, driverOk: bool): (r: (DaemonState, seq<Frame>))
    requires ConfigOk(cfg)
    ensures AllEncodable(r.1)
  {
    var (status, s') := AttachSession(s, cfg, driverOk);
    (if status == 0 then s'.(descriptors := Some(cfg.descriptors)) else s', [AttachReply(cfg, f, status)])
  }

  // Whatever the outcome, the loop is left.
  function ReceiveDetach(s: DaemonState, f: Frame, driverOk: bool): (r: (DaemonState, seq<Frame>))
    ensures AllEncodable(r.1)
  {
    var (status, s') := DetachSession(s, driverOk);
    (s'.(loop := Broken), [LifecycleResponse(f, DetachResponse, status, [])])
  }

  function ReceiveCancel(s: DaemonState, f: Frame): (r: (DaemonState, seq<Frame>))
    ensures AllEncodable(r.1)
  {
    if !s.phase.Attached? then (s, [TransferControlResponse(f, CancelResponse, Failed)])
    else
      var (t, q) := Queue.Cancel(s.queues, f.requestId);
      (s.(queues := q), [TransferControlResponse(f, CancelResponse, if t.Some? then Cancelled else Failed)])
  }

  function ResetResponses(dropped: seq<Queue.QueuedTransfer>): (rs: seq<Frame>)
    ensures |rs| == |dropped| && AllEncodable(rs)
  {
    if dropped == [] then [] else [StatusResponse(dropped[0].frame, Reset)] + ResetResponses(dropped[1..])
  }

  function ReceiveReset(s: DaemonState, f: Frame): (r: (DaemonState, seq<Frame>))
    ensures AllEncodable(r.1)
  {
    if !s.phase.Attached? then (s, [TransferControlResponse(f, ResetResponse, Failed)])
    else
      var (dropped, q) := Queue.ResetEndpoint(s.queues, Queue.KeyOf(f));
      (s.(queues := q), [TransferControlResponse(f, ResetResponse, Success)] + ResetResponses(dropped))
  }

  lemma ControlAnswersEncodable(f: Frame, descriptors: Option<DescriptorSet>, dev: DeviceState, keycodes: seq<u8>)
    ensures var o := HandleControl(f, descriptors, dev, keycodes); AllEncodable([o.response] + o.events)
  {
    ResponseMatchesRequest(f, descriptors, dev, keycodes);
  }

  ghost function ReceiveRequest(s: DaemonState, cfg: Config, f: Frame): (r: (DaemonState, seq<Frame>))
    requires Flushable(s.queues) && f.frameType.Request? && Encodable(f)
    ensures AllEncodable(r.1)
  {
    if !s.phase.Attached? then (s, [StatusResponse(f, Failed)])
    else if f.transferType.Control? && f.endpoint == 0 then
      ControlAnswersEncodable(f, s.descriptors, s.device, cfg.keycodes);
      var o := HandleControl(f, s.descriptors, s.device, cfg.keycodes);
      (s.(device := o.device), [o.response] + o.events)
    else
      var outcome := FirstRule(cfg.outcomes, f.requestId);
      if outcome.Some? then (s, [InjectedResponse(f, outcome.value)])
      else
        EnqueueKeepsFlushable(s.queues, f);
        var (q, d, failed) := Flush(Queue.Enqueue(s.queues, f).1, s.driver);
        (s.(queues := q, driver := d), failed)
  }

  ghost function ReceiveFrame(s: DaemonState, cfg: Config, f: Frame, driverOk: bool): (r: (DaemonState, seq<Frame>))
    requires ConfigOk(cfg) && Flushable(s.queues) && Encodable(f)
    ensures AllEncodable(r.1)
    ensures r.0.hand == s.hand
  {
    match f.frameType
    case AttachRequest => ReceiveAttach(s, cfg, f, driverOk)
    case DetachRequest => ReceiveDetach(s, f, driverOk)
    case CancelRequest => ReceiveCancel(s, f)
    case ResetRequest => ReceiveReset(s, f)
    case Request => ReceiveRequest(s, cfg, f)
    case _ => (s, [])
  }

  ghost function Receive(s: DaemonState, cfg: Config, bytes: seq<u8>, driverOk: bool): (r: (DaemonState, seq<Frame>))
    requires ConfigOk(cfg) && Flushable(s.queues)
    ensures AllEncodable(r.1)
    ensures r.0.hand == s.hand
  {
    match Decode(bytes)
    case Err(_) => (s, [])
    case Ok(f) =>
      DecodedReencodes(bytes);
      ReceiveFrame(s, cfg, f, driverOk)
  }

  // ---- the TX worker, and the end of the session

  function PollTx(s: DaemonState): DaemonState {
    var (bytes, d) := PopTx(s.driver);
    match bytes
    case None => s
    case Some(b) =>
      match Decode(b)
      case Err(_) => s.(driver := d)
      case Ok(f) => s.(driver := d, hand := Some(OutboundNetworkFrame(f)))
  }

  // The worker is told to stop, and waited for.
  function CleanUp(s: DaemonState, driverOk: bool): DaemonState {
    DetachSession(s.(phase := Detaching), driverOk).1.(queues := Queue.State(0, map[], [], {}, 0), loop := Joining)
  }

  // ---- events

  const CHANNEL_LIMIT := 100

  datatype Event =
    | Received(bytes: seq<u8>, driverOk: bool)
    | PeerGone // closed, or a failed read or write
    | Poll
    | Forward
    | Deliver
    | EndSession(driverDetached: bool)
    | WorkerJoined

  predicate HandOk(s: DaemonState) {
    s.hand.Some? ==> Encodable(s.hand.value)
  }

  // An event that cannot happen in a state leaves it alone.
  ghost function Step(s: DaemonState, cfg: Config, e: Event): (r: (DaemonState, seq<seq<u8>>))
    requires ConfigOk(cfg) && Idle(s.queues) && HandOk(s)
    ensures HandOk(r.0)
  {
    match e
    case Received(bytes, driverOk) =>
      if !s.loop.Open? then (s, [])
      else
        IdleIsFlushable(s.queues);
        var (s', out) := Receive(s, cfg, bytes, driverOk);
        (s', EncodeAll(out))
    case PeerGone => (if s.loop.Open? then s.(loop := Broken) else s, [])
    case Poll =>
      PolledIsEncodable(s);
      (if s.loop.Done? || s.hand.Some? then s else PollTx(s), [])
    case Forward =>
      (if s.loop.Done? || s.hand.None? || |s.channel| >= CHANNEL_LIMIT then s
       else s.(hand := None, channel := s.channel + [Encode(s.hand.value)]), [])
    case Deliver =>
      if !s.loop.Open? || s.channel == [] then (s, []) else (s.(channel := s.channel[1..]), [s.channel[0]])
    case EndSession(driverDetached) => (if s.loop.Broken? then CleanUp(s, driverDetached) else s, [])
    case WorkerJoined =>
      (if s.loop.Joining? && s.hand.None? then s.(phase := Closed, loop := Done) else s, [])
  }

  lemma PolledIsEncodable(s: DaemonState)
    requires HandOk(s)
    ensures HandOk(PollTx(s))
  {
    if PopTx(s.driver).0.Some? && Decode(PopTx(s.driver).0.value).Ok? {
      DecodedReencodes(PopTx(s.driver).0.value);
    }
  }
}

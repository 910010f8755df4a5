// What every run of the daemon's WHY session keeps.

module DaemonRuns {
  import opened Bytes
  import opened ControlEndpoint
  import opened DaemonSpec
  import opened Descriptors
  import opened Driver
  import opened FrameCodec
  import opened Wrappers
  import Queue = EndpointQueue
  import QueueInvariant = EndpointQueueInvariant

  // ---- the endpoint queues are idle between events

  lemma NothingToCancel(q: Queue.State, id: u64)
    requires Idle(q)
    ensures Queue.Cancel(q, id) == (None, q)
  {
    QueueInvariant.CancelFinds(q, id);
    QueueInvariant.CancelContents(q, id);
  }

  // With idle queues a request leaves idle queues, and touches only the device and the driver.
  lemma RequestOnIdle(s: DaemonState, cfg: Config, f: Frame)
    requires Idle(s.queues) && f.frameType.Request? && Encodable(f)
    ensures Flushable(s.queues)
    ensures var s' := ReceiveRequest(s, cfg, f).0;
            && Idle(s'.queues)
            && s' == s.(device := s'.device, queues := s'.queues, driver := s'.driver)
            && (s'.device == s.device || s'.device == HandleControl(f, s.descriptors, s.device, cfg.keycodes).device)
  {
    hide Flush, Flushable, HandleControl, Encode, Encodable, FirstRule;
    IdleIsFlushable(s.queues);
    FlushOne(s.queues, f, s.driver);
    hide Dispatch;
  }

  lemma CancelOnIdle(s: DaemonState, f: Frame)
    requires Idle(s.queues)
    ensures ReceiveCancel(s, f) == (s, [TransferControlResponse(f, CancelResponse, Failed)])
  {
    NothingToCancel(s.queues, f.requestId);
  }

  lemma ResetOnIdle(s: DaemonState, f: Frame)
    requires Idle(s.queues)
    ensures ReceiveReset(s, f)
         == (s, [TransferControlResponse(f, ResetResponse, if s.phase.Attached? then Success else Failed)])
  {
    var reply := TransferControlResponse(f, ResetResponse, Success);
    assert [reply] + ResetResponses([]) == [reply];
  }

  lemma FrameLeavesIdle(s: DaemonState, cfg: Config, f: Frame, driverOk: bool)
    requires ConfigOk(cfg) && Idle(s.queues) && Encodable(f)
    ensures Flushable(s.queues) && Idle(ReceiveFrame(s, cfg, f, driverOk).0.queues)
  {
    IdleIsFlushable(s.queues);
    match f.frameType {
      case Request => RequestOnIdle(s, cfg, f);
      case CancelRequest => CancelOnIdle(s, f);
      case ResetRequest => ResetOnIdle(s, f);
      case _ =>
    }
  }

  lemma StepLeavesIdle(s: DaemonState, cfg: Config, e: Event)
    requires ConfigOk(cfg) && Idle(s.queues) && HandOk(s)
    ensures Idle(Step(s, cfg, e).0.queues)
  {
    if e.Received? && Decode(e.bytes).Ok? {
      DecodedReencodes(e.bytes);
      FrameLeavesIdle(s, cfg, Decode(e.bytes).value, e.driverOk);
    }
  }

  predicate Fresh(s: DaemonState) {
    && s.phase.Connected? && !s.attachedByControlPlane && s.attaches == s.detaches == 0 && s.loop.Open?
    && s.descriptors.None? && s.device == DeviceState(0, 0)
    && Idle(s.queues) && s.hand.None? && s.channel == []
  }

  ghost function Run(s: DaemonState, cfg: Config, es: seq<Event>): (r: (DaemonState, seq<seq<u8>>))
    requires ConfigOk(cfg) && Idle(s.queues) && HandOk(s)
    ensures Idle(r.0.queues) && HandOk(r.0)
    decreases |es|
  {
    if es == [] then (s, [])
    else
      StepLeavesIdle(s, cfg, es[0]);
      var (s', out) := Step(s, cfg, es[0]);
      var (last, later) := Run(s', cfg, es[1..]);
      (last, out + later)
  }

  // Whatever happened before, cancelling finds nothing, resetting drops nothing, and the cleanup
  // that ends the session drops no transfer.
  lemma QueuesStayIdle(s: DaemonState, cfg: Config, es: seq<Event>, id: u64, key: Queue.EndpointKey)
    requires ConfigOk(cfg) && Fresh(s)
    ensures var s' := Run(s, cfg, es).0;
            && s'.queues.len == 0
            && Queue.Cancel(s'.queues, id).0 == None
            && Queue.ResetEndpoint(s'.queues, key).0 == []
            && Queue.PopNext(s'.queues).0 == None
  {
    NothingToCancel(Run(s, cfg, es).0.queues, id);
  }

  // ---- driver attach and detach balance

  predicate Balanced(s: DaemonState) {
    && s.attaches == s.detaches + (if s.attachedByControlPlane then 1 else 0)
    && s.attaches <= 1
    && (s.phase.Connected? ==> s.attaches == 0)
    && (s.loop.Open? ==> s.phase.Connected? || s.phase.Attached?)
  }

  lemma FrameKeepsBalance(s: DaemonState, cfg: Config, f: Frame, driverOk: bool)
    requires ConfigOk(cfg) && Idle(s.queues) && Encodable(f) && Balanced(s) && s.loop.Open?
    ensures Flushable(s.queues) && Balanced(ReceiveFrame(s, cfg, f, driverOk).0)
  {
    IdleIsFlushable(s.queues);
    match f.frameType {
      case Request => RequestOnIdle(s, cfg, f);
      case CancelRequest => CancelOnIdle(s, f);
      case ResetRequest => ResetOnIdle(s, f);
      case _ =>
    }
  }

  lemma StepKeepsBalance(s: DaemonState, cfg: Config, e: Event)
    requires ConfigOk(cfg) && Idle(s.queues) && HandOk(s) && Balanced(s)
    ensures Balanced(Step(s, cfg, e).0)
    ensures e == EndSession(true) && s.loop.Broken? ==> !Step(s, cfg, e).0.attachedByControlPlane
    ensures e == WorkerJoined && Step(s, cfg, e).0.loop.Done? && !s.loop.Done? ==> Step(s, cfg, e).0.phase.Closed?
  {
    if e.Received? && s.loop.Open? && Decode(e.bytes).Ok? {
      DecodedReencodes(e.bytes);
      FrameKeepsBalance(s, cfg, Decode(e.bytes).value, e.driverOk);
    }
  }

  // Successful attaches minus successful detaches is the flag, at most one attach ever succeeds,
  // and a session whose last detach the driver accepts leaves nothing attached.
  lemma {:induction false} AttachesBalance(s: DaemonState, cfg: Config, es: seq<Event>)
    requires ConfigOk(cfg) && Idle(s.queues) && HandOk(s) && Balanced(s)
    ensures Balanced(Run(s, cfg, es).0)
    decreases |es|
  {
    if es != [] {
      StepKeepsBalance(s, cfg, es[0]);
      StepLeavesIdle(s, cfg, es[0]);
      AttachesBalance(Step(s, cfg, es[0]).0, cfg, es[1..]);
    }
  }

  // ---- the end of the session

  // The worker, waiting to be joined, is stuck for good with a frame in hand when the channel is
  // full: no one empties the channel any more.
  predicate Stuck(s: DaemonState) {
    s.loop.Joining? && s.hand.Some? && |s.channel| >= CHANNEL_LIMIT
  }

  lemma {:induction false} StuckForGood(s: DaemonState, cfg: Config, es: seq<Event>)
    requires ConfigOk(cfg) && Idle(s.queues) && HandOk(s) && Stuck(s)
    ensures Stuck(Run(s, cfg, es).0)
    decreases |es|
  {
    if es != [] {
      StepLeavesIdle(s, cfg, es[0]);
      StuckForGood(Step(s, cfg, es[0]).0, cfg, es[1..]);
    }
  }

  // Once cleaned up, the session can come to its end exactly when the worker is not stuck so.
  lemma CanFinishExactly(s: DaemonState, cfg: Config)
    requires ConfigOk(cfg) && Idle(s.queues) && HandOk(s) && s.loop.Joining?
    ensures !Stuck(s) <==> exists es :: Run(s, cfg, es).0.loop.Done?
  {
    hide Receive, PollTx;
    if Stuck(s) {
      forall es
        ensures !Run(s, cfg, es).0.loop.Done?
      {
        StuckForGood(s, cfg, es);
      }
    } else {
      var s1 := Step(s, cfg, Forward).0;
      var s2 := Step(s1, cfg, WorkerJoined).0;
      assert s2.loop.Done?;
      RunTwo(s, cfg, Forward, WorkerJoined);
    }
  }

  lemma RunTwo(s: DaemonState, cfg: Config, first: Event, second: Event)
    requires ConfigOk(cfg) && Idle(s.queues) && HandOk(s)
    ensures Idle(Step(s, cfg, first).0.queues)
    ensures Run(s, cfg, [first, second]).0 == Step(Step(s, cfg, first).0, cfg, second).0
  {
    StepLeavesIdle(s, cfg, first);
    var s1 := Step(s, cfg, first).0;
    StepLeavesIdle(s1, cfg, second);
    hide Step;
    assert [first, second][1..] == [second];
    assert [second][1..] == [];
    assert Run(s1, cfg, [second]).0 == Step(s1, cfg, second).0;
  }

  // Once the loop is left, nothing is sent any more, whatever arrives.
  lemma {:induction false} SilentOnceLeft(s: DaemonState, cfg: Config, es: seq<Event>)
    requires ConfigOk(cfg) && Idle(s.queues) && HandOk(s) && !s.loop.Open?
    ensures var (s', out) := Run(s, cfg, es); out == [] && !s'.loop.Open?
    decreases |es|
  {
    hide Receive, Decode;
    if es != [] {
      StepLeavesIdle(s, cfg, es[0]);
      SilentOnceLeft(Step(s, cfg, es[0]).0, cfg, es[1..]);
    }
  }

  // When the peer is gone the session cleans up: it can end at once, closed and with nothing
  // attached if the driver lets go, unless the worker holds a frame before a full channel.
  lemma PeerGoneEndsSession(s: DaemonState, cfg: Config, driverOk: bool)
    requires ConfigOk(cfg) && Idle(s.queues) && HandOk(s) && s.loop.Open?
    ensures var (s', out) := Run(s, cfg, [PeerGone, EndSession(driverOk), Forward, WorkerJoined]);
            && out == []
            && (s'.loop.Done? <==> s.hand.None? || |s.channel| < CHANNEL_LIMIT)
            && (s'.loop.Done? ==> s'.phase.Closed?)
            && (s'.attachedByControlPlane <==> s.attachedByControlPlane && !driverOk)
  {
    hide Receive, PollTx, Encode, EncodeAll;
    var es := [PeerGone, EndSession(driverOk), Forward, WorkerJoined];
    assert es[1..] == [EndSession(driverOk), Forward, WorkerJoined];
    var (s1, out1) := Step(s, cfg, PeerGone);
    assert s1.loop.Broken? && out1 == [];
    var (s2, out2) := Step(s1, cfg, EndSession(driverOk));
    StepLeavesIdle(s, cfg, PeerGone);
    StepLeavesIdle(s1, cfg, EndSession(driverOk));
    RunTwo(s2, cfg, Forward, WorkerJoined);
    SilentOnceLeft(s1, cfg, es[1..]);
    assert es[1..][1..] == [Forward, WorkerJoined];
    assert Run(s, cfg, es).0 == Run(s1, cfg, es[1..]).0 == Run(s2, cfg, [Forward, WorkerJoined]).0;
  }

  // ---- address and configuration

  predicate AddressOk(s: DaemonState, cfg: Config) {
    DeviceOk(s.device, s.descriptors) && (s.descriptors.Some? ==> s.descriptors.value == cfg.descriptors)
  }

  lemma FrameKeepsAddress(s: DaemonState, cfg: Config, f: Frame, driverOk: bool)
    requires ConfigOk(cfg) && Idle(s.queues) && Encodable(f) && AddressOk(s, cfg)
    ensures Flushable(s.queues) && AddressOk(ReceiveFrame(s, cfg, f, driverOk).0, cfg)
  {
    IdleIsFlushable(s.queues);
    match f.frameType {
      case Request =>
        RequestOnIdle(s, cfg, f);
        HandleControlKeepsDevice(f, s.descriptors, s.device, cfg.keycodes);
      case CancelRequest => CancelOnIdle(s, f);
      case ResetRequest => ResetOnIdle(s, f);
      case AttachRequest =>
        if s.descriptors.None? {
          SupportedAfterAttach(s.device, cfg.descriptors);
        }
      case _ =>
    }
  }

  lemma StepKeepsAddress(s: DaemonState, cfg: Config, e: Event)
    requires ConfigOk(cfg) && Idle(s.queues) && HandOk(s) && AddressOk(s, cfg)
    ensures AddressOk(Step(s, cfg, e).0, cfg)
  {
    if e.Received? && Decode(e.bytes).Ok? {
      DecodedReencodes(e.bytes);
      FrameKeepsAddress(s, cfg, Decode(e.bytes).value, e.driverOk);
    }
  }

  // The device's address never passes 127 and its configuration is always one it has, or zero.
  lemma {:induction false} AddressStaysOk(s: DaemonState, cfg: Config, es: seq<Event>)
    requires ConfigOk(cfg) && Idle(s.queues) && HandOk(s) && AddressOk(s, cfg)
    ensures AddressOk(Run(s, cfg, es).0, cfg)
    decreases |es|
  {
    if es != [] {
      StepKeepsAddress(s, cfg, es[0]);
      StepLeavesIdle(s, cfg, es[0]);
      AddressStaysOk(Step(s, cfg, es[0]).0, cfg, es[1..]);
    }
  }
}

// No request is lost without trace, or answered twice.

module DaemonConservation {
  import opened Bytes
  import opened ControlEndpoint
  import opened DaemonRuns
  import opened DaemonSpec
  import opened Descriptors
  import opened Driver
  import opened FrameCodec
  import opened RingSpec
  import opened Wrappers

  // ---- counting the frames of a type with a request id

  function IsFrame(f: Frame, t: FrameType, id: u64): nat {
    if f.frameType == t && f.requestId == id then 1 else 0
  }

  function IsBytes(b: seq<u8>, t: FrameType, id: u64): nat {
    match Decode(b)
    case Ok(f) => IsFrame(f, t, id)
    case Err(_) => 0
  }

  function Count(bs: seq<seq<u8>>, t: FrameType, id: u64): nat {
    if bs == [] then 0 else IsBytes(bs[0], t, id) + Count(bs[1..], t, id)
  }

  function CountFrames(fs: seq<Frame>, t: FrameType, id: u64): nat {
    if fs == [] then 0 else IsFrame(fs[0], t, id) + CountFrames(fs[1..], t, id)
  }

  lemma {:induction false} CountConcat(a: seq<seq<u8>>, b: seq<seq<u8>>, t: FrameType, id: u64)
    ensures Count(a + b, t, id) == Count(a, t, id) + Count(b, t, id)
    decreases |a|
  {
    if a == [] {
      assert a + b == b;
    } else {
      CountConcat(a[1..], b, t, id);
      assert (a + b)[1..] == a[1..] + b;
    }
  }

  lemma CountSnoc(bs: seq<seq<u8>>, b: seq<u8>, t: FrameType, id: u64)
    ensures Count([b], t, id) == IsBytes(b, t, id)
    ensures Count(bs + [b], t, id) == Count(bs, t, id) + IsBytes(b, t, id)
  {
    CountConcat(bs, [b], t, id);
    assert Count([b][1..], t, id) == 0;
  }

  lemma EncodedIs(f: Frame, t: FrameType, id: u64)
    requires Encodable(f)
    ensures IsBytes(Encode(f), t, id) == IsFrame(f, t, id)
  {
    RoundTrip(f);
  }

  lemma {:induction false} CountEncoded(fs: seq<Frame>, t: FrameType, id: u64)
    requires AllEncodable(fs)
    ensures Count(EncodeAll(fs), t, id) == CountFrames(fs, t, id)
    decreases |fs|
  {
    if fs != [] {
      EncodedIs(fs[0], t, id);
      CountEncoded(fs[1..], t, id);
      assert EncodeAll(fs)[1..] == EncodeAll(fs[1..]);
    }
  }

  lemma CountOneFrame(f: Frame, t: FrameType, id: u64)
    ensures CountFrames([f], t, id) == IsFrame(f, t, id)
  {
    assert CountFrames([f][1..], t, id) == 0;
  }

  lemma {:induction false} NoSuchFrames(fs: seq<Frame>, t: FrameType, id: u64)
    requires forall i :: 0 <= i < |fs| ==> fs[i].frameType != t
    ensures CountFrames(fs, t, id) == 0
  {
    if fs != [] {
      NoSuchFrames(fs[1..], t, id);
    }
  }

  // ---- where a request can be

  function InDriver(d: DriverState, id: u64): nat {
    Count(d.rx, Request, id) + Count(d.tx, Request, id) + Count(d.lost, Request, id)
  }

  function WithWorker(hand: Option<Frame>, channel: seq<seq<u8>>, id: u64): nat {
    (if hand.Some? then IsFrame(hand.value, Response, id) else 0) + Count(channel, Response, id)
  }

  function InFlight(s: DaemonState, id: u64): nat {
    InDriver(s.driver, id) + WithWorker(s.hand, s.channel, id)
  }

  predicate AllOf(bs: seq<seq<u8>>, t: FrameType) {
    forall i :: 0 <= i < |bs| ==> Decode(bs[i]).Ok? && Decode(bs[i]).value.frameType == t
  }

  predicate DriverFormed(d: DriverState) {
    AllOf(d.rx, Request) && AllOf(d.tx, Request) && AllOf(d.lost, Request)
  }

  predicate WorkerFormed(hand: Option<Frame>, channel: seq<seq<u8>>) {
    && (hand.Some? ==> Encodable(hand.value) && hand.value.frameType == Response)
    && AllOf(channel, Response)
  }

  // Only requests in the rings, only responses on their way out.
  predicate WellFormed(s: DaemonState) {
    DriverFormed(s.driver) && WorkerFormed(s.hand, s.channel)
  }

  // ---- the driver

  lemma PushConserves(d: DriverState, b: Payload, id: u64)
    requires PushRx(d, b).0
    ensures InDriver(PushRx(d, b).1, id) == InDriver(d, id) + IsBytes(b, Request, id)
  {
    CountSnoc(d.rx, b, Request, id);
  }

  lemma PumpConserves(d: DriverState, id: u64)
    ensures InDriver(Pump(d).1, id) == InDriver(d, id)
  {
    if d.rx != [] {
      CountSnoc(d.tx, d.rx[0], Request, id);
      CountSnoc(d.lost, d.rx[0], Request, id);
    }
  }

  lemma DispatchConserves(d: DriverState, f: Frame, id: u64)
    requires f.frameType.Request? && Encodable(f)
    ensures var (d', failed) := Dispatch(d, f);
            InDriver(d, id) + IsFrame(f, Request, id) == InDriver(d', id) + CountFrames(failed, Response, id)
  {
    var b := Encode(f);
    EncodedIs(f, Request, id);
    var (ok, d') := PushRx(d, b);
    if ok {
      PushConserves(d, b, id);
      PumpConserves(d', id);
    } else {
      CountOneFrame(StatusResponse(f, Failed), Response, id);
    }
  }

  lemma AllOfSnoc(bs: seq<seq<u8>>, b: seq<u8>, t: FrameType)
    requires AllOf(bs, t) && Decode(b).Ok? && Decode(b).value.frameType == t
    ensures AllOf(bs + [b], t)
  {
  }

  lemma DispatchKeepsForm(d: DriverState, f: Frame)
    requires f.frameType.Request? && Encodable(f) && DriverFormed(d)
    ensures DriverFormed(Dispatch(d, f).0)
  {
    RoundTrip(f);
    AllOfSnoc(d.rx, Encode(f), Request);
    var (ok, d1) := PushRx(d, Encode(f));
    if ok && d1.rx != [] {
      AllOfSnoc(d.tx, d1.rx[0], Request);
      AllOfSnoc(d.lost, d1.rx[0], Request);
    }
  }

  // ---- one event

  // The request, if any, that an event brings into the session.
  function Accepted(s: DaemonState, e: Event, id: u64): nat {
    if e.Received? && s.loop.Open? then IsBytes(e.bytes, Request, id) else 0
  }

  lemma ControlConserves(f: Frame, descriptors: Option<DescriptorSet>, dev: DeviceState, keycodes: seq<u8>, id: u64)
    requires f.frameType.Request?
    ensures var o := HandleControl(f, descriptors, dev, keycodes);
            CountFrames([o.response] + o.events, Response, id) == IsFrame(f, Request, id)
  {
    var o := HandleControl(f, descriptors, dev, keycodes);
    NoSuchFrames(o.events, Response, id);
    assert ([o.response] + o.events)[1..] == o.events;
  }

  lemma RequestConserves(s: DaemonState, cfg: Config, f: Frame, id: u64)
    requires Idle(s.queues) && f.frameType.Request? && Encodable(f) && WellFormed(s)
    ensures Flushable(s.queues)
    ensures var (s', out) := ReceiveRequest(s, cfg, f);
            && WellFormed(s')
            && InFlight(s, id) + IsFrame(f, Request, id) == InFlight(s', id) + CountFrames(out, Response, id)
  {
    IdleIsFlushable(s.queues);
    FlushOne(s.queues, f, s.driver);
    if !s.phase.Attached? {
      CountOneFrame(StatusResponse(f, Failed), Response, id);
    } else if f.transferType.Control? && f.endpoint == 0 {
      ControlConserves(f, s.descriptors, s.device, cfg.keycodes, id);
    } else if FirstRule(cfg.outcomes, f.requestId).Some? {
      CountOneFrame(InjectedResponse(f, FirstRule(cfg.outcomes, f.requestId).value), Response, id);
    } else {
      DispatchConserves(s.driver, f, id);
      DispatchKeepsForm(s.driver, f);
    }
  }

  lemma AttachConserves(s: DaemonState, cfg: Config, f: Frame, driverOk: bool, id: u64)
    requires ConfigOk(cfg) && WellFormed(s)
    ensures var (s', out) := ReceiveAttach(s, cfg, f, driverOk);
            WellFormed(s') && InFlight(s', id) == InFlight(s, id) && CountFrames(out, Response, id) == 0
  {
    CountOneFrame(ReceiveAttach(s, cfg, f, driverOk).1[0], Response, id);
  }

  lemma DetachConserves(s: DaemonState, f: Frame, driverOk: bool, id: u64)
    requires WellFormed(s)
    ensures var (s', out) := ReceiveDetach(s, f, driverOk);
            WellFormed(s') && InFlight(s', id) == InFlight(s, id) && CountFrames(out, Response, id) == 0
  {
    CountOneFrame(ReceiveDetach(s, f, driverOk).1[0], Response, id);
  }

  lemma FrameConserves(s: DaemonState, cfg: Config, f: Frame, driverOk: bool, id: u64)
    requires ConfigOk(cfg) && Idle(s.queues) && WellFormed(s) && Encodable(f)
    ensures Flushable(s.queues)
    ensures var (s', out) := ReceiveFrame(s, cfg, f, driverOk);
            && WellFormed(s')
            && InFlight(s, id) + IsFrame(f, Request, id) == InFlight(s', id) + CountFrames(out, Response, id)
  {
    hide InFlight, ReceiveRequest, ReceiveAttach, ReceiveDetach, HandleControl;
    IdleIsFlushable(s.queues);
    match f.frameType {
      case Request => RequestConserves(s, cfg, f, id);
      case AttachRequest => AttachConserves(s, cfg, f, driverOk, id);
      case DetachRequest => DetachConserves(s, f, driverOk, id);
      case CancelRequest =>
        CancelOnIdle(s, f);
        CountOneFrame(ReceiveCancel(s, f).1[0], Response, id);
      case ResetRequest =>
        ResetOnIdle(s, f);
        CountOneFrame(ReceiveReset(s, f).1[0], Response, id);
      case _ =>
    }
  }

  lemma ReceivedConserves(s: DaemonState, cfg: Config, e: Event, id: u64)
    requires ConfigOk(cfg) && Idle(s.queues) && WellFormed(s) && e.Received? && s.loop.Open?
    ensures var (s', out) := Step(s, cfg, e);
            WellFormed(s') && InFlight(s, id) + Accepted(s, e, id) == InFlight(s', id) + Count(out, Response, id)
  {
    IdleIsFlushable(s.queues);
    CountEncoded(Receive(s, cfg, e.bytes, e.driverOk).1, Response, id);
    if Decode(e.bytes).Ok? {
      DecodedReencodes(e.bytes);
      FrameConserves(s, cfg, Decode(e.bytes).value, e.driverOk, id);
    }
  }

  lemma PollConserves(s: DaemonState, id: u64)
    requires WellFormed(s) && s.hand.None?
    ensures WellFormed(PollTx(s)) && InFlight(PollTx(s), id) == InFlight(s, id)
  {
    PolledIsEncodable(s);
    if s.driver.tx != [] {
      assert Decode(s.driver.tx[0]).Ok?;
    }
  }

  lemma ForwardConserves(s: DaemonState, id: u64)
    requires WellFormed(s) && s.hand.Some?
    ensures var s' := s.(hand := None, channel := s.channel + [Encode(s.hand.value)]);
            WellFormed(s') && InFlight(s', id) == InFlight(s, id)
  {
    RoundTrip(s.hand.value);
    EncodedIs(s.hand.value, Response, id);
    CountSnoc(s.channel, Encode(s.hand.value), Response, id);
    AllOfSnoc(s.channel, Encode(s.hand.value), Response);
  }

  lemma DeliverConserves(s: DaemonState, id: u64)
    requires WellFormed(s) && s.channel != []
    ensures var s' := s.(channel := s.channel[1..]);
            WellFormed(s') && InFlight(s, id) == InFlight(s', id) + Count([s.channel[0]], Response, id)
  {
    CountSnoc([], s.channel[0], Response, id);
  }

  // For every request id: what was inside and what came in is what is still inside and what was
  // answered.
  lemma StepConserves(s: DaemonState, cfg: Config, e: Event, id: u64)
    requires ConfigOk(cfg) && Idle(s.queues) && WellFormed(s)
    ensures var (s', out) := Step(s, cfg, e);
            WellFormed(s') && InFlight(s, id) + Accepted(s, e, id) == InFlight(s', id) + Count(out, Response, id)
  {
    hide Receive, PollTx, AllEncodable, IsBytes;
    match e {
      case Received(_, _) => if s.loop.Open? { ReceivedConserves(s, cfg, e, id); }
      case Poll => if s.hand.None? { PollConserves(s, id); }
      case Forward => if s.hand.Some? { ForwardConserves(s, id); }
      case Deliver => if s.channel != [] { DeliverConserves(s, id); }
      case PeerGone =>
      case EndSession(_) =>
      case WorkerJoined =>
    }
  }

  // ---- whole runs

  ghost function AcceptedBy(s: DaemonState, cfg: Config, es: seq<Event>, id: u64): nat
    requires ConfigOk(cfg) && Idle(s.queues) && HandOk(s)
    decreases |es|
  {
    if es == [] then 0
    else
      StepLeavesIdle(s, cfg, es[0]);
      Accepted(s, es[0], id) + AcceptedBy(Step(s, cfg, es[0]).0, cfg, es[1..], id)
  }

  // Requests accepted = responses sent + copies in RX, TX, with the TX worker and in its channel
  // + frames the pump lost on a full TX ring.
  lemma {:induction false} RunConserves(s: DaemonState, cfg: Config, es: seq<Event>, id: u64)
    requires ConfigOk(cfg) && Idle(s.queues) && WellFormed(s)
    ensures var (s', out) := Run(s, cfg, es);
            && WellFormed(s')
            && InFlight(s, id) + AcceptedBy(s, cfg, es, id) == InFlight(s', id) + Count(out, Response, id)
    decreases |es|
  {
    if es != [] {
      StepConserves(s, cfg, es[0], id);
      StepLeavesIdle(s, cfg, es[0]);
      var (s', out) := Step(s, cfg, es[0]);
      RunConserves(s', cfg, es[1..], id);
      CountConcat(out, Run(s', cfg, es[1..]).1, Response, id);
    }
  }

  // ---- with frames the pump can carry

  predicate SmallRequest(e: Event) {
    e.Received? && Decode(e.bytes).Ok? && Decode(e.bytes).value.frameType.Request? ==> |e.bytes| <= MAX_DRIVER_FRAME
  }

  // The push succeeds and the pump takes the frame out of RX again exactly when the encoded frame
  // is no larger than the pump's buffer.
  lemma ClearsRxExactly(d: DriverState, f: Frame)
    requires d.rx == [] && Encodable(f)
    ensures PushRx(d, Encode(f)).0 && Dispatch(d, f).0.rx == [] <==> |Encode(f)| <= MAX_DRIVER_FRAME
    ensures |Encode(f)| <= MAX_DRIVER_FRAME ==> Dispatch(d, f).1 == []
  {
    if |Encode(f)| <= MAX_DRIVER_FRAME {
      PushThenPump(d, Encode(f));
    }
  }

  predicate DispatchedFrame(s: DaemonState, cfg: Config, f: Frame) {
    && f.frameType.Request? && s.phase.Attached? && !(f.transferType.Control? && f.endpoint == 0)
    && FirstRule(cfg.outcomes, f.requestId).None?
  }

  // What a request does to the driver, and what is sent for one that is dispatched.
  lemma RequestToDriver(s: DaemonState, cfg: Config, f: Frame)
    requires Idle(s.queues) && f.frameType.Request? && Encodable(f)
    ensures Flushable(s.queues)
    ensures var (s', out) := ReceiveRequest(s, cfg, f);
            if DispatchedFrame(s, cfg, f) then (s'.driver, out) == Dispatch(s.driver, f) else s'.driver == s.driver
  {
    IdleIsFlushable(s.queues);
    FlushOne(s.queues, f, s.driver);
    hide Flush, Flushable, HandleControl, Encode, Dispatch;
  }

  lemma SmallRequestClearsRx(s: DaemonState, cfg: Config, f: Frame)
    requires Idle(s.queues) && f.frameType.Request? && s.driver.rx == []
    requires Encodable(f) && |Encode(f)| <= MAX_DRIVER_FRAME
    ensures Flushable(s.queues) && ReceiveRequest(s, cfg, f).0.driver.rx == []
    ensures DispatchedFrame(s, cfg, f) ==>
              PushRx(s.driver, Encode(f)).0 && ReceiveRequest(s, cfg, f).1 == []
  {
    RequestToDriver(s, cfg, f);
    ClearsRxExactly(s.driver, f);
    hide ReceiveRequest, Flushable, Encode, Dispatch;
  }

  lemma SmallFrameClearsRx(s: DaemonState, cfg: Config, f: Frame, driverOk: bool)
    requires ConfigOk(cfg) && Idle(s.queues) && Encodable(f) && s.driver.rx == []
    requires f.frameType.Request? ==> |Encode(f)| <= MAX_DRIVER_FRAME
    ensures Flushable(s.queues) && ReceiveFrame(s, cfg, f, driverOk).0.driver.rx == []
  {
    IdleIsFlushable(s.queues);
    match f.frameType {
      case Request => SmallRequestClearsRx(s, cfg, f);
      case CancelRequest => CancelOnIdle(s, f);
      case ResetRequest => ResetOnIdle(s, f);
      case _ =>
    }
  }

  // RX is empty again after every event.
  lemma SmallFramesClearRx(s: DaemonState, cfg: Config, e: Event)
    requires ConfigOk(cfg) && Idle(s.queues) && HandOk(s) && s.driver.rx == [] && SmallRequest(e)
    ensures Step(s, cfg, e).0.driver.rx == []
  {
    if e.Received? && s.loop.Open? && Decode(e.bytes).Ok? {
      DecodedReencodes(e.bytes);
      SmallFrameClearsRx(s, cfg, Decode(e.bytes).value, e.driverOk);
    }
  }

  lemma {:induction false} RxStaysEmpty(s: DaemonState, cfg: Config, es: seq<Event>)
    requires ConfigOk(cfg) && Idle(s.queues) && HandOk(s) && s.driver.rx == []
    requires forall i :: 0 <= i < |es| ==> SmallRequest(es[i])
    ensures Run(s, cfg, es).0.driver.rx == []
    decreases |es|
  {
    if es != [] {
      SmallFramesClearRx(s, cfg, es[0]);
      StepLeavesIdle(s, cfg, es[0]);
      RxStaysEmpty(Step(s, cfg, es[0]).0, cfg, es[1..]);
    }
  }

  // ---- exactly when RX is left empty

  // A frame too large for the pump that the ring still takes.
  predicate Clogs(s: DaemonState, cfg: Config, e: Event) {
    && e.Received? && s.loop.Open? && Decode(e.bytes).Ok? && DispatchedFrame(s, cfg, Decode(e.bytes).value)
    && MAX_DRIVER_FRAME < |e.bytes| <= RING_SIZE - PREFIX_LEN
  }

  predicate Clogged(d: DriverState) {
    d.rx != [] && |d.rx[0]| > MAX_DRIVER_FRAME
  }

  lemma DispatchAndRx(d: DriverState, f: Frame)
    requires Encodable(f)
    ensures Clogged(d) ==> Clogged(Dispatch(d, f).0)
    ensures d.rx == [] ==>
              var d' := Dispatch(d, f).0;
              if MAX_DRIVER_FRAME < |Encode(f)| <= RING_SIZE - PREFIX_LEN then Clogged(d') else d'.rx == []
  {
    var (ok, d1) := PushRx(d, Encode(f));
    if d.rx == [] {
      assert Flatten(d.rx) == [];
      if |Encode(f)| <= MAX_DRIVER_FRAME {
        PushThenPump(d, Encode(f));
      }
    } else {
      assert d1.rx[0] == d.rx[0];
    }
  }

  lemma FrameToDriver(s: DaemonState, cfg: Config, f: Frame, driverOk: bool)
    requires ConfigOk(cfg) && Idle(s.queues) && Encodable(f)
    ensures Flushable(s.queues)
    ensures ReceiveFrame(s, cfg, f, driverOk).0.driver
         == if DispatchedFrame(s, cfg, f) then Dispatch(s.driver, f).0 else s.driver
  {
    IdleIsFlushable(s.queues);
    hide Dispatch, Encode, Flushable, EncodeSet, SetEncodable;
    match f.frameType {
      case Request =>
        RequestToDriver(s, cfg, f);
      case CancelRequest => CancelOnIdle(s, f);
      case ResetRequest => ResetOnIdle(s, f);
      case _ =>
    }
  }

  lemma StepAndRx(s: DaemonState, cfg: Config, e: Event)
    requires ConfigOk(cfg) && Idle(s.queues) && HandOk(s)
    ensures Clogged(s.driver) ==> Clogged(Step(s, cfg, e).0.driver)
    ensures s.driver.rx == [] ==>
              var d := Step(s, cfg, e).0.driver;
              if Clogs(s, cfg, e) then Clogged(d) else d.rx == []
  {
    if e.Received? && s.loop.Open? && Decode(e.bytes).Ok? {
      var f := Decode(e.bytes).value;
      DecodedReencodes(e.bytes);
      hide Decode, ReceiveFrame, Dispatch, EncodeAll;
      FrameToDriver(s, cfg, f, e.driverOk);
      DispatchAndRx(s.driver, f);
    }
  }

  ghost predicate NeverClogs(s: DaemonState, cfg: Config, es: seq<Event>)
    requires ConfigOk(cfg) && Idle(s.queues) && HandOk(s)
    decreases |es|
  {
    es == []
    || (StepLeavesIdle(s, cfg, es[0]);
        !Clogs(s, cfg, es[0]) && NeverClogs(Step(s, cfg, es[0]).0, cfg, es[1..]))
  }

  // Over a run from an empty RX: it is empty at the end if and only if no request dispatched on the
  // way encoded to more than 65536 bytes and yet fitted the ring. A still larger one is refused.
  lemma {:induction false} RxEmptyExactly(s: DaemonState, cfg: Config, es: seq<Event>)
    requires ConfigOk(cfg) && Idle(s.queues) && HandOk(s)
    ensures s.driver.rx == [] ==> (Run(s, cfg, es).0.driver.rx == [] <==> NeverClogs(s, cfg, es))
    ensures Clogged(s.driver) ==> Clogged(Run(s, cfg, es).0.driver)
    decreases |es|
  {
    if es != [] {
      StepAndRx(s, cfg, es[0]);
      StepLeavesIdle(s, cfg, es[0]);
      RxEmptyExactly(Step(s, cfg, es[0]).0, cfg, es[1..]);
    }
  }
}

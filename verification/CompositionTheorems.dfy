// Quiescence at detach, and the faithful echo of bulk requests.

module Quiescence {
  import opened Bytes
  import opened Composition
  import opened CompositionInvariant
  import opened DaemonConservation
  import opened FrameCodec
  import opened Wrappers
  import C = ClientSpec
  import D = DaemonSpec

  lemma NoneOfThem(bs: seq<seq<u8>>, t: FrameType)
    requires AllOf(bs, t) && forall id: u64 :: Count(bs, t, id) == 0
    ensures bs == []
  {
    if bs != [] {
      assert Count(bs, t, Decode(bs[0]).value.requestId) > 0;
    }
  }

  // ---- the issued ids as a multiset

  function IssuedIds(n: nat): (ids: multiset<u64>)
    requires n <= TWO_TO_64
  {
    if n <= C.FIRST_CONTROL_ID then multiset{} else IssuedIds(n - 1) + multiset{n - 1}
  }

  lemma {:induction false} IssuedIdsHas(n: nat, id: u64)
    requires n <= TWO_TO_64
    ensures IssuedIds(n)[id] == Issued(n, id)
    ensures |IssuedIds(n)| == if n <= C.FIRST_CONTROL_ID then 0 else n - C.FIRST_CONTROL_ID
  {
    if n > C.FIRST_CONTROL_ID {
      IssuedIdsHas(n - 1, id);
    }
  }

  lemma SizeOfPart(a: multiset<u64>, b: multiset<u64>)
    requires a <= b
    ensures |a| <= |b|
    ensures |a| == |b| ==> a == b
  {
    assert b == a + (b - a);
    assert |b| == |a| + |b - a|;
    if |a| == |b| {
      assert b - a == multiset{};
    }
  }

  // ---- when the client has sent its detach request

  ghost predicate Quiescent(s: System, n: nat) {
    && s.client.generated == n
    && s.client.local == [] && s.client.pendingBulk == map[]
    && D.Idle(s.daemon.queues)
    && s.daemon.driver.rx == [] && s.daemon.driver.tx == [] && s.daemon.driver.lost == []
    && s.daemon.hand.None? && s.daemon.channel == []
    && (forall id: u64 :: Count(s.toDaemon, Request, id) == 0 && Count(s.toClient, Response, id) == 0)
    && (forall id: u64 :: C.FIRST_DATA_ID <= id < C.FIRST_DATA_ID + n ==> s.received[id] == 1)
  }

  // As many answers were received as there are ids, and no id can be answered twice: so each was
  // answered exactly once.
  lemma AllAnswered(s: System, cfg: Configs)
    requires ConfigsOk(cfg) && Inv(s, cfg) && s.client.detachSent
    ensures cfg.client.limit.Some? && s.client.generated == cfg.client.limit.value
    ensures s.nextId == C.FIRST_DATA_ID + s.client.generated
    ensures forall id: u64 :: s.received[id] == Issued(s.nextId, id)
  {
    hide Formed, PendingOk, InFlight;
    var ids := IssuedIds(s.nextId);
    forall id: u64
      ensures s.received[id] <= ids[id] == Issued(s.nextId, id)
    {
      IssuedIdsHas(s.nextId, id);
      assert Placed(s, id) == Issued(s.nextId, id);
    }
    IssuedIdsHas(s.nextId, 0);
    SizeOfPart(s.received, ids);
  }

  lemma NothingElsewhere(s: System, cfg: Configs, id: u64)
    requires ConfigsOk(cfg) && Inv(s, cfg) && s.client.detachSent
    ensures CountFrames(s.client.local, Request, id) == 0
    ensures Count(s.toDaemon, Request, id) == 0 && Count(s.toClient, Response, id) == 0
    ensures InFlight(s.daemon, id) == 0
  {
    hide Formed, PendingOk, InFlight;
    AllAnswered(s, cfg);
    assert Placed(s, id) == Issued(s.nextId, id);
  }

  lemma DaemonEmpty(d: D.DaemonState)
    requires WellFormed(d) && forall id: u64 :: InFlight(d, id) == 0
    ensures d.driver.rx == [] && d.driver.tx == [] && d.driver.lost == [] && d.hand.None? && d.channel == []
  {
    forall id: u64
      ensures Count(d.driver.rx, Request, id) == 0 && Count(d.driver.tx, Request, id) == 0
      ensures Count(d.driver.lost, Request, id) == 0 && Count(d.channel, Response, id) == 0
    {
      assert InFlight(d, id) == 0;
    }
    NoneOfThem(d.driver.rx, Request);
    NoneOfThem(d.driver.tx, Request);
    NoneOfThem(d.driver.lost, Request);
    NoneOfThem(d.channel, Response);
    if d.hand.Some? {
      HandCounts(d);
    }
  }

  lemma HandCounts(d: D.DaemonState)
    requires WellFormed(d) && d.hand.Some?
    ensures InFlight(d, d.hand.value.requestId) > 0
  {
    assert IsFrame(d.hand.value, Response, d.hand.value.requestId) == 1;
  }

  // Every data request has been answered exactly once, nothing is left anywhere, nothing is
  // pending, and no request ever had the id of the detach request.
  lemma DetachFindsQuiet(s: System, cfg: Configs)
    requires ConfigsOk(cfg) && Inv(s, cfg) && s.client.detachSent
    ensures cfg.client.limit.Some? && Quiescent(s, cfg.client.limit.value)
    ensures Placed(s, C.DetachId(cfg.client)) == 0
  {
    AllAnswered(s, cfg);
    forall id: u64
      ensures Count(s.toDaemon, Request, id) == 0 && Count(s.toClient, Response, id) == 0 && InFlight(s.daemon, id) == 0
      ensures CountFrames(s.client.local, Request, id) == 0
    {
      NothingElsewhere(s, cfg, id);
    }
    DaemonEmpty(s.daemon);
    if s.client.local != [] {
      assert CountFrames(s.client.local, Request, s.client.local[0].requestId) > 0;
    }
    hide InFlight, WellFormed, Decode;
    forall id: u64 | C.FIRST_DATA_ID <= id < C.FIRST_DATA_ID + s.client.generated
      ensures s.received[id] == 1
    {
      assert s.received[id] == Issued(s.nextId, id);
    }
    forall id: u64
      ensures id !in s.client.pendingBulk
    {
      assert s.received[id] == Issued(s.nextId, id);
    }
    assert Placed(s, C.DetachId(cfg.client)) == Issued(s.nextId, C.DetachId(cfg.client));
  }

  // Over any run: when a detach request is next to reach the daemon, all is quiet.
  lemma DetachMeansDone(start: System, cfg: Configs, es: seq<SystemEvent>)
    requires ConfigsOk(cfg) && Initial(start)
    ensures Runnable(start)
    ensures var s := Run(start, cfg, es);
            s.toDaemon != [] && Decode(s.toDaemon[0]).Ok? && Decode(s.toDaemon[0]).value.frameType.DetachRequest? ==>
              && cfg.client.limit.Some? && 1 <= cfg.client.limit.value
              && Quiescent(s, cfg.client.limit.value)
              && Placed(s, C.DetachId(cfg.client)) == 0
  {
    InitialInv(start, cfg);
    hide Run, Decode, Initial;
    RunKeepsInv(start, cfg, es);
    var s := Run(start, cfg, es);
    if s.toDaemon != [] && Decode(s.toDaemon[0]).Ok? && Decode(s.toDaemon[0]).value.frameType.DetachRequest? {
      assert ClientSaid(s.toDaemon[0], s.client.detachSent);
      DetachFindsQuiet(s, cfg);
    }
  }

  // With a limit of zero, or none, the client never detaches, however long it runs.
  lemma NeverDetaches(start: System, cfg: Configs, es: seq<SystemEvent>)
    requires ConfigsOk(cfg) && Initial(start) && (cfg.client.limit == None || cfg.client.limit == Some(0))
    ensures Runnable(start)
    ensures var s := Run(start, cfg, es);
            && !s.client.detachSent
            && (forall i :: 0 <= i < |s.toDaemon| ==>
                              Decode(s.toDaemon[i]).Ok? && !Decode(s.toDaemon[i]).value.frameType.DetachRequest?)
  {
    InitialInv(start, cfg);
    hide Run, Decode, Initial;
    RunKeepsInv(start, cfg, es);
    var s := Run(start, cfg, es);
    forall i | 0 <= i < |s.toDaemon|
      ensures Decode(s.toDaemon[i]).Ok? && !Decode(s.toDaemon[i]).value.frameType.DetachRequest?
    {
      assert ClientSaid(s.toDaemon[i], s.client.detachSent);
    }
  }
}

// A bulk request that is neither injected nor lost comes back with its own payload.

module Echo {
  import opened BulkPayload
  import opened Bytes
  import opened Composition
  import opened CompositionInvariant
  import opened ControlEndpoint
  import opened DaemonConservation
  import opened DaemonRuns
  import opened Driver
  import opened FrameCodec
  import opened Wrappers
  import C = ClientSpec
  import D = DaemonSpec

  type Requests = map<u64, Frame>

  predicate IsControl(f: Frame) {
    f.transferType.Control? && f.endpoint == 0
  }

  // A request on its way is, to the byte, the one the client made under that id.
  predicate Known(g: Requests, b: seq<u8>) {
    Decode(b).Ok? && Decode(b).value.frameType.Request? ==>
      Decode(b).value.requestId in g && g[Decode(b).value.requestId] == Decode(b).value
  }

  predicate AllKnown(g: Requests, bs: seq<seq<u8>>) {
    forall i :: 0 <= i < |bs| ==> Known(g, bs[i])
  }

  // A response answers a request made; unless it is a failure, a control response or injected, it
  // is that request's echo.
  predicate Answers(g: Requests, rules: seq<D.OutcomeRule>, f: Frame) {
    f.frameType.Response? ==>
      && f.requestId in g
      && (|| f == D.OutboundNetworkFrame(g[f.requestId])
          || f.status != 0
          || D.FirstRule(rules, f.requestId).Some?
          || IsControl(g[f.requestId]))
  }

  predicate BytesAnswer(g: Requests, rules: seq<D.OutcomeRule>, b: seq<u8>) {
    Decode(b).Ok? ==> Answers(g, rules, Decode(b).value)
  }

  predicate AllAnswer(g: Requests, rules: seq<D.OutcomeRule>, bs: seq<seq<u8>>) {
    forall i :: 0 <= i < |bs| ==> BytesAnswer(g, rules, bs[i])
  }

  predicate DriverKnown(g: Requests, d: DriverState) {
    AllKnown(g, d.rx) && AllKnown(g, d.tx) && AllKnown(g, d.lost)
  }

  predicate DaemonEchoes(g: Requests, rules: seq<D.OutcomeRule>, d: D.DaemonState) {
    && DriverKnown(g, d.driver)
    && (d.hand.Some? ==> Answers(g, rules, d.hand.value))
    && AllAnswer(g, rules, d.channel)
  }

  predicate LocalKnown(g: Requests, fs: seq<Frame>) {
    forall i :: 0 <= i < |fs| ==> fs[i].requestId in g && g[fs[i].requestId] == fs[i] && !IsControl(fs[i])
  }

  predicate PendingKnown(g: Requests, pending: map<u64, seq<u8>>) {
    forall id :: id in pending ==>
                   && id in g && g[id].frameType.Request? && !IsControl(g[id])
                   && BulkDecode(g[id].payload) == Ok(pending[id])
  }

  ghost predicate EchoInv(s: System, cfg: Configs) {
    && (forall id :: id in s.requests ==> id < s.nextId)
    && AllKnown(s.requests, s.toDaemon)
    && DaemonEchoes(s.requests, cfg.daemon.outcomes, s.daemon)
    && AllAnswer(s.requests, cfg.daemon.outcomes, s.toClient)
    && LocalKnown(s.requests, s.client.local)
    && PendingKnown(s.requests, s.client.pendingBulk)
  }

  // ---- the daemon

  lemma DispatchEchoes(g: Requests, d: DriverState, f: Frame)
    requires f.frameType.Request? && Encodable(f) && f.requestId in g && g[f.requestId] == f && DriverKnown(g, d)
    ensures DriverKnown(g, D.Dispatch(d, f).0)
  {
    RoundTrip(f);
    hide Decode;
    assert Known(g, Encode(f));
    hide Known;
    var (ok, d') := PushRx(d, Encode(f));
    assert AllKnown(g, d'.rx);
    assert ok ==> DriverKnown(g, Pump(d').1);
  }

  lemma RequestEchoes(g: Requests, cfg: D.Config, d: D.DaemonState, f: Frame)
    requires D.Idle(d.queues) && f.frameType.Request? && Encodable(f) && f.requestId in g && g[f.requestId] == f
    requires DaemonEchoes(g, cfg.outcomes, d)
    ensures D.Flushable(d.queues)
    ensures var (d', out) := D.ReceiveRequest(d, cfg, f);
            && DaemonEchoes(g, cfg.outcomes, d')
            && forall i :: 0 <= i < |out| ==> Answers(g, cfg.outcomes, out[i])
  {
    D.IdleIsFlushable(d.queues);
    D.FlushOne(d.queues, f, d.driver);
    DispatchEchoes(g, d.driver, f);
    hide D.Flush, D.Flushable, AllKnown, AllAnswer, D.OutboundNetworkFrame, After;
  }

  lemma OtherEchoes(g: Requests, cfg: D.Config, d: D.DaemonState, f: Frame, driverOk: bool)
    requires D.ConfigOk(cfg) && D.Idle(d.queues) && !f.frameType.Request? && Encodable(f)
    requires DaemonEchoes(g, cfg.outcomes, d)
    ensures D.Flushable(d.queues)
    ensures var (d', out) := D.ReceiveFrame(d, cfg, f, driverOk);
            && DaemonEchoes(g, cfg.outcomes, d')
            && forall i :: 0 <= i < |out| ==> Answers(g, cfg.outcomes, out[i])
  {
    hide D.ReceiveRequest, D.Flushable, D.OutboundNetworkFrame, DriverKnown, AllAnswer;
    D.IdleIsFlushable(d.queues);
    CancelOnIdle(d, f);
    ResetOnIdle(d, f);
    hide D.ReceiveCancel, D.ReceiveReset;
  }

  lemma {:induction false} EncodedAnswers(g: Requests, rules: seq<D.OutcomeRule>, fs: seq<Frame>)
    requires D.AllEncodable(fs) && forall i :: 0 <= i < |fs| ==> Answers(g, rules, fs[i])
    ensures AllAnswer(g, rules, D.EncodeAll(fs))
    decreases |fs|
  {
    hide Answers;
    if fs != [] {
      RoundTrip(fs[0]);
      hide Decode;
      EncodedAnswers(g, rules, fs[1..]);
      assert BytesAnswer(g, rules, Encode(fs[0]));
      var rest := D.EncodeAll(fs[1..]);
      hide BytesAnswer;
      assert forall i :: 0 < i < |fs| ==> D.EncodeAll(fs)[i] == rest[i - 1];
    }
  }

  lemma ReceivedEchoes(g: Requests, cfg: D.Config, d: D.DaemonState, b: seq<u8>, driverOk: bool)
    requires D.ConfigOk(cfg) && D.Idle(d.queues) && DaemonEchoes(g, cfg.outcomes, d) && Known(g, b)
    ensures D.Flushable(d.queues)
    ensures var (d', out) := D.Receive(d, cfg, b, driverOk);
            DaemonEchoes(g, cfg.outcomes, d') && AllAnswer(g, cfg.outcomes, D.EncodeAll(out))
  {
    D.IdleIsFlushable(d.queues);
    if Decode(b).Ok? {
      var f := Decode(b).value;
      DecodedReencodes(b);
      hide Decode, DaemonEchoes, D.Flushable, Answers, D.ReceiveRequest, D.ReceiveAttach, D.ReceiveDetach,
        D.ReceiveCancel, D.ReceiveReset;
      if f.frameType.Request? {
        RequestEchoes(g, cfg, d, f);
      } else {
        OtherEchoes(g, cfg, d, f, driverOk);
      }
      EncodedAnswers(g, cfg.outcomes, D.Receive(d, cfg, b, driverOk).1);
    }
  }

  lemma PollEchoes(g: Requests, rules: seq<D.OutcomeRule>, d: D.DaemonState)
    requires WellFormed(d) && d.hand.None? && DaemonEchoes(g, rules, d)
    ensures DaemonEchoes(g, rules, D.PollTx(d))
  {
    if d.driver.tx != [] {
      assert Known(g, d.driver.tx[0]);
      assert Decode(d.driver.tx[0]).Ok? && Decode(d.driver.tx[0]).value.frameType == Request;
    }
    hide Decode, D.OutboundNetworkFrame, Known;
  }

  lemma ForwardEchoes(g: Requests, rules: seq<D.OutcomeRule>, d: D.DaemonState)
    requires WellFormed(d) && d.hand.Some? && DaemonEchoes(g, rules, d)
    ensures DaemonEchoes(g, rules, d.(hand := None, channel := d.channel + [Encode(d.hand.value)]))
  {
    RoundTrip(d.hand.value);
    hide Decode, DriverKnown, Answers;
    assert BytesAnswer(g, rules, Encode(d.hand.value));
    hide BytesAnswer;
  }

  lemma DaemonStepEchoes(g: Requests, cfg: D.Config, d: D.DaemonState, e: D.Event)
    requires D.ConfigOk(cfg) && D.Idle(d.queues) && WellFormed(d) && DaemonEchoes(g, cfg.outcomes, d)
    requires e.Received? ==> Known(g, e.bytes)
    ensures var (d', out) := D.Step(d, cfg, e); DaemonEchoes(g, cfg.outcomes, d') && AllAnswer(g, cfg.outcomes, out)
  {
    hide Decode, DriverKnown, Answers, BytesAnswer, D.Receive, D.PollTx, D.EncodeAll;
    match e {
      case Received(b, driverOk) => if d.loop.Open? { ReceivedEchoes(g, cfg, d, b, driverOk); }
      case Poll => if d.hand.None? { PollEchoes(g, cfg.outcomes, d); }
      case Forward => if d.hand.Some? { ForwardEchoes(g, cfg.outcomes, d); }
      case _ =>
    }
  }

  // ---- new requests do not disturb old ones

  predicate Extends(g: Requests, g': Requests) {
    forall id :: id in g ==> id in g' && g'[id] == g[id]
  }

  lemma ExtendedHolds(s: System, cfg: Configs, g: Requests)
    requires EchoInv(s, cfg) && Extends(s.requests, g)
    ensures AllKnown(g, s.toDaemon) && DaemonEchoes(g, cfg.daemon.outcomes, s.daemon)
    ensures AllAnswer(g, cfg.daemon.outcomes, s.toClient)
    ensures LocalKnown(g, s.client.local) && PendingKnown(g, s.client.pendingBulk)
  {
    hide Decode, D.OutboundNetworkFrame, BulkDecode;
  }

  // ---- one event of the system

  lemma KnownMore(g: Requests, bs: seq<seq<u8>>, out: seq<Frame>)
    requires AllKnown(g, bs) && D.AllEncodable(out) && |out| <= 1
    requires out != [] && out[0].frameType.Request? ==> out[0].requestId in g && g[out[0].requestId] == out[0]
    ensures AllKnown(g, bs + D.EncodeAll(out))
  {
    if out != [] {
      EncodeOne(out[0]);
      RoundTrip(out[0]);
      assert out == [out[0]];
    }
    hide Decode;
  }

  lemma ClientReceivesEchoes(s: System, cfg: Configs, injectOk: bool)
    requires ConfigsOk(cfg) && Inv(s, cfg) && EchoInv(s, cfg)
    ensures EchoInv(Step(s, cfg, ClientReceives(injectOk)), cfg)
  {
    hide Decode, D.EncodeAll, WellFormed, AllClientSaid, AllKnown, BytesAnswer, Placed, C.ReceiveFrame, PendingOk,
      DaemonEchoes, LocalKnown, BulkDecode, Encode, D.OutboundNetworkFrame;
    if s.toClient != [] && !s.client.stage.Ended? {
      var b := s.toClient[0];
      var (c, out) := C.Receive(s.client, cfg.client, b, injectOk);
      var g := Noted(s.requests, out);
      if Decode(b).Ok? {
        ClientSaysOne(s.client, cfg.client, Decode(b).value, injectOk, s.nextId);
        ForgetsAnswered(s.client, cfg.client, Decode(b).value, injectOk);
      } else {
        NextAfterFailure(s.client, s.nextId);
      }
      ExtendedHolds(s, cfg, g);
      KnownMore(g, s.toDaemon, out);
    }
  }

  lemma LocalKnownMore(g: Requests, fs: seq<Frame>, f: Frame)
    requires LocalKnown(g, fs) && f.requestId in g && g[f.requestId] == f && !IsControl(f)
    ensures LocalKnown(g, fs + [f])
  {
  }

  lemma ClientMakesEchoes(s: System, cfg: Configs, data: Option<seq<u8>>)
    requires ConfigsOk(cfg) && Inv(s, cfg) && EchoInv(s, cfg)
    ensures EchoInv(Step(s, cfg, ClientMakes(data)), cfg)
  {
    hide Decode, WellFormed, AllClientSaid, AllKnown, AllAnswer, Placed, PendingOk, PendingKnown, DaemonEchoes,
      LocalKnown, BulkEncode, Encode, D.OutboundNetworkFrame;
    if C.CanGenerate(s.client, cfg.client, data) {
      var f := C.DataRequest(C.FIRST_DATA_ID + s.client.generated, data);
      var c := C.Generate(s.client, cfg.client, data);
      var g := Noted(s.requests, [f]);
      assert c.local[|s.client.local|..] == [f];
      ExtendedHolds(s, cfg, g);
      LocalKnownMore(g, s.client.local, f);
    } else {
      assert s.client.local[|s.client.local|..] == [];
    }
  }

  lemma ClientSendsEchoes(s: System, cfg: Configs)
    requires ConfigsOk(cfg) && Inv(s, cfg) && EchoInv(s, cfg)
    ensures EchoInv(Step(s, cfg, ClientSends), cfg)
  {
    hide Decode, WellFormed, AllClientSaid, Placed, PendingOk, Answers, Known, DaemonEchoes, BulkDecode;
    KnownMore(s.requests, s.toDaemon, C.SendLocal(s.client).1);
  }

  lemma StepEchoes(s: System, cfg: Configs, e: SystemEvent)
    requires ConfigsOk(cfg) && Inv(s, cfg) && EchoInv(s, cfg)
    ensures EchoInv(Step(s, cfg, e), cfg)
  {
    hide Decode, WellFormed, AllClientSaid, Placed, PendingOk, Answers, Known, DaemonEchoes, BytesAnswer,
      D.Step, C.Receive, C.Generate, C.SendLocal, Counted;
    match e {
      case ClientReceives(injectOk) => ClientReceivesEchoes(s, cfg, injectOk);
      case ClientMakes(data) => ClientMakesEchoes(s, cfg, data);
      case ClientSends => ClientSendsEchoes(s, cfg);
      case DaemonReceives(driverOk) =>
        if s.toDaemon != [] && s.daemon.loop.Open? {
          DaemonStepEchoes(s.requests, cfg.daemon, s.daemon, D.Received(s.toDaemon[0], driverOk));
        }
      case DaemonDoes(event) =>
        if !event.Received? {
          DaemonStepEchoes(s.requests, cfg.daemon, s.daemon, event);
        }
      case ServerCloses =>
    }
  }

  // ---- what is sent stays recorded until it is answered

  // The bulk data a request carries; control requests are not validated.
  predicate IsBulk(f: Frame) {
    !IsControl(f) && BulkDecode(f.payload).Ok?
  }

  // A bulk request that has left the client and has not come back is on the client's record.
  predicate OnRecord(s: System, id: u64) {
    id in s.requests && IsBulk(s.requests[id]) && CountFrames(s.client.local, Request, id) == 0 && s.received[id] == 0
    ==> id in s.client.pendingBulk
  }

  ghost predicate Recorded(s: System) {
    forall id: u64 :: OnRecord(s, id)
  }

  lemma ClientReceivesRecorded(s: System, cfg: Configs, injectOk: bool)
    requires ConfigsOk(cfg) && Inv(s, cfg) && Recorded(s)
    ensures Recorded(Step(s, cfg, ClientReceives(injectOk)))
  {
    hide Decode, D.EncodeAll, WellFormed, AllClientSaid, Placed, C.ReceiveFrame, PendingOk, BulkDecode;
    if s.toClient != [] && !s.client.stage.Ended? {
      var b := s.toClient[0];
      var s' := Step(s, cfg, ClientReceives(injectOk));
      if Decode(b).Ok? {
        ClientSaysOne(s.client, cfg.client, Decode(b).value, injectOk, s.nextId);
        ForgetsAnswered(s.client, cfg.client, Decode(b).value, injectOk);
      }
      forall id: u64
        ensures OnRecord(s', id)
      {
        assert OnRecord(s, id);
      }
    }
  }

  lemma ClientMakesRecorded(s: System, cfg: Configs, data: Option<seq<u8>>)
    requires ConfigsOk(cfg) && Inv(s, cfg) && Recorded(s)
    ensures Recorded(Step(s, cfg, ClientMakes(data)))
  {
    hide Decode, WellFormed, AllClientSaid, Placed, PendingOk, BulkDecode, BulkEncode;
    var s' := Step(s, cfg, ClientMakes(data));
    if C.CanGenerate(s.client, cfg.client, data) {
      var f := C.DataRequest(C.FIRST_DATA_ID + s.client.generated, data);
      assert s'.client.local[|s.client.local|..] == [f];
      forall id: u64
        ensures OnRecord(s', id)
      {
        assert OnRecord(s, id);
        CountFramesSnoc(s.client.local, f, Request, id);
      }
    } else {
      assert s.client.local[|s.client.local|..] == [];
    }
  }

  lemma ClientSendsRecorded(s: System, cfg: Configs)
    requires ConfigsOk(cfg) && Inv(s, cfg) && EchoInv(s, cfg) && Recorded(s)
    ensures Recorded(Step(s, cfg, ClientSends))
  {
    hide Decode, WellFormed, AllClientSaid, Placed, PendingOk, BulkDecode, D.EncodeAll, DaemonEchoes, AllKnown,
      AllAnswer;
    var s' := Step(s, cfg, ClientSends);
    forall id: u64
      ensures OnRecord(s', id)
    {
      assert OnRecord(s, id);
    }
  }

  lemma StepRecorded(s: System, cfg: Configs, e: SystemEvent)
    requires ConfigsOk(cfg) && Inv(s, cfg) && EchoInv(s, cfg) && Recorded(s)
    ensures Recorded(Step(s, cfg, e))
  {
    hide WellFormed, AllClientSaid, Placed, PendingOk, D.Step, C.Receive, C.Generate, C.SendLocal, Counted, EchoInv,
      IsBulk;
    var s' := Step(s, cfg, e);
    match e {
      case ClientReceives(injectOk) => ClientReceivesRecorded(s, cfg, injectOk);
      case ClientMakes(data) => ClientMakesRecorded(s, cfg, data);
      case ClientSends => ClientSendsRecorded(s, cfg);
      case _ =>
        forall id: u64
          ensures OnRecord(s', id)
        {
          assert OnRecord(s, id);
        }
    }
  }

  lemma {:induction false} RunEchoes(s: System, cfg: Configs, es: seq<SystemEvent>)
    requires ConfigsOk(cfg) && Inv(s, cfg) && EchoInv(s, cfg) && Recorded(s)
    ensures var s' := Composition.Run(s, cfg, es); Inv(s', cfg) && EchoInv(s', cfg) && Recorded(s')
    decreases |es|
  {
    hide Step, Placed, Formed, Counted, PendingOk, Runnable, Issued, EchoInv, Recorded;
    if es != [] {
      StepKeepsInv(s, cfg, es[0]);
      StepEchoes(s, cfg, es[0]);
      StepRecorded(s, cfg, es[0]);
      RunEchoes(Step(s, cfg, es[0]), cfg, es[1..]);
    }
  }

  // ---- what the client sees

  // A response about to be taken off the channel has not come before, and its request has left.
  lemma ResponseIsAwaited(s: System, cfg: Configs)
    requires Inv(s, cfg) && s.toClient != [] && Decode(s.toClient[0]).Ok?
    requires Decode(s.toClient[0]).value.frameType.Response?
    ensures var id := Decode(s.toClient[0]).value.requestId;
            CountFrames(s.client.local, Request, id) == 0 && s.received[id] == 0
  {
    var id := Decode(s.toClient[0]).value.requestId;
    assert IsBytes(s.toClient[0], Response, id) == 1;
    hide Decode, InFlight, IsBytes, Formed, Counted, PendingOk;
    assert Placed(s, id) == Issued(s.nextId, id);
    assert Count(s.toClient, Response, id) >= 1;
  }

  // Any successful response to a bulk request, unless injected, is on record and carries exactly
  // the data that the client sent: the warning branches of its validation are for injected
  // responses only.
  lemma ResponseValidates(s: System, cfg: Configs)
    requires Inv(s, cfg) && EchoInv(s, cfg) && Recorded(s) && s.toClient != [] && Decode(s.toClient[0]).Ok?
    ensures var f := Decode(s.toClient[0]).value;
            f.frameType.Response? && f.status == 0 && D.FirstRule(cfg.daemon.outcomes, f.requestId).None? ==>
              && f.requestId in s.requests
              && (IsBulk(s.requests[f.requestId]) ==>
                    && C.Validates(s.client.pendingBulk, f)
                    && Ok(s.client.pendingBulk[f.requestId]) == BulkDecode(s.requests[f.requestId].payload))
  {
    var f := Decode(s.toClient[0]).value;
    assert BytesAnswer(s.requests, cfg.daemon.outcomes, s.toClient[0]);
    if f.frameType.Response? && f.status == 0 && D.FirstRule(cfg.daemon.outcomes, f.requestId).None? {
      ResponseIsAwaited(s, cfg);
      hide Decode, Inv, DaemonEchoes, AllAnswer, AllKnown;
      assert OnRecord(s, f.requestId);
      var request := s.requests[f.requestId];
      D.OutboundEchoes(request);
      hide BulkDecode, D.OutboundNetworkFrame;
    }
  }

  lemma EchoIsFaithful(start: System, cfg: Configs, es: seq<SystemEvent>)
    requires ConfigsOk(cfg) && Initial(start)
    ensures Runnable(start)
    ensures var s := Composition.Run(start, cfg, es);
            s.toClient != [] && Decode(s.toClient[0]).Ok? ==>
              var f := Decode(s.toClient[0]).value;
              f.frameType.Response? && f.status == 0 && D.FirstRule(cfg.daemon.outcomes, f.requestId).None? ==>
                && f.requestId in s.requests
                && (IsBulk(s.requests[f.requestId]) ==>
                      && C.Validates(s.client.pendingBulk, f)
                      && Ok(s.client.pendingBulk[f.requestId]) == BulkDecode(s.requests[f.requestId].payload))
  {
    InitialInv(start, cfg);
    InitialEchoes(start, cfg);
    hide Composition.Run, Decode, Initial, EchoInv, Inv, Recorded, IsBulk;
    RunEchoes(start, cfg, es);
    var s := Composition.Run(start, cfg, es);
    if s.toClient != [] && Decode(s.toClient[0]).Ok? {
      ResponseValidates(s, cfg);
    }
  }

  lemma InitialEchoes(s: System, cfg: Configs)
    requires Initial(s)
    ensures EchoInv(s, cfg) && Recorded(s)
  {
    RoundTrip(LifecycleRequest(C.ATTACH_ID, AttachRequest));
    hide Decode;
  }
}

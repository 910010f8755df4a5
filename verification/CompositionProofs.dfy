// What every run of the composed client and daemon keeps, and what holds when the client detaches.

module CompositionInvariant {
  import opened Bytes
  import opened BulkPayload
  import opened Composition
  import opened ControlTransfers
  import opened DaemonConservation
  import opened DaemonRuns
  import opened FrameCodec
  import opened Wrappers
  import C = ClientSpec
  import D = DaemonSpec

  // ---- the client's part

  lemma EncodeOne(f: Frame)
    requires Encodable(f)
    ensures D.AllEncodable([f]) && D.EncodeAll([f]) == [Encode(f)]
  {
    assert D.EncodeAll([f][1..]) == [];
  }

  // Taking in a frame, the client says at most one thing: the next request, or that it detaches.
  lemma ClientSaysOne(c: C.ClientState, cfg: C.ClientConfig, f: Frame, injectOk: bool, n: nat)
    requires C.ConfigOk(cfg) && C.LocalOk(c) && Next(c, n) == n && (Handshaking(c) ==> c.generated == 0)
    ensures var (c', out) := C.ReceiveFrame(c, cfg, f, injectOk);
            && |out| <= 1 && c'.local == c.local && c'.generated == c.generated && n <= Next(c', n) <= n + 1
            && (Next(c', n) == n + 1 <==> out != [] && out[0].frameType.Request?)
            && (out != [] && out[0].frameType.Request? ==>
                  out[0].requestId == n && out[0].transferType.Control? && out[0].endpoint == 0)
            && (out != [] && !out[0].frameType.Request? ==>
                  out[0].frameType.DetachRequest? && c'.detachSent && out[0].requestId == C.DetachId(cfg))
            && (c.detachSent ==> c'.detachSent)
  {
  }

  lemma ClientIssues(c: C.ClientState, cfg: C.ClientConfig, f: Frame, injectOk: bool, n: nat, id: u64)
    requires C.ConfigOk(cfg) && C.LocalOk(c) && Next(c, n) == n && (Handshaking(c) ==> c.generated == 0)
    requires n >= C.FIRST_CONTROL_ID
    ensures var (c', out) := C.ReceiveFrame(c, cfg, f, injectOk);
            Issued(n, id) + CountFrames(out, Request, id) == Issued(Next(c', n), id)
  {
    hide C.ReceiveFrame;
    ClientSaysOne(c, cfg, f, injectOk, n);
    var out := C.ReceiveFrame(c, cfg, f, injectOk).1;
    if out != [] {
      CountOneFrame(out[0], Request, id);
      assert out == [out[0]];
    }
  }

  lemma SaidOne(out: seq<Frame>, detachSent: bool)
    requires D.AllEncodable(out) && |out| <= 1
    requires out != [] ==> out[0].frameType.Request? || (out[0].frameType.DetachRequest? && detachSent)
    ensures AllClientSaid(D.EncodeAll(out), detachSent)
  {
    if out != [] {
      EncodeOne(out[0]);
      RoundTrip(out[0]);
      assert out == [out[0]];
    }
  }

  lemma SaidMore(a: seq<seq<u8>>, before: bool, b: seq<seq<u8>>, after: bool)
    requires AllClientSaid(a, before) && AllClientSaid(b, after) && (before ==> after)
    ensures AllClientSaid(a + b, after)
  {
    hide Decode;
  }

  // ---- the client takes in a frame

  lemma ResponseCounts(b: seq<u8>, id: u64)
    ensures ResponseId(b)[id] == IsBytes(b, Response, id)
  {
    hide Decode;
  }

  lemma ClientReceivesPlaced(s: System, cfg: Configs, injectOk: bool, id: u64)
    requires ConfigsOk(cfg) && Formed(s) && Counted(s, cfg.client.limit) && Placed(s, id) == Issued(s.nextId, id)
    ensures var s' := Step(s, cfg, ClientReceives(injectOk)); Placed(s', id) == Issued(s'.nextId, id)
  {
    hide Decode, C.ReceiveFrame, D.EncodeAll, InFlight, Next;
    if s.toClient != [] && !s.client.stage.Ended? {
      var b := s.toClient[0];
      var (c, out) := C.Receive(s.client, cfg.client, b, injectOk);
      ResponseCounts(b, id);
      CountConcat(s.toDaemon, D.EncodeAll(out), Request, id);
      CountEncoded(out, Request, id);
      if Decode(b).Ok? {
        ClientIssues(s.client, cfg.client, Decode(b).value, injectOk, s.nextId, id);
        ClientSaysOne(s.client, cfg.client, Decode(b).value, injectOk, s.nextId);
      } else {
        NextAfterFailure(s.client, s.nextId);
      }
    }
  }

  lemma NextAfterFailure(c: C.ClientState, n: nat)
    requires Next(c, n) == n
    ensures Next(if c.stage.AwaitAttach? || c.stage.AwaitControl? then c.(stage := C.Ended(false)) else c, n) == n
  {
  }

  lemma ClientReceivesFormed(s: System, cfg: Configs, injectOk: bool)
    requires ConfigsOk(cfg) && Formed(s) && Counted(s, cfg.client.limit)
    ensures Formed(Step(s, cfg, ClientReceives(injectOk)))
  {
    hide Decode, C.ReceiveFrame, D.EncodeAll, ClientSaid, NoCancelResponse, WellFormed;
    StepStaysRunnable(s, cfg, ClientReceives(injectOk));
    if s.toClient != [] && !s.client.stage.Ended? {
      var b := s.toClient[0];
      var (c, out) := C.Receive(s.client, cfg.client, b, injectOk);
      if Decode(b).Ok? {
        ClientSaysOne(s.client, cfg.client, Decode(b).value, injectOk, s.nextId);
      }
      SaidOne(out, c.detachSent);
      SaidMore(s.toDaemon, s.client.detachSent, D.EncodeAll(out), c.detachSent);
    }
  }

  // Each response moves the count of answers on, and the detach is sent when it reaches the limit.
  lemma ClientReceivesCounts(s: System, cfg: Configs, injectOk: bool)
    requires ConfigsOk(cfg) && Formed(s) && Counted(s, cfg.client.limit)
    ensures Counted(Step(s, cfg, ClientReceives(injectOk)), cfg.client.limit)
  {
    hide D.EncodeAll, WellFormed, AllClientSaid;
    if s.toClient != [] && !s.client.stage.Ended? {
      var b := s.toClient[0];
      assert NoCancelResponse(b);
      hide Decode;
      if Decode(b).Ok? {
        CountsOneFrame(s.client, cfg.client, Decode(b).value, injectOk, s.nextId, |s.received|);
        assert |s.received + ResponseId(b)| == |s.received| + |ResponseId(b)|;
      }
    }
  }

  lemma CountsOneFrame(c: C.ClientState, cfg: C.ClientConfig, f: Frame, injectOk: bool, n: nat, received: nat)
    requires C.ConfigOk(cfg) && C.LocalOk(c) && Progress(c, cfg.limit, n, received) && !f.frameType.CancelResponse?
    ensures var c' := C.ReceiveFrame(c, cfg, f, injectOk).0;
            Progress(c', cfg.limit, Next(c', n), received + if f.frameType.Response? then 1 else 0)
  {
    hide ReportDescriptorBytes, DecodeTransfer;
  }

  lemma ClientReceivesPending(s: System, cfg: Configs, injectOk: bool)
    requires ConfigsOk(cfg) && Formed(s) && Counted(s, cfg.client.limit) && PendingOk(s)
    ensures PendingOk(Step(s, cfg, ClientReceives(injectOk)))
  {
    hide D.EncodeAll, WellFormed, AllClientSaid;
    if s.toClient != [] && !s.client.stage.Ended? {
      var b := s.toClient[0];
      hide Decode;
      if Decode(b).Ok? {
        var f := Decode(b).value;
        ClientSaysOne(s.client, cfg.client, f, injectOk, s.nextId);
        ForgetsAnswered(s.client, cfg.client, f, injectOk);
      }
    }
  }

  lemma ForgetsAnswered(c: C.ClientState, cfg: C.ClientConfig, f: Frame, injectOk: bool)
    requires C.ConfigOk(cfg) && C.LocalOk(c) && !c.stage.Ended? && (Handshaking(c) ==> c.pendingBulk == map[])
    ensures C.ReceiveFrame(c, cfg, f, injectOk).0.pendingBulk
         == if f.frameType.Response? then c.pendingBulk - {f.requestId} else c.pendingBulk
  {
    hide ReportDescriptorBytes, DecodeTransfer;
  }

  lemma ClientReceivesKeeps(s: System, cfg: Configs, injectOk: bool)
    requires ConfigsOk(cfg) && Inv(s, cfg)
    ensures Inv(Step(s, cfg, ClientReceives(injectOk)), cfg)
  {
    hide Step, Placed, Counted, PendingOk, Runnable, WellFormed, AllClientSaid;
    ClientReceivesFormed(s, cfg, injectOk);
    ClientReceivesCounts(s, cfg, injectOk);
    ClientReceivesPending(s, cfg, injectOk);
    forall id: u64
      ensures var s' := Step(s, cfg, ClientReceives(injectOk)); Placed(s', id) == Issued(s'.nextId, id)
    {
      ClientReceivesPlaced(s, cfg, injectOk, id);
    }
  }

  // ---- the client makes and sends data requests

  lemma {:induction false} CountFramesSnoc(fs: seq<Frame>, f: Frame, t: FrameType, id: u64)
    ensures CountFrames(fs + [f], t, id) == CountFrames(fs, t, id) + IsFrame(f, t, id)
    decreases |fs|
  {
    if fs == [] {
      CountOneFrame(f, t, id);
      assert fs + [f] == [f];
    } else {
      CountFramesSnoc(fs[1..], f, t, id);
      assert (fs + [f])[1..] == fs[1..] + [f];
    }
  }

  lemma ClientMakesKeeps(s: System, cfg: Configs, data: Option<seq<u8>>)
    requires ConfigsOk(cfg) && Inv(s, cfg)
    ensures Inv(Step(s, cfg, ClientMakes(data)), cfg)
  {
    hide WellFormed, AllClientSaid, NoCancelResponses, InFlight, Count, Decode, Encode, C.DataRequest;
    var s' := Step(s, cfg, ClientMakes(data));
    StepStaysRunnable(s, cfg, ClientMakes(data));
    if C.CanGenerate(s.client, cfg.client, data) {
      var f := C.DataRequest(C.FIRST_DATA_ID + s.client.generated, data);
      forall id: u64
        ensures Placed(s', id) == Issued(s'.nextId, id)
      {
        assert Placed(s, id) == Issued(s.nextId, id);
        CountFramesSnoc(s.client.local, f, Request, id);
      }
    } else {
      assert s'.client == s.client;
    }
  }

  lemma ClientSendsKeeps(s: System, cfg: Configs)
    requires ConfigsOk(cfg) && Inv(s, cfg)
    ensures Inv(Step(s, cfg, ClientSends), cfg)
  {
    hide WellFormed, NoCancelResponses, Decode, Encode, ClientSaid, Placed, BulkDecode, InFlight, Count;
    StepStaysRunnable(s, cfg, ClientSends);
    if s.client.stage.Data? && s.client.local != [] {
      var f := s.client.local[0];
      SaidOne([f], s.client.detachSent);
      SaidMore(s.toDaemon, s.client.detachSent, D.EncodeAll([f]), s.client.detachSent);
      SentIsPlaced(s, cfg);
      SentIsUnanswered(s);
    } else {
      assert s.toDaemon + [] == s.toDaemon;
    }
  }

  lemma SentIsUnanswered(s: System)
    requires s.client.local != [] && AllRequests(s.client.local) && Conserved(s)
    ensures var id := s.client.local[0].requestId; C.FIRST_CONTROL_ID <= id < s.nextId && s.received[id] == 0
  {
    hide InFlight, Count;
    var f := s.client.local[0];
    assert CountFrames(s.client.local, Request, f.requestId) >= IsFrame(f, Request, f.requestId) == 1;
    assert Placed(s, f.requestId) == Issued(s.nextId, f.requestId);
  }

  lemma SentIsPlaced(s: System, cfg: Configs)
    requires ConfigsOk(cfg) && Formed(s) && s.client.stage.Data? && s.client.local != []
    ensures forall id: u64 :: Placed(Step(s, cfg, ClientSends), id) == Placed(s, id)
  {
    hide WellFormed, InFlight, Decode;
    var f := s.client.local[0];
    EncodeOne(f);
    forall id: u64
      ensures Placed(Step(s, cfg, ClientSends), id) == Placed(s, id)
    {
      EncodedIs(f, Request, id);
      CountSnoc(s.toDaemon, Encode(f), Request, id);
    }
  }

  lemma ServerClosesKeeps(s: System, cfg: Configs)
    requires ConfigsOk(cfg) && Inv(s, cfg)
    ensures Inv(Step(s, cfg, ServerCloses), cfg)
  {
    hide WellFormed, AllClientSaid, NoCancelResponses, InFlight;
    var s' := Step(s, cfg, ServerCloses);
    forall id: u64
      ensures Placed(s', id) == Issued(s'.nextId, id)
    {
      assert Placed(s, id) == Issued(s.nextId, id);
    }
  }

  // ---- the daemon's part

  lemma {:induction false} EncodedNoCancels(fs: seq<Frame>)
    requires D.AllEncodable(fs) && forall i :: 0 <= i < |fs| ==> !fs[i].frameType.CancelResponse?
    ensures NoCancelResponses(D.EncodeAll(fs))
    decreases |fs|
  {
    if fs != [] {
      RoundTrip(fs[0]);
      EncodedNoCancels(fs[1..]);
      var rest := D.EncodeAll(fs[1..]);
      hide Decode;
      assert forall i :: 0 < i < |fs| ==> D.EncodeAll(fs)[i] == rest[i - 1];
    }
  }

  lemma RequestAnswersAreResponses(d: D.DaemonState, cfg: D.Config, f: Frame)
    requires D.Idle(d.queues) && f.frameType.Request? && Encodable(f)
    ensures D.Flushable(d.queues)
    ensures var out := D.ReceiveRequest(d, cfg, f).1;
            forall i :: 0 <= i < |out| ==> out[i].frameType.Response? || out[i].frameType.Event?
  {
    D.IdleIsFlushable(d.queues);
    D.FlushOne(d.queues, f, d.driver);
    hide D.Flush, D.Flushable;
  }

  lemma ReceivedNoCancels(d: D.DaemonState, cfg: D.Config, b: seq<u8>, driverOk: bool)
    requires D.ConfigOk(cfg) && D.Idle(d.queues) && ClientSaid(b, true)
    ensures D.Flushable(d.queues)
    ensures var out := D.Receive(d, cfg, b, driverOk).1;
            forall i :: 0 <= i < |out| ==> !out[i].frameType.CancelResponse?
  {
    D.IdleIsFlushable(d.queues);
    var f := Decode(b).value;
    DecodedReencodes(b);
    hide Decode, D.Flushable, D.ReceiveRequest, D.ReceiveCancel, D.ReceiveReset;
    if f.frameType.Request? {
      RequestAnswersAreResponses(d, cfg, f);
    }
  }

  lemma DaemonNoCancels(d: D.DaemonState, cfg: D.Config, e: D.Event)
    requires D.ConfigOk(cfg) && D.Idle(d.queues) && WellFormed(d)
    requires e.Received? ==> ClientSaid(e.bytes, true)
    ensures NoCancelResponses(D.Step(d, cfg, e).1)
  {
    D.IdleIsFlushable(d.queues);
    if e.Received? && d.loop.Open? {
      ReceivedNoCancels(d, cfg, e.bytes, e.driverOk);
      EncodedNoCancels(D.Receive(d, cfg, e.bytes, e.driverOk).1);
    } else if e.Deliver? && d.channel != [] {
      assert Decode(d.channel[0]).Ok? && Decode(d.channel[0]).value.frameType == Response;
    }
  }

  // What the daemon adds to the client's channel and takes from its own, for any event of its.
  lemma DaemonStepKeeps(s: System, s': System, cfg: Configs, e: D.Event)
    requires ConfigsOk(cfg) && Inv(s, cfg)
    requires e.Received? ==> s.toDaemon != [] && e.bytes == s.toDaemon[0] && s.daemon.loop.Open?
    requires var (d, out) := D.Step(s.daemon, cfg.daemon, e);
             s' == s.(daemon := d, toDaemon := if e.Received? then s.toDaemon[1..] else s.toDaemon,
                      toClient := s.toClient + out)
    ensures Inv(s', cfg)
  {
    hide D.Step, InFlight, WellFormed, Decode, ClientSaid, NoCancelResponse;
    var out := D.Step(s.daemon, cfg.daemon, e).1;
    SaidToAnyone(s.toDaemon, s.client.detachSent);
    DaemonNoCancels(s.daemon, cfg.daemon, e);
    StepLeavesIdle(s.daemon, cfg.daemon, e);
    StepConserves(s.daemon, cfg.daemon, e, 0);
    forall id: u64
      ensures Placed(s', id) == Issued(s'.nextId, id)
    {
      assert Placed(s, id) == Issued(s.nextId, id);
      StepConserves(s.daemon, cfg.daemon, e, id);
      CountConcat(s.toClient, out, Response, id);
    }
  }

  lemma SaidToAnyone(bs: seq<seq<u8>>, detachSent: bool)
    requires AllClientSaid(bs, detachSent)
    ensures AllClientSaid(bs, true)
  {
    hide Decode;
  }

  lemma StepKeepsInv(s: System, cfg: Configs, e: SystemEvent)
    requires ConfigsOk(cfg) && Inv(s, cfg)
    ensures Runnable(s) && Inv(Step(s, cfg, e), cfg)
  {
    hide D.Step, C.Receive, C.Generate, C.SendLocal, D.EncodeAll, WellFormed, AllClientSaid, Placed, Counted;
    match e {
      case ClientReceives(injectOk) => ClientReceivesKeeps(s, cfg, injectOk);
      case ClientMakes(data) => ClientMakesKeeps(s, cfg, data);
      case ClientSends => ClientSendsKeeps(s, cfg);
      case DaemonReceives(driverOk) =>
        if s.toDaemon != [] && s.daemon.loop.Open? {
          DaemonStepKeeps(s, Step(s, cfg, e), cfg, D.Received(s.toDaemon[0], driverOk));
        }
      case DaemonDoes(event) =>
        if !event.Received? {
          DaemonStepKeeps(s, Step(s, cfg, e), cfg, event);
        }
      case ServerCloses => ServerClosesKeeps(s, cfg);
    }
  }

  lemma InitialInv(s: System, cfg: Configs)
    requires ConfigsOk(cfg) && Initial(s)
    ensures Inv(s, cfg)
  {
    var f := LifecycleRequest(C.ATTACH_ID, AttachRequest);
    RoundTrip(f);
    hide Decode;
    forall id: u64
      ensures Placed(s, id) == Issued(s.nextId, id)
    {
      EncodedIs(f, Request, id);
      CountSnoc([], Encode(f), Request, id);
      assert Count([], Request, id) == 0;
    }
  }

  lemma {:induction false} RunKeepsInv(s: System, cfg: Configs, es: seq<SystemEvent>)
    requires ConfigsOk(cfg) && Inv(s, cfg)
    ensures Inv(Composition.Run(s, cfg, es), cfg)
    decreases |es|
  {
    hide Step, Placed, Formed, Counted, PendingOk, Runnable, Issued;
    if es != [] {
      StepKeepsInv(s, cfg, es[0]);
      RunKeepsInv(Step(s, cfg, es[0]), cfg, es[1..]);
    }
  }
}

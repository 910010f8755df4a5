// The detach is reached: from a fresh start, on a device the client can enumerate, some run answers
// every data request and brings the detach request to the daemon.

module DetachReached {
  import opened Bytes
  import opened CleanEnd
  import opened Composition
  import opened CompositionInvariant
  import opened ControlEndpoint
  import opened ControlTransfers
  import opened DaemonAnswers
  import opened DaemonRuns
  import opened DescriptorDecode
  import opened Descriptors
  import opened Driver
  import opened Enumeration
  import opened FrameCodec
  import opened RingSpec
  import opened WhyFrontEnd
  import opened Wrappers
  import C = ClientSpec
  import D = DaemonSpec
  import Quiescence

  // ---- reachable states

  ghost predicate Reachable(start: System, cfg: Configs, s: System)
    requires ConfigsOk(cfg) && Runnable(start)
  {
    exists es :: Uncut(es) && Composition.Run(start, cfg, es) == s
  }

  lemma {:induction false} RunOneMore(start: System, cfg: Configs, es: seq<SystemEvent>, e: SystemEvent)
    requires ConfigsOk(cfg) && Runnable(start)
    ensures Composition.Run(start, cfg, es + [e]) == Step(Composition.Run(start, cfg, es), cfg, e)
    decreases |es|
  {
    hide Step;
    if es == [] {
      assert es + [e] == [e] && [e][1..] == [];
      StepStaysRunnable(start, cfg, e);
    } else {
      StepStaysRunnable(start, cfg, es[0]);
      RunOneMore(Step(start, cfg, es[0]), cfg, es[1..], e);
      assert (es + [e])[1..] == es[1..] + [e];
    }
  }

  lemma Reaches(start: System, cfg: Configs, s: System, e: SystemEvent)
    requires ConfigsOk(cfg) && Runnable(start) && Reachable(start, cfg, s) && !e.ServerCloses?
    ensures Runnable(s) && Reachable(start, cfg, Step(s, cfg, e))
  {
    hide Step;
    var es :| Uncut(es) && Composition.Run(start, cfg, es) == s;
    RunOneMore(start, cfg, es, e);
    assert Uncut(es + [e]);
  }

  // ---- the daemon with nothing to do

  predicate Quiet(d: D.DaemonState, cfg: Configs) {
    && Serving(d, cfg.daemon.descriptors)
    && d.driver.rx == [] && d.driver.tx == [] && d.hand.None? && d.channel == []
  }

  function Attach(): Frame {
    LifecycleRequest(C.ATTACH_ID, AttachRequest)
  }

  ghost function Announcement(cfg: Configs): Frame
    requires ConfigsOk(cfg)
  {
    D.AttachReply(cfg.daemon, Attach(), 0)
  }

  lemma AttachServed(d: D.DaemonState, cfg: Configs)
    requires ConfigsOk(cfg) && Fresh(d) && d.driver.rx == [] && d.driver.tx == []
    ensures var (d', out) := D.Step(d, cfg.daemon, D.Received(Encode(Attach()), true));
            Quiet(d', cfg) && out == [Encode(Announcement(cfg))]
  {
    hide D.AttachReply, D.Flushable, D.ReceiveRequest;
    D.IdleIsFlushable(d.queues);
    RoundTrip(Attach());
    hide Encode, Decode;
    EncodeOne(Announcement(cfg));
  }

  // A data request that fits the pump's buffer is in TX after the event.
  lemma RequestReachesTx(d: D.DaemonState, cfg: Configs, f: Frame)
    requires ConfigsOk(cfg) && Quiet(d, cfg) && D.FirstRule(cfg.daemon.outcomes, f.requestId).None?
    requires f.frameType.Request? && f.transferType.Bulk? && Encodable(f) && |Encode(f)| <= MAX_DRIVER_FRAME
    ensures var (d', out) := D.Step(d, cfg.daemon, D.Received(Encode(f), true));
            && out == [] && D.Idle(d'.queues)
            && d' == d.(queues := d'.queues, driver := d.driver.(tx := [Encode(f)]))
  {
    hide D.Flush, D.Flushable, HandleControl;
    D.IdleIsFlushable(d.queues);
    D.FlushOne(d.queues, f, d.driver);
    RoundTrip(f);
    hide Encode, Decode;
    PushThenPump(d.driver, Encode(f));
    assert [] + [Encode(f)] == [Encode(f)] && Flatten(d.driver.tx) == [];
  }

  // ---- the handshake

  ghost predicate Working(cfg: Configs) {
    && ConfigsOk(cfg) && CanEnumerate(cfg.daemon.descriptors)
    && cfg.client.limit.Some? && cfg.client.limit.value >= 1
  }

  ghost function Announced(cfg: Configs): DescriptorSet
    requires Working(cfg)
  {
    DecodeSet(SetBytes(cfg.daemon.descriptors)).value
  }

  ghost function Asked(cfg: Configs, k: nat): Frame
    requires Working(cfg) && k < C.CONTROL_REQUESTS
  {
    ControlRequest(C.FIRST_CONTROL_ID + k, Enumeration.Request(k, Announced(cfg)))
  }

  predicate NoDataYet(c: C.ClientState) {
    c.generated == c.dataResponses == 0 && c.local == [] && !c.detachSent
  }

  // The client's k-th control request is on its way.
  ghost predicate Asking(s: System, cfg: Configs, k: nat)
    requires Working(cfg) && k < C.CONTROL_REQUESTS
  {
    && Runnable(s) && Quiet(s.daemon, cfg) && NoDataYet(s.client)
    && s.client.stage == C.AwaitControl(k) && s.client.descriptors == Some(Announced(cfg))
    && s.toDaemon == [Encode(Asked(cfg, k))] && s.toClient == []
  }

  predicate Events(bs: seq<seq<u8>>) {
    forall i :: 0 <= i < |bs| ==> Decode(bs[i]).Ok? && Decode(bs[i]).value.frameType.Event?
  }

  // The client is in its data phase with i requests answered, and nothing else is on its way.
  ghost predicate Ready(s: System, cfg: Configs, i: nat) {
    && Runnable(s) && Quiet(s.daemon, cfg) && s.toDaemon == [] && Events(s.toClient)
    && s.client.stage == C.Data && s.client.local == [] && !s.client.detachSent
    && s.client.generated == s.client.dataResponses == i
  }

  lemma StartAsks(start: System, cfg: Configs) returns (s: System)
    requires Working(cfg) && Initial(start)
    ensures Runnable(start) && Reachable(start, cfg, s) && Asking(s, cfg, 0)
  {
    hide Initial, D.Step, Encode, Decode, CanEnumerate, SetBytes, DecodeSet, SetEncodable, C.ReceiveLifecycle,
      D.AttachReply,
      ControlRequest, Enumeration.Request;
    InitialInv(start, cfg);
    StartReachable(start, cfg);
    Reaches(start, cfg, start, DaemonReceives(true));
    var s1 := Step(start, cfg, DaemonReceives(true));
    AnnouncementSent(start, cfg);
    Reaches(start, cfg, s1, ClientReceives(true));
    AnnouncementTaken(s1, cfg);
    s := Step(s1, cfg, ClientReceives(true));
  }

  lemma StartReachable(start: System, cfg: Configs)
    requires ConfigsOk(cfg) && Runnable(start)
    ensures Reachable(start, cfg, start)
  {
    assert Composition.Run(start, cfg, []) == start;
  }

  ghost predicate Announcing(s: System, cfg: Configs)
    requires Working(cfg)
  {
    && Runnable(s) && Quiet(s.daemon, cfg) && s.client == C.START
    && s.toDaemon == [] && s.toClient == [Encode(Announcement(cfg))]
  }

  lemma AnnouncementSent(start: System, cfg: Configs)
    requires Working(cfg) && Initial(start)
    ensures Runnable(start) && Announcing(Step(start, cfg, DaemonReceives(true)), cfg)
  {
    hide D.Step, D.AttachReply, Encode, CanEnumerate;
    AttachServed(start.daemon, cfg);
    StepStaysRunnable(start, cfg, DaemonReceives(true));
  }

  lemma AnnouncementTaken(s: System, cfg: Configs)
    requires Working(cfg) && Announcing(s, cfg)
    ensures Asking(Step(s, cfg, ClientReceives(true)), cfg, 0)
  {
    hide Encode, Decode, D.AttachReply, C.ReceiveLifecycle, SetBytes, DecodeSet, SetEncodable, ControlRequest,
      Enumeration.Request;
    RoundTrip(Announcement(cfg));
    AnnouncedSet(cfg.daemon);
    StepStaysRunnable(s, cfg, ClientReceives(true));
    EncodeOne(Asked(cfg, 0));
    assert [] + [Encode(Asked(cfg, 0))] == [Encode(Asked(cfg, 0))];
  }

  // ---- one control request

  ghost function Outcome(s: System, cfg: Configs, k: nat): ControlOutcome
    requires Working(cfg) && k < C.CONTROL_REQUESTS
  {
    HandleControl(Asked(cfg, k), Some(cfg.daemon.descriptors), s.daemon.device, cfg.daemon.keycodes)
  }

  // The daemon's response and the events after it are on their way.
  ghost predicate Answering(s: System, cfg: Configs, k: nat, o: ControlOutcome)
    requires Working(cfg) && k < C.CONTROL_REQUESTS
  {
    && Runnable(s) && Quiet(s.daemon, cfg) && NoDataYet(s.client)
    && s.client.stage == C.AwaitControl(k) && s.client.descriptors == Some(Announced(cfg))
    && Encodable(o.response) && D.AllEncodable(o.events)
    && s.toDaemon == [] && s.toClient == [Encode(o.response)] + D.EncodeAll(o.events)
  }

  lemma AskedIsControl(cfg: Configs, k: nat)
    requires Working(cfg) && k < C.CONTROL_REQUESTS
    ensures IsControlRequest(Asked(cfg, k))
  {
    hide CanEnumerate, Enumeration.Request;
  }

  lemma RequestAnsweredNow(s: System, cfg: Configs, k: nat)
    requires Working(cfg) && k < C.CONTROL_REQUESTS && Asking(s, cfg, k)
    ensures Answering(Step(s, cfg, DaemonReceives(true)), cfg, k, Outcome(s, cfg, k))
  {
    hide D.Step, Encode, Decode, CanEnumerate, HandleControl, Asked, Announced;
    AskedIsControl(cfg, k);
    OneArrival(s.daemon, cfg.daemon, Asked(cfg, k), cfg.daemon.descriptors);
    StepStaysRunnable(s, cfg, DaemonReceives(true));
    var o := Outcome(s, cfg, k);
    var all := [o.response] + o.events;
    assert all[0] == o.response && all[1..] == o.events;
    assert forall i :: 0 <= i < |o.events| ==> all[i + 1] == o.events[i];
    assert [] + D.EncodeAll(all) == D.EncodeAll(all);
  }

  lemma {:induction false} EventsEncoded(fs: seq<Frame>)
    requires D.AllEncodable(fs) && forall i :: 0 <= i < |fs| ==> fs[i].frameType.Event?
    ensures Events(D.EncodeAll(fs))
    decreases |fs|
  {
    hide Decode, Encode;
    if fs != [] {
      RoundTrip(fs[0]);
      EventsEncoded(fs[1..]);
      var rest := D.EncodeAll(fs[1..]);
      assert forall i :: 0 < i < |fs| ==> D.EncodeAll(fs)[i] == rest[i - 1];
    }
  }

  lemma OutcomeEvents(s: System, cfg: Configs, k: nat)
    requires Working(cfg) && k < C.CONTROL_REQUESTS
    ensures forall i :: 0 <= i < |Outcome(s, cfg, k).events| ==> Outcome(s, cfg, k).events[i].frameType.Event?
    ensures k < 4 ==> Outcome(s, cfg, k).events == []
  {
    hide CanEnumerate, Encode, Answer, ReportDescriptorBytes, SetEncodable, SetBytes, DecodeSet, ConfigurationAccepted,
      After;
    TransferRoundTrip(ControlTransfer(Enumeration.Request(k, Announced(cfg)), []));
    hide EncodeTransfer, DecodeTransfer, Announced;
  }

  lemma AllPass(cfg: Configs, k: nat)
    requires Working(cfg) && k < C.CONTROL_REQUESTS
    ensures SetEncodable(cfg.daemon.descriptors) && ReportFits(Announced(cfg)) && Report(Announced(cfg)).Ok?
    ensures Passes(k, Announced(cfg), cfg.daemon.descriptors)
  {
    hide SetEncodable, SetBytes, DecodeSet, Report;
    DecodedReportFits(SetBytes(cfg.daemon.descriptors));
  }

  lemma AnswerTaken(s: System, s': System, cfg: Configs, k: nat, o: ControlOutcome)
    requires Working(cfg) && k < C.CONTROL_REQUESTS && Answering(s, cfg, k, o)
    requires Runnable(s) && s' == Step(s, cfg, ClientReceives(true))
    requires C.ReceiveControl(s.client, k, o.response)
          == if k == 4 then (s.client.(stage := C.Data), [])
             else (s.client.(stage := C.AwaitControl(k + 1)), [Asked(cfg, k + 1)])
    requires k < 4 ==> o.events == []
    requires forall i :: 0 <= i < |o.events| ==> o.events[i].frameType.Event?
    ensures if k == 4 then Ready(s', cfg, 0) else Asking(s', cfg, k + 1)
  {
    hide C.ReceiveControl, Encode, Decode, CanEnumerate, Asked, Announced;
    RoundTrip(o.response);
    EventsEncoded(o.events);
    StepStaysRunnable(s, cfg, ClientReceives(true));
    assert s.toClient[0] == Encode(o.response) && s.toClient[1..] == D.EncodeAll(o.events);
    if k < 4 {
      EncodeOne(Asked(cfg, k + 1));
    }
  }

  lemma AskedThenAnswered(start: System, cfg: Configs, s: System, k: nat) returns (s': System)
    requires Working(cfg) && Runnable(start) && Reachable(start, cfg, s) && k < C.CONTROL_REQUESTS && Asking(s, cfg, k)
    ensures Reachable(start, cfg, s')
    ensures if k == 4 then Ready(s', cfg, 0) else Asking(s', cfg, k + 1)
  {
    hide Step, Asking, Answering, CanEnumerate, Runnable, HandleControl, C.ReceiveControl, SetEncodable, Passes,
      ReportFits, Report;
    assert Runnable(s) && s.client.stage == C.AwaitControl(k) && s.client.descriptors == Some(Announced(cfg)) by {
      AskingClient(s, cfg, k);
    }
    var o := Outcome(s, cfg, k);
    Reaches(start, cfg, s, DaemonReceives(true));
    var s1 := Step(s, cfg, DaemonReceives(true));
    RequestAnsweredNow(s, cfg, k);
    AnsweringClient(s1, cfg, k, o);
    AllPass(cfg, k);
    OutcomeEvents(s, cfg, k);
    RequestExchanged(s1.client, k, Announced(cfg), cfg.daemon.descriptors, s.daemon.device, cfg.daemon.keycodes);
    Reaches(start, cfg, s1, ClientReceives(true));
    s' := Step(s1, cfg, ClientReceives(true));
    AnswerTaken(s1, s', cfg, k, o);
  }

  lemma AskingClient(s: System, cfg: Configs, k: nat)
    requires Working(cfg) && k < C.CONTROL_REQUESTS && Asking(s, cfg, k)
    ensures Runnable(s) && s.client.stage == C.AwaitControl(k) && s.client.descriptors == Some(Announced(cfg))
  {
    hide CanEnumerate;
  }

  lemma AnsweringClient(s: System, cfg: Configs, k: nat, o: ControlOutcome)
    requires Working(cfg) && k < C.CONTROL_REQUESTS && Answering(s, cfg, k, o)
    ensures Runnable(s) && s.client.stage == C.AwaitControl(k) && s.client.descriptors == Some(Announced(cfg))
  {
    hide CanEnumerate;
  }

  lemma {:induction false} Enumerated(start: System, cfg: Configs, s: System, k: nat) returns (s': System)
    requires Working(cfg) && Runnable(start) && Reachable(start, cfg, s) && k < C.CONTROL_REQUESTS && Asking(s, cfg, k)
    ensures Reachable(start, cfg, s') && Ready(s', cfg, 0)
    decreases C.CONTROL_REQUESTS - k
  {
    hide Reachable, Asking, Ready, Working;
    s' := AskedThenAnswered(start, cfg, s, k);
    if k < 4 {
      s' := Enumerated(start, cfg, s', k + 1);
    }
  }

  // ---- events the client only logs

  lemma {:induction false} Drained(start: System, cfg: Configs, s: System, i: nat) returns (s': System)
    requires ConfigsOk(cfg) && Runnable(start) && Reachable(start, cfg, s) && Ready(s, cfg, i)
    ensures Reachable(start, cfg, s') && Ready(s', cfg, i) && s'.toClient == []
    decreases |s.toClient|
  {
    hide Decode, Reachable, Quiet;
    s' := s;
    if s.toClient != [] {
      Reaches(start, cfg, s, ClientReceives(true));
      StepStaysRunnable(s, cfg, ClientReceives(true));
      assert Decode(s.toClient[0]).Ok? && Decode(s.toClient[0]).value.frameType.Event?;
      var next := Step(s, cfg, ClientReceives(true));
      assert next.toDaemon == [] + [];
      s' := Drained(start, cfg, next, i);
    }
  }

  // ---- one data request

  // Requests any data that the pump's buffer has room for.
  predicate SmallData(data: Option<seq<u8>>) {
    data.Some? ==> |data.value| <= MAX_DRIVER_FRAME - 44
  }

  function Request(i: nat, data: Option<seq<u8>>): Frame
    requires SmallData(data) && C.FIRST_DATA_ID + i < TWO_TO_64
  {
    C.DataRequest(C.FIRST_DATA_ID + i, data)
  }

  lemma RequestIsSmall(i: nat, data: Option<seq<u8>>)
    requires SmallData(data) && C.FIRST_DATA_ID + i < TWO_TO_64
    ensures var f := Request(i, data);
            && f.frameType.Request? && f.transferType.Bulk? && Encodable(f) && |Encode(f)| <= MAX_DRIVER_FRAME
            && var r := D.OutboundNetworkFrame(f);
            r.frameType.Response? && r.status == 0 && Encodable(r)
  {
    D.OutboundEchoes(Request(i, data));
  }

  // The client's side of a round: made and sent.
  ghost predicate Busy(s: System, cfg: Configs, i: nat, f: Frame) {
    && Runnable(s) && Serving(s.daemon, cfg.daemon.descriptors) && s.daemon.driver.rx == []
    && s.client.stage == C.Data && s.client.local == [] && !s.client.detachSent
    && s.client.generated == i + 1 && s.client.dataResponses == i && Encodable(f)
  }

  lemma RequestSent(start: System, cfg: Configs, s: System, i: nat, data: Option<seq<u8>>) returns (s': System)
    requires Working(cfg) && Runnable(start) && Reachable(start, cfg, s)
    requires Ready(s, cfg, i) && s.toClient == [] && i < cfg.client.limit.value && SmallData(data)
    ensures Reachable(start, cfg, s') && Busy(s', cfg, i, Request(i, data))
    ensures s'.daemon == s.daemon && s'.toClient == [] && s'.toDaemon == [Encode(Request(i, data))]
  {
    hide Reachable, CanEnumerate, Encode, C.Record, Serving;
    var f := Request(i, data);
    Reaches(start, cfg, s, ClientMakes(data));
    StepStaysRunnable(s, cfg, ClientMakes(data));
    var s1 := Step(s, cfg, ClientMakes(data));
    assert s1.client.local == [] + [f] == [f];
    Reaches(start, cfg, s1, ClientSends);
    StepStaysRunnable(s1, cfg, ClientSends);
    s' := Step(s1, cfg, ClientSends);
    EncodeOne(f);
    assert [] + [Encode(f)] == [Encode(f)];
  }

  lemma RequestDispatched(start: System, cfg: Configs, s: System, i: nat, f: Frame) returns (s': System)
    requires Working(cfg) && Runnable(start) && Reachable(start, cfg, s) && Busy(s, cfg, i, f)
    requires Quiet(s.daemon, cfg) && s.toClient == [] && s.toDaemon == [Encode(f)]
    requires f.frameType.Request? && f.transferType.Bulk? && |Encode(f)| <= MAX_DRIVER_FRAME
    requires D.FirstRule(cfg.daemon.outcomes, f.requestId).None?
    ensures Reachable(start, cfg, s') && Busy(s', cfg, i, f) && s'.toClient == [] && s'.toDaemon == []
    ensures s'.daemon.driver.tx == [Encode(f)] && s'.daemon.hand.None? && s'.daemon.channel == []
  {
    hide Reachable, CanEnumerate, Encode, D.Step;
    RequestReachesTx(s.daemon, cfg, f);
    Reaches(start, cfg, s, DaemonReceives(true));
    StepStaysRunnable(s, cfg, DaemonReceives(true));
    s' := Step(s, cfg, DaemonReceives(true));
  }

  lemma ResponseForwarded(start: System, cfg: Configs, s: System, i: nat, f: Frame) returns (s': System)
    requires Working(cfg) && Runnable(start) && Reachable(start, cfg, s) && Busy(s, cfg, i, f)
    requires s.toClient == [] && s.toDaemon == []
    requires s.daemon.driver.tx == [Encode(f)] && s.daemon.hand.None? && s.daemon.channel == []
    requires |Encode(f)| <= MAX_DRIVER_FRAME
    ensures Encodable(D.OutboundNetworkFrame(f))
    ensures Reachable(start, cfg, s') && Busy(s', cfg, i, f) && s'.toDaemon == [] && Quiet(s'.daemon, cfg)
    ensures s'.toClient == [Encode(D.OutboundNetworkFrame(f))]
  {
    hide Reachable, CanEnumerate, Encode, Decode, D.Receive, D.EncodeAll;
    RoundTrip(f);
    var r := D.OutboundNetworkFrame(f);
    hide D.OutboundNetworkFrame;
    Reaches(start, cfg, s, DaemonDoes(D.Poll));
    StepStaysRunnable(s, cfg, DaemonDoes(D.Poll));
    var s1 := Step(s, cfg, DaemonDoes(D.Poll));
    assert s1 == s.(daemon := s.daemon.(driver := s.daemon.driver.(tx := []), hand := Some(r)));
    Reaches(start, cfg, s1, DaemonDoes(D.Forward));
    StepStaysRunnable(s1, cfg, DaemonDoes(D.Forward));
    var s2 := Step(s1, cfg, DaemonDoes(D.Forward));
    assert s2 == s1.(daemon := s1.daemon.(hand := None, channel := [Encode(r)]));
    Reaches(start, cfg, s2, DaemonDoes(D.Deliver));
    StepStaysRunnable(s2, cfg, DaemonDoes(D.Deliver));
    s' := Step(s2, cfg, DaemonDoes(D.Deliver));
  }

  // A request with a rule is answered at once, with what the rule says.
  lemma RequestInjected(start: System, cfg: Configs, s: System, i: nat, f: Frame) returns (s': System)
    requires Working(cfg) && Runnable(start) && Reachable(start, cfg, s) && Busy(s, cfg, i, f)
    requires Quiet(s.daemon, cfg) && s.toClient == [] && s.toDaemon == [Encode(f)]
    requires f.frameType.Request? && f.transferType.Bulk? && D.FirstRule(cfg.daemon.outcomes, f.requestId).Some?
    ensures var r := D.InjectedResponse(f, D.FirstRule(cfg.daemon.outcomes, f.requestId).value);
            && Reachable(start, cfg, s') && Busy(s', cfg, i, f) && Quiet(s'.daemon, cfg)
            && s'.toDaemon == [] && s'.toClient == [Encode(r)]
  {
    hide Reachable, CanEnumerate, Encode, D.Step, Decode;
    InjectedNow(s.daemon, cfg, f);
    Reaches(start, cfg, s, DaemonReceives(true));
    StepStaysRunnable(s, cfg, DaemonReceives(true));
    s' := Step(s, cfg, DaemonReceives(true));
  }

  lemma InjectedNow(d: D.DaemonState, cfg: Configs, f: Frame)
    requires ConfigsOk(cfg) && Quiet(d, cfg) && Encodable(f)
    requires f.frameType.Request? && f.transferType.Bulk? && D.FirstRule(cfg.daemon.outcomes, f.requestId).Some?
    ensures var r := D.InjectedResponse(f, D.FirstRule(cfg.daemon.outcomes, f.requestId).value);
            D.Step(d, cfg.daemon, D.Received(Encode(f), true)) == (d, [Encode(r)])
  {
    hide D.Flush, D.Flushable, HandleControl, D.FirstRule, D.InjectedResponse;
    D.IdleIsFlushable(d.queues);
    RoundTrip(f);
    hide Encode, Decode;
    EncodeOne(D.InjectedResponse(f, D.FirstRule(cfg.daemon.outcomes, f.requestId).value));
  }

  function DetachFrame(cfg: Configs): Frame
    requires C.ConfigOk(cfg.client)
  {
    LifecycleRequest(C.DetachId(cfg.client), DetachRequest)
  }

  ghost predicate Detaching(s: System, cfg: Configs)
    requires ConfigsOk(cfg)
  {
    && Runnable(s) && Serving(s.daemon, cfg.daemon.descriptors) && s.client.stage == C.Data
    && s.toDaemon == [Encode(DetachFrame(cfg))] && s.toClient == []
  }

  lemma ResponseCounted(start: System, cfg: Configs, s: System, i: nat, f: Frame, r: Frame) returns (s': System)
    requires Working(cfg) && Runnable(start) && Reachable(start, cfg, s) && Busy(s, cfg, i, f)
    requires Quiet(s.daemon, cfg) && s.toDaemon == []
    requires r.frameType.Response? && Encodable(r) && s.toClient == [Encode(r)]
    ensures Reachable(start, cfg, s')
    ensures if i + 1 == cfg.client.limit.value then Detaching(s', cfg) else Ready(s', cfg, i + 1)
  {
    hide Reachable, CanEnumerate, Encode, Decode, Quiet, Serving;
    RoundTrip(r);
    Reaches(start, cfg, s, ClientReceives(true));
    StepStaysRunnable(s, cfg, ClientReceives(true));
    s' := Step(s, cfg, ClientReceives(true));
    EncodeOne(DetachFrame(cfg));
    assert [] + [Encode(DetachFrame(cfg))] == [Encode(DetachFrame(cfg))];
  }

  lemma RoundDone(start: System, cfg: Configs, s: System, i: nat, data: Option<seq<u8>>) returns (s': System)
    requires Working(cfg) && Runnable(start) && Reachable(start, cfg, s)
    requires Ready(s, cfg, i) && i < cfg.client.limit.value && SmallData(data)
    ensures Reachable(start, cfg, s')
    ensures if i + 1 == cfg.client.limit.value then Detaching(s', cfg) else Ready(s', cfg, i + 1)
  {
    hide Reachable, CanEnumerate, Encode, Busy, D.OutboundNetworkFrame, C.DataRequest;
    var s0 := Drained(start, cfg, s, i);
    RequestIsSmall(i, data);
    var f := Request(i, data);
    var s1 := RequestSent(start, cfg, s0, i, data);
    var rule := D.FirstRule(cfg.daemon.outcomes, f.requestId);
    if rule.None? {
      var s2 := RequestDispatched(start, cfg, s1, i, f);
      var s3 := ResponseForwarded(start, cfg, s2, i, f);
      s' := ResponseCounted(start, cfg, s3, i, f, D.OutboundNetworkFrame(f));
    } else {
      var s2 := RequestInjected(start, cfg, s1, i, f);
      s' := ResponseCounted(start, cfg, s2, i, f, D.InjectedResponse(f, rule.value));
    }
  }

  lemma {:induction false} RoundsDone(start: System, cfg: Configs, s: System, i: nat, data: Option<seq<u8>>)
    returns (s': System)
    requires Working(cfg) && Runnable(start) && Reachable(start, cfg, s)
    requires Ready(s, cfg, i) && i < cfg.client.limit.value && SmallData(data)
    ensures Reachable(start, cfg, s') && Detaching(s', cfg)
    decreases cfg.client.limit.value - i
  {
    hide Reachable, Ready, CanEnumerate, Detaching, SmallData;
    s' := RoundDone(start, cfg, s, i, data);
    if i + 1 < cfg.client.limit.value {
      s' := RoundsDone(start, cfg, s', i + 1, data);
    }
  }

  // The detach request, under the id after the last data request's, is next to reach the daemon.
  ghost predicate DetachNext(s: System, cfg: Configs) {
    && s.toDaemon != [] && Decode(s.toDaemon[0]).Ok?
    && var f := Decode(s.toDaemon[0]).value;
    f.frameType.DetachRequest? && cfg.client.limit.Some? && f.requestId == 7 + cfg.client.limit.value
  }

  // With a limit of at least one and a device the client can enumerate, some run brings the detach
  // request to the daemon, whatever data each request carries and whatever outcomes are injected.
  lemma DetachIsReached(start: System, cfg: Configs, data: Option<seq<u8>>) returns (s: System)
    requires Working(cfg) && Initial(start) && SmallData(data)
    ensures Runnable(start) && Reachable(start, cfg, s) && Detaching(s, cfg) && DetachNext(s, cfg)
  {
    hide Asking, Ready, CanEnumerate, Initial;
    s := StartAsks(start, cfg);
    s := Enumerated(start, cfg, s, 0);
    s := RoundsDone(start, cfg, s, 0, data);
    RoundTrip(DetachFrame(cfg));
    hide Encode, Decode, Reachable;
  }

  // The daemon detaches and says so, and the client ends well.
  lemma DetachIsAccepted(start: System, cfg: Configs, s: System) returns (s': System)
    requires Working(cfg) && Runnable(start) && Reachable(start, cfg, s) && Detaching(s, cfg)
    ensures Reachable(start, cfg, s') && s'.client.stage == C.Ended(true)
  {
    hide Reachable, CanEnumerate, Encode, Decode, D.Step;
    var f := DetachFrame(cfg);
    Reaches(start, cfg, s, DaemonReceives(true));
    StepStaysRunnable(s, cfg, DaemonReceives(true));
    DetachIsAnswered(s.daemon, cfg.daemon, f, true);
    var s1 := Step(s, cfg, DaemonReceives(true));
    assert s1.toClient == [] + Arrive(s.daemon, cfg.daemon, f, true).1;
    Reaches(start, cfg, s1, ClientReceives(true));
    s' := Step(s1, cfg, ClientReceives(true));
  }

  lemma Closes(start: System, cfg: Configs, data: Option<seq<u8>>) returns (s: System)
    requires Working(cfg) && Initial(start) && SmallData(data)
    ensures Runnable(start) && Reachable(start, cfg, s) && s.client.stage == C.Ended(true)
  {
    hide Reachable, CanEnumerate, Initial, Detaching;
    s := DetachIsReached(start, cfg, data);
    s := DetachIsAccepted(start, cfg, s);
  }

  // On a device it can enumerate, the client can detach, and can end well without being cut off, if
  // and only if its limit is at least one.
  lemma DetachesExactly(start: System, cfg: Configs)
    requires ConfigsOk(cfg) && Initial(start) && CanEnumerate(cfg.daemon.descriptors)
    ensures Runnable(start)
    ensures (exists es :: DetachNext(Composition.Run(start, cfg, es), cfg))
       <==> cfg.client.limit.Some? && cfg.client.limit.value >= 1
  {
    hide Composition.Run, CanEnumerate, Initial, Decode, Detaching;
    InitialInv(start, cfg);
    if cfg.client.limit.Some? && cfg.client.limit.value >= 1 {
      var s := DetachIsReached(start, cfg, None);
      var es :| Uncut(es) && Composition.Run(start, cfg, es) == s;
      assert DetachNext(Composition.Run(start, cfg, es), cfg);
    } else {
      forall es
        ensures !DetachNext(Composition.Run(start, cfg, es), cfg)
      {
        Quiescence.NeverDetaches(start, cfg, es);
      }
    }
  }

  lemma EndsWellExactly(start: System, cfg: Configs)
    requires ConfigsOk(cfg) && Initial(start) && CanEnumerate(cfg.daemon.descriptors)
    ensures Runnable(start)
    ensures (exists es :: Uncut(es) && Composition.Run(start, cfg, es).client.stage == C.Ended(true))
       <==> cfg.client.limit.Some? && cfg.client.limit.value >= 1
  {
    hide Composition.Run, CanEnumerate, Initial, Decode;
    InitialInv(start, cfg);
    if cfg.client.limit.Some? && cfg.client.limit.value >= 1 {
      var s := Closes(start, cfg, None);
    } else {
      forall es | Uncut(es)
        ensures Composition.Run(start, cfg, es).client.stage != C.Ended(true)
      {
        EndsWellWithAllAnswered(start, cfg, es);
      }
    }
  }
}

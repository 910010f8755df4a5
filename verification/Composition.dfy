// Client and daemon joined by two FIFO channels of frames.

module Composition {
  import opened Bytes
  import opened DaemonConservation
  import opened DaemonRuns
  import opened FrameCodec
  import opened Wrappers
  import C = ClientSpec
  import D = DaemonSpec

  // The last three fields are history: the first id not yet issued, the ids of the responses the
  // client has taken off its channel, and the requests it made under each id.
  datatype System = System(
    client: C.ClientState,
    daemon: D.DaemonState,
    toDaemon: seq<seq<u8>>,
    toClient: seq<seq<u8>>,
    nextId: nat,
    received: multiset<u64>,
    requests: map<u64, Frame>)

  datatype SystemEvent =
    | ClientReceives(injectOk: bool)
    | ClientMakes(data: Option<seq<u8>>)
    | ClientSends
    | DaemonReceives(driverOk: bool)
    | DaemonDoes(event: D.Event)
    | ServerCloses

  datatype Configs = Configs(client: C.ClientConfig, daemon: D.Config)

  ghost predicate ConfigsOk(cfg: Configs) {
    C.ConfigOk(cfg.client) && D.ConfigOk(cfg.daemon)
  }

  predicate Runnable(s: System) {
    D.Idle(s.daemon.queues) && D.HandOk(s.daemon) && C.LocalOk(s.client)
  }

  // The first id the client has not used, where its stage tells.
  function Next(c: C.ClientState, before: nat): nat {
    match c.stage
    case AwaitAttach => C.FIRST_CONTROL_ID
    case AwaitControl(k) => C.FIRST_CONTROL_ID + k + 1
    case Data => C.FIRST_DATA_ID + c.generated
    case Ended(_) => before
  }

  function ResponseId(b: seq<u8>): multiset<u64> {
    match Decode(b)
    case Ok(f) => if f.frameType.Response? then multiset{f.requestId} else multiset{}
    case Err(_) => multiset{}
  }

  function Noted(requests: map<u64, Frame>, out: seq<Frame>): map<u64, Frame> {
    if out != [] && out[0].frameType.Request? then requests[out[0].requestId := out[0]] else requests
  }

  ghost function Step(s: System, cfg: Configs, e: SystemEvent): System
    requires ConfigsOk(cfg) && Runnable(s)
  {
    match e
    case ClientReceives(injectOk) =>
      if s.toClient == [] || s.client.stage.Ended? then s
      else
        var (c, out) := C.Receive(s.client, cfg.client, s.toClient[0], injectOk);
        s.(client := c, toClient := s.toClient[1..], toDaemon := s.toDaemon + D.EncodeAll(out),
           nextId := Next(c, s.nextId), received := s.received + ResponseId(s.toClient[0]),
           requests := Noted(s.requests, out))
    case ClientMakes(data) =>
      var c := C.Generate(s.client, cfg.client, data);
      s.(client := c, nextId := Next(c, s.nextId), requests := Noted(s.requests, c.local[|s.client.local|..]))
    case ClientSends =>
      var (c, out) := C.SendLocal(s.client);
      s.(client := c, toDaemon := s.toDaemon + D.EncodeAll(out))
    case DaemonReceives(driverOk) =>
      if s.toDaemon == [] || !s.daemon.loop.Open? then s
      else
        var (d, out) := D.Step(s.daemon, cfg.daemon, D.Received(s.toDaemon[0], driverOk));
        s.(daemon := d, toDaemon := s.toDaemon[1..], toClient := s.toClient + out)
    case DaemonDoes(event) =>
      if event.Received? then s
      else
        var (d, out) := D.Step(s.daemon, cfg.daemon, event);
        s.(daemon := d, toClient := s.toClient + out)
    case ServerCloses => s.(client := C.ServerGone(s.client))
  }

  lemma StepStaysRunnable(s: System, cfg: Configs, e: SystemEvent)
    requires ConfigsOk(cfg) && Runnable(s)
    ensures Runnable(Step(s, cfg, e))
  {
    hide C.Receive, C.Generate, C.SendLocal, D.Step, D.EncodeAll;
    match e {
      case DaemonReceives(driverOk) =>
        if s.toDaemon != [] {
          StepLeavesIdle(s.daemon, cfg.daemon, D.Received(s.toDaemon[0], driverOk));
        }
      case DaemonDoes(event) => StepLeavesIdle(s.daemon, cfg.daemon, event);
      case _ =>
    }
  }

  ghost function Run(s: System, cfg: Configs, es: seq<SystemEvent>): (s': System)
    requires ConfigsOk(cfg) && Runnable(s)
    ensures Runnable(s')
    decreases |es|
  {
    if es == [] then s
    else
      StepStaysRunnable(s, cfg, es[0]);
      Run(Step(s, cfg, es[0]), cfg, es[1..])
  }

  // A new client, its attach request on its way to a new session over an empty driver.
  ghost predicate Initial(s: System) {
    && s.client == C.START
    && s.toDaemon == [Encode(LifecycleRequest(C.ATTACH_ID, AttachRequest))]
    && s.toClient == [] && s.nextId == C.FIRST_CONTROL_ID && s.received == multiset{} && s.requests == map[]
    && Fresh(s.daemon)
    && s.daemon.driver.rx == [] && s.daemon.driver.tx == [] && s.daemon.driver.lost == []
  }

  // ---- what is on the channels

  predicate ClientSaid(b: seq<u8>, detachSent: bool) {
    && Decode(b).Ok?
    && var t := Decode(b).value.frameType;
    t.AttachRequest? || t.Request? || (t.DetachRequest? && detachSent)
  }

  predicate AllClientSaid(bs: seq<seq<u8>>, detachSent: bool) {
    forall i :: 0 <= i < |bs| ==> ClientSaid(bs[i], detachSent)
  }

  predicate NoCancelResponse(b: seq<u8>) {
    Decode(b).Ok? ==> !Decode(b).value.frameType.CancelResponse?
  }

  predicate NoCancelResponses(bs: seq<seq<u8>>) {
    forall i :: 0 <= i < |bs| ==> NoCancelResponse(bs[i])
  }

  predicate AllRequests(fs: seq<Frame>) {
    forall i :: 0 <= i < |fs| ==> fs[i].frameType.Request?
  }

  predicate Handshaking(c: C.ClientState) {
    c.stage.AwaitAttach? || c.stage.AwaitControl?
  }

  ghost predicate Formed(s: System) {
    && Runnable(s)
    && WellFormed(s.daemon)
    && AllRequests(s.client.local)
    && AllClientSaid(s.toDaemon, s.client.detachSent)
    && NoCancelResponses(s.toClient)
  }

  // ---- every issued request is in exactly one place

  function Issued(nextId: nat, id: u64): nat {
    if C.FIRST_CONTROL_ID <= id < nextId then 1 else 0
  }

  function Placed(s: System, id: u64): nat {
    CountFrames(s.client.local, Request, id) + Count(s.toDaemon, Request, id) + InFlight(s.daemon, id)
    + Count(s.toClient, Response, id) + s.received[id]
  }

  ghost predicate Conserved(s: System) {
    forall id: u64 :: Placed(s, id) == Issued(s.nextId, id)
  }

  // ---- how far the client has come

  // Each control request answered, and each data response counted, took a response off the channel.
  predicate Progress(c: C.ClientState, limit: Option<u64>, nextId: nat, received: nat) {
    && C.FIRST_CONTROL_ID <= nextId <= C.FIRST_DATA_ID + c.generated
    && Next(c, nextId) == nextId
    && (Handshaking(c) ==>
          c.generated == c.dataResponses == 0 && c.local == [] && c.pendingBulk == map[] && !c.detachSent)
    && (c.stage.AwaitControl? ==> received >= c.stage.k)
    && (c.stage.Data? || c.dataResponses > 0 ==> received >= C.CONTROL_REQUESTS + c.dataResponses)
    && (limit.Some? ==> c.generated <= limit.value)
    && (c.detachSent ==> limit.Some? && 1 <= limit.value <= c.dataResponses)
  }

  predicate Counted(s: System, limit: Option<u64>) {
    Progress(s.client, limit, s.nextId, |s.received|)
  }

  predicate PendingOk(s: System) {
    forall id :: id in s.client.pendingBulk ==> C.FIRST_CONTROL_ID <= id < s.nextId && s.received[id] == 0
  }

  ghost predicate Inv(s: System, cfg: Configs) {
    Formed(s) && Conserved(s) && Counted(s, cfg.client.limit) && PendingOk(s)
  }
}

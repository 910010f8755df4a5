// Exactly what the client counts, over every run of the composed client and daemon, and how it ends.

module ResponseCount {
  import opened Bytes
  import opened Composition
  import opened CompositionInvariant
  import opened ControlTransfers
  import opened DaemonConservation
  import opened FrameCodec
  import opened Quiescence
  import opened Wrappers
  import C = ClientSpec
  import D = DaemonSpec

  // In the data phase, a successful response that the local adapter does not take is not counted.
  function RefusedOne(s: System, e: SystemEvent): nat {
    if e == ClientReceives(false) && s.client.stage.Data? && s.toClient != [] then Success(s.toClient[0]) else 0
  }

  function Success(b: seq<u8>): nat {
    match Decode(b)
    case Ok(f) => if f.frameType.Response? && f.status == 0 then 1 else 0
    case Err(_) => 0
  }

  ghost function RefusedBy(s: System, cfg: Configs, es: seq<SystemEvent>): nat
    requires ConfigsOk(cfg) && Runnable(s)
    decreases |es|
  {
    if es == [] then 0
    else
      StepStaysRunnable(s, cfg, es[0]);
      RefusedOne(s, es[0]) + RefusedBy(Step(s, cfg, es[0]), cfg, es[1..])
  }

  // Each control request answered once, in turn; each data response counted or refused.
  ghost predicate Tallied(c: C.ClientState, received: multiset<u64>, refused: nat) {
    match c.stage
    case AwaitAttach => received == multiset{} && refused == 0
    case AwaitControl(k) =>
      && |received| == k && refused == 0
      && forall id: u64 :: C.FIRST_CONTROL_ID <= id < C.FIRST_CONTROL_ID + k ==> received[id] == 1
    case Data => |received| == C.CONTROL_REQUESTS + c.dataResponses + refused
    case Ended(ok) =>
      if ok then |received| == C.CONTROL_REQUESTS + c.dataResponses + refused
      else c.generated == c.dataResponses == 0
  }

  // A response on its way to the client is to an id that was issued and is not answered yet.
  lemma ResponseIsIssued(s: System, cfg: Configs)
    requires Inv(s, cfg) && s.toClient != [] && Decode(s.toClient[0]).Ok?
    requires Decode(s.toClient[0]).value.frameType.Response?
    ensures var id := Decode(s.toClient[0]).value.requestId;
            C.FIRST_CONTROL_ID <= id < s.nextId && s.received[id] == 0
  {
    var id := Decode(s.toClient[0]).value.requestId;
    assert IsBytes(s.toClient[0], Response, id) == 1;
    hide Decode, InFlight, IsBytes, Formed, Counted, PendingOk;
    assert Placed(s, id) == Issued(s.nextId, id);
    assert Count(s.toClient, Response, id) >= 1;
  }

  lemma TalliesOne(c: C.ClientState, cfg: C.ClientConfig, f: Frame, injectOk: bool, received: multiset<u64>,
          refused: nat, refusedOne: nat)
    requires C.ConfigOk(cfg) && C.LocalOk(c) && Tallied(c, received, refused)
    requires !c.stage.Ended? && !f.frameType.CancelResponse?
    requires Handshaking(c) ==> c.generated == c.dataResponses == 0
    requires f.frameType.Response? ==> !c.stage.AwaitAttach? && received[f.requestId] == 0
    requires f.frameType.Response? && c.stage.AwaitControl? ==> f.requestId == C.FIRST_CONTROL_ID + c.stage.k
    requires refusedOne == if c.stage.Data? && !injectOk && f.frameType.Response? && f.status == 0 then 1 else 0
    ensures var taken := if f.frameType.Response? then multiset{f.requestId} else multiset{};
            Tallied(C.ReceiveFrame(c, cfg, f, injectOk).0, received + taken, refused + refusedOne)
  {
    hide ReportDescriptorBytes, DecodeTransfer;
    var taken: multiset<u64> := if f.frameType.Response? then multiset{f.requestId} else multiset{};
    assert |received + taken| == |received| + |taken|;
    if !f.frameType.Response? {
      assert received + taken == received;
    }
  }

  lemma ClientReceivesTallied(s: System, cfg: Configs, injectOk: bool, refused: nat)
    requires ConfigsOk(cfg) && Inv(s, cfg) && Tallied(s.client, s.received, refused)
    ensures var e := ClientReceives(injectOk); var s' := Step(s, cfg, e);
            Tallied(s'.client, s'.received, refused + RefusedOne(s, e))
  {
    hide D.EncodeAll, WellFormed, AllClientSaid, Placed, PendingOk, C.ReceiveFrame;
    if s.toClient != [] && !s.client.stage.Ended? {
      var b := s.toClient[0];
      assert NoCancelResponse(b);
      if Decode(b).Ok? {
        var f := Decode(b).value;
        if f.frameType.Response? {
          ResponseIsIssued(s, cfg);
        }
        hide Decode;
        TalliesOne(s.client, cfg.client, f, injectOk, s.received, refused, RefusedOne(s, ClientReceives(injectOk)));
      }
    }
  }

  lemma StepTallied(s: System, cfg: Configs, e: SystemEvent, refused: nat)
    requires ConfigsOk(cfg) && Inv(s, cfg) && Tallied(s.client, s.received, refused)
    ensures var s' := Step(s, cfg, e); Tallied(s'.client, s'.received, refused + RefusedOne(s, e))
  {
    hide D.Step, C.Receive, D.EncodeAll, WellFormed, AllClientSaid, Placed, PendingOk, Conserved;
    if e.ClientReceives? {
      ClientReceivesTallied(s, cfg, e.injectOk, refused);
    }
  }

  lemma {:induction false} RunTallied(s: System, cfg: Configs, es: seq<SystemEvent>, refused: nat)
    requires ConfigsOk(cfg) && Inv(s, cfg) && Tallied(s.client, s.received, refused)
    ensures var s' := Composition.Run(s, cfg, es);
            Inv(s', cfg) && Tallied(s'.client, s'.received, refused + RefusedBy(s, cfg, es))
    decreases |es|
  {
    hide Step, Placed, Formed, Counted, PendingOk, Runnable, Issued, Tallied, RefusedOne;
    if es != [] {
      StepKeepsInv(s, cfg, es[0]);
      StepTallied(s, cfg, es[0], refused);
      RunTallied(Step(s, cfg, es[0]), cfg, es[1..], refused + RefusedOne(s, es[0]));
    }
  }

  // Over any run: in the data phase, and after a good end, the responses taken off the channel are the
  // five of the enumeration, those counted, and the successful ones the adapter did not take. A
  // client that ended badly never made a data request.
  lemma CountsExactly(start: System, cfg: Configs, es: seq<SystemEvent>)
    requires ConfigsOk(cfg) && Initial(start)
    ensures Runnable(start)
    ensures var s := Composition.Run(start, cfg, es);
            && (s.client.stage.Data? || s.client.stage == C.Ended(true) ==>
                  |s.received| == 5 + s.client.dataResponses + RefusedBy(start, cfg, es))
            && (s.client.stage == C.Ended(false) ==> s.client.generated == s.client.dataResponses == 0)
  {
    hide Composition.Run, RefusedBy, Decode, Initial, Conserved, Counted, PendingOk, WellFormed, Tallied;
    InitialInv(start, cfg);
    StartTallied(start);
    RunTallied(start, cfg, es, 0);
    var s := Composition.Run(start, cfg, es);
    TalliedAtTheEnd(s.client, s.received, RefusedBy(start, cfg, es));
  }

  lemma StartTallied(start: System)
    requires Initial(start)
    ensures Tallied(start.client, start.received, 0)
  {
  }

  lemma TalliedAtTheEnd(c: C.ClientState, received: multiset<u64>, refused: nat)
    requires Tallied(c, received, refused)
    ensures c.stage.Data? || c.stage == C.Ended(true) ==>
              |received| == C.CONTROL_REQUESTS + c.dataResponses + refused
    ensures c.stage == C.Ended(false) ==> c.generated == c.dataResponses == 0
  {
  }

  // So a single refusal keeps the client from ever detaching.
  lemma RefusalForbidsDetach(start: System, cfg: Configs, es: seq<SystemEvent>)
    requires ConfigsOk(cfg) && Initial(start)
    ensures Runnable(start)
    ensures Composition.Run(start, cfg, es).client.detachSent ==> RefusedBy(start, cfg, es) == 0
  {
    InitialInv(start, cfg);
    CountsExactly(start, cfg, es);
    hide Composition.Run, RefusedBy, Decode, Initial, Formed, PendingOk, Placed;
    RunKeepsInv(start, cfg, es);
    var s := Composition.Run(start, cfg, es);
    if s.client.detachSent {
      AllReceived(s, cfg);
    }
  }

  lemma AllReceived(s: System, cfg: Configs)
    requires ConfigsOk(cfg) && Inv(s, cfg) && s.client.detachSent
    ensures |s.received| == C.CONTROL_REQUESTS + s.client.generated
    ensures s.client.dataResponses >= s.client.generated && s.client.dataResponses >= 1
    ensures s.client.stage.Data? || s.client.stage.Ended?
  {
    AllAnswered(s, cfg);
    hide Formed, Conserved, PendingOk;
    var ids := IssuedIds(s.nextId);
    forall id: u64
      ensures s.received[id] == ids[id]
    {
      IssuedIdsHas(s.nextId, id);
    }
    assert s.received == ids;
    IssuedIdsHas(s.nextId, 0);
  }
}

// A client whose connection is not cut ends well only by an accepted detach, with all answered.

module CleanEnd {
  import opened Bytes
  import opened Composition
  import opened CompositionInvariant
  import opened ControlTransfers
  import opened DaemonConservation
  import opened DaemonRuns
  import opened FrameCodec
  import opened Quiescence
  import opened Wrappers
  import C = ClientSpec
  import D = DaemonSpec

  predicate Uncut(es: seq<SystemEvent>) {
    forall i :: 0 <= i < |es| ==> !es[i].ServerCloses?
  }

  predicate IsDetachResponse(b: seq<u8>) {
    Decode(b).Ok? && Decode(b).value.frameType.DetachResponse?
  }

  // No detach is answered, or accepted, that was not asked for.
  predicate DetachesAsked(s: System) {
    && (s.client.stage == C.Ended(true) ==> s.client.detachSent)
    && forall i :: 0 <= i < |s.toClient| && IsDetachResponse(s.toClient[i]) ==> s.client.detachSent
  }

  lemma EndsByDetach(c: C.ClientState, cfg: C.ClientConfig, f: Frame, injectOk: bool)
    requires C.ConfigOk(cfg) && C.LocalOk(c)
    ensures var c' := C.ReceiveFrame(c, cfg, f, injectOk).0;
            && (c.detachSent ==> c'.detachSent)
            && (c'.stage == C.Ended(true) && c.stage != C.Ended(true) ==> f.frameType.DetachResponse? && f.status == 0)
  {
    hide ReportDescriptorBytes, DecodeTransfer;
  }

  lemma ClientKeepsAsked(s: System, cfg: Configs, injectOk: bool)
    requires ConfigsOk(cfg) && Runnable(s) && DetachesAsked(s)
    ensures DetachesAsked(Step(s, cfg, ClientReceives(injectOk)))
  {
    hide C.ReceiveFrame, D.EncodeAll, Decode;
    if s.toClient != [] && !s.client.stage.Ended? {
      var b := s.toClient[0];
      if Decode(b).Ok? {
        EndsByDetach(s.client, cfg.client, Decode(b).value, injectOk);
      }
    }
  }

  lemma {:induction false} NoneEncoded(fs: seq<Frame>)
    requires D.AllEncodable(fs) && forall i :: 0 <= i < |fs| ==> !fs[i].frameType.DetachResponse?
    ensures forall i :: 0 <= i < |fs| ==> !IsDetachResponse(D.EncodeAll(fs)[i])
    decreases |fs|
  {
    hide Decode, Encode;
    if fs != [] {
      RoundTrip(fs[0]);
      NoneEncoded(fs[1..]);
      var rest := D.EncodeAll(fs[1..]);
      assert forall i :: 0 < i < |fs| ==> D.EncodeAll(fs)[i] == rest[i - 1];
    }
  }

  lemma FrameDetaches(d: D.DaemonState, cfg: D.Config, f: Frame, driverOk: bool)
    requires D.ConfigOk(cfg) && D.Idle(d.queues) && Encodable(f) && !f.frameType.DetachRequest?
    ensures D.Flushable(d.queues)
    ensures var out := D.ReceiveFrame(d, cfg, f, driverOk).1;
            forall i :: 0 <= i < |out| ==> !out[i].frameType.DetachResponse?
  {
    D.IdleIsFlushable(d.queues);
    hide D.Flushable, D.ReceiveRequest;
    match f.frameType {
      case Request => RequestAnswersAreResponses(d, cfg, f);
      case CancelRequest => CancelOnIdle(d, f);
      case ResetRequest => ResetOnIdle(d, f);
      case _ =>
    }
  }

  // The daemon answers a detach only when one arrives.
  lemma DaemonDetaches(d: D.DaemonState, cfg: D.Config, e: D.Event)
    requires D.ConfigOk(cfg) && D.Idle(d.queues) && WellFormed(d)
    requires e.Received? ==> Decode(e.bytes).Ok? && !Decode(e.bytes).value.frameType.DetachRequest?
    ensures var out := D.Step(d, cfg, e).1; forall i :: 0 <= i < |out| ==> !IsDetachResponse(out[i])
  {
    if e.Received? {
      if d.loop.Open? {
        DecodedReencodes(e.bytes);
        hide Decode, D.ReceiveFrame, IsDetachResponse;
        FrameDetaches(d, cfg, Decode(e.bytes).value, e.driverOk);
        NoneEncoded(D.ReceiveFrame(d, cfg, Decode(e.bytes).value, e.driverOk).1);
      }
    } else if e.Deliver? && d.channel != [] {
      assert Decode(d.channel[0]).Ok? && Decode(d.channel[0]).value.frameType == Response;
    }
  }

  lemma DaemonKeepsAsked(s: System, s': System, cfg: Configs, e: D.Event)
    requires ConfigsOk(cfg) && Inv(s, cfg) && DetachesAsked(s)
    requires e.Received? ==> ClientSaid(e.bytes, s.client.detachSent)
    requires s'.client == s.client && s'.toClient == s.toClient + D.Step(s.daemon, cfg.daemon, e).1
    ensures DetachesAsked(s')
  {
    hide D.Step, WellFormed, IsDetachResponse, AllClientSaid;
    if !s.client.detachSent {
      DaemonDetaches(s.daemon, cfg.daemon, e);
    }
  }

  lemma StepKeepsAsked(s: System, cfg: Configs, e: SystemEvent)
    requires ConfigsOk(cfg) && Inv(s, cfg) && DetachesAsked(s) && !e.ServerCloses?
    ensures DetachesAsked(Step(s, cfg, e))
  {
    hide D.Step, C.Receive, D.EncodeAll, WellFormed, Placed, PendingOk, Conserved, IsDetachResponse, ClientSaid;
    match e {
      case ClientReceives(injectOk) => ClientKeepsAsked(s, cfg, injectOk);
      case DaemonReceives(driverOk) =>
        if s.toDaemon != [] && s.daemon.loop.Open? {
          DaemonKeepsAsked(s, Step(s, cfg, e), cfg, D.Received(s.toDaemon[0], driverOk));
        }
      case DaemonDoes(event) =>
        if !event.Received? {
          DaemonKeepsAsked(s, Step(s, cfg, e), cfg, event);
        }
      case _ =>
    }
  }

  lemma {:induction false} RunKeepsAsked(s: System, cfg: Configs, es: seq<SystemEvent>)
    requires ConfigsOk(cfg) && Inv(s, cfg) && DetachesAsked(s) && Uncut(es)
    ensures var s' := Composition.Run(s, cfg, es); Inv(s', cfg) && DetachesAsked(s')
    decreases |es|
  {
    hide Step, Placed, Formed, Counted, PendingOk, Runnable, Issued, DetachesAsked;
    if es != [] {
      StepKeepsInv(s, cfg, es[0]);
      StepKeepsAsked(s, cfg, es[0]);
      RunKeepsAsked(Step(s, cfg, es[0]), cfg, es[1..]);
    }
  }

  // Over any run in which the connection is not cut: a client that has ended well asked for it, and
  // every request it ever made has been answered exactly once.
  lemma EndsWellWithAllAnswered(start: System, cfg: Configs, es: seq<SystemEvent>)
    requires ConfigsOk(cfg) && Initial(start) && Uncut(es)
    ensures Runnable(start)
    ensures var s := Composition.Run(start, cfg, es);
            s.client.stage == C.Ended(true) ==>
              && s.client.detachSent && cfg.client.limit.Some? && cfg.client.limit.value >= 1
              && s.nextId == C.FIRST_DATA_ID + cfg.client.limit.value
              && forall id: u64 :: s.received[id] == Issued(s.nextId, id)
  {
    InitialInv(start, cfg);
    assert DetachesAsked(start);
    hide Composition.Run, Initial, DetachesAsked, Runnable, Formed, Conserved, PendingOk;
    RunKeepsAsked(start, cfg, es);
    var s := Composition.Run(start, cfg, es);
    if s.client.stage == C.Ended(true) {
      AskedIs(s);
      AllAnswered(s, cfg);
    }
  }

  lemma AskedIs(s: System)
    requires DetachesAsked(s) && s.client.stage == C.Ended(true)
    ensures s.client.detachSent
  {
  }
}

// The client's requests go out in the order of their ids, none skipped and none twice.

module RequestOrder {
  import opened Bytes
  import opened Composition
  import opened CompositionInvariant
  import opened FrameCodec
  import opened Wrappers
  import C = ClientSpec
  import D = DaemonSpec

  function RequestId(b: seq<u8>): seq<u64> {
    match Decode(b)
    case Ok(f) => if f.frameType.Request? then [f.requestId] else []
    case Err(_) => []
  }

  function RequestIds(bs: seq<seq<u8>>): seq<u64> {
    if bs == [] then [] else RequestId(bs[0]) + RequestIds(bs[1..])
  }

  // What an event of the client's puts on its channel.
  ghost function SentOne(s: System, cfg: Configs, e: SystemEvent): seq<u64>
    requires ConfigsOk(cfg) && Runnable(s)
  {
    var s' := Step(s, cfg, e);
    if (e.ClientReceives? || e.ClientSends?) && |s'.toDaemon| >= |s.toDaemon|
    then RequestIds(s'.toDaemon[|s.toDaemon|..]) else []
  }

  ghost function SentBy(s: System, cfg: Configs, es: seq<SystemEvent>): seq<u64>
    requires ConfigsOk(cfg) && Runnable(s)
    decreases |es|
  {
    if es == [] then []
    else
      StepStaysRunnable(s, cfg, es[0]);
      SentOne(s, cfg, es[0]) + SentBy(Step(s, cfg, es[0]), cfg, es[1..])
  }

  function Ids(fs: seq<Frame>): (ids: seq<u64>)
    ensures |ids| == |fs|
  {
    seq(|fs|, i requires 0 <= i < |fs| => fs[i].requestId)
  }

  // 2, 3, 4, and so on, below n.
  function Consecutive(n: nat): (ids: seq<u64>)
    requires n <= TWO_TO_64
    ensures |ids| == if n <= 2 then 0 else n - 2
  {
    seq(if n <= 2 then 0 else n - 2, i requires 0 <= i < n - 2 => i + 2)
  }

  lemma OneRequest(f: Frame)
    requires Encodable(f)
    ensures D.AllEncodable([f])
    ensures RequestIds(D.EncodeAll([f])) == if f.frameType.Request? then [f.requestId] else []
  {
    EncodeOne(f);
    RoundTrip(f);
    hide Decode, Encode;
    assert RequestIds([Encode(f)][1..]) == [];
  }

  // Ids stay below 2^64.
  predicate InRange(s: System) {
    s.nextId <= TWO_TO_64 && C.FIRST_DATA_ID + s.client.generated <= TWO_TO_64
  }

  lemma NothingSent()
    ensures D.EncodeAll([]) == [] && RequestIds([]) == []
  {
  }

  lemma ClientReceivesInOrder(s: System, cfg: Configs, injectOk: bool)
    requires ConfigsOk(cfg) && Inv(s, cfg) && InRange(s)
    ensures var e := ClientReceives(injectOk); var s' := Step(s, cfg, e);
            && InRange(s') && s.nextId <= s'.nextId <= s.nextId + 1
            && Ids(s.client.local) + (if s'.nextId == s.nextId then [] else [s.nextId])
            == SentOne(s, cfg, e) + Ids(s'.client.local)
  {
    hide D.EncodeAll, Formed, Placed, PendingOk, C.ReceiveFrame, RequestIds, Conserved, Decode;
    RunnableOf(s, cfg);
    NothingSent();
    var ids := Ids(s.client.local);
    assert ids + [] == [] + ids;
    if s.toClient != [] && !s.client.stage.Ended? {
      var b := s.toClient[0];
      var (c, out) := C.Receive(s.client, cfg.client, b, injectOk);
      assert (s.toDaemon + D.EncodeAll(out))[|s.toDaemon|..] == D.EncodeAll(out);
      if Decode(b).Ok? {
        ClientSaysOne(s.client, cfg.client, Decode(b).value, injectOk, s.nextId);
      } else {
        NextAfterFailure(s.client, s.nextId);
      }
      if out != [] {
        assert out == [out[0]];
        OneRequest(out[0]);
        if out[0].frameType.Request? {
          assert Handshaking(s.client) && ids == [];
          assert [] + [s.nextId] == [s.nextId] + [];
        }
      }
    } else {
      assert s.toDaemon[|s.toDaemon|..] == [];
    }
  }

  lemma RunnableOf(s: System, cfg: Configs)
    requires Inv(s, cfg)
    ensures Runnable(s) && AllRequests(s.client.local)
  {
  }

  lemma ClientMakesInOrder(s: System, cfg: Configs, data: Option<seq<u8>>)
    requires ConfigsOk(cfg) && Inv(s, cfg) && InRange(s)
    ensures var s' := Step(s, cfg, ClientMakes(data));
            && InRange(s') && s.nextId <= s'.nextId <= s.nextId + 1
            && Ids(s.client.local) + (if s'.nextId == s.nextId then [] else [s.nextId]) == Ids(s'.client.local)
  {
    hide Formed, Placed, PendingOk, Conserved, Encode;
    RunnableOf(s, cfg);
  }

  lemma ClientSendsInOrder(s: System, cfg: Configs)
    requires ConfigsOk(cfg) && Inv(s, cfg)
    ensures var s' := Step(s, cfg, ClientSends);
            && s'.nextId == s.nextId
            && Ids(s.client.local) == SentOne(s, cfg, ClientSends) + Ids(s'.client.local)
  {
    hide D.EncodeAll, Formed, Placed, PendingOk, RequestIds, Conserved, Decode;
    RunnableOf(s, cfg);
    NothingSent();
    var out := C.SendLocal(s.client).1;
    assert (s.toDaemon + D.EncodeAll(out))[|s.toDaemon|..] == D.EncodeAll(out);
    if out != [] {
      OneRequest(out[0]);
      assert s.client.local == [s.client.local[0]] + s.client.local[1..];
    }
  }

  lemma StepInOrder(s: System, cfg: Configs, e: SystemEvent)
    requires ConfigsOk(cfg) && Inv(s, cfg) && InRange(s)
    ensures Runnable(s)
    ensures var s' := Step(s, cfg, e);
            && InRange(s') && s.nextId <= s'.nextId <= s.nextId + 1
            && Ids(s.client.local) + (if s'.nextId == s.nextId then [] else [s.nextId])
            == SentOne(s, cfg, e) + Ids(s'.client.local)
  {
    hide D.EncodeAll, Formed, Placed, PendingOk, C.Receive, RequestIds, Conserved, D.Step;
    RunnableOf(s, cfg);
    match e {
      case ClientReceives(injectOk) => ClientReceivesInOrder(s, cfg, injectOk);
      case ClientMakes(data) => ClientMakesInOrder(s, cfg, data);
      case ClientSends => ClientSendsInOrder(s, cfg);
      case _ =>
    }
  }

  lemma ConsecutiveSnoc(n: nat)
    requires 2 <= n < TWO_TO_64
    ensures Consecutive(n) + [n] == Consecutive(n + 1)
  {
  }

  lemma {:induction false} RunInOrder(s: System, cfg: Configs, es: seq<SystemEvent>, before: seq<u64>)
    requires ConfigsOk(cfg) && Inv(s, cfg) && InRange(s) && s.nextId >= 2
    requires before + Ids(s.client.local) == Consecutive(s.nextId)
    ensures Runnable(s)
    ensures var s' := Composition.Run(s, cfg, es);
            && s'.nextId <= TWO_TO_64
            && before + SentBy(s, cfg, es) + Ids(s'.client.local) == Consecutive(s'.nextId)
    decreases |es|
  {
    RunnableOf(s, cfg);
    hide Step, Ids, Consecutive, Inv, InRange, SentOne, Runnable;
    if es == [] {
      assert before + [] == before;
    } else {
      StepKeepsInv(s, cfg, es[0]);
      StepInOrder(s, cfg, es[0]);
      var s' := Step(s, cfg, es[0]);
      var sent := SentOne(s, cfg, es[0]);
      assert before + Ids(s.client.local) + [] == before + Ids(s.client.local);
      Associative(before, Ids(s.client.local), if s'.nextId == s.nextId then [] else [s.nextId]);
      Associative(before, sent, Ids(s'.client.local));
      if s'.nextId != s.nextId {
        InRangeIs(s');
        ConsecutiveSnoc(s.nextId);
      }
      RunInOrder(s', cfg, es[1..], before + sent);
      Associative(before, sent, SentBy(s', cfg, es[1..]));
    }
  }

  lemma InRangeIs(s: System)
    requires InRange(s)
    ensures s.nextId <= TWO_TO_64
  {
  }

  // Over any run: the ids of the requests sent, in the order they were sent, and of those that still
  // wait to be sent are 2, 3, 4, and so on up to the last one issued.
  lemma RequestsLeaveInOrder(start: System, cfg: Configs, es: seq<SystemEvent>)
    requires ConfigsOk(cfg) && Initial(start)
    ensures Runnable(start)
    ensures var s := Composition.Run(start, cfg, es);
            && s.nextId <= TWO_TO_64
            && SentBy(start, cfg, es) + Ids(s.client.local) == Consecutive(s.nextId)
  {
    hide Composition.Run, SentBy, Inv, Runnable;
    InitialInv(start, cfg);
    assert [] + Ids(start.client.local) == Consecutive(start.nextId);
    hide Initial, Ids, Consecutive;
    RunInOrder(start, cfg, es, []);
    assert [] + SentBy(start, cfg, es) == SentBy(start, cfg, es);
  }
}

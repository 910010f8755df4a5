// The daemon's way out is a queue: what the driver took is answered in the order it was accepted.

module DaemonOrder {
  import opened Bytes
  import opened DaemonConservation
  import opened DaemonRuns
  import opened DaemonSpec
  import opened Driver
  import opened FrameCodec
  import opened RingSpec
  import opened Wrappers
  import Queue = EndpointQueue
  import QueueInvariant = EndpointQueueInvariant

  // ---- the channel between the TX worker and the session loop

  ghost function ForwardedBy(s: DaemonState, cfg: Config, es: seq<Event>): seq<seq<u8>>
    requires ConfigOk(cfg) && Idle(s.queues) && HandOk(s)
    decreases |es|
  {
    if es == [] then []
    else
      StepLeavesIdle(s, cfg, es[0]);
      var s' := Step(s, cfg, es[0]).0;
      (if es[0].Forward? && s.hand.Some? && s'.hand.None? then [Encode(s.hand.value)] else [])
      + ForwardedBy(s', cfg, es[1..])
  }

  ghost function DeliveredBy(s: DaemonState, cfg: Config, es: seq<Event>): seq<seq<u8>>
    requires ConfigOk(cfg) && Idle(s.queues) && HandOk(s)
    decreases |es|
  {
    if es == [] then []
    else
      StepLeavesIdle(s, cfg, es[0]);
      var (s', out) := Step(s, cfg, es[0]);
      (if es[0].Deliver? then out else []) + DeliveredBy(s', cfg, es[1..])
  }

  lemma FrameLeavesWorker(s: DaemonState, cfg: Config, f: Frame, driverOk: bool)
    requires ConfigOk(cfg) && Idle(s.queues) && Encodable(f)
    ensures Flushable(s.queues)
    ensures var s' := ReceiveFrame(s, cfg, f, driverOk).0; s'.hand == s.hand && s'.channel == s.channel
  {
    IdleIsFlushable(s.queues);
    hide Flushable, Encode, ReceiveRequest;
    match f.frameType {
      case Request => RequestOnIdle(s, cfg, f);
      case CancelRequest => CancelOnIdle(s, f);
      case ResetRequest => ResetOnIdle(s, f);
      case _ =>
    }
  }

  lemma StepQueuesChannel(s: DaemonState, cfg: Config, e: Event)
    requires ConfigOk(cfg) && Idle(s.queues) && HandOk(s)
    ensures var (s', out) := Step(s, cfg, e);
            s.channel + (if e.Forward? && s.hand.Some? && s'.hand.None? then [Encode(s.hand.value)] else [])
            == (if e.Deliver? then out else []) + s'.channel
  {
    hide Encode, ReceiveFrame, OutboundNetworkFrame, EncodeAll, AllEncodable;
    if e.Received? && s.loop.Open? && Decode(e.bytes).Ok? {
      DecodedReencodes(e.bytes);
      FrameLeavesWorker(s, cfg, Decode(e.bytes).value, e.driverOk);
    }
    assert s.channel + [] == s.channel == [] + s.channel;
    hide Decode;
  }

  // Over any run: what was in the channel and what was forwarded is what was delivered and what is
  // in the channel now, in this order.
  lemma {:induction false} ChannelIsQueue(s: DaemonState, cfg: Config, es: seq<Event>)
    requires ConfigOk(cfg) && Idle(s.queues) && HandOk(s)
    ensures s.channel + ForwardedBy(s, cfg, es) == DeliveredBy(s, cfg, es) + Run(s, cfg, es).0.channel
    decreases |es|
  {
    hide Step, Encode;
    if es == [] {
      assert s.channel + [] == [] + s.channel;
    } else {
      StepLeavesIdle(s, cfg, es[0]);
      StepQueuesChannel(s, cfg, es[0]);
      var (s', out) := Step(s, cfg, es[0]);
      ChannelIsQueue(s', cfg, es[1..]);
      var forwarded := if es[0].Forward? && s.hand.Some? && s'.hand.None? then [Encode(s.hand.value)] else [];
      var delivered := if es[0].Deliver? then out else [];
      Splice(s.channel, forwarded, ForwardedBy(s', cfg, es[1..]), delivered, s'.channel,
             DeliveredBy(s', cfg, es[1..]), Run(s', cfg, es[1..]).0.channel);
    }
  }

  // ---- from RX to the channel

  // The response that a request in a ring becomes.
  function AnswerTo(b: seq<u8>): seq<u8> {
    match Decode(b)
    case Ok(f) => if Encodable(OutboundNetworkFrame(f)) then Encode(OutboundNetworkFrame(f)) else []
    case Err(_) => []
  }

  function AnswersTo(bs: seq<seq<u8>>): (answers: seq<seq<u8>>)
    ensures |answers| == |bs|
  {
    seq(|bs|, i requires 0 <= i < |bs| => AnswerTo(bs[i]))
  }

  function HeldBy(hand: Option<Frame>): seq<seq<u8>>
    requires hand.Some? ==> Encodable(hand.value)
  {
    if hand.Some? then [Encode(hand.value)] else []
  }

  // What will be delivered, oldest first: the channel, the worker's frame, and the answers to what
  // is in TX and in RX.
  function Pipeline(s: DaemonState): seq<seq<u8>>
    requires HandOk(s)
  {
    s.channel + HeldBy(s.hand) + AnswersTo(s.driver.tx + s.driver.rx)
  }

  // A request that the driver took: dispatched, and nothing was sent for it.
  ghost function TakenOne(s: DaemonState, cfg: Config, e: Event): seq<seq<u8>>
    requires ConfigOk(cfg) && Idle(s.queues) && HandOk(s)
  {
    if e.Received? && s.loop.Open? && Decode(e.bytes).Ok? && DispatchedFrame(s, cfg, Decode(e.bytes).value)
       && Step(s, cfg, e).1 == []
    then [e.bytes] else []
  }

  ghost function TakenBy(s: DaemonState, cfg: Config, es: seq<Event>): seq<seq<u8>>
    requires ConfigOk(cfg) && Idle(s.queues) && HandOk(s)
    decreases |es|
  {
    if es == [] then []
    else
      StepLeavesIdle(s, cfg, es[0]);
      TakenOne(s, cfg, es[0]) + TakenBy(Step(s, cfg, es[0]).0, cfg, es[1..])
  }

  lemma PumpKeepsOrder(d: DriverState)
    ensures var d' := Pump(d).1;
            d.lost <= d'.lost && (d'.lost == d.lost ==> d'.tx + d'.rx == d.tx + d.rx)
  {
    if d.rx != [] {
      assert d.rx == [d.rx[0]] + d.rx[1..];
    }
  }

  // Reserved header bytes do not reach the answer.
  lemma SameAnswer(b: seq<u8>)
    requires Decode(b).Ok?
    ensures Encodable(Decode(b).value) && AnswerTo(Encode(Decode(b).value)) == AnswerTo(b)
  {
    DecodedReencodes(b);
    RoundTrip(Decode(b).value);
  }

  lemma DispatchKeepsOrder(d: DriverState, f: Frame)
    requires Encodable(f)
    ensures var (d', failed) := Dispatch(d, f);
            && d.lost <= d'.lost
            && (failed == [] <==> PushRx(d, Encode(f)).0)
            && (d'.lost == d.lost ==>
                  d'.tx + d'.rx == d.tx + d.rx + if failed == [] then [Encode(f)] else [])
  {
    var b := Encode(f);
    hide Encode, Flatten;
    var (ok, d1) := PushRx(d, b);
    PumpKeepsOrder(d1);
    assert d.tx + (d.rx + [b]) == d.tx + d.rx + [b];
    assert d.tx + d.rx + [] == d.tx + d.rx;
  }

  lemma AnswersSnoc(bs: seq<seq<u8>>, b: seq<u8>)
    ensures AnswersTo(bs + [b]) == AnswersTo(bs) + [AnswerTo(b)]
    ensures AnswersTo([b]) == [AnswerTo(b)]
  {
  }

  lemma RequestMovesPipeline(s: DaemonState, cfg: Config, f: Frame)
    requires ConfigOk(cfg) && Idle(s.queues) && HandOk(s) && Encodable(f) && DispatchedFrame(s, cfg, f)
    ensures Flushable(s.queues)
    ensures var (s', out) := ReceiveRequest(s, cfg, f);
            && s'.hand == s.hand && s.driver.lost <= s'.driver.lost
            && (s'.driver.lost == s.driver.lost ==>
                  Pipeline(s') == Pipeline(s) + if out == [] then [AnswerTo(Encode(f))] else [])
  {
    hide ReceiveRequest, Flushable, Encode, AnswerTo, FirstRule;
    RequestToDriver(s, cfg, f);
    RequestOnIdle(s, cfg, f);
    DispatchKeepsOrder(s.driver, f);
    hide Dispatch;
    var waiting := s.driver.tx + s.driver.rx;
    AnswersSnoc(waiting, Encode(f));
    assert waiting + [] == waiting;
    hide AnswersTo;
    Associative(s.channel + HeldBy(s.hand), AnswersTo(waiting), [AnswerTo(Encode(f))]);
  }

  lemma ReceivedMovesPipeline(s: DaemonState, cfg: Config, e: Event)
    requires ConfigOk(cfg) && Idle(s.queues) && HandOk(s) && e.Received? && s.loop.Open?
    ensures var s' := Step(s, cfg, e).0;
            && s.driver.lost <= s'.driver.lost
            && (s'.driver.lost == s.driver.lost ==> Pipeline(s') == Pipeline(s) + AnswersTo(TakenOne(s, cfg, e)))
  {
    hide AnswerTo, Encode, ReceiveFrame, Decode;
    assert AnswersTo([]) == [] && Pipeline(s) + [] == Pipeline(s);
    if Decode(e.bytes).Ok? {
      var f := Decode(e.bytes).value;
      DecodedReencodes(e.bytes);
      SameAnswer(e.bytes);
      AnswersSnoc([], e.bytes);
      if DispatchedFrame(s, cfg, f) {
        RequestMovesPipeline(s, cfg, f);
        ReceivedRequestIs(s, cfg, f, e.driverOk);
      } else {
        FrameToDriver(s, cfg, f, e.driverOk);
        FrameLeavesWorker(s, cfg, f, e.driverOk);
      }
    }
  }

  lemma ReceivedRequestIs(s: DaemonState, cfg: Config, f: Frame, driverOk: bool)
    requires ConfigOk(cfg) && Flushable(s.queues) && f.frameType.Request? && Encodable(f)
    ensures ReceiveFrame(s, cfg, f, driverOk) == ReceiveRequest(s, cfg, f)
  {
    hide ReceiveRequest, Flushable;
  }

  lemma PollMovesPipeline(s: DaemonState)
    requires WellFormed(s) && s.hand.None?
    ensures HandOk(PollTx(s)) && Pipeline(PollTx(s)) == Pipeline(s) && PollTx(s).driver.lost == s.driver.lost
  {
    PolledIsEncodable(s);
    if PopTx(s.driver).0.Some? {
      var b := s.driver.tx[0];
      assert Decode(b).Ok?;
      var f := OutboundNetworkFrame(Decode(b).value);
      DecodedReencodes(b);
      assert PollTx(s) == s.(driver := s.driver.(tx := s.driver.tx[1..]), hand := Some(f)) && Encode(f) == AnswerTo(b);
      hide *;
      FirstOfTx(s.channel, s.driver.tx, s.driver.rx, f);
      PipelineIs(s);
      PipelineIs(PollTx(s));
    }
  }

  lemma PipelineIs(s: DaemonState)
    requires HandOk(s)
    ensures Pipeline(s) == s.channel + HeldBy(s.hand) + AnswersTo(s.driver.tx + s.driver.rx)
  {
  }

  lemma FirstOfTx(channel: seq<seq<u8>>, tx: seq<seq<u8>>, rx: seq<seq<u8>>, f: Frame)
    requires tx != [] && Encodable(f) && Encode(f) == AnswerTo(tx[0])
    ensures channel + HeldBy(None) + AnswersTo(tx + rx) == channel + HeldBy(Some(f)) + AnswersTo(tx[1..] + rx)
  {
    hide AnswerTo, Encode;
    assert AnswersTo(tx + rx) == [AnswerTo(tx[0])] + AnswersTo(tx[1..] + rx);
  }

  lemma ForwardMovesPipeline(s: DaemonState)
    requires HandOk(s) && s.hand.Some?
    ensures Pipeline(s.(hand := None, channel := s.channel + [Encode(s.hand.value)])) == Pipeline(s)
  {
    hide AnswersTo, Encode;
  }

  lemma DeliverMovesPipeline(s: DaemonState)
    requires HandOk(s) && s.channel != []
    ensures Pipeline(s) == [s.channel[0]] + Pipeline(s.(channel := s.channel[1..]))
  {
    hide AnswersTo, HeldBy;
    assert s.channel == [s.channel[0]] + s.channel[1..];
  }

  // Unless the pump loses a frame, an event delivers the oldest of the pipeline or nothing, and adds
  // the answer to the request that was taken, if any, at its end.
  lemma StepMovesPipeline(s: DaemonState, cfg: Config, e: Event)
    requires ConfigOk(cfg) && Idle(s.queues) && WellFormed(s)
    ensures var (s', out) := Step(s, cfg, e);
            && s.driver.lost <= s'.driver.lost
            && (s'.driver.lost == s.driver.lost ==>
                  Pipeline(s) + AnswersTo(TakenOne(s, cfg, e)) == (if e.Deliver? then out else []) + Pipeline(s'))
  {
    assert AnswersTo([]) == [];
    if e.Received? && s.loop.Open? {
      hide Step, Pipeline, AnswersTo, TakenOne;
      ReceivedMovesPipeline(s, cfg, e);
    } else {
      hide Receive, PollTx, AnswersTo, Encode, DriverFormed, Decode;
      WorkerMovesPipeline(s, cfg, e);
    }
  }

  lemma WorkerMovesPipeline(s: DaemonState, cfg: Config, e: Event)
    requires ConfigOk(cfg) && Idle(s.queues) && WellFormed(s) && (e.Received? ==> !s.loop.Open?)
    ensures var (s', out) := Step(s, cfg, e);
            && s.driver.lost == s'.driver.lost
            && Pipeline(s) == (if e.Deliver? then out else []) + Pipeline(s')
  {
    hide Receive, PollTx, Pipeline, Encode, Decode, DriverFormed, AllOf;
    assert [] + Pipeline(s) == Pipeline(s);
    match e {
      case Poll =>
        if s.hand.None? {
          PollMovesPipeline(s);
          assert [] + Pipeline(PollTx(s)) == Pipeline(PollTx(s));
        }
      case Forward =>
        if s.hand.Some? {
          ForwardMovesPipeline(s);
        }
      case Deliver =>
        if s.channel != [] {
          DeliverMovesPipeline(s);
        }
      case _ =>
        SamePipeline(s, Step(s, cfg, e).0);
    }
  }

  lemma SamePipeline(s: DaemonState, s': DaemonState)
    requires HandOk(s)
    ensures s'.hand == s.hand && s'.channel == s.channel && s'.driver == s.driver ==>
              HandOk(s') && Pipeline(s') == Pipeline(s)
  {
  }

  // Over any run in which the pump loses nothing: what is delivered is the pipeline there was, then
  // the answers to the requests taken, in the order they were accepted, up to what is still inside.
  lemma {:induction false} ResponsesLeaveInOrder(s: DaemonState, cfg: Config, es: seq<Event>)
    requires ConfigOk(cfg) && Idle(s.queues) && WellFormed(s)
    ensures var s' := Run(s, cfg, es).0;
            && s.driver.lost <= s'.driver.lost
            && (s'.driver.lost == s.driver.lost ==>
                  Pipeline(s) + AnswersTo(TakenBy(s, cfg, es)) == DeliveredBy(s, cfg, es) + Pipeline(s'))
    decreases |es|
  {
    hide Step, DriverFormed, Pipeline, AnswerTo, TakenOne;
    if es == [] {
      assert AnswersTo([]) == [] && Pipeline(s) + [] == [] + Pipeline(s);
    } else {
      StepLeavesIdle(s, cfg, es[0]);
      StepConserves(s, cfg, es[0], 0);
      StepMovesPipeline(s, cfg, es[0]);
      var (s', out) := Step(s, cfg, es[0]);
      ResponsesLeaveInOrder(s', cfg, es[1..]);
      var taken, later := TakenOne(s, cfg, es[0]), TakenBy(s', cfg, es[1..]);
      assert AnswersTo(taken + later) == AnswersTo(taken) + AnswersTo(later);
      var last := Run(s', cfg, es[1..]).0;
      if last.driver.lost == s.driver.lost {
        assert s'.driver.lost == s.driver.lost;
        Splice(Pipeline(s), AnswersTo(taken), AnswersTo(later), if es[0].Deliver? then out else [], Pipeline(s'),
               DeliveredBy(s', cfg, es[1..]), Pipeline(last));
      }
    }
  }

  // ---- flushing queues that hold several transfers

  ghost function PoppedFrom(q: Queue.State): (fs: seq<Frame>)
    requires Flushable(q)
    ensures AllEncodable(fs)
    decreases q.len
  {
    PopKeepsFlushable(q);
    var (t, q') := Queue.PopNext(q);
    if t.None? then [] else [t.value.frame] + PoppedFrom(q')
  }

  // The frames dispatched one after the other, and the failures in that order.
  function DispatchAll(d: DriverState, fs: seq<Frame>): (DriverState, seq<Frame>)
    requires AllEncodable(fs)
  {
    if fs == [] then (d, [])
    else
      var (d', failed) := DispatchAll(d, fs[..|fs| - 1]);
      var (d'', last) := Dispatch(d', fs[|fs| - 1]);
      (d'', failed + last)
  }

  lemma {:induction false} DispatchAllCons(d: DriverState, f: Frame, fs: seq<Frame>)
    requires Encodable(f) && AllEncodable(fs)
    ensures AllEncodable([f] + fs)
    ensures var (d', failed) := Dispatch(d, f);
            var (last, later) := DispatchAll(d', fs);
            DispatchAll(d, [f] + fs) == (last, failed + later)
    decreases |fs|
  {
    hide Dispatch, Encodable;
    var all := [f] + fs;
    var (d', failed) := Dispatch(d, f);
    if fs == [] {
      assert all == [f] && all[..0] == [];
      assert failed + [] == failed && [] + failed == failed;
    } else {
      assert all[..|all| - 1] == [f] + fs[..|fs| - 1] && all[|all| - 1] == fs[|fs| - 1];
      DispatchAllCons(d, f, fs[..|fs| - 1]);
      var (d1, later) := DispatchAll(d', fs[..|fs| - 1]);
      Associative(failed, later, Dispatch(d1, fs[|fs| - 1]).1);
    }
  }

  // A flush dispatches what the scheduler pops, in that order, until nothing is queued.
  lemma {:induction false} FlushFollowsPops(q: Queue.State, d: DriverState)
    requires Flushable(q)
    ensures var (q', d', failed) := Flush(q, d);
            q'.len == 0 && (d', failed) == DispatchAll(d, PoppedFrom(q))
    decreases q.len
  {
    hide Dispatch, Queue.PopNext;
    PopKeepsFlushable(q);
    QueueInvariant.PopFindsNothingWhenEmpty(q);
    var (t, q') := Queue.PopNext(q);
    if t.Some? {
      FlushFollowsPops(q', Dispatch(d, t.value.frame).0);
      DispatchAllCons(d, t.value.frame, PoppedFrom(q'));
    } else {
      NothingPopped(q);
    }
  }

  lemma NothingPopped(q: Queue.State)
    requires QueueInvariant.Inv(q) && Queue.PopNext(q).0.None?
    ensures Queue.PopNext(q).1 == q
  {
    QueueInvariant.PopServesFront(q);
  }
}

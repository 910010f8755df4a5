// daemon/src/session.rs: the WHY session as written, against DaemonSpec.

module DaemonSession {
  import opened BulkPayload
  import opened Bytes
  import opened ControlEndpoint
  import opened DaemonSpec
  import opened Descriptors
  import opened Driver
  import opened FrameCodec
  import opened RingSpec
  import opened Wrappers
  import Queue = EndpointQueue
  import Runs = DaemonRuns

  lemma EncodeFirst(fs: seq<Frame>, k: nat)
    requires AllEncodable(fs) && k < |fs|
    ensures AllEncodable(fs[k..]) && AllEncodable(fs[k + 1..])
    ensures EncodeAll(fs[k..]) == [Encode(fs[k])] + EncodeAll(fs[k + 1..])
  {
    assert fs[k..][1..] == fs[k + 1..];
  }

  method MockTransferOutcomeResponse(f: Frame, rules: seq<OutcomeRule>) returns (r: Option<Frame>)
    ensures r == (match FirstRule(rules, f.requestId)
                  case Some(outcome) => Some(InjectedResponse(f, outcome))
                  case None => None)
  {
    for k := 0 to |rules|
      invariant FirstRule(rules[k..], f.requestId) == FirstRule(rules, f.requestId)
    {
      assert rules[k..][1..] == rules[k + 1..];
      if rules[k].requestId == f.requestId {
        match rules[k].outcome {
          case InjectStatus(status) => return Some(StatusResponse(f, status));
          case ShortPacket(len) =>
            var payload := MOCK_RESPONSE_TEXT;
            if |payload| > len {
              payload := payload[..len];
            }
            return Some(MockResponse(f, payload));
        }
      }
    }
    return None;
  }

  lemma FlushStep(q: Queue.State, d: DriverState, failed: seq<Frame>)
    requires Flushable(q)
    ensures var (t, q') := Queue.PopNext(q);
            && Flushable(q')
            && (t.None? ==> Flush(q, d) == (q', d, []) && failed + Flush(q, d).2 == failed)
            && (t.Some? ==>
                  && Encodable(t.value.frame) && 0 <= q'.len < q.len
                  && var (d', more) := Dispatch(d, t.value.frame);
                  && Flush(q', d').0 == Flush(q, d).0 && Flush(q', d').1 == Flush(q, d).1
                  && (failed + more) + Flush(q', d').2 == failed + Flush(q, d).2)
  {
    PopKeepsFlushable(q);
    var (t, q') := Queue.PopNext(q);
    if t.Some? {
      var (d', more) := Dispatch(d, t.value.frame);
      Associative(failed, more, Flush(q', d').2);
    } else {
      assert failed + [] == failed;
    }
  }

  class Session {
    const cfg: Config
    const driver: MockDriver
    const device: Device
    const queues: Queue.EndpointTransferQueues
    var phase: Phase
    var attachedByControlPlane: bool
    var activeDescriptors: Option<DescriptorSet>
    var hand: Option<Frame>
    var channel: seq<seq<u8>>
    var loop: Loop
    var network: seq<seq<u8>> // sent to the peer
    ghost var attaches: nat
    ghost var detaches: nat

    ghost function Repr(): set<object> {
      {this, driver, driver.rxRing, driver.txRing, driver.rxRing.data, driver.txRing.data, device, queues}
    }

    ghost function View(): DaemonState
      reads Repr()
    {
      DaemonState(phase, attachedByControlPlane, activeDescriptors, device.View(), queues.View(), driver.frames, hand,
                  channel, loop, attaches, detaches)
    }

    ghost predicate Valid()
      reads Repr()
    {
      driver.Valid() && ConfigOk(cfg) && HandOk(View())
    }

    constructor (cfg: Config)
      requires ConfigOk(cfg)
      ensures Valid() && Runs.Fresh(View()) && network == [] && this.cfg == cfg
      ensures fresh(Repr())
    {
      this.cfg := cfg;
      driver := new MockDriver();
      device := new Device();
      queues := new Queue.EndpointTransferQueues();
      phase, attachedByControlPlane, activeDescriptors := Connected, false, None;
      hand, channel, loop, network := None, [], Open, [];
      attaches, detaches := 0, 0;
    }

    method Send(f: Frame)
      requires Encodable(f)
      modifies this`network
      ensures network == old(network) + [Encode(f)]
    {
      network := network + [Encode(f)];
    }

    method SendAll(fs: seq<Frame>)
      requires AllEncodable(fs)
      modifies this`network
      ensures network == old(network) + EncodeAll(fs)
    {
      for k := 0 to |fs|
        invariant network + EncodeAll(fs[k..]) == old(network) + EncodeAll(fs)
      {
        EncodeFirst(fs, k);
        Associative(network, [Encode(fs[k])], EncodeAll(fs[k + 1..]));
        Send(fs[k]);
      }
      assert network + [] == network;
    }

    // ---- driver attach and detach

    method AttachSession(driverOk: bool) returns (status: i32)
      modifies this`phase, this`attachedByControlPlane, this`attaches
      ensures (status, View()) == DaemonSpec.AttachSession(old(View()), cfg, driverOk)
    {
      if phase == Attached {
        return 0;
      }
      if cfg.attachDevice {
        if !driverOk {
          return -1;
        }
        attaches := attaches + 1;
        attachedByControlPlane := true;
      }
      phase := Attached;
      return 0;
    }

    method DetachSession(driverOk: bool) returns (status: i32)
      modifies this`phase, this`attachedByControlPlane, this`detaches
      ensures (status, View()) == DaemonSpec.DetachSession(old(View()), driverOk)
    {
      if phase == Closed {
        return 0;
      }
      phase := Detaching;
      if attachedByControlPlane {
        if !driverOk {
          return -1;
        }
        detaches := detaches + 1;
        attachedByControlPlane := false;
      }
      phase := Closed;
      return 0;
    }

    // ---- dispatching

    method DispatchTransfer(f: Frame) returns (failed: seq<Frame>)
      requires driver.Valid() && Encodable(f)
      modifies driver, driver.rxRing, driver.txRing, driver.rxRing.data, driver.txRing.data
      ensures driver.Valid()
      ensures (driver.frames, failed) == Dispatch(old(driver.frames), f)
    {
      var pushed := driver.RxRingPushFrame(Encode(f));
      if !pushed {
        return [StatusResponse(f, Failed)];
      }
      var pumped := driver.PumpOnce();
      return [];
    }

    method FlushEndpointTransfers() returns (failed: seq<Frame>)
      requires driver.Valid() && Flushable(queues.View())
      modifies queues, driver, driver.rxRing, driver.txRing, driver.rxRing.data, driver.txRing.data
      ensures driver.Valid()
      ensures AllEncodable(failed)
      ensures (queues.View(), driver.frames, failed) == Flush(old(queues.View()), old(driver.frames))
    {
      hide Flush, Dispatch, Queue.PopNext, Flushable;
      failed := [];
      ghost var all := Flush(queues.View(), driver.frames);
      while true
        invariant driver.Valid() && Flushable(queues.View())
        invariant Flush(queues.View(), driver.frames).0 == all.0 && Flush(queues.View(), driver.frames).1 == all.1
        invariant failed + Flush(queues.View(), driver.frames).2 == all.2
        decreases queues.View().len
      {
        FlushStep(queues.View(), driver.frames, failed);
        var transfer := queues.Pop();
        if transfer.None? {
          break;
        }
        var more := DispatchTransfer(transfer.value.frame);
        failed := failed + more;
      }
    }

    // ---- one network frame

    method OnAttachRequest(f: Frame, driverOk: bool)
      requires Valid()
      modifies this
      ensures Valid()
      ensures var (s, out) := ReceiveAttach(old(View()), cfg, f, driverOk);
              View() == s && network == old(network) + EncodeAll(out)
    {
      hide EncodeAll, SetBytes, SetEncodable;
      var status := AttachSession(driverOk);
      var response: Frame;
      if status == 0 {
        activeDescriptors := Some(cfg.descriptors);
        var bytes := SetToBytes(cfg.descriptors);
        if bytes.Ok? {
          response := LifecycleResponse(f, AttachResponse, status, bytes.value);
        } else {
          response := LifecycleResponse(f, AttachResponse, -1, []);
        }
      } else {
        response := LifecycleResponse(f, AttachResponse, status, []);
      }
      SendAll([response]);
    }

    method OnDetachRequest(f: Frame, driverOk: bool)
      requires Valid()
      modifies this
      ensures Valid()
      ensures var (s, out) := ReceiveDetach(old(View()), f, driverOk);
              View() == s && network == old(network) + EncodeAll(out)
    {
      var status := DetachSession(driverOk);
      SendAll([LifecycleResponse(f, DetachResponse, status, [])]);
      loop := Broken;
    }

    method HandleCancelRequest(f: Frame) returns (response: Frame)
      modifies queues
      ensures (View(), [response]) == ReceiveCancel(old(View()), f)
    {
      if phase != Attached {
        return TransferControlResponse(f, CancelResponse, Failed);
      }
      var cancelled := queues.CancelRequest(f.requestId);
      match cancelled {
        case Some(_) => return TransferControlResponse(f, CancelResponse, Cancelled);
        case None => return TransferControlResponse(f, CancelResponse, Failed);
      }
    }

    method HandleResetRequest(f: Frame) returns (responses: seq<Frame>)
      modifies queues
      ensures (View(), responses) == ReceiveReset(old(View()), f)
    {
      if phase != Attached {
        return [TransferControlResponse(f, ResetResponse, Failed)];
      }
      var dropped := queues.Reset(Queue.KeyOf(f));
      responses := [TransferControlResponse(f, ResetResponse, Success)];
      ghost var after := queues.View();
      for k := 0 to |dropped|
        invariant queues.View() == after
        invariant responses + ResetResponses(dropped[k..])
               == [TransferControlResponse(f, ResetResponse, Success)] + ResetResponses(dropped)
      {
        assert dropped[k..][1..] == dropped[k + 1..];
        Associative(responses, [StatusResponse(dropped[k].frame, Reset)], ResetResponses(dropped[k + 1..]));
        responses := responses + [StatusResponse(dropped[k].frame, Reset)];
      }
      assert responses + [] == responses;
    }

    method OnRequest(f: Frame)
      requires Valid() && Flushable(queues.View()) && f.frameType.Request? && Encodable(f)
      modifies Repr()
      ensures Valid()
      ensures var (s, out) := ReceiveRequest(old(View()), cfg, f);
              View() == s && network == old(network) + EncodeAll(out)
    {
      hide Flush, Queue.Enqueue, Flushable, FirstRule, EncodeAll, HandleControl;
      if phase != Attached {
        SendAll([StatusResponse(f, Failed)]);
        return;
      }
      if f.transferType == Control && f.endpoint == 0 {
        ControlAnswersEncodable(f, activeDescriptors, device.View(), cfg.keycodes);
        var response, events := device.HandleControlRequest(f, activeDescriptors, cfg.keycodes);
        SendAll([response] + events);
        return;
      }
      OnDataRequest(f);
    }

    method OnDataRequest(f: Frame)
      requires Valid() && Flushable(queues.View()) && f.frameType.Request? && Encodable(f)
      requires phase.Attached? && !(f.transferType.Control? && f.endpoint == 0)
      modifies Repr()
      ensures Valid()
      ensures var (s, out) := ReceiveRequest(old(View()), cfg, f);
              View() == s && network == old(network) + EncodeAll(out)
    {
      hide Flush, Queue.Enqueue, Flushable, FirstRule, EncodeAll, InjectedResponse;
      var injected := MockTransferOutcomeResponse(f, cfg.outcomes);
      if injected.Some? {
        SendAll([injected.value]);
        return;
      }
      EnqueueKeepsFlushable(queues.View(), f);
      var sequence := queues.EnqueueFrame(f);
      var failed := FlushEndpointTransfers();
      SendAll(failed);
    }

    method OnCancelRequest(f: Frame)
      requires Valid()
      modifies this, queues
      ensures Valid()
      ensures var (s, out) := ReceiveCancel(old(View()), f);
              View() == s && network == old(network) + EncodeAll(out)
    {
      var response := HandleCancelRequest(f);
      SendAll([response]);
    }

    method OnResetRequest(f: Frame)
      requires Valid()
      modifies this, queues
      ensures Valid()
      ensures var (s, out) := ReceiveReset(old(View()), f);
              View() == s && network == old(network) + EncodeAll(out)
    {
      var responses := HandleResetRequest(f);
      SendAll(responses);
    }

    method OnFrame(f: Frame, driverOk: bool)
      requires Valid() && Flushable(queues.View()) && Encodable(f)
      modifies Repr()
      ensures Valid()
      ensures var (s, out) := ReceiveFrame(old(View()), cfg, f, driverOk);
              View() == s && network == old(network) + EncodeAll(out)
    {
      hide ReceiveAttach, ReceiveDetach, ReceiveCancel, ReceiveReset, ReceiveRequest, Flushable, EncodeAll;
      match f.frameType {
        case AttachRequest => OnAttachRequest(f, driverOk);
        case DetachRequest => OnDetachRequest(f, driverOk);
        case CancelRequest => OnCancelRequest(f);
        case ResetRequest => OnResetRequest(f);
        case Request => OnRequest(f);
        case _ =>
          assert EncodeAll([]) == [];
          assert network + [] == network;
      }
    }

    // ---- the events of the select loop and of the TX worker

    method OnNetworkBytes(bytes: seq<u8>, driverOk: bool)
      requires Valid() && Idle(queues.View()) && loop.Open?
      modifies Repr()
      ensures Valid()
      ensures var (s, out) := Step(old(View()), cfg, Received(bytes, driverOk));
              View() == s && network == old(network) + out
    {
      IdleIsFlushable(queues.View());
      var frame := Decode(bytes);
      if frame.Err? {
        assert network + [] == network;
        return;
      }
      DecodedReencodes(bytes);
      OnFrame(frame.value, driverOk);
    }

    method PollTxFrame()
      requires Valid() && Idle(queues.View()) && !loop.Done? && hand.None?
      modifies this`hand, driver, driver.txRing
      ensures Valid()
      ensures View() == Step(old(View()), cfg, Poll).0
    {
      hide Receive, EncodeAll;
      PolledIsEncodable(View());
      var bytes := driver.TxRingPopFrame();
      if bytes.None? {
        return;
      }
      var frame := Decode(bytes.value);
      if frame.Err? {
        return;
      }
      var outbound := frame.value;
      if outbound.frameType == Request {
        var payload := BulkDecode(outbound.payload);
        match payload {
          case Ok(data) => outbound := MockResponse(outbound, BulkEncode(data));
          case Err(_) => outbound := MockResponse(outbound, MOCK_RESPONSE_TEXT);
        }
      }
      hand := Some(outbound);
    }

    method ForwardToChannel()
      requires Valid() && Idle(queues.View()) && !loop.Done? && hand.Some? && |channel| < CHANNEL_LIMIT
      modifies this`hand, this`channel
      ensures Valid()
      ensures View() == Step(old(View()), cfg, Forward).0
    {
      hide Receive, PollTx, EncodeAll;
      channel := channel + [Encode(hand.value)];
      hand := None;
    }

    method DeliverFromChannel()
      requires Valid() && Idle(queues.View()) && loop.Open? && channel != []
      modifies this`channel, this`network
      ensures Valid()
      ensures var (s, out) := Step(old(View()), cfg, Deliver); View() == s && network == old(network) + out
    {
      hide Receive, PollTx, EncodeAll;
      network := network + [channel[0]];
      channel := channel[1..];
    }

    // The clean-up after the loop, up to waiting for the worker; returns how many queued transfers
    // it had to drop.
    method Finish(driverOk: bool) returns (dropped: int)
      requires Valid() && Idle(queues.View()) && loop.Broken?
      modifies Repr()
      ensures Valid()
      ensures View() == Step(old(View()), cfg, EndSession(driverOk)).0
      ensures dropped == 0
    {
      hide Receive, PollTx, EncodeAll, AllEncodable;
      phase := Detaching;
      var status := DetachSession(driverOk);
      dropped := queues.Clear();
      loop := Joining;
    }

    // The worker has left its own loop, which it cannot do with a frame in hand.
    method Join()
      requires Valid() && Idle(queues.View()) && loop.Joining? && hand.None?
      modifies this`phase, this`loop
      ensures Valid()
      ensures View() == Step(old(View()), cfg, WorkerJoined).0
    {
      hide Receive, PollTx, EncodeAll;
      phase := Closed;
      loop := Done;
    }
  }
}

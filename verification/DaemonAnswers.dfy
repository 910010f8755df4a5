// What a peer hears back: the frames an open WHY session sends for each frame that arrives, as the
// peer decodes them.

module DaemonAnswers {
  import opened Bytes
  import opened DaemonRuns
  import opened DaemonSpec
  import opened Descriptors
  import opened Driver
  import opened FrameCodec
  import opened RingSpec
  import opened Wrappers
  import Queue = EndpointQueue
  import QueueInvariant = EndpointQueueInvariant
  import QueueRuns = EndpointQueueRuns

  predicate Hears(out: seq<seq<u8>>, fs: seq<Frame>) {
    |out| == |fs| && forall i :: 0 <= i < |out| ==> Decode(out[i]) == Ok(fs[i])
  }

  predicate Listening(s: DaemonState) {
    && s.loop.Open? && (s.phase.Connected? || s.phase.Attached?)
    && Idle(s.queues) && HandOk(s)
  }

  // What arrives is the encoding of a frame.
  ghost function Arrive(s: DaemonState, cfg: Config, f: Frame, driverOk: bool): (DaemonState, seq<seq<u8>>)
    requires ConfigOk(cfg) && Listening(s) && Encodable(f)
  {
    Step(s, cfg, Received(Encode(f), driverOk))
  }

  lemma ArriveIs(s: DaemonState, cfg: Config, f: Frame, driverOk: bool)
    requires ConfigOk(cfg) && Listening(s) && Encodable(f)
    ensures Flushable(s.queues)
    ensures var (s', out) := ReceiveFrame(s, cfg, f, driverOk);
            Arrive(s, cfg, f, driverOk) == (s', EncodeAll(out)) && Hears(EncodeAll(out), out)
  {
    hide ReceiveFrame, Flushable;
    IdleIsFlushable(s.queues);
    RoundTrip(f);
    hide Encode, Decode;
    HearsEncoded(ReceiveFrame(s, cfg, f, driverOk).1);
  }

  lemma {:induction false} HearsEncoded(fs: seq<Frame>)
    requires AllEncodable(fs)
    ensures Hears(EncodeAll(fs), fs)
    decreases |fs|
  {
    hide Encode, Decode;
    if fs != [] {
      RoundTrip(fs[0]);
      HearsEncoded(fs[1..]);
      var rest := EncodeAll(fs[1..]);
      assert forall i :: 0 < i < |fs| ==> EncodeAll(fs)[i] == rest[i - 1] && fs[i] == fs[1..][i - 1];
    }
  }

  // Attached when it was, when no device is to be attached, or when the driver agrees; the status is
  // zero, and the descriptors are announced, exactly if so and if they encode.
  lemma AttachIsAnswered(s: DaemonState, cfg: Config, f: Frame, driverOk: bool)
    requires ConfigOk(cfg) && Listening(s) && Encodable(f) && f.frameType.AttachRequest?
    ensures var (s', out) := Arrive(s, cfg, f, driverOk);
            var attached := s.phase.Attached? || !cfg.attachDevice || driverOk;
            var announced := attached && SetEncodable(cfg.descriptors);
            && s' == s.(phase := s'.phase, attachedByControlPlane := s'.attachedByControlPlane,
                        descriptors := if attached then Some(cfg.descriptors) else s.descriptors,
                        attaches := s'.attaches)
            && s'.phase == (if attached then Attached else Connected)
            && s'.attaches - s.attaches == (if !s.phase.Attached? && cfg.attachDevice && driverOk then 1 else 0)
            && (s'.attachedByControlPlane <==> s.attachedByControlPlane || s'.attaches > s.attaches)
            && Hears(out, [Frame(f.requestId, AttachResponse, DeviceToHost, Control, 0, if announced then 0 else -1,
                                 if announced then SetBytes(cfg.descriptors) else [])])
  {
    ArriveIs(s, cfg, f, driverOk);
    hide Encode, Decode, SetBytes, SetEncodable, Flushable, EncodeAll, Arrive;
  }

  // Always answered, under its id, and the loop is left; the status is -1 exactly when the device
  // is attached through the driver and the driver does not let go of it.
  lemma DetachIsAnswered(s: DaemonState, cfg: Config, f: Frame, driverOk: bool)
    requires ConfigOk(cfg) && Listening(s) && Encodable(f) && f.frameType.DetachRequest?
    ensures var (s', out) := Arrive(s, cfg, f, driverOk);
            var released := !s.attachedByControlPlane || driverOk;
            && s' == s.(phase := if released then Closed else Detaching, attachedByControlPlane := !released,
                        detaches := s'.detaches, loop := Broken)
            && s'.detaches - s.detaches == (if s.attachedByControlPlane && driverOk then 1 else 0)
            && Hears(out, [Frame(f.requestId, DetachResponse, DeviceToHost, Control, 0,
                                 if released then 0 else -1, [])])
  {
    hide Encode, Decode, Flushable, EncodeAll;
    ArriveIs(s, cfg, f, driverOk);
    hide Arrive;
  }

  // Detaching what has been detached does nothing more and succeeds.
  lemma DetachIsIdempotent(s: DaemonState, driverOk: bool, later: bool)
    requires DetachSession(s, driverOk).0 == 0
    ensures var s' := DetachSession(s, driverOk).1; DetachSession(s', later) == (0, s')
  {
  }

  // Nothing is ever pending when a frame arrives: a cancel fails, and a reset finds nothing to drop.
  lemma ControlsAreAnswered(s: DaemonState, cfg: Config, f: Frame, driverOk: bool)
    requires ConfigOk(cfg) && Listening(s) && Encodable(f)
    requires f.frameType.CancelRequest? || f.frameType.ResetRequest?
    ensures var (s', out) := Arrive(s, cfg, f, driverOk);
            && s' == s
            && Hears(out, [Frame(f.requestId, if f.frameType.CancelRequest? then CancelResponse else ResetResponse,
                                 DeviceToHost, f.transferType, f.endpoint,
                                 if f.frameType.ResetRequest? && s.phase.Attached? then 0 else -1, [])])
  {
    hide Encode, Decode, Flushable, EncodeAll;
    ArriveIs(s, cfg, f, driverOk);
    CancelOnIdle(s, f);
    ResetOnIdle(s, f);
    hide Arrive, ReceiveCancel, ReceiveReset;
  }

  // Were transfers queued, a cancel would take one with its id and say so, and otherwise change
  // nothing and fail.
  lemma CancelIsDecided(s: DaemonState, f: Frame, u: Queue.QueuedTransfer)
    requires QueueInvariant.Inv(s.queues) && s.phase.Attached?
    ensures var (s', out) := ReceiveCancel(s, f);
            && out == [Frame(f.requestId, CancelResponse, DeviceToHost, f.transferType, f.endpoint, out[0].status, [])]
            && s' == s.(queues := s'.queues)
            && (out[0].status == -2 || (out[0].status == -1 && s' == s))
            && (u in QueueInvariant.Contents(s.queues.queues) && u.frame.requestId == f.requestId ==>
                  out[0].status == -2)
            && (out[0].status == -2 ==>
                  |QueueInvariant.Contents(s'.queues.queues)| == |QueueInvariant.Contents(s.queues.queues)| - 1)
  {
    QueueInvariant.CancelContents(s.queues, f.requestId);
    QueueInvariant.CancelFinds(s.queues, f.requestId);
    QueueInvariant.CancelKeepsInv(s.queues, f.requestId);
    if u in QueueInvariant.Contents(s.queues.queues) {
      QueueRuns.ContentsAt(s.queues.queues, u);
      var queue := Queue.At(s.queues.queues, u.key);
      var n :| 0 <= n < |queue| && queue[n] == u;
      assert u.frame.requestId == f.requestId ==> Queue.Holds(s.queues.queues, f.requestId, u.key);
    }
  }

  // And a reset would say of each transfer of its endpoint, in order, that it was reset.
  lemma ResetIsDecided(s: DaemonState, f: Frame, i: nat)
    requires s.phase.Attached?
    ensures var (s', out) := ReceiveReset(s, f);
            var queue := Queue.At(s.queues.queues, Queue.KeyOf(f));
            && |out| == 1 + |queue| && s' == s.(queues := s'.queues)
            && Queue.At(s'.queues.queues, Queue.KeyOf(f)) == []
            && out[0] == Frame(f.requestId, ResetResponse, DeviceToHost, f.transferType, f.endpoint, 0, [])
            && (i < |queue| ==>
                  var t := queue[i].frame;
                  out[i + 1] == Frame(t.requestId, Response, DeviceToHost, t.transferType, t.endpoint, -5, []))
  {
    var queue := Queue.At(s.queues.queues, Queue.KeyOf(f));
    if i < |queue| {
      ResetResponseAt(queue, i);
    }
  }

  lemma {:induction false} ResetResponseAt(dropped: seq<Queue.QueuedTransfer>, i: nat)
    requires i < |dropped|
    ensures ResetResponses(dropped)[i] == StatusResponse(dropped[i].frame, Reset)
    decreases i
  {
    if i > 0 {
      ResetResponseAt(dropped[1..], i - 1);
    }
  }

  // The worker takes the oldest frame of TX, unless it exceeds its buffer: what is no frame is
  // dropped, a request is turned into its response, all else is passed on.
  lemma PollIsDecided(s: DaemonState)
    ensures var s', tx := PollTx(s), s.driver.tx;
            if tx == [] || |tx[0]| > 65536 then s' == s
            else
              && s' == s.(driver := s.driver.(tx := tx[1..]), hand := s'.hand)
              && (Decode(tx[0]).Err? ==> s'.hand == s.hand)
              && (Decode(tx[0]).Ok? ==>
                    var f := Decode(tx[0]).value;
                    && s'.hand.Some? && s'.hand.value.requestId == f.requestId
                    && (s'.hand.value.frameType == if f.frameType.Request? then Response else f.frameType))
  {
    hide Decode;
  }

  // ---- data requests

  // The rule that decides is the first with the request's id.
  lemma {:induction false} FirstRuleIsFirst(rules: seq<OutcomeRule>, id: u64, o: Outcome)
    ensures FirstRule(rules, id) == Some(o)
       <==> exists i :: && 0 <= i < |rules| && rules[i] == OutcomeRule(id, o)
                        && forall j :: 0 <= j < i ==> rules[j].requestId != id
    decreases |rules|
  {
    if rules != [] {
      FirstRuleIsFirst(rules[1..], id, o);
      if rules[0].requestId == id {
        assert FirstRule(rules, id) == Some(o) ==> rules[0] == OutcomeRule(id, o);
      } else if FirstRule(rules, id) == Some(o) {
        var i :| && 0 <= i < |rules[1..]| && rules[1..][i] == OutcomeRule(id, o)
                 && forall j :: 0 <= j < i ==> rules[1..][j].requestId != id;
        assert rules[i + 1] == OutcomeRule(id, o);
        assert forall j :: 0 < j < i + 1 ==> rules[j] == rules[1..][j - 1];
      } else {
        forall i | 0 <= i < |rules| && rules[i] == OutcomeRule(id, o)
          ensures exists j :: 0 <= j < i && rules[j].requestId == id
        {
          assert rules[1..][i - 1] == OutcomeRule(id, o);
          var j :| 0 <= j < i - 1 && rules[1..][j].requestId == id;
          assert rules[j + 1].requestId == id;
        }
      }
    }
  }

  // A data request outside an attached session, or one that RX has no room for, fails; one with a
  // rule gets the injected status, or a prefix of the mock text; for every other one, which the
  // driver takes, nothing is sent.
  function DataAnswer(f: Frame, attached: bool, rule: Option<Outcome>, room: bool): seq<Frame> {
    var failure := Frame(f.requestId, Response, DeviceToHost, f.transferType, f.endpoint, -1, []);
    if !attached then [failure]
    else
      match rule
      case None => if room then [] else [failure]
      case Some(InjectStatus(status)) => [failure.(status := StatusCode(status))]
      case Some(ShortPacket(len)) =>
        var n := if len < |MOCK_RESPONSE_TEXT| then len else |MOCK_RESPONSE_TEXT|;
        [failure.(status := 0, payload := MOCK_RESPONSE_TEXT[..n])]
  }

  lemma DataRequestIs(s: DaemonState, cfg: Config, f: Frame)
    requires Idle(s.queues) && Encodable(f) && f.frameType.Request?
    requires s.phase.Attached? ==> !(f.transferType.Control? && f.endpoint == 0)
    ensures Flushable(s.queues)
    ensures var (s', out) := ReceiveRequest(s, cfg, f);
            var rule := FirstRule(cfg.outcomes, f.requestId);
            var room := |Flatten(s.driver.rx)| + 4 + |Encode(f)| <= 0x10_0000;
            && s' == s.(queues := s'.queues, driver := s'.driver)
            && (s'.driver != s.driver ==> s.phase.Attached? && rule.None? && room)
            && out == DataAnswer(f, s.phase.Attached?, rule, room)
  {
    hide Flush, FirstRule, Flatten, Encode;
    IdleIsFlushable(s.queues);
    FlushOne(s.queues, f, s.driver);
    hide Flushable;
    assert MOCK_RESPONSE_TEXT[..|MOCK_RESPONSE_TEXT|] == MOCK_RESPONSE_TEXT;
  }

  lemma DataRequestIsAnswered(s: DaemonState, cfg: Config, f: Frame, driverOk: bool)
    requires ConfigOk(cfg) && Listening(s) && Encodable(f) && f.frameType.Request?
    requires s.phase.Attached? ==> !(f.transferType.Control? && f.endpoint == 0)
    ensures var (s', out) := Arrive(s, cfg, f, driverOk);
            var rule := FirstRule(cfg.outcomes, f.requestId);
            var room := |Flatten(s.driver.rx)| + 4 + |Encode(f)| <= 0x10_0000;
            && s' == s.(queues := s'.queues, driver := s'.driver)
            && (s'.driver != s.driver ==> s.phase.Attached? && rule.None? && room)
            && Hears(out, DataAnswer(f, s.phase.Attached?, rule, room))
  {
    hide Decode, Flushable, ReceiveRequest;
    ArriveIs(s, cfg, f, driverOk);
    hide Arrive, EncodeAll;
    DataRequestIs(s, cfg, f);
    hide Encode, Flatten, FirstRule, DataAnswer;
  }

  // Whatever else arrives, or does not decode, is ignored.
  lemma OthersAreIgnored(s: DaemonState, cfg: Config, bytes: seq<u8>, driverOk: bool)
    requires ConfigOk(cfg) && Listening(s)
    requires Decode(bytes).Ok? ==>
               var t := Decode(bytes).value.frameType;
               !t.Request? && !t.AttachRequest? && !t.DetachRequest? && !t.CancelRequest? && !t.ResetRequest?
    ensures Step(s, cfg, Received(bytes, driverOk)) == (s, [])
  {
    hide Decode;
  }
}

// The framed byte stream both ring implementations carry: each frame is a big-endian length
// followed by that many bytes.

module RingSpec {
  import opened Bytes
  import opened Wrappers

  const RING_SIZE := 0x10_0000
  const PREFIX_LEN := 4

  type Payload = s: seq<u8> | |s| <= U32_MAX

  function Framed(p: Payload): (b: seq<u8>)
    ensures |b| == PREFIX_LEN + |p|
  {
    ToBe32(|p|) + p
  }

  function Flatten(frames: seq<Payload>): seq<u8> {
    if frames == [] then [] else Framed(frames[0]) + Flatten(frames[1..])
  }

  // ---- operations on the unread bytes

  predicate Fits(unread: seq<u8>, len: nat) {
    PREFIX_LEN + len <= RING_SIZE - |unread|
  }

  predicate HasFrame(unread: seq<u8>) {
    |unread| >= PREFIX_LEN && |unread| >= PREFIX_LEN + ReadBe32(unread, 0)
  }

  function HeadLen(unread: seq<u8>): nat
    requires |unread| >= PREFIX_LEN
  {
    ReadBe32(unread, 0)
  }

  function HeadFrame(unread: seq<u8>): (p: Payload)
    requires HasFrame(unread)
    ensures |p| == HeadLen(unread)
  {
    unread[PREFIX_LEN..PREFIX_LEN + HeadLen(unread)]
  }

  function AfterHead(unread: seq<u8>): seq<u8>
    requires HasFrame(unread)
  {
    unread[PREFIX_LEN + HeadLen(unread)..]
  }

  // ---- the stream as a queue of frames

  lemma {:induction false} FlattenAppend(a: seq<Payload>, b: seq<Payload>)
    ensures Flatten(a + b) == Flatten(a) + Flatten(b)
    decreases |a|
  {
    if a == [] {
      assert a + b == b;
    } else {
      FlattenAppend(a[1..], b);
      assert (a + b)[1..] == a[1..] + b;
    }
  }

  lemma FlattenPush(frames: seq<Payload>, p: Payload)
    ensures Flatten(frames + [p]) == Flatten(frames) + Framed(p)
  {
    FlattenAppend(frames, [p]);
    assert Flatten([p]) == Framed(p) + Flatten([]);
  }

  // The head of a framed stream, whatever bytes follow it.
  lemma HeadOfFramed(p: Payload, rest: seq<u8>)
    ensures var s := Framed(p) + rest;
            HasFrame(s) && HeadLen(s) == |p| && HeadFrame(s) == p && AfterHead(s) == rest
  {
    var s := Framed(p) + rest;
    assert s[0..4] == ToBe32(|p|);
  }

  // On a stream of whole frames the pop operations see exactly the first frame, and never a
  // partial one.
  lemma PopSeesFirstFrame(frames: seq<Payload>)
    ensures frames == [] ==> |Flatten(frames)| < PREFIX_LEN
    ensures frames != [] ==>
              var s := Flatten(frames);
              && HasFrame(s) && HeadFrame(s) == frames[0] && AfterHead(s) == Flatten(frames[1..])
  {
    if frames != [] {
      HeadOfFramed(frames[0], Flatten(frames[1..]));
    }
  }

  // Frame boundaries are never lost: two queues with the same bytes hold the same frames.
  lemma {:induction false} FlattenInjective(a: seq<Payload>, b: seq<Payload>)
    requires Flatten(a) == Flatten(b)
    ensures a == b
    decreases |a|
  {
    PopSeesFirstFrame(a);
    PopSeesFirstFrame(b);
    if a != [] && b != [] {
      FlattenInjective(a[1..], b[1..]);
      assert a == [a[0]] + a[1..] && b == [b[0]] + b[1..];
    }
  }

  lemma FlattenPrefix(frames: seq<Payload>, k: nat)
    requires k <= |frames|
    ensures |Flatten(frames[..k])| <= |Flatten(frames)|
    ensures Flatten(frames)[..|Flatten(frames[..k])|] == Flatten(frames[..k])
    ensures Flatten(frames)[|Flatten(frames[..k])|..] == Flatten(frames[k..])
  {
    assert frames == frames[..k] + frames[k..];
    FlattenAppend(frames[..k], frames[k..]);
  }

  // ---- runs of operations, whichever implementation performs each

  datatype RingOp = PushOp(frame: seq<u8>) | PopOp(maxLen: nat)

  datatype Reply = Accepted | Rejected | NoFrame | Delivered(frame: seq<u8>)

  function ByteStep(unread: seq<u8>, op: RingOp): (seq<u8>, Reply) {
    match op
    case PushOp(frame) =>
      if |frame| <= U32_MAX && Fits(unread, |frame|) then (unread + Framed(frame), Accepted)
      else (unread, Rejected)
    case PopOp(maxLen) =>
      if HasFrame(unread) && HeadLen(unread) <= maxLen then (AfterHead(unread), Delivered(HeadFrame(unread)))
      else (unread, NoFrame)
  }

  function QueueStep(frames: seq<Payload>, op: RingOp): (seq<Payload>, Reply) {
    match op
    case PushOp(frame) =>
      if Fits(Flatten(frames), |frame|) then (frames + [frame], Accepted) else (frames, Rejected)
    case PopOp(maxLen) =>
      if frames != [] && |frames[0]| <= maxLen then (frames[1..], Delivered(frames[0])) else (frames, NoFrame)
  }

  function ByteRun(unread: seq<u8>, ops: seq<RingOp>): (seq<u8>, seq<Reply>)
    decreases |ops|
  {
    if ops == [] then (unread, [])
    else
      var (unread', reply) := ByteStep(unread, ops[0]);
      var (last, replies) := ByteRun(unread', ops[1..]);
      (last, [reply] + replies)
  }

  function QueueRun(frames: seq<Payload>, ops: seq<RingOp>): (seq<Payload>, seq<Reply>)
    decreases |ops|
  {
    if ops == [] then (frames, [])
    else
      var (frames', reply) := QueueStep(frames, ops[0]);
      var (last, replies) := QueueRun(frames', ops[1..]);
      (last, [reply] + replies)
  }

  lemma StepRefinesQueue(frames: seq<Payload>, op: RingOp)
    ensures var (frames', reply) := QueueStep(frames, op);
            ByteStep(Flatten(frames), op) == (Flatten(frames'), reply)
  {
    PopSeesFirstFrame(frames);
    if op.PushOp? && Fits(Flatten(frames), |op.frame|) {
      FlattenPush(frames, op.frame);
    }
  }

  // Over any run the ring is one FIFO queue of byte strings: same replies, same frames left.
  lemma {:induction false} RunRefinesQueue(frames: seq<Payload>, ops: seq<RingOp>)
    ensures var (frames', replies) := QueueRun(frames, ops);
            ByteRun(Flatten(frames), ops) == (Flatten(frames'), replies)
    decreases |ops|
  {
    if ops != [] {
      StepRefinesQueue(frames, ops[0]);
      RunRefinesQueue(QueueStep(frames, ops[0]).0, ops[1..]);
    }
  }

  function AcceptedFrames(ops: seq<RingOp>, replies: seq<Reply>): seq<seq<u8>>
    requires |ops| == |replies|
  {
    if ops == [] then []
    else
      (if ops[0].PushOp? && replies[0].Accepted? then [ops[0].frame] else [])
      + AcceptedFrames(ops[1..], replies[1..])
  }

  function DeliveredFrames(replies: seq<Reply>): seq<seq<u8>> {
    if replies == [] then []
    else (if replies[0].Delivered? then [replies[0].frame] else []) + DeliveredFrames(replies[1..])
  }

  // Nothing is lost, duplicated, altered or reordered.
  lemma {:induction false} QueueRunConserves(frames: seq<Payload>, ops: seq<RingOp>)
    ensures var (left, replies) := QueueRun(frames, ops);
            && |replies| == |ops|
            && frames + AcceptedFrames(ops, replies) == DeliveredFrames(replies) + left
    decreases |ops|
  {
    if ops == [] {
      assert frames + [] == [] + frames;
    } else {
      var (frames', reply) := QueueStep(frames, ops[0]);
      QueueRunConserves(frames', ops[1..]);
      var (left, replies) := QueueRun(frames', ops[1..]);
      assert ([reply] + replies)[1..] == replies;
      var here: seq<seq<u8>> := if ops[0].PushOp? && reply.Accepted? then [ops[0].frame] else [];
      var out: seq<seq<u8>> := if reply.Delivered? then [reply.frame] else [];
      Splice(frames, here, AcceptedFrames(ops[1..], replies), out, frames', DeliveredFrames(replies), left);
    }
  }

  // From an empty ring, the frames delivered are a prefix of the frames accepted.
  lemma DeliveredIsPrefixOfAccepted(ops: seq<RingOp>)
    ensures var (left, replies) := ByteRun([], ops);
            && |replies| == |ops|
            && DeliveredFrames(replies) <= AcceptedFrames(ops, replies)
  {
    RunRefinesQueue([], ops);
    QueueRunConserves([], ops);
    var (left, replies) := QueueRun([], ops);
    assert [] + AcceptedFrames(ops, replies) == AcceptedFrames(ops, replies);
  }
}

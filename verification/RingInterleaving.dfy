// One producer and one consumer on the ring at the same time. Every counter load, every single
// byte copy and every publishing store is a step of its own, and a load of the other side's
// counter may return an out-of-date value. Release/acquire publication makes the bytes below a
// loaded head visible, and coherence makes successive loads of one counter non-decreasing; nothing
// else is assumed about the order of the two sides.

module RingInterleaving {
  import opened Bytes
  import opened RingMemory
  import opened RingSpec

  // Where the producer is inside push_frame; t and h are its snapshots of tail and head.
  datatype Producer =
    | Ready
    | LoadedTail(src: Payload, t: u64)
    | Copying(src: Payload, t: u64, h: u64, copied: nat)

  // Where the consumer is inside pop_frame.
  datatype Consumer =
    | Waiting
    | LoadedHead(maxLen: nat, h: u64)
    | Peeking(maxLen: nat, h: u64, t: u64, prefix: seq<u8>)
    | Reading(h: u64, t: u64, len: u32, out: seq<u8>)

  // accepted and popped record the frames published by the producer and returned to the
  // consumer's caller; seenPopped and seenAccepted record how old each side's view of the other
  // is, in frames.
  datatype System = System(
    data: Buffer,
    head: u64,
    tail: u64,
    producer: Producer,
    consumer: Consumer,
    accepted: seq<Payload>,
    popped: seq<Payload>,
    seenPopped: nat,
    seenAccepted: nat)

  ghost predicate Init(s: System) {
    && s.head == s.tail == 0
    && s.producer == Ready && s.consumer == Waiting
    && s.accepted == s.popped == []
    && s.seenPopped == s.seenAccepted == 0
  }

  function Total(frames: seq<Payload>): nat {
    |Flatten(frames)|
  }

  // ---- steps

  datatype Step =
    | LoadTail(src: Payload, view: nat) // push_frame starts; tail as of the view-th pop
    | LoadOwnHead                       // and the space check
    | CopyByteIn
    | PublishHead
    | LoadHead(maxLen: nat, asOf: nat)  // pop_frame starts; head as of the asOf-th push
    | LoadOwnTail                       // and the check for a length prefix
    | CopyPrefixByte
    | CheckFrame
    | CopyByteOut
    | PublishTail

  predicate Enabled(s: System, step: Step) {
    match step
    case LoadTail(_, view) => s.producer.Ready? && s.seenPopped <= view <= |s.popped|
    case LoadOwnHead => s.producer.LoadedTail?
    case CopyByteIn => s.producer.Copying? && s.producer.copied < |Framed(s.producer.src)|
    case PublishHead => s.producer.Copying? && s.producer.copied == |Framed(s.producer.src)|
    case LoadHead(_, asOf) => s.consumer.Waiting? && s.seenAccepted <= asOf <= |s.accepted|
    case LoadOwnTail => s.consumer.LoadedHead?
    case CopyPrefixByte => s.consumer.Peeking? && |s.consumer.prefix| < PREFIX_LEN
    case CheckFrame => s.consumer.Peeking? && |s.consumer.prefix| == PREFIX_LEN
    case CopyByteOut => s.consumer.Reading? && |s.consumer.out| < s.consumer.len
    case PublishTail => s.consumer.Reading? && |s.consumer.out| == s.consumer.len
  }

  function Next(s: System, step: Step): System
    requires Enabled(s, step)
  {
    match step
    case LoadTail(src, view) =>
      s.(producer := LoadedTail(src, Total(s.popped[..view]) % TWO_TO_64), seenPopped := view)
    case LoadOwnHead =>
      var p := s.producer;
      // size_t arithmetic: the difference of the space check wraps like the counters do
      if PREFIX_LEN + |p.src| > (RING_SIZE - Minus(s.head, p.t)) % TWO_TO_64 then s.(producer := Ready)
      else s.(producer := Copying(p.src, p.t, s.head, 0))
    case CopyByteIn =>
      var p := s.producer;
      s.(data := s.data[Slot(p.h, p.copied) := Framed(p.src)[p.copied]],
         producer := p.(copied := p.copied + 1))
    case PublishHead =>
      var p := s.producer;
      s.(head := Plus(p.h, |Framed(p.src)|), producer := Ready, accepted := s.accepted + [p.src])
    case LoadHead(maxLen, asOf) =>
      s.(consumer := LoadedHead(maxLen, Total(s.accepted[..asOf]) % TWO_TO_64), seenAccepted := asOf)
    case LoadOwnTail =>
      var c := s.consumer;
      if Minus(c.h, s.tail) < PREFIX_LEN then s.(consumer := Waiting)
      else s.(consumer := Peeking(c.maxLen, c.h, s.tail, []))
    case CopyPrefixByte =>
      var c := s.consumer;
      s.(consumer := c.(prefix := c.prefix + [s.data[Slot(c.t, |c.prefix|)]]))
    case CheckFrame =>
      var c := s.consumer;
      var len := FromBe32(c.prefix);
      if Minus(c.h, c.t) < PREFIX_LEN + len || len > c.maxLen then s.(consumer := Waiting)
      else s.(consumer := Reading(c.h, c.t, len, []))
    case CopyByteOut =>
      var c := s.consumer;
      s.(consumer := c.(out := c.out + [s.data[Slot(c.t, PREFIX_LEN + |c.out|)]]))
    case PublishTail =>
      var c := s.consumer;
      s.(tail := Plus(c.t, PREFIX_LEN + c.len), consumer := Waiting, popped := s.popped + [c.out])
  }

  // ---- invariant

  function TailTotal(s: System): nat {
    Total(s.popped)
  }

  function HeadTotal(s: System): nat {
    Total(s.accepted)
  }

  // The unbounded counters behind the snapshots the two sides hold.
  function SeenTail(s: System): nat
    requires s.seenPopped <= |s.popped|
  {
    Total(s.popped[..s.seenPopped])
  }

  function SeenHead(s: System): nat
    requires s.seenAccepted <= |s.accepted|
  {
    Total(s.accepted[..s.seenAccepted])
  }

  ghost predicate CountersOk(s: System) {
    && s.popped <= s.accepted
    && s.seenPopped <= |s.popped| <= s.seenAccepted <= |s.accepted|
    && s.head == HeadTotal(s) % TWO_TO_64
    && s.tail == TailTotal(s) % TWO_TO_64
    && HeadTotal(s) <= SeenTail(s) + RING_SIZE
  }

  ghost predicate InPlace(data: Buffer, stream: seq<u8>, from: nat, to: nat)
    requires to <= |stream|
  {
    forall i :: from <= i < to ==> data[i % RING_SIZE] == stream[i]
  }

  ghost predicate ProducerOk(s: System)
    requires CountersOk(s)
  {
    match s.producer
    case Ready => true
    case LoadedTail(_, t) => t == SeenTail(s) % TWO_TO_64
    case Copying(src, t, h, copied) =>
      && h == HeadTotal(s) % TWO_TO_64
      && HeadTotal(s) + |Framed(src)| <= SeenTail(s) + RING_SIZE
      && copied <= |Framed(src)|
      && InPlace(s.data, Flatten(s.accepted) + Framed(src), HeadTotal(s), HeadTotal(s) + copied)
  }

  ghost predicate ConsumerOk(s: System)
    requires CountersOk(s)
  {
    match s.consumer
    case Waiting => true
    case LoadedHead(_, h) => h == SeenHead(s) % TWO_TO_64
    case Peeking(_, h, t, prefix) =>
      && h == SeenHead(s) % TWO_TO_64 && t == s.tail
      && |s.popped| < s.seenAccepted
      && |prefix| <= PREFIX_LEN
      && prefix == Framed(s.accepted[|s.popped|])[..|prefix|]
    case Reading(_, t, len, out) =>
      && t == s.tail
      && |s.popped| < s.seenAccepted
      && len == |s.accepted[|s.popped|]|
      && |out| <= len
      && out == s.accepted[|s.popped|][..|out|]
  }

  ghost predicate Inv(s: System) {
    && CountersOk(s)
    && InPlace(s.data, Flatten(s.accepted), TailTotal(s), HeadTotal(s))
    && ProducerOk(s)
    && ConsumerOk(s)
  }

  // ---- arithmetic of slots

  lemma SlotOfWrapped(x: nat, i: nat)
    ensures Slot(x % TWO_TO_64, i) == (x + i) % RING_SIZE
  {
    WrapKeepsSlot(x);
  }

  lemma DistinctSlots(i: nat, j: nat)
    requires i < j < i + RING_SIZE
    ensures i % RING_SIZE != j % RING_SIZE
  {
  }

  lemma TotalMonotone(frames: seq<Payload>, j: nat, k: nat)
    requires j <= k <= |frames|
    ensures Total(frames[..j]) <= Total(frames[..k])
  {
    FlattenPrefix(frames[..k], j);
    assert frames[..k][..j] == frames[..j];
  }

  // The unread stream starts with the frame the consumer takes next.
  lemma NextFrameInStream(s: System)
    requires CountersOk(s) && |s.popped| < |s.accepted|
    ensures var f := Framed(s.accepted[|s.popped|]);
            && TailTotal(s) + |f| <= HeadTotal(s)
            && Flatten(s.accepted)[TailTotal(s)..TailTotal(s) + |f|] == f
            && Total(s.popped + [s.accepted[|s.popped|]]) == TailTotal(s) + |f|
  {
    var k := |s.popped|;
    FlattenPrefix(s.accepted, k);
    assert s.accepted[..k] == s.popped;
    assert s.accepted[k..][0] == s.accepted[k];
    FlattenPush(s.popped, s.accepted[k]);
  }

  lemma SeenHeadCovers(s: System)
    requires CountersOk(s)
    ensures TailTotal(s) <= SeenHead(s) <= HeadTotal(s) <= TailTotal(s) + RING_SIZE
    ensures |s.popped| < s.seenAccepted ==>
              TailTotal(s) + |Framed(s.accepted[|s.popped|])| <= SeenHead(s)
    ensures |s.popped| == s.seenAccepted ==> TailTotal(s) == SeenHead(s)
  {
    var k := |s.popped|;
    assert s.accepted[..k] == s.popped;
    assert s.accepted[..|s.accepted|] == s.accepted && s.popped[..k] == s.popped;
    TotalMonotone(s.accepted, k, s.seenAccepted);
    TotalMonotone(s.accepted, s.seenAccepted, |s.accepted|);
    TotalMonotone(s.popped, s.seenPopped, k);
    if k < s.seenAccepted {
      NextFrameInStream(s);
      assert s.accepted[..k + 1] == s.popped + [s.accepted[k]];
      TotalMonotone(s.accepted, k + 1, s.seenAccepted);
    }
  }

  // ---- the producer's steps

  lemma SeenTailBehind(s: System)
    requires CountersOk(s)
    ensures SeenTail(s) <= TailTotal(s) <= HeadTotal(s)
  {
    assert s.popped[..|s.popped|] == s.popped;
    TotalMonotone(s.popped, s.seenPopped, |s.popped|);
    SeenHeadCovers(s);
  }

  lemma SmallRemainder(n: nat)
    requires n < TWO_TO_64
    ensures n % TWO_TO_64 == n
  {
  }

  // The byte about to be written lies outside the unread region, although the space check was made
  // against a snapshot of tail.
  lemma WritesMissUnread(s: System)
    requires Inv(s) && Enabled(s, CopyByteIn)
    ensures forall i :: TailTotal(s) <= i < HeadTotal(s) ==>
                          i % RING_SIZE != Slot(s.producer.h, s.producer.copied)
    ensures Slot(s.producer.h, s.producer.copied) == (HeadTotal(s) + s.producer.copied) % RING_SIZE
  {
    var j := HeadTotal(s) + s.producer.copied;
    SlotOfWrapped(HeadTotal(s), s.producer.copied);
    SeenTailBehind(s);
    forall i | TailTotal(s) <= i < HeadTotal(s)
      ensures i % RING_SIZE != j % RING_SIZE
    {
      DistinctSlots(i, j);
    }
  }

  lemma LoadTailKeepsInv(s: System, src: Payload, view: nat)
    requires Inv(s) && Enabled(s, LoadTail(src, view))
    ensures Inv(Next(s, LoadTail(src, view)))
  {
    TotalMonotone(s.popped, s.seenPopped, view);
  }

  // The space check is exact for the snapshot: rejected means no room as of that tail.
  lemma SpaceCheck(s: System)
    requires Inv(s) && Enabled(s, LoadOwnHead)
    ensures Inv(Next(s, LoadOwnHead))
    ensures Next(s, LoadOwnHead).producer.Ready? <==>
              HeadTotal(s) + |Framed(s.producer.src)| > SeenTail(s) + RING_SIZE
  {
    SeenTailBehind(s);
    var p, used := s.producer, HeadTotal(s) - SeenTail(s);
    assert Minus(s.head, p.t) == used by {
      CountersRefine(HeadTotal(s), SeenTail(s), 0);
    }
    SmallRemainder(RING_SIZE - used);
  }

  lemma EarlierBytesStay(h: nat, copied: nat)
    requires copied < RING_SIZE
    ensures forall i :: h <= i < h + copied ==> i % RING_SIZE != (h + copied) % RING_SIZE
  {
    forall i | h <= i < h + copied
      ensures i % RING_SIZE != (h + copied) % RING_SIZE
    {
      DistinctSlots(i, h + copied);
    }
  }

  lemma CopyByteInKeepsInv(s: System)
    requires Inv(s) && Enabled(s, CopyByteIn)
    ensures Inv(Next(s, CopyByteIn))
  {
    WritesMissUnread(s);
    SeenTailBehind(s);
    EarlierBytesStay(HeadTotal(s), s.producer.copied);
    hide Slot, Flatten;
  }

  lemma PublishHeadKeepsInv(s: System)
    requires Inv(s) && Enabled(s, PublishHead)
    ensures Inv(Next(s, PublishHead))
  {
    var s' := Next(s, PublishHead);
    FlattenPush(s.accepted, s.producer.src);
    assert s'.accepted[..s.seenAccepted] == s.accepted[..s.seenAccepted];
    SeenHeadCovers(s);
    CountersRefine(HeadTotal(s), HeadTotal(s), |Framed(s.producer.src)|);
  }

  // ---- the consumer's steps

  // A pop that gives up here found its view of the ring empty.
  lemma LoadOwnTailKeepsInv(s: System)
    requires Inv(s) && Enabled(s, LoadOwnTail)
    ensures Inv(Next(s, LoadOwnTail))
    ensures Next(s, LoadOwnTail).consumer.Waiting? <==> |s.popped| == s.seenAccepted
  {
    SeenHeadCovers(s);
    CountersRefine(SeenHead(s), TailTotal(s), 0);
  }

  // A byte read at stream position i of the next frame is that frame's byte i.
  lemma ReadsNextFrame(s: System, i: nat)
    requires Inv(s) && |s.popped| < s.seenAccepted
    requires i < |Framed(s.accepted[|s.popped|])|
    ensures s.data[Slot(s.tail, i)] == Framed(s.accepted[|s.popped|])[i]
  {
    NextFrameInStream(s);
    SlotOfWrapped(TailTotal(s), i);
    var stream := Flatten(s.accepted);
    assert stream[TailTotal(s) + i] == stream[TailTotal(s)..TailTotal(s) + |Framed(s.accepted[|s.popped|])|][i];
  }

  lemma CopyPrefixByteKeepsInv(s: System)
    requires Inv(s) && Enabled(s, CopyPrefixByte)
    ensures Inv(Next(s, CopyPrefixByte))
  {
    ReadsNextFrame(s, |s.consumer.prefix|);
  }

  // The incomplete-frame branch is never taken: a pop that gives up here met a frame longer than
  // the caller's buffer.
  lemma CheckFrameKeepsInv(s: System)
    requires Inv(s) && Enabled(s, CheckFrame)
    ensures Inv(Next(s, CheckFrame))
    ensures Next(s, CheckFrame).consumer.Waiting? <==> |s.accepted[|s.popped|]| > s.consumer.maxLen
  {
    SeenHeadCovers(s);
    CountersRefine(SeenHead(s), TailTotal(s), 0);
    var f := s.accepted[|s.popped|];
    assert Framed(f)[..PREFIX_LEN] == ToBe32(|f|);
  }

  lemma CopyByteOutKeepsInv(s: System)
    requires Inv(s) && Enabled(s, CopyByteOut)
    ensures Inv(Next(s, CopyByteOut))
  {
    ReadsNextFrame(s, PREFIX_LEN + |s.consumer.out|);
  }

  lemma PublishTailKeepsInv(s: System)
    requires Inv(s) && Enabled(s, PublishTail)
    ensures Inv(Next(s, PublishTail))
    ensures s.consumer.out == s.accepted[|s.popped|]
  {
    var s' := Next(s, PublishTail);
    NextFrameInStream(s);
    assert s'.popped[..s.seenPopped] == s.popped[..s.seenPopped];
    assert s.consumer.out == s.accepted[|s.popped|];
    assert s'.popped == s.accepted[..|s.popped| + 1];
    CountersRefine(TailTotal(s), TailTotal(s), PREFIX_LEN + s.consumer.len);
  }

  lemma StepKeepsInv(s: System, step: Step)
    requires Inv(s) && Enabled(s, step)
    ensures Inv(Next(s, step))
  {
    match step
    case LoadTail(src, view) => LoadTailKeepsInv(s, src, view);
    case LoadOwnHead => SpaceCheck(s);
    case CopyByteIn => CopyByteInKeepsInv(s);
    case PublishHead => PublishHeadKeepsInv(s);
    case LoadHead(_, _) =>
    case LoadOwnTail => LoadOwnTailKeepsInv(s);
    case CopyPrefixByte => CopyPrefixByteKeepsInv(s);
    case CheckFrame => CheckFrameKeepsInv(s);
    case CopyByteOut => CopyByteOutKeepsInv(s);
    case PublishTail => PublishTailKeepsInv(s);
  }

  // ---- whole runs

  ghost predicate Run(states: seq<System>, steps: seq<Step>) {
    && |states| == |steps| + 1
    && Init(states[0])
    && forall i :: 0 <= i < |steps| ==> Enabled(states[i], steps[i]) && states[i + 1] == Next(states[i], steps[i])
  }

  lemma {:induction false} RunKeepsInv(states: seq<System>, steps: seq<Step>, i: nat)
    requires Run(states, steps) && i < |states|
    ensures Inv(states[i])
  {
    if i > 0 {
      RunKeepsInv(states, steps, i - 1);
      StepKeepsInv(states[i - 1], steps[i - 1]);
    }
  }

  // Under every interleaving the frames returned by pop are, byte for byte, a prefix of the frames
  // accepted by push, and no byte is ever written over an unread one.
  lemma EveryInterleavingIsFifo(states: seq<System>, steps: seq<Step>, i: nat)
    requires Run(states, steps) && i < |states|
    ensures states[i].popped <= states[i].accepted
    ensures i < |steps| && steps[i].CopyByteIn? ==>
              var s := states[i];
              forall k :: TailTotal(s) <= k < HeadTotal(s) ==>
                            k % RING_SIZE != Slot(s.producer.h, s.producer.copied)
    ensures i < |steps| && steps[i].PublishTail? ==>
              var s := states[i];
              |s.popped| < |s.accepted| && states[i + 1].popped == s.popped + [s.accepted[|s.popped|]]
  {
    RunKeepsInv(states, steps, i);
    if i < |steps| && steps[i].CopyByteIn? {
      WritesMissUnread(states[i]);
    }
    if i < |steps| && steps[i].PublishTail? {
      PublishTailKeepsInv(states[i]);
    }
  }

  // ---- what a reader of both counters can rely on

  // The producer's own head against any tail it may see, and any head the consumer may see against
  // its own tail, never differ by more than the ring's size.
  lemma SnapshotsAreBounded(s: System, view: nat, asOf: nat)
    requires Inv(s) && s.seenPopped <= view <= |s.popped| && s.seenAccepted <= asOf <= |s.accepted|
    ensures Minus(s.head, Total(s.popped[..view]) % TWO_TO_64) <= RING_SIZE
    ensures Minus(Total(s.accepted[..asOf]) % TWO_TO_64, s.tail) <= RING_SIZE
  {
    TotalMonotone(s.popped, s.seenPopped, view);
    TotalMonotone(s.popped, view, |s.popped|);
    TotalMonotone(s.accepted, |s.popped|, asOf);
    TotalMonotone(s.accepted, asOf, |s.accepted|);
    assert s.popped[..|s.popped|] == s.popped && s.accepted[..|s.accepted|] == s.accepted;
    assert s.accepted[..|s.popped|] == s.popped;
    CountersRefine(HeadTotal(s), Total(s.popped[..view]), 0);
    CountersRefine(Total(s.accepted[..asOf]), TailTotal(s), 0);
  }

  lemma {:induction false} PoppedGrows(states: seq<System>, steps: seq<Step>, i: nat, j: nat)
    requires Run(states, steps) && i <= j < |states|
    ensures states[i].popped <= states[j].popped
  {
    if i < j {
      PoppedGrows(states, steps, i, j - 1);
      assert states[j] == Next(states[j - 1], steps[j - 1]);
    }
  }

  // Anyone else, loading head at one moment and tail at a later one, gets a plausible count exactly
  // when the consumer has not passed the loaded head in between.
  lemma ObserverIsBoundedExactly(states: seq<System>, steps: seq<Step>, i: nat, j: nat)
    requires Run(states, steps) && i <= j < |states|
    requires TailTotal(states[j]) - HeadTotal(states[i]) < TWO_TO_64 - RING_SIZE
    ensures Minus(states[i].head, states[j].tail) <= RING_SIZE <==> TailTotal(states[j]) <= HeadTotal(states[i])
  {
    RunKeepsInv(states, steps, i);
    RunKeepsInv(states, steps, j);
    PoppedGrows(states, steps, i, j);
    var early, late := states[i], states[j];
    TotalMonotone(early.popped, early.seenPopped, |early.popped|);
    assert early.popped[..|early.popped|] == early.popped;
    TotalMonotone(late.popped, |early.popped|, |late.popped|);
    assert late.popped[..|early.popped|] == early.popped && late.popped[..|late.popped|] == late.popped;
    if TailTotal(late) <= HeadTotal(early) {
      CountersRefine(HeadTotal(early), TailTotal(late), 0);
    } else {
      PassedHeadWraps(HeadTotal(early), TailTotal(late));
    }
  }

  lemma PassedHeadWraps(h: nat, t: nat)
    requires h < t && t - h < TWO_TO_64 - RING_SIZE
    ensures Minus(h % TWO_TO_64, t % TWO_TO_64) == TWO_TO_64 - (t - h)
  {
    var qh, qt := h / TWO_TO_64, t / TWO_TO_64;
    assert h == qh * TWO_TO_64 + h % TWO_TO_64 && t == qt * TWO_TO_64 + t % TWO_TO_64;
    assert qh == qt || qt == qh + 1;
  }

  // ---- a run in which the third reader is misled

  ghost predicate Linked(states: seq<System>, steps: seq<Step>) {
    && |states| == |steps| + 1
    && forall i :: 0 <= i < |steps| ==> Enabled(states[i], steps[i]) && states[i + 1] == Next(states[i], steps[i])
  }

  lemma Extend(states: seq<System>, steps: seq<Step>, step: Step) returns (states': seq<System>, steps': seq<Step>)
    requires Linked(states, steps) && Enabled(states[|steps|], step)
    ensures Linked(states', steps') && |states'| == |steps'| + 1
    ensures states'[0] == states[0] && states'[|steps'|] == Next(states[|steps|], step)
  {
    states', steps' := states + [Next(states[|steps|], step)], steps + [step];
    forall i | 0 <= i < |steps'|
      ensures Enabled(states'[i], steps'[i]) && states'[i + 1] == Next(states'[i], steps'[i])
    {
      assert states'[i] == states[i];
      if i < |steps| {
        assert states'[i + 1] == states[i + 1] && steps'[i] == steps[i];
      }
    }
  }

  // The producer pushes an empty frame, copying its four prefix bytes one by one.
  lemma PushEmptyFrame(start: System) returns (states: seq<System>, steps: seq<Step>)
    requires Init(start)
    ensures Linked(states, steps) && states[0] == start
    ensures var s := states[|steps|];
            && s.head == 4 && s.tail == 0 && s.accepted == [[]] && s.popped == []
            && s.producer.Ready? && s.consumer.Waiting? && s.seenPopped == s.seenAccepted == 0
            && s.data[..4] == [0, 0, 0, 0]
  {
    var empty: Payload := [];
    assert start.popped[..0] == [] && Flatten(start.popped[..0]) == [];
    states, steps := [start], [];
    assert Linked(states, steps);
    hide Linked;
    states, steps := Extend(states, steps, LoadTail(empty, 0));
    states, steps := Extend(states, steps, LoadOwnHead);
    assert Framed(empty) == [0, 0, 0, 0];
    for k := 0 to 4
      invariant Linked(states, steps) && |states| == |steps| + 1 && states[0] == start
      invariant var s := states[|steps|];
                && s.producer == Copying(empty, 0, 0, k)
                && s == start.(data := s.data, producer := s.producer)
                && forall j :: 0 <= j < k ==> s.data[j] == 0
    {
      states, steps := Extend(states, steps, CopyByteIn);
    }
    states, steps := Extend(states, steps, PublishHead);
    assert [] + [empty] == [empty];
  }

  // The consumer pops it.
  lemma PopEmptyFrame(before: seq<System>, stepsBefore: seq<Step>) returns (states: seq<System>, steps: seq<Step>)
    requires Linked(before, stepsBefore)
    requires var s := before[|stepsBefore|];
             && s.head == 4 && s.tail == 0 && s.accepted == [[]] && s.popped == []
             && s.consumer.Waiting? && s.seenPopped == s.seenAccepted == 0
             && s.data[..4] == [0, 0, 0, 0]
    ensures Linked(states, steps) && states[0] == before[0]
    ensures states[|steps|].tail == 4 && states[|steps|].popped == [[]]
  {
    states, steps := before, stepsBefore;
    assert |states| == |steps| + 1;
    hide Linked;
    var start := states[|steps|];
    var empty: Payload := [];
    assert start.accepted[..1] == [empty];
    FlattenPush([], empty);
    assert [] + [empty] == [empty] && |Flatten([empty])| == 4;
    states, steps := Extend(states, steps, LoadHead(0, 1));
    states, steps := Extend(states, steps, LoadOwnTail);
    for k := 0 to 4
      invariant Linked(states, steps) && |states| == |steps| + 1 && states[0] == before[0]
      invariant var s := states[|steps|];
                && s == start.(consumer := s.consumer, seenAccepted := 1)
                && s.consumer.Peeking? && s.consumer.maxLen == 0 && s.consumer.h == 4 && s.consumer.t == 0
                && s.consumer.prefix == start.data[..k]
    {
      states, steps := Extend(states, steps, CopyPrefixByte);
    }
    assert FromBe32([0, 0, 0, 0]) == 0;
    states, steps := Extend(states, steps, CheckFrame);
    states, steps := Extend(states, steps, PublishTail);
    assert [] + [empty] == [empty];
  }

  // A reader that loads head before a frame is pushed and tail after it was popped counts
  // 2^64 - 4 unread bytes.
  lemma ObserverCanBeMisled(start: System) returns (states: seq<System>, steps: seq<Step>)
    requires Init(start)
    ensures Run(states, steps) && states[0] == start
    ensures Minus(states[0].head, states[|steps|].tail) == TWO_TO_64 - 4 > RING_SIZE
  {
    states, steps := PushEmptyFrame(start);
    states, steps := PopEmptyFrame(states, steps);
  }
}

// What every operation of the endpoint queues keeps, what whole runs conserve, and how long a
// transfer can wait.

module EndpointQueueInvariant {
  import opened Bytes
  import opened EndpointQueue
  import opened FrameCodec
  import opened Wrappers

  // ---- the multiset of queued transfers

  function ContentsOver(queues: Queues, keys: seq<EndpointKey>): multiset<QueuedTransfer>
    decreases queues, |keys|
  {
    if keys == [] then multiset{} else multiset(At(queues, keys[0])) + ContentsOver(queues, keys[1..])
  }

  function Contents(queues: Queues): multiset<QueuedTransfer> {
    ContentsOver(queues, AllKeys())
  }

  ghost predicate NoDuplicates(order: seq<EndpointKey>) {
    forall i, j :: 0 <= i < j < |order| ==> order[i] != order[j]
  }

  ghost predicate AgreeExcept(a: Queues, b: Queues, key: EndpointKey) {
    forall k :: k != key ==> At(a, k) == At(b, k)
  }

  lemma {:induction false} ContentsOverSame(a: Queues, b: Queues, key: EndpointKey, keys: seq<EndpointKey>)
    requires AgreeExcept(a, b, key) && key !in keys
    ensures ContentsOver(a, keys) == ContentsOver(b, keys)
    decreases |keys|
  {
    if keys != [] {
      ContentsOverSame(a, b, key, keys[1..]);
    }
  }

  lemma SwapEnds(x: multiset<QueuedTransfer>, y: multiset<QueuedTransfer>, z: multiset<QueuedTransfer>)
    ensures x + y + z == z + y + x
  {
  }

  lemma {:induction false} ContentsOverChange(a: Queues, b: Queues, key: EndpointKey, keys: seq<EndpointKey>)
    requires AgreeExcept(a, b, key) && NoDuplicates(keys) && key in keys
    ensures ContentsOver(a, keys) + multiset(At(b, key)) == ContentsOver(b, keys) + multiset(At(a, key))
    decreases |keys|
  {
    var k, rest := keys[0], keys[1..];
    if k == key {
      assert key !in rest;
      ContentsOverSame(a, b, key, rest);
      SwapEnds(multiset(At(a, key)), ContentsOver(a, rest), multiset(At(b, key)));
    } else {
      ContentsOverChange(a, b, key, rest);
      var mk := multiset(At(a, k));
      assert mk + (ContentsOver(a, rest) + multiset(At(b, key))) == mk + ContentsOver(a, rest) + multiset(At(b, key));
      assert mk + (ContentsOver(b, rest) + multiset(At(a, key))) == mk + ContentsOver(b, rest) + multiset(At(a, key));
    }
  }

  lemma AllKeysDistinct()
    ensures NoDuplicates(AllKeys())
  {
    var keys := AllKeys();
    forall i, j | 0 <= i < j < |keys|
      ensures keys[i] != keys[j]
    {
      KeyAtIs(i, keys[j]);
      KeyAtIs(j, keys[j]);
    }
  }

  lemma Balance(a: multiset<QueuedTransfer>, b: multiset<QueuedTransfer>,
                kept: multiset<QueuedTransfer>, gone: multiset<QueuedTransfer>)
    requires a + kept == b + (kept + gone)
    ensures a == b + gone
  {
    assert a + kept - kept == a && b + (kept + gone) - kept == b + gone;
  }

  // Changing one queue changes the contents by exactly that queue's change.
  lemma ContentsChange(a: Queues, b: Queues, key: EndpointKey)
    requires AgreeExcept(a, b, key)
    ensures Contents(a) + multiset(At(b, key)) == Contents(b) + multiset(At(a, key))
  {
    AllKeysDistinct();
    AllKeysListed(key);
    ContentsOverChange(a, b, key, AllKeys());
  }

  lemma {:induction false} EmptyContentsOver(queues: Queues, keys: seq<EndpointKey>)
    requires queues == map[]
    ensures ContentsOver(queues, keys) == multiset{}
    decreases |keys|
  {
    if keys != [] {
      EmptyContentsOver(queues, keys[1..]);
    }
  }

  lemma EmptyContents(queues: Queues)
    requires queues == map[]
    ensures Contents(queues) == multiset{}
  {
    EmptyContentsOver(queues, AllKeys());
  }

  lemma {:induction false} ContentsHasOver(queues: Queues, key: EndpointKey, keys: seq<EndpointKey>)
    requires key in keys
    ensures multiset(At(queues, key)) <= ContentsOver(queues, keys)
    decreases |keys|
  {
    if key != keys[0] {
      ContentsHasOver(queues, key, keys[1..]);
    }
  }

  lemma ContentsHas(queues: Queues, key: EndpointKey)
    ensures multiset(At(queues, key)) <= Contents(queues)
  {
    AllKeysListed(key);
    ContentsHasOver(queues, key, AllKeys());
  }

  // ---- the invariant

  ghost predicate QueuesOk(queues: Queues) {
    && (forall key :: key in queues ==> queues[key] != [])
    && (forall key, i :: key in queues && 0 <= i < |queues[key]| ==>
                           queues[key][i].key == key == KeyOf(queues[key][i].frame))
  }

  ghost predicate OrderOk(s: State) {
    && NoDuplicates(s.activeOrder)
    && (forall key :: key in s.activeOrder <==> key in s.queues)
    && s.activeKeys == s.queues.Keys
  }

  // The four structures agree.
  ghost predicate Inv(s: State) {
    OrderOk(s) && QueuesOk(s.queues) && s.len == |Contents(s.queues)|
  }

  lemma {:induction false} WithoutRemoves(order: seq<EndpointKey>, key: EndpointKey)
    requires NoDuplicates(order)
    ensures NoDuplicates(Without(order, key))
    ensures forall k :: k in Without(order, key) <==> k in order && k != key
  {
    if order != [] {
      WithoutRemoves(order[1..], key);
      var rest := Without(order[1..], key);
      assert order == [order[0]] + order[1..];
      assert order[0] !in order[1..];
      if order[0] != key {
        assert Without(order, key) == [order[0]] + rest;
        assert forall j :: 0 <= j < |rest| ==> rest[j] in rest;
      }
    }
  }

  lemma EmptyHasInv(s: State)
    requires Empty(s)
    ensures Inv(s)
  {
    EmptyContents(s.queues);
  }

  // ---- what each operation does to the contents

  lemma EnqueueContents(s: State, frame: Frame)
    requires frame.frameType.Request?
    ensures Contents(Enqueue(s, frame).1.queues)
         == Contents(s.queues) + multiset{QueuedTransfer(s.nextSequence, KeyOf(frame), frame)}
  {
    var key, s' := KeyOf(frame), Enqueue(s, frame).1;
    var t := QueuedTransfer(s.nextSequence, key, frame);
    ContentsChange(s'.queues, s.queues, key);
    assert At(s'.queues, key) == At(s.queues, key) + [t];
    Balance(Contents(s'.queues), Contents(s.queues), multiset(At(s.queues, key)), multiset{t});
  }

  lemma WithoutOne(queue: seq<QueuedTransfer>, i: nat)
    requires i < |queue|
    ensures multiset(queue) == multiset(queue[..i] + queue[i + 1..]) + multiset{queue[i]}
  {
    assert queue == queue[..i] + ([queue[i]] + queue[i + 1..]);
  }

  // One transfer less, at place i of its queue.
  lemma ContentsMinusOne(a: Queues, b: Queues, key: EndpointKey, i: nat)
    requires i < |At(a, key)| && At(b, key) == At(a, key)[..i] + At(a, key)[i + 1..]
    requires AgreeExcept(a, b, key)
    ensures Contents(a) == Contents(b) + multiset{At(a, key)[i]}
  {
    var queue := At(a, key);
    ContentsChange(a, b, key);
    WithoutOne(queue, i);
    Balance(Contents(a), Contents(b), multiset(At(b, key)), multiset{queue[i]});
  }

  lemma AfterPopContents(s: State, key: EndpointKey, rest: seq<EndpointKey>)
    requires At(s.queues, key) != []
    ensures Contents(s.queues) == Contents(AfterPop(s, key, rest).queues) + multiset{s.queues[key][0]}
  {
    var queue := s.queues[key];
    assert queue[..0] + queue[1..] == queue[1..];
    ContentsMinusOne(s.queues, AfterPop(s, key, rest).queues, key, 0);
  }

  lemma RemoveAtContents(s: State, key: EndpointKey, i: nat)
    requires i < |At(s.queues, key)|
    ensures Contents(s.queues) == Contents(RemoveAt(s, key, i).queues) + multiset{s.queues[key][i]}
  {
    ContentsMinusOne(s.queues, RemoveAt(s, key, i).queues, key, i);
  }

  lemma CancelContents(s: State, requestId: u64)
    ensures Cancel(s, requestId).0.None? ==> Cancel(s, requestId).1 == s
    ensures Cancel(s, requestId).0.Some? ==>
              var t := Cancel(s, requestId).0.value;
              && t.frame.requestId == requestId
              && Contents(s.queues) == Contents(Cancel(s, requestId).1.queues) + multiset{t}
  {
    var holder := FirstHolder(s.queues, requestId, AllKeys());
    if holder.Some? {
      RemoveAtContents(s, holder.value, Position(s.queues[holder.value], requestId));
    }
  }

  // Cancelling finds the request id whenever any queue holds it.
  lemma CancelFinds(s: State, requestId: u64)
    ensures Cancel(s, requestId).0.None? <==> forall key :: !Holds(s.queues, requestId, key)
  {
    forall key
      ensures key in AllKeys()
    {
      AllKeysListed(key);
    }
  }

  lemma ResetContents(s: State, key: EndpointKey)
    ensures Contents(s.queues) == Contents(ResetEndpoint(s, key).1.queues) + multiset(ResetEndpoint(s, key).0)
  {
    if key in s.queues {
      ContentsChange(s.queues, s.queues - {key}, key);
    }
  }

  // ---- what each operation keeps

  // With the structures in agreement the skip branches of pop_next are dead: it serves the key at
  // the front of the order.
  lemma PopServesFront(s: State)
    requires OrderOk(s) && QueuesOk(s.queues)
    ensures s.activeOrder == [] ==> PopNext(s) == (None, s)
    ensures s.activeOrder != [] ==>
              var key := s.activeOrder[0];
              key in s.queues && PopNext(s) == (Some(s.queues[key][0]), AfterPop(s, key, s.activeOrder[1..]))
  {
    if s.activeOrder != [] {
      assert s.activeOrder[0] in s.activeOrder;
    }
  }

  function KeysOf(order: seq<EndpointKey>): set<EndpointKey> {
    if order == [] then {} else {order[0]} + KeysOf(order[1..])
  }

  // Keys with nothing queued, were there any in front, would be dropped from the order and the set.
  lemma {:induction false} PopDropsStaleKeys(s: State, n: nat)
    requires n <= |s.activeOrder| && forall i :: 0 <= i < n ==> At(s.queues, s.activeOrder[i]) == []
    ensures PopNext(s) == PopNext(s.(activeOrder := s.activeOrder[n..],
                                     activeKeys := s.activeKeys - KeysOf(s.activeOrder[..n])))
    decreases n
  {
    var order := s.activeOrder;
    if n == 0 {
      assert order[0..] == order && s.activeKeys - KeysOf(order[..0]) == s.activeKeys;
    } else {
      var s' := s.(activeOrder := order[1..], activeKeys := s.activeKeys - {order[0]});
      assert At(s.queues, order[0]) == [];
      PopDropsStaleKeys(s', n - 1);
      assert order[1..][n - 1..] == order[n..];
      assert order[..n][1..] == order[1..][..n - 1];
      assert s'.activeKeys - KeysOf(order[1..][..n - 1]) == s.activeKeys - KeysOf(order[..n]);
    }
  }

  // It finds nothing exactly when the counter says so.
  lemma PopFindsNothingWhenEmpty(s: State)
    requires Inv(s)
    ensures PopNext(s).0.None? <==> s.len == 0
  {
    PopServesFront(s);
    NoContentsMeansNoQueues(s);
    assert s.activeOrder == [] ==> s.queues.Keys == {};
  }

  lemma NoContentsMeansNoQueues(s: State)
    requires QueuesOk(s.queues)
    ensures s.queues == map[] <==> |Contents(s.queues)| == 0
  {
    if s.queues == map[] {
      EmptyContents(s.queues);
    } else {
      var key :| key in s.queues;
      ContentsHas(s.queues, key);
      assert s.queues[key][0] in multiset(At(s.queues, key));
    }
  }

  lemma EnqueueKeepsOrder(s: State, frame: Frame)
    requires OrderOk(s) && QueuesOk(s.queues)
    ensures OrderOk(Enqueue(s, frame).1)
  {
    var key, s' := KeyOf(frame), Enqueue(s, frame).1;
    assert key in s.queues <==> At(s.queues, key) != [];
    assert frame.frameType.Request? && key !in s.queues ==> s'.activeOrder == s.activeOrder + [key];
  }

  lemma EnqueueKeepsQueues(s: State, frame: Frame)
    requires QueuesOk(s.queues)
    ensures QueuesOk(Enqueue(s, frame).1.queues)
  {
  }

  lemma EnqueueKeepsInv(s: State, frame: Frame)
    requires Inv(s)
    ensures Inv(Enqueue(s, frame).1)
  {
    EnqueueKeepsOrder(s, frame);
    EnqueueKeepsQueues(s, frame);
    if frame.frameType.Request? {
      EnqueueContents(s, frame);
    }
  }

  lemma RotateOrder(order: seq<EndpointKey>)
    requires NoDuplicates(order) && order != []
    ensures NoDuplicates(order[1..]) && order[0] !in order[1..] && NoDuplicates(order[1..] + [order[0]])
    ensures forall k :: k in order <==> k == order[0] || k in order[1..]
  {
    assert order == [order[0]] + order[1..];
  }

  lemma AfterPopKeepsOrder(s: State)
    requires OrderOk(s) && QueuesOk(s.queues) && s.activeOrder != []
    ensures s.activeOrder[0] in s.queues
    ensures OrderOk(AfterPop(s, s.activeOrder[0], s.activeOrder[1..]))
  {
    RotateOrder(s.activeOrder);
    assert s.activeOrder[0] in s.activeOrder;
  }

  lemma AfterPopKeepsQueues(s: State, key: EndpointKey, rest: seq<EndpointKey>)
    requires QueuesOk(s.queues) && key in s.queues
    ensures QueuesOk(AfterPop(s, key, rest).queues)
  {
  }

  lemma PopKeepsInv(s: State)
    requires Inv(s)
    ensures Inv(PopNext(s).1)
  {
    PopServesFront(s);
    if s.activeOrder != [] {
      AfterPopKeepsOrder(s);
      AfterPopKeepsQueues(s, s.activeOrder[0], s.activeOrder[1..]);
      AfterPopContents(s, s.activeOrder[0], s.activeOrder[1..]);
    }
  }

  lemma RemoveAtKeepsShape(s: State, key: EndpointKey, i: nat)
    requires OrderOk(s) && QueuesOk(s.queues) && i < |At(s.queues, key)|
    ensures OrderOk(RemoveAt(s, key, i)) && QueuesOk(RemoveAt(s, key, i).queues)
  {
    WithoutRemoves(s.activeOrder, key);
  }

  lemma CancelKeepsInv(s: State, requestId: u64)
    requires Inv(s)
    ensures Inv(Cancel(s, requestId).1)
  {
    var holder := FirstHolder(s.queues, requestId, AllKeys());
    if holder.Some? {
      var i := Position(s.queues[holder.value], requestId);
      RemoveAtKeepsShape(s, holder.value, i);
      RemoveAtContents(s, holder.value, i);
    }
  }

  lemma ResetKeepsInv(s: State, key: EndpointKey)
    requires Inv(s)
    ensures Inv(ResetEndpoint(s, key).1)
  {
    WithoutRemoves(s.activeOrder, key);
    ResetContents(s, key);
  }
}

module EndpointQueueRuns {
  import opened Bytes
  import opened EndpointQueue
  import opened EndpointQueueInvariant
  import opened FrameCodec
  import opened Wrappers

  datatype Op = EnqueueOp(frame: Frame) | PopOp | CancelOp(requestId: u64) | ResetOp(key: EndpointKey) | ClearOp

  // The transfers that entered and left, and which way they left.
  datatype Flow = Flow(
    accepted: multiset<QueuedTransfer>,
    popped: seq<QueuedTransfer>,
    cancelled: multiset<QueuedTransfer>,
    reset: multiset<QueuedTransfer>,
    cleared: multiset<QueuedTransfer>)
  {
    function Then(later: Flow): Flow {
      Flow(accepted + later.accepted, popped + later.popped, cancelled + later.cancelled,
           reset + later.reset, cleared + later.cleared)
    }

    function Out(): multiset<QueuedTransfer> {
      multiset(popped) + cancelled + reset + cleared
    }
  }

  const STILL := Flow(multiset{}, [], multiset{}, multiset{}, multiset{})

  function One(t: Option<QueuedTransfer>): multiset<QueuedTransfer> {
    if t.Some? then multiset{t.value} else multiset{}
  }

  function Cleared(s: State): (s': State)
    ensures Empty(s')
  {
    State(0, s.queues - s.queues.Keys, [], {}, 0)
  }

  function Apply(s: State, op: Op): (State, Flow) {
    match op
    case EnqueueOp(frame) =>
      (Enqueue(s, frame).1,
       STILL.(accepted := One(if frame.frameType.Request?
                              then Some(QueuedTransfer(s.nextSequence, KeyOf(frame), frame)) else None)))
    case PopOp =>
      (PopNext(s).1, STILL.(popped := if PopNext(s).0.Some? then [PopNext(s).0.value] else []))
    case CancelOp(id) => (Cancel(s, id).1, STILL.(cancelled := One(Cancel(s, id).0)))
    case ResetOp(key) => (ResetEndpoint(s, key).1, STILL.(reset := multiset(ResetEndpoint(s, key).0)))
    case ClearOp => (Cleared(s), STILL.(cleared := Contents(s.queues)))
  }

  function Run(s: State, ops: seq<Op>): (State, Flow)
    decreases |ops|
  {
    if ops == [] then (s, STILL)
    else
      var (s', flow) := Apply(s, ops[0]);
      var (last, later) := Run(s', ops[1..]);
      (last, flow.Then(later))
  }

  lemma ApplyKeepsInv(s: State, op: Op)
    requires Inv(s)
    ensures Inv(Apply(s, op).0)
  {
    match op
    case EnqueueOp(frame) => EnqueueKeepsInv(s, frame);
    case PopOp => PopKeepsInv(s);
    case CancelOp(id) => CancelKeepsInv(s, id);
    case ResetOp(key) => ResetKeepsInv(s, key);
    case ClearOp => EmptyHasInv(Cleared(s));
  }

  // Counted transfer by transfer: what was there and came in is what went out and is there.
  ghost predicate Conserves(s: State, flow: Flow, s': State) {
    forall t :: Contents(s.queues)[t] + flow.accepted[t] == flow.Out()[t] + Contents(s'.queues)[t]
  }

  lemma EnqueueConserves(s: State, frame: Frame)
    ensures Conserves(s, Apply(s, EnqueueOp(frame)).1, Enqueue(s, frame).1)
  {
    if frame.frameType.Request? {
      EnqueueContents(s, frame);
    }
  }

  lemma PopConserves(s: State)
    requires Inv(s)
    ensures Conserves(s, Apply(s, PopOp).1, PopNext(s).1)
  {
    PopServesFront(s);
    if s.activeOrder != [] {
      AfterPopContents(s, s.activeOrder[0], s.activeOrder[1..]);
    }
  }

  lemma CancelConserves(s: State, id: u64)
    ensures Conserves(s, Apply(s, CancelOp(id)).1, Cancel(s, id).1)
  {
    CancelContents(s, id);
  }

  lemma ResetConserves(s: State, key: EndpointKey)
    ensures Conserves(s, Apply(s, ResetOp(key)).1, ResetEndpoint(s, key).1)
  {
    ResetContents(s, key);
  }

  lemma ClearConserves(s: State)
    ensures Conserves(s, Apply(s, ClearOp).1, Cleared(s))
  {
    EmptyContents(Cleared(s).queues);
  }

  lemma ApplyConserves(s: State, op: Op)
    requires Inv(s)
    ensures Conserves(s, Apply(s, op).1, Apply(s, op).0)
  {
    match op
    case EnqueueOp(frame) => EnqueueConserves(s, frame);
    case PopOp => PopConserves(s);
    case CancelOp(id) => CancelConserves(s, id);
    case ResetOp(key) => ResetConserves(s, key);
    case ClearOp => ClearConserves(s);
  }

  lemma OutThen(f: Flow, g: Flow, t: QueuedTransfer)
    ensures f.Then(g).Out()[t] == f.Out()[t] + g.Out()[t]
  {
  }

  // Over any run, what was there and what was accepted is what left plus what is there.
  lemma {:induction false} RunConserves(s: State, ops: seq<Op>)
    requires Inv(s)
    ensures var (s', flow) := Run(s, ops);
            Inv(s') && Conserves(s, flow, s')
    decreases |ops|
  {
    if ops != [] {
      var (s', flow) := Apply(s, ops[0]);
      ApplyKeepsInv(s, ops[0]);
      ApplyConserves(s, ops[0]);
      RunConserves(s', ops[1..]);
      var (last, later) := Run(s', ops[1..]);
      forall t
        ensures Contents(s.queues)[t] + flow.Then(later).accepted[t]
             == flow.Then(later).Out()[t] + Contents(last.queues)[t]
      {
        OutThen(flow, later, t);
        assert Contents(s'.queues)[t] + later.accepted[t] == later.Out()[t] + Contents(last.queues)[t];
      }
    }
  }

  // In every reachable state the four structures agree, len counts the queued transfers, and the
  // accepted transfers are the popped, cancelled, reset and cleared ones and those still queued.
  lemma ReachableStates(start: State, ops: seq<Op>)
    requires Empty(start)
    ensures var (s, flow) := Run(start, ops);
            && Inv(s)
            && (PopNext(s).0.None? <==> s.len == 0)
            && flow.accepted == flow.Out() + Contents(s.queues)
  {
    EmptyHasInv(start);
    EmptyContents(start.queues);
    RunConserves(start, ops);
    var (s, flow) := Run(start, ops);
    PopFindsNothingWhenEmpty(s);
    ConservesFromNothing(start, flow, s);
  }

  lemma ConservesFromNothing(start: State, flow: Flow, s: State)
    requires Conserves(start, flow, s) && Contents(start.queues) == multiset{}
    ensures flow.accepted == flow.Out() + Contents(s.queues)
  {
    forall t
      ensures flow.accepted[t] == (flow.Out() + Contents(s.queues))[t]
    {
      assert Contents(start.queues)[t] == 0;
    }
  }

  // ---- per-endpoint order

  // Within each key, numbers rise.
  ghost predicate Increasing(ts: seq<QueuedTransfer>) {
    forall i, j :: 0 <= i < j < |ts| && ts[i].key == ts[j].key ==> ts[i].sequence < ts[j].sequence
  }

  ghost predicate Ordered(s: State) {
    forall key :: key in s.queues ==> QueueOrdered(s.queues[key], s.nextSequence)
  }

  ghost predicate QueueOrdered(queue: seq<QueuedTransfer>, bound: nat) {
    && (forall i, j :: 0 <= i < j < |queue| ==> queue[i].sequence < queue[j].sequence)
    && (forall i :: 0 <= i < |queue| ==> queue[i].sequence < bound)
  }

  function Enqueues(ops: seq<Op>): nat {
    if ops == [] then 0 else (if ops[0].EnqueueOp? then 1 else 0) + Enqueues(ops[1..])
  }

  // No transfer of a key popped from now on carries a smaller number.
  function Floor(s: State, key: EndpointKey): nat {
    if At(s.queues, key) == [] then s.nextSequence else s.queues[key][0].sequence
  }

  // From s to s' no endpoint goes backwards.
  ghost predicate Forward(s: State, s': State) {
    && Ordered(s')
    && s.nextSequence <= s'.nextSequence
    && forall key :: Floor(s, key) <= Floor(s', key)
  }

  // Replacing one queue by an ordered part of it (or by nothing) goes forward.
  lemma ShrinkGoesForward(s: State, s': State, key: EndpointKey)
    requires Ordered(s) && s'.nextSequence == s.nextSequence
    requires AgreeExcept(s.queues, s'.queues, key) && key in s.queues && s.queues[key] != []
    requires QueueOrdered(At(s'.queues, key), s.nextSequence)
    requires At(s'.queues, key) != [] ==> s.queues[key][0].sequence <= At(s'.queues, key)[0].sequence
    requires forall k :: k in s'.queues ==> k in s.queues
    ensures Forward(s, s')
  {
    forall k | k in s'.queues
      ensures QueueOrdered(s'.queues[k], s'.nextSequence)
    {
      assert At(s'.queues, k) == s'.queues[k];
      if k != key {
        assert At(s.queues, k) == At(s'.queues, k);
      }
    }
    forall k
      ensures Floor(s, k) <= Floor(s', k)
    {
      if k != key {
        assert At(s.queues, k) == At(s'.queues, k);
      }
    }
  }

  lemma EnqueueGoesForward(s: State, frame: Frame)
    requires Ordered(s) && s.nextSequence + 1 < TWO_TO_64
    ensures Forward(s, Enqueue(s, frame).1)
  {
    if frame.frameType.Request? {
      var key, s' := KeyOf(frame), Enqueue(s, frame).1;
      forall k
        ensures Floor(s, k) <= Floor(s', k)
      {
        if k != key {
          assert At(s'.queues, k) == At(s.queues, k);
        }
      }
      forall k | k in s'.queues
        ensures QueueOrdered(s'.queues[k], s'.nextSequence)
      {
        assert k in s.queues ==> QueueOrdered(s.queues[k], s.nextSequence);
      }
    }
  }

  lemma PopGoesForward(s: State)
    requires OrderOk(s) && QueuesOk(s.queues) && Ordered(s)
    ensures var (r, s') := PopNext(s);
            && Forward(s, s') && s'.nextSequence == s.nextSequence
            && (r.Some? ==> Floor(s, r.value.key) == r.value.sequence < Floor(s', r.value.key))
  {
    PopServesFront(s);
    if s.activeOrder != [] {
      var key := s.activeOrder[0];
      assert QueueOrdered(s.queues[key], s.nextSequence);
      ShrinkGoesForward(s, PopNext(s).1, key);
    }
  }

  lemma RemoveGoesForward(s: State, key: EndpointKey, i: nat)
    requires Ordered(s) && i < |At(s.queues, key)|
    ensures Forward(s, RemoveAt(s, key, i))
  {
    var s' := RemoveAt(s, key, i);
    var queue := s.queues[key];
    var queue' := queue[..i] + queue[i + 1..];
    assert QueueOrdered(queue, s.nextSequence);
    assert forall j :: 0 <= j < |queue'| ==> queue'[j] == queue[if j < i then j else j + 1];
    assert QueueOrdered(queue', s.nextSequence);
    ShrinkGoesForward(s, s', key);
  }

  lemma CancelGoesForward(s: State, id: u64)
    requires Ordered(s)
    ensures Forward(s, Cancel(s, id).1) && Cancel(s, id).1.nextSequence == s.nextSequence
  {
    var holder := FirstHolder(s.queues, id, AllKeys());
    if holder.Some? {
      RemoveGoesForward(s, holder.value, Position(s.queues[holder.value], id));
    }
  }

  lemma ResetGoesForward(s: State, key: EndpointKey)
    requires Ordered(s) && QueuesOk(s.queues)
    ensures Forward(s, ResetEndpoint(s, key).1)
  {
    if key in s.queues {
      ShrinkGoesForward(s, ResetEndpoint(s, key).1, key);
    }
  }

  lemma ApplyGoesForward(s: State, op: Op)
    requires Inv(s) && Ordered(s)
    requires !op.ClearOp? && (op.EnqueueOp? ==> s.nextSequence + 1 < TWO_TO_64)
    ensures Forward(s, Apply(s, op).0)
    ensures Apply(s, op).0.nextSequence <= s.nextSequence + if op.EnqueueOp? then 1 else 0
  {
    match op
    case EnqueueOp(frame) => EnqueueGoesForward(s, frame);
    case PopOp => PopGoesForward(s);
    case CancelOp(id) => CancelGoesForward(s, id);
    case ResetOp(key) => ResetGoesForward(s, key);
  }

  lemma IncreasingConcat(first: seq<QueuedTransfer>, later: seq<QueuedTransfer>)
    requires |first| <= 1 && Increasing(later)
    requires first != [] ==> forall t :: t in later && t.key == first[0].key ==> first[0].sequence < t.sequence
    ensures Increasing(first + later)
  {
    var all := first + later;
    forall i, j | 0 <= i < j < |all| && all[i].key == all[j].key
      ensures all[i].sequence < all[j].sequence
    {
      assert all[j] in later;
    }
  }

  // With no clear and no counter overflow, the popped transfers of each endpoint come out in
  // strictly increasing sequence order, cancellations in mid-queue notwithstanding.
  lemma {:induction false} PoppedInOrder(s: State, ops: seq<Op>)
    requires Inv(s) && Ordered(s)
    requires ClearOp !in ops && s.nextSequence + Enqueues(ops) < TWO_TO_64
    ensures Increasing(Run(s, ops).1.popped)
    ensures forall t :: t in Run(s, ops).1.popped ==> Floor(s, t.key) <= t.sequence
    decreases |ops|
  {
    if ops != [] {
      var (s', flow) := Apply(s, ops[0]);
      assert ops[0] in ops;
      ApplyGoesForward(s, ops[0]);
      ApplyKeepsInv(s, ops[0]);
      PoppedInOrder(s', ops[1..]);
      if ops[0].PopOp? {
        PopGoesForward(s);
      }
      var later := Run(s', ops[1..]).1.popped;
      forall t | t in later
        ensures Floor(s, t.key) <= Floor(s', t.key) <= t.sequence
      {
      }
      IncreasingConcat(flow.popped, later);
    }
  }

  lemma EndpointsAreFifo(start: State, ops: seq<Op>)
    requires Empty(start) && ClearOp !in ops && Enqueues(ops) < TWO_TO_64
    ensures Increasing(Run(start, ops).1.popped)
  {
    EmptyHasInv(start);
    PoppedInOrder(start, ops);
  }

  lemma {:induction false} RunKeepsOrdered(s: State, ops: seq<Op>)
    requires Inv(s) && Ordered(s)
    requires ClearOp !in ops && s.nextSequence + Enqueues(ops) < TWO_TO_64
    ensures Inv(Run(s, ops).0) && Ordered(Run(s, ops).0)
    decreases |ops|
  {
    if ops != [] {
      assert ops[0] in ops;
      ApplyGoesForward(s, ops[0]);
      ApplyKeepsInv(s, ops[0]);
      RunKeepsOrdered(Apply(s, ops[0]).0, ops[1..]);
    }
  }

  function Numbered(ops: seq<Op>): nat {
    if ops == [] then 0
    else (if ops[0].EnqueueOp? && ops[0].frame.frameType.Request? then 1 else 0) + Numbered(ops[1..])
  }

  lemma SequenceCountsOne(s: State, op: Op)
    requires OrderOk(s) && QueuesOk(s.queues) && !op.ClearOp?
    ensures Apply(s, op).0.nextSequence == (s.nextSequence + Numbered([op])) % TWO_TO_64
  {
    hide Contents, AllKeys, FirstHolder, PopNext, Without, NoDuplicates;
    assert Numbered([op][1..]) == 0;
    PopServesFront(s);
  }

  lemma AddModulo(x: nat, a: nat, b: nat)
    ensures ((x + a) % TWO_TO_64 + b) % TWO_TO_64 == (x + (a + b)) % TWO_TO_64
  {
  }

  // Between clears the sequence number counts the accepted transfers, modulo 2^64.
  lemma {:induction false} SequenceCounts(s: State, ops: seq<Op>)
    requires Inv(s) && ClearOp !in ops
    ensures Run(s, ops).0.nextSequence == (s.nextSequence + Numbered(ops)) % TWO_TO_64
    decreases |ops|
  {
    hide Apply, OrderOk, QueuesOk;
    if ops != [] {
      assert ops[0] in ops;
      ApplyKeepsInv(s, ops[0]);
      SequenceCountsOne(s, ops[0]);
      var s' := Apply(s, ops[0]).0;
      SequenceCounts(s', ops[1..]);
      assert Numbered([ops[0]][1..]) == 0;
      AddModulo(s.nextSequence, Numbered([ops[0]]), Numbered(ops[1..]));
    }
  }

  // A reset returns all the transfers of its endpoint, oldest first.
  lemma ResetInOrder(start: State, ops: seq<Op>, key: EndpointKey)
    requires Empty(start) && ClearOp !in ops && Enqueues(ops) < TWO_TO_64
    ensures var s := Run(start, ops).0;
            var dropped := ResetEndpoint(s, key).0;
            && (forall i, j :: 0 <= i < j < |dropped| ==> dropped[i].sequence < dropped[j].sequence)
            && (forall t :: t in dropped <==> t in Contents(s.queues) && t.key == key)
  {
    EmptyHasInv(start);
    RunKeepsOrdered(start, ops);
    var s := Run(start, ops).0;
    var dropped := ResetEndpoint(s, key).0;
    forall t
      ensures t in dropped <==> t in Contents(s.queues) && t.key == key
    {
      ContentsAt(s.queues, t);
    }
  }

  lemma {:induction false} ContentsAtOver(queues: Queues, t: QueuedTransfer, keys: seq<EndpointKey>)
    requires QueuesOk(queues)
    ensures t in ContentsOver(queues, keys) ==> t in At(queues, t.key)
    decreases t, |keys|
  {
    if keys != [] && t in ContentsOver(queues, keys) {
      if t in At(queues, keys[0]) {
        assert keys[0] in queues;
      } else {
        ContentsAtOver(queues, t, keys[1..]);
      }
    }
  }

  lemma ContentsAt(queues: Queues, t: QueuedTransfer)
    requires QueuesOk(queues)
    ensures t in Contents(queues) <==> t in At(queues, t.key)
  {
    ContentsAtOver(queues, t, AllKeys());
    ContentsHas(queues, t.key);
  }

  // ---- which transfer a cancel takes

  lemma {:induction false} FirstHolderIsFirst(queues: Queues, requestId: u64, keys: seq<EndpointKey>, i: nat)
    requires i < |keys| && Holds(queues, requestId, keys[i])
    ensures FirstHolder(queues, requestId, keys).Some?
    ensures exists j :: 0 <= j <= i && keys[j] == FirstHolder(queues, requestId, keys).value
    decreases requestId, |keys|
  {
    hide Holds;
    if !Holds(queues, requestId, keys[0]) {
      FirstHolderIsFirst(queues, requestId, keys[1..], i - 1);
      var j :| 0 <= j <= i - 1 && keys[1..][j] == FirstHolder(queues, requestId, keys[1..]).value;
      assert keys[j + 1] == FirstHolder(queues, requestId, keys).value;
    }
  }

  lemma FirstByRank(queues: Queues, requestId: u64, key: EndpointKey)
    requires Holds(queues, requestId, key)
    ensures var first := FirstHolder(queues, requestId, AllKeys());
            first.Some? && Rank(first.value) <= Rank(key)
  {
    hide Holds;
    AllKeysListed(key);
    FirstHolderIsFirst(queues, requestId, AllKeys(), Rank(key));
    var j :| 0 <= j <= Rank(key) && AllKeys()[j] == FirstHolder(queues, requestId, AllKeys()).value;
    KeyAtIs(j, AllKeys()[j]);
  }

  lemma OldestFirst(queue: seq<QueuedTransfer>, bound: nat, requestId: u64, u: QueuedTransfer)
    requires QueueOrdered(queue, bound) && u in queue && u.frame.requestId == requestId
    ensures Position(queue, requestId) < |queue|
    ensures queue[Position(queue, requestId)].sequence <= u.sequence
  {
    var n :| 0 <= n < |queue| && queue[n] == u;
  }

  lemma CancelTakesHolder(s: State, requestId: u64, key: EndpointKey)
    requires QueuesOk(s.queues) && FirstHolder(s.queues, requestId, AllKeys()) == Some(key)
    ensures var t := Cancel(s, requestId).0;
            && Position(At(s.queues, key), requestId) < |At(s.queues, key)|
            && t == Some(At(s.queues, key)[Position(At(s.queues, key), requestId)])
            && t.value.key == key && t.value.frame.requestId == requestId
  {
    hide AllKeys, Contents, NoDuplicates;
    assert Holds(s.queues, requestId, key);
  }

  // Of all the queued transfers with the id, a cancel takes the one whose endpoint comes first, and
  // of those the oldest.
  lemma CancelTakesFirst(s: State, requestId: u64, u: QueuedTransfer)
    requires Inv(s) && Ordered(s) && u in At(s.queues, u.key) && u.frame.requestId == requestId
    ensures var t := Cancel(s, requestId).0;
            && t.Some? && t.value.frame.requestId == requestId
            && (Rank(t.value.key) < Rank(u.key) || (t.value.key == u.key && t.value.sequence <= u.sequence))
  {
    hide Cancel, AllKeys, FirstHolder, Contents, NoDuplicates, OrderOk, QueuesOk, QueueOrdered;
    OldestFirst(At(s.queues, u.key), s.nextSequence, requestId, u);
    FirstByRank(s.queues, requestId, u.key);
    var key := FirstHolder(s.queues, requestId, AllKeys()).value;
    CancelTakesHolder(s, requestId, key);
    KeyAtIs(Rank(u.key), key);
    hide Rank;
  }
}

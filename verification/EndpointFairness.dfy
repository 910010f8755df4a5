// How long a queued transfer can wait: a bound on the calls of pop_next under arbitrary traffic.

module EndpointFairness {
  import opened Bytes
  import opened EndpointQueue
  import opened EndpointQueueInvariant
  import opened EndpointQueueRuns
  import opened Wrappers

  // What one operation does to the transfer at some depth of one endpoint's queue.
  datatype Fate = Queued(depth: nat) | Popped | Withdrawn

  function Follow(s: State, key: EndpointKey, depth: nat, op: Op): Fate {
    match op
    case EnqueueOp(_) => Queued(depth)
    case PopOp =>
      if s.activeOrder == [] || s.activeOrder[0] != key then Queued(depth)
      else if depth == 0 then Popped
      else Queued(depth - 1)
    case CancelOp(id) =>
      var holder := FirstHolder(s.queues, id, AllKeys());
      if holder != Some(key) then Queued(depth)
      else
        var i := Position(s.queues[key], id);
        if i < depth then Queued(depth - 1) else if i == depth then Withdrawn else Queued(depth)
    case ResetOp(k) => if k == key then Withdrawn else Queued(depth)
    case ClearOp => Withdrawn
  }

  predicate Holding(s: State, key: EndpointKey, depth: nat) {
    depth < |At(s.queues, key)|
  }

  // The transfers an operation, or a run, took away without returning them from pop_next.
  function TakenAway(flow: Flow): multiset<QueuedTransfer> {
    flow.cancelled + flow.reset + flow.cleared
  }

  // The fate is the truth: a transfer said to be queued is there, one said to be popped was
  // returned, one said to be withdrawn is among those cancelled, reset or cleared.
  ghost predicate Truth(s: State, key: EndpointKey, depth: nat, fate: Fate, s': State, flow: Flow)
    requires Holding(s, key, depth)
  {
    match fate
    case Queued(d) => Holding(s', key, d) && At(s'.queues, key)[d] == At(s.queues, key)[depth]
    case Popped => flow.popped == [At(s.queues, key)[depth]]
    case Withdrawn => At(s.queues, key)[depth] in TakenAway(flow)
  }

  lemma PopTruth(s: State, key: EndpointKey, depth: nat)
    requires OrderOk(s) && QueuesOk(s.queues) && Holding(s, key, depth)
    ensures Truth(s, key, depth, Follow(s, key, depth, PopOp), PopNext(s).1, Apply(s, PopOp).1)
  {
    PopServesFront(s);
  }

  lemma CancelTruth(s: State, key: EndpointKey, depth: nat, id: u64)
    requires Holding(s, key, depth)
    ensures Truth(s, key, depth, Follow(s, key, depth, CancelOp(id)), Cancel(s, id).1, Apply(s, CancelOp(id)).1)
  {
    var holder := FirstHolder(s.queues, id, AllKeys());
    if holder.Some? && holder.value != key {
      var s' := RemoveAt(s, holder.value, Position(s.queues[holder.value], id));
      assert At(s'.queues, key) == At(s.queues, key);
    }
  }

  lemma ClearTruth(s: State, key: EndpointKey, depth: nat)
    requires Holding(s, key, depth)
    ensures Truth(s, key, depth, Withdrawn, Apply(s, ClearOp).0, Apply(s, ClearOp).1)
  {
    ContentsHas(s.queues, key);
    assert At(s.queues, key)[depth] in multiset(At(s.queues, key));
  }

  lemma FollowIsTrue(s: State, key: EndpointKey, depth: nat, op: Op)
    requires OrderOk(s) && QueuesOk(s.queues) && Holding(s, key, depth)
    ensures Truth(s, key, depth, Follow(s, key, depth, op), Apply(s, op).0, Apply(s, op).1)
  {
    match op
    case EnqueueOp(_) =>
    case PopOp => PopTruth(s, key, depth);
    case CancelOp(id) => CancelTruth(s, key, depth, id);
    case ResetOp(_) =>
    case ClearOp => ClearTruth(s, key, depth);
  }

  // ---- how many pops stand before a transfer

  function IndexIn(order: seq<EndpointKey>, key: EndpointKey): (i: nat)
    ensures i <= |order|
    ensures i < |order| <==> key in order
    ensures i < |order| ==> order[i] == key
  {
    if order == [] || order[0] == key then 0 else 1 + IndexIn(order[1..], key)
  }

  function Wait(s: State, key: EndpointKey, depth: nat): nat {
    2048 * depth + IndexIn(s.activeOrder, key)
  }

  lemma {:induction false} IndexBeforeAppended(order: seq<EndpointKey>, key: EndpointKey, more: seq<EndpointKey>)
    requires key in order
    ensures IndexIn(order + more, key) == IndexIn(order, key)
    decreases |order|
  {
    if order[0] != key {
      assert (order + more)[1..] == order[1..] + more;
      IndexBeforeAppended(order[1..], key, more);
    }
  }

  lemma {:induction false} IndexWithout(order: seq<EndpointKey>, key: EndpointKey, gone: EndpointKey)
    requires key != gone && key in order
    ensures key in Without(order, gone)
    ensures IndexIn(Without(order, gone), key) <= IndexIn(order, key)
    decreases |order|
  {
    if order[0] == gone {
      IndexWithout(order[1..], key, gone);
      assert Without(order, gone) == Without(order[1..], gone);
    } else if order[0] != key {
      IndexWithout(order[1..], key, gone);
      assert Without(order, gone)[1..] == Without(order[1..], gone);
    }
  }

  function Elements(keys: seq<EndpointKey>): set<EndpointKey> {
    set k | k in keys
  }

  lemma {:induction false} ElementsAtMost(keys: seq<EndpointKey>)
    ensures |Elements(keys)| <= |keys|
  {
    if keys != [] {
      ElementsAtMost(keys[1..]);
      assert Elements(keys) == {keys[0]} + Elements(keys[1..]);
    }
  }

  lemma {:induction false} DistinctElements(keys: seq<EndpointKey>)
    requires NoDuplicates(keys)
    ensures |Elements(keys)| == |keys|
  {
    if keys != [] {
      DistinctElements(keys[1..]);
      assert Elements(keys) == {keys[0]} + Elements(keys[1..]);
    }
  }

  lemma OrderIsShort(order: seq<EndpointKey>)
    requires NoDuplicates(order)
    ensures |order| <= KEY_COUNT
  {
    DistinctElements(order);
    ElementsAtMost(AllKeys());
    var all := Elements(AllKeys());
    forall k | k in order
      ensures k in all
    {
      AllKeysListed(k);
    }
    SubsetIsSmaller(Elements(order), all);
  }

  lemma SubsetIsSmaller(a: set<EndpointKey>, b: set<EndpointKey>)
    requires a <= b
    ensures |a| <= |b|
  {
    assert b == a + (b - a);
  }

  lemma IndexAfterServing(order: seq<EndpointKey>, key: EndpointKey)
    requires key in order && order[0] != key
    ensures IndexIn(order[1..], key) == IndexIn(order[1..] + [order[0]], key) == IndexIn(order, key) - 1
  {
    assert key in order[1..];
    IndexBeforeAppended(order[1..], key, [order[0]]);
  }

  lemma OrderAfterPop(s: State)
    requires OrderOk(s) && QueuesOk(s.queues) && s.activeOrder != []
    ensures var front, rest := s.activeOrder[0], s.activeOrder[1..];
            PopNext(s).1.activeOrder == if |At(s.queues, front)| == 1 then rest else rest + [front]
  {
    PopServesFront(s);
  }

  lemma IndexDrop(order: seq<EndpointKey>, order': seq<EndpointKey>, key: EndpointKey)
    requires NoDuplicates(order) && key in order
    requires order' == order[1..] + [order[0]] || (order' == order[1..] && order[0] != key)
    ensures order[0] != key ==> IndexIn(order', key) == IndexIn(order, key) - 1
    ensures order[0] == key ==> IndexIn(order', key) < KEY_COUNT
  {
    if order[0] != key {
      IndexAfterServing(order, key);
    } else {
      OrderIsShort(order);
      assert order'[|order'| - 1] == key;
    }
  }

  lemma PopShortensWait(s: State, key: EndpointKey, depth: nat)
    requires OrderOk(s) && QueuesOk(s.queues) && Holding(s, key, depth) && s.activeOrder != []
    ensures Follow(s, key, depth, PopOp).Queued? ==>
              Wait(PopNext(s).1, key, Follow(s, key, depth, PopOp).depth) < Wait(s, key, depth)
  {
    if Follow(s, key, depth, PopOp).Queued? {
      OrderAfterPop(s);
      assert key in s.activeOrder;
      IndexDrop(s.activeOrder, PopNext(s).1.activeOrder, key);
    }
  }

  lemma OrderAfterCancel(s: State, id: u64)
    ensures var holder, order' := FirstHolder(s.queues, id, AllKeys()), Cancel(s, id).1.activeOrder;
            || order' == s.activeOrder
            || (holder.Some? && |At(s.queues, holder.value)| == 1 && order' == Without(s.activeOrder, holder.value))
  {
    var holder := FirstHolder(s.queues, id, AllKeys());
    if holder.Some? {
      var queue, i := s.queues[holder.value], Position(s.queues[holder.value], id);
      assert |queue[..i] + queue[i + 1..]| == |queue| - 1;
    }
  }

  lemma CancelNeverLengthensWait(s: State, key: EndpointKey, depth: nat, id: u64)
    requires key in s.activeOrder && Holding(s, key, depth)
    ensures Follow(s, key, depth, CancelOp(id)).Queued? ==>
              Wait(Cancel(s, id).1, key, Follow(s, key, depth, CancelOp(id)).depth) <= Wait(s, key, depth)
  {
    var holder := FirstHolder(s.queues, id, AllKeys());
    OrderAfterCancel(s, id);
    if holder.Some? && holder.value != key {
      IndexWithout(s.activeOrder, key, holder.value);
    }
  }

  lemma OthersNeverLengthenWait(s: State, key: EndpointKey, depth: nat, op: Op)
    requires key in s.activeOrder && Holding(s, key, depth) && !op.PopOp?
    ensures Follow(s, key, depth, op).Queued? ==>
              Wait(Apply(s, op).0, key, Follow(s, key, depth, op).depth) <= Wait(s, key, depth)
  {
    match op
    case EnqueueOp(frame) => IndexBeforeAppended(s.activeOrder, key, [KeyOf(frame)]);
    case CancelOp(id) => CancelNeverLengthensWait(s, key, depth, id);
    case ResetOp(k) =>
      if k != key {
        IndexWithout(s.activeOrder, key, k);
      }
    case ClearOp =>
  }

  // ---- runs

  function FateOver(s: State, key: EndpointKey, depth: nat, ops: seq<Op>): Fate
    decreases |ops|
  {
    if ops == [] then Queued(depth)
    else
      match Follow(s, key, depth, ops[0])
      case Queued(d) => FateOver(Apply(s, ops[0]).0, key, d, ops[1..])
      case Popped => Popped
      case Withdrawn => Withdrawn
  }

  function Pops(ops: seq<Op>): nat {
    if ops == [] then 0 else (if ops[0].PopOp? then 1 else 0) + Pops(ops[1..])
  }

  // The fate over a run is the truth, too.
  lemma {:induction false} FateIsTrue(s: State, key: EndpointKey, depth: nat, ops: seq<Op>)
    requires Inv(s) && Holding(s, key, depth)
    ensures FateOver(s, key, depth, ops).Popped? ==> At(s.queues, key)[depth] in Run(s, ops).1.popped
    ensures FateOver(s, key, depth, ops).Withdrawn? ==> At(s.queues, key)[depth] in TakenAway(Run(s, ops).1)
    decreases |ops|
  {
    if ops != [] {
      FollowIsTrue(s, key, depth, ops[0]);
      var (s', now) := Apply(s, ops[0]);
      ApplyKeepsInv(s, ops[0]);
      var later := Run(s', ops[1..]).1;
      FlowsJoin(now, later, At(s.queues, key)[depth]);
      if Follow(s, key, depth, ops[0]).Queued? {
        FateIsTrue(s', key, Follow(s, key, depth, ops[0]).depth, ops[1..]);
      }
    }
  }

  lemma FlowsJoin(now: Flow, later: Flow, t: QueuedTransfer)
    ensures t in now.Then(later).popped <==> t in now.popped || t in later.popped
    ensures t in TakenAway(now.Then(later)) <==> t in TakenAway(now) || t in TakenAway(later)
  {
  }

  // After more pops than stand before it, a transfer has left: it was returned, or cancelled,
  // reset or cleared.
  lemma {:induction false} LeavesWithinWait(s: State, key: EndpointKey, depth: nat, ops: seq<Op>)
    requires Inv(s) && Holding(s, key, depth) && Pops(ops) > Wait(s, key, depth)
    ensures !FateOver(s, key, depth, ops).Queued?
    decreases |ops|
  {
    var fate := Follow(s, key, depth, ops[0]);
    if fate.Queued? {
      FollowIsTrue(s, key, depth, ops[0]);
      ApplyKeepsInv(s, ops[0]);
      assert key in s.activeOrder;
      if ops[0].PopOp? {
        PopShortensWait(s, key, depth);
      } else {
        OthersNeverLengthenWait(s, key, depth, ops[0]);
      }
      LeavesWithinWait(Apply(s, ops[0]).0, key, fate.depth, ops[1..]);
    }
  }

  lemma ServedWithinWait(s: State, key: EndpointKey, depth: nat, ops: seq<Op>)
    requires Inv(s) && Holding(s, key, depth) && Pops(ops) > Wait(s, key, depth)
    ensures var t, flow := At(s.queues, key)[depth], Run(s, ops).1; t in flow.popped || t in TakenAway(flow)
  {
    LeavesWithinWait(s, key, depth, ops);
    FateIsTrue(s, key, depth, ops);
  }

  // The bound in terms of the depth alone: a transfer that no one cancels, resets or clears is
  // returned, whatever happens to the others.
  lemma Fairness(s: State, key: EndpointKey, depth: nat, ops: seq<Op>)
    requires Inv(s) && Holding(s, key, depth)
    requires Pops(ops) >= 2048 * (depth + 1)
    requires At(s.queues, key)[depth] !in TakenAway(Run(s, ops).1)
    ensures At(s.queues, key)[depth] in Run(s, ops).1.popped
  {
    assert key in s.activeOrder;
    OrderIsShort(s.activeOrder);
    ServedWithinWait(s, key, depth, ops);
  }
}

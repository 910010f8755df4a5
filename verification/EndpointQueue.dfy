// daemon/src/endpoint_queue.rs: the per-endpoint transfer queues and their round-robin order.

module EndpointQueue {
  import opened Bytes
  import opened FrameCodec
  import opened Wrappers

  datatype EndpointKey = EndpointKey(direction: Direction, transferType: TransferType, endpoint: u8)

  datatype QueuedTransfer = QueuedTransfer(sequence: u64, key: EndpointKey, frame: Frame)

  function KeyOf(frame: Frame): EndpointKey {
    EndpointKey(frame.direction, frame.transferType, frame.endpoint)
  }

  // ---- the derived order on keys: direction, then transfer type, then endpoint number

  const KEY_COUNT := 2048 // 2 directions, 4 transfer types, 256 endpoints

  function Rank(key: EndpointKey): (r: nat)
    ensures r < KEY_COUNT && KeyAt(r) == key
  {
    (DirectionCode(key.direction) - 1) * 1024 + (TransferTypeCode(key.transferType) - 1) * 256 + key.endpoint
  }

  function TransferTypeAt(i: nat): TransferType {
    if i == 0 then Control else if i == 1 then Bulk else if i == 2 then Interrupt else Isochronous
  }

  function KeyAt(r: nat): EndpointKey
    requires r < KEY_COUNT
  {
    EndpointKey(
      if r < 1024 then HostToDevice else DeviceToHost,
      TransferTypeAt(r / 256 % 4),
      r % 256)
  }

  lemma KeyAtIs(r: nat, key: EndpointKey)
    requires r < KEY_COUNT
    ensures KeyAt(r) == key <==> Rank(key) == r
  {
  }

  predicate TypeBefore(a: TransferType, b: TransferType) {
    match a
    case Control => !b.Control?
    case Bulk => b.Interrupt? || b.Isochronous?
    case Interrupt => b.Isochronous?
    case Isochronous => false
  }

  // Out before in, then control, bulk, interrupt, isochronous, then by endpoint number.
  lemma RankIsLexicographic(a: EndpointKey, b: EndpointKey)
    ensures Rank(a) < Rank(b)
       <==> || (a.direction.HostToDevice? && b.direction.DeviceToHost?)
            || (a.direction == b.direction && TypeBefore(a.transferType, b.transferType))
            || (a.direction == b.direction && a.transferType == b.transferType && a.endpoint < b.endpoint)
  {
  }

  // Every key there is, in order.
  function AllKeys(): seq<EndpointKey> {
    seq(KEY_COUNT, i requires 0 <= i < KEY_COUNT => KeyAt(i))
  }

  lemma AllKeysListed(key: EndpointKey)
    ensures AllKeys()[Rank(key)] == key && key in AllKeys()
  {
  }

  // ---- states

  type Queues = map<EndpointKey, seq<QueuedTransfer>>

  datatype State = State(
    nextSequence: u64,
    queues: Queues,
    activeOrder: seq<EndpointKey>,
    activeKeys: set<EndpointKey>,
    len: int)

  predicate Empty(s: State) {
    s.queues == map[] && s.activeOrder == [] && s.activeKeys == {} && s.len == s.nextSequence == 0
  }

  function At(queues: Queues, key: EndpointKey): seq<QueuedTransfer> {
    if key in queues then queues[key] else []
  }

  function Without(order: seq<EndpointKey>, key: EndpointKey): seq<EndpointKey> {
    if order == [] then []
    else (if order[0] == key then [] else [order[0]]) + Without(order[1..], key)
  }

  // ---- operations on states

  function Enqueue(s: State, frame: Frame): (ProtocolResult<u64>, State) {
    if !frame.frameType.Request? then (Err(InvalidFrameType(FrameTypeCode(frame.frameType))), s)
    else
      var key := KeyOf(frame);
      var queue := At(s.queues, key);
      var newlyActive := queue == [] && key !in s.activeKeys;
      (Ok(s.nextSequence),
       State((s.nextSequence + 1) % TWO_TO_64,
             s.queues[key := queue + [QueuedTransfer(s.nextSequence, key, frame)]],
             if newlyActive then s.activeOrder + [key] else s.activeOrder,
             if newlyActive then s.activeKeys + {key} else s.activeKeys,
             s.len + 1))
  }

  function PopNext(s: State): (Option<QueuedTransfer>, State)
    decreases |s.activeOrder|
  {
    if s.activeOrder == [] then (None, s)
    else
      var key, rest := s.activeOrder[0], s.activeOrder[1..];
      if At(s.queues, key) == [] then
        PopNext(s.(activeOrder := rest, activeKeys := s.activeKeys - {key}))
      else
        (Some(s.queues[key][0]), AfterPop(s, key, rest))
  }

  function AfterPop(s: State, key: EndpointKey, rest: seq<EndpointKey>): State
    requires At(s.queues, key) != []
  {
    if |s.queues[key]| == 1 then
      s.(queues := s.queues - {key}, activeOrder := rest, activeKeys := s.activeKeys - {key}, len := s.len - 1)
    else
      s.(queues := s.queues[key := s.queues[key][1..]], activeOrder := rest + [key], len := s.len - 1)
  }

  // The first position holding a request id, or the queue's length.
  function Position(queue: seq<QueuedTransfer>, requestId: u64): (i: nat)
    ensures i <= |queue|
    ensures i < |queue| ==> queue[i].frame.requestId == requestId
    ensures forall j :: 0 <= j < i ==> queue[j].frame.requestId != requestId
  {
    if queue == [] || queue[0].frame.requestId == requestId then 0 else 1 + Position(queue[1..], requestId)
  }

  predicate Holds(queues: Queues, requestId: u64, key: EndpointKey) {
    Position(At(queues, key), requestId) < |At(queues, key)|
  }

  // The first of the given keys whose queue holds a request id.
  function FirstHolder(queues: Queues, requestId: u64, keys: seq<EndpointKey>): (key: Option<EndpointKey>)
    ensures key.Some? ==> Holds(queues, requestId, key.value)
    ensures key.None? ==> forall k :: k in keys ==> !Holds(queues, requestId, k)
    decreases requestId, |keys|
  {
    if keys == [] then None
    else if Holds(queues, requestId, keys[0]) then Some(keys[0])
    else FirstHolder(queues, requestId, keys[1..])
  }

  function RemoveActiveKey(s: State, key: EndpointKey): State {
    s.(queues := s.queues - {key}, activeKeys := s.activeKeys - {key}, activeOrder := Without(s.activeOrder, key))
  }

  function RemoveAt(s: State, key: EndpointKey, i: nat): State
    requires i < |At(s.queues, key)|
  {
    var queue := s.queues[key][..i] + s.queues[key][i + 1..];
    var s' := s.(queues := s.queues[key := queue], len := s.len - 1);
    if queue == [] then RemoveActiveKey(s', key) else s'
  }

  function Cancel(s: State, requestId: u64): (Option<QueuedTransfer>, State) {
    match FirstHolder(s.queues, requestId, AllKeys())
    case None => (None, s)
    case Some(key) =>
      var i := Position(s.queues[key], requestId);
      (Some(s.queues[key][i]), RemoveAt(s, key, i))
  }

  function ResetEndpoint(s: State, key: EndpointKey): (seq<QueuedTransfer>, State) {
    if key !in s.queues then ([], s)
    else (s.queues[key], RemoveActiveKey(s.(len := s.len - |s.queues[key]|), key))
  }

  // ---- the mutable structure

  class EndpointTransferQueues {
    var nextSequence: u64
    var queues: Queues
    var activeOrder: seq<EndpointKey>
    var activeKeys: set<EndpointKey>
    var len: int

    ghost function View(): State
      reads this
    {
      State(nextSequence, queues, activeOrder, activeKeys, len)
    }

    constructor ()
      ensures Empty(View())
    {
      nextSequence, queues, activeOrder, activeKeys, len := 0, map[], [], {}, 0;
    }

    method EnqueueFrame(frame: Frame) returns (r: ProtocolResult<u64>)
      modifies this
      ensures (r, View()) == Enqueue(old(View()), frame)
    {
      if frame.frameType != Request {
        return Err(InvalidFrameType(FrameTypeCode(frame.frameType)));
      }
      var key := KeyOf(frame);
      var sequence := nextSequence;
      nextSequence := (nextSequence + 1) % TWO_TO_64;
      var queue := if key in queues then queues[key] else [];
      var wasEmpty := queue == [];
      queues := queues[key := queue + [QueuedTransfer(sequence, key, frame)]];
      len := len + 1;
      if wasEmpty && key !in activeKeys {
        activeKeys := activeKeys + {key};
        activeOrder := activeOrder + [key];
      }
      return Ok(sequence);
    }

    method Pop() returns (r: Option<QueuedTransfer>)
      modifies this
      ensures (r, View()) == PopNext(old(View()))
    {
      while activeOrder != []
        invariant PopNext(View()) == PopNext(old(View()))
        decreases |activeOrder|
      {
        var key := activeOrder[0];
        activeOrder := activeOrder[1..];
        if key !in queues || queues[key] == [] {
          activeKeys := activeKeys - {key};
          continue;
        }
        var transfer := queues[key][0];
        var queue := queues[key][1..];
        len := len - 1;
        if queue == [] {
          activeKeys := activeKeys - {key};
          queues := queues - {key};
        } else {
          queues := queues[key := queue];
          activeOrder := activeOrder + [key];
        }
        return Some(transfer);
      }
      return None;
    }

    method CancelRequest(requestId: u64) returns (r: Option<QueuedTransfer>)
      modifies this
      ensures (r, View()) == Cancel(old(View()), requestId)
    {
      var emptyKey: Option<EndpointKey> := None;
      r := None;
      var keys := AllKeys(); // the map's own keys, in their order, are among these
      while keys != []
        invariant r == None && emptyKey == None && View() == old(View())
        invariant FirstHolder(queues, requestId, keys) == FirstHolder(queues, requestId, AllKeys())
        decreases |keys|
      {
        var key := keys[0];
        if key in queues {
          var queue := queues[key];
          var index := Position(queue, requestId);
          if index < |queue| {
            r := Some(queue[index]);
            queue := queue[..index] + queue[index + 1..];
            queues := queues[key := queue];
            if queue == [] {
              emptyKey := Some(key);
            }
            break;
          }
        }
        keys := keys[1..];
      }
      if r == None {
        return;
      }
      len := len - 1;
      if emptyKey.Some? {
        DropKey(emptyKey.value);
      }
    }

    method Reset(key: EndpointKey) returns (dropped: seq<QueuedTransfer>)
      modifies this
      ensures (dropped, View()) == ResetEndpoint(old(View()), key)
    {
      if key !in queues {
        return [];
      }
      dropped := queues[key];
      len := len - |dropped|;
      DropKey(key);
    }

    method Clear() returns (dropped: int)
      modifies this
      ensures dropped == old(len) && Empty(View())
    {
      dropped := len;
      nextSequence, queues, activeOrder, activeKeys, len := 0, map[], [], {}, 0;
    }

    method DropKey(key: EndpointKey)
      modifies this
      ensures View() == RemoveActiveKey(old(View()), key)
    {
      queues := queues - {key};
      activeKeys := activeKeys - {key};
      activeOrder := Without(activeOrder, key);
    }
  }
}

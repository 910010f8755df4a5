// daemon/src/mapped_ring.rs: the daemon's view of the same ring memory.

module MappedRingView {
  import opened Bytes
  import opened RingMemory
  import opened RingSpec
  import opened SpscRing
  import opened Wrappers

  datatype MappedRingError =
    | Full(requested: nat, available: nat)
    | FrameTooLarge(actual: nat, max: nat)

  class MappedRing {
    const base: SpscRingBuffer

    constructor (base: SpscRingBuffer)
      ensures this.base == base
    {
      this.base := base;
    }

    // Plain - on the counters: they must not have overflowed.
    ghost predicate Valid()
      reads base, base.data
    {
      base.Valid() && base.tail <= base.head
    }

    method PushFrame(frame: seq<u8>) returns (r: Result<(), MappedRingError>)
      requires Valid()
      requires Fits(base.Unread(), |frame|) ==> base.head + PREFIX_LEN + |frame| < TWO_TO_64 // plain + on head
      modifies base`head, base.data
      ensures Valid()
      ensures r.Ok? <==> |frame| <= U32_MAX && Fits(old(base.Unread()), |frame|)
      ensures r.Ok? ==> base.Unread() == old(base.Unread()) + Framed(frame)
      ensures r.Err? ==> base.head == old(base.head) && base.data[..] == old(base.data[..])
      ensures r.Err? ==> r.error == if |frame| > U32_MAX then FrameTooLarge(|frame|, U32_MAX)
                                    else Full(PREFIX_LEN + |frame|, RING_SIZE - |old(base.Unread())|)
      ensures (base.Unread(), if r.Ok? then Accepted else Rejected) == ByteStep(old(base.Unread()), PushOp(frame))
    {
      if |frame| > U32_MAX {
        return Err(FrameTooLarge(|frame|, U32_MAX));
      }
      var totalLen := PREFIX_LEN + |frame|;
      var tail := base.tail;
      var head := base.head;
      var availableSpace := RING_SIZE - (head - tail);
      if totalLen > availableSpace {
        return Err(Full(totalLen, availableSpace));
      }

      ghost var before := base.data[..];
      WriteWrapped(head, ToBe32(|frame|));
      ghost var between := base.data[..];
      WriteWrapped(head + PREFIX_LEN, frame);
      WrittenInTwoParts(before, between, base.data[..], head, ToBe32(|frame|), frame);
      WriteExtendsWindow(before, base.data[..], tail, head - tail, Framed(frame));

      base.head := head + totalLen;
      return Ok(());
    }

    method PopFrame(maxLen: nat) returns (r: Result<Option<seq<u8>>, MappedRingError>)
      requires Valid()
      modifies base`tail
      ensures Valid()
      ensures r.Err? <==> |old(base.Unread())| >= PREFIX_LEN && HeadLen(old(base.Unread())) > maxLen
      ensures r.Err? ==> r.error == FrameTooLarge(HeadLen(old(base.Unread())), maxLen)
      ensures r.Ok? && r.value.Some? <==>
              HasFrame(old(base.Unread())) && HeadLen(old(base.Unread())) <= maxLen
      ensures r.Ok? && r.value.Some? ==>
                r.value.value == HeadFrame(old(base.Unread())) && base.Unread() == AfterHead(old(base.Unread()))
      ensures r.Err? || r.value.None? ==> base.tail == old(base.tail)
      ensures (base.Unread(), if r.Ok? && r.value.Some? then Delivered(r.value.value) else NoFrame)
           == ByteStep(old(base.Unread()), PopOp(maxLen))
    {
      var head := base.head;
      var tail := base.tail;
      var availableData := head - tail;
      if availableData < PREFIX_LEN {
        return Ok(None);
      }

      var prefix := ReadWrapped(tail, PREFIX_LEN);
      SubWindow(base.data[..], tail, availableData, 0, PREFIX_LEN);
      var frameLen := FromBe32(prefix);
      var totalLen := PREFIX_LEN + frameLen;
      if frameLen > maxLen {
        return Err(FrameTooLarge(frameLen, maxLen));
      }
      if availableData < totalLen {
        return Ok(None);
      }

      var frame := ReadWrapped(tail + PREFIX_LEN, frameLen);
      SubWindow(base.data[..], tail, availableData, PREFIX_LEN, totalLen);
      SubWindow(base.data[..], tail, availableData, totalLen, availableData);
      base.tail := tail + totalLen;
      return Ok(Some(frame));
    }

    // Two block copies, the second one only when the range wraps.
    method WriteWrapped(absoluteOffset: nat, src: seq<u8>)
      requires base.Valid() && |src| <= RING_SIZE
      modifies base.data
      ensures Written(old(base.data[..]), base.data[..], absoluteOffset, src)
    {
      if src == [] {
        return;
      }
      var offset := absoluteOffset % RING_SIZE;
      var firstLen := if |src| < RING_SIZE - offset then |src| else RING_SIZE - offset;
      forall i | 0 <= i < firstLen {
        base.data[offset + i] := src[i];
      }
      if firstLen < |src| {
        forall i | 0 <= i < |src| - firstLen {
          base.data[i] := src[firstLen + i];
        }
      }
    }

    method ReadWrapped(absoluteOffset: nat, len: nat) returns (dst: seq<u8>)
      requires base.Valid() && len <= RING_SIZE
      ensures dst == Window(base.data[..], absoluteOffset, len)
    {
      var offset := absoluteOffset % RING_SIZE;
      var firstLen := if len < RING_SIZE - offset then len else RING_SIZE - offset;
      dst := base.data[offset..offset + firstLen];
      if firstLen < len {
        dst := dst + base.data[..len - firstLen];
      }
      forall j | 0 <= j < len
        ensures dst[j] == base.data[Slot(absoluteOffset, j)]
      {
        assert Slot(absoluteOffset, j) == if j < RING_SIZE - offset then offset + j else j - (RING_SIZE - offset);
      }
    }
  }
}

// driver/inc/ring_buffer.h: SPSC_RingBuffer, its operations taken one at a time.

module SpscRing {
  import opened Bytes
  import opened RingMemory
  import opened RingSpec

  class SpscRingBuffer {
    var head: u64 // written by the producer
    var tail: u64 // written by the consumer
    const data: array<u8>

    ghost predicate Valid()
      reads this, data
    {
      data.Length == RING_SIZE && Minus(head, tail) <= RING_SIZE
    }

    ghost function Unread(): seq<u8>
      reads this, data
      requires Valid()
    {
      Window(data[..], tail, Minus(head, tail))
    }

    constructor ()
      ensures Valid() && Unread() == []
      ensures fresh(data) && head == tail == 0
    {
      head, tail := 0, 0;
      data := new u8[RING_SIZE];
    }

    method AvailableData() returns (n: nat)
      requires Valid()
      ensures n == |Unread()| <= RING_SIZE
    {
      n := Minus(head, tail);
    }

    method AvailableSpace() returns (n: nat)
      requires Valid()
      ensures n + |Unread()| == RING_SIZE
    {
      var used := AvailableData();
      n := RING_SIZE - used;
    }

    method PushFrame(src: seq<u8>) returns (ok: bool)
      requires Valid()
      modifies this`head, data
      ensures Valid()
      ensures ok <==> |src| <= U32_MAX && Fits(old(Unread()), |src|)
      ensures ok ==> Unread() == old(Unread()) + Framed(src)
      ensures !ok ==> head == old(head) && data[..] == old(data[..])
      ensures (Unread(), if ok then Accepted else Rejected) == ByteStep(old(Unread()), PushOp(src))
    {
      if |src| > U32_MAX {
        return false;
      }
      var prefix := ToBe32(|src|);
      var currentTail := tail;
      var currentHead := head;
      var totalLen := PREFIX_LEN + |src|;
      var availableSpace := RING_SIZE - Minus(currentHead, currentTail);
      if totalLen > availableSpace {
        return false;
      }

      ghost var before := data[..];
      CopyInto(currentHead, prefix);
      ghost var between := data[..];
      CopyInto(Plus(currentHead, PREFIX_LEN), src);
      ghost var used := Minus(currentHead, currentTail);
      HeadIsTailPlusUsed(used);
      WrittenFromEqualSlots(between, data[..], Plus(currentHead, PREFIX_LEN), tail + used + PREFIX_LEN, src);
      WrittenFromEqualSlots(before, between, currentHead, tail + used, prefix);
      WrittenInTwoParts(before, between, data[..], tail + used, prefix, src);
      WriteExtendsWindow(before, data[..], tail, used, Framed(src));

      head := Plus(currentHead, totalLen);
      return true;
    }

    method PopFrame(dst: array<u8>, maxLen: nat) returns (ok: bool, outLen: nat)
      requires Valid() && dst != data && maxLen <= dst.Length
      modifies this`tail, dst
      ensures Valid()
      ensures ok <==> HasFrame(old(Unread())) && HeadLen(old(Unread())) <= maxLen
      ensures ok ==> outLen == HeadLen(old(Unread())) && dst[..outLen] == HeadFrame(old(Unread()))
      ensures ok ==> Unread() == AfterHead(old(Unread()))
      ensures ok ==> dst[outLen..] == old(dst[..])[outLen..]
      ensures !ok ==> tail == old(tail) && dst[..] == old(dst[..])
      ensures (Unread(), if ok then Delivered(dst[..outLen]) else NoFrame) == ByteStep(old(Unread()), PopOp(maxLen))
    {
      outLen := 0;
      var currentHead := head;
      var currentTail := tail;
      var availableData := Minus(currentHead, currentTail);
      if availableData < PREFIX_LEN {
        return false, outLen;
      }
      var frameLen := PeekU32(currentTail);
      var totalLen := PREFIX_LEN + frameLen;
      SubWindow(data[..], tail, availableData, 0, PREFIX_LEN);
      if availableData < totalLen || frameLen > maxLen {
        return false, outLen;
      }
      CopyFrom(Plus(currentTail, PREFIX_LEN), dst, frameLen);
      WindowModulo(data[..], tail + PREFIX_LEN, frameLen);
      SubWindow(data[..], tail, availableData, PREFIX_LEN, totalLen);
      Advance(availableData, totalLen);
      tail := Plus(currentTail, totalLen);
      return true, frameLen;
    }

    // Raw bytes, kept for low-level use.
    method Push(src: seq<u8>) returns (ok: bool)
      requires Valid()
      modifies this`head, data
      ensures Valid()
      ensures ok <==> |old(Unread())| + |src| <= RING_SIZE
      ensures Unread() == if ok then old(Unread()) + src else old(Unread())
    {
      var used := Minus(head, tail);
      if |src| > RING_SIZE - used {
        return false;
      }
      ghost var before := data[..];
      CopyInto(head, src);
      HeadIsTailPlusUsed(used);
      WrittenFromEqualSlots(before, data[..], head, tail + used, src);
      WriteExtendsWindow(before, data[..], tail, used, src);
      head := Plus(head, |src|);
      return true;
    }

    method Pop(dst: array<u8>, len: nat) returns (ok: bool)
      requires Valid() && dst != data && len <= dst.Length
      modifies this`tail, dst
      ensures Valid()
      ensures ok <==> len <= |old(Unread())|
      ensures ok ==> dst[..len] + Unread() == old(Unread())
      ensures !ok ==> tail == old(tail) && dst[..] == old(dst[..])
    {
      var availableData := Minus(head, tail);
      if len > availableData {
        return false;
      }
      CopyFrom(tail, dst, len);
      SubWindow(data[..], tail, availableData, 0, len);
      Advance(availableData, len);
      tail := Plus(tail, len);
      return true;
    }

    method PopSome(dst: array<u8>, maxLen: nat) returns (len: nat)
      requires Valid() && dst != data && maxLen <= dst.Length
      modifies this`tail, dst
      ensures Valid()
      ensures len == if maxLen < |old(Unread())| then maxLen else |old(Unread())|
      ensures dst[..len] + Unread() == old(Unread())
    {
      var availableData := Minus(head, tail);
      if availableData == 0 {
        return 0;
      }
      len := if maxLen < availableData then maxLen else availableData;
      CopyFrom(tail, dst, len);
      SubWindow(data[..], tail, availableData, 0, len);
      Advance(availableData, len);
      tail := Plus(tail, len);
    }

    // ---- private part

    method CopyInto(absoluteOffset: u64, src: seq<u8>)
      requires Valid() && |src| <= RING_SIZE
      modifies data
      ensures Written(old(data[..]), data[..], absoluteOffset, src)
    {
      if |src| == 0 {
        return;
      }
      var offset := absoluteOffset % RING_SIZE;
      var firstPart := if |src| < RING_SIZE - offset then |src| else RING_SIZE - offset;
      var i := 0;
      while i < firstPart
        invariant 0 <= i <= firstPart
        invariant forall j :: offset <= j < offset + i ==> data[j] == src[j - offset]
        invariant forall j :: 0 <= j < offset || offset + i <= j < RING_SIZE ==> data[j] == old(data[j])
      {
        data[offset + i] := src[i];
        i := i + 1;
      }
      if firstPart < |src| {
        i := 0;
        while i < |src| - firstPart
          invariant 0 <= i <= |src| - firstPart
          invariant forall j :: 0 <= j < i ==> data[j] == src[firstPart + j]
          invariant forall j :: i <= j < offset ==> data[j] == old(data[j])
          invariant forall j :: offset <= j < RING_SIZE ==> data[j] == src[j - offset]
        {
          data[i] := src[firstPart + i];
          i := i + 1;
        }
      }
    }

    method CopyFrom(absoluteOffset: u64, dst: array<u8>, len: nat)
      requires Valid() && dst != data && len <= dst.Length && len <= RING_SIZE
      modifies dst
      ensures dst[..len] == Window(data[..], absoluteOffset, len)
      ensures dst[len..] == old(dst[..])[len..]
    {
      if len == 0 {
        return;
      }
      var offset := absoluteOffset % RING_SIZE;
      var firstPart := if len < RING_SIZE - offset then len else RING_SIZE - offset;
      var i := 0;
      while i < firstPart
        invariant 0 <= i <= firstPart
        invariant forall j :: 0 <= j < i ==> dst[j] == data[offset + j]
        invariant forall j :: len <= j < dst.Length ==> dst[j] == old(dst[j])
      {
        dst[i] := data[offset + i];
        i := i + 1;
      }
      if firstPart < len {
        i := 0;
        while i < len - firstPart
          invariant 0 <= i <= len - firstPart
          invariant forall j :: 0 <= j < firstPart ==> dst[j] == data[offset + j]
          invariant forall j :: 0 <= j < i ==> dst[firstPart + j] == data[j]
          invariant forall j :: len <= j < dst.Length ==> dst[j] == old(dst[j])
        {
          dst[firstPart + i] := data[i];
          i := i + 1;
        }
      }
      forall j | 0 <= j < len
        ensures dst[j] == data[Slot(absoluteOffset, j)]
      {
        assert Slot(absoluteOffset, j) == if j < RING_SIZE - offset then offset + j else j - (RING_SIZE - offset);
        if j >= firstPart {
          assert dst[firstPart + (j - firstPart)] == data[j - firstPart];
        }
      }
    }

    method PeekU32(absoluteOffset: u64) returns (n: u32)
      requires Valid()
      ensures n == FromBe32(Window(data[..], absoluteOffset, 4))
    {
      var bytes := new u8[4];
      CopyFrom(absoluteOffset, bytes, 4);
      assert bytes[..] == bytes[..4];
      n := FromBe32(bytes[..]);
    }

    lemma HeadIsTailPlusUsed(used: nat)
      requires Valid() && used == Minus(head, tail)
      ensures head % RING_SIZE == (tail + used) % RING_SIZE
      ensures forall n: nat :: Plus(head, n) % RING_SIZE == (tail + used + n) % RING_SIZE
      ensures forall n: nat :: used + n <= RING_SIZE ==> Minus(Plus(head, n), tail) == used + n
    {
      assert (tail + used) % TWO_TO_64 == head;
      WrapKeepsSlot(tail + used);
      forall n: nat
        ensures Plus(head, n) % RING_SIZE == (tail + used + n) % RING_SIZE
      {
        assert Plus(head, n) == (tail + used + n) % TWO_TO_64;
        WrapKeepsSlot(tail + used + n);
      }
    }

    lemma WrittenFromEqualSlots(a: Buffer, b: Buffer, counter: nat, counter': nat, src: seq<u8>)
      requires counter % RING_SIZE == counter' % RING_SIZE
      requires Written(a, b, counter, src)
      ensures Written(a, b, counter', src)
    {
      forall j | 0 <= j < RING_SIZE
        ensures b[j] == if Ahead(counter', j) < |src| then src[Ahead(counter', j)] else a[j]
      {
        assert Ahead(counter, j) == Ahead(counter', j);
      }
    }

    lemma Advance(used: nat, n: nat)
      requires Valid() && used == Minus(head, tail) && n <= used
      ensures Minus(head, Plus(tail, n)) == used - n
      ensures Window(data[..], Plus(tail, n), used - n) == Unread()[n..]
    {
      SubWindow(data[..], tail, used, n, used);
      WindowModulo(data[..], tail + n, used - n);
    }
  }
}

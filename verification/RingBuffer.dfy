// The 2^20-byte circular buffer with free-running 64-bit counters, as the C++ driver
// (driver/inc/ring_buffer.h) and the Rust daemon (daemon/src/mapped_ring.rs) operate on it.

module RingMemory {
  import opened Bytes
  import opened RingSpec

  // ---- 64-bit counter arithmetic

  function Minus(a: u64, b: u64): u64 {
    if a >= b then a - b else a - b + TWO_TO_64
  }

  function Plus(a: u64, n: nat): u64 {
    (a + n) % TWO_TO_64
  }

  lemma WrapKeepsSlot(x: nat)
    ensures x % TWO_TO_64 % RING_SIZE == x % RING_SIZE
  {
    var q := x / TWO_TO_64;
    assert x == 0x1000_0000_0000 * q * RING_SIZE + x % TWO_TO_64;
  }

  // The wrapping counters stand for unbounded ones: the unread count, the buffer slots and the
  // advanced counters all agree, before, across and after an overflow.
  lemma CountersRefine(head: nat, tail: nat, n: nat)
    requires tail <= head <= tail + RING_SIZE
    ensures Minus(head % TWO_TO_64, tail % TWO_TO_64) == head - tail
    ensures Plus(head % TWO_TO_64, n) == (head + n) % TWO_TO_64
    ensures Plus(head % TWO_TO_64, n) % RING_SIZE == (head + n) % RING_SIZE
  {
    WrapKeepsSlot(head + n);
    var h, t := head % TWO_TO_64, tail % TWO_TO_64;
    var qh, qt := head / TWO_TO_64, tail / TWO_TO_64;
    assert head == qh * TWO_TO_64 + h && tail == qt * TWO_TO_64 + t;
    assert qh == qt || qh == qt + 1;
  }

  // ---- circular windows

  type Buffer = s: seq<u8> | |s| == RING_SIZE witness seq(RING_SIZE, _ => 0)

  function Slot(counter: nat, i: nat): nat {
    (counter + i) % RING_SIZE
  }

  // The len bytes starting at the slot of a counter, following the wrap.
  function Window(buf: Buffer, counter: nat, len: nat): (w: seq<u8>)
    ensures |w| == len
  {
    seq(len, i requires 0 <= i < len => buf[Slot(counter, i)])
  }

  // How far slot j lies after the slot of a counter, going round.
  function Ahead(counter: nat, j: nat): nat
    requires j < RING_SIZE
  {
    var offset := counter % RING_SIZE;
    if j >= offset then j - offset else j - offset + RING_SIZE
  }

  // buf' is buf with src laid down from the slot of a counter.
  predicate Written(buf: Buffer, buf': Buffer, counter: nat, src: seq<u8>) {
    forall j :: 0 <= j < RING_SIZE ==>
                  buf'[j] == if Ahead(counter, j) < |src| then src[Ahead(counter, j)] else buf[j]
  }

  lemma AheadOfSlot(tail: nat, d: nat, i: nat)
    requires d <= RING_SIZE && i < d + RING_SIZE
    ensures Ahead(tail + d, Slot(tail, i)) == if i >= d then i - d else i - d + RING_SIZE
  {
    var offset := tail % RING_SIZE;
    assert Slot(tail, i) == (offset + i) % RING_SIZE;
    assert (tail + d) % RING_SIZE == (offset + d) % RING_SIZE;
  }

  // Appending within the free space leaves every unread byte alone and puts src right after them.
  lemma WriteExtendsWindow(buf: Buffer, buf': Buffer, tail: nat, d: nat, src: seq<u8>)
    requires d + |src| <= RING_SIZE
    requires Written(buf, buf', tail + d, src)
    ensures Window(buf', tail, d + |src|) == Window(buf, tail, d) + src
  {
    var w := Window(buf', tail, d + |src|);
    forall i | 0 <= i < |w|
      ensures w[i] == (Window(buf, tail, d) + src)[i]
    {
      AheadOfSlot(tail, d, i);
    }
  }

  lemma WrittenInTwoParts(a: Buffer, b: Buffer, c: Buffer, counter: nat, first: seq<u8>, second: seq<u8>)
    requires |first| + |second| <= RING_SIZE
    requires Written(a, b, counter, first) && Written(b, c, counter + |first|, second)
    ensures Written(a, c, counter, first + second)
  {
    forall j | 0 <= j < RING_SIZE
      ensures c[j] == if Ahead(counter, j) < |first + second| then (first + second)[Ahead(counter, j)] else a[j]
    {
      SlotOfAhead(counter, j);
      AheadOfSlot(counter, |first|, Ahead(counter, j));
    }
  }

  lemma SlotOfAhead(counter: nat, j: nat)
    requires j < RING_SIZE
    ensures Slot(counter, Ahead(counter, j)) == j
  {
    var offset := counter % RING_SIZE;
    assert Slot(counter, Ahead(counter, j)) == (offset + Ahead(counter, j)) % RING_SIZE;
  }

  lemma SubWindow(buf: Buffer, counter: nat, len: nat, from: nat, to: nat)
    requires from <= to <= len
    ensures Window(buf, counter, len)[from..to] == Window(buf, counter + from, to - from)
  {
    assert forall i {:trigger Slot(counter + from, i)} ::
             0 <= i < to - from ==> Slot(counter + from, i) == Slot(counter, from + i);
  }

  lemma WholeTurns(turns: nat, x: nat)
    ensures (0x10_0000 * turns + x) % 0x10_0000 == x % 0x10_0000
  {
    assert x == 0x10_0000 * (x / 0x10_0000) + x % 0x10_0000;
  }

  lemma SlotFromOffset(counter: nat, i: nat)
    ensures Slot(counter, i) == Slot(counter % RING_SIZE, i)
  {
    WholeTurns(counter / 0x10_0000, counter % 0x10_0000 + i);
  }

  lemma WindowModulo(buf: Buffer, counter: nat, len: nat)
    ensures Window(buf, counter % TWO_TO_64, len) == Window(buf, counter, len)
  {
    WrapKeepsSlot(counter);
    forall i | 0 <= i < len
      ensures Slot(counter % TWO_TO_64, i) == Slot(counter, i)
    {
      SlotFromOffset(counter, i);
      SlotFromOffset(counter % TWO_TO_64, i);
    }
  }
}

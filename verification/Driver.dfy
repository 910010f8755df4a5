// driver/src/vhci.cpp and daemon/src/driver_backend.rs: the mock driver, two rings and a pump.

module Driver {
  import opened Bytes
  import opened RingSpec
  import opened SpscRing
  import opened Wrappers

  const MAX_DRIVER_FRAME := 0x1_0000 // the pump's buffer, and the daemon's

  // The frames in the two rings, and those the pump took out and could not put anywhere.
  datatype DriverState = DriverState(rx: seq<Payload>, tx: seq<Payload>, lost: seq<Payload>)

  function PushRx(d: DriverState, bytes: seq<u8>): (bool, DriverState) {
    if |bytes| <= U32_MAX && Fits(Flatten(d.rx), |bytes|) then (true, d.(rx := d.rx + [bytes])) else (false, d)
  }

  function Pump(d: DriverState): (bool, DriverState) {
    if d.rx == [] || |d.rx[0]| > MAX_DRIVER_FRAME then (false, d)
    else if Fits(Flatten(d.tx), |d.rx[0]|) then (true, d.(rx := d.rx[1..], tx := d.tx + [d.rx[0]]))
    else (false, d.(rx := d.rx[1..], lost := d.lost + [d.rx[0]]))
  }

  function PopTx(d: DriverState): (Option<Payload>, DriverState) {
    if d.tx == [] || |d.tx[0]| > MAX_DRIVER_FRAME then (None, d) else (Some(d.tx[0]), d.(tx := d.tx[1..]))
  }

  class MockDriver {
    const rxRing: SpscRingBuffer
    const txRing: SpscRingBuffer
    ghost var frames: DriverState

    constructor ()
      ensures Valid() && frames == DriverState([], [], [])
      ensures fresh(rxRing) && fresh(txRing) && fresh(rxRing.data) && fresh(txRing.data)
    {
      rxRing := new SpscRingBuffer();
      txRing := new SpscRingBuffer();
      frames := DriverState([], [], []);
    }

    ghost predicate Valid()
      reads this, rxRing, txRing, rxRing.data, txRing.data
    {
      && rxRing != txRing && rxRing.data != txRing.data
      && rxRing.Valid() && rxRing.Unread() == Flatten(frames.rx)
      && txRing.Valid() && txRing.Unread() == Flatten(frames.tx)
    }

    method RxRingPushFrame(src: seq<u8>) returns (ok: bool)
      requires Valid()
      modifies this, rxRing`head, rxRing.data
      ensures Valid()
      ensures (ok, frames) == PushRx(old(frames), src)
    {
      ok := rxRing.PushFrame(src);
      if ok {
        FlattenPush(frames.rx, src);
        frames := frames.(rx := frames.rx + [src]);
      }
    }

    method TxRingPopFrame() returns (r: Option<Payload>)
      requires Valid()
      modifies this, txRing`tail
      ensures Valid()
      ensures (r, frames) == PopTx(old(frames))
    {
      var buffer := new u8[MAX_DRIVER_FRAME];
      PopSeesFirstFrame(frames.tx);
      var ok, len := txRing.PopFrame(buffer, MAX_DRIVER_FRAME);
      if !ok {
        return None;
      }
      frames := frames.(tx := frames.tx[1..]);
      return Some(buffer[..len]);
    }

    method PumpOnce() returns (ok: bool)
      requires Valid()
      modifies this, rxRing`tail, txRing`head, txRing.data
      ensures Valid()
      ensures (ok, frames) == Pump(old(frames))
    {
      var buffer := new u8[MAX_DRIVER_FRAME];
      PopSeesFirstFrame(frames.rx);
      var popped, len := rxRing.PopFrame(buffer, MAX_DRIVER_FRAME);
      if !popped {
        return false;
      }
      ghost var frame := frames.rx[0];
      assert buffer[..len] == frame;
      frames := frames.(rx := frames.rx[1..]);
      ok := txRing.PushFrame(buffer[..len]);
      FlattenPush(frames.tx, frame);
      frames := if ok then frames.(tx := frames.tx + [frame]) else frames.(lost := frames.lost + [frame]);
    }
  }

  // ---- what the size limit does

  datatype DriverOp = PushRxOp(bytes: seq<u8>) | PumpOp | PopTxOp

  function DriverStep(d: DriverState, op: DriverOp): DriverState {
    match op
    case PushRxOp(bytes) => PushRx(d, bytes).1
    case PumpOp => Pump(d).1
    case PopTxOp => PopTx(d).1
  }

  function DriverRun(d: DriverState, ops: seq<DriverOp>): DriverState
    decreases |ops|
  {
    if ops == [] then d else DriverRun(DriverStep(d, ops[0]), ops[1..])
  }

  predicate Suffix(a: seq<Payload>, b: seq<Payload>) {
    |a| <= |b| && a == b[|b| - |a|..]
  }

  lemma SuffixTransitive(a: seq<Payload>, b: seq<Payload>, c: seq<Payload>)
    requires Suffix(a, b) && Suffix(b, c)
    ensures Suffix(a, c)
  {
    forall i | 0 <= i < |a|
      ensures a[i] == c[|c| - |a| + i]
    {
      assert a[i] == b[|b| - |a| + i];
    }
  }

  lemma OversizedHeadStays(d: DriverState, op: DriverOp)
    requires d.rx != [] && |d.rx[0]| > MAX_DRIVER_FRAME
    ensures var d' := DriverStep(d, op); d.rx <= d'.rx && d'.lost == d.lost && Suffix(d'.tx, d.tx)
  {
    var d' := DriverStep(d, op);
    if op.PopTxOp? && d.tx != [] && |d.tx[0]| <= MAX_DRIVER_FRAME {
      assert d'.tx == d.tx[1..];
    }
  }

  // A frame larger than the pump's buffer is accepted by the ring and then holds up RX for good:
  // whatever is done next, nothing in RX ever moves and TX gets nothing more.
  lemma {:induction false} OversizedHeadBlocks(d: DriverState, ops: seq<DriverOp>)
    requires d.rx != [] && |d.rx[0]| > MAX_DRIVER_FRAME
    ensures var d' := DriverRun(d, ops); d.rx <= d'.rx && d'.lost == d.lost && Suffix(d'.tx, d.tx)
    decreases |ops|
  {
    if ops != [] {
      var d' := DriverStep(d, ops[0]);
      OversizedHeadStays(d, ops[0]);
      assert d'.rx[0] == d.rx[0];
      OversizedHeadBlocks(d', ops[1..]);
      SuffixTransitive(DriverRun(d', ops[1..]).tx, d'.tx, d.tx);
    }
  }

  // Such frames do get in: an empty RX takes every frame of up to 2^20 - 4 bytes.
  lemma OversizedIsAccepted(d: DriverState, bytes: Payload)
    requires d.rx == [] && MAX_DRIVER_FRAME < |bytes|
    ensures PushRx(d, bytes).0 <==> |bytes| <= RING_SIZE - PREFIX_LEN
    ensures PushRx(d, bytes).0 ==> PushRx(d, bytes).1.rx == [bytes] && !Pump(PushRx(d, bytes).1).0
  {
    assert [] + [bytes] == [bytes] && Flatten(d.rx) == [];
  }

  // Through an empty RX, a frame within the limit always reaches TX, or is lost because TX is full.
  lemma PushThenPump(d: DriverState, bytes: Payload)
    requires d.rx == [] && |bytes| <= MAX_DRIVER_FRAME
    ensures PushRx(d, bytes) == (true, d.(rx := [bytes]))
    ensures var room := |Flatten(d.tx)| + 4 + |bytes| <= 0x10_0000;
            Pump(d.(rx := [bytes]))
            == (room, if room then d.(tx := d.tx + [bytes]) else d.(lost := d.lost + [bytes]))
  {
    assert [] + [bytes] == [bytes] && [bytes][1..] == [];
    assert Flatten(d.rx) == [];
  }
}

// protocol/src/lib.rs: the WHY network frame and its wire format.

module FrameCodec {
  import opened Bytes
  import opened Wrappers

  const MAGIC: seq<u8> := [0x57, 0x48, 0x59, 0x31] // "WHY1"
  const VERSION: u8 := 1
  const HEADER_LEN := 28

  datatype FrameType =
    | Request | Response | Event | AttachRequest | AttachResponse | DetachRequest | DetachResponse
    | CancelRequest | CancelResponse | ResetRequest | ResetResponse

  datatype Direction = HostToDevice | DeviceToHost

  datatype TransferType = Control | Bulk | Interrupt | Isochronous

  datatype TransferStatus = Success | Failed | Cancelled | Timeout | Stall | Reset

  datatype Frame = Frame(
    requestId: u64,
    frameType: FrameType,
    direction: Direction,
    transferType: TransferType,
    endpoint: u8,
    status: i32,
    payload: seq<u8>)

  function FrameTypeCode(t: FrameType): u8 {
    match t
    case Request => 1
    case Response => 2
    case Event => 3
    case AttachRequest => 4
    case AttachResponse => 5
    case DetachRequest => 6
    case DetachResponse => 7
    case CancelRequest => 8
    case CancelResponse => 9
    case ResetRequest => 10
    case ResetResponse => 11
  }

  function FrameTypeOf(code: u8): ProtocolResult<FrameType> {
    if code == 1 then Ok(Request)
    else if code == 2 then Ok(Response)
    else if code == 3 then Ok(Event)
    else if code == 4 then Ok(AttachRequest)
    else if code == 5 then Ok(AttachResponse)
    else if code == 6 then Ok(DetachRequest)
    else if code == 7 then Ok(DetachResponse)
    else if code == 8 then Ok(CancelRequest)
    else if code == 9 then Ok(CancelResponse)
    else if code == 10 then Ok(ResetRequest)
    else if code == 11 then Ok(ResetResponse)
    else Err(InvalidFrameType(code))
  }

  function DirectionCode(d: Direction): u8 {
    match d
    case HostToDevice => 1
    case DeviceToHost => 2
  }

  function DirectionOf(code: u8): ProtocolResult<Direction> {
    if code == 1 then Ok(HostToDevice)
    else if code == 2 then Ok(DeviceToHost)
    else Err(InvalidDirection(code))
  }

  function TransferTypeCode(t: TransferType): u8 {
    match t
    case Control => 1
    case Bulk => 2
    case Interrupt => 3
    case Isochronous => 4
  }

  function TransferTypeOf(code: u8): ProtocolResult<TransferType> {
    if code == 1 then Ok(Control)
    else if code == 2 then Ok(Bulk)
    else if code == 3 then Ok(Interrupt)
    else if code == 4 then Ok(Isochronous)
    else Err(InvalidTransferType(code))
  }

  function StatusCode(s: TransferStatus): i32 {
    match s
    case Success => 0
    case Failed => -1
    case Cancelled => -2
    case Timeout => -3
    case Stall => -4
    case Reset => -5
  }

  // Frame::encode panics on a longer payload.
  predicate Encodable(f: Frame) {
    |f.payload| <= U32_MAX
  }

  function Encode(f: Frame): (b: seq<u8>)
    requires Encodable(f)
    ensures |b| == HEADER_LEN + |f.payload|
  {
    MAGIC
    + [VERSION, FrameTypeCode(f.frameType), DirectionCode(f.direction), TransferTypeCode(f.transferType)]
    + ToBe64(f.requestId)
    + [f.endpoint, 0, 0, 0]
    + ToBeI32(f.status)
    + ToBe32(|f.payload|)
    + f.payload
  }

  function Decode(b: seq<u8>): (r: ProtocolResult<Frame>) {
    if |b| < HEADER_LEN then Err(TruncatedHeader(|b|, HEADER_LEN))
    else if b[..4] != MAGIC then Err(InvalidMagic)
    else if b[4] != VERSION then Err(UnsupportedVersion(b[4]))
    else
      var frameType :- FrameTypeOf(b[5]);
      var direction :- DirectionOf(b[6]);
      var transferType :- TransferTypeOf(b[7]);
      var payloadLen := ReadBe32(b, 24);
      if |b| != HEADER_LEN + payloadLen then Err(InvalidPayloadLength(|b| - HEADER_LEN, payloadLen))
      else Ok(Frame(FromBe64(b[8..16]), frameType, direction, transferType, b[16],
                    FromBeI32(b[20..24]), b[HEADER_LEN..]))
  }

  lemma RoundTrip(f: Frame)
    requires Encodable(f)
    ensures Decode(Encode(f)) == Ok(f)
  {
    var b := Encode(f);
    assert b[..4] == MAGIC;
    assert b[8..16] == ToBe64(f.requestId);
    assert b[20..24] == ToBeI32(f.status);
    assert b[24..28] == ToBe32(|f.payload|);
    assert b[HEADER_LEN..] == f.payload;
  }

  // Decode ignores the three reserved header bytes 17, 18 and 19, and nothing else.
  function ClearReserved(b: seq<u8>): seq<u8>
    requires |b| >= HEADER_LEN
  {
    b[..17] + [0, 0, 0] + b[20..]
  }

  lemma CodesDetermineNames(b: seq<u8>)
    requires Decode(b).Ok?
    ensures var f := Decode(b).value;
            && b[5] == FrameTypeCode(f.frameType)
            && b[6] == DirectionCode(f.direction)
            && b[7] == TransferTypeCode(f.transferType)
  {
  }

  lemma ClearedSlices(b: seq<u8>)
    requires |b| >= HEADER_LEN
    ensures var c := ClearReserved(b);
            && c[..4] == b[..4] && c[4..8] == b[4..8] && c[8..16] == b[8..16]
            && c[16..20] == [b[16], 0, 0, 0]
            && c[20..24] == b[20..24] && c[24..28] == b[24..28] && c[HEADER_LEN..] == b[HEADER_LEN..]
  {
    var c := ClearReserved(b);
    assert forall i :: 0 <= i < 17 || 20 <= i < |b| ==> c[i] == b[i];
  }

  lemma SplitHeader(c: seq<u8>)
    requires |c| >= HEADER_LEN
    ensures c == c[..4] + c[4..8] + c[8..16] + c[16..20] + c[20..24] + c[24..28] + c[28..]
  {
  }

  lemma DecodedReencodes(b: seq<u8>)
    requires Decode(b).Ok?
    ensures Encodable(Decode(b).value)
    ensures Encode(Decode(b).value) == ClearReserved(b)
  {
    CodesDetermineNames(b);
    Be64Inverse(b[8..16]);
    BeI32Inverse(b[20..24]);
    Be32Inverse(b[24..28]);
    ClearedSlices(b);
    SplitHeader(ClearReserved(b));
    hide ClearReserved, ToBe64, FromBe64, ToBe32, FromBe32, ToBeI32, FromBeI32;
    assert b[4..8] == [VERSION, b[5], b[6], b[7]];
    assert b[24..28] == ToBe32(|b[HEADER_LEN..]|);
  }

  // Decode accepts a byte string exactly when, reserved bytes aside, it is the encoding of a frame.
  lemma AcceptsExactlyEncodings(b: seq<u8>)
    requires |b| >= HEADER_LEN
    ensures Decode(b).Ok? <==> exists f :: Encodable(f) && Encode(f) == ClearReserved(b)
  {
    hide ToBe64, FromBe64, ToBe32, FromBe32, ToBeI32, FromBeI32;
    if Decode(b).Ok? {
      DecodedReencodes(b);
    }
    forall f | Encodable(f) && Encode(f) == ClearReserved(b)
      ensures Decode(b).Ok?
    {
      RoundTrip(f);
      var c := ClearReserved(b);
      assert c[..4] == b[..4] && c[24..28] == b[24..28];
      assert c[4] == b[4] && c[5] == b[5] && c[6] == b[6] && c[7] == b[7];
    }
  }

  // ---- constructors

  function MockResponse(f: Frame, payload: seq<u8>): Frame {
    Frame(f.requestId, Response, DeviceToHost, f.transferType, f.endpoint, 0, payload)
  }

  function StatusResponse(f: Frame, status: TransferStatus): Frame {
    Frame(f.requestId, Response, DeviceToHost, f.transferType, f.endpoint, StatusCode(status), [])
  }

  function MockRequest(requestId: u64, payload: seq<u8>): Frame {
    Frame(requestId, Request, HostToDevice, Bulk, 1, 0, payload)
  }

  function LifecycleRequest(requestId: u64, frameType: FrameType): Frame {
    Frame(requestId, frameType, HostToDevice, Control, 0, 0, [])
  }

  function LifecycleResponse(f: Frame, frameType: FrameType, status: i32, payload: seq<u8>): Frame {
    Frame(f.requestId, frameType, DeviceToHost, Control, 0, status, payload)
  }

  function TransferControlResponse(f: Frame, frameType: FrameType, status: TransferStatus): Frame {
    Frame(f.requestId, frameType, DeviceToHost, f.transferType, f.endpoint, StatusCode(status), [])
  }
}

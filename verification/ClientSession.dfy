// client/src/session.rs: the client's side of the WHY session, as functions of its state.

module ClientSpec {
  import opened BulkPayload
  import opened Bytes
  import opened ControlTransfers
  import opened DescriptorDecode
  import opened Descriptors
  import opened FrameCodec
  import opened Wrappers

  const ATTACH_ID: u64 := 1
  const FIRST_CONTROL_ID := 2
  const CONTROL_REQUESTS := 5
  const FIRST_DATA_ID := 7
  const LOCAL_LIMIT := 100 // the local channel's; the sending loop holds one more frame while it waits for room

  // "Mock URB from Linux Client"
  const MOCK_URB_TEXT: seq<u8> := [
    0x4d, 0x6f, 0x63, 0x6b, 0x20, 0x55, 0x52, 0x42, 0x20, 0x66, 0x72, 0x6f, 0x6d, 0x20, 0x4c, 0x69,
    0x6e, 0x75, 0x78, 0x20, 0x43, 0x6c, 0x69, 0x65, 0x6e, 0x74]

  // How many data requests to make; none means for ever. The detach id must not overflow.
  datatype ClientConfig = ClientConfig(limit: Option<u64>)

  predicate ConfigOk(cfg: ClientConfig) {
    cfg.limit.Some? ==> FIRST_DATA_ID + cfg.limit.value < TWO_TO_64
  }

  // Waiting for the attach response, for the response to the k-th control request, exchanging
  // data, or finished.
  datatype Stage = AwaitAttach | AwaitControl(k: nat) | Data | Ended(ok: bool)

  datatype ClientState = ClientState(
    stage: Stage,
    descriptors: Option<DescriptorSet>,
    generated: nat, // data requests made so far by the local USB task
    local: seq<Frame>, // made, not yet sent
    pendingBulk: map<u64, seq<u8>>,
    dataResponses: nat,
    detachSent: bool)

  const START := ClientState(AwaitAttach, None, 0, [], map[], 0, false)

  predicate LocalOk(c: ClientState) {
    && (forall i :: 0 <= i < |c.local| ==> Encodable(c.local[i]))
    && (c.stage.AwaitControl? ==> c.stage.k < CONTROL_REQUESTS)
  }

  // ---- the handshake and the mock enumeration

  function ExpectedReport(descriptors: Option<DescriptorSet>): ProtocolResult<Option<seq<u8>>> {
    if descriptors.None? then Ok(None)
    else
      var report :- ReportDescriptorBytes(descriptors.value, 0, 0, 0);
      Ok(Some(report))
  }

  function ReportLength(expected: Option<seq<u8>>): u16 {
    if expected.Some? then |expected.value| % 0x1_0000 else 255
  }

  function EnumerationSetup(k: nat, expected: Option<seq<u8>>): Setup
    requires k < CONTROL_REQUESTS
  {
    if k == 0 then GetDescriptorSetup(DeviceType, 0, 18)
    else if k == 1 then GetDescriptorSetup(ConfigurationType, 0, 255)
    else if k == 2 then GetInterfaceDescriptorSetup(ReportType, 0, 0, ReportLength(expected))
    else if k == 3 then SetAddressSetup(1)
    else SetConfigurationSetup(1)
  }

  function BeginControl(c: ClientState, k: nat): (r: (ClientState, seq<Frame>))
    requires k < CONTROL_REQUESTS
    ensures forall i :: 0 <= i < |r.1| ==> Encodable(r.1[i])
  {
    var expected := ExpectedReport(c.descriptors);
    if k == 2 && expected.Err? then (c.(stage := Ended(false)), [])
    else
      var setup := EnumerationSetup(k, if expected.Ok? then expected.value else None);
      (c.(stage := AwaitControl(k)), [ControlRequest(FIRST_CONTROL_ID + k, setup)])
  }

  function ReceiveLifecycle(c: ClientState, f: Frame): (ClientState, seq<Frame>) {
    if f.frameType != AttachResponse then (c, [])
    else if f.status != 0 then (c.(stage := Ended(false)), [])
    else if f.payload == [] then BeginControl(c, 0)
    else
      match DecodeSet(f.payload)
      case Err(_) => (c.(stage := Ended(false)), [])
      case Ok(ds) => BeginControl(c.(descriptors := Some(ds)), 0)
  }

  function ReceiveControl(c: ClientState, k: nat, f: Frame): (ClientState, seq<Frame>)
    requires k < CONTROL_REQUESTS
  {
    if f.requestId != FIRST_CONTROL_ID + k || f.frameType != Response then (c, [])
    else if f.status != 0 then (c.(stage := Ended(false)), [])
    else
      match DecodeTransfer(f.payload)
      case Err(_) => (c.(stage := Ended(false)), [])
      case Ok(control) =>
        var expected := ExpectedReport(c.descriptors);
        if k == 2 && expected.Ok? && expected.value.Some? && control.data != expected.value.value
        then (c.(stage := Ended(false)), [])
        else if k + 1 == CONTROL_REQUESTS then (c.(stage := Data), [])
        else BeginControl(c, k + 1)
  }

  // ---- the data phase

  datatype Action = NoAction | DataResponse | DetachAccepted

  // injectOk is whether the local USB adapter takes the payload.
  function HandleFrame(c: ClientState, f: Frame, injectOk: bool): (Action, ClientState) {
    match f.frameType
    case Response =>
      (if f.status != 0 || injectOk then DataResponse else NoAction, c.(pendingBulk := c.pendingBulk - {f.requestId}))
    case DetachResponse => (if f.status != 0 then NoAction else DetachAccepted, c)
    case CancelResponse => (DataResponse, c)
    case _ => (NoAction, c)
  }

  // The mock validates a successful response against what it recorded under the request's id.
  predicate Validates(pendingBulk: map<u64, seq<u8>>, f: Frame) {
    f.requestId in pendingBulk && BulkDecode(f.payload) == Ok(pendingBulk[f.requestId])
  }

  function DetachId(cfg: ClientConfig): u64
    requires ConfigOk(cfg)
  {
    if cfg.limit.Some? then FIRST_DATA_ID + cfg.limit.value else TWO_TO_64 - 1
  }

  function CountResponse(c: ClientState, cfg: ClientConfig): (ClientState, seq<Frame>)
    requires ConfigOk(cfg)
  {
    var c' := c.(dataResponses := c.dataResponses + 1);
    if !c.detachSent && cfg.limit.Some? && cfg.limit.value == c'.dataResponses
    then (c'.(detachSent := true), [LifecycleRequest(DetachId(cfg), DetachRequest)])
    else (c', [])
  }

  function ReceiveData(c: ClientState, cfg: ClientConfig, f: Frame, injectOk: bool): (ClientState, seq<Frame>)
    requires ConfigOk(cfg)
  {
    var (action, c') := HandleFrame(c, f, injectOk);
    match action
    case NoAction => (c', [])
    case DetachAccepted => (c'.(stage := Ended(true)), [])
    case DataResponse => CountResponse(c', cfg)
  }

  function ReceiveFrame(c: ClientState, cfg: ClientConfig, f: Frame, injectOk: bool): (r: (ClientState, seq<Frame>))
    requires ConfigOk(cfg) && LocalOk(c)
    ensures LocalOk(r.0) && forall i :: 0 <= i < |r.1| ==> Encodable(r.1[i])
  {
    match c.stage
    case AwaitAttach => ReceiveLifecycle(c, f)
    case AwaitControl(k) => ReceiveControl(c, k, f)
    case Data => ReceiveData(c, cfg, f, injectOk)
    case Ended(_) => (c, [])
  }

  // A frame that does not decode ends the handshake and is dropped in the data phase.
  function Receive(c: ClientState, cfg: ClientConfig, bytes: seq<u8>, injectOk: bool): (r: (ClientState, seq<Frame>))
    requires ConfigOk(cfg) && LocalOk(c)
    ensures LocalOk(r.0) && forall i :: 0 <= i < |r.1| ==> Encodable(r.1[i])
  {
    match Decode(bytes)
    case Ok(f) => ReceiveFrame(c, cfg, f, injectOk)
    case Err(_) => (if c.stage.AwaitAttach? || c.stage.AwaitControl? then c.(stage := Ended(false)) else c, [])
  }

  // ---- the local USB task

  function DataRequest(id: u64, data: Option<seq<u8>>): (f: Frame)
    requires data.Some? ==> |data.value| + BULK_HEADER_LEN <= U32_MAX
    ensures Encodable(f) && f.requestId == id && f.frameType == Request
  {
    MockRequest(id, if data.Some? then BulkEncode(data.value) else MOCK_URB_TEXT)
  }

  // A bulk request that decodes to its data, or the fixed text, on bulk endpoint 1.
  lemma DataRequestCarries(id: u64, data: Option<seq<u8>>)
    requires data.Some? ==> |data.value| + BULK_HEADER_LEN <= U32_MAX
    ensures var f := DataRequest(id, data);
            && f == Frame(id, Request, HostToDevice, Bulk, 1, 0, f.payload)
            && (data.Some? ==> BulkDecode(f.payload) == Ok(data.value))
            && (data.None? ==> f.payload == MOCK_URB_TEXT && BulkDecode(f.payload).Err?)
  {
    if data.Some? {
      BulkRoundTrip(data.value);
    } else {
      assert MOCK_URB_TEXT[..4][0] != BULK_MAGIC[0];
    }
  }

  // Byte k of a little-endian 64-bit id.
  function SeedByte(id: u64, k: nat): u8
    requires k < 8
  {
    if k == 0 then id % 0x100 else SeedByte(id / 0x100, k - 1)
  }

  function SyntheticByte(id: u64, i: nat): u8 {
    (SeedByte(id, i % 8) + i % 0x100) % 0x100
  }

  function SyntheticData(id: u64, len: nat): (data: seq<u8>)
    ensures |data| == len
  {
    seq(len, i requires 0 <= i < len => SyntheticByte(id, i))
  }

  // What the local USB task sends under an id: synthetic bytes of the configured length, or the text.
  function MockData(id: u64, bulkLen: Option<nat>): Option<seq<u8>> {
    if bulkLen.Some? then Some(SyntheticData(id, bulkLen.value)) else None
  }

  predicate CanMake(c: ClientState, cfg: ClientConfig, bulkLen: Option<nat>) {
    && c.stage.Data?
    && (cfg.limit.Some? ==> c.generated < cfg.limit.value)
    && FIRST_DATA_ID + c.generated < TWO_TO_64
    && |c.local| <= LOCAL_LIMIT
    && (bulkLen.Some? ==> bulkLen.value + BULK_HEADER_LEN <= U32_MAX)
  }

  predicate CanGenerate(c: ClientState, cfg: ClientConfig, data: Option<seq<u8>>) {
    CanMake(c, cfg, if data.Some? then Some(|data.value|) else None)
  }

  function Generate(c: ClientState, cfg: ClientConfig, data: Option<seq<u8>>): (c': ClientState)
    requires LocalOk(c)
    ensures LocalOk(c')
  {
    if !CanGenerate(c, cfg, data) then c
    else c.(generated := c.generated + 1, local := c.local + [DataRequest(FIRST_DATA_ID + c.generated, data)])
  }

  function Record(pendingBulk: map<u64, seq<u8>>, f: Frame): map<u64, seq<u8>> {
    match BulkDecode(f.payload)
    case Ok(data) => pendingBulk[f.requestId := data]
    case Err(_) => pendingBulk
  }

  function SendLocal(c: ClientState): (r: (ClientState, seq<Frame>))
    requires LocalOk(c)
    ensures LocalOk(r.0) && forall i :: 0 <= i < |r.1| ==> Encodable(r.1[i])
  {
    if !c.stage.Data? || c.local == [] then (c, [])
    else (c.(local := c.local[1..], pendingBulk := Record(c.pendingBulk, c.local[0])), [c.local[0]])
  }

  function ServerGone(c: ClientState): ClientState {
    if c.stage.Ended? then c else c.(stage := Ended(c.stage.Data?))
  }
}

// The same as written: counters and a map updated step by step.

module ClientSession {
  import opened BulkPayload
  import opened Bytes
  import opened ClientSpec
  import opened ControlTransfers
  import opened DescriptorDecode
  import opened Descriptors
  import opened FrameCodec
  import opened Wrappers

  class Session {
    const cfg: ClientConfig
    var stage: Stage
    var descriptors: Option<DescriptorSet>
    var generated: nat
    var local: seq<Frame>
    var pendingBulkPayloads: map<u64, seq<u8>>
    var dataResponses: nat
    var detachSent: bool
    var sent: seq<Frame>

    ghost function View(): ClientState
      reads this
    {
      ClientState(stage, descriptors, generated, local, pendingBulkPayloads, dataResponses, detachSent)
    }

    ghost predicate Valid()
      reads this
    {
      ConfigOk(cfg) && LocalOk(View())
    }

    constructor (cfg: ClientConfig)
      requires ConfigOk(cfg)
      ensures Valid() && View() == START && this.cfg == cfg
      ensures sent == [LifecycleRequest(ATTACH_ID, AttachRequest)]
    {
      this.cfg := cfg;
      stage, descriptors, generated, local := AwaitAttach, None, 0, [];
      pendingBulkPayloads, dataResponses, detachSent := map[], 0, false;
      sent := [LifecycleRequest(ATTACH_ID, AttachRequest)];
    }

    method SendControlRequest(k: nat)
      requires k < CONTROL_REQUESTS
      modifies this`stage, this`sent
      ensures var (c, out) := BeginControl(old(View()), k); View() == c && sent == old(sent) + out
    {
      var expected: Option<seq<u8>> := None;
      if descriptors.Some? {
        var report := ReportDescriptorBytes(descriptors.value, 0, 0, 0);
        if report.Err? {
          if k == 2 {
            stage := Ended(false);
            assert sent + [] == sent;
            return;
          }
        } else {
          expected := Some(report.value);
        }
      }
      sent := sent + [ControlRequest(FIRST_CONTROL_ID + k, EnumerationSetup(k, expected))];
      stage := AwaitControl(k);
    }

    method OnLifecycleFrame(f: Frame)
      requires stage.AwaitAttach?
      modifies this`stage, this`descriptors, this`sent
      ensures var (c, out) := ReceiveLifecycle(old(View()), f); View() == c && sent == old(sent) + out
    {
      assert sent + [] == sent;
      if f.frameType != AttachResponse {
        return;
      }
      if f.status != 0 {
        stage := Ended(false);
        return;
      }
      if f.payload != [] {
        var ds := SetFromBytes(f.payload);
        if ds.Err? {
          stage := Ended(false);
          return;
        }
        descriptors := Some(ds.value);
      }
      SendControlRequest(0);
    }

    method OnControlFrame(f: Frame)
      requires stage.AwaitControl? && stage.k < CONTROL_REQUESTS
      modifies this`stage, this`sent
      ensures var (c, out) := ReceiveControl(old(View()), old(stage).k, f); View() == c && sent == old(sent) + out
    {
      var k := stage.k;
      assert sent + [] == sent;
      if f.requestId != FIRST_CONTROL_ID + k || f.frameType != Response {
        return;
      }
      if f.status != 0 {
        stage := Ended(false);
        return;
      }
      var control := DecodeTransfer(f.payload);
      if control.Err? {
        stage := Ended(false);
        return;
      }
      if k == 2 && descriptors.Some? {
        var expected := ReportDescriptorBytes(descriptors.value, 0, 0, 0);
        if expected.Ok? && control.value.data != expected.value {
          stage := Ended(false);
          return;
        }
      }
      if k + 1 < CONTROL_REQUESTS {
        SendControlRequest(k + 1);
      } else {
        stage := Data;
      }
    }

    method HandleNetworkFrame(f: Frame, injectOk: bool) returns (action: Action)
      modifies this`pendingBulkPayloads
      ensures (action, View()) == HandleFrame(old(View()), f, injectOk)
    {
      match f.frameType {
        case Response =>
          pendingBulkPayloads := pendingBulkPayloads - {f.requestId};
          if f.status != 0 {
            return DataResponse;
          }
          return if injectOk then DataResponse else NoAction;
        case DetachResponse =>
          return if f.status != 0 then NoAction else DetachAccepted;
        case CancelResponse => return DataResponse;
        case _ => return NoAction;
      }
    }

    method OnDataFrame(f: Frame, injectOk: bool)
      requires Valid() && stage.Data?
      modifies this`stage, this`pendingBulkPayloads, this`dataResponses, this`detachSent, this`sent
      ensures Valid()
      ensures var (c, out) := ReceiveData(old(View()), cfg, f, injectOk); View() == c && sent == old(sent) + out
    {
      assert sent + [] == sent;
      var action := HandleNetworkFrame(f, injectOk);
      match action {
        case DataResponse =>
          dataResponses := dataResponses + 1;
          if !detachSent && cfg.limit == Some(dataResponses) {
            sent := sent + [LifecycleRequest(DetachId(cfg), DetachRequest)];
            detachSent := true;
          }
        case DetachAccepted => stage := Ended(true);
        case NoAction =>
      }
    }

    method OnNetworkBytes(bytes: seq<u8>, injectOk: bool)
      requires Valid() && !stage.Ended?
      modifies this
      ensures Valid()
      ensures var (c, out) := Receive(old(View()), cfg, bytes, injectOk); View() == c && sent == old(sent) + out
    {
      var f := Decode(bytes);
      if f.Err? {
        assert sent + [] == sent;
        if stage != Data {
          stage := Ended(false);
        }
        return;
      }
      match stage {
        case AwaitAttach => OnLifecycleFrame(f.value);
        case AwaitControl(_) => OnControlFrame(f.value);
        case Data => OnDataFrame(f.value, injectOk);
      }
    }

    method MakeDataRequest(data: Option<seq<u8>>)
      requires Valid() && CanGenerate(View(), cfg, data)
      modifies this`generated, this`local
      ensures Valid() && View() == Generate(old(View()), cfg, data)
    {
      local := local + [DataRequest(FIRST_DATA_ID + generated, data)];
      generated := generated + 1;
    }

    // MockBulkPayload::synthetic: the bytes follow from the id and their position.
    static method Synthetic(id: u64, len: nat) returns (data: seq<u8>)
      ensures data == SyntheticData(id, len)
    {
      data := [];
      for index := 0 to len
        invariant data == SyntheticData(id, index)
      {
        data := data + [SyntheticByte(id, index)];
      }
    }

    // One turn of the local USB task.
    method MakeMockRequest(bulkLen: Option<nat>)
      requires Valid() && CanMake(View(), cfg, bulkLen)
      modifies this`generated, this`local
      ensures Valid()
      ensures var id := FIRST_DATA_ID + old(generated);
              View() == Generate(old(View()), cfg, MockData(id, bulkLen))
    {
      var data: Option<seq<u8>> := None;
      if bulkLen.Some? {
        var bytes := Synthetic(FIRST_DATA_ID + generated, bulkLen.value);
        data := Some(bytes);
      }
      MakeDataRequest(data);
    }

    method SendLocalFrame()
      requires Valid() && stage.Data? && local != []
      modifies this`local, this`pendingBulkPayloads, this`sent
      ensures Valid()
      ensures var (c, out) := SendLocal(old(View())); View() == c && sent == old(sent) + out
    {
      var f := local[0];
      local := local[1..];
      var payload := BulkDecode(f.payload);
      if payload.Ok? {
        pendingBulkPayloads := pendingBulkPayloads[f.requestId := payload.value];
      }
      sent := sent + [f];
    }
  }
}

// How the client reacts to a frame, whatever daemon sent it.

module ClientReactions {
  import opened Bytes
  import opened ClientSpec
  import opened ControlTransfers
  import opened DescriptorDecode
  import opened FrameCodec
  import opened Wrappers

  // In the data phase a failed or a taken response counts, and so does a cancel response; the count
  // that reaches the limit asks for the detach, once; only an accepted detach ends the session.
  lemma DataFrameIsCounted(c: ClientState, cfg: ClientConfig, f: Frame, injectOk: bool)
    requires ConfigOk(cfg) && LocalOk(c) && c.stage.Data?
    ensures var (c', out) := ReceiveFrame(c, cfg, f, injectOk);
            var counted := f.frameType.CancelResponse? || (f.frameType.Response? && (f.status != 0 || injectOk));
            var asks := counted && !c.detachSent && cfg.limit == Some(c.dataResponses + 1);
            && c' == c.(stage := c'.stage, pendingBulk := c'.pendingBulk, dataResponses := c'.dataResponses,
                        detachSent := c.detachSent || asks)
            && c'.dataResponses == c.dataResponses + (if counted then 1 else 0)
            && (c'.stage == if f.frameType.DetachResponse? && f.status == 0 then Ended(true) else Data)
            && c'.pendingBulk == c.pendingBulk - (if f.frameType.Response? then {f.requestId} else {})
            && out == if asks then [Frame(7 + cfg.limit.value, DetachRequest, HostToDevice, Control, 0, 0, [])] else []
  {
    assert c.pendingBulk - {} == c.pendingBulk;
  }

  // In the handshake every frame but the awaited one is passed over, and a bad one ends the session.
  lemma HandshakeAwaits(c: ClientState, cfg: ClientConfig, f: Frame, injectOk: bool)
    requires ConfigOk(cfg) && LocalOk(c) && (c.stage.AwaitAttach? || c.stage.AwaitControl?)
    ensures var (c', out) := ReceiveFrame(c, cfg, f, injectOk);
            var awaited := if c.stage.AwaitAttach? then f.frameType.AttachResponse?
                           else f.frameType.Response? && f.requestId == 2 + c.stage.k;
            var bad := if c.stage.AwaitAttach? then f.status != 0 || (f.payload != [] && DecodeSet(f.payload).Err?)
                       else f.status != 0 || |f.payload| < SETUP_LEN;
            && (!awaited ==> c' == c && out == [])
            && (awaited && bad ==> c' == c.(stage := Ended(false)) && out == [])
            && (awaited && c.stage.AwaitAttach? && !bad ==>
                  && c'.stage == AwaitControl(0) && |out| == 1
                  && c'.descriptors == if f.payload == [] then c.descriptors else Some(DecodeSet(f.payload).value))
  {
    hide DecodeSet, EncodeTransfer, ReportDescriptorBytes;
  }

  // Bytes that are no frame end the handshake, and are passed over in the data phase.
  lemma GarbageEndsHandshake(c: ClientState, cfg: ClientConfig, bytes: seq<u8>, injectOk: bool)
    requires ConfigOk(cfg) && LocalOk(c) && !c.stage.Ended? && Decode(bytes).Err?
    ensures Receive(c, cfg, bytes, injectOk) == (if c.stage.Data? then c else c.(stage := Ended(false)), [])
  {
    hide DecodeSet;
  }

  // Short of the limit a request can be made exactly while at most a hundred wait to be sent.
  lemma MakesWhileRoom(c: ClientState, cfg: ClientConfig, data: Option<seq<u8>>)
    requires LocalOk(c) && c.stage.Data? && 7 + c.generated < TWO_TO_64
    requires data.Some? ==> |data.value| + 16 <= U32_MAX
    ensures var c', open := Generate(c, cfg, data), cfg.limit.None? || c.generated < cfg.limit.value;
            if open && |c.local| <= 100 then
              c' == c.(generated := c.generated + 1, local := c.local + [DataRequest(7 + c.generated, data)])
            else c' == c
  {
  }

  // The five setups, as they go out: the device descriptor, the configuration, the report descriptor
  // in its announced length or 255, address 1 and configuration 1.
  lemma EnumerationOnTheWire(expected: Option<seq<u8>>)
    ensures EncodeSetup(EnumerationSetup(0, expected)) == [0x80, 6, 0, 1, 0, 0, 18, 0]
    ensures EncodeSetup(EnumerationSetup(1, expected)) == [0x80, 6, 0, 2, 0, 0, 255, 0]
    ensures var len := if expected.None? then 255 else |expected.value| % 0x1_0000;
            EncodeSetup(EnumerationSetup(2, expected)) == [0x81, 6, 0, 0x22, 0, 0, len % 256, len / 256]
    ensures EncodeSetup(EnumerationSetup(3, expected)) == [0, 5, 1, 0, 0, 0, 0, 0]
    ensures EncodeSetup(EnumerationSetup(4, expected)) == [0, 9, 1, 0, 0, 0, 0, 0]
  {
  }
}

// The handshake: the daemon's attach response, then the client's mock enumeration of the device.

module Enumeration {
  import opened Bytes
  import opened ClientSpec
  import opened ControlEndpoint
  import opened ControlTransfers
  import opened DescriptorCanonical
  import opened DescriptorDecode
  import opened DescriptorRoundTrip
  import opened Descriptors
  import opened FrameCodec
  import opened Wrappers
  import D = DaemonSpec

  // The k-th setup of a client that was announced the set cs.
  function Request(k: nat, cs: DescriptorSet): Setup
    requires k < CONTROL_REQUESTS
  {
    var expected := ExpectedReport(Some(cs));
    EnumerationSetup(k, if expected.Ok? then expected.value else None)
  }

  function Report(ds: DescriptorSet): ProtocolResult<seq<u8>> {
    ReportDescriptorBytes(ds, 0, 0, 0)
  }

  // What takes a client that was announced cs, enumerating a device with the set ds, past its k-th
  // request: on the second it needs a configuration and a report to expect, on the third that
  // report, on the last the configuration 1.
  predicate Passes(k: nat, cs: DescriptorSet, ds: DescriptorSet) {
    if k == 1 then ds.configurations != [] && Report(cs).Ok?
    else if k == 2 then Report(cs).Ok? && Report(ds).Ok? && Report(cs).value <= Report(ds).value
    else if k == 4 then Supported(Some(ds), 1)
    else true
  }

  predicate ReportFits(cs: DescriptorSet) {
    Report(cs).Ok? ==> |Report(cs).value| <= 0xffff
  }

  // A decoded set's reports always fit the sixteen bits the client has for their length.
  lemma DecodedReportFits(bytes: seq<u8>)
    requires DecodeSet(bytes).Ok?
    ensures ReportFits(DecodeSet(bytes).value)
  {
    DecodedParts(bytes);
    var cs := DecodeSet(bytes).value;
    hide DecodeSet;
    if Report(cs).Ok? {
      assert Settled(cs.configurations[0]);
    }
  }

  lemma ReportAnswered(cs: DescriptorSet, ds: DescriptorSet)
    requires Report(cs).Ok? && ReportFits(cs)
    ensures Answer(Request(2, cs), Some(ds)) == Reply(Success, Report(cs).value) <==> Passes(2, cs, ds)
    ensures Answer(Request(2, cs), Some(ds)).status != Success ==> Report(ds).Err?
  {
    var setup := Request(2, cs);
    assert DescriptorTypeOf(setup) == Ok(ReportType) && LowByte(setup.value) == LowByte(setup.index) == 0;
    assert setup.length == |Report(cs).value|;
    hide ReportDescriptorBytes;
  }

  lemma ConfigurationAnswered(cs: DescriptorSet, ds: DescriptorSet)
    requires SetEncodable(ds)
    ensures Answer(Request(0, cs), Some(ds)) == Reply(Success, DeviceBytes(ds.device, |ds.configurations|))
    ensures Answer(Request(1, cs), Some(ds))
         == if ds.configurations == [] then Reply(Stall, [])
            else Reply(Success, Truncate(ConfigurationBytes(ds.configurations[0]), 255))
  {
    var setup := Request(1, cs);
    assert DescriptorTypeOf(setup) == Ok(ConfigurationType) && LowByte(setup.value) == 0;
    assert DescriptorTypeOf(Request(0, cs)) == Ok(DeviceType);
    hide DeviceBytes, ConfigurationBytes, ReportDescriptorBytes;
  }

  // Each answer of the device, and whether the client goes on with it.
  predicate GoodAnswer(k: nat, cs: DescriptorSet, ds: DescriptorSet)
    requires k < CONTROL_REQUESTS
  {
    var reply := Answer(Request(k, cs), Some(ds));
    reply.status == Success && (k == 2 && Report(cs).Ok? ==> reply.data == Report(cs).value)
  }

  lemma AnswersArePasses(k: nat, cs: DescriptorSet, ds: DescriptorSet)
    requires k < CONTROL_REQUESTS && SetEncodable(ds) && ReportFits(cs) && (k == 2 ==> Report(cs).Ok?)
    ensures Passes(k, cs, ds) <==> GoodAnswer(k, cs, ds) && (k == 1 ==> Report(cs).Ok?)
  {
    if k < 2 {
      ConfigurationAnswered(cs, ds);
    } else if k == 2 {
      ReportAnswered(cs, ds);
    }
    hide ReportDescriptorBytes;
  }

  function DeviceAfter(k: nat, dev: DeviceState): DeviceState {
    if k == 3 then dev.(address := 1) else if k == 4 then dev.(configuration := 1) else dev
  }

  lemma RequestApplied(k: nat, cs: DescriptorSet, ds: DescriptorSet, dev: DeviceState)
    requires k < CONTROL_REQUESTS
    ensures Passes(k, cs, ds) ==> After(Request(k, cs), Some(ds), dev) == DeviceAfter(k, dev)
  {
    hide ReportDescriptorBytes;
  }

  // One request of the enumeration, answered by the device and taken in by the client.
  lemma RequestExchanged(c: ClientState, k: nat, cs: DescriptorSet, ds: DescriptorSet, dev: DeviceState,
          keycodes: seq<u8>)
    requires k < CONTROL_REQUESTS && c.stage == AwaitControl(k) && c.descriptors == Some(cs)
    requires SetEncodable(ds) && ReportFits(cs) && (k == 2 ==> Report(cs).Ok?)
    ensures var o := HandleControl(ControlRequest(FIRST_CONTROL_ID + k, Request(k, cs)), Some(ds), dev, keycodes);
            && (Passes(k, cs, ds) ==> o.device == DeviceAfter(k, dev))
            && ReceiveControl(c, k, o.response)
            == if !Passes(k, cs, ds) then (c.(stage := Ended(false)), [])
               else if k == 4 then (c.(stage := Data), [])
               else (c.(stage := AwaitControl(k + 1)), [ControlRequest(FIRST_CONTROL_ID + k + 1, Request(k + 1, cs))])
  {
    hide Answer, After, Events, ReportDescriptorBytes, SetEncodable, Passes, DecodeTransfer, EncodeTransfer;
    var f := ControlRequest(FIRST_CONTROL_ID + k, Request(k, cs));
    TransferRoundTrip(ControlTransfer(Request(k, cs), []));
    ResponseMatchesRequest(f, Some(ds), dev, keycodes);
    AnswersArePasses(k, cs, ds);
    RequestApplied(k, cs, ds, dev);
    hide EnumerationSetup;
  }

  // The rest of the enumeration, request by request; what the client and the device end up with.
  function Exchange(c: ClientState, k: nat, f: Frame, ds: DescriptorSet, dev: DeviceState, keycodes: seq<u8>)
    : (ClientState, DeviceState)
    requires k < CONTROL_REQUESTS
    decreases CONTROL_REQUESTS - k
  {
    var o := HandleControl(f, Some(ds), dev, keycodes);
    var (c', out) := ReceiveControl(c, k, o.response);
    if c'.stage == AwaitControl(k + 1) && k + 1 < CONTROL_REQUESTS && out != []
    then Exchange(c', k + 1, out[0], ds, o.device, keycodes)
    else (c', o.device)
  }

  predicate PassesFrom(k: nat, cs: DescriptorSet, ds: DescriptorSet) {
    forall j :: k <= j < CONTROL_REQUESTS ==> Passes(j, cs, ds)
  }

  lemma PassesInTurn(k: nat, cs: DescriptorSet, ds: DescriptorSet)
    requires k < CONTROL_REQUESTS
    ensures PassesFrom(k, cs, ds) <==> Passes(k, cs, ds) && (k == 4 || PassesFrom(k + 1, cs, ds))
    ensures k == 1 && Passes(k, cs, ds) ==> Report(cs).Ok?
  {
    assert k == 1 && Passes(k, cs, ds) ==> Report(cs).Ok?;
    hide Passes;
    if Passes(k, cs, ds) && (k == 4 || PassesFrom(k + 1, cs, ds)) {
      forall j | k <= j < CONTROL_REQUESTS
        ensures Passes(j, cs, ds)
      {
        assert j == k || k + 1 <= j;
      }
    }
  }

  lemma ExchangeStep(c: ClientState, k: nat, cs: DescriptorSet, ds: DescriptorSet, dev: DeviceState, keycodes: seq<u8>)
    requires k < CONTROL_REQUESTS && c.stage == AwaitControl(k) && c.descriptors == Some(cs)
    requires SetEncodable(ds) && ReportFits(cs) && (k == 2 ==> Report(cs).Ok?)
    ensures var r := Exchange(c, k, ControlRequest(FIRST_CONTROL_ID + k, Request(k, cs)), ds, dev, keycodes);
            if !Passes(k, cs, ds) then r.0.stage == Ended(false)
            else if k == 4 then r == (c.(stage := Data), DeviceAfter(k, dev))
            else r == Exchange(c.(stage := AwaitControl(k + 1)), k + 1,
                               ControlRequest(FIRST_CONTROL_ID + k + 1, Request(k + 1, cs)),
                               ds, DeviceAfter(k, dev), keycodes)
  {
    RequestExchanged(c, k, cs, ds, dev, keycodes);
    hide HandleControl, ReceiveControl, ControlRequest, Request, SetEncodable, Passes, Report;
  }

  lemma {:induction false} ExchangeEnds(c: ClientState, k: nat, cs: DescriptorSet, ds: DescriptorSet, dev: DeviceState,
                                        keycodes: seq<u8>)
    requires k < CONTROL_REQUESTS && c.stage == AwaitControl(k) && c.descriptors == Some(cs)
    requires SetEncodable(ds) && ReportFits(cs) && (k == 2 ==> Report(cs).Ok?)
    ensures var r := Exchange(c, k, ControlRequest(FIRST_CONTROL_ID + k, Request(k, cs)), ds, dev, keycodes);
            && (r.0.stage == Data <==> PassesFrom(k, cs, ds))
            && (r.0.stage == Data ==> r.1 == DeviceState(if k <= 3 then 1 else dev.address, 1))
    decreases CONTROL_REQUESTS - k
  {
    hide Exchange, ControlRequest, Request, SetEncodable, Passes, PassesFrom, Report, ReportFits;
    ExchangeStep(c, k, cs, ds, dev, keycodes);
    PassesInTurn(k, cs, ds);
    if k < 4 && Passes(k, cs, ds) {
      ExchangeEnds(c.(stage := AwaitControl(k + 1)), k + 1, cs, ds, DeviceAfter(k, dev), keycodes);
    }
  }

  // ---- from the attach request on

  // The daemon answers the attach request, the client decodes what was announced and enumerates.
  ghost function Handshake(cfg: D.Config, dev: DeviceState): (ClientState, DeviceState)
    requires D.ConfigOk(cfg)
  {
    var attach := LifecycleRequest(ATTACH_ID, AttachRequest);
    var (c, out) := ReceiveLifecycle(START, D.AttachReply(cfg, attach, 0));
    if out == [] then (c, dev) else Exchange(c, 0, out[0], cfg.descriptors, dev, cfg.keycodes)
  }

  // The device has a configuration 1 and a report descriptor for interface 0, and the first such
  // report the client was announced is the device's own, or the start of it.
  ghost predicate CanEnumerate(ds: DescriptorSet) {
    && SetEncodable(ds) && ds.configurations != [] && Supported(Some(ds), 1)
    && DecodeSet(SetBytes(ds)).Ok?
    && var cs := DecodeSet(SetBytes(ds)).value;
    Report(cs).Ok? && Report(ds).Ok? && Report(cs).value <= Report(ds).value
  }

  lemma AnnouncedSet(cfg: D.Config)
    requires D.ConfigOk(cfg)
    ensures var ds := cfg.descriptors;
            var (c, out) := ReceiveLifecycle(START, D.AttachReply(cfg, LifecycleRequest(ATTACH_ID, AttachRequest), 0));
            if SetEncodable(ds) && DecodeSet(SetBytes(ds)).Ok? then
              var cs := DecodeSet(SetBytes(ds)).value;
              && c == START.(stage := AwaitControl(0), descriptors := Some(cs))
              && out == [ControlRequest(FIRST_CONTROL_ID, Request(0, cs))]
            else c.stage == Ended(false) && out == []
  {
    var ds := cfg.descriptors;
    if SetEncodable(ds) {
      assert SetBytes(ds)[0] == SET_MAGIC[0];
    }
    hide SetBytes, DecodeSet, SetEncodable, ReportDescriptorBytes;
  }

  lemma PassesAll(cs: DescriptorSet, ds: DescriptorSet)
    ensures PassesFrom(0, cs, ds) <==>
              && ds.configurations != [] && Supported(Some(ds), 1)
              && Report(cs).Ok? && Report(ds).Ok? && Report(cs).value <= Report(ds).value
  {
    hide Supported, Report;
    assert PassesFrom(0, cs, ds) ==> Passes(1, cs, ds) && Passes(2, cs, ds) && Passes(4, cs, ds);
  }

  // The handshake ends in the data phase, with address and configuration 1, exactly on those sets.
  lemma HandshakeExchanges(cfg: D.Config, dev: DeviceState)
    requires D.ConfigOk(cfg)
    ensures var ds := cfg.descriptors;
            if SetEncodable(ds) && DecodeSet(SetBytes(ds)).Ok? then
              var cs := DecodeSet(SetBytes(ds)).value;
              Handshake(cfg, dev) == Exchange(START.(stage := AwaitControl(0), descriptors := Some(cs)), 0,
                                              ControlRequest(FIRST_CONTROL_ID, Request(0, cs)), ds, dev, cfg.keycodes)
            else Handshake(cfg, dev).0.stage == Ended(false)
  {
    hide Exchange, ReceiveLifecycle, SetBytes, DecodeSet, SetEncodable, D.AttachReply;
    AnnouncedSet(cfg);
  }

  lemma HandshakeReachesData(cfg: D.Config, dev: DeviceState)
    requires D.ConfigOk(cfg)
    ensures Handshake(cfg, dev).0.stage == Data <==> CanEnumerate(cfg.descriptors)
    ensures Handshake(cfg, dev).0.stage == Data ==> Handshake(cfg, dev).1 == DeviceState(1, 1)
  {
    hide Handshake, Exchange, SetBytes, DecodeSet, SetEncodable, PassesFrom, Supported, Report, ReportFits;
    var ds := cfg.descriptors;
    HandshakeExchanges(cfg, dev);
    if SetEncodable(ds) && DecodeSet(SetBytes(ds)).Ok? {
      var cs := DecodeSet(SetBytes(ds)).value;
      DecodedReportFits(SetBytes(ds));
      ExchangeEnds(START.(stage := AwaitControl(0), descriptors := Some(cs)), 0, cs, ds, dev, cfg.keycodes);
      PassesAll(cs, ds);
    }
  }

  // For a set that decoding gives back, the condition is on the set alone.
  predicate Enumerable(ds: DescriptorSet) {
    ds.configurations != [] && Supported(Some(ds), 1) && Report(ds).Ok?
  }

  lemma FaithfulSetEnumerates(cfg: D.Config, dev: DeviceState)
    requires D.ConfigOk(cfg) && SetEncodable(cfg.descriptors) && Faithful(cfg.descriptors.configurations)
    ensures Handshake(cfg, dev).0.stage == Data <==> Enumerable(cfg.descriptors)
  {
    FaithfulRoundTrip(cfg.descriptors);
    HandshakeReachesData(cfg, dev);
    hide Handshake, SetBytes, DecodeSet, SetEncodable;
  }
}

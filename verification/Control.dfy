// protocol/src/lib.rs: USB control transfers and the descriptors they can ask for.

module ControlTransfers {
  import opened Bytes
  import opened Descriptors
  import opened Wrappers
  import opened FrameCodec

  const SETUP_LEN := 8
  const REQ_SET_ADDRESS: u8 := 0x05
  const REQ_GET_DESCRIPTOR: u8 := 0x06
  const REQ_SET_CONFIGURATION: u8 := 0x09

  datatype Setup = Setup(requestType: u8, request: u8, value: u16, index: u16, length: u16)

  datatype ControlTransfer = ControlTransfer(setup: Setup, data: seq<u8>)

  datatype StandardRequest = SetAddress | GetDescriptor | SetConfiguration

  datatype DescriptorType = DeviceType | ConfigurationType | StringType | InterfaceType | EndpointType | ReportType

  function DescriptorCode(t: DescriptorType): u8 {
    match t
    case DeviceType => 0x01
    case ConfigurationType => 0x02
    case StringType => 0x03
    case InterfaceType => 0x04
    case EndpointType => 0x05
    case ReportType => 0x22
  }

  function RequestOf(setup: Setup): ProtocolResult<StandardRequest> {
    if setup.request == REQ_SET_ADDRESS then Ok(SetAddress)
    else if setup.request == REQ_GET_DESCRIPTOR then Ok(GetDescriptor)
    else if setup.request == REQ_SET_CONFIGURATION then Ok(SetConfiguration)
    else Err(InvalidControlTransfer)
  }

  function DescriptorTypeOf(setup: Setup): ProtocolResult<DescriptorType> {
    var code := setup.value / 0x100;
    if code == 0x01 then Ok(DeviceType)
    else if code == 0x02 then Ok(ConfigurationType)
    else if code == 0x03 then Ok(StringType)
    else if code == 0x04 then Ok(InterfaceType)
    else if code == 0x05 then Ok(EndpointType)
    else if code == 0x22 then Ok(ReportType)
    else Err(InvalidControlTransfer)
  }

  function LowByte(n: u16): u8 {
    n % 0x100
  }

  function DirectionOfSetup(setup: Setup): Direction {
    if setup.requestType >= 0x80 then DeviceToHost else HostToDevice
  }

  // ---- the requests a host builds

  function GetDescriptorSetup(t: DescriptorType, index: u8, length: u16): Setup {
    Setup(0x80, REQ_GET_DESCRIPTOR, (DescriptorCode(t) as int) * 0x100 + index, 0, length)
  }

  function GetInterfaceDescriptorSetup(t: DescriptorType, index: u8, interfaceNumber: u8, length: u16): Setup {
    Setup(0x81, REQ_GET_DESCRIPTOR, (DescriptorCode(t) as int) * 0x100 + index, interfaceNumber, length)
  }

  function SetAddressSetup(address: u8): Setup {
    Setup(0, REQ_SET_ADDRESS, address, 0, 0)
  }

  function SetConfigurationSetup(configuration: u8): Setup {
    Setup(0, REQ_SET_CONFIGURATION, configuration, 0, 0)
  }

  function ControlRequest(requestId: u64, setup: Setup): Frame {
    Frame(requestId, Request, DirectionOfSetup(setup), Control, 0, 0, EncodeTransfer(ControlTransfer(setup, [])))
  }

  // ---- wire format

  function EncodeSetup(s: Setup): (b: seq<u8>)
    ensures |b| == SETUP_LEN
  {
    [s.requestType, s.request] + ToLe16(s.value) + ToLe16(s.index) + ToLe16(s.length)
  }

  function DecodeSetup(b: seq<u8>): ProtocolResult<Setup> {
    if |b| != SETUP_LEN then Err(InvalidControlTransfer)
    else Ok(Setup(b[0], b[1], ReadLe16(b, 2), ReadLe16(b, 4), ReadLe16(b, 6)))
  }

  function EncodeTransfer(t: ControlTransfer): (b: seq<u8>)
    ensures |b| == SETUP_LEN + |t.data|
  {
    EncodeSetup(t.setup) + t.data
  }

  function DecodeTransfer(b: seq<u8>): ProtocolResult<ControlTransfer> {
    if |b| < SETUP_LEN then Err(InvalidControlTransfer)
    else
      var setup :- DecodeSetup(b[..SETUP_LEN]);
      Ok(ControlTransfer(setup, b[SETUP_LEN..]))
  }

  lemma TransferRoundTrip(t: ControlTransfer)
    ensures DecodeTransfer(EncodeTransfer(t)) == Ok(t)
  {
    var b := EncodeTransfer(t);
    var s := b[..SETUP_LEN];
    assert s == EncodeSetup(t.setup) && b[SETUP_LEN..] == t.data;
    assert s[2..4] == ToLe16(t.setup.value) && s[4..6] == ToLe16(t.setup.index) && s[6..8] == ToLe16(t.setup.length);
  }

  lemma DecodedTransferReencodes(b: seq<u8>)
    requires |b| >= SETUP_LEN
    ensures DecodeTransfer(b).Ok? && EncodeTransfer(DecodeTransfer(b).value) == b
  {
    var s := b[..SETUP_LEN];
    Le16Inverse(s[2..4]);
    Le16Inverse(s[4..6]);
    Le16Inverse(s[6..8]);
    assert s == [s[0], s[1]] + s[2..4] + s[4..6] + s[6..8];
    assert b == s + b[SETUP_LEN..];
  }

  // A request for data from the device has the top bit of its type set, and travels that way.
  lemma ControlRequestCarries(requestId: u64, setup: Setup)
    ensures var f := ControlRequest(requestId, setup);
            && f == Frame(requestId, Request, if setup.requestType / 128 == 1 then DeviceToHost else HostToDevice,
                          Control, 0, 0, f.payload)
            && DecodeTransfer(f.payload) == Ok(ControlTransfer(setup, []))
  {
    TransferRoundTrip(ControlTransfer(setup, []));
  }

  // ---- the raw descriptors of a set

  function DeviceDescriptorBytes(ds: DescriptorSet): ProtocolResult<seq<u8>> {
    if |ds.configurations| > 255 then Err(InvalidDescriptorSet)
    else Ok(DeviceBytes(ds.device, |ds.configurations|))
  }

  function ConfigurationDescriptorBytes(ds: DescriptorSet, index: u8): ProtocolResult<seq<u8>> {
    if index >= |ds.configurations| then Err(InvalidDescriptorSet)
    else EncodeConfiguration(ds.configurations[index])
  }

  // The position of the first interface with a number, or their count.
  function FirstNumbered(interfaces: seq<Interface>, number: u8): (i: nat)
    ensures i <= |interfaces|
    ensures i < |interfaces| ==> interfaces[i].descriptor.interfaceNumber == number
    ensures forall j :: 0 <= j < i ==> interfaces[j].descriptor.interfaceNumber != number
  {
    if interfaces == [] || interfaces[0].descriptor.interfaceNumber == number then 0
    else 1 + FirstNumbered(interfaces[1..], number)
  }

  function ReportDescriptorBytes(ds: DescriptorSet, config: u8, number: u8, index: u8): ProtocolResult<seq<u8>> {
    if index != 0 || config >= |ds.configurations| then Err(InvalidDescriptorSet)
    else
      var interfaces := ds.configurations[config].interfaces;
      var i := FirstNumbered(interfaces, number);
      if i == |interfaces| || interfaces[i].report.None? then Err(InvalidDescriptorSet)
      else Ok(interfaces[i].report.value)
  }

  // There is a report descriptor only at index zero: that of the first interface with the number.
  lemma ReportDescriptorIs(ds: DescriptorSet, config: u8, number: u8, index: u8, report: seq<u8>)
    ensures ReportDescriptorBytes(ds, config, number, index) == Ok(report)
       <==> && index == 0 && config < |ds.configurations|
            && var interfaces := ds.configurations[config].interfaces;
            exists i :: && 0 <= i < |interfaces| && interfaces[i].descriptor.interfaceNumber == number
                        && interfaces[i].report == Some(report)
                        && forall j :: 0 <= j < i ==> interfaces[j].descriptor.interfaceNumber != number
  {
    if index == 0 && config < |ds.configurations| {
      var i := FirstNumbered(ds.configurations[config].interfaces, number);
      assert i < |ds.configurations[config].interfaces| ==>
          ds.configurations[config].interfaces[i].descriptor.interfaceNumber == number;
    }
  }
}

// protocol/src/lib.rs: the boot keyboard's input report.

module KeyboardReports {
  import opened Bytes
  import opened Wrappers

  const REPORT_LEN := 8

  type Keys = s: seq<u8> | |s| == 6 witness [0, 0, 0, 0, 0, 0]

  datatype KeyboardReport = KeyboardReport(modifiers: u8, reserved: u8, keycodes: Keys)

  const NO_KEY := KeyboardReport(0, 0, [0, 0, 0, 0, 0, 0])

  function KeyPress(keycode: u8): KeyboardReport {
    NO_KEY.(keycodes := NO_KEY.keycodes[0 := keycode])
  }

  function EncodeReport(r: KeyboardReport): (b: seq<u8>)
    ensures |b| == REPORT_LEN
  {
    [r.modifiers, r.reserved] + r.keycodes
  }

  function DecodeReport(b: seq<u8>): ProtocolResult<KeyboardReport> {
    if |b| != REPORT_LEN then Err(InvalidHidReport) else Ok(KeyboardReport(b[0], b[1], b[2..]))
  }

  // Eight bytes are a report and a report is eight bytes: modifiers, a reserved byte, six keys.
  lemma ReportRoundTrip(r: KeyboardReport, b: seq<u8>)
    ensures EncodeReport(r) == b <==> DecodeReport(b) == Ok(r)
    ensures DecodeReport(b).Ok? <==> |b| == 8
    ensures forall m: u8, x: u8, k0: u8, k1: u8, k2: u8, k3: u8, k4: u8, k5: u8 ::
              EncodeReport(KeyboardReport(m, x, [k0, k1, k2, k3, k4, k5])) == [m, x, k0, k1, k2, k3, k4, k5]
  {
    assert EncodeReport(r)[2..] == r.keycodes;
    if |b| == 8 {
      assert b == [b[0], b[1]] + b[2..];
    }
  }
}

// daemon/src/session.rs: the control endpoint of the mock device.

module ControlEndpoint {
  import opened Bytes
  import opened ControlTransfers
  import opened DescriptorCanonical
  import opened DescriptorDecode
  import opened DescriptorRoundTrip
  import opened Descriptors
  import opened FrameCodec
  import opened KeyboardReports
  import opened Wrappers

  datatype DeviceState = DeviceState(address: u8, configuration: u8)

  datatype Reply = Reply(status: TransferStatus, data: seq<u8>)

  // ---- what a request is answered, what it changes, what events it causes

  function Truncate(bytes: seq<u8>, len: nat): seq<u8> {
    if |bytes| > len then bytes[..len] else bytes
  }

  function DescriptorFor(ds: DescriptorSet, t: DescriptorType, setup: Setup): ProtocolResult<seq<u8>>
    requires t.DeviceType? || t.ConfigurationType? || t.ReportType?
  {
    if t.DeviceType? then DeviceDescriptorBytes(ds)
    else if t.ConfigurationType? then ConfigurationDescriptorBytes(ds, LowByte(setup.value))
    else ReportDescriptorBytes(ds, 0, LowByte(setup.index), LowByte(setup.value))
  }

  function AnswerGetDescriptor(setup: Setup, descriptors: Option<DescriptorSet>): Reply {
    match DescriptorTypeOf(setup)
    case Err(_) => Reply(Stall, [])
    case Ok(t) =>
      if descriptors.None? then Reply(Failed, [])
      else if t.StringType? || t.InterfaceType? || t.EndpointType? then Reply(Stall, [])
      else
        match DescriptorFor(descriptors.value, t, setup)
        case Err(_) => Reply(Stall, [])
        case Ok(bytes) => Reply(Success, Truncate(bytes, setup.length))
  }

  predicate AddressAccepted(setup: Setup) {
    setup.value <= 127 && setup.length == 0
  }

  predicate Supported(descriptors: Option<DescriptorSet>, configuration: u8) {
    || configuration == 0
    || (descriptors.Some?
        && exists i :: 0 <= i < |descriptors.value.configurations|
                       && descriptors.value.configurations[i].descriptor.configurationValue == configuration)
  }

  predicate ConfigurationAccepted(setup: Setup, descriptors: Option<DescriptorSet>) {
    setup.value <= 255 && setup.length == 0 && Supported(descriptors, setup.value)
  }

  function Answer(setup: Setup, descriptors: Option<DescriptorSet>): Reply {
    match RequestOf(setup)
    case Err(_) => Reply(Stall, [])
    case Ok(GetDescriptor) => AnswerGetDescriptor(setup, descriptors)
    case Ok(SetAddress) => Reply(if AddressAccepted(setup) then Success else Stall, [])
    case Ok(SetConfiguration) => Reply(if ConfigurationAccepted(setup, descriptors) then Success else Stall, [])
  }

  function After(setup: Setup, descriptors: Option<DescriptorSet>, dev: DeviceState): DeviceState {
    if RequestOf(setup) == Ok(SetAddress) && AddressAccepted(setup) then dev.(address := setup.value)
    else if RequestOf(setup) == Ok(SetConfiguration) && ConfigurationAccepted(setup, descriptors)
    then dev.(configuration := setup.value)
    else dev
  }

  function Events(setup: Setup, descriptors: Option<DescriptorSet>, keycodes: seq<u8>): seq<Frame> {
    if RequestOf(setup) == Ok(SetConfiguration) && ConfigurationAccepted(setup, descriptors) && setup.value != 0
    then KeyboardEvents(keycodes) else []
  }

  function KeyboardInputEvent(requestId: u64, report: KeyboardReport): Frame {
    Frame(requestId, Event, DeviceToHost, Interrupt, 0x81, 0, EncodeReport(report))
  }

  // A press and a release for each key.
  function KeyboardEvents(keycodes: seq<u8>): (events: seq<Frame>)
    ensures |events| == 2 * |keycodes|
  {
    seq(2 * |keycodes|,
        i requires 0 <= i < 2 * |keycodes| =>
          KeyboardInputEvent(0, if i % 2 == 0 then KeyPress(keycodes[i / 2]) else NO_KEY))
  }

  // The frame that answers a request: a well-formed control payload comes back with the same setup.
  function ControlResponse(f: Frame, reply: Reply): Frame {
    Frame(f.requestId, Response, f.direction, Control, 0, StatusCode(reply.status),
          match DecodeTransfer(f.payload)
          case Ok(control) => EncodeTransfer(ControlTransfer(control.setup, reply.data))
          case Err(_) => reply.data)
  }

  datatype ControlOutcome = ControlOutcome(response: Frame, events: seq<Frame>, device: DeviceState)

  function HandleControl(f: Frame, descriptors: Option<DescriptorSet>, dev: DeviceState, keycodes: seq<u8>)
    : ControlOutcome
  {
    match DecodeTransfer(f.payload)
    case Err(_) => ControlOutcome(ControlResponse(f, Reply(Failed, [])), [], dev)
    case Ok(control) =>
      ControlOutcome(ControlResponse(f, Answer(control.setup, descriptors)),
                     Events(control.setup, descriptors, keycodes),
                     After(control.setup, descriptors, dev))
  }

  // ---- the handler as written

  method MockKeyboardEvents(keycodes: seq<u8>) returns (events: seq<Frame>)
    ensures events == KeyboardEvents(keycodes)
  {
    events := [];
    for k := 0 to |keycodes|
      invariant events == KeyboardEvents(keycodes)[..2 * k]
    {
      ghost var all := KeyboardEvents(keycodes);
      events := events + [KeyboardInputEvent(0, KeyPress(keycodes[k]))];
      events := events + [KeyboardInputEvent(0, NO_KEY)];
      assert all[..2 * (k + 1)] == all[..2 * k] + [all[2 * k]] + [all[2 * k + 1]];
    }
  }

  class Device {
    var assignedAddress: u8
    var activeConfiguration: u8

    constructor ()
      ensures View() == DeviceState(0, 0)
    {
      assignedAddress, activeConfiguration := 0, 0;
    }

    ghost function View(): DeviceState
      reads this
    {
      DeviceState(assignedAddress, activeConfiguration)
    }

    method HandleControlRequest(f: Frame, descriptors: Option<DescriptorSet>, keycodes: seq<u8>)
      returns (response: Frame, events: seq<Frame>)
      modifies this
      ensures ControlOutcome(response, events, View()) == HandleControl(f, descriptors, old(View()), keycodes)
    {
      events := [];
      var control := DecodeTransfer(f.payload);
      if control.Err? {
        return ControlResponse(f, Reply(Failed, [])), [];
      }
      var setup := control.value.setup;
      var request := RequestOf(setup);
      if request == Ok(GetDescriptor) {
        var reply := ReadDescriptor(setup, descriptors);
        return ControlResponse(f, reply), [];
      } else if request == Ok(SetAddress) {
        var address := LowByte(setup.value);
        if setup.value > 127 || setup.length != 0 {
          return ControlResponse(f, Reply(Stall, [])), [];
        }
        assignedAddress := address;
        return ControlResponse(f, Reply(Success, [])), [];
      } else if request == Ok(SetConfiguration) {
        var reply;
        reply, events := ChooseConfiguration(setup, descriptors, keycodes);
        return ControlResponse(f, reply), events;
      } else {
        return ControlResponse(f, Reply(Stall, [])), [];
      }
    }

    method ChooseConfiguration(setup: Setup, descriptors: Option<DescriptorSet>, keycodes: seq<u8>)
      returns (reply: Reply, events: seq<Frame>)
      modifies this
      ensures var accepted := ConfigurationAccepted(setup, descriptors);
              && reply == Reply(if accepted then Success else Stall, [])
              && events == (if accepted && setup.value != 0 then KeyboardEvents(keycodes) else [])
              && View() == if accepted then old(View()).(configuration := setup.value) else old(View())
    {
      var configuration := LowByte(setup.value);
      var supported := configuration == 0;
      if !supported && descriptors.Some? {
        supported := HasConfiguration(descriptors.value, configuration);
      }
      if setup.value > 255 || setup.length != 0 || !supported {
        return Reply(Stall, []), [];
      }
      activeConfiguration := configuration;
      events := [];
      if configuration != 0 {
        events := MockKeyboardEvents(keycodes);
      }
      return Reply(Success, []), events;
    }

    static method ReadDescriptor(setup: Setup, descriptors: Option<DescriptorSet>) returns (reply: Reply)
      ensures reply == AnswerGetDescriptor(setup, descriptors)
    {
      var t := DescriptorTypeOf(setup);
      if t.Err? {
        return Reply(Stall, []);
      }
      if descriptors.None? {
        return Reply(Failed, []);
      }
      var bytes: ProtocolResult<seq<u8>>;
      match t.value {
        case DeviceType => bytes := DeviceDescriptorBytes(descriptors.value);
        case ConfigurationType => bytes := ConfigurationDescriptorBytes(descriptors.value, LowByte(setup.value));
        case ReportType =>
          bytes := ReportDescriptorBytes(descriptors.value, 0, LowByte(setup.index), LowByte(setup.value));
        case _ => return Reply(Stall, []);
      }
      if bytes.Err? {
        return Reply(Stall, []);
      }
      return Reply(Success, Truncate(bytes.value, setup.length));
    }

    static method HasConfiguration(ds: DescriptorSet, configuration: u8) returns (found: bool)
      ensures found <==> exists i :: 0 <= i < |ds.configurations|
                                     && ds.configurations[i].descriptor.configurationValue == configuration
    {
      for i := 0 to |ds.configurations|
        invariant forall j :: 0 <= j < i ==> ds.configurations[j].descriptor.configurationValue != configuration
      {
        if ds.configurations[i].descriptor.configurationValue == configuration {
          return true;
        }
      }
      return false;
    }
  }

  // ---- every response

  // Carries the request's id, direction and setup with the answer's status and data, and always
  // fits a frame.
  lemma ResponseMatchesRequest(f: Frame, descriptors: Option<DescriptorSet>, dev: DeviceState, keycodes: seq<u8>)
    ensures var r := HandleControl(f, descriptors, dev, keycodes).response;
            && Encodable(r)
            && r == Frame(f.requestId, Response, f.direction, Control, 0, r.status, r.payload)
            && (|f.payload| >= SETUP_LEN ==>
                  && DecodeTransfer(f.payload).Ok?
                  && var setup := DecodeTransfer(f.payload).value.setup;
                  && r.status == StatusCode(Answer(setup, descriptors).status)
                  && DecodeTransfer(r.payload) == Ok(ControlTransfer(setup, Answer(setup, descriptors).data)))
            && (|f.payload| < SETUP_LEN ==> r.status == StatusCode(Failed) && r.payload == [])
  {
    if |f.payload| >= SETUP_LEN {
      DecodedTransferReencodes(f.payload);
      var setup := DecodeTransfer(f.payload).value.setup;
      TransferRoundTrip(ControlTransfer(setup, Answer(setup, descriptors).data));
      ReplyIsShort(setup, descriptors);
    }
  }

  lemma ReplyIsShort(setup: Setup, descriptors: Option<DescriptorSet>)
    ensures |Answer(setup, descriptors).data| <= setup.length
    ensures Answer(setup, descriptors).status != Success ==> Answer(setup, descriptors).data == []
  {
    if RequestOf(setup) == Ok(GetDescriptor) && descriptors.Some? && DescriptorTypeOf(setup).Ok? {
      assert |AnswerGetDescriptor(setup, descriptors).data| <= setup.length;
    }
  }

  // ---- GET_DESCRIPTOR: the first min(wLength, total) bytes of the descriptor

  lemma ReadsPrefix(ds: DescriptorSet, t: DescriptorType, setup: Setup)
    requires RequestOf(setup) == Ok(GetDescriptor) && DescriptorTypeOf(setup) == Ok(t)
    requires t.DeviceType? || t.ConfigurationType? || t.ReportType?
    requires DescriptorFor(ds, t, setup).Ok?
    ensures var all, reply := DescriptorFor(ds, t, setup).value, Answer(setup, Some(ds));
            && reply.status == Success
            && reply.data <= all
            && |reply.data| == if setup.length < |all| then setup.length else |all|
  {
    var all := DescriptorFor(ds, t, setup).value;
    assert all <= all;
  }

  // What a GET_DESCRIPTOR asks for, by the number in the high byte of wValue: the device, the
  // configuration with the index in its low byte, or the report of the first interface that has the
  // number in the low byte of wIndex.
  function Asked(ds: DescriptorSet, setup: Setup): Option<seq<u8>> {
    var code, index := setup.value / 0x100, setup.value % 0x100;
    if code == 1 then if |ds.configurations| <= 255 then Some(DeviceBytes(ds.device, |ds.configurations|)) else None
    else if code == 2 then
      if index < |ds.configurations| && ConfigurationEncodable(ds.configurations[index])
      then Some(ConfigurationBytes(ds.configurations[index])) else None
    else if code != 0x22 || index != 0 || ds.configurations == [] then None
    else
      var interfaces := ds.configurations[0].interfaces;
      var i := FirstNumbered(interfaces, setup.index % 0x100);
      if i < |interfaces| then interfaces[i].report else None
  }

  // Every request that the device answers, and how: reading what is asked for, an address below 128,
  // a configuration it has; without descriptors a known type of them fails; all else stalls.
  lemma RequestsAreDecided(setup: Setup, descriptors: Option<DescriptorSet>)
    ensures var reply := Answer(setup, descriptors);
            var code, asked := setup.value / 0x100, if descriptors.Some? then Asked(descriptors.value, setup) else None;
            && (reply.status == Success
                <==> || (setup.request == 5 && setup.value < 128 && setup.length == 0)
                     || (setup.request == 9 && setup.value < 256 && setup.length == 0
                         && Supported(descriptors, setup.value))
                     || (setup.request == 6 && asked.Some?))
            && (reply.status == Failed
                <==> setup.request == 6 && descriptors.None? && (1 <= code <= 5 || code == 0x22))
            && (reply.status == Success || reply.status == Failed || reply.status == Stall)
            && reply.data == if setup.request == 6 && asked.Some? then Truncate(asked.value, setup.length) else []
  {
    hide DeviceBytes, ConfigurationBytes, ConfigurationEncodable;
  }

  // The usual two reads of a configuration: its first nine bytes announce the total length, a
  // read of that length returns the whole, and parsing it back gives the configuration (without
  // its report descriptors) exactly when no extra descriptor looks like an interface or endpoint.
  lemma TwoStageRead(ds: DescriptorSet, index: u8)
    requires index < |ds.configurations| && ConfigurationEncodable(ds.configurations[index])
    ensures var c := ds.configurations[index];
            var first := Answer(GetDescriptorSetup(ConfigurationType, index, 9), Some(ds));
            && first.status == Success && |first.data| == 9
            && ReadLe16(first.data, 2) == |ConfigurationBytes(c)|
            && var second := Answer(GetDescriptorSetup(ConfigurationType, index, ReadLe16(first.data, 2)), Some(ds));
            && second == Reply(Success, ConfigurationBytes(c))
            && (DecodeConfiguration(second.data) == Ok((StripConfiguration(c), [])) <==> PlainConfiguration(c))
  {
    hide DecodeConfiguration, PlainConfiguration, Body, StripConfiguration;
    var c := ds.configurations[index];
    var all := ConfigurationBytes(c);
    assert |all| == 9 + |Body(c)|;
    var setup := GetDescriptorSetup(ConfigurationType, index, 9);
    assert DescriptorTypeOf(setup) == Ok(ConfigurationType) && LowByte(setup.value) == index;
    assert all[..9][2..4] == ToLe16(|all|);
    var again := GetDescriptorSetup(ConfigurationType, index, |all|);
    assert DescriptorTypeOf(again) == Ok(ConfigurationType) && LowByte(again.value) == index;
    ParsedBackExactly(c);
  }

  lemma ParsedBackExactly(c: Configuration)
    requires ConfigurationEncodable(c)
    ensures DecodeConfiguration(ConfigurationBytes(c)) == Ok((StripConfiguration(c), [])) <==> PlainConfiguration(c)
  {
    var all := ConfigurationBytes(c);
    if DecodeConfiguration(all) == Ok((StripConfiguration(c), [])) {
      DecodedConfiguration(all);
      forall k | 0 <= k < |c.interfaces|
        ensures AllPlain(c.interfaces[k].extras)
      {
        assert GoodInterface(Strip(c.interfaces)[k]);
      }
    }
    if PlainConfiguration(c) {
      ConfigurationRoundTrip(c, []);
      assert all + [] == all;
    }
  }

  // ---- address and configuration over any run

  predicate DeviceOk(dev: DeviceState, descriptors: Option<DescriptorSet>) {
    dev.address <= 127 && Supported(descriptors, dev.configuration)
  }

  lemma SupportedAfterAttach(dev: DeviceState, ds: DescriptorSet)
    requires DeviceOk(dev, None)
    ensures DeviceOk(dev, Some(ds))
  {
    assert dev.configuration == 0;
  }

  function ControlRun(fs: seq<Frame>, descriptors: Option<DescriptorSet>, dev: DeviceState, keycodes: seq<u8>)
    : (seq<Frame>, seq<Frame>, DeviceState)
    decreases |fs|
  {
    if fs == [] then ([], [], dev)
    else
      var o := HandleControl(fs[0], descriptors, dev, keycodes);
      var (responses, events, last) := ControlRun(fs[1..], descriptors, o.device, keycodes);
      ([o.response] + responses, o.events + events, last)
  }

  lemma HandleControlKeepsDevice(f: Frame, descriptors: Option<DescriptorSet>, dev: DeviceState, keycodes: seq<u8>)
    requires DeviceOk(dev, descriptors)
    ensures DeviceOk(HandleControl(f, descriptors, dev, keycodes).device, descriptors)
  {
    if DecodeTransfer(f.payload).Ok? {
      var setup := DecodeTransfer(f.payload).value.setup;
      assert ConfigurationAccepted(setup, descriptors) ==> Supported(descriptors, setup.value);
    }
  }

  lemma {:induction false} RunKeepsDevice(fs: seq<Frame>, descriptors: Option<DescriptorSet>, dev: DeviceState,
          keycodes: seq<u8>)
    requires DeviceOk(dev, descriptors)
    ensures var (responses, events, last) := ControlRun(fs, descriptors, dev, keycodes);
            && |responses| == |fs|
            && DeviceOk(last, descriptors)
            && (forall i :: 0 <= i < |fs| ==> responses[i].requestId == fs[i].requestId && Encodable(responses[i]))
    decreases |fs|
  {
    if fs != [] {
      var o := HandleControl(fs[0], descriptors, dev, keycodes);
      HandleControlKeepsDevice(fs[0], descriptors, dev, keycodes);
      ResponseMatchesRequest(fs[0], descriptors, dev, keycodes);
      RunKeepsDevice(fs[1..], descriptors, o.device, keycodes);
      var responses := ControlRun(fs, descriptors, dev, keycodes).0;
      var later := ControlRun(fs[1..], descriptors, o.device, keycodes).0;
      assert forall i :: 0 < i < |fs| ==> responses[i] == later[i - 1] && fs[i] == fs[1..][i - 1];
    }
  }

  // ---- the keys that are typed

  // For each key one report with that key alone, then one with none, as interrupt events on 0x81.
  predicate Types(payloads: seq<seq<u8>>, keycodes: seq<u8>) {
    && |payloads| == 2 * |keycodes|
    && forall k :: 0 <= k < |keycodes| ==>
                     && payloads[2 * k] == [0, 0, keycodes[k], 0, 0, 0, 0, 0]
                     && DecodeReport(payloads[2 * k]) == Ok(KeyboardReport(0, 0, [keycodes[k], 0, 0, 0, 0, 0]))
                     && payloads[2 * k + 1] == [0, 0, 0, 0, 0, 0, 0, 0]
                     && DecodeReport(payloads[2 * k + 1]) == Ok(KeyboardReport(0, 0, [0, 0, 0, 0, 0, 0]))
  }

  function Payloads(events: seq<Frame>): (ps: seq<seq<u8>>)
    ensures |ps| == |events|
  {
    seq(|events|, i requires 0 <= i < |events| => events[i].payload)
  }

  lemma KeyboardTypes(keycodes: seq<u8>)
    ensures Types(Payloads(KeyboardEvents(keycodes)), keycodes)
  {
    var payloads := Payloads(KeyboardEvents(keycodes));
    forall k | 0 <= k < |keycodes|
      ensures payloads[2 * k] == [0, 0, keycodes[k], 0, 0, 0, 0, 0]
      ensures payloads[2 * k + 1] == [0, 0, 0, 0, 0, 0, 0, 0]
    {
      assert payloads[2 * k] == EncodeReport(KeyPress(keycodes[k]));
    }
  }

  // A control request causes events only if it is a SET_CONFIGURATION to a configuration other than
  // zero that the device has; then it types the keys.
  lemma ConfiguringTypesKeys(f: Frame, descriptors: Option<DescriptorSet>, dev: DeviceState, keycodes: seq<u8>)
    ensures var events := HandleControl(f, descriptors, dev, keycodes).events;
            if |f.payload| >= SETUP_LEN
               && var s := DecodeSetup(f.payload[..SETUP_LEN]).value;
                  s.request == 9 && 0 < s.value <= 255 && s.length == 0 && Supported(descriptors, s.value)
            then
              && Types(Payloads(events), keycodes)
              && forall i :: 0 <= i < |events| ==>
                   events[i] == Frame(0, Event, DeviceToHost, Interrupt, 0x81, 0, events[i].payload)
            else events == []
  {
    KeyboardTypes(keycodes);
  }

  // ---- SET_CONFIGURATION with the whole enumeration a host performs

  // A host that sets address and a supported configuration gets exactly those, and one press and
  // one release per key.
  lemma Enumerates(ds: DescriptorSet, dev: DeviceState, address: u8, configuration: u8, keycodes: seq<u8>, id: u64)
    requires address <= 127 && configuration != 0 && Supported(Some(ds), configuration) && id + 1 < TWO_TO_64
    ensures var fs := [ControlRequest(id, SetAddressSetup(address)),
                       ControlRequest(id + 1, SetConfigurationSetup(configuration))];
            var (responses, events, last) := ControlRun(fs, Some(ds), dev, keycodes);
            && last == DeviceState(address, configuration)
            && |responses| == 2 && responses[0].status == responses[1].status == 0
            && events == KeyboardEvents(keycodes) && Types(Payloads(events), keycodes)
  {
    KeyboardTypes(keycodes);
    var a, c := SetAddressSetup(address), SetConfigurationSetup(configuration);
    TransferRoundTrip(ControlTransfer(a, []));
    TransferRoundTrip(ControlTransfer(c, []));
    var fs := [ControlRequest(id, a), ControlRequest(id + 1, c)];
    var o := HandleControl(fs[0], Some(ds), dev, keycodes);
    assert fs[1..] == [fs[1]];
    assert fs[1..][1..] == [];
    var o' := HandleControl(fs[1], Some(ds), o.device, keycodes);
    assert ControlRun(fs[1..], Some(ds), o.device, keycodes) == ([o'.response] + [], o'.events + [], o'.device);
    assert [] + (o'.events + []) == o'.events;
  }
}

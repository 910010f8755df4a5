// protocol/src/lib.rs: decoding descriptor sets, with the stateful parser of a configuration body.

module DescriptorDecode {
  import opened Bytes
  import opened Descriptors
  import opened Wrappers

  // ---- a configuration's body: descriptors in a row, the current interface kept open

  datatype OpenInterface = OpenInterface(
    descriptor: InterfaceDescriptor,
    expectedEndpoints: u8,
    extras: seq<seq<u8>>,
    endpoints: seq<EndpointDescriptor>)

  datatype BodyState = BodyState(
    extras: seq<seq<u8>>,
    interfaces: seq<Interface>,
    current: Option<OpenInterface>)

  function Finish(open: OpenInterface): ProtocolResult<Interface> {
    if |open.endpoints| != open.expectedEndpoints then Err(InvalidDescriptorSet)
    else Ok(Interface(open.descriptor, open.extras, None, open.endpoints))
  }

  // The interfaces so far, once the open one is finished.
  function Close(st: BodyState): ProtocolResult<seq<Interface>> {
    if st.current.None? then Ok(st.interfaces)
    else
      var done :- Finish(st.current.value);
      Ok(st.interfaces + [done])
  }

  function ParseDescriptor(st: BodyState, d: seq<u8>): ProtocolResult<BodyState>
    requires |d| >= 2
  {
    if d[1] == DESC_INTERFACE then
      var interfaces :- Close(st);
      var (descriptor, count) :- InterfaceHeaderOf(d);
      Ok(BodyState(st.extras, interfaces, Some(OpenInterface(descriptor, count, [], []))))
    else if d[1] == DESC_ENDPOINT then
      if st.current.None? then Err(InvalidDescriptorSet)
      else
        var e :- EndpointOf(d);
        Ok(st.(current := Some(st.current.value.(endpoints := st.current.value.endpoints + [e]))))
    else if !ValidExtra(d) then Err(InvalidDescriptorSet)
    else Ok(AddExtra(st, d))
  }

  function AddExtra(st: BodyState, d: seq<u8>): BodyState {
    if st.current.Some? then st.(current := Some(st.current.value.(extras := st.current.value.extras + [d])))
    else st.(extras := st.extras + [d])
  }

  // A descriptor's own length byte must leave room for its header and fit what is left.
  predicate HeaderOk(rest: seq<u8>) {
    |rest| >= 2 && 2 <= rest[0] <= |rest|
  }

  function ParseBody(rest: seq<u8>, st: BodyState): ProtocolResult<BodyState>
    decreases |rest|
  {
    if rest == [] then Ok(st)
    else if !HeaderOk(rest) then Err(InvalidDescriptorSet)
    else
      var st' :- ParseDescriptor(st, rest[..rest[0]]);
      ParseBody(rest[rest[0]..], st')
  }

  const NOTHING_PARSED := BodyState([], [], None)

  // ---- configurations and sidecars; each function returns what it read and the bytes after it

  function DecodeConfiguration(bytes: seq<u8>): ProtocolResult<(Configuration, seq<u8>)> {
    if |bytes| < 9 then Err(InvalidDescriptorSet)
    else
      var (descriptor, totalLength, interfaceCount) :- ConfigurationHeaderOf(bytes[..9]);
      if totalLength < 9 || |bytes| < totalLength then Err(InvalidDescriptorSet)
      else
        var st :- ParseBody(bytes[9..totalLength], NOTHING_PARSED);
        var interfaces :- Close(st);
        if |interfaces| != interfaceCount then Err(InvalidDescriptorSet)
        else Ok((Configuration(descriptor, st.extras, interfaces), bytes[totalLength..]))
  }

  function DecodeConfigurations(bytes: seq<u8>, count: nat, done: seq<Configuration>)
    : ProtocolResult<(seq<Configuration>, seq<u8>)>
    decreases bytes, count
  {
    if count == 0 then Ok((done, bytes))
    else
      var (c, rest) :- DecodeConfiguration(bytes);
      assert |rest| < |bytes|;
      DecodeConfigurations(rest, count - 1, done + [c])
  }

  predicate Addressed(i: Interface, number: u8, alternate: u8) {
    i.descriptor.interfaceNumber == number && i.descriptor.alternateSetting == alternate
  }

  // The first interface with a number and an alternate setting, or their count.
  function FindInterface(interfaces: seq<Interface>, number: u8, alternate: u8): (i: nat)
    ensures i <= |interfaces|
    ensures i < |interfaces| ==> Addressed(interfaces[i], number, alternate)
    ensures forall j :: 0 <= j < i ==> !Addressed(interfaces[j], number, alternate)
  {
    if interfaces == [] then 0
    else if Addressed(interfaces[0], number, alternate) then 0
    else 1 + FindInterface(interfaces[1..], number, alternate)
  }

  function WithReport(c: Configuration, i: nat, report: Option<seq<u8>>): Configuration
    requires i < |c.interfaces|
  {
    c.(interfaces := c.interfaces[i := c.interfaces[i].(report := report)])
  }

  // The report descriptor goes to the first interface with the sidecar's number and alternate
  // setting, over whatever was there.
  function Attach(configurations: seq<Configuration>, s: Sidecar): ProtocolResult<seq<Configuration>> {
    if s.config >= |configurations| then Err(InvalidDescriptorSet)
    else
      var c := configurations[s.config];
      var i := FindInterface(c.interfaces, s.number, s.alternate);
      if i == |c.interfaces| then Err(InvalidDescriptorSet)
      else Ok(configurations[s.config := WithReport(c, i, Some(s.data))])
  }

  function DecodeSidecar(bytes: seq<u8>): ProtocolResult<(Sidecar, seq<u8>)> {
    if |bytes| < 8 then Err(InvalidDescriptorSet)
    else
      var len := ReadLe16(bytes, 6);
      if |bytes| < 8 + len || bytes[3] != DESC_HID_REPORT || bytes[4] != 0 then Err(InvalidDescriptorSet)
      else Ok((Sidecar(bytes[0], bytes[1], bytes[2], bytes[8..8 + len]), bytes[8 + len..]))
  }

  function DecodeSidecars(bytes: seq<u8>, count: nat, configurations: seq<Configuration>)
    : ProtocolResult<(seq<Configuration>, seq<u8>)>
    decreases bytes, count
  {
    if count == 0 then Ok((configurations, bytes))
    else
      var (s, rest) :- DecodeSidecar(bytes);
      assert |rest| < |bytes|;
      var configurations' :- Attach(configurations, s);
      DecodeSidecars(rest, count - 1, configurations')
  }

  function DecodeSet(bytes: seq<u8>): ProtocolResult<DescriptorSet> {
    if |bytes| < 8 + 18 || bytes[..4] != SET_MAGIC || bytes[4] != SET_VERSION then Err(InvalidDescriptorSet)
    else
      var (device, deviceCount) :- DeviceOf(bytes[8..26]);
      if deviceCount != bytes[5] then Err(InvalidDescriptorSet)
      else
        var (configurations, rest) :- DecodeConfigurations(bytes[26..], bytes[5], []);
        var (withReports, rest') :- DecodeSidecars(rest, ReadLe16(bytes, 6), configurations);
        if rest' != [] then Err(InvalidDescriptorSet)
        else Ok(DescriptorSet(device, withReports))
  }

  // ---- the decoders as written: an offset advanced over the buffer

  method Take(bytes: seq<u8>, offset: nat, len: nat) returns (r: ProtocolResult<seq<u8>>, offset': nat)
    requires offset <= |bytes|
    ensures offset <= offset' <= |bytes|
    ensures r == if offset + len <= |bytes| then Ok(bytes[offset..offset + len]) else Err(InvalidDescriptorSet)
    ensures r.Ok? ==> offset' == offset + len
    ensures r.Err? ==> offset' == offset
  {
    var end := offset + len;
    if end > |bytes| {
      return Err(InvalidDescriptorSet), offset;
    }
    return Ok(bytes[offset..end]), end;
  }

  lemma Suffix(bytes: seq<u8>, offset: nat, len: nat)
    requires offset + len <= |bytes|
    ensures bytes[offset..][..len] == bytes[offset..offset + len]
    ensures bytes[offset..][len..] == bytes[offset + len..]
  {
  }

  method ParseBodyLoop(body: seq<u8>) returns (r: ProtocolResult<BodyState>)
    ensures r == ParseBody(body, NOTHING_PARSED)
  {
    var bodyOffset := 0;
    var st := NOTHING_PARSED;
    while bodyOffset < |body|
      invariant 0 <= bodyOffset <= |body|
      invariant ParseBody(body[bodyOffset..], st) == ParseBody(body, NOTHING_PARSED)
      decreases |body| - bodyOffset
    {
      ghost var rest := body[bodyOffset..];
      if bodyOffset + 2 > |body| {
        return Err(InvalidDescriptorSet);
      }
      var len := body[bodyOffset];
      if len < 2 || bodyOffset + len > |body| {
        return Err(InvalidDescriptorSet);
      }
      Suffix(body, bodyOffset, len);
      var d, next := Take(body, bodyOffset, len);
      var parsed := ParseDescriptor(st, d.value);
      if parsed.Err? {
        return Err(parsed.error);
      }
      st := parsed.value;
      bodyOffset := next;
    }
    return Ok(st);
  }

  method DecodeFrom(bytes: seq<u8>, offset: nat) returns (r: ProtocolResult<Configuration>, offset': nat)
    requires offset <= |bytes|
    ensures offset' <= |bytes|
    ensures match DecodeConfiguration(bytes[offset..])
            case Ok((c, rest)) => r == Ok(c) && offset <= offset' && bytes[offset'..] == rest
            case Err(e) => r == Err(e)
  {
    var header, bodyStart := Take(bytes, offset, 9);
    if header.Err? {
      return Err(header.error), offset;
    }
    Suffix(bytes, offset, 9);
    var h := ConfigurationHeaderOf(header.value);
    if h.Err? {
      return Err(h.error), offset;
    }
    var (descriptor, totalLength, interfaceCount) := h.value;
    if totalLength < 9 {
      return Err(InvalidDescriptorSet), offset;
    }
    var body, end := Take(bytes, bodyStart, totalLength - 9);
    if body.Err? {
      return Err(body.error), offset;
    }
    Suffix(bytes, offset, totalLength);
    assert body.value == bytes[offset..][9..totalLength];
    var st := ParseBodyLoop(body.value);
    if st.Err? {
      return Err(st.error), offset;
    }
    var interfaces := Close(st.value);
    if interfaces.Err? {
      return Err(interfaces.error), offset;
    }
    if |interfaces.value| != interfaceCount {
      return Err(InvalidDescriptorSet), offset;
    }
    return Ok(Configuration(descriptor, st.value.extras, interfaces.value)), end;
  }

  method DecodeAllConfigurations(bytes: seq<u8>, offset: nat, count: nat)
    returns (r: ProtocolResult<seq<Configuration>>, offset': nat)
    requires offset <= |bytes|
    ensures offset' <= |bytes|
    ensures match DecodeConfigurations(bytes[offset..], count, [])
            case Ok((cs, rest)) => r == Ok(cs) && bytes[offset'..] == rest
            case Err(e) => r == Err(e)
  {
    hide DecodeConfiguration;
    var configurations := [];
    offset' := offset;
    var left := count;
    while left > 0
      invariant offset' <= |bytes|
      invariant DecodeConfigurations(bytes[offset..], count, [])
             == DecodeConfigurations(bytes[offset'..], left, configurations)
    {
      var c, next := DecodeFrom(bytes, offset');
      if c.Err? {
        return Err(c.error), offset';
      }
      configurations := configurations + [c.value];
      offset' := next;
      left := left - 1;
    }
    return Ok(configurations), offset';
  }

  method TakeSidecar(bytes: seq<u8>, offset: nat) returns (r: ProtocolResult<Sidecar>, offset': nat)
    requires offset <= |bytes|
    ensures offset' <= |bytes|
    ensures match DecodeSidecar(bytes[offset..])
            case Ok((s, rest)) => r == Ok(s) && bytes[offset'..] == rest
            case Err(e) => r == Err(e)
  {
    var header, dataStart := Take(bytes, offset, 8);
    if header.Err? {
      return Err(header.error), offset;
    }
    Suffix(bytes, offset, 8);
    assert header.value[6..8] == bytes[offset..][6..8];
    var len: nat := ReadLe16(header.value, 6);
    var data, end := Take(bytes, dataStart, len);
    if data.Err? {
      return Err(data.error), offset;
    }
    Suffix(bytes, offset, 8 + len);
    assert data.value == bytes[offset..][8..8 + len];
    if header.value[3] != DESC_HID_REPORT || header.value[4] != 0 {
      return Err(InvalidDescriptorSet), offset;
    }
    return Ok(Sidecar(header.value[0], header.value[1], header.value[2], data.value)), end;
  }

  method DecodeAllSidecars(bytes: seq<u8>, offset: nat, count: nat, decoded: seq<Configuration>)
    returns (r: ProtocolResult<seq<Configuration>>, offset': nat)
    requires offset <= |bytes|
    ensures offset' <= |bytes|
    ensures match DecodeSidecars(bytes[offset..], count, decoded)
            case Ok((cs, rest)) => r == Ok(cs) && bytes[offset'..] == rest
            case Err(e) => r == Err(e)
  {
    var configurations := decoded;
    offset' := offset;
    var left := count;
    while left > 0
      invariant offset' <= |bytes|
      invariant DecodeSidecars(bytes[offset..], count, decoded)
             == DecodeSidecars(bytes[offset'..], left, configurations)
    {
      var s, next := TakeSidecar(bytes, offset');
      if s.Err? {
        return Err(s.error), offset';
      }
      var c := s.value.config;
      if c >= |configurations| {
        return Err(InvalidDescriptorSet), offset';
      }
      var i := FindInterface(configurations[c].interfaces, s.value.number, s.value.alternate);
      if i == |configurations[c].interfaces| {
        return Err(InvalidDescriptorSet), offset';
      }
      configurations := configurations[c := WithReport(configurations[c], i, Some(s.value.data))];
      offset' := next;
      left := left - 1;
    }
    return Ok(configurations), offset';
  }

  method SetFromBytes(bytes: seq<u8>) returns (r: ProtocolResult<DescriptorSet>)
    ensures r == DecodeSet(bytes)
  {
    if |bytes| < 8 + 18 || bytes[..4] != SET_MAGIC || bytes[4] != SET_VERSION {
      return Err(InvalidDescriptorSet);
    }
    var configCount := bytes[5];
    var sidecarCount := ReadLe16(bytes, 6);
    var deviceBytes, offset := Take(bytes, 8, 18);
    var device := DeviceOf(deviceBytes.value);
    if device.Err? {
      return Err(device.error);
    }
    if device.value.1 != configCount {
      return Err(InvalidDescriptorSet);
    }
    var configurations, offset1 := DecodeAllConfigurations(bytes, offset, configCount);
    if configurations.Err? {
      return Err(configurations.error);
    }
    var withReports, offset2 := DecodeAllSidecars(bytes, offset1, sidecarCount, configurations.value);
    if withReports.Err? {
      return Err(withReports.error);
    }
    if offset2 != |bytes| {
      return Err(InvalidDescriptorSet);
    }
    return Ok(DescriptorSet(device.value.0, withReports.value));
  }
}

// protocol/src/lib.rs: USB descriptors, descriptor sets and their encoding.

module Descriptors {
  import opened Bytes
  import opened Wrappers

  const DESC_DEVICE: u8 := 0x01
  const DESC_CONFIGURATION: u8 := 0x02
  const DESC_INTERFACE: u8 := 0x04
  const DESC_ENDPOINT: u8 := 0x05
  const DESC_HID_REPORT: u8 := 0x22

  datatype DeviceDescriptor = DeviceDescriptor(
    usbVersion: u16,
    deviceClass: u8,
    deviceSubClass: u8,
    deviceProtocol: u8,
    maxPacketSize0: u8,
    vendorId: u16,
    productId: u16,
    deviceVersion: u16,
    manufacturerIndex: u8,
    productIndex: u8,
    serialNumberIndex: u8)

  datatype ConfigurationDescriptor = ConfigurationDescriptor(
    configurationValue: u8,
    configurationIndex: u8,
    attributes: u8,
    maxPower: u8)

  datatype InterfaceDescriptor = InterfaceDescriptor(
    interfaceNumber: u8,
    alternateSetting: u8,
    interfaceClass: u8,
    interfaceSubClass: u8,
    interfaceProtocol: u8,
    interfaceIndex: u8)

  datatype EndpointDescriptor = EndpointDescriptor(address: u8, attributes: u8, maxPacketSize: u16, interval: u8)

  datatype Interface = Interface(
    descriptor: InterfaceDescriptor,
    extras: seq<seq<u8>>,
    report: Option<seq<u8>>,
    endpoints: seq<EndpointDescriptor>)

  datatype Configuration = Configuration(
    descriptor: ConfigurationDescriptor,
    extras: seq<seq<u8>>,
    interfaces: seq<Interface>)

  datatype DescriptorSet = DescriptorSet(device: DeviceDescriptor, configurations: seq<Configuration>)

  // ---- fixed-size descriptors

  function DeviceBytes(d: DeviceDescriptor, configurationCount: u8): (b: seq<u8>)
    ensures |b| == 18
  {
    [18, DESC_DEVICE] + ToLe16(d.usbVersion)
    + [d.deviceClass, d.deviceSubClass, d.deviceProtocol, d.maxPacketSize0]
    + ToLe16(d.vendorId) + ToLe16(d.productId) + ToLe16(d.deviceVersion)
    + [d.manufacturerIndex, d.productIndex, d.serialNumberIndex, configurationCount]
  }

  function DeviceOf(b: seq<u8>): ProtocolResult<(DeviceDescriptor, u8)> {
    if |b| != 18 || b[0] != 18 || b[1] != DESC_DEVICE then Err(InvalidDescriptorSet)
    else Ok((DeviceDescriptor(ReadLe16(b, 2), b[4], b[5], b[6], b[7], ReadLe16(b, 8), ReadLe16(b, 10),
                              ReadLe16(b, 12), b[14], b[15], b[16]),
             b[17]))
  }

  lemma DeviceRoundTrip(d: DeviceDescriptor, configurationCount: u8)
    ensures DeviceOf(DeviceBytes(d, configurationCount)) == Ok((d, configurationCount))
  {
    var b := DeviceBytes(d, configurationCount);
    assert b[2..4] == ToLe16(d.usbVersion);
    assert b[8..10] == ToLe16(d.vendorId);
    assert b[10..12] == ToLe16(d.productId);
    assert b[12..14] == ToLe16(d.deviceVersion);
  }

  function ConfigurationHeader(d: ConfigurationDescriptor, totalLength: u16, interfaceCount: u8): (b: seq<u8>)
    ensures |b| == 9
  {
    [9, DESC_CONFIGURATION] + ToLe16(totalLength)
    + [interfaceCount, d.configurationValue, d.configurationIndex, d.attributes, d.maxPower]
  }

  function ConfigurationHeaderOf(b: seq<u8>): ProtocolResult<(ConfigurationDescriptor, u16, u8)> {
    if |b| != 9 || b[0] != 9 || b[1] != DESC_CONFIGURATION then Err(InvalidDescriptorSet)
    else Ok((ConfigurationDescriptor(b[5], b[6], b[7], b[8]), ReadLe16(b, 2), b[4]))
  }

  lemma ConfigurationHeaderRoundTrip(d: ConfigurationDescriptor, totalLength: u16, interfaceCount: u8)
    ensures ConfigurationHeaderOf(ConfigurationHeader(d, totalLength, interfaceCount))
         == Ok((d, totalLength, interfaceCount))
  {
    assert ConfigurationHeader(d, totalLength, interfaceCount)[2..4] == ToLe16(totalLength);
  }

  function InterfaceHeader(d: InterfaceDescriptor, endpointCount: u8): (b: seq<u8>)
    ensures |b| == 9
  {
    [9, DESC_INTERFACE, d.interfaceNumber, d.alternateSetting, endpointCount,
     d.interfaceClass, d.interfaceSubClass, d.interfaceProtocol, d.interfaceIndex]
  }

  function InterfaceHeaderOf(b: seq<u8>): ProtocolResult<(InterfaceDescriptor, u8)> {
    if |b| != 9 || b[0] != 9 || b[1] != DESC_INTERFACE then Err(InvalidDescriptorSet)
    else Ok((InterfaceDescriptor(b[2], b[3], b[5], b[6], b[7], b[8]), b[4]))
  }

  function EndpointBytes(e: EndpointDescriptor): (b: seq<u8>)
    ensures |b| == 7
  {
    [7, DESC_ENDPOINT, e.address, e.attributes] + ToLe16(e.maxPacketSize) + [e.interval]
  }

  function EndpointOf(b: seq<u8>): ProtocolResult<EndpointDescriptor> {
    if |b| != 7 || b[0] != 7 || b[1] != DESC_ENDPOINT then Err(InvalidDescriptorSet)
    else Ok(EndpointDescriptor(b[2], b[3], ReadLe16(b, 4), b[6]))
  }

  lemma EndpointRoundTrip(e: EndpointDescriptor)
    ensures EndpointOf(EndpointBytes(e)) == Ok(e)
  {
    assert EndpointBytes(e)[4..6] == ToLe16(e.maxPacketSize);
  }

  // ---- variable-size parts

  predicate ValidExtra(b: seq<u8>) {
    |b| >= 2 && b[0] == |b|
  }

  function Concat(parts: seq<seq<u8>>): seq<u8> {
    if parts == [] then [] else parts[0] + Concat(parts[1..])
  }

  function EndpointParts(endpoints: seq<EndpointDescriptor>): (parts: seq<seq<u8>>)
    ensures |parts| == |endpoints|
  {
    seq(|endpoints|, i requires 0 <= i < |endpoints| => EndpointBytes(endpoints[i]))
  }

  predicate InterfaceEncodable(i: Interface) {
    |i.endpoints| <= 255 && forall k :: 0 <= k < |i.extras| ==> ValidExtra(i.extras[k])
  }

  function InterfaceBytes(i: Interface): seq<u8>
    requires InterfaceEncodable(i)
  {
    InterfaceHeader(i.descriptor, |i.endpoints|) + Concat(i.extras) + Concat(EndpointParts(i.endpoints))
  }

  predicate AllInterfacesEncodable(interfaces: seq<Interface>) {
    forall k :: 0 <= k < |interfaces| ==> InterfaceEncodable(interfaces[k])
  }

  function InterfaceParts(interfaces: seq<Interface>): (parts: seq<seq<u8>>)
    requires AllInterfacesEncodable(interfaces)
    ensures |parts| == |interfaces|
  {
    seq(|interfaces|, k requires 0 <= k < |interfaces| => InterfaceBytes(interfaces[k]))
  }

  predicate BodyEncodable(c: Configuration) {
    && (forall k :: 0 <= k < |c.extras| ==> ValidExtra(c.extras[k]))
    && AllInterfacesEncodable(c.interfaces)
  }

  function Body(c: Configuration): seq<u8>
    requires BodyEncodable(c)
  {
    Concat(c.extras) + Concat(InterfaceParts(c.interfaces))
  }

  predicate ConfigurationEncodable(c: Configuration) {
    |c.interfaces| <= 255 && BodyEncodable(c) && 9 + |Body(c)| <= 0xffff
  }

  function ConfigurationBytes(c: Configuration): seq<u8>
    requires ConfigurationEncodable(c)
  {
    ConfigurationHeader(c.descriptor, 9 + |Body(c)|, |c.interfaces|) + Body(c)
  }

  // A HID report descriptor travels beside the configurations, addressed to an interface.
  datatype Sidecar = Sidecar(config: nat, number: u8, alternate: u8, data: seq<u8>)

  predicate SidecarEncodable(s: Sidecar) {
    s.config <= 255 && |s.data| <= 0xffff
  }

  function SidecarBytes(s: Sidecar): (b: seq<u8>)
    requires SidecarEncodable(s)
    ensures |b| == 8 + |s.data|
  {
    [s.config, s.number, s.alternate, DESC_HID_REPORT, 0, 0] + ToLe16(|s.data|) + s.data
  }

  function InterfaceSidecars(config: nat, interfaces: seq<Interface>): seq<Sidecar> {
    if interfaces == [] then []
    else
      var i := interfaces[0];
      (if i.report.Some?
       then [Sidecar(config, i.descriptor.interfaceNumber, i.descriptor.alternateSetting, i.report.value)]
       else [])
      + InterfaceSidecars(config, interfaces[1..])
  }

  function SidecarsFrom(config: nat, configurations: seq<Configuration>): seq<Sidecar>
    decreases |configurations|
  {
    if configurations == [] then []
    else InterfaceSidecars(config, configurations[0].interfaces) + SidecarsFrom(config + 1, configurations[1..])
  }

  predicate AllSidecarsEncodable(sidecars: seq<Sidecar>) {
    forall k :: 0 <= k < |sidecars| ==> SidecarEncodable(sidecars[k])
  }

  function SidecarParts(sidecars: seq<Sidecar>): (parts: seq<seq<u8>>)
    requires AllSidecarsEncodable(sidecars)
    ensures |parts| == |sidecars|
  {
    seq(|sidecars|, k requires 0 <= k < |sidecars| => SidecarBytes(sidecars[k]))
  }

  predicate AllConfigurationsEncodable(configurations: seq<Configuration>) {
    forall k :: 0 <= k < |configurations| ==> ConfigurationEncodable(configurations[k])
  }

  function ConfigurationParts(configurations: seq<Configuration>): (parts: seq<seq<u8>>)
    requires AllConfigurationsEncodable(configurations)
    ensures |parts| == |configurations|
  {
    seq(|configurations|, k requires 0 <= k < |configurations| => ConfigurationBytes(configurations[k]))
  }

  const SET_MAGIC: seq<u8> := [0x57, 0x44, 0x45, 0x53] // "WDES"
  const SET_VERSION: u8 := 1

  predicate SetEncodable(ds: DescriptorSet) {
    && |ds.configurations| <= 255
    && AllConfigurationsEncodable(ds.configurations)
    && AllSidecarsEncodable(SidecarsFrom(0, ds.configurations))
    && |SidecarsFrom(0, ds.configurations)| <= 0xffff
  }

  function SetHeader(ds: DescriptorSet): (b: seq<u8>)
    requires SetEncodable(ds)
    ensures |b| == 8
  {
    SET_MAGIC + [SET_VERSION, |ds.configurations|] + ToLe16(|SidecarsFrom(0, ds.configurations)|)
  }

  function SetBytes(ds: DescriptorSet): seq<u8>
    requires SetEncodable(ds)
  {
    SetHeader(ds)
    + DeviceBytes(ds.device, |ds.configurations|)
    + Concat(ConfigurationParts(ds.configurations))
    + Concat(SidecarParts(SidecarsFrom(0, ds.configurations)))
  }

  // Every failure of the encoder has the same class.
  function EncodeSet(ds: DescriptorSet): ProtocolResult<seq<u8>> {
    if SetEncodable(ds) then Ok(SetBytes(ds)) else Err(InvalidDescriptorSet)
  }

  function EncodeConfiguration(c: Configuration): ProtocolResult<seq<u8>> {
    if ConfigurationEncodable(c) then Ok(ConfigurationBytes(c)) else Err(InvalidDescriptorSet)
  }

  // ---- concatenation

  lemma {:induction false} ConcatAppend(a: seq<seq<u8>>, b: seq<seq<u8>>)
    ensures Concat(a + b) == Concat(a) + Concat(b)
    decreases |a|
  {
    if a == [] {
      assert a + b == b;
    } else {
      ConcatAppend(a[1..], b);
      assert (a + b)[1..] == a[1..] + b;
    }
  }

  lemma ConcatSnoc(a: seq<seq<u8>>, x: seq<u8>)
    ensures Concat(a + [x]) == Concat(a) + x
  {
    ConcatAppend(a, [x]);
    assert Concat([x]) == x + Concat([]);
  }

  lemma ConcatTo(parts: seq<seq<u8>>, k: nat)
    requires k < |parts|
    ensures Concat(parts[..k + 1]) == Concat(parts[..k]) + parts[k]
  {
    ConcatSnoc(parts[..k], parts[k]);
    assert parts[..k] + [parts[k]] == parts[..k + 1];
  }

  lemma InterfacesTo(interfaces: seq<Interface>, k: nat)
    requires k < |interfaces| && AllInterfacesEncodable(interfaces[..k]) && InterfaceEncodable(interfaces[k])
    ensures AllInterfacesEncodable(interfaces[..k + 1])
    ensures Concat(InterfaceParts(interfaces[..k + 1]))
         == Concat(InterfaceParts(interfaces[..k])) + InterfaceBytes(interfaces[k])
  {
    var parts := InterfaceParts(interfaces[..k + 1]);
    ConcatTo(parts, k);
    assert parts[..k + 1] == parts && parts[..k] == InterfaceParts(interfaces[..k]);
  }

  lemma ConfigurationsTo(configurations: seq<Configuration>, k: nat)
    requires k < |configurations| && AllConfigurationsEncodable(configurations[..k])
    requires ConfigurationEncodable(configurations[k])
    ensures AllConfigurationsEncodable(configurations[..k + 1])
    ensures Concat(ConfigurationParts(configurations[..k + 1]))
         == Concat(ConfigurationParts(configurations[..k])) + ConfigurationBytes(configurations[k])
  {
    var parts := ConfigurationParts(configurations[..k + 1]);
    ConcatTo(parts, k);
    assert parts[..k + 1] == parts && parts[..k] == ConfigurationParts(configurations[..k]);
  }

  // ---- the encoders as written: buffers grown in loops, the first failure ends them

  method InterfaceToUsbBytes(i: Interface) returns (r: ProtocolResult<seq<u8>>)
    ensures r == if InterfaceEncodable(i) then Ok(InterfaceBytes(i)) else Err(InvalidDescriptorSet)
  {
    if |i.endpoints| > 255 {
      return Err(InvalidDescriptorSet);
    }
    var out := InterfaceHeader(i.descriptor, |i.endpoints|);
    for k := 0 to |i.extras|
      invariant forall j :: 0 <= j < k ==> ValidExtra(i.extras[j])
      invariant out == InterfaceHeader(i.descriptor, |i.endpoints|) + Concat(i.extras[..k])
    {
      if !ValidExtra(i.extras[k]) {
        return Err(InvalidDescriptorSet);
      }
      out := out + i.extras[k];
      ConcatTo(i.extras, k);
    }
    assert i.extras[..|i.extras|] == i.extras;
    ghost var parts := EndpointParts(i.endpoints);
    for k := 0 to |i.endpoints|
      invariant out == InterfaceHeader(i.descriptor, |i.endpoints|) + Concat(i.extras) + Concat(parts[..k])
    {
      out := out + EndpointBytes(i.endpoints[k]);
      ConcatTo(parts, k);
    }
    assert parts[..|parts|] == parts;
    return Ok(out);
  }

  method InterfacesToUsbBytes(interfaces: seq<Interface>) returns (r: ProtocolResult<seq<u8>>)
    ensures r == if AllInterfacesEncodable(interfaces)
                 then Ok(Concat(InterfaceParts(interfaces))) else Err(InvalidDescriptorSet)
  {
    var out := [];
    for k := 0 to |interfaces|
      invariant AllInterfacesEncodable(interfaces[..k])
      invariant out == Concat(InterfaceParts(interfaces[..k]))
    {
      var bytes := InterfaceToUsbBytes(interfaces[k]);
      if bytes.Err? {
        return Err(bytes.error);
      }
      out := out + bytes.value;
      InterfacesTo(interfaces, k);
    }
    assert interfaces[..|interfaces|] == interfaces;
    return Ok(out);
  }

  method ConfigurationToUsbBytes(c: Configuration) returns (r: ProtocolResult<seq<u8>>)
    ensures r == EncodeConfiguration(c)
  {
    if |c.interfaces| > 255 {
      return Err(InvalidDescriptorSet);
    }
    var body := [];
    for k := 0 to |c.extras|
      invariant forall j :: 0 <= j < k ==> ValidExtra(c.extras[j])
      invariant body == Concat(c.extras[..k])
    {
      if !ValidExtra(c.extras[k]) {
        return Err(InvalidDescriptorSet);
      }
      body := body + c.extras[k];
      ConcatTo(c.extras, k);
    }
    assert c.extras[..|c.extras|] == c.extras;
    var interfaces := InterfacesToUsbBytes(c.interfaces);
    if interfaces.Err? {
      return Err(interfaces.error);
    }
    body := body + interfaces.value;
    if 9 + |body| > 0xffff {
      return Err(InvalidDescriptorSet);
    }
    return Ok(ConfigurationHeader(c.descriptor, 9 + |body|, |c.interfaces|) + body);
  }

  // The sidecars of the interfaces from k on of configuration c are part of all sidecars.
  lemma SidecarListed(c: nat, interfaces: seq<Interface>, k: nat)
    requires k < |interfaces|
    ensures InterfaceSidecars(c, interfaces[k..])
         == (if interfaces[k].report.Some?
             then [Sidecar(c, interfaces[k].descriptor.interfaceNumber,
                           interfaces[k].descriptor.alternateSetting, interfaces[k].report.value)]
             else []) + InterfaceSidecars(c, interfaces[k + 1..])
  {
    assert interfaces[k..][1..] == interfaces[k + 1..];
  }

  method InterfaceReportSidecars(c: nat, interfaces: seq<Interface>) returns (r: ProtocolResult<seq<Sidecar>>)
    requires c <= 255
    ensures r == if AllSidecarsEncodable(InterfaceSidecars(c, interfaces))
                 then Ok(InterfaceSidecars(c, interfaces)) else Err(InvalidDescriptorSet)
  {
    var out := [];
    for k := 0 to |interfaces|
      invariant AllSidecarsEncodable(out)
      invariant out + InterfaceSidecars(c, interfaces[k..]) == InterfaceSidecars(c, interfaces)
    {
      var i := interfaces[k];
      SidecarListed(c, interfaces, k);
      if i.report.Some? {
        var s := Sidecar(c, i.descriptor.interfaceNumber, i.descriptor.alternateSetting, i.report.value);
        if |i.report.value| > 0xffff {
          assert InterfaceSidecars(c, interfaces)[|out|] == s;
          return Err(InvalidDescriptorSet);
        }
        out := out + [s];
      }
    }
    assert out + [] == out;
    return Ok(out);
  }

  method ReportSidecars(configurations: seq<Configuration>) returns (r: ProtocolResult<seq<Sidecar>>)
    requires |configurations| <= 255
    ensures r == if AllSidecarsEncodable(SidecarsFrom(0, configurations))
                 then Ok(SidecarsFrom(0, configurations)) else Err(InvalidDescriptorSet)
  {
    var out := [];
    for c := 0 to |configurations|
      invariant AllSidecarsEncodable(out)
      invariant out + SidecarsFrom(c, configurations[c..]) == SidecarsFrom(0, configurations)
    {
      ghost var here := InterfaceSidecars(c, configurations[c].interfaces);
      ghost var after := SidecarsFrom(c + 1, configurations[c + 1..]);
      assert configurations[c..][1..] == configurations[c + 1..];
      assert SidecarsFrom(0, configurations) == out + here + after;
      var s := InterfaceReportSidecars(c, configurations[c].interfaces);
      if s.Err? {
        ghost var bad :| 0 <= bad < |here| && !SidecarEncodable(here[bad]);
        assert SidecarsFrom(0, configurations)[|out| + bad] == here[bad];
        return Err(s.error);
      }
      out := out + s.value;
    }
    assert out + [] == out;
    return Ok(out);
  }

  method SetToBytes(ds: DescriptorSet) returns (r: ProtocolResult<seq<u8>>)
    ensures r == EncodeSet(ds)
  {
    if |ds.configurations| > 255 {
      return Err(InvalidDescriptorSet);
    }
    var sidecars := ReportSidecars(ds.configurations);
    if sidecars.Err? {
      return Err(sidecars.error);
    }
    if |sidecars.value| > 0xffff {
      return Err(InvalidDescriptorSet);
    }
    var start := SET_MAGIC + [SET_VERSION, |ds.configurations|] + ToLe16(|sidecars.value|)
                 + DeviceBytes(ds.device, |ds.configurations|);
    var configurations := ConfigurationsToUsbBytes(ds.configurations);
    if configurations.Err? {
      return Err(configurations.error);
    }
    var tail := SidecarsToBytes(sidecars.value);
    return Ok(start + configurations.value + tail);
  }

  method ConfigurationsToUsbBytes(configurations: seq<Configuration>) returns (r: ProtocolResult<seq<u8>>)
    ensures r == if AllConfigurationsEncodable(configurations)
                 then Ok(Concat(ConfigurationParts(configurations))) else Err(InvalidDescriptorSet)
  {
    var out := [];
    for k := 0 to |configurations|
      invariant AllConfigurationsEncodable(configurations[..k])
      invariant out == Concat(ConfigurationParts(configurations[..k]))
    {
      var bytes := ConfigurationToUsbBytes(configurations[k]);
      if bytes.Err? {
        return Err(bytes.error);
      }
      out := out + bytes.value;
      ConfigurationsTo(configurations, k);
    }
    assert configurations[..|configurations|] == configurations;
    return Ok(out);
  }

  method SidecarsToBytes(sidecars: seq<Sidecar>) returns (out: seq<u8>)
    requires AllSidecarsEncodable(sidecars)
    ensures out == Concat(SidecarParts(sidecars))
  {
    out := [];
    ghost var parts := SidecarParts(sidecars);
    for k := 0 to |sidecars|
      invariant out == Concat(parts[..k])
    {
      out := out + SidecarBytes(sidecars[k]);
      ConcatTo(parts, k);
    }
    assert parts[..|parts|] == parts;
  }
}

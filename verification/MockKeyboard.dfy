// protocol/src/lib.rs: the device the daemon ships, and what follows for it from the general results.

module MockKeyboard {
  import opened Bytes
  import opened CleanEnd
  import opened Composition
  import opened ControlEndpoint
  import opened ControlTransfers
  import opened DescriptorDecode
  import opened DescriptorRoundTrip
  import opened Descriptors
  import opened Enumeration
  import opened Wrappers
  import C = ClientSpec
  import DetachReached

  const REPORT: seq<u8> := [
    0x05, 0x01, 0x09, 0x06, 0xa1, 0x01, 0x05, 0x07, 0x19, 0xe0, 0x29, 0xe7, 0x15, 0x00, 0x25,
    0x01, 0x75, 0x01, 0x95, 0x08, 0x81, 0x02, 0x95, 0x01, 0x75, 0x08, 0x81, 0x01, 0x95, 0x05,
    0x75, 0x01, 0x05, 0x08, 0x19, 0x01, 0x29, 0x05, 0x91, 0x02, 0x95, 0x01, 0x75, 0x03, 0x91,
    0x01, 0x95, 0x06, 0x75, 0x08, 0x15, 0x00, 0x25, 0x65, 0x05, 0x07, 0x19, 0x00, 0x29, 0x65,
    0x81, 0x00, 0xc0]

  const HID_DESCRIPTOR: seq<u8> := [0x09, 0x21, 0x11, 0x01, 0x00, 0x01, 0x22, 0x3f, 0x00]

  function KeyboardInterface(): Interface {
    Interface(InterfaceDescriptor(0, 0, 0x03, 0x01, 0x01, 0), [HID_DESCRIPTOR], Some(REPORT),
              [EndpointDescriptor(0x81, 0x03, 8, 10)])
  }

  function KeyboardConfiguration(): Configuration {
    Configuration(ConfigurationDescriptor(1, 0, 0x80, 50), [], [KeyboardInterface()])
  }

  function Keyboard(vendor: u16, product: u16): DescriptorSet {
    DescriptorSet(DeviceDescriptor(0x0200, 0, 0, 0, 64, vendor, product, 0x0100, 1, 2, 3), [KeyboardConfiguration()])
  }

  // Nine bytes of configuration and 25 of its only interface; the report travels in one sidecar.
  lemma KeyboardParts()
    ensures InterfaceEncodable(KeyboardInterface()) && |InterfaceBytes(KeyboardInterface())| == 25
    ensures var c := KeyboardConfiguration();
            ConfigurationEncodable(c) && PlainConfiguration(c) && ReportsOnFirst(c.interfaces)
            && |ConfigurationBytes(c)| == 34
            && SidecarsFrom(0, [c]) == [Sidecar(0, 0, 0, REPORT)]
  {
    var i, c := KeyboardInterface(), KeyboardConfiguration();
    assert Concat(i.extras) == HID_DESCRIPTOR + Concat(i.extras[1..]);
    assert EndpointParts(i.endpoints)[1..] == [];
    assert |Concat(EndpointParts(i.endpoints))| == 7 + |Concat([])|;
    assert InterfaceParts(c.interfaces)[1..] == [];
    assert Concat(InterfaceParts(c.interfaces)) == InterfaceBytes(i) + Concat([]);
    assert c.interfaces[1..] == [] && [c][1..] == [];
    assert SidecarsFrom(1, []) == [];
    assert InterfaceSidecars(0, [i]) == [Sidecar(0, 0, 0, REPORT)] + InterfaceSidecars(0, []);
  }

  lemma KeyboardEncodes(vendor: u16, product: u16)
    ensures var ds := Keyboard(vendor, product);
            && SetEncodable(ds) && |SetBytes(ds)| == 131 && Faithful(ds.configurations)
  {
    KeyboardParts();
    var ds, c := Keyboard(vendor, product), KeyboardConfiguration();
    hide KeyboardInterface, KeyboardConfiguration, SidecarsFrom, ConfigurationBytes;
    var sidecars := SidecarsFrom(0, ds.configurations);
    assert ConfigurationParts(ds.configurations) == [ConfigurationBytes(c)];
    assert Concat([ConfigurationBytes(c)]) == ConfigurationBytes(c) + Concat([]);
    assert SidecarParts(sidecars) == [SidecarBytes(sidecars[0])];
    assert Concat([SidecarBytes(sidecars[0])]) == SidecarBytes(sidecars[0]) + Concat([]);
  }

  lemma KeyboardHasReport(vendor: u16, product: u16)
    ensures var ds := Keyboard(vendor, product);
            && ReportDescriptorBytes(ds, 0, 0, 0) == Ok(REPORT) && |REPORT| == 63
            && ds.configurations != [] && Supported(Some(ds), 1)
  {
    var ds := Keyboard(vendor, product);
    assert ds.configurations[0].descriptor.configurationValue == 1;
    assert KeyboardConfiguration().interfaces[0].descriptor.interfaceNumber == 0;
  }

  // It encodes, to 131 bytes, decoding gives it back, and a client can enumerate it.
  lemma KeyboardEnumerates(vendor: u16, product: u16)
    ensures var ds := Keyboard(vendor, product);
            && SetEncodable(ds) && |SetBytes(ds)| == 131 && DecodeSet(SetBytes(ds)) == Ok(ds)
            && CanEnumerate(ds)
  {
    hide Keyboard, SetBytes, SetEncodable, DecodeSet, Faithful, Supported, ReportDescriptorBytes;
    KeyboardEncodes(vendor, product);
    KeyboardHasReport(vendor, product);
    FaithfulRoundTrip(Keyboard(vendor, product));
  }

  // So the sessions that are shipped can run to a good end, for every limit but none and zero.
  lemma ShippedSessionsEndWell(start: System, cfg: Configs, vendor: u16, product: u16)
    requires C.ConfigOk(cfg.client) && cfg.daemon.descriptors == Keyboard(vendor, product) && Initial(start)
    ensures ConfigsOk(cfg) && Runnable(start)
    ensures (exists es :: Uncut(es) && Composition.Run(start, cfg, es).client.stage == C.Ended(true))
       <==> cfg.client.limit.Some? && cfg.client.limit.value >= 1
  {
    hide Keyboard, SetBytes, SetEncodable, CanEnumerate, DecodeSet;
    KeyboardEnumerates(vendor, product);
    DetachReached.EndsWellExactly(start, cfg);
  }
}

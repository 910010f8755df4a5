// What decoding makes of any byte string it accepts: a set that encodes, no longer than the input,
// and decodes to itself. With it, the exact condition for decode to undo encode.

module DescriptorCanonical {
  import opened Bytes
  import opened DescriptorDecode
  import opened DescriptorRoundTrip
  import opened Descriptors
  import opened Wrappers

  // ---- sizes

  lemma {:induction false} EndpointsSize(endpoints: seq<EndpointDescriptor>)
    ensures |Concat(EndpointParts(endpoints))| == 7 * |endpoints|
    decreases |endpoints|
  {
    if endpoints != [] {
      assert EndpointParts(endpoints)[1..] == EndpointParts(endpoints[1..]);
      EndpointsSize(endpoints[1..]);
    }
  }

  function InterfaceSize(extras: seq<seq<u8>>, endpoints: nat): nat {
    9 + |Concat(extras)| + 7 * endpoints
  }

  lemma InterfaceBytesSize(i: Interface)
    requires InterfaceEncodable(i)
    ensures |InterfaceBytes(i)| == InterfaceSize(i.extras, |i.endpoints|)
  {
    EndpointsSize(i.endpoints);
  }

  // ---- what the body parser keeps

  predicate GoodExtras(extras: seq<seq<u8>>) {
    forall k :: 0 <= k < |extras| ==> ValidExtra(extras[k]) && Plain(extras[k])
  }

  predicate GoodInterface(i: Interface) {
    |i.endpoints| <= 255 && GoodExtras(i.extras) && i.report.None?
  }

  predicate GoodInterfaces(interfaces: seq<Interface>) {
    forall k :: 0 <= k < |interfaces| ==> GoodInterface(interfaces[k])
  }

  lemma GoodInterfacesEncode(interfaces: seq<Interface>)
    requires GoodInterfaces(interfaces)
    ensures AllInterfacesEncodable(interfaces) && PlainInterfaces(interfaces)
  {
  }

  function InterfacesSize(interfaces: seq<Interface>): nat
    requires AllInterfacesEncodable(interfaces)
  {
    |Concat(InterfaceParts(interfaces))|
  }

  predicate GoodState(st: BodyState) {
    && GoodExtras(st.extras)
    && GoodInterfaces(st.interfaces)
    && (st.current.Some? ==> GoodExtras(st.current.value.extras))
  }

  function OpenSize(current: Option<OpenInterface>): nat {
    if current.None? then 0 else InterfaceSize(current.value.extras, |current.value.endpoints|)
  }

  // The bytes a state accounts for.
  function StateSize(st: BodyState): nat
    requires GoodState(st)
  {
    GoodInterfacesEncode(st.interfaces);
    |Concat(st.extras)| + InterfacesSize(st.interfaces) + OpenSize(st.current)
  }

  lemma InterfacesSizeSnoc(interfaces: seq<Interface>, i: Interface)
    requires AllInterfacesEncodable(interfaces) && InterfaceEncodable(i)
    ensures AllInterfacesEncodable(interfaces + [i])
    ensures InterfacesSize(interfaces + [i]) == InterfacesSize(interfaces) + InterfaceSize(i.extras, |i.endpoints|)
  {
    var all := interfaces + [i];
    assert all[..|interfaces|] == interfaces && all[..|interfaces| + 1] == all;
    InterfacesTo(all, |interfaces|);
    InterfaceBytesSize(i);
  }

  lemma CloseKeeps(st: BodyState)
    requires GoodState(st) && Close(st).Ok?
    ensures GoodInterfaces(Close(st).value) && AllInterfacesEncodable(Close(st).value)
    ensures |Concat(st.extras)| + InterfacesSize(Close(st).value) == StateSize(st)
  {
    GoodInterfacesEncode(st.interfaces);
    if st.current.Some? {
      var i := Finish(st.current.value).value;
      InterfacesSizeSnoc(st.interfaces, i);
      GoodInterfacesEncode(st.interfaces + [i]);
    }
  }

  lemma AddExtraKeeps(st: BodyState, d: seq<u8>)
    requires GoodState(st) && ValidExtra(d) && Plain(d)
    ensures GoodState(AddExtra(st, d)) && StateSize(AddExtra(st, d)) == StateSize(st) + |d|
  {
    if st.current.Some? {
      ConcatSnoc(st.current.value.extras, d);
    } else {
      ConcatSnoc(st.extras, d);
    }
  }

  lemma ParseDescriptorKeeps(st: BodyState, d: seq<u8>)
    requires GoodState(st) && |d| >= 2 && ParseDescriptor(st, d).Ok?
    ensures var st' := ParseDescriptor(st, d).value;
            GoodState(st') && StateSize(st') == StateSize(st) + |d|
  {
    if d[1] == DESC_INTERFACE {
      CloseKeeps(st);
    } else if d[1] != DESC_ENDPOINT {
      AddExtraKeeps(st, d);
    }
  }

  lemma {:induction false} ParseBodyKeeps(rest: seq<u8>, st: BodyState)
    requires GoodState(st) && ParseBody(rest, st).Ok?
    ensures var st' := ParseBody(rest, st).value;
            GoodState(st') && StateSize(st') == StateSize(st) + |rest|
    decreases |rest|
  {
    if rest != [] {
      var d := rest[..rest[0]];
      ParseDescriptorKeeps(st, d);
      ParseBodyKeeps(rest[rest[0]..], ParseDescriptor(st, d).value);
    }
  }

  // ---- decoded configurations

  predicate GoodConfiguration(c: Configuration) {
    ConfigurationEncodable(c) && PlainConfiguration(c) && GoodInterfaces(c.interfaces)
  }

  predicate GoodConfigurations(cs: seq<Configuration>) {
    forall k :: 0 <= k < |cs| ==> GoodConfiguration(cs[k])
  }

  lemma DecodedConfiguration(bytes: seq<u8>)
    requires DecodeConfiguration(bytes).Ok?
    ensures var (c, rest) := DecodeConfiguration(bytes).value;
            GoodConfiguration(c) && |ConfigurationBytes(c)| + |rest| == |bytes|
  {
    var (descriptor, totalLength, interfaceCount) := ConfigurationHeaderOf(bytes[..9]).value;
    var body := bytes[9..totalLength];
    assert GoodState(NOTHING_PARSED) && StateSize(NOTHING_PARSED) == 0;
    ParseBodyKeeps(body, NOTHING_PARSED);
    var st := ParseBody(body, NOTHING_PARSED).value;
    CloseKeeps(st);
    var c := DecodeConfiguration(bytes).value.0;
    assert |Body(c)| == |body|;
  }

  function ConfigurationsSize(cs: seq<Configuration>): nat
    requires AllConfigurationsEncodable(cs)
  {
    |Concat(ConfigurationParts(cs))|
  }

  lemma ConfigurationsSizeSnoc(cs: seq<Configuration>, c: Configuration)
    requires AllConfigurationsEncodable(cs) && ConfigurationEncodable(c)
    ensures AllConfigurationsEncodable(cs + [c])
    ensures ConfigurationsSize(cs + [c]) == ConfigurationsSize(cs) + |ConfigurationBytes(c)|
  {
    var all := cs + [c];
    assert all[..|cs|] == cs && all[..|cs| + 1] == all;
    ConfigurationsTo(all, |cs|);
  }

  lemma {:induction false} DecodedConfigurations(bytes: seq<u8>, count: nat, done: seq<Configuration>)
    requires GoodConfigurations(done) && AllConfigurationsEncodable(done)
    requires DecodeConfigurations(bytes, count, done).Ok?
    ensures var (cs, rest) := DecodeConfigurations(bytes, count, done).value;
            && |cs| == |done| + count && GoodConfigurations(cs) && AllConfigurationsEncodable(cs)
            && ConfigurationsSize(cs) + |rest| == ConfigurationsSize(done) + |bytes|
    decreases count
  {
    if count > 0 {
      DecodedConfiguration(bytes);
      var (c, rest) := DecodeConfiguration(bytes).value;
      ConfigurationsSizeSnoc(done, c);
      DecodedConfigurations(rest, count - 1, done + [c]);
    }
  }

  // ---- attached reports

  // Report descriptors do not show in a configuration's own bytes.
  lemma ReportsDoNotShow(c: Configuration, i: nat, report: Option<seq<u8>>)
    requires i < |c.interfaces| && ConfigurationEncodable(c)
    ensures var c' := WithReport(c, i, report);
            ConfigurationEncodable(c') && ConfigurationBytes(c') == ConfigurationBytes(c)
  {
    var c' := WithReport(c, i, report);
    assert AllInterfacesEncodable(c'.interfaces);
    assert InterfaceParts(c'.interfaces) == InterfaceParts(c.interfaces);
  }

  predicate ReportsFit(interfaces: seq<Interface>) {
    forall k :: 0 <= k < |interfaces| && interfaces[k].report.Some? ==> |interfaces[k].report.value| <= 0xffff
  }

  predicate Settled(c: Configuration) {
    ConfigurationEncodable(c) && PlainConfiguration(c) && ReportsOnFirst(c.interfaces) && ReportsFit(c.interfaces)
  }

  predicate AllSettled(cs: seq<Configuration>) {
    forall k :: 0 <= k < |cs| ==> Settled(cs[k])
  }

  lemma FirstReport(interfaces: seq<Interface>, i: nat, data: seq<u8>)
    requires ReportsOnFirst(interfaces) && i < |interfaces|
    requires FindInterface(interfaces, interfaces[i].descriptor.interfaceNumber,
                           interfaces[i].descriptor.alternateSetting) == i
    ensures ReportsOnFirst(interfaces[i := interfaces[i].(report := Some(data))])
  {
    var interfaces' := interfaces[i := interfaces[i].(report := Some(data))];
    assert Strip(interfaces) == Strip(interfaces');
    forall k | 0 <= k < |interfaces'| && interfaces'[k].report.Some?
      ensures FindInterface(interfaces', interfaces'[k].descriptor.interfaceNumber,
                            interfaces'[k].descriptor.alternateSetting) == k
    {
      FindIgnoresReports(interfaces, interfaces', interfaces'[k].descriptor.interfaceNumber,
                         interfaces'[k].descriptor.alternateSetting);
    }
  }

  function InterfaceReportSize(interfaces: seq<Interface>): nat {
    if interfaces == [] then 0
    else
      (if interfaces[0].report.Some? then 8 + |interfaces[0].report.value| else 0)
      + InterfaceReportSize(interfaces[1..])
  }

  function ReportSize(cs: seq<Configuration>): nat {
    if cs == [] then 0 else InterfaceReportSize(cs[0].interfaces) + ReportSize(cs[1..])
  }

  lemma {:induction false} InterfaceReportGrows(interfaces: seq<Interface>, i: nat, data: seq<u8>)
    requires i < |interfaces|
    ensures InterfaceReportSize(interfaces[i := interfaces[i].(report := Some(data))])
         <= InterfaceReportSize(interfaces) + 8 + |data|
    decreases |interfaces|
  {
    var interfaces' := interfaces[i := interfaces[i].(report := Some(data))];
    if i == 0 {
      assert interfaces'[1..] == interfaces[1..];
    } else {
      assert interfaces'[1..] == interfaces[1..][i - 1 := interfaces[i].(report := Some(data))];
      InterfaceReportGrows(interfaces[1..], i - 1, data);
    }
  }

  lemma {:induction false} ReportGrows(cs: seq<Configuration>, c: nat, i: nat, data: seq<u8>)
    requires c < |cs| && i < |cs[c].interfaces|
    ensures ReportSize(cs[c := WithReport(cs[c], i, Some(data))]) <= ReportSize(cs) + 8 + |data|
    decreases |cs|
  {
    var cs' := cs[c := WithReport(cs[c], i, Some(data))];
    if c == 0 {
      assert cs'[1..] == cs[1..];
      InterfaceReportGrows(cs[0].interfaces, i, data);
    } else {
      assert cs'[1..] == cs[1..][c - 1 := WithReport(cs[c], i, Some(data))];
      ReportGrows(cs[1..], c - 1, i, data);
    }
  }

  lemma AttachKeeps(cs: seq<Configuration>, s: Sidecar)
    requires AllSettled(cs) && AllConfigurationsEncodable(cs) && Attach(cs, s).Ok? && |s.data| <= 0xffff
    ensures var cs' := Attach(cs, s).value;
            && |cs'| == |cs| && AllSettled(cs') && AllConfigurationsEncodable(cs')
            && ConfigurationParts(cs') == ConfigurationParts(cs)
            && ReportSize(cs') <= ReportSize(cs) + 8 + |s.data|
  {
    hide ReportSize, InterfaceReportSize, ConfigurationBytes;
    var c := cs[s.config];
    var i := FindInterface(c.interfaces, s.number, s.alternate);
    var c' := WithReport(c, i, Some(s.data));
    ReportsDoNotShow(c, i, Some(s.data));
    FirstReport(c.interfaces, i, s.data);
    ReportGrows(cs, s.config, i, s.data);
    assert Settled(c');
  }

  lemma {:induction false} DecodedSidecars(bytes: seq<u8>, count: nat, cs: seq<Configuration>)
    requires AllSettled(cs) && AllConfigurationsEncodable(cs) && DecodeSidecars(bytes, count, cs).Ok?
    ensures var (cs', rest) := DecodeSidecars(bytes, count, cs).value;
            && |cs'| == |cs| && AllSettled(cs') && AllConfigurationsEncodable(cs')
            && ConfigurationParts(cs') == ConfigurationParts(cs)
            && ReportSize(cs') + |rest| <= ReportSize(cs) + |bytes|
    decreases count
  {
    if count > 0 {
      var (s, rest) := DecodeSidecar(bytes).value;
      AttachKeeps(cs, s);
      DecodedSidecars(rest, count - 1, Attach(cs, s).value);
    }
  }

  // ---- the sidecars of a settled set

  lemma {:induction false} InterfaceSidecarsFit(c: nat, interfaces: seq<Interface>)
    requires c <= 255 && ReportsFit(interfaces)
    ensures var ss := InterfaceSidecars(c, interfaces);
            && AllSidecarsEncodable(ss) && |ss| <= |interfaces|
            && |Concat(SidecarParts(ss))| == InterfaceReportSize(interfaces)
    decreases |interfaces|
  {
    if interfaces != [] {
      InterfaceSidecarsFit(c, interfaces[1..]);
      var ss, more := InterfaceSidecars(c, interfaces), InterfaceSidecars(c, interfaces[1..]);
      if interfaces[0].report.Some? {
        assert ss[1..] == more && SidecarParts(ss)[1..] == SidecarParts(more);
      } else {
        assert ss == more;
      }
    }
  }

  lemma {:induction false} SidecarsFit(c: nat, cs: seq<Configuration>)
    requires c + |cs| <= 256 && AllSettled(cs)
    ensures var ss := SidecarsFrom(c, cs);
            && AllSidecarsEncodable(ss) && |ss| <= 255 * |cs|
            && |Concat(SidecarParts(ss))| == ReportSize(cs)
    decreases |cs|
  {
    hide InterfaceSidecars, InterfaceReportSize, ReportsFit, SidecarEncodable;
    if cs != [] {
      InterfaceSidecarsFit(c, cs[0].interfaces);
      SidecarsFit(c + 1, cs[1..]);
      var here, later := InterfaceSidecars(c, cs[0].interfaces), SidecarsFrom(c + 1, cs[1..]);
      assert SidecarParts(here + later) == SidecarParts(here) + SidecarParts(later);
      ConcatAppend(SidecarParts(here), SidecarParts(later));
    }
  }

  lemma {:induction false} NoReports(cs: seq<Configuration>)
    requires GoodConfigurations(cs)
    ensures ReportSize(cs) == 0 && AllSettled(cs)
    decreases |cs|
  {
    if cs != [] {
      NoInterfaceReports(cs[0].interfaces);
      assert GoodConfiguration(cs[0]);
      NoReports(cs[1..]);
    }
  }

  lemma {:induction false} NoInterfaceReports(interfaces: seq<Interface>)
    requires GoodInterfaces(interfaces)
    ensures InterfaceReportSize(interfaces) == 0
    decreases |interfaces|
  {
    if interfaces != [] {
      NoInterfaceReports(interfaces[1..]);
    }
  }

  // ---- main results

  lemma DecodedParts(bytes: seq<u8>)
    requires DecodeSet(bytes).Ok?
    ensures var cs := DecodeSet(bytes).value.configurations;
            && |cs| <= 255 && AllSettled(cs) && AllConfigurationsEncodable(cs)
            && 26 + ConfigurationsSize(cs) + ReportSize(cs) <= |bytes|
  {
    var (cs0, rest) := DecodeConfigurations(bytes[26..], bytes[5], []).value;
    DecodedConfigurations(bytes[26..], bytes[5], []);
    NoReports(cs0);
    DecodedSidecars(rest, ReadLe16(bytes, 6), cs0);
  }

  // Whatever bytes decode accepts, its result encodes, takes no more room, and decodes to itself.
  lemma DecodedSetIsCanonical(bytes: seq<u8>)
    requires DecodeSet(bytes).Ok?
    ensures var ds := DecodeSet(bytes).value;
            && SetEncodable(ds)
            && |SetBytes(ds)| <= |bytes|
            && Faithful(ds.configurations)
            && DecodeSet(SetBytes(ds)) == Ok(ds)
  {
    var ds := DecodeSet(bytes).value;
    DecodedParts(bytes);
    SidecarsFit(0, ds.configurations);
    FaithfulRoundTrip(ds);
  }

  // Decode undoes encode exactly for the sets whose extra descriptors are plain and whose reports
  // sit on the first interface with their number and alternate setting.
  lemma RoundTripExactly(ds: DescriptorSet)
    requires SetEncodable(ds)
    ensures DecodeSet(SetBytes(ds)) == Ok(ds) <==> Faithful(ds.configurations)
  {
    if DecodeSet(SetBytes(ds)) == Ok(ds) {
      DecodedSetIsCanonical(SetBytes(ds));
    } else if Faithful(ds.configurations) {
      FaithfulRoundTrip(ds);
    }
  }

  // Two sets the encoder accepts and the decoder does not give back. The first has a configuration
  // with an extra descriptor of endpoint type.
  lemma EndpointExtraIsNotKept(device: DeviceDescriptor, d: ConfigurationDescriptor)
    ensures var ds := DescriptorSet(device, [Configuration(d, [[2, DESC_ENDPOINT]], [])]);
            SetEncodable(ds) && DecodeSet(SetBytes(ds)) != Ok(ds)
  {
    var c := Configuration(d, [[2, DESC_ENDPOINT]], []);
    var cs := [c];
    assert |Body(c)| == 2 by {
      assert c.extras[1..] == [] && InterfaceParts(c.interfaces) == [];
    }
    assert cs[1..] == [];
    assert SidecarsFrom(0, cs) == [];
    assert !PlainConfiguration(cs[0]) by {
      assert !Plain(c.extras[0]);
    }
    RoundTripExactly(DescriptorSet(device, cs));
  }

  lemma ConcatTwo(a: seq<u8>, b: seq<u8>)
    ensures Concat([a, b]) == a + b
  {
    ConcatSnoc([a], b);
    ConcatSnoc([], a);
    assert [a] + [b] == [a, b] && [] + [a] == [a];
  }

  lemma TwinSidecars(a: Interface, b: Interface, c: nat)
    requires a.report.None? && b.report.Some?
    ensures InterfaceSidecars(c, [a, b])
         == [Sidecar(c, b.descriptor.interfaceNumber, b.descriptor.alternateSetting, b.report.value)]
  {
    SidecarListed(c, [a, b], 0);
    SidecarListed(c, [a, b], 1);
    assert [a, b][0..] == [a, b];
    assert InterfaceSidecars(c, [a, b][2..]) == [];
  }

  // The second has two alike interfaces, of which the second carries the report descriptor.
  lemma SecondTwinsReportIsNotKept(device: DeviceDescriptor, d: ConfigurationDescriptor, i: Interface)
    requires i == Interface(i.descriptor, [], None, [])
    ensures var ds := DescriptorSet(device, [Configuration(d, [], [i, i.(report := Some([7]))])]);
            SetEncodable(ds) && DecodeSet(SetBytes(ds)) != Ok(ds)
  {
    var twin := i.(report := Some([7]));
    var c := Configuration(d, [], [i, twin]);
    var cs := [c];
    assert |Body(c)| == 18 by {
      InterfaceBytesSize(i);
      InterfaceBytesSize(twin);
      assert InterfaceParts(c.interfaces) == [InterfaceBytes(i), InterfaceBytes(twin)];
      ConcatTwo(InterfaceBytes(i), InterfaceBytes(twin));
    }
    assert !ReportsOnFirst(c.interfaces) by {
      assert c.interfaces[1].report.Some?;
      assert FindInterface(c.interfaces, i.descriptor.interfaceNumber, i.descriptor.alternateSetting) == 0;
    }
    assert |SidecarsFrom(0, cs)| == 1 && SidecarEncodable(SidecarsFrom(0, cs)[0]) by {
      TwinSidecars(i, twin, 0);
      assert cs[1..] == [];
      assert SidecarsFrom(1, cs[1..]) == [];
    }
    RoundTripExactly(DescriptorSet(device, cs));
  }

  // ---- which report an interface ends up with

  ghost function ReadSidecars(bytes: seq<u8>, count: nat): seq<Sidecar>
    decreases bytes, count
  {
    if count == 0 || DecodeSidecar(bytes).Err? then []
    else
      var (s, rest) := DecodeSidecar(bytes).value;
      assert |rest| < |bytes|;
      [s] + ReadSidecars(rest, count - 1)
  }

  // A sidecar is for the first interface of its configuration with its number and alternate setting.
  predicate IsFor(s: Sidecar, interfaces: seq<Interface>, c: nat, i: nat)
    requires i < |interfaces|
  {
    && s.config == c && Addressed(interfaces[i], s.number, s.alternate)
    && forall j :: 0 <= j < i ==> !Addressed(interfaces[j], s.number, s.alternate)
  }

  // The data of the last sidecar for an interface, or what it had.
  function LastReport(ss: seq<Sidecar>, interfaces: seq<Interface>, c: nat, i: nat, before: Option<seq<u8>>)
    : Option<seq<u8>>
    requires i < |interfaces|
  {
    if ss == [] then before
    else if IsFor(ss[|ss| - 1], interfaces, c, i) then Some(ss[|ss| - 1].data)
    else LastReport(ss[..|ss| - 1], interfaces, c, i, before)
  }

  predicate SameDescriptors(a: seq<Interface>, b: seq<Interface>) {
    |a| == |b| && forall i :: 0 <= i < |a| ==> a[i].descriptor == b[i].descriptor
  }

  lemma {:induction false} LastReportSame(ss: seq<Sidecar>, a: seq<Interface>, b: seq<Interface>, c: nat, i: nat,
                                          before: Option<seq<u8>>)
    requires i < |a| && SameDescriptors(a, b)
    ensures LastReport(ss, a, c, i, before) == LastReport(ss, b, c, i, before)
    decreases |ss|
  {
    if ss != [] {
      LastReportSame(ss[..|ss| - 1], a, b, c, i, before);
    }
  }

  lemma {:induction false} LastReportCons(s: Sidecar, ss: seq<Sidecar>, interfaces: seq<Interface>, c: nat, i: nat,
                                          before: Option<seq<u8>>)
    requires i < |interfaces|
    ensures LastReport([s] + ss, interfaces, c, i, before)
         == LastReport(ss, interfaces, c, i, if IsFor(s, interfaces, c, i) then Some(s.data) else before)
    decreases |ss|
  {
    var all := [s] + ss;
    if ss == [] {
      assert all == [s] && all[..0] == [];
    } else {
      assert all[..|all| - 1] == [s] + ss[..|ss| - 1] && all[|all| - 1] == ss[|ss| - 1];
      LastReportCons(s, ss[..|ss| - 1], interfaces, c, i, before);
    }
  }

  lemma AttachedTo(cs: seq<Configuration>, s: Sidecar, c: nat, i: nat)
    requires Attach(cs, s).Ok? && c < |cs|
    ensures var next := Attach(cs, s).value;
            && |next| == |cs| && SameDescriptors(cs[c].interfaces, next[c].interfaces)
            && (i < |cs[c].interfaces| ==>
                  next[c].interfaces[i]
                  == if IsFor(s, cs[c].interfaces, c, i) then cs[c].interfaces[i].(report := Some(s.data))
                     else cs[c].interfaces[i])
  {
  }

  // After reading the sidecars every interface is as it was but for its report, which is the data of
  // the last sidecar for it.
  lemma {:induction false} LastSidecarWins(bytes: seq<u8>, count: nat, cs: seq<Configuration>, c: nat, i: nat)
    requires DecodeSidecars(bytes, count, cs).Ok? && c < |cs|
    ensures var cs' := DecodeSidecars(bytes, count, cs).value.0;
            && |cs'| == |cs| && SameDescriptors(cs[c].interfaces, cs'[c].interfaces)
            && (i < |cs[c].interfaces| ==>
                  var interfaces := cs[c].interfaces;
                  cs'[c].interfaces[i] == interfaces[i].(
                    report := LastReport(ReadSidecars(bytes, count), interfaces, c, i, interfaces[i].report)))
    decreases count
  {
    if count > 0 {
      var (s, rest) := DecodeSidecar(bytes).value;
      var next := Attach(cs, s).value;
      AttachedTo(cs, s, c, i);
      hide DecodeSidecar, Attach;
      LastSidecarWins(rest, count - 1, next, c, i);
      var interfaces := cs[c].interfaces;
      if i < |interfaces| {
        var ss := ReadSidecars(rest, count - 1);
        LastReportCons(s, ss, interfaces, c, i, interfaces[i].report);
        LastReportSame(ss, interfaces, next[c].interfaces, c, i, next[c].interfaces[i].report);
      }
    }
  }

  // The reports of a decoded set: each interface's is the data of the last sidecar for it, if any.
  lemma DecodedReports(bytes: seq<u8>, c: nat, i: nat)
    requires DecodeSet(bytes).Ok?
    requires c < |DecodeSet(bytes).value.configurations|
    requires i < |DecodeSet(bytes).value.configurations[c].interfaces|
    ensures DecodeConfigurations(bytes[26..], bytes[5], []).Ok?
    ensures var interfaces := DecodeSet(bytes).value.configurations[c].interfaces;
            var rest := DecodeConfigurations(bytes[26..], bytes[5], []).value.1;
            interfaces[i].report == LastReport(ReadSidecars(rest, ReadLe16(bytes, 6)), interfaces, c, i, None)
  {
    var (cs, rest) := DecodeConfigurations(bytes[26..], bytes[5], []).value;
    DecodedConfigurations(bytes[26..], bytes[5], []);
    var count := ReadLe16(bytes, 6);
    LastSidecarWins(rest, count, cs, 0, 0);
    LastSidecarWins(rest, count, cs, c, i);
    var cs' := DecodeSidecars(rest, count, cs).value.0;
    assert GoodConfiguration(cs[c]);
    LastReportSame(ReadSidecars(rest, count), cs[c].interfaces, cs'[c].interfaces, c, i, None);
  }
}

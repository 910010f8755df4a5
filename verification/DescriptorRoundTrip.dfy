// When decoding undoes encoding, exactly; and what decoding makes of any byte string it accepts.

module DescriptorRoundTrip {
  import opened Bytes
  import opened DescriptorDecode
  import opened Descriptors
  import opened Wrappers

  // ---- the condition for a faithful round trip

  // An extra descriptor whose type byte the parser will not take for an interface or an endpoint.
  predicate Plain(extra: seq<u8>) {
    |extra| >= 2 && extra[1] != DESC_INTERFACE && extra[1] != DESC_ENDPOINT
  }

  predicate AllPlain(extras: seq<seq<u8>>) {
    forall k :: 0 <= k < |extras| ==> Plain(extras[k])
  }

  predicate PlainInterfaces(interfaces: seq<Interface>) {
    forall k :: 0 <= k < |interfaces| ==> AllPlain(interfaces[k].extras)
  }

  predicate PlainConfiguration(c: Configuration) {
    AllPlain(c.extras) && PlainInterfaces(c.interfaces)
  }

  // Each interface with a report descriptor is the first with its number and alternate setting.
  predicate ReportsOnFirst(interfaces: seq<Interface>) {
    forall k :: 0 <= k < |interfaces| && interfaces[k].report.Some? ==>
                  FindInterface(interfaces, interfaces[k].descriptor.interfaceNumber,
                                interfaces[k].descriptor.alternateSetting) == k
  }

  predicate Faithful(configurations: seq<Configuration>) {
    forall k :: 0 <= k < |configurations| ==>
                  PlainConfiguration(configurations[k]) && ReportsOnFirst(configurations[k].interfaces)
  }

  // ---- without report descriptors

  function StripInterface(i: Interface): Interface {
    i.(report := None)
  }

  function Strip(interfaces: seq<Interface>): (s: seq<Interface>)
    ensures |s| == |interfaces|
  {
    seq(|interfaces|, k requires 0 <= k < |interfaces| => StripInterface(interfaces[k]))
  }

  function StripConfiguration(c: Configuration): Configuration {
    c.(interfaces := Strip(c.interfaces))
  }

  function StripAll(configurations: seq<Configuration>): (s: seq<Configuration>)
    ensures |s| == |configurations|
  {
    seq(|configurations|, k requires 0 <= k < |configurations| => StripConfiguration(configurations[k]))
  }

  // ---- parsing what the encoder wrote

  lemma ParseOne(d: seq<u8>, rest: seq<u8>, st: BodyState)
    requires ValidExtra(d) && ParseDescriptor(st, d).Ok?
    ensures ParseBody(d + rest, st) == ParseBody(rest, ParseDescriptor(st, d).value)
  {
    var all := d + rest;
    assert all[..all[0]] == d && all[all[0]..] == rest;
  }

  function AddExtras(st: BodyState, extras: seq<seq<u8>>): BodyState {
    if st.current.Some? then st.(current := Some(st.current.value.(extras := st.current.value.extras + extras)))
    else st.(extras := st.extras + extras)
  }

  lemma AddNothing(st: BodyState)
    ensures AddExtras(st, []) == st
    ensures st.current.Some? ==> AddEndpoints(st, []) == st
  {
    assert st.extras + [] == st.extras;
    if st.current.Some? {
      var open := st.current.value;
      assert open.extras + [] == open.extras && open.endpoints + [] == open.endpoints;
    }
  }

  lemma AddInTurn(st: BodyState, extras: seq<seq<u8>>, endpoints: seq<EndpointDescriptor>)
    ensures extras != [] ==> AddExtras(AddExtra(st, extras[0]), extras[1..]) == AddExtras(st, extras)
    ensures endpoints != [] && st.current.Some? ==>
              AddEndpoints(AddEndpoints(st, [endpoints[0]]), endpoints[1..]) == AddEndpoints(st, endpoints)
  {
    if extras != [] {
      assert forall x: seq<seq<u8>> :: x + [extras[0]] + extras[1..] == x + extras;
    }
    if endpoints != [] {
      assert forall x: seq<EndpointDescriptor> :: x + [endpoints[0]] + endpoints[1..] == x + endpoints;
    }
  }

  lemma {:induction false} ParseExtras(extras: seq<seq<u8>>, rest: seq<u8>, st: BodyState)
    requires AllPlain(extras) && forall k :: 0 <= k < |extras| ==> ValidExtra(extras[k])
    ensures ParseBody(Concat(extras) + rest, st) == ParseBody(rest, AddExtras(st, extras))
    decreases |extras|
  {
    if extras == [] {
      assert Concat(extras) + rest == rest;
      AddNothing(st);
    } else {
      var d, more := extras[0], extras[1..];
      assert Concat(extras) + rest == d + (Concat(more) + rest);
      ParseOne(d, Concat(more) + rest, st);
      ParseExtras(more, rest, AddExtra(st, d));
      AddInTurn(st, extras, []);
    }
  }

  function AddEndpoints(st: BodyState, endpoints: seq<EndpointDescriptor>): BodyState
    requires st.current.Some?
  {
    st.(current := Some(st.current.value.(endpoints := st.current.value.endpoints + endpoints)))
  }

  lemma {:induction false} ParseEndpoints(endpoints: seq<EndpointDescriptor>, rest: seq<u8>, st: BodyState)
    requires st.current.Some?
    ensures ParseBody(Concat(EndpointParts(endpoints)) + rest, st) == ParseBody(rest, AddEndpoints(st, endpoints))
    decreases |endpoints|
  {
    if endpoints == [] {
      assert Concat(EndpointParts(endpoints)) + rest == rest;
      AddNothing(st);
    } else {
      var e, more := endpoints[0], endpoints[1..];
      assert EndpointParts(endpoints)[1..] == EndpointParts(more);
      var d, later := EndpointBytes(e), Concat(EndpointParts(more)) + rest;
      assert Concat(EndpointParts(endpoints)) + rest == d + later;
      EndpointRoundTrip(e);
      ParseOne(d, later, st);
      ParseEndpoints(more, rest, AddEndpoints(st, [e]));
      AddInTurn(st, [], endpoints);
    }
  }

  lemma ParseInterfaceHeader(d: InterfaceDescriptor, n: nat, st: BodyState, done: seq<Interface>)
    requires n <= 255 && Close(st) == Ok(done)
    ensures var header := InterfaceHeader(d, n);
            && ValidExtra(header)
            && ParseDescriptor(st, header) == Ok(BodyState(st.extras, done, Some(OpenInterface(d, n, [], []))))
  {
  }

  lemma ParseInterface(i: Interface, rest: seq<u8>, st: BodyState, done: seq<Interface>)
    requires InterfaceEncodable(i) && AllPlain(i.extras) && Close(st) == Ok(done)
    ensures var open := OpenInterface(i.descriptor, |i.endpoints|, i.extras, i.endpoints);
            ParseBody(InterfaceBytes(i) + rest, st) == ParseBody(rest, BodyState(st.extras, done, Some(open)))
  {
    hide ParseBody, InterfaceHeader, ParseDescriptor, Close;
    var header := InterfaceHeader(i.descriptor, |i.endpoints|);
    var extras, endpoints := Concat(i.extras), Concat(EndpointParts(i.endpoints));
    assert InterfaceBytes(i) + rest == header + (extras + (endpoints + rest));
    var st1 := BodyState(st.extras, done, Some(OpenInterface(i.descriptor, |i.endpoints|, [], [])));
    ParseInterfaceHeader(i.descriptor, |i.endpoints|, st, done);
    ParseOne(header, extras + (endpoints + rest), st);
    ParseExtras(i.extras, endpoints + rest, st1);
    var st2 := AddExtras(st1, i.extras);
    assert [] + i.extras == i.extras;
    ParseEndpoints(i.endpoints, rest, st2);
    assert [] + i.endpoints == i.endpoints;
  }

  lemma FirstInterface(interfaces: seq<Interface>, done: seq<Interface>)
    requires AllInterfacesEncodable(interfaces) && interfaces != []
    ensures Concat(InterfaceParts(interfaces))
         == InterfaceBytes(interfaces[0]) + Concat(InterfaceParts(interfaces[1..]))
    ensures done + [StripInterface(interfaces[0])] + Strip(interfaces[1..]) == done + Strip(interfaces)
  {
    assert InterfaceParts(interfaces)[1..] == InterfaceParts(interfaces[1..]);
    assert [StripInterface(interfaces[0])] + Strip(interfaces[1..]) == Strip(interfaces);
  }

  lemma {:induction false} ParseInterfaces(interfaces: seq<Interface>, st: BodyState, done: seq<Interface>)
    requires AllInterfacesEncodable(interfaces) && PlainInterfaces(interfaces) && Close(st) == Ok(done)
    ensures var r := ParseBody(Concat(InterfaceParts(interfaces)), st);
            && r.Ok? && r.value.extras == st.extras
            && Close(r.value) == Ok(done + Strip(interfaces))
    decreases |interfaces|
  {
    if interfaces == [] {
      assert done + Strip(interfaces) == done;
    } else {
      var i, more := interfaces[0], interfaces[1..];
      var later := Concat(InterfaceParts(more));
      FirstInterface(interfaces, done);
      ParseInterface(i, later, st, done);
      var open := OpenInterface(i.descriptor, |i.endpoints|, i.extras, i.endpoints);
      var st' := BodyState(st.extras, done, Some(open));
      assert Close(st') == Ok(done + [StripInterface(i)]);
      ParseInterfaces(more, st', done + [StripInterface(i)]);
    }
  }

  lemma ConfigurationRoundTrip(c: Configuration, rest: seq<u8>)
    requires ConfigurationEncodable(c) && PlainConfiguration(c)
    ensures DecodeConfiguration(ConfigurationBytes(c) + rest) == Ok((StripConfiguration(c), rest))
  {
    var total := 9 + |Body(c)|;
    var all := ConfigurationBytes(c) + rest;
    assert all[..9] == ConfigurationHeader(c.descriptor, total, |c.interfaces|);
    assert all[9..total] == Body(c) && all[total..] == rest;
    ConfigurationHeaderRoundTrip(c.descriptor, total, |c.interfaces|);
    ParseExtras(c.extras, Concat(InterfaceParts(c.interfaces)), NOTHING_PARSED);
    assert [] + c.extras == c.extras;
    ParseInterfaces(c.interfaces, AddExtras(NOTHING_PARSED, c.extras), []);
    assert [] + Strip(c.interfaces) == Strip(c.interfaces);
  }

  lemma FirstConfiguration(cs: seq<Configuration>, done: seq<Configuration>)
    requires AllConfigurationsEncodable(cs) && cs != []
    ensures Concat(ConfigurationParts(cs)) == ConfigurationBytes(cs[0]) + Concat(ConfigurationParts(cs[1..]))
    ensures done + [StripConfiguration(cs[0])] + StripAll(cs[1..]) == done + StripAll(cs)
  {
    assert ConfigurationParts(cs)[1..] == ConfigurationParts(cs[1..]);
    assert [StripConfiguration(cs[0])] + StripAll(cs[1..]) == StripAll(cs);
  }

  predicate AllPlainConfigurations(cs: seq<Configuration>) {
    forall k :: 0 <= k < |cs| ==> PlainConfiguration(cs[k])
  }

  lemma {:induction false} ConfigurationsRoundTrip(cs: seq<Configuration>, rest: seq<u8>, done: seq<Configuration>)
    requires AllConfigurationsEncodable(cs) && AllPlainConfigurations(cs)
    ensures DecodeConfigurations(Concat(ConfigurationParts(cs)) + rest, |cs|, done) == Ok((done + StripAll(cs), rest))
    decreases |cs|
  {
    if cs == [] {
      assert Concat(ConfigurationParts(cs)) + rest == rest;
      assert done + StripAll(cs) == done;
    } else {
      var bytes, later := Concat(ConfigurationParts(cs)), Concat(ConfigurationParts(cs[1..]));
      FirstConfiguration(cs, done);
      assert bytes + rest == ConfigurationBytes(cs[0]) + (later + rest);
      ConfigurationRoundTrip(cs[0], later + rest);
      ConfigurationsRoundTrip(cs[1..], rest, done + [StripConfiguration(cs[0])]);
    }
  }

  // ---- sidecars

  function AttachAll(configurations: seq<Configuration>, sidecars: seq<Sidecar>): ProtocolResult<seq<Configuration>>
    decreases |sidecars|
  {
    if sidecars == [] then Ok(configurations)
    else
      var configurations' :- Attach(configurations, sidecars[0]);
      AttachAll(configurations', sidecars[1..])
  }

  lemma {:induction false} AttachAllAppend(configurations: seq<Configuration>, a: seq<Sidecar>, b: seq<Sidecar>)
    requires AttachAll(configurations, a).Ok?
    ensures AttachAll(configurations, a + b) == AttachAll(AttachAll(configurations, a).value, b)
    decreases |a|
  {
    if a == [] {
      assert a + b == b;
    } else {
      assert (a + b)[1..] == a[1..] + b;
      AttachAllAppend(Attach(configurations, a[0]).value, a[1..], b);
    }
  }

  lemma SidecarRoundTrip(s: Sidecar, rest: seq<u8>)
    requires SidecarEncodable(s)
    ensures DecodeSidecar(SidecarBytes(s) + rest) == Ok((s, rest))
  {
    var all := SidecarBytes(s) + rest;
    assert all[6..8] == ToLe16(|s.data|);
    assert all[8..8 + |s.data|] == s.data && all[8 + |s.data|..] == rest;
  }

  lemma {:induction false} SidecarsRoundTrip(sidecars: seq<Sidecar>, configurations: seq<Configuration>)
    requires AllSidecarsEncodable(sidecars) && AttachAll(configurations, sidecars).Ok?
    ensures DecodeSidecars(Concat(SidecarParts(sidecars)), |sidecars|, configurations)
         == Ok((AttachAll(configurations, sidecars).value, []))
    decreases |sidecars|
  {
    if sidecars != [] {
      var later := Concat(SidecarParts(sidecars[1..]));
      assert SidecarParts(sidecars)[1..] == SidecarParts(sidecars[1..]);
      SidecarRoundTrip(sidecars[0], later);
      SidecarsRoundTrip(sidecars[1..], Attach(configurations, sidecars[0]).value);
    }
  }

  // Finding an interface looks at descriptors only.
  lemma {:induction false} FindIgnoresReports(a: seq<Interface>, b: seq<Interface>, number: u8, alternate: u8)
    requires Strip(a) == Strip(b)
    ensures FindInterface(a, number, alternate) == FindInterface(b, number, alternate)
    decreases |a|
  {
    assert |a| == |Strip(a)| == |b|;
    if a != [] {
      assert Strip(a)[0] == Strip(b)[0];
      assert Strip(a[1..]) == Strip(a)[1..] && Strip(b[1..]) == Strip(b)[1..];
      FindIgnoresReports(a[1..], b[1..], number, alternate);
    }
  }

  function PartlyStripped(interfaces: seq<Interface>, k: nat): seq<Interface>
    requires k <= |interfaces|
  {
    interfaces[..k] + Strip(interfaces[k..])
  }

  // The sidecars of one configuration put its reports back, front to back.
  lemma {:induction false} AttachInterfaces(configurations: seq<Configuration>, c: nat, k: nat, original: Configuration)
    requires c < |configurations| && k <= |original.interfaces| && ReportsOnFirst(original.interfaces)
    requires configurations[c] == original.(interfaces := PartlyStripped(original.interfaces, k))
    ensures AttachAll(configurations, InterfaceSidecars(c, original.interfaces[k..]))
         == Ok(configurations[c := original])
    decreases |original.interfaces| - k
  {
    var interfaces := original.interfaces;
    if k == |interfaces| {
      assert PartlyStripped(interfaces, k) == interfaces;
      assert configurations[c := original] == configurations;
    } else {
      SidecarListed(c, interfaces, k);
      var i := interfaces[k];
      if i.report.None? {
        assert i == StripInterface(i);
        assert PartlyStripped(interfaces, k) == PartlyStripped(interfaces, k + 1);
        assert [] + InterfaceSidecars(c, interfaces[k + 1..]) == InterfaceSidecars(c, interfaces[k + 1..]);
        AttachInterfaces(configurations, c, k + 1, original);
      } else {
        var s := Sidecar(c, i.descriptor.interfaceNumber, i.descriptor.alternateSetting, i.report.value);
        AttachOne(configurations, c, k, original);
        var configurations' := Attach(configurations, s).value;
        assert InterfaceSidecars(c, interfaces[k..]) == [s] + InterfaceSidecars(c, interfaces[k + 1..]);
        AttachInterfaces(configurations', c, k + 1, original);
        assert configurations'[c := original] == configurations[c := original];
      }
    }
  }

  lemma AttachOne(configurations: seq<Configuration>, c: nat, k: nat, original: Configuration)
    requires c < |configurations| && k < |original.interfaces| && ReportsOnFirst(original.interfaces)
    requires configurations[c] == original.(interfaces := PartlyStripped(original.interfaces, k))
    requires original.interfaces[k].report.Some?
    ensures var i := original.interfaces[k];
            var s := Sidecar(c, i.descriptor.interfaceNumber, i.descriptor.alternateSetting, i.report.value);
            Attach(configurations, s)
            == Ok(configurations[c := original.(interfaces := PartlyStripped(original.interfaces, k + 1))])
  {
    var interfaces, i := original.interfaces, original.interfaces[k];
    var partly := PartlyStripped(interfaces, k);
    assert Strip(partly) == Strip(interfaces);
    FindIgnoresReports(partly, interfaces, i.descriptor.interfaceNumber, i.descriptor.alternateSetting);
    assert partly[k := i] == PartlyStripped(interfaces, k + 1);
    assert partly[k].(report := Some(i.report.value)) == i;
  }

  lemma NextToAttach(cs: seq<Configuration>, c: nat)
    requires c < |cs|
    ensures var now := cs[..c] + StripAll(cs[c..]);
            && |now| == |cs|
            && now[c] == cs[c].(interfaces := PartlyStripped(cs[c].interfaces, 0))
            && now[c := cs[c]] == cs[..c + 1] + StripAll(cs[c + 1..])
  {
    assert PartlyStripped(cs[c].interfaces, 0) == Strip(cs[c].interfaces);
    assert cs[c..][1..] == cs[c + 1..];
    var now, next := cs[..c] + StripAll(cs[c..]), cs[..c + 1] + StripAll(cs[c + 1..]);
    assert now[c := cs[c]] == next;
  }

  lemma {:induction false} AttachFrom(cs: seq<Configuration>, c: nat)
    requires c <= |cs| && forall k :: 0 <= k < |cs| ==> ReportsOnFirst(cs[k].interfaces)
    ensures AttachAll(cs[..c] + StripAll(cs[c..]), SidecarsFrom(c, cs[c..])) == Ok(cs)
    decreases |cs| - c
  {
    if c == |cs| {
      assert cs[..c] + StripAll(cs[c..]) == cs;
    } else {
      hide Attach, AttachAll, ReportsOnFirst, StripAll, Strip, PartlyStripped, InterfaceSidecars;
      var now := cs[..c] + StripAll(cs[c..]);
      NextToAttach(cs, c);
      assert cs[c..][1..] == cs[c + 1..];
      assert cs[c].interfaces[0..] == cs[c].interfaces;
      AttachInterfaces(now, c, 0, cs[c]);
      AttachAllAppend(now, InterfaceSidecars(c, cs[c].interfaces), SidecarsFrom(c + 1, cs[c + 1..]));
      AttachFrom(cs, c + 1);
    }
  }

  // ---- the round trip, one direction

  lemma FourParts(a: seq<u8>, b: seq<u8>, c: seq<u8>, d: seq<u8>)
    ensures var all := a + b + c + d;
            && all[..|a|] == a
            && all[|a|..|a| + |b|] == b
            && all[|a| + |b|..] == c + d
  {
  }

  // The parts of an encoded set, in place.
  lemma SetLayout(ds: DescriptorSet)
    requires SetEncodable(ds)
    ensures var b, sidecars := SetBytes(ds), SidecarsFrom(0, ds.configurations);
            && |b| >= 26 && b[..4] == SET_MAGIC && b[4] == SET_VERSION && b[5] == |ds.configurations|
            && b[6..8] == ToLe16(|sidecars|)
            && b[8..26] == DeviceBytes(ds.device, |ds.configurations|)
            && b[26..] == Concat(ConfigurationParts(ds.configurations)) + Concat(SidecarParts(sidecars))
  {
    var b, header := SetBytes(ds), SetHeader(ds);
    FourParts(header, DeviceBytes(ds.device, |ds.configurations|),
              Concat(ConfigurationParts(ds.configurations)), Concat(SidecarParts(SidecarsFrom(0, ds.configurations))));
    assert b[..8] == header;
    assert b[..4] == header[..4] && b[6..8] == header[6..8] && b[4] == header[4] && b[5] == header[5];
  }

  lemma FaithfulRoundTrip(ds: DescriptorSet)
    requires SetEncodable(ds) && Faithful(ds.configurations)
    ensures DecodeSet(SetBytes(ds)) == Ok(ds)
  {
    var cs := ds.configurations;
    var sidecars := SidecarsFrom(0, cs);
    var b := SetBytes(ds);
    var tail := Concat(SidecarParts(sidecars));
    SetLayout(ds);
    DeviceRoundTrip(ds.device, |cs|);
    ConfigurationsRoundTrip(cs, tail, []);
    assert [] + StripAll(cs) == StripAll(cs);
    assert cs[0..] == cs && cs[..0] + StripAll(cs) == StripAll(cs);
    AttachFrom(cs, 0);
    SidecarsRoundTrip(sidecars, StripAll(cs));
  }
}

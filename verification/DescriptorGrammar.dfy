// What the stateful parser of a configuration accepts, said without state: the descriptors of the
// body, grouped by the interface descriptors among them.

module DescriptorGrammar {
  import opened Bytes
  import opened DescriptorCanonical
  import opened DescriptorDecode
  import opened Descriptors
  import opened Wrappers

  type Chunk = d: seq<u8> | ValidExtra(d) witness [2, 0]

  datatype Group = Group(interface: Chunk, following: seq<Chunk>)

  // The body cut at the length bytes of its descriptors.
  function Chunks(body: seq<u8>): Option<seq<Chunk>>
    decreases |body|
  {
    if body == [] then Some([])
    else if |body| < 2 || body[0] < 2 || body[0] > |body| then None
    else
      match Chunks(body[body[0]..])
      case None => None
      case Some(ds) => Some([body[..body[0]]] + ds)
  }

  // The descriptors before the first interface, and then each interface with what follows it.
  datatype Groups = Groups(head: seq<Chunk>, interfaces: seq<Group>)

  function Grouped(ds: seq<Chunk>): Groups {
    if ds == [] then Groups([], [])
    else
      var g := Grouped(ds[1..]);
      if ds[0][1] == 0x04 then Groups([], [Group(ds[0], g.head)] + g.interfaces)
      else Groups([ds[0]] + g.head, g.interfaces)
  }

  function Others(ds: seq<Chunk>): seq<Chunk> {
    if ds == [] then [] else (if ds[0][1] == 0x05 then [] else [ds[0]]) + Others(ds[1..])
  }

  // Endpoint descriptors have seven bytes.
  function EndpointsOf(ds: seq<Chunk>): Option<seq<EndpointDescriptor>> {
    if ds == [] then Some([])
    else
      match EndpointsOf(ds[1..])
      case None => None
      case Some(es) =>
        var d := ds[0];
        if d[1] != 0x05 then Some(es)
        else if |d| != 7 then None
        else Some([EndpointDescriptor(d[2], d[3], d[4] as int + 256 * d[5] as int, d[6])] + es)
  }

  // An interface descriptor has nine bytes, the fifth of which is the number of its endpoints.
  function InterfaceFrom(g: Group): Option<Interface> {
    var d := g.interface;
    match EndpointsOf(g.following)
    case None => None
    case Some(es) =>
      if |d| != 9 || d[4] != |es| then None
      else Some(Interface(InterfaceDescriptor(d[2], d[3], d[5], d[6], d[7], d[8]), Others(g.following), None, es))
  }

  function InterfacesFrom(gs: seq<Group>): Option<seq<Interface>> {
    if gs == [] then Some([])
    else
      match (InterfaceFrom(gs[0]), InterfacesFrom(gs[1..]))
      case (Some(i), Some(more)) => Some([i] + more)
      case _ => None
  }

  // An endpoint before the first interface has no place.
  function PartsFrom(body: seq<u8>): Option<(seq<Chunk>, seq<Interface>)> {
    match Chunks(body)
    case None => None
    case Some(ds) =>
      var g := Grouped(ds);
      match InterfacesFrom(g.interfaces)
      case None => None
      case Some(interfaces) => if Others(g.head) != g.head then None else Some((g.head, interfaces))
  }

  // ---- the parser's state, continued

  function Parts(st: BodyState): Option<(seq<seq<u8>>, seq<Interface>)> {
    match Close(st)
    case Ok(interfaces) => Some((st.extras, interfaces))
    case Err(_) => None
  }

  function ParsedParts(body: seq<u8>, st: BodyState): Option<(seq<seq<u8>>, seq<Interface>)> {
    match ParseBody(body, st)
    case Ok(st') => Parts(st')
    case Err(_) => None
  }

  // The open interface takes the descriptors before the next one.
  function Grown(open: OpenInterface, ds: seq<Chunk>, es: seq<EndpointDescriptor>): OpenInterface {
    open.(extras := open.extras + Others(ds), endpoints := open.endpoints + es)
  }

  function Continued(st: BodyState, g: Groups): Option<(seq<seq<u8>>, seq<Interface>)> {
    match InterfacesFrom(g.interfaces)
    case None => None
    case Some(more) =>
      if st.current.None? then
        if Others(g.head) != g.head then None else Some((st.extras + g.head, st.interfaces + more))
      else
        match EndpointsOf(g.head)
        case None => None
        case Some(es) =>
          match Finish(Grown(st.current.value, g.head, es))
          case Err(_) => None
          case Ok(done) => Some((st.extras, st.interfaces + [done] + more))
  }

  lemma {:induction false} OthersAreShorter(ds: seq<Chunk>)
    ensures |Others(ds)| <= |ds|
    decreases |ds|
  {
    if ds != [] {
      OthersAreShorter(ds[1..]);
    }
  }

  lemma NothingLeft(st: BodyState)
    ensures Continued(st, Groups([], [])) == Parts(st)
  {
    assert st.extras + [] == st.extras && st.interfaces + [] == st.interfaces;
    if st.current.Some? {
      var open := st.current.value;
      assert open.extras + [] == open.extras && open.endpoints + [] == open.endpoints;
      assert forall x: seq<Interface> :: x + [] == x;
    }
  }

  lemma NothingTaken(open: OpenInterface)
    ensures Grown(open, [], []) == open
  {
    assert open.extras + [] == open.extras && open.endpoints + [] == open.endpoints;
  }

  lemma InterfaceContinues(st: BodyState, d: Chunk, g: Groups)
    requires d[1] == 0x04
    ensures Continued(st, Groups([], [Group(d, g.head)] + g.interfaces))
         == match ParseDescriptor(st, d) case Ok(st') => Continued(st', g) case Err(_) => None
  {
    var groups := [Group(d, g.head)] + g.interfaces;
    assert groups[0] == Group(d, g.head) && groups[1..] == g.interfaces;
    assert st.extras + [] == st.extras;
    if st.current.Some? {
      NothingTaken(st.current.value);
    }
    if InterfaceHeaderOf(d).Ok? && EndpointsOf(g.head).Some? && InterfacesFrom(g.interfaces).Some? {
      var (descriptor, count) := InterfaceHeaderOf(d).value;
      var es, more := EndpointsOf(g.head).value, InterfacesFrom(g.interfaces).value;
      var open := Grown(OpenInterface(descriptor, count, [], []), g.head, es);
      assert open.extras == Others(g.head) && open.endpoints == es;
      if Close(st).Ok? && Finish(open).Ok? {
        var done := Finish(open).value;
        Associative(st.interfaces, [done], more);
        Associative(Close(st).value, [done], more);
        if st.current.Some? {
          Associative(st.interfaces + [Finish(st.current.value).value], [done], more);
        }
      }
    }
  }

  lemma OtherContinues(st: BodyState, d: Chunk, g: Groups)
    requires d[1] != 0x04
    ensures Continued(st, Groups([d] + g.head, g.interfaces))
         == match ParseDescriptor(st, d) case Ok(st') => Continued(st', g) case Err(_) => None
  {
    OthersAreShorter(g.head);
    var ds := [d] + g.head;
    assert ds[0] == d && ds[1..] == g.head;
    if st.current.None? {
      Associative(st.extras, [d], g.head);
      assert Others(ds) == ds <==> d[1] != 0x05 && Others(g.head) == g.head;
    } else {
      var open := st.current.value;
      assert [] + Others(g.head) == Others(g.head);
      Associative(open.extras, [d], Others(g.head));
      if EndpointsOf(g.head).Some? && d[1] == 0x05 && |d| == 7 {
        Associative(open.endpoints, [EndpointOf(d).value], EndpointsOf(g.head).value);
      }
    }
  }

  lemma {:induction false} ParserContinues(body: seq<u8>, st: BodyState)
    ensures ParsedParts(body, st)
         == match Chunks(body) case Some(ds) => Continued(st, Grouped(ds)) case None => None
    decreases |body|
  {
    if body == [] {
      NothingLeft(st);
    } else if HeaderOk(body) {
      var d: Chunk, rest := body[..body[0]], body[body[0]..];
      if Chunks(rest).Some? {
        var ds := Chunks(rest).value;
        assert ([d] + ds)[1..] == ds;
        if d[1] == 0x04 {
          InterfaceContinues(st, d, Grouped(ds));
        } else {
          OtherContinues(st, d, Grouped(ds));
        }
      }
      if ParseDescriptor(st, d).Ok? {
        ParserContinues(rest, ParseDescriptor(st, d).value);
      }
    }
  }

  lemma ParserIsGrouping(body: seq<u8>)
    ensures ParsedParts(body, NOTHING_PARSED)
         == match PartsFrom(body) case Some((extras, interfaces)) => Some((extras, interfaces)) case None => None
  {
    ParserContinues(body, NOTHING_PARSED);
    assert forall x: seq<seq<u8>> :: [] + x == x;
    assert forall x: seq<Interface> :: [] + x == x;
  }

  lemma {:induction false} OneError(body: seq<u8>, st: BodyState)
    ensures ParseBody(body, st).Err? ==> ParseBody(body, st).error == InvalidDescriptorSet
    decreases |body|
  {
    if HeaderOk(body) {
      var parsed := ParseDescriptor(st, body[..body[0]]);
      if parsed.Ok? {
        OneError(body[body[0]..], parsed.value);
      }
    }
  }

  // Exactly which bytes are a configuration, and which one: nine bytes of header that announce the
  // total length and the number of interfaces, and a body that groups into that many, each with as
  // many endpoints as it announces.
  lemma ConfigurationIsGrouped(bytes: seq<u8>)
    requires |bytes| >= 9
    ensures var total := bytes[2] as int + 256 * bytes[3] as int;
            DecodeConfiguration(bytes)
            == if bytes[0] != 9 || bytes[1] != 2 || !(9 <= total <= |bytes|) then Err(InvalidDescriptorSet)
               else
                 match PartsFrom(bytes[9..total])
                 case None => Err(InvalidDescriptorSet)
                 case Some((extras, interfaces)) =>
                   if |interfaces| != bytes[4] then Err(InvalidDescriptorSet)
                   else Ok((Configuration(ConfigurationDescriptor(bytes[5], bytes[6], bytes[7], bytes[8]),
                                          extras, interfaces), bytes[total..]))
  {
    assert bytes[..9][2..4] == bytes[2..4];
    var total := bytes[2] as int + 256 * bytes[3] as int;
    if bytes[0] == 9 && bytes[1] == 2 && 9 <= total <= |bytes| {
      ParserIsGrouping(bytes[9..total]);
      OneError(bytes[9..total], NOTHING_PARSED);
      hide ParseBody, PartsFrom;
    }
  }

  // ---- the fixed parts: what is accepted is what would be written

  lemma FixedPartsReencode(b: seq<u8>)
    ensures DeviceOf(b).Ok? ==> var (d, count) := DeviceOf(b).value; DeviceBytes(d, count) == b
    ensures ConfigurationHeaderOf(b).Ok? ==>
              var (d, total, count) := ConfigurationHeaderOf(b).value; ConfigurationHeader(d, total, count) == b
    ensures InterfaceHeaderOf(b).Ok? ==> var (d, count) := InterfaceHeaderOf(b).value; InterfaceHeader(d, count) == b
    ensures EndpointOf(b).Ok? ==> EndpointBytes(EndpointOf(b).value) == b
  {
    if DeviceOf(b).Ok? {
      Le16Inverse(b[2..4]);
      Le16Inverse(b[8..10]);
      Le16Inverse(b[10..12]);
      Le16Inverse(b[12..14]);
      assert b == [b[0], b[1]] + b[2..4] + [b[4], b[5], b[6], b[7]] + b[8..10] + b[10..12] + b[12..14] + b[14..];
    } else if ConfigurationHeaderOf(b).Ok? {
      Le16Inverse(b[2..4]);
      assert b == [b[0], b[1]] + b[2..4] + [b[4], b[5], b[6], b[7], b[8]];
    } else if EndpointOf(b).Ok? {
      Le16Inverse(b[4..6]);
      assert b == [b[0], b[1], b[2], b[3]] + b[4..6] + [b[6]];
    }
  }

  // A sidecar's sixth byte is reserved.
  lemma SidecarReencodes(bytes: seq<u8>)
    requires DecodeSidecar(bytes).Ok?
    ensures var (s, rest) := DecodeSidecar(bytes).value;
            SidecarEncodable(s) && SidecarBytes(s) + rest == bytes[5 := 0]
  {
    var len := ReadLe16(bytes, 6);
    Le16Inverse(bytes[6..8]);
    var (s, rest) := DecodeSidecar(bytes).value;
    assert s.data == bytes[8..8 + len];
    assert bytes == bytes[..3] + [bytes[3], bytes[4], bytes[5]] + bytes[6..8] + bytes[8..8 + len] + rest;
  }

  function SidecarsSize(ss: seq<Sidecar>): nat {
    if ss == [] then 0 else 8 + |ss[0].data| + SidecarsSize(ss[1..])
  }

  lemma {:induction false} SidecarsAccount(bytes: seq<u8>, count: nat, cs: seq<Configuration>)
    requires DecodeSidecars(bytes, count, cs).Ok?
    ensures |ReadSidecars(bytes, count)| == count
    ensures |bytes| == SidecarsSize(ReadSidecars(bytes, count)) + |DecodeSidecars(bytes, count, cs).value.1|
    decreases count
  {
    if count > 0 {
      var (s, rest) := DecodeSidecar(bytes).value;
      SidecarsAccount(rest, count - 1, Attach(cs, s).value);
      assert ([s] + ReadSidecars(rest, count - 1))[1..] == ReadSidecars(rest, count - 1);
    }
  }

  // An accepted set is used up to the last byte: header, device, as many configurations as both of
  // them announce, and as many sidecars as the header does.
  lemma SetAccounts(bytes: seq<u8>)
    requires DecodeSet(bytes).Ok?
    ensures DecodeConfigurations(bytes[26..], bytes[5], []).Ok?
    ensures AllConfigurationsEncodable(DecodeConfigurations(bytes[26..], bytes[5], []).value.0)
    ensures |DecodeSet(bytes).value.configurations| == bytes[5]
    ensures var ds := DecodeSet(bytes).value;
            var (cs, rest) := DecodeConfigurations(bytes[26..], bytes[5], []).value;
            var sidecars := ReadSidecars(rest, ReadLe16(bytes, 6));
            && bytes[..5] == ['W' as u8, 'D' as u8, 'E' as u8, 'S' as u8, 1]
            && bytes[8..26] == DeviceBytes(ds.device, |ds.configurations|)
            && |sidecars| == ReadLe16(bytes, 6)
            && |bytes| == 26 + ConfigurationsSize(cs) + SidecarsSize(sidecars)
  {
    var (cs, rest) := DecodeConfigurations(bytes[26..], bytes[5], []).value;
    var count := ReadLe16(bytes, 6);
    FixedPartsReencode(bytes[8..26]);
    DecodedConfigurations(bytes[26..], bytes[5], []);
    SidecarsAccount(rest, count, cs);
    SidecarsKeepCount(rest, count, cs);
    assert bytes[..5] == bytes[..4] + [bytes[4]];
    hide DeviceOf, DeviceBytes, DecodeConfigurations, ReadSidecars, ConfigurationsSize;
  }

  lemma {:induction false} SidecarsKeepCount(bytes: seq<u8>, count: nat, cs: seq<Configuration>)
    requires DecodeSidecars(bytes, count, cs).Ok?
    ensures |DecodeSidecars(bytes, count, cs).value.0| == |cs|
    decreases count
  {
    if count > 0 {
      var (s, rest) := DecodeSidecar(bytes).value;
      SidecarsKeepCount(rest, count - 1, Attach(cs, s).value);
    }
  }
}

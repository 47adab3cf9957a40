/** Whole packets: WriteTo of every packet type and ParsePacket (aurp/aurp.go,
    aurp/open.go, aurp/routing_info.go, aurp/router_down.go, aurp/zone_info.go). */
module Packets {
  import opened Routes
  import opened Wire
  import opened ZoneWire

  /** Signed 16-bit fields are kept as their two's complement. */
  const MINUS_ONE := 0xFFFF

  datatype Packet =
    | AppleTalk(domain: DomainHeader, data: Bytes)
    | OpenReq(header: Header, version: U16, options: seq<OptionTuple>)
    | OpenRsp(header: Header, rateOrErr: U16, options: seq<OptionTuple>)
    | RIReq(header: Header)
    | RIRsp(header: Header, nets: seq<NetworkTuple>)
    | RIAck(header: Header)
    | RIUpd(header: Header, events: seq<EventTuple>)
    | RD(header: Header, code: U16)
    | ZIReq(header: Header, networks: seq<U16>)
    | ZIRsp(header: Header, zones: seq<ZoneTuple>)
    | ZIRspExt(header: Header, total: U16, zones: seq<ZoneTuple>)
    | GDZLReq(header: Header, startIndex: U16)
    | GDZLRsp(header: Header, startIndex: U16, names: seq<Bytes>)
    | GZNReq(header: Header, name: Bytes)
    | GZNRsp(header: Header, name: Bytes, notSupported: bool, nets: seq<NetworkTuple>)
    | Tickle(header: Header)
    | TickleAck(header: Header)

  function Command(p: Packet): U16
    requires !p.AppleTalk?
  {
    match p
    case RIReq(_) => 1
    case RIRsp(_, _) => 2
    case RIAck(_) => 3
    case RIUpd(_, _) => 4
    case RD(_, _) => 5
    case ZIReq(_, _) => 6
    case GDZLReq(_, _) => 6
    case GZNReq(_, _) => 6
    case ZIRsp(_, _) => 7
    case ZIRspExt(_, _, _) => 7
    case GDZLRsp(_, _, _) => 7
    case GZNRsp(_, _, _, _) => 7
    case OpenReq(_, _, _) => 8
    case OpenRsp(_, _, _) => 9
    case Tickle(_) => 14
    case TickleAck(_) => 15
  }

  // ----- Lists in zone packets -----

  function WriteNumbers(ns: seq<U16>): Bytes {
    if ns == [] then [] else Be16(ns[0]) + WriteNumbers(ns[1..])
  }

  function ParseNumbers(p: Bytes): Option<seq<U16>> {
    if |p| == 0 then Some([]) else if |p| == 1 then None else Prepend([U16At(p, 0)], ParseNumbers(p[2..]))
  }

  lemma {:induction false} NumbersRoundTrip(ns: seq<U16>)
    ensures ParseNumbers(WriteNumbers(ns)) == Some(ns)
  {
    if ns != [] {
      NumbersRoundTrip(ns[1..]);
      U16AtBe16(ns[0], WriteNumbers(ns[1..]));
      assert ns == [ns[0]] + ns[1..];
    }
  }

  /** Length-prefixed names. */
  function WriteNames(names: seq<Bytes>): Option<Bytes> {
    if names == [] then Some([])
    else if |names[0]| > MAX_NAME || WriteNames(names[1..]).None? then None
    else Some([|names[0]|] + names[0] + WriteNames(names[1..]).value)
  }

  function ParseNames(p: Bytes): Option<seq<Bytes>> {
    if |p| == 0 then Some([])
    else if |p| - 1 < p[0] then None
    else Prepend([p[1..1 + p[0] as int]], ParseNames(p[1 + p[0] as int..]))
  }

  lemma {:induction false} NamesRoundTrip(names: seq<Bytes>)
    requires forall i :: 0 <= i < |names| ==> |names[i]| <= MAX_NAME
    ensures WriteNames(names).Some? && ParseNames(WriteNames(names).value) == Some(names)
  {
    if names != [] {
      NamesRoundTrip(names[1..]);
      var rest := WriteNames(names[1..]).value;
      var p := [|names[0]|] + names[0] + rest;
      assert p[1..1 + |names[0]|] == names[0] && p[1 + |names[0]|..] == rest;
      assert names == [names[0]] + names[1..];
    }
  }

  /** Long tuples of an extended ZI-Rsp. */
  function WriteExtended(zs: seq<ZoneTuple>): Option<Bytes> {
    if zs == [] then Some([])
    else if |zs[0].name| > MAX_NAME || WriteExtended(zs[1..]).None? then None
    else Some(Be16(zs[0].network) + ([|zs[0].name|] + zs[0].name) + WriteExtended(zs[1..]).value)
  }

  /** All tuples must be of one network: that of the first. */
  function ParseExtended(p: Bytes, network: Option<U16>): Option<seq<ZoneTuple>> {
    if |p| == 0 then Some([])
    else if |p| < 3 || p[2] >= 0x80 || |p| - 3 < p[2] then None
    else if network.Some? && U16At(p, 0) != network.value then None
    else Prepend([ZoneTuple(U16At(p, 0), p[3..3 + p[2] as int])],
                 ParseExtended(p[3 + p[2] as int..], Some(U16At(p, 0))))
  }

  predicate OneNetwork(zs: seq<ZoneTuple>, network: Option<U16>) {
    && (network.Some? && zs != [] ==> zs[0].network == network.value)
    && forall i :: 0 <= i < |zs| ==> zs[i].network == zs[0].network
  }

  /** The fields of the first tuple are where the parser looks. */
  lemma ExtendedHead(z: ZoneTuple, rest: Bytes)
    requires |z.name| <= MAX_NAME
    ensures var p := Be16(z.network) + ([|z.name|] + z.name) + rest;
            && |p| == 3 + |z.name| + |rest| && U16At(p, 0) == z.network && p[2] == |z.name|
            && p[3..3 + |z.name|] == z.name && p[3 + |z.name|..] == rest
  {
  }

  lemma ExtendedStep(z: ZoneTuple, rest: Bytes, network: Option<U16>)
    requires |z.name| <= MAX_NAME && (network.Some? ==> network.value == z.network)
    ensures ParseExtended(Be16(z.network) + ([|z.name|] + z.name) + rest, network) ==
              Prepend([z], ParseExtended(rest, Some(z.network)))
  {
    ExtendedHead(z, rest);
  }

  lemma {:induction false} ExtendedRoundTrip(zs: seq<ZoneTuple>, network: Option<U16>)
    requires NamesFit(zs) && OneNetwork(zs, network)
    ensures WriteExtended(zs).Some? && ParseExtended(WriteExtended(zs).value, network) == Some(zs)
  {
    if zs != [] {
      var z := zs[0];
      if |zs| > 1 { assert zs[1..][0] == zs[1]; }
      ExtendedRoundTrip(zs[1..], Some(z.network));
      var rest := WriteExtended(zs[1..]).value;
      ExtendedStep(z, rest, network);
      assert zs == [z] + zs[1..];
    }
  }

  /** The parser lets no second network through. */
  lemma {:induction false} ParsedOneNetwork(p: Bytes, network: Option<U16>)
    ensures ParseExtended(p, network).Some? ==> OneNetwork(ParseExtended(p, network).value, network)
    decreases |p|
  {
    if ParseExtended(p, network).Some? && |p| > 0 {
      var rest := ParseExtended(p[3 + p[2] as int..], Some(U16At(p, 0)));
      ParsedOneNetwork(p[3 + p[2] as int..], Some(U16At(p, 0)));
      var zs := ParseExtended(p, network).value;
      assert zs == [zs[0]] + rest.value;
      forall i | 0 <= i < |zs| ensures zs[i].network == zs[0].network {
        if i > 0 { assert zs[i] == rest.value[i - 1]; }
      }
    }
  }

  method ParseExtendedZones(input: Bytes) returns (r: Option<seq<ZoneTuple>>)
    ensures r == ParseExtended(input, None)
  {
    var p, zs := input, [];
    var network: Option<U16> := None;
    PrependNothing(zs, ParseExtended(p, None));
    while |p| > 0
      invariant ParseExtended(input, None) == Prepend(zs, ParseExtended(p, network))
      invariant zs == [] <==> network.None?
      decreases |p|
    {
      if |p| < 3 {
        return None;
      }
      var n, nameLen := U16At(p, 0), p[2];
      if nameLen >= 0x80 || |p| - 3 < nameLen {
        return None;
      }
      if |zs| == 0 {
        network := Some(n);
      } else if n != network.value {
        return None;
      }
      var rest := p[3 + nameLen as int..];
      PrependMore(zs, ZoneTuple(n, p[3..3 + nameLen as int]), ParseExtended(rest, Some(n)));
      zs := zs + [ZoneTuple(n, p[3..3 + nameLen as int])];
      p := rest;
    }
    assert zs + [] == zs;
    return Some(zs);
  }

  // ----- Payloads -----

  /** What follows the headers; None where WriteTo returns an error. */
  function WritePayload(p: Packet): Option<Bytes> {
    match p
    case AppleTalk(_, data) => Some(data)
    case OpenReq(_, version, os) => WriteOpen(version, os)
    case OpenRsp(_, rate, os) => WriteOpen(rate, os)
    case RIRsp(_, nets) => Some(WriteNetworks(nets))
    case RIUpd(_, events) => Some(WriteEvents(events))
    case RD(_, code) => Some(Be16(code))
    case ZIReq(_, ns) => Some(Be16(1) + WriteNumbers(ns))
    case ZIRsp(_, zs) => if WriteZones(zs).None? then None else Some(Be16(1) + WriteZones(zs).value)
    case ZIRspExt(_, total, zs) =>
      if WriteExtended(zs).None? then None
      else Some(Be16(2) + (Be16(if total == 0 then |zs| % 0x1_0000 else total) + WriteExtended(zs).value))
    case GDZLReq(_, start) => Some(Be16(4) + Be16(start))
    case GDZLRsp(_, start, names) =>
      if WriteNames(names).None? then None
      else Some(Be16(4) + (Be16(start) + if start == MINUS_ONE then [] else WriteNames(names).value))
    case GZNReq(_, name) => if |name| > MAX_NAME then None else Some(Be16(3) + ([|name|] + name))
    case GZNRsp(_, name, notSupported, nets) =>
      if |name| > MAX_NAME then None
      else Some(Be16(3) + ([|name|] + if notSupported then Be16(0xFFFF) else WriteNetworks(nets)))
    case _ => Some([])
  }

  function WriteOpen(word: U16, os: seq<OptionTuple>): Option<Bytes> {
    if WriteOptions(os).None? then None else Some(Be16(word) + WriteOptions(os).value)
  }

  function WritePacket(p: Packet): Option<Bytes> {
    var header := if p.AppleTalk? then WriteDomainHeader(p.domain) else WriteHeader(p.header);
    var payload := WritePayload(p);
    if header.None? || payload.None? then None else Some(header.value + payload.value)
  }

  function ParseZoneReq(h: Header, p: Bytes): Option<Packet> {
    if |p| < 2 then None else
    var code, r := U16At(p, 0), p[2..];
    if code == 1 then
      if ParseNumbers(r).None? then None else Some(ZIReq(h, ParseNumbers(r).value))
    else if code == 4 then
      if |r| < 2 then None else Some(GDZLReq(h, U16At(r, 0)))
    else if code == 3 then
      if |r| < 1 || |r| - 1 < r[0] then None else Some(GZNReq(h, r[1..1 + r[0] as int]))
    else None
  }

  function ParseZoneRsp(h: Header, p: Bytes): Option<Packet> {
    if |p| < 2 then None else
    var code, r := U16At(p, 0), p[2..];
    if code == 1 then
      if ParseZones(r).None? then None else Some(ZIRsp(h, ParseZones(r).value))
    else if code == 2 then
      if |r| < 2 || ParseExtended(r[2..], None).None? then None
      else Some(ZIRspExt(h, U16At(r, 0), ParseExtended(r[2..], None).value))
    else if code == 4 then
      if |r| < 2 then None
      else if U16At(r, 0) == MINUS_ONE then Some(GDZLRsp(h, MINUS_ONE, []))
      else if ParseNames(r[2..]).None? then None
      else Some(GDZLRsp(h, U16At(r, 0), ParseNames(r[2..]).value))
    else if code == 3 then
      if |r| < 1 || |r| - 1 < r[0] then None else
      var name, rest := r[1..1 + r[0] as int], r[1 + r[0] as int..];
      if |rest| < 2 then None
      else if rest[0] == 0xFF && rest[1] == 0xFF then Some(GZNRsp(h, name, true, []))
      else if ParseNetworks(rest).None? then None
      else Some(GZNRsp(h, name, false, ParseNetworks(rest).value))
    else None
  }

  function ParseRouting(h: Header, p: Bytes): Option<Packet> {
    if h.command == 8 || h.command == 9 then
      if |p| < 3 || ParseOptions(p[2..]).None? then None
      else if h.command == 8 then Some(OpenReq(h, U16At(p, 0), ParseOptions(p[2..]).value))
      else Some(OpenRsp(h, U16At(p, 0), ParseOptions(p[2..]).value))
    else if h.command == 1 then Some(RIReq(h))
    else if h.command == 2 then if ParseNetworks(p).None? then None else Some(RIRsp(h, ParseNetworks(p).value))
    else if h.command == 3 then Some(RIAck(h))
    else if h.command == 4 then if ParseEvents(p).None? then None else Some(RIUpd(h, ParseEvents(p).value))
    else if h.command == 5 then if |p| < 2 then None else Some(RD(h, U16At(p, 0)))
    else if h.command == 6 then ParseZoneReq(h, p)
    else if h.command == 7 then ParseZoneRsp(h, p)
    else if h.command == 14 then Some(Tickle(h))
    else if h.command == 15 then Some(TickleAck(h))
    else None
  }

  function ParsePacket(b: Bytes): Option<Packet> {
    var d := ParseDomainHeader(b);
    if d.None? || d.value.0.version != 1 then None
    else if d.value.0.packetType == APPLETALK_PACKET then Some(AppleTalk(d.value.0, d.value.1))
    else if d.value.0.packetType != ROUTING_PACKET then None
    else
      var h := ParseHeader(d.value.0, d.value.1);
      if h.None? then None else ParseRouting(h.value.0, h.value.1)
  }

  // ----- Round trip -----

  predicate ValidDomain(d: DomainHeader, packetType: U16) {
    ValidDI(d.dst) && ValidDI(d.src) && d.version == 1 && d.packetType == packetType
  }

  /** What a packet must be for its encoding to carry it. */
  ghost predicate WellFormed(p: Packet) {
    && (if p.AppleTalk? then ValidDomain(p.domain, APPLETALK_PACKET)
        else ValidDomain(p.header.domain, ROUTING_PACKET) && p.header.command == Command(p))
    && match p
       case OpenReq(_, _, os) => |os| <= 255 && forall i :: 0 <= i < |os| ==> |os[i].data| <= 254
       case OpenRsp(_, _, os) => |os| <= 255 && forall i :: 0 <= i < |os| ==> |os[i].data| <= 254
       case RIRsp(_, nets) => forall i :: 0 <= i < |nets| ==> ValidNetwork(nets[i])
       case RIUpd(_, events) => forall i :: 0 <= i < |events| ==> ValidEvent(events[i])
       case ZIRsp(_, zs) => |zs| <= 0xFFFF && NamesFit(zs) && Addressable(zs)
       case ZIRspExt(_, total, zs) => NamesFit(zs) && OneNetwork(zs, None) && (total != 0 || zs == [])
       case GDZLRsp(_, start, names) =>
         (start == MINUS_ONE ==> names == []) && forall i :: 0 <= i < |names| ==> |names[i]| <= MAX_NAME
       case GZNReq(_, name) => |name| <= MAX_NAME
       case GZNRsp(_, name, notSupported, nets) =>
         && |name| <= MAX_NAME && (forall i :: 0 <= i < |nets| ==> ValidNetwork(nets[i]))
         && (notSupported ==> nets == [])
       case _ => true
  }

  lemma ZoneReqRoundTrip(p: Packet)
    requires WellFormed(p) && (p.ZIReq? || p.GDZLReq? || p.GZNReq?)
    ensures ParseZoneReq(p.header, WritePayload(p).value) == Some(p)
  {
    var b := WritePayload(p).value;
    match p
    case ZIReq(_, ns) =>
      U16AtBe16(1, WriteNumbers(ns));
      NumbersRoundTrip(ns);
    case GDZLReq(_, start) =>
      U16AtBe16(4, Be16(start));
    case GZNReq(_, name) =>
      U16AtBe16(3, [|name|] + name);
      assert ([|name|] + name)[1..1 + |name|] == name;
  }

  lemma ZoneRspRoundTrip(p: Packet)
    requires WellFormed(p) && (p.ZIRsp? || p.ZIRspExt? || p.GDZLRsp?)
    ensures WritePayload(p).Some? && ParseZoneRsp(p.header, WritePayload(p).value) == Some(p)
  {
    match p
    case ZIRsp(_, zs) =>
      ZonesRoundTrip(zs);
      U16AtBe16(1, WriteZones(zs).value);
    case ZIRspExt(_, _, _) => ZoneExtRoundTrip(p);
    case GDZLRsp(_, _, _) => ZoneListRoundTrip(p);
  }

  lemma ZoneExtRoundTrip(p: Packet)
    requires WellFormed(p) && p.ZIRspExt?
    ensures WritePayload(p).Some? && ParseZoneRsp(p.header, WritePayload(p).value) == Some(p)
  {
    ExtendedRoundTrip(p.zones, None);
    U16AtBe16(2, Be16(p.total) + WriteExtended(p.zones).value);
    U16AtBe16(p.total, WriteExtended(p.zones).value);
  }

  lemma ZoneListRoundTrip(p: Packet)
    requires WellFormed(p) && p.GDZLRsp?
    ensures WritePayload(p).Some? && ParseZoneRsp(p.header, WritePayload(p).value) == Some(p)
  {
    NamesRoundTrip(p.names);
    var tail := if p.startIndex == MINUS_ONE then [] else WriteNames(p.names).value;
    U16AtBe16(4, Be16(p.startIndex) + tail);
    U16AtBe16(p.startIndex, tail);
  }

  lemma OpenRoundTrip(word: U16, os: seq<OptionTuple>)
    requires |os| <= 255 && forall i :: 0 <= i < |os| ==> |os[i].data| <= 254
    ensures WriteOpen(word, os).Some?
    ensures var b := WriteOpen(word, os).value; |b| >= 3 && U16At(b, 0) == word && ParseOptions(b[2..]) == Some(os)
  {
    OptionListRoundTrip(os);
    U16AtBe16(word, WriteOptions(os).value);
    assert WriteOptions(os).value[1..] == WriteOptionList(os).value;
  }

  lemma RoutingRoundTrip(p: Packet)
    requires WellFormed(p) && !p.AppleTalk? && !p.GZNRsp?
    ensures WritePayload(p).Some? && ParseRouting(p.header, WritePayload(p).value) == Some(p)
  {
    match p
    case OpenReq(_, v, os) => OpenRoundTrip(v, os);
    case OpenRsp(_, v, os) => OpenRoundTrip(v, os);
    case RIRsp(_, nets) => NetworksRoundTrip(nets);
    case RIUpd(_, events) => EventsRoundTrip(events);
    case ZIReq(_, _) => ZoneReqRoundTrip(p);
    case GDZLReq(_, _) => ZoneReqRoundTrip(p);
    case GZNReq(_, _) => ZoneReqRoundTrip(p);
    case ZIRsp(_, _) => ZoneRspRoundTrip(p);
    case ZIRspExt(_, _, _) => ZoneRspRoundTrip(p);
    case GDZLRsp(_, _, _) => ZoneRspRoundTrip(p);
    case _ =>
  }

  /** A parsed routing packet is its header's and its payload's. */
  lemma RoutingParsed(h: Header, payload: Bytes)
    requires ValidDomain(h.domain, ROUTING_PACKET)
    ensures WriteHeader(h).Some? && ParsePacket(WriteHeader(h).value + payload) == ParseRouting(h, payload)
  {
    HeaderRoundTrip(h, payload);
  }

  /** ParsePacket inverts WriteTo for every kind of packet but GZN-Rsp. */
  lemma PacketRoundTrip(p: Packet)
    requires WellFormed(p) && !p.GZNRsp?
    ensures WritePacket(p).Some? && ParsePacket(WritePacket(p).value) == Some(p)
  {
    if p.AppleTalk? {
      DomainHeaderRoundTrip(p.domain, p.data);
    } else {
      RoutingRoundTrip(p);
      RoutingParsed(p.header, WritePayload(p).value);
    }
  }

  // ----- GZN-Rsp -----

  /** Parsed tuples take as many bytes as they were parsed from. */
  lemma {:induction false} ParsedSize(p: Bytes)
    requires ParseNetworks(p).Some?
    ensures |WriteNetworks(ParseNetworks(p).value)| == |p|
    decreases |p|
  {
    if p != [] {
      var first := ParseNetwork(p).value;
      ParsedSize(first.1);
      var ts := ParseNetworks(p).value;
      assert ts[0] == first.0 && ts[1..] == ParseNetworks(first.1).value;
    }
  }

  /** What is written of a GZN-Rsp after the name's length. */
  function GznTail(p: Packet): Bytes
    requires p.GZNRsp?
  {
    if p.notSupported then Be16(0xFFFF) else WriteNetworks(p.nets)
  }

  lemma WrittenWhole(p: Packet, payload: Bytes)
    requires !p.AppleTalk? && WritePayload(p) == Some(payload) && WriteHeader(p.header).Some?
    ensures WritePacket(p) == Some(WriteHeader(p.header).value + payload)
  {
  }

  lemma ZoneRspCommand(h: Header, payload: Bytes)
    requires h.command == 7
    ensures ParseRouting(h, payload) == ParseZoneRsp(h, payload)
  {
  }

  lemma GznPayload(p: Packet)
    requires WellFormed(p) && p.GZNRsp?
    ensures WritePayload(p) == Some(Be16(3) + ([|p.name|] + GznTail(p)))
  {
  }

  lemma GznRspParsed(p: Packet)
    requires WellFormed(p) && p.GZNRsp?
    ensures WritePacket(p).Some?
    ensures ParsePacket(WritePacket(p).value) == ParseZoneRsp(p.header, Be16(3) + ([|p.name|] + GznTail(p)))
  {
    var payload := Be16(3) + ([|p.name|] + GznTail(p));
    GznPayload(p);
    RoutingParsed(p.header, payload);
    WrittenWhole(p, payload);
    ZoneRspCommand(p.header, payload);
  }

  /** The writer of a GZN-Rsp leaves out the zone name, so it survives exactly when
      the name is empty and the answer is either "not supported" or tuples that
      do not look like it. */
  lemma GznRspRoundTripsIff(p: Packet)
    requires WellFormed(p) && p.GZNRsp?
    ensures WritePacket(p).Some?
    ensures ParsePacket(WritePacket(p).value) == Some(p) <==>
            p.name == [] && (p.notSupported || (p.nets != [] && p.nets[0].start != 0xFFFF))
  {
    GznRspParsed(p);
    if p.name == [] {
      GznNameless(p);
    } else {
      GznNamed(p);
    }
  }

  lemma GznNameless(p: Packet)
    requires WellFormed(p) && p.GZNRsp? && p.name == []
    ensures ParseZoneRsp(p.header, Be16(3) + ([0] + GznTail(p))) == Some(p) <==>
            p.notSupported || (p.nets != [] && p.nets[0].start != 0xFFFF)
  {
    var tail := GznTail(p);
    var r := [0] + tail;
    U16AtBe16(3, r);
    assert r[1..] == tail && r[1..1] == [];
    if !p.notSupported {
      NetworksRoundTrip(p.nets);
      if p.nets != [] {
        var b := Be16(p.nets[0].start);
        assert tail[0] == b[0] && tail[1] == b[1];
      }
    }
  }

  lemma GznNamed(p: Packet)
    requires WellFormed(p) && p.GZNRsp? && p.name != []
    ensures ParseZoneRsp(p.header, Be16(3) + ([|p.name|] + GznTail(p))) != Some(p)
  {
    var tail := GznTail(p);
    var r := [|p.name|] + tail;
    U16AtBe16(3, r);
    if |tail| >= |p.name| {
      var rest := r[1 + |p.name|..];
      assert |rest| < |tail|;
      if |rest| >= 2 && !(rest[0] == 0xFF && rest[1] == 0xFF) && ParseNetworks(rest).Some? {
        ParsedSize(rest);
      }
    }
  }

  /** An answer to a request for a one-letter zone does not survive. */
  lemma GznRspFails()
    ensures var domain := DomainHeader(NullDI, NullDI, 1, 0, ROUTING_PACKET);
            var p := GZNRsp(Header(domain, 1, 0, 7, 0), [0x41], true, []);
            WellFormed(p) && WritePacket(p).Some? && ParsePacket(WritePacket(p).value) != Some(p)
  {
    var domain := DomainHeader(NullDI, NullDI, 1, 0, ROUTING_PACKET);
    GznRspRoundTripsIff(GZNRsp(Header(domain, 1, 0, 7, 0), [0x41], true, []));
  }
}

/** Where every field is: the bytes of headers, tuples and packets, spelled out
    (RFC 1504 and the writers of aurp/). */
module Layout {
  import opened Routes
  import opened Wire
  import opened ZoneWire
  import opened Packets

  predicate Writes(r: Option<Bytes>, b: Bytes) { r.Some? && r.value == b }

  /** Big-endian. */
  lemma Number(n: U16)
    ensures Be16(n) == [n / 256, n % 256]
    ensures forall p: Bytes, i: nat :: i + 2 <= |p| ==> U16At(p, i) == 256 * (p[i] as int) + p[i + 1] as int
  {
  }

  /** Two domain identifiers, each with its length and type in front and the address of
      an IP one after two unused bytes; then version, reserved field and packet type. */
  lemma DomainLayout(a: Byte, b: Byte, c: Byte, d: Byte, h: DomainHeader)
    ensures h.dst == IpDI([a, b, c, d]) && h.src == NullDI ==>
              Writes(WriteDomainHeader(h),
                     [7, 1, 0, 0, a, b, c, d, 1, 0, h.version / 256, h.version % 256,
                      h.reserved / 256, h.reserved % 256,
                    h.packetType / 256, h.packetType % 256])
    ensures h.dst == NullDI && h.src == IpDI([a, b, c, d]) ==>
              Writes(WriteDomainHeader(h),
                     [1, 0, 7, 1, 0, 0, a, b, c, d, h.version / 256, h.version % 256,
                      h.reserved / 256, h.reserved % 256,
                    h.packetType / 256, h.packetType % 256])
  {
  }

  /** After it: connection ID, sequence number, command and flags. */
  lemma HeaderLayout(h: Header)
    requires h.domain == DomainHeader(NullDI, NullDI, 1, 0, 3)
    ensures Writes(WriteHeader(h),
                     [1, 0, 1, 0, 0, 1, 0, 0, 0, 3, h.connId / 256, h.connId % 256, h.sequence / 256, h.sequence % 256,
                    h.command / 256, h.command % 256, h.flags / 256, h.flags % 256])
  {
  }

  /** A network tuple: start, distance, and for a range the distance marked, the end and
      a zero. */
  lemma NetworkLayout(t: NetworkTuple)
    requires t.distance < 0x80
    ensures !t.extended ==> WriteNetwork(t) == [t.start / 256, t.start % 256, t.distance]
    ensures t.extended ==>
              WriteNetwork(t) == [t.start / 256, t.start % 256, 0x80 + t.distance, t.end / 256, t.end % 256, 0]
  {
  }

  /** An event tuple: its code, and but for a null event the same, without the zero. */
  lemma EventLayout(t: EventTuple)
    requires t.distance < 0x80
    ensures t.code == 0 ==> WriteEvent(t) == [0]
    ensures t.code != 0 && !t.extended ==> WriteEvent(t) == [t.code, t.start / 256, t.start % 256, t.distance]
    ensures t.code != 0 && t.extended ==>
              WriteEvent(t) == [t.code, t.start / 256, t.start % 256, 0x80 + t.distance, t.end / 256, t.end % 256]
  {
  }

  /** A zone tuple whose name is new: network, length and name. Its offset counts from the
      first length byte. */
  lemma LongLayout(b: Body, z: ZoneTuple)
    requires |z.name| <= 127 && z.name !in b.offsets
    ensures AddTuple(b, z).bytes == b.bytes + [z.network / 256, z.network % 256, |z.name|] + z.name
    ensures AddTuple(b, z).offsets == b.offsets[z.name := |b.bytes| % 65536]
  {
  }

  /** One whose name was written: network, and the offset with the high bit set. */
  lemma ShortLayout(b: Body, z: ZoneTuple)
    requires |z.name| <= 127 && z.name in b.offsets && b.offsets[z.name] < 0x8000
    ensures var o := b.offsets[z.name];
            AddTuple(b, z).bytes == b.bytes + [z.network / 256, z.network % 256, 0x80 + o / 256, o % 256]
    ensures AddTuple(b, z).offsets == b.offsets
  {
    var o := b.offsets[z.name];
    assert Be16(0x8000 + o) == [0x80 + o / 256, o % 256];
    assert Marked(o) == 0x8000 + o;
  }

  /** Two tuples with one name, after their number. */
  lemma ZonesLayout(m: U16, n: U16, name: Bytes)
    requires |name| <= 127
    ensures Writes(WriteZones([ZoneTuple(m, name), ZoneTuple(n, name)]),
                   [0, 2, m / 256, m % 256, |name|] + name + [n / 256, n % 256, 0x80, 0])
  {
    var zs := [ZoneTuple(m, name), ZoneTuple(n, name)];
    var none: Body := Body([], map[]);
    assert zs[..0] == [] && WriteBody(zs[..0]) == none;
    BodyPush(zs, 0);
    BodyPush(zs, 1);
    LongLayout(none, zs[0]);
    ShortLayout(WriteBody(zs[..1]), zs[1]);
    assert zs[..2] == zs;
  }

  // ----- Refusals -----

  /** What is parsed has a version, a packet type, a command and a subcode that exist. */
  lemma OnlyKnown(b: Bytes, h: Header)
    ensures ParsePacket(b).Some? ==>
              var d := ParseDomainHeader(b);
              d.Some? && d.value.0.version == 1 && (d.value.0.packetType == 2 || d.value.0.packetType == 3)
    ensures ParseRouting(h, b).Some? ==> 1 <= h.command <= 9 || h.command == 14 || h.command == 15
    ensures ParseZoneReq(h, b).Some? ==> |b| >= 2 && b[0] == 0 && (b[1] == 1 || b[1] == 3 || b[1] == 4)
    ensures ParseZoneRsp(h, b).Some? ==> |b| >= 2 && b[0] == 0 && 1 <= b[1] <= 4
  {
  }

  /** Half a network number, an option too many or too few, and a name cut short are
      refused; after "not supported" in a GDZL-Rsp nothing matters. */
  lemma {:induction false} Cut(p: Bytes, count: nat)
    ensures |p| % 2 == 1 ==> ParseNumbers(p).None?
    ensures ParseOptionList(count, p).Some? ==> |ParseOptionList(count, p).value| == count
    ensures |p| > 0 && |p| - 1 < p[0] ==> ParseNames(p).None?
    decreases |p|, count
  {
    if |p| >= 2 { Cut(p[2..], 0); }
    if count > 0 {
      var first := ParseOption(p);
      if first.Some? { Cut(first.value.1, count - 1); }
    }
  }

  lemma NotSupported(h: Header, rest: Bytes)
    ensures ParseZoneRsp(h, [0, 4, 0xFF, 0xFF] + rest) == Some(GDZLRsp(h, 0xFFFF, []))
  {
    var b: Bytes := [0, 4, 0xFF, 0xFF] + rest;
    assert b[2..][0] == 0xFF && b[2..][1] == 0xFF;
  }

  /** The command of every kind of packet. */
  lemma Commands(p: Packet)
    requires !p.AppleTalk?
    ensures Command(p) ==
              if p.RIReq? then 1
              else if p.RIRsp? then 2
              else if p.RIAck? then 3
              else if p.RIUpd? then 4
              else if p.RD? then 5
              else if p.ZIReq? || p.GDZLReq? || p.GZNReq? then 6
              else if p.ZIRsp? || p.ZIRspExt? || p.GDZLRsp? || p.GZNRsp? then 7
              else if p.OpenReq? then 8
              else if p.OpenRsp? then 9
              else if p.Tickle? then 14
              else 15
  {
  }

  /** What follows the headers: version or rate, the number of options, and each with its
      length and type. */
  lemma OpenPayloads(h: Header, word: U16, kind: Byte, data: Bytes)
    requires |data| <= 254
    ensures Writes(WritePayload(OpenReq(h, word, [OptionTuple(kind, data)])),
                   [word / 256, word % 256, 1, 1 + |data|, kind] + data)
    ensures Writes(WritePayload(OpenRsp(h, word, [])), [word / 256, word % 256, 0])
  {
    var os := [OptionTuple(kind, data)];
    assert os[1..] == [] && WriteOptionList([]) == Some([]);
    assert WriteOptionList(os).value == [1 + |data|, kind] + data;
    assert WriteOptions(os).value == [1, 1 + |data|, kind] + data;
  }

  /** Nothing, a code, or the tuples one after the other. */
  lemma RoutingPayloads(h: Header, code: U16, nets: seq<NetworkTuple>, events: seq<EventTuple>)
    ensures Writes(WritePayload(RIReq(h)), []) && Writes(WritePayload(RIAck(h)), [])
    ensures Writes(WritePayload(Tickle(h)), []) && Writes(WritePayload(TickleAck(h)), [])
    ensures Writes(WritePayload(RD(h, code)), [code / 256, code % 256])
    ensures nets == [] ==> Writes(WritePayload(RIRsp(h, nets)), [])
    ensures nets != [] ==>
              Writes(WritePayload(RIRsp(h, nets)), WriteNetwork(nets[0]) + WritePayload(RIRsp(h, nets[1..])).value)
    ensures events == [] ==> Writes(WritePayload(RIUpd(h, events)), [])
    ensures events != [] ==>
              Writes(WritePayload(RIUpd(h, events)), WriteEvent(events[0]) + WritePayload(RIUpd(h, events[1..])).value)
  {
  }

  /** A subcode, and then networks, a start, or a name with its length. */
  lemma ZoneReqPayloads(h: Header, n: U16, name: Bytes)
    requires |name| <= 127
    ensures Writes(WritePayload(ZIReq(h, [n])), [0, 1, n / 256, n % 256])
    ensures Writes(WritePayload(GDZLReq(h, n)), [0, 4, n / 256, n % 256])
    ensures Writes(WritePayload(GZNReq(h, name)), [0, 3, |name|] + name)
  {
    var ns := [n];
    assert ns[1..] == [] && WriteNumbers([]) == [] && WriteNumbers(ns) == Be16(n);
  }

  /** A subcode, and then zone tuples, a total and full tuples, or a start and names; of
      a GZN-Rsp the name's length, but not the name. */
  lemma ZoneRspPayloads(h: Header, m: U16, n: U16, total: U16, name: Bytes)
    requires |name| <= 127 && 0 < total < 0xFFFF
    ensures Writes(WritePayload(ZIRsp(h, [ZoneTuple(m, name), ZoneTuple(n, name)])),
                   [0, 1, 0, 2, m / 256, m % 256, |name|] + name + [n / 256, n % 256, 0x80, 0])
    ensures Writes(WritePayload(ZIRspExt(h, total, [ZoneTuple(n, name)])),
                   [0, 2, total / 256, total % 256, n / 256, n % 256, |name|] + name)
    ensures Writes(WritePayload(GDZLRsp(h, total, [name])), [0, 4, total / 256, total % 256, |name|] + name)
    ensures Writes(WritePayload(GDZLRsp(h, 0xFFFF, [])), [0, 4, 0xFF, 0xFF])
    ensures Writes(WritePayload(GZNRsp(h, name, true, [])), [0, 3, |name|, 0xFF, 0xFF])
  {
    ZonesLayout(m, n, name);
    ExtendedLayout(n, name);
    NamesLayout(name);
  }

  lemma ExtendedLayout(n: U16, name: Bytes)
    requires |name| <= 127
    ensures Writes(WriteExtended([ZoneTuple(n, name)]), [n / 256, n % 256, |name|] + name)
  {
    var zs := [ZoneTuple(n, name)];
    assert zs[1..] == [] && WriteExtended([]) == Some([]);
    assert WriteExtended(zs).value == Be16(n) + ([|name|] + name);
  }

  lemma NamesLayout(name: Bytes)
    requires |name| <= 127
    ensures Writes(WriteNames([name]), [|name|] + name)
  {
    var names := [name];
    assert names[1..] == [] && WriteNames([]) == Some([]);
    assert WriteNames(names).value == [|name|] + name;
  }
}

/** The packets of a zone reply, as the real encoder writes them, fit the datagram
    budget (buildZIRspPackets of router/aurp_zone.go with the writers of
    aurp/zone_info.go). */
module ZoneDatagrams {
  import opened Routes
  import opened Chunking
  import opened ZoneAssembly
  import W = Wire
  import Z = ZoneWire
  import P = Packets
  import D = Datagrams

  /** Zone names are strings of bytes. */
  predicate OneByte(name: string) { forall i :: 0 <= i < |name| ==> name[i] as int < 0x100 }

  function NameBytes(name: string): (b: W.Bytes)
    requires OneByte(name)
    ensures |b| == |name|
  {
    seq(|name|, i requires 0 <= i < |name| => name[i] as int)
  }

  lemma NameBytesInjective(a: string, b: string)
    requires OneByte(a) && OneByte(b) && NameBytes(a) == NameBytes(b)
    ensures a == b
  {
    forall i | 0 <= i < |a| ensures a[i] == b[i] {
      assert NameBytes(a)[i] == NameBytes(b)[i];
    }
  }

  predicate AllOneByte(names: seq<string>) { forall i :: 0 <= i < |names| ==> OneByte(names[i]) }

  /** The tuples of one network. */
  function Tuples(n: U16, names: seq<string>): seq<Z.ZoneTuple>
    requires AllOneByte(names)
  {
    seq(|names|, i requires 0 <= i < |names| => Z.ZoneTuple(n, NameBytes(names[i])))
  }

  lemma {:induction false} ExtendedSize(n: U16, names: seq<string>)
    requires AllOneByte(names) && forall i :: 0 <= i < |names| ==> |names[i]| <= MAX_NAME
    ensures P.WriteExtended(Tuples(n, names)).Some?
    ensures |P.WriteExtended(Tuples(n, names)).value| == Total(names, ZoneTupleSize)
  {
    if names != [] {
      D.TotalFront(names, ZoneTupleSize);
      ExtendedSize(n, names[1..]);
      assert Tuples(n, names)[1..] == Tuples(n, names[1..]);
    }
  }

  /** The names written so far. */
  lemma {:induction false} WrittenNames(zs: seq<Z.ZoneTuple>, name: W.Bytes)
    requires Z.NamesFit(zs)
    ensures name in Z.WriteBody(zs).offsets <==> exists i :: 0 <= i < |zs| && zs[i].name == name
  {
    if zs != [] {
      var init := zs[..|zs| - 1];
      WrittenNames(init, name);
      if i :| 0 <= i < |init| && init[i].name == name { assert zs[i].name == name; }
      if i :| 0 <= i < |zs| && zs[i].name == name { assert i < |init| ==> init[i].name == name; }
    }
  }

  /** With distinct names nothing is compressed. */
  lemma {:induction false} BodySize(n: U16, names: seq<string>)
    requires AllOneByte(names) && Distinct(names) && forall i :: 0 <= i < |names| ==> |names[i]| <= MAX_NAME
    ensures |Z.WriteBody(Tuples(n, names)).bytes| == Total(names, ZoneTupleSize)
  {
    if names != [] {
      var init, last := names[..|names| - 1], names[|names| - 1];
      BodySize(n, init);
      var zs := Tuples(n, names);
      assert zs[..|zs| - 1] == Tuples(n, init);
      WrittenNames(Tuples(n, init), NameBytes(last));
      forall i | 0 <= i < |init| ensures Tuples(n, init)[i].name != NameBytes(last) {
        if Tuples(n, init)[i].name == NameBytes(last) { NameBytesInjective(init[i], last); }
      }
    }
  }

  /** What a reply is sent as. */
  function Packets(h: W.Header, n: U16, reply: ZoneReply): seq<P.Packet>
    requires match reply
             case NonExtended(names) => AllOneByte(names)
             case Extended(_, fragments) => forall i :: 0 <= i < |fragments| ==> AllOneByte(fragments[i])
             case _ => true
  {
    match reply
    case NonExtended(names) => [P.ZIRsp(h, Tuples(n, names))]
    case Extended(total, fragments) =>
      seq(|fragments|, i requires 0 <= i < |fragments| => P.ZIRspExt(h, total % 0x1_0000, Tuples(n, fragments[i])))
    case _ => []
  }

  /** A plain reply takes what its headers and full tuples take. */
  lemma PlainSize(h: W.Header, n: U16, names: seq<string>)
    requires P.ValidDomain(h.domain, W.ROUTING_PACKET) && AllOneByte(names) && Distinct(names) && |names| <= 0xFFFF
    requires forall i :: 0 <= i < |names| ==> |names[i]| <= MAX_NAME
    ensures var b := P.WritePacket(P.ZIRsp(h, Tuples(n, names)));
            var empty := P.WritePacket(P.ZIRsp(h, []));
            b.Some? && empty.Some? && |b.value| == |empty.value| + Total(names, ZoneTupleSize)
  {
    BodySize(n, names);
  }

  /** A fragment too; without tuples it is as long as an empty plain reply. */
  lemma FragmentSize(h: W.Header, n: U16, total: U16, names: seq<string>)
    requires P.ValidDomain(h.domain, W.ROUTING_PACKET) && AllOneByte(names)
    requires forall i :: 0 <= i < |names| ==> |names[i]| <= MAX_NAME
    ensures var b := P.WritePacket(P.ZIRspExt(h, total, Tuples(n, names)));
            var empty := P.WritePacket(P.ZIRsp(h, []));
            b.Some? && empty.Some? && |b.value| == |empty.value| + Total(names, ZoneTupleSize)
  {
    ExtendedSize(n, names);
  }

  /** Names of a reply come from the zone list, so they can be written. */
  lemma ReplyNames(zones: seq<string>, base: nat, reply: ZoneReply)
    requires ReplyFor(zones, base, reply) && AllOneByte(zones)
    ensures match reply
            case NonExtended(names) =>
              AllOneByte(names) && Distinct(names) && |names| <= 0xFFFF
              && forall i :: 0 <= i < |names| ==> |names[i]| <= MAX_NAME
            case Extended(total, fragments) =>
              && total <= 0xFFFF
              && (forall i :: 0 <= i < |fragments| ==> AllOneByte(fragments[i]))
              && forall i, j :: 0 <= i < |fragments| && 0 <= j < |fragments[i]| ==> |fragments[i][j]| <= MAX_NAME
            case _ => true
  {
    match reply
    case NonExtended(names) =>
      StrictlySortedDistinct(names);
      DistinctCardinality(names);
      forall i | 0 <= i < |names| ensures OneByte(names[i]) && |names[i]| <= MAX_NAME {
        assert names[i] in NamesIn(names);
      }
    case Extended(_, fragments) =>
      forall i, j | 0 <= i < |fragments| && 0 <= j < |fragments[i]|
        ensures OneByte(fragments[i][j]) && |fragments[i][j]| <= MAX_NAME
      {
        InFragment(fragments, fragments[i][j]);
        assert fragments[i][j] in NamesIn(Flatten(fragments));
      }
    case _ =>
  }

  /** Every packet of a reply is written, in at most 1400 bytes, if the budget was
      counted from the size of an empty one; and a list is split only if written whole
      it would not fit. */
  lemma ReplyDatagrams(h: W.Header, n: U16, zones: seq<string>, base: nat, reply: ZoneReply)
    requires P.ValidDomain(h.domain, W.ROUTING_PACKET) && AllOneByte(zones) && ReplyFor(zones, base, reply)
    requires base == |P.WritePacket(P.ZIRsp(h, [])).value|
    ensures match reply
            case NonExtended(names) => AllOneByte(names)
            case Extended(_, fragments) => forall i :: 0 <= i < |fragments| ==> AllOneByte(fragments[i])
            case _ => true
    ensures forall i :: 0 <= i < |Packets(h, n, reply)| ==>
              P.WritePacket(Packets(h, n, reply)[i]).Some? && |P.WritePacket(Packets(h, n, reply)[i]).value| <= 1400
    ensures reply.Extended? ==>
              forall list :: StrictlySorted(list) && NamesIn(list) == NamesIn(zones) - {""} ==>
                AllOneByte(list) && TooLongWhole(h, n, list)
  {
    ReplyNames(zones, base, reply);
    match reply
    case NonExtended(names) =>
      PlainSize(h, n, names);
      assert AllFit([names], base);
      assert [names][0] == names;
    case Extended(total, fragments) =>
      FragmentsFit(h, n, base, total, fragments);
      forall list | StrictlySorted(list) && NamesIn(list) == NamesIn(zones) - {""}
        ensures AllOneByte(list) && TooLongWhole(h, n, list)
      {
        WholeTooLong(h, n, zones, base, list);
      }
    case _ =>
  }

  ghost predicate TooLongWhole(h: W.Header, n: U16, list: seq<string>)
    requires AllOneByte(list)
  {
    var b := P.WritePacket(P.ZIRsp(h, Tuples(n, list))); b.Some? && |b.value| > 1400
  }

  lemma FragmentsFit(h: W.Header, n: U16, base: nat, total: U16, fragments: seq<seq<string>>)
    requires P.ValidDomain(h.domain, W.ROUTING_PACKET) && AllFit(fragments, base)
    requires base == |P.WritePacket(P.ZIRsp(h, [])).value|
    requires forall i :: 0 <= i < |fragments| ==> AllOneByte(fragments[i])
    requires forall i, j :: 0 <= i < |fragments| && 0 <= j < |fragments[i]| ==> |fragments[i][j]| <= MAX_NAME
    ensures var ps := Packets(h, n, Extended(total, fragments));
            forall i :: 0 <= i < |ps| ==> P.WritePacket(ps[i]).Some? && |P.WritePacket(ps[i]).value| <= 1400
  {
    var ps := Packets(h, n, Extended(total, fragments));
    forall i | 0 <= i < |ps| ensures P.WritePacket(ps[i]).Some? && |P.WritePacket(ps[i]).value| <= 1400 {
      FragmentSize(h, n, total, fragments[i]);
      assert ps[i] == P.ZIRspExt(h, total, Tuples(n, fragments[i]));
    }
  }

  /** There is no reply only to a list that the encoder refuses, or with a name that
      leaves no room for the headers. */
  lemma Unanswered(h: W.Header, n: U16, zones: seq<string>, base: nat, list: seq<string>)
    requires P.ValidDomain(h.domain, W.ROUTING_PACKET) && AllOneByte(zones) && ReplyFor(zones, base, TooLong)
    requires StrictlySorted(list) && NamesIn(list) == NamesIn(zones) - {""}
    ensures AllOneByte(list)
    ensures P.WritePacket(P.ZIRsp(h, Tuples(n, list))).None? || exists z :: z in zones && base + 3 + |z| > 1400
  {
    StrictlySortedDistinct(list);
    DistinctCardinality(list);
    forall i | 0 <= i < |list| ensures OneByte(list[i]) { assert list[i] in NamesIn(list); }
    if !Encodable(NamesIn(list)) && |list| <= 0xFFFF {
      var z :| z in NamesIn(list) && |z| > MAX_NAME;
      var i :| 0 <= i < |list| && list[i] == z;
      assert |Tuples(n, list)[i].name| > MAX_NAME;
    }
  }

  lemma WholeTooLong(h: W.Header, n: U16, zones: seq<string>, base: nat, list: seq<string>)
    requires P.ValidDomain(h.domain, W.ROUTING_PACKET) && AllOneByte(zones)
    requires base == |P.WritePacket(P.ZIRsp(h, [])).value|
    requires StrictlySorted(list) && NamesIn(list) == NamesIn(zones) - {""}
    requires Encodable(NamesIn(list)) && !AllFit([list], base)
    ensures AllOneByte(list) && TooLongWhole(h, n, list)
  {
    StrictlySortedDistinct(list);
    DistinctCardinality(list);
    forall i | 0 <= i < |list| ensures OneByte(list[i]) && |list[i]| <= MAX_NAME {
      assert list[i] in NamesIn(list);
    }
    PlainSize(h, n, list);
    assert forall i :: 0 <= i < |[list]| ==> [list][i] == list;
  }
}

/** Encoding of headers and tuples on the wire (aurp/domain.go, aurp/transport.go,
    aurp/aurp.go, aurp/routing_info.go, aurp/open.go). A parser returns what it
    read and the rest of its input, or None. */
module Wire {
  import opened Routes

  type Byte = n: int | 0 <= n < 0x100 witness 0
  type Bytes = seq<Byte>

  function Be16(n: U16): (b: Bytes)
    ensures |b| == 2
  {
    [n / 0x100, n % 0x100]
  }

  function U16At(p: Bytes, i: nat): U16
    requires i + 2 <= |p|
  {
    (p[i] as int) * 0x100 + p[i + 1] as int
  }

  lemma U16AtBe16(n: U16, rest: Bytes)
    ensures U16At(Be16(n) + rest, 0) == n && (Be16(n) + rest)[2..] == rest
  {
  }

  /** Items already parsed, before those still to come. */
  function Prepend<T>(items: seq<T>, more: Option<seq<T>>): Option<seq<T>> {
    if more.None? then None else Some(items + more.value)
  }

  lemma PrependNothing<T>(none: seq<T>, more: Option<seq<T>>)
    requires none == []
    ensures Prepend(none, more) == more
  {
    if more.Some? { assert none + more.value == more.value; }
  }

  lemma PrependMore<T>(items: seq<T>, item: T, more: Option<seq<T>>)
    ensures Prepend(items, Prepend([item], more)) == Prepend(items + [item], more)
  {
    if more.Some? { assert items + ([item] + more.value) == (items + [item]) + more.value; }
  }

  // ----- Domain identifiers and headers -----

  datatype DomainId = NullDI | IpDI(ip: Bytes)

  predicate ValidDI(d: DomainId) { d.IpDI? ==> |d.ip| == 4 }

  /** None: the address is not an IPv4 address. */
  function WriteDI(d: DomainId): Option<Bytes> {
    match d
    case NullDI => Some([0x01, 0x00])
    case IpDI(ip) => if |ip| != 4 then None else Some([0x07, 0x01, 0x00, 0x00] + ip)
  }

  function ParseDI(b: Bytes): Option<(DomainId, Bytes)> {
    if |b| < 2 || |b| - 1 < b[0] then None
    else if b[1] == 0 then Some((NullDI, b[2..]))
    else if b[1] == 1 && b[0] == 7 then Some((IpDI(b[4..8]), b[8..]))
    else None
  }

  lemma DIRoundTrip(d: DomainId, rest: Bytes)
    requires ValidDI(d)
    ensures ParseDI(WriteDI(d).value + rest) == Some((d, rest))
  {
    var b := WriteDI(d).value + rest;
    match d
    case NullDI => assert b[2..] == rest;
    case IpDI(ip) => assert b[4..8] == ip && b[8..] == rest;
  }

  const APPLETALK_PACKET := 2
  const ROUTING_PACKET := 3

  datatype DomainHeader = DomainHeader(dst: DomainId, src: DomainId, version: U16, reserved: U16, packetType: U16)

  function WriteDomainHeader(h: DomainHeader): Option<Bytes> {
    if WriteDI(h.dst).None? || WriteDI(h.src).None? then None
    else Some(WriteDI(h.dst).value
              + (WriteDI(h.src).value + (Be16(h.version) + (Be16(h.reserved) + Be16(h.packetType)))))
  }

  function ParseDomainHeader(b: Bytes): Option<(DomainHeader, Bytes)> {
    var d := ParseDI(b);
    if d.None? then None else
    var s := ParseDI(d.value.1);
    if s.None? || |s.value.1| < 6 then None else
    var r := s.value.1;
    Some((DomainHeader(d.value.0, s.value.0, U16At(r, 0), U16At(r, 2), U16At(r, 4)), r[6..]))
  }

  lemma DomainHeaderRoundTrip(h: DomainHeader, rest: Bytes)
    requires ValidDI(h.dst) && ValidDI(h.src)
    ensures ParseDomainHeader(WriteDomainHeader(h).value + rest) == Some((h, rest))
  {
    var fields := Be16(h.version) + (Be16(h.reserved) + Be16(h.packetType));
    assert WriteDomainHeader(h).value + rest == WriteDI(h.dst).value + (WriteDI(h.src).value + (fields + rest));
    DIRoundTrip(h.dst, WriteDI(h.src).value + (fields + rest));
    DIRoundTrip(h.src, fields + rest);
    assert (fields + rest)[6..] == rest;
  }

  /** The routing header: domain header, AURP-Tr header, command and flags. */
  datatype Header = Header(domain: DomainHeader, connId: U16, sequence: U16, command: U16, flags: U16)

  function WriteHeader(h: Header): Option<Bytes> {
    var d := WriteDomainHeader(h.domain);
    if d.None? then None
    else Some(d.value + (Be16(h.connId) + Be16(h.sequence) + Be16(h.command) + Be16(h.flags)))
  }

  /** What follows the domain header of a routing packet. */
  function ParseHeader(domain: DomainHeader, b: Bytes): Option<(Header, Bytes)> {
    if |b| < 8 then None
    else Some((Header(domain, U16At(b, 0), U16At(b, 2), U16At(b, 4), U16At(b, 6)), b[8..]))
  }

  lemma HeaderRoundTrip(h: Header, rest: Bytes)
    requires ValidDI(h.domain.dst) && ValidDI(h.domain.src)
    ensures WriteHeader(h).Some?
    ensures var d := ParseDomainHeader(WriteHeader(h).value + rest);
            d.Some? && d.value.0 == h.domain && ParseHeader(h.domain, d.value.1) == Some((h, rest))
  {
    var fields := Be16(h.connId) + Be16(h.sequence) + Be16(h.command) + Be16(h.flags);
    assert WriteHeader(h).value + rest == WriteDomainHeader(h.domain).value + (fields + rest);
    DomainHeaderRoundTrip(h.domain, fields + rest);
    assert (fields + rest)[8..] == rest;
  }

  // ----- Network tuples -----

  datatype NetworkTuple = NetworkTuple(extended: bool, start: U16, distance: Byte, end: U16)

  /** What the encoding can carry. */
  predicate ValidNetwork(t: NetworkTuple) { t.distance < 0x80 && (!t.extended ==> t.end == t.start) }

  /** distance | 0x80 */
  function Flagged(d: Byte): Byte { if d < 0x80 then d + 0x80 else d }

  function WriteNetwork(t: NetworkTuple): Bytes {
    Be16(t.start) + if t.extended then [Flagged(t.distance)] + Be16(t.end) + [0x00] else [t.distance]
  }

  function ParseNetwork(p: Bytes): (r: Option<(NetworkTuple, Bytes)>)
    ensures r.Some? ==> |r.value.1| < |p|
  {
    if |p| < 3 then None
    else if p[2] < 0x80 then Some((NetworkTuple(false, U16At(p, 0), p[2], U16At(p, 0)), p[3..]))
    else if |p| < 6 then None
    else Some((NetworkTuple(true, U16At(p, 0), p[2] - 0x80, U16At(p, 3)), p[6..]))
  }

  lemma NetworkRoundTrip(t: NetworkTuple, rest: Bytes)
    requires ValidNetwork(t)
    ensures ParseNetwork(WriteNetwork(t) + rest) == Some((t, rest))
  {
    var p := WriteNetwork(t) + rest;
    if t.extended {
      assert p[2] == t.distance + 0x80 && U16At(p, 3) == t.end;
      assert p[6..] == rest;
    } else {
      assert p[3..] == rest;
    }
  }

  function WriteNetworks(ts: seq<NetworkTuple>): Bytes {
    if ts == [] then [] else WriteNetwork(ts[0]) + WriteNetworks(ts[1..])
  }

  function ParseNetworks(p: Bytes): Option<seq<NetworkTuple>>
    decreases |p|
  {
    if p == [] then Some([]) else
    var first := ParseNetwork(p);
    if first.None? then None else
    var rest := ParseNetworks(first.value.1);
    Prepend([first.value.0], rest)
  }

  lemma {:induction false} NetworksRoundTrip(ts: seq<NetworkTuple>)
    requires forall i :: 0 <= i < |ts| ==> ValidNetwork(ts[i])
    ensures ParseNetworks(WriteNetworks(ts)) == Some(ts)
  {
    if ts != [] {
      var rest := ts[1..];
      assert ts == [ts[0]] + rest;
      NetworkRoundTrip(ts[0], WriteNetworks(rest));
      NetworksRoundTrip(rest);
    }
  }

  method WriteNetworkTuple(t: NetworkTuple) returns (b: Bytes)
    ensures b == WriteNetwork(t)
  {
    b := Be16(t.start);
    if !t.extended {
      b := b + [t.distance];
    } else {
      b := b + [Flagged(t.distance)];
      b := b + Be16(t.end);
      b := b + [0x00];
    }
  }

  method WriteNetworkTuples(ts: seq<NetworkTuple>) returns (b: Bytes)
    ensures b == WriteNetworks(ts)
  {
    b := [];
    for i := 0 to |ts|
      invariant WriteNetworks(ts) == b + WriteNetworks(ts[i..])
    {
      var tuple := WriteNetworkTuple(ts[i]);
      b := b + tuple;
      assert ts[i..][1..] == ts[i + 1..];
    }
  }

  method ParseNetworkTuples(input: Bytes) returns (r: Option<seq<NetworkTuple>>)
    ensures r == ParseNetworks(input)
  {
    var p, ts := input, [];
    PrependNothing(ts, ParseNetworks(input));
    while |p| > 0
      invariant ParseNetworks(input) == Prepend(ts, ParseNetworks(p))
      decreases |p|
    {
      var next := ParseNetwork(p);
      if next.None? {
        return None;
      }
      PrependMore(ts, next.value.0, ParseNetworks(next.value.1));
      ts := ts + [next.value.0];
      p := next.value.1;
    }
    assert ts + [] == ts;
    return Some(ts);
  }

  // ----- Event tuples -----

  datatype EventTuple = EventTuple(code: Byte, extended: bool, start: U16, distance: Byte, end: U16)

  /** What the encoding can carry: a null event has nothing but its code. */
  predicate ValidEvent(t: EventTuple) {
    if t.code == 0 then t == EventTuple(0, false, 0, 0, 0)
    else t.distance < 0x80 && (!t.extended ==> t.end == t.start)
  }

  function WriteEvent(t: EventTuple): Bytes {
    if t.code == 0 then [0]
    else [t.code] + Be16(t.start) + if t.extended then [Flagged(t.distance)] + Be16(t.end) else [t.distance]
  }

  function ParseEvent(p: Bytes): (r: Option<(EventTuple, Bytes)>)
    ensures r.Some? ==> |r.value.1| < |p|
  {
    if |p| < 1 then None
    else if p[0] == 0 then Some((EventTuple(0, false, 0, 0, 0), p[1..]))
    else if |p| < 4 then None
    else if p[3] < 0x80 then Some((EventTuple(p[0], false, U16At(p, 1), p[3], U16At(p, 1)), p[4..]))
    else if |p| < 6 then None
    else Some((EventTuple(p[0], true, U16At(p, 1), p[3] - 0x80, U16At(p, 4)), p[6..]))
  }

  lemma EventRoundTrip(t: EventTuple, rest: Bytes)
    requires ValidEvent(t)
    ensures ParseEvent(WriteEvent(t) + rest) == Some((t, rest))
  {
    var p := WriteEvent(t) + rest;
    if t.code == 0 {
      assert p[1..] == rest;
    } else if t.extended {
      assert p[3] == t.distance + 0x80 && U16At(p, 1) == t.start && U16At(p, 4) == t.end;
      assert p[6..] == rest;
    } else {
      assert U16At(p, 1) == t.start;
      assert p[4..] == rest;
    }
  }

  function WriteEvents(ts: seq<EventTuple>): Bytes {
    if ts == [] then [] else WriteEvent(ts[0]) + WriteEvents(ts[1..])
  }

  function ParseEvents(p: Bytes): Option<seq<EventTuple>>
    decreases |p|
  {
    if p == [] then Some([]) else
    var first := ParseEvent(p);
    if first.None? then None else
    var rest := ParseEvents(first.value.1);
    Prepend([first.value.0], rest)
  }

  lemma {:induction false} EventsRoundTrip(ts: seq<EventTuple>)
    requires forall i :: 0 <= i < |ts| ==> ValidEvent(ts[i])
    ensures ParseEvents(WriteEvents(ts)) == Some(ts)
  {
    if ts != [] {
      var rest := ts[1..];
      assert ts == [ts[0]] + rest;
      EventRoundTrip(ts[0], WriteEvents(rest));
      EventsRoundTrip(rest);
    }
  }

  method WriteEventTuple(t: EventTuple) returns (b: Bytes)
    ensures b == WriteEvent(t)
  {
    b := [t.code];
    if t.code == 0 {
      return;
    }
    b := b + Be16(t.start);
    if !t.extended {
      b := b + [t.distance];
    } else {
      b := b + [Flagged(t.distance)];
      b := b + Be16(t.end);
    }
  }

  lemma EventsFrom(ts: seq<EventTuple>, i: nat)
    requires i < |ts|
    ensures WriteEvents(ts[i..]) == WriteEvent(ts[i]) + WriteEvents(ts[i + 1..])
  {
    assert ts[i..][1..] == ts[i + 1..];
  }

  method WriteEventTuples(ts: seq<EventTuple>) returns (b: Bytes)
    ensures b == WriteEvents(ts)
  {
    b := [];
    for i := 0 to |ts|
      invariant WriteEvents(ts) == b + WriteEvents(ts[i..])
    {
      var tuple := WriteEventTuple(ts[i]);
      EventsFrom(ts, i);
      b := b + tuple;
    }
  }

  method ParseEventTuples(input: Bytes) returns (r: Option<seq<EventTuple>>)
    ensures r == ParseEvents(input)
  {
    var p, ts := input, [];
    PrependNothing(ts, ParseEvents(input));
    while |p| > 0
      invariant ParseEvents(input) == Prepend(ts, ParseEvents(p))
      decreases |p|
    {
      var next := ParseEvent(p);
      if next.None? {
        return None;
      }
      PrependMore(ts, next.value.0, ParseEvents(next.value.1));
      ts := ts + [next.value.0];
      p := next.value.1;
    }
    assert ts + [] == ts;
    return Some(ts);
  }

  // ----- Options -----

  datatype OptionTuple = OptionTuple(kind: Byte, data: Bytes)

  function WriteOption(o: OptionTuple): Option<Bytes> {
    if |o.data| > 254 then None else Some([|o.data| + 1, o.kind] + o.data)
  }

  function ParseOption(p: Bytes): (r: Option<(OptionTuple, Bytes)>) {
    if |p| < 2 || p[0] < 1 || |p| - 1 < p[0] then None
    else Some((OptionTuple(p[1], p[2..1 + p[0]]), p[1 + p[0]..]))
  }

  function WriteOptionList(os: seq<OptionTuple>): Option<Bytes> {
    if os == [] then Some([]) else
    var first, rest := WriteOption(os[0]), WriteOptionList(os[1..]);
    if first.None? || rest.None? then None else Some(first.value + rest.value)
  }

  function WriteOptions(os: seq<OptionTuple>): Option<Bytes> {
    if |os| > 255 || WriteOptionList(os).None? then None else Some([|os|] + WriteOptionList(os).value)
  }

  function ParseOptionList(count: nat, p: Bytes): Option<seq<OptionTuple>> {
    if count == 0 then (if p == [] then Some([]) else None) else
    var first := ParseOption(p);
    if first.None? then None else
    var rest := ParseOptionList(count - 1, first.value.1);
    Prepend([first.value.0], rest)
  }

  function ParseOptions(p: Bytes): Option<seq<OptionTuple>> {
    if |p| < 1 then None else ParseOptionList(p[0], p[1..])
  }

  lemma {:induction false} OptionListRoundTrip(os: seq<OptionTuple>)
    requires forall i :: 0 <= i < |os| ==> |os[i].data| <= 254
    ensures WriteOptionList(os).Some? && ParseOptionList(|os|, WriteOptionList(os).value) == Some(os)
  {
    if os != [] {
      OptionListRoundTrip(os[1..]);
      var rest := WriteOptionList(os[1..]).value;
      var p := WriteOption(os[0]).value + rest;
      assert p[2..1 + p[0]] == os[0].data && p[1 + p[0]..] == rest;
      assert os == [os[0]] + os[1..];
    }
  }

  /** The loop of parseOptions: exactly the declared number, and nothing after. */
  method ParseOptionTuples(p: Bytes) returns (r: Option<seq<OptionTuple>>)
    ensures r == ParseOptions(p)
  {
    if |p| < 1 {
      return None;
    }
    var rest, os := p[1..], [];
    PrependNothing(os, ParseOptions(p));
    for i := 0 to p[0]
      invariant ParseOptions(p) == Prepend(os, ParseOptionList(p[0] - i, rest))
    {
      var next := ParseOption(rest);
      if next.None? {
        return None;
      }
      PrependMore(os, next.value.0, ParseOptionList(p[0] - i - 1, next.value.1));
      os := os + [next.value.0];
      rest := next.value.1;
    }
    assert os + [] == os;
    return if rest == [] then Some(os) else None;
  }
}

/** Zone tuples with back-references to names already written
    (ZoneTuples.WriteTo and parseZoneTuples of aurp/zone_info.go). */
module ZoneWire {
  import opened Routes
  import opened Wire

  datatype ZoneTuple = ZoneTuple(network: U16, name: Bytes)

  predicate NamesFit(zs: seq<ZoneTuple>) { forall i :: 0 <= i < |zs| ==> |zs[i].name| <= MAX_NAME }

  // ----- Writing -----

  /** What has been written after the tuple count, and where each name's length
      byte is, counted from the first one and cut to 16 bits. */
  datatype Body = Body(bytes: Bytes, offsets: map<Bytes, U16>)

  /** 0x8000 | offset */
  function Marked(offset: U16): U16 { 0x8000 + offset % 0x8000 }

  function AddTuple(b: Body, z: ZoneTuple): Body
    requires |z.name| <= MAX_NAME
  {
    if z.name in b.offsets
    then Body(b.bytes + Be16(z.network) + Be16(Marked(b.offsets[z.name])), b.offsets)
    else Body(b.bytes + Be16(z.network) + ([|z.name|] + z.name), b.offsets[z.name := |b.bytes| % 0x1_0000])
  }

  function WriteBody(zs: seq<ZoneTuple>): Body
    requires NamesFit(zs)
  {
    if zs == [] then Body([], map[]) else AddTuple(WriteBody(zs[..|zs| - 1]), zs[|zs| - 1])
  }

  function WriteZones(zs: seq<ZoneTuple>): Option<Bytes> {
    if |zs| > 0xFFFF || !NamesFit(zs) then None else Some(Be16(|zs|) + WriteBody(zs).bytes)
  }

  lemma BodyPush(zs: seq<ZoneTuple>, i: nat)
    requires NamesFit(zs) && i < |zs|
    ensures WriteBody(zs[..i + 1]) == AddTuple(WriteBody(zs[..i]), zs[i])
  {
    assert zs[..i + 1][..i] == zs[..i];
  }

  method WriteZoneTuples(zs: seq<ZoneTuple>) returns (r: Option<Bytes>)
    ensures r == WriteZones(zs)
  {
    if |zs| > 0xFFFF {
      return None;
    }
    for i := 0 to |zs|
      invariant NamesFit(zs[..i])
    {
      if |zs[i].name| > MAX_NAME {
        return None;
      }
    }
    assert zs[..|zs|] == zs;
    var b := WriteTuples(zs);
    return Some(b);
  }

  /** The second loop of the writer. */
  method WriteTuples(zs: seq<ZoneTuple>) returns (buffer: Bytes)
    requires |zs| <= 0xFFFF && NamesFit(zs)
    ensures buffer == Be16(|zs|) + WriteBody(zs).bytes
  {
    buffer := Be16(|zs|);
    var offsets: map<Bytes, U16> := map[];
    for i := 0 to |zs|
      invariant buffer == Be16(|zs|) + WriteBody(zs[..i]).bytes && offsets == WriteBody(zs[..i]).offsets
    {
      var z := zs[i];
      ghost var b := WriteBody(zs[..i]);
      BodyPush(zs, i);
      buffer := buffer + Be16(z.network);
      assert buffer == Be16(|zs|) + (b.bytes + Be16(z.network)) && |buffer| == |b.bytes| + 4;
      if z.name in offsets {
        buffer := buffer + Be16(Marked(offsets[z.name]));
      } else {
        offsets := offsets[z.name := (|buffer| - 4) % 0x1_0000];
        buffer := buffer + ([|z.name|] + z.name);
      }
    }
    assert zs[..|zs|] == zs;
  }

  // ----- Parsing -----

  /** The tuple at position i of what follows the count; `first` is the position of
      the first length byte, once one has been seen. None if it is malformed. */
  function ParseTuple(q: Bytes, i: nat, first: Option<nat>): (r: Option<(ZoneTuple, nat)>)
    requires i < |q| && (first.Some? ==> first.value < |q|)
    ensures r.Some? ==> i < r.value.1 <= |q|
  {
    if |q| - i < 3 then None
    else if q[i + 2] < 0x80 then
      if |q| - (i + 3) < q[i + 2] then None
      else Some((ZoneTuple(U16At(q, i), q[i + 3..i + 3 + q[i + 2] as int]), i + 3 + q[i + 2] as int))
    else if |q| - (i + 2) < 2 then None
    else
      var offset := U16At(q, i + 2) % 0x8000;
      var fromFirst := if first.Some? then q[first.value..] else [];
      if offset >= |fromFirst| || |fromFirst| - (offset + 1) < fromFirst[offset] then None
      else Some((ZoneTuple(U16At(q, i), fromFirst[offset + 1..offset + 1 + fromFirst[offset] as int]), i + 4))
  }

  function FirstAfter(q: Bytes, i: nat, first: Option<nat>): Option<nat>
    requires i + 2 < |q|
  {
    if first.None? && q[i + 2] < 0x80 then Some(i + 2) else first
  }

  function ParseFrom(q: Bytes, i: nat, first: Option<nat>): Option<seq<ZoneTuple>>
    requires i <= |q| && (first.Some? ==> first.value < |q|)
    decreases |q| - i
  {
    if i == |q| then Some([]) else
    var t := ParseTuple(q, i, first);
    if t.None? then None
    else Prepend([t.value.0], ParseFrom(q, t.value.1, FirstAfter(q, i, first)))
  }

  function ParseZones(p: Bytes): Option<seq<ZoneTuple>> {
    if |p| < 2 then None else ParseFrom(p[2..], 0, None)
  }

  method ParseZoneTuples(p: Bytes) returns (r: Option<seq<ZoneTuple>>)
    ensures r == ParseZones(p)
  {
    if |p| < 2 {
      return None;
    }
    var q, i, zs := p[2..], 0, [];
    var first: Option<nat> := None;
    PrependNothing(zs, ParseFrom(q, 0, None));
    while i < |q|
      invariant 0 <= i <= |q| && (first.Some? ==> 0 <= first.value < |q|)
      invariant ParseZones(p) == Prepend(zs, ParseFrom(q, i, first))
    {
      var t := ParseTuple(q, i, first);
      if t.None? {
        return None;
      }
      PrependMore(zs, t.value.0, ParseFrom(q, t.value.1, FirstAfter(q, i, first)));
      zs := zs + [t.value.0];
      first := FirstAfter(q, i, first);
      i := t.value.1;
    }
    assert zs + [] == zs;
    return Some(zs);
  }

  // ----- Round trip -----

  /** Where each name is, not cut to 16 bits. */
  ghost function TrueOffsets(zs: seq<ZoneTuple>): map<Bytes, nat>
    requires NamesFit(zs)
  {
    if zs == [] then map[] else
    var init, z := zs[..|zs| - 1], zs[|zs| - 1];
    if z.name in TrueOffsets(init) then TrueOffsets(init) else TrueOffsets(init)[z.name := |WriteBody(init).bytes|]
  }

  /** Every name that is referred to can be: its offset fits in 15 bits. */
  ghost predicate Addressable(zs: seq<ZoneTuple>)
    requires NamesFit(zs)
  {
    forall k :: 0 <= k < |zs| && zs[k].name in TrueOffsets(zs[..k]) ==> TrueOffsets(zs[..k])[zs[k].name] < 0x8000
  }

  /** A name with its length byte is at offset o. */
  ghost predicate NameAt(bytes: Bytes, o: nat, name: Bytes) {
    && o + 3 + |name| <= |bytes| && |name| <= MAX_NAME
    && bytes[o + 2] == |name| && bytes[o + 3..o + 3 + |name|] == name
  }

  /** The offsets lead to the names. */
  lemma {:induction false} OffsetsLead(zs: seq<ZoneTuple>)
    requires NamesFit(zs)
    ensures forall name :: name in WriteBody(zs).offsets <==> name in TrueOffsets(zs)
    ensures forall name :: name in TrueOffsets(zs) ==>
              WriteBody(zs).offsets[name] == TrueOffsets(zs)[name] % 0x1_0000
              && NameAt(WriteBody(zs).bytes, TrueOffsets(zs)[name], name)
  {
    if zs != [] {
      var init, z := zs[..|zs| - 1], zs[|zs| - 1];
      OffsetsLead(init);
      var b, b' := WriteBody(init).bytes, WriteBody(zs).bytes;
      assert b <= b';
      forall name | name in TrueOffsets(init) ensures NameAt(b', TrueOffsets(init)[name], name) {
        NameStays(b, b', TrueOffsets(init)[name], name);
      }
      if z.name !in TrueOffsets(init) {
        NameAdded(b, z);
      }
    }
  }

  lemma NameAdded(b: Bytes, z: ZoneTuple)
    requires |z.name| <= MAX_NAME
    ensures NameAt(b + Be16(z.network) + ([|z.name|] + z.name), |b|, z.name)
  {
    var b' := b + Be16(z.network) + ([|z.name|] + z.name);
    assert b'[|b| + 3..|b| + 3 + |z.name|] == z.name;
  }

  lemma NameStays(b: Bytes, b': Bytes, o: nat, name: Bytes)
    requires b <= b' && NameAt(b, o, name)
    ensures NameAt(b', o, name)
  {
    assert b'[o + 3..o + 3 + |name|] == b[o + 3..o + 3 + |name|];
  }

  lemma {:induction false} PrefixWritten(zs: seq<ZoneTuple>, k: nat)
    requires NamesFit(zs) && k <= |zs|
    ensures NamesFit(zs[..k]) && WriteBody(zs[..k]).bytes <= WriteBody(zs).bytes
    decreases |zs|
  {
    if k == |zs| {
      assert zs[..k] == zs;
    } else {
      PrefixWritten(zs[..|zs| - 1], k);
      assert zs[..|zs| - 1][..k] == zs[..k];
    }
  }

  lemma LongTuple(q: Bytes, i: nat, z: ZoneTuple, first: Option<nat>)
    requires i + 3 + |z.name| <= |q| && |z.name| <= MAX_NAME && (first.Some? ==> first.value < |q|)
    requires q[i..i + 3 + |z.name|] == Be16(z.network) + ([|z.name|] + z.name)
    ensures q[i + 2] < 0x80 && ParseTuple(q, i, first) == Some((z, i + 3 + |z.name|))
  {
    var s := q[i..i + 3 + |z.name|];
    assert s[0] == q[i] && s[1] == q[i + 1] && s[2] == q[i + 2];
    assert q[i + 3..i + 3 + |z.name|] == s[3..] == z.name;
  }

  lemma LongAt(q: Bytes, i: nat, next: nat, z: ZoneTuple, first: Option<nat>)
    requires next == i + 3 + |z.name| <= |q| && |z.name| <= MAX_NAME
    requires q[i..i + 3 + |z.name|] == Be16(z.network) + ([|z.name|] + z.name)
    requires if first.Some? then first.value == 2 < |q| else i == 0
    ensures ParseTuple(q, i, first) == Some((z, next)) && FirstAfter(q, i, first) == Some(2)
  {
    LongTuple(q, i, z, first);
  }

  lemma TwoNumbers(q: Bytes, i: nat, a: U16, b: U16)
    requires i + 4 <= |q| && q[i..i + 4] == Be16(a) + Be16(b)
    ensures U16At(q, i) == a && U16At(q, i + 2) == b && q[i + 2] == b / 0x100
  {
    var s := q[i..i + 4];
    assert s[0] == q[i] && s[1] == q[i + 1] && s[2] == q[i + 2] && s[3] == q[i + 3];
  }

  lemma ShortTuple(q: Bytes, i: nat, z: ZoneTuple, o: nat)
    requires i + 4 <= |q| && o < 0x8000 && NameAt(q, o, z.name)
    requires q[i..i + 4] == Be16(z.network) + Be16(0x8000 + o)
    ensures q[i + 2] >= 0x80 && ParseTuple(q, i, Some(2)) == Some((z, i + 4))
  {
    TwoNumbers(q, i, z.network, 0x8000 + o);
    assert q[2..][o] == |z.name|;
    assert q[2..][o + 1..o + 1 + |z.name|] == q[o + 3..o + 3 + |z.name|];
  }

  lemma MarkedOffset(o: nat)
    requires o < 0x8000
    ensures o % 0x1_0000 == o && Marked(o % 0x1_0000) == 0x8000 + o
  {
  }

  lemma AddedBytes(b: Body, z: ZoneTuple)
    requires |z.name| <= MAX_NAME
    ensures var after := AddTuple(b, z).bytes;
            && b.bytes < after
            && after[|b.bytes|..] ==
               Be16(z.network) + (if z.name in b.offsets then Be16(Marked(b.offsets[z.name])) else [|z.name|] + z.name)
  {
  }

  lemma Between(before: Bytes, after: Bytes, q: Bytes)
    requires before <= after <= q
    ensures q[|before|..|after|] == after[|before|..]
  {
  }

  /** The bytes of the k-th tuple. */
  lemma Segment(zs: seq<ZoneTuple>, k: nat)
    requires NamesFit(zs) && k < |zs|
    ensures var q, i, next := WriteBody(zs).bytes, |WriteBody(zs[..k]).bytes|, |WriteBody(zs[..k + 1]).bytes|;
            && i < next <= |q|
            && q[i..next] == Be16(zs[k].network)
                             + (if zs[k].name in WriteBody(zs[..k]).offsets
                                then Be16(Marked(WriteBody(zs[..k]).offsets[zs[k].name]))
                                else [|zs[k].name|] + zs[k].name)
  {
    BodyPush(zs, k);
    AddedBytes(WriteBody(zs[..k]), zs[k]);
    PrefixWritten(zs, k + 1);
    Between(WriteBody(zs[..k]).bytes, WriteBody(zs[..k + 1]).bytes, WriteBody(zs).bytes);
  }

  lemma LongSegment(zs: seq<ZoneTuple>, k: nat)
    requires NamesFit(zs) && k < |zs| && zs[k].name !in WriteBody(zs[..k]).offsets
    ensures var q, i := WriteBody(zs).bytes, |WriteBody(zs[..k]).bytes|;
            && (k == 0 ==> i == 0)
            && i + 3 + |zs[k].name| == |WriteBody(zs[..k + 1]).bytes| <= |q| && (k > 0 ==> 2 < |q|)
            && q[i..i + 3 + |zs[k].name|] == Be16(zs[k].network) + ([|zs[k].name|] + zs[k].name)
  {
    Segment(zs, k);
    BodyPush(zs, k);
    assert zs[..0] == [];
    if k > 0 {
      BodyPush(zs, 0);
      PrefixWritten(zs, 1);
    }
  }

  lemma ShortSegment(zs: seq<ZoneTuple>, k: nat)
    requires NamesFit(zs) && Addressable(zs) && k < |zs| && zs[k].name in WriteBody(zs[..k]).offsets
    ensures var q, i := WriteBody(zs).bytes, |WriteBody(zs[..k]).bytes|;
            && k > 0 && i + 4 == |WriteBody(zs[..k + 1]).bytes| <= |q|
            && zs[k].name in TrueOffsets(zs[..k]) && TrueOffsets(zs[..k])[zs[k].name] < 0x8000
            && NameAt(q, TrueOffsets(zs[..k])[zs[k].name], zs[k].name)
            && q[i..i + 4] == Be16(zs[k].network) + Be16(0x8000 + TrueOffsets(zs[..k])[zs[k].name])
  {
    assert zs[..0] == [];
    OffsetsLead(zs[..k]);
    PrefixWritten(zs, k);
    NameStays(WriteBody(zs[..k]).bytes, WriteBody(zs).bytes, TrueOffsets(zs[..k])[zs[k].name], zs[k].name);
    Segment(zs, k);
    MarkedOffset(TrueOffsets(zs[..k])[zs[k].name]);
    assert |WriteBody(zs).bytes[|WriteBody(zs[..k]).bytes|..|WriteBody(zs[..k + 1]).bytes|]| == 4;
  }

  /** Parsing at position i yields z and goes on at `next`, past the first name. */
  predicate FoundAt(q: Bytes, i: nat, first: Option<nat>, z: ZoneTuple, next: nat) {
    && i + 3 <= |q| && (first.Some? ==> first.value < |q|)
    && ParseTuple(q, i, first) == Some((z, next)) && FirstAfter(q, i, first) == Some(2)
  }

  lemma ShortFound(zs: seq<ZoneTuple>, k: nat)
    requires NamesFit(zs) && Addressable(zs) && k < |zs| && zs[k].name in WriteBody(zs[..k]).offsets
    ensures k > 0
    ensures FoundAt(WriteBody(zs).bytes, |WriteBody(zs[..k]).bytes|, Some(2), zs[k], |WriteBody(zs[..k + 1]).bytes|)
  {
    ShortSegment(zs, k);
    ShortTuple(WriteBody(zs).bytes, |WriteBody(zs[..k]).bytes|, zs[k], TrueOffsets(zs[..k])[zs[k].name]);
  }

  lemma LongFound(zs: seq<ZoneTuple>, k: nat, first: Option<nat>)
    requires NamesFit(zs) && k < |zs| && zs[k].name !in WriteBody(zs[..k]).offsets
    requires first == if k == 0 then None else Some(2)
    ensures FoundAt(WriteBody(zs).bytes, |WriteBody(zs[..k]).bytes|, first, zs[k], |WriteBody(zs[..k + 1]).bytes|)
  {
    LongSegment(zs, k);
    LongAt(WriteBody(zs).bytes, |WriteBody(zs[..k]).bytes|, |WriteBody(zs[..k + 1]).bytes|, zs[k], first);
  }

  /** Parsing at the start of the k-th tuple finds it. */
  lemma TupleFound(zs: seq<ZoneTuple>, k: nat)
    requires NamesFit(zs) && Addressable(zs) && k < |zs|
    ensures FoundAt(WriteBody(zs).bytes, |WriteBody(zs[..k]).bytes|, if k == 0 then None else Some(2), zs[k],
                    |WriteBody(zs[..k + 1]).bytes|)
  {
    if zs[k].name in WriteBody(zs[..k]).offsets {
      ShortFound(zs, k);
    } else {
      LongFound(zs, k, if k == 0 then None else Some(2));
    }
  }

  lemma Suffix(zs: seq<ZoneTuple>, k: nat)
    requires k < |zs|
    ensures Prepend([zs[k]], Some(zs[k + 1..])) == Some(zs[k..])
  {
    assert zs[k..] == [zs[k]] + zs[k + 1..];
  }

  lemma {:induction false} ParseTail(zs: seq<ZoneTuple>, k: nat)
    requires NamesFit(zs) && Addressable(zs) && k <= |zs|
    ensures |WriteBody(zs[..k]).bytes| <= |WriteBody(zs).bytes| && (k > 0 ==> 2 < |WriteBody(zs).bytes|)
    ensures ParseFrom(WriteBody(zs).bytes, |WriteBody(zs[..k]).bytes|, if k == 0 then None else Some(2))
            == Some(zs[k..])
    decreases |zs| - k
  {
    if k == |zs| {
      assert zs[..k] == zs && zs[k..] == [];
      if k > 0 { TupleFound(zs, 0); }
    } else {
      TupleFound(zs, k);
      ParseTail(zs, k + 1);
      Suffix(zs, k);
    }
  }

  /** Parsing inverts writing, compressed tuples included. */
  lemma ZonesRoundTrip(zs: seq<ZoneTuple>)
    requires |zs| <= 0xFFFF && NamesFit(zs) && Addressable(zs)
    ensures WriteZones(zs).Some? && ParseZones(WriteZones(zs).value) == Some(zs)
  {
    var p := WriteZones(zs).value;
    assert p[2..] == WriteBody(zs).bytes;
    ParseTail(zs, 0);
    assert zs[..0] == [] && zs[0..] == zs;
  }
}

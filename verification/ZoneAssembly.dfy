/** Extended zone lists: splitting a network's zone names into fragments and
    putting them together again in whatever order they arrive
    (router/aurp_zone.go). */
module ZoneAssembly {
  import opened Routes
  import opened Chunking

  // ----- Building -----

  predicate Less(a: string, b: string) { CompareString(a, b) < 0 }

  predicate StrictlySorted(names: seq<string>) {
    forall i, j :: 0 <= i < j < |names| ==> Less(names[i], names[j])
  }

  lemma StrictlySortedDistinct(names: seq<string>)
    requires StrictlySorted(names)
    ensures Distinct(names)
  {
    forall i, j | 0 <= i < j < |names| ensures names[i] != names[j] {
      assert Less(names[i], names[j]);
      StringOrder(names[i], names[j]);
    }
  }

  lemma LessOrder(a: string, b: string, c: string)
    ensures Less(a, b) || a == b || Less(b, a)
    ensures Less(a, b) && Less(b, c) ==> Less(a, c)
  {
    StringOrder(a, b);
    StringOrder(a, c);
    if Less(a, b) && Less(b, c) {
      StringTransitive(a, b, c);
    }
  }

  method InsertName(names: seq<string>, z: string) returns (out: seq<string>)
    requires StrictlySorted(names)
    ensures StrictlySorted(out) && NamesIn(out) == NamesIn(names) + {z}
  {
    var i := 0;
    while i < |names| && Less(names[i], z)
      invariant 0 <= i <= |names|
      invariant forall j :: 0 <= j < i ==> Less(names[j], z)
    {
      i := i + 1;
    }
    if i < |names| && names[i] == z {
      return names;
    }
    PlacedStrictly(names, z, i);
    PlacedName(names, z, i);
    out := names[..i] + [z] + names[i..];
  }

  lemma PlacedStrictly(names: seq<string>, z: string, i: nat)
    requires StrictlySorted(names) && i <= |names|
    requires forall j :: 0 <= j < i ==> Less(names[j], z)
    requires i < |names| ==> !Less(names[i], z) && names[i] != z
    ensures StrictlySorted(names[..i] + [z] + names[i..])
  {
    var out := names[..i] + [z] + names[i..];
    forall j | i <= j < |names| ensures Less(z, names[j]) {
      LessOrder(z, names[i], names[j]);
    }
    forall j, k | 0 <= j < k < |out| ensures Less(out[j], out[k]) {
      assert out[j] == if j < i then names[j] else if j == i then z else names[j - 1];
      assert out[k] == if k < i then names[k] else if k == i then z else names[k - 1];
    }
  }

  lemma PlacedName(names: seq<string>, z: string, i: nat)
    requires i <= |names|
    ensures NamesIn(names[..i] + [z] + names[i..]) == NamesIn(names) + {z}
  {
    assert names == names[..i] + names[i..];
  }

  /** The non-empty distinct names in order. */
  method DedupeSortedZones(names: seq<string>) returns (out: seq<string>)
    ensures StrictlySorted(out)
    ensures NamesIn(out) == set z | z in names && z != ""
  {
    out := [];
    for i := 0 to |names|
      invariant StrictlySorted(out)
      invariant NamesIn(out) == set z | z in names[..i] && z != ""
    {
      assert names[..i + 1] == names[..i] + [names[i]];
      if names[i] != "" {
        out := InsertName(out, names[i]);
      }
    }
    assert names[..|names|] == names;
  }

  function ZoneTupleSize(z: string): nat { 3 + |z| }

  /** What buildZIRspPackets sends for one network. */
  datatype ZoneReply =
    Nothing | NonExtended(names: seq<string>) | Extended(total: nat, fragments: seq<seq<string>>) | TooLong

  /** What ZoneTuples.WriteTo refuses. */
  ghost predicate Encodable(names: set<string>) {
    |names| <= 0xFFFF && forall z :: z in names ==> |z| <= MAX_NAME
  }

  /** aurpPacketSize of a plain reply, less its headers: every name is written
      in full, for no two are equal. */
  method SizeOf(names: seq<string>) returns (size: Option<nat>)
    requires StrictlySorted(names)
    ensures size.Some? <==> Encodable(NamesIn(names))
    ensures size.Some? ==> size.value == Total(names, ZoneTupleSize)
  {
    StrictlySortedDistinct(names);
    DistinctCardinality(names);
    if |names| > 0xFFFF {
      return None;
    }
    var sum := 0;
    for i := 0 to |names|
      invariant sum == Total(names[..i], ZoneTupleSize)
      invariant forall j :: 0 <= j < i ==> |names[j]| <= MAX_NAME
    {
      if |names[i]| > MAX_NAME {
        assert names[i] in NamesIn(names);
        return None;
      }
      assert names[..i + 1][..i] == names[..i];
      sum := sum + ZoneTupleSize(names[i]);
    }
    assert names[..|names|] == names;
    return Some(sum);
  }

  ghost predicate AllFit(fragments: seq<seq<string>>, base: nat) {
    forall i :: 0 <= i < |fragments| ==> base + Total(fragments[i], ZoneTupleSize) <= DATAGRAM_BUDGET
  }

  method SplitNames(names: seq<string>, base: nat) returns (fragments: Option<seq<seq<string>>>)
    requires base < DATAGRAM_BUDGET && StrictlySorted(names) && "" !in names
    ensures fragments.Some? <==> forall z :: z in NamesIn(names) ==> base + ZoneTupleSize(z) <= DATAGRAM_BUDGET
    ensures fragments.Some? ==> Splits(fragments.value, |names|, NamesIn(names)) && AllFit(fragments.value, base)
  {
    fragments := Chunk(names, ZoneTupleSize, DATAGRAM_BUDGET - base);
    assert forall i :: 0 <= i < |names| ==> names[i] in NamesIn(names);
    if fragments.Some? {
      ChunksSplit(names, base);
    }
  }

  lemma ChunksSplit(names: seq<string>, base: nat)
    requires base < DATAGRAM_BUDGET && StrictlySorted(names) && "" !in names
    requires forall i :: 0 <= i < |names| ==> ZoneTupleSize(names[i]) <= DATAGRAM_BUDGET - base
    ensures var fragments := Chunks(names, ZoneTupleSize, DATAGRAM_BUDGET - base);
            Splits(fragments, |names|, NamesIn(names)) && AllFit(fragments, base)
  {
    var budget := DATAGRAM_BUDGET - base;
    var fragments := Chunks(names, ZoneTupleSize, budget);
    ChunksPacked(names, ZoneTupleSize, budget);
    ChunksFlatten(names, ZoneTupleSize, budget);
    StrictlySortedDistinct(names);
    forall i | 0 <= i < |fragments|
      ensures fragments[i] != [] && base + Total(fragments[i], ZoneTupleSize) <= DATAGRAM_BUDGET {
      assert Fits(fragments[i], ZoneTupleSize, budget);
    }
  }

  /** What buildZIRspPackets makes of one network: one plain packet if its list fits,
      else fragments, every datagram within the budget. It fails exactly when the
      encoder refuses the names or one alone leaves no room for the headers. */
  ghost predicate ReplyFor(zones: seq<string>, base: nat, reply: ZoneReply) {
    var names := NamesIn(zones) - {""};
    match reply
    case Nothing => names == {}
    case NonExtended(list) =>
      names != {} && Encodable(names) && StrictlySorted(list) && NamesIn(list) == names && AllFit([list], base)
    case Extended(total, fragments) =>
      && names != {} && Encodable(names) && total == |names|
      && Splits(fragments, total, names) && AllFit(fragments, base)
      && forall list :: StrictlySorted(list) && NamesIn(list) == names ==> !AllFit([list], base)
    case TooLong =>
      names != {} && (Encodable(names) ==> exists z :: z in names && base + ZoneTupleSize(z) > DATAGRAM_BUDGET)
  }

  method BuildReply(zones: seq<string>, base: nat) returns (reply: ZoneReply)
    requires base < DATAGRAM_BUDGET
    ensures ReplyFor(zones, base, reply)
  {
    var names := DedupeSortedZones(zones);
    assert NamesIn(names) == NamesIn(zones) - {""};
    if names == [] {
      return Nothing;
    }
    assert names[0] in NamesIn(names);
    var size := SizeOf(names);
    if size.None? {
      return TooLong;
    }
    if base + size.value <= DATAGRAM_BUDGET {
      return NonExtended(names);
    }
    forall list | StrictlySorted(list) && NamesIn(list) == NamesIn(names) ensures !AllFit([list], base) {
      SortedUnique(list, names);
      assert [list][0] == names;
    }
    assert "" !in NamesIn(names);
    var fragments := SplitNames(names, base);
    if fragments.None? {
      return TooLong;
    }
    StrictlySortedDistinct(names);
    DistinctCardinality(names);
    return Extended(|names|, fragments.value);
  }

  lemma SomeName(names: seq<string>)
    ensures names == [] <==> NamesIn(names) == {}
  {
    if names != [] {
      assert names[0] in NamesIn(names);
    }
  }

  /** A set of names has one ordered list. */
  lemma {:induction false} SortedUnique(a: seq<string>, b: seq<string>)
    requires StrictlySorted(a) && StrictlySorted(b) && NamesIn(a) == NamesIn(b)
    ensures a == b
  {
    SomeName(a);
    SomeName(b);
    if a != [] {
      assert a[0] in NamesIn(b);
      assert b[0] in NamesIn(a);
      LessOrder(a[0], b[0], a[0]);
      assert !Less(a[0], a[0]) && !Less(b[0], b[0]) by { StringOrder(a[0], a[0]); StringOrder(b[0], b[0]); }
      LessOrder(b[0], a[0], b[0]);
      assert a[0] == b[0];
      StrictlySortedDistinct(a);
      StrictlySortedDistinct(b);
      forall z | z in a[1..] ensures z in b[1..] { assert z in NamesIn(b); }
      forall z | z in b[1..] ensures z in a[1..] { assert z in NamesIn(a); }
      SortedUnique(a[1..], b[1..]);
    }
  }

  /** The fragments hold each of the names once, and none is empty. */
  ghost predicate Splits(fragments: seq<seq<string>>, total: nat, names: set<string>) {
    && (forall i :: 0 <= i < |fragments| ==> fragments[i] != [])
    && Distinct(Flatten(fragments)) && NamesIn(Flatten(fragments)) == names
    && total == |Flatten(fragments)|
    && "" !in names
  }

  // ----- Assembling -----

  /** A partly assembled list; total is 0 while only a route is known. */
  datatype Assembly = Assembly(total: nat, names: set<string>)

  datatype Assembled = Rejected | Incomplete(assembly: Assembly) | Overflow | Complete(names: set<string>)

  /** applyExtendedZIRsp once the network is known to be the peer's. */
  function Assemble(pending: Option<Assembly>, total: nat, names: seq<string>): Assembled {
    if total == 0 || (pending.Some? && pending.value.total != 0 && pending.value.total != total) then Rejected
    else
      var have := (if pending.Some? then pending.value.names else {}) + set z | z in names && z != "";
      if |have| > total then Overflow
      else if |have| < total then Incomplete(Assembly(total, have))
      else Complete(have)
  }

  /** The names of the fragments with the given numbers. */
  ghost function Gathered(fragments: seq<seq<string>>, seen: set<nat>): set<string> {
    set i, z | i in seen && 0 <= i < |fragments| && z in fragments[i] :: z
  }

  ghost predicate Holds(pending: Option<Assembly>, fragments: seq<seq<string>>, total: nat, seen: set<nat>) {
    if seen == {} then pending.None? || pending.value == Assembly(0, {})
    else pending == Some(Assembly(total, Gathered(fragments, seen)))
  }

  lemma {:induction false} DistinctCardinality(names: seq<string>)
    requires Distinct(names)
    ensures |NamesIn(names)| == |names|
  {
    if names != [] {
      var init, last := names[..|names| - 1], names[|names| - 1];
      DistinctCardinality(init);
      assert last !in init;
      assert NamesIn(names) == NamesIn(init) + {last};
    }
  }

  /** Where a flattened list has a name, some fragment has it. */
  lemma {:induction false} InFragment(fragments: seq<seq<string>>, z: string)
    ensures z in Flatten(fragments) <==> exists i :: 0 <= i < |fragments| && z in fragments[i]
  {
    if fragments != [] {
      InFragment(fragments[..|fragments| - 1], z);
    }
  }

  /** Two fragments of a split share no name. */
  lemma {:induction false} FragmentsApart(fragments: seq<seq<string>>, i: nat, j: nat, z: string)
    requires Distinct(Flatten(fragments)) && i < j < |fragments| && z in fragments[i]
    ensures z !in fragments[j]
  {
    var n := |fragments| - 1;
    var front := Flatten(fragments[..n]);
    assert Flatten(fragments) == front + fragments[n];
    if j == n {
      InFragment(fragments[..n], z);
      assert fragments[..n][i] == fragments[i];
      assert z in front;
      var p :| 0 <= p < |front| && front[p] == z;
      forall q | 0 <= q < |fragments[n]| ensures fragments[n][q] != z {
        assert Flatten(fragments)[p] != Flatten(fragments)[|front| + q];
      }
    } else {
      assert Distinct(front) by {
        forall p, q | 0 <= p < q < |front| ensures front[p] != front[q] {
          assert Flatten(fragments)[p] == front[p] && Flatten(fragments)[q] == front[q];
        }
      }
      FragmentsApart(fragments[..n], i, j, z);
    }
  }

  /** The names gathered are all of them exactly when all fragments were seen. */
  lemma GatheredSize(fragments: seq<seq<string>>, total: nat, names: set<string>, seen: set<nat>)
    requires Splits(fragments, total, names)
    requires forall i :: i in seen ==> i < |fragments|
    ensures Gathered(fragments, seen) <= names && |Gathered(fragments, seen)| <= total
    ensures |Gathered(fragments, seen)| == total <==> forall i :: 0 <= i < |fragments| ==> i in seen
    ensures (forall i :: 0 <= i < |fragments| ==> i in seen) ==> Gathered(fragments, seen) == names
  {
    DistinctCardinality(Flatten(fragments));
    var have := Gathered(fragments, seen);
    forall z | z in have ensures z in names { InFragment(fragments, z); }
    assert have <= names;
    SubsetSize(have, names);
    if forall i :: 0 <= i < |fragments| ==> i in seen {
      forall z | z in names ensures z in have { InFragment(fragments, z); }
      assert have == names;
    } else {
      var i :| 0 <= i < |fragments| && i !in seen;
      var z := fragments[i][0];
      InFragment(fragments, z);
      assert z in names;
      if z in have {
        var j :| j in seen && 0 <= j < |fragments| && z in fragments[j];
        if i < j { FragmentsApart(fragments, i, j, z); } else { FragmentsApart(fragments, j, i, z); }
      }
      SubsetSize(have, names - {z});
    }
  }

  lemma {:induction false} SubsetSize<T>(a: set<T>, b: set<T>)
    requires a <= b
    ensures |a| <= |b|
  {
    if a != {} {
      var x :| x in a;
      SubsetSize(a - {x}, b - {x});
    }
  }

  /** One more fragment, old or new: the list is published exactly when every
      fragment has arrived since the last time, and it is the whole list. */
  lemma DeliverFragment(fragments: seq<seq<string>>, total: nat, names: set<string>, pending: Option<Assembly>,
                        seen: set<nat>, i: nat)
    requires Splits(fragments, total, names) && i < |fragments|
    requires forall j :: j in seen ==> j < |fragments|
    requires Holds(pending, fragments, total, seen)
    ensures var all := forall j :: 0 <= j < |fragments| ==> j in seen + {i};
            match Assemble(pending, total, fragments[i])
            case Complete(published) => all && published == names
            case Incomplete(a) => !all && Holds(Some(a), fragments, total, seen + {i})
            case _ => false
  {
    var have := (if pending.Some? then pending.value.names else {}) + set z | z in fragments[i] && z != "";
    assert "" !in fragments[i] by { InFragment(fragments, ""); }
    assert have == Gathered(fragments, seen + {i});
    GatheredSize(fragments, total, names, seen + {i});
    assert total > 0 by {
      InFragment(fragments, fragments[i][0]);
      assert fragments[i][0] in Flatten(fragments);
    }
  }

  /** What a network's published names and assembly become. */
  datatype Progress = Progress(pending: Option<Assembly>, published: seq<set<string>>, seen: set<nat>)

  function Deliver(p: Progress, fragments: seq<seq<string>>, total: nat, i: nat): Progress
    requires i < |fragments|
  {
    match Assemble(p.pending, total, fragments[i])
    case Complete(names) => Progress(None, p.published + [names], {})
    case Incomplete(a) => Progress(Some(a), p.published, p.seen + {i})
    case Overflow => Progress(None, p.published, {})
    case Rejected => p
  }

  function DeliverAll(p: Progress, fragments: seq<seq<string>>, total: nat, order: seq<nat>): Progress
    requires forall k :: 0 <= k < |order| ==> order[k] < |fragments|
  {
    if order == [] then p
    else Deliver(DeliverAll(p, fragments, total, order[..|order| - 1]), fragments, total, order[|order| - 1])
  }

  /** How often all fragments have arrived, counting afresh each time. */
  ghost function Rounds(order: seq<nat>, count: nat, seen: set<nat>): (nat, set<nat>) {
    if order == [] then (0, seen)
    else
      var (rounds, sofar) := Rounds(order[..|order| - 1], count, seen);
      var now := sofar + {order[|order| - 1]};
      if forall i :: 0 <= i < count ==> i in now then (rounds + 1, {}) else (rounds, now)
  }

  /** Reassembly: whatever the order and however often fragments are repeated, a
      network's zones are replaced once for every complete round of fragments,
      each time by exactly the names that were split. */
  lemma {:induction false} Reassembles(fragments: seq<seq<string>>, total: nat, names: set<string>,
                                       pending: Option<Assembly>, order: seq<nat>)
    requires Splits(fragments, total, names)
    requires forall k :: 0 <= k < |order| ==> order[k] < |fragments|
    requires Holds(pending, fragments, total, {})
    ensures var p := DeliverAll(Progress(pending, [], {}), fragments, total, order);
            && |p.published| == Rounds(order, |fragments|, {}).0
            && (forall k :: 0 <= k < |p.published| ==> p.published[k] == names)
            && p.seen == Rounds(order, |fragments|, {}).1 && Holds(p.pending, fragments, total, p.seen)
            && forall j :: j in p.seen ==> j < |fragments|
  {
    if order != [] {
      var init, i := order[..|order| - 1], order[|order| - 1];
      Reassembles(fragments, total, names, pending, init);
      var p := DeliverAll(Progress(pending, [], {}), fragments, total, init);
      DeliverFragment(fragments, total, names, p.pending, p.seen, i);
    }
  }
}

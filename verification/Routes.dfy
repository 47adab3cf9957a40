/** Routes, their targets and the order in which candidates are preferred
    (router/route.go, and compareRoutePreference in router/route_table.go). */
module Routes {

  datatype Option<+T> = None | Some(value: T)

  /** A 16-bit AppleTalk network number. */
  type Net = n: int | 0 <= n < 0x1_0000 witness 0

  type U16 = n: int | 0 <= n < 0x1_0000 witness 0

  // ----- Ranges -----

  /** The counter of a loop over a range of networks after k rounds: it is a uint16
      and wraps. */
  function RangeCounter(start: Net, k: nat): Net { (start + k) % 0x1_0000 }

  /** A loop while the counter is at most `end` ends exactly if the range ends below
      65535, and until then it does not wrap. */
  lemma RangeLoopEnds(start: Net, end: Net)
    requires start <= end
    ensures (exists k: nat :: RangeCounter(start, k) > end) <==> end < 0xFFFF
    ensures forall k: nat :: k <= end - start ==> RangeCounter(start, k) == start + k
  {
    if end < 0xFFFF {
      assert RangeCounter(start, end + 1 - start) == end + 1;
    }
  }

  const MAX_ROUTE_DISTANCE := 15
  /** Ten minutes, in seconds: instants are integers counting seconds. */
  const MAX_ROUTE_AGE := 600

  /** The longest zone name that can be written. */
  const MAX_NAME := 127

  function NamesIn(names: seq<string>): set<string> { set z | z in names }

  datatype TargetClass = Direct | AurpPeerClass | AppleTalkPeerClass

  /** The three implementations of the RouteTarget interface, reduced to what
      identifies them. */
  datatype Target =
    | EtherTalkPort(device: string)
    | EtherTalkPeer(device: string, address: string)
    | AurpPeer(tunnelId: string)
  {
    function Key(): string {
      match this
      case EtherTalkPort(d) => "EtherTalkPort|" + d
      case EtherTalkPeer(d, a) => "EtherTalkPeer|" + d + "|" + a
      case AurpPeer(t) => "AURPPeer|" + t
    }

    function Class(): TargetClass {
      match this
      case EtherTalkPort(_) => Direct
      case EtherTalkPeer(_, _) => AppleTalkPeerClass
      case AurpPeer(_) => AurpPeerClass
    }
  }

  function ClassOfKey(key: string): TargetClass {
    if |key| > 0 && key[0] == 'A' then AurpPeerClass
    else if |key| > 10 && key[10] == 'o' then Direct
    else AppleTalkPeerClass
  }

  /** A target key determines its class, so the per-class maps never hold the
      same key twice. */
  lemma KeyDeterminesClass(t: Target)
    ensures ClassOfKey(t.Key()) == t.Class()
  {
    match t
    case EtherTalkPort(d) => assert t.Key()[0] == 'E' && t.Key()[10] == 'o';
    case EtherTalkPeer(d, a) =>
      assert t.Key() == "EtherTalkPeer|" + (d + "|" + a);
      assert t.Key()[0] == 'E' && t.Key()[10] == 'e';
    case AurpPeer(i) => assert t.Key()[0] == 'A';
  }

  datatype OriginKind = OriginDirect | OriginAppleTalk | OriginAurp
  datatype Origin = Origin(kind: OriginKind, id: string)

  function OriginForTarget(t: Target): Origin {
    match t
    case AurpPeer(id) => Origin(OriginAurp, id)
    case EtherTalkPeer(_, _) => Origin(OriginAppleTalk, t.Key())
    case EtherTalkPort(_) => Origin(OriginDirect, t.Key())
  }

  datatype RouteKey = RouteKey(targetKey: string, netStart: Net)

  /** A stored route. The source's zero Route is `None` of `Option<Route>`. */
  datatype Route = Route(
    key: RouteKey,
    extended: bool,
    netEnd: Net,
    target: Target,
    origin: Origin,
    distance: nat,
    lastSeen: int)
  {
    predicate Covers(n: int) { key.netStart <= n <= netEnd }

    function RouteOrigin(): Origin {
      if origin.id != "" then origin else OriginForTarget(target)
    }

    predicate ExpiredAt(now: int) {
      target.Class() == AppleTalkPeerClass && now - lastSeen > MAX_ROUTE_AGE
    }

    /** What UpsertRoute establishes of every route it stores. The range loops
        count in 16 bits with `n <= netEnd`, so 65535 may not end a range. */
    predicate WellFormed() {
      && key.netStart <= netEnd < 0xFFFF
      && (extended || key.netStart == netEnd)
      && distance <= MAX_ROUTE_DISTANCE
      && key.targetKey == target.Key()
      && origin == OriginForTarget(target)
    }
  }

  // ----- Preference -----

  function CompareInt(a: int, b: int): int {
    if a < b then -1 else if a == b then 0 else 1
  }

  function CompareString(a: string, b: string): int {
    if a == [] then (if b == [] then 0 else -1)
    else if b == [] then 1
    else if a[0] != b[0] then CompareInt(a[0] as int, b[0] as int)
    else CompareString(a[1..], b[1..])
  }

  function PreferenceClass(r: Route): nat {
    match r.target.Class()
    case Direct => 0
    case AppleTalkPeerClass => 1
    case AurpPeerClass => 2
  }

  function Or(a: int, b: int): int { if a != 0 then a else b }

  function ComparePreference(a: Route, b: Route): int {
    Or(CompareInt(a.distance, b.distance),
       Or(CompareInt(PreferenceClass(a), PreferenceClass(b)),
          Or(CompareString(a.RouteOrigin().id, b.RouteOrigin().id),
             CompareString(a.key.targetKey, b.key.targetKey))))
  }

  predicate Before(a: Route, b: Route) { ComparePreference(a, b) <= 0 }

  lemma {:induction false} StringOrder(a: string, b: string)
    ensures CompareString(a, b) == -CompareString(b, a)
    ensures CompareString(a, b) == 0 <==> a == b
  {
    if a != [] && b != [] && a[0] == b[0] {
      StringOrder(a[1..], b[1..]);
      assert a == [a[0]] + a[1..] && b == [b[0]] + b[1..];
    }
  }

  lemma {:induction false} StringTransitive(a: string, b: string, c: string)
    requires CompareString(a, b) <= 0 && CompareString(b, c) <= 0
    ensures CompareString(a, c) <= 0
    ensures CompareString(a, c) == 0 ==> CompareString(a, b) == 0 && CompareString(b, c) == 0
  {
    if a != [] && b != [] && c != [] && a[0] == b[0] == c[0] {
      StringTransitive(a[1..], b[1..], c[1..]);
    }
  }

  /** The preference is a total preorder whose ties are routes of one target
      at one distance. */
  lemma PreferenceTotal(a: Route, b: Route)
    ensures Before(a, b) || Before(b, a)
    ensures Before(a, b) && Before(b, a) <==>
              a.distance == b.distance && PreferenceClass(a) == PreferenceClass(b)
              && a.RouteOrigin().id == b.RouteOrigin().id && a.key.targetKey == b.key.targetKey
  {
    StringOrder(a.RouteOrigin().id, b.RouteOrigin().id);
    StringOrder(a.key.targetKey, b.key.targetKey);
  }

  lemma PreferenceTransitive(a: Route, b: Route, c: Route)
    requires Before(a, b) && Before(b, c)
    ensures Before(a, c)
  {
    StringOrder(a.RouteOrigin().id, b.RouteOrigin().id);
    StringOrder(b.RouteOrigin().id, c.RouteOrigin().id);
    StringOrder(a.RouteOrigin().id, c.RouteOrigin().id);
    if CompareString(a.RouteOrigin().id, b.RouteOrigin().id) <= 0
       && CompareString(b.RouteOrigin().id, c.RouteOrigin().id) <= 0 {
      StringTransitive(a.RouteOrigin().id, b.RouteOrigin().id, c.RouteOrigin().id);
    }
    if CompareString(a.key.targetKey, b.key.targetKey) <= 0
       && CompareString(b.key.targetKey, c.key.targetKey) <= 0 {
      StringTransitive(a.key.targetKey, b.key.targetKey, c.key.targetKey);
    }
  }

  // ----- What preference means -----

  /** Byte-wise order: at the first difference a has the smaller character, or ends. */
  ghost predicate LexLess(a: string, b: string) {
    exists i :: 0 <= i <= |a| && i < |b| && a[..i] == b[..i] && (i < |a| ==> a[i] < b[i])
  }

  /** Directly connected networks come first, then those behind AppleTalk routers,
      then those behind tunnels. */
  function Rank(t: Target): nat {
    match t case EtherTalkPort(_) => 0 case EtherTalkPeer(_, _) => 1 case AurpPeer(_) => 2
  }

  /** Where routes through a target are said to originate. */
  function OriginId(t: Target): string {
    match t
    case EtherTalkPort(d) => "EtherTalkPort|" + d
    case EtherTalkPeer(d, a) => "EtherTalkPeer|" + d + "|" + a
    case AurpPeer(id) => id
  }

  /** a is nearer than b; or as near, and of a lower rank; or of the same rank, and of a
      smaller origin; or of the same origin, and its target's key is not greater. */
  ghost predicate NoFarther(a: Route, b: Route) {
    || a.distance < b.distance
    || (a.distance == b.distance
        && (|| Rank(a.target) < Rank(b.target)
            || (Rank(a.target) == Rank(b.target)
                && (|| LexLess(OriginId(a.target), OriginId(b.target))
                    || (OriginId(a.target) == OriginId(b.target)
                        && (a.key.targetKey == b.key.targetKey || LexLess(a.key.targetKey, b.key.targetKey)))))))
  }

  lemma {:induction false} CompareStringLex(a: string, b: string)
    ensures CompareString(a, b) < 0 <==> LexLess(a, b)
  {
    if a == [] {
      if b != [] { assert a[..0] == b[..0]; }
    } else if b != [] {
      if a[0] == b[0] {
        CompareStringLex(a[1..], b[1..]);
        SameHead(a, b);
      } else {
        FirstDiffers(a, b);
      }
    }
  }

  lemma SameHead(a: string, b: string)
    requires a != [] && b != [] && a[0] == b[0]
    ensures LexLess(a, b) <==> LexLess(a[1..], b[1..])
  {
    var a', b' := a[1..], b[1..];
    if LexLess(a, b) {
      var i :| 0 <= i <= |a| && i < |b| && a[..i] == b[..i] && (i < |a| ==> a[i] < b[i]);
      assert i > 0 && a'[..i - 1] == a[..i][1..] && b'[..i - 1] == b[..i][1..];
    }
    if LexLess(a', b') {
      var i :| 0 <= i <= |a'| && i < |b'| && a'[..i] == b'[..i] && (i < |a'| ==> a'[i] < b'[i]);
      assert a[..i + 1] == [a[0]] + a'[..i] && b[..i + 1] == [b[0]] + b'[..i];
    }
  }

  lemma FirstDiffers(a: string, b: string)
    requires a != [] && b != [] && a[0] != b[0]
    ensures LexLess(a, b) <==> a[0] < b[0]
  {
    if a[0] < b[0] { assert a[..0] == b[..0]; }
    if LexLess(a, b) {
      var i :| 0 <= i <= |a| && i < |b| && a[..i] == b[..i] && (i < |a| ==> a[i] < b[i]);
      assert i > 0 ==> a[..i][0] == b[..i][0];
    }
  }

  /** compareRoutePreference of stored routes. */
  lemma BeforeMeans(a: Route, b: Route)
    requires a.WellFormed() && b.WellFormed()
    ensures Before(a, b) <==> NoFarther(a, b)
  {
    var x, y := OriginId(a.target), OriginId(b.target);
    assert a.RouteOrigin().id == x && b.RouteOrigin().id == y;
    CompareStringLex(x, y);
    CompareStringLex(a.key.targetKey, b.key.targetKey);
    StringOrder(x, y);
    StringOrder(a.key.targetKey, b.key.targetKey);
  }

  predicate Sorted(s: seq<Route>) {
    forall i, j :: 0 <= i < j < |s| ==> Before(s[i], s[j])
  }

  predicate Distinct<T(==)>(s: seq<T>) {
    forall i, j :: 0 <= i < j < |s| ==> s[i] != s[j]
  }

  /** Where a route goes in a sorted candidate list. */
  method InsertSorted(s: seq<Route>, r: Route) returns (t: seq<Route>)
    requires Sorted(s)
    ensures Sorted(t) && multiset(t) == multiset(s) + multiset{r}
  {
    var i := 0;
    while i < |s| && Before(s[i], r)
      invariant 0 <= i <= |s|
      invariant forall j :: 0 <= j < i ==> Before(s[j], r)
    {
      i := i + 1;
    }
    PlacedSorted(s, r, i);
    PlacedOnce(s, r, i);
    t := s[..i] + [r] + s[i..];
  }

  /** Between the routes before it and the rest a route is in its place. */
  lemma PlacedSorted(s: seq<Route>, r: Route, i: nat)
    requires Sorted(s) && i <= |s|
    requires forall j :: 0 <= j < i ==> Before(s[j], r)
    requires i < |s| ==> !Before(s[i], r)
    ensures Sorted(s[..i] + [r] + s[i..])
  {
    var t := s[..i] + [r] + s[i..];
    forall j | i <= j < |s| ensures Before(r, s[j]) {
      PreferenceTotal(s[i], r);
      if i < j { PreferenceTransitive(r, s[i], s[j]); }
    }
    forall j, k | 0 <= j < k < |t| ensures Before(t[j], t[k]) {
      assert t[j] == if j < i then s[j] else if j == i then r else s[j - 1];
      assert t[k] == if k < i then s[k] else if k == i then r else s[k - 1];
    }
  }

  lemma PlacedOnce<T>(s: seq<T>, x: T, i: nat)
    requires i <= |s|
    ensures multiset(s[..i] + [x] + s[i..]) == multiset(s) + multiset{x}
  {
    assert s == s[..i] + s[i..];
  }

  /** slices.SortFunc by compareRoutePreference. Only a sorted permutation is
      promised: the library sort is not stable. */
  method SortByPreference(s: seq<Route>) returns (t: seq<Route>)
    ensures Sorted(t) && multiset(t) == multiset(s)
  {
    t := [];
    for i := 0 to |s|
      invariant Sorted(t) && multiset(t) == multiset(s[..i])
    {
      t := InsertSorted(t, s[i]);
      assert s[..i + 1] == s[..i] + [s[i]];
    }
    assert s[..|s|] == s;
  }
}

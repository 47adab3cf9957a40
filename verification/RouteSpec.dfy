/** The route table as one simple map: what every operation of
    router/route_table.go and router/zones.go does to the set of stored routes
    and to the zone lists, and which best-route transitions it announces. */
module RouteSpec {
  import opened Routes

  const NETWORKS := 0x1_0000

  /** `routes` is the set of stored routes by key; `zones[n]` are the zone names
      of network n. */
  datatype Table = Table(routes: map<RouteKey, Route>, zones: seq<set<string>>) {
    ghost predicate WellFormed() {
      && |zones| == NETWORKS
      && forall k :: k in routes ==> routes[k].key == k && routes[k].WellFormed()
    }

    /** Some stored route covers network n. */
    ghost predicate HasCandidate(n: int) {
      exists k :: k in routes && routes[k].Covers(n)
    }

    /** Stored ranges with different starts share no network. */
    ghost predicate Disjoint() {
      forall k, l :: k in routes && l in routes && k.netStart != l.netStart ==>
        routes[k].netEnd < l.netStart || routes[l].netEnd < k.netStart
    }

    ghost predicate FreshAt(now: int) {
      forall k :: k in routes ==> !routes[k].ExpiredAt(now)
    }
  }

  /** The map holds this very route. */
  predicate HoldsRoute(routes: map<RouteKey, Route>, r: Route) { r.key in routes && routes[r.key] == r }

  function EmptyTable(): Table { Table(map[], seq(NETWORKS, n => {})) }

  // ----- Lookups -----

  datatype Clock = Ageless | At(now: int)
  /** Which stored routes a lookup may return: by age, and not through the
      tunnel named by `avoid` unless that is empty. */
  datatype Query = Query(clock: Clock, avoid: string)

  const ANY_AGE := Query(Ageless, "")
  function ValidAt(now: int): Query { Query(At(now), "") }

  predicate ThroughTunnel(r: Route, tunnelId: string) {
    r.RouteOrigin().kind == OriginAurp && r.RouteOrigin().id == tunnelId
  }

  predicate Admits(zones: seq<set<string>>, q: Query, r: Route)
    requires |zones| == NETWORKS
  {
    && zones[r.key.netStart] != {}
    && (q.clock.At? ==> !r.ExpiredAt(q.clock.now))
    && (q.avoid != "" ==> !ThroughTunnel(r, q.avoid))
  }

  /** The plain scan that a lookup of network n refines: an admitted covering
      route which no other strictly precedes, or nothing if there is none. */
  ghost predicate IsBest(t: Table, n: int, q: Query, best: Option<Route>)
    requires |t.zones| == NETWORKS
  {
    && (best.Some? ==> HoldsRoute(t.routes, best.value) && best.value.Covers(n) && Admits(t.zones, q, best.value))
    && forall k :: k in t.routes && t.routes[k].Covers(n) && Admits(t.zones, q, t.routes[k]) ==>
         best.Some? && Before(best.value, t.routes[k])
  }

  /** May be used for packets that did not come through the named tunnel: the network
      its range starts with has a zone, it was not learned through the tunnel, and, if
      learned from an AppleTalk router, it was heard of in the last ten minutes. No name
      stands for no tunnel and no instant for any age. */
  predicate Usable(zones: seq<set<string>>, r: Route, now: Option<int>, tunnelId: string)
    requires |zones| == NETWORKS
  {
    && zones[r.key.netStart] != {}
    && !(r.target.EtherTalkPeer? && now.Some? && now.value - r.lastSeen > 600)
    && !(tunnelId != "" && r.target == AurpPeer(tunnelId))
  }

  /** A usable route covering network n than which no other is nearer, or nothing if
      there is none. */
  ghost predicate IsNearest(t: Table, n: int, now: Option<int>, tunnelId: string, best: Option<Route>)
    requires |t.zones| == NETWORKS
  {
    && (best.Some? ==>
          && best.value.key in t.routes && t.routes[best.value.key] == best.value
          && best.value.key.netStart <= n <= best.value.netEnd && Usable(t.zones, best.value, now, tunnelId))
    && forall k :: k in t.routes && t.routes[k].key.netStart <= n <= t.routes[k].netEnd
                   && Usable(t.zones, t.routes[k], now, tunnelId) ==>
         best.Some? && NoFarther(best.value, t.routes[k])
  }

  function InstantOf(q: Query): Option<int> { if q.clock.At? then Some(q.clock.now) else None }

  lemma AdmitsMeans(zones: seq<set<string>>, q: Query, r: Route)
    requires |zones| == NETWORKS && r.WellFormed()
    ensures Admits(zones, q, r) <==> Usable(zones, r, InstantOf(q), q.avoid)
  {
  }

  /** The best route is the nearest usable one. */
  lemma BestIsNearest(t: Table, n: int, q: Query, best: Option<Route>)
    requires t.WellFormed()
    ensures IsBest(t, n, q, best) <==> IsNearest(t, n, InstantOf(q), q.avoid, best)
  {
    forall k | k in t.routes
      ensures Admits(t.zones, q, t.routes[k]) <==> Usable(t.zones, t.routes[k], InstantOf(q), q.avoid) {
      AdmitsMeans(t.zones, q, t.routes[k]);
    }
    if best.Some? && best.value.key in t.routes && t.routes[best.value.key] == best.value {
      assert best.value.WellFormed();
      AdmitsMeans(t.zones, q, best.value);
      forall k | k in t.routes ensures Before(best.value, t.routes[k]) <==> NoFarther(best.value, t.routes[k]) {
        BeforeMeans(best.value, t.routes[k]);
      }
    }
  }

  lemma {:induction false} BestExists(t: Table, n: int, q: Query) returns (best: Option<Route>)
    requires t.WellFormed()
    ensures IsBest(t, n, q, best)
    decreases |t.routes|
  {
    if t.routes == map[] { return None; }
    var k :| k in t.routes;
    var t' := Table(t.routes - {k}, t.zones);
    assert |t'.routes| < |t.routes| by { assert t'.routes.Keys == t.routes.Keys - {k}; }
    var b := BestExists(t', n, q);
    var r := t.routes[k];
    best := b;
    if r.Covers(n) && Admits(t.zones, q, r) && (b.None? || !Before(b.value, r)) {
      best := Some(r);
    }
    forall l | l in t.routes && t.routes[l].Covers(n) && Admits(t.zones, q, t.routes[l])
      ensures best.Some? && Before(best.value, t.routes[l])
    {
      PreferenceTotal(r, r);
      if l != k {
        assert l in t'.routes && Before(b.value, t.routes[l]);
        PreferenceTotal(r, b.value);
        if best != b { PreferenceTransitive(r, b.value, t.routes[l]); }
      }
    }
  }

  /** With disjoint ranges a network has one best route. */
  lemma BestUnique(t: Table, n: int, q: Query, a: Option<Route>, b: Option<Route>)
    requires t.WellFormed() && t.Disjoint()
    requires IsBest(t, n, q, a) && IsBest(t, n, q, b)
    ensures a == b
  {
    if a.Some? && b.Some? {
      PreferenceTotal(a.value, b.value);
      assert a.value.key.netStart == b.value.key.netStart;
    }
  }

  // ----- Operations -----

  datatype Op =
    | Upsert(target: Target, extended: bool, netStart: Net, netEnd: Net, distance: nat, now: int)
    | UpdateDistance(target: Target, netStart: Net, distance: nat, now: int)
    | DeleteRoute(target: Target, netStart: Net, now: int)
    | DeleteTarget(target: Target, now: int)
    | Prune(now: int)
    | AddZones(n: Net, names: seq<string>, now: int)
    | ReplaceZones(n: Net, names: seq<string>, now: int)

  function NonEmptyNames(names: seq<string>): set<string> { set z | z in names && z != "" }

  predicate ValidRange(extended: bool, netStart: int, netEnd: int) {
    netStart <= netEnd && (netStart == netEnd || extended)
  }

  function NewRoute(target: Target, extended: bool, netStart: Net, netEnd: Net, distance: nat, now: int): Route {
    Route(RouteKey(target.Key(), netStart), extended, netEnd, target, OriginForTarget(target), distance, now)
  }

  predicate Accepted(t: Table, op: Op) {
    match op
    case Upsert(_, e, s, f, d, _) => ValidRange(e, s, f) && d <= MAX_ROUTE_DISTANCE
    case UpdateDistance(g, s, d, _) => d <= MAX_ROUTE_DISTANCE && RouteKey(g.Key(), s) in t.routes
    case DeleteRoute(g, s, _) => RouteKey(g.Key(), s) in t.routes
    case _ => true
  }

  ghost function NextRoutes(t: Table, op: Op): map<RouteKey, Route>
    requires Accepted(t, op)
  {
    match op
    case Upsert(g, e, s, f, d, now) => t.routes[RouteKey(g.Key(), s) := NewRoute(g, e, s, f, d, now)]
    case UpdateDistance(g, s, d, now) =>
      var k := RouteKey(g.Key(), s);
      t.routes[k := t.routes[k].(distance := d, lastSeen := now)]
    case DeleteRoute(g, s, _) => t.routes - {RouteKey(g.Key(), s)}
    case DeleteTarget(g, _) => map k | k in t.routes && k.targetKey != g.Key() :: t.routes[k]
    case Prune(now) => map k | k in t.routes && !t.routes[k].ExpiredAt(now) :: t.routes[k]
    case _ => t.routes
  }

  /** A network's zone list is dropped exactly when the network had a candidate
      route before the change and has none after it. */
  ghost function KeptZones(t: Table, routes: map<RouteKey, Route>): (zones: seq<set<string>>)
    requires |t.zones| == NETWORKS
    ensures |zones| == NETWORKS
    ensures forall n :: 0 <= n < NETWORKS ==>
              zones[n] == if t.HasCandidate(n) && !Table(routes, t.zones).HasCandidate(n) then {} else t.zones[n]
  {
    seq(NETWORKS, n requires 0 <= n < NETWORKS =>
      if t.HasCandidate(n) && !Table(routes, t.zones).HasCandidate(n) then {} else t.zones[n])
  }

  ghost function Next(t: Table, op: Op): Table
    requires |t.zones| == NETWORKS
  {
    if !Accepted(t, op) then t else
    match op
    case AddZones(n, names, _) => t.(zones := t.zones[n := t.zones[n] + NamesIn(names)])
    case ReplaceZones(n, names, _) => t.(zones := t.zones[n := NonEmptyNames(names)])
    case _ => var routes := NextRoutes(t, op); Table(routes, KeptZones(t, routes))
  }

  // ----- What the operations do, network by network and route by route -----

  /** Storing a route: the range must be in order, a single network unless it is
      extended, and the distance at most 15. The route is then found under its target's
      key with all that was given, every other route is as it was, and otherwise nothing
      happens. */
  lemma UpsertEffect(t: Table, g: Target, extended: bool, start: Net, end: Net, distance: nat, now: int)
    requires t.WellFormed() && end < 0xFFFF
    ensures var t' := Next(t, Upsert(g, extended, start, end, distance, now));
            var k := RouteKey(g.Key(), start);
            if start <= end && (extended || start == end) && distance <= 15 then
              && k in t'.routes && t'.routes[k].WellFormed()
              && t'.routes[k].target == g && t'.routes[k].extended == extended && t'.routes[k].key == k
              && t'.routes[k].netEnd == end && t'.routes[k].distance == distance && t'.routes[k].lastSeen == now
              && forall l :: l != k ==>
                   (l in t'.routes <==> l in t.routes) && (l in t.routes ==> t'.routes[l] == t.routes[l])
            else t' == t
  {
  }

  /** A new distance: the stored route of that target and start keeps its range. */
  lemma UpdateDistanceEffect(t: Table, g: Target, start: Net, distance: nat, now: int)
    requires t.WellFormed()
    ensures var t' := Next(t, UpdateDistance(g, start, distance, now));
            var k := RouteKey(g.Key(), start);
            if distance <= 15 && k in t.routes then
              && k in t'.routes && t'.routes[k].distance == distance && t'.routes[k].lastSeen == now
              && t'.routes[k].netEnd == t.routes[k].netEnd && t'.routes[k].extended == t.routes[k].extended
              && t'.routes[k].target == t.routes[k].target && t'.zones == t.zones
              && forall l :: l != k ==>
                   (l in t'.routes <==> l in t.routes) && (l in t.routes ==> t'.routes[l] == t.routes[l])
            else t' == t
  {
    var k := RouteKey(g.Key(), start);
    var t' := Next(t, UpdateDistance(g, start, distance, now));
    if distance <= 15 && k in t.routes {
      forall n: Net | t.HasCandidate(n) ensures t'.HasCandidate(n) {
        var l :| l in t.routes && t.routes[l].Covers(n);
        assert l in t'.routes && t'.routes[l].Covers(n);
      }
    }
  }

  /** Which routes go: those of the one target and start; those of the target; those
      of AppleTalk routers not heard of for more than ten minutes. The others stay as
      they were. */
  lemma RemovalEffect(t: Table, g: Target, start: Net, now: int, k: RouteKey)
    requires t.WellFormed()
    ensures var routes := Next(t, DeleteRoute(g, start, now)).routes;
            && (k in routes <==> k in t.routes && k != RouteKey(g.Key(), start))
            && (k in routes ==> routes[k] == t.routes[k])
    ensures var routes := Next(t, DeleteTarget(g, now)).routes;
            && (k in routes <==> k in t.routes && k.targetKey != g.Key()) && (k in routes ==> routes[k] == t.routes[k])
    ensures var routes := Next(t, Prune(now)).routes;
            && (k in routes <==> k in t.routes
                                 && !(t.routes[k].target.EtherTalkPeer? && now - t.routes[k].lastSeen > 600))
            && (k in routes ==> routes[k] == t.routes[k])
  {
  }

  /** A network that loses its last route loses its zones, and no other does. */
  lemma EmptiedNetworks(t: Table, op: Op, n: Net)
    requires t.WellFormed() && !op.AddZones? && !op.ReplaceZones?
    ensures var t' := Next(t, op);
            var had := exists k :: k in t.routes && t.routes[k].key.netStart <= n <= t.routes[k].netEnd;
            var has := exists k :: k in t'.routes && t'.routes[k].key.netStart <= n <= t'.routes[k].netEnd;
            t'.zones[n] == if had && !has then {} else t.zones[n]
  {
    var t' := Next(t, op);
    assert t.HasCandidate(n) <==> exists k :: k in t.routes && t.routes[k].key.netStart <= n <= t.routes[k].netEnd by {
      if k :| k in t.routes && t.routes[k].key.netStart <= n <= t.routes[k].netEnd { assert t.routes[k].Covers(n); }
      if k :| k in t.routes && t.routes[k].Covers(n) { assert t.routes[k].key.netStart <= n; }
    }
    assert t'.HasCandidate(n) <==>
           exists k :: k in t'.routes && t'.routes[k].key.netStart <= n <= t'.routes[k].netEnd by {
      if k :| k in t'.routes && t'.routes[k].key.netStart <= n <= t'.routes[k].netEnd { assert t'.routes[k].Covers(n); }
      if k :| k in t'.routes && t'.routes[k].Covers(n) { assert t'.routes[k].key.netStart <= n; }
    }
  }

  /** Adding zones keeps every earlier one and adds just the given ones; replacing
      leaves just the given ones, without the empty name. Routes and the zones of other
      networks stay. */
  lemma ZonesEffect(t: Table, n: Net, names: seq<string>, now: int, m: Net, z: string)
    requires |t.zones| == NETWORKS
    ensures var t' := Next(t, AddZones(n, names, now));
            t'.routes == t.routes && (z in t'.zones[m] <==> z in t.zones[m] || (m == n && z in names))
    ensures var t' := Next(t, ReplaceZones(n, names, now));
            t'.routes == t.routes && (z in t'.zones[m] <==> if m == n then z in names && z != "" else z in t.zones[m])
  {
  }

  predicate Admissible(op: Op) { op.Upsert? ==> op.netEnd < 0xFFFF }

  lemma NextWellFormed(t: Table, op: Op)
    requires t.WellFormed() && Admissible(op)
    ensures Next(t, op).WellFormed()
  {
  }

  // ----- Announcements -----

  /** One call of informObservers: the best route of network n before and after. */
  datatype Transition = Transition(n: Net, before: Option<Route>, after: Option<Route>)

  datatype Note =
    | NetworkAdded(best: Route)
    | NetworkDeleted(oldBest: Route)
    | BestNetworkChanged(from: Route, to: Route)

  predicate SameShape(a: Route, b: Route) {
    && a.key.targetKey == b.key.targetKey && a.distance == b.distance
    && a.extended == b.extended && a.netEnd == b.netEnd
  }

  function Inform(before: Option<Route>, after: Option<Route>): seq<Note> {
    match (before, after)
    case (None, None) => []
    case (None, Some(a)) => [NetworkAdded(a)]
    case (Some(b), None) => [NetworkDeleted(b)]
    case (Some(b), Some(a)) => if SameShape(b, a) then [] else [BestNetworkChanged(b, a)]
  }

  function Notes(trs: seq<Transition>): seq<Note> {
    if trs == [] then []
    else Notes(trs[..|trs| - 1]) + Inform(trs[|trs| - 1].before, trs[|trs| - 1].after)
  }

  predicate Increasing(trs: seq<Transition>) {
    forall i, j :: 0 <= i < j < |trs| ==> trs[i].n < trs[j].n
  }

  /** Some route starting at network n is removed. */
  ghost predicate Removed(t: Table, routes: map<RouteKey, Route>, n: int) {
    exists k :: k in t.routes && k !in routes && k.netStart == n
  }

  /** The networks whose best route an operation announces. */
  ghost predicate Touches(t: Table, op: Op, n: int) {
    Accepted(t, op) && match op
    case DeleteTarget(_, _) => Removed(t, NextRoutes(t, op), n)
    case Prune(_) => Removed(t, NextRoutes(t, op), n)
    case AddZones(m, _, _) => n == m
    case ReplaceZones(m, _, _) => n == m
    case Upsert(_, _, s, _, _, _) => n == s
    case UpdateDistance(_, s, _, _) => n == s
    case DeleteRoute(_, s, _) => n == s
  }

  predicate Announced(trs: seq<Transition>, n: int) {
    exists i :: 0 <= i < |trs| && trs[i].n == n
  }

  function BeforeQuery(op: Op): Query { if op.Prune? then ANY_AGE else ValidAt(op.now) }

  ghost predicate Faithful(t: Table, t': Table, before: Query, after: Query, tr: Transition)
    requires |t.zones| == NETWORKS && |t'.zones| == NETWORKS
  {
    IsBest(t, tr.n, before, tr.before) && IsBest(t', tr.n, after, tr.after)
  }

  /** One operation: the new table, and what its observers are told. */
  ghost predicate Step(t: Table, op: Op, t': Table, trs: seq<Transition>)
    requires |t.zones| == NETWORKS
  {
    && t' == Next(t, op)
    && Increasing(trs)
    && (forall n :: Announced(trs, n) <==> Touches(t, op, n))
    && forall i :: 0 <= i < |trs| ==> Faithful(t, t', BeforeQuery(op), ValidAt(op.now), trs[i])
  }
}

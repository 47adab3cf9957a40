/** The route table of router/route_table.go and router/zones.go: routes indexed
    by class and key and again by network number, zones indexed by network and
    again by name. Every method keeps the indexes in agreement and refines one
    step of the simple table of RouteSpec. */
module RouteTables {
  import opened Routes
  import opened RouteSpec
  import opened RouteIndex
  import opened Observers

  function ClassIndex(c: TargetClass): (i: nat) {
    match c case Direct => 0 case AurpPeerClass => 1 case AppleTalkPeerClass => 2
  }

  type RouteMap = map<RouteKey, Route>

  ghost predicate Apart(byClass: seq<RouteMap>) {
    && |byClass| == 3
    && forall c, k :: 0 <= c < 3 && k in byClass[c] ==>
         ClassIndex(ClassOfKey(k.targetKey)) == c && byClass[c][k].key == k
  }

  ghost predicate Keyed(routes: RouteMap) {
    forall k :: k in routes ==> routes[k].key == k
  }

  ghost predicate Sound(routes: RouteMap) {
    Keyed(routes) && forall k {:trigger routes[k].WellFormed()} :: k in routes ==> routes[k].WellFormed()
  }

  ghost function Union(byClass: seq<RouteMap>): RouteMap
    requires |byClass| == 3
  {
    byClass[0] + byClass[1] + byClass[2]
  }

  lemma UnionAt(byClass: seq<RouteMap>, k: RouteKey)
    requires Apart(byClass)
    ensures var c := ClassIndex(ClassOfKey(k.targetKey));
            (k in Union(byClass) <==> k in byClass[c]) && (k in byClass[c] ==> Union(byClass)[k] == byClass[c][k])
  {
  }

  lemma UnionPut(byClass: seq<RouteMap>, r: Route)
    requires Apart(byClass) && r.key.targetKey == r.target.Key()
    ensures var c := ClassIndex(r.target.Class());
            var byClass' := byClass[c := byClass[c][r.key := r]];
            Apart(byClass') && Union(byClass') == Union(byClass)[r.key := r]
  {
    KeyDeterminesClass(r.target);
  }

  lemma UnionDrop(byClass: seq<RouteMap>, c: nat, kept: RouteMap)
    requires Apart(byClass) && c < 3
    requires forall k :: k in kept ==> k in byClass[c] && kept[k] == byClass[c][k]
    ensures var byClass' := byClass[c := kept];
            Apart(byClass')
            && Union(byClass') == map k | k in Union(byClass) && (k in byClass[c] ==> k in kept) :: Union(byClass)[k]
  {
    var byClass' := byClass[c := kept];
    forall k ensures (k in Union(byClass') <==> k in Union(byClass) && (k in byClass[c] ==> k in kept))
                     && (k in Union(byClass') ==> Union(byClass')[k] == Union(byClass)[k])
    {
      UnionAt(byClass, k);
      UnionAt(byClass', k);
    }
  }

  /** The routes of `before` that are gone from `after`. */
  ghost function Dropped(before: RouteMap, after: RouteMap): RouteMap {
    map k | k in before && k !in after :: before[k]
  }

  /** After routes leave the class index the lists hold them as stale copies. */
  lemma DroppedIndexed(before: RouteMap, after: RouteMap, lists: seq<seq<Route>>)
    requires Indexed(before, map[], lists)
    requires forall k :: k in after ==> k in before && after[k] == before[k]
    ensures Indexed(after, Dropped(before, after), lists)
  {
    forall n | 0 <= n < NETWORKS ensures IndexedAt(after, Dropped(before, after), lists[n], n) {
      assert IndexedAt(before, map[], lists[n], n);
    }
  }

  /** Split a class into the routes to keep and those to take out. */
  method Partition(routes: RouteMap, doomed: Route -> bool) returns (kept: RouteMap, taken: seq<Route>)
    requires forall k :: k in routes ==> routes[k].key == k
    ensures kept == map k | k in routes && !doomed(routes[k]) :: routes[k]
    ensures forall r :: r in taken <==> HoldsRoute(routes, r) && doomed(r)
    ensures Distinct(taken)
  {
    kept, taken := routes, [];
    var todo := routes.Keys;
    while todo != {}
      invariant todo <= routes.Keys
      invariant forall k :: k in kept <==> k in routes && (k in todo || !doomed(routes[k]))
      invariant forall k :: k in kept ==> kept[k] == routes[k]
      invariant forall r :: r in taken <==> r.key in routes && routes[r.key] == r && r.key !in todo && doomed(r)
      invariant Distinct(taken)
      decreases todo
    {
      var k :| k in todo;
      if doomed(routes[k]) {
        taken := taken + [routes[k]];
        kept := kept - {k};
      }
      todo := todo - {k};
    }
  }

  ghost function Survivors(routes: RouteMap, c: TargetClass, doomed: Route -> bool): RouteMap {
    map k | k in routes && !(ClassOfKey(k.targetKey) == c && doomed(routes[k])) :: routes[k]
  }

  /** A target's routes are all in its own class. */
  lemma TargetSurvivors(t: Table, target: Target, doomed: Route -> bool, now: int)
    requires forall r :: doomed(r) <==> r.key.targetKey == target.Key()
    requires forall k :: k in t.routes ==> t.routes[k].key == k
    ensures Survivors(t.routes, target.Class(), doomed) == NextRoutes(t, Op.DeleteTarget(target, now))
    ensures forall k :: k in Survivors(t.routes, target.Class(), doomed) ==> !doomed(t.routes[k])
    ensures forall k :: k in Dropped(t.routes, Survivors(t.routes, target.Class(), doomed)) ==> doomed(t.routes[k])
  {
    KeyDeterminesClass(target);
  }

  /** The sequence holds exactly the routes of the map. */
  ghost predicate Lists(rs: seq<Route>, routes: RouteMap) {
    forall r :: r in rs <==> HoldsRoute(routes, r)
  }

  lemma {:induction false} ListsOnce(rs: seq<Route>, routes: RouteMap)
    requires Lists(rs, routes) && Distinct(rs) && Keyed(routes)
    ensures |rs| == |routes|
  {
    if rs == [] {
      assert forall k :: k in routes ==> HoldsRoute(routes, routes[k]);
      assert routes == map[];
    } else {
      var init, last := rs[..|rs| - 1], rs[|rs| - 1];
      assert last in rs && rs == init + [last];
      var rest := routes - {last.key};
      forall r ensures r in init <==> HoldsRoute(rest, r) {
        assert r in rs <==> HoldsRoute(routes, r);
        if r in init {
          var i :| 0 <= i < |init| && init[i] == r;
          assert rs[i] != rs[|rs| - 1];
        }
      }
      ListsOnce(init, rest);
      assert routes.Keys == rest.Keys + {last.key};
      assert |routes| == |routes.Keys| && |rest| == |rest.Keys|;
    }
  }

  lemma ClassTaken(byClass: seq<RouteMap>, c: TargetClass, kept: RouteMap, taken: seq<Route>, doomed: Route -> bool)
    requires Apart(byClass)
    requires kept == map k | k in byClass[ClassIndex(c)]
             && !doomed(byClass[ClassIndex(c)][k]) :: byClass[ClassIndex(c)][k]
    requires forall r :: r in taken <==> HoldsRoute(byClass[ClassIndex(c)], r) && doomed(r)
    ensures var byClass' := byClass[ClassIndex(c) := kept];
            && Apart(byClass') && Union(byClass') == Survivors(Union(byClass), c, doomed)
            && Lists(taken, Dropped(Union(byClass), Union(byClass')))
  {
    var i := ClassIndex(c);
    forall k ensures ClassPart(Union(byClass), byClass[i], c, k) {
      UnionAt(byClass, k);
    }
    UnionDrop(byClass, i, kept);
    SurvivorsKept(Union(byClass), byClass[i], c, kept, taken, doomed);
  }

  ghost predicate ClassPart(all: RouteMap, part: RouteMap, c: TargetClass, k: RouteKey) {
    && (k in part <==> k in all && ClassOfKey(k.targetKey) == c)
    && (k in part ==> part[k] == all[k])
  }

  lemma SurvivorsKept(all: RouteMap, part: RouteMap, c: TargetClass, kept: RouteMap, taken: seq<Route>,
                      doomed: Route -> bool)
    requires forall k :: ClassPart(all, part, c, k)
    requires kept == map k | k in part && !doomed(part[k]) :: part[k]
    requires forall r :: r in taken <==> HoldsRoute(part, r) && doomed(r)
    ensures Survivors(all, c, doomed) == map k | k in all && (k in part ==> k in kept) :: all[k]
    ensures Lists(taken, Dropped(all, Survivors(all, c, doomed)))
  {
    forall k | k in all
      ensures k in Survivors(all, c, doomed) <==> (k in part ==> k in kept)
    {
      assert ClassPart(all, part, c, k);
    }
    forall r ensures HoldsRoute(part, r) && doomed(r) <==> HoldsRoute(Dropped(all, Survivors(all, c, doomed)), r) {
      assert ClassPart(all, part, c, r.key);
    }
  }

  lemma EmptyList(routes: RouteMap, zones: seq<set<string>>, list: seq<Route>, n: int)
    requires IndexedAt(routes, map[], list, n)
    ensures list == [] <==> !Table(routes, zones).HasCandidate(n)
  {
    if list != [] {
      assert list[0] in list;
      assert list[0].key in routes;
    }
  }

  /** Clearing the zones of the emptied networks among those that a removed
      range covered is what the simple table does. */
  lemma ZonesKept(t: Table, routes: RouteMap, lists: seq<seq<Route>>, affected: iset<Net>, zones: seq<set<string>>)
    requires |t.zones| == NETWORKS && |zones| == NETWORKS && Indexed(routes, map[], lists)
    requires forall n :: n in affected ==> t.HasCandidate(n)
    requires forall k, n: Net :: k in t.routes && t.routes[k].Covers(n) ==>
               n in affected || (k in routes && routes[k].Covers(n))
    requires forall n: Net :: zones[n] == if n in affected && lists[n] == [] then {} else t.zones[n]
    ensures zones == KeptZones(t, routes)
  {
    forall n | 0 <= n < NETWORKS ensures zones[n] == KeptZones(t, routes)[n] {
      EmptyList(routes, t.zones, lists[n], n);
      if t.HasCandidate(n) && !Table(routes, t.zones).HasCandidate(n) {
        var k :| k in t.routes && t.routes[k].Covers(n);
        assert n in affected;
      }
    }
  }

  ghost predicate AnyCovers(rs: seq<Route>, n: int) {
    exists r :: r in rs && r.Covers(n)
  }

  lemma AnyCoversPush(rs: seq<Route>, r: Route, n: int)
    ensures AnyCovers(rs + [r], n) <==> AnyCovers(rs, n) || r.Covers(n)
  {
    if AnyCovers(rs, n) {
      var q :| q in rs && q.Covers(n);
      assert q in rs + [r];
    }
    assert r in rs + [r];
  }

  method NetworksOf(taken: seq<Route>) returns (networks: set<Net>)
    ensures forall n: Net :: n in networks <==> AnyCovers(taken, n)
  {
    networks := {};
    for i := 0 to |taken|
      invariant forall n: Net :: n in networks <==> AnyCovers(taken[..i], n)
    {
      ghost var before := networks;
      var n: int := taken[i].key.netStart;
      while n <= taken[i].netEnd
        invariant taken[i].key.netStart <= n
        invariant forall m: Net ::
                    m in networks <==> m in before || (taken[i].key.netStart <= m < n && m <= taken[i].netEnd)
      {
        networks := networks + {n};
        n := n + 1;
      }
      assert taken[..i + 1] == taken[..i] + [taken[i]];
      forall m: Net ensures m in networks <==> AnyCovers(taken[..i + 1], m) {
        AnyCoversPush(taken[..i], taken[i], m);
      }
    }
    assert taken[..|taken|] == taken;
  }

  lemma TakenNetworks(taken: seq<Route>, stale: RouteMap, networks: set<Net>)
    requires Lists(taken, stale) && (forall k :: k in stale ==> stale[k].key == k)
    requires forall n: Net :: n in networks <==> AnyCovers(taken, n)
    ensures forall n: Net :: n in networks <==> exists k :: k in stale && stale[k].Covers(n)
  {
    forall n: Net ensures n in networks <==> exists k :: k in stale && stale[k].Covers(n) {
      if n in networks {
        var r :| r in taken && r.Covers(n);
        assert stale[r.key] == r;
      }
      if k :| k in stale && stale[k].Covers(n) {
        assert stale[k] in taken;
      }
    }
  }

  lemma UnaffectedIndexed(routes: RouteMap, stale: RouteMap, affected: set<Net>, lists: seq<seq<Route>>,
                          lists': seq<seq<Route>>)
    requires Indexed(routes, stale, lists) && |lists'| == NETWORKS
    requires forall k :: k in stale ==> stale[k].key == k
    requires forall k, n: Net :: k in stale && stale[k].Covers(n) ==> n in affected
    requires forall n: Net :: if n in affected then IndexedAt(routes, map[], lists'[n], n) else lists'[n] == lists[n]
    ensures Indexed(routes, map[], lists')
  {
    forall n | 0 <= n < NETWORKS ensures IndexedAt(routes, map[], lists'[n], n) {
      assert IndexedAt(routes, stale, lists[n], n);
    }
  }

  lemma TakenStarts(taken: seq<Route>, stale: RouteMap, bests: map<Net, Option<Route>>)
    requires Lists(taken, stale) && (forall k :: k in stale ==> stale[k].key == k)
    requires forall n :: n in bests <==> exists r :: r in taken && r.key.netStart == n
    ensures forall n :: n in bests <==> exists k :: k in stale && k.netStart == n
  {
    forall n ensures n in bests <==> exists k :: k in stale && k.netStart == n {
      if k :| k in stale && k.netStart == n {
        assert stale[k] in taken;
      }
      if n in bests {
        var r :| r in taken && r.key.netStart == n;
        assert r.key in stale;
      }
    }
  }

  /** Transitions from the given best routes to the first admitted ones of the
      lists, one for each of the networks below `hi`, in order. */
  ghost predicate Told(bests: map<Net, Option<Route>>, lists: seq<seq<Route>>, zones: seq<set<string>>, now: int,
                       trs: seq<Transition>, hi: int)
    requires |lists| == |zones| == NETWORKS
  {
    && Increasing(trs)
    && (forall i :: 0 <= i < |trs| ==>
          trs[i].n in bests && trs[i].n < hi && trs[i].before == bests[trs[i].n]
          && FirstAdmitted(lists[trs[i].n], zones, ValidAt(now), trs[i].after))
    && forall m :: m in bests && m < hi ==> Announced(trs, m)
  }

  lemma ToldPush(bests: map<Net, Option<Route>>, lists: seq<seq<Route>>, zones: seq<set<string>>, now: int,
                 trs: seq<Transition>, n: Net, after: Option<Route>)
    returns (trs': seq<Transition>)
    requires |lists| == |zones| == NETWORKS && Told(bests, lists, zones, now, trs, n)
    requires n in bests && FirstAdmitted(lists[n], zones, ValidAt(now), after)
    ensures Told(bests, lists, zones, now, trs', n + 1) && Notes(trs') == Notes(trs) + Inform(bests[n], after)
  {
    trs' := trs + [Transition(n, bests[n], after)];
    NotesPush(trs, Transition(n, bests[n], after));
    forall m | m in bests && m < n + 1 ensures Announced(trs', m) {
      if m == n {
        assert trs'[|trs|].n == n;
      } else {
        var i :| 0 <= i < |trs| && trs[i].n == m;
        assert trs'[i].n == m;
      }
    }
  }

  lemma Appended<T>(a: seq<T>, b: seq<T>, c: seq<T>)
    ensures a + (b + c) == a + b + c
  {
  }

  /** What removing the stale routes from the lists does: only networks that a
      stale route covered lose their zones, and every start of a stale route is
      announced. */
  ghost predicate Finished(stale: RouteMap, q: Query, now: int, lists: seq<seq<Route>>, zones: seq<set<string>>,
                           lists': seq<seq<Route>>, t': Table, affected: set<Net>, trs: seq<Transition>)
  {
    && |lists| == |lists'| == |zones| == |t'.zones| == NETWORKS
    && (forall n: Net :: n in affected <==> exists k :: k in stale && stale[k].Covers(n))
    && (forall n: Net :: t'.zones[n] == if n in affected && lists'[n] == [] then {} else zones[n])
    && Increasing(trs)
    && (forall n :: Announced(trs, n) <==> exists k :: k in stale && k.netStart == n)
    && forall i :: 0 <= i < |trs| ==>
         FirstAdmitted(lists[trs[i].n], zones, q, trs[i].before)
         && FirstAdmitted(lists'[trs[i].n], t'.zones, ValidAt(now), trs[i].after)
  }

  lemma ToldFinished(stale: RouteMap, q: Query, now: int, lists: seq<seq<Route>>, zones: seq<set<string>>,
                     lists': seq<seq<Route>>, t': Table, affected: set<Net>, bests: map<Net, Option<Route>>,
                     trs: seq<Transition>)
    requires |lists| == |lists'| == |zones| == |t'.zones| == NETWORKS
    requires forall n: Net :: n in affected <==> exists k :: k in stale && stale[k].Covers(n)
    requires forall n: Net :: t'.zones[n] == if n in affected && lists'[n] == [] then {} else zones[n]
    requires forall n :: n in bests <==> exists k :: k in stale && k.netStart == n
    requires forall n :: n in bests ==> FirstAdmitted(lists[n], zones, q, bests[n])
    requires Told(bests, lists', t'.zones, now, trs, NETWORKS)
    ensures Finished(stale, q, now, lists, zones, lists', t', affected, trs)
  {
    forall n ensures Announced(trs, n) <==> n in bests { }
  }

  /** What the two halves of a removal establish is one step of the simple table. */
  lemma FinishedStep(t: Table, op: Op, lists: seq<seq<Route>>, lists': seq<seq<Route>>, affected: set<Net>,
                     t': Table, trs: seq<Transition>)
    requires op.DeleteTarget? || op.Prune?
    requires Indexed(t.routes, map[], lists) && Indexed(t'.routes, map[], lists')
    requires t'.routes == NextRoutes(t, op)
    requires Finished(Dropped(t.routes, t'.routes), BeforeQuery(op), op.now, lists, t.zones, lists', t', affected, trs)
    ensures Step(t, op, t', trs)
  {
    var stale := Dropped(t.routes, t'.routes);
    DroppedZones(t, t'.routes, lists', affected, t'.zones);
    forall n ensures Announced(trs, n) <==> Touches(t, op, n) {
      assert (exists k :: k in stale && k.netStart == n) <==> Removed(t, t'.routes, n) by {
        if k :| k in stale && k.netStart == n { assert k in t.routes && k !in t'.routes; }
        if k :| k in t.routes && k !in t'.routes && k.netStart == n { assert k in stale; }
      }
    }
    forall i | 0 <= i < |trs| ensures Faithful(t, t', BeforeQuery(op), ValidAt(op.now), trs[i]) {
      FirstIsBest(t, lists[trs[i].n], trs[i].n, BeforeQuery(op), trs[i].before);
      FirstIsBest(t', lists'[trs[i].n], trs[i].n, ValidAt(op.now), trs[i].after);
    }
  }

  lemma NotesPush(trs: seq<Transition>, tr: Transition)
    ensures Notes(trs + [tr]) == Notes(trs) + Inform(tr.before, tr.after)
  {
    assert (trs + [tr])[..|trs|] == trs;
  }

  lemma NotesOne(tr: Transition)
    ensures Notes([tr]) == Inform(tr.before, tr.after)
  {
    NotesPush([], tr);
    assert [] + [tr] == [tr];
  }

  lemma UnionDropKey(byClass: seq<RouteMap>, key: RouteKey)
    requires Apart(byClass)
    ensures var c := ClassIndex(ClassOfKey(key.targetKey));
            var byClass' := byClass[c := byClass[c] - {key}];
            Apart(byClass') && Union(byClass') == Union(byClass) - {key}
    ensures var c := ClassIndex(ClassOfKey(key.targetKey));
            (key in Union(byClass) <==> key in byClass[c])
            && (key in byClass[c] ==> Union(byClass)[key] == byClass[c][key])
  {
    var c := ClassIndex(ClassOfKey(key.targetKey));
    UnionDrop(byClass, c, byClass[c] - {key});
    UnionAt(byClass, key);
  }

  lemma DroppedZones(t: Table, routes: RouteMap, lists': seq<seq<Route>>, affected: set<Net>, zones: seq<set<string>>)
    requires |t.zones| == |zones| == NETWORKS && Indexed(routes, map[], lists')
    requires forall k :: k in routes ==> k in t.routes && routes[k] == t.routes[k]
    requires forall n: Net :: n in affected <==>
               exists k :: k in Dropped(t.routes, routes) && Dropped(t.routes, routes)[k].Covers(n)
    requires forall n: Net :: zones[n] == if n in affected && lists'[n] == [] then {} else t.zones[n]
    ensures zones == KeptZones(t, routes)
  {
    var stale := Dropped(t.routes, routes);
    forall n | n in affected ensures t.HasCandidate(n) {
      var k :| k in stale && stale[k].Covers(n);
      assert k in t.routes && t.routes[k].Covers(n);
    }
    forall k, n: Net | k in t.routes && t.routes[k].Covers(n)
      ensures n in affected || (k in routes && routes[k].Covers(n))
    {
      if k !in routes { assert k in stale && stale[k].Covers(n); }
    }
    ZonesKept(t, routes, lists', (iset n: Net | n in affected), zones);
  }

  lemma NothingDropped(routes: RouteMap, key: RouteKey)
    requires key !in routes
    ensures routes - {key} == routes && Dropped(routes, routes) == map[]
  {
  }

  lemma RejectedStep(t: Table, op: Op)
    requires |t.zones| == NETWORKS && !Accepted(t, op)
    ensures Step(t, op, t, [])
  {
  }

  /** A step that announces one network. */
  lemma OneStep(t: Table, op: Op, t': Table, lists: seq<seq<Route>>, lists': seq<seq<Route>>, n: Net,
                before: Option<Route>, after: Option<Route>)
    requires |t.zones| == |t'.zones| == NETWORKS
    requires !op.DeleteTarget? && !op.Prune? && Touches(t, op, n) && t' == Next(t, op)
    requires Indexed(t.routes, map[], lists) && Indexed(t'.routes, map[], lists')
    requires FirstAdmitted(lists[n], t.zones, ValidAt(op.now), before)
    requires FirstAdmitted(lists'[n], t'.zones, ValidAt(op.now), after)
    ensures Step(t, op, t', [Transition(n, before, after)])
  {
    var trs := [Transition(n, before, after)];
    assert trs[0].n == n;
    FirstIsBest(t, lists[n], n, ValidAt(op.now), before);
    FirstIsBest(t', lists'[n], n, ValidAt(op.now), after);
    assert Faithful(t, t', BeforeQuery(op), ValidAt(op.now), trs[0]);
  }

  /** Removing an old copy over its range and adding the new one over its own. */
  lemma UpsertIndexed(routes: RouteMap, stale: RouteMap, route: Route,
                      lists: seq<seq<Route>>, removed: seq<seq<Route>>, lists': seq<seq<Route>>)
    requires Indexed(routes, stale, lists) && |removed| == |lists'| == NETWORKS
    requires forall k :: k in routes ==> routes[k].key == k
    requires route.key in stale ==> stale[route.key].lastSeen < route.lastSeen
    requires forall n: Net :: if route.key in routes && routes[route.key].Covers(n)
                              then Filtered(lists[n], removed[n], (r: Route) => r.key == route.key)
                              else removed[n] == lists[n]
    requires forall n: Net ::
               if route.Covers(n) then InsertedInto(removed[n], lists'[n], route) else lists'[n] == removed[n]
    ensures Indexed(routes[route.key := route], stale, lists')
  {
    forall n | 0 <= n < NETWORKS ensures IndexedAt(routes[route.key := route], stale, lists'[n], n) {
      RemovedIndexed(routes, stale, route.key, lists[n], removed[n], n);
      InsertedIndexed(routes - {route.key}, stale, route, removed[n], lists'[n], n);
      assert (routes - {route.key})[route.key := route] == routes[route.key := route];
    }
  }

  /** The networks that the old copy of the route covered and the new one does not,
      and that no candidate is left for, lose their zones. */
  ghost predicate ClearedFor(routes: RouteMap, route: Route, lists': seq<seq<Route>>, zones: seq<set<string>>,
                             zones': seq<set<string>>) {
    && |lists'| == |zones| == |zones'| == NETWORKS
    && forall n: Net ::
         zones'[n] ==
         if route.key in routes && routes[route.key].Covers(n) && !route.Covers(n) && lists'[n] == []
         then {} else zones[n]
  }

  lemma UpsertZones(t: Table, route: Route, lists': seq<seq<Route>>, zones: seq<set<string>>)
    requires |t.zones| == |zones| == NETWORKS && Indexed(t.routes[route.key := route], map[], lists')
    requires ClearedFor(t.routes, route, lists', t.zones, zones)
    ensures zones == KeptZones(t, t.routes[route.key := route])
  {
    ZonesKept(t, t.routes[route.key := route], lists',
              (iset n: Net | route.key in t.routes && t.routes[route.key].Covers(n) && !route.Covers(n)), zones);
  }

  lemma SameCoverZones(t: Table, route: Route)
    requires |t.zones| == NETWORKS && route.key in t.routes
    requires forall n: Net :: t.routes[route.key].Covers(n) <==> route.Covers(n)
    ensures KeptZones(t, t.routes[route.key := route]) == t.zones
  {
    var t' := Table(t.routes[route.key := route], t.zones);
    forall n: Net | t.HasCandidate(n) ensures t'.HasCandidate(n) {
      var k :| k in t.routes && t.routes[k].Covers(n);
      assert k in t'.routes && t'.routes[k].Covers(n);
    }
  }

  lemma DistanceStep(t: Table, target: Target, found: Route, distance: nat, now: int,
                     lists: seq<seq<Route>>, lists': seq<seq<Route>>, before: Option<Route>, after: Option<Route>)
    requires |t.zones| == NETWORKS && distance <= MAX_ROUTE_DISTANCE
    requires found.key.targetKey == target.Key() && found.key in t.routes && t.routes[found.key] == found
    requires Indexed(t.routes, map[], lists)
    requires Indexed(t.routes[found.key := found.(distance := distance, lastSeen := now)], map[], lists')
    requires FirstAdmitted(lists[found.key.netStart], t.zones, ValidAt(now), before)
    requires FirstAdmitted(lists'[found.key.netStart], t.zones, ValidAt(now), after)
    ensures var route := found.(distance := distance, lastSeen := now);
            Step(t, Op.UpdateDistance(target, found.key.netStart, distance, now),
                 Table(t.routes[found.key := route], t.zones),
                 [Transition(found.key.netStart, before, after)])
  {
    var route := found.(distance := distance, lastSeen := now);
    SameCoverZones(t, route);
    OneStep(t, Op.UpdateDistance(target, found.key.netStart, distance, now),
            Table(t.routes[found.key := route], t.zones),
            lists, lists', found.key.netStart, before, after);
  }

  method Substitute(a: seq<Route>, route: Route) returns (c: seq<Route>)
    ensures Substituted(a, c, route)
  {
    c := a;
    for i := 0 to |a|
      invariant |c| == |a|
      invariant forall j :: 0 <= j < |a| ==> c[j] == if j < i && a[j].key == route.key then route else a[j]
    {
      if a[i].key == route.key {
        c := c[i := route];
      }
    }
  }

  // ----- Pruning -----

  /** Only AppleTalk-peer routes expire, so pruning that class prunes the table. */
  lemma PruneSurvivors(t: Table, now: int, doomed: Route -> bool)
    requires Sound(t.routes) && forall r :: doomed(r) == r.ExpiredAt(now)
    ensures Survivors(t.routes, AppleTalkPeerClass, doomed) == NextRoutes(t, Prune(now))
  {
    forall k | k in t.routes ensures ClassOfKey(k.targetKey) == t.routes[k].target.Class() {
      assert t.routes[k].WellFormed();
      KeyDeterminesClass(t.routes[k].target);
    }
  }

  /** When each of the expired routes was last seen. */
  method LastSeenByKey(expired: seq<Route>, ghost stale: RouteMap) returns (expiredAt: map<RouteKey, int>)
    requires Lists(expired, stale) && Keyed(stale)
    ensures forall k :: k in expiredAt <==> k in stale
    ensures forall k :: k in expiredAt ==> expiredAt[k] == stale[k].lastSeen
  {
    expiredAt := map[];
    for i := 0 to |expired|
      invariant forall j :: 0 <= j < i ==> expired[j].key in expiredAt
      invariant forall k :: k in expiredAt ==> k in stale && expiredAt[k] == stale[k].lastSeen
    {
      assert expired[i] in expired;
      expiredAt := expiredAt[expired[i].key := expired[i].lastSeen];
    }
    forall k | k in stale ensures k in expiredAt {
      assert stale[k] in expired;
    }
  }

  /** A route heard of again. */
  datatype Refresh = Refresh(target: Target, extended: bool, netStart: Net, netEnd: Net, distance: nat, seen: int) {
    function Key(): RouteKey { RouteKey(target.Key(), netStart) }
  }

  ghost function Keys(batch: seq<Refresh>): set<RouteKey> { set u | u in batch :: u.Key() }

  ghost predicate Covered(routes: RouteMap, n: int) { exists k :: k in routes && routes[k].Covers(n) }

  /** What became of the zones while the refreshed routes were stored: a network keeps
      its zones or loses them all; it loses them if it lost its last route, stale ones
      included; and it keeps them if a route that was not refreshed covers it. */
  ghost predicate Shed(before: RouteMap, refreshed: set<RouteKey>, routes: RouteMap, stale: RouteMap,
                       zones: seq<set<string>>, zones': seq<set<string>>)
  {
    && |zones| == |zones'| == NETWORKS
    && (forall k :: k in before && k !in refreshed ==> k in routes && routes[k] == before[k])
    && (forall n: Net :: zones'[n] == zones[n] || zones'[n] == {})
    && (forall n: Net :: Covered(before, n) && !Covered(routes, n) && !Covered(stale, n) ==> zones'[n] == {})
    && (forall k, n: Net :: k in before && k !in refreshed && before[k].Covers(n) ==> zones'[n] == zones[n])
  }

  lemma SomeCovers(routes: RouteMap, stale: RouteMap, list: seq<Route>, n: int)
    requires IndexedAt(routes, stale, list, n)
    ensures list != [] ==> Covered(routes, n) || Covered(stale, n)
  {
    if list != [] {
      var r := list[0];
      assert r in list;
      if HoldsRoute(routes, r) { assert routes[r.key].Covers(n); } else { assert stale[r.key].Covers(n); }
    }
  }

  /** Storing a route uncovers at most what its old copy covered. */
  lemma OnlyChanged(routes: RouteMap, route: Route, n: int)
    ensures Covered(routes, n) && !Covered(routes[route.key := route], n) ==>
              route.key in routes && routes[route.key].Covers(n) && !route.Covers(n)
  {
    var routes' := routes[route.key := route];
    if route.Covers(n) { assert routes'[route.key].Covers(n); }
    if k :| k in routes && routes[k].Covers(n) && k != route.key {
      assert routes'[k].Covers(n);
    }
  }

  lemma ShedStep(before: RouteMap, refreshed: set<RouteKey>, routes: RouteMap, stale: RouteMap, zones: seq<set<string>>,
                 zones': seq<set<string>>, route: Route, lists': seq<seq<Route>>, zones'': seq<set<string>>)
    requires Shed(before, refreshed, routes, stale, zones, zones') && Sound(routes)
    requires ClearedFor(routes, route, lists', zones', zones'')
    requires Indexed(routes[route.key := route], stale, lists')
    ensures Shed(before, refreshed + {route.key}, routes[route.key := route], stale, zones, zones'')
  {
    var routes' := routes[route.key := route];
    forall n: Net | Covered(before, n) && !Covered(routes', n) && !Covered(stale, n) ensures zones''[n] == {} {
      assert IndexedAt(routes', stale, lists'[n], n);
      SomeCovers(routes', stale, lists'[n], n);
      OnlyChanged(routes, route, n);
    }
    forall k, n: Net | k in before && k !in refreshed + {route.key} && before[k].Covers(n)
      ensures zones''[n] == zones[n] {
      assert k in routes' && routes'[k].Covers(n);
      assert IndexedAt(routes', stale, lists'[n], n);
    }
  }

  /** The second half of a prune clears what stale routes had kept. */
  lemma PrunedShed(before: RouteMap, kept: RouteMap, refreshed: set<RouteKey>, routes: RouteMap,
                   zones: seq<set<string>>,
                   zones': seq<set<string>>, lists'': seq<seq<Route>>, affected: set<Net>, zones'': seq<set<string>>)
    requires var stale := Dropped(before, kept);
             && (forall k :: k in kept ==> k in before && kept[k] == before[k])
             && Shed(kept, refreshed, routes, stale, zones, zones')
             && (forall n: Net :: n in affected <==> Covered(stale, n))
    requires |lists''| == |zones''| == NETWORKS && Indexed(routes, map[], lists'')
    requires forall n: Net :: zones''[n] == if n in affected && lists''[n] == [] then {} else zones'[n]
    ensures Shed(before, refreshed + Dropped(before, kept).Keys, routes, map[], zones, zones'')
  {
    var stale := Dropped(before, kept);
    forall n: Net | Covered(before, n) && !Covered(routes, n) ensures zones''[n] == {} {
      assert IndexedAt(routes, map[], lists''[n], n);
      SomeCovers(routes, map[], lists''[n], n);
      var k :| k in before && before[k].Covers(n);
      if k !in kept { assert k in stale && stale[k].Covers(n); }
    }
    forall k, n: Net | k in before && k !in refreshed + stale.Keys && before[k].Covers(n)
      ensures zones''[n] == zones[n] {
      assert k in kept && routes[k].Covers(n);
      assert IndexedAt(routes, map[], lists''[n], n);
    }
  }

  ghost function Refreshed(routes: RouteMap, batch: seq<Refresh>): RouteMap {
    if batch == [] then routes
    else
      var before := Refreshed(routes, batch[..|batch| - 1]);
      var u := batch[|batch| - 1];
      if ValidRange(u.extended, u.netStart, u.netEnd) && u.distance <= MAX_ROUTE_DISTANCE
      then before[u.Key() := NewRoute(u.target, u.extended, u.netStart, u.netEnd, u.distance, u.seen)]
      else before
  }

  // ----- Exporting -----

  lemma FirstUnique(list: seq<Route>, zones: seq<set<string>>, q: Query, a: Option<Route>, b: Option<Route>)
    requires |zones| == NETWORKS && FirstAdmitted(list, zones, q, a) && FirstAdmitted(list, zones, q, b)
    ensures a == b
  {
    if a.Some? && b.Some? {
      var i :| 0 <= i < |list| && list[i] == a.value && Admits(zones, q, list[i])
               && forall j :: 0 <= j < i ==> !Admits(zones, q, list[j]);
      var k :| 0 <= k < |list| && list[k] == b.value && Admits(zones, q, list[k])
               && forall j :: 0 <= j < k ==> !Admits(zones, q, list[j]);
      assert i == k;
    }
  }

  ghost predicate ExportPick(lists: seq<seq<Route>>, zones: seq<set<string>>, now: int, r: Route)
    requires |lists| == |zones| == NETWORKS
  {
    FirstAdmitted(lists[r.key.netStart], zones, ValidAt(now), Some(r)) && IsAdvertisable(Some(r))
  }

  lemma LocalPart(byClass: seq<RouteMap>, local: RouteMap)
    requires Apart(byClass) && local == byClass[0] + byClass[2]
    ensures forall k :: k in local <==> k in Union(byClass) && ClassOfKey(k.targetKey) != AurpPeerClass
    ensures forall k :: k in local ==> local[k] == Union(byClass)[k]
  {
    forall k ensures (k in local <==> k in Union(byClass) && ClassOfKey(k.targetKey) != AurpPeerClass)
                     && (k in local ==> local[k] == Union(byClass)[k]) {
      UnionAt(byClass, k);
    }
  }

  lemma PickedExports(t: Table, lists: seq<seq<Route>>, local: RouteMap, now: int, routes: seq<Route>)
    requires |t.zones| == NETWORKS && Indexed(t.routes, map[], lists) && Sound(t.routes)
    requires forall k :: k in local <==> k in t.routes && ClassOfKey(k.targetKey) != AurpPeerClass
    requires forall k :: k in local ==> local[k] == t.routes[k]
    requires forall r :: r in routes <==> HoldsRoute(local, r) && ExportPick(lists, t.zones, now, r)
    ensures forall r :: r in routes ==> IsExported(t, now, r)
    ensures t.Disjoint() ==> forall r :: IsExported(t, now, r) ==> r in routes
  {
    forall r | r in routes ensures IsExported(t, now, r) {
      assert IndexedAt(t.routes, map[], lists[r.key.netStart], r.key.netStart);
      FirstIsBest(t, lists[r.key.netStart], r.key.netStart, ValidAt(now), Some(r));
    }
    if t.Disjoint() {
      forall r | IsExported(t, now, r) ensures r in routes {
        assert r.WellFormed();
        KeyDeterminesClass(r.target);
        var n := r.key.netStart;
        assert IndexedAt(t.routes, map[], lists[n], n);
        var best := FirstExists(lists[n], t.zones, ValidAt(now));
        FirstIsBest(t, lists[n], n, ValidAt(now), best);
        assert t.WellFormed() by {
          forall k | k in t.routes ensures t.routes[k].WellFormed() { }
        }
        BestUnique(t, n, ValidAt(now), best, Some(r));
      }
    }
  }

  lemma {:induction false} FirstExists(list: seq<Route>, zones: seq<set<string>>, q: Query)
    returns (best: Option<Route>)
    requires |zones| == NETWORKS
    ensures FirstAdmitted(list, zones, q, best)
  {
    for i := 0 to |list|
      invariant forall j :: 0 <= j < i ==> !Admits(zones, q, list[j])
    {
      if Admits(zones, q, list[i]) { return Some(list[i]); }
    }
    return None;
  }

  predicate StartsIncrease(routes: seq<Route>) {
    forall i, j :: 0 <= i < j < |routes| ==> routes[i].key.netStart < routes[j].key.netStart
  }

  /** Sort exported routes. Their starts differ, so the start decides. */
  method InsertByStart(routes: seq<Route>, r: Route) returns (out: seq<Route>)
    requires StartsIncrease(routes)
    requires forall i :: 0 <= i < |routes| ==> routes[i].key.netStart != r.key.netStart
    ensures StartsIncrease(out)
    ensures forall x :: x in out <==> x == r || x in routes
  {
    var i := 0;
    while i < |routes| && routes[i].key.netStart < r.key.netStart
      invariant 0 <= i <= |routes|
      invariant forall j :: 0 <= j < i ==> routes[j].key.netStart < r.key.netStart
    {
      i := i + 1;
    }
    out := routes[..i] + [r] + routes[i..];
    PlacedByStart(routes, r, i);
  }

  lemma PlacedByStart(routes: seq<Route>, r: Route, i: nat)
    requires StartsIncrease(routes) && i <= |routes|
    requires forall j :: 0 <= j < i ==> routes[j].key.netStart < r.key.netStart
    requires i < |routes| ==> r.key.netStart < routes[i].key.netStart
    ensures StartsIncrease(routes[..i] + [r] + routes[i..])
    ensures forall x :: x in routes[..i] + [r] + routes[i..] <==> x == r || x in routes
  {
    assert routes == routes[..i] + routes[i..];
    forall j | i <= j < |routes| ensures r.key.netStart < routes[j].key.netStart {
      if i < j { assert routes[i].key.netStart < routes[j].key.netStart; }
    }
  }

  /** A stored route that a packet for network n could take. */
  ghost predicate Reaches(t: Table, n: int, now: int, r: Route)
    requires |t.zones| == NETWORKS
  {
    r.key in t.routes && t.routes[r.key] == r && r.key.netStart <= n <= r.netEnd && Usable(t.zones, r, Some(now), "")
  }

  /** Where a packet goes; Reflection means only back where it came from. */
  datatype Output = Via(route: Route) | NoRoute | Reflection

  class RouteTable {
    /** byNetwork[n].Routes and byNetwork[n].ZoneNames. */
    const candidates: array<seq<Route>>
    const zoneNames: array<set<string>>
    var byClass: seq<RouteMap>
    var networksByZone: map<string, seq<Net>>
    /** What a registered observer has been told. */
    var notes: seq<Note>

    ghost predicate Shaped()
      reads this`byClass
    {
      candidates.Length == NETWORKS && zoneNames.Length == NETWORKS && Apart(byClass)
    }

    ghost function Stored(): RouteMap
      requires |byClass| == 3
      reads this`byClass
    {
      Union(byClass)
    }

    ghost function Abs(): Table
      requires |byClass| == 3
      reads this`byClass, zoneNames
    {
      Table(Union(byClass), zoneNames[..])
    }

    /** Both route indexes hold the same routes, up to the stale ones, and both
        zone indexes the same zones. */
    ghost predicate ValidWith(stale: RouteMap)
      reads this`byClass, this`networksByZone, candidates, zoneNames
    {
      && Shaped()
      && Sound(Stored()) && Sound(stale)
      && Overtaken(Stored(), stale)
      && Indexed(Stored(), stale, candidates[..])
      && ZonesIndexed(zoneNames[..], networksByZone)
    }

    ghost predicate Valid()
      reads this`byClass, this`networksByZone, candidates, zoneNames
    {
      ValidWith(map[])
    }

    constructor ()
      ensures Valid() && fresh(candidates) && fresh(zoneNames)
      ensures Abs() == EmptyTable() && notes == []
    {
      candidates := new seq<Route>[NETWORKS](_ => []);
      zoneNames := new set<string>[NETWORKS](_ => {});
      byClass := [map[], map[], map[]];
      networksByZone := map[];
      notes := [];
      new;
      assert Union(byClass) == map[];
      assert zoneNames[..] == EmptyTable().zones;
    }

    // ----- Reading -----

    method Find(target: Target, netStart: Net) returns (r: Option<Route>)
      requires Shaped()
      ensures var k := RouteKey(target.Key(), netStart);
              r == if k in Stored() then Some(Stored()[k]) else None
    {
      var k := RouteKey(target.Key(), netStart);
      var c := ClassIndex(target.Class());
      KeyDeterminesClass(target);
      UnionAt(byClass, k);
      r := if k in byClass[c] then Some(byClass[c][k]) else None;
    }

    /** The loop shared by the lookups: the first candidate the query admits. */
    method First(n: Net, q: Query) returns (best: Option<Route>)
      requires Shaped()
      ensures FirstAdmitted(candidates[n], zoneNames[..], q, best)
    {
      for i := 0 to |candidates[n]|
        invariant forall j :: 0 <= j < i ==> !Admits(zoneNames[..], q, candidates[n][j])
      {
        var r := candidates[n][i];
        if zoneNames[r.key.netStart] != {}
           && (q.clock.At? ==> !r.ExpiredAt(q.clock.now))
           && (q.avoid != "" ==> !ThroughTunnel(r, q.avoid))
        {
          return Some(r);
        }
      }
      return None;
    }

    method Lookup(n: Net, now: int) returns (best: Option<Route>)
      requires Valid()
      ensures IsBest(Abs(), n, ValidAt(now), best) && IsNearest(Abs(), n, Some(now), "", best)
    {
      best := First(n, ValidAt(now));
      FirstIsBest(Abs(), candidates[n], n, ValidAt(now), best);
      BestIsNearest(Abs(), n, ValidAt(now), best);
    }

    method LookupIgnoringAge(n: Net) returns (best: Option<Route>)
      requires Valid()
      ensures IsBest(Abs(), n, ANY_AGE, best) && IsNearest(Abs(), n, None, "", best)
    {
      best := First(n, ANY_AGE);
      FirstIsBest(Abs(), candidates[n], n, ANY_AGE, best);
      BestIsNearest(Abs(), n, ANY_AGE, best);
    }

    method LookupAvoidingTunnel(n: Net, tunnelId: string, now: int) returns (best: Option<Route>)
      requires Valid()
      ensures IsBest(Abs(), n, Query(At(now), tunnelId), best) && IsNearest(Abs(), n, Some(now), tunnelId, best)
    {
      best := First(n, Query(At(now), tunnelId));
      FirstIsBest(Abs(), candidates[n], n, Query(At(now), tunnelId), best);
      BestIsNearest(Abs(), n, Query(At(now), tunnelId), best);
    }

    /** outputRoute of router/router.go: where a packet goes that came in through
        the given AURP tunnel, or from elsewhere when that is empty. */
    method OutputRoute(dstNet: Net, ingress: string, now: int) returns (out: Output)
      requires Valid()
      ensures IsNearest(Abs(), dstNet, Some(now), ingress, if out.Via? then Some(out.route) else None)
      ensures out.Via? && ingress != "" ==> out.route.target != AurpPeer(ingress)
      ensures out.NoRoute? <==> !exists r :: Reaches(Abs(), dstNet, now, r)
      ensures out.Reflection? <==>
                && ingress != "" && (exists r :: Reaches(Abs(), dstNet, now, r))
                && forall r :: Reaches(Abs(), dstNet, now, r) ==> r.target == AurpPeer(ingress)
    {
      if ingress == "" {
        var route := Lookup(dstNet, now);
        assert route.Some? ==> Reaches(Abs(), dstNet, now, route.value);
        return if route.None? then NoRoute else Via(route.value);
      }
      var route := LookupAvoidingTunnel(dstNet, ingress, now);
      if route.Some? {
        assert Reaches(Abs(), dstNet, now, route.value);
        return Via(route.value);
      }
      var best := Lookup(dstNet, now);
      assert best.Some? ==> Reaches(Abs(), dstNet, now, best.value);
      return if best.None? then NoRoute else Reflection;
    }

    // ----- Telling observers -----

    method Tell(n: Net, before: Option<Route>, after: Option<Route>) returns (ghost trs: seq<Transition>)
      modifies this`notes
      ensures trs == [Transition(n, before, after)]
      ensures notes == old(notes) + Notes(trs)
      ensures notes == old(notes) +
                       if before.None? && after.None? then []
                       else if before.None? then [NetworkAdded(after.value)]
                       else if after.None? then [NetworkDeleted(before.value)]
                       else if before.value.key.targetKey == after.value.key.targetKey
                               && before.value.distance == after.value.distance
                            && before.value.extended == after.value.extended
                            && before.value.netEnd == after.value.netEnd
                            then []
                       else [BestNetworkChanged(before.value, after.value)]
    {
      trs := [Transition(n, before, after)];
      NotesOne(trs[0]);
      notes := notes + Inform(before, after);
    }

    // ----- Zones -----

    method ClearZonesIfNoRoutes(n: Net)
      requires Shaped() && ZonesIndexed(zoneNames[..], networksByZone)
      modifies this`networksByZone, zoneNames
      ensures ZonesIndexed(zoneNames[..], networksByZone)
      ensures zoneNames[..] == old(zoneNames[..])[n := if candidates[n] == [] then {} else old(zoneNames[n])]
    {
      if candidates[n] != [] || zoneNames[n] == {} { return; }
      ghost var zones := zoneNames[..];
      assert forall z :: z in zones[n] ==> Listed(networksByZone, z, n);
      networksByZone := RemoveNetworkFromZones(networksByZone, zoneNames[n], n);
      zoneNames[n] := {};
      assert zoneNames[..] == zones[n := {}];
    }

    /** Set the zones of one network in both zone indexes. */
    method SetZones(n: Net, next: set<string>)
      requires Shaped() && ZonesIndexed(zoneNames[..], networksByZone)
      modifies this`networksByZone, zoneNames
      ensures ZonesIndexed(zoneNames[..], networksByZone)
      ensures zoneNames[..] == old(zoneNames[..])[n := next]
    {
      ghost var zones := zoneNames[..];
      var before := zoneNames[n];
      assert forall z :: z in before ==> Listed(networksByZone, z, n);
      networksByZone := RemoveNetworkFromZones(networksByZone, before - next, n);
      networksByZone := AddNetworkToZones(networksByZone, next - before, n);
      zoneNames[n] := next;
      assert zoneNames[..] == zones[n := next];
    }

    method AddZonesToNetwork(n: Net, names: seq<string>, now: int) returns (ghost trs: seq<Transition>)
      requires Valid()
      modifies this`networksByZone, this`notes, zoneNames
      ensures Valid()
      ensures Step(old(Abs()), AddZones(n, names, now), Abs(), trs)
      ensures notes == old(notes) + Notes(trs)
    {
      ghost var t := Abs();
      var before := First(n, ValidAt(now));
      var next := zoneNames[n];
      for i := 0 to |names|
        invariant next == zoneNames[n] + NamesIn(names[..i])
      {
        next := next + {names[i]};
        assert names[..i + 1] == names[..i] + [names[i]];
      }
      assert names[..|names|] == names;
      SetZones(n, next);
      var after := First(n, ValidAt(now));
      trs := Tell(n, before, after);
      OneStep(t, AddZones(n, names, now), Abs(), candidates[..], candidates[..], n, before, after);
    }

    method ReplaceZonesForNetwork(n: Net, names: seq<string>, now: int) returns (ghost trs: seq<Transition>)
      requires Valid()
      modifies this`networksByZone, this`notes, zoneNames
      ensures Valid()
      ensures Step(old(Abs()), ReplaceZones(n, names, now), Abs(), trs)
      ensures notes == old(notes) + Notes(trs)
    {
      ghost var t := Abs();
      var before := First(n, ValidAt(now));
      var next: set<string> := {};
      for i := 0 to |names|
        invariant next == NonEmptyNames(names[..i])
      {
        if names[i] != "" {
          next := next + {names[i]};
        }
        assert names[..i + 1] == names[..i] + [names[i]];
      }
      assert names[..|names|] == names;
      SetZones(n, next);
      var after := First(n, ValidAt(now));
      trs := Tell(n, before, after);
      OneStep(t, ReplaceZones(n, names, now), Abs(), candidates[..], candidates[..], n, before, after);
    }

    // ----- Removing routes -----

    /** Delete the doomed routes from one network, clearing its zones if it is left
        without a candidate. */
    method RetireAt(n: Net, doomed: Route -> bool, ghost stale: RouteMap)
      requires Shaped() && ZonesIndexed(zoneNames[..], networksByZone) && IndexedAt(Stored(), stale, candidates[n], n)
      requires forall k :: k in stale ==> doomed(stale[k])
      requires forall k :: k in Stored() ==> !doomed(Stored()[k])
      modifies this`networksByZone, candidates, zoneNames
      ensures ZonesIndexed(zoneNames[..], networksByZone) && IndexedAt(Stored(), map[], candidates[n], n)
      ensures forall m: Net :: m != n ==> candidates[m] == old(candidates[m]) && zoneNames[m] == old(zoneNames[m])
      ensures zoneNames[n] == if candidates[n] == [] then {} else old(zoneNames[n])
    {
      var list := DeleteFunc(candidates[n], doomed);
      FilteredIndexed(Stored(), stale, candidates[n], list, n, doomed);
      candidates[n] := list;
      ClearZonesIfNoRoutes(n);
      assert forall m: Net :: zoneNames[m] == zoneNames[..][m];
    }

    /** The same of the given networks. */
    method Retire(affected: set<Net>, doomed: Route -> bool, ghost stale: RouteMap)
      requires ValidWith(stale)
      requires forall k :: k in stale ==> doomed(stale[k])
      requires forall k :: k in Stored() ==> !doomed(Stored()[k])
      requires forall k, n: Net :: k in stale && stale[k].Covers(n) ==> n in affected
      modifies this`networksByZone, candidates, zoneNames
      ensures Valid()
      ensures forall n: Net :: zoneNames[n] == if n in affected && candidates[n] == [] then {} else old(zoneNames[n])
    {
      var todo := affected;
      while todo != {}
        invariant todo <= affected
        invariant ZonesIndexed(zoneNames[..], networksByZone)
        invariant forall n: Net :: n in affected - todo ==> IndexedAt(Stored(), map[], candidates[n], n)
        invariant forall n: Net :: n !in affected - todo ==> candidates[n] == old(candidates[n])
        invariant forall n: Net :: zoneNames[n] == if n in affected - todo && candidates[n] == [] then {}
                                                   else old(zoneNames[n])
        decreases todo
      {
        var n :| n in todo;
        RetireAt(n, doomed, stale);
        todo := todo - {n};
      }
      UnaffectedIndexed(Stored(), stale, affected, old(candidates[..]), candidates[..]);
    }

    /** Take the doomed routes of one class out of the class index. */
    method TakeFromClass(c: TargetClass, doomed: Route -> bool) returns (taken: seq<Route>)
      requires Valid()
      modifies this`byClass
      ensures |byClass| == 3 && Stored() == Survivors(old(Stored()), c, doomed)
      ensures Lists(taken, Dropped(old(Stored()), Stored())) && Distinct(taken)
      ensures ValidWith(Dropped(old(Stored()), Stored()))
    {
      ghost var before := byClass;
      var kept;
      kept, taken := Partition(byClass[ClassIndex(c)], doomed);
      ClassTaken(byClass, c, kept, taken, doomed);
      DroppedIndexed(Union(before), Survivors(Union(before), c, doomed), candidates[..]);
      byClass := byClass[ClassIndex(c) := kept];
    }

    /** The best route at the start of every taken route. */
    method BestsAt(taken: seq<Route>, q: Query) returns (bests: map<Net, Option<Route>>)
      requires Shaped()
      ensures forall n :: n in bests <==> exists r :: r in taken && r.key.netStart == n
      ensures forall n :: n in bests ==> FirstAdmitted(candidates[n], zoneNames[..], q, bests[n])
    {
      bests := map[];
      for i := 0 to |taken|
        invariant forall n :: n in bests <==> exists r :: r in taken[..i] && r.key.netStart == n
        invariant forall n :: n in bests ==> FirstAdmitted(candidates[n], zoneNames[..], q, bests[n])
      {
        var best := First(taken[i].key.netStart, q);
        bests := bests[taken[i].key.netStart := best];
        assert taken[..i + 1] == taken[..i] + [taken[i]];
      }
      assert taken[..|taken|] == taken;
    }

    /** Tell the observers about each of the given networks, in order. */
    method AnnounceAll(bests: map<Net, Option<Route>>, now: int) returns (ghost trs: seq<Transition>)
      requires Shaped()
      modifies this`notes
      ensures Told(bests, candidates[..], zoneNames[..], now, trs, NETWORKS)
      ensures notes == old(notes) + Notes(trs)
    {
      trs := [];
      for n := 0 to NETWORKS
        invariant Told(bests, candidates[..], zoneNames[..], now, trs, n)
        invariant notes == old(notes) + Notes(trs)
      {
        if n in bests {
          var after := First(n, ValidAt(now));
          ghost var said := Notes(trs);
          trs := ToldPush(bests, candidates[..], zoneNames[..], now, trs, n, after);
          var more := Inform(bests[n], after);
          assert Notes(trs) == said + more;
          Appended(old(notes), said, more);
          notes := notes + more;
        }
      }
    }

    /** The second half of DeleteTarget and of pruning: routes already taken out
        of the class index leave the candidate lists, and observers are told. */
    method Finish(taken: seq<Route>, doomed: Route -> bool, q: Query, now: int, ghost stale: RouteMap)
      returns (ghost trs: seq<Transition>, ghost affected: set<Net>)
      requires ValidWith(stale) && Lists(taken, stale)
      requires forall k :: k in stale ==> doomed(stale[k])
      requires forall k :: k in Stored() ==> !doomed(Stored()[k])
      modifies this`networksByZone, this`notes, candidates, zoneNames
      ensures Valid()
      ensures Finished(stale, q, now, old(candidates[..]), old(zoneNames[..]), candidates[..], Abs(), affected, trs)
      ensures notes == old(notes) + Notes(trs)
    {
      ghost var lists, zones := candidates[..], zoneNames[..];
      var bests := BestsAt(taken, q);
      assert forall n :: n in bests ==> FirstAdmitted(lists[n], zones, q, bests[n]);
      var networks := NetworksOf(taken);
      affected := networks;
      TakenNetworks(taken, stale, networks);
      Retire(networks, doomed, stale);
      trs := AnnounceAll(bests, now);
      TakenStarts(taken, stale, bests);
      ToldFinished(stale, q, now, lists, zones, candidates[..], Abs(), affected, bests, trs);
    }

    method DeleteTarget(target: Target, now: int) returns (ghost trs: seq<Transition>)
      requires Valid()
      modifies this, candidates, zoneNames
      ensures Valid()
      ensures Step(old(Abs()), Op.DeleteTarget(target, now), Abs(), trs)
      ensures notes == old(notes) + Notes(trs)
    {
      ghost var t, lists := Abs(), candidates[..];
      var targetKey := target.Key();
      var doomed := (r: Route) => r.key.targetKey == targetKey;
      var taken := TakeFromClass(target.Class(), doomed);
      TargetSurvivors(t, target, doomed, now);
      ghost var stale := Dropped(t.routes, Stored());
      ghost var affected;
      trs, affected := Finish(taken, doomed, ValidAt(now), now, stale);
      FinishedStep(t, Op.DeleteTarget(target, now), lists, candidates[..], affected, Abs(), trs);
    }

    /** Take one route out of the class index. */
    method TakeKey(target: Target, key: RouteKey) returns (route: Option<Route>)
      requires Valid() && key.targetKey == target.Key()
      modifies this`byClass
      ensures |byClass| == 3 && Stored() == old(Stored()) - {key}
      ensures route == if key in old(Stored()) then Some(old(Stored())[key]) else None
      ensures ValidWith(Dropped(old(Stored()), old(Stored()) - {key}))
    {
      var c := ClassIndex(target.Class());
      KeyDeterminesClass(target);
      UnionDropKey(byClass, key);
      route := if key in byClass[c] then Some(byClass[c][key]) else None;
      DroppedIndexed(Stored(), Stored() - {key}, candidates[..]);
      byClass := byClass[c := byClass[c] - {key}];
    }

    /** Take one route out of both indexes. */
    method DropRoute(target: Target, key: RouteKey) returns (ok: bool)
      requires Valid() && key.targetKey == target.Key()
      modifies this`byClass, this`networksByZone, candidates, zoneNames
      ensures Valid()
      ensures ok <==> key in old(Stored())
      ensures Stored() == old(Stored()) - {key}
      ensures ok ==> zoneNames[..] == KeptZones(old(Abs()), Stored())
      ensures !ok ==> zoneNames[..] == old(zoneNames[..])
    {
      ghost var t := Abs();
      var found := TakeKey(target, key);
      if found.None? {
        NothingDropped(t.routes, key);
        return false;
      }
      ok := true;
      ghost var stale := Dropped(t.routes, t.routes - {key});
      var networks := NetworksOf([found.value]);
      TakenNetworks([found.value], stale, networks);
      Retire(networks, (r: Route) => r.key == key, stale);
      DroppedZones(t, Stored(), candidates[..], networks, zoneNames[..]);
    }

    method DeleteRoute(target: Target, netStart: Net, now: int) returns (ok: bool, ghost trs: seq<Transition>)
      requires Valid()
      modifies this, candidates, zoneNames
      ensures Valid()
      ensures ok <==> RouteKey(target.Key(), netStart) in old(Stored())
      ensures Step(old(Abs()), Op.DeleteRoute(target, netStart, now), Abs(), trs)
      ensures notes == old(notes) + Notes(trs)
    {
      ghost var t, lists := Abs(), candidates[..];
      var key := RouteKey(target.Key(), netStart);
      var oldBest := First(netStart, ValidAt(now));
      ok := DropRoute(target, key);
      if !ok {
        trs := [];
        RejectedStep(t, Op.DeleteRoute(target, netStart, now));
        assert Stored() == t.routes;
        return;
      }
      var newBest := First(netStart, ValidAt(now));
      trs := Tell(netStart, oldBest, newBest);
      OneStep(t, Op.DeleteRoute(target, netStart, now), Abs(), lists, candidates[..], netStart, oldBest, newBest);
    }

    // ----- Storing routes -----

    method RemoveKeyInRange(lo: Net, hi: Net, key: RouteKey)
      requires candidates.Length == NETWORKS && hi < 0xFFFF
      modifies candidates
      ensures forall n: Net ::
                if lo <= n <= hi then Filtered(old(candidates[n]), candidates[n], (r: Route) => r.key == key)
                else candidates[n] == old(candidates[n])
    {
      var n: int := lo;
      while n <= hi
        invariant lo <= n
        invariant forall m: Net ::
                    if lo <= m < n && m <= hi
                    then Filtered(old(candidates[m]), candidates[m], (r: Route) => r.key == key)
                    else candidates[m] == old(candidates[m])
      {
        var list := DeleteFunc(candidates[n], (r: Route) => r.key == key);
        candidates[n] := list;
        n := n + 1;
      }
    }

    method InsertInRange(route: Route)
      requires candidates.Length == NETWORKS && route.netEnd < 0xFFFF
      modifies candidates
      ensures forall n: Net :: if route.Covers(n) then InsertedInto(old(candidates[n]), candidates[n], route)
                               else candidates[n] == old(candidates[n])
    {
      var n: int := route.key.netStart;
      while n <= route.netEnd
        invariant route.key.netStart <= n
        invariant forall m: Net ::
                    if route.Covers(m) && m < n then InsertedInto(old(candidates[m]), candidates[m], route)
                    else candidates[m] == old(candidates[m])
      {
        var list := SortByPreference(candidates[n] + [route]);
        candidates[n] := list;
        n := n + 1;
      }
    }

    /** Clear the zones of emptied networks of an old range outside the new one. */
    method ClearZonesOutside(lo: Net, hi: Net, start: Net, end: Net)
      requires Shaped() && ZonesIndexed(zoneNames[..], networksByZone) && hi < 0xFFFF
      modifies this`networksByZone, zoneNames
      ensures ZonesIndexed(zoneNames[..], networksByZone)
      ensures forall n: Net :: zoneNames[n] == if lo <= n <= hi && !(start <= n <= end) && candidates[n] == [] then {}
                                               else old(zoneNames[n])
    {
      var n: int := lo;
      while n <= hi
        invariant lo <= n
        invariant ZonesIndexed(zoneNames[..], networksByZone)
        invariant forall m: Net ::
                    zoneNames[m] == if lo <= m < n && m <= hi && !(start <= m <= end) && candidates[m] == [] then {}
                                    else old(zoneNames[m])
      {
        if n < start || n > end {
          ClearZonesIfNoRoutes(n);
          assert forall m: Net :: zoneNames[m] == zoneNames[..][m];
        }
        n := n + 1;
      }
    }

    /** Replace the candidates of one key over its old range by a new route. */
    method StoreInLists(route: Route, replaced: Option<Route>, ghost routes: RouteMap, ghost stale: RouteMap)
      requires candidates.Length == NETWORKS && Indexed(routes, stale, candidates[..]) && Keyed(routes)
      requires replaced == if route.key in routes then Some(routes[route.key]) else None
      requires route.netEnd < 0xFFFF && (replaced.Some? ==> replaced.value.netEnd < 0xFFFF)
      requires route.key in stale ==> stale[route.key].lastSeen < route.lastSeen
      modifies candidates
      ensures Indexed(routes[route.key := route], stale, candidates[..])
    {
      ghost var lists := candidates[..];
      if replaced.Some? {
        RemoveKeyInRange(replaced.value.key.netStart, replaced.value.netEnd, route.key);
      }
      ghost var removed := candidates[..];
      InsertInRange(route);
      UpsertIndexed(routes, stale, route, lists, removed, candidates[..]);
    }

    /** Put a route into the class index, returning the one it replaces. */
    method PutInClass(route: Route, ghost stale: RouteMap) returns (oldRoute: Option<Route>)
      requires Shaped() && Sound(Stored()) && Overtaken(Stored(), stale) && route.WellFormed()
      requires route.key in stale ==> stale[route.key].lastSeen < route.lastSeen
      modifies this`byClass
      ensures Shaped() && Sound(Stored()) && Overtaken(Stored(), stale)
      ensures Stored() == old(Stored())[route.key := route]
      ensures oldRoute == if route.key in old(Stored()) then Some(old(Stored())[route.key]) else None
      ensures oldRoute.Some? ==> oldRoute.value.netEnd < 0xFFFF && oldRoute.value.key == route.key
    {
      oldRoute := Find(route.target, route.key.netStart);
      assert oldRoute.Some? ==> oldRoute.value.WellFormed();
      UnionPut(byClass, route);
      var c := ClassIndex(route.target.Class());
      byClass := byClass[c := byClass[c][route.key := route]];
    }

    method StoreRoute(route: Route, ghost stale: RouteMap)
      requires ValidWith(stale) && route.WellFormed()
      requires route.key in stale ==> stale[route.key].lastSeen < route.lastSeen
      modifies this`byClass, this`networksByZone, candidates, zoneNames
      ensures ValidWith(stale)
      ensures Stored() == old(Stored())[route.key := route]
      ensures ClearedFor(old(Stored()), route, candidates[..], old(zoneNames[..]), zoneNames[..])
    {
      ghost var routes := Stored();
      var oldRoute := PutInClass(route, stale);
      StoreInLists(route, oldRoute, routes, stale);
      if oldRoute.Some? {
        ClearZonesOutside(route.key.netStart, oldRoute.value.netEnd, route.key.netStart, route.netEnd);
      }
    }

    /** Insert or replace a route. While a prune is half done, `stale` holds what
        it has taken out of the class index only. */
    method UpsertRoute(target: Target, extended: bool, netStart: Net, netEnd: Net, distance: nat, now: int,
                       ghost stale: RouteMap)
      returns (ok: bool, ghost trs: seq<Transition>)
      requires ValidWith(stale) && netEnd < 0xFFFF
      requires var key := RouteKey(target.Key(), netStart); key in stale ==> stale[key].lastSeen < now
      modifies this, candidates, zoneNames
      ensures ValidWith(stale)
      ensures ok <==> ValidRange(extended, netStart, netEnd) && distance <= MAX_ROUTE_DISTANCE
      ensures Stored() == if !ok then old(Stored())
                          else old(Stored())[RouteKey(target.Key(), netStart) :=
                                            NewRoute(target, extended, netStart, netEnd, distance, now)]
      ensures if ok
              then ClearedFor(old(Stored()), NewRoute(target, extended, netStart, netEnd, distance, now),
                              candidates[..],
                              old(zoneNames[..]), zoneNames[..])
              else zoneNames[..] == old(zoneNames[..])
      ensures stale == map[] ==> Step(old(Abs()), Upsert(target, extended, netStart, netEnd, distance, now), Abs(), trs)
      ensures notes == old(notes) + Notes(trs)
    {
      ghost var t, lists := Abs(), candidates[..];
      if netStart > netEnd || (netStart != netEnd && !extended) || distance > MAX_ROUTE_DISTANCE {
        ok, trs := false, [];
        RejectedStep(t, Upsert(target, extended, netStart, netEnd, distance, now));
        return;
      }
      ok := true;
      var oldBest := First(netStart, ValidAt(now));
      var route := NewRoute(target, extended, netStart, netEnd, distance, now);
      StoreRoute(route, stale);
      var newBest := First(netStart, ValidAt(now));
      trs := Tell(netStart, oldBest, newBest);
      if stale == map[] {
        UpsertZones(t, route, candidates[..], zoneNames[..]);
        OneStep(t, Upsert(target, extended, netStart, netEnd, distance, now), Abs(), lists, candidates[..],
                netStart, oldBest, newBest);
      }
    }

    method ReplaceInRange(route: Route)
      requires candidates.Length == NETWORKS && route.netEnd < 0xFFFF
      modifies candidates
      ensures forall n: Net :: if route.Covers(n) then ReplacedIn(old(candidates[n]), candidates[n], route)
                               else candidates[n] == old(candidates[n])
    {
      var n: int := route.key.netStart;
      while n <= route.netEnd
        invariant route.key.netStart <= n
        invariant forall m: Net :: if route.Covers(m) && m < n then ReplacedIn(old(candidates[m]), candidates[m], route)
                                   else candidates[m] == old(candidates[m])
      {
        var replaced := Substitute(candidates[n], route);
        var list := SortByPreference(replaced);
        candidates[n] := list;
        n := n + 1;
      }
    }

    /** Replace a stored route by one of the same key and range. */
    method ReviseRoute(route: Route)
      requires Valid() && route.WellFormed()
      requires route.key in Stored() && Stored()[route.key].netEnd == route.netEnd
      modifies this`byClass, candidates
      ensures Valid()
      ensures Stored() == old(Stored())[route.key := route]
    {
      ghost var t, lists := Abs(), candidates[..];
      var _ := PutInClass(route, map[]);
      ReplaceInRange(route);
      forall n | 0 <= n < NETWORKS ensures IndexedAt(Stored(), map[], candidates[..][n], n) {
        assert IndexedAt(t.routes, map[], lists[n], n);
        ReplacedIndexed(t.routes, route, lists[n], candidates[n], n);
      }
    }

    method UpdateDistance(target: Target, netStart: Net, distance: nat, now: int)
      returns (ok: bool, ghost trs: seq<Transition>)
      requires Valid()
      modifies this, candidates
      ensures Valid()
      ensures ok <==> distance <= MAX_ROUTE_DISTANCE && RouteKey(target.Key(), netStart) in old(Stored())
      ensures Step(old(Abs()), Op.UpdateDistance(target, netStart, distance, now), Abs(), trs)
      ensures notes == old(notes) + Notes(trs)
    {
      ghost var t := Abs();
      ghost var op := Op.UpdateDistance(target, netStart, distance, now);
      if distance > MAX_ROUTE_DISTANCE {
        ok, trs := false, [];
        RejectedStep(t, op);
        return;
      }
      var found := Find(target, netStart);
      if found.None? {
        ok, trs := false, [];
        RejectedStep(t, op);
        return;
      }
      ok := true;
      trs := ChangeDistance(target, found.value, distance, now);
    }

    /** Give a stored route of the target another distance and tell the observers. */
    method ChangeDistance(target: Target, found: Route, distance: nat, now: int) returns (ghost trs: seq<Transition>)
      requires Valid() && distance <= MAX_ROUTE_DISTANCE
      requires found.key.targetKey == target.Key() && found.key in Stored() && Stored()[found.key] == found
      modifies this, candidates
      ensures Valid()
      ensures Step(old(Abs()), Op.UpdateDistance(target, found.key.netStart, distance, now), Abs(), trs)
      ensures notes == old(notes) + Notes(trs)
    {
      ghost var t, lists := Abs(), candidates[..];
      var n := found.key.netStart;
      var oldBest := First(n, ValidAt(now));
      assert found.WellFormed();
      var route := found.(distance := distance, lastSeen := now);
      ReviseRoute(route);
      var newBest := First(n, ValidAt(now));
      trs := Tell(n, oldBest, newBest);
      assert Abs() == Table(t.routes[found.key := route], t.zones);
      DistanceStep(t, target, found, distance, now, lists, candidates[..], oldBest, newBest);
    }

    // ----- Pruning -----

    /** First half of pruning: expired routes leave the class index. */
    method PruneSnapshot(now: int) returns (expired: seq<Route>)
      requires Valid()
      modifies this`byClass
      ensures |byClass| == 3 && Stored() == NextRoutes(old(Abs()), Prune(now))
      ensures Lists(expired, Dropped(old(Stored()), Stored())) && Distinct(expired)
      ensures ValidWith(Dropped(old(Stored()), Stored()))
    {
      var doomed := (r: Route) => r.ExpiredAt(now);
      PruneSurvivors(Abs(), now, doomed);
      expired := TakeFromClass(AppleTalkPeerClass, doomed);
    }

    /** Second half: copies no newer than the expired ones leave the candidate
        lists, and observers are told. */
    method PruneForward(expired: seq<Route>, now: int, ghost stale: RouteMap)
      returns (ghost trs: seq<Transition>, ghost affected: set<Net>)
      requires ValidWith(stale) && Lists(expired, stale)
      modifies this`networksByZone, this`notes, candidates, zoneNames
      ensures Valid()
      ensures Finished(stale, ANY_AGE, now, old(candidates[..]), old(zoneNames[..]),
                       candidates[..], Abs(), affected, trs)
      ensures notes == old(notes) + Notes(trs)
    {
      var expiredAt := LastSeenByKey(expired, stale);
      trs, affected := Finish(expired, (r: Route) => r.key in expiredAt && r.lastSeen <= expiredAt[r.key],
                              ANY_AGE, now, stale);
    }

    method PruneExpiredRoutes(now: int) returns (pruned: nat, ghost trs: seq<Transition>)
      requires Valid()
      modifies this, candidates, zoneNames
      ensures Valid()
      ensures Step(old(Abs()), Prune(now), Abs(), trs)
      ensures pruned == |Dropped(old(Stored()), Stored())|
      ensures notes == old(notes) + Notes(trs)
    {
      ghost var t, lists := Abs(), candidates[..];
      var expired := PruneSnapshot(now);
      ghost var affected;
      trs, affected := PruneForward(expired, now, Dropped(t.routes, Stored()));
      FinishedStep(t, Prune(now), lists, candidates[..], affected, Abs(), trs);
      ListsOnce(expired, Dropped(t.routes, Stored()));
      pruned := |expired|;
    }

    /** Routes refreshed between the two halves of a prune survive it, and the
        indexes agree again at its end. */
    method PruneWithRefreshes(now: int, batch: seq<Refresh>)
      requires Valid()
      requires forall i :: 0 <= i < |batch| ==> batch[i].netEnd < 0xFFFF && now <= batch[i].seen
      modifies this, candidates, zoneNames
      ensures Valid()
      ensures Stored() == Refreshed(NextRoutes(old(Abs()), Prune(now)), batch)
      ensures Shed(old(Stored()), Keys(batch) + Dropped(old(Stored()), NextRoutes(old(Abs()), Prune(now))).Keys,
                   Stored(), map[],
                   old(zoneNames[..]), zoneNames[..])
    {
      ghost var t := Abs();
      var expired := PruneSnapshot(now);
      ghost var stale := Dropped(t.routes, Stored());
      assert forall k :: k in stale ==> stale[k].lastSeen < now;
      ghost var kept := Stored();
      ApplyRefreshes(batch, stale);
      ghost var zones := zoneNames[..];
      ghost var _, affected := PruneForward(expired, now, stale);
      PrunedShed(t.routes, kept, Keys(batch), Stored(), t.zones, zones, candidates[..], affected, zoneNames[..]);
    }

    method StoreRefresh(u: Refresh, ghost before: RouteMap, ghost refreshed: set<RouteKey>,
                        ghost zones: seq<set<string>>, ghost stale: RouteMap)
      requires ValidWith(stale) && u.netEnd < 0xFFFF
      requires u.Key() in stale ==> stale[u.Key()].lastSeen < u.seen
      requires Shed(before, refreshed, Stored(), stale, zones, zoneNames[..])
      modifies this, candidates, zoneNames
      ensures ValidWith(stale)
      ensures Stored() == Refreshed(old(Stored()), [u])
      ensures Shed(before, refreshed + {u.Key()}, Stored(), stale, zones, zoneNames[..])
    {
      ghost var routes, zones' := Stored(), zoneNames[..];
      var ok, _ := UpsertRoute(u.target, u.extended, u.netStart, u.netEnd, u.distance, u.seen, stale);
      assert [u][..0] == [];
      if ok {
        var route := NewRoute(u.target, u.extended, u.netStart, u.netEnd, u.distance, u.seen);
        ShedStep(before, refreshed, routes, stale, zones, zones', route, candidates[..], zoneNames[..]);
      }
    }

    /** Upserts while a prune is half done. */
    method ApplyRefreshes(batch: seq<Refresh>, ghost stale: RouteMap)
      requires ValidWith(stale)
      requires forall i, k :: 0 <= i < |batch| && k in stale ==> stale[k].lastSeen < batch[i].seen
      requires forall i :: 0 <= i < |batch| ==> batch[i].netEnd < 0xFFFF
      modifies this, candidates, zoneNames
      ensures ValidWith(stale)
      ensures Stored() == Refreshed(old(Stored()), batch)
      ensures Shed(old(Stored()), Keys(batch), Stored(), stale, old(zoneNames[..]), zoneNames[..])
    {
      for i := 0 to |batch|
        invariant ValidWith(stale)
        invariant Stored() == Refreshed(old(Stored()), batch[..i])
        invariant Shed(old(Stored()), Keys(batch[..i]), Stored(), stale, old(zoneNames[..]), zoneNames[..])
      {
        assert batch[..i + 1][..i] == batch[..i] && Keys(batch[..i + 1]) == Keys(batch[..i]) + {batch[i].Key()};
        StoreRefresh(batch[i], old(Stored()), Keys(batch[..i]), old(zoneNames[..]), stale);
      }
      assert batch[..|batch|] == batch;
    }

    // ----- Exporting -----

    /** The local routes that the lookup at their own start returns. */
    method PickExports(local: RouteMap, now: int) returns (routes: seq<Route>)
      requires Shaped()
      requires forall k, r :: k in local && r in candidates[k.netStart] && r.key == k ==> r == local[k]
      ensures StartsIncrease(routes)
      ensures forall r :: r in routes <==> HoldsRoute(local, r) && ExportPick(candidates[..], zoneNames[..], now, r)
    {
      routes := [];
      var todo := local.Keys;
      while todo != {}
        invariant todo <= local.Keys
        invariant StartsIncrease(routes)
        invariant forall r :: r in routes <==>
                    r.key !in todo && HoldsRoute(local, r) && ExportPick(candidates[..], zoneNames[..], now, r)
        decreases todo
      {
        var k :| k in todo;
        todo := todo - {k};
        var best := First(k.netStart, ValidAt(now));
        if IsAdvertisable(best) && best.value.key == k {
          assert best.value in candidates[k.netStart];
          forall i | 0 <= i < |routes| ensures routes[i].key.netStart != k.netStart {
            assert routes[i] in routes;
            if routes[i].key.netStart == k.netStart {
              FirstUnique(candidates[k.netStart], zoneNames[..], ValidAt(now), best, Some(routes[i]));
            }
          }
          routes := InsertByStart(routes, best.value);
        } else if local[k].key == k && ExportPick(candidates[..], zoneNames[..], now, local[k]) {
          FirstUnique(candidates[k.netStart], zoneNames[..], ValidAt(now), best, Some(local[k]));
        }
      }
    }

    /** aurpExportedRoutes: the best route at every start where it may be
        advertised, sorted. */
    method ExportedRoutes(now: int) returns (routes: seq<Route>)
      requires Valid()
      ensures StartsIncrease(routes)
      ensures forall r :: r in routes ==> IsExported(Abs(), now, r)
      ensures Abs().Disjoint() ==> forall r :: IsExported(Abs(), now, r) ==> r in routes
    {
      var local := byClass[ClassIndex(Direct)] + byClass[ClassIndex(AppleTalkPeerClass)];
      LocalPart(byClass, local);
      forall k, r | k in local && r in candidates[k.netStart] && r.key == k ensures r == local[k] {
        assert IndexedAt(Stored(), map[], candidates[..][k.netStart], k.netStart);
      }
      routes := PickExports(local, now);
      PickedExports(Abs(), candidates[..], local, now, routes);
    }
  }
}

/** When the per-network candidate lists and the reverse zone map agree with the
    set of stored routes and the zone lists, one network at a time. */
module RouteIndex {
  import opened Routes
  import opened RouteSpec

  /** The candidate list of network n holds every stored route covering n exactly
      once, in order of preference, and besides those at most copies of `stale`
      routes: routes already taken out of the class index but not yet out of
      this one. */
  ghost predicate IndexedAt(routes: map<RouteKey, Route>, stale: map<RouteKey, Route>, list: seq<Route>, n: int) {
    && Sorted(list)
    && Distinct(list)
    && (forall r :: r in list ==> r.Covers(n) && (HoldsRoute(routes, r) || HoldsRoute(stale, r)))
    && (forall k :: k in routes && routes[k].Covers(n) ==> routes[k] in list)
  }

  ghost predicate Indexed(routes: map<RouteKey, Route>, stale: map<RouteKey, Route>, lists: seq<seq<Route>>) {
    && |lists| == NETWORKS
    && forall n {:trigger IndexedAt(routes, stale, lists[n], n)} ::
         0 <= n < NETWORKS ==> IndexedAt(routes, stale, lists[n], n)
  }

  /** A stale route that was stored again was stored later. */
  ghost predicate Overtaken(routes: map<RouteKey, Route>, stale: map<RouteKey, Route>) {
    forall k :: k in stale ==> stale[k].key == k && (k in routes ==> stale[k].lastSeen < routes[k].lastSeen)
  }

  lemma DistinctCount<T>(s: seq<T>)
    ensures Distinct(s) <==> forall x :: multiset(s)[x] <= 1
  {
    if !Distinct(s) {
      var i, j :| 0 <= i < j < |s| && s[i] == s[j];
      assert s == s[..i] + [s[i]] + s[i + 1..j] + [s[j]] + s[j + 1..];
      assert multiset(s)[s[i]] >= 2;
    } else {
      forall x ensures multiset(s)[x] <= 1 { DistinctOnce(s, x); }
    }
  }

  lemma {:induction false} DistinctOnce<T>(s: seq<T>, x: T)
    requires Distinct(s)
    ensures multiset(s)[x] <= 1
  {
    if s != [] {
      var init := s[..|s| - 1];
      assert s == init + [s[|s| - 1]];
      DistinctOnce(init, x);
      if x == s[|s| - 1] { assert x !in init; }
    }
  }

  /** A sorted permutation of a duplicate-free list is duplicate free. */
  lemma PermutationDistinct<T>(s: seq<T>, t: seq<T>)
    requires multiset(s) == multiset(t) && Distinct(s)
    ensures Distinct(t)
    ensures forall x :: x in t <==> x in s
  {
    DistinctCount(s);
    DistinctCount(t);
    assert forall x :: x in t <==> multiset(t)[x] > 0;
  }

  // ----- Changing one candidate list -----

  /** b is a without the doomed routes, in the same order. */
  ghost predicate Filtered(a: seq<Route>, b: seq<Route>, doomed: Route -> bool) {
    && (Sorted(a) ==> Sorted(b))
    && (Distinct(a) ==> Distinct(b))
    && forall r :: r in b <==> r in a && !doomed(r)
  }

  /** slices.DeleteFunc on a candidate list. */
  method DeleteFunc(a: seq<Route>, doomed: Route -> bool) returns (b: seq<Route>)
    ensures Filtered(a, b, doomed)
  {
    b := [];
    ghost var from: seq<int> := [];
    for i := 0 to |a|
      invariant |from| == |b|
      invariant forall j :: 0 <= j < |b| ==> 0 <= from[j] < i && b[j] == a[from[j]] && !doomed(b[j])
      invariant forall j, k :: 0 <= j < k < |b| ==> from[j] < from[k]
      invariant forall j :: 0 <= j < i && !doomed(a[j]) ==> a[j] in b
    {
      if !doomed(a[i]) {
        b, from := b + [a[i]], from + [i];
      }
    }
  }

  /** Dooming exactly the stale copies restores plain agreement. */
  lemma FilteredIndexed(routes: map<RouteKey, Route>, stale: map<RouteKey, Route>, a: seq<Route>, b: seq<Route>,
                        n: int, doomed: Route -> bool)
    requires IndexedAt(routes, stale, a, n) && Filtered(a, b, doomed)
    requires forall k :: k in stale ==> doomed(stale[k])
    requires forall k :: k in routes ==> !doomed(routes[k])
    ensures IndexedAt(routes, map[], b, n)
  {
  }

  lemma RemovedIndexed(routes: map<RouteKey, Route>, stale: map<RouteKey, Route>, key: RouteKey, a: seq<Route>,
                       b: seq<Route>, n: int)
    requires IndexedAt(routes, stale, a, n)
    requires forall k :: k in routes ==> routes[k].key == k
    requires if key in routes && routes[key].Covers(n) then Filtered(a, b, (r: Route) => r.key == key) else b == a
    ensures IndexedAt(routes - {key}, stale, b, n)
  {
  }

  /** b is a with one more route, sorted again. */
  ghost predicate InsertedInto(a: seq<Route>, b: seq<Route>, r: Route) {
    Sorted(b) && multiset(b) == multiset(a + [r])
  }

  lemma InsertedIndexed(routes: map<RouteKey, Route>, stale: map<RouteKey, Route>, route: Route, a: seq<Route>,
                        b: seq<Route>, n: int)
    requires IndexedAt(routes, stale, a, n) && route.key !in routes
    requires route.key in stale ==> stale[route.key].lastSeen < route.lastSeen
    requires if route.Covers(n) then InsertedInto(a, b, route) else b == a
    ensures IndexedAt(routes[route.key := route], stale, b, n)
  {
    if route.Covers(n) {
      assert route !in a;
      assert Distinct(a + [route]);
      PermutationDistinct(a + [route], b);
    }
  }

  /** c is a with every route of r's key replaced by r. */
  predicate Substituted(a: seq<Route>, c: seq<Route>, r: Route) {
    |c| == |a| && forall i :: 0 <= i < |a| ==> c[i] == if a[i].key == r.key then r else a[i]
  }

  /** b is a with every route of r's key replaced by r, sorted again. */
  ghost predicate ReplacedIn(a: seq<Route>, b: seq<Route>, r: Route) {
    exists c: seq<Route> :: Substituted(a, c, r) && Sorted(b) && multiset(b) == multiset(c)
  }

  lemma ReplacedIndexed(routes: map<RouteKey, Route>, route: Route, a: seq<Route>, b: seq<Route>, n: int)
    requires IndexedAt(routes, map[], a, n) && route.key in routes
    requires forall k :: k in routes ==> routes[k].key == k
    requires routes[route.key].Covers(n) == route.Covers(n)
    requires if route.Covers(n) then ReplacedIn(a, b, route) else b == a
    ensures IndexedAt(routes[route.key := route], map[], b, n)
  {
    if route.Covers(n) {
      var c: seq<Route> :| Substituted(a, c, route) && Sorted(b) && multiset(b) == multiset(c);
      ReplacedMembers(routes, route, a, c, n);
      PermutationDistinct(c, b);
      MembersIndexed(routes, route, a, b, n);
    }
  }

  lemma MembersIndexed(routes: map<RouteKey, Route>, route: Route, a: seq<Route>, b: seq<Route>, n: int)
    requires IndexedAt(routes, map[], a, n) && route.Covers(n) && Sorted(b) && Distinct(b)
    requires forall k :: k in routes ==> routes[k].key == k
    requires forall r :: r in b <==> r == route || (r.key != route.key && r in a)
    ensures IndexedAt(routes[route.key := route], map[], b, n)
  {
  }

  lemma ReplacedMembers(routes: map<RouteKey, Route>, route: Route, a: seq<Route>, c: seq<Route>, n: int)
    requires IndexedAt(routes, map[], a, n) && route.key in routes && routes[route.key].Covers(n)
    requires forall k :: k in routes ==> routes[k].key == k
    requires Substituted(a, c, route)
    ensures Distinct(c)
    ensures forall r :: r in c <==> r == route || (r.key != route.key && r in a)
  {
    forall i, j | 0 <= i < j < |c| ensures c[i] != c[j] {
      assert a[i] in a && a[j] in a && a[i] != a[j];
      assert a[i].key != a[j].key;
    }
    forall r | r in a && r.key != route.key ensures r in c {
      var i :| 0 <= i < |a| && a[i] == r;
      assert c[i] == r;
    }
    var i :| 0 <= i < |a| && a[i] == routes[route.key];
    assert c[i] == route;
  }

  // ----- Lookups -----

  /** The first admitted route of a candidate list. */
  ghost predicate FirstAdmitted(list: seq<Route>, zones: seq<set<string>>, q: Query, best: Option<Route>)
    requires |zones| == NETWORKS
  {
    if best.None? then forall i :: 0 <= i < |list| ==> !Admits(zones, q, list[i])
    else exists i :: 0 <= i < |list| && list[i] == best.value && Admits(zones, q, list[i])
                     && forall j :: 0 <= j < i ==> !Admits(zones, q, list[j])
  }

  /** Scanning a sorted list refines the plain scan of all stored routes. */
  lemma FirstIsBest(t: Table, list: seq<Route>, n: int, q: Query, best: Option<Route>)
    requires |t.zones| == NETWORKS && IndexedAt(t.routes, map[], list, n)
    requires FirstAdmitted(list, t.zones, q, best)
    ensures IsBest(t, n, q, best)
  {
    if best.Some? {
      assert best.value in list;
    }
    forall k | k in t.routes && t.routes[k].Covers(n) && Admits(t.zones, q, t.routes[k])
      ensures best.Some? && Before(best.value, t.routes[k])
    {
      var j :| 0 <= j < |list| && list[j] == t.routes[k];
      if best.Some? {
        var i :| 0 <= i < |list| && list[i] == best.value && Admits(t.zones, q, list[i])
                 && forall j :: 0 <= j < i ==> !Admits(t.zones, q, list[j]);
        PreferenceTotal(list[i], list[i]);
      }
    }
  }

  // ----- The reverse zone index -----

  predicate Listed(byZone: map<string, seq<Net>>, z: string, n: Net) {
    z in byZone && n in byZone[z]
  }

  /** No zone has an empty list of networks or names a network twice. */
  ghost predicate CleanLists(byZone: map<string, seq<Net>>) {
    forall z :: z in byZone ==> byZone[z] != [] && Distinct(byZone[z])
  }

  ghost predicate ZonesIndexed(zones: seq<set<string>>, byZone: map<string, seq<Net>>) {
    && |zones| == NETWORKS
    && CleanLists(byZone)
    && forall z, n: Net :: z in zones[n] <==> Listed(byZone, z, n)
  }

  method DeleteNetwork(a: seq<Net>, n: Net) returns (b: seq<Net>)
    ensures Distinct(a) ==> Distinct(b)
    ensures forall m :: m in b <==> m in a && m != n
  {
    b := [];
    for i := 0 to |a|
      invariant forall m :: m in b <==> m in a[..i] && m != n
      invariant Distinct(a) ==> Distinct(b)
    {
      assert a[..i + 1] == a[..i] + [a[i]];
      if a[i] != n {
        assert Distinct(a) ==> a[i] !in a[..i];
        b := b + [a[i]];
      }
    }
    assert a[..|a|] == a;
  }

  /** Take network n out of the lists of the given zones, dropping empty lists. */
  method RemoveNetworkFromZones(byZone: map<string, seq<Net>>, names: set<string>, n: Net)
    returns (out: map<string, seq<Net>>)
    requires forall z :: z in names ==> z in byZone
    requires CleanLists(byZone)
    ensures CleanLists(out)
    ensures forall z, m: Net :: Listed(out, z, m) <==>
              Listed(byZone, z, m) && !(z in names && m == n)
  {
    out := byZone;
    var todo := names;
    while todo != {}
      invariant todo <= names
      invariant forall z :: z in todo ==> z in out && out[z] == byZone[z]
      invariant CleanLists(out)
      invariant forall z, m: Net :: Listed(out, z, m) <==>
                  Listed(byZone, z, m) && !(z in names - todo && m == n)
      decreases todo
    {
      var zn :| zn in todo;
      var networks := DeleteNetwork(out[zn], n);
      if networks == [] {
        out := out - {zn};
      } else {
        out := out[zn := networks];
      }
      todo := todo - {zn};
    }
    assert names - todo == names;
  }

  method AddNetworkToZones(byZone: map<string, seq<Net>>, names: set<string>, n: Net)
    returns (out: map<string, seq<Net>>)
    requires CleanLists(byZone)
    requires forall z :: z in names ==> !Listed(byZone, z, n)
    ensures CleanLists(out)
    ensures forall z, m: Net :: Listed(out, z, m) <==>
              Listed(byZone, z, m) || (z in names && m == n)
  {
    out := byZone;
    var todo := names;
    while todo != {}
      invariant todo <= names
      invariant forall z :: z in todo ==> (z in out <==> z in byZone) && (z in out ==> out[z] == byZone[z])
      invariant CleanLists(out)
      invariant forall z, m: Net :: Listed(out, z, m) <==>
                  Listed(byZone, z, m) || (z in names - todo && m == n)
      decreases todo
    {
      var zn :| zn in todo;
      var networks := if zn in out then out[zn] else [];
      assert forall m :: m in networks + [n] <==> m in networks || m == n;
      out := out[zn := networks + [n]];
      todo := todo - {zn};
    }
    assert names - todo == names;
  }
}

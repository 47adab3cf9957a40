/** Observers of the route table: folding what they are told over any run
    yields the exported view that could be computed from scratch. */
module Observers {
  import opened Routes
  import opened RouteSpec

  /** What an observer knows, by range start. */
  type View = map<Net, Route>

  function Hear(view: View, note: Note): View {
    match note
    case NetworkAdded(b) => view[b.key.netStart := b]
    case NetworkDeleted(o) => view - {o.key.netStart}
    case BestNetworkChanged(f, b) => view[f.key.netStart := b]
  }

  function HearAll(view: View, notes: seq<Note>): View {
    if notes == [] then view
    else Hear(HearAll(view, notes[..|notes| - 1]), notes[|notes| - 1])
  }

  lemma {:induction false} HearConcat(view: View, a: seq<Note>, b: seq<Note>)
    ensures HearAll(view, a + b) == HearAll(HearAll(view, a), b)
  {
    if b == [] {
      assert a + b == a;
    } else {
      HearConcat(view, a, b[..|b| - 1]);
      assert (a + b)[..|a + b| - 1] == a + b[..|b| - 1];
    }
  }

  /** What the view holds at n. */
  function Held(view: View, n: Net): Option<Route> { if n in view then Some(view[n]) else None }

  /** A note continues the view: it starts from what the view holds. */
  ghost predicate Fits(view: View, note: Note) {
    match note
    case NetworkAdded(b) => b.WellFormed() && b.key.netStart !in view
    case NetworkDeleted(o) =>
      o.WellFormed() && o.key.netStart in view && SameShape(view[o.key.netStart], o)
    case BestNetworkChanged(f, b) =>
      f.WellFormed() && b.WellFormed() && f.key.netStart == b.key.netStart
      && f.key.netStart in view && SameShape(view[f.key.netStart], f)
  }

  ghost predicate AllFit(view: View, notes: seq<Note>) {
    notes == [] || (AllFit(view, notes[..|notes| - 1]) && Fits(HearAll(view, notes[..|notes| - 1]), notes[|notes| - 1]))
  }

  lemma {:induction false} FitConcat(view: View, a: seq<Note>, b: seq<Note>)
    requires AllFit(view, a) && AllFit(HearAll(view, a), b)
    ensures AllFit(view, a + b)
  {
    if b == [] {
      assert a + b == a;
    } else {
      FitConcat(view, a, b[..|b| - 1]);
      HearConcat(view, a, b[..|b| - 1]);
      assert (a + b)[..|a + b| - 1] == a + b[..|b| - 1];
    }
  }

  // ----- The best route of a network -----

  ghost function BestOf(t: Table, n: int): (best: Option<Route>)
    requires t.WellFormed()
    ensures IsBest(t, n, ANY_AGE, best)
  {
    assert exists b :: IsBest(t, n, ANY_AGE, b) by { var b := BestExists(t, n, ANY_AGE); }
    var b :| IsBest(t, n, ANY_AGE, b);
    b
  }

  /** While nothing stored has expired, a lookup that checks ages returns the
      best route regardless of age. */
  lemma FreshBest(t: Table, n: int, now: int, best: Option<Route>)
    requires t.WellFormed() && t.Disjoint() && t.FreshAt(now)
    requires IsBest(t, n, ValidAt(now), best)
    ensures best == BestOf(t, n)
  {
    assert forall k :: k in t.routes ==>
             Admits(t.zones, ValidAt(now), t.routes[k]) == Admits(t.zones, ANY_AGE, t.routes[k]);
    assert IsBest(t, n, ANY_AGE, best);
    BestUnique(t, n, ANY_AGE, best, BestOf(t, n));
  }

  predicate StartsAt(r: Option<Route>, n: int) { r.Some? && r.value.key.netStart == n }

  predicate KnowsAt(view: View, n: Net, best: Option<Route>) {
    if StartsAt(best, n)
    then n in view && SameShape(view[n], best.value) && view[n].key.netStart == n && view[n].WellFormed()
    else n !in view
  }

  /** The view holds exactly the best routes at their own range starts. */
  ghost predicate Tracks(view: View, t: Table)
    requires t.WellFormed()
  {
    forall n: Net :: KnowsAt(view, n, BestOf(t, n))
  }

  // ----- One operation -----

  /** The run conditions: ranges stay disjoint, and ages take effect only when
      pruning. */
  ghost predicate Calm(t: Table, op: Op, t': Table) {
    && t.WellFormed() && t'.WellFormed() && Admissible(op)
    && t.Disjoint() && t'.Disjoint()
    && (!op.Prune? ==> t.FreshAt(op.now) && t'.FreshAt(op.now))
  }

  /** The routes starting at n, and the zones that make them usable, are the same. */
  ghost predicate SameAt(t: Table, t': Table, n: Net)
    requires |t.zones| == NETWORKS && |t'.zones| == NETWORKS
  {
    && (forall k: RouteKey :: k.netStart == n ==> (k in t.routes <==> k in t'.routes))
    && (forall k: RouteKey :: k.netStart == n && k in t.routes && k in t'.routes ==>
          t.routes[k] == t'.routes[k] && t.zones[n] == t'.zones[n])
  }

  lemma SameBest(t: Table, t': Table, n: Net)
    requires t.WellFormed() && t'.WellFormed() && t.Disjoint() && t'.Disjoint()
    requires SameAt(t, t', n)
    requires StartsAt(BestOf(t, n), n)
    ensures BestOf(t', n) == BestOf(t, n)
  {
    var b := BestOf(t, n);
    assert b.value.key in t'.routes;
    forall k | k in t'.routes && t'.routes[k].Covers(n)
      ensures k.netStart == n
    {
      assert k.netStart == b.value.key.netStart;
    }
    assert IsBest(t', n, ANY_AGE, b);
    BestUnique(t', n, ANY_AGE, b, BestOf(t', n));
  }

  lemma UntouchedRoutes(t: Table, op: Op, n: Net, k: RouteKey)
    requires |t.zones| == NETWORKS && !Touches(t, op, n) && k.netStart == n
    ensures k in t.routes <==> k in Next(t, op).routes
    ensures k in t.routes ==> Next(t, op).routes[k] == t.routes[k]
  {
    if Accepted(t, op) && (op.DeleteTarget? || op.Prune?) {
      assert !Removed(t, NextRoutes(t, op), n);
    }
  }

  /** An operation leaves every network it does not announce as it was. */
  lemma UntouchedSame(t: Table, op: Op, n: Net)
    requires t.WellFormed() && Next(t, op).WellFormed() && !Touches(t, op, n)
    ensures SameAt(t, Next(t, op), n)
  {
    var t' := Next(t, op);
    forall k: RouteKey | k.netStart == n
      ensures k in t.routes <==> k in t'.routes
      ensures k in t.routes ==> t.routes[k] == t'.routes[k] && t.zones[n] == t'.zones[n]
    {
      UntouchedRoutes(t, op, n, k);
      if k in t.routes {
        assert t'.routes[k].Covers(n);
      }
    }
  }

  /** The transitions are between the best routes of the old and the new table. */
  lemma TransitionBests(t: Table, op: Op, t': Table, trs: seq<Transition>, i: nat)
    requires Calm(t, op, t') && Step(t, op, t', trs) && i < |trs|
    ensures trs[i].before == BestOf(t, trs[i].n) && trs[i].after == BestOf(t', trs[i].n)
  {
    var tr := trs[i];
    assert Faithful(t, t', BeforeQuery(op), ValidAt(op.now), tr);
    assert t'.FreshAt(op.now);
    FreshBest(t', tr.n, op.now, tr.after);
    if op.Prune? {
      BestUnique(t, tr.n, ANY_AGE, tr.before, BestOf(t, tr.n));
    } else {
      FreshBest(t, tr.n, op.now, tr.before);
    }
  }

  /** All routes covering n start there. */
  ghost predicate OnlyStarts(t: Table, n: int) {
    forall k :: k in t.routes && t.routes[k].Covers(n) ==> k.netStart == n
  }

  lemma StoredStart(t: Table, k: RouteKey)
    requires t.WellFormed() && t.Disjoint() && k in t.routes
    ensures OnlyStarts(t, k.netStart)
  {
    assert t.routes[k].Covers(k.netStart);
  }

  /** An announced transition is about routes starting at the announced network,
      or it is no transition at all. */
  lemma TouchedStarts(t: Table, op: Op, t': Table, n: Net)
    requires Calm(t, op, t') && t' == Next(t, op) && Touches(t, op, n)
    ensures (OnlyStarts(t, n) && OnlyStarts(t', n)) || BestOf(t, n) == BestOf(t', n)
  {
    match op
    case Upsert(g, e, s, f, d, now) => UpsertStarts(t, op, t', n);
    case UpdateDistance(g, s, _, _) =>
      StoredStart(t, RouteKey(g.Key(), s));
      StoredStart(t', RouteKey(g.Key(), s));
    case DeleteRoute(g, s, _) =>
      StoredStart(t, RouteKey(g.Key(), s));
      RemovalStarts(t, op, t', n);
    case DeleteTarget(_, _) =>
      var k :| k in t.routes && k.netStart == n;
      StoredStart(t, k);
      RemovalStarts(t, op, t', n);
    case Prune(_) =>
      var k :| k in t.routes && k.netStart == n;
      StoredStart(t, k);
      RemovalStarts(t, op, t', n);
    case AddZones(_, _, _) => ZoneChange(t, t', n);
    case ReplaceZones(_, _, _) => ZoneChange(t, t', n);
  }

  lemma UpsertStarts(t: Table, op: Op, t': Table, n: Net)
    requires op.Upsert? && Calm(t, op, t') && t' == Next(t, op) && Touches(t, op, n)
    ensures OnlyStarts(t, n) && OnlyStarts(t', n)
  {
    var key := RouteKey(op.target.Key(), op.netStart);
    StoredStart(t', key);
    forall k | k in t.routes && t.routes[k].Covers(n) ensures k.netStart == n {
      if k != key { assert k in t'.routes && t'.routes[k] == t.routes[k]; }
    }
  }

  lemma RemovalStarts(t: Table, op: Op, t': Table, n: Net)
    requires |t.zones| == NETWORKS && t' == Next(t, op) && OnlyStarts(t, n)
    requires op.DeleteRoute? || op.DeleteTarget? || op.Prune?
    ensures OnlyStarts(t', n)
  {
    forall k | k in t'.routes && t'.routes[k].Covers(n) ensures k.netStart == n {
      assert k in t.routes && t.routes[k] == t'.routes[k];
    }
  }

  /** The best route of n depends on the zones of the starts of the routes covering n. */
  lemma SameStartBest(t: Table, t': Table, n: Net, start: Net)
    requires t.WellFormed() && t'.WellFormed() && t'.routes == t.routes && t'.zones[start] == t.zones[start]
    requires forall k :: k in t.routes && t.routes[k].Covers(n) ==> k.netStart == start
    ensures IsBest(t', n, ANY_AGE, BestOf(t, n))
  {
    var b := BestOf(t, n);
    assert forall k :: k in t.routes && t.routes[k].Covers(n) ==>
      Admits(t'.zones, ANY_AGE, t'.routes[k]) == Admits(t.zones, ANY_AGE, t.routes[k]);
  }

  /** Changing the zones of a network inside a range changes no best route. */
  lemma ZoneChange(t: Table, t': Table, n: Net)
    requires t.WellFormed() && t'.WellFormed() && t.Disjoint()
    requires t'.routes == t.routes
    requires forall m :: 0 <= m < NETWORKS && m != n ==> t'.zones[m] == t.zones[m]
    ensures (OnlyStarts(t, n) && OnlyStarts(t', n)) || BestOf(t, n) == BestOf(t', n)
  {
    if !OnlyStarts(t, n) {
      var l :| l in t.routes && t.routes[l].Covers(n) && l.netStart != n;
      SameStartBest(t, t', n, l.netStart);
      BestUnique(t', n, ANY_AGE, BestOf(t, n), BestOf(t', n));
    }
  }

  /** Hearing one faithful transition brings the view up to date at its network
      and changes it nowhere else. */
  lemma HearTransition(view: View, t: Table, t': Table, n: Net)
    requires t.WellFormed() && t'.WellFormed()
    requires KnowsAt(view, n, BestOf(t, n))
    requires (OnlyStarts(t, n) && OnlyStarts(t', n)) || BestOf(t, n) == BestOf(t', n)
    ensures var heard := HearAll(view, Inform(BestOf(t, n), BestOf(t', n)));
            AllFit(view, Inform(BestOf(t, n), BestOf(t', n)))
            && KnowsAt(heard, n, BestOf(t', n))
            && forall m: Net :: m != n ==> (m in heard <==> m in view) && (m in view ==> heard[m] == view[m])
  {
    var notes := Inform(BestOf(t, n), BestOf(t', n));
    assert HearAll(view, []) == view;
    if notes != [] {
      assert notes[..|notes| - 1] == [];
      assert HearAll(view, notes) == Hear(view, notes[0]);
      assert AllFit(view, []);
    }
  }

  /** The same, after earlier notes. */
  lemma HearNext(view: View, notes: seq<Note>, t: Table, t': Table, n: Net)
    requires t.WellFormed() && t'.WellFormed()
    requires AllFit(view, notes) && KnowsAt(HearAll(view, notes), n, BestOf(t, n))
    requires (OnlyStarts(t, n) && OnlyStarts(t', n)) || BestOf(t, n) == BestOf(t', n)
    ensures var notes' := notes + Inform(BestOf(t, n), BestOf(t', n));
            && AllFit(view, notes') && KnowsAt(HearAll(view, notes'), n, BestOf(t', n))
            && forall m: Net :: m != n ==> Held(HearAll(view, notes'), m) == Held(HearAll(view, notes), m)
  {
    HearTransition(HearAll(view, notes), t, t', n);
    HearConcat(view, notes, Inform(BestOf(t, n), BestOf(t', n)));
    FitConcat(view, notes, Inform(BestOf(t, n), BestOf(t', n)));
  }

  /** The best route of n once the first i transitions have been heard. */
  ghost function BestAfter(t: Table, t': Table, trs: seq<Transition>, i: nat, n: Net): Option<Route>
    requires t.WellFormed() && t'.WellFormed() && i <= |trs|
  {
    if Announced(trs[..i], n) then BestOf(t', n) else BestOf(t, n)
  }

  ghost predicate HeardSoFar(view: View, t: Table, t': Table, trs: seq<Transition>, i: nat)
    requires t.WellFormed() && t'.WellFormed() && i <= |trs|
  {
    && AllFit(view, Notes(trs[..i]))
    && forall n: Net :: KnowsAt(HearAll(view, Notes(trs[..i])), n, BestAfter(t, t', trs, i, n))
  }

  lemma HearLast(view: View, t: Table, t': Table, trs: seq<Transition>, i: nat)
    requires t.WellFormed() && t'.WellFormed() && 0 < i <= |trs| && HeardSoFar(view, t, t', trs, i - 1)
    requires var tr := trs[i - 1];
             && tr.before == BestOf(t, tr.n) && tr.after == BestOf(t', tr.n) && !Announced(trs[..i - 1], tr.n)
             && ((OnlyStarts(t, tr.n) && OnlyStarts(t', tr.n)) || BestOf(t, tr.n) == BestOf(t', tr.n))
    ensures HeardSoFar(view, t, t', trs, i)
  {
    var tr := trs[i - 1];
    assert BestAfter(t, t', trs, i - 1, tr.n) == BestOf(t, tr.n);
    HearNext(view, Notes(trs[..i - 1]), t, t', tr.n);
    assert trs[..i][..i - 1] == trs[..i - 1];
    forall n: Net ensures KnowsAt(HearAll(view, Notes(trs[..i])), n, BestAfter(t, t', trs, i, n)) {
      AnnouncedLast(trs, i, n);
      if n != tr.n {
        assert BestAfter(t, t', trs, i - 1, n) == BestAfter(t, t', trs, i, n);
        assert Held(HearAll(view, Notes(trs[..i])), n) == Held(HearAll(view, Notes(trs[..i - 1])), n);
      }
    }
  }

  lemma {:induction false} HearTransitions(view: View, t: Table, op: Op, t': Table, trs: seq<Transition>, i: nat)
    requires Calm(t, op, t') && Step(t, op, t', trs) && Tracks(view, t) && i <= |trs|
    ensures HeardSoFar(view, t, t', trs, i)
  {
    if i == 0 {
      assert Notes(trs[..0]) == [];
    } else {
      HearTransitions(view, t, op, t', trs, i - 1);
      NextTransition(t, op, t', trs, i - 1);
      HearLast(view, t, t', trs, i);
    }
  }

  /** A transition is heard once, and is between the best routes of its network. */
  lemma NextTransition(t: Table, op: Op, t': Table, trs: seq<Transition>, i: nat)
    requires Calm(t, op, t') && Step(t, op, t', trs) && i < |trs|
    ensures var tr := trs[i];
            && tr.before == BestOf(t, tr.n) && tr.after == BestOf(t', tr.n) && !Announced(trs[..i], tr.n)
            && ((OnlyStarts(t, tr.n) && OnlyStarts(t', tr.n)) || BestOf(t, tr.n) == BestOf(t', tr.n))
  {
    TransitionBests(t, op, t', trs, i);
    assert Announced(trs, trs[i].n);
    TouchedStarts(t, op, t', trs[i].n);
  }

  lemma AnnouncedLast(trs: seq<Transition>, i: nat, n: int)
    requires 0 < i <= |trs|
    ensures Announced(trs[..i], n) <==> n == trs[i - 1].n || Announced(trs[..i - 1], n)
  {
    if n == trs[i - 1].n {
      assert trs[..i][i - 1].n == n;
    } else if Announced(trs[..i - 1], n) {
      var j :| 0 <= j < i - 1 && trs[..i - 1][j].n == n;
      assert trs[..i][j].n == n;
    }
  }

  /** Every operation, with what it announces, keeps the view exact. */
  lemma StepTracks(view: View, t: Table, op: Op, t': Table, trs: seq<Transition>)
    requires Calm(t, op, t') && Step(t, op, t', trs) && Tracks(view, t)
    ensures Tracks(HearAll(view, Notes(trs)), t') && AllFit(view, Notes(trs))
  {
    HearTransitions(view, t, op, t', trs, |trs|);
    assert trs[..|trs|] == trs;
    forall n: Net ensures KnowsAt(HearAll(view, Notes(trs)), n, BestOf(t', n)) {
      assert KnowsAt(HearAll(view, Notes(trs)), n, BestAfter(t, t', trs, |trs|, n));
      if !Announced(trs, n) {
        UntouchedSame(t, op, n);
        if StartsAt(BestOf(t, n), n) {
          SameBest(t, t', n);
        } else if StartsAt(BestOf(t', n), n) {
          SameBest(t', t, n);
        }
      }
    }
  }

  // ----- Whole runs -----

  datatype Event = Event(op: Op, trs: seq<Transition>)

  ghost predicate IsRun(states: seq<Table>, events: seq<Event>) {
    && |states| == |events| + 1
    && (forall i :: 0 <= i < |states| ==> states[i].WellFormed())
    && forall i :: 0 <= i < |events| ==>
         Calm(states[i], events[i].op, states[i + 1])
         && Step(states[i], events[i].op, states[i + 1], events[i].trs)
  }

  function Heard(view: View, events: seq<Event>): View {
    if events == [] then view
    else HearAll(Heard(view, events[..|events| - 1]), Notes(events[|events| - 1].trs))
  }

  lemma {:induction false} RunTracks(view: View, states: seq<Table>, events: seq<Event>)
    requires IsRun(states, events) && Tracks(view, states[0])
    ensures Tracks(Heard(view, events), states[|events|])
    decreases |events|
  {
    if events != [] {
      var last := |events| - 1;
      assert events[..last] == events[..|events| - 1];
      RunPrefix(states, events);
      RunTracks(view, states[..last + 1], events[..last]);
      LastTracks(Heard(view, events[..last]), states, events);
    }
  }

  lemma LastTracks(view: View, states: seq<Table>, events: seq<Event>)
    requires IsRun(states, events) && events != [] && Tracks(view, states[|events| - 1])
    ensures Tracks(HearAll(view, Notes(events[|events| - 1].trs)), states[|events|])
  {
    var last := |events| - 1;
    StepTracks(view, states[last], events[last].op, states[last + 1], events[last].trs);
  }

  lemma RunPrefix(states: seq<Table>, events: seq<Event>)
    requires IsRun(states, events) && events != []
    ensures IsRun(states[..|events|], events[..|events| - 1])
  {
  }

  // ----- The exported view -----

  /** What a route advertises: RFC 1504 network tuples. */
  datatype Advert = Advert(extended: bool, netStart: Net, netEnd: Net, distance: nat)

  function AdvertOf(r: Route): Advert { Advert(r.extended, r.key.netStart, r.netEnd, r.distance) }

  predicate IsLocal(r: Option<Route>) { r.Some? && r.value.RouteOrigin().kind != OriginAurp }
  predicate IsAdvertisable(r: Option<Route>) { IsLocal(r) && r.value.distance < MAX_ROUTE_DISTANCE }

  /** A route that aurpExportedRoutes returns: the best route at its own start. */
  ghost predicate IsExported(t: Table, now: int, r: Route)
    requires |t.zones| == NETWORKS
  {
    IsBest(t, r.key.netStart, ValidAt(now), Some(r)) && IsAdvertisable(Some(r))
  }

  ghost predicate Exports(t: Table, now: int, a: Advert)
    requires |t.zones| == NETWORKS
  {
    exists r :: IsExported(t, now, r) && AdvertOf(r) == a
  }

  /** A route the router offers to its peers: the nearest usable one where its range
      starts, not itself learned from a peer, and less than 15 hops away. */
  ghost predicate Offers(t: Table, now: int, r: Route)
    requires |t.zones| == NETWORKS
  {
    IsNearest(t, r.key.netStart, Some(now), "", Some(r)) && !r.target.AurpPeer? && r.distance < 15
  }

  /** Exactly the offered routes are exported, with their range and distance. */
  lemma ExportsMeans(t: Table, now: int, a: Advert)
    requires t.WellFormed()
    ensures Exports(t, now, a) <==>
            exists r :: Offers(t, now, r) && a == Advert(r.extended, r.key.netStart, r.netEnd, r.distance)
  {
    if r :| IsExported(t, now, r) && AdvertOf(r) == a {
      ExportedMeans(t, now, r);
      assert Offers(t, now, r);
    }
    if r :| Offers(t, now, r) && a == Advert(r.extended, r.key.netStart, r.netEnd, r.distance) {
      ExportedMeans(t, now, r);
      assert IsExported(t, now, r) && AdvertOf(r) == a;
    }
  }

  lemma ExportedMeans(t: Table, now: int, r: Route)
    requires t.WellFormed()
    ensures IsExported(t, now, r) <==> Offers(t, now, r)
  {
    BestIsNearest(t, r.key.netStart, ValidAt(now), Some(r));
    if r.key in t.routes && t.routes[r.key] == r { assert r.WellFormed(); }
  }

  /** The adverts an RI-Rsp starts from: those of aurpExportedRoutes. */
  ghost predicate IsSnapshot(t: Table, now: int, adverts: seq<Advert>)
    requires |t.zones| == NETWORKS
  {
    && (forall i, j :: 0 <= i < j < |adverts| ==> adverts[i].netStart < adverts[j].netStart)
    && forall a :: a in adverts <==> Exports(t, now, a)
  }

  ghost predicate ViewExports(view: View, a: Advert) {
    a.netStart in view && IsAdvertisable(Some(view[a.netStart])) && AdvertOf(view[a.netStart]) == a
  }

  lemma SameShapeExports(a: Route, b: Route)
    requires a.WellFormed() && b.WellFormed() && SameShape(a, b) && a.key.netStart == b.key.netStart
    ensures AdvertOf(a) == AdvertOf(b) && IsAdvertisable(Some(a)) == IsAdvertisable(Some(b))
    ensures IsLocal(Some(a)) == IsLocal(Some(b))
  {
    KeyDeterminesClass(a.target);
    KeyDeterminesClass(b.target);
  }

  lemma TracksExports(view: View, t: Table, now: int, a: Advert)
    requires t.WellFormed() && t.Disjoint() && t.FreshAt(now) && Tracks(view, t)
    ensures ViewExports(view, a) <==> Exports(t, now, a)
  {
    var n := a.netStart;
    assert KnowsAt(view, n, BestOf(t, n));
    if ViewExports(view, a) {
      var r := BestOf(t, n).value;
      SameShapeExports(view[n], r);
      assert IsBest(t, n, ValidAt(now), Some(r)) by {
        assert forall k :: k in t.routes ==>
                 Admits(t.zones, ValidAt(now), t.routes[k]) == Admits(t.zones, ANY_AGE, t.routes[k]);
      }
      assert IsExported(t, now, r);
    }
    if Exports(t, now, a) {
      var r :| IsExported(t, now, r) && AdvertOf(r) == a;
      FreshBest(t, n, now, Some(r));
      SameShapeExports(view[n], r);
    }
  }

  /** Observer completeness: over every run from an empty table, the adverts in
      the folded notifications are exactly those of the final table. */
  lemma ObserversComplete(states: seq<Table>, events: seq<Event>, now: int, a: Advert)
    requires IsRun(states, events) && states[0] == EmptyTable()
    requires states[|events|].Disjoint() && states[|events|].FreshAt(now)
    ensures ViewExports(Heard(map[], events), a) <==> Exports(states[|events|], now, a)
  {
    assert Tracks(map[], states[0]);
    RunTracks(map[], states, events);
    TracksExports(Heard(map[], events), states[|events|], now, a);
  }
}

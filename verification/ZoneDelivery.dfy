/** An extended zone list on its way into a receiver's table: the fragments that
    buildZIRspPackets makes, handled by applyExtendedZIRsp in whatever order they
    arrive (router/aurp_zone.go). */
module ZoneDelivery {
  import opened Routes
  import opened RouteSpec
  import opened Replication
  import opened Chunking
  import opened ZoneAssembly
  import opened ReceiverSpec

  /** The receiver after the fragments of the given numbers, on its connection. */
  ghost function Arrive(r: Receiver, n: Net, total: nat, fragments: seq<seq<string>>, order: seq<nat>,
                        now: int): (r': Receiver)
    requires |r.table.zones| == NETWORKS
    requires forall k :: 0 <= k < |order| ==> order[k] < |fragments|
    ensures |r'.table.zones| == NETWORKS
  {
    if order == [] then r
    else
      var before := Arrive(r, n, total, fragments, order[..|order| - 1], now);
      HandleZIRsp(before, r.localConn, n, total, fragments[order[|order| - 1]], now).0
  }

  /** The partial list of network n, if any. */
  function PendingAt(r: Receiver, n: Net): Option<Assembly> {
    if n in r.zoneInfo then Some(r.zoneInfo[n].assembly) else None
  }

  /** r' is r but for the zones and the partial list of network n. */
  ghost predicate OnlyZonesAt(r: Receiver, r': Receiver, n: Net)
    requires |r.table.zones| == |r'.table.zones| == NETWORKS
  {
    && r' == r.(table := r'.table, zoneInfo := r'.zoneInfo)
    && r'.table == r.table.(zones := r.table.zones[n := r'.table.zones[n]])
    && forall m: Net :: m != n ==> PendingAt(r', m) == PendingAt(r, m)
  }

  lemma {:induction false} FragmentsArrive(r: Receiver, n: Net, total: nat, fragments: seq<seq<string>>,
                                           names: set<string>, order: seq<nat>, now: int)
    requires |r.table.zones| == NETWORKS && StoredAdvert(r.table, r.peer, n).Some?
    requires Splits(fragments, total, names) && Holds(PendingAt(r, n), fragments, total, {})
    requires forall k :: 0 <= k < |order| ==> order[k] < |fragments|
    ensures var r' := Arrive(r, n, total, fragments, order, now);
            var (rounds, seen) := Rounds(order, |fragments|, {});
            && OnlyZonesAt(r, r', n)
            && r'.table.zones[n] == (if rounds == 0 then r.table.zones[n] else names)
            && Holds(PendingAt(r', n), fragments, total, seen)
            && forall j :: j in seen ==> j < |fragments|
  {
    if order != [] {
      var init, i := order[..|order| - 1], order[|order| - 1];
      FragmentsArrive(r, n, total, fragments, names, init, now);
      var before := Arrive(r, n, total, fragments, init, now);
      OneArrives(before, n, total, fragments, names, Rounds(init, |fragments|, {}).1, i, now);
    }
  }

  /** One fragment, old or new: the zones are replaced if it completes a round. */
  lemma OneArrives(r: Receiver, n: Net, total: nat, fragments: seq<seq<string>>, names: set<string>,
                   seen: set<nat>, i: nat, now: int)
    requires |r.table.zones| == NETWORKS && StoredAdvert(r.table, r.peer, n).Some?
    requires Splits(fragments, total, names) && Holds(PendingAt(r, n), fragments, total, seen)
    requires i < |fragments| && forall j :: j in seen ==> j < |fragments|
    ensures var r' := HandleZIRsp(r, r.localConn, n, total, fragments[i], now).0;
            var all := forall j :: 0 <= j < |fragments| ==> j in seen + {i};
            && OnlyZonesAt(r, r', n)
            && r'.table.zones[n] == (if all then names else r.table.zones[n])
            && Holds(PendingAt(r', n), fragments, total, if all then {} else seen + {i})
  {
    DeliverFragment(fragments, total, names, PendingAt(r, n), seen, i);
    OthersKept(r, n, total, fragments[i], now);
    assert names - {""} == names;
  }

  lemma OthersKept(r: Receiver, n: Net, total: nat, names: seq<string>, now: int)
    requires |r.table.zones| == NETWORKS
    ensures OnlyZonesAt(r, HandleZIRsp(r, r.localConn, n, total, names, now).0, n)
  {
    assert r.table.zones[n := r.table.zones[n]] == r.table.zones;
  }

  /** A first round is complete exactly when every fragment is among those arrived. */
  lemma {:induction false} FirstRound(order: seq<nat>, count: nat)
    requires count > 0
    ensures var (rounds, seen) := Rounds(order, count, {});
            && (rounds == 0 ==> seen == set k | k in order)
            && (rounds == 0 <==> exists i :: 0 <= i < count && i !in order)
  {
    if order == [] {
      assert 0 !in order;
    } else {
      var init, last := order[..|order| - 1], order[|order| - 1];
      FirstRound(init, count);
      assert order == init + [last];
      forall k ensures k in order <==> k in init || k == last { }
      var (rounds, seen) := Rounds(init, count, {});
      if rounds == 0 {
        forall i | 0 <= i < count ensures i in seen + {last} <==> i in order { }
      }
    }
  }

  /** The fragments built for a zone list, in any order and however often repeated,
      leave the network's published zones alone until every one has arrived, and then
      the zones are exactly the list; nothing else of the receiver changes. */
  lemma ZoneListArrives(r: Receiver, n: Net, zones: seq<string>, base: nat, total: nat,
                        fragments: seq<seq<string>>, order: seq<nat>, now: int)
    requires |r.table.zones| == NETWORKS && StoredAdvert(r.table, r.peer, n).Some?
    requires ReplyFor(zones, base, Extended(total, fragments))
    requires PendingAt(r, n).None? || PendingAt(r, n) == Some(Assembly(0, {}))
    requires forall k :: 0 <= k < |order| ==> order[k] < |fragments|
    ensures var r' := Arrive(r, n, total, fragments, order, now);
            && OnlyZonesAt(r, r', n)
            && r'.table.zones[n] == if exists i :: 0 <= i < |fragments| && i !in order then r.table.zones[n]
                                    else NamesIn(zones) - {""}
  {
    FragmentsArrive(r, n, total, fragments, NamesIn(zones) - {""}, order, now);
    assert fragments != [] by {
      assert Flatten(fragments) != [];
    }
    FirstRound(order, |fragments|);
  }
}

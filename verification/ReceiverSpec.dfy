/** The data receiver's half of an AURP peer (router/aurp_peer.go). */
module ReceiverSpec {
  import opened Routes
  import opened RouteSpec
  import opened Observers
  import opened Replication
  import opened PeerSpec
  import opened ZoneAssembly

  datatype ReceiverState = RUnconnected | RConnected | WaitOpenRsp | WaitRIRsp | WaitTickleAck

  /** A partly known zone list, and the connection ID of the packet it is from. */
  datatype Partial = Partial(assembly: Assembly, conn: U16)

  /** `table` is the whole route table of this router, `peer` the route target that
      stands for the remote one. Two fields record history: `learned` the
      connection ID of the packet each stored route of the peer came from, and
      `synced` whether a complete snapshot has arrived on this connection. */
  datatype Receiver = Receiver(
    state: ReceiverState,
    localConn: U16,
    remoteSeq: U16,
    table: Table,
    peer: Target,
    extra: nat,
    zoneInfo: map<Net, Partial>,
    learned: map<Net, U16>,
    synced: bool)

  type ROut = (Receiver, seq<Packet>)

  // ----- Applying routing information -----

  /** Note that zone information for a network is wanted, or no longer. */
  function MarkZones(r: Receiver, n: Net, conn: U16): Receiver
    requires |r.table.zones| == NETWORKS
  {
    if r.table.zones[n] != {} then r.(zoneInfo := r.zoneInfo - {n})
    else if n in r.zoneInfo then r
    else r.(zoneInfo := r.zoneInfo[n := Partial(Assembly(0, {}), conn)])
  }

  /** What is recorded once a table operation for the peer is done on behalf of a
      packet. */
  function Recorded(r: Receiver, op: Op, n: Net, conn: U16): Receiver
    requires |r.table.zones| == NETWORKS
  {
    match op
    case Upsert(_, _, _, _, _, _) => MarkZones(r.(learned := r.learned[n := conn]), n, conn)
    case UpdateDistance(_, _, _, _) => r.(learned := r.learned[n := conn], zoneInfo := r.zoneInfo - {n})
    case _ => r.(learned := r.learned - {n}, zoneInfo := r.zoneInfo - {n})
  }

  /** One table operation for the peer on behalf of a packet. */
  ghost function Perform(r: Receiver, op: Op, n: Net, conn: U16): (r': Receiver)
    requires |r.table.zones| == NETWORKS
    ensures |r'.table.zones| == NETWORKS
  {
    Recorded(r.(table := Next(r.table, op)), op, n, conn)
  }

  /** One tuple of an RI-Rsp: applyRIRspNetworkTuple and its caller. */
  ghost function TakeTuple(r: Receiver, a: Advert, conn: U16, now: int): (r': Receiver)
    requires |r.table.zones| == NETWORKS
    ensures |r'.table.zones| == NETWORKS
  {
    var op := EventOp(r.table, r.peer, r.extra, TupleEvent(a), now);
    if op.None? then r else Perform(r, op.value, a.netStart, conn)
  }

  /** One event of an RI-Upd: applyRIUpdEvent and its caller. */
  ghost function TakeEvent(r: Receiver, e: EventTuple, conn: U16, now: int): (r': Receiver)
    requires |r.table.zones| == NETWORKS
    ensures |r'.table.zones| == NETWORKS
  {
    var op := EventOp(r.table, r.peer, r.extra, e, now);
    if op.Some? then Perform(r, op.value, e.rangeStart, conn)
    else if e.code == NullEvent || e.code == ZC
            || ((e.code == NA || e.code == NDC) && !ValidRange(e.extended, e.rangeStart, e.rangeEnd)) then r
    else r.(zoneInfo := r.zoneInfo - {e.rangeStart})
  }

  ghost function TakeTuples(r: Receiver, nets: seq<Advert>, conn: U16, now: int): (r': Receiver)
    requires |r.table.zones| == NETWORKS
    ensures |r'.table.zones| == NETWORKS
  {
    if nets == [] then r
    else TakeTuple(TakeTuples(r, nets[..|nets| - 1], conn, now), nets[|nets| - 1], conn, now)
  }

  ghost function TakeEvents(r: Receiver, es: seq<EventTuple>, conn: U16, now: int): (r': Receiver)
    requires |r.table.zones| == NETWORKS
    ensures |r'.table.zones| == NETWORKS
  {
    if es == [] then r
    else TakeEvent(TakeEvents(r, es[..|es| - 1], conn, now), es[|es| - 1], conn, now)
  }

  /** Everything but the table and what is recorded about it. */
  predicate SameConnection(r: Receiver, r': Receiver) {
    && r'.state == r.state && r'.localConn == r.localConn && r'.remoteSeq == r.remoteSeq
    && r'.peer == r.peer && r'.extra == r.extra && r'.synced == r.synced
  }

  lemma TakeTupleTable(r: Receiver, a: Advert, conn: U16, now: int)
    requires |r.table.zones| == NETWORKS
    ensures TakeTuple(r, a, conn, now).table == ApplyEvent(r.table, r.peer, r.extra, TupleEvent(a), now)
    ensures SameConnection(r, TakeTuple(r, a, conn, now))
  {
  }

  lemma TakeEventTable(r: Receiver, e: EventTuple, conn: U16, now: int)
    requires |r.table.zones| == NETWORKS
    ensures TakeEvent(r, e, conn, now).table == ApplyEvent(r.table, r.peer, r.extra, e, now)
    ensures SameConnection(r, TakeEvent(r, e, conn, now))
  {
  }

  lemma {:induction false} TakeTuplesTable(r: Receiver, nets: seq<Advert>, conn: U16, now: int)
    requires |r.table.zones| == NETWORKS
    ensures TakeTuples(r, nets, conn, now).table == ApplyEvents(r.table, r.peer, r.extra, TupleEvents(nets), now)
    ensures SameConnection(r, TakeTuples(r, nets, conn, now))
  {
    if nets != [] {
      TakeTuplesTable(r, nets[..|nets| - 1], conn, now);
      TakeTupleTable(TakeTuples(r, nets[..|nets| - 1], conn, now), nets[|nets| - 1], conn, now);
      var es := TupleEvents(nets);
      assert es[..|es| - 1] == TupleEvents(nets[..|nets| - 1]);
    }
  }

  lemma {:induction false} TakeEventsTable(r: Receiver, es: seq<EventTuple>, conn: U16, now: int)
    requires |r.table.zones| == NETWORKS
    ensures TakeEvents(r, es, conn, now).table == ApplyEvents(r.table, r.peer, r.extra, es, now)
    ensures SameConnection(r, TakeEvents(r, es, conn, now))
  {
    if es != [] {
      TakeEventsTable(r, es[..|es| - 1], conn, now);
      TakeEventTable(TakeEvents(r, es[..|es| - 1], conn, now), es[|es| - 1], conn, now);
    }
  }

  // ----- Handlers -----

  /** disconnectReceiver: the routes of the connection go with it, and the next
      one has another connection ID. */
  ghost function DisconnectReceiver(r: Receiver, now: int): (r': Receiver)
    requires |r.table.zones| == NETWORKS
    ensures |r'.table.zones| == NETWORKS
  {
    r.(table := Next(r.table, DeleteTarget(r.peer, now)), remoteSeq := 1, localConn := Succ(r.localConn),
       zoneInfo := map[], learned := map[], state := RUnconnected, synced := false)
  }

  datatype Verdict = Expected | Duplicate | Future | Stale

  /** checkRemoteSeq. */
  function CheckSeq(want: U16, got: U16): Verdict {
    if got == Pred(want) then Duplicate
    else if got == want then Expected
    else if got == Succ(want) then Future
    else Stale
  }

  /** What happens to a sequenced packet that is not the expected one. */
  ghost function Unexpected(r: Receiver, conn: U16, seqNo: U16, ackZones: bool, now: int): (out: ROut)
    requires |r.table.zones| == NETWORKS
    ensures |out.0.table.zones| == NETWORKS
  {
    match CheckSeq(r.remoteSeq, seqNo)
    case Duplicate => (r, [RIAck(conn, seqNo, ackZones)])
    case Future => (DisconnectReceiver(r, now), [])
    case _ => (r, [])
  }

  function OpenReceiver(r: Receiver): ROut {
    (r.(state := WaitOpenRsp), [OpenReq(r.localConn, ALL_SUI, 1)])
  }

  ghost function HandleOpenRsp(r: Receiver, conn: U16, rate: int, now: int): (out: ROut)
    requires |r.table.zones| == NETWORKS
    ensures |out.0.table.zones| == NETWORKS
  {
    if conn != r.localConn then (r, [])
    else if rate < 0 then (DisconnectReceiver(r, now), [])
    else (r.(state := WaitRIRsp, remoteSeq := 1, synced := false), [RIReq(r.localConn, ALL_SUI)])
  }

  /** Some tuple, when it was applied, left its network without zones: the
      acknowledgement asks for zone information. */
  ghost predicate TuplesWantZones(r: Receiver, nets: seq<Advert>, conn: U16, now: int)
    requires |r.table.zones| == NETWORKS
  {
    nets != []
    && (TuplesWantZones(r, nets[..|nets| - 1], conn, now)
        || TupleWantsZones(TakeTuples(r, nets[..|nets| - 1], conn, now), nets[|nets| - 1], conn, now))
  }

  ghost predicate TupleWantsZones(r: Receiver, a: Advert, conn: U16, now: int)
    requires |r.table.zones| == NETWORKS
  {
    && EventOp(r.table, r.peer, r.extra, TupleEvent(a), now).Some?
    && TakeTuple(r, a, conn, now).table.zones[a.netStart] == {}
  }

  ghost predicate EventsWantZones(r: Receiver, es: seq<EventTuple>, conn: U16, now: int)
    requires |r.table.zones| == NETWORKS
  {
    es != []
    && (EventsWantZones(r, es[..|es| - 1], conn, now)
        || EventWantsZones(TakeEvents(r, es[..|es| - 1], conn, now), es[|es| - 1], conn, now))
  }

  ghost predicate EventWantsZones(r: Receiver, e: EventTuple, conn: U16, now: int)
    requires |r.table.zones| == NETWORKS
  {
    var op := EventOp(r.table, r.peer, r.extra, e, now);
    op.Some? && op.value.Upsert? && TakeEvent(r, e, conn, now).table.zones[e.rangeStart] == {}
  }

  ghost function HandleRIRsp(r: Receiver, conn: U16, seqNo: U16, last: bool, nets: seq<Advert>, now: int): (out: ROut)
    requires |r.table.zones| == NETWORKS
    ensures |out.0.table.zones| == NETWORKS
  {
    if conn != r.localConn then (r, [])
    else if CheckSeq(r.remoteSeq, seqNo) != Expected then Unexpected(r, conn, seqNo, true, now)
    else
      var r1 := TakeTuples(r, nets, conn, now);
      var r2 := if last then r1.(state := RConnected, synced := true) else r1;
      (r2.(remoteSeq := Succ(r.remoteSeq)), [RIAck(conn, seqNo, TuplesWantZones(r, nets, conn, now))])
  }

  ghost function HandleRIUpd(r: Receiver, conn: U16, seqNo: U16, es: seq<EventTuple>, now: int): (out: ROut)
    requires |r.table.zones| == NETWORKS
    ensures |out.0.table.zones| == NETWORKS
  {
    if conn != r.localConn then (r, [])
    else if r.state == RUnconnected || r.state == WaitOpenRsp then
      (r.(state := WaitRIRsp, remoteSeq := 1), [RIReq(r.localConn, ALL_SUI)])
    else
      var r0 := if r.state == WaitTickleAck then r.(state := RConnected) else r;
      if CheckSeq(r.remoteSeq, seqNo) != Expected then Unexpected(r0, conn, seqNo, true, now)
      else if r.state == WaitRIRsp then
        (r.(remoteSeq := Succ(r.remoteSeq)), [RIAck(conn, seqNo, false), RIReq(r.localConn, ALL_SUI)])
      else
        (TakeEvents(r0, es, conn, now).(remoteSeq := Succ(r.remoteSeq)),
         [RIAck(conn, seqNo, EventsWantZones(r0, es, conn, now))])
  }

  /** A Router Down from the remote data sender. */
  ghost function HandleSenderDown(r: Receiver, conn: U16, seqNo: U16, now: int): (out: ROut)
    requires |r.table.zones| == NETWORKS
    ensures |out.0.table.zones| == NETWORKS
  {
    if conn != r.localConn then (r, [])
    else if CheckSeq(r.remoteSeq, seqNo) != Expected then Unexpected(r, conn, seqNo, false, now)
    else (DisconnectReceiver(r, now), [RIAck(conn, seqNo, false)])
  }

  function HandleTickleAck(r: Receiver, conn: U16): ROut {
    (if conn == r.localConn && r.state == WaitTickleAck then r.(state := RConnected) else r, [])
  }

  /** rtickerTasks and a Tickle before data; the clocks are inputs. */
  ghost function ReceiverTick(r: Receiver, silent: bool, retryDue: bool, exhausted: bool, now: int): (out: ROut)
    requires |r.table.zones| == NETWORKS
    ensures |out.0.table.zones| == NETWORKS
  {
    match r.state
    case RUnconnected => (r, [])
    case RConnected => if silent then (r.(state := WaitTickleAck), [Tickle(r.localConn)]) else (r, [])
    case _ =>
      if !retryDue then (r, [])
      else if exhausted then (DisconnectReceiver(r, now), [])
      else (r, [if r.state == WaitOpenRsp then OpenReq(r.localConn, ALL_SUI, 1)
                else if r.state == WaitRIRsp then RIReq(r.localConn, ALL_SUI)
                else Tickle(r.localConn)])
  }

  /** An extended ZI-Rsp fragment. */
  ghost function HandleZIRsp(r: Receiver, conn: U16, n: Net, total: nat, names: seq<string>, now: int): (out: ROut)
    requires |r.table.zones| == NETWORKS
    ensures |out.0.table.zones| == NETWORKS
  {
    if conn != r.localConn || names == [] || StoredAdvert(r.table, r.peer, n).None? then (r, [])
    else
      var pending := if n in r.zoneInfo then Some(r.zoneInfo[n].assembly) else None;
      match Assemble(pending, total, names)
      case Rejected => (r, [])
      case Incomplete(a) => (r.(zoneInfo := r.zoneInfo[n := Partial(a, conn)]), [])
      case Overflow => (r.(zoneInfo := r.zoneInfo - {n}), [])
      case Complete(all) =>
        (r.(zoneInfo := r.zoneInfo - {n}, table := r.table.(zones := r.table.zones[n := all - {""}])), [])
  }

  // ----- Whole runs -----

  datatype RInput =
    | GotOpenRsp(conn: U16, rate: int)
    | GotRIRsp(conn: U16, seqNo: U16, last: bool, nets: seq<Advert>)
    | GotRIUpd(conn: U16, seqNo: U16, events: seq<EventTuple>)
    | GotSenderDown(conn: U16, seqNo: U16)
    | GotTickleAck(conn: U16)
    | GotZIRsp(conn: U16, network: Net, total: nat, names: seq<string>)
    | RTicked(silent: bool, retryDue: bool, exhausted: bool)
    | Open
    | Close
    | TableChange(op: Op)

  ghost function ReceiverNext(r: Receiver, i: RInput, now: int): (out: ROut)
    requires |r.table.zones| == NETWORKS
    ensures |out.0.table.zones| == NETWORKS
  {
    match i
    case GotOpenRsp(c, rate) => HandleOpenRsp(r, c, rate, now)
    case GotRIRsp(c, q, last, nets) => HandleRIRsp(r, c, q, last, nets, now)
    case GotRIUpd(c, q, es) => HandleRIUpd(r, c, q, es, now)
    case GotSenderDown(c, q) => HandleSenderDown(r, c, q, now)
    case GotTickleAck(c) => HandleTickleAck(r, c)
    case GotZIRsp(c, n, total, names) => HandleZIRsp(r, c, n, total, names, now)
    case RTicked(silent, retryDue, exhausted) => ReceiverTick(r, silent, retryDue, exhausted, now)
    case Open => OpenReceiver(r)
    case Close => (DisconnectReceiver(r, now), [])
    case TableChange(op) => (r.(table := Next(r.table, op)), [])
  }

  predicate InRange(i: RInput, peer: Target) {
    match i
    case GotRIRsp(_, _, _, nets) => forall k :: 0 <= k < |nets| ==> nets[k].netEnd < 0xFFFF
    case GotRIUpd(_, _, es) => forall k :: 0 <= k < |es| ==> es[k].rangeEnd < 0xFFFF
    case TableChange(op) => Admissible(op) && Elsewhere(op, peer)
    case _ => true
  }

  ghost predicate OwnedRoutes(r: Receiver) {
    forall n: Net :: StoredAdvert(r.table, r.peer, n).Some? ==> n in r.learned && r.learned[n] == r.localConn
  }

  ghost predicate OwnedZones(r: Receiver) {
    forall n :: n in r.zoneInfo ==> r.zoneInfo[n].conn == r.localConn
  }

  /** Everything held for the peer came in a packet of the current connection, and
      the receiver is connected only on top of a complete snapshot. */
  ghost predicate Owned(r: Receiver) {
    && r.table.WellFormed() && r.peer.AurpPeer?
    && OwnedRoutes(r) && OwnedZones(r)
    && (r.state == RConnected || r.state == WaitTickleAck ==> r.synced)
  }

  lemma PerformRoutes(r: Receiver, op: Op, n: Net)
    requires |r.table.zones| == NETWORKS && Accepted(r.table, op) && OwnedRoutes(r)
    requires op.Upsert? || op.UpdateDistance? || op.DeleteRoute?
    requires op.target == r.peer && op.netStart == n
    ensures OwnedRoutes(Perform(r, op, n, r.localConn)) && SameConnection(r, Perform(r, op, n, r.localConn))
  {
    forall m: Net ensures StoredAdvert(Next(r.table, op), r.peer, m).Some? ==>
                            (m == n && !op.DeleteRoute?) || (m != n && StoredAdvert(r.table, r.peer, m).Some?) {
      PeerOpStored(r.table, op, r.peer, m);
    }
  }

  lemma PerformOwned(r: Receiver, e: EventTuple, now: int)
    requires Owned(r) && e.rangeEnd < 0xFFFF
    requires EventOp(r.table, r.peer, r.extra, e, now).Some?
    ensures var r' := Perform(r, EventOp(r.table, r.peer, r.extra, e, now).value, e.rangeStart, r.localConn);
            Owned(r') && SameConnection(r, r')
  {
    var op := EventOp(r.table, r.peer, r.extra, e, now).value;
    EventOpPeer(r.table, r.peer, r.extra, e, now);
    NextWellFormed(r.table, op);
    PerformRoutes(r, op, e.rangeStart);
    PerformZones(r, op, e.rangeStart);
  }

  lemma PerformZones(r: Receiver, op: Op, n: Net)
    requires |r.table.zones| == NETWORKS && OwnedZones(r)
    ensures OwnedZones(Perform(r, op, n, r.localConn)) && Perform(r, op, n, r.localConn).table == Next(r.table, op)
  {
  }

  lemma {:induction false} TakeTuplesOwned(r: Receiver, nets: seq<Advert>, now: int)
    requires Owned(r) && forall k :: 0 <= k < |nets| ==> nets[k].netEnd < 0xFFFF
    ensures Owned(TakeTuples(r, nets, r.localConn, now)) && SameConnection(r, TakeTuples(r, nets, r.localConn, now))
  {
    if nets != [] {
      var r1 := TakeTuples(r, nets[..|nets| - 1], r.localConn, now);
      TakeTuplesOwned(r, nets[..|nets| - 1], now);
      var e := TupleEvent(nets[|nets| - 1]);
      if EventOp(r1.table, r1.peer, r1.extra, e, now).Some? { PerformOwned(r1, e, now); }
    }
  }

  lemma {:induction false} TakeEventsOwned(r: Receiver, es: seq<EventTuple>, now: int)
    requires Owned(r) && forall k :: 0 <= k < |es| ==> es[k].rangeEnd < 0xFFFF
    ensures Owned(TakeEvents(r, es, r.localConn, now)) && SameConnection(r, TakeEvents(r, es, r.localConn, now))
  {
    if es != [] {
      var r1 := TakeEvents(r, es[..|es| - 1], r.localConn, now);
      TakeEventsOwned(r, es[..|es| - 1], now);
      var e := es[|es| - 1];
      if EventOp(r1.table, r1.peer, r1.extra, e, now).Some? { PerformOwned(r1, e, now); }
    }
  }

  lemma DisconnectOwned(r: Receiver, now: int)
    requires Owned(r)
    ensures Owned(DisconnectReceiver(r, now))
    ensures forall n: Net :: StoredAdvert(DisconnectReceiver(r, now).table, r.peer, n).None?
  {
    NextWellFormed(r.table, DeleteTarget(r.peer, now));
  }

  lemma RIRspOwned(r: Receiver, conn: U16, seqNo: U16, last: bool, nets: seq<Advert>, now: int)
    requires Owned(r) && forall k :: 0 <= k < |nets| ==> nets[k].netEnd < 0xFFFF
    ensures Owned(HandleRIRsp(r, conn, seqNo, last, nets, now).0)
    ensures HandleRIRsp(r, conn, seqNo, last, nets, now).0.peer == r.peer
  {
    UnexpectedOwned(r, conn, seqNo, true, now);
    TakeTuplesOwned(r, nets, now);
  }

  lemma UnexpectedOwned(r: Receiver, conn: U16, seqNo: U16, ackZones: bool, now: int)
    requires Owned(r)
    ensures Owned(Unexpected(r, conn, seqNo, ackZones, now).0)
            && Unexpected(r, conn, seqNo, ackZones, now).0.peer == r.peer
  {
    DisconnectOwned(r, now);
  }

  /** Ownership does not depend on the expected number, and a receiver may always fall
      back to waiting. */
  lemma WaitingOwned(r: Receiver, state: ReceiverState, seqNo: U16)
    requires Owned(r)
    requires state == r.state || (state == RConnected && r.state == WaitTickleAck) || state == WaitRIRsp
    ensures Owned(r.(state := state, remoteSeq := seqNo))
  {
  }

  lemma RIUpdOwned(r: Receiver, conn: U16, seqNo: U16, es: seq<EventTuple>, now: int)
    requires Owned(r) && forall k :: 0 <= k < |es| ==> es[k].rangeEnd < 0xFFFF
    ensures Owned(HandleRIUpd(r, conn, seqNo, es, now).0)
    ensures HandleRIUpd(r, conn, seqNo, es, now).0.peer == r.peer
  {
    if conn == r.localConn {
      if r.state == RUnconnected || r.state == WaitOpenRsp {
        WaitingOwned(r, WaitRIRsp, 1);
      } else {
        var r0 := if r.state == WaitTickleAck then r.(state := RConnected) else r;
        WaitingOwned(r, r0.state, r.remoteSeq);
        UnexpectedOwned(r0, conn, seqNo, true, now);
        WaitingOwned(r, r.state, Succ(r.remoteSeq));
        TakeEventsOwned(r0, es, now);
        WaitingOwned(TakeEvents(r0, es, conn, now), r0.state, Succ(r.remoteSeq));
      }
    }
  }

  lemma OpenRspOwned(r: Receiver, conn: U16, rate: int, now: int)
    requires Owned(r)
    ensures Owned(HandleOpenRsp(r, conn, rate, now).0) && HandleOpenRsp(r, conn, rate, now).0.peer == r.peer
  {
    DisconnectOwned(r, now);
  }

  lemma SenderDownOwned(r: Receiver, conn: U16, seqNo: U16, now: int)
    requires Owned(r)
    ensures Owned(HandleSenderDown(r, conn, seqNo, now).0) && HandleSenderDown(r, conn, seqNo, now).0.peer == r.peer
  {
    DisconnectOwned(r, now);
  }

  lemma TickOwned(r: Receiver, silent: bool, retryDue: bool, exhausted: bool, now: int)
    requires Owned(r)
    ensures var r' := ReceiverTick(r, silent, retryDue, exhausted, now).0; Owned(r') && r'.peer == r.peer
  {
    DisconnectOwned(r, now);
  }

  lemma ZIRspOwned(r: Receiver, conn: U16, n: Net, total: nat, names: seq<string>, now: int)
    requires Owned(r)
    ensures var r' := HandleZIRsp(r, conn, n, total, names, now).0; Owned(r') && r'.peer == r.peer
  {
    var r' := HandleZIRsp(r, conn, n, total, names, now).0;
    assert r'.table.routes == r.table.routes;
    forall m: Net ensures StoredAdvert(r'.table, r.peer, m) == StoredAdvert(r.table, r.peer, m) { }
  }

  lemma TableChangeOwned(r: Receiver, op: Op)
    requires Owned(r) && Admissible(op) && Elsewhere(op, r.peer)
    ensures Owned(r.(table := Next(r.table, op)))
  {
    NextWellFormed(r.table, op);
    forall n: Net ensures StoredAdvert(Next(r.table, op), r.peer, n).Some? ==>
                          StoredAdvert(r.table, r.peer, n).Some? { }
  }

  lemma StepOwned(r: Receiver, i: RInput, now: int)
    requires Owned(r) && InRange(i, r.peer)
    ensures Owned(ReceiverNext(r, i, now).0) && ReceiverNext(r, i, now).0.peer == r.peer
  {
    match i
    case GotRIRsp(c, q, last, nets) => RIRspOwned(r, c, q, last, nets, now);
    case GotRIUpd(c, q, es) => RIUpdOwned(r, c, q, es, now);
    case TableChange(op) => TableChangeOwned(r, op);
    case GotOpenRsp(c, rate) => OpenRspOwned(r, c, rate, now);
    case GotSenderDown(c, q) => SenderDownOwned(r, c, q, now);
    case GotZIRsp(c, n, total, names) => ZIRspOwned(r, c, n, total, names, now);
    case RTicked(silent, retryDue, exhausted) => TickOwned(r, silent, retryDue, exhausted, now);
    case Close => DisconnectOwned(r, now);
    case _ =>
  }

  // ----- Resets and refusals -----

  /** The connection is over: no route of the peer and no partial zone list is left,
      other routes are untouched, and the next connection has another ID. */
  ghost predicate WasReset(r: Receiver, r': Receiver) {
    && (forall n: Net :: RouteKey(r.peer.Key(), n) !in r'.table.routes)
    && (forall k :: k in r.table.routes && k.targetKey != r.peer.Key() ==>
          k in r'.table.routes && r'.table.routes[k] == r.table.routes[k])
    && r'.zoneInfo == map[] && r'.state == RUnconnected && !r'.synced
    && r'.localConn != r.localConn && r'.localConn != 0 && r'.remoteSeq == 1
  }

  lemma DisconnectResets(r: Receiver, now: int)
    requires r.table.WellFormed()
    ensures WasReset(r, DisconnectReceiver(r, now))
  {
    forall k ensures k in Next(r.table, DeleteTarget(r.peer, now)).routes <==>
                       k in r.table.routes && k.targetKey != r.peer.Key()
    {
      RemovalEffect(r.table, r.peer, 0, now, k);
    }
    forall k | k in r.table.routes && k.targetKey != r.peer.Key()
      ensures Next(r.table, DeleteTarget(r.peer, now)).routes[k] == r.table.routes[k]
    {
      RemovalEffect(r.table, r.peer, 0, now, k);
    }
  }

  /** A Router Down in sequence is acknowledged and ends the connection. */
  lemma RouterDownResets(r: Receiver, now: int)
    requires r.table.WellFormed()
    ensures var (r', out) := ReceiverNext(r, GotSenderDown(r.localConn, r.remoteSeq), now);
            WasReset(r, r') && out == [RIAck(r.localConn, r.remoteSeq, false)]
  {
    DisconnectResets(r, now);
  }

  /** So does a refusal of the connection, without an answer. */
  lemma RefusalResets(r: Receiver, code: int, now: int)
    requires r.table.WellFormed() && code < 0
    ensures var (r', out) := ReceiverNext(r, GotOpenRsp(r.localConn, code), now); WasReset(r, r') && out == []
  {
    DisconnectResets(r, now);
  }

  /** And so does the last retry, of whatever was asked. */
  lemma SilenceResets(r: Receiver, silent: bool, now: int)
    requires r.table.WellFormed() && (r.state == WaitOpenRsp || r.state == WaitRIRsp || r.state == WaitTickleAck)
    ensures var (r', out) := ReceiverNext(r, RTicked(silent, true, true), now); WasReset(r, r') && out == []
  {
    DisconnectResets(r, now);
  }

  /** And a sequenced packet that skips one number. */
  lemma SkippedResets(r: Receiver, seqNo: U16, last: bool, nets: seq<Advert>, es: seq<EventTuple>, now: int)
    requires r.table.WellFormed() && r.remoteSeq != 0
    requires seqNo == if r.remoteSeq == 0xFFFF then 1 else r.remoteSeq + 1
    ensures var (r', out) := ReceiverNext(r, GotRIRsp(r.localConn, seqNo, last, nets), now);
            WasReset(r, r') && out == []
    ensures var (r', out) := ReceiverNext(r, GotSenderDown(r.localConn, seqNo), now); WasReset(r, r') && out == []
    ensures r.state != RUnconnected && r.state != WaitOpenRsp ==>
              var (r', out) := ReceiverNext(r, GotRIUpd(r.localConn, seqNo, es), now); WasReset(r, r') && out == []
  {
    DisconnectResets(r, now);
    DisconnectResets(r.(state := RConnected), now);
  }

  /** A repeated packet is acknowledged again and nothing else: no tuple of it is
      applied. */
  lemma RepeatedAcknowledged(r: Receiver, seqNo: U16, last: bool, nets: seq<Advert>, now: int)
    requires r.table.WellFormed() && r.remoteSeq != 0
    requires seqNo == if r.remoteSeq == 1 then 0xFFFF else r.remoteSeq - 1
    ensures var (r', out) := ReceiverNext(r, GotRIRsp(r.localConn, seqNo, last, nets), now);
            r' == r && out == [RIAck(r.localConn, seqNo, true)]
    ensures ReceiverNext(r, GotSenderDown(r.localConn, seqNo), now) == (r, [RIAck(r.localConn, seqNo, false)])
  {
  }

  /** A number that is neither expected, nor the one before or after it, is of a stale
      packet: nothing happens. */
  lemma StaleIgnored(r: Receiver, seqNo: U16, last: bool, nets: seq<Advert>, es: seq<EventTuple>, now: int)
    requires r.table.WellFormed() && r.remoteSeq != 0 && seqNo != r.remoteSeq
    requires seqNo != if r.remoteSeq == 1 then 0xFFFF else r.remoteSeq - 1
    requires seqNo != if r.remoteSeq == 0xFFFF then 1 else r.remoteSeq + 1
    ensures ReceiverNext(r, GotRIRsp(r.localConn, seqNo, last, nets), now) == (r, [])
    ensures ReceiverNext(r, GotSenderDown(r.localConn, seqNo), now) == (r, [])
    ensures r.state == RConnected || r.state == WaitRIRsp ==>
              ReceiverNext(r, GotRIUpd(r.localConn, seqNo, es), now) == (r, [])
  {
  }

  /** An accepted Open-Req leads to a request for everything, from sequence number 1 on;
      what is known is kept until it is told anew. */
  lemma OpenAccepted(r: Receiver, rate: nat, now: int)
    requires r.table.WellFormed()
    ensures ReceiverNext(r, GotOpenRsp(r.localConn, rate), now) ==
              (r.(state := WaitRIRsp, remoteSeq := 1, synced := false),
               [RIReq(r.localConn, Sui(true, true, true, true))])
  {
  }

  /** A packet of another connection has no effect. */
  lemma ForeignIgnored(r: Receiver, i: RInput, now: int)
    requires r.table.WellFormed()
    requires match i
             case GotOpenRsp(c, _) => c != r.localConn
             case GotRIRsp(c, _, _, _) => c != r.localConn
             case GotRIUpd(c, _, _) => c != r.localConn
             case GotSenderDown(c, _) => c != r.localConn
             case GotTickleAck(c) => c != r.localConn
             case GotZIRsp(c, _, _, _) => c != r.localConn
             case _ => false
    ensures ReceiverNext(r, i, now) == (r, [])
  {
  }

  /** An update before the connection is open makes the receiver ask for everything,
      one before the snapshot is acknowledged, dropped and makes it ask again. */
  lemma EarlyUpdate(r: Receiver, seqNo: U16, es: seq<EventTuple>, now: int)
    requires r.table.WellFormed()
    ensures r.state == RUnconnected || r.state == WaitOpenRsp ==>
              ReceiverNext(r, GotRIUpd(r.localConn, seqNo, es), now) ==
              (r.(state := WaitRIRsp, remoteSeq := 1), [RIReq(r.localConn, Sui(true, true, true, true))])
    ensures r.state == WaitRIRsp && seqNo == r.remoteSeq ==>
              var (r', out) := ReceiverNext(r, GotRIUpd(r.localConn, seqNo, es), now);
              && r'.table == r.table && r'.state == WaitRIRsp
              && out == [RIAck(r.localConn, seqNo, false), RIReq(r.localConn, Sui(true, true, true, true))]
  {
  }

  /** What is asked again while an answer is awaited; nothing changes meanwhile. */
  lemma RetryAsksAgain(r: Receiver, silent: bool, now: int)
    requires r.table.WellFormed()
    ensures var (r', out) := ReceiverNext(r, RTicked(silent, true, false), now);
            match r.state
            case WaitOpenRsp => r' == r && out == [OpenReq(r.localConn, Sui(true, true, true, true), 1)]
            case WaitRIRsp => r' == r && out == [RIReq(r.localConn, Sui(true, true, true, true))]
            case WaitTickleAck => r' == r && out == [Tickle(r.localConn)]
            case RConnected =>
              if silent then r'.state == WaitTickleAck && out == [Tickle(r.localConn)] else r' == r && out == []
            case RUnconnected => r' == r && out == []
    ensures !silent || r.state != RConnected ==> ReceiverNext(r, RTicked(silent, false, false), now) == (r, [])
  {
  }

  /** Zone lists are taken only for networks learned from the peer, with one total
      throughout. */
  lemma ZoneListRefused(r: Receiver, n: Net, total: nat, names: seq<string>, now: int)
    requires r.table.WellFormed()
    ensures RouteKey(r.peer.Key(), n) !in r.table.routes || names == [] || total == 0 ==>
              ReceiverNext(r, GotZIRsp(r.localConn, n, total, names), now).0 == r
    ensures n in r.zoneInfo && r.zoneInfo[n].assembly.total != 0 && r.zoneInfo[n].assembly.total != total ==>
              ReceiverNext(r, GotZIRsp(r.localConn, n, total, names), now).0 == r
  {
  }

  /** And more names than the total are not published. */
  lemma ZoneListTooLong(r: Receiver, n: Net, total: nat, names: seq<string>, now: int)
    requires r.table.WellFormed()
    ensures RouteKey(r.peer.Key(), n) in r.table.routes && total > 0 && n !in r.zoneInfo
            && |NamesIn(names) - {""}| > total ==>
              ReceiverNext(r, GotZIRsp(r.localConn, n, total, names), now).0.table == r.table
  {
    assert {} + (set z | z in names && z != "") == NamesIn(names) - {""};
  }

  /** A tuple in order and near enough is stored, and the acknowledgement asks for zones
      exactly if its network has none; a partial list is then kept, and else dropped. Any
      other tuple is acknowledged and has no effect. */
  lemma TupleAcknowledged(r: Receiver, last: bool, a: Advert, now: int)
    requires r.table.WellFormed() && a.netEnd < 0xFFFF
    ensures var (r', out) := ReceiverNext(r, GotRIRsp(r.localConn, r.remoteSeq, last, [a]), now);
            var n := a.netStart;
            && r'.remoteSeq == Succ(r.remoteSeq) && r'.state == (if last then RConnected else r.state)
            && (r'.synced <==> last || r.synced)
            && if n <= a.netEnd && (a.extended || n == a.netEnd) && a.distance + 1 + r.extra <= 15 then
                 && out == [RIAck(r.localConn, r.remoteSeq, r'.table.zones[n] == {})]
                 && StoredAdvert(r'.table, r.peer, n) == Some(a.(distance := a.distance + 1 + r.extra))
                 && (n in r'.zoneInfo <==> r'.table.zones[n] == {}) && n in r'.learned && r'.learned[n] == r.localConn
               else
                 out == [RIAck(r.localConn, r.remoteSeq, false)] && r'.table == r.table && r'.zoneInfo == r.zoneInfo
  {
    TupleTaken(r, a, now);
    TupleStored(r, a, now);
  }

  lemma TupleStored(r: Receiver, a: Advert, now: int)
    requires r.table.WellFormed() && a.netEnd < 0xFFFF
    ensures var r' := TakeTuple(r, a, r.localConn, now);
            var n := a.netStart;
            var wanted := TupleWantsZones(r, a, r.localConn, now);
            && SameConnection(r, r')
            && if n <= a.netEnd && (a.extended || n == a.netEnd) && a.distance + 1 + r.extra <= 15 then
                 && (wanted <==> r'.table.zones[n] == {})
                 && StoredAdvert(r'.table, r.peer, n) == Some(a.(distance := a.distance + 1 + r.extra))
                 && (n in r'.zoneInfo <==> r'.table.zones[n] == {}) && n in r'.learned && r'.learned[n] == r.localConn
               else !wanted && r'.table == r.table && r'.zoneInfo == r.zoneInfo
  {
    EventMeans(r.table, r.peer, r.extra, TupleEvent(a), now);
    var op := EventOp(r.table, r.peer, r.extra, TupleEvent(a), now);
    if op.Some? { RecordedMeans(r.(table := Next(r.table, op.value)), op.value, a.netStart); }
  }

  /** An event on an established connection is applied and acknowledged, and the
      acknowledgement asks for zones exactly if the event stored a range of another shape
      for a network without zones. Whatever partial zone list there was is kept only
      then, or if the event says nothing. */
  lemma EventAcknowledged(r: Receiver, e: EventTuple, now: int)
    requires r.table.WellFormed() && e.rangeEnd < 0xFFFF && (r.state == RConnected || r.state == WaitTickleAck)
    ensures var (r', out) := ReceiverNext(r, GotRIUpd(r.localConn, r.remoteSeq, [e]), now);
            var n := e.rangeStart;
            var key := RouteKey(r.peer.Key(), n);
            var ordered := n <= e.rangeEnd && (e.extended || n == e.rangeEnd);
            var near := e.distance + 1 + r.extra <= 15;
            var same := e.code == NDC && key in r.table.routes && r.table.routes[key].extended == e.extended
                        && r.table.routes[key].netEnd == e.rangeEnd;
            var stored := (e.code == NA || e.code == NDC) && ordered && near;
            var silent := e.code == NullEvent || e.code == ZC || ((e.code == NA || e.code == NDC) && !ordered);
            && r'.state == RConnected && r'.remoteSeq == Succ(r.remoteSeq)
            && EventEffect(r.table, r'.table, r.peer, r.extra, e)
            && out == [RIAck(r.localConn, r.remoteSeq, stored && !same && r'.table.zones[n] == {})]
            && (silent ==> r'.zoneInfo == r.zoneInfo)
            && (!silent ==> (n in r'.zoneInfo <==> stored && !same && r'.table.zones[n] == {}))
            && (stored ==> n in r'.learned && r'.learned[n] == r.localConn)
  {
    var r0 := r.(state := RConnected);
    EventTaken(r0, e, now);
    EventStoredAt(r0, e, now);
    EventMeans(r.table, r.peer, r.extra, e, now);
  }

  lemma EventTaken(r: Receiver, e: EventTuple, now: int)
    requires |r.table.zones| == NETWORKS
    ensures TakeEvents(r, [e], r.localConn, now) == TakeEvent(r, e, r.localConn, now)
    ensures EventsWantZones(r, [e], r.localConn, now) <==> EventWantsZones(r, e, r.localConn, now)
  {
    var none: seq<EventTuple> := [];
    assert [e][..0] == none && TakeEvents(r, none, r.localConn, now) == r
           && !EventsWantZones(r, none, r.localConn, now);
  }

  lemma EventStoredAt(r: Receiver, e: EventTuple, now: int)
    requires r.table.WellFormed() && e.rangeEnd < 0xFFFF
    ensures var r' := TakeEvent(r, e, r.localConn, now);
            var n := e.rangeStart;
            var key := RouteKey(r.peer.Key(), n);
            var ordered := n <= e.rangeEnd && (e.extended || n == e.rangeEnd);
            var near := e.distance + 1 + r.extra <= 15;
            var same := e.code == NDC && key in r.table.routes && r.table.routes[key].extended == e.extended
                        && r.table.routes[key].netEnd == e.rangeEnd;
            var stored := (e.code == NA || e.code == NDC) && ordered && near;
            var silent := e.code == NullEvent || e.code == ZC || ((e.code == NA || e.code == NDC) && !ordered);
            && SameConnection(r, r') && r'.table == ApplyEvent(r.table, r.peer, r.extra, e, now)
            && (EventWantsZones(r, e, r.localConn, now) <==> stored && !same && r'.table.zones[n] == {})
            && (silent ==> r'.zoneInfo == r.zoneInfo)
            && (!silent ==> (n in r'.zoneInfo <==> stored && !same && r'.table.zones[n] == {}))
            && (stored ==> n in r'.learned && r'.learned[n] == r.localConn)
  {
    var op := EventOp(r.table, r.peer, r.extra, e, now);
    if op.Some? { RecordedMeans(r.(table := Next(r.table, op.value)), op.value, e.rangeStart); }
  }

  /** What is noted of an operation: storing a range opens a partial list if its network
      has no zones, and everything else drops it. */
  lemma RecordedMeans(r: Receiver, op: Op, n: Net)
    requires |r.table.zones| == NETWORKS && (op.Upsert? || op.UpdateDistance? || op.DeleteRoute?)
    ensures var r' := Recorded(r, op, n, r.localConn);
            && SameConnection(r, r') && r'.table == r.table
            && (n in r'.zoneInfo <==> op.Upsert? && r.table.zones[n] == {})
            && (n in r'.learned <==> !op.DeleteRoute?)
            && (!op.DeleteRoute? ==> r'.learned[n] == r.localConn)
  {
  }

  lemma TupleTaken(r: Receiver, a: Advert, now: int)
    requires |r.table.zones| == NETWORKS
    ensures TakeTuples(r, [a], r.localConn, now) == TakeTuple(r, a, r.localConn, now)
    ensures TuplesWantZones(r, [a], r.localConn, now) <==> TupleWantsZones(r, a, r.localConn, now)
  {
    var none: seq<Advert> := [];
    assert [a][..0] == none && TakeTuples(r, none, r.localConn, now) == r
           && !TuplesWantZones(r, none, r.localConn, now);
  }

  datatype RStep = RStep(input: RInput, now: int)

  ghost function ReceiverRun(r: Receiver, steps: seq<RStep>): (r': Receiver)
    requires |r.table.zones| == NETWORKS
    ensures |r'.table.zones| == NETWORKS
  {
    if steps == [] then r
    else ReceiverNext(ReceiverRun(r, steps[..|steps| - 1]), steps[|steps| - 1].input, steps[|steps| - 1].now).0
  }

  /** A peer's receiver as it is made, on a table that may hold other targets' routes. */
  function NewReceiver(table: Table, peer: Target, extra: nat, localConn: U16): Receiver {
    Receiver(RUnconnected, localConn, 1, table, peer, extra, map[], map[], false)
  }

  /** Receiver ownership, over every run of a new receiver: nothing learned on an
      earlier connection outlives it, and being connected rests on a whole snapshot. */
  lemma OwnedAlways(table: Table, peer: Target, extra: nat, localConn: U16, steps: seq<RStep>)
    requires table.WellFormed() && peer.AurpPeer? && forall n: Net :: StoredAdvert(table, peer, n).None?
    requires forall k :: 0 <= k < |steps| ==> InRange(steps[k].input, peer)
    ensures var r := ReceiverRun(NewReceiver(table, peer, extra, localConn), steps);
            && (forall n: Net :: StoredAdvert(r.table, peer, n).Some? ==> n in r.learned && r.learned[n] == r.localConn)
            && (forall n :: n in r.zoneInfo ==> r.zoneInfo[n].conn == r.localConn)
            && (r.state == RConnected || r.state == WaitTickleAck ==> r.synced)
  {
    var r := NewReceiver(table, peer, extra, localConn);
    assert Owned(r);
    OwnedRun(r, steps);
  }

  lemma {:induction false} OwnedRun(r: Receiver, steps: seq<RStep>)
    requires Owned(r) && forall k :: 0 <= k < |steps| ==> InRange(steps[k].input, r.peer)
    ensures Owned(ReceiverRun(r, steps)) && ReceiverRun(r, steps).peer == r.peer
  {
    if steps != [] {
      OwnedRun(r, steps[..|steps| - 1]);
      StepOwned(ReceiverRun(r, steps[..|steps| - 1]), steps[|steps| - 1].input, steps[|steps| - 1].now);
    }
  }
}

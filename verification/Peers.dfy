/** An AURP peer as an object whose handlers update its fields
    (router/aurp_peer.go, with the counters of aurp/transport.go). Every handler
    refines the function of PeerSpec or ReceiverSpec of the same name. Instants,
    and whether timers have run out, are parameters. */
module Peers {
  import opened Routes
  import opened RouteSpec
  import opened Observers
  import opened Replication
  import opened Chunking
  import opened PeerSpec
  import opened ZoneAssembly
  import R = ReceiverSpec
  import opened RouteTables

  method ToSlice(names: set<string>) returns (list: seq<string>)
    ensures NamesIn(list) == names
  {
    list := [];
    var todo := names;
    while todo != {}
      invariant todo <= names && NamesIn(list) == names - todo
      decreases todo
    {
      var z :| z in todo;
      assert NamesIn(list + [z]) == NamesIn(list) + {z};
      list := list + [z];
      todo := todo - {z};
    }
  }

  class AurpPeer {
    // The data sender's half.
    var sstate: SenderState
    var localSeq: U16
    var remoteConn: U16
    var lastSent: Option<Packet>
    var restartProbe: bool
    var pendingRIRsp: seq<seq<Advert>>
    var pendingRIUpd: seq<seq<EventTuple>>
    var pendingEvents: Pending
    var sui: Sui
    const budget: nat

    // The data receiver's half.
    var rstate: R.ReceiverState
    var localConn: U16
    var remoteSeq: U16
    var zoneInfo: map<Net, R.Partial>
    const table: RouteTable
    const self: Target
    const extra: nat
    var loopDisabled: bool
    ghost var learned: map<Net, U16>
    ghost var synced: bool

    ghost function Snd(): Sender
      reads this`sstate, this`localSeq, this`remoteConn, this`lastSent, this`restartProbe, this`pendingRIRsp,
            this`pendingRIUpd,
            this`pendingEvents, this`sui
    {
      Sender(sstate, localSeq, remoteConn, lastSent, restartProbe, pendingRIRsp, pendingRIUpd, pendingEvents,
             sui, budget)
    }

    constructor (table: RouteTable, self: Target, extra: nat, budget: nat, localConn: U16)
      requires budget >= 6
      ensures Snd() == NewSender(budget)
      ensures this.table == table && this.self == self && this.extra == extra && this.localConn == localConn
      ensures |table.byClass| == 3 ==> Rcv() == R.NewReceiver(table.Abs(), self, extra, localConn)
    {
      this.table, this.self, this.extra, this.budget := table, self, extra, budget;
      sstate, localSeq, remoteConn, lastSent, restartProbe := SUnconnected, 1, 0, None, false;
      pendingRIRsp, pendingRIUpd, pendingEvents, sui := [], [], map[], Sui(false, false, false, false);
      rstate, this.localConn, remoteSeq, zoneInfo := R.RUnconnected, localConn, 1, map[];
      learned, synced, loopDisabled := map[], false, false;
    }

    // ----- Sending -----

    method DisconnectSender()
      modifies this`sstate, this`localSeq, this`remoteConn, this`lastSent, this`restartProbe, this`pendingRIRsp,
               this`pendingRIUpd,
               this`pendingEvents
      ensures Snd() == PeerSpec.DisconnectSender(old(Snd()))
    {
      localSeq := 1;
      remoteConn := 0;
      pendingRIRsp := [];
      pendingRIUpd := [];
      lastSent := None;
      restartProbe := false;
      pendingEvents := map[];
      sstate := SUnconnected;
    }

    method SendNextRIRsp(advance: bool) returns (out: seq<Packet>)
      requires pendingRIRsp != []
      modifies this`localSeq, this`pendingRIRsp, this`lastSent, this`sstate
      ensures (Snd(), out) == PeerSpec.SendNextRIRsp(if advance then Advance(old(Snd())) else old(Snd()))
    {
      if advance {
        localSeq := Succ(localSeq);
      }
      var chunk := pendingRIRsp[0];
      pendingRIRsp := pendingRIRsp[1..];
      var pkt := RIRsp(remoteConn, localSeq, |pendingRIRsp| == 0, chunk);
      lastSent := Some(pkt);
      out := [pkt];
      sstate := WaitRIRspAck;
    }

    method SendNextRIUpd(advance: bool) returns (out: seq<Packet>)
      requires pendingRIUpd != []
      modifies this`localSeq, this`pendingRIUpd, this`lastSent, this`sstate
      ensures (Snd(), out) == PeerSpec.SendNextRIUpd(if advance then Advance(old(Snd())) else old(Snd()))
    {
      if advance {
        localSeq := Succ(localSeq);
      }
      var chunk := pendingRIUpd[0];
      pendingRIUpd := pendingRIUpd[1..];
      var pkt := RIUpd(remoteConn, localSeq, chunk);
      lastSent := Some(pkt);
      out := [pkt];
      sstate := WaitRIUpdAck;
    }

    /** `answered` tells the caller to open the receiver half if that is unconnected. */
    method HandleOpenReq(conn: U16, flags: Sui, version: nat, rate: nat) returns (out: seq<Packet>, answered: bool)
      modifies this`sstate, this`localSeq, this`remoteConn, this`lastSent, this`restartProbe, this`sui
      ensures (Snd(), out) == PeerSpec.HandleOpenReq(old(Snd()), conn, flags, version, rate)
      ensures answered <==> out != [] && out[0].OpenRsp?
    {
      if sstate != SUnconnected {
        if remoteConn == 0 {
          return [], false;
        }
        if conn == remoteConn {
          if sstate != SConnected {
            return [], false;
          }
        } else {
          if sstate != SConnected {
            return [], false;
          }
          localSeq := Succ(localSeq);
          restartProbe := true;
          var probe := RIUpd(remoteConn, localSeq, [NULL_EVENT]);
          lastSent := Some(probe);
          sstate := WaitRIUpdAck;
          return [probe], false;
        }
      }
      remoteConn := conn;
      sui := flags;
      var rsp := if version != 1 then OpenRsp(remoteConn, INVALID_VERSION) else OpenRsp(remoteConn, rate);
      if rsp.rate >= 0 {
        sstate := SConnected;
      }
      return [rsp], true;
    }

    /** The tuples of the exported routes. */
    method ExportedTuples(now: int) returns (nets: seq<Advert>)
      requires table.Valid()
      ensures forall a :: a in nets ==> Exports(table.Abs(), now, a)
      ensures table.Abs().Disjoint() ==> IsSnapshot(table.Abs(), now, nets)
    {
      var routes := table.ExportedRoutes(now);
      nets := [];
      for i := 0 to |routes|
        invariant |nets| == i
        invariant forall j :: 0 <= j < i ==> nets[j] == AdvertOf(routes[j])
      {
        var r := routes[i];
        nets := nets + [Advert(r.extended, r.key.netStart, r.netEnd, r.distance)];
      }
      forall a | a in nets ensures Exports(table.Abs(), now, a) {
        var j :| 0 <= j < |nets| && nets[j] == a;
        assert IsExported(table.Abs(), now, routes[j]) by { assert routes[j] in routes; }
      }
      if table.Abs().Disjoint() {
        forall a | Exports(table.Abs(), now, a) ensures a in nets {
          var r :| IsExported(table.Abs(), now, r) && AdvertOf(r) == a;
          var j :| 0 <= j < |routes| && routes[j] == r;
          assert nets[j] == a;
        }
      }
    }

    /** The snapshot is the table's: all that is exported, if the ranges are disjoint. */
    method HandleRIReq(conn: U16, flags: Sui, now: int) returns (out: seq<Packet>, ghost exported: seq<Advert>)
      requires budget >= 6 && table.Valid()
      modifies this`localSeq, this`pendingRIRsp, this`lastSent, this`sstate, this`sui
      ensures (Snd(), out) == PeerSpec.HandleRIReq(old(Snd()), conn, flags, exported)
      ensures out != [] ==>
                && (forall a :: a in exported ==> Exports(table.Abs(), now, a))
                && (table.Abs().Disjoint() ==> IsSnapshot(table.Abs(), now, exported))
    {
      out, exported := [], [];
      if remoteConn != 0 && conn != remoteConn {
        return;
      }
      if sstate != SConnected {
        return;
      }
      sui := flags;
      exported := QueueSnapshot(now);
      localSeq := 1;
      assert Snd() == old(Snd()).(sui := flags, localSeq := 1, pendingRIRsp := NetworkChunks(exported, budget));
      out := SendNextRIRsp(false);
    }

    /** The chunks of what the table exports now. */
    method QueueSnapshot(now: int) returns (ghost exported: seq<Advert>)
      requires budget >= 6 && table.Valid()
      modifies this`pendingRIRsp
      ensures pendingRIRsp == NetworkChunks(exported, budget)
      ensures forall a :: a in exported ==> Exports(table.Abs(), now, a)
      ensures table.Abs().Disjoint() ==> IsSnapshot(table.Abs(), now, exported)
    {
      var nets := ExportedTuples(now);
      exported := nets;
      if nets == [] {
        pendingRIRsp := [[]];
      } else {
        var chunks := Chunk(nets, NetworkTupleSize, budget);
        pendingRIRsp := chunks.value;
      }
    }

    /** `resumed` tells the caller to open the receiver half if that is unconnected. */
    method HandleRIAck(conn: U16, seqNo: U16) returns (out: seq<Packet>, resumed: bool)
      modifies this`sstate, this`localSeq, this`remoteConn, this`lastSent, this`restartProbe, this`pendingRIRsp,
               this`pendingRIUpd,
               this`pendingEvents
      ensures (Snd(), out) == PeerSpec.HandleRIAck(old(Snd()), conn, seqNo)
      ensures resumed <==> old(Snd()).KnowsConn(conn) && seqNo == old(localSeq) && sstate == SConnected
                           && !(old(sstate) == WaitRIUpdAck && old(restartProbe))
    {
      out, resumed := [], false;
      if (remoteConn != 0 && conn != remoteConn) || seqNo != localSeq {
        return;
      }
      if sstate == WaitRIUpdAck && restartProbe {
        restartProbe := false;
        lastSent := None;
        sstate := SConnected;
        return;
      }
      if sstate == WaitRDAck {
        DisconnectSender();
        return;
      }
      if sstate == WaitRIRspAck && |pendingRIRsp| > 0 {
        out := SendNextRIRsp(true);
        return;
      }
      if sstate == WaitRIUpdAck && |pendingRIUpd| > 0 {
        out := SendNextRIUpd(true);
        return;
      }
      sstate := SConnected;
      resumed := true;
    }

    method TakePendingEvents() returns (es: seq<EventTuple>)
      modifies this`pendingEvents
      ensures es == Events(old(pendingEvents)) && pendingEvents == map[]
    {
      var changes := pendingEvents;
      pendingEvents := map[];
      es := EventsForPendingChanges(changes);
    }

    method StickerTasks(updateDue: bool, retryDue: bool, exhausted: bool) returns (out: seq<Packet>)
      requires budget >= 6
      modifies this`sstate, this`localSeq, this`remoteConn, this`lastSent, this`restartProbe, this`pendingRIRsp,
               this`pendingRIUpd,
               this`pendingEvents
      ensures (Snd(), out) == SenderTick(old(Snd()), updateDue, retryDue, exhausted)
    {
      out := [];
      match sstate
      case SUnconnected =>
      case SConnected =>
        if updateDue {
          var es := TakePendingEvents();
          if |es| > 0 {
            var chunks := Chunk(es, EventTupleSize, budget);
            pendingRIUpd := chunks.value;
            out := SendNextRIUpd(true);
          }
        }
      case WaitRDAck =>
        if retryDue {
          if lastSent.None? || exhausted {
            DisconnectSender();
          } else {
            out := [lastSent.value];
          }
        }
      case _ =>
        if retryDue && lastSent.Some? {
          if exhausted {
            if restartProbe {
              DisconnectSender();
            } else {
              sstate := SUnconnected;
            }
          } else {
            out := [lastSent.value];
          }
        }
    }

    /** The probe of rtickerTasks while the receiver half is unconnected. */
    method ProbeSender() returns (out: seq<Packet>)
      modifies this`sstate, this`localSeq, this`lastSent
      ensures (Snd(), out) == PeerSpec.ProbeSender(old(Snd()))
    {
      out := [];
      if sstate == SConnected {
        localSeq := Succ(localSeq);
        lastSent := Some(RIUpd(remoteConn, localSeq, [NULL_EVENT]));
        out := [lastSent.value];
        sstate := WaitRIUpdAck;
      }
    }

    method StartSenderShutdown() returns (out: seq<Packet>)
      modifies this`sstate, this`localSeq, this`lastSent
      ensures (Snd(), out) == StartShutdown(old(Snd()))
    {
      out := [];
      if sstate == SConnected {
        localSeq := Succ(localSeq);
        lastSent := Some(RD(remoteConn, localSeq, NORMAL_CLOSE));
        out := [lastSent.value];
        sstate := WaitRDAck;
      }
    }

    /** A best-route notification of the route table. */
    method QueueBestNetworkTransition(before: Option<Route>, after: Option<Route>)
      modifies this`pendingEvents
      ensures pendingEvents == if sstate == SUnconnected then old(pendingEvents)
                               else Queue(old(pendingEvents), sui, before, after)
    {
      if sstate == SUnconnected || (before.None? && after.None?) {
        return;
      }
      var n := if before.Some? then before.value.key.netStart else after.value.key.netStart;
      var change := if n in pendingEvents then pendingEvents[n].(after := after) else Change(before, after);
      var event := EventFor(change.before, change.after);
      if event.None? || !Allows(sui, event.value.code) {
        pendingEvents := pendingEvents - {n};
      } else {
        pendingEvents := pendingEvents[n := change];
      }
    }

    method HearNotes(notes: seq<Note>)
      modifies this`pendingEvents
      ensures Snd() == PeerSpec.HearNotes(old(Snd()), notes)
    {
      for i := 0 to |notes|
        invariant Snd() == PeerSpec.HearNotes(old(Snd()), notes[..i])
      {
        QueueBestNetworkTransition(NoteBefore(notes[i]), NoteAfter(notes[i]));
        assert notes[..i + 1][..i] == notes[..i];
      }
      assert notes[..|notes|] == notes;
    }

    // ----- Receiving -----

    ghost function Rcv(): R.Receiver
      requires |table.byClass| == 3
      reads this`rstate, this`localConn, this`remoteSeq, this`zoneInfo, this`learned, this`synced, table`byClass,
            table.zoneNames
    {
      R.Receiver(rstate, localConn, remoteSeq, table.Abs(), self, extra, zoneInfo, learned, synced)
    }

    /** Insert or change the peer's route as an event asks. */
    method ApplyToTable(e: EventTuple, now: int) returns (op: Option<Op>)
      requires table.Valid() && e.rangeEnd < 0xFFFF
      modifies table, table.candidates, table.zoneNames
      ensures table.Valid()
      ensures op == EventOp(old(table.Abs()), self, extra, e, now)
      ensures table.Abs() == ApplyEvent(old(table.Abs()), self, extra, e, now)
      ensures EventEffect(old(table.Abs()), table.Abs(), self, extra, e)
    {
      EventMeans(table.Abs(), self, extra, e, now);
      op := Perform(e, now);
    }

    method Perform(e: EventTuple, now: int) returns (op: Option<Op>)
      requires table.Valid() && e.rangeEnd < 0xFFFF
      modifies table, table.candidates, table.zoneNames
      ensures table.Valid()
      ensures op == EventOp(old(table.Abs()), self, extra, e, now)
      ensures table.Abs() == ApplyEvent(old(table.Abs()), self, extra, e, now)
    {
      op := None;
      if e.code == NullEvent || e.code == ZC {
        return;
      }
      var existing := table.Find(self, e.rangeStart);
      var distance := Weighted(e.distance, extra);
      if e.code == NA || e.code == NDC {
        if e.rangeStart > e.rangeEnd || (!e.extended && e.rangeStart != e.rangeEnd)
           || (e.code == NA && distance.None?) {
          return;
        }
        if distance.Some? {
          if e.code == NDC && existing.Some? && existing.value.extended == e.extended
             && existing.value.netEnd == e.rangeEnd {
            op := Some(UpdateDistance(self, e.rangeStart, distance.value, now));
            var _, _ := table.UpdateDistance(self, e.rangeStart, distance.value, now);
          } else {
            op := Some(Upsert(self, e.extended, e.rangeStart, e.rangeEnd, distance.value, now));
            var _, _ := table.UpsertRoute(self, e.extended, e.rangeStart, e.rangeEnd, distance.value, now, map[]);
          }
          return;
        }
      }
      if existing.Some? {
        op := Some(DeleteRoute(self, e.rangeStart, now));
        var _, _ := table.DeleteRoute(self, e.rangeStart, now);
      }
    }

    /** Record an operation made for a packet, and whether its network now wants
        zone information. */
    method NoteOperation(op: Op, n: Net, conn: U16) returns (wanted: bool)
      requires table.Valid()
      modifies this`zoneInfo, this`learned
      ensures Rcv() == R.Recorded(old(Rcv()), op, n, conn)
      ensures wanted <==> op.Upsert? && table.zoneNames[n] == {}
    {
      wanted := false;
      if op.Upsert? {
        learned := learned[n := conn];
        if table.zoneNames[n] != {} {
          zoneInfo := zoneInfo - {n};
        } else {
          wanted := true;
          if n !in zoneInfo {
            zoneInfo := zoneInfo[n := R.Partial(Assembly(0, {}), conn)];
          }
        }
      } else {
        learned := if op.UpdateDistance? then learned[n := conn] else learned - {n};
        zoneInfo := zoneInfo - {n};
      }
    }

    /** One network of an RI-Rsp. */
    method TakeTuple(a: Advert, conn: U16, now: int) returns (wanted: bool)
      requires table.Valid() && a.netEnd < 0xFFFF
      modifies this`zoneInfo, this`learned, table, table.candidates, table.zoneNames
      ensures table.Valid()
      ensures Rcv() == R.TakeTuple(old(Rcv()), a, conn, now)
      ensures wanted <==> R.TupleWantsZones(old(Rcv()), a, conn, now)
    {
      wanted := false;
      var op := ApplyToTable(TupleEvent(a), now);
      if op.Some? {
        wanted := NoteOperation(op.value, a.netStart, conn);
      }
    }

    method TakeTuples(nets: seq<Advert>, conn: U16, now: int) returns (wanted: bool)
      requires table.Valid() && forall k :: 0 <= k < |nets| ==> nets[k].netEnd < 0xFFFF
      modifies this`zoneInfo, this`learned, table, table.candidates, table.zoneNames
      ensures table.Valid()
      ensures Rcv() == R.TakeTuples(old(Rcv()), nets, conn, now)
      ensures wanted <==> R.TuplesWantZones(old(Rcv()), nets, conn, now)
    {
      wanted := false;
      ghost var r := Rcv();
      for i := 0 to |nets|
        invariant table.Valid()
        invariant Rcv() == R.TakeTuples(r, nets[..i], conn, now)
        invariant wanted <==> R.TuplesWantZones(r, nets[..i], conn, now)
      {
        var wants := TakeTuple(nets[i], conn, now);
        wanted := wanted || wants;
        assert nets[..i + 1][..i] == nets[..i];
      }
      assert nets[..|nets|] == nets;
    }

    /** One event of an RI-Upd. */
    method TakeEvent(e: EventTuple, conn: U16, now: int) returns (wanted: bool)
      requires table.Valid() && e.rangeEnd < 0xFFFF
      modifies this`zoneInfo, this`learned, table, table.candidates, table.zoneNames
      ensures table.Valid()
      ensures Rcv() == R.TakeEvent(old(Rcv()), e, conn, now)
      ensures wanted <==> R.EventWantsZones(old(Rcv()), e, conn, now)
    {
      wanted := false;
      var op := ApplyToTable(e, now);
      if op.Some? {
        wanted := NoteOperation(op.value, e.rangeStart, conn);
      } else if e.code == ND || e.code == NRC
                || ((e.code == NA || e.code == NDC) && ValidRange(e.extended, e.rangeStart, e.rangeEnd)) {
        zoneInfo := zoneInfo - {e.rangeStart};
      }
    }

    method TakeEvents(es: seq<EventTuple>, conn: U16, now: int) returns (wanted: bool)
      requires table.Valid() && forall k :: 0 <= k < |es| ==> es[k].rangeEnd < 0xFFFF
      modifies this`zoneInfo, this`learned, table, table.candidates, table.zoneNames
      ensures table.Valid()
      ensures Rcv() == R.TakeEvents(old(Rcv()), es, conn, now)
      ensures wanted <==> R.EventsWantZones(old(Rcv()), es, conn, now)
    {
      wanted := false;
      ghost var r := Rcv();
      for i := 0 to |es|
        invariant table.Valid()
        invariant Rcv() == R.TakeEvents(r, es[..i], conn, now)
        invariant wanted <==> R.EventsWantZones(r, es[..i], conn, now)
      {
        var wants := TakeEvent(es[i], conn, now);
        wanted := wanted || wants;
        assert es[..i + 1][..i] == es[..i];
      }
      assert es[..|es|] == es;
    }

    method DisconnectReceiver(now: int)
      requires table.Valid()
      modifies this`rstate, this`localConn, this`remoteSeq, this`zoneInfo, this`learned, this`synced,
               table, table.candidates, table.zoneNames
      ensures table.Valid()
      ensures Rcv() == R.DisconnectReceiver(old(Rcv()), now)
    {
      var _ := table.DeleteTarget(self, now);
      remoteSeq := 1;
      localConn := Succ(localConn);
      zoneInfo := map[];
      rstate := R.RUnconnected;
      learned, synced := map[], false;
    }

    method HandleTickle(conn: U16) returns (out: seq<Packet>)
      ensures out == TickleReply(Snd(), conn)
    {
      if remoteConn != 0 && conn != remoteConn {
        return [];
      }
      return [TickleAck(remoteConn)];
    }

    method CloseLoopedSender() returns (out: seq<Packet>)
      modifies this`sstate, this`localSeq, this`remoteConn, this`lastSent, this`restartProbe, this`pendingRIRsp,
               this`pendingRIUpd, this`pendingEvents
      ensures (Snd(), out) == LoopDetected(old(Snd()))
    {
      out := [];
      if sstate != SUnconnected {
        localSeq := Succ(localSeq);
        out := [RD(remoteConn, localSeq, ROUTING_LOOP)];
      }
      DisconnectSender();
    }

    /** A confirmed routing loop closes both halves, once and for all. */
    method HandleConfirmedRoutingLoop(now: int) returns (out: seq<Packet>)
      requires table.Valid()
      modifies this, table, table.candidates, table.zoneNames
      ensures table.Valid() && loopDisabled
      ensures (Snd(), out) == if old(loopDisabled) then (old(Snd()), []) else LoopDetected(old(Snd()))
      ensures Rcv() == if old(loopDisabled) then old(Rcv()) else R.DisconnectReceiver(old(Rcv()), now)
    {
      if loopDisabled {
        return [];
      }
      loopDisabled := true;
      ghost var r := Rcv();
      out := CloseLoopedSender();
      ghost var s := Snd();
      assert Rcv() == r;
      DisconnectReceiver(now);
      assert Snd() == s;
    }

    method OpenReceiver() returns (out: seq<Packet>)
      requires |table.byClass| == 3
      modifies this`rstate
      ensures (Rcv(), out) == R.OpenReceiver(old(Rcv()))
    {
      out := [OpenReq(localConn, ALL_SUI, 1)];
      rstate := R.WaitOpenRsp;
    }

    method HandleOpenRsp(conn: U16, rate: int, now: int) returns (out: seq<Packet>)
      requires table.Valid()
      modifies this`rstate, this`localConn, this`remoteSeq, this`zoneInfo, this`learned, this`synced,
               table, table.candidates, table.zoneNames
      ensures table.Valid()
      ensures (Rcv(), out) == R.HandleOpenRsp(old(Rcv()), conn, rate, now)
    {
      out := [];
      if conn != localConn {
        return;
      }
      if rate < 0 {
        DisconnectReceiver(now);
        return;
      }
      out := [RIReq(localConn, ALL_SUI)];
      rstate := R.WaitRIRsp;
      remoteSeq := 1;
      synced := false;
    }

    /** checkRemoteSeqWithAckFlags: re-acknowledge a duplicate, reset on a packet
        from the future, drop a stale one. */
    method CheckRemoteSeq(conn: U16, seqNo: U16, ackZones: bool, now: int) returns (expected: bool, out: seq<Packet>)
      requires table.Valid()
      modifies this`rstate, this`localConn, this`remoteSeq, this`zoneInfo, this`learned, this`synced,
               table, table.candidates, table.zoneNames
      ensures table.Valid()
      ensures expected <==> R.CheckSeq(old(remoteSeq), seqNo) == R.Expected
      ensures expected ==> Rcv() == old(Rcv()) && out == []
      ensures !expected ==> (Rcv(), out) == R.Unexpected(old(Rcv()), conn, seqNo, ackZones, now)
    {
      expected, out := false, [];
      if seqNo == Pred(remoteSeq) {
        out := [RIAck(conn, seqNo, ackZones)];
      } else if seqNo == remoteSeq {
        expected := true;
      } else if seqNo == Succ(remoteSeq) {
        DisconnectReceiver(now);
      }
    }

    method HandleRIRsp(conn: U16, seqNo: U16, last: bool, nets: seq<Advert>, now: int) returns (out: seq<Packet>)
      requires table.Valid() && forall k :: 0 <= k < |nets| ==> nets[k].netEnd < 0xFFFF
      modifies this`rstate, this`localConn, this`remoteSeq, this`zoneInfo, this`learned, this`synced,
               table, table.candidates, table.zoneNames
      ensures table.Valid()
      ensures (Rcv(), out) == R.HandleRIRsp(old(Rcv()), conn, seqNo, last, nets, now)
    {
      if conn != localConn {
        return [];
      }
      var expected;
      expected, out := CheckRemoteSeq(conn, seqNo, true, now);
      if !expected {
        return;
      }
      R.TakeTuplesTable(Rcv(), nets, conn, now);
      var wanted := TakeTuples(nets, conn, now);
      out := [RIAck(conn, seqNo, wanted)];
      if last {
        rstate := R.RConnected;
        synced := true;
      }
      remoteSeq := Succ(remoteSeq);
    }

    method HandleRIUpd(conn: U16, seqNo: U16, es: seq<EventTuple>, now: int) returns (out: seq<Packet>)
      requires table.Valid() && forall k :: 0 <= k < |es| ==> es[k].rangeEnd < 0xFFFF
      modifies this`rstate, this`localConn, this`remoteSeq, this`zoneInfo, this`learned, this`synced,
               table, table.candidates, table.zoneNames
      ensures table.Valid()
      ensures (Rcv(), out) == R.HandleRIUpd(old(Rcv()), conn, seqNo, es, now)
    {
      if conn != localConn {
        return [];
      }
      if rstate == R.WaitTickleAck {
        rstate := R.RConnected;
      } else if rstate == R.RUnconnected || rstate == R.WaitOpenRsp {
        rstate := R.WaitRIRsp;
        remoteSeq := 1;
        return [RIReq(localConn, ALL_SUI)];
      }
      var expected;
      expected, out := CheckRemoteSeq(conn, seqNo, true, now);
      if !expected {
        return;
      }
      if rstate == R.WaitRIRsp {
        remoteSeq := Succ(remoteSeq);
        return [RIAck(conn, seqNo, false), RIReq(localConn, ALL_SUI)];
      }
      out := TakeUpdate(conn, seqNo, es, now);
    }

    /** An RI-Upd in sequence on an established connection. */
    method TakeUpdate(conn: U16, seqNo: U16, es: seq<EventTuple>, now: int) returns (out: seq<Packet>)
      requires table.Valid() && forall k :: 0 <= k < |es| ==> es[k].rangeEnd < 0xFFFF
      modifies this`remoteSeq, this`zoneInfo, this`learned, table, table.candidates, table.zoneNames
      ensures table.Valid()
      ensures Rcv() == R.TakeEvents(old(Rcv()), es, conn, now).(remoteSeq := Succ(old(remoteSeq)))
      ensures out == [RIAck(conn, seqNo, R.EventsWantZones(old(Rcv()), es, conn, now))]
    {
      R.TakeEventsTable(Rcv(), es, conn, now);
      var wanted := TakeEvents(es, conn, now);
      out := [RIAck(conn, seqNo, wanted)];
      remoteSeq := Succ(remoteSeq);
    }

    /** An unsequenced Router Down, from the remote data receiver. */
    method HandleReceiverDown(conn: U16)
      modifies this`sstate, this`localSeq, this`remoteConn, this`lastSent, this`restartProbe, this`pendingRIRsp,
               this`pendingRIUpd,
               this`pendingEvents
      ensures Snd() == PeerSpec.HandleReceiverDown(old(Snd()), conn).0
    {
      if remoteConn == 0 || conn == remoteConn {
        DisconnectSender();
      }
    }

    /** A sequenced Router Down, from the remote data sender. */
    method HandleSenderDown(conn: U16, seqNo: U16, now: int) returns (out: seq<Packet>)
      requires table.Valid()
      modifies this`rstate, this`localConn, this`remoteSeq, this`zoneInfo, this`learned, this`synced,
               table, table.candidates, table.zoneNames
      ensures table.Valid()
      ensures (Rcv(), out) == R.HandleSenderDown(old(Rcv()), conn, seqNo, now)
    {
      out := [];
      if conn != localConn {
        return;
      }
      var expected;
      expected, out := CheckRemoteSeq(conn, seqNo, false, now);
      if !expected {
        return;
      }
      out := [RIAck(conn, seqNo, false)];
      remoteSeq := Succ(remoteSeq);
      DisconnectReceiver(now);
    }

    method HandleTickleAck(conn: U16) returns (out: seq<Packet>)
      requires |table.byClass| == 3
      modifies this`rstate
      ensures (Rcv(), out) == R.HandleTickleAck(old(Rcv()), conn)
    {
      out := [];
      if conn == localConn && rstate == R.WaitTickleAck {
        rstate := R.RConnected;
      }
    }

    method RtickerTasks(silent: bool, retryDue: bool, exhausted: bool, now: int) returns (out: seq<Packet>)
      requires table.Valid()
      modifies this`rstate, this`localConn, this`remoteSeq, this`zoneInfo, this`learned, this`synced,
               table, table.candidates, table.zoneNames
      ensures table.Valid()
      ensures (Rcv(), out) == R.ReceiverTick(old(Rcv()), silent, retryDue, exhausted, now)
    {
      out := [];
      if rstate == R.RConnected {
        if silent {
          out := [Tickle(localConn)];
          rstate := R.WaitTickleAck;
        }
      } else if rstate != R.RUnconnected && retryDue {
        if exhausted {
          DisconnectReceiver(now);
        } else if rstate == R.WaitOpenRsp {
          out := [OpenReq(localConn, ALL_SUI, 1)];
        } else if rstate == R.WaitRIRsp {
          out := [RIReq(localConn, ALL_SUI)];
        } else {
          out := [Tickle(localConn)];
        }
      }
    }

    /** A fragment of an extended ZI-Rsp. */
    method HandleZIRspExt(conn: U16, n: Net, total: nat, names: seq<string>, now: int) returns (out: seq<Packet>)
      requires table.Valid()
      modifies this`zoneInfo, table`networksByZone, table`notes, table.zoneNames
      ensures table.Valid()
      ensures (Rcv(), out) == R.HandleZIRsp(old(Rcv()), conn, n, total, names, now)
    {
      out := [];
      if conn != localConn || names == [] {
        return;
      }
      var owned := table.Find(self, n);
      if owned.None? {
        return;
      }
      var pending := if n in zoneInfo then Some(zoneInfo[n].assembly) else None;
      match Assemble(pending, total, names)
      case Rejected =>
      case Incomplete(a) =>
        zoneInfo := zoneInfo[n := R.Partial(a, conn)];
      case Overflow =>
        zoneInfo := zoneInfo - {n};
      case Complete(all) => Publish(n, all, now);
    }

    /** A complete list replaces the network's zones. */
    method Publish(n: Net, all: set<string>, now: int)
      requires table.Valid()
      modifies this`zoneInfo, table`networksByZone, table`notes, table.zoneNames
      ensures table.Valid()
      ensures Rcv() == old(Rcv()).(zoneInfo := old(zoneInfo) - {n},
                                   table := old(table.Abs()).(zones := old(table.zoneNames[..])[n := all - {""}]))
    {
      var list := ToSlice(all);
      assert NonEmptyNames(list) == all - {""};
      var _ := table.ReplaceZonesForNetwork(n, list, now);
      zoneInfo := zoneInfo - {n};
    }
  }
}

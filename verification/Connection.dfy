/** The life of a one-way connection, as the packets of its two halves answer each
    other: opening, keeping alive, shutting down, restarting (router/aurp_peer.go). */
module Connection {
  import opened Routes
  import opened RouteSpec
  import opened Observers
  import opened Replication
  import opened PeerSpec
  import opened ReceiverSpec
  import opened Epoch

  // ----- Opening -----

  /** New halves have no connection. */
  lemma NewHalves(table: Table, peer: Target, extra: nat, conn: U16, budget: nat)
    ensures Forgotten(NewSender(budget))
    ensures var r := NewReceiver(table, peer, extra, conn);
            && r.state == RUnconnected && r.localConn == conn && r.remoteSeq == 1 && !r.synced
            && r.zoneInfo == map[] && r.learned == map[]
  {
  }

  /** An Open-Req to a sender that is not connected, or repeated on its connection: with version 1 it is connected,
      under the given ID and with the given flags; with any other it is refused and stays as it was. */
  lemma OpenAnswered(s: Sender, conn: U16, sui: Sui, version: nat, rate: nat)
    requires s.state == SUnconnected || (s.state == SConnected && s.remoteConn == conn != 0)
    ensures var (s', out) := SenderNext(s, GotOpenReq(conn, sui, version, rate));
            && s'.remoteConn == conn && s'.sui == sui
            && (version == 1 ==> s'.state == SConnected && out == [OpenRsp(conn, rate)])
            && (version != 1 ==> s'.state == s.state && out == [OpenRsp(conn, -5)])
  {
  }

  /** Routing information is given only over a connection, and under its ID. */
  lemma RIReqNeedsConnection(s: Sender, conn: U16, sui: Sui, adverts: seq<Advert>)
    requires s.state != SConnected || (s.remoteConn != 0 && conn != s.remoteConn)
    ensures SenderNext(s, GotRIReq(conn, sui, adverts)) == (s, [])
  {
  }

  /** Two new halves, each packet the answer to the one before: Open-Req, Open-Rsp,
      RI-Req, and the first RI-Rsp. That is the start of an epoch, whatever the source's
      table. */
  lemma EpochOpens(src: Table, adverts: seq<Advert>, now: int, table: Table, peer: Target, extra: nat, conn: U16,
                   budget: nat, rate: nat)
    requires src.WellFormed() && src.Disjoint() && src.FreshAt(now) && IsSnapshot(src, now, adverts)
    requires table.WellFormed() && peer.AurpPeer? && forall n: Net :: StoredAdvert(table, peer, n).None?
    ensures var (r1, asked) := ReceiverNext(NewReceiver(table, peer, extra, conn), Open, now);
            var (s1, answered) := SenderNext(NewSender(budget), GotOpenReq(conn, ALL_SUI, 1, rate));
            var (r2, requested) := ReceiverNext(r1, GotOpenRsp(conn, rate), now);
            var (s2, issued) := SenderNext(s1, GotRIReq(conn, ALL_SUI, adverts));
            && asked == [OpenReq(conn, ALL_SUI, 1)] && answered == [OpenRsp(conn, rate)]
            && requested == [RIReq(conn, ALL_SUI)]
            && r1.state == WaitOpenRsp && r2.state == WaitRIRsp && s1.state == SConnected
            && |issued| == 1 && issued[0].RIRsp? && issued[0].conn == conn && issued[0].seqNo == 1
            && Starts(World(src, KnownView(src), s2, r2, issued, [], {}), s1, adverts, now)
  {
    var s1 := SenderNext(NewSender(budget), GotOpenReq(conn, ALL_SUI, 1, rate)).0;
    OpenAnswered(NewSender(budget), conn, ALL_SUI, 1, rate);
    assert s1 == NewSender(budget).(state := SConnected, remoteConn := conn, sui := ALL_SUI);
  }

  /** An epoch opens between routers that know nothing. */
  lemma EpochExists(conn: U16, peer: Target, budget: nat, now: int)
    requires peer.AurpPeer?
    ensures exists w: World, s0: Sender :: Starts(w, s0, [], now) && w.rcv.peer == peer && w.snd.remoteConn == conn
  {
    var src := EmptyTable();
    assert forall x :: !IsExported(src, now, x);
    EpochOpens(src, [], now, src, peer, 0, conn, budget, 1);
    var r1 := ReceiverNext(NewReceiver(src, peer, 0, conn), Open, now).0;
    var s1 := SenderNext(NewSender(budget), GotOpenReq(conn, ALL_SUI, 1, 1)).0;
    var (s2, issued) := SenderNext(s1, GotRIReq(conn, ALL_SUI, []));
    var w := World(src, KnownView(src), s2, ReceiverNext(r1, GotOpenRsp(conn, 1), now).0, issued, [], {});
    assert Starts(w, s1, [], now) && w.rcv.peer == peer && w.snd.remoteConn == conn;
  }

  // ----- Keeping alive -----

  /** A silent connection is tickled, and the answer restores it. */
  lemma TickleAnswered(s: Sender, r: Receiver, retryDue: bool, exhausted: bool, now: int)
    requires r.table.WellFormed() && r.state == RConnected && s.remoteConn == r.localConn
    ensures var (r1, asked) := ReceiverNext(r, RTicked(true, retryDue, exhausted), now);
            && asked == [Tickle(r.localConn)] && r1.state == WaitTickleAck
            && TickleReply(s, r.localConn) == [TickleAck(r.localConn)]
            && ReceiverNext(r1, GotTickleAck(r.localConn), now) == (r, [])
  {
  }

  /** While the other half is unconnected, a connected sender asks with a null update
      whether anyone is there; one that is not connected says nothing. */
  lemma ProbeAsks(s: Sender)
    ensures var (s', out) := SenderNext(s, Probe);
            if s.state == SConnected then
              && out == [RIUpd(s.remoteConn, Succ(s.localSeq), [EventTuple(NullEvent, false, 0, 0, 0)])]
              && s' == s.(localSeq := Succ(s.localSeq), lastSent := Some(out[0]), state := WaitRIUpdAck)
            else s' == s && out == []
  {
  }

  // ----- Waiting and giving up -----

  /** While a packet is outstanding it is sent again whenever it is due, unchanged. */
  lemma RetryResends(s: Sender, updateDue: bool)
    requires OneOutstanding(s) && s.Waiting()
    ensures SenderNext(s, Ticked(updateDue, true, false)) == (s, [s.lastSent.value])
    ensures SenderNext(s, Ticked(updateDue, false, false)) == (s, [])
  {
  }

  /** Pending changes wait for the update interval, however long nothing was sent. */
  lemma ChangesWait(s: Sender, retryDue: bool, exhausted: bool)
    requires s.state == SConnected
    ensures SenderNext(s, Ticked(false, retryDue, exhausted)) == (s, [])
  {
  }

  /** After the last retry the sender is unconnected; after that of a restart probe or
      of a Router Down it has also forgotten the connection. */
  lemma RetriesEnd(s: Sender, updateDue: bool)
    requires OneOutstanding(s) && s.Waiting()
    ensures var (s', out) := SenderNext(s, Ticked(updateDue, true, true));
            && s'.state == SUnconnected && out == []
            && (s.restartProbe || s.state == WaitRDAck ==> Forgotten(s'))
  {
  }

  /** Nothing is left of a connection. */
  predicate Forgotten(s: Sender) {
    && s.state == SUnconnected && s.remoteConn == 0 && s.localSeq == 1 && s.lastSent == None && !s.restartProbe
    && s.pendingRIRsp == [] && s.pendingRIUpd == [] && s.pending == map[]
  }

  /** A Router Down of the receiver, or a confirmed loop, closes the sender's half; a
      Router Down of another connection does not. */
  lemma SenderCloses(s: Sender, conn: U16)
    ensures conn == s.remoteConn ==> Forgotten(SenderNext(s, GotReceiverDown(conn)).0)
    ensures s.remoteConn != 0 && conn != s.remoteConn ==> SenderNext(s, GotReceiverDown(conn)) == (s, [])
    ensures var (s', out) := SenderNext(s, Loop);
            && Forgotten(s')
            && (s.state == SUnconnected ==> out == [])
            && (s.state != SUnconnected ==>
                  |out| == 1 && out[0].RD? && out[0].conn == s.remoteConn && out[0].code == -2)
  {
  }

  /** A sender that is not connected ignores what its observers say. */
  lemma UnconnectedDeaf(s: Sender, notes: seq<Note>)
    requires s.state == SUnconnected
    ensures SenderNext(s, Noted(notes)) == (s, [])
  {
  }

  /** Acknowledgements of another connection or number change nothing. */
  lemma OtherAckIgnored(s: Sender, conn: U16, seqNo: U16)
    requires (s.remoteConn != 0 && conn != s.remoteConn) || seqNo != s.localSeq
    ensures SenderNext(s, GotRIAck(conn, seqNo)) == (s, [])
  {
  }

  // ----- Shutting down -----

  /** An orderly shutdown of a connection at rest, packet by packet: Router Down under the
      next number, its acknowledgement, and then neither half has anything of it left. */
  lemma Shutdown(s: Sender, r: Receiver, now: int)
    requires s.state == SConnected && r.table.WellFormed()
    requires s.remoteConn == r.localConn && r.remoteSeq == Succ(s.localSeq)
    ensures var (s1, down) := SenderNext(s, PeerSpec.Shutdown);
            var (r1, acked) := ReceiverNext(r, GotSenderDown(r.localConn, r.remoteSeq), now);
            && down == [RD(r.localConn, r.remoteSeq, -1)] && acked == [RIAck(r.localConn, r.remoteSeq, false)]
            && WasReset(r, r1)
            && Forgotten(SenderNext(s1, GotRIAck(r.localConn, r.remoteSeq)).0)
            && SenderNext(s1, GotRIAck(r.localConn, r.remoteSeq)).1 == []
  {
    RouterDownResets(r, now);
  }

  // ----- Restarting -----

  /** A restarted receiver asks to open under another ID. The sender first probes the old
      connection with a null update. If that is acknowledged, the old connection goes on
      as it was. If it never is, the sender forgets it, and the receiver's next Open-Req
      is accepted. */
  lemma Restart(s: Sender, conn: U16, sui: Sui, rate: nat, updateDue: bool)
    requires s.state == SConnected && !s.restartProbe && s.remoteConn != 0 && conn != s.remoteConn
    ensures var (s1, probe) := SenderNext(s, GotOpenReq(conn, sui, 1, rate));
            && probe == [RIUpd(s.remoteConn, Succ(s.localSeq), [EventTuple(NullEvent, false, 0, 0, 0)])]
            && s1.state == WaitRIUpdAck && s1.restartProbe && s1.remoteConn == s.remoteConn
            && SenderNext(s1, GotRIAck(s.remoteConn, Succ(s.localSeq))) ==
               (s.(localSeq := Succ(s.localSeq), lastSent := None), [])
            && var s2 := SenderNext(s1, Ticked(updateDue, true, true)).0;
               && Forgotten(s2)
               && var (s3, answer) := SenderNext(s2, GotOpenReq(conn, sui, 1, rate));
                  s3.state == SConnected && s3.remoteConn == conn && s3.sui == sui && answer == [OpenRsp(conn, rate)]
  {
  }
}

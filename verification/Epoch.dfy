/** One epoch of a one-way AURP connection over a network that loses, repeats and
    reorders packets: from the acceptance of an RI-Req until the connection is
    closed or given up. The sender and the receiver are those of PeerSpec and
    ReceiverSpec. */
module Epoch {
  import opened Routes
  import opened RouteSpec
  import opened Observers
  import opened Replication
  import opened Chunking
  import opened PeerSpec
  import opened ReceiverSpec

  // ----- Sequence numbers -----

  const CYCLE := 0xFFFF

  /** The number of the i-th sequenced packet. */
  function SeqNo(i: nat): (n: U16)
    ensures n != 0
  {
    i % CYCLE + 1
  }

  lemma SeqNoSucc(i: nat)
    ensures Succ(SeqNo(i)) == SeqNo(i + 1) && Pred(SeqNo(i + 1)) == SeqNo(i)
  {
    if i % CYCLE == CYCLE - 1 {
      assert (i + 1) % CYCLE == 0;
    } else {
      assert (i + 1) % CYCLE == i % CYCLE + 1;
    }
  }

  /** Which packets share a number: those whole cycles apart. */
  lemma SeqNoEqual(i: nat, j: nat)
    requires i <= j
    ensures SeqNo(i) == SeqNo(j) <==> (j - i) % CYCLE == 0
  {
    var d := j - i;
    assert j == CYCLE * (j / CYCLE) + j % CYCLE && i == CYCLE * (i / CYCLE) + i % CYCLE;
    assert d == CYCLE * (d / CYCLE) + d % CYCLE;
  }

  /** How a receiver expecting packet e sees packet i: the verdict is right for
      every packet less than 65534 behind, and wrong for the next two. */
  lemma VerdictOf(e: nat, i: nat)
    requires i <= e && e - i <= CYCLE
    ensures CheckSeq(SeqNo(e), SeqNo(i)) ==
            if i == e then Expected
            else if e - i == 1 then Duplicate
            else if e - i < CYCLE - 1 then Stale
            else if e - i == CYCLE - 1 then Future
            else Expected
  {
    SeqNoSucc(e);
    SeqNoEqual(i, e);
    SeqNoEqual(i, e + 1);
    if e > 0 {
      SeqNoSucc(e - 1);
      if i < e { SeqNoEqual(i, e - 1); }
    }
  }

  // ----- The world -----

  /** The sending router's table, what its observers have heard, both halves of the
      connection, and the history: the sequenced packets issued, those applied
      by the receiver, and the numbers of those acknowledged. */
  datatype World = World(
    src: Table,
    view: View,
    snd: Sender,
    rcv: Receiver,
    issued: seq<Packet>,
    applied: seq<Packet>,
    acks: set<nat>)

  datatype Move =
    | SourceChange(op: Op, trs: seq<Transition>)
    | ToSender(input: SInput)
    | DeliverData(i: nat, now: int)
    | DeliverAck(i: nat)
    | ToReceiver(rinput: RInput, now: int)

  /** What may happen. A copy of any packet may arrive at any time and any number
      of times, or never, so long as it is not 65534 packets late. */
  ghost predicate Enabled(w: World, move: Move)
    requires |w.src.zones| == NETWORKS
  {
    match move
    case SourceChange(op, trs) => Calm(w.src, op, Next(w.src, op)) && Step(w.src, op, Next(w.src, op), trs)
    case ToSender(i) =>
      (match i
       case Ticked(_, _, exhausted) => !exhausted
       case Probe => true
       case GotOpenReq(conn, _, _, _) => conn != w.snd.remoteConn
       case GotRIReq(conn, _, _) => w.snd.state != SConnected || !w.snd.KnowsConn(conn)
       case _ => false)
    case DeliverData(i, _) => i < |w.issued| && |w.applied| - i < CYCLE - 1
    case DeliverAck(i) => i in w.acks && i < |w.issued| && |w.issued| - 1 - i < CYCLE - 1
    case ToReceiver(i, _) =>
      (match i
       case RTicked(_, _, exhausted) => !exhausted
       case GotTickleAck(_) => true
       case GotZIRsp(_, _, _, _) => true
       case TableChange(op) => Admissible(op) && Elsewhere(op, w.rcv.peer)
       case _ => false)
  }

  /** A sender step issues a packet when it takes a new sequence number. */
  function SenderMove(w: World, i: SInput): World {
    var (s', out) := SenderNext(w.snd, i);
    w.(snd := s', issued := if s'.localSeq != w.snd.localSeq then w.issued + out else w.issued)
  }

  ghost predicate Applies(r: Receiver, p: Packet) {
    && (p.RIRsp? || p.RIUpd?) && p.conn == r.localConn && CheckSeq(r.remoteSeq, p.seqNo) == Expected
    && (p.RIUpd? ==> r.state == RConnected || r.state == WaitTickleAck)
  }

  ghost function Receive(r: Receiver, p: Packet, now: int): ROut
    requires |r.table.zones| == NETWORKS && (p.RIRsp? || p.RIUpd?)
  {
    match p
    case RIRsp(c, q, last, nets) => HandleRIRsp(r, c, q, last, nets, now)
    case RIUpd(c, q, es) => HandleRIUpd(r, c, q, es, now)
  }

  ghost predicate Acknowledges(out: seq<Packet>, p: Packet)
    requires p.RIRsp? || p.RIUpd?
  {
    exists k :: 0 <= k < |out| && out[k].RIAck? && out[k].conn == p.conn && out[k].seqNo == p.seqNo
  }

  ghost function After(w: World, move: Move): World
    requires |w.src.zones| == |w.rcv.table.zones| == NETWORKS
    requires forall i :: 0 <= i < |w.issued| ==> w.issued[i].RIRsp? || w.issued[i].RIUpd?
    requires Enabled(w, move)
  {
    match move
    case SourceChange(op, trs) =>
      w.(src := Next(w.src, op), view := HearAll(w.view, Notes(trs)), snd := HearNotes(w.snd, Notes(trs)))
    case ToSender(i) => SenderMove(w, i)
    case DeliverAck(i) => SenderMove(w, GotRIAck(w.issued[i].conn, w.issued[i].seqNo))
    case DeliverData(i, now) =>
      var p := w.issued[i];
      var (r', out) := Receive(w.rcv, p, now);
      w.(rcv := r', applied := if Applies(w.rcv, p) then w.applied + [p] else w.applied,
         acks := if Acknowledges(out, p) then w.acks + {i} else w.acks)
    case ToReceiver(i, now) => w.(rcv := ReceiverNext(w.rcv, i, now).0)
  }

  // ----- Exactly once, in order -----

  predicate IsLast(p: Packet) { p.RIRsp? && p.last }

  /** The snapshot ends before packet i. */
  ghost predicate Ended(issued: seq<Packet>, i: nat) {
    exists j :: 0 <= j < i && j < |issued| && IsLast(issued[j])
  }

  ghost predicate Numbered(issued: seq<Packet>, conn: U16) {
    forall i :: 0 <= i < |issued| ==>
      (issued[i].RIRsp? || issued[i].RIUpd?) && issued[i].conn == conn && issued[i].seqNo == SeqNo(i)
  }

  /** RI-Rsps make up the snapshot, of which only the final one is marked Last, and
      RI-Upds follow its end. */
  ghost predicate Ordered(issued: seq<Packet>) {
    forall i :: 0 <= i < |issued| ==> (issued[i].RIUpd? <==> Ended(issued, i))
  }

  ghost predicate SenderFits(w: World) {
    && |w.issued| > 0 && w.snd.localSeq == SeqNo(|w.issued| - 1)
    && w.snd.state != SUnconnected && w.snd.state != WaitRDAck
    && (w.snd.state == SConnected ==> |w.applied| == |w.issued| && w.snd.pendingRIUpd == [])
    && (w.snd.state != SConnected ==> w.snd.lastSent == Some(w.issued[|w.issued| - 1]))
    && (w.snd.state == WaitRIRspAck <==> w.issued[|w.issued| - 1].RIRsp? && w.snd.state != SConnected)
    && (w.snd.state == WaitRIRspAck ==> w.snd.pendingRIUpd == [])
    && (w.snd.state != WaitRIRspAck ==> w.snd.pendingRIRsp == [])
    && (w.snd.restartProbe ==> w.snd.state == WaitRIUpdAck && w.snd.pendingRIUpd == [])
    && (w.snd.pendingRIRsp == [] <==> Ended(w.issued, |w.issued|))
  }

  ghost predicate ReceiverFits(w: World) {
    && w.rcv.remoteSeq == SeqNo(|w.applied|)
    && (w.rcv.state == WaitRIRsp || w.rcv.state == RConnected || w.rcv.state == WaitTickleAck)
    && (w.rcv.state == WaitRIRsp <==> !Ended(w.issued, |w.applied|))
  }

  /** What has been applied is what was issued, in order and once, all but at most
      the last; and the receiver is neither reset nor surprised by an update. */
  ghost predicate InOrder(w: World) {
    && w.src.WellFormed() && w.rcv.table.WellFormed() && w.rcv.peer.AurpPeer?
    && Numbered(w.issued, w.snd.remoteConn) && w.rcv.localConn == w.snd.remoteConn
    && Ordered(w.issued)
    && |w.applied| <= |w.issued| <= |w.applied| + 1 && w.applied == w.issued[..|w.applied|]
    && (forall i :: i in w.acks ==> i < |w.applied|)
    && SenderFits(w) && ReceiverFits(w)
  }

  lemma EndedPush(issued: seq<Packet>, p: Packet)
    ensures Ended(issued + [p], |issued| + 1) <==> Ended(issued, |issued|) || IsLast(p)
    ensures forall i :: 0 <= i <= |issued| ==> (Ended(issued + [p], i) <==> Ended(issued, i))
  {
    var longer := issued + [p];
    if IsLast(p) { assert longer[|issued|] == p; }
    forall i | 0 <= i <= |issued| ensures Ended(longer, i) <==> Ended(issued, i) {
      if j :| 0 <= j < i && IsLast(longer[j]) { assert issued[j] == longer[j]; }
      if j :| 0 <= j < i && IsLast(issued[j]) { assert longer[j] == issued[j]; }
    }
    if Ended(longer, |issued| + 1) && !IsLast(p) {
      var j :| 0 <= j < |issued| + 1 && IsLast(longer[j]);
      assert j < |issued| && issued[j] == longer[j];
    }
    if Ended(issued, |issued|) {
      var j :| 0 <= j < |issued| && IsLast(issued[j]);
      assert longer[j] == issued[j];
    }
  }

  lemma PushOrdered(issued: seq<Packet>, p: Packet, conn: U16)
    requires Numbered(issued, conn) && Ordered(issued)
    requires (p.RIRsp? || p.RIUpd?) && p.conn == conn && p.seqNo == SeqNo(|issued|)
    requires p.RIUpd? <==> Ended(issued, |issued|)
    ensures Numbered(issued + [p], conn) && Ordered(issued + [p])
  {
    EndedPush(issued, p);
    forall i | 0 <= i < |issued + [p]| ensures (issued + [p])[i].RIUpd? <==> Ended(issued + [p], i) {
      if i < |issued| { assert issued[i] == (issued + [p])[i]; }
    }
  }

  /** Issuing the next packet, all earlier ones being applied. */
  lemma IssueInOrder(w: World, s': Sender, p: Packet)
    requires InOrder(w) && |w.applied| == |w.issued|
    requires s'.remoteConn == w.snd.remoteConn && s'.localSeq == Succ(w.snd.localSeq)
    requires (p.RIRsp? || p.RIUpd?) && p.conn == s'.remoteConn && p.seqNo == s'.localSeq && s'.lastSent == Some(p)
    requires p.RIRsp? ==>
               && s'.state == WaitRIRspAck && s'.pendingRIUpd == [] && !Ended(w.issued, |w.issued|)
               && (p.last <==> s'.pendingRIRsp == [])
    requires p.RIUpd? ==> s'.state == WaitRIUpdAck && s'.pendingRIRsp == [] && w.snd.pendingRIRsp == []
    requires s'.restartProbe ==> p.RIUpd? && s'.pendingRIUpd == []
    ensures InOrder(w.(snd := s', issued := w.issued + [p]))
  {
    SeqNoSucc(|w.issued| - 1);
    EndedPush(w.issued, p);
    PushOrdered(w.issued, p, w.snd.remoteConn);
    var w' := w.(snd := s', issued := w.issued + [p]);
    assert w'.issued[|w'.issued| - 1] == p && w.applied == w'.issued[..|w.applied|];
    assert SenderFits(w');
    assert ReceiverFits(w');
  }

  lemma NewNumber(w: World)
    requires |w.issued| > 0 && w.snd.localSeq == SeqNo(|w.issued| - 1)
    ensures Succ(w.snd.localSeq) != w.snd.localSeq
  {
    SeqNoSucc(|w.issued| - 1);
    SeqNoEqual(|w.issued| - 1, |w.issued|);
  }

  lemma SenderInOrder(w: World, i: SInput)
    requires InOrder(w) && Enabled(w, ToSender(i))
    ensures InOrder(SenderMove(w, i))
  {
    NewNumber(w);
    var (s', out) := SenderNext(w.snd, i);
    if s'.localSeq != w.snd.localSeq {
      assert out == [s'.lastSent.value];
      IssueInOrder(w, s', s'.lastSent.value);
    }
  }

  lemma AckInOrder(w: World, j: nat)
    requires InOrder(w) && Enabled(w, DeliverAck(j))
    ensures InOrder(SenderMove(w, GotRIAck(w.issued[j].conn, w.issued[j].seqNo)))
  {
    SeqNoEqual(j, |w.issued| - 1);
    var (s', out) := SenderNext(w.snd, GotRIAck(w.issued[j].conn, w.issued[j].seqNo));
    if s'.localSeq != w.snd.localSeq {
      AckIssues(w, w.issued[j].conn, w.issued[j].seqNo);
    } else if s' != w.snd {
      AckEndsWait(w, w.issued[j].conn, w.issued[j].seqNo);
    }
  }

  /** The acknowledgement of the last packet sends the next chunk. */
  lemma AckIssues(w: World, conn: U16, seqNo: U16)
    requires InOrder(w) && |w.applied| == |w.issued|
    requires HandleRIAck(w.snd, conn, seqNo).0.localSeq != w.snd.localSeq
    ensures InOrder(SenderMove(w, GotRIAck(conn, seqNo)))
  {
    var (s', out) := SenderNext(w.snd, GotRIAck(conn, seqNo));
    assert out == [s'.lastSent.value];
    IssueInOrder(w, s', s'.lastSent.value);
  }

  /** Or there is none, and the sender is connected again. */
  lemma AckEndsWait(w: World, conn: U16, seqNo: U16)
    requires InOrder(w) && |w.applied| == |w.issued|
    requires HandleRIAck(w.snd, conn, seqNo).0.localSeq == w.snd.localSeq && HandleRIAck(w.snd, conn, seqNo).0 != w.snd
    ensures InOrder(SenderMove(w, GotRIAck(conn, seqNo)))
  {
    NewNumber(w);
    var s' := HandleRIAck(w.snd, conn, seqNo).0;
    assert s'.state == SConnected && s'.remoteConn == w.snd.remoteConn && !s'.restartProbe;
    assert ReceiverFits(SenderMove(w, GotRIAck(conn, seqNo)));
  }

  /** Applying a packet's tuples or events keeps the table well formed. The ranges
      are those a sender issues. */
  ghost predicate RangesFit(p: Packet) {
    && (p.RIRsp? ==> forall k :: 0 <= k < |p.nets| ==> p.nets[k].netEnd < 0xFFFF)
    && (p.RIUpd? ==> forall k :: 0 <= k < |p.events| ==> p.events[k].rangeEnd < 0xFFFF)
  }

  lemma {:induction false} ApplyEventsWellFormed(t: Table, peer: Target, extra: nat, es: seq<EventTuple>, now: int)
    requires t.WellFormed() && forall k :: 0 <= k < |es| ==> es[k].rangeEnd < 0xFFFF
    ensures ApplyEvents(t, peer, extra, es, now).WellFormed()
  {
    if es != [] {
      var init := es[..|es| - 1];
      ApplyEventsWellFormed(t, peer, extra, init, now);
      var op := EventOp(ApplyEvents(t, peer, extra, init, now), peer, extra, es[|es| - 1], now);
      if op.Some? { NextWellFormed(ApplyEvents(t, peer, extra, init, now), op.value); }
    }
  }

  function EventsOf(p: Packet): seq<EventTuple> {
    match p
    case RIRsp(_, _, _, nets) => TupleEvents(nets)
    case RIUpd(_, _, es) => es
    case _ => []
  }

  /** What the receiver makes of packet i, given what it has applied. */
  lemma ReceiveVerdict(w: World, i: nat, now: int)
    requires InOrder(w) && Enabled(w, DeliverData(i, now))
    ensures i <= |w.applied|
    ensures CheckSeq(w.rcv.remoteSeq, w.issued[i].seqNo) ==
              if i == |w.applied| then Expected else if i + 1 == |w.applied| then Duplicate else Stale
    ensures w.issued[i].RIUpd? ==> w.rcv.state == RConnected || w.rcv.state == WaitTickleAck
  {
    VerdictOf(|w.applied|, i);
    if w.issued[i].RIUpd? {
      assert Ended(w.issued, i);
      var j :| 0 <= j < i && IsLast(w.issued[j]);
      assert Ended(w.issued, |w.applied|);
    }
  }

  /** Receiving never resets the connection; the expected packet is applied, any
      other changes no route. */
  lemma ReceiveResult(w: World, i: nat, now: int)
    requires InOrder(w) && Enabled(w, DeliverData(i, now))
    ensures var p := w.issued[i]; var (r', out) := Receive(w.rcv, p, now);
            && Applies(w.rcv, p) == (i == |w.applied|)
            && r'.localConn == w.rcv.localConn && r'.peer == w.rcv.peer && r'.extra == w.rcv.extra
            && r'.table == (if i == |w.applied| then ApplyEvents(w.rcv.table, w.rcv.peer, w.rcv.extra, EventsOf(p), now)
                            else w.rcv.table)
            && r'.remoteSeq == (if i == |w.applied| then Succ(w.rcv.remoteSeq) else w.rcv.remoteSeq)
            && (r'.state == WaitRIRsp || r'.state == RConnected || r'.state == WaitTickleAck)
            && (r'.state == WaitRIRsp <==> w.rcv.state == WaitRIRsp && !(i == |w.applied| && IsLast(p)))
            && (Acknowledges(out, p) ==> i <= |w.applied|)
  {
    ReceiveVerdict(w, i, now);
    var p := w.issued[i];
    if p.RIRsp? {
      TakeTuplesTable(w.rcv, p.nets, p.conn, now);
    } else {
      var r0 := if w.rcv.state == WaitTickleAck then w.rcv.(state := RConnected) else w.rcv;
      TakeEventsTable(r0, p.events, p.conn, now);
    }
  }

  /** A receiver that only changes its table, or between its states of the same
      standing, stays in order. */
  lemma ReceiverKeeps(w: World, r': Receiver, acks: set<nat>)
    requires InOrder(w) && r'.table.WellFormed() && r'.peer == w.rcv.peer
    requires r'.localConn == w.rcv.localConn && r'.remoteSeq == w.rcv.remoteSeq
    requires r'.state == WaitRIRsp || r'.state == RConnected || r'.state == WaitTickleAck
    requires r'.state == WaitRIRsp <==> w.rcv.state == WaitRIRsp
    requires forall i :: i in acks ==> i < |w.applied|
    ensures InOrder(w.(rcv := r', acks := acks))
  {
    var w' := w.(rcv := r', acks := acks);
    assert SenderFits(w');
    assert ReceiverFits(w');
  }

  lemma ApplyInOrder(w: World, r': Receiver, acks: set<nat>)
    requires InOrder(w) && |w.applied| < |w.issued| && r'.table.WellFormed() && r'.peer == w.rcv.peer
    requires r'.localConn == w.rcv.localConn && r'.remoteSeq == Succ(w.rcv.remoteSeq)
    requires r'.state == WaitRIRsp || r'.state == RConnected || r'.state == WaitTickleAck
    requires r'.state == WaitRIRsp <==> w.rcv.state == WaitRIRsp && !IsLast(w.issued[|w.applied|])
    requires forall i :: i in acks ==> i <= |w.applied|
    ensures InOrder(w.(rcv := r', applied := w.applied + [w.issued[|w.applied|]], acks := acks))
  {
    var i := |w.applied|;
    var w' := w.(rcv := r', applied := w.applied + [w.issued[i]], acks := acks);
    SeqNoSucc(i);
    assert w'.applied == w.issued[..i + 1];
    assert Ended(w.issued, i + 1) <==> Ended(w.issued, i) || IsLast(w.issued[i]);
    assert SenderFits(w');
    assert ReceiverFits(w');
  }

  lemma DataInOrder(w: World, i: nat, now: int)
    requires InOrder(w) && Enabled(w, DeliverData(i, now)) && RangesFit(w.issued[i])
    ensures InOrder(After(w, DeliverData(i, now)))
  {
    ReceiveVerdict(w, i, now);
    ReceiveResult(w, i, now);
    var w' := After(w, DeliverData(i, now));
    if i == |w.applied| {
      ApplyEventsWellFormed(w.rcv.table, w.rcv.peer, w.rcv.extra, EventsOf(w.issued[i]), now);
      ApplyInOrder(w, w'.rcv, w'.acks);
    } else {
      ReceiverKeeps(w, w'.rcv, w'.acks);
    }
  }

  /** What neither resets the connection nor touches a route. */
  lemma QuietReceiver(r: Receiver, i: RInput, now: int)
    requires r.table.WellFormed() && r.state != RUnconnected && r.state != WaitOpenRsp
    requires i.GotTickleAck? || i.GotZIRsp? || (i.RTicked? && !i.exhausted)
    ensures var r' := ReceiverNext(r, i, now).0;
            && r'.table.WellFormed() && r'.table.routes == r.table.routes && r'.peer == r.peer && r'.extra == r.extra
            && r'.localConn == r.localConn && r'.remoteSeq == r.remoteSeq
            && (r'.state == WaitRIRsp || r'.state == RConnected || r'.state == WaitTickleAck)
            && (r'.state == WaitRIRsp <==> r.state == WaitRIRsp)
  {
    if i.GotZIRsp? {
      QuietZones(r, i.conn, i.network, i.total, i.names, now);
    }
  }

  lemma QuietZones(r: Receiver, conn: U16, n: Net, total: nat, names: seq<string>, now: int)
    requires r.table.WellFormed()
    ensures var r' := HandleZIRsp(r, conn, n, total, names, now).0;
            r'.table.WellFormed() && r' == r.(zoneInfo := r'.zoneInfo, table := r.table.(zones := r'.table.zones))
  {
  }

  lemma ReceiverInOrder(w: World, i: RInput, now: int)
    requires InOrder(w) && Enabled(w, ToReceiver(i, now))
    ensures InOrder(After(w, ToReceiver(i, now)))
  {
    if i.TableChange? {
      NextWellFormed(w.rcv.table, i.op);
    } else {
      QuietReceiver(w.rcv, i, now);
    }
    ReceiverKeeps(w, ReceiverNext(w.rcv, i, now).0, w.acks);
  }

  // ----- Replication -----

  /** The events of the packets, in order. */
  function Stream(ps: seq<Packet>): seq<EventTuple> {
    if ps == [] then [] else Stream(ps[..|ps| - 1]) + EventsOf(ps[|ps| - 1])
  }

  /** All events issued and those waiting to be. */
  function Log(issued: seq<Packet>, s: Sender): seq<EventTuple> {
    Stream(issued) + TupleEvents(Flatten(s.pendingRIRsp)) + Flatten(s.pendingRIUpd)
  }

  /** Applied to an empty mirror, the events bring it in step with the view, but for
      the pending changes. */
  ghost predicate LogFits(es: seq<EventTuple>, view: View, pending: Pending) {
    SoundAll(map[], es) && InStep(MirrorEvents(map[], es), view, pending)
  }

  /** Once everything logged is applied, the receiver's mirror and the pending
      changes together show what the sender exports. */
  ghost predicate Replicating(w: World) {
    && w.src.WellFormed() && Tracks(w.view, w.src) && w.snd.sui == ALL_SUI
    && LogFits(Log(w.issued, w.snd), w.view, w.snd.pending)
    && StoreMirrors(w.rcv.table, w.rcv.peer, w.rcv.extra, MirrorEvents(map[], Stream(w.applied)))
  }

  ghost predicate Good(w: World) { InOrder(w) && Replicating(w) }

  lemma StreamPush(ps: seq<Packet>, p: Packet)
    ensures Stream(ps + [p]) == Stream(ps) + EventsOf(p)
  {
    assert (ps + [p])[..|ps|] == ps;
  }

  lemma LogNextRIRsp(issued: seq<Packet>, s: Sender)
    requires s.pendingRIRsp != []
    ensures var (s', out) := SendNextRIRsp(s); Log(issued + out, s') == Log(issued, s)
  {
    var (s', out) := SendNextRIRsp(s);
    var chunk, rest := s.pendingRIRsp[0], s.pendingRIRsp[1..];
    assert s.pendingRIRsp == [chunk] + rest;
    FlattenFront(chunk, rest);
    StreamPush(issued, out[0]);
    TupleEventsConcat(chunk, Flatten(rest));
    Regroup(Stream(issued), [], TupleEvents(chunk), TupleEvents(Flatten(rest)), Flatten(s.pendingRIUpd));
  }

  lemma TupleEventsConcat(a: seq<Advert>, b: seq<Advert>)
    ensures TupleEvents(a + b) == TupleEvents(a) + TupleEvents(b)
  {
  }

  lemma LogNextRIUpd(issued: seq<Packet>, s: Sender)
    requires s.pendingRIUpd != [] && s.pendingRIRsp == []
    ensures var (s', out) := SendNextRIUpd(s); Log(issued + out, s') == Log(issued, s)
  {
    var (s', out) := SendNextRIUpd(s);
    var chunk, rest := s.pendingRIUpd[0], s.pendingRIUpd[1..];
    assert s.pendingRIUpd == [chunk] + rest;
    FlattenFront(chunk, rest);
    StreamPush(issued, out[0]);
    assert TupleEvents([]) == [];
  }

  lemma LogQuiet(issued: seq<Packet>, s: Sender)
    requires s.pendingRIRsp == []
    ensures Log(issued, s) == Stream(issued) + Flatten(s.pendingRIUpd)
  {
    assert TupleEvents([]) == [];
  }

  /** A null event changes nothing. */
  lemma NullFits(es: seq<EventTuple>, view: View, pending: Pending)
    requires LogFits(es, view, pending)
    ensures LogFits(es + [NULL_EVENT], view, pending)
  {
    assert (es + [NULL_EVENT])[..|es + [NULL_EVENT]| - 1] == es;
    assert MirrorEvents(map[], es + [NULL_EVENT]) == MirrorEvents(map[], es);
  }

  /** Flushing logs the pending changes. */
  lemma FlushFits(es: seq<EventTuple>, view: View, pending: Pending)
    requires LogFits(es, view, pending)
    ensures LogFits(es + Events(pending), view, map[])
  {
    FlushExact(MirrorEvents(map[], es), view, pending);
    SoundConcat(map[], es, Events(pending));
    MirrorConcat(map[], es, Events(pending));
  }

  lemma NullReplicating(w: World, s: Sender)
    requires Replicating(w) && w.snd.pendingRIRsp == [] && w.snd.pendingRIUpd == []
    requires s.pendingRIRsp == [] && s.pendingRIUpd == [] && s.pending == w.snd.pending && s.sui == w.snd.sui
    ensures var (s', out) := SendNull(s); Replicating(w.(snd := s', issued := w.issued + out))
  {
    LogNull(w.issued, w.snd, s);
    NullFits(Log(w.issued, w.snd), w.view, w.snd.pending);
  }

  lemma LogNull(issued: seq<Packet>, s0: Sender, s: Sender)
    requires s0.pendingRIRsp == [] && s0.pendingRIUpd == [] && s.pendingRIRsp == [] && s.pendingRIUpd == []
    ensures var (s', out) := SendNull(s); Log(issued + out, s') == Log(issued, s0) + [NULL_EVENT]
  {
    var (s', out) := SendNull(s);
    LogQuiet(issued, s0);
    LogQuiet(issued + out, s');
    StreamPush(issued, out[0]);
  }

  lemma FlushReplicating(w: World)
    requires Replicating(w) && w.snd.pendingRIRsp == [] && w.snd.pendingRIUpd == []
    ensures Events(w.snd.pending) == [] ==> Replicating(w.(snd := w.snd.(pending := map[])))
    ensures Events(w.snd.pending) != [] ==>
              var s := Advance(w.snd.(pending := map[],
                                      pendingRIUpd := EventChunks(Events(w.snd.pending), w.snd.budget)));
              var (s', out) := SendNextRIUpd(s);
              Replicating(w.(snd := s', issued := w.issued + out))
  {
    var es := Events(w.snd.pending);
    LogQuiet(w.issued, w.snd);
    FlushFits(Log(w.issued, w.snd), w.view, w.snd.pending);
    if es == [] {
      assert Log(w.issued, w.snd) + es == Log(w.issued, w.snd);
      assert Log(w.issued, w.snd.(pending := map[])) == Log(w.issued, w.snd);
    } else {
      var s := Advance(w.snd.(pending := map[], pendingRIUpd := EventChunks(es, w.snd.budget)));
      ChunksFlatten(es, EventTupleSize, w.snd.budget);
      LogQuiet(w.issued, s);
      assert Log(w.issued, s) == Log(w.issued, w.snd) + es;
      LogNextRIUpd(w.issued, s);
    }
  }

  lemma SenderReplicating(w: World, i: SInput)
    requires Good(w) && Enabled(w, ToSender(i))
    ensures Replicating(SenderMove(w, i))
  {
    if Idle(w.snd, i) {
      SenderIdle(w, i);
    } else {
      SenderBusy(w, i);
      if i.Ticked? {
        FlushReplicating(w);
      } else if i.Probe? {
        NullReplicating(w, Advance(w.snd));
      } else {
        NullReplicating(w, Advance(w.snd).(restartProbe := true));
      }
    }
  }

  /** Otherwise it flushes what is pending, or sends a null update. */
  lemma SenderBusy(w: World, i: SInput)
    requires InOrder(w) && Enabled(w, ToSender(i)) && !Idle(w.snd, i)
    ensures i.Ticked? || i.Probe? || i.GotOpenReq?
    ensures var es := Events(w.snd.pending);
            var flushed := w.snd.(pending := map[], pendingRIUpd := EventChunks(es, w.snd.budget));
            var (s', out) := if i.Ticked? && es != [] then SendNextRIUpd(Advance(flushed))
                             else if i.Probe? then SendNull(Advance(w.snd))
                             else SendNull(Advance(w.snd).(restartProbe := true));
            SenderMove(w, i) == if i.Ticked? && es == [] then w.(snd := w.snd.(pending := map[]))
                                else w.(snd := s', issued := w.issued + out)
  {
    NewNumber(w);
  }

  /** The sender has nothing to do, or only to repeat what it has sent. */
  predicate Idle(s: Sender, i: SInput) {
    s.state != SConnected || i.GotRIReq? || (i.Ticked? && !i.updateDue) || (i.GotOpenReq? && s.remoteConn == 0)
  }

  lemma SenderIdle(w: World, i: SInput)
    requires InOrder(w) && Enabled(w, ToSender(i)) && Idle(w.snd, i)
    ensures SenderMove(w, i) == w
  {
  }

  lemma NextReplicating(w: World)
    requires Replicating(w)
    ensures w.snd.pendingRIRsp != [] ==>
              var (s', out) := SendNextRIRsp(Advance(w.snd)); Replicating(w.(snd := s', issued := w.issued + out))
    ensures w.snd.pendingRIRsp == [] && w.snd.pendingRIUpd != [] ==>
              var (s', out) := SendNextRIUpd(Advance(w.snd)); Replicating(w.(snd := s', issued := w.issued + out))
  {
    assert Log(w.issued, Advance(w.snd)) == Log(w.issued, w.snd);
    if w.snd.pendingRIRsp != [] {
      LogNextRIRsp(w.issued, Advance(w.snd));
    } else if w.snd.pendingRIUpd != [] {
      LogNextRIUpd(w.issued, Advance(w.snd));
    }
  }

  /** An acknowledgement sends the next chunk or changes nothing that is logged. */
  lemma AckCases(w: World, j: nat)
    requires InOrder(w) && Enabled(w, DeliverAck(j))
    ensures var w' := SenderMove(w, GotRIAck(w.issued[j].conn, w.issued[j].seqNo));
            || (w.snd.pendingRIRsp != []
                && var (s', out) := SendNextRIRsp(Advance(w.snd)); w' == w.(snd := s', issued := w.issued + out))
            || (w.snd.pendingRIRsp == [] && w.snd.pendingRIUpd != []
                && var (s', out) := SendNextRIUpd(Advance(w.snd)); w' == w.(snd := s', issued := w.issued + out))
            || (w' == w.(snd := w'.snd) && w'.snd.pendingRIRsp == w.snd.pendingRIRsp
                && w'.snd.pendingRIUpd == w.snd.pendingRIUpd
                && w'.snd.pending == w.snd.pending && w'.snd.sui == w.snd.sui)
  {
    NewNumber(w);
  }

  lemma AckReplicating(w: World, j: nat)
    requires Good(w) && Enabled(w, DeliverAck(j))
    ensures Replicating(SenderMove(w, GotRIAck(w.issued[j].conn, w.issued[j].seqNo)))
  {
    AckCases(w, j);
    NextReplicating(w);
    var w' := SenderMove(w, GotRIAck(w.issued[j].conn, w.issued[j].seqNo));
    if w'.issued == w.issued && w'.snd.pendingRIRsp == w.snd.pendingRIRsp && w'.snd.pendingRIUpd == w.snd.pendingRIUpd {
      assert Log(w'.issued, w'.snd) == Log(w.issued, w.snd);
    }
  }

  lemma SourceGood(w: World, op: Op, trs: seq<Transition>)
    requires Good(w) && Enabled(w, SourceChange(op, trs))
    ensures Good(After(w, SourceChange(op, trs)))
  {
    StepTracks(w.view, w.src, op, Next(w.src, op), trs);
    QueueNotesInStep(MirrorEvents(map[], Log(w.issued, w.snd)), w.view, w.snd.pending, Notes(trs));
  }

  // ----- The receiving side -----

  lemma {:induction false} SoundSplit(m: Mirror, a: seq<EventTuple>, b: seq<EventTuple>)
    requires SoundAll(m, a + b)
    ensures SoundAll(m, a) && SoundAll(MirrorEvents(m, a), b)
  {
    if b == [] {
      assert a + b == a;
    } else {
      var init := b[..|b| - 1];
      assert (a + b)[..|a + b| - 1] == a + init;
      SoundSplit(m, a, init);
      MirrorConcat(m, a, init);
    }
  }

  lemma {:induction false} SoundRanges(m: Mirror, es: seq<EventTuple>, k: nat)
    requires SoundAll(m, es) && k < |es|
    ensures es[k].rangeEnd < 0xFFFF && Writable(es[k])
  {
    if k < |es| - 1 { SoundRanges(m, es[..|es| - 1], k); }
  }

  lemma {:induction false} StreamPrefix(ps: seq<Packet>, i: nat) returns (rest: seq<EventTuple>)
    requires i <= |ps|
    ensures Stream(ps) == Stream(ps[..i]) + rest
    decreases |ps|
  {
    if i == |ps| {
      assert ps[..i] == ps;
      rest := [];
    } else {
      var init := ps[..|ps| - 1];
      var more := StreamPrefix(init, i);
      assert init[..i] == ps[..i];
      rest := more + EventsOf(ps[|ps| - 1]);
    }
  }

  lemma Regroup<T>(a: seq<T>, b: seq<T>, c: seq<T>, d: seq<T>, e: seq<T>)
    ensures a + b + c + d + e == a + (b + (c + (d + e)))
  {
  }

  lemma LogSplit(issued: seq<Packet>, s: Sender, i: nat) returns (tail: seq<EventTuple>)
    requires i < |issued|
    ensures Log(issued, s) == Stream(issued[..i]) + (EventsOf(issued[i]) + tail)
  {
    var rest := StreamPrefix(issued, i + 1);
    assert issued[..i + 1] == issued[..i] + [issued[i]];
    StreamPush(issued[..i], issued[i]);
    var snapshot, updates := TupleEvents(Flatten(s.pendingRIRsp)), Flatten(s.pendingRIUpd);
    tail := rest + (snapshot + updates);
    Regroup(Stream(issued[..i]), EventsOf(issued[i]), rest, snapshot, updates);
  }

  /** The events of packet i are sound once those before it have been applied. */
  lemma PacketSound(issued: seq<Packet>, s: Sender, i: nat)
    requires SoundAll(map[], Log(issued, s)) && i < |issued|
    ensures SoundAll(MirrorEvents(map[], Stream(issued[..i])), EventsOf(issued[i]))
    ensures RangesFit(issued[i])
  {
    var es := EventsOf(issued[i]);
    var tail := LogSplit(issued, s, i);
    SoundSplit(map[], Stream(issued[..i]), es + tail);
    var m := MirrorEvents(map[], Stream(issued[..i]));
    SoundSplit(m, es, tail);
    EventsFitRanges(m, issued[i]);
  }

  /** The encoding carries every event of an issued packet. */
  lemma PacketWritable(issued: seq<Packet>, s: Sender, i: nat, k: nat)
    requires SoundAll(map[], Log(issued, s)) && i < |issued| && k < |EventsOf(issued[i])|
    ensures Writable(EventsOf(issued[i])[k])
  {
    PacketSound(issued, s, i);
    SoundRanges(MirrorEvents(map[], Stream(issued[..i])), EventsOf(issued[i]), k);
  }

  lemma EventsFitRanges(m: Mirror, p: Packet)
    requires SoundAll(m, EventsOf(p))
    ensures RangesFit(p)
  {
    if p.RIRsp? {
      forall k | 0 <= k < |p.nets| ensures p.nets[k].netEnd < 0xFFFF {
        SoundRanges(m, EventsOf(p), k);
        assert EventsOf(p)[k] == TupleEvent(p.nets[k]);
      }
    }
    if p.RIUpd? {
      forall k | 0 <= k < |p.events| ensures p.events[k].rangeEnd < 0xFFFF {
        SoundRanges(m, EventsOf(p), k);
      }
    }
  }

  lemma DataGood(w: World, i: nat, now: int)
    requires Good(w) && Enabled(w, DeliverData(i, now))
    ensures Good(After(w, DeliverData(i, now)))
  {
    var p := w.issued[i];
    PacketSound(w.issued, w.snd, i);
    ReceiveVerdict(w, i, now);
    ReceiveResult(w, i, now);
    DataInOrder(w, i, now);
    if i == |w.applied| {
      EventsMirror(w.rcv.table, w.rcv.peer, w.rcv.extra, MirrorEvents(map[], Stream(w.applied)), EventsOf(p), now);
      MirrorConcat(map[], Stream(w.applied), EventsOf(p));
      StreamPush(w.applied, p);
    }
  }

  lemma SameRoutesMirror(t: Table, t': Table, peer: Target, extra: nat, m: Mirror)
    requires t'.routes == t.routes && StoreMirrors(t, peer, extra, m)
    ensures StoreMirrors(t', peer, extra, m)
  {
    forall n: Net ensures StoredAdvert(t', peer, n) == Reached(Shown(m, n), extra) {
      assert StoredAdvert(t, peer, n) == Reached(Shown(m, n), extra);
    }
  }

  lemma ReceiverReplicating(w: World, r': Receiver)
    requires Replicating(w)
    requires StoreMirrors(r'.table, r'.peer, r'.extra, MirrorEvents(map[], Stream(w.applied)))
    ensures Replicating(w.(rcv := r'))
  {
  }

  lemma ReceiverGood(w: World, i: RInput, now: int)
    requires Good(w) && Enabled(w, ToReceiver(i, now))
    ensures Good(After(w, ToReceiver(i, now)))
  {
    ReceiverInOrder(w, i, now);
    var m := MirrorEvents(map[], Stream(w.applied));
    var r' := ReceiverNext(w.rcv, i, now).0;
    if i.TableChange? {
      ElsewhereMirrors(w.rcv.table, w.rcv.peer, w.rcv.extra, m, i.op);
    } else {
      QuietReceiver(w.rcv, i, now);
      SameRoutesMirror(w.rcv.table, r'.table, w.rcv.peer, w.rcv.extra, m);
    }
    ReceiverReplicating(w, r');
  }

  lemma MoveGood(w: World, move: Move)
    requires Good(w) && Enabled(w, move)
    ensures Good(After(w, move))
  {
    match move
    case SourceChange(op, trs) => SourceGood(w, op, trs);
    case ToSender(i) => SenderInOrder(w, i); SenderReplicating(w, i);
    case DeliverData(i, now) => DataGood(w, i, now);
    case DeliverAck(i) => AckInOrder(w, i); AckReplicating(w, i);
    case ToReceiver(i, now) => ReceiverGood(w, i, now);
  }

  // ----- Whole epochs -----

  /** What an observer that missed nothing knows. */
  ghost function KnownView(t: Table): View
    requires t.WellFormed()
  {
    map n: int | 0 <= n < NETWORKS && StartsAt(BestOf(t, n), n) :: BestOf(t, n).value
  }

  lemma KnownTracks(t: Table)
    requires t.WellFormed()
    ensures Tracks(KnownView(t), t)
    ensures forall n :: n in KnownView(t) ==> WellPlaced(Some(KnownView(t)[n]), n)
  {
  }

  /** The sender, connected and with nothing pending, accepts an RI-Req of a receiver
      that has just been answered its Open-Req and holds no route of the peer. */
  ghost predicate Starts(w: World, s0: Sender, adverts: seq<Advert>, now: int) {
    && w.src.WellFormed() && w.src.Disjoint() && w.src.FreshAt(now)
    && w.view == KnownView(w.src) && IsSnapshot(w.src, now, adverts)
    && s0.state == SConnected && s0.remoteConn == w.rcv.localConn && !s0.restartProbe
    && s0.pending == map[] && s0.pendingRIUpd == []
    && (w.snd, w.issued) == HandleRIReq(s0, w.rcv.localConn, ALL_SUI, adverts)
    && w.rcv.state == WaitRIRsp && w.rcv.remoteSeq == 1
    && w.rcv.table.WellFormed() && w.rcv.peer.AurpPeer?
    && (forall n: Net :: StoredAdvert(w.rcv.table, w.rcv.peer, n).None?)
    && w.applied == [] && w.acks == {}
  }

  lemma NetworkChunksFlatten(nets: seq<Advert>, budget: nat)
    ensures Flatten(NetworkChunks(nets, budget)) == nets
  {
    if nets == [] {
      var none: seq<seq<Advert>> := [];
      FlattenPush(none, []);
      assert none + [[]] == NetworkChunks(nets, budget);
    } else {
      ChunksFlatten(nets, NetworkTupleSize, budget);
    }
  }

  lemma StartInOrder(w: World, s0: Sender, adverts: seq<Advert>, now: int)
    requires Starts(w, s0, adverts, now)
    ensures InOrder(w)
  {
    var p := w.issued[0];
    assert SeqNo(0) == 1;
    EndedPush([], p);
    assert [] + [p] == w.issued;
    assert Numbered(w.issued, w.snd.remoteConn) && Ordered(w.issued);
    assert SenderFits(w);
    assert ReceiverFits(w);
  }

  lemma StartReplicating(w: World, s0: Sender, adverts: seq<Advert>, now: int)
    requires Starts(w, s0, adverts, now)
    ensures Replicating(w)
  {
    StartSnapshot(w.src, adverts, now);
    KnownTracks(w.src);
    SnapshotExact(w.view, adverts);
    StartLog(s0, w.rcv.localConn, adverts);
    assert MirrorEvents(map[], Stream(w.applied)) == map[];
  }

  lemma StartSnapshot(src: Table, adverts: seq<Advert>, now: int)
    requires src.WellFormed() && src.Disjoint() && src.FreshAt(now) && IsSnapshot(src, now, adverts)
    ensures Snapshot(KnownView(src), adverts)
  {
    KnownTracks(src);
    forall a ensures a in adverts <==> ViewExports(KnownView(src), a) { TracksExports(KnownView(src), src, now, a); }
  }

  /** What is logged at the start is the snapshot. */
  lemma StartLog(s0: Sender, conn: U16, adverts: seq<Advert>)
    requires s0.state == SConnected && s0.remoteConn == conn && s0.pendingRIUpd == []
    ensures var (s, issued) := HandleRIReq(s0, conn, ALL_SUI, adverts); Log(issued, s) == TupleEvents(adverts)
  {
    var s1 := s0.(sui := ALL_SUI, localSeq := 1, pendingRIRsp := NetworkChunks(adverts, s0.budget));
    NetworkChunksFlatten(adverts, s0.budget);
    assert Flatten(s1.pendingRIUpd) == [];
    assert Stream([]) == [];
    assert Log([], s1) == TupleEvents(adverts);
    LogNextRIRsp([], s1);
    var (s, issued) := HandleRIReq(s0, conn, ALL_SUI, adverts);
    assert [] + issued == issued;
  }

  ghost predicate Ready(w: World, move: Move) {
    && |w.src.zones| == |w.rcv.table.zones| == NETWORKS
    && (forall i :: 0 <= i < |w.issued| ==> w.issued[i].RIRsp? || w.issued[i].RIUpd?)
    && Enabled(w, move)
  }

  ghost predicate Path(ws: seq<World>, moves: seq<Move>) {
    && |ws| == |moves| + 1
    && forall i :: 0 <= i < |moves| ==> Ready(ws[i], moves[i]) && ws[i + 1] == After(ws[i], moves[i])
  }

  lemma {:induction false} PathGood(ws: seq<World>, moves: seq<Move>, s0: Sender, adverts: seq<Advert>, now: int)
    requires Path(ws, moves) && Starts(ws[0], s0, adverts, now)
    ensures Good(ws[|moves|])
    decreases |moves|
  {
    if moves == [] {
      StartInOrder(ws[0], s0, adverts, now);
      StartReplicating(ws[0], s0, adverts, now);
    } else {
      var last := |moves| - 1;
      PathGood(ws[..last + 1], moves[..last], s0, adverts, now);
      MoveGood(ws[last], moves[last]);
    }
  }

  /** Exactly once, in order: after any moves, what the receiver has applied is a
      prefix of what the sender has issued, at most one packet short of it; the
      packets are numbered from 1 on; a packet is an RI-Upd exactly when a Last
      RI-Rsp precedes it; the receiver has not been reset; and it awaits the
      snapshot exactly until the snapshot's last packet is applied. */
  lemma ExactlyOnce(ws: seq<World>, moves: seq<Move>, s0: Sender, adverts: seq<Advert>, now: int)
    requires Path(ws, moves) && Starts(ws[0], s0, adverts, now)
    ensures var w := ws[|moves|];
            && |w.applied| <= |w.issued| <= |w.applied| + 1 && w.applied == w.issued[..|w.applied|]
            && (forall i :: 0 <= i < |w.issued| ==>
                  (w.issued[i].RIRsp? || w.issued[i].RIUpd?) && w.issued[i].seqNo == SeqNo(i))
            && (forall i :: 0 <= i < |w.issued| ==> (w.issued[i].RIUpd? <==> Ended(w.issued, i)))
            && w.rcv.localConn == w.snd.remoteConn && w.rcv.remoteSeq == SeqNo(|w.applied|)
            && (w.rcv.state == WaitRIRsp || w.rcv.state == RConnected || w.rcv.state == WaitTickleAck)
            && (w.rcv.state == WaitRIRsp <==> !exists j :: 0 <= j < |w.applied| && IsLast(w.applied[j]))
  {
    PathGood(ws, moves, s0, adverts, now);
    EndedApplied(ws[|moves|]);
  }

  lemma EndedApplied(w: World)
    requires |w.applied| <= |w.issued| && w.applied == w.issued[..|w.applied|]
    ensures Ended(w.issued, |w.applied|) <==> exists j :: 0 <= j < |w.applied| && IsLast(w.applied[j])
  {
    if j :| 0 <= j < |w.applied| && IsLast(w.applied[j]) { assert IsLast(w.issued[j]); }
    if Ended(w.issued, |w.applied|) {
      var j :| 0 <= j < |w.applied| && IsLast(w.issued[j]);
      assert IsLast(w.applied[j]);
    }
  }

  /** Neither the reset for a packet from the future nor the branch for an early
      RI-Upd is taken. */
  lemma NeverSurprised(ws: seq<World>, moves: seq<Move>, s0: Sender, adverts: seq<Advert>, now: int, i: nat, at: int)
    requires Path(ws, moves) && Starts(ws[0], s0, adverts, now)
    requires Ready(ws[|moves|], DeliverData(i, at))
    ensures var w := ws[|moves|]; var p := w.issued[i];
            && CheckSeq(w.rcv.remoteSeq, p.seqNo) != Future
            && (p.RIUpd? ==> w.rcv.state == RConnected || w.rcv.state == WaitTickleAck)
            && (CheckSeq(w.rcv.remoteSeq, p.seqNo) == Expected <==> i == |w.applied|)
  {
    PathGood(ws, moves, s0, adverts, now);
    ReceiveVerdict(ws[|moves|], i, at);
  }

  /** Nothing is left to send, to acknowledge or to announce. */
  predicate Quiescent(w: World) {
    && |w.applied| == |w.issued| && w.snd.pendingRIRsp == [] && w.snd.pendingRIUpd == [] && w.snd.pending == map[]
  }

  /** At network n the destination stores a route of the peer exactly if the source
      offers one starting there that is not too far, and then with the same range, one
      hop and the configured weight further away. */
  ghost predicate ReplicaAt(src: Table, now: int, dst: Table, peer: Target, extra: nat, n: Net)
    requires |src.zones| == NETWORKS
  {
    var k := RouteKey(peer.Key(), n);
    && (k in dst.routes <==> exists r :: Offers(src, now, r) && r.key.netStart == n && r.distance + 1 + extra <= 15)
    && forall r :: Offers(src, now, r) && r.key.netStart == n && k in dst.routes ==>
         && dst.routes[k].extended == r.extended && dst.routes[k].netEnd == r.netEnd
         && dst.routes[k].distance == r.distance + 1 + extra
  }

  /** End-to-end replication: whatever changes at the source and whatever the
      network does, once nothing is pending the receiver stores for the peer
      exactly the routes that the source offers. */
  lemma Replicated(ws: seq<World>, moves: seq<Move>, s0: Sender, adverts: seq<Advert>, start: int, now: int, n: Net)
    requires Path(ws, moves) && Starts(ws[0], s0, adverts, start)
    requires var w := ws[|moves|]; Quiescent(w) && w.src.WellFormed() && w.src.Disjoint() && w.src.FreshAt(now)
    ensures var w := ws[|moves|]; ReplicaAt(w.src, now, w.rcv.table, w.rcv.peer, w.rcv.extra, n)
  {
    var w := ws[|moves|];
    PathGood(ws, moves, s0, adverts, start);
    ReplicaStored(w, n);
    ReplicaMeans(w.view, w.src, now, w.rcv.table, w.rcv.peer, w.rcv.extra, n);
  }

  lemma ReplicaStored(w: World, n: Net)
    requires Good(w) && Quiescent(w)
    ensures StoredAdvert(w.rcv.table, w.rcv.peer, n) == Reached(ExportOf(Held(w.view, n)), w.rcv.extra)
  {
    LogQuiet(w.issued, w.snd);
    assert w.applied == w.issued && Flatten(w.snd.pendingRIUpd) == [];
    assert Log(w.issued, w.snd) == Stream(w.applied);
    assert InStepAt(MirrorEvents(map[], Stream(w.applied)), w.view, map[], n);
  }

  lemma ReplicaMeans(view: View, src: Table, now: int, dst: Table, peer: Target, extra: nat, n: Net)
    requires src.WellFormed() && src.Disjoint() && src.FreshAt(now) && Tracks(view, src)
    requires StoredAdvert(dst, peer, n) == Reached(ExportOf(Held(view, n)), extra)
    ensures ReplicaAt(src, now, dst, peer, extra, n)
  {
    var shown := ExportOf(Held(view, n));
    forall r | Offers(src, now, r) && r.key.netStart == n
      ensures shown == Some(Advert(r.extended, r.key.netStart, r.netEnd, r.distance))
    {
      var a := Advert(r.extended, r.key.netStart, r.netEnd, r.distance);
      ExportsMeans(src, now, a);
      TracksExports(view, src, now, a);
    }
    if shown.Some? {
      assert KnowsAt(view, n, BestOf(src, n));
      TracksExports(view, src, now, shown.value);
      ExportsMeans(src, now, shown.value);
    }
  }
}

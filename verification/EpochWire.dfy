/** The packets of an epoch on the wire: every sequenced packet a sender issues is
    written within the datagram budget and parsed back as it was (the replication of
    router/aurp_routing.go and router/aurp_peer.go over the formats of aurp/). */
module EpochWire {
  import opened Routes
  import opened Observers
  import opened Replication
  import opened Chunking
  import opened PeerSpec
  import opened Epoch
  import opened Datagrams
  import W = Wire
  import P = Packets

  const LAST_FLAG := 0x8000

  /** A sequenced packet whose distances leave the flag bit free. */
  predicate Short(p: Packet) {
    match p
    case RIRsp(_, _, _, nets) => forall k :: 0 <= k < |nets| ==> nets[k].distance < 0x80
    case RIUpd(_, _, es) => forall k :: 0 <= k < |es| ==> es[k].distance < 0x80
    case _ => false
  }

  /** A sequenced packet as the transport makes it. */
  function ToWire(domain: W.DomainHeader, p: Packet): P.Packet
    requires Short(p)
  {
    match p
    case RIRsp(c, q, last, nets) =>
      P.RIRsp(W.Header(domain, c, q, 2, if last then LAST_FLAG else 0), WireNetworks(nets))
    case RIUpd(c, q, es) => P.RIUpd(W.Header(domain, c, q, 4, 0), WireEvents(es))
  }

  function CodeOf(b: W.Byte): EventCode {
    if b == 0 then NullEvent
    else if b == 1 then NA
    else if b == 2 then ND
    else if b == 3 then NRC
    else if b == 4 then NDC
    else ZC
  }

  /** RFC 1504 numbers the events. */
  function CodeNumber(c: EventCode): nat {
    match c case NullEvent => 0 case NA => 1 case ND => 2 case NRC => 3 case NDC => 4 case ZC => 5
  }

  function AdvertFrom(t: W.NetworkTuple): Advert { Advert(t.extended, t.start, t.end, t.distance) }

  function EventFrom(t: W.EventTuple): EventTuple { EventTuple(CodeOf(t.code), t.extended, t.start, t.end, t.distance) }

  /** What the receiver takes a parsed packet for. */
  function FromWire(p: P.Packet): Packet
    requires p.RIRsp? || p.RIUpd?
  {
    match p
    case RIRsp(h, nets) =>
      RIRsp(h.connId, h.sequence, h.flags / LAST_FLAG % 2 == 1,
            seq(|nets|, i requires 0 <= i < |nets| => AdvertFrom(nets[i])))
    case RIUpd(h, es) => RIUpd(h.connId, h.sequence, seq(|es|, i requires 0 <= i < |es| => EventFrom(es[i])))
  }

  // ----- Budgets -----

  /** What the tuples of a packet take. */
  function PayloadSize(p: Packet): nat {
    match p
    case RIRsp(_, _, _, nets) => Total(nets, NetworkTupleSize)
    case RIUpd(_, _, es) => Total(es, EventTupleSize)
    case _ => 0
  }

  ghost predicate ChunksFit<T(!new)>(chunks: seq<seq<T>>, size: T -> nat, budget: nat) {
    forall i :: 0 <= i < |chunks| ==> Total(chunks[i], size) <= budget
  }

  ghost predicate SenderSized(s: Sender) {
    s.budget >= 6 && ChunksFit(s.pendingRIRsp, NetworkTupleSize, s.budget)
    && ChunksFit(s.pendingRIUpd, EventTupleSize, s.budget)
  }

  lemma NetworkChunksFit(nets: seq<Advert>, budget: nat)
    requires budget >= 6
    ensures ChunksFit(NetworkChunks(nets, budget), NetworkTupleSize, budget)
  {
    ChunksPacked(nets, NetworkTupleSize, budget);
    forall i | 0 <= i < |NetworkChunks(nets, budget)|
      ensures Total(NetworkChunks(nets, budget)[i], NetworkTupleSize) <= budget {
      if nets != [] { assert Chunking.Fits(NetworkChunks(nets, budget)[i], NetworkTupleSize, budget); }
    }
  }

  lemma EventChunksFit(es: seq<EventTuple>, budget: nat)
    requires budget >= 6
    ensures ChunksFit(EventChunks(es, budget), EventTupleSize, budget)
  {
    ChunksPacked(es, EventTupleSize, budget);
    forall i | 0 <= i < |EventChunks(es, budget)| ensures Total(EventChunks(es, budget)[i], EventTupleSize) <= budget {
      assert Chunking.Fits(EventChunks(es, budget)[i], EventTupleSize, budget);
    }
  }

  lemma NullSize(p: Packet)
    requires p.RIUpd? && p.events == [NULL_EVENT]
    ensures PayloadSize(p) == 1
  {
    assert p.events[..0] == [] && Total(p.events[..0], EventTupleSize) == 0;
  }

  ghost predicate StaysSized(s: Sender, o: SOut) {
    && SenderSized(o.0) && o.0.budget == s.budget
    && (o.0.localSeq != s.localSeq ==> forall k :: 0 <= k < |o.1| ==> PayloadSize(o.1[k]) <= s.budget)
  }

  lemma NullSized(s: Sender)
    requires SenderSized(s)
    ensures SenderSized(SendNull(s).0) && SendNull(s).0.budget == s.budget && PayloadSize(SendNull(s).1[0]) <= s.budget
  {
    NullSize(SendNull(s).1[0]);
  }

  /** The next chunk of either kind. */
  lemma ChunkSized(s: Sender)
    requires SenderSized(s)
    ensures s.pendingRIRsp != [] ==>
              var (s', out) := SendNextRIRsp(s);
              SenderSized(s') && s'.budget == s.budget && PayloadSize(out[0]) <= s.budget
    ensures s.pendingRIUpd != [] ==>
              var (s', out) := SendNextRIUpd(s);
              SenderSized(s') && s'.budget == s.budget && PayloadSize(out[0]) <= s.budget
  {
  }

  lemma TickSized(s: Sender, updateDue: bool, retryDue: bool, exhausted: bool)
    requires SenderSized(s)
    ensures StaysSized(s, SenderTick(s, updateDue, retryDue, exhausted))
  {
    if s.state == SConnected && updateDue {
      FlushSized(s);
    }
  }

  lemma FlushSized(s: Sender)
    requires SenderSized(s)
    ensures var es := Events(s.pending);
            var s1 := Advance(s.(pending := map[], pendingRIUpd := EventChunks(es, s.budget)));
            es != [] ==> var (s', out) := SendNextRIUpd(s1);
                         SenderSized(s') && s'.budget == s.budget && |out| == 1 && PayloadSize(out[0]) <= s.budget
  {
    var es := Events(s.pending);
    EventChunksFit(es, s.budget);
    ChunkSized(Advance(s.(pending := map[], pendingRIUpd := EventChunks(es, s.budget))));
  }

  lemma ReqSized(s: Sender, conn: U16, sui: Sui, nets: seq<Advert>)
    requires SenderSized(s)
    ensures StaysSized(s, HandleRIReq(s, conn, sui, nets))
  {
    NetworkChunksFit(nets, s.budget);
    ChunkSized(s.(sui := sui, localSeq := 1, pendingRIRsp := NetworkChunks(nets, s.budget)));
  }

  lemma AckSized(s: Sender, conn: U16, seqNo: U16)
    requires SenderSized(s)
    ensures StaysSized(s, HandleRIAck(s, conn, seqNo))
  {
    ChunkSized(Advance(s));
  }

  /** A sender with chunks within its budget keeps them so, and issues packets within
      it. */
  lemma SenderStaysSized(s: Sender, i: SInput)
    requires SenderSized(s)
    ensures StaysSized(s, SenderNext(s, i))
  {
    match i
    case GotOpenReq(_, _, _, _) => NullSized(Advance(s).(restartProbe := true));
    case GotRIReq(c, sui, nets) => ReqSized(s, c, sui, nets);
    case GotRIAck(c, q) => AckSized(s, c, q);
    case Ticked(u, r, x) => TickSized(s, u, r, x);
    case Probe => NullSized(Advance(s));
    case _ =>
  }

  ghost predicate Sized(w: World) {
    SenderSized(w.snd) && forall i :: 0 <= i < |w.issued| ==> PayloadSize(w.issued[i]) <= w.snd.budget
  }

  lemma MoveSized(w: World, move: Move)
    requires Sized(w) && Ready(w, move)
    ensures Sized(After(w, move)) && After(w, move).snd.budget == w.snd.budget
  {
    match move
    case ToSender(i) => SenderStaysSized(w.snd, i);
    case DeliverAck(i) => SenderStaysSized(w.snd, GotRIAck(w.issued[i].conn, w.issued[i].seqNo));
    case _ =>
  }

  lemma {:induction false} PathSized(ws: seq<World>, moves: seq<Move>, s0: Sender, adverts: seq<Advert>, now: int)
    requires Path(ws, moves) && Starts(ws[0], s0, adverts, now) && s0.budget >= 6
    ensures Sized(ws[|moves|]) && ws[|moves|].snd.budget == s0.budget
    decreases |moves|
  {
    if moves == [] {
      NetworkChunksFit(adverts, s0.budget);
    } else {
      var last := |moves| - 1;
      PathSized(ws[..last + 1], moves[..last], s0, adverts, now);
      MoveSized(ws[last], moves[last]);
    }
  }

  // ----- Round trip -----

  /** The encoding carries all of a sequenced packet. */
  ghost predicate Carried(p: Packet) {
    (p.RIRsp? || p.RIUpd?) && forall k :: 0 <= k < |EventsOf(p)| ==> Writable(EventsOf(p)[k])
  }

  lemma CarriedShort(p: Packet)
    requires Carried(p)
    ensures Short(p)
    ensures p.RIRsp? ==>
              forall k :: 0 <= k < |p.nets| ==> !p.nets[k].extended ==> p.nets[k].netStart == p.nets[k].netEnd
  {
    if p.RIRsp? {
      forall k | 0 <= k < |p.nets|
        ensures p.nets[k].distance < 0x80 && (!p.nets[k].extended ==> p.nets[k].netStart == p.nets[k].netEnd)
      {
        assert EventsOf(p)[k] == TupleEvent(p.nets[k]);
      }
    } else {
      assert EventsOf(p) == p.events;
      forall k | 0 <= k < |p.events| ensures p.events[k].distance < 0x80 {
        assert Writable(EventsOf(p)[k]);
      }
    }
  }

  lemma WireWellFormed(domain: W.DomainHeader, p: Packet)
    requires P.ValidDomain(domain, W.ROUTING_PACKET) && Carried(p) && Short(p)
    ensures P.WellFormed(ToWire(domain, p)) && FromWire(ToWire(domain, p)) == p
  {
    CarriedShort(p);
    var q := ToWire(domain, p);
    if p.RIRsp? {
      assert FromWire(q).nets == p.nets;
    } else {
      assert EventsOf(p) == p.events;
      forall k | 0 <= k < |p.events| ensures W.ValidEvent(q.events[k]) && EventFrom(q.events[k]) == p.events[k] {
        assert Writable(EventsOf(p)[k]);
      }
      assert FromWire(q).events == p.events;
    }
  }

  lemma WireSize(domain: W.DomainHeader, p: Packet)
    requires P.ValidDomain(domain, W.ROUTING_PACKET) && Short(p)
    ensures var q := ToWire(domain, p);
            var b := P.WritePacket(q);
            b.Some? && W.WriteHeader(q.header).Some? && |b.value| == |W.WriteHeader(q.header).value| + PayloadSize(p)
  {
    if p.RIRsp? {
      NetworksSize(p.nets);
    } else {
      EventsSize(p.events);
    }
  }

  /** A sequenced packet that the encoding carries is written within what its headers
      and tuples take, and comes back from the parser as it was. */
  lemma WireRoundTrip(domain: W.DomainHeader, p: Packet)
    requires P.ValidDomain(domain, W.ROUTING_PACKET) && Carried(p)
    ensures Short(p)
    ensures var q := ToWire(domain, p);
            var b := P.WritePacket(q);
            b.Some? && P.ParsePacket(b.value) == Some(q) && FromWire(q) == p
    ensures var q := ToWire(domain, p);
            && q.header.connId == p.conn && q.header.sequence == p.seqNo
            && q.header.command == (if p.RIRsp? then 2 else 4)
            && q.header.flags == (if p.RIRsp? && p.last then 0x8000 else 0)
            && (p.RIUpd? ==>
                  && |q.events| == |p.events|
                  && forall k :: 0 <= k < |p.events| ==> q.events[k].code == CodeNumber(p.events[k].code))
  {
    CarriedShort(p);
    WireWellFormed(domain, p);
    P.PacketRoundTrip(ToWire(domain, p));
  }

  /** Headers of one domain header have one length. */
  lemma HeaderLength(h: W.Header, h': W.Header)
    requires P.ValidDomain(h.domain, W.ROUTING_PACKET) && h'.domain == h.domain
    ensures W.WriteHeader(h).Some? && W.WriteHeader(h').Some?
    ensures |W.WriteHeader(h).value| == |W.WriteHeader(h').value|
  {
  }

  /** Replication reaches the wire: in any epoch of a sender whose budget is what its
      headers leave, every packet it has issued is written in at most 1400 bytes, and
      the receiver parses from them that very packet. */
  lemma IssuedOnWire(ws: seq<World>, moves: seq<Move>, s0: Sender, adverts: seq<Advert>, now: int, h: W.Header, i: nat)
    requires Path(ws, moves) && Starts(ws[0], s0, adverts, now)
    requires P.ValidDomain(h.domain, W.ROUTING_PACKET) && s0.budget == PayloadBudget(h)
    requires i < |ws[|moves|].issued|
    ensures var p := ws[|moves|].issued[i];
            && Short(p)
            && var b := P.WritePacket(ToWire(h.domain, p));
               && b.Some? && |b.value| <= 1400
               && P.ParsePacket(b.value) == Some(ToWire(h.domain, p)) && FromWire(ToWire(h.domain, p)) == p
  {
    PathGood(ws, moves, s0, adverts, now);
    PathSized(ws, moves, s0, adverts, now);
    var w := ws[|moves|];
    var p := w.issued[i];
    IssuedCarried(w, i);
    WireRoundTrip(h.domain, p);
    WireSize(h.domain, p);
    HeaderLength(h, ToWire(h.domain, p).header);
  }

  lemma IssuedCarried(w: World, i: nat)
    requires Good(w) && i < |w.issued|
    ensures Carried(w.issued[i])
  {
    forall k | 0 <= k < |EventsOf(w.issued[i])| ensures Writable(EventsOf(w.issued[i])[k]) {
      PacketWritable(w.issued, w.snd, i, k);
    }
  }
}

/** The two state machines of an AURP peer (router/aurp_peer.go) as functions
    from a state and an input to a state and the packets sent. */
module PeerSpec {
  import opened Routes
  import opened RouteSpec
  import opened Observers
  import opened Replication
  import opened Chunking

  /** The next and the previous sequence number or connection ID; 0 is skipped. */
  function Succ(n: U16): (m: U16)
    ensures m == if n == 0xFFFF then 1 else n + 1
  {
    var m := (n + 1) % 0x1_0000; if m == 0 then 1 else m
  }

  function Pred(n: U16): (m: U16)
    ensures m == if n <= 1 then 0xFFFF else n - 1
  {
    var m := (n + 0xFFFF) % 0x1_0000; if m == 0 then 0xFFFF else m
  }

  /** Both go around the non-zero numbers, in opposite directions. */
  lemma SuccPred(n: U16, m: U16)
    requires n != 0 && m != 0
    ensures Succ(n) == m <==> Pred(m) == n
    ensures Succ(n) != 0 && Pred(n) != 0
  {
  }

  datatype Packet =
    | OpenReq(conn: U16, sui: Sui, version: nat)
    | OpenRsp(conn: U16, rate: int)
    | RIReq(conn: U16, sui: Sui)
    | RIRsp(conn: U16, seqNo: U16, last: bool, nets: seq<Advert>)
    | RIAck(conn: U16, seqNo: U16, sendZoneInfo: bool)
    | RIUpd(conn: U16, seqNo: U16, events: seq<EventTuple>)
    | RD(conn: U16, seqNo: U16, code: int)
    | Tickle(conn: U16)
    | TickleAck(conn: U16)
    | ZIRspExt(conn: U16, network: Net, total: nat, names: seq<string>)

  const NULL_EVENT := EventTuple(NullEvent, false, 0, 0, 0)
  const NORMAL_CLOSE := -1
  const ROUTING_LOOP := -2
  const INVALID_VERSION := -5

  // ----- Chunks -----

  function NetworkTupleSize(a: Advert): nat { if a.extended then 6 else 3 }
  function EventTupleSize(e: EventTuple): nat {
    if e.code == NullEvent then 1 else if e.extended then 6 else 4
  }

  /** An empty snapshot is one empty chunk. */
  function NetworkChunks(nets: seq<Advert>, budget: nat): (chunks: seq<seq<Advert>>)
    ensures chunks != []
  {
    if nets == [] then [[]] else Chunks(nets, NetworkTupleSize, budget)
  }

  function EventChunks(es: seq<EventTuple>, budget: nat): (chunks: seq<seq<EventTuple>>)
    ensures es != [] ==> chunks != []
  {
    Chunks(es, EventTupleSize, budget)
  }

  // ----- The sender -----

  datatype SenderState = SUnconnected | SConnected | WaitRIRspAck | WaitRIUpdAck | WaitRDAck

  /** The data sender's half of a peer. `budget` is what a datagram leaves for
      tuples. */
  datatype Sender = Sender(
    state: SenderState,
    localSeq: U16,
    remoteConn: U16,
    lastSent: Option<Packet>,
    restartProbe: bool,
    pendingRIRsp: seq<seq<Advert>>,
    pendingRIUpd: seq<seq<EventTuple>>,
    pending: Pending,
    sui: Sui,
    budget: nat)
  {
    /** checkRemoteConnID: anything goes before a connection ID is known. */
    predicate KnowsConn(conn: U16) { remoteConn == 0 || conn == remoteConn }

    predicate Waiting() { state == WaitRIRspAck || state == WaitRIUpdAck || state == WaitRDAck }
  }

  type SOut = (Sender, seq<Packet>)

  function DisconnectSender(s: Sender): Sender {
    s.(state := SUnconnected, localSeq := 1, remoteConn := 0, lastSent := None, restartProbe := false,
       pendingRIRsp := [], pendingRIUpd := [], pending := map[])
  }

  /** Send a sequenced packet and wait for its acknowledgement. */
  function Issue(s: Sender, pkt: Packet, state: SenderState): SOut {
    (s.(lastSent := Some(pkt), state := state), [pkt])
  }

  function Advance(s: Sender): Sender { s.(localSeq := Succ(s.localSeq)) }

  function SendNextRIRsp(s: Sender): SOut
    requires s.pendingRIRsp != []
  {
    Issue(s.(pendingRIRsp := s.pendingRIRsp[1..]),
          RIRsp(s.remoteConn, s.localSeq, |s.pendingRIRsp| == 1, s.pendingRIRsp[0]), WaitRIRspAck)
  }

  function SendNextRIUpd(s: Sender): SOut
    requires s.pendingRIUpd != []
  {
    Issue(s.(pendingRIUpd := s.pendingRIUpd[1..]), RIUpd(s.remoteConn, s.localSeq, s.pendingRIUpd[0]), WaitRIUpdAck)
  }

  /** A null RI-Upd, to see whether the other side is still there. */
  function SendNull(s: Sender): SOut { Issue(s, RIUpd(s.remoteConn, s.localSeq, [NULL_EVENT]), WaitRIUpdAck) }

  function AcceptOpen(s: Sender, conn: U16, sui: Sui, version: nat, rate: nat): SOut {
    var s1 := s.(remoteConn := conn, sui := sui);
    if version != 1 then (s1, [OpenRsp(conn, INVALID_VERSION)])
    else (s1.(state := SConnected), [OpenRsp(conn, rate)])
  }

  function HandleOpenReq(s: Sender, conn: U16, sui: Sui, version: nat, rate: nat): SOut {
    if s.state == SUnconnected then AcceptOpen(s, conn, sui, version, rate)
    else if s.remoteConn == 0 || s.state != SConnected then (s, [])
    else if conn == s.remoteConn then AcceptOpen(s, conn, sui, version, rate)
    else SendNull(Advance(s).(restartProbe := true))
  }

  function HandleRIReq(s: Sender, conn: U16, sui: Sui, exported: seq<Advert>): SOut {
    if !s.KnowsConn(conn) || s.state != SConnected then (s, [])
    else SendNextRIRsp(s.(sui := sui, localSeq := 1, pendingRIRsp := NetworkChunks(exported, s.budget)))
  }

  function HandleRIAck(s: Sender, conn: U16, seqNo: U16): SOut {
    if !s.KnowsConn(conn) || seqNo != s.localSeq then (s, [])
    else if s.state == WaitRIUpdAck && s.restartProbe then
      (s.(restartProbe := false, lastSent := None, state := SConnected), [])
    else if s.state == WaitRDAck then (DisconnectSender(s), [])
    else if s.state == WaitRIRspAck && s.pendingRIRsp != [] then SendNextRIRsp(Advance(s))
    else if s.state == WaitRIUpdAck && s.pendingRIUpd != [] then SendNextRIUpd(Advance(s))
    else (s.(state := SConnected), [])
  }

  /** stickerTasks. The clocks are inputs: whether the update interval has
      passed, the retry interval has passed, the retries are used up. */
  function SenderTick(s: Sender, updateDue: bool, retryDue: bool, exhausted: bool): SOut {
    match s.state
    case SUnconnected => (s, [])
    case SConnected =>
      var es := Events(s.pending);
      if !updateDue then (s, [])
      else if es == [] then (s.(pending := map[]), [])
      else SendNextRIUpd(Advance(s.(pending := map[], pendingRIUpd := EventChunks(es, s.budget))))
    case WaitRDAck =>
      if !retryDue then (s, [])
      else if s.lastSent.None? || exhausted then (DisconnectSender(s), [])
      else (s, [s.lastSent.value])
    case _ =>
      if !retryDue || s.lastSent.None? then (s, [])
      else if exhausted then (if s.restartProbe then DisconnectSender(s) else s.(state := SUnconnected), [])
      else (s, [s.lastSent.value])
  }

  /** rtickerTasks while the receiver half is unconnected. */
  function ProbeSender(s: Sender): SOut { if s.state == SConnected then SendNull(Advance(s)) else (s, []) }

  function StartShutdown(s: Sender): SOut {
    if s.state != SConnected then (s, [])
    else
      var s1 := Advance(s);
      Issue(s1, RD(s1.remoteConn, s1.localSeq, NORMAL_CLOSE), WaitRDAck)
  }

  /** A Router Down from the remote data receiver. */
  function HandleReceiverDown(s: Sender, conn: U16): SOut {
    if s.KnowsConn(conn) then (DisconnectSender(s), []) else (s, [])
  }

  function LoopDetected(s: Sender): SOut {
    (DisconnectSender(s),
     if s.state == SUnconnected then [] else [RD(s.remoteConn, Succ(s.localSeq), ROUTING_LOOP)])
  }

  /** The observer callbacks. */
  function HearNotes(s: Sender, notes: seq<Note>): Sender {
    if s.state == SUnconnected then s else s.(pending := QueueNotes(s.pending, s.sui, notes))
  }

  /** A Tickle is answered at once and changes nothing. */
  function TickleReply(s: Sender, conn: U16): seq<Packet> {
    if s.KnowsConn(conn) then [TickleAck(s.remoteConn)] else []
  }

  datatype SInput =
    | GotOpenReq(conn: U16, sui: Sui, version: nat, rate: nat)
    | GotRIReq(conn: U16, sui: Sui, exported: seq<Advert>)
    | GotRIAck(conn: U16, seqNo: U16)
    | GotReceiverDown(conn: U16)
    | Ticked(updateDue: bool, retryDue: bool, exhausted: bool)
    | Probe
    | Shutdown
    | Loop
    | Noted(notes: seq<Note>)

  function SenderNext(s: Sender, i: SInput): SOut {
    match i
    case GotOpenReq(c, sui, v, r) => HandleOpenReq(s, c, sui, v, r)
    case GotRIReq(c, sui, nets) => HandleRIReq(s, c, sui, nets)
    case GotRIAck(c, q) => HandleRIAck(s, c, q)
    case GotReceiverDown(c) => HandleReceiverDown(s, c)
    case Ticked(u, r, x) => SenderTick(s, u, r, x)
    case Probe => ProbeSender(s)
    case Shutdown => StartShutdown(s)
    case Loop => LoopDetected(s)
    case Noted(ns) => (HearNotes(s, ns), [])
  }

  // ----- One outstanding packet -----

  /** In a waiting state the outstanding packet exists, is of the awaited kind and
      bears the current sequence number and connection ID; a restart probe is
      under way only while waiting for an RI-Upd's acknowledgement. */
  predicate OneOutstanding(s: Sender) {
    && (s.state == WaitRIRspAck ==> s.lastSent.Some? && s.lastSent.value.RIRsp?)
    && (s.state == WaitRIUpdAck ==> s.lastSent.Some? && s.lastSent.value.RIUpd?)
    && (s.state == WaitRDAck ==> s.lastSent.Some? && s.lastSent.value.RD?)
    && (s.Waiting() ==> s.lastSent.value.conn == s.remoteConn && s.lastSent.value.seqNo == s.localSeq)
    && (s.restartProbe ==> s.state == WaitRIUpdAck)
  }

  function SenderRun(s: Sender, inputs: seq<SInput>): Sender {
    if inputs == [] then s else SenderNext(SenderRun(s, inputs[..|inputs| - 1]), inputs[|inputs| - 1]).0
  }

  function NewSender(budget: nat): Sender {
    Sender(SUnconnected, 1, 0, None, false, [], [], map[], Sui(false, false, false, false), budget)
  }

  lemma OutstandingStep(s: Sender, i: SInput)
    requires OneOutstanding(s)
    ensures OneOutstanding(SenderNext(s, i).0)
  {
  }

  /** In every reachable state at most one packet is outstanding, and it is the
      one to retransmit. */
  lemma {:induction false} OutstandingAlways(budget: nat, inputs: seq<SInput>)
    ensures OneOutstanding(SenderRun(NewSender(budget), inputs))
  {
    if inputs != [] {
      OutstandingAlways(budget, inputs[..|inputs| - 1]);
      OutstandingStep(SenderRun(NewSender(budget), inputs[..|inputs| - 1]), inputs[|inputs| - 1]);
    }
  }

  /** What ends the wait for an acknowledgement: it arrives, the sender gives up,
      the receiver goes down, or a routing loop closes the tunnel. */
  predicate EndsWait(s: Sender, i: SInput) {
    match i
    case GotRIAck(conn, seqNo) => s.KnowsConn(conn) && seqNo == s.localSeq
    case Ticked(_, retryDue, exhausted) => retryDue && exhausted
    case GotReceiverDown(conn) => s.KnowsConn(conn)
    case Loop => true
    case _ => false
  }

  function SenderOutputs(s: Sender, inputs: seq<SInput>): seq<Packet> {
    if inputs == [] then []
    else SenderOutputs(s, inputs[..|inputs| - 1])
         + SenderNext(SenderRun(s, inputs[..|inputs| - 1]), inputs[|inputs| - 1]).1
  }

  ghost predicate NothingEndsWait(s: Sender, inputs: seq<SInput>) {
    forall i :: 0 <= i < |inputs| ==> !EndsWait(SenderRun(s, inputs[..i]), inputs[i])
  }

  lemma KeptStep(s: Sender, i: SInput)
    requires OneOutstanding(s) && s.Waiting() && !EndsWait(s, i)
    ensures var (s', out) := SenderNext(s, i);
            && s'.state == s.state && s'.lastSent == s.lastSent && s'.localSeq == s.localSeq
            && s'.remoteConn == s.remoteConn && s'.restartProbe == s.restartProbe
            && forall p :: p in out ==> p == s.lastSent.value
  {
  }

  /** Until something ends the wait, whatever else arrives (RI-Req, competing
      Open-Req, table changes, ticks), the outstanding packet stays the same and
      is the only packet the sender sends. */
  lemma {:induction false} OutstandingKept(s: Sender, inputs: seq<SInput>)
    requires OneOutstanding(s) && s.Waiting() && NothingEndsWait(s, inputs)
    ensures var s' := SenderRun(s, inputs);
            && s'.state == s.state && s'.lastSent == s.lastSent && s'.localSeq == s.localSeq
            && s'.remoteConn == s.remoteConn && s'.restartProbe == s.restartProbe
    ensures forall p :: p in SenderOutputs(s, inputs) ==> p == s.lastSent.value
  {
    if inputs != [] {
      var init := inputs[..|inputs| - 1];
      forall i | 0 <= i < |init| ensures !EndsWait(SenderRun(s, init[..i]), init[i]) {
        assert init[..i] == inputs[..i];
      }
      OutstandingKept(s, init);
      KeptStep(SenderRun(s, init), inputs[|inputs| - 1]);
      assert inputs[..|inputs| - 1] == init;
    }
  }

  lemma ConnStep(s: Sender, i: SInput)
    requires s.state != SUnconnected && SenderNext(s, i).0.state != SUnconnected
    ensures SenderNext(s, i).0.remoteConn == s.remoteConn
  {
  }

  ghost predicate StaysConnected(s: Sender, inputs: seq<SInput>) {
    s.state != SUnconnected
    && (inputs == [] || (StaysConnected(s, inputs[..|inputs| - 1]) && SenderRun(s, inputs).state != SUnconnected))
  }

  /** The connection ID is constant while the sender is not unconnected. */
  lemma {:induction false} ConnConstant(s: Sender, inputs: seq<SInput>)
    requires StaysConnected(s, inputs)
    ensures SenderRun(s, inputs).remoteConn == s.remoteConn && SenderRun(s, inputs).state != SUnconnected
  {
    if inputs != [] {
      ConnConstant(s, inputs[..|inputs| - 1]);
      ConnStep(SenderRun(s, inputs[..|inputs| - 1]), inputs[|inputs| - 1]);
    }
  }
}

/** An epoch can always come to rest: however much is in flight or pending, finitely
    many deliveries, acknowledgements and ticks send all of it, and then the
    receiver's table shows the sender's as it is. */
module Settling {
  import opened Routes
  import opened RouteSpec
  import opened Observers
  import opened Replication
  import opened PeerSpec
  import opened ReceiverSpec
  import opened Epoch

  /** Moves of the network and the sender's clock; no table changes and nobody restarts. */
  predicate Quiet(move: Move) {
    move.DeliverData? || move.DeliverAck? || (move.ToSender? && move.input.Ticked?)
  }

  ghost predicate Leads(w: World, ws: seq<World>, moves: seq<Move>, w': World) {
    Path(ws, moves) && ws[0] == w && ws[|moves|] == w' && forall i :: 0 <= i < |moves| ==> Quiet(moves[i])
  }

  /** Step i of a path. */
  ghost predicate StepAt(ws: seq<World>, moves: seq<Move>, i: nat)
    requires i < |moves| < |ws|
  {
    Ready(ws[i], moves[i]) && ws[i + 1] == After(ws[i], moves[i])
  }

  lemma StepsPath(ws: seq<World>, moves: seq<Move>)
    requires |ws| == |moves| + 1 && forall i :: 0 <= i < |moves| ==> StepAt(ws, moves, i)
    ensures Path(ws, moves)
  {
    forall i | 0 <= i < |moves| ensures Ready(ws[i], moves[i]) && ws[i + 1] == After(ws[i], moves[i]) {
      assert StepAt(ws, moves, i);
    }
  }

  lemma SameStep(ws: seq<World>, moves: seq<Move>, i: nat, ws': seq<World>, moves': seq<Move>, j: nat)
    requires Path(ws, moves) && i < |moves| && j < |moves'| < |ws'|
    requires ws'[j] == ws[i] && ws'[j + 1] == ws[i + 1] && moves'[j] == moves[i]
    ensures StepAt(ws', moves', j)
  {
    assert Ready(ws[i], moves[i]);
  }

  lemma PathJoin(ws: seq<World>, moves: seq<Move>, ws': seq<World>, moves': seq<Move>)
    requires Path(ws, moves) && Path(ws', moves') && ws[|moves|] == ws'[0]
    ensures Path(ws + ws'[1..], moves + moves') && (ws + ws'[1..])[|moves| + |moves'|] == ws'[|moves'|]
  {
    var all, steps := ws + ws'[1..], moves + moves';
    forall i | 0 <= i < |steps| ensures StepAt(all, steps, i) {
      if i < |moves| {
        SameStep(ws, moves, i, all, steps, i);
      } else {
        SameStep(ws', moves', i - |moves|, all, steps, i);
      }
    }
    StepsPath(all, steps);
  }

  lemma LeadsJoin(w: World, ws: seq<World>, moves: seq<Move>, w': World, ws': seq<World>, moves': seq<Move>, w'': World)
    requires Leads(w, ws, moves, w') && Leads(w', ws', moves', w'')
    ensures Leads(w, ws + ws'[1..], moves + moves', w'')
  {
    PathJoin(ws, moves, ws', moves');
  }

  /** One move is a path. */
  lemma OneMove(w: World, move: Move) returns (ws: seq<World>, moves: seq<Move>)
    requires Ready(w, move) && Quiet(move)
    ensures Leads(w, ws, moves, After(w, move))
  {
    ws, moves := [w, After(w, move)], [move];
    assert StepAt(ws, moves, 0);
    StepsPath(ws, moves);
  }

  lemma GoodReady(w: World, move: Move)
    requires InOrder(w) && Enabled(w, move)
    ensures Ready(w, move)
  {
  }

  /** The expected packet and the one before it are acknowledged. */
  lemma DataAcknowledged(w: World, i: nat, now: int)
    requires InOrder(w) && Enabled(w, DeliverData(i, now)) && i <= |w.applied| <= i + 1
    ensures Acknowledges(Receive(w.rcv, w.issued[i], now).1, w.issued[i])
  {
    ReceiveVerdict(w, i, now);
    var out := Receive(w.rcv, w.issued[i], now).1;
    assert out[0].RIAck? && out[0].conn == w.issued[i].conn && out[0].seqNo == w.issued[i].seqNo;
  }

  /** The last packet is applied, if it was not, and its acknowledgement is on its way. */
  lemma LastApplied(w: World, now: int) returns (ws: seq<World>, moves: seq<Move>, w': World)
    requires Good(w)
    ensures Leads(w, ws, moves, w') && Good(w')
    ensures w'.snd == w.snd && w'.issued == w.issued && w'.src == w.src
    ensures |w'.issued| - 1 in w'.acks
  {
    var last := |w.issued| - 1;
    DataAcknowledged(w, last, now);
    GoodReady(w, DeliverData(last, now));
    MoveGood(w, DeliverData(last, now));
    ws, moves := OneMove(w, DeliverData(last, now));
    w' := After(w, DeliverData(last, now));
  }

  function Unsent(s: Sender): nat { |s.pendingRIRsp| + |s.pendingRIUpd| }

  /** An acknowledgement of the last packet sends the next chunk or ends the wait. */
  lemma AckAdvances(w: World)
    requires InOrder(w) && w.snd.state != SConnected
    ensures var p := w.issued[|w.issued| - 1];
            var s := HandleRIAck(w.snd, p.conn, p.seqNo).0;
            && s.pending == w.snd.pending
            && (s.state == SConnected || Unsent(s) < Unsent(w.snd))
  {
  }

  lemma LastAcknowledged(w: World) returns (ws: seq<World>, moves: seq<Move>, w': World)
    requires Good(w) && w.snd.state != SConnected && |w.issued| - 1 in w.acks
    ensures Leads(w, ws, moves, w') && Good(w')
    ensures w'.src == w.src && w'.snd.pending == w.snd.pending
    ensures w'.snd.state == SConnected || Unsent(w'.snd) < Unsent(w.snd)
  {
    var last := |w.issued| - 1;
    AckReady(w);
    MoveGood(w, DeliverAck(last));
    ws, moves := OneMove(w, DeliverAck(last));
    w' := After(w, DeliverAck(last));
    AckMoves(w);
  }

  lemma AckReady(w: World)
    requires InOrder(w) && |w.issued| - 1 in w.acks
    ensures Ready(w, DeliverAck(|w.issued| - 1))
  {
    GoodReady(w, DeliverAck(|w.issued| - 1));
  }

  lemma AckMoves(w: World)
    requires InOrder(w) && w.snd.state != SConnected && Ready(w, DeliverAck(|w.issued| - 1))
    ensures var w' := After(w, DeliverAck(|w.issued| - 1));
            && w'.src == w.src && w'.snd.pending == w.snd.pending
            && (w'.snd.state == SConnected || Unsent(w'.snd) < Unsent(w.snd))
  {
    AckAdvances(w);
    AfterAck(w, |w.issued| - 1);
  }

  lemma AfterAck(w: World, i: nat)
    requires Ready(w, DeliverAck(i))
    ensures var w' := After(w, DeliverAck(i));
            w'.src == w.src && w'.snd == HandleRIAck(w.snd, w.issued[i].conn, w.issued[i].seqNo).0
  {
  }

  lemma NextChunk(w: World, now: int) returns (ws: seq<World>, moves: seq<Move>, w': World)
    requires Good(w) && w.snd.state != SConnected
    ensures Leads(w, ws, moves, w') && Good(w')
    ensures w'.src == w.src && w'.snd.pending == w.snd.pending
    ensures w'.snd.state == SConnected || Unsent(w'.snd) < Unsent(w.snd)
  {
    var ws1, moves1, w1 := LastApplied(w, now);
    var ws2, moves2;
    ws2, moves2, w' := LastAcknowledged(w1);
    LeadsJoin(w, ws1, moves1, w1, ws2, moves2, w');
    ws, moves := ws1 + ws2[1..], moves1 + moves2;
  }

  /** Everything queued for sending is sent, applied and acknowledged. */
  lemma {:induction false} Drain(w: World, now: int) returns (ws: seq<World>, moves: seq<Move>, w': World)
    requires Good(w)
    ensures Leads(w, ws, moves, w') && Good(w')
    ensures w'.src == w.src && w'.snd.pending == w.snd.pending && w'.snd.state == SConnected
    decreases if w.snd.state == SConnected then 0 else Unsent(w.snd) + 1
  {
    if w.snd.state == SConnected {
      ws, moves, w' := [w], [], w;
    } else {
      var ws1, moves1, w1 := NextChunk(w, now);
      var ws2, moves2;
      ws2, moves2, w' := Drain(w1, now);
      LeadsJoin(w, ws1, moves1, w1, ws2, moves2, w');
      ws, moves := ws1 + ws2[1..], moves1 + moves2;
    }
  }

  lemma Flush(w: World) returns (ws: seq<World>, moves: seq<Move>, w': World)
    requires Good(w) && w.snd.state == SConnected
    ensures Leads(w, ws, moves, w') && Good(w')
    ensures w'.src == w.src && w'.snd.pending == map[]
  {
    var tick := Ticked(true, false, false);
    assert Enabled(w, ToSender(tick));
    GoodReady(w, ToSender(tick));
    MoveGood(w, ToSender(tick));
    ws, moves := OneMove(w, ToSender(tick));
    w' := After(w, ToSender(tick));
    AfterInput(w, tick);
    FlushEmpties(w.snd);
  }

  lemma AfterInput(w: World, i: SInput)
    requires Ready(w, ToSender(i))
    ensures var w' := After(w, ToSender(i)); w'.src == w.src && w'.snd == SenderNext(w.snd, i).0
  {
  }

  lemma FlushEmpties(s: Sender)
    requires s.state == SConnected
    ensures SenderNext(s, Ticked(true, false, false)).0.pending == map[]
  {
  }

  lemma ConnectedQuiescent(w: World)
    requires InOrder(w) && w.snd.state == SConnected && w.snd.pending == map[]
    ensures Quiescent(w)
  {
  }

  /** From every world of an epoch, deliveries and ticks lead to one where nothing is
      pending, without any change at the source. */
  lemma Settles(w: World, now: int) returns (ws: seq<World>, moves: seq<Move>, w': World)
    requires Good(w)
    ensures Leads(w, ws, moves, w') && Good(w') && Quiescent(w') && w'.src == w.src
  {
    var ws1, moves1, w1 := Drain(w, now);
    var ws2, moves2, w2 := Flush(w1);
    var ws3, moves3;
    ws3, moves3, w' := Drain(w2, now);
    ConnectedQuiescent(w');
    LeadsJoin(w1, ws2, moves2, w2, ws3, moves3, w');
    LeadsJoin(w, ws1, moves1, w1, ws2 + ws3[1..], moves2 + moves3, w');
    ws, moves := ws1 + (ws2 + ws3[1..])[1..], moves1 + (moves2 + moves3);
  }

  /** Replication converges: after any moves of an epoch, some deliveries and ticks
      make the receiver store exactly the routes that the source offers right now, each
      one hop and the configured weight further away. */
  lemma Converges(ws: seq<World>, moves: seq<Move>, s0: Sender, adverts: seq<Advert>, start: int, now: int)
    returns (ws': seq<World>, moves': seq<Move>, w': World)
    requires Path(ws, moves) && Starts(ws[0], s0, adverts, start)
    requires ws[|moves|].src.WellFormed() && ws[|moves|].src.Disjoint() && ws[|moves|].src.FreshAt(now)
    ensures Leads(ws[|moves|], ws', moves', w')
    ensures forall n: Net :: ReplicaAt(ws[|moves|].src, now, w'.rcv.table, w'.rcv.peer, w'.rcv.extra, n)
  {
    PathGood(ws, moves, s0, adverts, start);
    ws', moves', w' := Settles(ws[|moves|], now);
    PathJoin(ws, moves, ws', moves');
    forall n: Net ensures ReplicaAt(ws[|moves|].src, now, w'.rcv.table, w'.rcv.peer, w'.rcv.extra, n) {
      Replicated(ws + ws'[1..], moves + moves', s0, adverts, start, now, n);
    }
  }
}

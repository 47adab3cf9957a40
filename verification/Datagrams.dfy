/** The chunks of a snapshot or an update, as the real encoder writes them, fit the
    datagram budget (aurpRoutingPayloadBudget and the chunkers of
    router/aurp_routing.go with the writers of aurp/routing_info.go). */
module Datagrams {
  import opened Routes
  import opened Observers
  import Replication
  import opened Chunking
  import PeerSpec
  import W = Wire
  import P = Packets

  function WireNetwork(a: Advert): W.NetworkTuple
    requires a.distance < 0x80
  {
    W.NetworkTuple(a.extended, a.netStart, a.distance, a.netEnd)
  }

  function CodeByte(c: Replication.EventCode): W.Byte {
    match c case NullEvent => 0 case NA => 1 case ND => 2 case NRC => 3 case NDC => 4 case ZC => 5
  }

  function WireEvent(e: Replication.EventTuple): W.EventTuple
    requires e.distance < 0x80
  {
    W.EventTuple(CodeByte(e.code), e.extended, e.rangeStart, e.distance, e.rangeEnd)
  }

  function WireNetworks(nets: seq<Advert>): seq<W.NetworkTuple>
    requires forall i :: 0 <= i < |nets| ==> nets[i].distance < 0x80
  {
    seq(|nets|, i requires 0 <= i < |nets| => WireNetwork(nets[i]))
  }

  function WireEvents(es: seq<Replication.EventTuple>): seq<W.EventTuple>
    requires forall i :: 0 <= i < |es| ==> es[i].distance < 0x80
  {
    seq(|es|, i requires 0 <= i < |es| => WireEvent(es[i]))
  }

  lemma {:induction false} TotalFront<T>(items: seq<T>, size: T -> nat)
    requires items != []
    ensures Total(items, size) == size(items[0]) + Total(items[1..], size)
  {
    if |items| > 1 {
      TotalFront(items[..|items| - 1], size);
      assert items[..|items| - 1][1..] == items[1..][..|items[1..]| - 1];
    } else {
      assert items[..0] == [] && items[1..] == [];
    }
  }

  /** The sizes the chunkers count with are the sizes written. */
  lemma {:induction false} NetworksSize(nets: seq<Advert>)
    requires forall i :: 0 <= i < |nets| ==> nets[i].distance < 0x80
    ensures |W.WriteNetworks(WireNetworks(nets))| == Total(nets, PeerSpec.NetworkTupleSize)
  {
    if nets != [] {
      TotalFront(nets, PeerSpec.NetworkTupleSize);
      NetworksSize(nets[1..]);
      assert WireNetworks(nets)[1..] == WireNetworks(nets[1..]);
    }
  }

  lemma {:induction false} EventsSize(es: seq<Replication.EventTuple>)
    requires forall i :: 0 <= i < |es| ==> es[i].distance < 0x80
    ensures |W.WriteEvents(WireEvents(es))| == Total(es, PeerSpec.EventTupleSize)
  {
    if es != [] {
      TotalFront(es, PeerSpec.EventTupleSize);
      EventsSize(es[1..]);
      assert WireEvents(es)[1..] == WireEvents(es[1..]);
    }
  }

  /** What the headers leave: the packet is written once without tuples. */
  function PayloadBudget(h: W.Header): (budget: nat)
    requires P.ValidDomain(h.domain, W.ROUTING_PACKET)
    ensures budget >= 1370 && budget + |W.WriteHeader(h).value| == 1400
  {
    DATAGRAM_BUDGET - |W.WriteHeader(h).value|
  }

  lemma {:induction false} InChunk<T>(chunks: seq<seq<T>>, i: nat, x: T)
    requires i < |chunks| && x in chunks[i]
    ensures x in Flatten(chunks)
  {
    if i < |chunks| - 1 {
      InChunk(chunks[..|chunks| - 1], i, x);
    }
  }

  /** Every RI-Rsp of a snapshot is within the budget as written; together they
      carry the exported tuples in order; only an empty snapshot has an empty
      packet. */
  lemma SnapshotDatagrams(h: W.Header, nets: seq<Advert>, i: nat)
    requires P.ValidDomain(h.domain, W.ROUTING_PACKET)
    requires forall j :: 0 <= j < |nets| ==> nets[j].distance < 0x80
    requires i < |PeerSpec.NetworkChunks(nets, PayloadBudget(h))|
    ensures var chunks := PeerSpec.NetworkChunks(nets, PayloadBudget(h));
            && Flatten(chunks) == nets
            && (chunks[i] == [] ==> nets == [] && |chunks| == 1)
            && (forall j :: 0 <= j < |chunks[i]| ==> chunks[i][j].distance < 0x80)
            && var pkt := P.WritePacket(P.RIRsp(h, WireNetworks(chunks[i])));
               pkt.Some? && |pkt.value| <= 1400
  {
    var budget := PayloadBudget(h);
    var chunks := PeerSpec.NetworkChunks(nets, budget);
    if nets == [] {
      var none: seq<seq<Advert>> := [];
      FlattenPush(none, []);
      assert none + [[]] == chunks;
    } else {
      ChunksFlatten(nets, PeerSpec.NetworkTupleSize, budget);
      ChunksPacked(nets, PeerSpec.NetworkTupleSize, budget);
      assert Chunking.Fits(chunks[i], PeerSpec.NetworkTupleSize, budget);
      forall j: nat | j < |chunks[i]| ensures chunks[i][j].distance < 0x80 {
        InChunk(chunks, i, chunks[i][j]);
      }
    }
    NetworksSize(chunks[i]);
  }

  /** The same of the RI-Upds of a flush. */
  lemma UpdateDatagrams(h: W.Header, es: seq<Replication.EventTuple>, i: nat)
    requires P.ValidDomain(h.domain, W.ROUTING_PACKET)
    requires forall j :: 0 <= j < |es| ==> es[j].distance < 0x80
    requires i < |PeerSpec.EventChunks(es, PayloadBudget(h))|
    ensures var chunks := PeerSpec.EventChunks(es, PayloadBudget(h));
            && Flatten(chunks) == es && chunks[i] != []
            && (forall j :: 0 <= j < |chunks[i]| ==> chunks[i][j].distance < 0x80)
            && var pkt := P.WritePacket(P.RIUpd(h, WireEvents(chunks[i])));
               pkt.Some? && |pkt.value| <= 1400
  {
    var budget := PayloadBudget(h);
    var chunks := PeerSpec.EventChunks(es, budget);
    ChunksFlatten(es, PeerSpec.EventTupleSize, budget);
    ChunksPacked(es, PeerSpec.EventTupleSize, budget);
    assert Chunking.Fits(chunks[i], PeerSpec.EventTupleSize, budget);
    forall j: nat | j < |chunks[i]| ensures chunks[i][j].distance < 0x80 {
      InChunk(chunks, i, chunks[i][j]);
    }
    EventsSize(chunks[i]);
  }
}

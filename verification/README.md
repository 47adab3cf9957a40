# An AURP router, modelled and proved

This project models the hard core of an AURP (RFC 1504) and EtherTalk router and
proves what that core is for: a route table whose redundant indexes agree with one
simple set of routes, a sequenced peer protocol over a network that loses,
repeats and reorders packets, the replication of one router's exported routes
into another router's table, the wire formats underneath, static remapping, and
soft seeding of a cable.

The main theorems:

- `Epoch.Replicated`: within one connection epoch, whatever changes at the sending
  router and whatever the network does to the packets, once nothing is pending the
  receiver stores for the peer exactly the routes the source offers, with their ranges,
  one hop and the configured weight further away. `Connection.EpochOpens`: two new halves
  open such an epoch packet by packet. `Settling.Converges`: from any point of an epoch,
  finitely many deliveries and ticks get there. `EpochWire.IssuedOnWire`: every packet
  on the way is written in at most 1400 bytes and parsed back as it was.
- `Epoch.ExactlyOnce` and `Epoch.NeverSurprised`: the packets the receiver has applied
  are a prefix of those issued, at most one short; it is never reset and never sees
  an early update. The bound on late copies is tight (`Epoch.VerdictOf`).
- `RouteTables.RouteTable.Lookup` and `OutputRoute`: the nearest usable route, with its
  order spelled out, never back through the tunnel a packet came from.
- `Observers.ObserversComplete`: folding the notifications of any run of table
  operations gives exactly the exported set computed from scratch.
- `RouteTables.RouteTable.*`: every table operation, written with the source's loops
  over candidate lists and class maps, keeps both indexes in agreement and refines one
  step of the simple table (`RouteSpec.Step`), including which networks are announced.
  `PruneWithRefreshes` splits a prune into its two critical sections.
- `Replication.FlushExact` and `Replication.QueueInStep`: coalescing transitions into
  events loses nothing.
- `PeerSpec.OutstandingAlways`, `PeerSpec.OutstandingKept`, `PeerSpec.ConnConstant`,
  `ReceiverSpec.OwnedAlways`: what both halves of a peer keep over every run.
- `Connection.Shutdown`, `Connection.Restart`, `ReceiverSpec.RouterDownResets`: how
  connections end, and what is left of them.
- `ZoneDelivery.ZoneListArrives`, `ZoneDatagrams.ReplyDatagrams`, `ZoneWire.ZonesRoundTrip`, `Packets.PacketRoundTrip`,
  `Datagrams.SnapshotDatagrams`, `Remap.InboundThenOutbound`, `Seeding.SeedingSafe`.

How the files build on each other:

| file | content |
|---|---|
| Routes, RouteSpec | routes, their order of preference, the simple table and its operations |
| RouteIndex, RouteTable | the two route indexes and two zone indexes, and the class that maintains them |
| Observers | notifications folded over whole runs |
| Replication | events, coalescing, and applying events to a remote table |
| Chunking, Wire, ZoneWire, Packets, Datagrams, ZoneDatagrams | datagram budgets and codecs |
| Layout | the bytes of headers, tuples and packets, spelled out |
| ZoneAssembly, ZoneDelivery | extended zone lists, and their arrival in the receiver's table |
| PeerSpec, ReceiverSpec | both state machines of a peer as functions, and their invariants |
| Peers | the same machines as an object with handlers, refining those functions |
| Epoch, Settling, EpochWire | two routers and the network between them, at rest and on the wire |
| Connection | opening, keeping alive, shutting down and restarting a connection |
| Remap, Seeding | remap rules; seed controller, promotion loop and AARP |

Results where the code does less than one might expect, each with its exact
condition:

- A GZN-Rsp does not survive encoding in general, since its writer leaves the zone name
  out; `Packets.GznRspRoundTripsIff` says exactly when it does and `Packets.GznRspFails`
  gives an instance.
- Remap rules for one peer under differently spelled selectors may share remote
  numbers (`Remap.SpellingsCollide`). Inbound mapping stays injective and is undone by outbound
  mapping regardless, but a number going out need not come back as itself:
  `Remap.OutboundThenInbound` says exactly when.
- The range in an NA or NDC is mapped by the first rule that has all of it, and the number
  in a later ND or NRC by the first that has the start. These may be two rules, or none and
  one, and then a deletion misses the route it is for. `Remap.RangeAgreesWithStart` and
  `Remap.AddThenDelete` say exactly when it does not; `Remap.DeletionMisses` is an instance
  with a single rule.
- Accepting an RI-Req keeps the changes pending from before its snapshot. A change that is
  then reversed cancels out in the queue and the receiver is left with what the snapshot
  showed (`Replication.StaleChange`). Every continuation is replicated exactly if nothing was
  pending (`Replication.EmptyQueueNeeded`).
- The loops over a range of networks have a 16-bit counter and end exactly if the range
  ends below 65535 (`Routes.RangeLoopEnds`). A peer can announce one that does not
  (`Replication.EndlessRange`).

## Model

| member | source | states |
|---|---|---|
| Routes.KeyDeterminesClass | router/aurp_peer.go:450-455 | a target's key prefix determines its class, so a key is in at most one class map |
| Routes.BeforeMeans | router/route_table.go:156-179 | a route precedes another if it is nearer, or as near and of a lower rank (direct, AppleTalk, tunnel), then of a smaller origin, then of a smaller key, byte by byte |
| Routes.PreferenceTotal | router/route_table.go:156-179 | any two routes are ordered, and tie exactly if distance, class, origin and target key are equal |
| Routes.PreferenceTransitive | router/route_table.go:156-179 | preference is transitive |
| Routes.RangeLoopEnds | router/route_table.go:552-560 | a loop over a range ends exactly if the range ends below 65535, and does not wrap before |
| Routes.SortByPreference | router/route_table.go:552-560 | the result is a permutation of the input in order of preference |
| RouteSpec.BestExists | router/route_table.go:183-193 | every network has a best route among those a lookup admits, or none is admitted |
| RouteSpec.BestUnique | router/route_table.go:172-179 | with disjoint ranges a network has one best route |
| RouteSpec.NextWellFormed | router/route_table.go:495-574 | every operation keeps routes well formed and filed under their own keys |
| RouteSpec.BestIsNearest | router/route.go:137-156 | best means the nearest route that has a zone, is not learned through the excluded tunnel and, if learned from an AppleTalk router, is at most ten minutes old |
| RouteSpec.UpsertEffect | router/route_table.go:495-574 | a range in order at 15 hops at most is stored with all that was given; anything else changes nothing |
| RouteSpec.UpdateDistanceEffect | router/route_table.go:445-491 | only distance and time of the one stored route change |
| RouteSpec.RemovalEffect | router/route_table.go:253-429 | exactly the routes of that target and start, of that target, or older than ten minutes from an AppleTalk router go |
| RouteSpec.EmptiedNetworks | router/zones.go:114-140 | a network loses its zones exactly if it loses its last route |
| RouteSpec.ZonesEffect | router/zones.go:27-108 | adding keeps every earlier zone and adds the given ones; replacing leaves the given non-empty ones |
| RouteIndex.FirstIsBest | router/route_table.go:183-246 | the first admitted candidate of a sorted, agreeing list is the best stored route |
| RouteIndex.FilteredIndexed | router/route_table.go:289-302 | dropping exactly the stale copies from a list restores agreement with the class index |
| RouteIndex.InsertedIndexed | router/route_table.go:552-560 | appending a route and sorting keeps a list in agreement, without duplicates |
| RouteIndex.ReplacedIndexed | router/route_table.go:474-485 | replacing a route in place and sorting keeps a list in agreement |
| RouteIndex.DeleteFunc | router/route_table.go:289-302 | keeps exactly the routes not doomed, in order |
| RouteIndex.RemoveNetworkFromZones | router/zones.go:114-140 | the network leaves the lists of the given zones and empty lists are removed |
| RouteIndex.AddNetworkToZones | router/zones.go:27-59 | the network joins the lists of the given zones once and no other list changes |
| RouteTables.RouteTable.constructor | router/route_table.go:85-128 | a new table is empty and valid |
| RouteTables.RouteTable.Find | router/route_table.go:432-442 | the stored route of that key, or none |
| RouteTables.RouteTable.Lookup | router/route_table.go:183-193 | the nearest usable stored route covering the network, none only if there is none |
| RouteTables.RouteTable.LookupIgnoringAge | router/route_table.go:236-246 | the same without regard to age |
| RouteTables.RouteTable.LookupAvoidingTunnel | router/route_table.go:214-234 | the nearest usable route not learned through the tunnel |
| RouteTables.RouteTable.OutputRoute | router/router.go:129-164 | the nearest usable route through another target than the ingress tunnel; a reflection exactly if there are usable routes and all are through it |
| RouteTables.RouteTable.ClearZonesIfNoRoutes | router/zones.go:114-140 | a network without candidates loses its zones in both zone indexes; nothing else changes |
| RouteTables.RouteTable.AddZonesToNetwork | router/zones.go:27-59 | one step of the simple table: names are added, both zone indexes agree, the network is announced |
| RouteTables.RouteTable.ReplaceZonesForNetwork | router/zones.go:64-108 | one step of the simple table: the non-empty names replace the old ones |
| RouteTables.RouteTable.DeleteTarget | router/route_table.go:330-384 | one step: all routes of the target go, emptied networks lose their zones, each removed start is announced |
| RouteTables.RouteTable.DeleteRoute | router/route_table.go:387-429 | one step: the route goes if it was stored, and only then |
| RouteTables.RouteTable.UpdateDistance | router/route_table.go:445-491 | one step: distance and time of a stored route change and lists are sorted again |
| RouteTables.RouteTable.UpsertRoute | router/route_table.go:495-574 | one step: the route is stored over its new range and removed from the rest of its old one; also while a prune is half done |
| RouteTables.RouteTable.Tell | router/route_table.go:576-602 | observers hear of an addition, a deletion or a change of target, distance or range, and of nothing otherwise |
| RouteTables.RouteTable.PruneSnapshot | router/route_table.go:256-269 | the expired routes leave the class index and are listed once each |
| RouteTables.RouteTable.PruneForward | router/route_table.go:274-309 | copies no newer than the expired ones leave the candidate lists, and their starts are announced |
| RouteTables.RouteTable.PruneExpiredRoutes | router/route_table.go:253-310 | one step: exactly the expired routes go, counted, with the best route ignoring age as the one before |
| RouteTables.RouteTable.PruneWithRefreshes | router/route_table.go:253-310 | with any later refreshes between the two halves, both indexes agree at the end, no refreshed route is lost, emptied networks lose their zones and networks with a lasting route keep them |
| RouteTables.RouteTable.ExportedRoutes | router/aurp_routing.go:110-137 | sorted by start; only best routes at their own start that may be advertised, and with disjoint ranges all of them |
| RouteTables.UpsertIndexed | router/route_table.go:539-560 | removing the old copy over its range and adding the new one over its own keeps agreement |
| RouteTables.UpsertZones | router/route_table.go:562-568 | after a range shrinks, exactly the networks left without a candidate lose their zones |
| RouteTables.FinishedStep | router/route_table.go:274-309 | the two halves of a removal together are one step of the simple table |
| Observers.StepTracks | router/route_table.go:576-602 | every operation, with what it announces, keeps an observer's view exact |
| Observers.RunTracks | router/route_table.go:330-602 | so does every run |
| Observers.ExportsMeans | router/aurp_routing.go:31-51 | exported are exactly the nearest usable routes at their own start that are not learned from a peer and less than 15 hops away, with their range and distance |
| Observers.TracksExports | router/aurp_routing.go:31-37 | an exact view shows exactly the exported adverts |
| Observers.ObserversComplete | router/aurp_routing.go:110-137 | from an empty table, the folded notifications of any run show exactly the final exported set |
| Replication.EventExact | router/aurp_routing.go:56-86 | applying the event for a transition turns a mirror showing the old export into one showing the new one; no event exactly if both are equal |
| Replication.EventCodes | router/aurp_routing.go:56-86 | when NA, ND, NRC and NDC are sent, and which range and distance they carry |
| Replication.QueueExact | router/aurp_peer.go:283-331 | under any subscription, a network's change since the last flush is kept exactly if it needs an event that is wanted |
| Replication.QueueWanted | router/aurp_peer.go:265-331 | under any subscription only wanted changes are queued |
| Replication.QueueInStep | router/aurp_peer.go:283-331 | queueing a transition keeps mirror plus pending changes in step with the view; a change is discarded only if nothing changed |
| Replication.QueueNotesInStep | router/aurp_peer.go:342-354 | so does any sequence of notifications |
| Replication.EventsForPendingChanges | router/aurp_routing.go:88-106 | the events of the pending changes in order of network |
| Replication.FlushExact | router/aurp_peer.go:333-339 | a flush brings the mirror level with the view, with at most one event for a network |
| Replication.EventMeans | router/aurp_peer.go:365-377 | an NA or NDC in order stores its range at one hop and the weight more than announced; too far, an NA does nothing and an NDC removes; ND and NRC remove; no other route changes |
| Replication.EventMirrors | router/aurp_peer.go:1648-1757 | applying a sound event to the table is applying it to the mirror |
| Replication.EventsMirror | router/aurp_peer.go:1648-1757 | so is applying a sequence of them |
| Replication.ElsewhereMirrors | router/route_table.go:253-574 | other changes of the receiver's table, ageing included, leave the peer's routes alone |
| Replication.SnapshotExact | router/aurp_peer.go:1442-1466 | applying a snapshot to an empty mirror makes it show the view |
| Replication.StaleChange | router/aurp_peer.go:1406-1439 | a change pending at a snapshot and then reversed leaves nothing to send and the mirror wrong |
| Replication.EmptyQueueNeeded | router/aurp_peer.go:1406-1439 | after a snapshot all continuations are replicated exactly if nothing was pending |
| Replication.EndlessRange | router/aurp_peer.go:1648-1767 | an announced range ending at 65535 is accepted and its loop does not end |
| Chunking.ChunksFlatten | router/aurp_routing.go:186-241 | the chunks concatenate to the input in order |
| Chunking.ChunksPacked | router/aurp_routing.go:186-241 | no chunk is empty or over budget, and none could have taken the next one's first item |
| Chunking.Chunk | router/aurp_routing.go:186-241 | computes those chunks, and fails exactly when there is no budget or an item exceeds it |
| Datagrams.PayloadBudget | router/aurp_routing.go:171-184 | headers always leave room for at least 1370 bytes of tuples |
| Datagrams.NetworksSize | router/aurp_routing.go:154-159 | the size counted for network tuples is the size written |
| Datagrams.EventsSize | router/aurp_routing.go:161-169 | the size counted for event tuples is the size written |
| Datagrams.SnapshotDatagrams | router/aurp_routing.go:186-214 | every RI-Rsp of a snapshot, as written, is at most 1400 bytes; only an empty snapshot has an empty chunk |
| Datagrams.UpdateDatagrams | router/aurp_routing.go:216-241 | every RI-Upd of a flush, as written, is at most 1400 bytes and not empty |
| PeerSpec.Succ | aurp/aurp.go:194-200 | the next number, with 1 after 65535 |
| PeerSpec.Pred | aurp/aurp.go:203-209 | the previous number, with 65535 before 1 |
| PeerSpec.SuccPred | aurp/aurp.go:194-209 | on non-zero numbers each undoes the other, and 0 is never reached |
| PeerSpec.OutstandingAlways | router/aurp_peer.go:1001-1146 | in every reachable waiting state the outstanding packet exists, is of the awaited kind and bears the current numbers; restart probes only while awaiting an update's ack |
| PeerSpec.OutstandingKept | router/aurp_peer.go:1213-1440 | until something ends the wait, RI-Reqs, competing Open-Reqs and ticks leave that packet alone and nothing else is sent |
| PeerSpec.ConnConstant | router/aurp_peer.go:2337-2348 | the remote connection ID is constant while the sender is not unconnected |
| ReceiverSpec.TakeTuplesTable | router/aurp_peer.go:1499-1527 | the tuples of an RI-Rsp change the table as additions would, and the connection not at all |
| ReceiverSpec.TakeEventsTable | router/aurp_peer.go:1864-1905 | the events of an RI-Upd change the table in order, and the connection not at all |
| ReceiverSpec.DisconnectOwned | router/aurp_peer.go:2318-2335 | a reset leaves no route of the peer |
| ReceiverSpec.StepOwned | router/aurp_peer.go:1349-2189 | every input keeps receiver ownership |
| ReceiverSpec.OwnedAlways | router/aurp_peer.go:1349-2189 | in every reachable state of a new receiver, routes and partial zone lists came on the current connection, and connected means a Last RI-Rsp was accepted since the last reset |
| ReceiverSpec.RouterDownResets | router/aurp_peer.go:1916-1970 | a Router Down in sequence is acknowledged and leaves no route, partial list or connection |
| ReceiverSpec.RefusalResets | router/aurp_peer.go:1349-1383 | an error in an Open-Rsp does the same, unanswered |
| ReceiverSpec.SilenceResets | router/aurp_peer.go:894-999 | so does the last retry |
| ReceiverSpec.SkippedResets | router/aurp_peer.go:2202-2278 | so does any sequenced packet that skips one number |
| ReceiverSpec.RepeatedAcknowledged | router/aurp_peer.go:2202-2278 | a repeated packet is acknowledged again and has no effect |
| ReceiverSpec.StaleIgnored | router/aurp_peer.go:2202-2278 | a packet neither expected, nor the one before or after, has no effect |
| ReceiverSpec.OpenAccepted | router/aurp_peer.go:1349-1383 | an accepted Open-Req leads to an RI-Req, with sequence numbers from 1 |
| ReceiverSpec.ForeignIgnored | router/aurp_peer.go:2282-2294 | a packet of another connection has no effect |
| ReceiverSpec.EarlyUpdate | router/aurp_peer.go:1792-1860 | what an update before the snapshot leads to |
| ReceiverSpec.RetryAsksAgain | router/aurp_peer.go:894-999 | what is asked again in each state while an answer is awaited |
| ReceiverSpec.ZoneListRefused | router/aurp_zone.go:336-421 | zone lists are taken only for the peer's networks, and with one total |
| ReceiverSpec.ZoneListTooLong | router/aurp_zone.go:336-421 | more names than the total are not published |
| ReceiverSpec.TupleAcknowledged | router/aurp_peer.go:1499-1543 | a tuple of the snapshot is stored if in order and near enough, and its acknowledgement asks for zones exactly if its network has none |
| ReceiverSpec.EventAcknowledged | router/aurp_peer.go:1864-1914 | the same of an event |
| Connection.NewHalves | router/aurp_peer_table.go:295-309 | new halves have no connection |
| Connection.OpenAnswered | router/aurp_peer.go:1290-1331 | an Open-Req of version 1 connects the sender under its ID and flags; any other is refused |
| Connection.RIReqNeedsConnection | router/aurp_peer.go:1385-1405 | routing information is given only over a connection and under its ID |
| Connection.EpochOpens | router/aurp_peer.go:1213-1440 | Open-Req, Open-Rsp, RI-Req and the first RI-Rsp of two new halves start an epoch, for every source table |
| Connection.EpochExists | router/aurp_peer.go:1385-1440 | an epoch opens between routers that know nothing |
| Connection.TickleAnswered | router/aurp_peer.go:2137-2189 | a silent connection is tickled, and the answer restores it |
| Connection.ProbeAsks | router/aurp_peer.go:969-988 | only a connected sender probes, with a null update under the next number |
| Connection.RetryResends | router/aurp_peer.go:1092-1146 | an outstanding packet is sent again unchanged when due, and not before |
| Connection.ChangesWait | router/aurp_peer.go:1063-1070 | pending changes wait for the update interval |
| Connection.RetriesEnd | router/aurp_peer.go:1092-1146 | after the last retry the sender is unconnected, and after a probe's or a Router Down's has forgotten the connection |
| Connection.SenderCloses | router/aurp_peer.go:680-693 | a receiver's Router Down or a confirmed loop leaves nothing of the connection |
| Connection.UnconnectedDeaf | router/aurp_peer.go:283-290 | a sender that is not connected queues nothing |
| Connection.OtherAckIgnored | router/aurp_peer.go:1545-1566 | acknowledgements of another connection or number change nothing |
| Connection.Shutdown | router/aurp_peer.go:851-892 | a Router Down and its acknowledgement leave nothing of the connection in either half |
| Connection.Restart | router/aurp_peer.go:1213-1289 | a competing Open-Req leads to a probe; acknowledged, the old connection goes on; never acknowledged, the next Open-Req is accepted |
| Peers.AurpPeer.HandleTickle | router/aurp_peer.go:2137-2154 | a Tickle on the connection is answered at once |
| Peers.AurpPeer.constructor | router/aurp_peer_table.go:295-309 | a new peer is a new sender and a new receiver |
| Peers.AurpPeer.DisconnectSender | router/aurp_peer.go:2337-2348 | refines the sender machine |
| Peers.AurpPeer.SendNextRIRsp | router/aurp_peer.go:1001-1030 | sends and keeps the next chunk, Last exactly on the final one |
| Peers.AurpPeer.SendNextRIUpd | router/aurp_peer.go:1032-1056 | sends and keeps the next chunk of events |
| Peers.AurpPeer.HandleOpenReq | router/aurp_peer.go:1213-1347 | refines the sender machine: accepts, ignores, or probes before a restart |
| Peers.AurpPeer.ExportedTuples | router/aurp_peer.go:1406-1420 | the tuples are exported adverts, and with disjoint ranges all of them in order of start |
| Peers.AurpPeer.HandleRIReq | router/aurp_peer.go:1385-1440 | refines the sender machine: the snapshot is the table's own and restarts at sequence number 1 |
| Peers.AurpPeer.HandleRIAck | router/aurp_peer.go:1545-1646 | refines the sender machine: only the current number advances it |
| Peers.AurpPeer.TakePendingEvents | router/aurp_peer.go:333-339 | returns the events of all pending changes and forgets them |
| Peers.AurpPeer.StickerTasks | router/aurp_peer.go:1058-1146 | refines the sender machine: flush, retransmit or give up |
| Peers.AurpPeer.ProbeSender | router/aurp_peer.go:969-988 | refines the sender machine: a null update under the next number |
| Peers.AurpPeer.StartSenderShutdown | router/aurp_peer.go:851-864 | refines the sender machine: a sequenced Router Down |
| Peers.AurpPeer.QueueBestNetworkTransition | router/aurp_peer.go:283-331 | coalesces a transition into the pending changes as specified |
| Peers.AurpPeer.HearNotes | router/aurp_peer.go:342-354 | coalesces a sequence of notifications |
| Peers.AurpPeer.ApplyToTable | router/aurp_peer.go:1648-1757 | stores the event's range at its distance plus one plus the weight, removes it, or does nothing, and changes no other route |
| Peers.AurpPeer.NoteOperation | router/aurp_zone.go:21-38 | partial zone lists are opened or dropped, and zone information is wanted exactly for a stored network without zones |
| Peers.AurpPeer.TakeTuples | router/aurp_peer.go:1442-1466 | refines the receiver machine |
| Peers.AurpPeer.TakeEvents | router/aurp_peer.go:1864-1905 | refines the receiver machine |
| Peers.AurpPeer.DisconnectReceiver | router/aurp_peer.go:2318-2335 | refines the receiver machine: routes and partial lists go, the connection ID changes |
| Peers.AurpPeer.HandleConfirmedRoutingLoop | router/aurp_peer.go:680-693 | closes both halves, with a Router Down if the sender was connected, at most once |
| Peers.AurpPeer.HandleOpenRsp | router/aurp_peer.go:1349-1383 | refines the receiver machine |
| Peers.AurpPeer.CheckRemoteSeq | router/aurp_peer.go:2202-2278 | acknowledges a repeated packet, resets on one from the future, ignores a stale one |
| Peers.AurpPeer.HandleRIRsp | router/aurp_peer.go:1468-1543 | refines the receiver machine |
| Peers.AurpPeer.HandleRIUpd | router/aurp_peer.go:1792-1914 | refines the receiver machine, early updates included |
| Peers.AurpPeer.HandleReceiverDown | router/aurp_peer.go:1916-1970 | refines the sender machine |
| Peers.AurpPeer.HandleSenderDown | router/aurp_peer.go:1916-1970 | refines the receiver machine |
| Peers.AurpPeer.HandleTickleAck | router/aurp_peer.go:2156-2189 | refines the receiver machine |
| Peers.AurpPeer.RtickerTasks | router/aurp_peer.go:894-999 | refines the receiver machine: tickle, retry or give up |
| Peers.AurpPeer.HandleZIRspExt | router/aurp_zone.go:336-421 | refines the receiver machine: a fragment of a zone list |
| Epoch.VerdictOf | router/aurp_peer.go:2202-2278 | the 16-bit check is right about every copy less than 65534 packets late, and wrong about one 65534 or 65535 late |
| Epoch.MoveGood | router/aurp_peer.go:1468-1914 | every move of either router or the network keeps packets in order and the mirror in step |
| Epoch.ExactlyOnce | router/aurp_peer.go:1468-1914 | after any moves the applied packets are a prefix of the issued ones, lagging by at most one; numbers run from 1, updates follow the Last RI-Rsp, and the receiver was not reset |
| Epoch.NeverSurprised | router/aurp_peer.go:2202-2278 | neither the n+1 reset nor the early RI-Upd branch is ever taken |
| Epoch.Replicated | router/aurp_peer.go:283-339 | once nothing is pending, the receiver stores for the peer exactly the routes offered, with their ranges, at one hop and the weight more, up to 15 |
| Settling.Settles | router/aurp_peer.go:1058-1146 | from every world of an epoch, deliveries and ticks lead to one with nothing pending, the source unchanged |
| Settling.Converges | router/aurp_peer.go:283-339 | and there the receiver stores exactly the routes that the source offers right now |
| EpochWire.WireRoundTrip | aurp/transport.go:265-297 | a sequenced packet is written, parsed and recovered |
| EpochWire.SenderStaysSized | router/aurp_routing.go:171-241 | every sender step keeps its chunks, and the packets it issues, within the payload budget |
| EpochWire.IssuedOnWire | aurp/aurp.go:216-380 | every packet issued in an epoch is written in at most 1400 bytes and recovered by the receiver |
| Layout.DomainLayout | aurp/domain.go:57-163 | the bytes of a domain header |
| Layout.HeaderLayout | aurp/aurp.go:37-43 | the bytes of a routing header |
| Layout.NetworkLayout | aurp/routing_info.go:130-143 | the bytes of a network tuple |
| Layout.EventLayout | aurp/routing_info.go:216-233 | the bytes of an event tuple |
| Layout.ZonesLayout | aurp/zone_info.go:441-470 | the bytes of two zone tuples of one name |
| Layout.OnlyKnown | aurp/aurp.go:216-380 | what is parsed has a version, type, command and subcode that exist |
| Layout.Cut | aurp/open.go:187-206 | numbers, options and names that are cut short are refused, and options are as many as declared |
| Layout.NotSupported | aurp/zone_info.go:291-315 | after "not supported" the rest of a GDZL-Rsp is ignored |
| Layout.Commands | aurp/aurp.go:105-121 | the command of every kind of packet |
| Layout.OpenPayloads | aurp/open.go:41-132 | the bytes of Open-Req and Open-Rsp after the headers |
| Layout.RoutingPayloads | aurp/routing_info.go:41-97 | those of the RI packets, Router Down and Tickle |
| Layout.ZoneReqPayloads | aurp/zone_info.go:65-345 | those of the zone requests |
| Layout.ZoneRspPayloads | aurp/zone_info.go:127-396 | those of the zone responses |
| Wire.DIRoundTrip | aurp/domain.go:149-205 | parsing a written domain identifier gives it back, with the remainder |
| Wire.DomainHeaderRoundTrip | aurp/domain.go:57-101 | the same of a domain header |
| Wire.HeaderRoundTrip | aurp/aurp.go:37-103 | the same of a routing header |
| Wire.NetworkRoundTrip | aurp/routing_info.go:130-167 | the same of a network tuple |
| Wire.NetworksRoundTrip | aurp/routing_info.go:91-112 | the same of a list of them |
| Wire.WriteNetworkTuples | aurp/routing_info.go:91-97 | the loop writes what the specification says |
| Wire.ParseNetworkTuples | aurp/routing_info.go:99-112 | the loop parses what the specification says, errors included |
| Wire.EventRoundTrip | aurp/routing_info.go:216-264 | parsing a written event tuple gives it back, with the remainder |
| Wire.EventsRoundTrip | aurp/routing_info.go:171-195 | the same of a list of them |
| Wire.WriteEventTuples | aurp/routing_info.go:171-177 | the loop writes what the specification says |
| Wire.ParseEventTuples | aurp/routing_info.go:179-195 | the loop parses what the specification says, errors included |
| Wire.OptionListRoundTrip | aurp/open.go:120-206 | parsing written options gives them back |
| Wire.ParseOptionTuples | aurp/open.go:187-206 | the loop parses what the specification says, errors included |
| ZoneWire.WriteZoneTuples | aurp/zone_info.go:441-470 | the loop with its offset table writes what the specification says, and refuses the same lists |
| ZoneWire.ParseZoneTuples | aurp/zone_info.go:472-527 | the loop parses what the specification says, errors included |
| ZoneWire.OffsetsLead | aurp/zone_info.go:449-467 | every recorded offset leads to the length byte of its name |
| ZoneWire.ZonesRoundTrip | aurp/zone_info.go:441-527 | parsing written zone tuples gives them back, compressed ones included, while referenced offsets fit in 15 bits |
| Packets.ExtendedRoundTrip | aurp/zone_info.go:127-205 | parsing the tuples of a written extended ZI-Rsp gives them back |
| Packets.ParsedOneNetwork | aurp/zone_info.go:170-198 | all tuples of a parsed extended ZI-Rsp name one network |
| Packets.ParseExtendedZones | aurp/zone_info.go:155-205 | the loop parses what the specification says, errors included |
| Packets.PacketRoundTrip | aurp/aurp.go:216-380 | parsing a written well-formed packet of any kind but GZN-Rsp gives it back |
| Packets.GznRspRoundTripsIff | aurp/zone_info.go:381-428 | a GZN-Rsp survives exactly if its name is empty and the rest can be told apart |
| Packets.GznRspFails | aurp/zone_info.go:381-428 | an answer for a one-letter zone does not survive |
| ZoneAssembly.DedupeSortedZones | router/aurp_zone.go:118-128 | the non-empty distinct names in order |
| ZoneAssembly.BuildReply | router/aurp_zone.go:138-225 | one plain packet if the list fits; otherwise fragments holding each name once, each within the budget; an error exactly when a name or the list is too long |
| ZoneDatagrams.ReplyDatagrams | router/aurp_zone.go:138-225 | every packet of a reply is written, in at most 1400 bytes by the real encoder, and a list is split only if it would not fit whole |
| ZoneDatagrams.Unanswered | router/aurp_zone.go:153-212 | there is no reply only to a list the encoder refuses or with a name that leaves no room |
| ZoneDatagrams.BodySize | aurp/zone_info.go:441-470 | with distinct names every zone tuple is written in full |
| ZoneAssembly.DeliverFragment | router/aurp_zone.go:336-421 | a fragment publishes exactly when it completes the list, and then the whole list |
| ZoneAssembly.Reassembles | router/aurp_zone.go:336-421 | in any order and with any repetition, a list is published once for every complete round of fragments, each time with exactly the original names |
| ZoneDelivery.FragmentsArrive | router/aurp_zone.go:336-421 | the same of the receiver's table: only the network's zones change, and only by complete rounds |
| ZoneDelivery.ZoneListArrives | router/aurp_zone.go:138-421 | the fragments built for a list leave the published zones alone until all have arrived, and then publish exactly the list |
| Remap.CheckRules | router/config.go:463-619 | reports nothing exactly on the accepted rule lists, and every problem reported is one |
| Remap.MatchesMeans | router/aurp_remap.go:12-27 | a blank selector matches every peer; any other those whose tunnel ID or configured address it spells, in either case and with any space around it |
| Remap.RemapInboundNetwork | router/aurp_remap.go:54-71 | maps by the first rule for the peer that has the number |
| Remap.RemapOutboundNetwork | router/aurp_remap.go:73-90 | the same for local numbers |
| Remap.RemapInboundRange | router/aurp_remap.go:92-108 | maps by the first rule for the peer that has the whole range |
| Remap.NoWrap | router/aurp_remap.go:42-52 | with an accepted rule no 16-bit sum wraps and mapping back gives the number |
| Remap.InboundThenOutbound | router/aurp_remap.go:54-90 | a number mapped inbound is mapped outbound to itself, whatever the spelling of selectors |
| Remap.InboundInjective | router/aurp_remap.go:54-71 | no two remote numbers are mapped to one |
| Remap.OutboundThenInbound | router/aurp_remap.go:54-90 | a number mapped outbound comes back as itself exactly if no earlier rule for the peer has it |
| Remap.OneSpelling | router/config.go:598-619 | with the peer's selectors spelled alike but for case, what goes out comes back as itself |
| Remap.SpellingsCollide | router/config.go:598-619 | an accepted list where it does not |
| Remap.RangeAgreesWithStart | router/aurp_remap.go:127-149 | when the range of an NA and the number of an ND are mapped to the same network |
| Remap.RemapInboundEvent | router/aurp_remap.go:127-149 | maps the range of an NA or NDC and the number of an ND or NRC |
| Remap.AddThenDelete | router/aurp_remap.go:127-149 | a network added and deleted again under remapping leaves no route exactly if range and start have one mapping |
| Remap.DeletionMisses | router/aurp_remap.go:127-149 | one rule for part of a range, where the deletion does nothing |
| Remap.RangeKeepsLength | router/aurp_remap.go:92-108 | a mapped range keeps its length and stays in one local range |
| Seeding.SeedController.constructor | router/seed.go:49-65 | only a hard seed starts with authority |
| Seeding.SeedController.ObserveRange | router/seed.go:67-101 | records an observation; a contradiction or foreign authority ends the port's own |
| Seeding.SeedController.PromoteSoft | router/seed.go:103-114 | gives authority to a soft port without conflict or foreign authority, and reports it |
| Seeding.SeedController.ExpireExternalAuthority | router/seed.go:116-127 | foreign authority lapses exactly after the timeout |
| Seeding.AarpMachine.RequestRebind | router/aarp.go:161-171 | one request is pending at most, never for the startup range |
| Seeding.AarpMachine.HandleRange | router/aarp.go:229-248 | moving to another range gives up the address |
| Seeding.AarpMachine.HandleTick | router/aarp.go:250-273 | an address is owned only after ten probes |
| Seeding.AarpMachine.HandleConflict | router/aarp.go:367-385 | a contested tentative address starts over within the range |
| Seeding.ObservationEffect | router/seed.go:67-101 | which observations conflict, and which end authority |
| Seeding.AddressEffect | router/aarp.go:161-385 | what a request for a range, taking it, and a conflict do to the address |
| Seeding.SoftPromoted | router/seed.go:286-418 | a soft port that hears nobody gains authority: a turn after its delay, eleven ticks and another turn suffice |
| Seeding.TurnStartEffect | router/seed.go:311-341 | when a recorded authority lapses, and what a turn sees |
| Seeding.TurnActEffect | router/seed.go:342-417 | what a turn does in a conflict, under another authority, and when no delay is set |
| Seeding.TakesOver | router/seed.go:286-418 | a soft port that yielded on its own range takes over after the other's silence and its delay |
| Seeding.WaitsOn | router/seed.go:286-418 | a new soft port waits for its delay, whatever AARP does and whatever turns come before |
| Seeding.StepSound | router/seed.go:286-418 | every step of the port keeps the seeding invariant and never clears a conflict |
| Seeding.SeedingSafe | router/seed.go:286-418 | over every run: soft authority only with a fully probed address in the configured range and no foreign authority; none-mode ports never; conflict is permanent and excludes authority |

## Left out

- Sockets, pcap, goroutines, channels, locks, HTTP, metrics, logging, chat logs and traffic counters. Every route table method is one atomic step, except that a prune may be split by upserts.
- Clocks and timers: instants, and whether an interval or the retries have run out, are parameters. One instant serves for a whole table operation, so routes do not expire in the middle of one.
- `sendRetries`, which both halves of a peer share, is only the input "exhausted"; no bound on retries is claimed. `send` always succeeds.
- Registering observers: the notifications are a log, and a peer hears them in a step of its own.
- DNS, the peer table and its backoff; YAML; configuration checks other than remap rules.
- Hiding networks and devices, remapping, backup penalties and clustering inside the replication theorem; partial subscriptions to update events (the machines have them, the theorem assumes all).
- NBP, AEP, RTMP and ZIP handlers, loop probing, hop count reduction, DDP checksums: easier members.
- Answering ZI-Req, GDZL and GZN requests, plain ZI-Rsps and retries for zone information inside the peer machines; the packets themselves are in `Packets`.
- Router Down, a repeated Open-Rsp, a second accepted RI-Req and exhausted retries end an epoch, so they are in `PeerSpec` and `ReceiverSpec` but not in `Epoch`. Resynchronisation after an early RI-Upd is not claimed.
- RouteTables.RouteTable.UpsertRoute: requires the range to end below 65535, because the source's loop over a 16-bit counter does not end otherwise (`Routes.RangeLoopEnds`).
- Peers.AurpPeer.ApplyToTable: requires the same of the event's range; hiding and remapping are not in it.
- Peers.AurpPeer.TakeTuples: requires the same of every tuple's range.
- Peers.AurpPeer.TakeEvents: requires the same of every event's range.
- Peers.AurpPeer.HandleRIRsp: requires the same of every tuple's range.
- Peers.AurpPeer.HandleRIUpd: requires the same of every event's range.
- Peers.AurpPeer.QueueBestNetworkTransition: hidden export ranges are not in it.
- Peers.AurpPeer.HandleRIAck: the zone lists sent on a Send-Zone-Info flag are not in it.
- Peers.AurpPeer.RtickerTasks: requests for incomplete zone information are not in it.
- Peers.AurpPeer.HandleZIRspExt: a fragment is of one network, because the parser refuses any other (`Packets.ParsedOneNetwork`).
- Peers.AurpPeer.ExportedTuples: completeness needs disjoint ranges, as for the routes.
- RouteTables.RouteTable.ExportedRoutes: completeness needs disjoint ranges, because overlapping routes of one target at one distance tie and which is first is not determined.
- RouteTables.RouteTable.PruneWithRefreshes: says nothing of what observers hear when a refresh falls between the halves.
- Observers.ObserversComplete: needs stored ranges with different starts to be disjoint and no expired route other than at a prune, because observers are told only about a route's start.
- Epoch.Replicated: starts with nothing pending at the snapshot, because accepting an RI-Req does not clear pending changes (`Replication.EmptyQueueNeeded`).
- Routes.SortByPreference: an insertion sort stands for the library sort; only order and permutation are used.
- Remap.CheckRules: case folding and white space are those of ASCII, here and in matching selectors.
- ZoneAssembly.BuildReply: one network at a time, with the size of the headers as a parameter, and names are strings of one-byte characters.
- Seeding: AARP packets, node numbers and the side effects of activating a cable range; the random network of a new address is an input.

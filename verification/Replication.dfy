/** From best-route transitions to AURP events and back to routes
    (router/aurp_routing.go and the queueing and applying of events in
    router/aurp_peer.go). */
module Replication {
  import opened Routes
  import opened RouteSpec
  import opened Observers

  datatype EventCode = NullEvent | NA | ND | NRC | NDC | ZC
  datatype EventTuple = EventTuple(code: EventCode, extended: bool, rangeStart: Net, rangeEnd: Net, distance: nat)

  // ----- Which event a transition needs -----

  function EventFromRoute(code: EventCode, r: Route): EventTuple {
    EventTuple(code, r.extended, r.key.netStart, r.netEnd, if code == ND || code == NRC then 0 else r.distance)
  }

  /** aurpEventForBestTransition. */
  function EventFor(before: Option<Route>, after: Option<Route>): Option<EventTuple> {
    if !IsAdvertisable(before) && IsAdvertisable(after) then
      Some(EventFromRoute(NA, after.value))
    else if IsAdvertisable(before) && IsAdvertisable(after) then
      if before.value.distance != after.value.distance
         || before.value.extended != after.value.extended
         || before.value.netEnd != after.value.netEnd
      then Some(EventFromRoute(NDC, after.value)) else None
    else if IsAdvertisable(before) && IsLocal(after) && after.value.distance >= MAX_ROUTE_DISTANCE then
      Some(EventFromRoute(NDC, after.value))
    else if IsAdvertisable(before) && after.Some? && after.value.RouteOrigin().kind == OriginAurp then
      Some(EventFromRoute(NRC, before.value))
    else if IsAdvertisable(before) then
      Some(EventFromRoute(ND, before.value))
    else None
  }

  /** What a route shows to a peer. */
  function ExportOf(r: Option<Route>): Option<Advert> {
    if IsAdvertisable(r) then Some(AdvertOf(r.value)) else None
  }

  // ----- The peer's mirror of the exported view -----

  /** The adverts a peer holds, by range start. */
  type Mirror = map<Net, Advert>

  function Shown(m: Mirror, n: Net): Option<Advert> { if n in m then Some(m[n]) else None }

  function EventAdvert(e: EventTuple): Advert { Advert(e.extended, e.rangeStart, e.rangeEnd, e.distance) }

  function MirrorEvent(m: Mirror, e: EventTuple): Mirror {
    match e.code
    case NA => m[e.rangeStart := EventAdvert(e)]
    case NDC => if e.distance < MAX_ROUTE_DISTANCE then m[e.rangeStart := EventAdvert(e)] else m - {e.rangeStart}
    case ND => m - {e.rangeStart}
    case NRC => m - {e.rangeStart}
    case NullEvent => m
    case ZC => m
  }

  function MirrorEvents(m: Mirror, es: seq<EventTuple>): Mirror {
    if es == [] then m else MirrorEvent(MirrorEvents(m, es[..|es| - 1]), es[|es| - 1])
  }

  lemma {:induction false} MirrorConcat(m: Mirror, a: seq<EventTuple>, b: seq<EventTuple>)
    ensures MirrorEvents(m, a + b) == MirrorEvents(MirrorEvents(m, a), b)
  {
    if b == [] {
      assert a + b == a;
    } else {
      MirrorConcat(m, a, b[..|b| - 1]);
      assert (a + b)[..|a + b| - 1] == a + b[..|b| - 1];
    }
  }

  /** Both routes, if any, are well formed and start at n. */
  ghost predicate WellPlaced(r: Option<Route>, n: Net) { r.Some? ==> r.value.WellFormed() && r.value.key.netStart == n }

  /** The event moves a mirror from the old exported view to the new one; none is
      needed exactly when the two are equal. */
  lemma EventExact(m: Mirror, before: Option<Route>, after: Option<Route>, n: Net)
    requires WellPlaced(before, n) && WellPlaced(after, n) && Shown(m, n) == ExportOf(before)
    ensures EventFor(before, after).None? <==> ExportOf(before) == ExportOf(after)
    ensures EventFor(before, after).Some? ==>
              var e := EventFor(before, after).value;
              && e.rangeStart == n && Sound(m, e)
              && Shown(MirrorEvent(m, e), n) == ExportOf(after)
              && forall k: Net :: k != n ==> Shown(MirrorEvent(m, e), k) == Shown(m, k)
  {
  }

  /** May be advertised: not learned from a peer, and less than 15 hops away. */
  predicate Advertised(r: Option<Route>) { r.Some? && !r.value.target.AurpPeer? && r.value.distance < 15 }

  /** Which event says what: NA that a network is advertised and was not; ND that an
      advertised one is gone; NRC that it is now reached through a peer; NDC that it is
      advertised otherwise than before, or has become too far. */
  lemma EventCodes(before: Option<Route>, after: Option<Route>, n: Net)
    requires WellPlaced(before, n) && WellPlaced(after, n)
    ensures var e := EventFor(before, after);
            && (e.Some? && e.value.code == NA <==> !Advertised(before) && Advertised(after))
            && (e.Some? && e.value.code == ND <==> Advertised(before) && after.None?)
            && (e.Some? && e.value.code == NRC <==> Advertised(before) && after.Some? && after.value.target.AurpPeer?)
            && (e.Some? && e.value.code == NDC <==>
                && Advertised(before) && after.Some? && !after.value.target.AurpPeer?
                && (|| after.value.distance != before.value.distance || after.value.extended != before.value.extended
                    || after.value.netEnd != before.value.netEnd))
            && (e.Some? ==> e.value.code != NullEvent && e.value.code != ZC)
    ensures var e := EventFor(before, after);
            e.Some? ==>
              var shown := if e.value.code == NA || e.value.code == NDC then after.value else before.value;
              && e.value.rangeStart == n && e.value.rangeEnd == shown.netEnd && e.value.extended == shown.extended
              && e.value.distance == if e.value.code == NA || e.value.code == NDC then shown.distance else 0
  {
  }

  // ----- Coalescing -----

  datatype Change = Change(before: Option<Route>, after: Option<Route>)
  type Pending = map<Net, Change>

  /** The update classes a peer has subscribed to. */
  datatype Sui = Sui(na: bool, ndOrNrc: bool, ndc: bool, zc: bool)
  const ALL_SUI := Sui(true, true, true, true)

  predicate Allows(sui: Sui, code: EventCode) {
    match code
    case NA => sui.na
    case ND => sui.ndOrNrc
    case NRC => sui.ndOrNrc
    case NDC => sui.ndc
    case ZC => sui.zc
    case NullEvent => true
  }

  /** queueBestNetworkTransition while the sender is connected. */
  function Queue(pending: Pending, sui: Sui, before: Option<Route>, after: Option<Route>): Pending {
    if before.None? && after.None? then pending else
    var n := if before.Some? then before.value.key.netStart else after.value.key.netStart;
    var change := Change(if n in pending then pending[n].before else before, after);
    var e := EventFor(change.before, change.after);
    if e.None? || !Allows(sui, e.value.code) then pending - {n} else pending[n := change]
  }

  function NoteBefore(note: Note): Option<Route> {
    match note
    case NetworkAdded(_) => None
    case NetworkDeleted(o) => Some(o)
    case BestNetworkChanged(f, _) => Some(f)
  }

  function NoteAfter(note: Note): Option<Route> {
    match note
    case NetworkAdded(b) => Some(b)
    case NetworkDeleted(_) => None
    case BestNetworkChanged(_, b) => Some(b)
  }

  function QueueNotes(pending: Pending, sui: Sui, notes: seq<Note>): Pending {
    if notes == [] then pending
    else Queue(QueueNotes(pending, sui, notes[..|notes| - 1]), sui,
               NoteBefore(notes[|notes| - 1]), NoteAfter(notes[|notes| - 1]))
  }

  /** At network n the mirror shows what was exported when the pending change
      began, and the change ends at what is known now. */
  ghost predicate InStepAt(m: Mirror, view: View, pending: Pending, n: Net) {
    if n in pending then
      && WellPlaced(pending[n].before, n) && WellPlaced(pending[n].after, n)
      && Shown(m, n) == ExportOf(pending[n].before)
      && ExportOf(pending[n].after) == ExportOf(Held(view, n))
      && EventFor(pending[n].before, pending[n].after).Some?
    else Shown(m, n) == ExportOf(Held(view, n))
  }

  ghost predicate InStep(m: Mirror, view: View, pending: Pending) {
    && (forall n :: n in view ==> WellPlaced(Some(view[n]), n))
    && forall n: Net :: InStepAt(m, view, pending, n)
  }

  lemma ShapeExport(a: Route, b: Route)
    requires a.WellFormed() && b.WellFormed() && SameShape(a, b) && a.key.netStart == b.key.netStart
    ensures ExportOf(Some(a)) == ExportOf(Some(b))
  {
    SameShapeExports(a, b);
  }

  /** Queueing a fitting note keeps mirror, view and queue in step: a change is
      discarded only when nothing would be sent for it. */
  lemma QueueInStep(m: Mirror, view: View, pending: Pending, note: Note)
    requires InStep(m, view, pending) && Fits(view, note)
    ensures InStep(m, Hear(view, note), Queue(pending, ALL_SUI, NoteBefore(note), NoteAfter(note)))
  {
    var before, after := NoteBefore(note), NoteAfter(note);
    var n := if before.Some? then before.value.key.netStart else after.value.key.netStart;
    var view', pending' := Hear(view, note), Queue(pending, ALL_SUI, before, after);
    forall k: Net ensures InStepAt(m, view', pending', k) {
      assert InStepAt(m, view, pending, k);
      if k == n {
        QueueAtNote(m, view, pending, note, n);
      } else {
        assert Held(view', k) == Held(view, k);
        assert k in pending' <==> k in pending;
      }
    }
  }

  lemma QueueAtNote(m: Mirror, view: View, pending: Pending, note: Note, n: Net)
    requires InStepAt(m, view, pending, n) && Fits(view, note) && (n in view ==> WellPlaced(Some(view[n]), n))
    requires n == if NoteBefore(note).Some? then NoteBefore(note).value.key.netStart else NoteAfter(note).value.key.netStart
    ensures InStepAt(m, Hear(view, note), Queue(pending, ALL_SUI, NoteBefore(note), NoteAfter(note)), n)
  {
    var before, after := NoteBefore(note), NoteAfter(note);
    if before.Some? { ShapeExport(view[n], before.value); }
    var from := if n in pending then pending[n].before else before;
    assert Shown(m, n) == ExportOf(from);
    EventExact(m, from, after, n);
  }

  /** The peer has asked for events of this kind. */
  predicate Wanted(sui: Sui, e: EventTuple) {
    && (e.code == NA ==> sui.na) && (e.code == NDC ==> sui.ndc) && (e.code == ZC ==> sui.zc)
    && (e.code == ND || e.code == NRC ==> sui.ndOrNrc)
  }

  /** Every pending change needs an event, and one that the peer wants. */
  ghost predicate AllWanted(pending: Pending, sui: Sui) {
    forall n :: n in pending ==>
      var e := EventFor(pending[n].before, pending[n].after); e.Some? && Wanted(sui, e.value)
  }

  /** One transition and the queue: the change from where the network's pending one
      began, if any, is kept exactly if it needs an event and that is wanted. Changes of
      other networks stay. */
  lemma QueueExact(pending: Pending, sui: Sui, before: Option<Route>, after: Option<Route>, n: Net)
    requires WellPlaced(before, n) && WellPlaced(after, n) && (before.Some? || after.Some?)
    ensures var pending' := Queue(pending, sui, before, after);
            var change := Change(if n in pending then pending[n].before else before, after);
            var e := EventFor(change.before, change.after);
            && (n in pending' <==> e.Some? && Wanted(sui, e.value)) && (n in pending' ==> pending'[n] == change)
            && forall m :: m != n ==>
                 (m in pending' <==> m in pending) && (m in pending ==> pending'[m] == pending[m])
  {
  }

  /** Under any subscription, only wanted changes are ever queued. */
  lemma {:induction false} QueueWanted(pending: Pending, sui: Sui, notes: seq<Note>)
    requires AllWanted(pending, sui)
    ensures AllWanted(QueueNotes(pending, sui, notes), sui)
  {
    if notes != [] {
      QueueWanted(pending, sui, notes[..|notes| - 1]);
      var note := notes[|notes| - 1];
      OneWanted(QueueNotes(pending, sui, notes[..|notes| - 1]), sui, NoteBefore(note), NoteAfter(note));
    }
  }

  lemma OneWanted(pending: Pending, sui: Sui, before: Option<Route>, after: Option<Route>)
    requires AllWanted(pending, sui)
    ensures AllWanted(Queue(pending, sui, before, after), sui)
  {
  }

  lemma {:induction false} QueueNotesInStep(m: Mirror, view: View, pending: Pending, notes: seq<Note>)
    requires InStep(m, view, pending) && AllFit(view, notes)
    ensures InStep(m, HearAll(view, notes), QueueNotes(pending, ALL_SUI, notes))
  {
    if notes != [] {
      var init := notes[..|notes| - 1];
      QueueNotesInStep(m, view, pending, init);
      QueueInStep(m, HearAll(view, init), QueueNotes(pending, ALL_SUI, init), notes[|notes| - 1]);
    }
  }

  // ----- Flushing -----

  /** aurpEventsForPendingChanges: the events of all pending changes below hi. */
  function EventsBelow(pending: Pending, hi: nat): seq<EventTuple>
    requires hi <= NETWORKS
  {
    if hi == 0 then []
    else EventsBelow(pending, hi - 1)
         + if hi - 1 in pending && EventFor(pending[hi - 1].before, pending[hi - 1].after).Some?
           then [EventFor(pending[hi - 1].before, pending[hi - 1].after).value] else []
  }

  lemma BelowStep(pending: Pending, hi: nat)
    requires 0 < hi <= NETWORKS
    ensures var es := EventsBelow(pending, hi - 1);
            EventsBelow(pending, hi) ==
            if hi - 1 in pending && EventFor(pending[hi - 1].before, pending[hi - 1].after).Some?
            then es + [EventFor(pending[hi - 1].before, pending[hi - 1].after).value] else es
  {
  }

  function Events(pending: Pending): seq<EventTuple> { EventsBelow(pending, NETWORKS) }

  method EventsForPendingChanges(pending: Pending) returns (es: seq<EventTuple>)
    ensures es == Events(pending)
  {
    es := [];
    for n := 0 to NETWORKS
      invariant es == EventsBelow(pending, n)
    {
      if n in pending {
        var e := EventFor(pending[n].before, pending[n].after);
        if e.Some? {
          es := es + [e.value];
        }
      }
    }
  }

  /** The events bring the mirror up to date below hi and nowhere else. */
  ghost predicate Flushed(m: Mirror, view: View, es: seq<EventTuple>, hi: nat) {
    && (forall n: Net :: Shown(MirrorEvents(m, es), n) == if n < hi then ExportOf(Held(view, n)) else Shown(m, n))
    && SoundAll(m, es)
    && (forall i :: 0 <= i < |es| ==> es[i].rangeStart < hi)
    && OnePerNetwork(es)
  }

  lemma FlushPush(m: Mirror, view: View, es: seq<EventTuple>, n: Net, change: Change)
    requires Flushed(m, view, es, n) && WellPlaced(change.before, n) && WellPlaced(change.after, n)
    requires Shown(m, n) == ExportOf(change.before) && ExportOf(change.after) == ExportOf(Held(view, n))
    requires EventFor(change.before, change.after).Some?
    ensures Flushed(m, view, es + [EventFor(change.before, change.after).value], n + 1)
  {
    var e := EventFor(change.before, change.after).value;
    EventExact(MirrorEvents(m, es), change.before, change.after, n);
    assert (es + [e])[..|es + [e]| - 1] == es;
    assert MirrorEvents(m, es + [e]) == MirrorEvent(MirrorEvents(m, es), e);
  }

  /** Flushing applies exactly the pending changes of the networks below hi. */
  lemma {:induction false} FlushBelow(m: Mirror, view: View, pending: Pending, hi: nat)
    requires InStep(m, view, pending) && hi <= NETWORKS
    ensures Flushed(m, view, EventsBelow(pending, hi), hi)
  {
    if hi > 0 {
      FlushBelow(m, view, pending, hi - 1);
      assert InStepAt(m, view, pending, hi - 1);
      FlushOne(m, view, pending, hi - 1);
    }
  }

  lemma FlushOne(m: Mirror, view: View, pending: Pending, n: Net)
    requires InStepAt(m, view, pending, n) && Flushed(m, view, EventsBelow(pending, n), n)
    ensures Flushed(m, view, EventsBelow(pending, n + 1), n + 1)
  {
    BelowStep(pending, n + 1);
    if n in pending {
      FlushPush(m, view, EventsBelow(pending, n), n, pending[n]);
    } else {
      FlushSkip(m, view, EventsBelow(pending, n), n);
    }
  }

  lemma FlushSkip(m: Mirror, view: View, es: seq<EventTuple>, n: Net)
    requires Flushed(m, view, es, n) && Shown(m, n) == ExportOf(Held(view, n))
    ensures Flushed(m, view, es, n + 1)
  {
  }

  ghost predicate OnePerNetwork(es: seq<EventTuple>) {
    forall i, j :: 0 <= i < j < |es| ==> es[i].rangeStart < es[j].rangeStart
  }

  /** Coalescing is exact: after a flush the mirror shows the exported view, and
      the flush held at most one event for a network. */
  lemma FlushExact(m: Mirror, view: View, pending: Pending)
    requires InStep(m, view, pending)
    ensures InStep(MirrorEvents(m, Events(pending)), view, map[])
    ensures SoundAll(m, Events(pending)) && OnePerNetwork(Events(pending))
  {
    FlushBelow(m, view, pending, NETWORKS);
  }

  // ----- Changes pending at a snapshot -----

  lemma {:induction false} EventsElsewhere(m: Mirror, pending: Pending, hi: nat, n: Net)
    requires hi <= NETWORKS && n !in pending
    requires forall k :: k in pending ==> WellPlaced(pending[k].before, k) && WellPlaced(pending[k].after, k)
    ensures Shown(MirrorEvents(m, EventsBelow(pending, hi)), n) == Shown(m, n)
  {
    if hi > 0 {
      EventsElsewhere(m, pending, hi - 1, n);
      BelowStep(pending, hi);
      if hi - 1 in pending {
        var e := EventFor(pending[hi - 1].before, pending[hi - 1].after);
        EventPlace(pending[hi - 1], hi - 1);
        if e.Some? {
          MirrorPush(m, EventsBelow(pending, hi - 1), e.value);
          ShownElsewhere(MirrorEvents(m, EventsBelow(pending, hi - 1)), e.value, n);
        }
      }
    }
  }

  lemma ShownElsewhere(m: Mirror, e: EventTuple, n: Net)
    requires e.rangeStart != n
    ensures Shown(MirrorEvent(m, e), n) == Shown(m, n)
  {
  }

  lemma EventPlace(change: Change, n: Net)
    requires WellPlaced(change.before, n) && WellPlaced(change.after, n)
    ensures var e := EventFor(change.before, change.after); e.Some? ==> e.value.rangeStart == n
  {
  }

  lemma MirrorPush(m: Mirror, es: seq<EventTuple>, e: EventTuple)
    ensures MirrorEvents(m, es + [e]) == MirrorEvent(MirrorEvents(m, es), e)
  {
    assert (es + [e])[..|es|] == es;
  }

  /** The note that takes network n back to where its pending change began. */
  function Reversal(view: View, pending: Pending, n: Net): Note
    requires n in pending && (n in view || pending[n].before.Some?)
  {
    if n !in view then NetworkAdded(pending[n].before.value)
    else if pending[n].before.None? then NetworkDeleted(view[n])
    else BestNetworkChanged(view[n], pending[n].before.value)
  }

  /** A change queued before a snapshot and reversed after it cancels out, so that
      nothing is sent, yet the snapshot showed the state in between. */
  lemma StaleChange(m0: Mirror, m: Mirror, view: View, pending: Pending, n: Net)
    requires InStep(m0, view, pending) && InStep(m, view, map[]) && n in pending
    ensures n in view || pending[n].before.Some?
    ensures var note := Reversal(view, pending, n);
            && Fits(view, note)
            && Queue(pending, ALL_SUI, NoteBefore(note), NoteAfter(note)) == pending - {n}
            && Shown(MirrorEvents(m, Events(pending - {n})), n) != ExportOf(Held(Hear(view, note), n))
  {
    assert InStepAt(m0, view, pending, n) && InStepAt(m, view, map[], n);
    var before := pending[n].before;
    EventExact(m0, before, before, n);
    EventExact(m0, before, pending[n].after, n);
    forall k | k in pending ensures WellPlaced(pending[k].before, k) && WellPlaced(pending[k].after, k) {
      assert InStepAt(m0, view, pending, k);
    }
    EventsElsewhere(m, pending - {n}, NETWORKS, n);
  }

  /** After a snapshot every continuation is replicated exactly if nothing was
      pending when it was taken. */
  lemma EmptyQueueNeeded(m0: Mirror, m: Mirror, view: View, pending: Pending)
    requires InStep(m0, view, pending) && InStep(m, view, map[])
    ensures pending == map[] <==>
            forall notes :: AllFit(view, notes) ==>
              InStep(MirrorEvents(m, Events(QueueNotes(pending, ALL_SUI, notes))), HearAll(view, notes), map[])
  {
    if pending == map[] {
      forall notes | AllFit(view, notes)
        ensures InStep(MirrorEvents(m, Events(QueueNotes(pending, ALL_SUI, notes))), HearAll(view, notes), map[])
      {
        QueueNotesInStep(m, view, pending, notes);
        FlushExact(m, HearAll(view, notes), QueueNotes(pending, ALL_SUI, notes));
      }
    } else {
      var n :| n in pending;
      StaleChange(m0, m, view, pending, n);
      OneNote(view, pending, Reversal(view, pending, n));
      assert !InStepAt(MirrorEvents(m, Events(pending - {n})), Hear(view, Reversal(view, pending, n)), map[], n);
    }
  }

  lemma OneNote(view: View, pending: Pending, note: Note)
    ensures AllFit(view, [note]) <==> Fits(view, note)
    ensures HearAll(view, [note]) == Hear(view, note)
    ensures QueueNotes(pending, ALL_SUI, [note]) == Queue(pending, ALL_SUI, NoteBefore(note), NoteAfter(note))
  {
    assert [note][..0] == [];
    assert HearAll(view, []) == view && AllFit(view, []);
  }

  // ----- Applying events at the receiver -----

  /** What the encoding of an event carries: a null event has nothing but its code. */
  predicate Writable(e: EventTuple) {
    if e.code == NullEvent then !e.extended && e.rangeStart == e.rangeEnd == 0 && e.distance == 0
    else e.distance < 0x80 && (!e.extended ==> e.rangeStart == e.rangeEnd)
  }

  /** An event the sender may issue on a mirror: adds only what is absent, and
      with a valid range at a distance that can be advertised. */
  ghost predicate Sound(m: Mirror, e: EventTuple) {
    && e.rangeStart <= e.rangeEnd < 0xFFFF && Writable(e)
    && (e.code == NA ==> e.rangeStart !in m && e.distance < MAX_ROUTE_DISTANCE)
    && (e.code == NA || e.code == NDC ==> ValidRange(e.extended, e.rangeStart, e.rangeEnd))
  }

  ghost predicate SoundAll(m: Mirror, es: seq<EventTuple>) {
    es == [] || (SoundAll(m, es[..|es| - 1]) && Sound(MirrorEvents(m, es[..|es| - 1]), es[|es| - 1]))
  }

  lemma {:induction false} SoundConcat(m: Mirror, a: seq<EventTuple>, b: seq<EventTuple>)
    requires SoundAll(m, a) && SoundAll(MirrorEvents(m, a), b)
    ensures SoundAll(m, a + b)
  {
    if b == [] {
      assert a + b == a;
    } else {
      SoundConcat(m, a, b[..|b| - 1]);
      MirrorConcat(m, a, b[..|b| - 1]);
      assert (a + b)[..|a + b| - 1] == a + b[..|b| - 1];
    }
  }

  /** weightedAURPDistance; `extra` is the configured hop weight plus any backup
      penalty. */
  function Weighted(advertised: nat, extra: nat): Option<nat> {
    if advertised >= MAX_ROUTE_DISTANCE || advertised + 1 + extra > MAX_ROUTE_DISTANCE then None
    else Some(advertised + 1 + extra)
  }

  /** applyRIUpdEvent: the table operation an event from the peer calls for. */
  function EventOp(t: Table, peer: Target, extra: nat, e: EventTuple, now: int): Option<Op> {
    var key := RouteKey(peer.Key(), e.rangeStart);
    var remove := if key in t.routes then Some(DeleteRoute(peer, e.rangeStart, now)) else None;
    match e.code
    case NullEvent => None
    case ZC => None
    case ND => remove
    case NRC => remove
    case NA =>
      if !ValidRange(e.extended, e.rangeStart, e.rangeEnd) || Weighted(e.distance, extra).None? then None
      else Some(Upsert(peer, e.extended, e.rangeStart, e.rangeEnd, Weighted(e.distance, extra).value, now))
    case NDC =>
      if !ValidRange(e.extended, e.rangeStart, e.rangeEnd) then None
      else if Weighted(e.distance, extra).None? then remove
      else if key in t.routes && t.routes[key].extended == e.extended && t.routes[key].netEnd == e.rangeEnd
      then Some(UpdateDistance(peer, e.rangeStart, Weighted(e.distance, extra).value, now))
      else Some(Upsert(peer, e.extended, e.rangeStart, e.rangeEnd, Weighted(e.distance, extra).value, now))
  }

  /** A peer may announce a range that ends at 65535. It is accepted, and the loop
      that stores it never ends. */
  lemma EndlessRange(t: Table, peer: Target, extra: nat, start: Net, distance: nat, now: int)
    requires Weighted(distance, extra).Some?
    ensures var op := EventOp(t, peer, extra, EventTuple(NA, true, start, 0xFFFF, distance), now);
            op.Some? && op.value.Upsert? && Accepted(t, op.value)
            && op.value.netStart == start && op.value.netEnd == 0xFFFF
    ensures !exists k: nat :: RangeCounter(start, k) > 0xFFFF
  {
  }

  ghost function ApplyEvent(t: Table, peer: Target, extra: nat, e: EventTuple, now: int): Table
    requires |t.zones| == NETWORKS
  {
    var op := EventOp(t, peer, extra, e, now);
    if op.Some? then Next(t, op.value) else t
  }

  ghost function ApplyEvents(t: Table, peer: Target, extra: nat, es: seq<EventTuple>, now: int): (t': Table)
    requires |t.zones| == NETWORKS
    ensures |t'.zones| == NETWORKS
  {
    if es == [] then t
    else ApplyEvent(ApplyEvents(t, peer, extra, es[..|es| - 1], now), peer, extra, es[|es| - 1], now)
  }

  /** What an event does to the receiver's table. An NA or NDC with its range in order
      stores the range one hop and the configured weight further away than announced; if
      that is more than 15 hops, an NA does nothing and an NDC removes the route. An ND
      or NRC removes it. No other route changes. */
  ghost predicate EventEffect(t: Table, t': Table, peer: Target, extra: nat, e: EventTuple) {
    var k := RouteKey(peer.Key(), e.rangeStart);
    var ordered := e.rangeStart <= e.rangeEnd && (e.extended || e.rangeStart == e.rangeEnd);
    var near := e.distance + 1 + extra <= 15;
    && (forall l :: l != k ==> (l in t'.routes <==> l in t.routes) && (l in t.routes ==> t'.routes[l] == t.routes[l]))
    && ((e.code == NA || e.code == NDC) && ordered && near ==>
          && k in t'.routes && t'.routes[k].extended == e.extended && t'.routes[k].netEnd == e.rangeEnd
          && t'.routes[k].distance == e.distance + 1 + extra)
    && (e.code == ND || e.code == NRC || (e.code == NDC && ordered && !near) ==> k !in t'.routes)
    && (e.code == NullEvent || e.code == ZC || (e.code == NA && !(ordered && near)) || (e.code == NDC && !ordered) ==>
          t' == t)
  }

  lemma OneRemoved(t: Table, g: Target, s: Net, at: int)
    requires t.WellFormed()
    ensures var routes := Next(t, DeleteRoute(g, s, at)).routes;
            && RouteKey(g.Key(), s) !in routes
            && forall l :: l != RouteKey(g.Key(), s) ==>
                 (l in routes <==> l in t.routes) && (l in t.routes ==> routes[l] == t.routes[l])
  {
    forall l ensures l in Next(t, DeleteRoute(g, s, at)).routes <==> l in t.routes && l != RouteKey(g.Key(), s) {
      RemovalEffect(t, g, s, at, l);
    }
  }

  lemma EventMeans(t: Table, peer: Target, extra: nat, e: EventTuple, now: int)
    requires t.WellFormed() && e.rangeEnd < 0xFFFF
    ensures EventEffect(t, ApplyEvent(t, peer, extra, e, now), peer, extra, e)
  {
    var op := EventOp(t, peer, extra, e, now);
    if op.Some? {
      match op.value
      case Upsert(g, x, s, f, d, at) => UpsertEffect(t, g, x, s, f, d, at);
      case UpdateDistance(g, s, d, at) => UpdateDistanceEffect(t, g, s, d, at);
      case DeleteRoute(g, s, at) => OneRemoved(t, g, s, at);
      case _ =>
    }
  }

  /** What the receiver stores for the peer at n. */
  function StoredAdvert(t: Table, peer: Target, n: Net): Option<Advert> {
    var key := RouteKey(peer.Key(), n);
    if key in t.routes then Some(AdvertOf(t.routes[key])) else None
  }

  /** What it should store for an advert: the same range, one hop and the weight further
      away, if that is not too far. */
  function Reached(a: Option<Advert>, extra: nat): Option<Advert> {
    if a.Some? && a.value.distance + 1 + extra <= 15
    then Some(a.value.(distance := a.value.distance + 1 + extra)) else None
  }

  /** The routes stored for the peer are the mirrored adverts, weighted. */
  ghost predicate StoreMirrors(t: Table, peer: Target, extra: nat, m: Mirror) {
    forall n: Net :: StoredAdvert(t, peer, n) == Reached(Shown(m, n), extra)
  }

  /** What an operation on the peer's route starting at `start` leaves at n. */
  lemma PeerOpStored(t: Table, op: Op, peer: Target, n: Net)
    requires |t.zones| == NETWORKS && Accepted(t, op)
    requires match op
             case Upsert(g, _, _, _, _, _) => g == peer
             case UpdateDistance(g, _, _, _) => g == peer
             case DeleteRoute(g, _, _) => g == peer
             case _ => false
    ensures StoredAdvert(Next(t, op), peer, n) ==
              if n != op.netStart then StoredAdvert(t, peer, n)
              else match op
              case Upsert(_, x, s, f, d, _) => Some(Advert(x, s, f, d))
              case UpdateDistance(_, s, d, _) =>
                Some(AdvertOf(t.routes[RouteKey(peer.Key(), s)]).(distance := d))
              case _ => None
  {
  }

  /** The operation of an event can be carried out and is on the peer's route. */
  lemma EventOpPeer(t: Table, peer: Target, extra: nat, e: EventTuple, now: int)
    requires EventOp(t, peer, extra, e, now).Some?
    ensures var op := EventOp(t, peer, extra, e, now).value;
            && Accepted(t, op) && (op.Upsert? || op.UpdateDistance? || op.DeleteRoute?)
            && op.target == peer && op.netStart == e.rangeStart
            && (op.Upsert? ==> op.netEnd == e.rangeEnd)
  {
  }

  lemma EventStored(t: Table, peer: Target, extra: nat, m: Mirror, e: EventTuple, now: int, n: Net)
    requires t.WellFormed() && Sound(m, e)
    requires StoredAdvert(t, peer, n) == Reached(Shown(m, n), extra)
    ensures StoredAdvert(ApplyEvent(t, peer, extra, e, now), peer, n) == Reached(Shown(MirrorEvent(m, e), n), extra)
  {
    var op := EventOp(t, peer, extra, e, now);
    if op.Some? {
      EventOpPeer(t, peer, extra, e, now);
      PeerOpStored(t, op.value, peer, n);
    }
  }

  /** Applying an event to the receiver's table is applying it to the mirror. */
  lemma EventMirrors(t: Table, peer: Target, extra: nat, m: Mirror, e: EventTuple, now: int)
    requires t.WellFormed() && StoreMirrors(t, peer, extra, m) && Sound(m, e)
    ensures ApplyEvent(t, peer, extra, e, now).WellFormed()
    ensures StoreMirrors(ApplyEvent(t, peer, extra, e, now), peer, extra, MirrorEvent(m, e))
  {
    var op := EventOp(t, peer, extra, e, now);
    if op.Some? { NextWellFormed(t, op.value); }
    forall n: Net
      ensures StoredAdvert(ApplyEvent(t, peer, extra, e, now), peer, n) == Reached(Shown(MirrorEvent(m, e), n), extra)
    {
      EventStored(t, peer, extra, m, e, now, n);
    }
  }

  lemma {:induction false} EventsMirror(t: Table, peer: Target, extra: nat, m: Mirror, es: seq<EventTuple>, now: int)
    requires t.WellFormed() && StoreMirrors(t, peer, extra, m) && SoundAll(m, es)
    ensures ApplyEvents(t, peer, extra, es, now).WellFormed()
    ensures StoreMirrors(ApplyEvents(t, peer, extra, es, now), peer, extra, MirrorEvents(m, es))
  {
    if es != [] {
      var init := es[..|es| - 1];
      EventsMirror(t, peer, extra, m, init, now);
      EventMirrors(ApplyEvents(t, peer, extra, init, now), peer, extra, MirrorEvents(m, init), es[|es| - 1], now);
    }
  }

  /** The operation concerns other targets than the peer. */
  predicate Elsewhere(op: Op, peer: Target) {
    match op
    case Upsert(g, _, _, _, _, _) => g.Key() != peer.Key()
    case UpdateDistance(g, _, _, _) => g.Key() != peer.Key()
    case DeleteRoute(g, _, _) => g.Key() != peer.Key()
    case DeleteTarget(g, _) => g.Key() != peer.Key()
    case _ => true
  }

  /** Other changes of the receiver's table, ageing included, leave what it
      stores for an AURP peer alone. */
  lemma ElsewhereMirrors(t: Table, peer: Target, extra: nat, m: Mirror, op: Op)
    requires t.WellFormed() && peer.AurpPeer? && StoreMirrors(t, peer, extra, m) && Elsewhere(op, peer)
             && Admissible(op)
    ensures Next(t, op).WellFormed() && StoreMirrors(Next(t, op), peer, extra, m)
  {
    NextWellFormed(t, op);
    forall n: Net ensures StoredAdvert(Next(t, op), peer, n) == StoredAdvert(t, peer, n) {
      var key := RouteKey(peer.Key(), n);
      KeyDeterminesClass(peer);
      if key in t.routes {
        KeyDeterminesClass(t.routes[key].target);
      }
    }
    forall n: Net ensures StoredAdvert(Next(t, op), peer, n) == Reached(Shown(m, n), extra) {
      assert StoredAdvert(t, peer, n) == Reached(Shown(m, n), extra);
    }
  }

  // ----- The snapshot -----

  /** A network tuple of an RI-Rsp is applied like the addition of a network. */
  function TupleEvent(a: Advert): EventTuple { EventTuple(NA, a.extended, a.netStart, a.netEnd, a.distance) }

  function TupleEvents(adverts: seq<Advert>): seq<EventTuple> {
    seq(|adverts|, i requires 0 <= i < |adverts| => TupleEvent(adverts[i]))
  }

  /** The adverts are those of the view, one per start. */
  ghost predicate Snapshot(view: View, adverts: seq<Advert>) {
    && (forall i, j :: 0 <= i < j < |adverts| ==> adverts[i].netStart < adverts[j].netStart)
    && forall a :: a in adverts <==> ViewExports(view, a)
  }

  lemma TuplesPush(adverts: seq<Advert>, i: nat)
    requires 0 < i <= |adverts|
    ensures var es := TupleEvents(adverts[..i]);
            |es| == i && es[..i - 1] == TupleEvents(adverts[..i - 1]) && es[i - 1] == TupleEvent(adverts[i - 1])
  {
  }

  /** The mirror m shows exactly the first i adverts. */
  ghost predicate ShowsFirst(m: Mirror, adverts: seq<Advert>, i: nat)
    requires i <= |adverts|
  {
    && (forall j :: 0 <= j < i ==> Shown(m, adverts[j].netStart) == Some(adverts[j]))
    && forall n :: n in m ==> exists j :: 0 <= j < i && adverts[j].netStart == n
  }

  lemma ShowNext(m: Mirror, adverts: seq<Advert>, i: nat)
    requires i < |adverts| && ShowsFirst(m, adverts, i)
    requires forall j, k :: 0 <= j < k < |adverts| ==> adverts[j].netStart < adverts[k].netStart
    ensures adverts[i].netStart !in m && ShowsFirst(m[adverts[i].netStart := adverts[i]], adverts, i + 1)
  {
    var m' := m[adverts[i].netStart := adverts[i]];
    forall n | n in m' ensures exists j :: 0 <= j < i + 1 && adverts[j].netStart == n {
      if n == adverts[i].netStart {
        assert adverts[i].netStart == n;
      } else {
        var j :| 0 <= j < i && adverts[j].netStart == n;
      }
    }
  }

  /** What is exported can be advertised. */
  lemma AdvertSound(view: View, adverts: seq<Advert>, i: nat, m: Mirror)
    requires Snapshot(view, adverts) && i < |adverts| && (forall n :: n in view ==> WellPlaced(Some(view[n]), n))
    requires adverts[i].netStart !in m
    ensures Sound(m, TupleEvent(adverts[i]))
            && MirrorEvent(m, TupleEvent(adverts[i])) == m[adverts[i].netStart := adverts[i]]
  {
    assert adverts[i] in adverts;
    assert ViewExports(view, adverts[i]);
  }

  lemma {:induction false} SnapshotPrefix(view: View, adverts: seq<Advert>, i: nat)
    requires Snapshot(view, adverts) && i <= |adverts| && (forall n :: n in view ==> WellPlaced(Some(view[n]), n))
    ensures SoundAll(map[], TupleEvents(adverts[..i]))
            && ShowsFirst(MirrorEvents(map[], TupleEvents(adverts[..i])), adverts, i)
  {
    if i > 0 {
      SnapshotPrefix(view, adverts, i - 1);
      TuplesPush(adverts, i);
      var m := MirrorEvents(map[], TupleEvents(adverts[..i - 1]));
      ShowNext(m, adverts, i - 1);
      AdvertSound(view, adverts, i - 1, m);
    }
  }

  /** The snapshot puts an empty mirror in step with the view. */
  lemma SnapshotExact(view: View, adverts: seq<Advert>)
    requires Snapshot(view, adverts) && (forall n :: n in view ==> WellPlaced(Some(view[n]), n))
    ensures SoundAll(map[], TupleEvents(adverts))
    ensures InStep(MirrorEvents(map[], TupleEvents(adverts)), view, map[])
  {
    SnapshotPrefix(view, adverts, |adverts|);
    assert adverts[..|adverts|] == adverts;
    var m := MirrorEvents(map[], TupleEvents(adverts));
    forall n: Net ensures Shown(m, n) == ExportOf(Held(view, n)) { ShownExported(m, view, adverts, n); }
  }

  lemma ShownExported(m: Mirror, view: View, adverts: seq<Advert>, n: Net)
    requires Snapshot(view, adverts) && (forall n :: n in view ==> WellPlaced(Some(view[n]), n))
    requires ShowsFirst(m, adverts, |adverts|)
    ensures Shown(m, n) == ExportOf(Held(view, n))
  {
    if n in m {
      var j :| 0 <= j < |adverts| && adverts[j].netStart == n;
      assert adverts[j] in adverts;
    }
    if n in view && IsAdvertisable(Some(view[n])) {
      assert ViewExports(view, AdvertOf(view[n]));
      var j :| 0 <= j < |adverts| && adverts[j] == AdvertOf(view[n]);
    }
  }
}

/** Which router may speak for a cable: the seed controller and its promotion loop
    (router/seed.go) together with the AARP machine that owns the port's address
    (router/aarp.go). */
module Seeding {
  import opened Routes

  datatype Mode = Hard | Soft | NoSeed
  datatype Range = Range(start: Net, end: Net)

  const STARTUP := Range(0xFF00, 0xFFFE)
  predicate IsStartup(r: Range) { r.start >= STARTUP.start && r.end <= STARTUP.end }
  predicate IsSet(r: Range) { r.start != 0 && r.end != 0 }

  // ----- The seed controller -----

  datatype Seed = Seed(
    mode: Mode,
    configured: Range,
    configuredZone: string,
    active: bool,
    external: bool,
    conflict: bool,
    observed: Range,
    observedZone: string,
    lastAuthority: Option<int>)

  predicate HasAuthority(s: Seed) { s.active && !s.conflict }

  predicate Contradicts(s: Seed, r: Range, zone: string) {
    (IsSet(s.configured) && r != s.configured) || (zone != "" && s.configuredZone != "" && zone != s.configuredZone)
  }

  function Observe(s: Seed, r: Range, authority: bool, zone: string, now: int): Seed {
    var s1 := s.(observed := r, observedZone := if zone != "" then zone else s.observedZone,
                 external := s.external || authority,
                 lastAuthority := if authority then Some(now) else s.lastAuthority);
    if Contradicts(s, r, zone) then s1.(conflict := true, active := false)
    else if authority && s.mode == Soft then s1.(active := false)
    else s1
  }

  function Promote(s: Seed): Seed {
    if s.mode != Soft || s.external || s.conflict || s.active then s else s.(active := true)
  }

  predicate Lapsed(s: Seed, now: int, timeout: int) {
    s.external && s.lastAuthority.Some? && now - s.lastAuthority.value > timeout
  }

  class SeedController {
    const mode: Mode
    const configured: Range
    const configuredZone: string
    var active: bool
    var external: bool
    var conflict: bool
    var observed: Range
    var observedZone: string
    var lastAuthority: Option<int>

    ghost function State(): Seed
      reads this
    {
      Seed(mode, configured, configuredZone, active, external, conflict, observed, observedZone, lastAuthority)
    }

    constructor (mode: Mode, configured: Range, zone: string)
      ensures State() == NewSeed(mode, configured, zone)
    {
      this.mode, this.configured, configuredZone := mode, configured, zone;
      active := mode == Hard;
      external, conflict, observed, observedZone, lastAuthority := false, false, Range(0, 0), "", None;
    }

    method ObserveRange(r: Range, authority: bool, zone: string, now: int)
      modifies this
      ensures State() == Observe(old(State()), r, authority, zone, now)
    {
      observed := r;
      if zone != "" {
        observedZone := zone;
      }
      if authority {
        external := true;
        lastAuthority := Some(now);
      }
      var hasConfigured := configured.start != 0 && configured.end != 0;
      if (hasConfigured && (r.start != configured.start || r.end != configured.end))
         || (zone != "" && configuredZone != "" && zone != configuredZone)
      {
        conflict := true;
        active := false;
        return;
      }
      if authority && mode == Soft {
        active := false;
      }
    }

    method PromoteSoft() returns (promoted: bool)
      modifies this
      ensures State() == Promote(old(State()))
      ensures promoted <==> mode == Soft && !old(external) && !old(conflict) && !old(active)
      ensures active <==> old(active) || promoted
    {
      if mode != Soft || external || conflict || active {
        return false;
      }
      active := true;
      return true;
    }

    method ExpireExternalAuthority(now: int, timeout: int) returns (expired: bool)
      modifies this
      ensures expired <==> old(external) && old(lastAuthority).Some? && now - old(lastAuthority).value > timeout
      ensures State() == if expired then old(State()).(external := false) else old(State())
    {
      if !external || lastAuthority.None? || now - lastAuthority.value <= timeout {
        return false;
      }
      external := false;
      return true;
    }
  }

  function NewSeed(mode: Mode, configured: Range, zone: string): Seed {
    Seed(mode, configured, zone, mode == Hard, false, false, Range(0, 0), "", None)
  }

  // ----- The AARP machine -----

  const PROBES := 10

  /** `queue` is the one pending request to move to another range. */
  datatype Aarp =
    Aarp(range: Range, network: Net, probes: nat, isAssigned: bool, operational: bool, queue: Option<Range>)

  function Rebind(a: Aarp, r: Range): Aarp {
    if !IsSet(r) || r.start > r.end || IsStartup(r) || a.queue.Some? then a else a.(queue := Some(r))
  }

  function TakeRange(a: Aarp): Aarp {
    if a.queue.None? then a
    else if a.queue.value == a.range && a.operational then a.(queue := None)
    else Aarp(a.queue.value, a.queue.value.start, 0, false, false, None)
  }

  function ProbeTick(a: Aarp): Aarp {
    if a.probes >= PROBES then a.(isAssigned := true, operational := a.operational || !IsStartup(a.range))
    else a.(probes := a.probes + 1)
  }

  /** Someone else uses the tentative address: try another in the range. */
  function Reroll(a: Aarp, network: Net): Aarp {
    if a.isAssigned || !(a.range.start <= network <= a.range.end) then a
    else a.(network := if a.range.start != a.range.end then network else a.network, probes := 0)
  }

  class AarpMachine {
    var range: Range
    var network: Net
    var probes: nat
    var isAssigned: bool
    var operational: bool
    var queue: Option<Range>

    ghost function State(): Aarp
      reads this
    {
      Aarp(range, network, probes, isAssigned, operational, queue)
    }

    constructor (cable: Range)
      ensures State() == Aarp(cable, cable.start, 0, false, false, None)
    {
      range, network, probes, isAssigned, operational, queue := cable, cable.start, 0, false, false, None;
    }

    method RequestRebind(r: Range)
      modifies this
      ensures State() == Rebind(old(State()), r)
    {
      if r.start == 0 || r.end == 0 || r.start > r.end || IsStartup(r) {
        return;
      }
      if queue.None? {
        queue := Some(r);
      }
    }

    method HandleRange()
      modifies this
      ensures State() == TakeRange(old(State()))
    {
      if queue.None? {
        return;
      }
      var r := queue.value;
      queue := None;
      if range == r && operational {
        return;
      }
      range := r;
      network := r.start;
      probes := 0;
      isAssigned := false;
      operational := false;
    }

    method HandleTick()
      modifies this
      ensures State() == ProbeTick(old(State()))
    {
      if probes >= PROBES {
        isAssigned := true;
        if !IsStartup(range) && !operational {
          operational := true;
        }
        return;
      }
      probes := probes + 1;
    }

    method HandleConflict(candidate: Net)
      modifies this
      ensures State() == Reroll(old(State()), candidate)
    {
      if !isAssigned && range.start <= candidate <= range.end {
        if range.start != range.end {
          network := candidate;
        }
        probes := 0;
      }
    }
  }

  // ----- A port: both, and the promotion loop -----

  /** What one turn of the loop saw at its start. */
  datatype Snapshot = Snapshot(observed: Range, external: bool, conflict: bool, softActive: bool, now: int)

  datatype Port = Port(seed: Seed, aarp: Aarp, requested: bool, eligibleAt: Option<int>, seen: Option<Snapshot>)

  datatype Input =
    | Observed(range: Range, authority: bool, zone: string, now: int)
    | TurnStarts(now: int)
    | TurnActs
    | AarpRange
    | AarpTick
    | AarpConflict(network: Net)

  function NewPort(mode: Mode, configured: Range, zone: string, start: int, delay: int): Port {
    var cable := if mode == Hard then configured else STARTUP;
    Port(NewSeed(mode, configured, zone), Aarp(cable, cable.start, 0, false, false, None), false,
         Some(start + delay), None)
  }

  /** The start of a turn: external authority may lapse, then the state is read. */
  function StartTurn(p: Port, now: int, delay: int, timeout: int): Port {
    var lapsed := p.seed.mode == Soft && Lapsed(p.seed, now, timeout);
    var p1 := if lapsed then p.(seed := p.seed.(external := false), eligibleAt := Some(now + delay), requested := false)
              else p;
    p1.(seen := Some(Snapshot(p1.seed.observed, p1.seed.external, p1.seed.conflict,
                              p1.seed.mode == Soft && HasAuthority(p1.seed), now)))
  }

  predicate OwnsConfigured(p: Port) {
    p.aarp.operational && p.aarp.isAssigned && p.aarp.range == p.seed.configured
  }

  /** The rest of the turn, acting on what was read. */
  function ActTurn(p0: Port, delay: int): Port
    requires p0.seen.Some?
  {
    var seen := p0.seen.value;
    var p := p0.(seen := None);
    if seen.conflict then p else
    var p1 := if IsSet(seen.observed) then p.(aarp := Rebind(p.aarp, seen.observed)) else p;
    if IsSet(seen.observed) && seen.external then p1.(requested := false, eligibleAt := None)
    else if p.seed.mode != Soft || seen.softActive then p1
    else if p.requested then
      if OwnsConfigured(p1) then p1.(seed := Promote(p1.seed), requested := false) else p1
    else if p.eligibleAt.None? then p1.(eligibleAt := Some(seen.now + delay))
    else if seen.now < p.eligibleAt.value || !IsSet(p.seed.configured) then p1
    else p1.(aarp := Rebind(p1.aarp, p.seed.configured), requested := true, eligibleAt := None)
  }

  function PortNext(p: Port, i: Input, delay: int, timeout: int): Port {
    match i
    case Observed(r, authority, zone, now) => p.(seed := Observe(p.seed, r, authority, zone, now))
    case TurnStarts(now) => if p.seed.mode == Hard then p else StartTurn(p, now, delay, timeout)
    case TurnActs => if p.seen.None? then p else ActTurn(p, delay)
    case AarpRange => p.(aarp := TakeRange(p.aarp))
    case AarpTick => p.(aarp := ProbeTick(p.aarp))
    case AarpConflict(n) => p.(aarp := Reroll(p.aarp, n))
  }

  function PortRun(p: Port, inputs: seq<Input>, delay: int, timeout: int): Port {
    if inputs == [] then p
    else PortNext(PortRun(p, inputs[..|inputs| - 1], delay, timeout), inputs[|inputs| - 1], delay, timeout)
  }

  /** The address is owned only once fully probed, and lies in the range. */
  predicate AarpSound(a: Aarp) {
    && a.range.start <= a.network <= a.range.end
    && (a.isAssigned ==> a.probes >= PROBES)
    && (a.operational ==> a.isAssigned && !IsStartup(a.range))
    && (a.queue.Some? ==> a.queue.value.start <= a.queue.value.end && !IsStartup(a.queue.value))
  }

  /** Without a conflict, a port with a configured range sees and moves to no other. */
  predicate OnlyConfigured(p: Port) {
    !p.seed.conflict && IsSet(p.seed.configured) && p.seed.mode == Soft ==>
      && (IsSet(p.seed.observed) ==> p.seed.observed == p.seed.configured)
      && (p.aarp.queue.Some? ==> p.aarp.queue.value == p.seed.configured)
      && (p.seen.Some? && IsSet(p.seen.value.observed) ==> p.seen.value.observed == p.seed.configured)
  }

  predicate PortSound(p: Port) {
    && AarpSound(p.aarp) && OnlyConfigured(p)
    && (p.seed.conflict ==> !p.seed.active)
    && (p.seed.mode == NoSeed ==> !p.seed.active)
    && (p.requested ==> IsSet(p.seed.configured))
    && (p.seed.mode == Soft && p.seed.active ==> IsSet(p.seed.configured) && !p.seed.external && OwnsConfigured(p))
  }

  ghost predicate SoundStep(p: Port, p': Port) {
    && PortSound(p') && p'.seed.mode == p.seed.mode && p'.seed.configured == p.seed.configured
    && (p.seed.conflict ==> p'.seed.conflict)
  }

  lemma ObserveSound(p: Port, r: Range, authority: bool, zone: string, now: int)
    requires PortSound(p)
    ensures SoundStep(p, p.(seed := Observe(p.seed, r, authority, zone, now)))
  {
  }

  lemma AarpStepSound(p: Port, n: Net)
    requires PortSound(p)
    ensures SoundStep(p, p.(aarp := TakeRange(p.aarp)))
    ensures SoundStep(p, p.(aarp := ProbeTick(p.aarp)))
    ensures SoundStep(p, p.(aarp := Reroll(p.aarp, n)))
  {
  }

  lemma StartTurnSound(p: Port, now: int, delay: int, timeout: int)
    requires PortSound(p)
    ensures SoundStep(p, StartTurn(p, now, delay, timeout))
  {
  }

  lemma RebindSound(p: Port, r: Range)
    requires PortSound(p)
    requires !p.seed.conflict && IsSet(p.seed.configured) && p.seed.mode == Soft && IsSet(r) ==> r == p.seed.configured
    ensures SoundStep(p, p.(aarp := Rebind(p.aarp, r)))
  {
  }

  lemma ActTurnSound(p: Port, delay: int)
    requires PortSound(p) && p.seen.Some?
    ensures SoundStep(p, ActTurn(p, delay))
  {
    var seen := p.seen.value;
    var p0 := p.(seen := None);
    RebindSound(p0, seen.observed);
    var p1 := if IsSet(seen.observed) then p0.(aarp := Rebind(p0.aarp, seen.observed)) else p0;
    RebindSound(p1, p.seed.configured);
  }

  lemma StepSound(p: Port, i: Input, delay: int, timeout: int)
    requires PortSound(p)
    ensures SoundStep(p, PortNext(p, i, delay, timeout))
  {
    match i
    case Observed(r, authority, zone, now) => ObserveSound(p, r, authority, zone, now);
    case TurnStarts(now) => StartTurnSound(p, now, delay, timeout);
    case TurnActs => if p.seen.Some? { ActTurnSound(p, delay); }
    case AarpConflict(n) => AarpStepSound(p, n);
    case _ => AarpStepSound(p, 0);
  }

  /** Seeding over whole runs: a soft port speaks for the cable only while AARP owns
      a fully probed address in the configured range and no other authority is
      recorded; a port without seeding never does; and a conflict is never
      cleared and excludes authority. */
  lemma {:induction false} SeedingSafe(mode: Mode, configured: Range, zone: string, start: int, inputs: seq<Input>,
                                       k: nat, delay: int, timeout: int)
    requires configured.start <= configured.end && k <= |inputs|
    ensures var p0 := NewPort(mode, configured, zone, start, delay);
            var p := PortRun(p0, inputs, delay, timeout);
            && PortSound(p) && p.seed.mode == mode && p.seed.configured == configured
            && (PortRun(p0, inputs[..k], delay, timeout).seed.conflict ==> p.seed.conflict && !HasAuthority(p.seed))
            && (mode == NoSeed ==> !HasAuthority(p.seed))
            && (mode == Soft && HasAuthority(p.seed) ==>
                  && !p.seed.external && p.aarp.isAssigned && p.aarp.probes >= PROBES && p.aarp.range == configured
                  && configured.start <= p.aarp.network <= configured.end)
  {
    var p0 := NewPort(mode, configured, zone, start, delay);
    if |inputs| == 0 {
      assert inputs[..k] == inputs;
    } else {
      var init := inputs[..|inputs| - 1];
      var j := if k < |inputs| then k else |init|;
      SeedingSafe(mode, configured, zone, start, init, j, delay, timeout);
      StepSound(PortRun(p0, init, delay, timeout), inputs[|inputs| - 1], delay, timeout);
      if k < |inputs| { assert init[..j] == inputs[..k]; } else { assert inputs[..k] == inputs; }
    }
  }

  // ----- Promotion -----

  /** A soft port on its way to promotion: it has heard no authority and no range, waits
      for the end of its delay, and its configured range is one it may own. */
  predicate Waiting(p: Port) {
    && p.seed.mode == Soft && !p.seed.external && !p.seed.conflict && !p.seed.active && !IsSet(p.seed.observed)
    && IsSet(p.seed.configured) && p.seed.configured.start <= p.seed.configured.end
    && !(p.seed.configured.start >= 0xFF00 && p.seed.configured.end <= 0xFFFE)
    && p.aarp.queue.None? && p.aarp.range != p.seed.configured
    && !p.requested && p.eligibleAt.Some? && p.seen.None?
  }

  function Ticks(n: nat): seq<Input> { seq(n, _ => AarpTick) }

  lemma RunPush(p: Port, inputs: seq<Input>, i: Input, delay: int, timeout: int)
    ensures PortRun(p, inputs + [i], delay, timeout) == PortNext(PortRun(p, inputs, delay, timeout), i, delay, timeout)
  {
    assert (inputs + [i])[..|inputs|] == inputs;
  }

  lemma {:induction false} RunConcat(p: Port, a: seq<Input>, b: seq<Input>, delay: int, timeout: int)
    ensures PortRun(p, a + b, delay, timeout) == PortRun(PortRun(p, a, delay, timeout), b, delay, timeout)
  {
    if b == [] {
      assert a + b == a;
    } else {
      RunConcat(p, a, b[..|b| - 1], delay, timeout);
      assert (a + b)[..|a + b| - 1] == a + b[..|b| - 1];
    }
  }

  /** Probing: ten ticks, and with the next the address is owned. */
  lemma {:induction false} Probed(p: Port, n: nat, delay: int, timeout: int)
    requires n <= 11 && p.aarp.probes == 0 && !p.aarp.isAssigned && !p.aarp.operational
    requires !(p.aarp.range.start >= 0xFF00 && p.aarp.range.end <= 0xFFFE)
    ensures var q := PortRun(p, Ticks(n), delay, timeout);
            q == p.(aarp := p.aarp.(probes := if n < 10 then n else 10, isAssigned := n == 11, operational := n == 11))
  {
    if n > 0 {
      Probed(p, n - 1, delay, timeout);
      RunPush(p, Ticks(n - 1), AarpTick, delay, timeout);
      assert Ticks(n) == Ticks(n - 1) + [AarpTick];
    }
  }

  /** A turn once the delay is over asks for the configured range. */
  lemma TurnRequests(p: Port, now: int, delay: int, timeout: int)
    requires Waiting(p) && now >= p.eligibleAt.value
    ensures PortRun(p, [TurnStarts(now), TurnActs, AarpRange], delay, timeout) ==
              p.(aarp := Aarp(p.seed.configured, p.seed.configured.start, 0, false, false, None),
                 requested := true, eligibleAt := None)
  {
    var none: seq<Input> := [];
    RunPush(p, none, TurnStarts(now), delay, timeout);
    RunPush(p, [TurnStarts(now)], TurnActs, delay, timeout);
    RunPush(p, [TurnStarts(now), TurnActs], AarpRange, delay, timeout);
    assert none + [TurnStarts(now)] == [TurnStarts(now)];
    assert [TurnStarts(now)] + [TurnActs] == [TurnStarts(now), TurnActs];
    assert [TurnStarts(now), TurnActs] + [AarpRange] == [TurnStarts(now), TurnActs, AarpRange];
  }

  /** The turn that finds the range owned gives the port authority. */
  lemma TurnPromotes(p: Port, now: int, delay: int, timeout: int)
    requires p.seed.mode == Soft && !p.seed.external && !p.seed.conflict && !p.seed.active && !IsSet(p.seed.observed)
    requires p.requested && p.aarp.operational && p.aarp.isAssigned && p.aarp.range == p.seed.configured && p.seen.None?
    ensures var q := PortRun(p, [TurnStarts(now), TurnActs], delay, timeout);
            q.seed.active && !q.seed.conflict && !q.requested && q.aarp == p.aarp
  {
    var none: seq<Input> := [];
    RunPush(p, none, TurnStarts(now), delay, timeout);
    RunPush(p, [TurnStarts(now)], TurnActs, delay, timeout);
    assert none + [TurnStarts(now)] == [TurnStarts(now)];
    assert [TurnStarts(now)] + [TurnActs] == [TurnStarts(now), TurnActs];
  }

  /** A soft port that hears nobody gains authority: a turn after its delay, eleven
      ticks of AARP, and another turn are enough, from wherever it waited. */
  lemma SoftPromoted(p: Port, now: int, later: int, delay: int, timeout: int)
    requires Waiting(p) && now >= p.eligibleAt.value
    ensures var q := PortRun(p, [TurnStarts(now), TurnActs, AarpRange] + Ticks(11) + [TurnStarts(later), TurnActs],
                            delay, timeout);
            && q.seed.active && !q.seed.conflict
            && q.aarp.isAssigned && q.aarp.probes == 10 && q.aarp.range == p.seed.configured
  {
    var a, b, c := [TurnStarts(now), TurnActs, AarpRange], Ticks(11), [TurnStarts(later), TurnActs];
    TurnRequests(p, now, delay, timeout);
    var p1 := PortRun(p, a, delay, timeout);
    Probed(p1, 11, delay, timeout);
    var p2 := PortRun(p1, b, delay, timeout);
    TurnPromotes(p2, later, delay, timeout);
    RunConcat(p, a, b, delay, timeout);
    RunConcat(p, a + b, c, delay, timeout);
  }

  /** The start of a turn of a soft port: an authority not heard of for longer than the
      timeout is no longer recorded, and the delay begins anew. Otherwise the turn only
      looks. */
  lemma TurnStartEffect(p: Port, now: int, delay: int, timeout: int)
    ensures var q := PortNext(p, TurnStarts(now), delay, timeout);
            var lapsed := p.seed.mode == Soft && p.seed.external && p.seed.lastAuthority.Some?
                          && now - p.seed.lastAuthority.value > timeout;
            && q.aarp == p.aarp
            && q.seed == (if lapsed then p.seed.(external := false) else p.seed)
            && q.requested == (p.requested && !lapsed)
            && q.eligibleAt == (if lapsed then Some(now + delay) else p.eligibleAt)
            && (p.seed.mode != Hard ==>
                  q.seen == Some(Snapshot(p.seed.observed, q.seed.external, p.seed.conflict,
                                          p.seed.mode == Soft && p.seed.active && !p.seed.conflict, now)))
            && (p.seed.mode == Hard ==> q == p)
  {
  }

  /** The rest of it, acting on what was seen: nothing in a conflict; no promotion while
      another authority is recorded and its range known; and when no end of the delay is
      set, one is. */
  lemma TurnActEffect(p: Port, seen: Snapshot, delay: int, timeout: int)
    requires p.seen == Some(seen)
    ensures var q := PortNext(p, TurnActs, delay, timeout);
            && q.seen.None?
            && (seen.conflict ==> q == p.(seen := None))
            && (!seen.conflict && IsSet(seen.observed) && seen.external ==>
                  !q.requested && q.eligibleAt.None? && q.seed == p.seed)
            && (!seen.conflict && !(IsSet(seen.observed) && seen.external) && p.seed.mode == Soft && !seen.softActive
                && !p.requested && p.eligibleAt.None? ==>
                  q.eligibleAt == Some(seen.now + delay) && !q.requested && q.seed == p.seed)
            && (!seen.conflict && IsSet(seen.observed) && seen.observed.start <= seen.observed.end
                && !(seen.observed.start >= 0xFF00 && seen.observed.end <= 0xFFFE) && p.aarp.queue.None? ==>
                  q.aarp.queue == Some(seen.observed))
  {
  }

  /** A port that yielded to another authority on its own range, which AARP owns. */
  predicate Yielded(p: Port) {
    && p.seed.mode == Soft && p.seed.external && !p.seed.conflict && !p.seed.active
    && p.seed.lastAuthority.Some? && p.seed.observed == p.seed.configured && IsSet(p.seed.configured)
    && p.seed.configured.start <= p.seed.configured.end
    && !(p.seed.configured.start >= 0xFF00 && p.seed.configured.end <= 0xFFFE)
    && p.aarp.operational && p.aarp.isAssigned && p.aarp.range == p.seed.configured && p.aarp.queue.None?
    && p.seen.None?
  }

  /** It takes over once the other is silent for longer than the timeout, and then for
      the delay: three turns, the second after the delay. */
  lemma TakesOver(p: Port, first: int, second: int, third: int, delay: int, timeout: int)
    requires Yielded(p) && delay > 0
    requires first - p.seed.lastAuthority.value > timeout && second >= first + delay
    ensures var turns := [TurnStarts(first), TurnActs, TurnStarts(second), TurnActs, TurnStarts(third), TurnActs];
            var q := PortRun(p, turns, delay, timeout);
            q.seed.active && !q.seed.external && !q.seed.conflict
  {
    var p1 := PortNext(PortNext(p, TurnStarts(first), delay, timeout), TurnActs, delay, timeout);
    assert p1.eligibleAt == Some(first + delay) && !p1.requested && !p1.seed.external
           && p1.seed.lastAuthority == p.seed.lastAuthority;
    var p2 := PortNext(PortNext(p1, TurnStarts(second), delay, timeout), TurnActs, delay, timeout);
    assert p2.requested && p2.aarp.range == p.seed.configured && p2.aarp.operational && p2.aarp.isAssigned;
    var a := [TurnStarts(first), TurnActs];
    var b := [TurnStarts(second), TurnActs];
    var c := [TurnStarts(third), TurnActs];
    TwoInputs(p, TurnStarts(first), TurnActs, delay, timeout);
    TwoInputs(p1, TurnStarts(second), TurnActs, delay, timeout);
    TwoInputs(p2, TurnStarts(third), TurnActs, delay, timeout);
    RunConcat(p, a, b, delay, timeout);
    RunConcat(p, a + b, c, delay, timeout);
    assert a + b + c == [TurnStarts(first), TurnActs, TurnStarts(second), TurnActs, TurnStarts(third), TurnActs];
  }

  lemma TwoInputs(p: Port, i: Input, j: Input, delay: int, timeout: int)
    ensures PortRun(p, [i, j], delay, timeout) == PortNext(PortNext(p, i, delay, timeout), j, delay, timeout)
  {
    var none: seq<Input> := [];
    RunPush(p, none, i, delay, timeout);
    RunPush(p, [i], j, delay, timeout);
    assert none + [i] == [i] && [i] + [j] == [i, j];
  }

  /** A new soft port waits, and goes on waiting whatever AARP does in the meantime and
      whatever turns come before the end of its delay. */
  lemma WaitsOn(configured: Range, zone: string, start: int, delay: int, timeout: int, p: Port, i: Input)
    requires IsSet(configured) && configured.start <= configured.end
    requires !(configured.start >= 0xFF00 && configured.end <= 0xFFFE)
    ensures Waiting(NewPort(Soft, configured, zone, start, delay))
    ensures NewPort(Soft, configured, zone, start, delay).eligibleAt == Some(start + delay)
    ensures Waiting(p) && (i == AarpTick || i.AarpConflict? || i == AarpRange) ==>
              Waiting(PortNext(p, i, delay, timeout)) && PortNext(p, i, delay, timeout).eligibleAt == p.eligibleAt
    ensures Waiting(p) && i.TurnStarts? && i.now < p.eligibleAt.value ==>
              var q := PortNext(PortNext(p, i, delay, timeout), TurnActs, delay, timeout);
              Waiting(q) && q.eligibleAt == p.eligibleAt
  {
  }

  /** What moves the address: a request for another range that is in order and not for
      starting up, unless one is waiting; taking it, unless the range is owned already;
      and a conflict while it is tentative, after which probing starts over. */
  lemma AddressEffect(a: Aarp, r: Range, n: Net)
    ensures Rebind(a, r) ==
              if 0 < r.start <= r.end && !(r.start >= 0xFF00 && r.end <= 0xFFFE) && a.queue.None?
              then a.(queue := Some(r)) else a
    ensures TakeRange(a).queue.None?
    ensures a.queue.Some? && !(a.operational && a.queue.value == a.range) ==>
              var a' := TakeRange(a);
              a'.range == a.queue.value && a'.network == a'.range.start && a'.probes == 0
              && !a'.isAssigned && !a'.operational
    ensures a.queue.None? || (a.operational && a.queue.value == a.range) ==> TakeRange(a) == a.(queue := None)
    ensures a.isAssigned ==> Reroll(a, n) == a
    ensures !a.isAssigned && a.range.start <= n <= a.range.end ==>
              Reroll(a, n) == a.(probes := 0, network := if a.range.start < a.range.end then n else a.network)
  {
  }

  /** What an observation does to authority: another range than the configured one, or
      another zone, is a conflict and ends it for good; a soft port gives it up to any
      other authority; a hard one does not; and otherwise nothing changes. */
  lemma ObservationEffect(s: Seed, r: Range, authority: bool, zone: string, now: int)
    ensures var s' := Observe(s, r, authority, zone, now);
            var contradicted := || (s.configured.start != 0 && s.configured.end != 0 && r != s.configured)
                                || (zone != "" && s.configuredZone != "" && zone != s.configuredZone);
            && (s'.conflict <==> s.conflict || contradicted)
            && (s'.active <==> s.active && !contradicted && !(authority && s.mode == Soft))
            && (s'.external <==> s.external || authority)
            && s'.lastAuthority == (if authority then Some(now) else s.lastAuthority)
            && s'.observed == r && s'.mode == s.mode && s'.configured == s.configured
  {
  }
}

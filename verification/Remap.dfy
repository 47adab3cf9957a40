/** Static network remapping: the rules LoadConfig lets through
    (router/config.go) and the mappings made with them (router/aurp_remap.go). */
module Remap {
  import opened Routes
  import opened RouteSpec
  import opened Observers
  import opened Replication

  datatype Rule = Rule(peer: string, remoteStart: U16, remoteEnd: U16, localStart: U16, localEnd: U16)

  /** What a selector is compared with. */
  datatype Peer = Peer(tunnelId: string, configuredAddr: string)

  // ----- Selectors -----

  predicate IsSpace(c: char) { c in " \t\n\r" || c == 11 as char || c == 12 as char }

  function TrimLeft(s: string): string {
    if s != [] && IsSpace(s[0]) then TrimLeft(s[1..]) else s
  }

  function TrimRight(s: string): string {
    if s != [] && IsSpace(s[|s| - 1]) then TrimRight(s[..|s| - 1]) else s
  }

  function TrimSpace(s: string): string { TrimRight(TrimLeft(s)) }

  function LowerChar(c: char): char { if 'A' <= c <= 'Z' then c - 'A' + 'a' else c }

  function ToLower(s: string): string { seq(|s|, i requires 0 <= i < |s| => LowerChar(s[i])) }

  predicate EqualFold(a: string, b: string) { ToLower(a) == ToLower(b) }

  predicate Matches(rule: Rule, peer: Peer) {
    var selector := ToLower(TrimSpace(rule.peer));
    || selector == []
    || selector == ToLower(peer.tunnelId)
    || (peer.configuredAddr != []
        && (selector == ToLower(peer.configuredAddr) || selector == "cfg:" + ToLower(peer.configuredAddr)))
  }

  // ----- What selectors match -----

  predicate Blank(s: string) { forall i :: 0 <= i < |s| ==> IsSpace(s[i]) }

  lemma {:induction false} TrimLeftBlank(a: string, s: string)
    requires Blank(a)
    ensures TrimLeft(a + s) == TrimLeft(s)
  {
    if a == [] {
      assert a + s == s;
    } else {
      TrimLeftBlank(a[1..], s);
      assert (a + s)[1..] == a[1..] + s;
    }
  }

  lemma {:induction false} TrimRightBlank(s: string, a: string)
    requires Blank(a)
    ensures TrimRight(s + a) == TrimRight(s)
  {
    if a == [] {
      assert s + a == s;
    } else {
      TrimRightBlank(s, a[..|a| - 1]);
      assert (s + a)[..|s + a| - 1] == s + a[..|a| - 1];
    }
  }

  /** Nothing of a string that starts and ends without space is cut. */
  predicate Tight(s: string) { s != [] && !IsSpace(s[0]) && !IsSpace(s[|s| - 1]) }

  lemma TrimSpaceMeans(a: string, s: string, b: string)
    requires Blank(a) && Blank(b)
    ensures s == [] ==> TrimSpace(a + s + b) == []
    ensures Tight(s) ==> TrimSpace(a + s + b) == s
  {
    assert a + s + b == a + (s + b);
    TrimLeftBlank(a, s + b);
    if s == [] {
      assert s + b == b && b + [] == b;
      TrimLeftBlank(b, []);
    }
    if Tight(s) {
      assert TrimLeft(s + b) == s + b;
      TrimRightBlank(s, b);
    }
  }

  /** Two characters are the same but for the case of an ASCII letter. */
  predicate SameLetter(c: char, d: char) {
    c == d || ('A' <= c <= 'Z' && d as int == c as int + 32) || ('a' <= c <= 'z' && d as int == c as int - 32)
  }

  lemma FoldMeans(a: string, b: string)
    ensures EqualFold(a, b) <==> |a| == |b| && forall i :: 0 <= i < |a| ==> SameLetter(a[i], b[i])
  {
    assert |ToLower(a)| == |a| && |ToLower(b)| == |b|;
    if EqualFold(a, b) {
      forall i | 0 <= i < |a| ensures SameLetter(a[i], b[i]) { assert ToLower(a)[i] == ToLower(b)[i]; }
    }
  }

  /** A blank selector is for every peer. Any other is for the peers whose tunnel ID, or
      whose configured address with or without "cfg:", it spells, in upper or lower case
      and with or without space around it. */
  lemma MatchesMeans(rule: Rule, peer: Peer, a: string, s: string, b: string)
    requires rule.peer == a + s + b && Blank(a) && Blank(b)
    ensures s == [] ==> Matches(rule, peer)
    ensures Tight(s) ==>
              (Matches(rule, peer) <==>
               || EqualFold(s, peer.tunnelId)
               || (peer.configuredAddr != []
                   && (EqualFold(s, peer.configuredAddr) || EqualFold(s, "cfg:" + peer.configuredAddr))))
  {
    TrimSpaceMeans(a, s, b);
    assert |ToLower(s)| == |s|;
    assert ToLower("cfg:" + peer.configuredAddr) == "cfg:" + ToLower(peer.configuredAddr);
  }

  // ----- Validation -----

  predicate Overlaps(start: U16, end: U16, otherStart: U16, otherEnd: U16) {
    otherStart <= end && otherEnd >= start
  }

  predicate ValidRule(r: Rule) {
    && 0 < r.remoteStart <= r.remoteEnd
    && 0 < r.localStart <= r.localEnd < 0xff00
    && r.remoteEnd - r.remoteStart == r.localEnd - r.localStart
  }

  predicate Compatible(a: Rule, b: Rule) {
    && !Overlaps(a.localStart, a.localEnd, b.localStart, b.localEnd)
    && (EqualFold(a.peer, b.peer) ==> !Overlaps(a.remoteStart, a.remoteEnd, b.remoteStart, b.remoteEnd))
  }

  predicate Accepted(rules: seq<Rule>) {
    && (forall i :: 0 <= i < |rules| ==> ValidRule(rules[i]))
    && (forall i, j :: 0 <= i < j < |rules| ==> Compatible(rules[i], rules[j]))
  }

  datatype Problem = UsesZero(i: nat) | RemoteReversed(i: nat) | LocalReversed(i: nat) | SizesDiffer(i: nat)
                   | StartupRange(i: nat) | LocalOverlap(i: nat, j: nat) | RemoteOverlap(i: nat, j: nat)

  /** A problem names a fault its rules do have. */
  ghost predicate Justified(p: Problem, rules: seq<Rule>) {
    && p.i < |rules|
    && var a := rules[p.i];
    match p
    case UsesZero(_) => a.remoteStart == 0 || a.localStart == 0
    case RemoteReversed(_) => a.remoteStart > a.remoteEnd
    case LocalReversed(_) => a.localStart > a.localEnd
    case SizesDiffer(_) => a.remoteEnd - a.remoteStart != a.localEnd - a.localStart
    case StartupRange(_) => a.localEnd >= 0xff00
    case LocalOverlap(i, j) =>
      i < j < |rules| && Overlaps(a.localStart, a.localEnd, rules[j].localStart, rules[j].localEnd)
    case RemoteOverlap(i, j) =>
      i < j < |rules| && EqualFold(a.peer, rules[j].peer)
      && Overlaps(a.remoteStart, a.remoteEnd, rules[j].remoteStart, rules[j].remoteEnd)
  }

  /** The problems of one rule; the first is the only one reported. */
  method CheckRule(r: Rule, i: nat) returns (problems: seq<Problem>)
    ensures problems == [] <==> ValidRule(r)
    ensures |problems| <= 1
    ensures problems != [] ==> problems[0].i == i && Justified(problems[0].(i := 0), [r])
  {
    var remoteSize, localSize := r.remoteEnd - r.remoteStart, r.localEnd - r.localStart;
    if r.remoteStart == 0 || r.localStart == 0 {
      return [UsesZero(i)];
    } else if r.remoteStart > r.remoteEnd {
      return [RemoteReversed(i)];
    } else if r.localStart > r.localEnd {
      return [LocalReversed(i)];
    } else if remoteSize != localSize {
      return [SizesDiffer(i)];
    } else if r.localStart >= 0xff00 || r.localEnd >= 0xff00 {
      return [StartupRange(i)];
    }
    return [];
  }

  /** One rule against those after it. */
  method CheckPairs(rules: seq<Rule>, i: nat) returns (problems: seq<Problem>)
    requires i < |rules|
    ensures problems == [] <==> forall j :: i < j < |rules| ==> Compatible(rules[i], rules[j])
    ensures forall p :: p in problems ==> Justified(p, rules)
  {
    problems := [];
    for j := i + 1 to |rules|
      invariant problems == [] <==> forall k :: i < k < j ==> Compatible(rules[i], rules[k])
      invariant forall p :: p in problems ==> Justified(p, rules)
    {
      var a, b := rules[i], rules[j];
      if Overlaps(a.localStart, a.localEnd, b.localStart, b.localEnd) {
        problems := problems + [LocalOverlap(i, j)];
      }
      if EqualFold(a.peer, b.peer) && Overlaps(a.remoteStart, a.remoteEnd, b.remoteStart, b.remoteEnd) {
        problems := problems + [RemoteOverlap(i, j)];
      }
    }
  }

  /** The remap part of LoadConfig: silent exactly on the accepted lists. */
  method CheckRules(rules: seq<Rule>) returns (problems: seq<Problem>)
    ensures problems == [] <==> Accepted(rules)
    ensures forall p :: p in problems ==> Justified(p, rules)
  {
    problems := [];
    for i := 0 to |rules|
      invariant problems == [] <==> forall k :: 0 <= k < i ==> ValidRule(rules[k])
      invariant forall p :: p in problems ==> Justified(p, rules)
    {
      var found := CheckRule(rules[i], i);
      problems := problems + found;
    }
    for i := 0 to |rules|
      invariant problems == [] <==>
                (forall k :: 0 <= k < |rules| ==> ValidRule(rules[k]))
                && forall k, l :: 0 <= k < i && k < l < |rules| ==> Compatible(rules[k], rules[l])
      invariant forall p :: p in problems ==> Justified(p, rules)
    {
      var found := CheckPairs(rules, i);
      problems := problems + found;
    }
  }

  // ----- Mapping -----

  /** uint16 arithmetic. */
  function Wrap(n: int): U16 { n % 0x1_0000 }

  function RemapNumber(n: U16, fromStart: U16, fromEnd: U16, toStart: U16): Option<U16> {
    if n < fromStart || n > fromEnd then None else Some(Wrap(toStart + Wrap(n - fromStart)))
  }

  /** The first rule for the peer that the predicate accepts. */
  function First(rules: seq<Rule>, peer: Peer, takes: Rule -> bool): (first: Option<nat>)
    ensures match first
            case Some(i) =>
              && i < |rules| && Matches(rules[i], peer) && takes(rules[i])
              && forall j :: 0 <= j < i ==> !(Matches(rules[j], peer) && takes(rules[j]))
            case None => forall j :: 0 <= j < |rules| ==> !(Matches(rules[j], peer) && takes(rules[j]))
  {
    if rules == [] then None
    else
      var before := First(rules[..|rules| - 1], peer, takes);
      if before.Some? then before
      else if Matches(rules[|rules| - 1], peer) && takes(rules[|rules| - 1]) then Some(|rules| - 1)
      else None
  }

  predicate HoldsRemote(r: Rule, start: U16, end: U16) { r.remoteStart <= start && end <= r.remoteEnd }

  predicate HoldsLocal(r: Rule, n: U16) { r.localStart <= n <= r.localEnd }

  function InboundRule(rules: seq<Rule>, peer: Peer, n: U16): Option<nat> {
    First(rules, peer, (r: Rule) => HoldsRemote(r, n, n))
  }

  function RangeRule(rules: seq<Rule>, peer: Peer, start: U16, end: U16): Option<nat> {
    First(rules, peer, (r: Rule) => HoldsRemote(r, start, end))
  }

  function OutboundRule(rules: seq<Rule>, peer: Peer, n: U16): Option<nat> {
    First(rules, peer, (r: Rule) => HoldsLocal(r, n))
  }

  /** remapInboundNetwork; None is the untouched number with false. */
  function Inbound(rules: seq<Rule>, peer: Peer, n: U16): Option<U16> {
    match InboundRule(rules, peer, n)
    case None => None
    case Some(i) => RemapNumber(n, rules[i].remoteStart, rules[i].remoteEnd, rules[i].localStart)
  }

  /** remapInboundRange. */
  function InboundRange(rules: seq<Rule>, peer: Peer, start: U16, end: U16): Option<(U16, U16)> {
    match RangeRule(rules, peer, start, end)
    case None => None
    case Some(i) =>
      var r := rules[i];
      Some((Wrap(r.localStart + Wrap(start - r.remoteStart)), Wrap(r.localStart + Wrap(end - r.remoteStart))))
  }

  function Outbound(rules: seq<Rule>, peer: Peer, n: U16): Option<U16> {
    match OutboundRule(rules, peer, n)
    case None => None
    case Some(i) => RemapNumber(n, rules[i].localStart, rules[i].localEnd, rules[i].remoteStart)
  }

  method RemapInboundNetwork(rules: seq<Rule>, peer: Peer, n: U16) returns (mapped: U16, ok: bool)
    ensures (if ok then Some(mapped) else None) == Inbound(rules, peer, n)
    ensures !ok ==> mapped == n
  {
    for i := 0 to |rules|
      invariant forall j :: 0 <= j < i ==> !(Matches(rules[j], peer) && HoldsRemote(rules[j], n, n))
    {
      if !Matches(rules[i], peer) {
        continue;
      }
      var m := RemapNumber(n, rules[i].remoteStart, rules[i].remoteEnd, rules[i].localStart);
      if m.Some? {
        assert InboundRule(rules, peer, n) == Some(i);
        return m.value, true;
      }
    }
    return n, false;
  }

  method RemapOutboundNetwork(rules: seq<Rule>, peer: Peer, n: U16) returns (mapped: U16, ok: bool)
    ensures (if ok then Some(mapped) else None) == Outbound(rules, peer, n)
    ensures !ok ==> mapped == n
  {
    for i := 0 to |rules|
      invariant forall j :: 0 <= j < i ==> !(Matches(rules[j], peer) && HoldsLocal(rules[j], n))
    {
      if !Matches(rules[i], peer) {
        continue;
      }
      var m := RemapNumber(n, rules[i].localStart, rules[i].localEnd, rules[i].remoteStart);
      if m.Some? {
        assert OutboundRule(rules, peer, n) == Some(i);
        return m.value, true;
      }
    }
    return n, false;
  }

  method RemapInboundRange(rules: seq<Rule>, peer: Peer, start: U16, end: U16) returns (mapped: (U16, U16), ok: bool)
    ensures (if ok then Some(mapped) else None) == InboundRange(rules, peer, start, end)
    ensures !ok ==> mapped == (start, end)
  {
    for i := 0 to |rules|
      invariant forall j :: 0 <= j < i ==> !(Matches(rules[j], peer) && HoldsRemote(rules[j], start, end))
    {
      var r := rules[i];
      if !Matches(r, peer) || start < r.remoteStart || end > r.remoteEnd {
        continue;
      }
      assert RangeRule(rules, peer, start, end) == Some(i);
      return (Wrap(r.localStart + Wrap(start - r.remoteStart)), Wrap(r.localStart + Wrap(end - r.remoteStart))), true;
    }
    return (start, end), false;
  }

  // ----- What accepted rules guarantee -----

  /** No sum leaves 16 bits and the number lands in its rule's local range. */
  lemma NoWrap(r: Rule, n: U16)
    requires ValidRule(r) && HoldsRemote(r, n, n)
    ensures var m := RemapNumber(n, r.remoteStart, r.remoteEnd, r.localStart);
            && m == Some(r.localStart + (n - r.remoteStart)) && HoldsLocal(r, m.value)
            && RemapNumber(m.value, r.localStart, r.localEnd, r.remoteStart) == Some(n)
  {
    assert Wrap(n - r.remoteStart) == n - r.remoteStart;
  }

  lemma NoWrapBack(r: Rule, m: U16)
    requires ValidRule(r) && HoldsLocal(r, m)
    ensures var n := RemapNumber(m, r.localStart, r.localEnd, r.remoteStart);
            && n == Some(r.remoteStart + (m - r.localStart)) && HoldsRemote(r, n.value, n.value)
            && RemapNumber(n.value, r.remoteStart, r.remoteEnd, r.localStart) == Some(m)
  {
    assert Wrap(m - r.localStart) == m - r.localStart;
  }

  /** At most one rule of an accepted list has a local number. */
  lemma OneLocalRule(rules: seq<Rule>, i: nat, j: nat, m: U16)
    requires Accepted(rules) && i < |rules| && j < |rules|
    requires HoldsLocal(rules[i], m) && HoldsLocal(rules[j], m)
    ensures i == j
  {
    assert i < j ==> Compatible(rules[i], rules[j]);
    assert j < i ==> Compatible(rules[j], rules[i]);
  }

  /** What comes in goes out as itself. */
  lemma InboundThenOutbound(rules: seq<Rule>, peer: Peer, n: U16)
    requires Accepted(rules) && Inbound(rules, peer, n).Some?
    ensures var m := Inbound(rules, peer, n).value;
            0 < m < 0xff00 && Outbound(rules, peer, m) == Some(n)
  {
    var i := InboundRule(rules, peer, n).value;
    NoWrap(rules[i], n);
    var m := Inbound(rules, peer, n).value;
    var k := OutboundRule(rules, peer, m);
    assert k.Some?;
    OneLocalRule(rules, i, k.value, m);
  }

  /** No two remote networks become one local network. */
  lemma InboundInjective(rules: seq<Rule>, peer: Peer, a: U16, b: U16)
    requires Accepted(rules)
    requires Inbound(rules, peer, a).Some? && Inbound(rules, peer, a) == Inbound(rules, peer, b)
    ensures a == b
  {
    InboundThenOutbound(rules, peer, a);
    InboundThenOutbound(rules, peer, b);
  }

  /** What goes out comes back as itself exactly when no earlier rule for the peer
      has taken the remote number. */
  lemma OutboundThenInbound(rules: seq<Rule>, peer: Peer, m: U16)
    requires Accepted(rules) && Outbound(rules, peer, m).Some?
    ensures var n, i := Outbound(rules, peer, m).value, OutboundRule(rules, peer, m).value;
            Inbound(rules, peer, n) == Some(m) <==>
            forall j :: 0 <= j < i && Matches(rules[j], peer) ==> !HoldsRemote(rules[j], n, n)
  {
    var i := OutboundRule(rules, peer, m).value;
    NoWrapBack(rules[i], m);
    var n := Outbound(rules, peer, m).value;
    var k := InboundRule(rules, peer, n);
    assert k.Some? && k.value <= i;
    NoWrap(rules[k.value], n);
    if Inbound(rules, peer, n) == Some(m) {
      OneLocalRule(rules, i, k.value, m);
    }
  }

  /** The rules of one peer with selectors spelled alike, but for case, share no remote
      number, and then what goes out comes back as itself. */
  lemma OneSpelling(rules: seq<Rule>, peer: Peer, m: U16)
    requires Accepted(rules) && Outbound(rules, peer, m).Some?
    requires forall i, j :: 0 <= i < j < |rules| && Matches(rules[i], peer) && Matches(rules[j], peer) ==>
               EqualFold(rules[i].peer, rules[j].peer)
    ensures Inbound(rules, peer, Outbound(rules, peer, m).value) == Some(m)
  {
    var n, i := Outbound(rules, peer, m).value, OutboundRule(rules, peer, m).value;
    NoWrapBack(rules[i], m);
    OutboundThenInbound(rules, peer, m);
    forall j | 0 <= j < i && Matches(rules[j], peer) ensures !HoldsRemote(rules[j], n, n) {
      assert Compatible(rules[j], rules[i]);
    }
  }

  /** Rules spelled with the peer's name twice over are accepted with the same
      remote network, and then a number going out by the second comes back by the
      first. */
  lemma SpellingsCollide()
    ensures var rules := [Rule("a", 5, 5, 100, 100), Rule(" a", 5, 5, 200, 200)];
            var peer := Peer("a", "");
            && Accepted(rules)
            && Outbound(rules, peer, 200) == Some(5)
            && Inbound(rules, peer, 5) == Some(100)
  {
    var rules := [Rule("a", 5, 5, 100, 100), Rule(" a", 5, 5, 200, 200)];
    var peer := Peer("a", "");
    assert |ToLower("a")| == 1 && |ToLower(" a")| == 2;
    assert TrimLeft("a") == "a" && TrimRight("a") == "a";
    assert " a"[1..] == "a";
    assert TrimLeft(" a") == TrimLeft("a");
    assert Matches(rules[0], peer) && Matches(rules[1], peer);
    var out := OutboundRule(rules, peer, 200);
    assert !HoldsLocal(rules[0], 200) && HoldsLocal(rules[1], 200);
    assert out == Some(1);
    var inn := InboundRule(rules, peer, 5);
    assert HoldsRemote(rules[0], 5, 5);
    assert inn == Some(0);
  }

  /** The first rule for the peer with the start of the range, if any, has all of it,
      or no rule has and the start maps to itself. */
  predicate OneMapping(rules: seq<Rule>, peer: Peer, start: U16, end: U16) {
    var i := InboundRule(rules, peer, start);
    || i.None?
    || end <= rules[i.value].remoteEnd
    || (RangeRule(rules, peer, start, end).None? && rules[i.value].localStart == rules[i.value].remoteStart)
  }

  /** The range of an NA or NDC is mapped by the first rule with all of it, the
      number of an ND or NRC by the first with its start. Both name the same local
      network exactly when that rule has all of the range, or no rule has and the
      start maps to itself. */
  lemma RangeAgreesWithStart(rules: seq<Rule>, peer: Peer, start: U16, end: U16)
    requires Accepted(rules) && start <= end
    ensures var ranged := InboundRange(rules, peer, start, end);
            var named := Inbound(rules, peer, start);
            (if ranged.Some? then ranged.value.0 else start) == (if named.Some? then named.value else start) <==>
            OneMapping(rules, peer, start, end)
  {
    var i := InboundRule(rules, peer, start);
    if i.Some? {
      NoWrap(rules[i.value], start);
    }
    if RangeRule(rules, peer, start, end).Some? {
      RangeStart(rules, peer, start, end);
    }
  }

  /** A mapped range and its start go to the same number exactly if by the same rule. */
  lemma RangeStart(rules: seq<Rule>, peer: Peer, start: U16, end: U16)
    requires Accepted(rules) && start <= end && RangeRule(rules, peer, start, end).Some?
    ensures var i, k := InboundRule(rules, peer, start), RangeRule(rules, peer, start, end).value;
            && i.Some? && i.value <= k && Inbound(rules, peer, start).Some?
            && (InboundRange(rules, peer, start, end).value.0 == Inbound(rules, peer, start).value <==> i.value == k)
            && (i.value == k <==> end <= rules[i.value].remoteEnd)
  {
    var i, k := InboundRule(rules, peer, start), RangeRule(rules, peer, start, end).value;
    FirstOfBoth(rules, peer, start, end);
    NoWrap(rules[k], start);
    NoWrap(rules[i.value], start);
    if InboundRange(rules, peer, start, end).value.0 == Inbound(rules, peer, start).value {
      OneLocalRule(rules, i.value, k, Inbound(rules, peer, start).value);
    }
  }

  lemma FirstOfBoth(rules: seq<Rule>, peer: Peer, start: U16, end: U16)
    requires start <= end && RangeRule(rules, peer, start, end).Some?
    ensures var i, k := InboundRule(rules, peer, start), RangeRule(rules, peer, start, end).value;
            && i.Some? && i.value <= k && HoldsRemote(rules[i.value], start, start)
            && HoldsRemote(rules[k], start, start)
            && (i.value == k <==> end <= rules[i.value].remoteEnd)
  {
    var i, k := InboundRule(rules, peer, start), RangeRule(rules, peer, start, end).value;
    assert HoldsRemote(rules[k], start, start);
    assert HoldsRemote(rules[i.value], start, end) <==> end <= rules[i.value].remoteEnd;
  }

  // ----- Remapped events -----

  /** remapInboundEvent. */
  function InboundEvent(rules: seq<Rule>, peer: Peer, e: EventTuple): EventTuple {
    if e.code == NA || e.code == NDC then
      match InboundRange(rules, peer, e.rangeStart, e.rangeEnd)
      case None => e
      case Some(range) => e.(rangeStart := range.0, rangeEnd := range.1)
    else if e.code == ND || e.code == NRC then
      match Inbound(rules, peer, e.rangeStart)
      case None => e
      case Some(n) => e.(rangeStart := n)
    else e
  }

  method RemapInboundEvent(rules: seq<Rule>, peer: Peer, e: EventTuple) returns (r: EventTuple)
    ensures r == InboundEvent(rules, peer, e)
  {
    r := e;
    match e.code
    case NA | NDC =>
      var range, mapped := RemapInboundRange(rules, peer, e.rangeStart, e.rangeEnd);
      if mapped {
        r := r.(rangeStart := range.0, rangeEnd := range.1);
      }
    case ND | NRC =>
      var n, mapped := RemapInboundNetwork(rules, peer, e.rangeStart);
      if mapped {
        r := r.(rangeStart := n);
      }
    case _ =>
  }

  /** A network that a peer adds and deletes again leaves no route exactly when the
      range and its start have one mapping. */
  lemma AddThenDelete(rules: seq<Rule>, peer: Peer, t: Table, target: Target, extra: nat, na: EventTuple,
                      nd: EventTuple, now: int)
    requires Accepted(rules) && t.WellFormed()
    requires na.code == NA && ValidRange(na.extended, na.rangeStart, na.rangeEnd) && Weighted(na.distance, extra).Some?
    requires (nd.code == ND || nd.code == NRC) && nd.rangeStart == na.rangeStart
    ensures var na', nd' := InboundEvent(rules, peer, na), InboundEvent(rules, peer, nd);
            var added := ApplyEvent(t, target, extra, na', now);
            && StoredAdvert(added, target, na'.rangeStart).Some?
            && (StoredAdvert(ApplyEvent(added, target, extra, nd', now), target, na'.rangeStart).None? <==>
                OneMapping(rules, peer, na.rangeStart, na.rangeEnd))
  {
    var na', nd' := InboundEvent(rules, peer, na), InboundEvent(rules, peer, nd);
    var start, end := na.rangeStart, na.rangeEnd;
    RangeAgreesWithStart(rules, peer, start, end);
    if InboundRange(rules, peer, start, end).Some? { RangeKeepsLength(rules, peer, start, end); }
    AddedThenDeleted(t, target, extra, na', nd', now);
  }

  /** A deletion removes what an addition stored exactly if both name the same start. */
  lemma AddedThenDeleted(t: Table, target: Target, extra: nat, na: EventTuple, nd: EventTuple, now: int)
    requires t.WellFormed()
    requires na.code == NA && ValidRange(na.extended, na.rangeStart, na.rangeEnd) && Weighted(na.distance, extra).Some?
    requires nd.code == ND || nd.code == NRC
    ensures var added := ApplyEvent(t, target, extra, na, now);
            && StoredAdvert(added, target, na.rangeStart).Some?
            && (StoredAdvert(ApplyEvent(added, target, extra, nd, now), target, na.rangeStart).None? <==>
                nd.rangeStart == na.rangeStart)
  {
    var added := ApplyEvent(t, target, extra, na, now);
    PeerOpStored(t, EventOp(t, target, extra, na, now).value, target, na.rangeStart);
    var op := EventOp(added, target, extra, nd, now);
    if op.Some? { PeerOpStored(added, op.value, target, na.rangeStart); }
  }

  /** A peer announces 5-6 where only 5 is mapped, to 100. The range is stored as it
      is, the deletion of 5 goes to 100, and on a table without a route there it does
      nothing at all. */
  lemma DeletionMisses(t: Table, target: Target, extra: nat, distance: nat, now: int)
    requires t.WellFormed() && Weighted(distance, extra).Some? && StoredAdvert(t, target, 100).None?
    ensures var rules, peer := [Rule("a", 5, 5, 100, 100)], Peer("a", "");
            var na, nd := EventTuple(NA, true, 5, 6, distance), EventTuple(ND, false, 5, 5, 0);
            var added := ApplyEvent(t, target, extra, InboundEvent(rules, peer, na), now);
            && Accepted(rules) && InboundRange(rules, peer, 5, 6).None? && Inbound(rules, peer, 5) == Some(100)
            && InboundEvent(rules, peer, na) == na && InboundEvent(rules, peer, nd).rangeStart == 100
            && StoredAdvert(added, target, 5) == Some(Advert(true, 5, 6, Weighted(distance, extra).value))
            && EventOp(added, target, extra, InboundEvent(rules, peer, nd), now).None?
  {
    var rules, peer := [Rule("a", 5, 5, 100, 100)], Peer("a", "");
    assert TrimLeft("a") == "a" && TrimRight("a") == "a" && |ToLower("a")| == 1;
    assert Matches(rules[0], peer) && HoldsRemote(rules[0], 5, 5) && !HoldsRemote(rules[0], 5, 6);
    assert InboundRule(rules, peer, 5) == Some(0) && RangeRule(rules, peer, 5, 6) == None;
    var na := EventTuple(NA, true, 5, 6, distance);
    var op := EventOp(t, target, extra, na, now).value;
    PeerOpStored(t, op, target, 5);
    PeerOpStored(t, op, target, 100);
  }

  /** A mapped range keeps its length and stays in one local range. */
  lemma RangeKeepsLength(rules: seq<Rule>, peer: Peer, start: U16, end: U16)
    requires Accepted(rules) && start <= end && InboundRange(rules, peer, start, end).Some?
    ensures var (first, last) := InboundRange(rules, peer, start, end).value;
            var r := rules[RangeRule(rules, peer, start, end).value];
            last - first == end - start && r.localStart <= first && last <= r.localEnd
  {
    var r := rules[RangeRule(rules, peer, start, end).value];
    NoWrap(r, start);
    NoWrap(r, end);
  }
}

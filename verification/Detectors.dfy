/**
 Sliding-window money-laundering detectors (backend/src/aml/aml-detectors.ts): structuring,
 layering and velocity, each specified as "some group of flows exists such that ...".
 */
module Detectors {
  import opened Collections
  import opened Options
  import opened Sorting
  import opened Sums
  import opened Division

  const HOUR_MS := 3_600_000

  datatype Direction = In | Out

  datatype CashFlow = CashFlow(
    id: string, userId: string, direction: Direction, amountUsd: real, at: int, dealId: Option<string>)

  /** A parameter is None when Number() of the stored value is not finite. */
  datatype Parameters = Parameters(
    maxIndividualAmountUsd: Option<real>, aggregateThresholdUsd: Option<real>, minFlowCount: Option<real>,
    minDistinctDeals: Option<real>, maxFlowsPerWindow: Option<real>)

  datatype Rule = Rule(ruleCode: string, windowHours: int, parameters: Parameters)

  /** A window always holds the flow that opens it. */
  type Window = w: seq<CashFlow> | |w| > 0 witness [CashFlow("", "", In, 0.0, 0, None)]

  datatype Pattern = Structuring | Layering | Velocity

  /** The parts of the colon-separated idempotency key; bucket is the start of the reporting bucket. */
  datatype DedupeKey = DedupeKey(ruleCode: string, pattern: Pattern, userId: string, bucket: int)

  datatype Match = Match(dedupeKey: DedupeKey, amountUsd: real, flowIds: seq<string>)

  function Num(raw: Option<real>, fallback: real): real {
    if raw.Some? then raw.value else fallback
  }

  function Amount(): CashFlow -> real {
    (f: CashFlow) => f.amountUsd
  }

  function SumUsd(flows: seq<CashFlow>): real {
    Sum(flows, Amount())
  }

  function DistinctDeals(flows: seq<CashFlow>): set<string> {
    set f | f in flows && f.dealId.Some? && f.dealId.value != "" :: f.dealId.value
  }

  /** In/out direction changes between neighbours among the first n flows. */
  function ChangesUpTo(flows: seq<CashFlow>, n: nat): nat
    requires n <= |flows|
  {
    if n <= 1 then 0
    else ChangesUpTo(flows, n - 1) + if flows[n - 1].direction != flows[n - 2].direction then 1 else 0
  }

  function Changes(flows: seq<CashFlow>): nat {
    ChangesUpTo(flows, |flows|)
  }

  function Bucket(rule: Rule, at: int): int {
    var bucketMs := (if rule.windowHours > 1 then rule.windowHours else 1) * HOUR_MS;
    at / bucketMs * bucketMs
  }

  predicate ByTime(a: CashFlow, b: CashFlow) {
    a.at <= b.at
  }

  function Span(rule: Rule): int {
    rule.windowHours * HOUR_MS
  }

  function Ids(flows: seq<CashFlow>): (ids: seq<string>) {
    seq(|flows|, i requires 0 <= i < |flows| => flows[i].id)
  }

  function Round2(x: real): real {
    (x * 100.0 + 0.5).Floor as real / 100.0
  }

  // ---- Windows ----

  function WindowEnd(flows: seq<CashFlow>, start: nat, i: nat, span: int): (e: nat)
    requires start < |flows| && start <= i <= |flows|
    ensures i <= e <= |flows|
    ensures forall j :: i <= j < e ==> flows[j].at - flows[start].at <= span
    ensures e < |flows| ==> flows[e].at - flows[start].at > span
    decreases |flows| - i
  {
    if i == |flows| || flows[i].at - flows[start].at > span then i
    else WindowEnd(flows, start, i + 1, span)
  }

  function WindowAt(flows: seq<CashFlow>, start: nat, span: int): seq<CashFlow>
    requires start < |flows|
  {
    flows[start..WindowEnd(flows, start, start, span)]
  }

  /** The non-empty windows that start before index n. */
  function WindowsUpTo(flows: seq<CashFlow>, n: nat, span: int): seq<Window>
    requires n <= |flows|
  {
    if n == 0 then []
    else
      var w := WindowAt(flows, n - 1, span);
      if |w| > 0 then WindowsUpTo(flows, n - 1, span) + [w] else WindowsUpTo(flows, n - 1, span)
  }

  function WindowsOf(flows: seq<CashFlow>, rule: Rule): seq<Window> {
    WindowsUpTo(flows, |flows|, Span(rule))
  }

  method Windows(flows: seq<CashFlow>, rule: Rule) returns (result: seq<Window>)
    ensures result == WindowsOf(flows, rule)
  {
    var span := Span(rule);
    result := [];
    for start := 0 to |flows|
      invariant result == WindowsUpTo(flows, start, span)
    {
      var window: seq<CashFlow> := [];
      var i := start;
      while i < |flows|
        invariant start <= i <= |flows|
        invariant window == flows[start..i]
        invariant WindowEnd(flows, start, i, span) == WindowEnd(flows, start, start, span)
      {
        if flows[i].at - flows[start].at > span {
          break;
        }
        window := window + [flows[i]];
        i := i + 1;
      }
      assert i == WindowEnd(flows, start, start, span);
      if |window| > 0 {
        result := result + [window];
      }
    }
  }

  lemma {:induction false} WindowsHold(flows: seq<CashFlow>, n: nat, span: int, start: nat)
    requires start < n <= |flows| && |WindowAt(flows, start, span)| > 0
    ensures WindowAt(flows, start, span) in WindowsUpTo(flows, n, span)
  {
    if start < n - 1 {
      WindowsHold(flows, n - 1, span, start);
    }
  }

  lemma {:induction false} WindowsAreSlices(flows: seq<CashFlow>, n: nat, span: int, w: Window) returns (start: nat)
    requires n <= |flows| && w in WindowsUpTo(flows, n, span)
    ensures start < n && w == WindowAt(flows, start, span)
  {
    if w in WindowsUpTo(flows, n - 1, span) {
      start := WindowsAreSlices(flows, n - 1, span, w);
    } else {
      start := n - 1;
    }
  }

  // ---- One match per key, from the first qualifying window ----

  predicate Hit(p: Pattern, rule: Rule, w: seq<CashFlow>) {
    match p
    case Structuring =>
      && |w| as real >= Num(rule.parameters.minFlowCount, 3.0)
      && SumUsd(w) >= Num(rule.parameters.aggregateThresholdUsd, 10_000.0)
    case Layering =>
      && |w| as real >= Num(rule.parameters.minFlowCount, 4.0)
      && |DistinctDeals(w)| as real >= Num(rule.parameters.minDistinctDeals, 3.0)
      && Changes(w) >= 2
    case Velocity =>
      |w| as real > Num(rule.parameters.maxFlowsPerWindow, 10.0)
  }

  function KeyOf(p: Pattern, rule: Rule, w: Window): DedupeKey
  {
    DedupeKey(rule.ruleCode, p, w[0].userId, Bucket(rule, w[0].at))
  }

  function MatchOf(p: Pattern, rule: Rule, w: Window): Match
  {
    Match(KeyOf(p, rule, w), Round2(SumUsd(w)), Ids(w))
  }

  function Keys(matches: seq<Match>): set<DedupeKey> {
    set m | m in matches :: m.dedupeKey
  }

  function Findings(p: Pattern, rule: Rule, ws: seq<Window>): seq<Match>
  {
    if ws == [] then []
    else
      var w := ws[|ws| - 1];
      var before := Findings(p, rule, ws[..|ws| - 1]);
      if Hit(p, rule, w) && KeyOf(p, rule, w) !in Keys(before) then before + [MatchOf(p, rule, w)] else before
  }

  /** What a detector sees: structuring keeps small inflows only; then the flows are put in time order. */
  predicate Eligible(p: Pattern, rule: Rule, f: CashFlow) {
    p == Structuring ==> f.direction == In && f.amountUsd <= Num(rule.parameters.maxIndividualAmountUsd, 9_500.0)
  }

  function Filter(p: Pattern, rule: Rule, flows: seq<CashFlow>): seq<CashFlow> {
    if flows == [] then []
    else (if Eligible(p, rule, flows[0]) then [flows[0]] else []) + Filter(p, rule, flows[1..])
  }

  function Ordered(p: Pattern, rule: Rule, flows: seq<CashFlow>): seq<CashFlow> {
    Sort(Filter(p, rule, flows), ByTime)
  }

  function Detect(p: Pattern, rule: Rule, flows: seq<CashFlow>): seq<Match> {
    var ordered := Ordered(p, rule, flows);
    Findings(p, rule, WindowsOf(ordered, rule))
  }

  lemma NoFindings(p: Pattern, rule: Rule)
    ensures Findings(p, rule, []) == [] && Keys([]) == {}
  {
  }

  lemma FindingsStep(p: Pattern, rule: Rule, ws: seq<Window>, i: nat)
    requires i < |ws|
    ensures Findings(p, rule, ws[..i + 1]) ==
            var before := Findings(p, rule, ws[..i]);
            if Hit(p, rule, ws[i]) && KeyOf(p, rule, ws[i]) !in Keys(before)
            then before + [MatchOf(p, rule, ws[i])] else before
  {
    assert ws[..i + 1][..i] == ws[..i];
  }

  method DetectStructuring(rule: Rule, flows: seq<CashFlow>) returns (matches: seq<Match>)
    ensures matches == Detect(Structuring, rule, flows)
  {
    var aggregate := Num(rule.parameters.aggregateThresholdUsd, 10_000.0);
    var minCount := Num(rule.parameters.minFlowCount, 3.0);
    var inFlows := Sort(Filter(Structuring, rule, flows), ByTime);
    matches := [];
    var seen: set<DedupeKey> := {};
    var ws := Windows(inFlows, rule);
    for i := 0 to |ws|
      invariant matches == Findings(Structuring, rule, ws[..i])
      invariant seen == Keys(matches)
    {
      FindingsStep(Structuring, rule, ws, i);
      var window := ws[i];
      if |window| as real < minCount { continue; }
      var total := SumUsd(window);
      if total < aggregate { continue; }
      var dedupeKey := KeyOf(Structuring, rule, window);
      if dedupeKey in seen { continue; }
      seen := seen + {dedupeKey};
      matches := matches + [Match(dedupeKey, Round2(total), Ids(window))];
    }
    assert ws[..|ws|] == ws;
  }

  method DetectLayering(rule: Rule, flows: seq<CashFlow>) returns (matches: seq<Match>)
    ensures matches == Detect(Layering, rule, flows)
  {
    var minDeals := Num(rule.parameters.minDistinctDeals, 3.0);
    var minCount := Num(rule.parameters.minFlowCount, 4.0);
    hide Filter, Sort, Bucket, SumUsd, Round2, Ids, DistinctDeals, ChangesUpTo, WindowsOf, Findings;
    FilterKeepsAll(Layering, rule, flows);
    NoFindings(Layering, rule);
    var ordered := Sort(flows, ByTime);
    matches := [];
    var seen: set<DedupeKey> := {};
    var ws := Windows(ordered, rule);
    for i := 0 to |ws|
      invariant matches == Findings(Layering, rule, ws[..i])
      invariant seen == Keys(matches)
    {
      FindingsStep(Layering, rule, ws, i);
      var window := ws[i];
      if |window| as real < minCount { continue; }
      var deals := DistinctDeals(window);
      if |deals| as real < minDeals { continue; }
      var transitions := Changes(window);
      if transitions < 2 { continue; }
      var dedupeKey := KeyOf(Layering, rule, window);
      if dedupeKey in seen { continue; }
      seen := seen + {dedupeKey};
      matches := matches + [Match(dedupeKey, Round2(SumUsd(window)), Ids(window))];
    }
    assert ws[..|ws|] == ws;
  }

  method DetectVelocity(rule: Rule, flows: seq<CashFlow>) returns (matches: seq<Match>)
    ensures matches == Detect(Velocity, rule, flows)
  {
    var maxFlows := Num(rule.parameters.maxFlowsPerWindow, 10.0);
    hide Filter, Sort, Bucket, SumUsd, Round2, Ids, DistinctDeals, ChangesUpTo, WindowsOf, Findings;
    FilterKeepsAll(Velocity, rule, flows);
    NoFindings(Velocity, rule);
    var ordered := Sort(flows, ByTime);
    matches := [];
    var seen: set<DedupeKey> := {};
    var ws := Windows(ordered, rule);
    for i := 0 to |ws|
      invariant matches == Findings(Velocity, rule, ws[..i])
      invariant seen == Keys(matches)
    {
      FindingsStep(Velocity, rule, ws, i);
      var window := ws[i];
      if |window| as real <= maxFlows { continue; }
      var dedupeKey := KeyOf(Velocity, rule, window);
      if dedupeKey in seen { continue; }
      seen := seen + {dedupeKey};
      matches := matches + [Match(dedupeKey, Round2(SumUsd(window)), Ids(window))];
    }
    assert ws[..|ws|] == ws;
  }

  lemma {:induction false} FilterKeepsAll(p: Pattern, rule: Rule, flows: seq<CashFlow>)
    requires p != Structuring
    ensures Filter(p, rule, flows) == flows
  {
    if flows != [] {
      FilterKeepsAll(p, rule, flows[1..]);
    }
  }

  // ---- Findings: one per key, the first window that qualifies, none missed ----

  ghost predicate DistinctKeys(matches: seq<Match>) {
    forall i, j :: 0 <= i < j < |matches| ==> matches[i].dedupeKey != matches[j].dedupeKey
  }

  lemma {:induction false} FindingsDistinct(p: Pattern, rule: Rule, ws: seq<Window>)
    ensures DistinctKeys(Findings(p, rule, ws))
  {
    if ws != [] {
      FindingsDistinct(p, rule, ws[..|ws| - 1]);
    }
  }

  lemma {:induction false} FindingsSound(p: Pattern, rule: Rule, ws: seq<Window>, m: Match) returns (w: Window)
    requires m in Findings(p, rule, ws)
    ensures w in ws && Hit(p, rule, w) && m == MatchOf(p, rule, w)
  {
    var n := |ws| - 1;
    if m in Findings(p, rule, ws[..n]) {
      w := FindingsSound(p, rule, ws[..n], m);
    } else {
      w := ws[n];
    }
  }

  lemma {:induction false} FindingsComplete(p: Pattern, rule: Rule, ws: seq<Window>, w: Window)
    requires w in ws && Hit(p, rule, w)
    ensures KeyOf(p, rule, w) in Keys(Findings(p, rule, ws))
  {
    var n := |ws| - 1;
    var before := Findings(p, rule, ws[..n]);
    if w in ws[..n] {
      FindingsComplete(p, rule, ws[..n], w);
      var m :| m in before && m.dedupeKey == KeyOf(p, rule, w);
      assert m in Findings(p, rule, ws);
    } else {
      assert w == ws[n];
      if KeyOf(p, rule, w) in Keys(before) {
        var m :| m in before && m.dedupeKey == KeyOf(p, rule, w);
        assert m in Findings(p, rule, ws);
      } else {
        assert MatchOf(p, rule, w) in Findings(p, rule, ws);
      }
    }
  }

  // ---- The flows a detector orders are the eligible ones ----

  lemma {:induction false} FilterCounts(p: Pattern, rule: Rule, flows: seq<CashFlow>, f: CashFlow)
    ensures multiset(Filter(p, rule, flows))[f] == if Eligible(p, rule, f) then multiset(flows)[f] else 0
  {
    if flows != [] {
      FilterCounts(p, rule, flows[1..], f);
      assert flows == [flows[0]] + flows[1..];
    }
  }

  lemma OrderedIsSorted(p: Pattern, rule: Rule, flows: seq<CashFlow>)
    ensures Sorted(Ordered(p, rule, flows), ByTime)
  {
    assert TotalPreorder(ByTime);
    SortSorted(Filter(p, rule, flows), ByTime);
  }

  lemma OrderedElements(p: Pattern, rule: Rule, flows: seq<CashFlow>)
    ensures multiset(Ordered(p, rule, flows)) <= multiset(flows)
    ensures forall f :: f in Ordered(p, rule, flows) ==> f in flows && Eligible(p, rule, f)
  {
    var ordered := Ordered(p, rule, flows);
    forall f ensures multiset(ordered)[f] == if Eligible(p, rule, f) then multiset(flows)[f] else 0 {
      FilterCounts(p, rule, flows, f);
    }
    forall f | f in ordered ensures f in flows && Eligible(p, rule, f) {
      assert f in multiset(ordered);
      assert f in multiset(flows);
    }
  }

  // ---- Structuring: any selection of flows that qualifies is reported ----

  /** Against the stored parameter, or the default when the parameter is not a number. */
  ghost predicate AtLeast(x: real, raw: Option<real>, default: real) {
    (raw.Some? ==> x >= raw.value) && (raw.None? ==> x >= default)
  }

  ghost predicate AtMost(x: real, raw: Option<real>, default: real) {
    (raw.Some? ==> x <= raw.value) && (raw.None? ==> x <= default)
  }

  ghost predicate MoreThan(x: real, raw: Option<real>, default: real) {
    (raw.Some? ==> x > raw.value) && (raw.None? ==> x > default)
  }

  /** Some of the flows, in any order, no two further apart than windowHours. */
  ghost predicate Selection(rule: Rule, flows: seq<CashFlow>, group: seq<CashFlow>) {
    && group != [] && multiset(group) <= multiset(flows)
    && forall f, g :: f in group && g in group ==> f.at - g.at <= rule.windowHours * 3_600_000
  }

  /** A selection of small inflows, numerous and large enough together. */
  ghost predicate StructuringGroup(rule: Rule, flows: seq<CashFlow>, group: seq<CashFlow>) {
    && Selection(rule, flows, group)
    && (forall f :: f in group ==>
       f.direction == In && AtMost(f.amountUsd, rule.parameters.maxIndividualAmountUsd, 9_500.0))
    && AtLeast(|group| as real, rule.parameters.minFlowCount, 3.0)
    && AtLeast(SumUsd(group), rule.parameters.aggregateThresholdUsd, 10_000.0)
  }

  /** A selection of more flows than the rule permits in one window. */
  ghost predicate VelocityGroup(rule: Rule, flows: seq<CashFlow>, group: seq<CashFlow>) {
    Selection(rule, flows, group) && MoreThan(|group| as real, rule.parameters.maxFlowsPerWindow, 10.0)
  }

  ghost predicate Earliest(group: seq<CashFlow>, at: int) {
    (exists f :: f in group && f.at == at) && (forall f :: f in group ==> at <= f.at)
  }

  ghost predicate NonNegative(flows: seq<CashFlow>) {
    forall f :: f in flows ==> f.amountUsd >= 0.0
  }

  lemma {:induction false} EarliestExists(group: seq<CashFlow>) returns (at: int)
    requires group != []
    ensures Earliest(group, at)
  {
    if |group| == 1 {
      at := group[0].at;
      assert group[0] in group;
    } else {
      var rest := EarliestExists(group[1..]);
      at := if group[0].at <= rest then group[0].at else rest;
      assert group[0] in group;
      var f :| f in group[1..] && f.at == rest;
      assert f in group;
    }
  }

  lemma {:induction false} FirstAt(s: seq<CashFlow>, at: int, i: nat) returns (start: nat)
    requires i <= |s| && (exists f :: f in s[i..] && f.at == at)
    ensures i <= start < |s| && s[start].at == at && forall j :: i <= j < start ==> s[j].at != at
    decreases |s| - i
  {
    if s[i].at == at {
      start := i;
    } else {
      assert s[i..] == [s[i]] + s[i + 1..];
      start := FirstAt(s, at, i + 1);
    }
  }

  /** A window opened by the first flow at its instant holds every flow of the next `span`. */
  lemma WindowKeepsCount(s: seq<CashFlow>, start: nat, span: int, f: CashFlow)
    requires start < |s| && Sorted(s, ByTime)
    requires forall j :: 0 <= j < start ==> s[j].at != s[start].at
    requires s[start].at <= f.at <= s[start].at + span
    ensures multiset(WindowAt(s, start, span))[f] == multiset(s)[f]
  {
    var e := WindowEnd(s, start, start, span);
    forall j | 0 <= j < start || e <= j < |s| ensures s[j] != f {
      if j < start {
        assert ByTime(s[j], s[start]);
      } else if e < j {
        assert ByTime(s[e], s[j]);
      }
    }
    assert f !in s[..start] && f !in s[e..];
    assert s == s[..start] + WindowAt(s, start, span) + s[e..];
  }

  lemma GroupIsEligible(rule: Rule, flows: seq<CashFlow>, group: seq<CashFlow>)
    requires StructuringGroup(rule, flows, group)
    ensures forall f :: f in group ==> Eligible(Structuring, rule, f)
  {
  }

  lemma GroupHits(rule: Rule, flows: seq<CashFlow>, group: seq<CashFlow>, w: seq<CashFlow>)
    requires StructuringGroup(rule, flows, group) && |group| <= |w| && SumUsd(group) <= SumUsd(w)
    ensures Hit(Structuring, rule, w)
  {
  }

  /** The window opened by the earliest member holds the whole selection. */
  lemma WindowHoldsGroup(p: Pattern, rule: Rule, flows: seq<CashFlow>, group: seq<CashFlow>, at: int)
    returns (start: nat)
    requires Selection(rule, flows, group) && Earliest(group, at) && forall f :: f in group ==> Eligible(p, rule, f)
    ensures start < |Ordered(p, rule, flows)|
    ensures forall j :: 0 <= j < start ==> Ordered(p, rule, flows)[j].at != at
    ensures var w := WindowAt(Ordered(p, rule, flows), start, Span(rule));
            |w| > 0 && w[0].at == at && multiset(group) <= multiset(w)
  {
    var s := Ordered(p, rule, flows);
    OrderedIsSorted(p, rule, flows);
    var first :| first in group && first.at == at;
    FilterCounts(p, rule, flows, first);
    assert first in multiset(group) && first in multiset(s);
    assert s[0..] == s;
    start := FirstAt(s, at, 0);
    var w := WindowAt(s, start, Span(rule));
    forall f | f in multiset(group) ensures multiset(group)[f] <= multiset(w)[f] {
      assert f in group;
      FilterCounts(p, rule, flows, f);
      WindowKeepsCount(s, start, Span(rule), f);
    }
    assert first in multiset(group);
  }

  /** Completeness: every qualifying selection has a match under the key of its earliest flow's bucket. */
  lemma StructuringComplete(rule: Rule, flows: seq<CashFlow>, user: string, group: seq<CashFlow>, at: int)
    requires NonNegative(flows) && forall f :: f in flows ==> f.userId == user
    requires StructuringGroup(rule, flows, group) && Earliest(group, at)
    ensures DedupeKey(rule.ruleCode, Structuring, user, Bucket(rule, at)) in Keys(Detect(Structuring, rule, flows))
  {
    hide Hit, Bucket, StructuringGroup, Earliest, Ordered, WindowAt, WindowsUpTo, Findings;
    var s := Ordered(Structuring, rule, flows);
    assert QualifiesFrom(rule, flows, at);
    var start := QualifyingWindow(rule, flows, user, at);
    WindowsHold(s, |s|, Span(rule), start);
    FindingsComplete(Structuring, rule, WindowsOf(s, rule), WindowAt(s, start, Span(rule)));
  }

  lemma WindowIsWithinSpan(s: seq<CashFlow>, start: nat, span: int)
    requires start < |s| && Sorted(s, ByTime)
    ensures forall f, g :: f in WindowAt(s, start, span) && g in WindowAt(s, start, span) ==> f.at - g.at <= span
    ensures forall f :: f in WindowAt(s, start, span) ==> s[start].at <= f.at
  {
    var e := WindowEnd(s, start, start, span);
    forall f | f in WindowAt(s, start, span) ensures s[start].at <= f.at <= s[start].at + span {
      var j :| start <= j < e && s[j] == f;
      assert j == start || ByTime(s[start], s[j]);
    }
  }

  lemma SliceSelects(s: seq<CashFlow>, start: nat, e: nat)
    requires start <= e <= |s|
    ensures multiset(s[start..e]) <= multiset(s)
  {
    assert s == s[..start] + s[start..e] + s[e..];
  }

  /** A qualifying window is a qualifying selection, and its first flow is the earliest. */
  lemma WindowIsGroup(rule: Rule, flows: seq<CashFlow>, start: nat)
    requires start < |Ordered(Structuring, rule, flows)|
    requires var w := WindowAt(Ordered(Structuring, rule, flows), start, Span(rule));
      |w| > 0 && Hit(Structuring, rule, w)
    ensures var s := Ordered(Structuring, rule, flows);
            var w := WindowAt(s, start, Span(rule));
            StructuringGroup(rule, flows, w) && Earliest(w, s[start].at)
  {
    var s := Ordered(Structuring, rule, flows);
    var w := WindowAt(s, start, Span(rule));
    OrderedIsSorted(Structuring, rule, flows);
    OrderedElements(Structuring, rule, flows);
    WindowIsWithinSpan(s, start, Span(rule));
    SliceSelects(s, start, WindowEnd(s, start, start, Span(rule)));
    assert w[0] == s[start] && w[0] in w;
    forall f | f in w ensures Eligible(Structuring, rule, f) {
      assert f in s;
    }
  }

  /** Soundness: every match names a qualifying selection, and its key is that selection's. */
  lemma StructuringSound(rule: Rule, flows: seq<CashFlow>, m: Match) returns (group: seq<CashFlow>, at: int)
    requires m in Detect(Structuring, rule, flows)
    ensures StructuringGroup(rule, flows, group) && Earliest(group, at)
    ensures m.dedupeKey == DedupeKey(rule.ruleCode, Structuring, group[0].userId, Bucket(rule, at))
    ensures m.flowIds == Ids(group) && m.amountUsd == Round2(SumUsd(group))
  {
    var s := Ordered(Structuring, rule, flows);
    group := FindingsSound(Structuring, rule, WindowsOf(s, rule), m);
    var start := WindowsAreSlices(s, |s|, Span(rule), group);
    at := s[start].at;
    WindowIsGroup(rule, flows, start);
    assert group[0] == s[start];
  }

  /** A structuring alert is raised exactly when some selection of the account's flows qualifies. */
  lemma StructuringIff(rule: Rule, flows: seq<CashFlow>, user: string)
    requires NonNegative(flows) && forall f :: f in flows ==> f.userId == user
    ensures Detect(Structuring, rule, flows) != [] <==> exists group :: StructuringGroup(rule, flows, group)
    ensures DistinctKeys(Detect(Structuring, rule, flows))
  {
    var found := Detect(Structuring, rule, flows);
    var s := Ordered(Structuring, rule, flows);
    FindingsDistinct(Structuring, rule, WindowsOf(s, rule));
    if found != [] {
      assert found[0] in found;
      var group, at := StructuringSound(rule, flows, found[0]);
    }
    if group :| StructuringGroup(rule, flows, group) {
      var at := EarliestExists(group);
      StructuringComplete(rule, flows, user, group, at);
    }
  }

  // ---- Which selection the one match of a bucket stands for ----

  ghost predicate QualifiesFrom(rule: Rule, flows: seq<CashFlow>, at: int) {
    exists group :: StructuringGroup(rule, flows, group) && Earliest(group, at)
  }

  /** The first instant of the bucket from which some selection qualifies. */
  ghost predicate FirstStart(rule: Rule, flows: seq<CashFlow>, bucket: int, at: int) {
    && Bucket(rule, at) == bucket && QualifiesFrom(rule, flows, at)
    && forall t :: t < at && QualifiesFrom(rule, flows, t) ==> Bucket(rule, t) != bucket
  }

  /** The flows of the window that opens at an instant. */
  predicate Reaches(rule: Rule, at: int, f: CashFlow) {
    Eligible(Structuring, rule, f) && at <= f.at <= at + Span(rule)
  }

  lemma {:induction false} FindingsFirst(p: Pattern, rule: Rule, ws: seq<Window>, m: Match) returns (i: nat)
    requires m in Findings(p, rule, ws)
    ensures i < |ws| && Hit(p, rule, ws[i]) && m == MatchOf(p, rule, ws[i])
    ensures forall j :: 0 <= j < i && Hit(p, rule, ws[j]) ==> KeyOf(p, rule, ws[j]) != m.dedupeKey
  {
    var n := |ws| - 1;
    if m in Findings(p, rule, ws[..n]) {
      i := FindingsFirst(p, rule, ws[..n], m);
    } else {
      i := n;
      forall j | 0 <= j < i && Hit(p, rule, ws[j]) ensures KeyOf(p, rule, ws[j]) != m.dedupeKey {
        assert ws[..n][j] == ws[j];
        FindingsComplete(p, rule, ws[..n], ws[j]);
      }
    }
  }

  lemma {:induction false} WindowsByStart(flows: seq<CashFlow>, n: nat, span: int)
    requires n <= |flows| && span >= 0
    ensures |WindowsUpTo(flows, n, span)| == n
    ensures forall i :: 0 <= i < n ==> WindowsUpTo(flows, n, span)[i] == WindowAt(flows, i, span)
  {
    if n > 0 {
      WindowsByStart(flows, n - 1, span);
    }
  }

  /** A qualifying selection makes the window from its first instant qualify, whose first flow comes no later. */
  lemma QualifyingWindow(rule: Rule, flows: seq<CashFlow>, user: string, t: int) returns (start: nat)
    requires NonNegative(flows) && (forall f :: f in flows ==> f.userId == user) && QualifiesFrom(rule, flows, t)
    ensures var s := Ordered(Structuring, rule, flows);
      && start < |s| && s[start].at == t && (forall j :: 0 <= j < start ==> s[j].at != t)
      && var w := WindowAt(s, start, Span(rule));
      && |w| > 0 && Hit(Structuring, rule, w)
      && KeyOf(Structuring, rule, w) == DedupeKey(rule.ruleCode, Structuring, user, Bucket(rule, t))
  {
    hide Ordered, Bucket, Earliest, Eligible, Num, Hit;
    var s := Ordered(Structuring, rule, flows);
    var group :| StructuringGroup(rule, flows, group) && Earliest(group, t);
    GroupIsEligible(rule, flows, group);
    OrderedElements(Structuring, rule, flows);
    start := WindowHoldsGroup(Structuring, rule, flows, group, t);
    var w := WindowAt(s, start, Span(rule));
    WindowIsPart(s, start, Span(rule));
    SumMonotone(group, w, Amount());
    GroupHits(rule, flows, group, w);
  }

  lemma WindowIsPart(s: seq<CashFlow>, start: nat, span: int)
    requires start < |s|
    ensures forall f :: f in WindowAt(s, start, span) ==> f in s
    ensures |WindowAt(s, start, span)| > 0 ==> WindowAt(s, start, span)[0] == s[start]
  {
  }

  /**
   Opened by the first flow of its instant, a window holds the small inflows of the next `windowHours` and no others.
   */
  lemma WindowIsReach(rule: Rule, flows: seq<CashFlow>, start: nat)
    requires start < |Ordered(Structuring, rule, flows)|
    requires var s := Ordered(Structuring, rule, flows); forall j :: 0 <= j < start ==> s[j].at != s[start].at
    ensures var s := Ordered(Structuring, rule, flows);
            forall f :: f in WindowAt(s, start, Span(rule)) <==> f in flows && Reaches(rule, s[start].at, f)
  {
    var s := Ordered(Structuring, rule, flows);
    var w := WindowAt(s, start, Span(rule));
    OrderedIsSorted(Structuring, rule, flows);
    OrderedElements(Structuring, rule, flows);
    forall f ensures f in w <==> f in flows && Reaches(rule, s[start].at, f) {
      if f in w {
        WindowIsWithinSpan(s, start, Span(rule));
        assert f in s && w[0] in w;
      }
      if f in flows && Reaches(rule, s[start].at, f) {
        WindowKeepsCount(s, start, Span(rule), f);
        FilterCounts(Structuring, rule, flows, f);
        assert f in multiset(s) && f in multiset(w);
      }
    }
  }

  /** The first qualifying window with a key opens at the first start of its bucket. */
  lemma FirstWindowStarts(rule: Rule, flows: seq<CashFlow>, user: string, i: nat)
    requires NonNegative(flows) && forall f :: f in flows ==> f.userId == user
    requires var s := Ordered(Structuring, rule, flows);
      && i < |s| && |WindowAt(s, i, Span(rule))| > 0 && Hit(Structuring, rule, WindowAt(s, i, Span(rule)))
      && forall j ::
           (0 <= j < i && |WindowAt(s, j, Span(rule))| > 0 && Hit(Structuring, rule, WindowAt(s, j, Span(rule))))
           ==> KeyOf(Structuring, rule, WindowAt(s, j, Span(rule))) !=
               KeyOf(Structuring, rule, WindowAt(s, i, Span(rule)))
    ensures var s := Ordered(Structuring, rule, flows);
      && FirstStart(rule, flows, Bucket(rule, s[i].at), s[i].at) && forall j :: 0 <= j < i ==> s[j].at != s[i].at
  {
    hide Hit, Bucket, StructuringGroup;
    var s := Ordered(Structuring, rule, flows);
    var at := s[i].at;
    OrderedIsSorted(Structuring, rule, flows);
    OrderedElements(Structuring, rule, flows);
    WindowIsGroup(rule, flows, i);
    assert WindowAt(s, i, Span(rule))[0] == s[i] && s[i] in s;
    assert forall j :: i < j < |s| ==> ByTime(s[i], s[j]);
    forall t | t <= at && QualifiesFrom(rule, flows, t) && Bucket(rule, t) == Bucket(rule, at) ensures t == at {
      var start := QualifyingWindow(rule, flows, user, t);
    }
    var start := QualifyingWindow(rule, flows, user, at);
    assert start == i;
  }

  /** The window a match was made from is the first by its start to qualify under its key. */
  lemma FirstHit(rule: Rule, flows: seq<CashFlow>, m: Match) returns (i: nat, w: Window)
    requires m in Detect(Structuring, rule, flows)
    ensures var s := Ordered(Structuring, rule, flows);
      && i < |s| && w == WindowAt(s, i, Span(rule)) && w[0] == s[i]
      && Hit(Structuring, rule, w) && m == MatchOf(Structuring, rule, w)
      && forall j ::
           (0 <= j < i && |WindowAt(s, j, Span(rule))| > 0 && Hit(Structuring, rule, WindowAt(s, j, Span(rule))))
           ==> KeyOf(Structuring, rule, WindowAt(s, j, Span(rule))) != m.dedupeKey
  {
    hide Hit, KeyOf, MatchOf, Ordered, WindowAt, Findings, WindowsUpTo;
    var s := Ordered(Structuring, rule, flows);
    var ws := WindowsOf(s, rule);
    i := FindingsFirst(Structuring, rule, ws, m);
    w := ws[i];
    var slice := WindowsAreSlices(s, |s|, Span(rule), w);
    SpanOfWindow(s, slice, Span(rule));
    WindowsByStart(s, |s|, Span(rule));
    SpanOfWindow(s, i, Span(rule));
  }

  lemma SpanOfWindow(s: seq<CashFlow>, start: nat, span: int)
    requires start < |s| && |WindowAt(s, start, span)| > 0
    ensures span >= 0 && WindowAt(s, start, span)[0] == s[start]
  {
  }

  /** The match of a bucket names exactly the flows of the window that opens at the bucket's first start. */
  lemma BucketReports(rule: Rule, flows: seq<CashFlow>, user: string, m: Match) returns (at: int)
    requires NonNegative(flows) && forall f :: f in flows ==> f.userId == user
    requires m in Detect(Structuring, rule, flows)
    ensures m.dedupeKey == DedupeKey(rule.ruleCode, Structuring, user, Bucket(rule, at))
    ensures FirstStart(rule, flows, m.dedupeKey.bucket, at)
    ensures forall id :: id in m.flowIds <==> exists f :: f in flows && Reaches(rule, at, f) && f.id == id
  {
    hide Hit, Bucket, FirstStart, Reaches, Detect, Ordered, WindowAt, WindowsOf, Findings;
    var s := Ordered(Structuring, rule, flows);
    var i, w := FirstHit(rule, flows, m);
    assert w[0] in s;
    OrderedElements(Structuring, rule, flows);
    FirstWindowStarts(rule, flows, user, i);
    WindowIsReach(rule, flows, i);
    at := s[i].at;
    forall id ensures id in m.flowIds <==> exists f :: f in flows && Reaches(rule, at, f) && f.id == id {
      IdsOf(w, id);
    }
  }

  lemma IdsOf(w: seq<CashFlow>, id: string)
    ensures id in Ids(w) <==> exists f :: f in w && f.id == id
  {
    if f :| f in w && f.id == id {
      var k :| 0 <= k < |w| && w[k] == f;
      assert Ids(w)[k] == id;
    }
  }

  // ---- Layering and velocity: any time-ordered subsequence that qualifies is reported ----

  ghost predicate Picks(pick: seq<nat>, n: nat) {
    && (forall i :: 0 <= i < |pick| ==> pick[i] < n)
    && (forall i, j :: 0 <= i < j < |pick| ==> pick[i] < pick[j])
  }

  ghost function Select(s: seq<CashFlow>, pick: seq<nat>): (r: seq<CashFlow>)
    requires Picks(pick, |s|)
  {
    seq(|pick|, i requires 0 <= i < |pick| => s[pick[i]])
  }

  lemma {:induction false} PicksAreSpread(pick: seq<nat>, n: nat, i: nat)
    requires Picks(pick, n) && i < |pick|
    ensures pick[0] + i <= pick[i]
  {
    if i > 0 {
      PicksAreSpread(pick, n, i - 1);
    }
  }

  /** Between two flows of opposite direction there is at least one change. */
  lemma {:induction false} ChangesBetween(s: seq<CashFlow>, i: nat, j: nat)
    requires i <= j < |s|
    ensures ChangesUpTo(s, j + 1) >= ChangesUpTo(s, i + 1) + if s[i].direction != s[j].direction then 1 else 0
  {
    if i < j {
      ChangesBetween(s, i, j - 1);
    }
  }

  /** Direction changes never decrease from a subsequence to the whole. */
  lemma {:induction false} ChangesOfSelection(s: seq<CashFlow>, pick: seq<nat>, k: nat)
    requires Picks(pick, |s|) && k < |pick|
    ensures ChangesUpTo(Select(s, pick), k + 1) <= ChangesUpTo(s, pick[k] + 1)
  {
    if k > 0 {
      ChangesOfSelection(s, pick, k - 1);
      ChangesBetween(s, pick[k - 1], pick[k]);
    }
  }

  lemma {:induction false} ChangesGrow(s: seq<CashFlow>, n: nat, m: nat)
    requires n <= m <= |s|
    ensures ChangesUpTo(s, n) <= ChangesUpTo(s, m)
  {
    if n < m {
      ChangesGrow(s, n, m - 1);
    }
  }

  /** A subsequence of a longer run is no richer than the run in flows, deals or direction changes. */
  lemma SelectionIsPoorer(w: seq<CashFlow>, pick: seq<nat>)
    requires Picks(pick, |w|) && |pick| > 0
    ensures |pick| <= |w|
    ensures |DistinctDeals(Select(w, pick))| <= |DistinctDeals(w)|
    ensures Changes(Select(w, pick)) <= Changes(w)
  {
    var k := |pick| - 1;
    var sel := Select(w, pick);
    PicksAreSpread(pick, |w|, k);
    forall d | d in DistinctDeals(sel) ensures d in DistinctDeals(w) {
      var f :| f in sel && f.dealId.Some? && f.dealId.value == d && d != "";
      assert f in w;
    }
    SubsetSize(DistinctDeals(sel), DistinctDeals(w));
    ChangesOfSelection(w, pick, k);
    ChangesGrow(w, pick[k] + 1, |w|);
  }

  /**
   The indices pick out, in time order, a qualifying group of the account's flows within one window.
   Flows of the same instant are taken in the order the stable sort leaves them in, which is that of the input.
   */
  ghost predicate OrderedGroup(p: Pattern, rule: Rule, flows: seq<CashFlow>, pick: seq<nat>) {
    var s := Ordered(p, rule, flows);
    && Picks(pick, |s|) && |pick| > 0
    && s[pick[|pick| - 1]].at - s[pick[0]].at <= Span(rule)
    && Hit(p, rule, Select(s, pick))
  }

  lemma ShiftPick(s: seq<CashFlow>, pick: seq<nat>, e: nat) returns (shifted: seq<nat>)
    requires e <= |s| && Picks(pick, e) && |pick| > 0
    ensures Picks(shifted, e - pick[0]) && |shifted| == |pick|
    ensures Select(s[pick[0]..e], shifted) == Select(s, pick)
  {
    shifted := seq(|pick|, i requires 0 <= i < |pick| => pick[i] - pick[0]);
  }

  /** A qualifying group, ties taken in input order, has a finding under its own key. */
  lemma OrderedComplete(p: Pattern, rule: Rule, flows: seq<CashFlow>, pick: seq<nat>)
    requires p != Structuring && OrderedGroup(p, rule, flows, pick)
    ensures KeyOf(p, rule, Select(Ordered(p, rule, flows), pick)) in Keys(Detect(p, rule, flows))
  {
    hide Hit, Bucket, Findings, DistinctDeals, ChangesUpTo, WindowsUpTo, Ordered;
    var s := Ordered(p, rule, flows);
    OrderedIsSorted(p, rule, flows);
    var start, last := pick[0], pick[|pick| - 1];
    var e := WindowEnd(s, start, start, Span(rule));
    var inOrder := e < |s| ==> ByTime(s[e], s[last]);
    assert last < e;
    var w := WindowAt(s, start, Span(rule));
    var shifted := ShiftPick(s, pick, e);
    SelectionIsPoorer(w, shifted);
    RicherHits(p, rule, Select(w, shifted), w);
    WindowsHold(s, |s|, Span(rule), start);
    FindingsComplete(p, rule, WindowsOf(s, rule), w);
  }

  lemma RicherHits(p: Pattern, rule: Rule, sel: seq<CashFlow>, w: seq<CashFlow>)
    requires p != Structuring && Hit(p, rule, sel) && |sel| <= |w|
    requires |DistinctDeals(sel)| <= |DistinctDeals(w)| && Changes(sel) <= Changes(w)
    ensures Hit(p, rule, w)
  {
  }

  lemma SliceIsPicked(s: seq<CashFlow>, start: nat, e: nat) returns (pick: seq<nat>)
    requires start <= e <= |s|
    ensures Picks(pick, |s|) && Select(s, pick) == s[start..e]
    ensures |pick| == e - start && forall i :: 0 <= i < |pick| ==> pick[i] == start + i
  {
    pick := seq(e - start, i => start + i);
  }

  lemma OrderedSound(p: Pattern, rule: Rule, flows: seq<CashFlow>, m: Match) returns (pick: seq<nat>)
    requires m in Detect(p, rule, flows)
    ensures OrderedGroup(p, rule, flows, pick)
    ensures m == MatchOf(p, rule, Select(Ordered(p, rule, flows), pick))
  {
    var s := Ordered(p, rule, flows);
    OrderedIsSorted(p, rule, flows);
    var w := FindingsSound(p, rule, WindowsOf(s, rule), m);
    var start := WindowsAreSlices(s, |s|, Span(rule), w);
    pick := SliceIsPicked(s, start, WindowEnd(s, start, start, Span(rule)));
  }

  // ---- Velocity: any selection that is too large is reported ----

  /** Every selection that is too large has a match under the key of its earliest flow's bucket. */
  lemma VelocityComplete(rule: Rule, flows: seq<CashFlow>, user: string, group: seq<CashFlow>, at: int)
    requires forall f :: f in flows ==> f.userId == user
    requires VelocityGroup(rule, flows, group) && Earliest(group, at)
    ensures DedupeKey(rule.ruleCode, Velocity, user, Bucket(rule, at)) in Keys(Detect(Velocity, rule, flows))
  {
    hide Bucket;
    var s := Ordered(Velocity, rule, flows);
    OrderedElements(Velocity, rule, flows);
    var start := WindowHoldsGroup(Velocity, rule, flows, group, at);
    var w := WindowAt(s, start, Span(rule));
    assert |multiset(group)| <= |multiset(w)| by {
      assert multiset(w) == multiset(group) + (multiset(w) - multiset(group));
    }
    WindowIsPart(s, start, Span(rule));
    WindowsHold(s, |s|, Span(rule), start);
    FindingsComplete(Velocity, rule, WindowsOf(s, rule), w);
  }

  /** Every match is such a selection, with its flows, its amount and its key. */
  lemma VelocitySound(rule: Rule, flows: seq<CashFlow>, m: Match) returns (group: seq<CashFlow>, at: int)
    requires m in Detect(Velocity, rule, flows)
    ensures VelocityGroup(rule, flows, group) && Earliest(group, at)
    ensures m.dedupeKey == DedupeKey(rule.ruleCode, Velocity, group[0].userId, Bucket(rule, at))
    ensures m.flowIds == Ids(group) && m.amountUsd == Round2(SumUsd(group))
  {
    hide Bucket, VelocityGroup, Earliest;
    var s := Ordered(Velocity, rule, flows);
    group := FindingsSound(Velocity, rule, WindowsOf(s, rule), m);
    var start := WindowsAreSlices(s, |s|, Span(rule), group);
    at := s[start].at;
    VelocityWindow(rule, flows, start);
    assert group[0] == s[start];
  }

  lemma VelocityWindow(rule: Rule, flows: seq<CashFlow>, start: nat)
    requires start < |Ordered(Velocity, rule, flows)|
    requires var w := WindowAt(Ordered(Velocity, rule, flows), start, Span(rule)); |w| > 0 && Hit(Velocity, rule, w)
    ensures var s := Ordered(Velocity, rule, flows);
            var w := WindowAt(s, start, Span(rule));
            VelocityGroup(rule, flows, w) && Earliest(w, s[start].at)
  {
    hide Ordered;
    var s := Ordered(Velocity, rule, flows);
    var w := WindowAt(s, start, Span(rule));
    OrderedIsSorted(Velocity, rule, flows);
    OrderedElements(Velocity, rule, flows);
    WindowIsWithinSpan(s, start, Span(rule));
    SliceSelects(s, start, WindowEnd(s, start, start, Span(rule)));
    assert w[0] == s[start] && w[0] in w;
  }

  /** A velocity alert is raised exactly when some selection of the flows is too large. */
  lemma VelocityIff(rule: Rule, flows: seq<CashFlow>, user: string)
    requires forall f :: f in flows ==> f.userId == user
    ensures Detect(Velocity, rule, flows) != [] <==> exists group :: VelocityGroup(rule, flows, group)
    ensures DistinctKeys(Detect(Velocity, rule, flows))
  {
    var found := Detect(Velocity, rule, flows);
    FindingsDistinct(Velocity, rule, WindowsOf(Ordered(Velocity, rule, flows), rule));
    if found != [] {
      assert found[0] in found;
      var group, at := VelocitySound(rule, flows, found[0]);
    }
    if group :| VelocityGroup(rule, flows, group) {
      var at := EarliestExists(group);
      VelocityComplete(rule, flows, user, group, at);
    }
  }

  // ---- Layering: any subsequence through enough deals and back again is reported ----

  /** Money goes one way, then the other, then back. */
  ghost predicate Alternates(w: seq<CashFlow>) {
    exists a, b, c :: 0 <= a < b < c < |w| && w[a].direction != w[b].direction && w[b].direction != w[c].direction
  }

  /** The flows name these deals, and perhaps others. */
  ghost predicate Names(w: seq<CashFlow>, deals: set<string>) {
    "" !in deals && forall d :: d in deals ==> exists f :: f in w && f.dealId == Some(d)
  }

  /** The indices pick out of the flows in time order enough of them, close enough, through enough deals. */
  ghost predicate LayeringGroup(rule: Rule, flows: seq<CashFlow>, pick: seq<nat>) {
    var s := Sort(flows, ByTime);
    && Picks(pick, |s|) && |pick| > 0
    && s[pick[|pick| - 1]].at - s[pick[0]].at <= rule.windowHours * 3_600_000
    && AtLeast(|pick| as real, rule.parameters.minFlowCount, 4.0)
    && (exists deals ::
          Names(Select(s, pick), deals) && AtLeast(|deals| as real, rule.parameters.minDistinctDeals, 3.0))
    && Alternates(Select(s, pick))
  }

  lemma {:induction false} OneChange(w: seq<CashFlow>, n: nat) returns (a: nat)
    requires n <= |w| && ChangesUpTo(w, n) == 1
    ensures a + 1 < n && w[a].direction != w[n - 1].direction
  {
    if ChangesUpTo(w, n - 1) == 1 {
      a := OneChange(w, n - 1);
    } else {
      a := n - 2;
    }
  }

  lemma {:induction false} TwoChanges(w: seq<CashFlow>, n: nat) returns (a: nat, b: nat, c: nat)
    requires n <= |w| && ChangesUpTo(w, n) >= 2
    ensures a < b < c < n && w[a].direction != w[b].direction && w[b].direction != w[c].direction
  {
    if ChangesUpTo(w, n - 1) >= 2 {
      a, b, c := TwoChanges(w, n - 1);
    } else {
      b, c := n - 2, n - 1;
      a := OneChange(w, n - 1);
    }
  }

  /** Counting changes between neighbours finds the back and forth, neighbours or not. */
  lemma AlternatesIff(w: seq<CashFlow>)
    ensures Changes(w) >= 2 <==> Alternates(w)
  {
    if Changes(w) >= 2 {
      var a, b, c := TwoChanges(w, |w|);
    }
    if a, b, c :| 0 <= a < b < c < |w| && w[a].direction != w[b].direction && w[b].direction != w[c].direction {
      ChangesBetween(w, a, b);
      ChangesBetween(w, b, c);
      ChangesGrow(w, c + 1, |w|);
    }
  }

  lemma DealsIff(w: seq<CashFlow>, raw: Option<real>)
    ensures |DistinctDeals(w)| as real >= Num(raw, 3.0)
      <==> exists deals :: Names(w, deals) && AtLeast(|deals| as real, raw, 3.0)
  {
    assert Names(w, DistinctDeals(w));
    if deals :| Names(w, deals) && AtLeast(|deals| as real, raw, 3.0) {
      SubsetSize(deals, DistinctDeals(w));
    }
  }

  lemma LayeringHitIff(rule: Rule, flows: seq<CashFlow>, pick: seq<nat>)
    ensures OrderedGroup(Layering, rule, flows, pick) <==> LayeringGroup(rule, flows, pick)
  {
    hide DistinctDeals;
    FilterKeepsAll(Layering, rule, flows);
    var s := Sort(flows, ByTime);
    if Picks(pick, |s|) && |pick| > 0 {
      AlternatesIff(Select(s, pick));
      DealsIff(Select(s, pick), rule.parameters.minDistinctDeals);
    }
  }

  /** Every such subsequence has a match under the key of its first flow. */
  lemma LayeringComplete(rule: Rule, flows: seq<CashFlow>, pick: seq<nat>)
    requires LayeringGroup(rule, flows, pick)
    ensures var first := Sort(flows, ByTime)[pick[0]];
            DedupeKey(rule.ruleCode, Layering, first.userId,
                Bucket(rule, first.at)) in Keys(Detect(Layering, rule, flows))
  {
    hide Bucket;
    FilterKeepsAll(Layering, rule, flows);
    LayeringHitIff(rule, flows, pick);
    OrderedComplete(Layering, rule, flows, pick);
  }

  /** Every match is such a subsequence, with its flows, its amount and its key. */
  lemma LayeringSound(rule: Rule, flows: seq<CashFlow>, m: Match) returns (pick: seq<nat>)
    requires m in Detect(Layering, rule, flows)
    ensures LayeringGroup(rule, flows, pick)
    ensures var s := Sort(flows, ByTime);
      && m.dedupeKey == DedupeKey(rule.ruleCode, Layering, s[pick[0]].userId, Bucket(rule, s[pick[0]].at))
      && m.flowIds == Ids(Select(s, pick)) && m.amountUsd == Round2(SumUsd(Select(s, pick)))
  {
    hide Bucket;
    FilterKeepsAll(Layering, rule, flows);
    pick := OrderedSound(Layering, rule, flows, m);
    LayeringHitIff(rule, flows, pick);
  }

  /** A layering alert is raised exactly when some subsequence of the flows in time order qualifies. */
  lemma LayeringIff(rule: Rule, flows: seq<CashFlow>)
    ensures Detect(Layering, rule, flows) != [] <==> exists pick :: LayeringGroup(rule, flows, pick)
    ensures DistinctKeys(Detect(Layering, rule, flows))
  {
    var found := Detect(Layering, rule, flows);
    FindingsDistinct(Layering, rule, WindowsOf(Ordered(Layering, rule, flows), rule));
    if found != [] {
      assert found[0] in found;
      var pick := LayeringSound(rule, flows, found[0]);
    }
    if pick :| LayeringGroup(rule, flows, pick) {
      LayeringComplete(rule, flows, pick);
    }
  }

  // ---- Keys and amounts ----

  /** Instants share a bucket when they lie in one stretch of windowHours, counted from the epoch, one hour at least. */
  lemma BucketMeans(rule: Rule, at: int)
    ensures var size := Max(rule.windowHours, 1) * 3_600_000;
            Bucket(rule, at) <= at < Bucket(rule, at) + size && Bucket(rule, at) % size == 0
  {
    var size := Max(rule.windowHours, 1) * 3_600_000;
    assert at == size * (at / size) + at % size;
    QuotientIs(at / size * size, size, at / size, 0);
  }

  /** Amounts are rounded to whole cents, by half a cent at most. */
  lemma RoundsToCents(x: real) returns (cents: int)
    ensures Round2(x) == cents as real / 100.0
    ensures x - 0.005 < Round2(x) <= x + 0.005
  {
    cents := (x * 100.0 + 0.5).Floor;
  }
}

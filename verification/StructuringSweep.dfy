/**
 What sweeps make of structuring (backend/src/aml/transaction-monitoring.service.ts with
 backend/src/aml/aml-detectors.ts): a sweep reports one match for each time bucket, made from the first
 selection of the bucket that qualifies, and only when that selection has a movement in the sweep's window.
 */
module StructuringSweep {
  import opened Collections
  import opened Options
  import opened OrderedMaps
  import opened Sums
  import opened Buckets
  import opened AmlCases
  import opened AmlCaseProofs
  import opened MonitoringSweep
  import opened MonitoringService
  import D = Detectors

  /** The rule as the detectors see it. */
  function RuleFor(r: FlowRule, parameters: D.Parameters): D.Rule {
    D.Rule(r.code, r.windowHours, parameters)
  }

  function Structuring(rule: D.Rule, flows: seq<Flow>): seq<D.Match> {
    D.Detect(D.Structuring, rule, flows)
  }

  function KeyOf(rule: D.Rule, user: string, bucket: int): D.DedupeKey {
    D.DedupeKey(rule.ruleCode, D.Structuring, user, bucket)
  }

  ghost predicate SpeltOut(found: seq<Detected>, matches: seq<D.Match>, encode: D.DedupeKey -> string) {
    && |found| == |matches|
    && forall i :: 0 <= i < |found| ==>
         found[i].dedupeKey == encode(matches[i].dedupeKey) && found[i].flowIds == matches[i].flowIds
  }

  /** For this rule runDetector is the structuring detector; for other rules it may be anything. */
  ghost predicate RunsStructuring(detect: Detector, r: FlowRule, rule: D.Rule, encode: D.DedupeKey -> string) {
    forall flows :: SpeltOut(detect(r, flows), Structuring(rule, flows), encode)
  }

  ghost predicate Injective(encode: D.DedupeKey -> string) {
    forall k, k' :: encode(k) == encode(k') ==> k == k'
  }

  ghost predicate DistinctIds(flows: seq<Flow>) {
    forall f, g :: f in flows && g in flows && f.id == g.id ==> f == g
  }

  /** What the source takes for granted of the rows: ids of their own and no negative amounts. */
  ghost predicate GoodRows(flows: seq<Flow>) {
    D.NonNegative(flows) && DistinctIds(flows)
  }

  ghost predicate OneUser(flows: seq<Flow>, user: string) {
    forall f :: f in flows ==> f.userId == user
  }

  // ---- One account ----

  /** The window that opens at the bucket's first start has a movement inside the sweep's window. */
  ghost predicate FirstWindowTouches(rule: D.Rule, flows: seq<Flow>, bucket: int, span: Span) {
    exists at, f :: D.FirstStart(rule, flows, bucket, at) && f in flows && D.Reaches(rule, at, f) && InSpan(f, span)
  }

  ghost predicate MatchTouches(m: D.Match, flows: seq<Flow>, span: Span) {
    exists f :: f in flows && InSpan(f, span) && f.id in m.flowIds
  }

  lemma FirstStartIsUnique(rule: D.Rule, flows: seq<Flow>, bucket: int, a: int, b: int)
    requires D.FirstStart(rule, flows, bucket, a) && D.FirstStart(rule, flows, bucket, b)
    ensures a == b
  {
    hide D.QualifiesFrom, D.Bucket;
  }

  /** A qualifying selection's bucket has a match. */
  lemma GroupIsMatched(rule: D.Rule, flows: seq<Flow>, user: string, group: seq<Flow>, at: int) returns (m: D.Match)
    requires D.NonNegative(flows) && OneUser(flows, user) && D.StructuringGroup(rule, flows, group)
      && D.Earliest(group, at)
    ensures m in Structuring(rule, flows) && m.dedupeKey == KeyOf(rule, user, D.Bucket(rule, at))
  {
    hide D.StructuringGroup, D.Detect, D.Bucket;
    D.StructuringComplete(rule, flows, user, group, at);
    m :| m in Structuring(rule, flows) && m.dedupeKey == KeyOf(rule, user, D.Bucket(rule, at));
  }

  lemma MatchTouchesIff(rule: D.Rule, flows: seq<Flow>, user: string, m: D.Match, span: Span)
    requires GoodRows(flows) && OneUser(flows, user) && m in Structuring(rule, flows)
    ensures m.dedupeKey == KeyOf(rule, user, m.dedupeKey.bucket)
    ensures MatchTouches(m, flows, span) <==> FirstWindowTouches(rule, flows, m.dedupeKey.bucket, span)
  {
    hide D.FirstStart, D.Reaches, D.Detect, D.Bucket, D.NonNegative;
    var at := D.BucketReports(rule, flows, user, m);
    if FirstWindowTouches(rule, flows, m.dedupeKey.bucket, span) {
      var at', f :|
        D.FirstStart(rule, flows, m.dedupeKey.bucket, at') && f in flows && D.Reaches(rule, at', f) && InSpan(f, span);
      FirstStartIsUnique(rule, flows, m.dedupeKey.bucket, at, at');
    }
  }

  ghost predicate TouchingMatch(rule: D.Rule, flows: seq<Flow>, key: D.DedupeKey, span: Span, m: D.Match) {
    m in Structuring(rule, flows) && m.dedupeKey == key && MatchTouches(m, flows, span)
  }

  lemma FirstGroup(rule: D.Rule, flows: seq<Flow>, bucket: int, at: int) returns (group: seq<Flow>)
    requires D.FirstStart(rule, flows, bucket, at)
    ensures D.StructuringGroup(rule, flows, group) && D.Earliest(group, at) && D.Bucket(rule, at) == bucket
  {
    hide D.StructuringGroup, D.Bucket, D.Earliest;
    group :| D.StructuringGroup(rule, flows, group) && D.Earliest(group, at);
  }

  /** A match of a bucket touches the sweep's window exactly when the bucket's first window does. */
  lemma TouchingMatchIff(rule: D.Rule, flows: seq<Flow>, user: string, bucket: int, span: Span)
    requires GoodRows(flows) && OneUser(flows, user)
    ensures (exists m :: TouchingMatch(rule, flows, KeyOf(rule, user, bucket), span, m))
       <==> FirstWindowTouches(rule, flows, bucket, span)
  {
    hide D.FirstStart, D.Reaches, D.NonNegative, MatchTouches, Structuring;
    var key := KeyOf(rule, user, bucket);
    if m :| TouchingMatch(rule, flows, key, span, m) {
      MatchTouchesIff(rule, flows, user, m, span);
    }
    if FirstWindowTouches(rule, flows, bucket, span) {
      var at, f :| D.FirstStart(rule, flows, bucket, at) && f in flows && D.Reaches(rule, at, f) && InSpan(f, span);
      var group := FirstGroup(rule, flows, bucket, at);
      var m := GroupIsMatched(rule, flows, user, group, at);
      MatchTouchesIff(rule, flows, user, m, span);
      assert TouchingMatch(rule, flows, key, span, m);
    }
  }

  /** The order of the flows does not matter. */
  lemma SameFlowsTouch(rule: D.Rule, a: seq<Flow>, b: seq<Flow>, bucket: int, span: Span)
    requires multiset(a) == multiset(b)
    ensures FirstWindowTouches(rule, a, bucket, span) <==> FirstWindowTouches(rule, b, bucket, span)
  {
    forall f ensures f in a <==> f in b {
      assert f in a <==> f in multiset(a);
      assert f in b <==> f in multiset(b);
    }
    forall t ensures D.QualifiesFrom(rule, a, t) <==> D.QualifiesFrom(rule, b, t) {
      if D.QualifiesFrom(rule, a, t) {
        SelectionsStay(rule, a, b, t);
      }
      if D.QualifiesFrom(rule, b, t) {
        SelectionsStay(rule, b, a, t);
      }
    }
    forall t ensures D.FirstStart(rule, a, bucket, t) <==> D.FirstStart(rule, b, bucket, t) {
    }
  }

  lemma SelectionsStay(rule: D.Rule, part: seq<Flow>, whole: seq<Flow>, t: int)
    requires multiset(part) <= multiset(whole) && D.QualifiesFrom(rule, part, t)
    ensures D.QualifiesFrom(rule, whole, t)
  {
    var group :| D.StructuringGroup(rule, part, group) && D.Earliest(group, t);
    assert D.StructuringGroup(rule, whole, group);
  }

  // ---- The whole sweep ----

  function Loaded(rules: seq<FlowRule>, table: seq<Flow>, span: Span): seq<Flow> {
    LoadCashFlows(table, LoadFrom(rules, span), span.end)
  }

  function Own(flows: seq<Flow>, user: string): seq<Flow> {
    WithKey(flows, UserOf(), user)
  }

  function Candidates(detect: Detector, rules: seq<FlowRule>, table: seq<Flow>, span: Span): seq<Candidate> {
    CandidatesOf(detect, rules, FlowsByUser(Loaded(rules, table, span)), span)
  }

  /** A finding of this rule for this account and under this key. */
  ghost predicate Raises(c: Candidate, r: FlowRule, user: string, key: string) {
    c.userId == user && c.found.ruleId == r.id && c.found.dedupeKey == key
  }

  /** One rule of the sweep, which runs the structuring detector, and whose id is its own. */
  ghost predicate Applied(
      detect: Detector, rules: seq<FlowRule>, r: FlowRule, parameters: D.Parameters, encode: D.DedupeKey -> string) {
    && r in rules && (forall q :: q in rules && q.id == r.id ==> q == r)
    && RunsStructuring(detect, r, RuleFor(r, parameters), encode) && Injective(encode)
  }

  lemma CountOfLast<T>(s: seq<T>, x: T)
    requires s != []
    ensures multiset(s)[x] == multiset(s[..|s| - 1])[x] + if s[|s| - 1] == x then 1 else 0
  {
    assert s == s[..|s| - 1] + [s[|s| - 1]];
  }

  lemma {:induction false} LoadCounts(table: seq<Flow>, from: int, to: int, f: Flow)
    ensures multiset(LoadCashFlows(table, from, to))[f]
         == if from <= f.at <= to && f.userId != "" then multiset(table)[f] else 0
  {
    if table != [] {
      var n := |table| - 1;
      var before, loaded := LoadCashFlows(table[..n], from, to), LoadCashFlows(table, from, to);
      LoadCounts(table[..n], from, to, f);
      CountOfLast(table, f);
      if from <= table[n].at <= to && table[n].userId != "" {
        assert loaded == before + [table[n]] && loaded[..|loaded| - 1] == before;
        CountOfLast(loaded, f);
      } else {
        assert loaded == before;
      }
    }
  }

  /** What a sweep sees of an account: its movements since the look-back. */
  lemma OwnLoaded(rules: seq<FlowRule>, table: seq<Flow>, span: Span, user: string, f: Flow)
    ensures var seen := multiset(Own(Loaded(rules, table, span), user))[f];
      && (f.userId != user ==> seen == 0) && seen <= multiset(Own(table, user))[f]
      && (LoadFrom(rules, span) <= f.at <= span.end && user != "" ==> seen == multiset(Own(table, user))[f])
  {
    LoadCounts(table, LoadFrom(rules, span), span.end, f);
    WithKeyCounts(Loaded(rules, table, span), UserOf(), user, f);
    WithKeyCounts(table, UserOf(), user, f);
  }

  lemma OwnIsGood(table: seq<Flow>, flows: seq<Flow>, user: string)
    requires GoodRows(table) && multiset(flows) <= multiset(Own(table, user))
    ensures GoodRows(flows) && OneUser(flows, user)
  {
    forall f | f in flows ensures f in table && f.userId == user {
      assert f in multiset(flows);
      assert f in multiset(Own(table, user));
      WithKeyElements(table, UserOf(), user, f);
    }
  }

  /** The flows of an account, as the sweep groups and sorts them, are its own loaded rows. */
  lemma AccountIsOwn(rules: seq<FlowRule>, table: seq<Flow>, span: Span, i: nat)
    requires GoodRows(table) && i < |FlowsByUser(Loaded(rules, table, span))|
    ensures var a := FlowsByUser(Loaded(rules, table, span))[i];
      && multiset(a.1) == multiset(Own(Loaded(rules, table, span), a.0)) && GoodRows(a.1) && OneUser(a.1, a.0)
  {
    hide FlowsByUser, GoodRows, OneUser;
    var a := FlowsByUser(Loaded(rules, table, span))[i];
    AccountIsSorted(Loaded(rules, table, span), i);
    forall f ensures multiset(a.1)[f] <= multiset(Own(table, a.0))[f] {
      OwnLoaded(rules, table, span, a.0, f);
    }
    OwnIsGood(table, a.1, a.0);
  }

  /** A candidate of the rule comes from a match of the account under the same key. */
  lemma RaisedIsMatched(
      detect: Detector, rules: seq<FlowRule>, grouped: seq<(string, seq<Flow>)>, span: Span, r: FlowRule,
      parameters: D.Parameters, encode: D.DedupeKey -> string, user: string, key: D.DedupeKey, c: Candidate)
    returns (i: nat, m: D.Match)
    requires Applied(detect, rules, r, parameters, encode)
    requires c in CandidatesOf(detect, rules, grouped, span) && Raises(c, r, user, encode(key))
    ensures i < |grouped| && grouped[i].0 == user && TouchingMatch(RuleFor(r, parameters), grouped[i].1, key, span, m)
  {
    hide Structuring, CandidatesOf;
    CandidatesAre(detect, rules, grouped, span, c);
    var a, q, d :| a in grouped && q in rules && Reported(detect, q, a, d, span, c);
    i :| 0 <= i < |grouped| && grouped[i] == a;
    assert q == r;
    var matches := Structuring(RuleFor(r, parameters), a.1);
    assert SpeltOut(detect(r, a.1), matches, encode);
    var k :| 0 <= k < |detect(r, a.1)| && detect(r, a.1)[k] == d;
    m := matches[k];
    assert m in matches;
  }

  lemma MatchIsRaised(
      detect: Detector, rules: seq<FlowRule>, grouped: seq<(string, seq<Flow>)>, span: Span, r: FlowRule,
      parameters: D.Parameters, encode: D.DedupeKey -> string, key: D.DedupeKey, i: nat, m: D.Match)
    returns (c: Candidate)
    requires Applied(detect, rules, r, parameters, encode)
    requires i < |grouped| && TouchingMatch(RuleFor(r, parameters), grouped[i].1, key, span, m)
    ensures c in CandidatesOf(detect, rules, grouped, span) && Raises(c, r, grouped[i].0, encode(key))
  {
    hide Structuring, CandidatesOf;
    var matches := Structuring(RuleFor(r, parameters), grouped[i].1);
    assert SpeltOut(detect(r, grouped[i].1), matches, encode);
    var k :| 0 <= k < |matches| && matches[k] == m;
    var d := detect(r, grouped[i].1)[k];
    c := CandidateOf(r, grouped[i].0, d);
    CandidatesAre(detect, rules, grouped, span, c);
    assert grouped[i] in grouped && Reported(detect, r, grouped[i], d, span, c);
  }

  /**
   A sweep reports structuring of an account in a bucket exactly when the first window of the bucket that
   qualifies among the loaded movements has one inside the sweep's window.
   */
  lemma SweepReportsIff(
      detect: Detector, rules: seq<FlowRule>, table: seq<Flow>, span: Span, r: FlowRule, parameters: D.Parameters,
      encode: D.DedupeKey -> string, user: string, bucket: int)
    requires Applied(detect, rules, r, parameters, encode) && GoodRows(table)
    ensures var rule := RuleFor(r, parameters);
      (exists c :: c in Candidates(detect, rules, table, span) && Raises(c, r, user, encode(KeyOf(rule, user, bucket))))
      <==> FirstWindowTouches(rule, Own(Loaded(rules, table, span), user), bucket, span)
  {
    hide CandidatesOf, FlowsByUser, FirstWindowTouches, TouchingMatch, Applied, GoodRows, Raises, KeyOf, Loaded, Own;
    var rule := RuleFor(r, parameters);
    var key := KeyOf(rule, user, bucket);
    var grouped := FlowsByUser(Loaded(rules, table, span));
    var own := Own(Loaded(rules, table, span), user);
    if c :| c in Candidates(detect, rules, table, span) && Raises(c, r, user, encode(key)) {
      var i, m := RaisedIsMatched(detect, rules, grouped, span, r, parameters, encode, user, key, c);
      AccountIsOwn(rules, table, span, i);
      TouchingMatchIff(rule, grouped[i].1, user, bucket, span);
      SameFlowsTouch(rule, grouped[i].1, own, bucket, span);
    }
    if FirstWindowTouches(rule, own, bucket, span) {
      var f := OneTouches(rule, own, bucket, span);
      var i := OwnAccount(rules, table, span, user, f);
      AccountIsOwn(rules, table, span, i);
      SameFlowsTouch(rule, grouped[i].1, own, bucket, span);
      TouchingMatchIff(rule, grouped[i].1, user, bucket, span);
      var m :| TouchingMatch(rule, grouped[i].1, key, span, m);
      var c := MatchIsRaised(detect, rules, grouped, span, r, parameters, encode, key, i, m);
    }
  }

  lemma OneTouches(rule: D.Rule, flows: seq<Flow>, bucket: int, span: Span) returns (f: Flow)
    requires FirstWindowTouches(rule, flows, bucket, span)
    ensures f in flows && InSpan(f, span)
  {
    var at, f' :| D.FirstStart(rule, flows, bucket, at) && f' in flows && D.Reaches(rule, at, f') && InSpan(f', span);
    f := f';
  }

  lemma OwnAccount(rules: seq<FlowRule>, table: seq<Flow>, span: Span, user: string, f: Flow) returns (i: nat)
    requires f in Own(Loaded(rules, table, span), user)
    ensures i < |FlowsByUser(Loaded(rules, table, span))| && FlowsByUser(Loaded(rules, table, span))[i].0 == user
  {
    WithKeyElements(Loaded(rules, table, span), UserOf(), user, f);
    i := AccountOfFlow(Loaded(rules, table, span), f);
  }

  // ---- What sweeps miss, and what they do not ----

  /** The last movement of the window that opens at an instant. */
  ghost predicate LastReached(rule: D.Rule, flows: seq<Flow>, at: int, last: Flow) {
    && last in flows && D.Reaches(rule, at, last)
    && forall f :: f in flows && D.Reaches(rule, at, f) ==> f.at <= last.at
  }

  lemma {:induction false} LastReachedExists(rule: D.Rule, flows: seq<Flow>, at: int) returns (last: Flow)
    requires exists f :: f in flows && D.Reaches(rule, at, f)
    ensures LastReached(rule, flows, at, last)
  {
    var n := |flows| - 1;
    assert flows == flows[..n] + [flows[n]];
    if exists f :: f in flows[..n] && D.Reaches(rule, at, f) {
      last := LastReachedExists(rule, flows[..n], at);
      if D.Reaches(rule, at, flows[n]) && flows[n].at > last.at {
        last := flows[n];
      }
    } else {
      last := flows[n];
    }
  }

  /** A sweep over the last movement of a window has loaded the window whole. */
  lemma WindowIsLoaded(
      rules: seq<FlowRule>, table: seq<Flow>, span: Span, r: FlowRule, parameters: D.Parameters, user: string,
      first: int, last: Flow, group: seq<Flow>)
    requires r in rules && user != "" && LastReached(RuleFor(r, parameters), Own(table, user), first, last)
      && InSpan(last, span)
    requires D.StructuringGroup(RuleFor(r, parameters), Own(table, user), group) && D.Earliest(group, first)
    ensures D.StructuringGroup(RuleFor(r, parameters), Own(Loaded(rules, table, span), user), group)
    ensures last in Own(Loaded(rules, table, span), user)
  {
    hide LoadCashFlows, WithKey, MaxWindowHours, LastReached;
    var rule := RuleFor(r, parameters);
    var own, loaded := Own(table, user), Own(Loaded(rules, table, span), user);
    var start :| start in group && start.at == first;
    forall f | f in group ensures D.Reaches(rule, first, f) && f in own {
      assert f in multiset(group);
      assert f in multiset(own);
    }
    LastIsThere(rule, own, first, last);
    LookBack(rules, span, r, first, last.at);
    assert last in multiset(own);
    forall f | f in group || f == last ensures multiset(loaded)[f] == multiset(own)[f] {
      OwnLoaded(rules, table, span, user, f);
    }
    assert multiset(loaded)[last] > 0;
    assert multiset(group) <= multiset(loaded);
  }

  lemma LastIsThere(rule: D.Rule, flows: seq<Flow>, at: int, last: Flow)
    requires LastReached(rule, flows, at, last)
    ensures last in flows && at <= last.at <= at + D.Span(rule)
    ensures forall f :: f in flows && D.Reaches(rule, at, f) ==> f.at <= last.at
  {
  }

  lemma LookBack(rules: seq<FlowRule>, span: Span, r: FlowRule, first: int, last: int)
    requires r in rules && span.start <= last <= first + r.windowHours * D.HOUR_MS
    ensures LoadFrom(rules, span) <= first
  {
    assert r.windowHours <= MaxWindowHours(rules);
  }

  /** Seen from such a sweep, the bucket starts where it starts in the whole table. */
  lemma FirstStartIsSeen(
      rules: seq<FlowRule>, table: seq<Flow>, span: Span, r: FlowRule, parameters: D.Parameters, user: string,
      bucket: int, first: int, last: Flow)
    requires r in rules && user != "" && D.FirstStart(RuleFor(r, parameters), Own(table, user), bucket, first)
    requires LastReached(RuleFor(r, parameters), Own(table, user), first, last) && InSpan(last, span)
    ensures FirstWindowTouches(RuleFor(r, parameters), Own(Loaded(rules, table, span), user), bucket, span)
  {
    hide D.StructuringGroup, D.Bucket, LoadCashFlows, WithKey, D.Reaches;
    var rule := RuleFor(r, parameters);
    var own, loaded := Own(table, user), Own(Loaded(rules, table, span), user);
    var group :| D.StructuringGroup(rule, own, group) && D.Earliest(group, first);
    WindowIsLoaded(rules, table, span, r, parameters, user, first, last, group);
    forall f ensures multiset(loaded)[f] <= multiset(own)[f] {
      OwnLoaded(rules, table, span, user, f);
    }
    forall t | D.QualifiesFrom(rule, loaded, t) ensures D.QualifiesFrom(rule, own, t) {
      SelectionsStay(rule, loaded, own, t);
    }
    assert D.FirstStart(rule, loaded, bucket, first);
  }

  /** The sweep over the last movement of a bucket's first window reports the bucket. */
  lemma FirstWindowIsReported(
      detect: Detector, rules: seq<FlowRule>, table: seq<Flow>, span: Span, r: FlowRule, parameters: D.Parameters,
      encode: D.DedupeKey -> string, user: string, bucket: int, first: int, last: Flow)
    returns (c: Candidate)
    requires Applied(detect, rules, r, parameters, encode) && GoodRows(table)
    requires user != "" && D.FirstStart(RuleFor(r, parameters), Own(table, user), bucket, first)
    requires LastReached(RuleFor(r, parameters), Own(table, user), first, last) && InSpan(last, span)
    ensures c in Candidates(detect, rules, table, span)
    ensures Raises(c, r, user, encode(KeyOf(RuleFor(r, parameters), user, bucket)))
  {
    hide CandidatesOf, FlowsByUser, FirstWindowTouches, D.FirstStart, LastReached, GoodRows, Own, Loaded;
    FirstStartIsSeen(rules, table, span, r, parameters, user, bucket, first, last);
    SweepReportsIff(detect, rules, table, span, r, parameters, encode, user, bucket);
    c :| c in Candidates(detect, rules, table, span)
        && Raises(c, r, user, encode(KeyOf(RuleFor(r, parameters), user, bucket)));
  }

  lemma QualifiesHere(rule: D.Rule, flows: seq<Flow>, group: seq<Flow>, at: int)
    requires D.StructuringGroup(rule, flows, group) && D.Earliest(group, at)
    ensures D.QualifiesFrom(rule, flows, at)
  {
  }

  lemma StartIsReached(rule: D.Rule, flows: seq<Flow>, at: int) returns (f: Flow)
    requires D.QualifiesFrom(rule, flows, at)
    ensures f in flows && D.Reaches(rule, at, f)
  {
    var group: seq<Flow> :| D.StructuringGroup(rule, flows, group) && D.Earliest(group, at);
    f :| f in group && f.at == at;
    assert f in multiset(group);
    assert f in multiset(flows);
  }

  /** A qualifying selection gives its bucket a first start, at its own earliest movement or before. */
  lemma BucketHasFirstStart(rule: D.Rule, flows: seq<Flow>, user: string, group: seq<Flow>, at: int)
    returns (first: int, last: Flow)
    requires D.NonNegative(flows) && OneUser(flows, user) && D.StructuringGroup(rule, flows, group)
      && D.Earliest(group, at)
    ensures first <= at && D.FirstStart(rule, flows, D.Bucket(rule, at), first) && LastReached(rule, flows, first, last)
  {
    hide D.Detect, D.Bucket, D.StructuringGroup, D.Reaches, D.Earliest, D.QualifiesFrom, LastReached;
    QualifiesHere(rule, flows, group, at);
    var m := GroupIsMatched(rule, flows, user, group, at);
    first := D.BucketReports(rule, flows, user, m);
    var f := StartIsReached(rule, flows, first);
    last := LastReachedExists(rule, flows, first);
  }

  /**
   No selection is missed for good: when the sweeps' windows leave no movement of the account out, one of them
   reports the bucket of the selection, whichever flows it is reported for.
   */
  lemma SweepsMissNone(
      detect: Detector, rules: seq<FlowRule>, table: seq<Flow>, spans: set<Span>, r: FlowRule, parameters: D.Parameters,
      encode: D.DedupeKey -> string, user: string, group: seq<Flow>, at: int)
    returns (span: Span, c: Candidate)
    requires Applied(detect, rules, r, parameters, encode) && GoodRows(table) && user != ""
    requires forall f :: f in Own(table, user) ==> exists s :: s in spans && InSpan(f, s)
    requires D.StructuringGroup(RuleFor(r, parameters), Own(table, user), group) && D.Earliest(group, at)
    ensures span in spans && c in Candidates(detect, rules, table, span)
    ensures var rule := RuleFor(r, parameters); Raises(c, r, user, encode(KeyOf(rule, user, D.Bucket(rule, at))))
  {
    hide D.StructuringGroup, D.FirstStart, D.Bucket, CandidatesOf, WithKey;
    var rule := RuleFor(r, parameters);
    OwnIsGood(table, Own(table, user), user);
    var first, last := BucketHasFirstStart(rule, Own(table, user), user, group, at);
    span :| span in spans && InSpan(last, span);
    c := FirstWindowIsReported(detect, rules, table, span, r, parameters, encode, user, D.Bucket(rule, at), first,
        last);
  }

  /** The threshold the sweep applies to a candidate of the rule is the rule's. */
  lemma {:induction false} ThresholdOf(rules: seq<FlowRule>, r: FlowRule)
    requires r in rules && forall q :: q in rules && q.id == r.id ==> q == r
    ensures r.id in Thresholds(rules) && Thresholds(rules)[r.id] == r.alertThresholdScore
  {
    if rules[0] != r {
      ThresholdOf(rules[1..], r);
    }
  }

  /** After a live sweep each of its candidates has an alert under its key, unless it scores below the threshold. */
  lemma CandidateHasAlert(
      detect: Detector, cfg: Settings, s: Store, rules: seq<FlowRule>, table: seq<Flow>, span: Span, r: FlowRule,
      c: Candidate)
    requires !cfg.dryRun && Inv(s.db) && UniqueDedupeKeys(s.db) && CountersFresh(s) && RulesStored(s.db, rules)
    requires r in rules && (forall q :: q in rules && q.id == r.id ==> q == r) && c.found.ruleId == r.id
    requires c in Candidates(detect, rules, table, span) && c.found.riskScore >= r.alertThresholdScore
    ensures KeyTaken(RunOf(detect, cfg, s, rules, table, span).store.db.alerts, c.found.dedupeKey)
  {
    hide CandidatesOf, FlowsByUser, LoadCashFlows, MaxWindowHours, Inv, Thresholds;
    var grouped := FlowsByUser(Loaded(rules, table, span));
    var cs := Candidates(detect, rules, table, span);
    var applied := cfg.(thresholds := Thresholds(rules));
    CandidatesAreKnown(detect, s.db, rules, grouped, span);
    ThresholdOf(rules, r);
    EveryFindingIsStored(applied, s, cs, Accounts(grouped), c);
  }

  /** End to end: a sweep in live mode stores an alert for the bucket of the selection, or scores it too low. */
  lemma SelectionIsAlerted(
      detect: Detector, cfg: Settings, s: Store, rules: seq<FlowRule>, table: seq<Flow>, spans: set<Span>, r: FlowRule,
      parameters: D.Parameters, encode: D.DedupeKey -> string, user: string, group: seq<Flow>, at: int)
    returns (span: Span, c: Candidate)
    requires Applied(detect, rules, r, parameters, encode) && GoodRows(table) && user != ""
    requires forall f :: f in Own(table, user) ==> exists w :: w in spans && InSpan(f, w)
    requires D.StructuringGroup(RuleFor(r, parameters), Own(table, user), group) && D.Earliest(group, at)
    requires !cfg.dryRun && Inv(s.db) && UniqueDedupeKeys(s.db) && CountersFresh(s) && RulesStored(s.db, rules)
    ensures span in spans && c in Candidates(detect, rules, table, span)
    ensures c.found.riskScore >= r.alertThresholdScore ==>
              KeyTaken(RunOf(detect, cfg, s, rules, table, span).store.db.alerts,
                       encode(KeyOf(RuleFor(r, parameters), user, D.Bucket(RuleFor(r, parameters), at))))
  {
    hide Candidates, Own, RunOf, Inv, D.StructuringGroup, D.Bucket, D.Earliest, RunsStructuring, GoodRows;
    span, c := SweepsMissNone(detect, rules, table, spans, r, parameters, encode, user, group, at);
    if c.found.riskScore >= r.alertThresholdScore {
      CandidateHasAlert(detect, cfg, s, rules, table, span, r, c);
    }
  }

  // ---- An example ----

  function Hour(k: nat): int {
    if k < 3 then 7 else if k < 6 then 23 else 35
  }

  function Inflow(k: nat): Flow
    requires k < 7
  {
    D.CashFlow([('1' as nat + k) as char], "u", D.In, 4000.0, Hour(k) * D.HOUR_MS, None)
  }

  /** Seven inflows of 4,000: three at hour 7, three at hour 23 and one at hour 35. */
  function Seven(): (s: seq<Flow>)
    ensures |s| == 7 && forall k :: 0 <= k < 7 ==> s[k] == Inflow(k)
  {
    seq(7, k requires 0 <= k < 7 => Inflow(k))
  }

  /** The defaults: three inflows of 9,500 or less that reach 10,000 within a day. */
  function DayRule(): D.Rule {
    D.Rule("STRUCT", 24, D.Parameters(None, None, None, None, None))
  }

  lemma SevenFlows()
    ensures GoodRows(Seven()) && OneUser(Seven(), "u")
    ensures forall f :: f in Seven() ==> D.Eligible(D.Structuring, DayRule(), f) && f.amountUsd == 4000.0
    ensures forall f :: f in Seven() ==> f.at in {7 * D.HOUR_MS, 23 * D.HOUR_MS, 35 * D.HOUR_MS}
  {
    hide Seven;
    forall f, g | f in Seven() && g in Seven() && f.id == g.id ensures f == g {
      var i :| 0 <= i < 7 && Seven()[i] == f;
      var j :| 0 <= j < 7 && Seven()[j] == g;
      assert Inflow(i).id[0] == Inflow(j).id[0];
    }
  }

  lemma {:induction false} SumOfEqual(s: seq<Flow>, amount: real)
    requires forall f :: f in s ==> f.amountUsd == amount
    ensures D.SumUsd(s) == |s| as real * amount
  {
    if s != [] {
      SumOfEqual(s[1..], amount);
    }
  }

  lemma SliceTimes(i: nat, j: nat, f: Flow)
    requires i < j <= 7 && Hour(j - 1) - Hour(i) <= 24 && f in Seven()[i..j]
    ensures f in Seven() && Hour(i) * D.HOUR_MS <= f.at <= (Hour(i) + 24) * D.HOUR_MS
  {
    hide Seven;
    var k :| 0 <= k < j - i && Seven()[i..j][k] == f;
    assert f == Inflow(i + k);
  }

  /** Three or more of the inflows, a day apart at most, qualify. */
  lemma SliceQualifies(i: nat, j: nat)
    requires i + 3 <= j <= 7 && Hour(j - 1) - Hour(i) <= 24
    ensures D.StructuringGroup(DayRule(), Seven(), Seven()[i..j]) && D.Earliest(Seven()[i..j], Hour(i) * D.HOUR_MS)
  {
    hide Seven, DayRule, Hour, D.Eligible, D.SumUsd, D.StructuringGroup;
    var g := Seven()[i..j];
    SevenFlows();
    forall f | f in g ensures f in Seven() && Hour(i) * D.HOUR_MS <= f.at <= (Hour(i) + 24) * D.HOUR_MS {
      SliceTimes(i, j, f);
    }
    SumOfEqual(g, 4000.0);
    SliceIsPart(Seven(), i, j);
    SliceIsGroup(g);
    assert g[0] == Inflow(i) && g[0] in g;
  }

  lemma SliceIsPart(s: seq<Flow>, i: nat, j: nat)
    requires i <= j <= |s|
    ensures multiset(s[i..j]) <= multiset(s)
  {
    assert s == s[..i] + s[i..j] + s[j..];
  }

  lemma SliceIsGroup(g: seq<Flow>)
    requires |g| >= 3 && multiset(g) <= multiset(Seven()) && D.SumUsd(g) >= 10_000.0
    requires forall f :: f in g ==> D.Eligible(D.Structuring, DayRule(), f)
    requires forall f, h :: f in g && h in g ==> f.at - h.at <= 24 * D.HOUR_MS
    ensures D.StructuringGroup(DayRule(), Seven(), g)
  {
    hide Seven, D.SumUsd;
  }

  lemma SevenStartAt7()
    ensures D.FirstStart(DayRule(), Seven(), 0, 7 * D.HOUR_MS)
  {
    hide Seven, DayRule, D.StructuringGroup, D.Earliest, D.Reaches, D.QualifiesFrom, D.Bucket;
    SliceQualifies(0, 3);
    QualifiesHere(DayRule(), Seven(), Seven()[0..3], 7 * D.HOUR_MS);
    SevenFlows();
    BucketsOfDay();
    forall t | D.QualifiesFrom(DayRule(), Seven(), t) ensures t >= 7 * D.HOUR_MS {
      var f := StartOf(t);
    }
  }

  lemma StartOf(t: int) returns (f: Flow)
    requires D.QualifiesFrom(DayRule(), Seven(), t)
    ensures f in Seven() && f.at == t
  {
    hide Seven, DayRule;
    var group: seq<Flow> :| D.StructuringGroup(DayRule(), Seven(), group) && D.Earliest(group, t);
    f :| f in group && f.at == t;
    assert f in multiset(group);
    assert f in multiset(Seven());
  }

  lemma BucketsOfDay()
    ensures D.Bucket(DayRule(), 7 * D.HOUR_MS) == 0 && D.Bucket(DayRule(), 23 * D.HOUR_MS) == 0
  {
  }

  /**
   The last four inflows qualify together and reach into a sweep of hours 30 to 54, but that sweep reports nothing
   for their bucket: the match it drops was made from the six inflows of hours 7 and 23.
   */
  lemma MissedByOneSweep()
    ensures var span := Span(30 * D.HOUR_MS, 54 * D.HOUR_MS);
      && D.StructuringGroup(DayRule(), Seven(), Seven()[3..7]) && D.Earliest(Seven()[3..7], 23 * D.HOUR_MS)
      && InSpan(Seven()[6], span) && D.Bucket(DayRule(), 23 * D.HOUR_MS) == 0
      && forall m :: !TouchingMatch(DayRule(), Seven(), KeyOf(DayRule(), "u", 0), span, m)
  {
    hide Seven, D.FirstStart, D.StructuringGroup, D.Earliest, TouchingMatch, D.Eligible, GoodRows;
    var span := Span(30 * D.HOUR_MS, 54 * D.HOUR_MS);
    SliceQualifies(3, 7);
    SevenStartAt7();
    SevenFlows();
    BucketsOfDay();
    assert Seven()[6] == Inflow(6);
    if FirstWindowTouches(DayRule(), Seven(), 0, span) {
      var at, f :| D.FirstStart(DayRule(), Seven(), 0, at) && f in Seven() && D.Reaches(DayRule(), at, f)
          && InSpan(f, span);
      FirstStartIsUnique(DayRule(), Seven(), 0, at, 7 * D.HOUR_MS);
    }
    TouchingMatchIff(DayRule(), Seven(), "u", 0, span);
  }
}

/**
 The sweep as the service runs it (backend/src/aml/transaction-monitoring.service.ts): cash flows are
 grouped by account, the rules evaluated over each account, and the findings stored one by one.
 */
module MonitoringService {
  import opened Collections
  import opened Options
  import opened OrderedMaps
  import opened Sorting
  import opened Buckets
  import opened AmlCases
  import opened AmlCaseProofs
  import opened AmlCaseRepositories
  import opened MonitoringSweep
  import D = Detectors

  type Flow = D.CashFlow

  datatype FlowRule = FlowRule(id: RuleId, code: string, alertThresholdScore: real, windowHours: int)

  datatype Detected = Detected(
    dedupeKey: string, severity: Severity, riskScore: real, amountUsd: real, flowIds: seq<string>)

  /** runDetector; its sliding-window patterns are the subject of Detectors. */
  type Detector = (FlowRule, seq<Flow>) -> seq<Detected>

  datatype Span = Span(start: int, end: int)

  // ---- Loading ----

  /** The longest window of the rules, a day at least. */
  function MaxWindowHours(rules: seq<FlowRule>): (hours: int)
    ensures hours >= 24
    ensures forall r :: r in rules ==> r.windowHours <= hours
  {
    if rules == [] then 24
    else
      assert rules == rules[..|rules| - 1] + [rules[|rules| - 1]];
      Max(MaxWindowHours(rules[..|rules| - 1]), rules[|rules| - 1].windowHours)
  }

  /** The rows of the three tables in an interval, less those without an account. */
  function LoadCashFlows(table: seq<Flow>, from: int, to: int): (r: seq<Flow>)
    ensures forall f :: f in r <==> f in table && from <= f.at <= to && f.userId != ""
  {
    if table == [] then []
    else
      assert table == table[..|table| - 1] + [table[|table| - 1]];
      var last := table[|table| - 1];
      LoadCashFlows(table[..|table| - 1], from, to) + if from <= last.at <= to && last.userId != "" then [last] else []
  }

  function LoadFrom(rules: seq<FlowRule>, span: Span): int {
    span.start - MaxWindowHours(rules) * D.HOUR_MS
  }

  /** History reaches back far enough that a window of any rule ending in the sweep's window is seen whole. */
  lemma HistoryIsLoaded(table: seq<Flow>, rules: seq<FlowRule>, span: Span, r: FlowRule, first: Flow, last: Flow)
    requires r in rules && first in table && last in table && first.userId != "" && last.userId != ""
    requires InSpan(last, span) && first.at <= last.at && last.at - first.at <= r.windowHours * D.HOUR_MS
    ensures var flows := LoadCashFlows(table, LoadFrom(rules, span), span.end); first in flows && last in flows
  {
    assert r.windowHours * D.HOUR_MS <= MaxWindowHours(rules) * D.HOUR_MS;
  }

  // ---- Grouping ----

  function UserOf(): Flow -> string {
    (f: Flow) => f.userId
  }

  function SortBuckets(groups: seq<(string, seq<Flow>)>): (r: seq<(string, seq<Flow>)>)
    ensures |r| == |groups|
    ensures forall i :: 0 <= i < |r| ==> r[i] == (groups[i].0, Sort(groups[i].1, D.ByTime))
  {
    seq(|groups|, i requires 0 <= i < |groups| => (groups[i].0, Sort(groups[i].1, D.ByTime)))
  }

  function FlowsByUser(flows: seq<Flow>): seq<(string, seq<Flow>)> {
    SortBuckets(GroupBy(flows, UserOf()))
  }

  method GroupByUser(flows: seq<Flow>) returns (grouped: seq<(string, seq<Flow>)>)
    ensures grouped == FlowsByUser(flows)
  {
    grouped := [];
    for i := 0 to |flows|
      invariant grouped == GroupBy(flows[..i], UserOf())
    {
      assert flows[..i + 1][..i] == flows[..i];
      grouped := Put(grouped, flows[i].userId, flows[i]);
    }
    assert flows[..|flows|] == flows;
    ghost var groups := grouped;
    for j := 0 to |grouped|
      invariant |grouped| == |groups|
      invariant forall k :: 0 <= k < |groups| ==> grouped[k] == if k < j then SortBuckets(groups)[k] else groups[k]
    {
      grouped := grouped[j := (grouped[j].0, Sort(grouped[j].1, D.ByTime))];
    }
    assert grouped == SortBuckets(groups);
  }

  ghost predicate AccountsOf(grouped: seq<(string, seq<Flow>)>, flows: seq<Flow>) {
    && (forall i, j :: 0 <= i < j < |grouped| ==> grouped[i].0 != grouped[j].0)
    && (forall i :: 0 <= i < |grouped| ==> AccountOf(grouped[i], flows))
    && (forall f :: f in flows ==> exists i :: 0 <= i < |grouped| && grouped[i].0 == f.userId)
  }

  ghost predicate AccountOf(account: (string, seq<Flow>), flows: seq<Flow>) {
    && Sorted(account.1, D.ByTime)
    && multiset(account.1) == multiset(WithKey(flows, UserOf(), account.0))
  }

  lemma AccountIsSorted(flows: seq<Flow>, i: nat)
    requires i < |FlowsByUser(flows)|
    ensures AccountOf(FlowsByUser(flows)[i], flows)
  {
    hide Sort, GroupBy, WithKey;
    var groups := GroupBy(flows, UserOf());
    GroupsPartition(flows, UserOf(), groups[i].0);
    GetAt(groups, i);
    SortSorted(groups[i].1, D.ByTime);
  }

  lemma AccountOfFlow(flows: seq<Flow>, f: Flow) returns (i: nat)
    requires f in flows
    ensures i < |FlowsByUser(flows)| && FlowsByUser(flows)[i].0 == f.userId
  {
    hide Sort, GroupBy, WithKey;
    var groups := GroupBy(flows, UserOf());
    GroupsPartition(flows, UserOf(), f.userId);
    WithKeyElements(flows, UserOf(), f.userId, f);
    GetHolds(groups, f.userId);
    i :| 0 <= i < |groups| && groups[i] == (f.userId, Bucket(groups, f.userId));
  }

  /** Each account appears once, with exactly its own flows in time order. */
  lemma FlowsAreSplitByAccount(flows: seq<Flow>)
    ensures AccountsOf(FlowsByUser(flows), flows)
  {
    hide GroupBy, AccountOf, Sort;
    GroupsPartition(flows, UserOf(), "");
    forall i | 0 <= i < |FlowsByUser(flows)| ensures AccountOf(FlowsByUser(flows)[i], flows) {
      AccountIsSorted(flows, i);
    }
    forall f | f in flows ensures exists i :: 0 <= i < |FlowsByUser(flows)| && FlowsByUser(flows)[i].0 == f.userId {
      var i := AccountOfFlow(flows, f);
    }
  }

  // ---- Evaluating the rules ----

  predicate InSpan(f: Flow, span: Span) {
    span.start <= f.at <= span.end
  }

  /** Some movement behind the finding lies inside the sweep's window. */
  predicate Touches(d: Detected, flows: seq<Flow>, span: Span) {
    exists f :: f in flows && InSpan(f, span) && f.id in d.flowIds
  }

  function CandidateOf(rule: FlowRule, user: string, d: Detected): Candidate {
    Candidate(Match(d.dedupeKey, rule.id, rule.code, d.severity, d.riskScore, d.amountUsd), user)
  }

  function OfFindings(rule: FlowRule, account: (string, seq<Flow>), found: seq<Detected>, span: Span): seq<Candidate> {
    if found == [] then []
    else
      var last := found[|found| - 1];
      OfFindings(rule, account, found[..|found| - 1], span)
      + if Touches(last, account.1, span) then [CandidateOf(rule, account.0, last)] else []
  }

  function OfRules(detect: Detector, rules: seq<FlowRule>, account: (string, seq<Flow>), span: Span): seq<Candidate> {
    if rules == [] then []
    else
      var last := rules[|rules| - 1];
      OfRules(detect, rules[..|rules| - 1], account, span) + OfFindings(last, account, detect(last, account.1), span)
  }

  function CandidatesOf(
      detect: Detector, rules: seq<FlowRule>, grouped: seq<(string, seq<Flow>)>, span: Span): seq<Candidate> {
    if grouped == [] then []
    else
      CandidatesOf(detect, rules, grouped[..|grouped| - 1], span) + OfRules(detect, rules, grouped[|grouped| - 1], span)
  }

  lemma {:induction false} QuietFindings(rule: FlowRule, account: (string, seq<Flow>), found: seq<Detected>, span: Span)
    requires forall f :: f in account.1 ==> !InSpan(f, span)
    ensures OfFindings(rule, account, found, span) == []
  {
    if found != [] {
      QuietFindings(rule, account, found[..|found| - 1], span);
    }
  }

  /** An account without a movement in the window yields nothing, so skipping it is safe. */
  lemma {:induction false} QuietAccount(
      detect: Detector, rules: seq<FlowRule>, account: (string, seq<Flow>), span: Span)
    requires forall f :: f in account.1 ==> !InSpan(f, span)
    ensures OfRules(detect, rules, account, span) == []
  {
    if rules != [] {
      var last := rules[|rules| - 1];
      QuietAccount(detect, rules[..|rules| - 1], account, span);
      QuietFindings(last, account, detect(last, account.1), span);
    }
  }

  method Evaluate(detect: Detector, rules: seq<FlowRule>, grouped: seq<(string, seq<Flow>)>, span: Span)
    returns (candidates: seq<Candidate>)
    ensures candidates == CandidatesOf(detect, rules, grouped, span)
  {
    hide OfRules, InSpan;
    candidates := [];
    for g := 0 to |grouped|
      invariant candidates == CandidatesOf(detect, rules, grouped[..g], span)
    {
      assert grouped[..g + 1][..g] == grouped[..g];
      var account := grouped[g];
      if forall f :: f in account.1 ==> !InSpan(f, span) {
        QuietAccount(detect, rules, account, span);
        continue;
      }
      var found := EvaluateAccount(detect, rules, account, span);
      candidates := candidates + found;
    }
    assert grouped[..|grouped|] == grouped;
  }

  method EvaluateAccount(detect: Detector, rules: seq<FlowRule>, account: (string, seq<Flow>), span: Span)
    returns (candidates: seq<Candidate>)
    ensures candidates == OfRules(detect, rules, account, span)
  {
    hide Touches, CandidateOf;
    candidates := [];
    for r := 0 to |rules|
      invariant candidates == OfRules(detect, rules[..r], account, span)
    {
      assert rules[..r + 1][..r] == rules[..r];
      var detected := detect(rules[r], account.1);
      ghost var sofar := candidates;
      for k := 0 to |detected|
        invariant candidates == sofar + OfFindings(rules[r], account, detected[..k], span)
      {
        assert detected[..k + 1][..k] == detected[..k];
        if !Touches(detected[k], account.1, span) {
          continue;
        }
        candidates := candidates + [CandidateOf(rules[r], account.0, detected[k])];
      }
      assert detected[..|detected|] == detected;
    }
    assert rules[..|rules|] == rules;
  }

  /** c is finding d of the rule for the account, column by column, and a movement behind it is inside the window. */
  ghost predicate Reported(
      detect: Detector, rule: FlowRule, account: (string, seq<Flow>), d: Detected, span: Span, c: Candidate) {
    && d in detect(rule, account.1)
    && (exists f :: f in account.1 && span.start <= f.at <= span.end && f.id in d.flowIds)
    && c.userId == account.0 && c.found.dedupeKey == d.dedupeKey && c.found.ruleId == rule.id
    && c.found.ruleCode == rule.code && c.found.severity == d.severity && c.found.riskScore == d.riskScore
    && c.found.amountUsd == d.amountUsd
  }

  lemma ReportedIs(
      detect: Detector, rule: FlowRule, account: (string, seq<Flow>), d: Detected, span: Span, c: Candidate)
    ensures Reported(detect, rule, account, d, span, c) <==>
            d in detect(rule, account.1) && Touches(d, account.1, span) && c == CandidateOf(rule, account.0, d)
  {
    if f :| f in account.1 && span.start <= f.at <= span.end && f.id in d.flowIds {
      assert InSpan(f, span);
    }
  }

  lemma {:induction false} OfFindingsHolds(
      rule: FlowRule, account: (string, seq<Flow>), found: seq<Detected>, span: Span, c: Candidate)
    ensures c in OfFindings(rule, account, found, span) <==>
            exists d :: d in found && Touches(d, account.1, span) && c == CandidateOf(rule, account.0, d)
  {
    if found != [] {
      var n := |found| - 1;
      OfFindingsHolds(rule, account, found[..n], span, c);
      assert found == found[..n] + [found[n]];
    }
  }

  lemma {:induction false} OfRulesHolds(
      detect: Detector, rules: seq<FlowRule>, account: (string, seq<Flow>), span: Span, c: Candidate)
    ensures c in OfRules(detect, rules, account, span)
      <==> exists r, d :: r in rules && Reported(detect, r, account, d, span, c)
  {
    if rules != [] {
      var n := |rules| - 1;
      OfRulesHolds(detect, rules[..n], account, span, c);
      OfFindingsHolds(rules[n], account, detect(rules[n], account.1), span, c);
      assert rules == rules[..n] + [rules[n]];
      forall d ensures Reported(detect, rules[n], account, d, span, c) <==>
                       d in detect(rules[n], account.1) && Touches(d, account.1, span)
                           && c == CandidateOf(rules[n], account.0, d) {
        ReportedIs(detect, rules[n], account, d, span, c);
      }
      if c in OfFindings(rules[n], account, detect(rules[n], account.1), span) {
        var d :| d in detect(rules[n], account.1) && Touches(d, account.1, span)
            && c == CandidateOf(rules[n], account.0, d);
        assert Reported(detect, rules[n], account, d, span, c);
      }
    }
  }

  /** A finding is a candidate exactly when a rule made it for an account and it touches the window. */
  lemma {:induction false} CandidatesAre(
      detect: Detector, rules: seq<FlowRule>, grouped: seq<(string, seq<Flow>)>, span: Span, c: Candidate)
    ensures c in CandidatesOf(detect, rules, grouped, span) <==>
            exists a, r, d :: a in grouped && r in rules && Reported(detect, r, a, d, span, c)
  {
    if grouped != [] {
      var n := |grouped| - 1;
      CandidatesAre(detect, rules, grouped[..n], span, c);
      OfRulesHolds(detect, rules, grouped[n], span, c);
      assert grouped == grouped[..n] + [grouped[n]];
    }
  }

  // ---- The sweep ----

  /** The threshold of the first rule with each id, as rules.find sees it. */
  function Thresholds(rules: seq<FlowRule>): map<RuleId, real> {
    if rules == [] then map[] else Thresholds(rules[1..])[rules[0].id := rules[0].alertThresholdScore]
  }

  function Accounts(grouped: seq<(string, seq<Flow>)>): set<string> {
    set a | a in grouped :: a.0
  }

  /** table stands for the rows the flows are loaded from. */
  function RunOf(
      detect: Detector, cfg: Settings, s: Store, rules: seq<FlowRule>, table: seq<Flow>, span: Span): Progress {
    var grouped := FlowsByUser(LoadCashFlows(table, LoadFrom(rules, span), span.end));
    Sweep(cfg.(thresholds := Thresholds(rules)), s, CandidatesOf(detect, rules, grouped, span), Accounts(grouped))
  }

  class TransactionMonitoringService {
    const caseService: AmlCaseService
    var nextAlert: AlertId
    var nextCase: CaseId

    constructor (caseService: AmlCaseService, nextAlert: AlertId, nextCase: CaseId)
      ensures this.caseService == caseService && View() == Store(caseService.View(), nextAlert, nextCase)
    {
      this.caseService, this.nextAlert, this.nextCase := caseService, nextAlert, nextCase;
    }

    function View(): Store
      reads this, caseService
    {
      Store(caseService.View(), nextAlert, nextCase)
    }

    /** Saves the alert and opens its case when the score asks for one and none is open. */
    method StoreFinding(cfg: Settings, c: Candidate, codes: set<string>) returns (caseOpened: bool)
      requires CountersFresh(View())
      modifies this, caseService
      ensures CountersFresh(View())
      ensures caseOpened == (c.found.riskScore >= cfg.autoCaseScore && c.found.ruleCode !in codes)
      ensures var inserted := MonitoringSweep.Insert(old(View()), c);
              View() == if caseOpened then OpenFor(cfg, inserted, old(nextAlert), c.userId) else inserted
    {
      var alert := nextAlert;
      caseService.alerts := caseService.alerts[alert := AlertFor(c)];
      nextAlert := nextAlert + 1;
      ghost var inserted := View();
      assert inserted == MonitoringSweep.Insert(old(View()), c);
      caseOpened := c.found.riskScore >= cfg.autoCaseScore && c.found.ruleCode !in codes;
      if caseOpened {
        OpenForSucceeds(cfg, inserted, alert, c.userId);
        OpenForEffect(cfg, inserted, alert, c.userId);
        CaseOpenedKeepsKeys(inserted, OpenFor(cfg, inserted, alert, c.userId), alert);
        var error := caseService.OpenCase(nextCase, cfg.year, [alert], Some(c.userId), None, None);
        nextCase := nextCase + 1;
      }
    }

    /** One turn of the sweep's loop over the candidates. */
    method Handle(cfg: Settings, c: Candidate, seen: set<string>, openCases: map<string, set<string>>, tally: Tally)
      returns (seen': set<string>, openCases': map<string, set<string>>, tally': Tally)
      requires CountersFresh(View())
      modifies this, caseService
      ensures CountersFresh(View())
      ensures Progress(View(), seen', openCases', tally') == Step(cfg, Progress(old(View()), seen, openCases, tally), c)
    {
      hide MonitoringSweep.OpenFor, MonitoringSweep.Insert, MonitoringSweep.CountersFresh, AmlCaseService.View;
      seen', openCases', tally' := seen, openCases, tally;
      if c.found.dedupeKey in seen {
        tally' := tally.(duplicate := tally.duplicate + 1);
        return;
      }
      if c.found.ruleId in cfg.thresholds && c.found.riskScore < cfg.thresholds[c.found.ruleId] {
        tally' := tally.(below := tally.below + 1);
        return;
      }
      seen' := seen + {c.found.dedupeKey};
      if cfg.dryRun {
        tally' := tally.(raised := tally.raised + 1);
        return;
      }
      var caseOpened := StoreFinding(cfg, c, Codes(openCases, c.userId));
      tally' := tally.(raised := tally.raised + 1);
      if caseOpened {
        tally' := tally'.(casesOpened := tally.casesOpened + [(c.userId, c.found.ruleCode)]);
        openCases' := openCases[c.userId := Codes(openCases, c.userId) + {c.found.ruleCode}];
      }
    }

    method StoreFindings(cfg: Settings, candidates: seq<Candidate>, users: set<string>) returns (tally: Tally)
      requires CountersFresh(View())
      modifies this, caseService
      ensures CountersFresh(View())
      ensures var q := Sweep(cfg, old(View()), candidates, users); View() == q.store && tally == q.tally
    {
      var seen := FindExistingKeys(caseService.View(), candidates);
      var openCases := OpenCaseRuleCodes(caseService.View(), users);
      tally := Tally(0, 0, 0, []);
      ghost var p := Start(View(), candidates, users);
      for i := 0 to |candidates|
        invariant CountersFresh(View())
        invariant Progress(View(), seen, openCases, tally) == Fold(cfg, p, candidates[..i])
      {
        assert candidates[..i + 1][..i] == candidates[..i];
        seen, openCases, tally := Handle(cfg, candidates[i], seen, openCases, tally);
      }
      assert candidates[..|candidates|] == candidates;
    }

    /** None stands for a skipped run. */
    method RunSweep(detect: Detector, enabled: bool, cfg: Settings, rules: seq<FlowRule>, table: seq<Flow>, span: Span)
      returns (result: Option<Tally>)
      requires CountersFresh(View())
      modifies this, caseService
      ensures CountersFresh(View())
      ensures !enabled ==> result == None && View() == old(View())
      ensures enabled ==> var q := RunOf(detect, cfg, old(View()), rules, table, span);
        View() == q.store && result == Some(q.tally)
    {
      hide Sweep, CandidatesOf, FlowsByUser, LoadCashFlows, MaxWindowHours, Thresholds, Accounts, CountersFresh;
      if !enabled {
        return None;
      }
      var loadFrom := span.start - MaxWindowHours(rules) * D.HOUR_MS;
      var flows := LoadCashFlows(table, loadFrom, span.end);
      var grouped := GroupByUser(flows);
      var candidates := Evaluate(detect, rules, grouped, span);
      var tally := StoreFindings(cfg.(thresholds := Thresholds(rules)), candidates, Accounts(grouped));
      result := Some(tally);
    }
  }

  // ---- What a run guarantees ----

  ghost predicate RulesStored(db: State, rules: seq<FlowRule>) {
    forall r :: r in rules ==> r.id in db.rules
  }

  /** Candidates come from stored rules and loaded accounts. */
  lemma CandidatesAreKnown(
      detect: Detector, db: State, rules: seq<FlowRule>, grouped: seq<(string, seq<Flow>)>, span: Span)
    requires RulesStored(db, rules)
    ensures var cs := CandidatesOf(detect, rules, grouped, span); KnownRules(db, cs) && Users(cs) <= Accounts(grouped)
  {
    var cs := CandidatesOf(detect, rules, grouped, span);
    forall c | c in cs ensures c.found.ruleId in db.rules && c.userId in Accounts(grouped) {
      CandidatesAre(detect, rules, grouped, span, c);
    }
  }

  /**
   Whatever the detectors find, a live run keeps the case workflow's invariant and one alert per key,
   opens at most one case per account and rule, and running it again changes nothing.
   */
  lemma LiveRunIsSafe(detect: Detector, cfg: Settings, s: Store, rules: seq<FlowRule>, table: seq<Flow>, span: Span)
    requires !cfg.dryRun && Inv(s.db) && UniqueDedupeKeys(s.db) && CountersFresh(s) && RulesStored(s.db, rules)
    ensures var q := RunOf(detect, cfg, s, rules, table, span);
            && Inv(q.store.db) && UniqueDedupeKeys(q.store.db) && Distinct(q.tally.casesOpened)
            && (forall o :: o in q.tally.casesOpened ==> o.1 !in OpenCodes(s.db, o.0))
            && RunOf(detect, cfg, q.store, rules, table, span).store == q.store
            && RunOf(detect, cfg, q.store, rules, table, span).tally.raised == 0
  {
    var grouped := FlowsByUser(LoadCashFlows(table, LoadFrom(rules, span), span.end));
    var cs := CandidatesOf(detect, rules, grouped, span);
    var applied := cfg.(thresholds := Thresholds(rules));
    CandidatesAreKnown(detect, s.db, rules, grouped, span);
    SweepKeepsStore(applied, s, cs, Accounts(grouped));
    AtMostOneCaseEach(applied, s, cs, Accounts(grouped));
    OpenedForCandidates(applied, Start(s, cs, Accounts(grouped)), cs);
    SecondSweepRaisesNothing(applied, s, cs, Accounts(grouped));
  }
}

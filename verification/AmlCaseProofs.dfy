/**
 What every run of the case workflow keeps: the links between alerts and cases, scores, counters,
 case numbers, and what never comes back.
 */
module AmlCaseProofs {
  import opened Collections
  import opened Options
  import opened Sorting
  import opened Sums
  import opened AmlCases

  // ---- Counting feedback ----

  function RuleFeedback(feedback: seq<Feedback>, r: RuleId, falsePositive: bool): nat {
    if feedback == [] then 0
    else
      var last := feedback[|feedback| - 1];
      RuleFeedback(feedback[..|feedback| - 1], r, falsePositive)
      + if last.ruleId == Some(r) && (last.disposition == FalsePositive) == falsePositive then 1 else 0
  }

  function AlertFeedback(feedback: seq<Feedback>, a: AlertId): nat {
    if feedback == [] then 0
    else AlertFeedback(feedback[..|feedback| - 1], a) + if feedback[|feedback| - 1].alertId == Some(a) then 1 else 0
  }

  /** The rule its feedback history calls for. */
  function RuleFrom(feedback: seq<Feedback>, r: RuleId): Rule {
    var fp, tp := RuleFeedback(feedback, r, true), RuleFeedback(feedback, r, false);
    Rule(fp, tp, SensitivityFromDisposition(fp, tp))
  }

  // ---- The invariant ----

  ghost predicate Members(st: State, c: CaseId)
    requires c in st.cases
  {
    Distinct(st.cases[c].alertIds) && forall a :: a in st.cases[c].alertIds ==>
        a in st.alerts && st.alerts[a].caseId == Some(c)
  }

  ghost predicate Scored(st: State, c: CaseId)
    requires c in st.cases && Members(st, c)
  {
    st.cases[c].riskScore == MaxRisk(st.alerts, st.cases[c].alertIds, 0.0)
  }

  ghost predicate CasesOk(st: State) {
    forall c :: c in st.cases ==> Members(st, c) && Scored(st, c)
  }

  ghost predicate AlertsOk(st: State) {
    forall a :: a in st.alerts && st.alerts[a].caseId.Some? ==>
      st.alerts[a].caseId.value in st.cases && a in st.cases[st.alerts[a].caseId.value].alertIds
  }

  ghost predicate NumbersOk(st: State) {
    && (forall c :: c in st.cases ==>
       1 <= st.cases[c].number.sequence <= |CasesOfYear(st.cases, st.cases[c].number.year)|)
    && (forall c, d :: c in st.cases && d in st.cases && c != d ==> st.cases[c].number != st.cases[d].number)
  }

  ghost predicate RulesOk(st: State) {
    forall r :: r in st.rules ==> st.rules[r] == RuleFrom(st.feedback, r)
  }

  /** An alert has one feedback row once it is reviewed and none before. */
  ghost predicate ReviewsOk(st: State) {
    && (forall a :: a in st.alerts ==> AlertFeedback(st.feedback, a) == if st.alerts[a].reviewed then 1 else 0)
    && (forall f :: f in st.feedback && f.alertId.Some? ==> f.alertId.value in st.alerts)
  }

  ghost predicate RuleRefsOk(st: State) {
    && (forall f :: f in st.feedback && f.ruleId.Some? ==> f.ruleId.value in st.rules)
    && (forall a :: a in st.alerts && st.alerts[a].ruleId.Some? ==> st.alerts[a].ruleId.value in st.rules)
  }

  ghost predicate Inv(st: State) {
    CasesOk(st) && AlertsOk(st) && NumbersOk(st) && FeedbackOk(st)
  }

  // ---- Runs ----

  datatype Op =
    | AddRule(rule: RuleId)
    | RaiseAlert(id: AlertId, alert: Alert)
    | Create(newId: CaseId, year: int, ids: seq<AlertId>, subject: Option<string>, priority: Option<Severity>,
        actor: Option<string>)
    | Attach(caseId: CaseId, ids: seq<AlertId>, actor: Option<string>)
    | Update(caseId: CaseId, update: CaseUpdate, actor: Option<string>)
    | Close(caseId: CaseId, disposition: Disposition, notes: Option<string>, actor: Option<string>)
    | Triage(id: AlertId, disposition: Disposition)

  /** A new alert is pending and in no case; the database checks its rule reference and its unique key. */
  predicate Insertable(st: State, id: AlertId, alert: Alert) {
    && id !in st.alerts && (alert.ruleId.Some? ==> alert.ruleId.value in st.rules)
       && !KeyTaken(st.alerts, alert.dedupeKey)
    && alert.status == Pending && alert.caseId.None? && !alert.reviewed
  }

  function Apply(st: State, op: Op): State {
    match op
    case AddRule(r) => if r in st.rules then st else st.(rules := st.rules[r := Rule(0, 0, 1.0)])
    case RaiseAlert(id, alert) => if Insertable(st, id, alert) then st.(alerts := st.alerts[id := alert]) else st
    case Create(id, year, ids, subject, priority, actor) =>
      if id in st.cases then st else After(st, CreateCase(st, id, year, ids, subject, priority, actor))
    case Attach(c, ids, actor) => After(st, AttachAlerts(st, c, ids, actor))
    case Update(c, u, actor) => After(st, UpdateCase(st, c, u, actor))
    case Close(c, d, notes, actor) => After(st, CloseCase(st, c, d, notes, actor))
    case Triage(id, d) => After(st, TriageAlert(st, id, d))
  }

  function Run(st: State, ops: seq<Op>): State
    decreases |ops|
  {
    if ops == [] then st else Run(Apply(st, ops[0]), ops[1..])
  }

  function Init(): State {
    State(map[], map[], map[], [])
  }

  // ---- Scores ----

  /** MaxRisk is a maximum: reached, and not exceeded. */
  lemma {:induction false} MaxRiskIsMaximum(alerts: map<AlertId, Alert>, ids: seq<AlertId>, start: real)
    requires forall a :: a in ids ==> a in alerts
    ensures var m := MaxRisk(alerts, ids, start);
      && m >= start && (forall a :: a in ids ==> alerts[a].riskScore <= m)
      && (m == start || exists a :: a in ids && alerts[a].riskScore == m)
  {
    if ids != [] {
      var n := |ids| - 1;
      MaxRiskIsMaximum(alerts, ids[..n], start);
      assert ids == ids[..n] + [ids[n]];
      assert ids[n] in ids;
      assert forall a :: a in ids[..n] ==> a in ids;
    }
  }

  lemma {:induction false} MaxRiskSame(
      alerts: map<AlertId, Alert>, alerts': map<AlertId, Alert>, ids: seq<AlertId>, start: real)
    requires forall a :: a in ids ==> a in alerts && a in alerts' && alerts'[a].riskScore == alerts[a].riskScore
    ensures MaxRisk(alerts', ids, start) == MaxRisk(alerts, ids, start)
  {
    if ids != [] {
      MaxRiskSame(alerts, alerts', ids[..|ids| - 1], start);
    }
  }

  lemma {:induction false} KeepElements(s: seq<AlertId>, t: seq<AlertId>, present: bool)
    ensures forall a :: a in Keep(s, t, present) <==> a in s && (a in t) == present
    ensures Distinct(s) ==> Distinct(Keep(s, t, present))
  {
    if s != [] {
      KeepElements(s[1..], t, present);
      assert s == [s[0]] + s[1..];
      if Distinct(s) {
        assert Distinct(s[1..]) && s[0] !in s[1..];
      }
    }
  }

  /** Attaching folds the new scores in, repeated alerts or not. */
  lemma MaxRiskOfAttached(alerts: map<AlertId, Alert>, old': seq<AlertId>, ids: seq<AlertId>)
    requires (forall a :: a in old' ==> a in alerts) && (forall a :: a in ids ==> a in alerts)
    ensures forall a :: a in old' + Keep(ids, old', false) ==> a in alerts
    ensures MaxRisk(alerts, old' + Keep(ids, old', false), 0.0) == MaxRisk(alerts, ids, MaxRisk(alerts, old', 0.0))
  {
    KeepElements(ids, old', false);
    var all := old' + Keep(ids, old', false);
    assert forall a :: a in all <==> a in old' || a in ids;
    MaxRiskIsMaximum(alerts, all, 0.0);
    MaxRiskIsMaximum(alerts, old', 0.0);
    MaxRiskIsMaximum(alerts, ids, MaxRisk(alerts, old', 0.0));
  }

  // ---- Links and scores ----

  /** A case none of whose alerts changed case or score is as sound as before. */
  lemma CaseCarriesOver(st: State, st': State, c: CaseId)
    requires c in st.cases && Members(st, c) && Scored(st, c) && c in st'.cases
    requires st'.cases[c].alertIds == st.cases[c].alertIds && st'.cases[c].riskScore == st.cases[c].riskScore
    requires forall a :: a in st.cases[c].alertIds ==>
      a in st'.alerts && st'.alerts[a].caseId == st.alerts[a].caseId
          && st'.alerts[a].riskScore == st.alerts[a].riskScore
    ensures Members(st', c) && Scored(st', c)
  {
    MaxRiskSame(st.alerts, st'.alerts, st.cases[c].alertIds, 0.0);
  }

  /**
   What creating a case and attaching to one have in common: k lists its old alerts and the ids, all free or its own.
   */
  ghost predicate Linkable(st: State, c: CaseId, k: Case, ids: seq<AlertId>) {
    && Distinct(k.alertIds)
    && (forall a :: a in k.alertIds <==> (c in st.cases && a in st.cases[c].alertIds) || a in ids)
    && (forall a :: a in k.alertIds ==>
       a in st.alerts && (st.alerts[a].caseId.Some? ==> st.alerts[a].caseId.value == c))
    && k.riskScore == MaxRisk(st.alerts, k.alertIds, 0.0)
  }

  lemma LinkedCase(st: State, c: CaseId, k: Case, ids: seq<AlertId>)
    requires CasesOk(st) && Linkable(st, c, k, ids)
    ensures var st' := WithLinks(WithCase(st, c, k), ids, c); Members(st', c) && Scored(st', c)
  {
    var st' := WithLinks(WithCase(st, c, k), ids, c);
    forall a | a in k.alertIds ensures a in st'.alerts && st'.alerts[a].caseId == Some(c) {
      if a !in ids {
        assert Members(st, c);
      }
    }
    MaxRiskSame(st.alerts, st'.alerts, k.alertIds, 0.0);
  }

  lemma LinkKeepsCases(st: State, c: CaseId, k: Case, ids: seq<AlertId>)
    requires CasesOk(st) && AlertsOk(st) && Linkable(st, c, k, ids)
    ensures var st' := WithLinks(WithCase(st, c, k), ids, c); CasesOk(st') && AlertsOk(st')
  {
    var st' := WithLinks(WithCase(st, c, k), ids, c);
    forall d | d in st'.cases ensures Members(st', d) && Scored(st', d) {
      if d == c {
        LinkedCase(st, c, k, ids);
      } else {
        assert Members(st, d);
        forall a | a in st.cases[d].alertIds ensures a !in ids {
          assert st.alerts[a].caseId == Some(d);
        }
        CaseCarriesOver(st, st', d);
      }
    }
    forall a | a in st'.alerts && st'.alerts[a].caseId.Some?
      ensures st'.alerts[a].caseId.value in st'.cases && a in st'.cases[st'.alerts[a].caseId.value].alertIds
    {
      if a !in ids {
        assert st'.alerts[a] == st.alerts[a];
      }
    }
  }

  /** Alerts may be reviewed and restated, feedback and rules may change: links and scores stay. */
  lemma SameLinks(st: State, st': State)
    requires CasesOk(st) && AlertsOk(st) && st'.cases.Keys == st.cases.Keys
    requires forall c :: c in st.cases ==>
      st'.cases[c].alertIds == st.cases[c].alertIds && st'.cases[c].riskScore == st.cases[c].riskScore
    requires forall a :: a in st.alerts ==>
      a in st'.alerts && st'.alerts[a].caseId == st.alerts[a].caseId
          && st'.alerts[a].riskScore == st.alerts[a].riskScore
    requires forall a :: a in st'.alerts && a !in st.alerts ==> st'.alerts[a].caseId.None?
    ensures CasesOk(st') && AlertsOk(st')
  {
    forall c | c in st'.cases ensures Members(st', c) && Scored(st', c) {
      assert Members(st, c);
      CaseCarriesOver(st, st', c);
    }
  }

  // ---- Case numbers ----

  lemma SameNumbers(st: State, st': State)
    requires NumbersOk(st) && st'.cases.Keys == st.cases.Keys
    requires forall c :: c in st.cases ==> st'.cases[c].number == st.cases[c].number
    ensures NumbersOk(st')
  {
    forall c | c in st'.cases
      ensures 1 <= st'.cases[c].number.sequence <= |CasesOfYear(st'.cases, st'.cases[c].number.year)|
    {
      assert CasesOfYear(st'.cases, st'.cases[c].number.year) == CasesOfYear(st.cases, st.cases[c].number.year);
    }
  }

  lemma YearGrows(cases: map<CaseId, Case>, c: CaseId, k: Case, year: int)
    requires c !in cases
    ensures |CasesOfYear(cases[c := k], year)| == |CasesOfYear(cases, year)| + if k.number.year == year then 1 else 0
  {
    if k.number.year == year {
      assert CasesOfYear(cases[c := k], year) == CasesOfYear(cases, year) + {c};
    } else {
      assert CasesOfYear(cases[c := k], year) == CasesOfYear(cases, year);
    }
  }

  lemma NewNumber(st: State, c: CaseId, k: Case)
    requires NumbersOk(st) && c !in st.cases && k.number == NextNumber(st.cases, k.number.year)
    ensures NumbersOk(WithCase(st, c, k))
  {
    var cases' := st.cases[c := k];
    forall d | d in cases'
      ensures 1 <= cases'[d].number.sequence <= |CasesOfYear(cases', cases'[d].number.year)|
      ensures d != c ==> cases'[d].number != k.number
    {
      YearGrows(st.cases, c, k, cases'[d].number.year);
    }
  }

  // ---- Feedback and rules ----

  ghost predicate FeedbackOk(st: State) {
    RulesOk(st) && ReviewsOk(st) && RuleRefsOk(st)
  }

  lemma FeedbackCounts(feedback: seq<Feedback>, row: Feedback, r: RuleId, falsePositive: bool, a: AlertId)
    ensures RuleFeedback(feedback + [row], r, falsePositive) == RuleFeedback(feedback, r, falsePositive)
            + (if row.ruleId == Some(r) && (row.disposition == FalsePositive) == falsePositive then 1 else 0)
    ensures AlertFeedback(feedback + [row], a) == AlertFeedback(feedback, a) + (if row.alertId == Some(a) then 1 else 0)
  {
    assert (feedback + [row])[..|feedback|] == feedback;
  }

  lemma FeedbackKeepsRules(st: State, row: Feedback)
    requires RulesOk(st) && RuleRefsOk(st) && (row.ruleId.Some? ==> row.ruleId.value in st.rules)
    ensures RulesOk(RecordFeedback(st, row)) && RuleRefsOk(RecordFeedback(st, row))
  {
    var st' := RecordFeedback(st, row);
    forall r | r in st'.rules ensures st'.rules[r] == RuleFrom(st'.feedback, r) {
      FeedbackCounts(st.feedback, row, r, true, 0);
      FeedbackCounts(st.feedback, row, r, false, 0);
    }
  }

  lemma TriageKeepsFeedback(st: State, id: AlertId, d: Disposition)
    requires FeedbackOk(st) && id in st.alerts && !st.alerts[id].reviewed
    ensures FeedbackOk(RecordFeedback(WithReview(st, id, d), Feedback(Some(id), None, st.alerts[id].ruleId, d)))
  {
    hide RuleFrom, RuleFeedback, AlertFeedback, Tuned;
    var mid := WithReview(st, id, d);
    var row := Feedback(Some(id), None, st.alerts[id].ruleId, d);
    assert RulesOk(mid) && RuleRefsOk(mid);
    FeedbackKeepsRules(mid, row);
    var st' := RecordFeedback(mid, row);
    forall a | a in st'.alerts ensures AlertFeedback(st'.feedback, a) == if st'.alerts[a].reviewed then 1 else 0 {
      FeedbackCounts(st.feedback, row, 0, true, a);
    }
  }

  lemma CaseRowKeepsFeedback(st: State, row: Feedback)
    requires FeedbackOk(st) && row.alertId.None? && row.ruleId.None?
    ensures FeedbackOk(RecordFeedback(st, row))
  {
    FeedbackKeepsRules(st, row);
    forall a | a in st.alerts ensures AlertFeedback(st.feedback + [row], a) == AlertFeedback(st.feedback, a) {
      FeedbackCounts(st.feedback, row, 0, true, a);
    }
  }

  /** Linking alerts and editing cases leaves reviews and rule references alone. */
  lemma SameFeedback(st: State, st': State)
    requires FeedbackOk(st) && st'.feedback == st.feedback && st'.rules == st.rules && st'.alerts.Keys == st.alerts.Keys
    requires forall a :: a in st.alerts ==>
      st'.alerts[a].reviewed == st.alerts[a].reviewed && st'.alerts[a].ruleId == st.alerts[a].ruleId
    ensures FeedbackOk(st')
  {
  }

  // ---- Each operation keeps the invariant ----

  lemma NewCaseIsLinkable(
      st: State, id: CaseId, year: int, ids: seq<AlertId>, subject: Option<string>, priority: Option<Severity>,
      actor: Option<string>)
    requires id !in st.cases && Distinct(ids) && (forall a :: a in ids ==> a in st.alerts)
      && !SomeLinked(st.alerts, ids)
    ensures Linkable(st, id, NewCase(st, year, ids, subject, priority, actor), ids)
  {
  }

  lemma LinksKeepNumbersAndFeedback(st: State, ids: seq<AlertId>, c: CaseId)
    ensures NumbersOk(st) ==> NumbersOk(WithLinks(st, ids, c))
    ensures FeedbackOk(st) ==> FeedbackOk(WithLinks(st, ids, c))
  {
    if NumbersOk(st) { SameNumbers(st, WithLinks(st, ids, c)); }
    if FeedbackOk(st) { SameFeedback(st, WithLinks(st, ids, c)); }
  }

  lemma LinkKeepsInv(st: State, c: CaseId, k: Case, ids: seq<AlertId>)
    requires CasesOk(st) && AlertsOk(st) && FeedbackOk(st) && NumbersOk(WithCase(st, c, k))
    requires Linkable(st, c, k, ids)
    ensures Inv(WithLinks(WithCase(st, c, k), ids, c))
  {
    LinkKeepsCases(st, c, k, ids);
    SameFeedback(st, WithCase(st, c, k));
    LinksKeepNumbersAndFeedback(WithCase(st, c, k), ids, c);
  }

  lemma CreateKeepsInv(
      st: State, id: CaseId, year: int, ids: seq<AlertId>, subject: Option<string>, priority: Option<Severity>,
      actor: Option<string>)
    requires Inv(st) && id !in st.cases && CreateCase(st, id, year, ids, subject, priority, actor).Done?
    ensures Inv(CreateCase(st, id, year, ids, subject, priority, actor).state)
  {
    CountedIds(st.alerts, ids);
    var k := NewCase(st, year, ids, subject, priority, actor);
    NewCaseIsLinkable(st, id, year, ids, subject, priority, actor);
    NewNumber(st, id, k);
    LinkKeepsInv(st, id, k, ids);
  }

  lemma AttachKeepsInv(st: State, c: CaseId, ids: seq<AlertId>, actor: Option<string>)
    requires Inv(st) && AttachAlerts(st, c, ids, actor).Done?
    ensures Inv(AttachAlerts(st, c, ids, actor).state)
  {
    CountedIds(st.alerts, ids);
    EnlargedIsLinkable(st, c, ids, actor);
    AttachedKeepsInv(st, c, Enlarged(st.alerts, st.cases[c], ids, actor), ids);
  }

  lemma AttachedKeepsInv(st: State, c: CaseId, k: Case, ids: seq<AlertId>)
    requires Inv(st) && c in st.cases && k.number == st.cases[c].number && Linkable(st, c, k, ids)
    ensures Inv(WithLinks(WithCase(st, c, k), ids, c))
  {
    SameNumbers(st, WithCase(st, c, k));
    LinkKeepsInv(st, c, k, ids);
  }

  /** Old members followed by the ids that are new. */
  lemma UnionOfIds(was: seq<AlertId>, ids: seq<AlertId>)
    requires Distinct(was) && Distinct(ids)
    ensures Distinct(was + Keep(ids, was, false))
    ensures forall a :: a in was + Keep(ids, was, false) <==> a in was || a in ids
  {
    KeepElements(ids, was, false);
    var added := Keep(ids, was, false);
    forall i, j | 0 <= i < j < |was + added| ensures (was + added)[i] != (was + added)[j] {
      if i < |was| <= j {
        assert added[j - |was|] in added;
      }
    }
  }

  lemma EnlargedIsLinkable(st: State, c: CaseId, ids: seq<AlertId>, actor: Option<string>)
    requires CasesOk(st) && c in st.cases && Distinct(ids) && (forall a :: a in ids ==> a in st.alerts)
    requires !SomeLinkedElsewhere(st.alerts, ids, c)
    ensures Linkable(st, c, Enlarged(st.alerts, st.cases[c], ids, actor), ids)
  {
    var was := st.cases[c].alertIds;
    assert Members(st, c) && Scored(st, c);
    UnionOfIds(was, ids);
    MaxRiskOfAttached(st.alerts, was, ids);
  }

  /** Changing a case but not its alerts, score or number. */
  lemma EditKeepsInv(st: State, c: CaseId, k: Case)
    requires Inv(st) && c in st.cases
    requires k.alertIds == st.cases[c].alertIds && k.riskScore == st.cases[c].riskScore
      && k.number == st.cases[c].number
    ensures Inv(WithCase(st, c, k))
  {
    EditKeepsLinks(st, c, k);
    SameNumbers(st, WithCase(st, c, k));
    SameFeedback(st, WithCase(st, c, k));
  }

  lemma EditKeepsLinks(st: State, c: CaseId, k: Case)
    requires CasesOk(st) && AlertsOk(st) && c in st.cases
    requires k.alertIds == st.cases[c].alertIds && k.riskScore == st.cases[c].riskScore
    ensures CasesOk(WithCase(st, c, k)) && AlertsOk(WithCase(st, c, k))
  {
    SameLinks(st, WithCase(st, c, k));
  }

  lemma ReviewKeepsLinks(st: State, id: AlertId, d: Disposition)
    requires CasesOk(st) && AlertsOk(st) && id in st.alerts
    ensures CasesOk(WithReview(st, id, d)) && AlertsOk(WithReview(st, id, d))
  {
    SameLinks(st, WithReview(st, id, d));
  }

  lemma FeedbackKeepsLinks(st: State, row: Feedback)
    requires CasesOk(st) && AlertsOk(st) && NumbersOk(st)
    ensures CasesOk(RecordFeedback(st, row)) && AlertsOk(RecordFeedback(st, row)) && NumbersOk(RecordFeedback(st, row))
  {
    SameLinks(st, RecordFeedback(st, row));
    SameNumbers(st, RecordFeedback(st, row));
  }

  lemma TriageKeepsInv(st: State, id: AlertId, d: Disposition)
    requires Inv(st) && TriageAlert(st, id, d).Done?
    ensures Inv(TriageAlert(st, id, d).state)
  {
    var row := Feedback(Some(id), None, st.alerts[id].ruleId, d);
    TriageKeepsFeedback(st, id, d);
    ReviewKeepsLinks(st, id, d);
    SameNumbers(st, WithReview(st, id, d));
    FeedbackKeepsLinks(WithReview(st, id, d), row);
  }

  lemma {:induction false} TriageAllKeepsInv(st: State, ids: seq<AlertId>, d: Disposition)
    requires Inv(st)
    ensures Inv(TriageAll(st, ids, d))
  {
    if ids != [] {
      var n := |ids| - 1;
      TriageAllKeepsInv(st, ids[..n], d);
      var mid := TriageAll(st, ids[..n], d);
      if TriageAlert(mid, ids[n], d).Done? {
        TriageKeepsInv(mid, ids[n], d);
      }
    }
  }

  /** Triage touches no case and no alert that was already reviewed, and leaves none of the listed ones out. */
  lemma {:induction false} TriageAllReviews(st: State, ids: seq<AlertId>, d: Disposition)
    ensures var st' := TriageAll(st, ids, d);
      && st'.cases == st.cases && st'.alerts.Keys == st.alerts.Keys
      && AllReviewed(st'.alerts, ids)
      && (forall a :: a in st.alerts && st.alerts[a].reviewed ==> st'.alerts[a] == st.alerts[a])
  {
    if ids != [] {
      var n := |ids| - 1;
      TriageAllReviews(st, ids[..n], d);
      assert ids == ids[..n] + [ids[n]];
    }
  }

  lemma CloseKeepsInv(st: State, c: CaseId, d: Disposition, notes: Option<string>, actor: Option<string>)
    requires Inv(st) && CloseCase(st, c, d, notes, actor).Done?
    ensures Inv(CloseCase(st, c, d, notes, actor).state)
  {
    var k := ClosedCase(st.cases[c], d, notes, actor);
    var mid := WithCase(st, c, k);
    EditKeepsInv(st, c, k);
    if AllReviewed(mid.alerts, k.alertIds) {
      var row := Feedback(None, Some(c), None, d);
      CaseRowKeepsFeedback(mid, row);
      FeedbackKeepsLinks(mid, row);
    } else {
      TriageAllKeepsInv(mid, k.alertIds, d);
    }
  }

  lemma {:induction false} NoFeedback(feedback: seq<Feedback>, r: RuleId, a: AlertId)
    ensures (forall f :: f in feedback ==> f.ruleId != Some(r)) ==>
      RuleFeedback(feedback, r, true) == 0 && RuleFeedback(feedback, r, false) == 0
    ensures (forall f :: f in feedback ==> f.alertId != Some(a)) ==> AlertFeedback(feedback, a) == 0
  {
    if feedback != [] {
      var n := |feedback| - 1;
      NoFeedback(feedback[..n], r, a);
      assert forall f :: f in feedback[..n] ==> f in feedback;
      assert feedback[n] in feedback;
    }
  }

  lemma AddRuleKeepsInv(st: State, r: RuleId)
    requires Inv(st) && r !in st.rules
    ensures Inv(st.(rules := st.rules[r := Rule(0, 0, 1.0)]))
  {
    var st' := st.(rules := st.rules[r := Rule(0, 0, 1.0)]);
    NoFeedback(st.feedback, r, 0);
    assert RuleFrom(st.feedback, r) == Rule(0, 0, 1.0);
    SameLinks(st, st');
    SameNumbers(st, st');
  }

  lemma RaiseKeepsInv(st: State, id: AlertId, alert: Alert)
    requires Inv(st) && id !in st.alerts && alert.caseId.None? && !alert.reviewed
    requires alert.ruleId.Some? ==> alert.ruleId.value in st.rules
    ensures Inv(st.(alerts := st.alerts[id := alert]))
  {
    var st' := st.(alerts := st.alerts[id := alert]);
    NoFeedback(st.feedback, 0, id);
    SameLinks(st, st');
    SameNumbers(st, st');
  }

  lemma CreateStep(
      st: State, id: CaseId, year: int, ids: seq<AlertId>, subject: Option<string>, priority: Option<Severity>,
      actor: Option<string>)
    requires Inv(st) && id !in st.cases
    ensures Inv(After(st, CreateCase(st, id, year, ids, subject, priority, actor)))
  {
    if CreateCase(st, id, year, ids, subject, priority, actor).Done? {
      CreateKeepsInv(st, id, year, ids, subject, priority, actor);
    }
  }

  lemma AttachStep(st: State, c: CaseId, ids: seq<AlertId>, actor: Option<string>)
    requires Inv(st)
    ensures Inv(After(st, AttachAlerts(st, c, ids, actor)))
  {
    if AttachAlerts(st, c, ids, actor).Done? { AttachKeepsInv(st, c, ids, actor); }
  }

  lemma UpdateStep(st: State, c: CaseId, u: CaseUpdate, actor: Option<string>)
    requires Inv(st)
    ensures Inv(After(st, UpdateCase(st, c, u, actor)))
  {
    if UpdateCase(st, c, u, actor).Done? { EditKeepsInv(st, c, EditCase(st.cases[c], u, actor)); }
  }

  lemma CloseStep(st: State, c: CaseId, d: Disposition, notes: Option<string>, actor: Option<string>)
    requires Inv(st)
    ensures Inv(After(st, CloseCase(st, c, d, notes, actor)))
  {
    if CloseCase(st, c, d, notes, actor).Done? { CloseKeepsInv(st, c, d, notes, actor); }
  }

  lemma TriageStep(st: State, id: AlertId, d: Disposition)
    requires Inv(st)
    ensures Inv(After(st, TriageAlert(st, id, d)))
  {
    if TriageAlert(st, id, d).Done? { TriageKeepsInv(st, id, d); }
  }

  lemma ApplyKeepsInv(st: State, op: Op)
    requires Inv(st)
    ensures Inv(Apply(st, op))
  {
    match op
    case AddRule(r) => if r !in st.rules { AddRuleKeepsInv(st, r); }
    case RaiseAlert(id, alert) => if Insertable(st, id, alert) { RaiseKeepsInv(st, id, alert); }
    case Create(id, year, ids, subject, priority, actor) =>
      if id !in st.cases { CreateStep(st, id, year, ids, subject, priority, actor); }
    case Attach(c, ids, actor) => AttachStep(st, c, ids, actor);
    case Update(c, u, actor) => UpdateStep(st, c, u, actor);
    case Close(c, d, notes, actor) => CloseStep(st, c, d, notes, actor);
    case Triage(id, d) => TriageStep(st, id, d);
  }

  lemma {:induction false} RunKeepsInv(st: State, ops: seq<Op>)
    requires Inv(st)
    ensures Inv(Run(st, ops))
    decreases |ops|
  {
    if ops != [] {
      ApplyKeepsInv(st, ops[0]);
      RunKeepsInv(Apply(st, ops[0]), ops[1..]);
    }
  }

  // ---- Main results ----

  /** In every reachable state an alert points to a case exactly when that case lists it, once; cases share no alert. */
  lemma LinksAgree(ops: seq<Op>, a: AlertId, c: CaseId)
    requires var st := Run(Init(), ops); a in st.alerts && c in st.cases
    ensures var st := Run(Init(), ops); st.alerts[a].caseId == Some(c) <==> a in st.cases[c].alertIds
    ensures Distinct(Run(Init(), ops).cases[c].alertIds)
    ensures var st := Run(Init(), ops);
            forall d :: d in st.cases && d != c && a in st.cases[c].alertIds ==> a !in st.cases[d].alertIds
  {
    RunKeepsInv(Init(), ops);
    var st := Run(Init(), ops);
    assert Members(st, c);
    forall d | d in st.cases && d != c && a in st.cases[c].alertIds ensures a !in st.cases[d].alertIds {
      assert Members(st, d);
    }
  }

  /** A case's score is the greatest of its alerts' scores, and 0 without any. */
  lemma CaseScoreIsMaximum(ops: seq<Op>, c: CaseId)
    requires c in Run(Init(), ops).cases
    ensures var st := Run(Init(), ops);
      && (forall a :: a in st.cases[c].alertIds ==> a in st.alerts && st.alerts[a].riskScore <= st.cases[c].riskScore)
      && st.cases[c].riskScore >= 0.0
      && (st.cases[c].riskScore == 0.0
          || exists a :: a in st.cases[c].alertIds && st.alerts[a].riskScore == st.cases[c].riskScore)
  {
    RunKeepsInv(Init(), ops);
    var st := Run(Init(), ops);
    assert Members(st, c) && Scored(st, c);
    MaxRiskIsMaximum(st.alerts, st.cases[c].alertIds, 0.0);
  }

  /** Rule counters are the feedback rows, and the multiplier is what those counters call for. */
  lemma CountersAreFeedback(ops: seq<Op>, r: RuleId)
    requires r in Run(Init(), ops).rules
    ensures var st := Run(Init(), ops);
      && st.rules[r].falsePositives == RuleFeedback(st.feedback, r, true)
      && st.rules[r].truePositives == RuleFeedback(st.feedback, r, false)
      && st.rules[r].sensitivity == SensitivityFromDisposition(st.rules[r].falsePositives, st.rules[r].truePositives)
  {
    RunKeepsInv(Init(), ops);
  }

  /** No alert is judged twice, and one is judged exactly when it is marked reviewed. */
  lemma TriagedAtMostOnce(ops: seq<Op>, a: AlertId)
    requires a in Run(Init(), ops).alerts
    ensures var st := Run(Init(), ops); AlertFeedback(st.feedback, a) == if st.alerts[a].reviewed then 1 else 0
  {
    RunKeepsInv(Init(), ops);
  }

  /** Two cases never get the same number. */
  lemma CaseNumbersAreUnique(ops: seq<Op>, c: CaseId, d: CaseId)
    requires var st := Run(Init(), ops); c in st.cases && d in st.cases && st.cases[c].number == st.cases[d].number
    ensures c == d
  {
    RunKeepsInv(Init(), ops);
  }

  // ---- What never comes back ----

  ghost predicate CaseGrows(k: Case, k': Case) {
    && k.timeline <= k'.timeline && k'.number == k.number
    && (k.status == Closed ==> k'.status == Closed && k'.disposition == k.disposition)
  }

  ghost predicate AlertStays(a: Alert, a': Alert) {
    (a.reviewed ==> a'.reviewed) && a'.riskScore == a.riskScore
  }

  ghost predicate Grows(st: State, st': State) {
    && st.feedback <= st'.feedback
    && (forall c :: c in st.cases ==> c in st'.cases && CaseGrows(st.cases[c], st'.cases[c]))
    && (forall a :: a in st.alerts ==> a in st'.alerts && AlertStays(st.alerts[a], st'.alerts[a]))
  }

  lemma GrowsTransitive(a: State, b: State, c: State)
    requires Grows(a, b) && Grows(b, c)
    ensures Grows(a, c)
  {
    forall k | k in a.cases ensures k in c.cases && CaseGrows(a.cases[k], c.cases[k]) {
      assert CaseGrows(a.cases[k], b.cases[k]) && CaseGrows(b.cases[k], c.cases[k]);
    }
    forall k | k in a.alerts ensures k in c.alerts && AlertStays(a.alerts[k], c.alerts[k]) {
      assert AlertStays(a.alerts[k], b.alerts[k]) && AlertStays(b.alerts[k], c.alerts[k]);
    }
  }

  lemma EditGrows(st: State, c: CaseId, k: Case)
    requires c in st.cases && CaseGrows(st.cases[c], k)
    ensures Grows(st, WithCase(st, c, k))
  {
  }

  lemma {:induction false} TriageAllGrows(st: State, ids: seq<AlertId>, d: Disposition)
    ensures Grows(st, TriageAll(st, ids, d))
  {
    if ids != [] {
      var mid := TriageAll(st, ids[..|ids| - 1], d);
      TriageAllGrows(st, ids[..|ids| - 1], d);
      TriageGrows(mid, ids[|ids| - 1], d);
      GrowsTransitive(st, mid, TriageAll(st, ids, d));
    }
  }

  lemma TriageGrows(st: State, id: AlertId, d: Disposition)
    ensures Grows(st, After(st, TriageAlert(st, id, d)))
  {
  }

  lemma NewCaseGrows(st: State, id: CaseId, k: Case)
    requires id !in st.cases
    ensures Grows(st, WithCase(st, id, k))
  {
  }

  lemma LinksGrow(st: State, ids: seq<AlertId>, c: CaseId)
    ensures Grows(st, WithLinks(st, ids, c))
  {
  }

  lemma LinkedCaseGrows(st: State, id: CaseId, k: Case, ids: seq<AlertId>)
    requires id in st.cases ==> CaseGrows(st.cases[id], k)
    ensures Grows(st, WithLinks(WithCase(st, id, k), ids, id))
  {
    if id in st.cases { EditGrows(st, id, k); } else { NewCaseGrows(st, id, k); }
    LinksGrow(WithCase(st, id, k), ids, id);
    GrowsTransitive(st, WithCase(st, id, k), WithLinks(WithCase(st, id, k), ids, id));
  }

  lemma CreateGrows(
      st: State, id: CaseId, year: int, ids: seq<AlertId>, subject: Option<string>, priority: Option<Severity>,
      actor: Option<string>)
    requires id !in st.cases
    ensures Grows(st, After(st, CreateCase(st, id, year, ids, subject, priority, actor)))
  {
    if CreateCase(st, id, year, ids, subject, priority, actor).Done? {
      CountedIds(st.alerts, ids);
      LinkedCaseGrows(st, id, NewCase(st, year, ids, subject, priority, actor), ids);
    }
  }

  lemma AttachGrows(st: State, c: CaseId, ids: seq<AlertId>, actor: Option<string>)
    ensures Grows(st, After(st, AttachAlerts(st, c, ids, actor)))
  {
    if AttachAlerts(st, c, ids, actor).Done? {
      CountedIds(st.alerts, ids);
      LinkedCaseGrows(st, c, Enlarged(st.alerts, st.cases[c], ids, actor), ids);
    }
  }

  lemma CloseGrows(st: State, c: CaseId, d: Disposition, notes: Option<string>, actor: Option<string>)
    ensures Grows(st, After(st, CloseCase(st, c, d, notes, actor)))
  {
    if CloseCase(st, c, d, notes, actor).Done? {
      var k := ClosedCase(st.cases[c], d, notes, actor);
      var mid := WithCase(st, c, k);
      EditGrows(st, c, k);
      TriageAllGrows(mid, k.alertIds, d);
      GrowsTransitive(st, mid, RecordDispositionForCase(mid, c, k.alertIds, d));
    }
  }

  lemma UpdateGrows(st: State, c: CaseId, u: CaseUpdate, actor: Option<string>)
    ensures Grows(st, After(st, UpdateCase(st, c, u, actor)))
  {
    if UpdateCase(st, c, u, actor).Done? {
      EditGrows(st, c, EditCase(st.cases[c], u, actor));
    }
  }

  lemma ApplyGrows(st: State, op: Op)
    ensures Grows(st, Apply(st, op))
  {
    match op
    case AddRule(_) =>
    case RaiseAlert(_, _) =>
    case Create(id, year, ids, subject, priority, actor) =>
      if id !in st.cases { CreateGrows(st, id, year, ids, subject, priority, actor); }
    case Attach(c, ids, actor) => AttachGrows(st, c, ids, actor);
    case Update(c, u, actor) => UpdateGrows(st, c, u, actor);
    case Close(c, d, notes, actor) => CloseGrows(st, c, d, notes, actor);
    case Triage(id, d) => TriageGrows(st, id, d);
  }

  /** Timelines and feedback only grow, closed cases stay closed with their disposition, reviews are not undone. */
  lemma {:induction false} RunGrows(st: State, ops: seq<Op>)
    ensures Grows(st, Run(st, ops))
    decreases |ops|
  {
    if ops != [] {
      var next := Apply(st, ops[0]);
      ApplyGrows(st, ops[0]);
      RunGrows(next, ops[1..]);
      GrowsTransitive(st, next, Run(next, ops[1..]));
    }
  }

  /** Closing with a disposition leaves no alert of the case unreviewed, and always leaves a feedback row. */
  lemma CloseReviewsAll(st: State, c: CaseId, d: Disposition, notes: Option<string>, actor: Option<string>)
    requires CloseCase(st, c, d, notes, actor).Done?
    ensures var st' := CloseCase(st, c, d, notes, actor).state;
      && c in st'.cases && st'.cases[c].status == Closed && st'.cases[c].disposition == Some(d)
      && AllReviewed(st'.alerts, st'.cases[c].alertIds) && |st'.feedback| > |st.feedback|
  {
    var k := ClosedCase(st.cases[c], d, notes, actor);
    var mid := WithCase(st, c, k);
    if !AllReviewed(mid.alerts, k.alertIds) {
      TriageAllReviews(mid, k.alertIds, d);
      TriageAllRecords(mid, k.alertIds, d);
    }
  }

  lemma {:induction false} TriageAllRecords(st: State, ids: seq<AlertId>, d: Disposition)
    ensures |TriageAll(st, ids, d).feedback| >= |st.feedback|
    ensures |TriageAll(st, ids, d).feedback| == |st.feedback| ==>
      TriageAll(st, ids, d) == st && AllReviewed(st.alerts, ids)
  {
    if ids != [] {
      var n := |ids| - 1;
      TriageAllRecords(st, ids[..n], d);
      assert ids == ids[..n] + [ids[n]];
    }
  }

  // ---- Exposure ----

  lemma {:induction false} KeepSplitsSum(s: seq<AlertId>, t: seq<AlertId>, f: AlertId -> real)
    ensures Sum(s, f) == Sum(Keep(s, t, false), f) + Sum(Keep(s, t, true), f)
  {
    if s != [] {
      KeepSplitsSum(s[1..], t, f);
      KeepHead(s, t, f, false);
      KeepHead(s, t, f, true);
    }
  }

  lemma KeepHead(s: seq<AlertId>, t: seq<AlertId>, f: AlertId -> real, present: bool)
    requires s != []
    ensures Sum(Keep(s, t, present), f) ==
      (if (s[0] in t) == present then f(s[0]) else 0.0) + Sum(Keep(s[1..], t, present), f)
  {
    var rest := Keep(s[1..], t, present);
    if (s[0] in t) == present {
      assert Keep(s, t, present) == [s[0]] + rest && ([s[0]] + rest)[1..] == rest;
    } else {
      assert Keep(s, t, present) == rest;
    }
  }

  lemma {:induction false} SumSame(s: seq<AlertId>, f: AlertId -> real, g: AlertId -> real)
    requires forall a :: a in s ==> f(a) == g(a)
    ensures Sum(s, f) == Sum(s, g)
  {
    if s != [] {
      SumSame(s[1..], f, g);
    }
  }

  ghost predicate ExposureExact(st: State, c: CaseId)
    requires c in st.cases
  {
    st.cases[c].exposureUsd == Exposure(st.alerts, st.cases[c].alertIds)
  }

  /** A new case starts with the exposure of its alerts. */
  lemma CreateExposure(
      st: State, id: CaseId, year: int, ids: seq<AlertId>, subject: Option<string>, priority: Option<Severity>,
      actor: Option<string>)
    requires id !in st.cases && CreateCase(st, id, year, ids, subject, priority, actor).Done?
    ensures var st' := CreateCase(st, id, year, ids, subject, priority, actor).state;
      id in st'.cases && ExposureExact(st', id)
  {
    CountedIds(st.alerts, ids);
    var st' := CreateCase(st, id, year, ids, subject, priority, actor).state;
    SumSame(ids, AmountOf(st.alerts), AmountOf(st'.alerts));
  }

  /** Attaching keeps the exposure exact if and only if the alerts attached again carry no net amount. */
  lemma AttachExposureIff(st: State, c: CaseId, ids: seq<AlertId>, actor: Option<string>)
    requires AttachAlerts(st, c, ids, actor).Done? && ExposureExact(st, c)
    ensures ExposureExact(AttachAlerts(st, c, ids, actor).state, c) <==>
            Exposure(st.alerts, Keep(ids, st.cases[c].alertIds, true)) == 0.0
  {
    var st' := AttachAlerts(st, c, ids, actor).state;
    var was := st.cases[c].alertIds;
    var added := Keep(ids, was, false);
    SumSame(was + added, AmountOf(st.alerts), AmountOf(st'.alerts));
    SumConcat(was, added, AmountOf(st.alerts));
    KeepSplitsSum(ids, was, AmountOf(st.alerts));
  }

  function TenDollars(): Alert {
    NewAlert("key", None, "CODE", None, Low, 1.0, 10.0)
  }

  /** A case opened for an alert of ten dollars. */
  function OneAlertCase(): State {
    Apply(Apply(Init(), RaiseAlert(0, TenDollars())), Create(0, 2024, [0], None, None, None))
  }

  lemma OneAlertCaseHolds()
    ensures var st := OneAlertCase();
            && st.alerts.Keys == {0} && st.alerts[0].amountUsd == 10.0 && st.alerts[0].caseId == Some(0)
            && st.cases.Keys == {0} && st.cases[0].alertIds == [0] && ExposureExact(st, 0)
  {
    var st := Apply(Init(), RaiseAlert(0, TenDollars()));
    assert st.alerts.Keys == {0};
    assert ElementSet([0]) * st.alerts.Keys == {0};
    assert CreateCase(st, 0, 2024, [0], None, None, None).Done?;
    CreateExposure(st, 0, 2024, [0], None, None, None);
  }

  lemma ExposureOfOne(alerts: map<AlertId, Alert>, a: AlertId)
    requires a in alerts
    ensures Exposure(alerts, [a]) == alerts[a].amountUsd
  {
    var f := AmountOf(alerts);
    assert [a][1..] == [] && Sum([a], f) == f(a) + Sum([a][1..], f);
  }

  lemma AttachedAgain(st: State)
    requires st == OneAlertCase()
    ensures AttachAlerts(st, 0, [0], None).Done? && 0 in AttachAlerts(st, 0, [0], None).state.cases
    ensures !ExposureExact(AttachAlerts(st, 0, [0], None).state, 0)
  {
    hide OneAlertCase, ExposureExact, Exposure;
    OneAlertCaseHolds();
    assert ElementSet([0]) * st.alerts.Keys == {0};
    assert AttachAlerts(st, 0, [0], None).Done?;
    AttachExposureIff(st, 0, [0], None);
    assert [0][1..] == [] && Keep([0], [0], true) == [0] + Keep([], [0], true) == [0];
    ExposureOfOne(st.alerts, 0);
  }

  /** The case is reachable in which attaching its own alert again counts the ten dollars twice. */
  lemma DoubleCountExample()
    ensures var st :=
      Run(Init(), [RaiseAlert(0, TenDollars()), Create(0, 2024, [0], None, None, None), Attach(0, [0], None)]);
            0 in st.cases && !ExposureExact(st, 0)
  {
    hide Apply, ExposureExact;
    var a, b, c := RaiseAlert(0, TenDollars()), Create(0, 2024, [0], None, None, None), Attach(0, [0], None);
    AttachedAgain(OneAlertCase());
    AttachIsAfter(OneAlertCase(), 0, [0], None);
    assert [a, b, c][1..] == [b, c] && [b, c][1..] == [c] && [c][1..] == [];
    assert Run(OneAlertCase(), [c]) == Apply(OneAlertCase(), c);
    assert Run(Apply(Init(), a), [b, c]) == Run(OneAlertCase(), [c]);
  }

  lemma AttachIsAfter(st: State, c: CaseId, ids: seq<AlertId>, actor: Option<string>)
    ensures Apply(st, Attach(c, ids, actor)) == After(st, AttachAlerts(st, c, ids, actor))
  {
  }

  // ---- Priorities and tuning ----

  lemma {:induction false} HighestIsHighest(alerts: map<AlertId, Alert>, ids: seq<AlertId>) returns (top: AlertId)
    requires ids != [] && forall a :: a in ids ==> a in alerts
    ensures top in ids && alerts[top].severity == HighestSeverity(alerts, ids)
    ensures forall a :: a in ids ==> Rank(alerts[a].severity) <= Rank(HighestSeverity(alerts, ids))
  {
    var n := |ids| - 1;
    assert ids == ids[..n] + [ids[n]];
    top := ids[n];
    if n > 0 {
      var before := HighestIsHighest(alerts, ids[..n]);
      if Rank(alerts[top].severity) <= Rank(alerts[before].severity) {
        top := before;
      }
    }
  }

  /** Without a priority given, a case takes the gravest severity of its alerts, and MEDIUM without any. */
  lemma CreatePriority(
      st: State, id: CaseId, year: int, ids: seq<AlertId>, subject: Option<string>, actor: Option<string>)
    requires id !in st.cases && CreateCase(st, id, year, ids, subject, None, actor).Done?
    ensures var k := CreateCase(st, id, year, ids, subject, None, actor).state.cases[id];
            && (ids == [] ==> k.priority == Medium)
            && (ids != [] ==> exists a :: a in ids && a in st.alerts && st.alerts[a].severity == k.priority)
            && forall a :: a in ids && a in st.alerts ==> Rank(st.alerts[a].severity) <= Rank(k.priority)
  {
    CountedIds(st.alerts, ids);
    if ids != [] {
      var top := HighestIsHighest(st.alerts, ids);
    }
  }

  /** Once five judgements are in, a false positive never raises a rule's sensitivity and a true one never lowers it. */
  lemma TuningFollowsFeedback(falsePositives: nat, truePositives: nat)
    requires falsePositives + truePositives >= 5
    ensures SensitivityFromDisposition(falsePositives + 1, truePositives) <=
      SensitivityFromDisposition(falsePositives, truePositives)
    ensures SensitivityFromDisposition(falsePositives, truePositives + 1) >=
      SensitivityFromDisposition(falsePositives, truePositives)
  {
  }

  lemma NotedAdds(k: Case, changed: bool, action: string, actor: Option<string>)
    ensures Noted(k, changed, action, actor) == k.(timeline := k.timeline + NoteIf(changed, action, actor))
  {
  }

  lemma EditedCase(k: Case, u: CaseUpdate, actor: Option<string>)
    ensures EditCase(k, u, actor) ==
            k.(status := if u.status.Some? then u.status.value else k.status,
               priority := if u.priority.Some? then u.priority.value else k.priority,
               assignedTo := if u.assignedTo.Some? then u.assignedTo else k.assignedTo,
               notes := if u.notes.Some? then u.notes else k.notes,
               timeline := k.timeline + Notes(u, actor))
  {
    hide Noted, NoteIf;
    var c1 := if u.status.Some? then k.(status := u.status.value) else k;
    NotedAdds(c1, u.status.Some?, "status", actor);
    var n1 := Noted(c1, u.status.Some?, "status", actor);
    var c2 := if u.priority.Some? then n1.(priority := u.priority.value) else n1;
    NotedAdds(c2, u.priority.Some?, "priority_changed", actor);
    var n2 := Noted(c2, u.priority.Some?, "priority_changed", actor);
    var c3 := if u.assignedTo.Some? then n2.(assignedTo := u.assignedTo) else n2;
    NotedAdds(c3, u.assignedTo.Some?, "assigned", actor);
    var n3 := Noted(c3, u.assignedTo.Some?, "assigned", actor);
    NotedAdds(if u.notes.Some? then n3.(notes := u.notes) else n3, u.notes.Some?, "note_added", actor);
    Regroup(k.timeline, NoteIf(u.status.Some?, "status", actor), NoteIf(u.priority.Some?, "priority_changed", actor),
            NoteIf(u.assignedTo.Some?, "assigned", actor), NoteIf(u.notes.Some?, "note_added", actor));
  }

  lemma Regroup<T>(t: seq<T>, a: seq<T>, b: seq<T>, c: seq<T>, d: seq<T>)
    ensures (((t + a) + b) + c) + d == t + (a + b + c + d)
  {
  }

  /** An edit sets the fields it gives, leaves the others and every other row alone, and notes each change in order. */
  lemma UpdateSetsGivenFields(st: State, c: CaseId, u: CaseUpdate, actor: Option<string>)
    requires UpdateCase(st, c, u, actor).Done?
    ensures var k := UpdateCase(st, c, u, actor).state.cases[c];
            && (u.status.Some? ==> k.status == u.status.value) && (u.status.None? ==> k.status == st.cases[c].status)
            && (u.priority.Some? ==> k.priority == u.priority.value)
               && (u.priority.None? ==> k.priority == st.cases[c].priority)
            && (u.assignedTo.Some? ==> k.assignedTo == u.assignedTo)
               && (u.assignedTo.None? ==> k.assignedTo == st.cases[c].assignedTo)
            && (u.notes.Some? ==> k.notes == u.notes) && (u.notes.None? ==> k.notes == st.cases[c].notes)
            && k.alertIds == st.cases[c].alertIds && k.riskScore == st.cases[c].riskScore
               && k.exposureUsd == st.cases[c].exposureUsd
            && k.timeline == st.cases[c].timeline + Notes(u, actor)
    ensures UpdateCase(st, c, u, actor).state == st.(cases := st.cases[c := UpdateCase(st, c, u, actor).state.cases[c]])
  {
    hide EditCase, Notes;
    EditedCase(st.cases[c], u, actor);
  }

  function NoteIf(changed: bool, action: string, actor: Option<string>): seq<Entry> {
    if changed then [Entry(action, actor)] else []
  }

  function Notes(u: CaseUpdate, actor: Option<string>): seq<Entry> {
    NoteIf(u.status.Some?, "status", actor) + NoteIf(u.priority.Some?, "priority_changed", actor)
    + NoteIf(u.assignedTo.Some?, "assigned", actor) + NoteIf(u.notes.Some?, "note_added", actor)
  }
}

/**
 The AML investigation workflow (backend/src/aml/aml-case.service.ts, backend/src/aml/aml.constants.ts):
 cases, alerts, analyst feedback and rule tuning as operations on one state.
 */
module AmlCases {
  import opened Collections
  import opened Options
  import opened Sorting
  import opened Sums

  type AlertId = nat
  type CaseId = nat
  type RuleId = nat

  datatype Severity = Low | Medium | High | Critical

  datatype AlertStatus = Pending | Triaged | EscalatedAlert | FalsePositiveAlert | Dismissed

  datatype CaseStatus = Open | InReview | Escalated | AwaitingInformation | Closed

  datatype Disposition = FalsePositive | SarFiled | NoAction | ReferredToAuthority | AccountRestricted

  datatype Alert = Alert(
    dedupeKey: string, ruleId: Option<RuleId>, ruleCode: string, userId: Option<string>, severity: Severity,
    riskScore: real, amountUsd: real, status: AlertStatus, caseId: Option<CaseId>, reviewed: bool)

  datatype Entry = Entry(action: string, actor: Option<string>)

  datatype CaseNumber = CaseNumber(year: int, sequence: nat)

  datatype Case = Case(
    number: CaseNumber, subject: Option<string>, priority: Severity, status: CaseStatus, alertIds: seq<AlertId>,
    riskScore: real, exposureUsd: real, disposition: Option<Disposition>, assignedTo: Option<string>,
    notes: Option<string>,
    timeline: seq<Entry>)

  datatype Rule = Rule(falsePositives: nat, truePositives: nat, sensitivity: real)

  datatype Feedback = Feedback(
    alertId: Option<AlertId>, caseId: Option<CaseId>, ruleId: Option<RuleId>, disposition: Disposition)

  datatype State = State(
    alerts: map<AlertId, Alert>, cases: map<CaseId, Case>, rules: map<RuleId, Rule>, feedback: seq<Feedback>)

  datatype Error = NotFound | BadRequest

  datatype Outcome = Done(state: State) | Failed(error: Error)

  function After(st: State, o: Outcome): State {
    if o.Done? then o.state else st
  }

  // ---- Helpers of the service ----

  /** The bands 90, 75, 50 and 25 per cent of false positives, compared without dividing. */
  function SensitivityFromDisposition(falsePositives: nat, truePositives: nat): real {
    var total := falsePositives + truePositives;
    if total < 5 then 1.0
    else if 10 * falsePositives >= 9 * total then 0.4
    else if 4 * falsePositives >= 3 * total then 0.6
    else if 2 * falsePositives >= total then 0.8
    else if 4 * falsePositives >= total then 1.0
    else 1.25
  }

  function StatusFor(d: Disposition): AlertStatus {
    match d
    case FalsePositive => FalsePositiveAlert
    case NoAction => Dismissed
    case _ => EscalatedAlert
  }

  function Rank(s: Severity): nat {
    match s case Low => 0 case Medium => 1 case High => 2 case Critical => 3
  }

  /** The rows an IN query returns: one per distinct id that exists. */
  function RowCount(alerts: map<AlertId, Alert>, ids: seq<AlertId>): nat {
    |ElementSet(ids) * alerts.Keys|
  }

  function Higher(a: real, b: real): real {
    if a >= b then a else b
  }

  function MaxRisk(alerts: map<AlertId, Alert>, ids: seq<AlertId>, start: real): real
    requires forall a :: a in ids ==> a in alerts
  {
    if ids == [] then start else Higher(MaxRisk(alerts, ids[..|ids| - 1], start), alerts[ids[|ids| - 1]].riskScore)
  }

  function HighestSeverity(alerts: map<AlertId, Alert>, ids: seq<AlertId>): Severity
    requires ids != [] && forall a :: a in ids ==> a in alerts
  {
    var last := alerts[ids[|ids| - 1]].severity;
    if |ids| == 1 then last
    else
      var rest := HighestSeverity(alerts, ids[..|ids| - 1]);
      if Rank(last) > Rank(rest) then last else rest
  }

  /** The account of the first alert that has one. */
  function FirstUser(alerts: map<AlertId, Alert>, ids: seq<AlertId>): Option<string>
    requires forall a :: a in ids ==> a in alerts
  {
    if ids == [] then None else if alerts[ids[0]].userId.Some? then alerts[ids[0]].userId
        else FirstUser(alerts, ids[1..])
  }

  function AmountOf(alerts: map<AlertId, Alert>): AlertId -> real {
    (a: AlertId) => if a in alerts then alerts[a].amountUsd else 0.0
  }

  function Exposure(alerts: map<AlertId, Alert>, ids: seq<AlertId>): real {
    Sum(ids, AmountOf(alerts))
  }

  /** The elements of s that are, or are not, in t. */
  function Keep(s: seq<AlertId>, t: seq<AlertId>, present: bool): seq<AlertId> {
    if s == [] then [] else (if (s[0] in t) == present then [s[0]] else []) + Keep(s[1..], t, present)
  }

  function CasesOfYear(cases: map<CaseId, Case>, year: int): set<CaseId> {
    set c | c in cases && cases[c].number.year == year
  }

  function NextNumber(cases: map<CaseId, Case>, year: int): CaseNumber {
    CaseNumber(year, |CasesOfYear(cases, year)| + 1)
  }

  function LinkAlerts(alerts: map<AlertId, Alert>, ids: seq<AlertId>, c: CaseId): map<AlertId, Alert> {
    map a | a in alerts :: if a in ids then alerts[a].(caseId := Some(c), status := Triaged) else alerts[a]
  }

  /** The row a monitoring sweep inserts. */
  function NewAlert(
      dedupeKey: string, ruleId: Option<RuleId>, ruleCode: string, userId: Option<string>, severity: Severity,
      riskScore: real, amountUsd: real): Alert {
    Alert(dedupeKey, ruleId, ruleCode, userId, severity, riskScore, amountUsd, Pending, None, false)
  }

  predicate KeyTaken(alerts: map<AlertId, Alert>, dedupeKey: string) {
    exists a :: a in alerts && alerts[a].dedupeKey == dedupeKey
  }

  function WithCase(st: State, c: CaseId, k: Case): State {
    st.(cases := st.cases[c := k])
  }

  function WithLinks(st: State, ids: seq<AlertId>, c: CaseId): State {
    st.(alerts := LinkAlerts(st.alerts, ids, c))
  }

  // ---- The operations ----

  predicate SomeLinked(alerts: map<AlertId, Alert>, ids: seq<AlertId>) {
    exists a :: a in ids && a in alerts && alerts[a].caseId.Some?
  }

  predicate SomeLinkedElsewhere(alerts: map<AlertId, Alert>, ids: seq<AlertId>, c: CaseId) {
    exists a :: a in ids && a in alerts && alerts[a].caseId.Some? && alerts[a].caseId.value != c
  }

  function NewCase(
      st: State, year: int, ids: seq<AlertId>, subject: Option<string>, priority: Option<Severity>,
      actor: Option<string>): Case
    requires forall a :: a in ids ==> a in st.alerts
  {
    var prio := if priority.Some? then priority.value else if ids != [] then HighestSeverity(st.alerts, ids)
        else Medium;
    Case(NextNumber(st.cases, year), if subject.Some? then subject else FirstUser(st.alerts, ids), prio, Open, ids,
        MaxRisk(st.alerts, ids, 0.0), Exposure(st.alerts, ids),
         None, None, None, [Entry("case_opened", actor)])
  }

  /** id is the UUID drawn for the case. */
  function CreateCase(
      st: State, id: CaseId, year: int, ids: seq<AlertId>, subject: Option<string>, priority: Option<Severity>,
      actor: Option<string>): Outcome
    requires id !in st.cases
  {
    if RowCount(st.alerts, ids) != |ids| then Failed(NotFound)
    else if SomeLinked(st.alerts, ids) then Failed(BadRequest)
    else
      CountedIds(st.alerts, ids);
      var k := NewCase(st, year, ids, subject, priority, actor);
      Done(WithLinks(WithCase(st, id, k), ids, id))
  }

  function Enlarged(alerts: map<AlertId, Alert>, k: Case, ids: seq<AlertId>, actor: Option<string>): Case
    requires forall a :: a in ids ==> a in alerts
  {
    k.(alertIds := k.alertIds + Keep(ids, k.alertIds, false),
       riskScore := MaxRisk(alerts, ids, k.riskScore),
       exposureUsd := k.exposureUsd + Exposure(alerts, ids),
       timeline := k.timeline + [Entry("alerts_attached", actor)])
  }

  function AttachAlerts(st: State, caseId: CaseId, ids: seq<AlertId>, actor: Option<string>): Outcome {
    if caseId !in st.cases then Failed(NotFound)
    else if RowCount(st.alerts, ids) != |ids| then Failed(NotFound)
    else if SomeLinkedElsewhere(st.alerts, ids, caseId) then Failed(BadRequest)
    else
      CountedIds(st.alerts, ids);
      Done(WithLinks(WithCase(st, caseId, Enlarged(st.alerts, st.cases[caseId], ids, actor)), ids, caseId))
  }

  datatype CaseUpdate = CaseUpdate(
    status: Option<CaseStatus>, priority: Option<Severity>, assignedTo: Option<string>, notes: Option<string>)

  function Noted(c: Case, changed: bool, action: string, actor: Option<string>): Case {
    if changed then c.(timeline := c.timeline + [Entry(action, actor)]) else c
  }

  function EditCase(c: Case, u: CaseUpdate, actor: Option<string>): Case {
    var c1 := Noted(if u.status.Some? then c.(status := u.status.value) else c, u.status.Some?, "status", actor);
    var c2 := Noted(if u.priority.Some? then c1.(priority := u.priority.value) else c1, u.priority.Some?,
        "priority_changed", actor);
    var c3 := Noted(if u.assignedTo.Some? then c2.(assignedTo := u.assignedTo) else c2, u.assignedTo.Some?, "assigned",
        actor);
    Noted(if u.notes.Some? then c3.(notes := u.notes) else c3, u.notes.Some?, "note_added", actor)
  }

  function UpdateCase(st: State, caseId: CaseId, u: CaseUpdate, actor: Option<string>): Outcome {
    if caseId !in st.cases then Failed(NotFound)
    else if st.cases[caseId].status == Closed then Failed(BadRequest)
    else Done(WithCase(st, caseId, EditCase(st.cases[caseId], u, actor)))
  }

  function Tuned(r: Rule, d: Disposition): Rule {
    var fp := if d == FalsePositive then r.falsePositives + 1 else r.falsePositives;
    var tp := if d == FalsePositive then r.truePositives else r.truePositives + 1;
    Rule(fp, tp, SensitivityFromDisposition(fp, tp))
  }

  function RecordFeedback(st: State, row: Feedback): State {
    var rules := if row.ruleId.Some? && row.ruleId.value in st.rules
                 then st.rules[row.ruleId.value := Tuned(st.rules[row.ruleId.value], row.disposition)] else st.rules;
    st.(rules := rules, feedback := st.feedback + [row])
  }

  function WithReview(st: State, id: AlertId, d: Disposition): State
    requires id in st.alerts
  {
    st.(alerts := st.alerts[id := st.alerts[id].(status := StatusFor(d), reviewed := true)])
  }

  function TriageAlert(st: State, id: AlertId, d: Disposition): Outcome {
    if id !in st.alerts then Failed(NotFound)
    else if st.alerts[id].reviewed then Failed(BadRequest)
    else Done(RecordFeedback(WithReview(st, id, d), Feedback(Some(id), None, st.alerts[id].ruleId, d)))
  }

  /** Triage of the listed alerts that nobody has reviewed yet. */
  function TriageAll(st: State, ids: seq<AlertId>, d: Disposition): State {
    if ids == [] then st
    else
      var before := TriageAll(st, ids[..|ids| - 1], d);
      After(before, TriageAlert(before, ids[|ids| - 1], d))
  }

  predicate AllReviewed(alerts: map<AlertId, Alert>, ids: seq<AlertId>) {
    forall a :: a in ids && a in alerts ==> alerts[a].reviewed
  }

  function ClosedCase(k: Case, d: Disposition, notes: Option<string>, actor: Option<string>): Case {
    k.(status := Closed, disposition := Some(d), notes := if notes.Some? then notes else k.notes,
       timeline := k.timeline + [Entry("case_closed", actor)])
  }

  /** Feedback for the alerts not reviewed yet, or one row for the case when there are none. */
  function RecordDispositionForCase(st: State, c: CaseId, ids: seq<AlertId>, d: Disposition): State {
    if AllReviewed(st.alerts, ids) then RecordFeedback(st, Feedback(None, Some(c), None, d)) else TriageAll(st, ids, d)
  }

  function CloseCase(st: State, caseId: CaseId, d: Disposition, notes: Option<string>, actor: Option<string>): Outcome {
    if caseId !in st.cases then Failed(NotFound)
    else if st.cases[caseId].status == Closed then Failed(BadRequest)
    else
      var k := ClosedCase(st.cases[caseId], d, notes, actor);
      Done(RecordDispositionForCase(WithCase(st, caseId, k), caseId, k.alertIds, d))
  }

  /** A row count equal to the number of ids means they are distinct and all exist. */
  lemma CountedIds(alerts: map<AlertId, Alert>, ids: seq<AlertId>)
    requires RowCount(alerts, ids) == |ids|
    ensures Distinct(ids) && forall a :: a in ids ==> a in alerts
  {
    var rows := ElementSet(ids) * alerts.Keys;
    ElementCount(ids);
    assert ElementSet(ids) == rows + (ElementSet(ids) - rows);
    assert |ElementSet(ids) - rows| == 0;
    forall a | a in ids ensures a in alerts {
      assert a in ElementSet(ids);
    }
  }
}

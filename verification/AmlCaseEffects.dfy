/**
 What the operations of the investigation workflow do to the rows they touch, and what they leave alone
 (backend/src/aml/aml-case.service.ts, backend/src/aml/aml.constants.ts).
 */
module AmlCaseEffects {
  import opened Collections
  import opened Options
  import opened AmlCases
  import opened AmlCaseProofs

  /** The bands in terms of the false-positive rate; with fewer than five judgements the rule is left alone. */
  lemma SensitivityBands(falsePositives: nat, truePositives: nat)
    ensures falsePositives + truePositives < 5 ==> SensitivityFromDisposition(falsePositives, truePositives) == 1.0
    ensures falsePositives + truePositives >= 5 ==>
      var rate := falsePositives as real / (falsePositives + truePositives) as real;
      SensitivityFromDisposition(falsePositives, truePositives) ==
        if rate >= 0.9 then 0.4 else if rate >= 0.75 then 0.6 else if rate >= 0.5 then 0.8
        else if rate >= 0.25 then 1.0 else 1.25
  {
    var total := falsePositives + truePositives;
    if total >= 5 {
      RateAtLeast(falsePositives, total, 0.9);
      RateAtLeast(falsePositives, total, 0.75);
      RateAtLeast(falsePositives, total, 0.5);
      RateAtLeast(falsePositives, total, 0.25);
      BandsInReals(falsePositives, total);
    }
  }

  lemma RateAtLeast(part: nat, total: nat, bound: real)
    requires total > 0
    ensures part as real / total as real >= bound <==> part as real >= bound * total as real
  {
    var rate := part as real / total as real;
    var gap := rate - bound;
    assert rate * total as real == part as real;
    assert gap * total as real == part as real - bound * total as real;
    if gap >= 0.0 {
      assert gap * total as real >= 0.0;
    } else {
      assert (-gap) * total as real > 0.0;
    }
  }

  lemma BandsInReals(part: nat, total: nat)
    ensures 10 * part >= 9 * total <==> part as real >= 0.9 * total as real
    ensures 4 * part >= 3 * total <==> part as real >= 0.75 * total as real
    ensures 2 * part >= total <==> part as real >= 0.5 * total as real
    ensures 4 * part >= total <==> part as real >= 0.25 * total as real
  {
    assert (10 * part) as real == 10.0 * part as real && (9 * total) as real == 9.0 * total as real;
    assert (4 * part) as real == 4.0 * part as real && (3 * total) as real == 3.0 * total as real;
    assert (2 * part) as real == 2.0 * part as real;
  }

  /** One judgement: the alert's status says how it went, and the rule behind it counts it. */
  lemma TriageMarks(st: State, id: AlertId, d: Disposition)
    requires TriageAlert(st, id, d).Done?
    ensures var st' := TriageAlert(st, id, d).state;
      && id in st'.alerts && st'.alerts[id].reviewed && st'.cases == st.cases
      && (st'.alerts[id].status == FalsePositiveAlert <==> d == FalsePositive)
      && (st'.alerts[id].status == Dismissed <==> d == NoAction)
      && (st'.alerts[id].status == EscalatedAlert <==> d in {SarFiled, ReferredToAuthority, AccountRestricted})
      && (forall a :: a in st.alerts && a != id ==> a in st'.alerts && st'.alerts[a] == st.alerts[a])
      && st'.feedback == st.feedback + [Feedback(Some(id), None, st.alerts[id].ruleId, d)]
    ensures st.alerts[id].ruleId.Some? && st.alerts[id].ruleId.value in st.rules ==>
      var r := st.alerts[id].ruleId.value;
      var before, after := st.rules[r], TriageAlert(st, id, d).state.rules[r];
      && after.falsePositives == before.falsePositives + (if d == FalsePositive then 1 else 0)
      && after.truePositives == before.truePositives + (if d == FalsePositive then 0 else 1)
  {
  }

  /** Closing sets the disposition, keeps notes that are not replaced, and leaves the rest of the case as it was. */
  lemma CloseSets(st: State, c: CaseId, d: Disposition, notes: Option<string>, actor: Option<string>)
    requires CloseCase(st, c, d, notes, actor).Done?
    ensures c in CloseCase(st, c, d, notes, actor).state.cases
    ensures var before, after := st.cases[c], CloseCase(st, c, d, notes, actor).state.cases[c];
      && after.status == Closed && after.disposition == Some(d)
      && after.notes == (if notes.Some? then notes else before.notes)
      && after.alertIds == before.alertIds && after.priority == before.priority && after.riskScore == before.riskScore
      && after.exposureUsd == before.exposureUsd && after.subject == before.subject
         && after.assignedTo == before.assignedTo
      && |after.timeline| == |before.timeline| + 1 && before.timeline <= after.timeline
  {
    CloseReviewsAll(st, c, d, notes, actor);
    CloseKeepsCases(st, c, d, notes, actor);
  }

  lemma CloseKeepsCases(st: State, c: CaseId, d: Disposition, notes: Option<string>, actor: Option<string>)
    requires CloseCase(st, c, d, notes, actor).Done?
    ensures CloseCase(st, c, d, notes, actor).state.cases == st.cases[c := ClosedCase(st.cases[c], d, notes, actor)]
  {
    var k := ClosedCase(st.cases[c], d, notes, actor);
    TriageAllKeepsCases(WithCase(st, c, k), k.alertIds, d);
  }

  lemma {:induction false} TriageAllKeepsCases(st: State, ids: seq<AlertId>, d: Disposition)
    ensures TriageAll(st, ids, d).cases == st.cases
  {
    if ids != [] {
      TriageAllKeepsCases(st, ids[..|ids| - 1], d);
    }
  }

  /** A case takes over the alerts it lists: linked, marked as triaged, and nothing else about them changed. */
  ghost predicate TakesOver(st: State, st': State, c: CaseId, ids: seq<AlertId>) {
    && st'.alerts.Keys == st.alerts.Keys && st'.rules == st.rules && st'.feedback == st.feedback
    && (forall a :: a in ids ==> a in st.alerts)
    && (forall a :: a in st.alerts ==>
          st'.alerts[a] == if a in ids then st.alerts[a].(caseId := Some(c), status := Triaged) else st.alerts[a])
    && (forall k :: k in st.cases && k != c ==> k in st'.cases && st'.cases[k] == st.cases[k])
  }

  /** A new case is open and undecided; its subject is the one given, or the account of the first alert that has one. */
  lemma CreateSets(
      st: State, id: CaseId, year: int, ids: seq<AlertId>, subject: Option<string>, priority: Option<Severity>,
      actor: Option<string>)
    requires id !in st.cases && CreateCase(st, id, year, ids, subject, priority, actor).Done?
    ensures var st' := CreateCase(st, id, year, ids, subject, priority, actor).state;
      && TakesOver(st, st', id, ids) && id in st'.cases && st'.cases.Keys == st.cases.Keys + {id}
      && var k := st'.cases[id];
      && k.status == Open && k.disposition.None? && k.assignedTo.None? && k.notes.None? && k.alertIds == ids
      && |k.timeline| == 1 && (priority.Some? ==> k.priority == priority.value)
      && (subject.Some? ==> k.subject == subject)
      && (subject.None? ==> FirstWithUser(st, ids, k.subject))
  {
    hide FirstWithUser, TakesOver, LinkAlerts, NewCase, FirstUser;
    CountedIds(st.alerts, ids);
    LinksTakeOver(st, id, NewCase(st, year, ids, subject, priority, actor), ids);
    FirstUserIsFirst(st, ids);
    NewCaseIs(st, year, ids, subject, priority, actor);
  }

  lemma NewCaseIs(
      st: State, year: int, ids: seq<AlertId>, subject: Option<string>, priority: Option<Severity>,
      actor: Option<string>)
    requires forall a :: a in ids ==> a in st.alerts
    ensures var k := NewCase(st, year, ids, subject, priority, actor);
      && k.status == Open && k.disposition.None? && k.assignedTo.None? && k.notes.None? && k.alertIds == ids
      && |k.timeline| == 1 && (priority.Some? ==> k.priority == priority.value)
      && k.subject == if subject.Some? then subject else FirstUser(st.alerts, ids)
  {
  }

  lemma LinksTakeOver(st: State, c: CaseId, k: Case, ids: seq<AlertId>)
    requires forall a :: a in ids ==> a in st.alerts
    ensures TakesOver(st, WithLinks(WithCase(st, c, k), ids, c), c, ids)
  {
  }

  ghost predicate FirstWithUser(st: State, ids: seq<AlertId>, user: Option<string>) {
    if user.None? then forall i :: 0 <= i < |ids| && ids[i] in st.alerts ==> st.alerts[ids[i]].userId.None?
    else exists i :: 0 <= i < |ids| && ids[i] in st.alerts && st.alerts[ids[i]].userId == user
                     && forall j :: 0 <= j < i && ids[j] in st.alerts ==> st.alerts[ids[j]].userId.None?
  }

  lemma {:induction false} FirstUserIsFirst(st: State, ids: seq<AlertId>)
    requires forall a :: a in ids ==> a in st.alerts
    ensures FirstWithUser(st, ids, FirstUser(st.alerts, ids))
  {
    if ids != [] && st.alerts[ids[0]].userId.None? {
      var rest := ids[1..];
      FirstUserIsFirst(st, rest);
      var user := FirstUser(st.alerts, rest);
      if user.Some? {
        var i :| 0 <= i < |rest| && rest[i] in st.alerts && st.alerts[rest[i]].userId == user
                 && forall j :: 0 <= j < i && rest[j] in st.alerts ==> st.alerts[rest[j]].userId.None?;
        assert ids[i + 1] == rest[i];
        forall j | 0 <= j < i + 1 && ids[j] in st.alerts ensures st.alerts[ids[j]].userId.None? {
          assert j > 0 ==> ids[j] == rest[j - 1];
        }
      } else {
        forall j | 0 <= j < |ids| && ids[j] in st.alerts ensures st.alerts[ids[j]].userId.None? {
          assert j > 0 ==> ids[j] == rest[j - 1];
        }
      }
    }
  }

  /** An enlarged case lists what it listed and then the new alerts, in the order given, and is otherwise as it was. */
  lemma AttachSets(st: State, c: CaseId, ids: seq<AlertId>, actor: Option<string>)
    requires AttachAlerts(st, c, ids, actor).Done?
    ensures var st' := AttachAlerts(st, c, ids, actor).state;
      && TakesOver(st, st', c, ids) && c in st'.cases && st'.cases.Keys == st.cases.Keys
      && var before, after := st.cases[c], st'.cases[c];
      && before.alertIds <= after.alertIds && before.timeline <= after.timeline
      && |after.timeline| == |before.timeline| + 1
      && (forall a :: a in after.alertIds <==> a in before.alertIds || a in ids)
      && after.status == before.status && after.priority == before.priority && after.disposition == before.disposition
      && after.assignedTo == before.assignedTo && after.notes == before.notes && after.subject == before.subject
  {
    CountedIds(st.alerts, ids);
    LinksTakeOver(st, c, Enlarged(st.alerts, st.cases[c], ids, actor), ids);
    KeepElements(ids, st.cases[c].alertIds, false);
  }

  /** The gravest severity of the alerts, by name. */
  lemma PriorityByAlerts(
      st: State, id: CaseId, year: int, ids: seq<AlertId>, subject: Option<string>, actor: Option<string>)
    requires id !in st.cases && CreateCase(st, id, year, ids, subject, None, actor).Done?
    ensures CreateCase(st, id, year, ids, subject, None, actor).state.cases[id].priority ==
      if SomeAlertIs(st, ids, Critical) then Critical else if SomeAlertIs(st, ids, High) then High
      else if SomeAlertIs(st, ids, Medium) || ids == [] then Medium else Low
  {
    CreatePriority(st, id, year, ids, subject, actor);
  }

  ghost predicate SomeAlertIs(st: State, ids: seq<AlertId>, s: Severity) {
    exists a :: a in ids && a in st.alerts && st.alerts[a].severity == s
  }
}

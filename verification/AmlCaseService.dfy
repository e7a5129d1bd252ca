/**
 The case service as it stores things: repositories that its methods update one save at a time, each
 method proved to be the operation of AmlCases it implements.
 */
module AmlCaseRepositories {
  import opened Collections
  import opened Options
  import opened AmlCases

  class AmlCaseService {
    var alerts: map<AlertId, Alert>
    var cases: map<CaseId, Case>
    var rules: map<RuleId, Rule>
    var feedback: seq<Feedback>

    constructor (st: State)
      ensures View() == st
    {
      alerts, cases, rules, feedback := st.alerts, st.cases, st.rules, st.feedback;
    }

    function View(): State
      reads this
    {
      State(alerts, cases, rules, feedback)
    }

    ghost predicate Outcome(before: State, o: AmlCases.Outcome, error: Option<Error>)
      reads this
    {
      View() == After(before, o) && error == if o.Failed? then Some(o.error) else None
    }

    method OpenCase(
        id: CaseId, year: int, ids: seq<AlertId>, subject: Option<string>, priority: Option<Severity>,
        actor: Option<string>)
      returns (error: Option<Error>)
      requires id !in cases
      modifies this
      ensures Outcome(old(View()), CreateCase(old(View()), id, year, ids, subject, priority, actor), error)
    {
      if RowCount(alerts, ids) != |ids| {
        return Some(NotFound);
      }
      if SomeLinked(alerts, ids) {
        return Some(BadRequest);
      }
      CountedIds(alerts, ids);
      var prio := Medium;
      if priority.Some? {
        prio := priority.value;
      } else if |ids| > 0 {
        prio := HighestSeverity(alerts, ids);
      }
      var subjectUserId := if subject.Some? then subject else FirstUser(alerts, ids);
      var k := Case(NextNumber(cases, year), subjectUserId, prio, Open, ids, MaxRisk(alerts, ids, 0.0),
          Exposure(alerts, ids),
                    None, None, None, [Entry("case_opened", actor)]);
      cases := cases[id := k];
      alerts := LinkAlerts(alerts, ids, id);
      error := None;
    }

    method Attach(caseId: CaseId, ids: seq<AlertId>, actor: Option<string>) returns (error: Option<Error>)
      modifies this
      ensures Outcome(old(View()), AttachAlerts(old(View()), caseId, ids, actor), error)
    {
      if caseId !in cases {
        return Some(NotFound);
      }
      var target := cases[caseId];
      if RowCount(alerts, ids) != |ids| {
        return Some(NotFound);
      }
      if SomeLinkedElsewhere(alerts, ids, caseId) {
        return Some(BadRequest);
      }
      CountedIds(alerts, ids);
      var riskScore := MaxRisk(alerts, ids, target.riskScore);
      var exposureUsd := target.exposureUsd + Exposure(alerts, ids);
      var alertIds := target.alertIds + Keep(ids, target.alertIds, false);
      target := target.(alertIds := alertIds, riskScore := riskScore, exposureUsd := exposureUsd,
                        timeline := target.timeline + [Entry("alerts_attached", actor)]);
      assert target == Enlarged(alerts, cases[caseId], ids, actor);
      alerts := LinkAlerts(alerts, ids, caseId);
      cases := cases[caseId := target];
      error := None;
    }

    method Edit(caseId: CaseId, u: CaseUpdate, actor: Option<string>) returns (error: Option<Error>)
      modifies this`cases
      ensures Outcome(old(View()), UpdateCase(old(View()), caseId, u, actor), error)
    {
      if caseId !in cases {
        return Some(NotFound);
      }
      var target := cases[caseId];
      if target.status == Closed {
        return Some(BadRequest);
      }
      if u.status.Some? {
        target := target.(status := u.status.value, timeline := target.timeline + [Entry("status", actor)]);
      }
      if u.priority.Some? {
        target := target.(priority := u.priority.value,
            timeline := target.timeline + [Entry("priority_changed", actor)]);
      }
      if u.assignedTo.Some? {
        target := target.(assignedTo := u.assignedTo, timeline := target.timeline + [Entry("assigned", actor)]);
      }
      if u.notes.Some? {
        target := target.(notes := u.notes, timeline := target.timeline + [Entry("note_added", actor)]);
      }
      cases := cases[caseId := target];
      error := None;
    }

    method SaveFeedback(row: Feedback)
      modifies this`rules, this`feedback
      ensures View() == RecordFeedback(old(View()), row)
    {
      if row.ruleId.Some? && row.ruleId.value in rules {
        var rule := rules[row.ruleId.value];
        if row.disposition == FalsePositive {
          rule := rule.(falsePositives := rule.falsePositives + 1);
        } else {
          rule := rule.(truePositives := rule.truePositives + 1);
        }
        rule := rule.(sensitivity := SensitivityFromDisposition(rule.falsePositives, rule.truePositives));
        rules := rules[row.ruleId.value := rule];
      }
      feedback := feedback + [row];
    }

    method Triage(id: AlertId, d: Disposition) returns (error: Option<Error>)
      modifies this`alerts, this`rules, this`feedback
      ensures Outcome(old(View()), TriageAlert(old(View()), id, d), error)
    {
      if id !in alerts {
        return Some(NotFound);
      }
      var alert := alerts[id];
      if alert.reviewed {
        return Some(BadRequest);
      }
      alert := alert.(status := StatusFor(d));
      alert := alert.(reviewed := true);
      alerts := alerts[id := alert];
      SaveFeedback(Feedback(Some(id), None, alert.ruleId, d));
      error := None;
    }

    /** One judgement for every alert of the case nobody has judged, or one for the case itself. */
    method RecordDisposition(caseId: CaseId, ids: seq<AlertId>, d: Disposition)
      modifies this`alerts, this`rules, this`feedback
      ensures View() == RecordDispositionForCase(old(View()), caseId, ids, d)
    {
      if AllReviewed(alerts, ids) {
        SaveFeedback(Feedback(None, Some(caseId), None, d));
        return;
      }
      for i := 0 to |ids|
        invariant View() == TriageAll(old(View()), ids[..i], d)
      {
        assert ids[..i + 1][..i] == ids[..i];
        if ids[i] in alerts && !alerts[ids[i]].reviewed {
          var error := Triage(ids[i], d);
        }
      }
      assert ids[..|ids|] == ids;
    }

    method Close(caseId: CaseId, d: Disposition, notes: Option<string>, actor: Option<string>)
      returns (error: Option<Error>)
      modifies this
      ensures Outcome(old(View()), CloseCase(old(View()), caseId, d, notes, actor), error)
    {
      if caseId !in cases {
        return Some(NotFound);
      }
      var target := cases[caseId];
      if target.status == Closed {
        return Some(BadRequest);
      }
      target := target.(status := Closed);
      target := target.(disposition := Some(d));
      target := target.(notes := if notes.Some? then notes else target.notes);
      target := target.(timeline := target.timeline + [Entry("case_closed", actor)]);
      cases := cases[caseId := target];
      RecordDisposition(caseId, target.alertIds, d);
      error := None;
    }
  }
}

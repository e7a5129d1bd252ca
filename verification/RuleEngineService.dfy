/**
 The rule engine's lifecycle as the service runs it: rows read from the repository, changed, and saved
 one at a time.
 */
module RuleEngineRepositories {
  import opened Options
  import opened RuleEngine

  lemma DeprecateKeepsVersions(st: State, code: string)
    ensures VersionsOf(Deprecate(st, code, None), code) == VersionsOf(st, code)
  {
    var st' := Deprecate(st, code, None);
    forall v ensures v in VersionsOf(st', code) <==> v in VersionsOf(st, code) {
      if v in VersionsOf(st, code) {
        var i :| i in st.rules && st.rules[i].def.ruleCode == code && st.rules[i].def.version == v;
        assert st'.rules[i].def == st.rules[i].def;
      }
    }
  }

  /** The rows as they are while the active ones in left are still to be looked at. */
  ghost predicate Saved(
      before: map<RuleId, Rule>, rules: map<RuleId, Rule>, left: set<RuleId>, code: string, kept: Option<RuleId>) {
    && rules.Keys == before.Keys
    && (forall i :: i in left ==> i in before && IsActive(State(before), i, code))
    && forall i :: i in before ==>
         rules[i] == if IsActive(State(before), i, code) && i !in left && kept != Some(i) then
             before[i].(status := Deprecated) else before[i]
  }

  lemma NoneSaved(rules: map<RuleId, Rule>, found: set<RuleId>, code: string, kept: Option<RuleId>)
    requires found == set i | i in rules && rules[i].def.ruleCode == code && rules[i].status == Active
    ensures Saved(rules, rules, found, code, kept)
  {
  }

  lemma SavesNext(
      before: map<RuleId, Rule>, rules: map<RuleId, Rule>, left: set<RuleId>, code: string, kept: Option<RuleId>,
      i: RuleId)
    requires Saved(before, rules, left, code, kept) && i in left && i in rules
    ensures Saved(before, if kept == Some(i) then rules else rules[i := rules[i].(status := Deprecated)], left - {i},
      code, kept)
  {
  }

  lemma AllSaved(before: map<RuleId, Rule>, rules: map<RuleId, Rule>, code: string, kept: Option<RuleId>)
    requires Saved(before, rules, {}, code, kept)
    ensures rules == Deprecate(State(before), code, kept).rules
  {
  }

  class RegulatoryRuleEngineService {
    const js: Runtime
    var rules: map<RuleId, Rule>

    constructor (js: Runtime, st: State)
      ensures this.js == js && View() == st
    {
      this.js, this.rules := js, st.rules;
    }

    ghost function View(): State
      reads this
    {
      State(rules)
    }

    ghost predicate Outcome(o: RuleEngine.Outcome, error: Option<Error>)
      reads this
    {
      View() == o.state && error == if o.Failed? then Some(o.error) else None
    }

    method Create(id: RuleId, def: Definition) returns (error: Option<Error>)
      requires id !in rules
      modifies this
      ensures Outcome(CreateRule(old(View()), id, def), error)
    {
      if |def.conditions| == 0 {
        return Some(BadRequest);
      }
      rules := rules[id := Rule(def.(version := 1), Initial, Draft, None)];
      error := None;
    }

    method Edit(ruleId: RuleId, dto: RuleUpdate, id: RuleId) returns (error: Option<Error>)
      requires id !in rules
      modifies this
      ensures Outcome(EditRule(old(View()), ruleId, dto, id), error)
    {
      if ruleId !in rules {
        return Some(NotFound);
      }
      var existing := rules[ruleId];
      if existing.status == Active || existing.status == Staged {
        existing := existing.(status := Deprecated);
      }
      rules := rules[ruleId := existing];
      rules := rules[id := Rule(Revised(existing.def, dto), EditOf(ruleId), Draft, None)];
      error := None;
    }

    /** Saves every active version of the code but the kept one as deprecated, one row at a time. */
    method DeprecateOthers(code: string, kept: Option<RuleId>)
      modifies this
      ensures View() == Deprecate(old(View()), code, kept)
    {
      hide Saved, Deprecate;
      var found: set<RuleId> := set i | i in rules && rules[i].def.ruleCode == code && rules[i].status == Active;
      NoneSaved(rules, found, code, kept);
      while found != {}
        invariant found <= rules.Keys && Saved(old(rules), rules, found, code, kept)
        decreases |found|
      {
        var i :| i in found;
        SavesNext(old(rules), rules, found, code, kept, i);
        found := found - {i};
        if kept != Some(i) {
          rules := rules[i := rules[i].(status := Deprecated)];
        }
      }
      AllSaved(old(rules), rules, code, kept);
    }

    method Rollback(code: string, targetVersion: nat, target: Option<RuleId>, id: RuleId) returns (error: Option<Error>)
      requires id !in rules && (target.Some? ==> IsVersion(View(), target.value, code, targetVersion))
      modifies this
      ensures Outcome(RollbackRule(old(View()), code, targetVersion, target, id), error)
    {
      if target.None? {
        return Some(NotFound);
      }
      var targetRule := rules[target.value];
      DeprecateOthers(code, None);
      DeprecateKeepsVersions(old(View()), code);
      var latest := MaxOf(VersionsOf(State(rules), code));
      var nextVersion := (if latest == 0 then targetVersion else latest) + 1;
      rules := rules[id := Rule(targetRule.def.(version := nextVersion), RollbackOf(target.value), Active, None)];
      error := None;
    }

    method CountPassing(def: Definition, tests: seq<TestCase>) returns (passedTests: nat)
      ensures passedTests == PassedCount(js, def, tests)
    {
      passedTests := 0;
      for i := 0 to |tests|
        invariant passedTests == PassedCount(js, def, tests[..i])
      {
        assert tests[..i + 1][..i] == tests[..i];
        var isMatched := EvaluateConditionSet(js, def.conditions, def.logicalOperator, tests[i].inputFacts);
        var actualAction := if isMatched then def.action else Allow;
        var actualViolated := isMatched && def.action != Allow;
        if actualAction == tests[i].expectedAction && actualViolated == tests[i].expectedViolated {
          passedTests := passedTests + 1;
        }
      }
      assert tests[..|tests|] == tests;
    }

    method Test(ruleId: RuleId, custom: Option<seq<TestCase>>) returns (passed: bool, error: Option<Error>)
      modifies this
      ensures Outcome(TestRule(js, old(View()), ruleId, custom), error)
      ensures error.None? ==> var tests := Override(custom, old(rules)[ruleId].def.testCases);
                              passed == forall t :: t in tests ==> TestPasses(js, old(rules)[ruleId].def, t)
    {
      if ruleId !in rules {
        return false, Some(NotFound);
      }
      var rule := rules[ruleId];
      var tests := Override(custom, rule.def.testCases);
      if |tests| == 0 {
        return true, None;
      }
      var passedTests := CountPassing(rule.def, tests);
      passed, error := passedTests == |tests|, None;
      rule := rule.(testResults := Some(TestResults(passed, passedTests, |tests|)));
      if passed && rule.status == Draft {
        rule := rule.(status := Testing);
      }
      rules := rules[ruleId := rule];
    }

    method Deploy(ruleId: RuleId, live: bool) returns (error: Option<Error>)
      modifies this
      ensures Outcome(DeployRule(js, old(View()), ruleId, live), error)
    {
      if ruleId !in rules {
        return Some(NotFound);
      }
      var rule := rules[ruleId];
      if live {
        if |rule.def.testCases| > 0 {
          var passed, failure := Test(ruleId, None);
          if !passed {
            return Some(BadRequest);
          }
        }
        DeprecateOthers(rule.def.ruleCode, Some(ruleId));
      }
      rule := rule.(status := if live then Active else Staged);
      rules := rules[ruleId := rule];
      error := None;
    }
  }
}

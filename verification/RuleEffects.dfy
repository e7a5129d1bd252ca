/**
 What the calls of the rule lifecycle do to the versions they touch, and that they leave the others alone
 (backend/src/compliance/regulatory-rule-engine.service.ts).
 */
module RuleEffects {
  import opened Options
  import opened RuleEngine

  /** Every version but these is stored as it was. */
  ghost predicate OthersStay(st: State, st': State, touched: set<RuleId>) {
    forall i :: i in st.rules && i !in touched ==> i in st'.rules && st'.rules[i] == st.rules[i]
  }

  ghost predicate Taken<T>(given: Option<T>, existing: T, result: T) {
    (given.Some? ==> result == given.value) && (given.None? ==> result == existing)
  }

  /** A rule without conditions is refused; any other is stored as the first version, a draft that was never tested. */
  lemma CreateSets(st: State, id: RuleId, def: Definition)
    requires id !in st.rules
    ensures CreateRule(st, id, def).Done? <==> def.conditions != []
    ensures def.conditions == [] ==> CreateRule(st, id, def) == Failed(st, BadRequest)
    ensures CreateRule(st, id, def).Done? ==>
      var st' := CreateRule(st, id, def).state;
      && OthersStay(st, st', {}) && st'.rules.Keys == st.rules.Keys + {id}
      && var r := st'.rules[id];
      && r.status == Draft && r.origin == Initial && r.testResults.None? && r.def.version == 1
      && r.def.ruleCode == def.ruleCode && r.def.jurisdiction == def.jurisdiction && r.def.action == def.action
      && r.def.conditions == def.conditions && r.def.logicalOperator == def.logicalOperator
      && r.def.testCases == def.testCases
  {
  }

  /**
   An edit stores a draft with the next number, each column the one given or the one there was, and takes the edited
   version out of service if it was active or staged.
   */
  lemma EditSets(st: State, ruleId: RuleId, dto: RuleUpdate, id: RuleId)
    requires id !in st.rules
    ensures EditRule(st, ruleId, dto, id).Done? <==> ruleId in st.rules
    ensures ruleId !in st.rules ==> EditRule(st, ruleId, dto, id) == Failed(st, NotFound)
    ensures ruleId in st.rules ==>
      var st' := EditRule(st, ruleId, dto, id).state;
      && OthersStay(st, st', {ruleId}) && st'.rules.Keys == st.rules.Keys + {id}
      && var before, r := st.rules[ruleId], st'.rules[id];
      && r.status == Draft && r.origin == EditOf(ruleId) && r.testResults.None?
      && r.def.version == before.def.version + 1 && r.def.ruleCode == before.def.ruleCode
      && Taken(dto.jurisdiction, before.def.jurisdiction, r.def.jurisdiction)
         && Taken(dto.action, before.def.action, r.def.action)
      && Taken(dto.conditions, before.def.conditions, r.def.conditions)
      && Taken(dto.logicalOperator, before.def.logicalOperator, r.def.logicalOperator)
      && Taken(dto.testCases, before.def.testCases, r.def.testCases)
      && st'.rules[ruleId].def == before.def && st'.rules[ruleId].testResults == before.testResults
      && st'.rules[ruleId].status == if before.status == Active || before.status == Staged then Deprecated
         else before.status
  {
  }

  /** The greatest number a code has. */
  ghost predicate IsLatest(st: State, code: string, v: nat) {
    && (exists i :: i in st.rules && st.rules[i].def.ruleCode == code && st.rules[i].def.version == v)
    && forall i :: i in st.rules && st.rules[i].def.ruleCode == code ==> st.rules[i].def.version <= v
  }

  /**
   A rollback stores the old definition under the number after the latest one, as the active version, and deprecates
   every version of the code that was active.
   */
  lemma RollbackSets(st: State, code: string, targetVersion: nat, target: RuleId, id: RuleId) returns (latest: nat)
    requires id !in st.rules && IsVersion(st, target, code, targetVersion) && VersionsPositive(st)
    ensures IsLatest(st, code, latest)
    ensures var o := RollbackRule(st, code, targetVersion, Some(target), id);
      && o.Done? && o.state.rules.Keys == st.rules.Keys + {id}
      && var r := o.state.rules[id];
      && r.status == Active && r.origin == RollbackOf(target) && r.testResults.None?
      && r.def == st.rules[target].def.(version := latest + 1)
      && forall i :: i in st.rules ==>
           o.state.rules[i] == if st.rules[i].def.ruleCode == code && st.rules[i].status == Active
                               then st.rules[i].(status := Deprecated) else st.rules[i]
  {
    latest := MaxOf(VersionsOf(st, code));
    assert st.rules[target].def.version in VersionsOf(st, code);
    var i :| i in st.rules && st.rules[i].def.ruleCode == code && st.rules[i].def.version == latest;
    forall j | j in st.rules && st.rules[j].def.ruleCode == code ensures st.rules[j].def.version <= latest {
      assert st.rules[j].def.version in VersionsOf(st, code);
    }
  }

  /** The places of the test cases that pass. */
  ghost function Passing(js: Runtime, def: Definition, tests: seq<TestCase>): set<nat> {
    set i: nat | i < |tests| && TestPasses(js, def, tests[i])
  }

  lemma {:induction false} PassedCountIs(js: Runtime, def: Definition, tests: seq<TestCase>)
    ensures PassedCount(js, def, tests) == |Passing(js, def, tests)|
  {
    if tests == [] {
      assert Passing(js, def, tests) == {};
    } else {
      var n := |tests| - 1;
      PassedCountIs(js, def, tests[..n]);
      assert Passing(js, def, tests) == Passing(js, def, tests[..n]) + if TestPasses(js, def, tests[n]) then {n as nat}
          else {};
    }
  }

  /** A test run records how many cases passed and whether all did; a draft that passes is in testing from then on. */
  lemma TestSets(js: Runtime, st: State, ruleId: RuleId, custom: Option<seq<TestCase>>)
    requires ruleId in st.rules
    ensures var tests := if custom.Some? then custom.value else st.rules[ruleId].def.testCases;
            var st' := TestRule(js, st, ruleId, custom).state;
      && TestRule(js, st, ruleId, custom).Done? && OthersStay(st, st', {ruleId}) && st'.rules.Keys == st.rules.Keys
      && (tests == [] ==> st' == st)
      && (tests != [] ==>
            && var before, r := st.rules[ruleId], st'.rules[ruleId];
            var all := forall t :: t in tests ==> TestPasses(js, before.def, t);
            && r.def == before.def && r.origin == before.origin && r.testResults.Some?
            && r.testResults.value.passedTestsCount == |Passing(js, before.def, tests)|
            && r.testResults.value.totalTestsCount == |tests| && (r.testResults.value.passed <==> all)
            && r.status == if before.status == Draft && all then Testing else before.status)
  {
    PassedCountIs(js, st.rules[ruleId].def, if custom.Some? then custom.value else st.rules[ruleId].def.testCases);
  }

  /** Staging sets the status alone. Going live deprecates the other active versions; a refusal leaves the test run. */
  lemma DeploySets(js: Runtime, st: State, ruleId: RuleId, live: bool)
    requires ruleId in st.rules
    ensures var o := DeployRule(js, st, ruleId, live);
      && o.state.rules.Keys == st.rules.Keys
      && (!live ==> o == Done(State(st.rules[ruleId := st.rules[ruleId].(status := Staged)])))
      && (live && o.Done? ==>
            && o.state.rules[ruleId] == st.rules[ruleId].(status := Active)
            && forall i :: i in st.rules && i != ruleId ==>
                 o.state.rules[i] ==
                   if st.rules[i].def.ruleCode == st.rules[ruleId].def.ruleCode && st.rules[i].status == Active
                   then st.rules[i].(status := Deprecated) else st.rules[i])
      && (o.Failed? ==> live && o.error == BadRequest && o.state == TestRule(js, st, ruleId, None).state)
  {
    TestSets(js, st, ruleId, None);
  }
}

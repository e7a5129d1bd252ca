/**
 The regulatory rule engine (backend/src/compliance/regulatory-rule-engine.service.ts): versioned
 rules with tests, deployment and rollback, and the decision the active rules reach on some facts.
 */
module RuleEngine {
  import opened Options

  type RuleId = string

  datatype Value = Null | Text(text: string) | Number(number: real) | Flag(flag: bool) | Items(items: seq<Value>)

  /** String(v).toLowerCase() and Number(v), the latter None for NaN. */
  datatype Runtime = Runtime(lower: Value -> string, number: Value -> Option<real>)

  /** Facts by dotted path. */
  type Facts = map<string, Value>

  datatype Operator =
    | Equals | NotEquals | GreaterThan | GreaterThanOrEqual | LessThan | LessThanOrEqual | In | NotIn | Contains

  datatype Condition = Condition(field: string, operator: Operator, value: Value)

  datatype Logical = And | Or

  datatype Action = Reject | RequireEnhancedDueDiligence | FlagReview | CapTransaction | Allow

  datatype TestCase = TestCase(inputFacts: Facts, expectedAction: Action, expectedViolated: bool)

  datatype Status = Draft | Testing | Staged | Active | Deprecated

  /** The columns no operation changes once a version is stored. */
  datatype Definition = Definition(
    ruleCode: string, version: nat, jurisdiction: string, action: Action, conditions: seq<Condition>,
    logicalOperator: Logical,
    testCases: seq<TestCase>)

  /** Told apart in the source by parentRuleId and the change notes. */
  datatype Origin = Initial | EditOf(parent: RuleId) | RollbackOf(parent: RuleId)

  datatype TestResults = TestResults(passed: bool, passedTestsCount: nat, totalTestsCount: nat)

  datatype Rule = Rule(def: Definition, origin: Origin, status: Status, testResults: Option<TestResults>)

  datatype State = State(rules: map<RuleId, Rule>)

  datatype Error = NotFound | BadRequest

  /** A failed call may have saved something before it gave up. */
  datatype Outcome = Done(state: State) | Failed(state: State, error: Error)

  // ---- Conditions ----

  function Resolve(facts: Facts, path: string): Value {
    if path != "" && path in facts then facts[path] else Null
  }

  predicate Compares(js: Runtime, op: Operator, a: Value, b: Value) {
    var x, y := js.number(a), js.number(b);
    x.Some? && y.Some?
    && match op
       case GreaterThan => x.value > y.value
       case GreaterThanOrEqual => x.value >= y.value
       case LessThan => x.value < y.value
       case LessThanOrEqual => x.value <= y.value
       case _ => false
  }

  predicate Includes(haystack: string, needle: string) {
    needle <= haystack || (haystack != [] && Includes(haystack[1..], needle))
  }

  predicate Listed(js: Runtime, fact: Value, items: seq<Value>) {
    exists i :: 0 <= i < |items| && js.lower(items[i]) == js.lower(fact)
  }

  predicate EvaluateSingleCondition(js: Runtime, c: Condition, facts: Facts) {
    var fact := Resolve(facts, c.field);
    if fact.Null? then
      match c.operator
      case Equals => c.value.Null?
      case NotEquals => !c.value.Null?
      case _ => false
    else
      match c.operator
      case Equals => js.lower(fact) == js.lower(c.value)
      case NotEquals => js.lower(fact) != js.lower(c.value)
      case In => c.value.Items? && Listed(js, fact, c.value.items)
      case NotIn => !c.value.Items? || !Listed(js, fact, c.value.items)
      case Contains => Includes(js.lower(fact), js.lower(c.value))
      case op => Compares(js, op, fact, c.value)
  }

  predicate EvaluateConditionSet(js: Runtime, conditions: seq<Condition>, operator: Logical, facts: Facts) {
    if conditions == [] then false
    else if operator == And then forall c :: c in conditions ==> EvaluateSingleCondition(js, c, facts)
    else exists c :: c in conditions && EvaluateSingleCondition(js, c, facts)
  }

  predicate Matches(js: Runtime, def: Definition, facts: Facts) {
    EvaluateConditionSet(js, def.conditions, def.logicalOperator, facts)
  }

  /** The operator that reads as the opposite. */
  function Opposite(op: Operator): Operator {
    match op
    case Equals => NotEquals
    case NotEquals => Equals
    case GreaterThan => LessThanOrEqual
    case LessThanOrEqual => GreaterThan
    case GreaterThanOrEqual => LessThan
    case LessThan => GreaterThanOrEqual
    case In => NotIn
    case NotIn => In
    case Contains => Contains
  }

  /** When the value to compare makes the operator's answer meaningful. */
  predicate Decidable(js: Runtime, c: Condition, facts: Facts) {
    var fact := Resolve(facts, c.field);
    match c.operator
    case Equals => true
    case NotEquals => true
    case In => !fact.Null?
    case NotIn => !fact.Null?
    case Contains => false
    case _ => !fact.Null? && js.number(fact).Some? && js.number(c.value).Some?
  }

  /** Opposite operators give opposite answers exactly when the fact is there, and a number where one is needed. */
  lemma OppositesDisagreeIff(js: Runtime, c: Condition, facts: Facts)
    ensures Decidable(js, c, facts) <==>
            EvaluateSingleCondition(js, c, facts) !=
            EvaluateSingleCondition(js, c.(operator := Opposite(c.operator)), facts)
  {
  }

  // ---- What conditions say ----

  lemma {:induction false} IncludesIff(haystack: string, needle: string)
    ensures Includes(haystack, needle) <==> exists before, after :: haystack == before + needle + after
  {
    if needle <= haystack {
      assert haystack == "" + needle + haystack[|needle|..];
    } else if haystack != "" {
      IncludesIff(haystack[1..], needle);
      if before, after :| haystack[1..] == before + needle + after {
        assert haystack == ([haystack[0]] + before) + needle + after;
      }
    }
    if before, after :| haystack == before + needle + after {
      if before == "" {
        assert haystack == needle + after;
      } else {
        assert haystack[1..] == before[1..] + needle + after;
      }
    }
  }

  /** Numbers are compared as numbers, in the sense the operators' names have. */
  lemma NumbersCompare(js: Runtime, field: string, n: real, v: real, facts: Facts)
    requires field != "" && field in facts && facts[field] == Number(n)
    requires js.number(Number(n)) == Some(n) && js.number(Number(v)) == Some(v)
    ensures EvaluateSingleCondition(js, Condition(field, GreaterThan, Number(v)), facts) <==> n > v
    ensures EvaluateSingleCondition(js, Condition(field, GreaterThanOrEqual, Number(v)), facts) <==> n >= v
    ensures EvaluateSingleCondition(js, Condition(field, LessThan, Number(v)), facts) <==> n < v
    ensures EvaluateSingleCondition(js, Condition(field, LessThanOrEqual, Number(v)), facts) <==> n <= v
  {
  }

  /** Anything else is compared as text, in lower case; a list holds the fact when it equals one of its items. */
  lemma TextsCompare(js: Runtime, field: string, v: Value, items: seq<Value>, facts: Facts)
    requires field != "" && field in facts && !facts[field].Null?
    ensures EvaluateSingleCondition(js, Condition(field, Equals, v), facts) <==> js.lower(facts[field]) == js.lower(v)
    ensures EvaluateSingleCondition(js, Condition(field, In, Items(items)), facts) <==>
            exists item :: item in items && EvaluateSingleCondition(js, Condition(field, Equals, item), facts)
    ensures EvaluateSingleCondition(js, Condition(field, Contains, v), facts) <==>
            exists before, after :: js.lower(facts[field]) == before + js.lower(v) + after
  {
    IncludesIff(js.lower(facts[field]), js.lower(v));
    if i :| 0 <= i < |items| && js.lower(items[i]) == js.lower(facts[field]) {
      assert items[i] in items && EvaluateSingleCondition(js, Condition(field, Equals, items[i]), facts);
    }
    if item :| item in items && EvaluateSingleCondition(js, Condition(field, Equals, item), facts) {
      var i :| 0 <= i < |items| && items[i] == item;
    }
  }

  /** About a fact that is missing only equality with null holds, and inequality with anything else. */
  lemma MissingFact(js: Runtime, c: Condition, facts: Facts)
    requires c.field !in facts || facts[c.field].Null?
    ensures EvaluateSingleCondition(js, c, facts) <==>
            (c.operator == Equals && c.value.Null?) || (c.operator == NotEquals && !c.value.Null?)
  {
  }

  /** One condition more narrows a rule that asks for all of them, and widens one that asks for any. */
  lemma OneMoreCondition(js: Runtime, conditions: seq<Condition>, c: Condition, facts: Facts)
    ensures EvaluateConditionSet(js, conditions + [c], And, facts) <==>
            EvaluateSingleCondition(js, c, facts)
                && (conditions == [] || EvaluateConditionSet(js, conditions, And, facts))
    ensures EvaluateConditionSet(js, conditions + [c], Or, facts) <==>
            EvaluateSingleCondition(js, c, facts) || EvaluateConditionSet(js, conditions, Or, facts)
  {
    assert forall d :: d in conditions + [c] <==> d in conditions || d == c;
  }

  // ---- Lifecycle ----

  predicate TestPasses(js: Runtime, def: Definition, tc: TestCase) {
    var matched := Matches(js, def, tc.inputFacts);
    tc.expectedAction == (if matched then def.action else Allow)
        && tc.expectedViolated == (matched && def.action != Allow)
  }

  function PassedCount(js: Runtime, def: Definition, tests: seq<TestCase>): (n: nat)
    ensures n <= |tests|
    ensures n == |tests| <==> forall t :: t in tests ==> TestPasses(js, def, t)
  {
    if tests == [] then 0
    else
      assert tests == tests[..|tests| - 1] + [tests[|tests| - 1]];
      PassedCount(js, def, tests[..|tests| - 1]) + if TestPasses(js, def, tests[|tests| - 1]) then 1 else 0
  }

  predicate PassesOwnTests(js: Runtime, def: Definition) {
    forall t :: t in def.testCases ==> TestPasses(js, def, t)
  }

  function WithRule(st: State, id: RuleId, r: Rule): State {
    State(st.rules[id := r])
  }

  /** code has been trimmed and upper-cased; id is the UUID drawn for the row. */
  function CreateRule(st: State, id: RuleId, def: Definition): Outcome
    requires id !in st.rules
  {
    if def.conditions == [] then Failed(st, BadRequest)
    else Done(WithRule(st, id, Rule(def.(version := 1), Initial, Draft, None)))
  }

  datatype RuleUpdate = RuleUpdate(
    jurisdiction: Option<string>, action: Option<Action>, conditions: Option<seq<Condition>>,
    logicalOperator: Option<Logical>,
    testCases: Option<seq<TestCase>>)

  function Override<T>(given: Option<T>, existing: T): T {
    if given.Some? then given.value else existing
  }

  function Revised(def: Definition, dto: RuleUpdate): Definition {
    Definition(def.ruleCode, def.version + 1, Override(dto.jurisdiction, def.jurisdiction),
               Override(dto.action, def.action), Override(dto.conditions, def.conditions),
               Override(dto.logicalOperator, def.logicalOperator), Override(dto.testCases, def.testCases))
  }

  function Retired(r: Rule): Rule {
    if r.status == Active || r.status == Staged then r.(status := Deprecated) else r
  }

  function EditRule(st: State, ruleId: RuleId, dto: RuleUpdate, id: RuleId): Outcome
    requires id !in st.rules
  {
    if ruleId !in st.rules then Failed(st, NotFound)
    else
      var existing := st.rules[ruleId];
      Done(WithRule(WithRule(st, ruleId, Retired(existing)), id,
          Rule(Revised(existing.def, dto), EditOf(ruleId), Draft, None)))
  }

  predicate IsActive(st: State, id: RuleId, code: string) {
    id in st.rules && st.rules[id].def.ruleCode == code && st.rules[id].status == Active
  }

  /** Every active version of the code, but for one, is deprecated. */
  function Deprecate(st: State, code: string, kept: Option<RuleId>): State {
    State(map i | i in st.rules ::
        if IsActive(st, i, code) && kept != Some(i) then st.rules[i].(status := Deprecated) else st.rules[i])
  }

  function VersionsOf(st: State, code: string): set<nat> {
    set i | i in st.rules && st.rules[i].def.ruleCode == code :: st.rules[i].def.version
  }

  function MaxOf(s: set<nat>): (m: nat)
    ensures forall v :: v in s ==> v <= m
    ensures s != {} ==> m in s
  {
    if s == {} then 0
    else
      HasMax(s);
      var v :| v in s && forall w :: w in s ==> w <= v;
      v
  }

  lemma {:induction false} HasMax(s: set<nat>)
    requires s != {}
    ensures exists v :: v in s && forall w :: w in s ==> w <= v
    decreases |s|
  {
    var x :| x in s;
    if s == {x} {
    } else {
      HasMax(s - {x});
      var m :| m in s - {x} && forall w :: w in s - {x} ==> w <= m;
      assert forall w :: w in s ==> w == x || w in s - {x};
      if x > m {
        assert forall w :: w in s ==> w <= x;
      } else {
        assert forall w :: w in s ==> w <= m;
      }
    }
  }

  predicate IsVersion(st: State, id: RuleId, code: string, version: nat) {
    id in st.rules && st.rules[id].def.ruleCode == code && st.rules[id].def.version == version
  }

  function NextVersion(st: State, code: string, targetVersion: nat): nat {
    var latest := MaxOf(VersionsOf(st, code));
    (if latest == 0 then targetVersion else latest) + 1
  }

  /** target is the row found for the version asked for. */
  function RollbackRule(st: State, code: string, targetVersion: nat, target: Option<RuleId>, id: RuleId): Outcome
    requires id !in st.rules
    requires target.Some? ==> IsVersion(st, target.value, code, targetVersion)
  {
    if target.None? then Failed(st, NotFound)
    else
      var def := st.rules[target.value].def.(version := NextVersion(st, code, targetVersion));
      Done(WithRule(Deprecate(st, code, None), id, Rule(def, RollbackOf(target.value), Active, None)))
  }

  function Tested(js: Runtime, r: Rule, tests: seq<TestCase>): Rule {
    var passed := PassedCount(js, r.def, tests);
    Rule(r.def, r.origin, if passed == |tests| && r.status == Draft then Testing else r.status,
         Some(TestResults(passed == |tests|, passed, |tests|)))
  }

  function TestRule(js: Runtime, st: State, ruleId: RuleId, custom: Option<seq<TestCase>>): Outcome {
    if ruleId !in st.rules then Failed(st, NotFound)
    else
      var tests := Override(custom, st.rules[ruleId].def.testCases);
      if tests == [] then Done(st) else Done(WithRule(st, ruleId, Tested(js, st.rules[ruleId], tests)))
  }

  /** The row was read before the tests were run, and saving it writes those columns back. */
  function DeployRule(js: Runtime, st: State, ruleId: RuleId, live: bool): Outcome {
    if ruleId !in st.rules then Failed(st, NotFound)
    else
      var rule := st.rules[ruleId];
      if !live then Done(WithRule(st, ruleId, rule.(status := Staged)))
      else
        var tested := TestRule(js, st, ruleId, None).state;
        if rule.def.testCases != [] && !PassesOwnTests(js, rule.def) then Failed(tested, BadRequest)
        else Done(WithRule(Deprecate(tested, rule.def.ruleCode, Some(ruleId)), ruleId, rule.(status := Active)))
  }

  // ---- The decision ----

  function Priority(a: Action): nat {
    match a
    case Reject => 5
    case RequireEnhancedDueDiligence => 4
    case FlagReview => 3
    case CapTransaction => 2
    case Allow => 1
  }

  function Decision(js: Runtime, rules: seq<Definition>, facts: Facts): Action {
    if rules == [] then Allow
    else
      var before := Decision(js, rules[..|rules| - 1], facts);
      var last := rules[|rules| - 1];
      if Matches(js, last, facts) && Priority(last.action) > Priority(before) then last.action else before
  }

  function Matched(js: Runtime, rules: seq<Definition>, facts: Facts): seq<Definition> {
    if rules == [] then []
    else
      Matched(js, rules[..|rules| - 1], facts) + if Matches(js, rules[|rules| - 1], facts) then [rules[|rules| - 1]]
          else []
  }

  function Violations(js: Runtime, rules: seq<Definition>, facts: Facts): seq<string> {
    if rules == [] then []
    else
      var last := rules[|rules| - 1];
      Violations(js, rules[..|rules| - 1], facts) + if Matches(js, last, facts) && last.action != Allow then
          [last.ruleCode] else []
  }

  predicate Applies(r: Rule, jurisdiction: string) {
    r.status == Active && (r.def.jurisdiction == jurisdiction || r.def.jurisdiction == "GLOBAL")
  }

  datatype Result = Result(decision: Action, isCompliant: bool, matchedRules: seq<Definition>, violations: seq<string>)

  method EvaluateFacts(js: Runtime, rules: seq<Definition>, facts: Facts) returns (r: Result)
    ensures r.decision == Decision(js, rules, facts) && r.matchedRules == Matched(js, rules, facts)
    ensures r.violations == Violations(js, rules, facts) && (r.isCompliant <==> r.violations == [])
  {
    var matchedRules: seq<Definition> := [];
    var violations: seq<string> := [];
    var overallDecision := Allow;
    for i := 0 to |rules|
      invariant overallDecision == Decision(js, rules[..i], facts)
      invariant matchedRules == Matched(js, rules[..i], facts)
      invariant violations == Violations(js, rules[..i], facts)
    {
      assert rules[..i + 1][..i] == rules[..i];
      var rule := rules[i];
      if EvaluateConditionSet(js, rule.conditions, rule.logicalOperator, facts) {
        matchedRules := matchedRules + [rule];
        if rule.action != Allow {
          violations := violations + [rule.ruleCode];
        }
        if Priority(rule.action) > Priority(overallDecision) {
          overallDecision := rule.action;
        }
      }
    }
    assert rules[..|rules|] == rules;
    CompliantIffNoViolations(js, rules, facts);
    r := Result(overallDecision, overallDecision == Allow, matchedRules, violations);
  }

  lemma {:induction false} CompliantIffNoViolations(js: Runtime, rules: seq<Definition>, facts: Facts)
    ensures Decision(js, rules, facts) == Allow <==> Violations(js, rules, facts) == []
  {
    if rules != [] {
      CompliantIffNoViolations(js, rules[..|rules| - 1], facts);
    }
  }

  ghost predicate Attained(js: Runtime, rules: seq<Definition>, facts: Facts, a: Action) {
    a == Allow || exists r :: r in rules && Matches(js, r, facts) && r.action == a
  }

  /** The decision is an action some matched rule asks for, and no matched rule asks for a graver one. */
  ghost predicate Gravest(js: Runtime, rules: seq<Definition>, facts: Facts, a: Action) {
    Attained(js, rules, facts, a) && forall r :: r in rules && Matches(js, r, facts) ==>
        Priority(r.action) <= Priority(a)
  }

  lemma {:induction false} DecisionIsGravest(js: Runtime, rules: seq<Definition>, facts: Facts)
    ensures Gravest(js, rules, facts, Decision(js, rules, facts))
  {
    if rules != [] {
      var n := |rules| - 1;
      DecisionIsGravest(js, rules[..n], facts);
      assert rules == rules[..n] + [rules[n]];
    }
  }

  ghost predicate AskedFor(js: Runtime, rules: seq<Definition>, facts: Facts, a: Action) {
    exists r :: r in rules && Matches(js, r, facts) && r.action == a
  }

  /** Rejection before enhanced due diligence before review before a cap, and leave only when nobody asks for any. */
  lemma DecisionByAction(js: Runtime, rules: seq<Definition>, facts: Facts)
    ensures Decision(js, rules, facts) ==
      if AskedFor(js, rules, facts, Reject) then Reject
      else if AskedFor(js, rules, facts, RequireEnhancedDueDiligence) then RequireEnhancedDueDiligence
      else if AskedFor(js, rules, facts, FlagReview) then FlagReview
      else if AskedFor(js, rules, facts, CapTransaction) then CapTransaction
      else Allow
  {
    DecisionIsGravest(js, rules, facts);
  }

  /** The result names the rules that match, and the codes of those that ask for anything but leave. */
  lemma {:induction false} ReportIs(js: Runtime, rules: seq<Definition>, facts: Facts)
    ensures forall r :: r in Matched(js, rules, facts) <==> r in rules && Matches(js, r, facts)
    ensures forall code :: code in Violations(js, rules, facts) <==>
              exists r :: r in rules && Matches(js, r, facts) && r.action != Allow && r.ruleCode == code
  {
    if rules != [] {
      var n := |rules| - 1;
      ReportIs(js, rules[..n], facts);
      assert rules == rules[..n] + [rules[n]];
    }
  }

  /**
   A test case passes exactly when the version, alone in production, would decide and report what the case expects.
   */
  lemma TestIsProduction(js: Runtime, def: Definition, tc: TestCase)
    ensures TestPasses(js, def, tc) <==>
            && Decision(js, [def], tc.inputFacts) == tc.expectedAction
            && (tc.expectedViolated <==> Violations(js, [def], tc.inputFacts) != [])
  {
    assert [def][..0] == [];
    assert Decision(js, [], tc.inputFacts) == Allow && Violations(js, [], tc.inputFacts) == [];
  }

  lemma GravestIsUnique(js: Runtime, rules: seq<Definition>, facts: Facts, a: Action, b: Action)
    requires Gravest(js, rules, facts, a) && Gravest(js, rules, facts, b)
    ensures a == b
  {
    assert Priority(a) <= Priority(b) && Priority(b) <= Priority(a);
  }

  /** Only which rules are active matters, not the order or how often they are listed. */
  lemma DecisionIgnoresOrder(js: Runtime, rules: seq<Definition>, other: seq<Definition>, facts: Facts)
    requires forall r :: r in rules <==> r in other
    ensures Decision(js, rules, facts) == Decision(js, other, facts)
  {
    DecisionIsGravest(js, rules, facts);
    DecisionIsGravest(js, other, facts);
    assert Gravest(js, other, facts, Decision(js, rules, facts));
    GravestIsUnique(js, other, facts, Decision(js, rules, facts), Decision(js, other, facts));
  }

  /** More rules never make the decision milder. */
  lemma DecisionIsMonotone(js: Runtime, rules: seq<Definition>, more: seq<Definition>, facts: Facts)
    requires forall r :: r in rules ==> r in more
    ensures Priority(Decision(js, rules, facts)) <= Priority(Decision(js, more, facts))
  {
    DecisionIsGravest(js, rules, facts);
    DecisionIsGravest(js, more, facts);
  }

  // ---- Every reachable state ----

  datatype Call =
    | Creating(id: RuleId, def: Definition)
    | Editing(ruleId: RuleId, dto: RuleUpdate, id: RuleId)
    | RollingBack(code: string, targetVersion: nat, target: Option<RuleId>, id: RuleId)
    | TestingRule(ruleId: RuleId, custom: Option<seq<TestCase>>)
    | Deploying(ruleId: RuleId, live: bool)

  /** Fresh ids, and a rollback target that is a row of the version asked for, if there is one. */
  ghost predicate Possible(st: State, c: Call) {
    match c
    case Creating(id, _) => id !in st.rules
    case Editing(_, _, id) => id !in st.rules
    case RollingBack(code, v, target, id) =>
      && id !in st.rules && (target.Some? ==> IsVersion(st, target.value, code, v))
      && (target.None? ==> forall i :: !IsVersion(st, i, code, v))
    case _ => true
  }

  function Perform(js: Runtime, st: State, c: Call): Outcome
    requires Possible(st, c)
  {
    match c
    case Creating(id, def) => CreateRule(st, id, def)
    case Editing(ruleId, dto, id) => EditRule(st, ruleId, dto, id)
    case RollingBack(code, v, target, id) => RollbackRule(st, code, v, target, id)
    case TestingRule(ruleId, custom) => TestRule(js, st, ruleId, custom)
    case Deploying(ruleId, live) => DeployRule(js, st, ruleId, live)
  }

  ghost predicate Feasible(js: Runtime, st: State, calls: seq<Call>)
    decreases |calls|
  {
    calls == [] || (Possible(st, calls[0]) && Feasible(js, Perform(js, st, calls[0]).state, calls[1..]))
  }

  ghost function Run(js: Runtime, st: State, calls: seq<Call>): State
    requires Feasible(js, st, calls)
    decreases |calls|
  {
    if calls == [] then st else Run(js, Perform(js, st, calls[0]).state, calls[1..])
  }

  ghost predicate OneActive(st: State) {
    forall i, j, code :: IsActive(st, i, code) && IsActive(st, j, code) ==> i == j
  }

  /** An active version passes its own tests, unless a rollback put it there untested. */
  ghost predicate ActiveIsTested(js: Runtime, st: State) {
    forall i :: i in st.rules && st.rules[i].status == Active ==>
        st.rules[i].origin.RollbackOf? || PassesOwnTests(js, st.rules[i].def)
  }

  ghost predicate VersionsPositive(st: State) {
    forall i :: i in st.rules ==> st.rules[i].def.version >= 1
  }

  ghost predicate Inv(js: Runtime, st: State) {
    OneActive(st) && ActiveIsTested(js, st) && VersionsPositive(st)
  }

  /** A rollback carries the definition of the version it goes back to, under a new number. */
  ghost predicate SameRules(a: Definition, b: Definition) {
    a == b.(version := a.version)
  }

  ghost predicate RollbacksCopy(st: State) {
    forall i :: i in st.rules && st.rules[i].origin.RollbackOf? ==>
      st.rules[i].origin.parent in st.rules && SameRules(st.rules[i].def, st.rules[st.rules[i].origin.parent].def)
  }

  ghost predicate Preserved(st: State, st': State) {
    forall i :: i in st.rules ==>
        i in st'.rules && st'.rules[i].def == st.rules[i].def && st'.rules[i].origin == st.rules[i].origin
  }

  lemma PerformPreserves(js: Runtime, st: State, c: Call)
    requires Possible(st, c)
    ensures Preserved(st, Perform(js, st, c).state)
  {
    hide PassedCount, PassesOwnTests, NextVersion, IsActive;
  }

  /** Whatever is called, a stored version's code, number, conditions, action and tests never change. */
  lemma {:induction false} VersionsAreImmutable(js: Runtime, st: State, calls: seq<Call>)
    requires Feasible(js, st, calls)
    ensures Preserved(st, Run(js, st, calls))
    decreases |calls|
  {
    if calls != [] {
      PerformPreserves(js, st, calls[0]);
      VersionsAreImmutable(js, Perform(js, st, calls[0]).state, calls[1..]);
    }
  }

  lemma DeprecateLeavesOne(st: State, code: string, kept: Option<RuleId>)
    requires OneActive(st)
    ensures OneActive(Deprecate(st, code, kept))
    ensures forall i :: IsActive(Deprecate(st, code, kept), i, code) ==> kept == Some(i)
    ensures forall i, other :: other != code ==>
      (IsActive(Deprecate(st, code, kept), i, other) <==> IsActive(st, i, other))
  {
    var st' := Deprecate(st, code, kept);
    forall i, any ensures IsActive(st', i, any) <==> IsActive(st, i, any) && (any != code || kept == Some(i)) {
    }
  }

  lemma DeployKeepsInv(js: Runtime, st: State, ruleId: RuleId, live: bool)
    requires Inv(js, st)
    ensures Inv(js, DeployRule(js, st, ruleId, live).state)
  {
    if ruleId in st.rules && live {
      var code := st.rules[ruleId].def.ruleCode;
      var tested := TestRule(js, st, ruleId, None).state;
      TestKeepsInv(js, st, ruleId, None);
      DeprecateLeavesOne(tested, code, Some(ruleId));
      var st' := DeployRule(js, st, ruleId, live).state;
      if st' != tested {
        forall i, any | IsActive(st', i, any)
          ensures if i == ruleId then any == code else any != code && IsActive(tested, i, any)
        {
          assert i != ruleId ==> IsActive(Deprecate(tested, code, Some(ruleId)), i, any);
        }
      }
    } else if ruleId in st.rules {
      forall i, any | IsActive(DeployRule(js, st, ruleId, live).state, i, any) ensures IsActive(st, i, any) {
      }
    }
  }

  lemma TestKeepsInv(js: Runtime, st: State, ruleId: RuleId, custom: Option<seq<TestCase>>)
    requires Inv(js, st)
    ensures Inv(js, TestRule(js, st, ruleId, custom).state)
  {
    var st' := TestRule(js, st, ruleId, custom).state;
    forall i, code ensures IsActive(st', i, code) <==> IsActive(st, i, code) {
    }
  }

  lemma RollbackKeepsInv(js: Runtime, st: State, code: string, targetVersion: nat, target: Option<RuleId>, id: RuleId)
    requires Inv(js, st) && Possible(st, RollingBack(code, targetVersion, target, id))
    ensures Inv(js, RollbackRule(st, code, targetVersion, target, id).state)
  {
    if target.Some? {
      DeprecateLeavesOne(st, code, None);
      var st' := RollbackRule(st, code, targetVersion, target, id).state;
      forall i, any | IsActive(st', i, any)
          ensures if i == id then any == code else IsActive(Deprecate(st, code, None), i, any) {
      }
    }
  }

  lemma EditKeepsInv(js: Runtime, st: State, ruleId: RuleId, dto: RuleUpdate, id: RuleId)
    requires Inv(js, st) && id !in st.rules
    ensures Inv(js, EditRule(st, ruleId, dto, id).state)
  {
    var st' := EditRule(st, ruleId, dto, id).state;
    forall i, code | IsActive(st', i, code) ensures IsActive(st, i, code) {
    }
  }

  lemma CreateKeepsInv(js: Runtime, st: State, id: RuleId, def: Definition)
    requires Inv(js, st) && id !in st.rules
    ensures Inv(js, CreateRule(st, id, def).state)
  {
    var st' := CreateRule(st, id, def).state;
    forall i, code | IsActive(st', i, code) ensures IsActive(st, i, code) {
    }
  }

  lemma PerformKeepsInv(js: Runtime, st: State, c: Call)
    requires Inv(js, st) && Possible(st, c)
    ensures Inv(js, Perform(js, st, c).state)
  {
    match c
    case Creating(id, def) => CreateKeepsInv(js, st, id, def);
    case Editing(ruleId, dto, id) => EditKeepsInv(js, st, ruleId, dto, id);
    case RollingBack(code, v, target, id) => RollbackKeepsInv(js, st, code, v, target, id);
    case TestingRule(ruleId, custom) => TestKeepsInv(js, st, ruleId, custom);
    case Deploying(ruleId, live) => DeployKeepsInv(js, st, ruleId, live);
  }

  lemma PerformKeepsCopies(js: Runtime, st: State, c: Call)
    requires RollbacksCopy(st) && Possible(st, c)
    ensures RollbacksCopy(Perform(js, st, c).state)
  {
    PerformPreserves(js, st, c);
  }

  /** In every reachable state each code has at most one active version, tested unless rolled back to. */
  lemma {:induction false} RunKeepsInv(js: Runtime, st: State, calls: seq<Call>)
    requires Inv(js, st) && RollbacksCopy(st) && Feasible(js, st, calls)
    ensures Inv(js, Run(js, st, calls)) && RollbacksCopy(Run(js, st, calls))
    decreases |calls|
  {
    if calls != [] {
      PerformKeepsInv(js, st, calls[0]);
      PerformKeepsCopies(js, st, calls[0]);
      RunKeepsInv(js, Perform(js, st, calls[0]).state, calls[1..]);
    }
  }

  /** An untested active version passes its tests exactly when the version it copies passes its own. */
  lemma RollbackPassesIff(js: Runtime, st: State, id: RuleId)
    requires RollbacksCopy(st) && id in st.rules && st.rules[id].origin.RollbackOf?
    ensures PassesOwnTests(js, st.rules[id].def) <==> PassesOwnTests(js, st.rules[st.rules[id].origin.parent].def)
  {
    var a, b := st.rules[id].def, st.rules[st.rules[id].origin.parent].def;
    forall t ensures TestPasses(js, a, t) <==> TestPasses(js, b, t) {
    }
  }

  // ---- What single calls achieve ----

  /** Going live succeeds exactly when the version exists and passes its tests; then it alone is active for its code. */
  lemma DeployedIff(js: Runtime, st: State, ruleId: RuleId)
    requires OneActive(st)
    ensures DeployRule(js, st, ruleId, true).Done? <==> ruleId in st.rules && PassesOwnTests(js, st.rules[ruleId].def)
    ensures DeployRule(js, st, ruleId, true).Done? ==>
              forall i :: IsActive(DeployRule(js, st, ruleId, true).state, i, st.rules[ruleId].def.ruleCode)
                  <==> i == ruleId
    ensures DeployRule(js, st, ruleId, true).Done? ==>
              DeployRule(js, st, ruleId, true).state.rules[ruleId].testResults == st.rules[ruleId].testResults
  {
  }

  /** The call that takes the live version of a code out of service without a successor. */
  ghost predicate Retires(c: Call, live: RuleId) {
    (c.Editing? && c.ruleId == live) || (c.Deploying? && !c.live && c.ruleId == live)
  }

  ghost predicate Armed(st: State, code: string) {
    exists i :: IsActive(st, i, code)
  }

  lemma ActiveAfter(js: Runtime, st: State, c: Call, live: RuleId, code: string)
    requires Possible(st, c) && OneActive(st) && IsActive(st, live, code) && !Retires(c, live)
    ensures Armed(Perform(js, st, c).state, code)
  {
    var st' := Perform(js, st, c).state;
    if c.Deploying? && c.live && c.ruleId in st.rules && st.rules[c.ruleId].def.ruleCode == code
        && Perform(js, st, c).Done? {
      assert IsActive(st', c.ruleId, code);
    } else if c.RollingBack? && c.code == code && c.target.Some? {
      assert IsActive(st', c.id, code);
    } else {
      assert IsActive(st', live, code);
    }
  }

  lemma NoneAfter(js: Runtime, st: State, c: Call, live: RuleId, code: string)
    requires Possible(st, c) && OneActive(st) && IsActive(st, live, code) && Retires(c, live)
    ensures !Armed(Perform(js, st, c).state, code)
  {
    var st' := Perform(js, st, c).state;
    forall i ensures IsActive(st', i, code) ==> IsActive(st, i, code) && i != live {
    }
  }

  /**
   A code that has an active version is left without one exactly when the call edits that version or
   deploys it as staged. Tests, failed deployments, rollbacks and calls about other versions keep it armed.
   */
  lemma DisarmedIff(js: Runtime, st: State, c: Call, live: RuleId, code: string)
    requires Possible(st, c) && OneActive(st) && IsActive(st, live, code)
    ensures !Armed(Perform(js, st, c).state, code) <==> Retires(c, live)
  {
    if Retires(c, live) {
      NoneAfter(js, st, c, live, code);
    } else {
      ActiveAfter(js, st, c, live, code);
    }
  }

  /** A rule created as "a" and put into production. */
  function WentLive(js: Runtime, def: Definition): State {
    DeployRule(js, CreateRule(State(map[]), "a", def).state, "a", true).state
  }

  lemma WentLiveIsReached(js: Runtime, def: Definition)
    requires def.conditions != [] && def.testCases == []
    ensures var calls := [Creating("a", def), Deploying("a", true)];
            Feasible(js, State(map[]), calls) && Run(js, State(map[]), calls) == WentLive(js, def)
    ensures WentLive(js, def) == State(map["a" := Rule(def.(version := 1), Initial, Active, None)])
  {
    var calls := [Creating("a", def), Deploying("a", true)];
    var stored := CreateRule(State(map[]), "a", def).state;
    assert WentLive(js, def).rules == map["a" := Rule(def.(version := 1), Initial, Active, None)];
    assert calls[1..] == [calls[1]] && [calls[1]][1..] == [];
    assert Perform(js, stored, calls[1]).state == WentLive(js, def) && Feasible(js, WentLive(js, def), []);
    assert Feasible(js, stored, [calls[1]]) && Run(js, stored, [calls[1]]) == WentLive(js, def);
  }

  /** Both calls that disarm a code occur. */
  lemma LiveRuleDisarmed(js: Runtime, def: Definition, dto: RuleUpdate)
    requires def.conditions != [] && def.testCases == []
    ensures var live := WentLive(js, def);
            && IsActive(live, "a", def.ruleCode)
            && !Armed(EditRule(live, "a", dto, "b").state, def.ruleCode)
            && !Armed(DeployRule(js, live, "a", false).state, def.ruleCode)
  {
    var live := WentLive(js, def);
    WentLiveIsReached(js, def);
    DisarmedIff(js, live, Editing("a", dto, "b"), "a", def.ruleCode);
    DisarmedIff(js, live, Deploying("a", false), "a", def.ruleCode);
  }

  /** An edit may leave no conditions, which creation refuses. */
  lemma EmptiedNeverMatches(js: Runtime, def: Definition, dto: RuleUpdate, facts: Facts)
    requires dto.conditions == Some([])
    ensures !Matches(js, Revised(def, dto), facts)
  {
  }

  ghost predicate ExpectsNothing(def: Definition) {
    forall t :: t in def.testCases ==> t.expectedAction == Allow && !t.expectedViolated
  }

  /**
   A version whose conditions an edit has emptied goes live exactly when its test cases expect nothing of it,
   and then changes no decision: the engine decides as if the code had no version.
   */
  lemma EmptiedIsInert(
      js: Runtime, st: State, ruleId: RuleId, dto: RuleUpdate, id: RuleId, rules: seq<Definition>, facts: Facts)
    requires ruleId in st.rules && id !in st.rules && dto.conditions == Some([])
    ensures var edited := EditRule(st, ruleId, dto, id).state;
            && (DeployRule(js, edited, id, true).Done? <==> ExpectsNothing(edited.rules[id].def))
            && Decision(js, rules, facts) == Decision(js, Without(rules, edited.rules[id].def), facts)
  {
    var def := EditRule(st, ruleId, dto, id).state.rules[id].def;
    forall f ensures !Matches(js, def, f) {
      EmptiedNeverMatches(js, st.rules[ruleId].def, dto, f);
    }
    forall t ensures TestPasses(js, def, t) <==> t.expectedAction == Allow && !t.expectedViolated {
    }
    WithoutHolds(rules, def);
    DecisionIsGravest(js, rules, facts);
    DecisionIsGravest(js, Without(rules, def), facts);
    assert Gravest(js, rules, facts, Decision(js, Without(rules, def), facts));
    GravestIsUnique(js, rules, facts, Decision(js, rules, facts), Decision(js, Without(rules, def), facts));
  }

  /** The emptied version of a live rule without test cases goes live, and its code decides nothing any more. */
  lemma EmptiedGoesLive(js: Runtime, def: Definition, dto: RuleUpdate)
    requires def.conditions != [] && def.testCases == [] && dto.conditions == Some([]) && dto.testCases.None?
    ensures var edited := EditRule(WentLive(js, def), "a", dto, "b").state;
            && DeployRule(js, edited, "b", true).Done?
            && (forall i :: IsActive(DeployRule(js, edited, "b", true).state, i, def.ruleCode) <==> i == "b")
            && forall facts :: Decision(js, [edited.rules["b"].def], facts) == Allow
  {
    var live := WentLive(js, def);
    var edited := EditRule(live, "a", dto, "b").state;
    WentLiveIsReached(js, def);
    EditKeepsInv(js, live, "a", dto, "b");
    DeployedIff(js, edited, "b");
    forall facts ensures Decision(js, [edited.rules["b"].def], facts) == Allow {
      EmptiedIsInert(js, live, "a", dto, "b", [edited.rules["b"].def], facts);
    }
  }

  /** A rule whose one test case expects a rejection that its conditions do not give. */
  function FailingRule(code: string): Definition {
    Definition(code, 1, "GLOBAL", Reject, [Condition("amount", Contains, Null)], And, [TestCase(map[], Reject, true)])
  }

  /** A rollback puts a version into production that fails its tests, and that a deployment refuses. */
  lemma RollbackActivatesFailing(js: Runtime, code: string)
    ensures var stored := CreateRule(State(map[]), "a", FailingRule(code)).state;
            && DeployRule(js, stored, "a", true).Failed?
            && IsVersion(stored, "a", code, 1)
            && var st := RollbackRule(stored, code, 1, Some("a"), "b").state;
            IsActive(st, "b", code) && !PassesOwnTests(js, st.rules["b"].def)
  {
    var def := FailingRule(code);
    assert def.conditions[0] in def.conditions && !EvaluateSingleCondition(js, def.conditions[0], map[]);
    var stored := CreateRule(State(map[]), "a", def).state;
    var st := RollbackRule(stored, code, 1, Some("a"), "b").state;
    assert def.testCases[0] in stored.rules["a"].def.testCases && def.testCases[0] in st.rules["b"].def.testCases;
    assert !TestPasses(js, stored.rules["a"].def, def.testCases[0])
        && !TestPasses(js, st.rules["b"].def, def.testCases[0]);
  }

  function Without(rules: seq<Definition>, def: Definition): seq<Definition> {
    if rules == [] then [] else (if rules[0] == def then [] else [rules[0]]) + Without(rules[1..], def)
  }

  lemma {:induction false} WithoutHolds(rules: seq<Definition>, def: Definition)
    ensures forall r :: r in Without(rules, def) <==> r in rules && r != def
  {
    if rules != [] {
      WithoutHolds(rules[1..], def);
      assert rules == [rules[0]] + rules[1..];
    }
  }

  /** rules are the rows the engine reads for a jurisdiction, in some order. */
  ghost predicate Lists(rules: seq<Definition>, st: State, jurisdiction: string) {
    forall d :: d in rules <==> exists i :: i in st.rules && Applies(st.rules[i], jurisdiction) && st.rules[i].def == d
  }

  /** Those of the jurisdiction and the global ones, if active. */
  lemma ListedIff(st: State, rules: seq<Definition>, jurisdiction: string, d: Definition)
    requires Lists(rules, st, jurisdiction)
    ensures d in rules <==> (d.jurisdiction == jurisdiction || d.jurisdiction == "GLOBAL")
                            && exists i :: i in st.rules && st.rules[i].def == d && st.rules[i].status == Active
  {
    if i :| i in st.rules && st.rules[i].def == d && st.rules[i].status == Active {
      assert Applies(st.rules[i], jurisdiction) <==> (d.jurisdiction == jurisdiction || d.jurisdiction == "GLOBAL");
    }
  }

  /** While a tested version is active, facts of its test cases are decided at least as severely as the case expects. */
  lemma TestsHoldInProduction(
      js: Runtime, st: State, id: RuleId, tc: TestCase, rules: seq<Definition>, jurisdiction: string)
    requires Inv(js, st) && Lists(rules, st, jurisdiction)
    requires id in st.rules && st.rules[id].status == Active && !st.rules[id].origin.RollbackOf?
    requires st.rules[id].def.jurisdiction == jurisdiction || st.rules[id].def.jurisdiction == "GLOBAL"
    requires tc in st.rules[id].def.testCases
    ensures Priority(Decision(js, rules, tc.inputFacts)) >= Priority(tc.expectedAction)
    ensures tc.expectedViolated ==> Decision(js, rules, tc.inputFacts) != Allow
  {
    var def := st.rules[id].def;
    assert Applies(st.rules[id], jurisdiction);
    assert TestPasses(js, def, tc) && def in rules;
    DecisionIsGravest(js, rules, tc.inputFacts);
  }

  // ---- Version numbers ----

  ghost predicate UniqueVersions(st: State) {
    forall i, j :: i in st.rules && j in st.rules && i != j ==> !SameVersion(st.rules[i].def, st.rules[j].def)
  }

  ghost predicate SameVersion(a: Definition, b: Definition) {
    a.ruleCode == b.ruleCode && a.version == b.version
  }

  /** The number the call would give a new version is free. */
  ghost predicate NumberFree(st: State, c: Call) {
    match c
    case Creating(_, def) => def.conditions == [] || 1 !in VersionsOf(st, def.ruleCode)
    case Editing(ruleId, _, _) => ruleId !in st.rules
        || st.rules[ruleId].def.version + 1 !in VersionsOf(st, st.rules[ruleId].def.ruleCode)
    case _ => true
  }

  lemma VersionHeld(st: State, code: string, v: nat)
    ensures v in VersionsOf(st, code) <==> exists i :: IsVersion(st, i, code, v)
  {
    if v in VersionsOf(st, code) {
      var i :| i in st.rules && st.rules[i].def.ruleCode == code && st.rules[i].def.version == v;
      assert IsVersion(st, i, code, v);
    }
  }

  lemma InsertKeepsUnique(st: State, st': State, id: RuleId, def: Definition)
    requires UniqueVersions(st) && id !in st.rules && st'.rules.Keys == st.rules.Keys + {id} && Preserved(st, st')
    requires st'.rules[id].def == def
    ensures UniqueVersions(st') <==> def.version !in VersionsOf(st, def.ruleCode)
  {
    VersionHeld(st, def.ruleCode, def.version);
    if i :| IsVersion(st, i, def.ruleCode, def.version) {
      assert SameVersion(st'.rules[i].def, st'.rules[id].def);
    } else {
      forall i | i in st.rules ensures !SameVersion(st.rules[i].def, def) {
        assert !IsVersion(st, i, def.ruleCode, def.version);
      }
    }
  }

  /**
   Two rows share a code and version exactly when a call used a number that was taken: creating a code
   that exists, or editing a version that is not the latest. Rollbacks always find a free number.
   */
  lemma UniqueVersionsIff(js: Runtime, st: State, c: Call)
    requires Possible(st, c) && UniqueVersions(st) && VersionsPositive(st)
    ensures UniqueVersions(Perform(js, st, c).state) <==> NumberFree(st, c)
  {
    hide PassedCount, PassesOwnTests, Preserved, UniqueVersions;
    var st' := Perform(js, st, c).state;
    PerformPreserves(js, st, c);
    match c {
      case Creating(id, def) =>
        if def.conditions != [] {
          InsertKeepsUnique(st, st', id, def.(version := 1));
        }
      case Editing(ruleId, dto, id) =>
        if ruleId in st.rules {
          InsertKeepsUnique(st, st', id, Revised(st.rules[ruleId].def, dto));
        }
      case RollingBack(code, v, target, id) =>
        if target.Some? {
          InsertKeepsUnique(st, st', id, st'.rules[id].def);
        }
      case TestingRule(ruleId, custom) =>
        SameKeysUnique(st, st');
      case Deploying(ruleId, live) =>
        SameKeysUnique(st, st');
    }
  }

  lemma SameKeysUnique(st: State, st': State)
    requires UniqueVersions(st) && Preserved(st, st') && st'.rules.Keys == st.rules.Keys
    ensures UniqueVersions(st')
  {
    forall i, j | i in st'.rules && j in st'.rules && i != j ensures !SameVersion(st'.rules[i].def, st'.rules[j].def) {
      assert !SameVersion(st.rules[i].def, st.rules[j].def);
    }
  }

  /** Both ways to repeat a number occur: one code created twice, and the first of two versions edited again. */
  lemma RepeatedVersions(js: Runtime, def: Definition, dto: RuleUpdate)
    requires def.conditions != []
    ensures var once := CreateRule(State(map[]), "a", def).state;
            && UniqueVersions(once) && !UniqueVersions(CreateRule(once, "b", def).state)
            && var edited := EditRule(once, "a", dto, "b").state;
            UniqueVersions(edited) && !UniqueVersions(EditRule(edited, "a", dto, "c").state)
  {
    CreatedTwice(def);
    EditedTwice(def, dto);
  }

  lemma CreatedTwice(def: Definition)
    requires def.conditions != []
    ensures var once := CreateRule(State(map[]), "a", def).state;
            UniqueVersions(once) && !UniqueVersions(CreateRule(once, "b", def).state)
  {
    var once := CreateRule(State(map[]), "a", def).state;
    var twice := CreateRule(once, "b", def).state;
    assert SameVersion(twice.rules["a"].def, twice.rules["b"].def);
  }

  lemma EditedTwice(def: Definition, dto: RuleUpdate)
    requires def.conditions != []
    ensures var edited := EditRule(CreateRule(State(map[]), "a", def).state, "a", dto, "b").state;
            UniqueVersions(edited) && !UniqueVersions(EditRule(edited, "a", dto, "c").state)
  {
    var edited := EditRule(CreateRule(State(map[]), "a", def).state, "a", dto, "b").state;
    assert edited.rules.Keys == {"a", "b"} && !SameVersion(edited.rules["a"].def, edited.rules["b"].def);
    var again := EditRule(edited, "a", dto, "c").state;
    assert SameVersion(again.rules["b"].def, again.rules["c"].def);
  }
}

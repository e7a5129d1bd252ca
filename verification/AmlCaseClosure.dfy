/**
 When closed cases are fully dealt with (backend/src/aml/aml-case.service.ts): every closed case has a
 disposition and no unreviewed alert exactly as long as two things the service allows do not happen.
 */
module AmlCaseClosure {
  import opened Collections
  import opened Options
  import opened AmlCases
  import opened AmlCaseProofs

  ghost predicate Settled(st: State, c: CaseId)
    requires c in st.cases
  {
    st.cases[c].status == Closed ==> st.cases[c].disposition.Some? && AllReviewed(st.alerts, st.cases[c].alertIds)
  }

  ghost predicate AllSettled(st: State) {
    forall c :: c in st.cases ==> Settled(st, c)
  }

  /** Only closing records a disposition. */
  ghost predicate OpenUndecided(st: State) {
    forall c :: c in st.cases && st.cases[c].status != Closed ==> st.cases[c].disposition.None?
  }

  /** Closed through an edit, or given an unreviewed alert after it was closed. */
  ghost predicate Unsettling(st: State, op: Op) {
    match op
    case Update(c, u, _) => c in st.cases && st.cases[c].status != Closed && u.status == Some(Closed)
    case Attach(c, ids, actor) =>
      && AttachAlerts(st, c, ids, actor).Done? && st.cases[c].status == Closed
      && exists a :: a in ids && a in st.alerts && !st.alerts[a].reviewed
    case _ => false
  }

  /** A case whose record stays as it was stays settled, since reviews are not undone. */
  lemma SettledStays(st: State, st': State, c: CaseId)
    requires CasesOk(st) && Grows(st, st') && c in st.cases && c in st'.cases && Settled(st, c)
    requires st'.cases[c].alertIds == st.cases[c].alertIds && st'.cases[c].status == st.cases[c].status
    requires st'.cases[c].disposition == st.cases[c].disposition
    ensures Settled(st', c)
  {
    assert Members(st, c);
    forall a | a in st.cases[c].alertIds && a in st'.alerts && st.cases[c].status == Closed
        ensures st'.alerts[a].reviewed {
      assert AlertStays(st.alerts[a], st'.alerts[a]);
    }
  }

  ghost predicate SameCase(k: Case, k': Case) {
    k'.alertIds == k.alertIds && k'.status == k.status && k'.disposition == k.disposition
  }

  /** A step that touches one case at most leaves the others settled. */
  lemma OthersStaySettled(st: State, st': State, only: CaseId)
    requires CasesOk(st) && AllSettled(st) && OpenUndecided(st) && Grows(st, st')
    requires forall c :: c in st'.cases && c != only ==> c in st.cases && SameCase(st.cases[c], st'.cases[c])
    ensures forall c :: c in st'.cases && c != only ==> Settled(st', c)
    ensures forall c :: c in st'.cases && c != only && st'.cases[c].status != Closed ==> st'.cases[c].disposition.None?
  {
    forall c | c in st'.cases && c != only ensures Settled(st', c) {
      SettledStays(st, st', c);
    }
  }

  /** The case lists the new alerts too, and nothing else about it or about reviews changes. */
  lemma AttachedCase(st: State, c: CaseId, ids: seq<AlertId>, actor: Option<string>)
    requires CasesOk(st) && AttachAlerts(st, c, ids, actor).Done?
    ensures var st' := AttachAlerts(st, c, ids, actor).state;
            && c in st.cases && st'.cases.Keys == st.cases.Keys && st'.alerts.Keys == st.alerts.Keys
            && (forall d :: d in st.cases && d != c ==> SameCase(st.cases[d], st'.cases[d]))
            && st'.cases[c].status == st.cases[c].status && st'.cases[c].disposition == st.cases[c].disposition
            && (forall a :: a in st'.cases[c].alertIds <==> a in st.cases[c].alertIds || a in ids)
            && (forall a :: a in st.alerts ==> st'.alerts[a].reviewed == st.alerts[a].reviewed)
  {
    hide MaxRisk, Exposure, RowCount;
    CountedIds(st.alerts, ids);
    assert Members(st, c);
    UnionOfIds(st.cases[c].alertIds, ids);
  }

  lemma AttachSettles(st: State, c: CaseId, ids: seq<AlertId>, actor: Option<string>)
    requires CasesOk(st) && AllSettled(st) && OpenUndecided(st) && AttachAlerts(st, c, ids, actor).Done?
    ensures var st' := AttachAlerts(st, c, ids, actor).state;
            && (AllSettled(st') <==> !Unsettling(st, Attach(c, ids, actor))) && OpenUndecided(st')
  {
    hide AttachAlerts, Grows, CasesOk;
    AttachedCase(st, c, ids, actor);
    AttachGrows(st, c, ids, actor);
    OthersStaySettled(st, AttachAlerts(st, c, ids, actor).state, c);
  }

  lemma UpdateSettles(st: State, c: CaseId, u: CaseUpdate, actor: Option<string>)
    requires CasesOk(st) && AllSettled(st) && OpenUndecided(st) && UpdateCase(st, c, u, actor).Done?
    ensures var st' := UpdateCase(st, c, u, actor).state;
            (AllSettled(st') <==> !Unsettling(st, Update(c, u, actor)))
                && (!Unsettling(st, Update(c, u, actor)) ==> OpenUndecided(st'))
  {
    hide EditCase;
    var st' := UpdateCase(st, c, u, actor).state;
    EditedCase(st.cases[c], u, actor);
    UpdateGrows(st, c, u, actor);
    OthersStaySettled(st, st', c);
  }

  lemma CloseSettles(st: State, c: CaseId, d: Disposition, notes: Option<string>, actor: Option<string>)
    requires CasesOk(st) && AllSettled(st) && OpenUndecided(st) && CloseCase(st, c, d, notes, actor).Done?
    ensures AllSettled(CloseCase(st, c, d, notes, actor).state)
      && OpenUndecided(CloseCase(st, c, d, notes, actor).state)
  {
    var st' := CloseCase(st, c, d, notes, actor).state;
    var k := ClosedCase(st.cases[c], d, notes, actor);
    CloseReviewsAll(st, c, d, notes, actor);
    CloseGrows(st, c, d, notes, actor);
    TriageAllReviews(WithCase(st, c, k), k.alertIds, d);
    OthersStaySettled(st, st', c);
  }

  lemma CreateSettles(
      st: State, id: CaseId, year: int, ids: seq<AlertId>, subject: Option<string>, priority: Option<Severity>,
      actor: Option<string>)
    requires CasesOk(st) && AllSettled(st) && OpenUndecided(st) && id !in st.cases
    requires CreateCase(st, id, year, ids, subject, priority, actor).Done?
    ensures var st' := CreateCase(st, id, year, ids, subject, priority, actor).state;
      AllSettled(st') && OpenUndecided(st')
  {
    CountedIds(st.alerts, ids);
    CreateGrows(st, id, year, ids, subject, priority, actor);
    OthersStaySettled(st, CreateCase(st, id, year, ids, subject, priority, actor).state, id);
  }

  /** Operations that touch no case at all. */
  lemma SameCasesSettled(st: State, st': State)
    requires CasesOk(st) && AllSettled(st) && OpenUndecided(st) && Grows(st, st') && st'.cases == st.cases
    ensures AllSettled(st') && OpenUndecided(st')
  {
    forall c | c in st'.cases ensures Settled(st', c) {
      SettledStays(st, st', c);
    }
  }

  /** One operation leaves every closed case settled exactly when it is not one of the two. */
  lemma ApplySettlesIff(st: State, op: Op)
    requires CasesOk(st) && AllSettled(st) && OpenUndecided(st)
    ensures AllSettled(Apply(st, op)) <==> !Unsettling(st, op)
    ensures !Unsettling(st, op) ==> OpenUndecided(Apply(st, op))
  {
    hide Grows, Settled, CasesOk, AllSettled, OpenUndecided;
    ApplyGrows(st, op);
    match op {
      case AddRule(_) => SameCasesSettled(st, Apply(st, op));
      case RaiseAlert(_, _) => SameCasesSettled(st, Apply(st, op));
      case Triage(_, _) => SameCasesSettled(st, Apply(st, op));
      case Create(id, year, ids, subject, priority, actor) =>
        if id !in st.cases && CreateCase(st, id, year, ids, subject, priority, actor).Done? {
          CreateSettles(st, id, year, ids, subject, priority, actor);
        }
      case Attach(c, ids, actor) =>
        if AttachAlerts(st, c, ids, actor).Done? {
          AttachSettles(st, c, ids, actor);
        }
      case Update(c, u, actor) =>
        if UpdateCase(st, c, u, actor).Done? {
          UpdateSettles(st, c, u, actor);
        }
      case Close(c, d, notes, actor) =>
        if CloseCase(st, c, d, notes, actor).Done? {
          CloseSettles(st, c, d, notes, actor);
        }
    }
  }

  // ---- Over runs ----

  ghost predicate AlwaysSettled(st: State, ops: seq<Op>)
    decreases |ops|
  {
    AllSettled(st) && (ops == [] || AlwaysSettled(Apply(st, ops[0]), ops[1..]))
  }

  ghost predicate NeverUnsettling(st: State, ops: seq<Op>)
    decreases |ops|
  {
    ops == [] || (!Unsettling(st, ops[0]) && NeverUnsettling(Apply(st, ops[0]), ops[1..]))
  }

  lemma {:induction false} RunSettlesIff(st: State, ops: seq<Op>)
    requires Inv(st) && AllSettled(st) && OpenUndecided(st)
    ensures AlwaysSettled(st, ops) <==> NeverUnsettling(st, ops)
    decreases |ops|
  {
    hide CasesOk, AllSettled, OpenUndecided, Unsettling, Apply;
    if ops != [] {
      ApplySettlesIff(st, ops[0]);
      ApplyKeepsInv(st, ops[0]);
      if !Unsettling(st, ops[0]) {
        RunSettlesIff(Apply(st, ops[0]), ops[1..]);
      }
    }
  }

  /**
   Over every run: all along, each closed case has a disposition and only reviewed alerts, if and only if no
   edit sets the status to closed and no unreviewed alert is attached to a closed case.
   */
  lemma ClosedCasesAreSettledIff(ops: seq<Op>)
    ensures AlwaysSettled(Init(), ops) <==> NeverUnsettling(Init(), ops)
  {
    RunSettlesIff(Init(), ops);
  }

  /** An edit that closes a case leaves it without a disposition. */
  lemma ClosedByEdit(actor: Option<string>)
    ensures var ops :=
      [Create(0, 2024, [], None, None, actor), Update(0, CaseUpdate(Some(Closed), None, None, None), actor)];
            !AlwaysSettled(Init(), ops)
  {
    var create, edit :=
        Create(0, 2024, [], None, None, actor), Update(0, CaseUpdate(Some(Closed), None, None, None), actor);
    var st := Apply(Init(), create);
    assert ElementSet<AlertId>([]) * Init().alerts.Keys == {};
    assert st.cases.Keys == {0} && st.cases[0].status == Open;
    assert Unsettling(st, edit);
    assert [create, edit][1..] == [edit];
    ClosedCasesAreSettledIff([create, edit]);
  }

  lemma ClosedEmptyCase(actor: Option<string>)
    ensures var st := Apply(Apply(Init(), Create(0, 2024, [], None, None, actor)), Close(0, NoAction, None, actor));
            st.cases.Keys == {0} && st.cases[0].status == Closed && st.alerts == map[]
  {
    hide Apply;
    NewEmptyCase(actor);
    var st := Apply(Init(), Create(0, 2024, [], None, None, actor));
    CloseEmptyCase(st, actor);
  }

  lemma NewEmptyCase(actor: Option<string>)
    ensures var st := Apply(Init(), Create(0, 2024, [], None, None, actor));
            st.cases.Keys == {0} && st.cases[0].status == Open && st.cases[0].alertIds == [] && st.alerts == map[]
  {
    assert ElementSet<AlertId>([]) * Init().alerts.Keys == {};
  }

  lemma CloseEmptyCase(st: State, actor: Option<string>)
    requires st.cases.Keys == {0} && st.cases[0].status == Open && st.cases[0].alertIds == [] && st.alerts == map[]
    ensures var st' := Apply(st, Close(0, NoAction, None, actor));
            st'.cases.Keys == {0} && st'.cases[0].status == Closed && st'.alerts == map[]
  {
  }

  lemma RaisedAndAttached(st: State, actor: Option<string>)
    requires st.cases.Keys == {0} && st.cases[0].status == Closed && st.alerts == map[]
    ensures Unsettling(Apply(st, RaiseAlert(0, TenDollars())), Attach(0, [0], actor))
  {
    var raised := Apply(st, RaiseAlert(0, TenDollars()));
    assert raised.alerts.Keys == {0} && ElementSet([0]) * raised.alerts.Keys == {0};
    assert 0 in [0] && !raised.alerts[0].reviewed;
  }

  /** A closed case accepts an alert nobody has reviewed. */
  lemma AttachedToClosed(actor: Option<string>)
    ensures var ops :=
      [Create(0, 2024, [], None, None, actor), Close(0, NoAction, None, actor), RaiseAlert(0, TenDollars()),
      Attach(0, [0], actor)];
            !AlwaysSettled(Init(), ops)
  {
    hide Apply, Unsettling, AlwaysSettled;
    var a, b, c, d :=
        Create(0, 2024, [], None, None, actor), Close(0, NoAction, None, actor), RaiseAlert(0, TenDollars()),
        Attach(0, [0], actor);
    var s1 := Apply(Init(), a);
    var s2 := Apply(s1, b);
    var s3 := Apply(s2, c);
    ClosedEmptyCase(actor);
    RaisedAndAttached(s2, actor);
    assert [a, b, c, d][1..] == [b, c, d] && [b, c, d][1..] == [c, d] && [c, d][1..] == [d];
    assert !NeverUnsettling(s3, [d]);
    assert !NeverUnsettling(s2, [c, d]);
    assert !NeverUnsettling(s1, [b, c, d]);
    ClosedCasesAreSettledIff([a, b, c, d]);
  }
}

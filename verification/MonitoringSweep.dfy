/**
 One monitoring sweep (backend/src/aml/transaction-monitoring.service.ts): findings become alerts
 once per key, with counters, a dry-run mode and at most one case opened per account and rule.
 */
module MonitoringSweep {
  import opened Collections
  import opened Options
  import opened AmlCases
  import opened AmlCaseProofs

  datatype Match = Match(
    dedupeKey: string, ruleId: RuleId, ruleCode: string, severity: Severity, riskScore: real, amountUsd: real)

  datatype Candidate = Candidate(found: Match, userId: string)

  /** thresholds holds the rules the sweep applied, by id. */
  datatype Settings = Settings(dryRun: bool, thresholds: map<RuleId, real>, autoCaseScore: real, year: int)

  /** The tables, with the counters that stand for freshly drawn ids. */
  datatype Store = Store(db: State, nextAlert: AlertId, nextCase: CaseId)

  datatype Tally = Tally(raised: nat, duplicate: nat, below: nat, casesOpened: seq<(string, string)>)

  datatype Progress = Progress(store: Store, seen: set<string>, openCases: map<string, set<string>>, tally: Tally)

  function Codes(openCases: map<string, set<string>>, user: string): set<string> {
    if user in openCases then openCases[user] else {}
  }

  predicate InOpenCase(db: State, a: AlertId, user: string) {
    && a in db.alerts && db.alerts[a].userId == Some(user) && db.alerts[a].caseId.Some?
    && db.alerts[a].caseId.value in db.cases && db.cases[db.alerts[a].caseId.value].status != Closed
  }

  /** Rule codes with an open case for the account. */
  function OpenCodes(db: State, user: string): set<string> {
    set a | a in db.alerts && InOpenCase(db, a, user) :: db.alerts[a].ruleCode
  }

  function OpenCaseRuleCodes(db: State, users: set<string>): map<string, set<string>> {
    map u | u in users && OpenCodes(db, u) != {} :: OpenCodes(db, u)
  }

  function FindExistingKeys(db: State, candidates: seq<Candidate>): set<string> {
    set a | a in db.alerts
        && (exists c :: c in candidates && c.found.dedupeKey == db.alerts[a].dedupeKey) :: db.alerts[a].dedupeKey
  }

  predicate Below(cfg: Settings, m: Match) {
    m.ruleId in cfg.thresholds && m.riskScore < cfg.thresholds[m.ruleId]
  }

  function AlertFor(c: Candidate): Alert {
    NewAlert(c.found.dedupeKey, Some(c.found.ruleId), c.found.ruleCode, Some(c.userId), c.found.severity,
        c.found.riskScore, c.found.amountUsd)
  }

  function Insert(s: Store, c: Candidate): Store {
    Store(s.db.(alerts := s.db.alerts[s.nextAlert := AlertFor(c)]), s.nextAlert + 1, s.nextCase)
  }

  function OpenFor(cfg: Settings, s: Store, alert: AlertId, user: string): Store {
    if s.nextCase in s.db.cases then s
    else Store(After(s.db, CreateCase(s.db, s.nextCase, cfg.year, [alert], Some(user), None, None)), s.nextAlert,
        s.nextCase + 1)
  }

  predicate OpensCase(cfg: Settings, p: Progress, c: Candidate) {
    c.found.riskScore >= cfg.autoCaseScore && c.found.ruleCode !in Codes(p.openCases, c.userId)
  }

  /** A finding that passed both checks. */
  function Raise(cfg: Settings, p: Progress, c: Candidate): Progress {
    var seen := p.seen + {c.found.dedupeKey};
    var tally := p.tally.(raised := p.tally.raised + 1);
    if cfg.dryRun then p.(seen := seen, tally := tally)
    else
      var store := Insert(p.store, c);
      if !OpensCase(cfg, p, c) then Progress(store, seen, p.openCases, tally)
      else
        Progress(OpenFor(cfg, store, p.store.nextAlert, c.userId), seen,
                 p.openCases[c.userId := Codes(p.openCases, c.userId) + {c.found.ruleCode}],
                 tally.(casesOpened := tally.casesOpened + [(c.userId, c.found.ruleCode)]))
  }

  function Step(cfg: Settings, p: Progress, c: Candidate): Progress {
    if c.found.dedupeKey in p.seen then p.(tally := p.tally.(duplicate := p.tally.duplicate + 1))
    else if Below(cfg, c.found) then p.(tally := p.tally.(below := p.tally.below + 1))
    else Raise(cfg, p, c)
  }

  function Fold(cfg: Settings, p: Progress, candidates: seq<Candidate>): Progress {
    if candidates == [] then p
    else Step(cfg, Fold(cfg, p, candidates[..|candidates| - 1]), candidates[|candidates| - 1])
  }

  function Users(candidates: seq<Candidate>): set<string> {
    set c | c in candidates :: c.userId
  }

  function Start(s: Store, candidates: seq<Candidate>, users: set<string>): Progress {
    Progress(s, FindExistingKeys(s.db, candidates), OpenCaseRuleCodes(s.db, users), Tally(0, 0, 0, []))
  }

  /** users are the accounts with flows, so every candidate's account is among them. */
  function Sweep(cfg: Settings, s: Store, candidates: seq<Candidate>, users: set<string>): Progress {
    Fold(cfg, Start(s, candidates, users), candidates)
  }

  // ---- Counters ----

  /** Every candidate is raised, a duplicate or below its threshold, and counted once. */
  lemma {:induction false} CountersAddUp(cfg: Settings, p: Progress, candidates: seq<Candidate>)
    ensures var t := Fold(cfg, p, candidates).tally;
            t.raised + t.duplicate + t.below == p.tally.raised + p.tally.duplicate + p.tally.below + |candidates|
  {
    if candidates != [] {
      CountersAddUp(cfg, p, candidates[..|candidates| - 1]);
    }
  }

  ghost predicate SameCounts(a: Tally, b: Tally) {
    a.raised == b.raised && a.duplicate == b.duplicate && a.below == b.below
  }

  /** A dry run decides every candidate as the live run does. */
  lemma {:induction false} DryRunCountsTheSame(cfg: Settings, p: Progress, candidates: seq<Candidate>)
    ensures var live, dry := Fold(cfg.(dryRun := false), p, candidates), Fold(cfg.(dryRun := true), p, candidates);
            live.seen == dry.seen && SameCounts(live.tally, dry.tally) && dry.store == p.store
                && dry.tally.casesOpened == p.tally.casesOpened
  {
    if candidates != [] {
      DryRunCountsTheSame(cfg, p, candidates[..|candidates| - 1]);
    }
  }

  lemma DryRunPredicts(cfg: Settings, s: Store, candidates: seq<Candidate>, users: set<string>)
    ensures SameCounts(Sweep(cfg.(dryRun := true), s, candidates, users).tally,
      Sweep(cfg.(dryRun := false), s, candidates, users).tally)
    ensures Sweep(cfg.(dryRun := true), s, candidates, users).store == s
  {
    DryRunCountsTheSame(cfg, Start(s, candidates, users), candidates);
  }

  // ---- Keys ----

  ghost predicate UniqueDedupeKeys(db: State) {
    forall a, b :: a in db.alerts && b in db.alerts && a != b ==> db.alerts[a].dedupeKey != db.alerts[b].dedupeKey
  }

  ghost predicate CountersFresh(s: Store) {
    (forall a :: a in s.db.alerts ==> a < s.nextAlert) && (forall c :: c in s.db.cases ==> c < s.nextCase)
  }

  /** The in-memory set of keys is the table's, as far as the candidates go. */
  ghost predicate SeenIsStored(p: Progress, candidates: seq<Candidate>) {
    forall c :: c in candidates ==> (c.found.dedupeKey in p.seen <==> KeyTaken(p.store.db.alerts, c.found.dedupeKey))
  }

  lemma StartSeesStored(s: Store, candidates: seq<Candidate>, users: set<string>)
    ensures SeenIsStored(Start(s, candidates, users), candidates)
  {
    forall c | c in candidates && KeyTaken(s.db.alerts, c.found.dedupeKey)
      ensures c.found.dedupeKey in FindExistingKeys(s.db, candidates)
    {
      var a :| a in s.db.alerts && s.db.alerts[a].dedupeKey == c.found.dedupeKey;
    }
  }

  /** Codes held in memory are the codes with an open case in the tables. */
  ghost predicate CodesAreStored(p: Progress, users: set<string>) {
    forall u :: u in users ==> Codes(p.openCases, u) == OpenCodes(p.store.db, u)
  }

  ghost predicate LiveInv(p: Progress, candidates: seq<Candidate>, users: set<string>) {
    Inv(p.store.db) && UniqueDedupeKeys(p.store.db) && CountersFresh(p.store) && SeenIsStored(p, candidates)
        && CodesAreStored(p, users)
  }

  ghost predicate KnownRules(db: State, candidates: seq<Candidate>) {
    forall c :: c in candidates ==> c.found.ruleId in db.rules
  }

  // ---- Inserting an alert ----

  lemma InsertKeys(s: Store, c: Candidate, k: string)
    requires CountersFresh(s)
    ensures KeyTaken(Insert(s, c).db.alerts, k) <==> KeyTaken(s.db.alerts, k) || k == c.found.dedupeKey
  {
    var alerts := Insert(s, c).db.alerts;
    assert alerts[s.nextAlert].dedupeKey == c.found.dedupeKey;
    if KeyTaken(s.db.alerts, k) {
      var a :| a in s.db.alerts && s.db.alerts[a].dedupeKey == k;
      assert alerts[a].dedupeKey == k;
    }
  }

  lemma InsertKeepsStore(s: Store, c: Candidate)
    requires Inv(s.db) && UniqueDedupeKeys(s.db) && CountersFresh(s) && c.found.ruleId in s.db.rules
    requires !KeyTaken(s.db.alerts, c.found.dedupeKey)
    ensures var s' := Insert(s, c);
      Inv(s'.db) && UniqueDedupeKeys(s'.db) && CountersFresh(s') && s'.db.rules == s.db.rules
  {
    RaiseKeepsInv(s.db, s.nextAlert, AlertFor(c));
  }

  lemma InsertKeepsCodes(s: Store, c: Candidate, u: string)
    requires CountersFresh(s)
    ensures OpenCodes(Insert(s, c).db, u) == OpenCodes(s.db, u)
  {
    var db, db' := s.db, Insert(s, c).db;
    forall a ensures InOpenCase(db', a, u) <==> InOpenCase(db, a, u) {
    }
    forall code ensures code in OpenCodes(db', u) <==> code in OpenCodes(db, u) {
    }
  }

  // ---- Opening a case for it ----

  /** The fresh alert is alone in a fresh case. */
  lemma OpenForSucceeds(cfg: Settings, s: Store, alert: AlertId, user: string)
    requires CountersFresh(s) && alert in s.db.alerts && s.db.alerts[alert].caseId.None?
    ensures var o := CreateCase(s.db, s.nextCase, cfg.year, [alert], Some(user), None, None);
            s.nextCase !in s.db.cases && o.Done?
                && OpenFor(cfg, s, alert, user) == Store(o.state, s.nextAlert, s.nextCase + 1)
  {
    assert ElementSet([alert]) * s.db.alerts.Keys == {alert};
  }

  /** What opening a case for one alert changes: that alert's link and status, and one new open case. */
  ghost predicate CaseOpened(s: Store, s': Store, alert: AlertId)
    requires alert in s.db.alerts
  {
    && s'.nextAlert == s.nextAlert && s'.nextCase == s.nextCase + 1 && s'.db.rules == s.db.rules
    && s'.db.alerts == s.db.alerts[alert := s.db.alerts[alert].(caseId := Some(s.nextCase), status := Triaged)]
    && s'.db.cases.Keys == s.db.cases.Keys + {s.nextCase} && s'.db.cases[s.nextCase].status == Open
    && s'.db.cases[s.nextCase].alertIds == [alert]
    && (forall k :: k in s.db.cases ==> s'.db.cases[k] == s.db.cases[k])
  }

  lemma OpenForEffect(cfg: Settings, s: Store, alert: AlertId, user: string)
    requires CountersFresh(s) && alert in s.db.alerts && s.db.alerts[alert].caseId.None?
    ensures CaseOpened(s, OpenFor(cfg, s, alert, user), alert)
  {
    OpenForSucceeds(cfg, s, alert, user);
    CountedIds(s.db.alerts, [alert]);
  }

  lemma CaseOpenedKeepsKeys(s: Store, s': Store, alert: AlertId)
    requires alert in s.db.alerts && CaseOpened(s, s', alert) && CountersFresh(s)
    ensures CountersFresh(s') && (UniqueDedupeKeys(s.db) ==> UniqueDedupeKeys(s'.db))
    ensures forall k :: KeyTaken(s'.db.alerts, k) <==> KeyTaken(s.db.alerts, k)
  {
    forall k ensures KeyTaken(s'.db.alerts, k) <==> KeyTaken(s.db.alerts, k) {
      if a :| a in s.db.alerts && s.db.alerts[a].dedupeKey == k {
        assert s'.db.alerts[a].dedupeKey == k;
      }
    }
  }

  lemma OpenForKeepsInv(cfg: Settings, s: Store, alert: AlertId, user: string)
    requires Inv(s.db) && CountersFresh(s) && alert in s.db.alerts && s.db.alerts[alert].caseId.None?
    ensures Inv(OpenFor(cfg, s, alert, user).db)
  {
    OpenForSucceeds(cfg, s, alert, user);
    CreateKeepsInv(s.db, s.nextCase, cfg.year, [alert], Some(user), None, None);
  }

  /** An account's open-case codes grow by the alert's code, for the alert's account only. */
  lemma CaseOpenedAddsCode(s: Store, s': Store, alert: AlertId, u: string)
    requires alert in s.db.alerts && CaseOpened(s, s', alert) && AlertsOk(s.db) && CountersFresh(s)
    requires s.db.alerts[alert].caseId.None?
    ensures OpenCodes(s'.db, u) ==
            OpenCodes(s.db, u) + if s.db.alerts[alert].userId == Some(u) then {s.db.alerts[alert].ruleCode} else {}
  {
    var mine := s.db.alerts[alert].userId == Some(u);
    forall a ensures InOpenCase(s'.db, a, u) <==> InOpenCase(s.db, a, u) || (a == alert && mine) {
    }
    forall code ensures code in OpenCodes(s'.db, u) <==>
                        code in OpenCodes(s.db, u) || (mine && code == s.db.alerts[alert].ruleCode)
    {
      if mine && code == s.db.alerts[alert].ruleCode {
        assert InOpenCase(s'.db, alert, u);
      }
      if code in OpenCodes(s.db, u) {
        var a :| a in s.db.alerts && InOpenCase(s.db, a, u) && s.db.alerts[a].ruleCode == code;
        assert InOpenCase(s'.db, a, u) && s'.db.alerts[a].ruleCode == code;
      }
    }
  }

  // ---- A live step ----

  lemma InsertKeepsLiveInv(cfg: Settings, p: Progress, c: Candidate, candidates: seq<Candidate>, users: set<string>)
    requires LiveInv(p, candidates, users) && c in candidates && c.found.ruleId in p.store.db.rules
      && c.found.dedupeKey !in p.seen
    ensures LiveInv(p.(store := Insert(p.store, c), seen := p.seen + {c.found.dedupeKey}), candidates, users)
  {
    InsertKeepsStore(p.store, c);
    forall k ensures KeyTaken(Insert(p.store, c).db.alerts, k)
        <==> KeyTaken(p.store.db.alerts, k) || k == c.found.dedupeKey {
      InsertKeys(p.store, c, k);
    }
    forall u ensures OpenCodes(Insert(p.store, c).db, u) == OpenCodes(p.store.db, u) {
      InsertKeepsCodes(p.store, c, u);
    }
  }

  /** The map gains the code the tables gained. */
  lemma OpenKeepsLiveInv(
      cfg: Settings, p: Progress, alert: AlertId, user: string, code: string, candidates: seq<Candidate>,
      users: set<string>)
    requires LiveInv(p, candidates, users) && alert in p.store.db.alerts && p.store.db.alerts[alert].caseId.None?
    requires p.store.db.alerts[alert].userId == Some(user) && p.store.db.alerts[alert].ruleCode == code
    ensures LiveInv(
      p.(store := OpenFor(cfg, p.store, alert, user),
         openCases := p.openCases[user := Codes(p.openCases, user) + {code}]),
      candidates, users)
    ensures OpenFor(cfg, p.store, alert, user).db.rules == p.store.db.rules
  {
    hide CasesOk, AlertsOk, NumbersOk, FeedbackOk, OpenFor, OpenCodes, KeyTaken, CaseOpened;
    var s' := OpenFor(cfg, p.store, alert, user);
    OpenForKeepsInv(cfg, p.store, alert, user);
    OpenForEffect(cfg, p.store, alert, user);
    CaseOpenedKeepsKeys(p.store, s', alert);
    forall u ensures OpenCodes(s'.db, u) == OpenCodes(p.store.db, u) + if u == user then {code} else {} {
      CaseOpenedAddsCode(p.store, s', alert, u);
    }
  }

  /** The counters play no part in the invariant. */
  lemma TallyIsFree(p: Progress, t: Tally, candidates: seq<Candidate>, users: set<string>)
    requires LiveInv(p, candidates, users)
    ensures LiveInv(p.(tally := t), candidates, users)
  {
  }

  lemma RaiseKeepsLiveInv(cfg: Settings, p: Progress, c: Candidate, candidates: seq<Candidate>, users: set<string>)
    requires !cfg.dryRun && LiveInv(p, candidates, users) && c in candidates && c.found.ruleId in p.store.db.rules
    requires c.found.dedupeKey !in p.seen
    ensures LiveInv(Raise(cfg, p, c), candidates, users) && Raise(cfg, p, c).store.db.rules == p.store.db.rules
  {
    var mid := p.(store := Insert(p.store, c), seen := p.seen + {c.found.dedupeKey});
    InsertKeepsLiveInv(cfg, p, c, candidates, users);
    if OpensCase(cfg, p, c) {
      OpenKeepsLiveInv(cfg, mid, p.store.nextAlert, c.userId, c.found.ruleCode, candidates, users);
      TallyIsFree(Raise(cfg, p, c).(tally := mid.tally), Raise(cfg, p, c).tally, candidates, users);
    } else {
      TallyIsFree(mid, Raise(cfg, p, c).tally, candidates, users);
    }
  }

  lemma {:induction false} FoldKeepsLiveInv(
      cfg: Settings, p: Progress, done: seq<Candidate>, candidates: seq<Candidate>, users: set<string>)
    requires !cfg.dryRun && LiveInv(p, candidates, users) && KnownRules(p.store.db, candidates)
    requires Users(candidates) <= users && forall c :: c in done ==> c in candidates
    ensures LiveInv(Fold(cfg, p, done), candidates, users) && Fold(cfg, p, done).store.db.rules == p.store.db.rules
  {
    if done != [] {
      var c := done[|done| - 1];
      var before := Fold(cfg, p, done[..|done| - 1]);
      FoldKeepsLiveInv(cfg, p, done[..|done| - 1], candidates, users);
      assert c in candidates && c.userId in Users(candidates);
      if c.found.dedupeKey !in before.seen && !Below(cfg, c.found) {
        RaiseKeepsLiveInv(cfg, before, c, candidates, users);
      }
    }
  }

  lemma StartIsLive(s: Store, candidates: seq<Candidate>, users: set<string>)
    requires Inv(s.db) && UniqueDedupeKeys(s.db) && CountersFresh(s)
    ensures LiveInv(Start(s, candidates, users), candidates, users)
  {
    StartSeesStored(s, candidates, users);
  }

  // ---- Main results ----

  /** A sweep keeps the case workflow's invariant and never stores two alerts with one key. */
  lemma SweepKeepsStore(cfg: Settings, s: Store, candidates: seq<Candidate>, users: set<string>)
    requires !cfg.dryRun && Inv(s.db) && UniqueDedupeKeys(s.db) && CountersFresh(s)
    requires KnownRules(s.db, candidates) && Users(candidates) <= users
    ensures LiveInv(Sweep(cfg, s, candidates, users), candidates, users)
  {
    StartIsLive(s, candidates, users);
    FoldKeepsLiveInv(cfg, Start(s, candidates, users), candidates, candidates, users);
  }

  /** Whatever was opened is remembered. */
  ghost predicate Remembered(p: Progress, q: Progress) {
    && Distinct(q.tally.casesOpened)
    && (forall o :: o in q.tally.casesOpened ==> o.1 in Codes(q.openCases, o.0) && o.1 !in Codes(p.openCases, o.0))
    && (forall u :: Codes(p.openCases, u) <= Codes(q.openCases, u))
  }

  lemma StepRemembers(cfg: Settings, p: Progress, q: Progress, c: Candidate)
    requires Remembered(p, q)
    ensures Remembered(p, Step(cfg, q, c))
  {
    hide OpenFor, Insert, Below;
  }

  /** No account and rule gets a second case. */
  lemma {:induction false} OpenedOnce(cfg: Settings, p: Progress, candidates: seq<Candidate>)
    requires p.tally.casesOpened == []
    ensures Remembered(p, Fold(cfg, p, candidates))
  {
    if candidates != [] {
      hide Step, Remembered;
      var n := |candidates| - 1;
      OpenedOnce(cfg, p, candidates[..n]);
      StepRemembers(cfg, p, Fold(cfg, p, candidates[..n]), candidates[n]);
    }
  }

  /** At most one case is reported per account and rule, and none where one was open already. */
  lemma AtMostOneCaseEach(cfg: Settings, s: Store, candidates: seq<Candidate>, users: set<string>)
    requires Users(candidates) <= users
    ensures var q := Sweep(cfg, s, candidates, users);
      && Distinct(q.tally.casesOpened)
      && forall o :: o in q.tally.casesOpened && o.0 in users ==> o.1 !in OpenCodes(s.db, o.0)
  {
    OpenedOnce(cfg, Start(s, candidates, users), candidates);
  }

  /** Cases are opened for accounts of candidates only. */
  lemma {:induction false} OpenedForCandidates(cfg: Settings, p: Progress, candidates: seq<Candidate>)
    requires p.tally.casesOpened == []
    ensures forall o :: o in Fold(cfg, p, candidates).tally.casesOpened ==> o.0 in Users(candidates)
  {
    hide OpenFor, Insert;
    if candidates != [] {
      var n := |candidates| - 1;
      OpenedForCandidates(cfg, p, candidates[..n]);
      assert candidates == candidates[..n] + [candidates[n]];
      assert candidates[n].userId in Users(candidates) && Users(candidates[..n]) <= Users(candidates);
    }
  }

  // ---- The stored cases are the reported ones ----

  /** Case k was opened for one alert of the account and rule. */
  ghost predicate CaseFor(db: State, k: CaseId, o: (string, string)) {
    && k in db.cases && |db.cases[k].alertIds| == 1
    && var a := db.cases[k].alertIds[0];
    && a in db.alerts && db.alerts[a].userId == Some(o.0) && db.alerts[a].ruleCode == o.1
  }

  /** The cases added since s are numbered in order and match the report, one for one. */
  ghost predicate CasesMatch(s: Store, q: Progress) {
    && q.store.nextCase == s.nextCase + |q.tally.casesOpened|
    && (forall i :: 0 <= i < |q.tally.casesOpened| ==> CaseFor(q.store.db, s.nextCase + i, q.tally.casesOpened[i]))
    && (forall k :: k in q.store.db.cases ==> k in s.db.cases || s.nextCase <= k < q.store.nextCase)
  }

  lemma InsertKeepsCase(s: Store, c: Candidate, k: CaseId, o: (string, string))
    requires CountersFresh(s) && CaseFor(s.db, k, o)
    ensures CaseFor(Insert(s, c).db, k, o)
  {
  }

  lemma OpenKeepsCase(s: Store, s': Store, alert: AlertId, k: CaseId, o: (string, string))
    requires alert in s.db.alerts && CaseOpened(s, s', alert) && CaseFor(s.db, k, o)
    ensures CaseFor(s'.db, k, o)
  {
  }

  lemma OpenMatches(s: Store, s': Store, alert: AlertId, o: (string, string))
    requires alert in s.db.alerts && CaseOpened(s, s', alert) && s.db.alerts[alert].userId == Some(o.0)
      && s.db.alerts[alert].ruleCode == o.1
    ensures CaseFor(s'.db, s.nextCase, o)
  {
  }

  /** The reported cases of q, still so in another store. */
  ghost predicate StillReported(s: Store, db: State, q: Progress) {
    forall i :: 0 <= i < |q.tally.casesOpened| ==> CaseFor(db, s.nextCase + i, q.tally.casesOpened[i])
  }

  lemma InsertKeepsReported(s: Store, q: Progress, c: Candidate)
    requires CountersFresh(q.store) && StillReported(s, q.store.db, q)
    ensures StillReported(s, Insert(q.store, c).db, q)
  {
    hide CaseFor, Insert;
    forall i | 0 <= i < |q.tally.casesOpened|
        ensures CaseFor(Insert(q.store, c).db, s.nextCase + i, q.tally.casesOpened[i]) {
      InsertKeepsCase(q.store, c, s.nextCase + i, q.tally.casesOpened[i]);
    }
  }

  lemma OpenKeepsReported(s: Store, q: Progress, t: Store, t': Store, alert: AlertId)
    requires alert in t.db.alerts && CaseOpened(t, t', alert) && StillReported(s, t.db, q)
    ensures StillReported(s, t'.db, q)
  {
    hide CaseFor, CaseOpened;
    forall i | 0 <= i < |q.tally.casesOpened| ensures CaseFor(t'.db, s.nextCase + i, q.tally.casesOpened[i]) {
      OpenKeepsCase(t, t', alert, s.nextCase + i, q.tally.casesOpened[i]);
    }
  }

  lemma StepKeepsMatch(cfg: Settings, s: Store, q: Progress, c: Candidate)
    requires !cfg.dryRun && CountersFresh(q.store) && CasesMatch(s, q)
    ensures CasesMatch(s, Step(cfg, q, c)) && CountersFresh(Step(cfg, q, c).store)
  {
    hide OpenFor, CaseFor, CountersFresh;
    StepStores(cfg, q, c);
    if c.found.dedupeKey !in q.seen && !Below(cfg, c.found) {
      var inserted := Insert(q.store, c);
      InsertSizes(q.store, c);
      InsertKeepsReported(s, q, c);
      if OpensCase(cfg, q, c) {
        var after := OpenFor(cfg, inserted, q.store.nextAlert, c.userId);
        OpenForEffect(cfg, inserted, q.store.nextAlert, c.userId);
        OpenKeepsReported(s, q, inserted, after, q.store.nextAlert);
        OpenMatches(inserted, after, q.store.nextAlert, (c.userId, c.found.ruleCode));
      }
    }
  }

  lemma {:induction false} FoldKeepsMatch(cfg: Settings, p: Progress, candidates: seq<Candidate>)
    requires !cfg.dryRun && CountersFresh(p.store) && p.tally.casesOpened == []
    ensures CasesMatch(p.store, Fold(cfg, p, candidates)) && CountersFresh(Fold(cfg, p, candidates).store)
  {
    if candidates != [] {
      hide Step, CasesMatch, CountersFresh;
      var n := |candidates| - 1;
      FoldKeepsMatch(cfg, p, candidates[..n]);
      StepKeepsMatch(cfg, p.store, Fold(cfg, p, candidates[..n]), candidates[n]);
    }
  }

  /** The cases a live sweep stores: one account and rule each, no two alike, none where a case was open. */
  lemma OneNewCaseEach(cfg: Settings, s: Store, candidates: seq<Candidate>, users: set<string>, k: CaseId)
    returns (o: (string, string))
    requires !cfg.dryRun && CountersFresh(s) && Users(candidates) <= users
    requires k in Sweep(cfg, s, candidates, users).store.db.cases && k !in s.db.cases
    ensures var db := Sweep(cfg, s, candidates, users).store.db;
      && CaseFor(db, k, o) && (o.0 in users ==> o.1 !in OpenCodes(s.db, o.0))
      && forall k' :: k' in db.cases && k' !in s.db.cases && CaseFor(db, k', o) ==> k' == k
  {
    hide OpenCodes;
    var p := Start(s, candidates, users);
    var q := Sweep(cfg, s, candidates, users);
    FoldKeepsMatch(cfg, p, candidates);
    AtMostOneCaseEach(cfg, s, candidates, users);
    o := q.tally.casesOpened[k - s.nextCase];
    assert CaseFor(q.store.db, s.nextCase + (k - s.nextCase), o);
    forall k' | k' in q.store.db.cases && k' !in s.db.cases && CaseFor(q.store.db, k', o) ensures k' == k {
      var i := k' - s.nextCase;
      assert CaseFor(q.store.db, s.nextCase + i, q.tally.casesOpened[i]);
    }
  }

  lemma InsertSizes(s: Store, c: Candidate)
    requires CountersFresh(s)
    ensures var s' := Insert(s, c);
            && CountersFresh(s') && |s'.db.alerts| == |s.db.alerts| + 1 && |s'.db.cases| == |s.db.cases|
            && s.nextAlert in s'.db.alerts && s'.db.alerts[s.nextAlert].caseId.None?
  {
    var alert := AlertFor(c);
    assert alert.caseId.None? && Insert(s, c).db.alerts == s.db.alerts[s.nextAlert := alert];
    hide AlertFor;
    assert Insert(s, c).db.alerts.Keys == s.db.alerts.Keys + {s.nextAlert};
  }

  lemma OpenForSizes(cfg: Settings, s: Store, alert: AlertId, user: string)
    requires CountersFresh(s) && alert in s.db.alerts && s.db.alerts[alert].caseId.None?
    ensures var s' := OpenFor(cfg, s, alert, user);
            CountersFresh(s') && |s'.db.alerts| == |s.db.alerts| && |s'.db.cases| == |s.db.cases| + 1
  {
    hide OpenFor;
    var s' := OpenFor(cfg, s, alert, user);
    OpenForEffect(cfg, s, alert, user);
    CaseOpenedKeepsKeys(s, s', alert);
    assert s'.db.alerts.Keys == s.db.alerts.Keys;
    assert |s'.db.cases.Keys| == |s.db.cases.Keys| + 1;
  }

  /** A live step stores one alert for each finding it raises, and one case for each it opens. */
  lemma StepStores(cfg: Settings, p: Progress, c: Candidate)
    requires !cfg.dryRun && CountersFresh(p.store)
    ensures var q := Step(cfg, p, c);
            && CountersFresh(q.store)
            && |q.store.db.alerts| - |p.store.db.alerts| == q.tally.raised - p.tally.raised
            && |q.store.db.cases| - |p.store.db.cases| == |q.tally.casesOpened| - |p.tally.casesOpened|
  {
    hide OpenFor, Insert, CountersFresh;
    if c.found.dedupeKey !in p.seen && !Below(cfg, c.found) {
      InsertSizes(p.store, c);
      if OpensCase(cfg, p, c) {
        OpenForSizes(cfg, Insert(p.store, c), p.store.nextAlert, c.userId);
      }
    }
  }

  /** The tables grow by exactly what the counters report. */
  lemma {:induction false} TablesMatchCounters(cfg: Settings, p: Progress, candidates: seq<Candidate>)
    requires !cfg.dryRun && CountersFresh(p.store)
    ensures var q := Fold(cfg, p, candidates);
            && CountersFresh(q.store)
            && |q.store.db.alerts| - |p.store.db.alerts| == q.tally.raised - p.tally.raised
            && |q.store.db.cases| - |p.store.db.cases| == |q.tally.casesOpened| - |p.tally.casesOpened|
  {
    hide Step;
    if candidates != [] {
      var n := |candidates| - 1;
      TablesMatchCounters(cfg, p, candidates[..n]);
      StepStores(cfg, Fold(cfg, p, candidates[..n]), candidates[n]);
    }
  }

  /** A candidate that was dealt with is either a stored key or below its threshold. */
  lemma {:induction false} DealtWith(cfg: Settings, p: Progress, candidates: seq<Candidate>)
    ensures var q := Fold(cfg, p, candidates);
      && p.seen <= q.seen
      && forall c :: c in candidates ==> c.found.dedupeKey in q.seen || Below(cfg, c.found)
  {
    if candidates != [] {
      var n := |candidates| - 1;
      DealtWith(cfg, p, candidates[..n]);
      assert candidates == candidates[..n] + [candidates[n]];
    }
  }

  lemma {:induction false} NothingLeftToRaise(cfg: Settings, p: Progress, candidates: seq<Candidate>)
    requires forall c :: c in candidates ==> c.found.dedupeKey in p.seen || Below(cfg, c.found)
    ensures var q := Fold(cfg, p, candidates);
            q.store == p.store && q.seen == p.seen && q.tally.raised == p.tally.raised
                && q.tally.casesOpened == p.tally.casesOpened
  {
    if candidates != [] {
      var n := |candidates| - 1;
      NothingLeftToRaise(cfg, p, candidates[..n]);
      assert candidates[n] in candidates;
    }
  }

  /** After a live sweep each finding has an alert under its key, unless it is below the threshold of its rule. */
  lemma EveryFindingIsStored(cfg: Settings, s: Store, candidates: seq<Candidate>, users: set<string>, c: Candidate)
    requires !cfg.dryRun && Inv(s.db) && UniqueDedupeKeys(s.db) && CountersFresh(s)
    requires KnownRules(s.db, candidates) && Users(candidates) <= users && c in candidates
    ensures (c.found.ruleId in cfg.thresholds ==> c.found.riskScore >= cfg.thresholds[c.found.ruleId]) ==>
              exists a :: a in Sweep(cfg, s, candidates, users).store.db.alerts
                          && Sweep(cfg, s, candidates, users).store.db.alerts[a].dedupeKey == c.found.dedupeKey
  {
    hide Inv, Fold;
    SweepKeepsStore(cfg, s, candidates, users);
    DealtWith(cfg, Start(s, candidates, users), candidates);
  }

  /** Running the same sweep again raises nothing and writes nothing. */
  lemma SecondSweepRaisesNothing(cfg: Settings, s: Store, candidates: seq<Candidate>, users: set<string>)
    requires !cfg.dryRun && Inv(s.db) && UniqueDedupeKeys(s.db) && CountersFresh(s)
    requires KnownRules(s.db, candidates) && Users(candidates) <= users
    ensures var s' := Sweep(cfg, s, candidates, users).store;
            var again := Sweep(cfg, s', candidates, users);
            again.store == s' && again.tally.raised == 0 && again.tally.casesOpened == []
  {
    var first := Sweep(cfg, s, candidates, users);
    SweepKeepsStore(cfg, s, candidates, users);
    DealtWith(cfg, Start(s, candidates, users), candidates);
    var restart := Start(first.store, candidates, users);
    StartSeesStored(first.store, candidates, users);
    NothingLeftToRaise(cfg, restart, candidates);
  }
}

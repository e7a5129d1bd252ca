/**
 What a live sweep leaves in the tables (backend/src/aml/transaction-monitoring.service.ts): which alerts it
 stores, with what in them, and for which of them a case is open afterwards.
 */
module SweepDelivery {
  import opened Collections
  import opened Options
  import opened AmlCases
  import opened AmlCaseProofs
  import opened MonitoringSweep

  /** The alert carries the finding, column by column, and nobody has looked at it yet. */
  ghost predicate Carries(alert: Alert, c: Candidate) {
    && alert.dedupeKey == c.found.dedupeKey && alert.ruleId == Some(c.found.ruleId)
       && alert.ruleCode == c.found.ruleCode
    && alert.userId == Some(c.userId) && alert.severity == c.found.severity && alert.riskScore == c.found.riskScore
    && alert.amountUsd == c.found.amountUsd && !alert.reviewed
    && alert.status == if alert.caseId.None? then Pending else Triaged
  }

  /** An alert of the account and rule sits in a case that is not closed. */
  ghost predicate HasOpenCase(db: State, user: string, code: string) {
    exists a :: a in db.alerts && db.alerts[a].userId == Some(user) && db.alerts[a].ruleCode == code && InOpen(db, a)
  }

  ghost predicate InOpen(db: State, a: AlertId)
    requires a in db.alerts
  {
    db.alerts[a].caseId.Some? && db.alerts[a].caseId.value in db.cases
        && db.cases[db.alerts[a].caseId.value].status != Closed
  }

  ghost predicate AboveThreshold(cfg: Settings, c: Candidate) {
    c.found.ruleId in cfg.thresholds ==> c.found.riskScore >= cfg.thresholds[c.found.ruleId]
  }

  /** A new alert carries some finding that is not below the threshold of its rule. */
  ghost predicate GoodAlert(cfg: Settings, candidates: seq<Candidate>, alert: Alert) {
    exists c :: c in candidates && Carries(alert, c) && AboveThreshold(cfg, c)
  }

  /** A new case is open, for the account of its one alert, which is new and scores high enough. */
  ghost predicate GoodCase(cfg: Settings, s: Store, db: State, k: CaseId)
    requires k in db.cases
  {
    && db.cases[k].status == Open && |db.cases[k].alertIds| == 1
    && var a := db.cases[k].alertIds[0];
    && a in db.alerts && a !in s.db.alerts && db.alerts[a].caseId == Some(k)
    && db.alerts[a].riskScore >= cfg.autoCaseScore && db.cases[k].subject == db.alerts[a].userId
  }

  ghost predicate OldRowsStay(s: Store, db: State) {
    && (forall a :: a in s.db.alerts ==> a in db.alerts && db.alerts[a] == s.db.alerts[a])
    && (forall k :: k in s.db.cases ==> k in db.cases && db.cases[k] == s.db.cases[k])
  }

  ghost predicate NewAlertsGood(cfg: Settings, s: Store, candidates: seq<Candidate>, db: State) {
    forall a :: a in db.alerts && a !in s.db.alerts ==> GoodAlert(cfg, candidates, db.alerts[a])
  }

  ghost predicate NewCasesGood(cfg: Settings, s: Store, db: State) {
    forall k :: k in db.cases && k !in s.db.cases ==> GoodCase(cfg, s, db, k)
  }

  /** Wherever the score asks for a case, one is open for the account and rule. */
  ghost predicate CasesOpened(cfg: Settings, s: Store, db: State) {
    forall a :: a in db.alerts && a !in s.db.alerts ==> Served(cfg, db, a)
  }

  ghost predicate Served(cfg: Settings, db: State, a: AlertId)
    requires a in db.alerts
  {
    db.alerts[a].riskScore >= cfg.autoCaseScore && db.alerts[a].userId.Some? ==>
      HasOpenCase(db, db.alerts[a].userId.value, db.alerts[a].ruleCode)
  }

  /** All but the one alert that was just inserted. */
  ghost predicate OthersServed(cfg: Settings, s: Store, db: State, alert: AlertId) {
    forall a :: a in db.alerts && a !in s.db.alerts && a != alert ==> Served(cfg, db, a)
  }

  ghost predicate Delivered(cfg: Settings, s: Store, candidates: seq<Candidate>, db: State) {
    && OldRowsStay(s, db) && NewAlertsGood(cfg, s, candidates, db) && NewCasesGood(cfg, s, db)
       && CasesOpened(cfg, s, db)
  }

  /** Case numbers of the run so far, kept between steps. */
  ghost predicate Above(s: Store, t: Store) {
    s.nextAlert <= t.nextAlert && s.nextCase <= t.nextCase && CountersFresh(s) && CountersFresh(t)
  }

  lemma CodesMeanCases(db: State, user: string, code: string)
    ensures code in OpenCodes(db, user) <==> HasOpenCase(db, user, code)
  {
    if HasOpenCase(db, user, code) {
      var a :| a in db.alerts && db.alerts[a].userId == Some(user) && db.alerts[a].ruleCode == code && InOpen(db, a);
      assert InOpenCase(db, a, user);
    }
  }

  // ---- Inserting the alert ----

  lemma InsertKeepsCases(s: Store, c: Candidate, user: string, code: string)
    requires CountersFresh(s) && HasOpenCase(s.db, user, code)
    ensures HasOpenCase(MonitoringSweep.Insert(s, c).db, user, code)
  {
    var a :| a in s.db.alerts && s.db.alerts[a].userId == Some(user) && s.db.alerts[a].ruleCode == code
        && InOpen(s.db, a);
    assert InOpen(MonitoringSweep.Insert(s, c).db, a);
  }

  lemma InsertDelivers(cfg: Settings, s: Store, candidates: seq<Candidate>, t: Store, c: Candidate)
    requires Above(s, t) && Delivered(cfg, s, candidates, t.db) && c in candidates && AboveThreshold(cfg, c)
    ensures var t' := MonitoringSweep.Insert(t, c);
      && Above(s, t') && OldRowsStay(s, t'.db) && NewAlertsGood(cfg, s, candidates, t'.db)
         && NewCasesGood(cfg, s, t'.db)
      && t.nextAlert !in s.db.alerts && OthersServed(cfg, s, t'.db, t.nextAlert)
  {
    hide HasOpenCase, GoodAlert;
    var t' := MonitoringSweep.Insert(t, c);
    InsertedIsGood(cfg, candidates, c);
    forall k | k in t'.db.cases && k !in s.db.cases ensures GoodCase(cfg, s, t'.db, k) {
      assert GoodCase(cfg, s, t.db, k);
    }
    forall user, code | HasOpenCase(t.db, user, code) ensures HasOpenCase(t'.db, user, code) {
      InsertKeepsCases(t, c, user, code);
    }
  }

  lemma InsertedIsGood(cfg: Settings, candidates: seq<Candidate>, c: Candidate)
    requires c in candidates && AboveThreshold(cfg, c)
    ensures GoodAlert(cfg, candidates, AlertFor(c))
  {
    assert Carries(AlertFor(c), c);
  }

  // ---- Opening the case ----

  lemma OpenKeepsCases(t: Store, t': Store, alert: AlertId, user: string, code: string)
    requires alert in t.db.alerts && t.db.alerts[alert].caseId.None? && CountersFresh(t) && CaseOpened(t, t', alert)
    ensures HasOpenCase(t.db, user, code) ==> HasOpenCase(t'.db, user, code)
    ensures t.db.alerts[alert].userId == Some(user) && t.db.alerts[alert].ruleCode == code ==>
      HasOpenCase(t'.db, user, code)
  {
    if HasOpenCase(t.db, user, code) {
      var a :| a in t.db.alerts && t.db.alerts[a].userId == Some(user) && t.db.alerts[a].ruleCode == code
          && InOpen(t.db, a);
      assert InOpen(t'.db, a);
    }
    assert InOpen(t'.db, alert);
  }

  lemma OpenKeepsAlert(cfg: Settings, candidates: seq<Candidate>, alert: Alert, k: CaseId)
    requires GoodAlert(cfg, candidates, alert) && alert.caseId.None?
    ensures GoodAlert(cfg, candidates, alert.(caseId := Some(k), status := Triaged))
  {
    var c :| c in candidates && Carries(alert, c) && AboveThreshold(cfg, c);
    assert Carries(alert.(caseId := Some(k), status := Triaged), c);
  }

  lemma OpenDelivers(cfg: Settings, s: Store, candidates: seq<Candidate>, t: Store, t': Store, alert: AlertId)
    requires Above(s, t) && OldRowsStay(s, t.db) && NewAlertsGood(cfg, s, candidates, t.db)
      && NewCasesGood(cfg, s, t.db)
    requires alert in t.db.alerts && alert !in s.db.alerts && t.db.alerts[alert].caseId.None?
      && CaseOpened(t, t', alert)
    requires t.db.alerts[alert].riskScore >= cfg.autoCaseScore
      && t'.db.cases[t.nextCase].subject == t.db.alerts[alert].userId
    requires OthersServed(cfg, s, t.db, alert)
    ensures Delivered(cfg, s, candidates, t'.db)
  {
    hide HasOpenCase, GoodAlert;
    OpenKeepsAlert(cfg, candidates, t.db.alerts[alert], t.nextCase);
    forall k | k in t'.db.cases && k !in s.db.cases ensures GoodCase(cfg, s, t'.db, k) {
      if k != t.nextCase {
        assert GoodCase(cfg, s, t.db, k);
      }
    }
    forall user, code
      ensures HasOpenCase(t.db, user, code) ==> HasOpenCase(t'.db, user, code)
      ensures t.db.alerts[alert].userId == Some(user) && t.db.alerts[alert].ruleCode == code ==>
        HasOpenCase(t'.db, user, code)
    {
      OpenKeepsCases(t, t', alert, user, code);
    }
  }

  lemma OpensForSubject(cfg: Settings, t: Store, alert: AlertId, user: string)
    requires CountersFresh(t) && alert in t.db.alerts && t.db.alerts[alert].caseId.None?
    ensures var db := OpenFor(cfg, t, alert, user).db;
      t.nextCase in db.cases && db.cases[t.nextCase].subject == Some(user)
  {
    OpenForSucceeds(cfg, t, alert, user);
    CountedIds(t.db.alerts, [alert]);
  }

  // ---- The sweep ----

  /** One finding that passed the checks: its alert is stored, and a case is open for it if its score asks for one. */
  lemma RaiseDelivers(
      cfg: Settings, s: Store, candidates: seq<Candidate>, p: Progress, c: Candidate, users: set<string>)
    requires !cfg.dryRun && Above(s, p.store) && Delivered(cfg, s, candidates, p.store.db)
    requires CodesAreStored(p, users) && c.userId in users && c in candidates && !Below(cfg, c.found)
    ensures Above(s, Raise(cfg, p, c).store) && Delivered(cfg, s, candidates, Raise(cfg, p, c).store.db)
  {
    hide HasOpenCase, GoodAlert, OpenFor, OpenCodes, Delivered, CaseOpened, GoodCase, Carries;
    var alert, inserted := p.store.nextAlert, MonitoringSweep.Insert(p.store, c);
    InsertDelivers(cfg, s, candidates, p.store, c);
    if OpensCase(cfg, p, c) {
      var after := OpenFor(cfg, inserted, alert, c.userId);
      OpenForEffect(cfg, inserted, alert, c.userId);
      OpensForSubject(cfg, inserted, alert, c.userId);
      CaseOpenedKeepsKeys(inserted, after, alert);
      OpenDelivers(cfg, s, candidates, inserted, after, alert);
      OpenGrows(inserted, after, alert);
    } else {
      CodesMeanCases(p.store.db, c.userId, c.found.ruleCode);
      StillOpen(cfg, p.store, c);
      AllDelivered(cfg, s, candidates, inserted.db);
    }
  }

  lemma OpenGrows(t: Store, t': Store, alert: AlertId)
    requires alert in t.db.alerts && CaseOpened(t, t', alert)
    ensures t.nextAlert <= t'.nextAlert && t.nextCase <= t'.nextCase
  {
  }

  lemma StillOpen(cfg: Settings, t: Store, c: Candidate)
    requires CountersFresh(t)
    ensures HasOpenCase(t.db, c.userId, c.found.ruleCode) ==>
      HasOpenCase(MonitoringSweep.Insert(t, c).db, c.userId, c.found.ruleCode)
  {
    if HasOpenCase(t.db, c.userId, c.found.ruleCode) {
      InsertKeepsCases(t, c, c.userId, c.found.ruleCode);
    }
  }

  lemma AllDelivered(cfg: Settings, s: Store, candidates: seq<Candidate>, db: State)
    requires OldRowsStay(s, db) && NewAlertsGood(cfg, s, candidates, db) && NewCasesGood(cfg, s, db)
      && CasesOpened(cfg, s, db)
    ensures Delivered(cfg, s, candidates, db)
  {
  }

  lemma NothingYet(cfg: Settings, s: Store, candidates: seq<Candidate>)
    requires CountersFresh(s)
    ensures Above(s, s) && Delivered(cfg, s, candidates, s.db)
  {
  }

  lemma {:induction false} FoldDelivers(
      cfg: Settings, s: Store, candidates: seq<Candidate>, done: seq<Candidate>, users: set<string>)
    requires !cfg.dryRun && LiveInv(Start(s, candidates, users), candidates, users) && KnownRules(s.db, candidates)
    requires Users(candidates) <= users && forall c :: c in done ==> c in candidates
    ensures var q := Fold(cfg, Start(s, candidates, users), done);
            Above(s, q.store) && Delivered(cfg, s, candidates, q.store.db)
  {
    hide Delivered, Above, Raise, Inv, UniqueDedupeKeys, SeenIsStored, CodesAreStored;
    var p := Start(s, candidates, users);
    if done == [] {
      NothingYet(cfg, s, candidates);
    } else {
      var n := |done| - 1;
      var q := Fold(cfg, p, done[..n]);
      FoldDelivers(cfg, s, candidates, done[..n], users);
      FoldKeepsLiveInv(cfg, p, done[..n], candidates, users);
      assert done[n] in candidates && done[n].userId in Users(candidates);
      if done[n].found.dedupeKey !in q.seen && !Below(cfg, done[n].found) {
        RaiseDelivers(cfg, s, candidates, q, done[n], users);
      }
    }
  }

  /**
   A live sweep stores alerts that carry findings not below their thresholds, and no others; each new alert whose
   score asks for a case has one open for its account and rule; each new case was opened for one such alert; and
   rows stored before stay as they were.
   */
  lemma SweepDelivers(cfg: Settings, s: Store, candidates: seq<Candidate>, users: set<string>)
    requires !cfg.dryRun && Inv(s.db) && UniqueDedupeKeys(s.db) && CountersFresh(s)
    requires KnownRules(s.db, candidates) && Users(candidates) <= users
    ensures Delivered(cfg, s, candidates, Sweep(cfg, s, candidates, users).store.db)
  {
    hide Inv, Delivered;
    StartIsLive(s, candidates, users);
    FoldDelivers(cfg, s, candidates, candidates, users);
  }

  // ---- What the counters count ----

  ghost predicate TooLow(cfg: Settings, c: Candidate) {
    c.found.ruleId in cfg.thresholds && c.found.riskScore < cfg.thresholds[c.found.ruleId]
  }

  /** The key of finding i has an alert already, or gets one for an earlier finding of the sweep. */
  ghost predicate Known(cfg: Settings, s: Store, candidates: seq<Candidate>, i: nat)
    requires i < |candidates|
  {
    KeyTaken(s.db.alerts, candidates[i].found.dedupeKey) || Earlier(cfg, candidates, i, candidates[i].found.dedupeKey)
  }

  ghost predicate Earlier(cfg: Settings, candidates: seq<Candidate>, n: nat, key: string)
    requires n <= |candidates|
  {
    exists j :: 0 <= j < n && candidates[j].found.dedupeKey == key && !TooLow(cfg, candidates[j])
  }

  ghost function Duplicates(cfg: Settings, s: Store, candidates: seq<Candidate>): nat -> bool {
    (i: nat) => i < |candidates| && Known(cfg, s, candidates, i)
  }

  ghost function Lows(cfg: Settings, s: Store, candidates: seq<Candidate>): nat -> bool {
    (i: nat) => i < |candidates| && !Known(cfg, s, candidates, i) && TooLow(cfg, candidates[i])
  }

  ghost function News(cfg: Settings, s: Store, candidates: seq<Candidate>): nat -> bool {
    (i: nat) => i < |candidates| && !Known(cfg, s, candidates, i) && !TooLow(cfg, candidates[i])
  }

  /** The places below n with some property. */
  ghost function Places(p: nat -> bool, n: nat): set<nat> {
    set i: nat | i < n && p(i)
  }

  lemma NextPlace(p: nat -> bool, n: nat)
    ensures |Places(p, n + 1)| == |Places(p, n)| + if p(n) then 1 else 0
  {
    assert Places(p, n + 1) == Places(p, n) + if p(n) then {n} else {};
  }

  ghost predicate SeenSoFar(cfg: Settings, s: Store, candidates: seq<Candidate>, n: nat, q: Progress)
    requires n <= |candidates|
  {
    forall c :: c in candidates ==>
      (c.found.dedupeKey in q.seen <==>
       KeyTaken(s.db.alerts, c.found.dedupeKey) || Earlier(cfg, candidates, n, c.found.dedupeKey))
  }

  ghost predicate Counted(cfg: Settings, s: Store, candidates: seq<Candidate>, n: nat, t: Tally) {
    && t.duplicate == |Places(Duplicates(cfg, s, candidates), n)| && t.below == |Places(Lows(cfg, s, candidates), n)|
    && t.raised == |Places(News(cfg, s, candidates), n)|
  }

  lemma NextCounted(cfg: Settings, s: Store, candidates: seq<Candidate>, n: nat, t: Tally, t': Tally)
    requires n < |candidates| && Counted(cfg, s, candidates, n, t)
    requires var known, low := Known(cfg, s, candidates, n), TooLow(cfg, candidates[n]);
      && t'.duplicate == t.duplicate + (if known then 1 else 0)
      && t'.below == t.below + (if !known && low then 1 else 0)
      && t'.raised == t.raised + (if !known && !low then 1 else 0)
    ensures Counted(cfg, s, candidates, n + 1, t')
  {
    hide Known, TooLow, Places;
    NextPlace(Duplicates(cfg, s, candidates), n);
    NextPlace(Lows(cfg, s, candidates), n);
    NextPlace(News(cfg, s, candidates), n);
  }

  lemma EarlierNext(cfg: Settings, candidates: seq<Candidate>, n: nat, key: string)
    requires n < |candidates|
    ensures Earlier(cfg, candidates, n + 1, key) <==>
            Earlier(cfg, candidates, n, key) || (candidates[n].found.dedupeKey == key && !TooLow(cfg, candidates[n]))
  {
    if Earlier(cfg, candidates, n, key) {
      var j :| 0 <= j < n && candidates[j].found.dedupeKey == key && !TooLow(cfg, candidates[j]);
    }
  }

  lemma {:induction false} FoldCounts(cfg: Settings, s: Store, candidates: seq<Candidate>, users: set<string>, n: nat)
    requires n <= |candidates|
    ensures var q := Fold(cfg, Start(s, candidates, users), candidates[..n]);
            SeenSoFar(cfg, s, candidates, n, q) && Counted(cfg, s, candidates, n, q.tally)
  {
    hide KeyTaken, Earlier, MonitoringSweep.Insert, OpenFor, FindExistingKeys, Counted;
    if n == 0 {
      NoneCounted(cfg, s, candidates, users);
    } else {
      var m := n - 1;
      assert candidates[..n][..m] == candidates[..m];
      FoldCounts(cfg, s, candidates, users, m);
      forall c | c in candidates
        ensures Earlier(cfg, candidates, n, c.found.dedupeKey) <==>
                Earlier(cfg, candidates, m, c.found.dedupeKey)
                || (candidates[m].found.dedupeKey == c.found.dedupeKey && !TooLow(cfg, candidates[m]))
      {
        EarlierNext(cfg, candidates, m, c.found.dedupeKey);
      }
      assert candidates[m] in candidates;
      var before := Fold(cfg, Start(s, candidates, users), candidates[..m]);
      NextCounted(cfg, s, candidates, m, before.tally, Step(cfg, before, candidates[m]).tally);
    }
  }

  lemma NoneCounted(cfg: Settings, s: Store, candidates: seq<Candidate>, users: set<string>)
    ensures SeenSoFar(cfg, s, candidates, 0, Start(s, candidates, users))
    ensures Counted(cfg, s, candidates, 0, Start(s, candidates, users).tally)
  {
    StartSeesStored(s, candidates, users);
    assert forall p: nat -> bool :: Places(p, 0) == {};
  }

  /** Live or dry: duplicates, findings below their threshold, and findings raised, each counted by what they are. */
  lemma CountersMean(cfg: Settings, s: Store, candidates: seq<Candidate>, users: set<string>)
    ensures Counted(cfg, s, candidates, |candidates|, Sweep(cfg, s, candidates, users).tally)
  {
    FoldCounts(cfg, s, candidates, users, |candidates|);
    assert candidates[..|candidates|] == candidates;
  }
}

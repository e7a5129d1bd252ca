/**
 The retention job: each database or storage call is one action of AuditRetention, so what a method
 does is a run of the transition system, and a crash inside it is a prefix of that run.
 */
module AuditRetentionJob {
  import opened Collections
  import opened Options
  import opened AuditRetention

  const SOURCE_TABLES := ["system_audit_logs", "audit_logs", "transaction_audit_log"]
  const ARCHIVE_BATCH_SIZE: nat := 100
  const DAY_MS := 86_400_000

  datatype RunResult = RunResult(archived: nat, deletedFromPrimary: nat, deletedExpiredArchives: nat)

  lemma {:induction false} RunConcat(st: State, a: seq<Action>, b: seq<Action>)
    ensures Run(st, a + b) == Run(Run(st, a), b)
    decreases |a|
  {
    if a == [] {
      assert a + b == b;
    } else {
      assert (a + b)[1..] == a[1..] + b;
      RunConcat(Apply(st, a[0]), a[1..], b);
    }
  }

  lemma RunSnoc(st: State, steps: seq<Action>, a: Action)
    ensures Run(st, steps + [a]) == Apply(Run(st, steps), a)
  {
    RunConcat(st, steps, [a]);
    assert Run(Apply(Run(st, steps), a), [a][1..]) == Apply(Run(st, steps), a);
  }

  /** The WHERE clause of the archive query. */
  function DueIn(
      source: map<RowKey, AuditRow>, records: map<nat, Record>, now: int, hotRetentionDays: nat,
      table: string): set<RowKey> {
    set k | k in source && k.table == table && Archivable(source, records, now, k)
            && source[k].createdAt <= now - hotRetentionDays * DAY_MS
  }

  /**
   Due: of the table, unexpired, no debug log, older than the hot period, and not archived under its own table and id.
   */
  lemma DueIff(source: map<RowKey, AuditRow>, records: map<nat, Record>, now: int, days: nat, table: string, k: RowKey)
    ensures k in DueIn(source, records, now, days, table) <==>
            && k in source && k.table == table && source[k].retentionUntil > now && source[k].logType != Debug
            && source[k].createdAt <= now - days * 24 * 60 * 60 * 1000
            && forall r :: r in records ==> records[r].source != k
  {
    assert days * DAY_MS == days * 24 * 60 * 60 * 1000;
  }

  /** Archiving one row takes it, and no other, off the list of rows that are due. */
  lemma DueAfterArchiving(
      source: map<RowKey, AuditRow>, records: map<nat, Record>, now: int, days: nat, table: string, id: nat,
      record: Record)
    requires id !in records
    ensures DueIn(source - {record.source}, records[id := record], now, days, table)
            == DueIn(source, records, now, days, table) - {record.source}
  {
    var after := records[id := record];
    RecordAdded(records, id, record);
    forall k ensures k in DueIn(source - {record.source}, after, now, days, table) <==>
                     k in DueIn(source, records, now, days, table) - {record.source}
    {
      if k != record.source {
        assert IsArchived(after, k) <==> IsArchived(records, k);
      }
    }
  }

  /** Taking the rows of a page one by one. */
  lemma NextElement<T>(s: seq<T>, n: nat, due: set<T>)
    requires n < |s| && (forall i, j :: 0 <= i < j < |s| ==> s[i] != s[j]) && ElementSet(s) <= due
    ensures s[n] in due - ElementSet(s[..n])
    ensures due - ElementSet(s[..n]) - {s[n]} == due - ElementSet(s[..n + 1])
  {
    assert ElementSet(s[..n + 1]) == ElementSet(s[..n]) + {s[n]};
  }

  lemma NextRow(source: map<RowKey, AuditRow>, rows: seq<RowKey>, n: nat)
    requires n < |rows|
    ensures source - ElementSet(rows[..n]) - {rows[n]} == source - ElementSet(rows[..n + 1])
  {
    assert ElementSet(rows[..n + 1]) == ElementSet(rows[..n]) + {rows[n]};
  }

  lemma NothingTaken(st: State, rows: seq<RowKey>, due: set<RowKey>)
    ensures Run(st, []) == st
    ensures st.source - ElementSet(rows[..0]) == st.source && due - ElementSet(rows[..0]) == due
  {
  }

  lemma DueIsArchivable(
      source: map<RowKey, AuditRow>, records: map<nat, Record>, now: int, days: nat, table: string, key: RowKey)
    requires key in DueIn(source, records, now, days, table)
    ensures Archivable(source, records, now, key) && key.table == table
  {
  }

  ghost predicate SubMap<K, V>(a: map<K, V>, b: map<K, V>) {
    forall k :: k in a ==> k in b && a[k] == b[k]
  }

  ghost predicate OldestFirst(source: map<RowKey, AuditRow>, rows: seq<RowKey>) {
    && (forall k :: k in rows ==> k in source)
    && forall i, j :: 0 <= i < j < |rows| ==>
       rows[i] != rows[j] && source[rows[i]].createdAt <= source[rows[j]].createdAt
  }

  /** Due rows left out of the page are no older than those in it. */
  ghost predicate LeavesOutYounger(source: map<RowKey, AuditRow>, rows: seq<RowKey>, rest: set<RowKey>)
    requires rest <= source.Keys && forall k :: k in rows ==> k in source
  {
    && (forall k :: k in rest ==> k !in rows)
    && forall k, r :: k in rest && r in rows ==> source[r].createdAt <= source[k].createdAt
  }

  lemma EmptyPage(source: map<RowKey, AuditRow>, rest: set<RowKey>)
    requires rest <= source.Keys
    ensures OldestFirst(source, []) && LeavesOutYounger(source, [], rest)
  {
  }

  /** Moving the oldest row left over to the end of the page. */
  lemma PageGrows(source: map<RowKey, AuditRow>, rows: seq<RowKey>, rest: set<RowKey>, key: RowKey)
    requires rest <= source.Keys && OldestFirst(source, rows) && LeavesOutYounger(source, rows, rest)
    requires key in rest && forall k :: k in rest ==> source[key].createdAt <= source[k].createdAt
    ensures OldestFirst(source, rows + [key]) && LeavesOutYounger(source, rows + [key], rest - {key})
    ensures ElementSet(rows + [key]) + (rest - {key}) == ElementSet(rows) + rest
  {
    assert ElementSet(rows + [key]) == ElementSet(rows) + {key};
  }

  /** What left the table was due, and is no younger than any row that still is. */
  ghost predicate TakesOldest(
      before: map<RowKey, AuditRow>, after: map<RowKey, AuditRow>, due: set<RowKey>, still: set<RowKey>) {
    && SubMap(after, before) && still <= due <= before.Keys
    && (forall r :: r in before && r !in after ==> r in due)
    && forall r, k :: r in before && r !in after && k in still ==> before[r].createdAt <= before[k].createdAt
  }

  lemma TakesOldestTwice(
      a: map<RowKey, AuditRow>, b: map<RowKey, AuditRow>, c: map<RowKey, AuditRow>, due: set<RowKey>, mid: set<RowKey>,
      still: set<RowKey>)
    requires TakesOldest(a, b, due, mid) && TakesOldest(b, c, mid, still)
    ensures TakesOldest(a, c, due, still)
  {
  }

  lemma InPrefix<T>(s: seq<T>, n: nat)
    requires n <= |s|
    ensures forall i :: 0 <= i < n ==> s[i] in s[..n]
  {
    forall i | 0 <= i < n ensures s[i] in s[..n] {
      assert s[..n][i] == s[i];
    }
  }

  /** The first rows of a page taken, whether or not the run got to its end. */
  lemma PageTakesOldest(source: map<RowKey, AuditRow>, rows: seq<RowKey>, rest: set<RowKey>, n: nat)
    requires n <= |rows| && rest <= source.Keys && OldestFirst(source, rows) && LeavesOutYounger(source, rows, rest)
    ensures var gone := ElementSet(rows[..n]); var due := ElementSet(rows) + rest;
            TakesOldest(source, source - gone, due, due - gone)
  {
    InPrefix(rows, n);
    forall r, k | r in rows[..n] && k in ElementSet(rows) + rest && k !in rows[..n]
      ensures source[r].createdAt <= source[k].createdAt
    {
      var i :| 0 <= i < n && rows[i] == r;
      if k in rows {
        var j :| 0 <= j < |rows| && rows[j] == k;
        assert i < j;
      }
    }
  }

  /** What went had expired, and the longest expired went first. */
  ghost predicate TakesLongestExpired(before: map<nat, Record>, after: map<nat, Record>, now: int) {
    && SubMap(after, before)
    && (forall r :: r in before && r !in after ==> before[r].retentionUntil <= now)
    && forall r, q :: r in before && r !in after && q in after ==> before[r].retentionUntil <= after[q].retentionUntil
  }

  lemma NonePurged(records: map<nat, Record>, now: int)
    ensures TakesLongestExpired(records, records, now)
  {
  }

  lemma PurgesNext(before: map<nat, Record>, records: map<nat, Record>, now: int, next: nat)
    requires TakesLongestExpired(before, records, now) && next in records && records[next].retentionUntil <= now
    requires forall q :: q in records && records[q].retentionUntil <= now ==>
      records[next].retentionUntil <= records[q].retentionUntil
    ensures TakesLongestExpired(before, records - {next}, now)
  {
  }

  lemma DueWere(source: map<RowKey, AuditRow>, records: map<nat, Record>, now: int, days: nat, table: string)
    ensures forall k :: k in DueIn(source, records, now, days, table) ==>
      && k in source && k.table == table && source[k].logType != Debug && source[k].retentionUntil > now
      && source[k].createdAt <= now - days * 24 * 60 * 60 * 1000 && !IsArchived(records, k)
  {
    forall k | k in DueIn(source, records, now, days, table)
      ensures source[k].createdAt <= now - days * 24 * 60 * 60 * 1000
    {
      DueIff(source, records, now, days, table, k);
    }
  }

  class AuditRetentionService {
    const me: nat
    const hotRetentionDays: nat
    var now: int
    var source: map<RowKey, AuditRow>
    var objects: map<ObjectId, Object>
    var records: map<nat, Record>
    var nextVersion: nat
    var nextRecord: nat
    ghost var workers: map<nat, Worker>
    ghost var logged: map<RowKey, AuditRow>
    ghost var uploads: map<ObjectId, Object>

    constructor (me: nat, hotRetentionDays: nat)
      ensures View() == Init() && this.me == me && this.hotRetentionDays == hotRetentionDays
    {
      this.me, this.hotRetentionDays := me, hotRetentionDays;
      now, source, objects, records, nextVersion, nextRecord := 0, map[], map[], map[], 0, 0;
      workers, logged, uploads := map[], map[], map[];
    }

    ghost function View(): State
      reads this
    {
      State(now, source, objects, records, nextVersion, nextRecord, workers, logged, uploads)
    }

    /** Record ids come from a counter. */
    ghost predicate FreshIds()
      reads this
    {
      forall r :: r in records ==> r < nextRecord
    }

    ghost function Pc(): Worker
      reads this
    {
      At(View(), me)
    }

    // ---- Single calls ----

    method PutObject(key: RowKey, row: AuditRow, reported: Object, versioned: bool) returns (version: Option<nat>)
      requires Pc() == Selected(key, row)
      modifies this
      ensures View() == Apply(old(View()), Put(me, reported, versioned))
      ensures version == if versioned then Some(old(nextVersion)) else None
      ensures source == old(source) && records == old(records) && now == old(now) && nextRecord == old(nextRecord)
      ensures Pc() == if versioned then Stored(key, row, old(nextVersion)) else Idle
    {
      var id := ObjectId(StorageKey(row.logType, key.id), nextVersion);
      objects := objects[id := reported.(content := row)];
      uploads := uploads[id := reported.(content := row)];
      version := if versioned then Some(nextVersion) else None;
      workers := workers[me := if versioned then Stored(key, row, nextVersion) else Idle];
      nextVersion := nextVersion + 1;
    }

    method HeadObject(key: RowKey, row: AuditRow, version: nat) returns (verified: bool)
      requires Pc() == Stored(key, row, version)
      modifies this`workers
      ensures View() == Apply(old(View()), Head(me))
      ensures Pc() == if verified then Verified(key, row, version) else Idle
    {
      var id := ObjectId(StorageKey(row.logType, key.id), version);
      verified := id in objects && PassesHead(row, objects[id]);
      workers := workers[me := if verified then Verified(key, row, version) else Idle];
    }

    method InsertArchiveRecord(key: RowKey, row: AuditRow, version: nat)
      requires Pc() == Verified(key, row, version)
      modifies this
      ensures View() == Apply(old(View()), InsertRecord(me))
      ensures Pc() == Indexed(key, row) && source == old(source) && now == old(now)
      ensures nextRecord == old(nextRecord) + 1
      ensures records == if IsArchived(old(records), key) then old(records)
        else old(records)[old(nextRecord) := RecordFor(key, row, version)]
    {
      if !IsArchived(records, key) {
        records := records[nextRecord := RecordFor(key, row, version)];
      }
      nextRecord := nextRecord + 1;
      workers := workers[me := Indexed(key, row)];
    }

    method DeleteSourceRow(key: RowKey, row: AuditRow)
      requires Pc() == Indexed(key, row)
      modifies this`source, this`workers
      ensures View() == Apply(old(View()), DeleteSource(me))
      ensures Pc().Idle?
      ensures source == if key in old(source) && old(source)[key].retentionUntil > now then old(source) - {key}
        else old(source)
    {
      if key in source && source[key].retentionUntil > now {
        source := source - {key};
      }
      workers := workers[me := Idle];
    }

    // ---- archiveSourceRow ----

    /** Copy, verify, index, delete. It stops with an exception when the store keeps no versions or fails the check. */
    method ArchiveSourceRow(key: RowKey, row: AuditRow, reported: Object, versioned: bool)
      returns (ok: bool, ghost steps: seq<Action>)
      requires Pc() == Selected(key, row)
      modifies this
      ensures View() == Run(old(View()), steps)
      ensures steps <= [Put(me, reported, versioned), Head(me), InsertRecord(me), DeleteSource(me)]
      ensures ok <==> |steps| == 4
      ensures Pc().Idle? && now == old(now)
      ensures source == if ok && key in old(source) && old(source)[key].retentionUntil > now then old(source) - {key}
        else old(source)
      ensures nextRecord == if ok then old(nextRecord) + 1 else old(nextRecord)
      ensures !ok || IsArchived(old(records), key) ==> records == old(records)
      ensures ok && !IsArchived(old(records), key) ==>
              exists version :: records == old(records)[old(nextRecord) := RecordFor(key, row, version)]
    {
      hide Apply, PassesHead;
      ghost var start := View();
      ok, steps := false, [];
      RunSnoc(start, steps, Put(me, reported, versioned));
      var version := PutObject(key, row, reported, versioned);
      steps := steps + [Put(me, reported, versioned)];
      if version.None? {
        return;
      }
      RunSnoc(start, steps, Head(me));
      var verified := HeadObject(key, row, version.value);
      steps := steps + [Head(me)];
      if !verified {
        return;
      }
      RunSnoc(start, steps, InsertRecord(me));
      InsertArchiveRecord(key, row, version.value);
      steps := steps + [InsertRecord(me)];
      RunSnoc(start, steps, DeleteSource(me));
      DeleteSourceRow(key, row);
      steps := steps + [DeleteSource(me)];
      ok := true;
    }

    // ---- purgeExpiredArchives ----

    method SelectForPurge(recordId: nat) returns (record: Record)
      requires Pc().Idle? && recordId in records && records[recordId].retentionUntil <= now
      modifies this`workers
      ensures View() == Apply(old(View()), SelectExpired(me, recordId))
      ensures record == records[recordId] && Pc() == Purging(recordId, record)
    {
      record := records[recordId];
      workers := workers[me := Purging(recordId, record)];
    }

    /** A lock that still holds raises an exception and leaves the object. */
    method DeleteArchivedObject(recordId: nat, record: Record) returns (ok: bool)
      requires Pc() == Purging(recordId, record)
      modifies this`workers, this`objects
      ensures View() == Apply(old(View()), DeleteObject(me))
      ensures Pc() == if ok then Purged(recordId, record) else Idle
    {
      var id := ObjectId(record.storageKey, record.version);
      if id in objects && objects[id].compliance && objects[id].retainUntil.Some?
          && objects[id].retainUntil.value > now {
        workers := workers[me := Idle];
        return false;
      }
      objects := objects - {id};
      workers := workers[me := Purged(recordId, record)];
      ok := true;
    }

    method DeleteArchiveRecord(recordId: nat, record: Record)
      requires Pc() == Purged(recordId, record)
      modifies this`workers, this`records
      ensures View() == Apply(old(View()), DeleteRecord(me))
      ensures records == old(records) - {recordId} && Pc().Idle?
    {
      records := records - {recordId};
      workers := workers[me := Idle];
    }

    /** Object first, record second. */
    method PurgeRecord(recordId: nat) returns (ok: bool, ghost steps: seq<Action>)
      requires Pc().Idle? && recordId in records && records[recordId].retentionUntil <= now
      modifies this`workers, this`objects, this`records
      ensures View() == Run(old(View()), steps) && Pc().Idle?
      ensures records == if ok then old(records) - {recordId} else old(records)
    {
      ghost var start := View();
      steps := [];
      RunSnoc(start, steps, SelectExpired(me, recordId));
      var record := SelectForPurge(recordId);
      steps := steps + [SelectExpired(me, recordId)];
      RunSnoc(start, steps, DeleteObject(me));
      ok := DeleteArchivedObject(recordId, record);
      steps := steps + [DeleteObject(me)];
      if ok {
        RunSnoc(start, steps, DeleteRecord(me));
        DeleteArchiveRecord(recordId, record);
        steps := steps + [DeleteRecord(me)];
      }
    }

    /** At most one batch of expired records, the longest expired first. */
    method PurgeExpiredArchives() returns (ok: bool, deleted: nat, ghost steps: seq<Action>)
      requires Pc().Idle?
      modifies this`workers, this`objects, this`records
      ensures View() == Run(old(View()), steps) && Pc().Idle?
      ensures |records| + deleted == |old(records)| && deleted <= ARCHIVE_BATCH_SIZE
      ensures TakesLongestExpired(old(records), records, now)
      ensures ok && deleted < ARCHIVE_BATCH_SIZE ==> forall r :: r in records ==> records[r].retentionUntil > now
    {
      hide Apply, TakesLongestExpired, LockRefuses;
      ok, deleted, steps := true, 0, [];
      NonePurged(records, now);
      while deleted < ARCHIVE_BATCH_SIZE
        invariant View() == Run(old(View()), steps) && Pc().Idle?
        invariant deleted <= ARCHIVE_BATCH_SIZE
        invariant |records| + deleted == |old(records)| && TakesLongestExpired(old(records), records, now)
        decreases ARCHIVE_BATCH_SIZE - deleted
      {
        var expired := set r | r in records && records[r].retentionUntil <= now;
        assert forall r :: r in records && records[r].retentionUntil <= now ==> r in expired;
        if expired == {} {
          return;
        }
        var next := LongestExpired(expired);
        PurgesNext(old(records), records, now, next);
        ghost var more: seq<Action>;
        ok, more := PurgeRecord(next);
        RunConcat(old(View()), steps, more);
        steps := steps + more;
        if !ok {
          return;
        }
        deleted := deleted + 1;
      }
    }

    method LongestExpired(candidates: set<nat>) returns (r: nat)
      requires candidates != {} && candidates <= records.Keys
      ensures r in candidates && forall q :: q in candidates ==> records[r].retentionUntil <= records[q].retentionUntil
    {
      r :| r in candidates;
      var rest := candidates - {r};
      while rest != {}
        invariant r in candidates && rest <= candidates
        invariant forall q :: q in candidates - rest ==> records[r].retentionUntil <= records[q].retentionUntil
        decreases rest
      {
        var q :| q in rest;
        if records[q].retentionUntil < records[r].retentionUntil {
          r := q;
        }
        rest := rest - {q};
      }
    }

    // ---- runRetention ----

    function DueRows(table: string): set<RowKey>
      reads this
    {
      DueIn(source, records, now, hotRetentionDays, table)
    }

    method Oldest(candidates: set<RowKey>) returns (key: RowKey)
      requires candidates != {} && candidates <= source.Keys
      ensures key in candidates && forall k :: k in candidates ==> source[key].createdAt <= source[k].createdAt
    {
      key :| key in candidates;
      var rest := candidates - {key};
      while rest != {}
        invariant key in candidates && rest <= candidates
        invariant forall k :: k in candidates - rest ==> source[key].createdAt <= source[k].createdAt
        decreases rest
      {
        var k :| k in rest;
        if source[k].createdAt < source[key].createdAt {
          key := k;
        }
        rest := rest - {k};
      }
    }

    /** ORDER BY the table's timestamp LIMIT 100 over the due rows. */
    method SelectPage(table: string) returns (rows: seq<RowKey>, ghost rest: set<RowKey>)
      ensures |rows| <= ARCHIVE_BATCH_SIZE && OldestFirst(source, rows) && rest <= source.Keys
      ensures DueRows(table) == ElementSet(rows) + rest
      ensures LeavesOutYounger(source, rows, rest)
      ensures |rows| < ARCHIVE_BATCH_SIZE ==> rest == {}
    {
      hide OldestFirst, LeavesOutYounger;
      rows := [];
      var left := DueRows(table);
      EmptyPage(source, left);
      while left != {} && |rows| < ARCHIVE_BATCH_SIZE
        invariant |rows| <= ARCHIVE_BATCH_SIZE && left <= source.Keys && (forall k :: k in rows ==> k in source)
        invariant OldestFirst(source, rows) && LeavesOutYounger(source, rows, left)
        invariant DueRows(table) == ElementSet(rows) + left
        decreases left
      {
        var k := Oldest(left);
        PageGrows(source, rows, left, k);
        rows := rows + [k];
        left := left - {k};
      }
      rest := left;
    }

    method SelectForArchive(key: RowKey) returns (row: AuditRow)
      requires Pc().Idle? && Archivable(source, records, now, key)
      modifies this`workers
      ensures View() == Apply(old(View()), SelectRow(me, key))
      ensures row == source[key] && Pc() == Selected(key, row)
    {
      row := source[key];
      workers := workers[me := Selected(key, row)];
    }

    /** One due row: gone from the source and newly indexed, or the store's answer stops the run. */
    method ArchiveDueRow(key: RowKey, reported: Object, versioned: bool) returns (ok: bool, ghost steps: seq<Action>)
      requires Pc().Idle? && FreshIds() && Archivable(source, records, now, key)
      modifies this
      ensures View() == Run(old(View()), steps) && Pc().Idle? && FreshIds()
      ensures now == old(now) && source == if ok then old(source) - {key} else old(source)
      ensures |source| + (if ok then 1 else 0) == |old(source)|
      ensures |records| == |old(records)| + (if ok then 1 else 0)
      ensures DueRows(key.table) == if ok then old(DueRows(key.table)) - {key} else old(DueRows(key.table))
    {
      ghost var start := View();
      RunSnoc(start, [], SelectRow(me, key));
      var row := SelectForArchive(key);
      ghost var more: seq<Action>;
      ok, more := ArchiveSourceRow(key, row, reported, versioned);
      RunConcat(start, [] + [SelectRow(me, key)], more);
      steps := [] + [SelectRow(me, key)] + more;
      if ok {
        ghost var version :| records == old(records)[old(nextRecord) := RecordFor(key, row, version)];
        RecordAdded(old(records), old(nextRecord), RecordFor(key, row, version));
        DueAfterArchiving(old(source), old(records), now, hotRetentionDays, key.table, old(nextRecord),
            RecordFor(key, row, version));
        RowRemoved(old(source), key);
      }
    }

    /**
     The archiving half of one table: at most ten pages, oldest rows first; fewer rows than ten full pages means none
     was left due.
     */
    method ArchiveTable(table: string, store: nat -> (Object, bool))
      returns (ok: bool, archived: nat, ghost steps: seq<Action>)
      requires Pc().Idle? && FreshIds()
      modifies this
      ensures View() == Run(old(View()), steps) && Pc().Idle? && FreshIds()
      ensures |source| + archived == |old(source)| && |records| == |old(records)| + archived
      ensures archived <= 10 * ARCHIVE_BATCH_SIZE && now == old(now)
      ensures TakesOldest(old(source), source, old(DueRows(table)), DueRows(table))
      ensures ok && archived < 10 * ARCHIVE_BATCH_SIZE ==> DueRows(table) == {}
      ensures forall k :: k in old(source) && k !in source ==>
        && k.table == table && old(source)[k].logType != Debug && old(source)[k].retentionUntil > now
        && old(source)[k].createdAt <= now - hotRetentionDays * 24 * 60 * 60 * 1000 && !IsArchived(old(records), k)
    {
      DueWere(source, records, now, hotRetentionDays, table);
      ok, archived, steps := true, 0, [];
      var page: nat := 0;
      while page < 10
        invariant page <= 10 && archived == page * ARCHIVE_BATCH_SIZE
        invariant View() == Run(old(View()), steps) && Pc().Idle? && FreshIds()
        invariant |source| + archived == |old(source)| && |records| == |old(records)| + archived
        invariant TakesOldest(old(source), source, old(DueRows(table)), DueRows(table)) && now == old(now)
        decreases 10 - page
      {
        ghost var page0, due := source, DueRows(table);
        var rows, rest := SelectPage(table);
        ghost var more: seq<Action>;
        var n;
        ok, n, more := ArchivePage(table, rows, store);
        RunConcat(old(View()), steps, more);
        steps := steps + more;
        archived := archived + n;
        PageTakesOldest(page0, rows, rest, n);
        TakesOldestTwice(old(source), page0, source, old(DueRows(table)), due, DueRows(table));
        if !ok {
          return;
        }
        if |rows| < ARCHIVE_BATCH_SIZE {
          return;
        }
        page := page + 1;
      }
    }

    method ArchivePage(table: string, rows: seq<RowKey>, store: nat -> (Object, bool))
      returns (ok: bool, n: nat, ghost steps: seq<Action>)
      requires Pc().Idle? && FreshIds()
      requires (forall i, j :: 0 <= i < j < |rows| ==> rows[i] != rows[j]) && ElementSet(rows) <= DueRows(table)
      modifies this
      ensures View() == Run(old(View()), steps) && Pc().Idle? && FreshIds()
      ensures |source| + n == |old(source)| && |records| == |old(records)| + n
      ensures n <= |rows| && (ok ==> n == |rows|) && now == old(now)
      ensures source == old(source) - ElementSet(rows[..n])
      ensures DueRows(table) == old(DueRows(table)) - ElementSet(rows[..n])
    {
      hide DueIn, Archivable, ElementSet, Apply, Run;
      ok, n, steps := true, 0, [];
      NothingTaken(old(View()), rows, old(DueRows(table)));
      while n < |rows|
        invariant n <= |rows| && ok
        invariant View() == Run(old(View()), steps) && Pc().Idle? && FreshIds()
        invariant |source| + n == |old(source)| && |records| == |old(records)| + n
        invariant source == old(source) - ElementSet(rows[..n]) && now == old(now)
        invariant DueRows(table) == old(DueRows(table)) - ElementSet(rows[..n])
      {
        var key := rows[n];
        NextElement(rows, n, old(DueRows(table)));
        NextRow(old(source), rows, n);
        DueIsArchivable(source, records, now, hotRetentionDays, table, key);
        ghost var more: seq<Action>;
        ok, more := ArchiveDueRow(key, store(nextVersion).0, store(nextVersion).1);
        RunConcat(old(View()), steps, more);
        steps := steps + more;
        if !ok {
          return;
        }
        n := n + 1;
      }
    }

    /** DELETE ... WHERE retention_until <= now(), counting what went. */
    method DeleteExpiredRows(table: string) returns (count: nat)
      modifies this`source
      ensures View() == Apply(old(View()), DeleteExpired(table))
      ensures |source| + count == |old(source)| && SubMap(source, old(source))
      ensures forall k :: k in source && k.table == table ==> source[k].retentionUntil > now
      ensures forall k :: k in old(source) && !(k.table == table && old(source)[k].retentionUntil <= now) ==>
        k in source
    {
      var kept := map k | k in source && !(k.table == table && source[k].retentionUntil <= now) :: source[k];
      var gone := source.Keys - kept.Keys;
      assert source.Keys == kept.Keys + gone;
      count := |gone|;
      source := kept;
    }

    /**
     The whole job. A run that is not stopped by the store leaves no expired row in the three tables, and
     its counters account for every row that left the tables and every record that came or went.
     */
    method RunRetention(enabled: bool, store: nat -> (Object, bool))
      returns (ok: bool, result: RunResult, ghost steps: seq<Action>)
      requires Pc().Idle? && FreshIds()
      modifies this
      ensures View() == Run(old(View()), steps) && Pc().Idle?
      ensures !enabled ==> steps == [] && result == RunResult(0, 0, 0)
      ensures Accounted(|old(source)|, |old(records)|, result)
      ensures ok && enabled ==> NoneExpiredIn(SOURCE_TABLES)
    {
      ok, result, steps := true, RunResult(0, 0, 0), [];
      if !enabled {
        return;
      }
      var t := 0;
      while t < |SOURCE_TABLES|
        invariant 0 <= t <= |SOURCE_TABLES| && ok
        invariant View() == Run(old(View()), steps) && Pc().Idle? && FreshIds()
        invariant Accounted(|old(source)|, |old(records)|, result) && result.deletedExpiredArchives == 0
        invariant NoneExpiredIn(SOURCE_TABLES[..t])
      {
        ghost var more: seq<Action>;
        var table := SOURCE_TABLES[t];
        ok, result, more := RetainTable(table, result, store, SOURCE_TABLES[..t], |old(source)|, |old(records)|);
        RunConcat(old(View()), steps, more);
        steps := steps + more;
        if !ok {
          return;
        }
        assert SOURCE_TABLES[..t + 1] == SOURCE_TABLES[..t] + [table];
        t := t + 1;
      }
      assert SOURCE_TABLES[..|SOURCE_TABLES|] == SOURCE_TABLES;
      ghost var more: seq<Action>;
      var deleted;
      ok, deleted, more := PurgeExpiredArchives();
      RunConcat(old(View()), steps, more);
      steps := steps + more;
      result := result.(deletedExpiredArchives := deleted);
    }

    ghost predicate NoneExpiredIn(tables: seq<string>)
      reads this
    {
      forall k :: k in source && k.table in tables ==> source[k].retentionUntil > now
    }

    ghost predicate Accounted(rows: nat, recs: nat, result: RunResult)
      reads this
    {
      |source| + result.deletedFromPrimary == rows
          && |records| + result.deletedExpiredArchives == recs + result.archived
    }

    /** One turn of the loop over the source tables. */
    method RetainTable(
        table: string, before: RunResult, store: nat -> (Object, bool), ghost tables: seq<string>, ghost rows: nat,
        ghost recs: nat)
      returns (ok: bool, result: RunResult, ghost steps: seq<Action>)
      requires Pc().Idle? && FreshIds() && Accounted(rows, recs, before) && NoneExpiredIn(tables)
      modifies this
      ensures View() == Run(old(View()), steps) && Pc().Idle? && FreshIds()
      ensures Accounted(rows, recs, result) && result.deletedExpiredArchives == before.deletedExpiredArchives
      ensures ok ==> NoneExpiredIn(tables + [table])
    {
      var archived;
      ok, archived, steps := ArchiveTable(table, store);
      result := before.(archived := before.archived + archived,
          deletedFromPrimary := before.deletedFromPrimary + archived);
      if !ok {
        return;
      }
      RunSnoc(old(View()), steps, DeleteExpired(table));
      var expired := DeleteExpiredRows(table);
      steps := steps + [DeleteExpired(table)];
      result := result.(deletedFromPrimary := result.deletedFromPrimary + expired);
    }
  }

  lemma RowRemoved(source: map<RowKey, AuditRow>, key: RowKey)
    requires key in source
    ensures |source - {key}| + 1 == |source|
  {
    assert source.Keys == (source - {key}).Keys + {key};
  }

  lemma RecordAdded(records: map<nat, Record>, id: nat, record: Record)
    requires id !in records
    ensures |records[id := record]| == |records| + 1
    ensures forall k :: k != record.source ==> (IsArchived(records[id := record], k) <==> IsArchived(records, k))
  {
    var after := records[id := record];
    assert after.Keys == records.Keys + {id};
    forall k | k != record.source ensures IsArchived(after, k) <==> IsArchived(records, k) {
      if r :| r in records && records[r].source == k {
        assert after[r].source == k;
      }
    }
  }
}

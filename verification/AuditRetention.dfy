/**
 Audit-log retention (backend/src/audit/audit-retention.service.ts) as a transition system: any
 number of workers archive, index, delete and purge, one database or storage call at a time, and
 any worker may crash between any two calls.
 */
module AuditRetention {
  import opened Options

  datatype LogType = Financial | KycDocument | Operational | Debug

  datatype RowKey = RowKey(table: string, id: nat)

  /** body stands for every other column. A checksum is injective, so a row is its own checksum. */
  datatype AuditRow = AuditRow(logType: LogType, retentionUntil: int, createdAt: int, body: string)

  /** The object path: it does not name the source table. */
  datatype StorageKey = StorageKey(logType: LogType, id: nat)

  /** content is what was uploaded; the other parts are as the store reports them. */
  datatype Object = Object(content: AuditRow, sha256: AuditRow, compliance: bool, retainUntil: Option<int>)

  datatype ObjectId = ObjectId(key: StorageKey, version: nat)

  datatype Record = Record(
    source: RowKey, logType: LogType, createdAt: int, retentionUntil: int, storageKey: StorageKey, version: nat,
    checksum: AuditRow)

  /** How far a worker has got; what it holds is what the code keeps in local variables. */
  datatype Worker =
    | Idle
    | Selected(key: RowKey, row: AuditRow)
    | Stored(key: RowKey, row: AuditRow, version: nat)
    | Verified(key: RowKey, row: AuditRow, version: nat)
    | Indexed(key: RowKey, row: AuditRow)
    | Purging(recordId: nat, record: Record)
    | Purged(recordId: nat, record: Record)

  /** logged and uploads are histories: every row ever written, every object version ever stored. */
  datatype State = State(
    now: int, source: map<RowKey, AuditRow>, objects: map<ObjectId, Object>, records: map<nat, Record>,
    nextVersion: nat, nextRecord: nat, workers: map<nat, Worker>,
    logged: map<RowKey, AuditRow>, uploads: map<ObjectId, Object>)

  datatype Action =
    | Tick(ms: nat)
    | Log(key: RowKey, row: AuditRow)
    | SelectRow(w: nat, key: RowKey)
    | Put(w: nat, reported: Object, versioned: bool)
    | Head(w: nat)
    | InsertRecord(w: nat)
    | DeleteSource(w: nat)
    | DeleteExpired(table: string)
    | SelectExpired(w: nat, recordId: nat)
    | DeleteObject(w: nat)
    | DeleteRecord(w: nat)
    | Crash(w: nat)

  function At(st: State, w: nat): Worker {
    if w in st.workers then st.workers[w] else Idle
  }

  function Move(st: State, w: nat, pc: Worker): State {
    st.(workers := st.workers[w := pc])
  }

  predicate IsArchived(records: map<nat, Record>, key: RowKey) {
    exists r :: r in records && records[r].source == key
  }

  /** The WHERE clause of the archive query, less the hot period, which safety does not need. */
  predicate Archivable(source: map<RowKey, AuditRow>, records: map<nat, Record>, now: int, key: RowKey) {
    key in source && source[key].retentionUntil > now && source[key].logType != Debug && !IsArchived(records, key)
  }

  /** The head check: metadata, lock mode and lock date, each as the store reports them. */
  predicate PassesHead(row: AuditRow, o: Object) {
    o.sha256 == row && o.compliance && o.retainUntil.Some? && o.retainUntil.value >= row.retentionUntil
  }

  function RecordFor(key: RowKey, row: AuditRow, version: nat): Record {
    Record(key, row.logType, row.createdAt, row.retentionUntil, StorageKey(row.logType, key.id), version, row)
  }

  /** A compliance lock that has not run out makes the store refuse to delete. */
  predicate LockRefuses(st: State, record: Record) {
    var id := ObjectId(record.storageKey, record.version);
    id in st.objects && st.objects[id].compliance && st.objects[id].retainUntil.Some?
        && st.objects[id].retainUntil.value > st.now
  }

  function Apply(st: State, a: Action): State {
    match a
    case Tick(ms) => st.(now := st.now + ms)
    case Log(key, row) =>
      if key in st.logged then st
      else st.(source := st.source[key := row], logged := st.logged[key := row])
    case SelectRow(w, key) =>
      if At(st, w).Idle? && Archivable(st.source, st.records, st.now, key) then
          Move(st, w, Selected(key, st.source[key])) else st
    case Put(w, reported, versioned) =>
      var pc := At(st, w);
      if !pc.Selected? then st
      else
        // The upload carries its checksum, so what is stored is the body; the rest is the store's word.
        var o := reported.(content := pc.row);
        var id := ObjectId(StorageKey(pc.row.logType, pc.key.id), st.nextVersion);
        Move(st.(objects := st.objects[id := o], uploads := st.uploads[id := o], nextVersion := st.nextVersion + 1),
             w, if versioned then Stored(pc.key, pc.row, st.nextVersion) else Idle)
    case Head(w) =>
      var pc := At(st, w);
      if !pc.Stored? then st
      else
        var id := ObjectId(StorageKey(pc.row.logType, pc.key.id), pc.version);
        if id in st.objects && PassesHead(pc.row, st.objects[id]) then Move(st, w, Verified(pc.key, pc.row, pc.version))
        else Move(st, w, Idle)
    case InsertRecord(w) =>
      var pc := At(st, w);
      if !pc.Verified? then st
      else
        var records := if IsArchived(st.records, pc.key) then st.records
                       else st.records[st.nextRecord := RecordFor(pc.key, pc.row, pc.version)];
        Move(st.(records := records, nextRecord := st.nextRecord + 1), w, Indexed(pc.key, pc.row))
    case DeleteSource(w) =>
      var pc := At(st, w);
      if !pc.Indexed? then st
      else
        var source := if pc.key in st.source && st.source[pc.key].retentionUntil > st.now then st.source - {pc.key}
            else st.source;
        Move(st.(source := source), w, Idle)
    case DeleteExpired(table) =>
      st.(source := map k | k in st.source
          && !(k.table == table && st.source[k].retentionUntil <= st.now) :: st.source[k])
    case SelectExpired(w, recordId) =>
      if At(st, w).Idle? && recordId in st.records && st.records[recordId].retentionUntil <= st.now
      then Move(st, w, Purging(recordId, st.records[recordId])) else st
    case DeleteObject(w) =>
      var pc := At(st, w);
      if !pc.Purging? then st
      else
        var id := ObjectId(pc.record.storageKey, pc.record.version);
        if LockRefuses(st, pc.record) then Move(st, w, Idle)
        else Move(st.(objects := st.objects - {id}), w, Purged(pc.recordId, pc.record))
    case DeleteRecord(w) =>
      var pc := At(st, w);
      if !pc.Purged? then st else Move(st.(records := st.records - {pc.recordId}), w, Idle)
    case Crash(w) => Move(st, w, Idle)
  }

  function Run(st: State, actions: seq<Action>): State
    decreases |actions|
  {
    if actions == [] then st else Run(Apply(st, actions[0]), actions[1..])
  }

  function Init(): State {
    State(0, map[], map[], map[], 0, 0, map[], map[], map[])
  }

  // ---- Safety ----

  /** The record is the row's, and its object is there, holds the row and is locked long enough. */
  ghost predicate Sound(st: State, key: RowKey, record: Record) {
    && key in st.logged
    && var row := st.logged[key];
    && record.source == key && record.logType == row.logType && record.createdAt == row.createdAt
    && record.retentionUntil == row.retentionUntil && record.checksum == row
    && var id := ObjectId(record.storageKey, record.version);
    && id in st.objects && st.objects[id].content == row && st.objects[id].sha256 == row && st.objects[id].compliance
    && st.objects[id].retainUntil.Some? && st.objects[id].retainUntil.value >= row.retentionUntil
  }

  ghost predicate Kept(st: State, key: RowKey)
    requires key in st.logged
  {
    || (key in st.source && st.source[key] == st.logged[key])
    || (exists r :: r in st.records && st.records[r].source == key && Sound(st, key, st.records[r]))
  }

  /** No audit row is lost before its retention has run out. */
  ghost predicate Safe(st: State) {
    forall key :: key in st.logged && st.logged[key].retentionUntil > st.now ==> Kept(st, key)
  }

  // ---- The invariant ----

  /** An upload of exactly this row that passed the head check. */
  ghost predicate Backed(st: State, key: RowKey, row: AuditRow, version: nat) {
    && key in st.logged && st.logged[key] == row
    && var id := ObjectId(StorageKey(row.logType, key.id), version);
    && id in st.uploads && st.uploads[id].content == row
  }

  ghost predicate GoodRecord(st: State, record: Record) {
    && Backed(st, record.source, record.checksum, record.version)
    && record == RecordFor(record.source, record.checksum, record.version)
    && PassesHead(record.checksum, st.uploads[ObjectId(record.storageKey, record.version)])
  }

  ghost predicate GoodWorker(st: State, pc: Worker) {
    match pc
    case Idle => true
    case Selected(key, row) => key in st.logged && st.logged[key] == row
    case Stored(key, row, version) => Backed(st, key, row, version)
    case Verified(key, row, version) => Backed(st, key, row, version) && GoodRecord(st, RecordFor(key, row, version))
    case Indexed(key, row) => key in st.logged && st.logged[key] == row
        && (row.retentionUntil > st.now ==> IsArchived(st.records, key))
    case Purging(recordId, record) => GoodRecord(st, record) && record.retentionUntil <= st.now
        && RightRecord(st, recordId, record)
    case Purged(recordId, record) => record.retentionUntil <= st.now && RightRecord(st, recordId, record)
  }

  /** A record id is never given to another record. */
  ghost predicate RightRecord(st: State, recordId: nat, record: Record) {
    recordId < st.nextRecord && (recordId in st.records ==> st.records[recordId] == record)
  }

  ghost predicate GoodObjects(st: State) {
    && (forall id :: id in st.uploads ==> id.version < st.nextVersion)
    && (forall id :: id in st.objects ==> id in st.uploads && st.objects[id] == st.uploads[id])
    && (forall id :: id in st.uploads && st.uploads[id].content.retentionUntil > st.now ==> id in st.objects)
  }

  ghost predicate GoodRecords(st: State) {
    forall r :: r in st.records ==> r < st.nextRecord && GoodRecord(st, st.records[r])
  }

  ghost predicate GoodSource(st: State) {
    && (forall k :: k in st.source ==> k in st.logged && st.source[k] == st.logged[k])
    && (forall k :: k in st.logged && st.logged[k].retentionUntil > st.now ==>
       k in st.source || IsArchived(st.records, k))
  }

  ghost predicate GoodWorkers(st: State) {
    forall w :: w in st.workers ==> GoodWorker(st, st.workers[w])
  }

  ghost predicate Inv(st: State) {
    GoodObjects(st) && GoodRecords(st) && GoodSource(st) && GoodWorkers(st)
  }

  lemma InvIsSafe(st: State)
    requires Inv(st)
    ensures Safe(st)
  {
    forall key | key in st.logged && st.logged[key].retentionUntil > st.now ensures Kept(st, key) {
      if key !in st.source {
        var r :| r in st.records && st.records[r].source == key;
        assert GoodRecord(st, st.records[r]);
      }
    }
  }

  /** What a step that forgets nothing leaves intact. */
  ghost predicate Extends(st: State, st': State) {
    && st.now <= st'.now && st.nextRecord <= st'.nextRecord
    && (forall k :: k in st.logged ==> k in st'.logged && st'.logged[k] == st.logged[k])
    && (forall id :: id in st.uploads ==> id in st'.uploads && st'.uploads[id] == st.uploads[id])
  }

  lemma GoodRecordExtends(st: State, st': State, record: Record)
    requires Extends(st, st') && GoodRecord(st, record)
    ensures GoodRecord(st', record)
  {
  }

  /** Record ids are not reused and no unexpired row loses its record. */
  ghost predicate RecordsStay(st: State, st': State) {
    && (forall r :: r in st'.records && r < st.nextRecord ==> r in st.records && st'.records[r] == st.records[r])
    && (forall k :: k in st.logged && st.logged[k].retentionUntil > st'.now && IsArchived(st.records, k) ==>
       IsArchived(st'.records, k))
  }

  /** A worker's knowledge survives the steps of the others. */
  lemma GoodWorkerExtends(st: State, st': State, pc: Worker)
    requires Extends(st, st') && RecordsStay(st, st') && GoodWorker(st, pc)
    ensures GoodWorker(st', pc)
  {
    if pc.Verified? {
      GoodRecordExtends(st, st', RecordFor(pc.key, pc.row, pc.version));
    }
  }

  lemma WorkersStay(st: State, st': State, w: nat, pc: Worker)
    requires Extends(st, st') && RecordsStay(st, st') && GoodWorkers(st)
    requires st'.workers == st.workers[w := pc] && GoodWorker(st', pc)
    ensures GoodWorkers(st')
  {
    forall v | v in st'.workers ensures GoodWorker(st', st'.workers[v]) {
      if v != w {
        GoodWorkerExtends(st, st', st.workers[v]);
      }
    }
  }

  lemma RecordsStayGood(st: State, st': State)
    requires Extends(st, st') && GoodRecords(st)
    requires forall r :: r in st'.records ==> r in st.records && st'.records[r] == st.records[r]
    ensures GoodRecords(st')
  {
    forall r | r in st'.records ensures GoodRecord(st', st'.records[r]) {
      GoodRecordExtends(st, st', st.records[r]);
    }
  }

  lemma OthersStay(st: State, st': State)
    requires Extends(st, st') && RecordsStay(st, st') && GoodWorkers(st) && st'.workers == st.workers
    ensures GoodWorkers(st')
  {
    forall v | v in st'.workers ensures GoodWorker(st', st'.workers[v]) {
      GoodWorkerExtends(st, st', st.workers[v]);
    }
  }

  lemma TickKeepsInv(st: State, ms: nat)
    requires Inv(st)
    ensures Inv(Apply(st, Tick(ms)))
  {
    var st' := Apply(st, Tick(ms));
    OthersStay(st, st');
    RecordsStayGood(st, st');
  }

  lemma LogKeepsInv(st: State, key: RowKey, row: AuditRow)
    requires Inv(st)
    ensures Inv(Apply(st, Log(key, row)))
  {
    var st' := Apply(st, Log(key, row));
    if key !in st.logged {
      OthersStay(st, st');
      RecordsStayGood(st, st');
    }
  }

  lemma DeleteExpiredKeepsInv(st: State, table: string)
    requires Inv(st)
    ensures Inv(Apply(st, DeleteExpired(table)))
  {
    var st' := Apply(st, DeleteExpired(table));
    OthersStay(st, st');
    RecordsStayGood(st, st');
  }

  /** A step that only moves a worker on to something it may know. */
  lemma MoveKeepsInv(st: State, w: nat, pc: Worker)
    requires Inv(st) && GoodWorker(st, pc)
    ensures Inv(Move(st, w, pc))
  {
    var st' := Move(st, w, pc);
    GoodWorkerExtends(st, st', pc);
    WorkersStay(st, st', w, pc);
    RecordsStayGood(st, st');
  }

  lemma SelectRowKeepsInv(st: State, w: nat, key: RowKey)
    requires Inv(st)
    ensures Inv(Apply(st, SelectRow(w, key)))
  {
    if Apply(st, SelectRow(w, key)) != st {
      MoveKeepsInv(st, w, Selected(key, st.source[key]));
    }
  }

  lemma HeadKeepsInv(st: State, w: nat)
    requires Inv(st)
    ensures Inv(Apply(st, Head(w)))
  {
    var pc := At(st, w);
    if pc.Stored? {
      var id := ObjectId(StorageKey(pc.row.logType, pc.key.id), pc.version);
      if id in st.objects && PassesHead(pc.row, st.objects[id]) {
        MoveKeepsInv(st, w, Verified(pc.key, pc.row, pc.version));
      } else {
        MoveKeepsInv(st, w, Idle);
      }
    }
  }

  /** A new upload under a version never used before. */
  ghost predicate Uploaded(st: State, st': State, id: ObjectId, o: Object) {
    && id.version == st.nextVersion && st'.nextVersion == st.nextVersion + 1
    && st'.objects == st.objects[id := o] && st'.uploads == st.uploads[id := o]
  }

  lemma UploadedObjects(st: State, st': State, id: ObjectId, o: Object)
    requires GoodObjects(st) && Uploaded(st, st', id, o) && st.now == st'.now
    ensures id !in st.uploads && GoodObjects(st')
  {
  }

  lemma PutKeepsInv(st: State, w: nat, reported: Object, versioned: bool)
    requires Inv(st)
    ensures Inv(Apply(st, Put(w, reported, versioned)))
  {
    hide GoodObjects;
    var st' := Apply(st, Put(w, reported, versioned));
    if st' != st {
      var pc := At(st, w);
      assert GoodWorker(st, pc);
      UploadedObjects(st, st', ObjectId(StorageKey(pc.row.logType, pc.key.id), st.nextVersion),
          reported.(content := pc.row));
      WorkersStay(st, st', w, At(st', w));
      RecordsStayGood(st, st');
    }
  }

  /** An old record, or the one of a verified upload, stays good. */
  lemma InsertedIsGood(st: State, st': State, w: nat, r: nat)
    requires GoodRecords(st) && GoodWorkers(st) && st' == Apply(st, InsertRecord(w)) && At(st, w).Verified?
    requires r in st'.records
    ensures r < st'.nextRecord && GoodRecord(st', st'.records[r])
  {
    hide GoodRecord, Backed;
    var pc := At(st, w);
    assert Extends(st, st');
    if r in st.records && st'.records[r] == st.records[r] {
      GoodRecordExtends(st, st', st.records[r]);
    } else {
      assert GoodWorker(st, pc);
      GoodRecordExtends(st, st', RecordFor(pc.key, pc.row, pc.version));
    }
  }

  /** The records after an insert that skips a source row already indexed. */
  lemma InsertedRecords(st: State, st': State, w: nat)
    requires Inv(st) && st' == Apply(st, InsertRecord(w)) && At(st, w).Verified?
    ensures GoodRecords(st') && RecordsStay(st, st') && IsArchived(st'.records, At(st, w).key)
  {
    hide GoodRecord, GoodWorker, GoodObjects, GoodSource;
    var pc := At(st, w);
    if !IsArchived(st.records, pc.key) {
      assert st'.records[st.nextRecord].source == pc.key;
    }
    forall r | r in st'.records ensures r < st'.nextRecord && GoodRecord(st', st'.records[r]) {
      InsertedIsGood(st, st', w, r);
    }
    ArchivedStays(st, st');
  }

  lemma InsertKeepsInv(st: State, w: nat)
    requires Inv(st)
    ensures Inv(Apply(st, InsertRecord(w)))
  {
    hide GoodRecord, Backed;
    var st' := Apply(st, InsertRecord(w));
    if At(st, w).Verified? {
      InsertedRecords(st, st', w);
      ArchivedStays(st, st');
      assert At(st', w) == Indexed(At(st, w).key, At(st, w).row);
      VerifiedIsLogged(st, w);
      WorkersStay(st, st', w, At(st', w));
    }
  }

  lemma VerifiedIsLogged(st: State, w: nat)
    requires GoodWorkers(st) && At(st, w).Verified?
    ensures At(st, w).key in st.logged && st.logged[At(st, w).key] == At(st, w).row
  {
    assert GoodWorker(st, At(st, w));
  }

  lemma ArchivedStays(st: State, st': State)
    requires forall r :: r in st.records ==> r in st'.records && st'.records[r] == st.records[r]
    ensures forall k :: IsArchived(st.records, k) ==> IsArchived(st'.records, k)
  {
    forall k | IsArchived(st.records, k) ensures IsArchived(st'.records, k) {
      var r :| r in st.records && st.records[r].source == k;
      assert st'.records[r].source == k;
    }
  }

  lemma DeleteSourceKeepsInv(st: State, w: nat)
    requires Inv(st)
    ensures Inv(Apply(st, DeleteSource(w)))
  {
    var pc := At(st, w);
    if pc.Indexed? {
      assert GoodWorker(st, pc);
      var moved := Move(st, w, Idle);
      MoveKeepsInv(st, w, Idle);
      var st' := Apply(st, DeleteSource(w));
      OthersStay(moved, st');
      RecordsStayGood(moved, st');
    }
  }

  lemma PurgedObjectIsExpired(st: State, w: nat, recordId: nat, record: Record)
    requires GoodWorkers(st) && At(st, w) == Purging(recordId, record)
    ensures var id := ObjectId(record.storageKey, record.version);
            id in st.uploads && st.uploads[id].content.retentionUntil <= st.now
  {
    assert GoodWorker(st, Purging(recordId, record));
  }

  lemma ObjectsWithout(st: State, id: ObjectId)
    requires GoodObjects(st) && id in st.uploads && st.uploads[id].content.retentionUntil <= st.now
    ensures GoodObjects(st.(objects := st.objects - {id}))
  {
  }

  lemma DeleteObjectKeepsInv(st: State, w: nat)
    requires Inv(st)
    ensures Inv(Apply(st, DeleteObject(w)))
  {
    var pc := At(st, w);
    if pc.Purging? {
      assert GoodWorker(st, pc);
      if LockRefuses(st, pc.record) {
        MoveKeepsInv(st, w, Idle);
      } else {
        var id := ObjectId(pc.record.storageKey, pc.record.version);
        var moved := Move(st, w, Purged(pc.recordId, pc.record));
        MoveKeepsInv(st, w, Purged(pc.recordId, pc.record));
        ObjectsWithout(moved, id);
        var st' := moved.(objects := moved.objects - {id});
        OthersStay(moved, st');
        RecordsStayGood(moved, st');
        assert GoodSource(st');
        assert st' == Apply(st, DeleteObject(w));
      }
    }
  }

  /** Only an expired record goes, so no unexpired row loses its record. */
  lemma ExpiredRecordGoes(st: State, recordId: nat, k: RowKey)
    requires GoodRecords(st) && (recordId in st.records ==> st.records[recordId].retentionUntil <= st.now)
    requires k in st.logged && st.logged[k].retentionUntil > st.now && IsArchived(st.records, k)
    ensures IsArchived(st.records - {recordId}, k)
  {
    var r :| r in st.records && st.records[r].source == k;
    assert GoodRecord(st, st.records[r]);
    assert r in st.records - {recordId} && (st.records - {recordId})[r].source == k;
  }

  lemma PurgedIsExpired(st: State, w: nat)
    requires GoodWorkers(st) && At(st, w).Purged?
    ensures var pc := At(st, w); pc.recordId in st.records ==> st.records[pc.recordId].retentionUntil <= st.now
  {
    assert GoodWorker(st, At(st, w));
  }

  lemma DeleteRecordKeepsInv(st: State, w: nat)
    requires Inv(st)
    ensures Inv(Apply(st, DeleteRecord(w)))
  {
    hide GoodRecord;
    var st' := Apply(st, DeleteRecord(w));
    var pc := At(st, w);
    if pc.Purged? {
      PurgedIsExpired(st, w);
      forall k | k in st.logged && st.logged[k].retentionUntil > st.now && IsArchived(st.records, k)
        ensures IsArchived(st'.records, k)
      {
        ExpiredRecordGoes(st, pc.recordId, k);
      }
      WorkersStay(st, st', w, Idle);
      RecordsStayGood(st, st');
    }
  }

  lemma SelectExpiredKeepsInv(st: State, w: nat, recordId: nat)
    requires Inv(st)
    ensures Inv(Apply(st, SelectExpired(w, recordId)))
  {
    if Apply(st, SelectExpired(w, recordId)) != st {
      assert GoodRecord(st, st.records[recordId]);
      MoveKeepsInv(st, w, Purging(recordId, st.records[recordId]));
    }
  }

  lemma ApplyKeepsInv(st: State, a: Action)
    requires Inv(st)
    ensures Inv(Apply(st, a))
  {
    match a
    case Tick(ms) => TickKeepsInv(st, ms);
    case Log(key, row) => LogKeepsInv(st, key, row);
    case SelectRow(w, key) => SelectRowKeepsInv(st, w, key);
    case Put(w, reported, versioned) => PutKeepsInv(st, w, reported, versioned);
    case Head(w) => HeadKeepsInv(st, w);
    case InsertRecord(w) => InsertKeepsInv(st, w);
    case DeleteSource(w) => DeleteSourceKeepsInv(st, w);
    case DeleteExpired(table) => DeleteExpiredKeepsInv(st, table);
    case SelectExpired(w, recordId) => SelectExpiredKeepsInv(st, w, recordId);
    case DeleteObject(w) => DeleteObjectKeepsInv(st, w);
    case DeleteRecord(w) => DeleteRecordKeepsInv(st, w);
    case Crash(w) => MoveKeepsInv(st, w, Idle);
  }

  lemma {:induction false} RunKeepsInv(st: State, actions: seq<Action>)
    requires Inv(st)
    ensures Inv(Run(st, actions))
    decreases |actions|
  {
    if actions != [] {
      ApplyKeepsInv(st, actions[0]);
      RunKeepsInv(Apply(st, actions[0]), actions[1..]);
    }
  }

  // ---- Main results ----

  /** In every run, whatever crashes and however workers interleave, no unexpired row is lost. */
  lemma EveryRunIsSafe(actions: seq<Action>)
    ensures Safe(Run(Init(), actions))
  {
    RunKeepsInv(Init(), actions);
    InvIsSafe(Run(Init(), actions));
  }

  /** Only three calls and the expiry sweep delete anything. */
  lemma WhoDeletes(st: State, a: Action)
    ensures a.DeleteRecord? || st.records.Keys <= Apply(st, a).records.Keys
    ensures a.DeleteObject? || st.objects.Keys <= Apply(st, a).objects.Keys
    ensures a.DeleteSource? || a.DeleteExpired? || st.source.Keys <= Apply(st, a).source.Keys
  {
  }

  lemma RecordsTaken(st: State, a: Action, r: nat)
    requires GoodWorkers(st) && r in st.records && r !in Apply(st, a).records
    ensures st.records[r].retentionUntil <= st.now
  {
    WhoDeletes(st, a);
    assert GoodWorker(st, At(st, a.w));
  }

  lemma ObjectsTaken(st: State, a: Action, id: ObjectId)
    requires GoodObjects(st) && GoodWorkers(st) && id in st.objects && id !in Apply(st, a).objects
    ensures st.objects[id].content.retentionUntil <= st.now
  {
    WhoDeletes(st, a);
    var pc := At(st, a.w);
    assert pc.Purging? && id == ObjectId(pc.record.storageKey, pc.record.version);
    PurgedObjectIsExpired(st, a.w, pc.recordId, pc.record);
  }

  lemma RowsTaken(st: State, a: Action, k: RowKey)
    requires GoodSource(st) && GoodWorkers(st) && k in st.source && k !in Apply(st, a).source
    ensures st.source[k].retentionUntil <= st.now || IsArchived(st.records, k)
  {
    WhoDeletes(st, a);
    if a.DeleteSource? {
      assert GoodWorker(st, At(st, a.w));
    }
  }

  /** No step removes an object whose compliance lock has not run out. */
  lemma LockedObjectsStay(st: State, a: Action, id: ObjectId)
    requires id in st.objects && st.objects[id].compliance
    requires st.objects[id].retainUntil.Some? && st.objects[id].retainUntil.value > st.now
    ensures id in Apply(st, a).objects
  {
    WhoDeletes(st, a);
  }

  /** What a step may take away: expired records, objects of expired rows, and rows that are expired or archived. */
  ghost predicate TakesOnlyExpired(st: State, st': State) {
    && (forall r :: r in st.records && r !in st'.records ==> st.records[r].retentionUntil <= st.now)
    && (forall id :: id in st.objects && id !in st'.objects ==> st.objects[id].content.retentionUntil <= st.now)
    && (forall k :: k in st.source && k !in st'.source ==>
       st.source[k].retentionUntil <= st.now || IsArchived(st.records, k))
  }

  lemma PurgingTouchesExpiredOnly(before: seq<Action>, a: Action)
    ensures TakesOnlyExpired(Run(Init(), before), Apply(Run(Init(), before), a))
  {
    RunKeepsInv(Init(), before);
    var st := Run(Init(), before);
    forall r | r in st.records && r !in Apply(st, a).records ensures st.records[r].retentionUntil <= st.now {
      RecordsTaken(st, a, r);
    }
    forall id | id in st.objects && id !in Apply(st, a).objects
        ensures st.objects[id].content.retentionUntil <= st.now {
      ObjectsTaken(st, a, id);
    }
    forall k | k in st.source && k !in Apply(st, a).source
      ensures st.source[k].retentionUntil <= st.now || IsArchived(st.records, k)
    {
      RowsTaken(st, a, k);
    }
  }
}

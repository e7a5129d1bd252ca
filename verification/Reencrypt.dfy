/**
 Key rotation for encrypted columns (backend/scripts/reencrypt-pii.ts): a cursor loop over
 batches that moves every cell from the old key to the new one.
 */
module Reencrypt {
  import opened Collections
  import opened Options

  // ---- The stored format ----

  predicate IsHexDigit(c: char) {
    '0' <= c <= '9' || 'a' <= c <= 'f' || 'A' <= c <= 'F'
  }

  predicate IsHex(s: string) {
    forall c :: c in s ==> IsHexDigit(c)
  }

  /** Two hexadecimal halves around one colon, the first of 32 digits, the second not empty (of any parity). */
  predicate IsTransformerCiphertext(value: string) {
    var parts := Split(value, ':');
    && ':' in value && |parts| == 2
    && |parts[0]| == 32 && |parts[1]| > 0 && IsHex(parts[0]) && IsHex(parts[1])
  }

  function Join(parts: seq<string>, sep: char): string
    requires |parts| > 0
  {
    if |parts| == 1 then parts[0] else parts[0] + [sep] + Join(parts[1..], sep)
  }

  lemma {:induction false} JoinSplit(s: string, sep: char)
    ensures Join(Split(s, sep), sep) == s
  {
    if s != "" {
      var rest := Split(s[1..], sep);
      JoinSplit(s[1..], sep);
      if s[0] == sep {
        assert ([""] + rest)[1..] == rest;
      } else {
        assert ([[s[0]] + rest[0]] + rest[1..])[1..] == rest[1..];
      }
    }
  }

  /** What the recogniser accepts: every string the encrypter prints, and more (upper case, an odd number of digits). */
  lemma CiphertextFormat(value: string)
    ensures IsTransformerCiphertext(value) <==>
            exists iv, ct :: value == iv + ":" + ct && |iv| == 32 && |ct| > 0 && IsHex(iv) && IsHex(ct)
  {
    if IsTransformerCiphertext(value) {
      var parts := Split(value, ':');
      JoinSplit(value, ':');
      assert Join(parts[1..], ':') == parts[1];
      assert value == parts[0] + ":" + parts[1];
    }
    forall iv, ct | value == iv + ":" + ct && |iv| == 32 && |ct| > 0 && IsHex(iv) && IsHex(ct)
      ensures IsTransformerCiphertext(value)
    {
      SplitFirst(iv, ct, ':');
      SplitWithout(ct, ':');
    }
  }

  // ---- Cells and the cipher ----

  datatype Key = Key(id: nat)

  /** A stored string, sealed ones kept apart with what was sealed: a ciphertext prints in the format above. */
  datatype Value = Text(s: string) | Sealed(key: Key, iv: nat, plain: string)

  type Cell = Option<Value>

  datatype Row = Row(id: int, cells: seq<Cell>)

  /**
   chance is what AES-CBC makes of a value under a key that did not seal it: None when the padding
   check fails, otherwise some unrelated string. ivs are the random initialisation vectors drawn.
   */
  datatype Env = Env(
    oldKey: Key, newKey: Key, dryRun: bool, verifyOnly: bool,
    chance: (Value, Key) -> Option<string>, ivs: (int, nat) -> nat)

  predicate LooksEncrypted(v: Value) {
    v.Sealed? || IsTransformerCiphertext(v.s)
  }

  function Decrypt(env: Env, v: Value, key: Key): Option<string> {
    if !LooksEncrypted(v) then None
    else if v.Sealed? && v.key == key then Some(v.plain)
    else env.chance(v, key)
  }

  function Meaning(v: Value): string {
    if v.Sealed? then v.plain else v.s
  }

  function Verify(env: Env, v: Value, expected: string, key: Key): bool {
    Decrypt(env, v, key) == Some(expected)
  }

  // ---- What one run does to one cell ----

  datatype Counts = Counts(skipped: nat, reencrypted: nat, verified: nat, errors: nat, dryRunRows: nat)

  const Zero := Counts(0, 0, 0, 0, 0)

  function Plus(a: Counts, b: Counts): Counts {
    Counts(a.skipped + b.skipped, a.reencrypted + b.reencrypted, a.verified + b.verified, a.errors + b.errors,
           a.dryRunRows + b.dryRunRows)
  }

  /** The plaintext a cell is re-encrypted from, if it is to be re-encrypted. */
  function Reading(env: Env, cell: Cell): Option<string> {
    if cell.None? then None
    else if !LooksEncrypted(cell.value) then Some(cell.value.s)
    else Decrypt(env, cell.value, env.oldKey)
  }

  function CellUpdate(env: Env, id: int, col: nat, cell: Cell): Option<Value> {
    var reading := Reading(env, cell);
    if env.dryRun || env.verifyOnly || reading.None? then None
    else Some(Sealed(env.newKey, env.ivs(id, col), reading.value))
  }

  function CellCounts(env: Env, cell: Cell): Counts {
    if cell.None? then Zero
    else if !LooksEncrypted(cell.value) then
      if !env.verifyOnly && env.dryRun then Counts(0, 0, 0, 0, 1) else Zero
    else if Decrypt(env, cell.value, env.oldKey).None? && Decrypt(env, cell.value, env.newKey).None? then
        Counts(0, 0, 0, 1, 0)
    else if env.verifyOnly then Counts(0, 0, 1, 0, 0)
    else if Decrypt(env, cell.value, env.oldKey).None? then Counts(1, 0, 0, 0, 0)
    else if env.dryRun then Counts(0, 0, 0, 0, 1)
    else Zero
  }

  function Updates(env: Env, row: Row, n: nat): map<nat, Value>
    requires n <= |row.cells|
  {
    if n == 0 then map[]
    else
      var before := Updates(env, row, n - 1);
      var update := CellUpdate(env, row.id, n - 1, row.cells[n - 1]);
      if update.Some? then before[n - 1 := update.value] else before
  }

  lemma {:induction false} UpdatesAt(env: Env, row: Row, n: nat)
    requires n <= |row.cells|
    ensures forall i :: i in Updates(env, row, n) <==> 0 <= i < n && CellUpdate(env, row.id, i, row.cells[i]).Some?
    ensures forall i :: i in Updates(env, row, n) ==>
      Updates(env, row, n)[i] == CellUpdate(env, row.id, i, row.cells[i]).value
  {
    if n > 0 {
      UpdatesAt(env, row, n - 1);
    }
  }

  function CountsUpTo(env: Env, row: Row, n: nat): Counts
    requires n <= |row.cells|
  {
    if n == 0 then Zero else Plus(CountsUpTo(env, row, n - 1), CellCounts(env, row.cells[n - 1]))
  }

  function RowCounts(env: Env, row: Row): Counts {
    Plus(CountsUpTo(env, row, |row.cells|),
         if Updates(env, row, |row.cells|) != map[] && !env.dryRun then Counts(0, 1, 0, 0, 0) else Zero)
  }

  function Overwrite(row: Row, updates: map<nat, Value>): Row {
    Row(row.id, seq(|row.cells|, i requires 0 <= i < |row.cells| =>
      if i in updates then Some(updates[i]) else row.cells[i]))
  }

  function RowAfter(env: Env, row: Row): Row {
    Overwrite(row, Updates(env, row, |row.cells|))
  }

  function BatchCounts(env: Env, rows: seq<Row>): Counts {
    if rows == [] then Zero else Plus(BatchCounts(env, rows[..|rows| - 1]), RowCounts(env, rows[|rows| - 1]))
  }

  // ---- The table ----

  /** Rows in primary-key order. */
  ghost predicate ByKey(table: seq<Row>) {
    forall i, j :: 0 <= i < j < |table| ==> table[i].id < table[j].id
  }

  function Ids(rows: seq<Row>): set<int> {
    set r | r in rows :: r.id
  }

  /** The table once the rows named in done have been rewritten. */
  function Rewritten(env: Env, table: seq<Row>, done: set<int>): seq<Row> {
    seq(|table|, i requires 0 <= i < |table| => if table[i].id in done then RowAfter(env, table[i]) else table[i])
  }

  /** WHERE pk > cursor ORDER BY pk LIMIT n FOR UPDATE SKIP LOCKED. */
  function Select(table: seq<Row>, cursor: int, n: nat, locked: set<int>): seq<Row> {
    if table == [] || n == 0 then []
    else if table[0].id > cursor && table[0].id !in locked then [table[0]] + Select(table[1..], cursor, n - 1, locked)
    else Select(table[1..], cursor, n, locked)
  }

  lemma {:induction false} SelectFrees(table: seq<Row>, cursor: int, n: nat, locked: set<int>)
    ensures forall r :: r in Select(table, cursor, n, locked) ==> r in table && r.id > cursor && r.id !in locked
    ensures |Select(table, cursor, n, locked)| <= n
  {
    if table != [] && n > 0 {
      if table[0].id > cursor && table[0].id !in locked {
        SelectFrees(table[1..], cursor, n - 1, locked);
      } else {
        SelectFrees(table[1..], cursor, n, locked);
      }
    }
  }

  lemma HeadIsFirst(table: seq<Row>, r: Row)
    requires ByKey(table) && r in table
    ensures r == table[0] || (r in table[1..] && table[0].id < r.id)
  {
  }

  lemma {:induction false} SelectInOrder(table: seq<Row>, cursor: int, n: nat, locked: set<int>)
    requires ByKey(table)
    ensures ByKey(Select(table, cursor, n, locked))
  {
    if table != [] && n > 0 {
      var head, tail := table[0], table[1..];
      if head.id > cursor && head.id !in locked {
        var rest := Select(tail, cursor, n - 1, locked);
        SelectInOrder(tail, cursor, n - 1, locked);
        SelectFrees(tail, cursor, n - 1, locked);
        forall j | 0 <= j < |rest| ensures head.id < rest[j].id {
          assert rest[j] in tail;
        }
      } else {
        SelectInOrder(tail, cursor, n, locked);
      }
    }
  }

  /** SELECT passes over no row that was free: such a row is returned or lies beyond a full batch. */
  lemma {:induction false} SelectMissesNone(table: seq<Row>, cursor: int, n: nat, locked: set<int>, r: Row)
    requires ByKey(table) && n > 0 && r in table && r.id > cursor && r.id !in locked
    ensures var rows := Select(table, cursor, n, locked);
            r in rows || (rows != [] && rows[|rows| - 1].id < r.id)
  {
    var head, tail := table[0], table[1..];
    HeadIsFirst(table, r);
    if head.id > cursor && head.id !in locked {
      var rest := Select(tail, cursor, n - 1, locked);
      if r == head {
        assert ([head] + rest)[0] == r;
      } else if n == 1 {
        assert rest == [];
      } else {
        SelectMissesNone(tail, cursor, n - 1, locked, r);
        if r in rest {
          assert r in [head] + rest;
        } else {
          assert ([head] + rest)[|rest|] == rest[|rest| - 1];
        }
      }
    } else {
      SelectMissesNone(tail, cursor, n, locked, r);
    }
  }

  /** UPDATE ... SET the given columns WHERE pk = id. */
  function WriteRow(table: seq<Row>, id: int, updates: map<nat, Value>): seq<Row> {
    seq(|table|, i requires 0 <= i < |table| => if table[i].id == id then Overwrite(table[i], updates) else table[i])
  }

  /** Rows in key order, all original and beyond the cursor. */
  ghost predicate FreshBatch(table: seq<Row>, done: set<int>, cursor: int, rows: seq<Row>) {
    ByKey(rows) && forall r :: r in rows ==> r in table && cursor < r.id && r.id !in done
  }

  class QueryRunner {
    /** The transaction's view of the table. */
    var work: seq<Row>

    constructor (table: seq<Row>)
      ensures work == table
    {
      work := table;
    }

    method Update(id: int, updates: map<nat, Value>)
      modifies this
      ensures work == WriteRow(old(work), id, updates)
    {
      work := WriteRow(work, id, updates);
    }
  }

  class Report {
    var skipped: nat
    var reencrypted: nat
    var verified: nat
    var errors: nat
    var dryRunRows: nat

    constructor ()
      ensures View() == Zero
    {
      skipped, reencrypted, verified, errors, dryRunRows := 0, 0, 0, 0, 0;
    }

    ghost function View(): Counts
      reads this
    {
      Counts(skipped, reencrypted, verified, errors, dryRunRows)
    }
  }

  /** One column: the new value, if it is to be written, and the counters. */
  method ProcessCell(env: Env, id: int, col: nat, raw: Cell, report: Report) returns (update: Option<Value>)
    modifies report
    ensures update == CellUpdate(env, id, col, raw)
    ensures report.View() == Plus(old(report.View()), CellCounts(env, raw))
  {
    hide IsTransformerCiphertext;
    update := None;
    if raw.None? {
      return;
    }
    if !LooksEncrypted(raw.value) {
      if !env.verifyOnly {
        if !env.dryRun {
          update := Some(Sealed(env.newKey, env.ivs(id, col), raw.value.s));
        }
        report.dryRunRows := report.dryRunRows + if env.dryRun then 1 else 0;
      }
      return;
    }
    var plaintext := Decrypt(env, raw.value, env.oldKey);
    var alreadyRotated := false;
    if plaintext.None? {
      plaintext := Decrypt(env, raw.value, env.newKey);
      if plaintext.Some? {
        alreadyRotated := true;
      }
    }
    if plaintext.None? {
      report.errors := report.errors + 1;
      return;
    }
    if env.verifyOnly {
      report.verified := report.verified + 1;
      return;
    }
    if alreadyRotated {
      report.skipped := report.skipped + 1;
      return;
    }
    var newCiphertext := Sealed(env.newKey, env.ivs(id, col), plaintext.value);
    // A fresh ciphertext reads back under its own key, so the source's error branch is dead here.
    if !Verify(env, newCiphertext, plaintext.value, env.newKey) {
      assert false;
    }
    if env.dryRun {
      report.dryRunRows := report.dryRunRows + 1;
    } else {
      update := Some(newCiphertext);
    }
  }

  /** One row's columns: the updates to write and the counters. */
  method ProcessRow(env: Env, row: Row, report: Report) returns (updates: map<nat, Value>)
    modifies report
    ensures updates == Updates(env, row, |row.cells|)
    ensures report.View() == Plus(old(report.View()), CountsUpTo(env, row, |row.cells|))
  {
    hide CellUpdate, CellCounts;
    updates := map[];
    for col := 0 to |row.cells|
      invariant updates == Updates(env, row, col)
      invariant report.View() == Plus(old(report.View()), CountsUpTo(env, row, col))
    {
      var update := ProcessCell(env, row.id, col, row.cells[col], report);
      if update.Some? {
        updates := updates[col := update.value];
      }
    }
  }

  lemma RewrittenStep(env: Env, table: seq<Row>, done: set<int>, row: Row)
    requires ByKey(table) && row in table && row.id !in done
    ensures forall i :: 0 <= i < |table| ==>
      Rewritten(env, table, done + {row.id})[i] == if table[i].id == row.id then RowAfter(env, row)
          else Rewritten(env, table, done)[i]
    ensures forall i :: 0 <= i < |table| ==> Rewritten(env, table, done)[i].id == table[i].id
    ensures forall i :: 0 <= i < |table| && table[i].id == row.id ==> Rewritten(env, table, done)[i] == row
  {
    forall i | 0 <= i < |table| && table[i].id == row.id ensures table[i] == row {
      KeysAreUnique(table, table[i], row);
    }
  }

  lemma KeysAreUnique(table: seq<Row>, a: Row, b: Row)
    requires ByKey(table) && a in table && b in table && a.id == b.id
    ensures a == b
  {
  }

  lemma UnchangedRow(env: Env, row: Row)
    requires Updates(env, row, |row.cells|) == map[] || env.dryRun
    ensures RowAfter(env, row) == row && Updates(env, row, |row.cells|) == map[]
  {
    UpdatesAt(env, row, |row.cells|);
    var none := Updates(env, row, |row.cells|);
    assert forall i :: i !in none;
    assert none == map[];
    assert RowAfter(env, row).cells == row.cells;
  }

  /** Writing one more row's updates, or skipping it when there are none. */
  lemma WorkStep(env: Env, table: seq<Row>, done: set<int>, row: Row)
    requires ByKey(table) && row in table && row.id !in done
    ensures WriteRow(Rewritten(env, table, done), row.id, Updates(env, row, |row.cells|))
            == Rewritten(env, table, done + {row.id})
  {
    RewrittenStep(env, table, done, row);
  }

  lemma SkipStep(env: Env, table: seq<Row>, done: set<int>, row: Row)
    requires ByKey(table) && row in table && row.id !in done
    requires Updates(env, row, |row.cells|) == map[] || env.dryRun
    ensures Rewritten(env, table, done) == Rewritten(env, table, done + {row.id})
    ensures Updates(env, row, |row.cells|) == map[]
  {
    UnchangedRow(env, row);
    RewrittenStep(env, table, done, row);
  }

  lemma BatchCountsStep(env: Env, rows: seq<Row>, k: nat, start: Counts)
    requires k < |rows|
    ensures Plus(start, BatchCounts(env, rows[..k + 1])) ==
      Plus(Plus(start, BatchCounts(env, rows[..k])), RowCounts(env, rows[k]))
  {
    assert rows[..k + 1][..k] == rows[..k];
  }

  lemma BatchStep(rows: seq<Row>, k: nat, done: set<int>)
    requires ByKey(rows) && k < |rows| && rows[k].id !in done
    ensures rows[..k + 1] == rows[..k] + [rows[k]] && rows[..k + 1][..k] == rows[..k]
    ensures rows[k].id !in done + Ids(rows[..k])
    ensures done + Ids(rows[..k + 1]) == done + Ids(rows[..k]) + {rows[k].id}
  {
  }

  /** One row of a batch: its columns, then a single UPDATE of those that changed. */
  method RewriteRow(env: Env, qr: QueryRunner, row: Row, report: Report, ghost table: seq<Row>, ghost done: set<int>)
    requires ByKey(table) && row in table && row.id !in done && qr.work == Rewritten(env, table, done)
    modifies qr, report
    ensures qr.work == Rewritten(env, table, done + {row.id})
    ensures report.View() == Plus(old(report.View()), RowCounts(env, row))
  {
    hide CellUpdate, CellCounts, CountsUpTo, Updates, WriteRow, Rewritten;
    var updates := ProcessRow(env, row, report);
    if updates != map[] && !env.dryRun {
      WorkStep(env, table, done, row);
      qr.Update(row.id, updates);
      report.reencrypted := report.reencrypted + 1;
    } else {
      SkipStep(env, table, done, row);
    }
  }

  method ProcessTransformerBatch(
      env: Env, qr: QueryRunner, rows: seq<Row>, report: Report, ghost table: seq<Row>, ghost done: set<int>,
      ghost cursor: int)
    requires ByKey(table) && FreshBatch(table, done, cursor, rows) && qr.work == Rewritten(env, table, done)
    modifies qr, report
    ensures qr.work == Rewritten(env, table, done + Ids(rows))
    ensures report.View() == Plus(old(report.View()), BatchCounts(env, rows))
  {
    ghost var seen := done;
    assert Ids(rows[..0]) == {};
    for k := 0 to |rows|
      invariant seen == done + Ids(rows[..k])
      invariant qr.work == Rewritten(env, table, seen)
      invariant report.View() == Plus(old(report.View()), BatchCounts(env, rows[..k]))
    {
      BatchStep(rows, k, done);
      BatchCountsStep(env, rows, k, old(report.View()));
      RewriteRow(env, qr, rows[k], report, table, seen);
      seen := seen + {rows[k].id};
    }
    assert rows[..|rows|] == rows;
  }

  // ---- The whole table ----

  /** How one batch ends: committed, its SELECT refused, or rolled back after some of its rows. */
  datatype Fate = Commits | SelectFails | FailsAfter(rows: nat)

  class Database {
    var table: seq<Row>

    constructor (table: seq<Row>)
      ensures this.table == table
    {
      this.table := table;
    }
  }

  ghost predicate UpTo(done: set<int>, cursor: int) {
    forall id :: id in done ==> 0 < id <= cursor
  }

  lemma RewrittenByKey(env: Env, table: seq<Row>, done: set<int>)
    requires ByKey(table)
    ensures ByKey(Rewritten(env, table, done))
  {
    var t := Rewritten(env, table, done);
    forall i, j | 0 <= i < j < |t| ensures t[i].id < t[j].id {
      assert t[i].id == table[i].id && t[j].id == table[j].id;
    }
  }

  /** Rows beyond the cursor have not been touched, so the batch holds original rows. */
  lemma BatchIsOriginal(env: Env, table: seq<Row>, done: set<int>, cursor: int, n: nat, locked: set<int>)
    requires ByKey(table) && UpTo(done, cursor)
    ensures var rows := Select(Rewritten(env, table, done), cursor, n, locked);
            FreshBatch(table, done, cursor, rows)
  {
    var now := Rewritten(env, table, done);
    RewrittenByKey(env, table, done);
    SelectInOrder(now, cursor, n, locked);
    SelectFrees(now, cursor, n, locked);
    forall r | r in now && r.id > cursor ensures r in table {
      var i :| 0 <= i < |now| && now[i] == r;
      assert table[i] == r;
    }
  }

  ghost function Remaining(table: seq<Row>, cursor: int): set<Row> {
    set r | r in table && r.id > cursor
  }

  /** The batch moves the cursor to its last row. */
  lemma CursorAdvances(table: seq<Row>, done: set<int>, cursor: int, rows: seq<Row>)
    requires FreshBatch(table, done, cursor, rows) && rows != [] && UpTo(done, cursor) && cursor >= 0
    ensures cursor < rows[|rows| - 1].id
    ensures |Remaining(table, rows[|rows| - 1].id)| < |Remaining(table, cursor)|
    ensures UpTo(done, rows[|rows| - 1].id) && UpTo(done + Ids(rows), rows[|rows| - 1].id)
  {
    var last := rows[|rows| - 1];
    assert last in rows;
    var a, b := Remaining(table, last.id), Remaining(table, cursor);
    assert last in b && last !in a && a <= b - {last};
    assert b == (b - {last}) + {last};
    SubsetSize(a, b - {last});
  }

  /** A cell with the look of a ciphertext that neither key opens. */
  ghost predicate Unreadable(env: Env, c: Cell) {
    c.Some? && LooksEncrypted(c.value) && Decrypt(env, c.value, env.oldKey).None?
        && Decrypt(env, c.value, env.newKey).None?
  }

  ghost predicate Clean(env: Env, row: Row) {
    forall c :: c in row.cells ==> !Unreadable(env, c)
  }

  lemma {:induction false} CleanRow(env: Env, row: Row, n: nat)
    requires n <= |row.cells| && CountsUpTo(env, row, n).errors == 0
    ensures forall c :: c in row.cells[..n] ==> !Unreadable(env, c)
  {
    if n > 0 {
      CleanRow(env, row, n - 1);
      assert row.cells[..n] == row.cells[..n - 1] + [row.cells[n - 1]];
    }
  }

  lemma {:induction false} CleanBatch(env: Env, rows: seq<Row>)
    requires BatchCounts(env, rows).errors == 0
    ensures forall r :: r in rows ==> Clean(env, r)
  {
    hide Unreadable, CountsUpTo, Updates;
    if rows != [] {
      var last := rows[|rows| - 1];
      CleanBatch(env, rows[..|rows| - 1]);
      CleanRow(env, last, |last.cells|);
      assert last.cells[..|last.cells|] == last.cells;
      assert rows == rows[..|rows| - 1] + [last];
    }
  }

  /** Rows the loop has dealt with so far: rewritten, or passed over while locked, or rolled back with an error. */
  ghost predicate Covered(table: seq<Row>, done: set<int>, cursor: int) {
    forall r :: r in table && 0 < r.id <= cursor ==> r.id in done
  }

  ghost predicate AllDone(table: seq<Row>, done: set<int>) {
    forall r :: r in table && 0 < r.id ==> r.id in done
  }

  lemma CoverBatch(env: Env, table: seq<Row>, done: set<int>, cursor: int, n: nat)
    requires ByKey(table) && UpTo(done, cursor) && Covered(table, done, cursor) && n > 0
    ensures var rows := Select(Rewritten(env, table, done), cursor, n, {});
      if rows == [] then AllDone(table, done)
      else Covered(table, done + Ids(rows), rows[|rows| - 1].id)
  {
    var now := Rewritten(env, table, done);
    var rows := Select(now, cursor, n, {});
    RewrittenByKey(env, table, done);
    forall r | r in table && cursor < r.id
      ensures r in rows || (rows != [] && rows[|rows| - 1].id < r.id)
    {
      var i :| 0 <= i < |table| && table[i] == r;
      assert r.id !in done && now[i] == r;
      SelectMissesNone(now, cursor, n, {}, r);
    }
  }

  ghost predicate AllClean(env: Env, table: seq<Row>, done: set<int>) {
    forall r :: r in table && r.id in done ==> Clean(env, r)
  }

  ghost predicate AllCommit(fate: nat -> Fate) {
    forall k :: fate(k) == Commits
  }

  ghost predicate NoLocks(locked: nat -> set<int>) {
    forall k :: locked(k) == {}
  }

  /** One transaction: committed as a whole, or rolled back with an error counted. */
  method ProcessBatch(
      env: Env, db: Database, rows: seq<Row>, ending: Fate, report: Report, ghost table: seq<Row>, ghost done: set<int>,
      ghost cursor: int)
    returns (ghost done': set<int>)
    requires ByKey(table) && FreshBatch(table, done, cursor, rows) && db.table == Rewritten(env, table, done)
    modifies db, report
    ensures db.table == Rewritten(env, table, done') && done' == if ending.Commits? then done + Ids(rows) else done
    ensures ending.Commits? ==> report.View() == Plus(old(report.View()), BatchCounts(env, rows))
    ensures report.errors == 0 ==> old(report.errors) == 0 && ending.Commits?
    ensures report.errors == 0 && AllClean(env, table, done) ==> AllClean(env, table, done')
  {
    var qr := new QueryRunner(db.table);
    if ending.Commits? {
      ProcessTransformerBatch(env, qr, rows, report, table, done, cursor);
      db.table := qr.work;
      if report.errors == 0 && AllClean(env, table, done) {
        CleanUnion(env, table, done, cursor, rows);
      }
      done' := done + Ids(rows);
    } else {
      var n := if ending.FailsAfter? && ending.rows < |rows| then ending.rows else |rows|;
      PrefixIsFresh(table, done, cursor, rows, n);
      ProcessTransformerBatch(env, qr, rows[..n], report, table, done, cursor);
      report.errors := report.errors + 1;
      done' := done;
    }
  }

  // ---- What a complete run leaves ----

  ghost predicate LiveRun(env: Env) {
    !env.dryRun && !env.verifyOnly
  }

  /** Decryption under a key that did not seal the value fails. */
  ghost predicate Ideal(env: Env) {
    forall v, k :: env.chance(v, k) == None
  }

  function CellAfter(env: Env, id: int, col: nat, cell: Cell): Cell {
    var update := CellUpdate(env, id, col, cell);
    if update.Some? then update else cell
  }

  /** Null stays null, and anything else is its own plaintext under the new key. */
  ghost predicate RotatedCell(env: Env, before: Cell, after: Cell) {
    && (after.None? <==> before.None?)
    && (after.Some? ==>
       after.value.Sealed? && after.value.key == env.newKey && after.value.plain == Meaning(before.value))
  }

  /** Every cell of every row but the nil one. */
  ghost predicate FullyRotated(env: Env, before: seq<Row>, after: seq<Row>) {
    |after| == |before| && forall i :: 0 <= i < |before| && before[i].id > 0 ==> RotatedRow(env, before[i], after[i])
  }

  ghost predicate RotatedRow(env: Env, before: Row, after: Row) {
    && after.id == before.id && |after.cells| == |before.cells|
    && forall col :: 0 <= col < |before.cells| ==> RotatedCell(env, before.cells[col], after.cells[col])
  }

  lemma RewrittenCells(env: Env, table: seq<Row>, done: set<int>, i: nat, col: nat)
    requires i < |table| && col < |table[i].cells|
    ensures var after := Rewritten(env, table, done)[i];
      && after.id == table[i].id && |after.cells| == |table[i].cells|
      && after.cells[col] == if table[i].id in done then CellAfter(env, table[i].id, col, table[i].cells[col])
         else table[i].cells[col]
  {
    UpdatesAt(env, table[i], |table[i].cells|);
  }

  lemma IdealCell(env: Env, id: int, col: nat, cell: Cell)
    requires LiveRun(env) && Ideal(env) && !Unreadable(env, cell)
    ensures RotatedCell(env, cell, CellAfter(env, id, col, cell))
  {
  }

  /** With an ideal cipher, a clean row that was processed holds its plaintexts under the new key. */
  lemma IdealRunRotates(env: Env, table: seq<Row>, done: set<int>, i: nat)
    requires LiveRun(env) && Ideal(env) && i < |table| && table[i].id in done && Clean(env, table[i])
    ensures RotatedRow(env, table[i], Rewritten(env, table, done)[i])
  {
    hide CellAfter, Unreadable, RotatedCell;
    UpdatesAt(env, table[i], |table[i].cells|);
    forall col: nat | col < |table[i].cells|
        ensures RotatedCell(env, table[i].cells[col], Rewritten(env, table, done)[i].cells[col]) {
      RewrittenCells(env, table, done, i, col);
      assert table[i].cells[col] in table[i].cells;
      IdealCell(env, table[i].id, col, table[i].cells[col]);
    }
  }

  lemma CompleteRunRotates(env: Env, table: seq<Row>, done: set<int>)
    requires LiveRun(env) && Ideal(env) && AllDone(table, done) && AllClean(env, table, done)
    ensures FullyRotated(env, table, Rewritten(env, table, done))
  {
    hide RotatedRow, Clean;
    forall i | 0 <= i < |table| && table[i].id > 0 ensures RotatedRow(env, table[i], Rewritten(env, table, done)[i]) {
      assert table[i] in table;
      IdealRunRotates(env, table, done, i);
    }
  }

  /**
   With an ideal cipher a live run, clean or not, leaves a cell alone or seals its own plaintext under the new key.
   */
  ghost predicate SoundCell(env: Env, before: Cell, after: Cell) {
    after == before || (before.Some? && RotatedCell(env, before, after))
  }

  ghost predicate SoundlyRewritten(env: Env, before: seq<Row>, after: seq<Row>) {
    |after| == |before| && forall i :: 0 <= i < |before| ==> SoundRow(env, before[i], after[i])
  }

  ghost predicate SoundRow(env: Env, before: Row, after: Row) {
    && after.id == before.id && |after.cells| == |before.cells|
    && forall col :: 0 <= col < |before.cells| ==> SoundCell(env, before.cells[col], after.cells[col])
  }

  lemma IdealCellIsSound(env: Env, id: int, col: nat, cell: Cell)
    requires LiveRun(env) && Ideal(env)
    ensures SoundCell(env, cell, CellAfter(env, id, col, cell))
  {
  }

  /** Wherever a run stops and whatever fails, no cell ever holds anything else. */
  lemma IdealRunIsSound(env: Env, table: seq<Row>, done: set<int>)
    requires LiveRun(env) && Ideal(env)
    ensures SoundlyRewritten(env, table, Rewritten(env, table, done))
  {
    hide CellAfter, RotatedCell, SoundCell, Rewritten;
    RewrittenLength(env, table, done);
    forall i: nat, col: nat | i < |table| && col < |table[i].cells|
      ensures |Rewritten(env, table, done)[i].cells| == |table[i].cells|
      ensures SoundCell(env, table[i].cells[col], Rewritten(env, table, done)[i].cells[col])
    {
      RewrittenCells(env, table, done, i, col);
      IdealCellIsSound(env, table[i].id, col, table[i].cells[col]);
      UnchangedIsSound(env, table[i].cells[col]);
    }
    forall i: nat | i < |table| ensures SoundRow(env, table[i], Rewritten(env, table, done)[i]) {
      RewrittenRow(env, table, done, i);
    }
  }

  lemma UnchangedIsSound(env: Env, cell: Cell)
    ensures SoundCell(env, cell, cell)
  {
  }

  lemma RewrittenRow(env: Env, table: seq<Row>, done: set<int>, i: nat)
    requires i < |table|
    ensures Rewritten(env, table, done)[i].id == table[i].id
      && |Rewritten(env, table, done)[i].cells| == |table[i].cells|
  {
    UpdatesAt(env, table[i], |table[i].cells|);
  }

  // ---- What the counters mean ----

  /** The places of the cells with some property in the rows of a set. */
  ghost function CellsWhere(table: seq<Row>, done: set<int>, p: Cell -> bool): set<(nat, nat)> {
    set i: nat, c: nat | i < |table| && c < |table[i].cells| && table[i].id in done && p(table[i].cells[c]) :: (i, c)
  }

  ghost function ColumnsWhere(cells: seq<Cell>, p: Cell -> bool): set<nat> {
    set c: nat | c < |cells| && p(cells[c])
  }

  ghost function RowsWhere(table: seq<Row>, done: set<int>, p: Row -> bool): set<nat> {
    set i: nat | i < |table| && table[i].id in done && p(table[i])
  }

  function TableCounts(env: Env, table: seq<Row>, done: set<int>): Counts {
    if table == [] then Zero
    else
      var last := table[|table| - 1];
      Plus(TableCounts(env, table[..|table| - 1], done), if last.id in done then RowCounts(env, last) else Zero)
  }

  ghost function UnreadableCells(env: Env): Cell -> bool {
    c => Unreadable(env, c)
  }

  /** Ciphertexts that one of the keys opens. */
  ghost function ReadableCells(env: Env): Cell -> bool {
    (c: Cell) => c.Some? && LooksEncrypted(c.value)
                 && (Decrypt(env, c.value, env.oldKey).Some? || Decrypt(env, c.value, env.newKey).Some?)
  }

  /** Ciphertexts that only the new key opens. */
  ghost function RotatedCells(env: Env): Cell -> bool {
    (c: Cell) => c.Some? && LooksEncrypted(c.value)
                 && Decrypt(env, c.value, env.oldKey).None? && Decrypt(env, c.value, env.newKey).Some?
  }

  /** Plaintexts, and ciphertexts that the old key opens: what a live run rewrites. */
  ghost function StaleCells(env: Env): Cell -> bool {
    (c: Cell) => c.Some? && (LooksEncrypted(c.value) ==> Decrypt(env, c.value, env.oldKey).Some?)
  }

  ghost function StaleRows(env: Env): Row -> bool {
    (r: Row) => exists c :: c in r.cells && StaleCells(env)(c)
  }

  /** Each counter is the number of cells, or of rows, it is named after, in the mode that counts them. */
  ghost predicate Tallies(env: Env, table: seq<Row>, done: set<int>, n: Counts) {
    && n.errors == |CellsWhere(table, done, UnreadableCells(env))|
    && n.verified == (if env.verifyOnly then |CellsWhere(table, done, ReadableCells(env))| else 0)
    && n.skipped == (if env.verifyOnly then 0 else |CellsWhere(table, done, RotatedCells(env))|)
    && n.dryRunRows == (if env.dryRun && !env.verifyOnly then |CellsWhere(table, done, StaleCells(env))| else 0)
    && n.reencrypted == (if LiveRun(env) then |RowsWhere(table, done, StaleRows(env))| else 0)
  }

  ghost predicate ColumnTallies(env: Env, cells: seq<Cell>, n: Counts) {
    && n.errors == |ColumnsWhere(cells, UnreadableCells(env))|
    && n.verified == (if env.verifyOnly then |ColumnsWhere(cells, ReadableCells(env))| else 0)
    && n.skipped == (if env.verifyOnly then 0 else |ColumnsWhere(cells, RotatedCells(env))|)
    && n.dryRunRows == (if env.dryRun && !env.verifyOnly then |ColumnsWhere(cells, StaleCells(env))| else 0)
    && n.reencrypted == 0
  }

  lemma OneMoreColumn(cells: seq<Cell>, n: nat, p: Cell -> bool)
    requires n < |cells|
    ensures |ColumnsWhere(cells[..n + 1], p)| == |ColumnsWhere(cells[..n], p)| + if p(cells[n]) then 1 else 0
  {
    assert ColumnsWhere(cells[..n + 1], p) == ColumnsWhere(cells[..n], p) + if p(cells[n]) then {n} else {};
  }

  lemma CellTallies(env: Env, cell: Cell)
    ensures var n := CellCounts(env, cell);
      && n.errors == (if UnreadableCells(env)(cell) then 1 else 0)
      && n.verified == (if env.verifyOnly && ReadableCells(env)(cell) then 1 else 0)
      && n.skipped == (if !env.verifyOnly && RotatedCells(env)(cell) then 1 else 0)
      && n.dryRunRows == (if env.dryRun && !env.verifyOnly && StaleCells(env)(cell) then 1 else 0)
      && n.reencrypted == 0
  {
  }

  lemma {:induction false} ColumnsTally(env: Env, row: Row, n: nat)
    requires n <= |row.cells|
    ensures ColumnTallies(env, row.cells[..n], CountsUpTo(env, row, n))
  {
    hide CellCounts, UnreadableCells, ReadableCells, RotatedCells, StaleCells, ColumnsWhere;
    if n == 0 {
      NoColumns(UnreadableCells(env));
      NoColumns(ReadableCells(env));
      NoColumns(RotatedCells(env));
      NoColumns(StaleCells(env));
      assert row.cells[..0] == [];
    } else {
      ColumnsTally(env, row, n - 1);
      CellTallies(env, row.cells[n - 1]);
      OneMoreColumn(row.cells, n - 1, UnreadableCells(env));
      OneMoreColumn(row.cells, n - 1, ReadableCells(env));
      OneMoreColumn(row.cells, n - 1, RotatedCells(env));
      OneMoreColumn(row.cells, n - 1, StaleCells(env));
    }
  }

  /** A row is rewritten exactly when one of its cells is stale. */
  lemma RowIsStale(env: Env, row: Row)
    ensures Updates(env, row, |row.cells|) != map[] <==> LiveRun(env) && StaleRows(env)(row)
  {
    UpdatesAt(env, row, |row.cells|);
    var updates := Updates(env, row, |row.cells|);
    if updates != map[] {
      var i :| i in updates;
      assert row.cells[i] in row.cells;
    }
    if LiveRun(env) && StaleRows(env)(row) {
      var c :| c in row.cells && StaleCells(env)(c);
      var i :| 0 <= i < |row.cells| && row.cells[i] == c;
      assert i in updates;
    }
  }

  ghost function Places(i: nat, columns: set<nat>): set<(nat, nat)> {
    set c | c in columns :: (i, c)
  }

  lemma {:induction false} PlacesInRow(i: nat, columns: set<nat>)
    ensures |Places(i, columns)| == |columns|
  {
    if columns != {} {
      var x :| x in columns;
      PlacesInRow(i, columns - {x});
      assert Places(i, columns) == Places(i, columns - {x}) + {(i, x)};
      assert (i, x) !in Places(i, columns - {x});
    }
  }

  lemma SplitPlaces(table: seq<Row>, done: set<int>, p: Cell -> bool)
    requires table != []
    ensures var n := |table| - 1;
      CellsWhere(table, done, p) == CellsWhere(table[..n], done, p)
        + Places(n, if table[n].id in done then ColumnsWhere(table[n].cells, p) else {})
  {
    var n := |table| - 1;
    var columns := if table[n].id in done then ColumnsWhere(table[n].cells, p) else {};
    forall q: (nat, nat)
        ensures q in CellsWhere(table, done, p) <==> q in CellsWhere(table[..n], done, p) + Places(n, columns) {
      if q.0 < n {
        assert table[..n][q.0] == table[q.0];
      }
    }
  }

  lemma OneMoreRow(table: seq<Row>, done: set<int>, p: Cell -> bool)
    requires table != []
    ensures var n := |table| - 1;
      |CellsWhere(table, done, p)| ==
      |CellsWhere(table[..n], done, p)| + if table[n].id in done then |ColumnsWhere(table[n].cells, p)| else 0
  {
    var n := |table| - 1;
    var columns := if table[n].id in done then ColumnsWhere(table[n].cells, p) else {};
    PlacesInRow(n, columns);
    SplitPlaces(table, done, p);
    assert CellsWhere(table[..n], done, p) * Places(n, columns) == {};
  }

  lemma FreshDone(env: Env, table: seq<Row>, done: set<int>, cursor: int, rows: seq<Row>)
    requires ByKey(table) && FreshBatch(table, done, cursor, rows)
    ensures TableCounts(env, table, done + Ids(rows)) == Plus(TableCounts(env, table, done), BatchCounts(env, rows))
  {
    hide TableCounts, BatchCounts;
    BatchDone(env, table, done, rows);
  }

  lemma OneMoreStaleRow(table: seq<Row>, done: set<int>, p: Row -> bool)
    requires table != []
    ensures var n := |table| - 1;
      |RowsWhere(table, done, p)| == |RowsWhere(table[..n], done, p)| + if table[n].id in done && p(table[n]) then 1
          else 0
  {
    var n := |table| - 1;
    assert RowsWhere(table, done, p) ==
           RowsWhere(table[..n], done, p) + if table[n].id in done && p(table[n]) then {n as nat} else {};
  }

  lemma NothingTallied(env: Env, done: set<int>)
    ensures Tallies(env, [], done, Zero)
  {
    assert forall p: Cell -> bool :: CellsWhere([], done, p) == {};
    assert RowsWhere([], done, StaleRows(env)) == {};
  }

  lemma NoColumns(p: Cell -> bool)
    ensures ColumnsWhere([], p) == {}
  {
  }

  /** The counters of the rows processed are the numbers they stand for. */
  lemma {:induction false} CountersTally(env: Env, table: seq<Row>, done: set<int>)
    ensures Tallies(env, table, done, TableCounts(env, table, done))
  {
    hide UnreadableCells, ReadableCells, RotatedCells, StaleCells, StaleRows, Updates, CountsUpTo;
    hide CellsWhere, ColumnsWhere, RowsWhere;
    if table == [] {
      NothingTallied(env, done);
    } else {
      var n := |table| - 1;
      var last := table[n];
      CountersTally(env, table[..n], done);
      ColumnsTally(env, last, |last.cells|);
      assert last.cells[..|last.cells|] == last.cells;
      RowIsStale(env, last);
      OneMoreRow(table, done, UnreadableCells(env));
      OneMoreRow(table, done, ReadableCells(env));
      OneMoreRow(table, done, RotatedCells(env));
      OneMoreRow(table, done, StaleCells(env));
      OneMoreStaleRow(table, done, StaleRows(env));
    }
  }

  lemma {:induction false} OtherDone(env: Env, table: seq<Row>, done: set<int>, id: int)
    requires forall r :: r in table ==> r.id != id
    ensures TableCounts(env, table, done + {id}) == TableCounts(env, table, done)
  {
    hide RowCounts;
    if table != [] {
      OtherDone(env, table[..|table| - 1], done, id);
    }
  }

  /** Processing one row more adds its counters. */
  lemma {:induction false} OneMoreDone(env: Env, table: seq<Row>, done: set<int>, i: nat)
    requires ByKey(table) && i < |table| && table[i].id !in done
    ensures TableCounts(env, table, done + {table[i].id}) ==
      Plus(TableCounts(env, table, done), RowCounts(env, table[i]))
  {
    hide RowCounts;
    var n := |table| - 1;
    if i < n {
      OneMoreDone(env, table[..n], done, i);
    } else {
      OtherDone(env, table[..n], done, table[i].id);
    }
  }

  lemma NoPlus(a: Counts)
    ensures Plus(a, Zero) == a
  {
  }

  lemma PlusThree(a: Counts, b: Counts, c: Counts)
    ensures Plus(Plus(a, b), c) == Plus(a, Plus(b, c))
  {
  }

  lemma {:induction false} BatchDone(env: Env, table: seq<Row>, done: set<int>, rows: seq<Row>)
    requires ByKey(table) && ByKey(rows) && forall r :: r in rows ==> r in table && r.id !in done
    ensures TableCounts(env, table, done + Ids(rows)) == Plus(TableCounts(env, table, done), BatchCounts(env, rows))
  {
    hide RowCounts, TableCounts, Plus;
    if rows == [] {
      assert done + Ids(rows) == done;
      NoPlus(TableCounts(env, table, done));
    } else {
      var n := |rows| - 1;
      BatchDone(env, table, done, rows[..n]);
      BatchStep(rows, n, done);
      assert rows[..n + 1] == rows && rows[n] in rows;
      var i :| 0 <= i < |table| && table[i] == rows[n];
      OneMoreDone(env, table, done + Ids(rows[..n]), i);
      PlusThree(TableCounts(env, table, done), BatchCounts(env, rows[..n]), RowCounts(env, rows[n]));
    }
  }

  /** No error is reported exactly when every processed ciphertext opens under one of the keys. */
  lemma NoErrorIff(env: Env, table: seq<Row>, done: set<int>)
    ensures TableCounts(env, table, done).errors == 0 <==> AllClean(env, table, done)
  {
    hide TableCounts, Unreadable, ReadableCells, RotatedCells, StaleCells, StaleRows;
    CountersTally(env, table, done);
    var bad := CellsWhere(table, done, UnreadableCells(env));
    if bad != {} {
      var place :| place in bad;
      assert table[place.0] in table && table[place.0].cells[place.1] in table[place.0].cells;
    }
    if !AllClean(env, table, done) {
      var r :| r in table && r.id in done && !Clean(env, r);
      var i :| 0 <= i < |table| && table[i] == r;
      var c :| c in r.cells && Unreadable(env, c);
      var j :| 0 <= j < |r.cells| && r.cells[j] == c;
      assert (i, j) in bad;
    }
  }

  /** What a finished run says about the table it started from. */
  ghost predicate RunLeaves(env: Env, before: seq<Row>, after: seq<Row>, done: set<int>, clean: bool, complete: bool) {
    && after == Rewritten(env, before, done) && (forall id :: id in done ==> id > 0)
    && (clean ==> AllClean(env, before, done)) && (complete ==> AllDone(before, done))
  }

  lemma NothingDone(env: Env, table: seq<Row>)
    ensures Rewritten(env, table, {}) == table && UpTo({}, 0) && AllClean(env, table, {}) && Covered(table, {}, 0)
    ensures TableCounts(env, table, {}) == Zero
  {
    hide Rewritten, TableCounts, Clean;
    NothingCounted(env, table);
    NothingRewritten(env, table);
  }

  lemma NothingRewritten(env: Env, table: seq<Row>)
    ensures Rewritten(env, table, {}) == table
  {
    hide RowAfter;
  }

  lemma {:induction false} NothingCounted(env: Env, table: seq<Row>)
    ensures TableCounts(env, table, {}) == Zero
  {
    if table != [] {
      NothingCounted(env, table[..|table| - 1]);
    }
  }

  /**
   The loop ends, and at every commit (so also where a failing SELECT cuts it short) the table is the
   original with some rows rewritten once. With no error reported and no row locked, those are all the
   rows beyond the initial cursor, the nil UUID. With an ideal cipher a live run, however it ends, leaves each
   cell as it was or seals its plaintext under the new key; with no error and no lock it leaves every cell of
   those rows null or sealed under the new key with its original plaintext.
   */
  method ProcessTable(env: Env, db: Database, batchSize: nat, fate: nat -> Fate, locked: nat -> set<int>)
    returns (report: Report, aborted: bool, ghost done: set<int>)
    requires ByKey(db.table) && batchSize > 0
    modifies db
    ensures fresh(report)
    ensures RunLeaves(env, old(db.table), db.table, done, report.errors == 0,
      !aborted && report.errors == 0 && NoLocks(locked))
    ensures ByKey(db.table)
    ensures LiveRun(env) && Ideal(env) ==> SoundlyRewritten(env, old(db.table), db.table)
    ensures AllCommit(fate) && NoLocks(locked) ==>
      && !aborted && AllDone(old(db.table), done) && Tallies(env, old(db.table), done, report.View())
      && (report.errors == 0 <==> forall r :: r in old(db.table) && r.id > 0 ==> Clean(env, r))
    ensures LiveRun(env) && Ideal(env) && !aborted && report.errors == 0 && NoLocks(locked) ==>
      FullyRotated(env, old(db.table), db.table)
  {
    ghost var table := db.table;
    report, aborted, done := WalkTable(env, db, batchSize, fate, locked);
    RewrittenByKey(env, table, done);
    if AllCommit(fate) && NoLocks(locked) {
      CountersTally(env, table, done);
      NoErrorIff(env, table, done);
    }
    if LiveRun(env) && Ideal(env) {
      IdealRunIsSound(env, table, done);
    }
    if LiveRun(env) && Ideal(env) && !aborted && report.errors == 0 && NoLocks(locked) {
      CompleteRunRotates(env, table, done);
    }
  }

  method WalkTable(env: Env, db: Database, batchSize: nat, fate: nat -> Fate, locked: nat -> set<int>)
    returns (report: Report, aborted: bool, ghost done: set<int>)
    requires ByKey(db.table) && batchSize > 0
    modifies db
    ensures fresh(report)
    ensures AllCommit(fate) ==> !aborted && report.View() == TableCounts(env, old(db.table), done)
    ensures AllCommit(fate) && NoLocks(locked) ==> AllDone(old(db.table), done)
    ensures RunLeaves(env, old(db.table), db.table, done, report.errors == 0,
      !aborted && report.errors == 0 && NoLocks(locked))
  {
    hide Select, Rewritten, AllClean, Covered, AllDone, TableCounts, BatchCounts, FreshBatch;
    report := new Report();
    var cursor := 0;
    aborted, done := false, {};
    ghost var table := db.table;
    NothingDone(env, table);
    var batchNo: nat := 0;
    while true
      invariant fresh(report) && cursor >= 0
      invariant db.table == Rewritten(env, table, done) && UpTo(done, cursor)
      invariant report.errors == 0 ==> AllClean(env, table, done)
      invariant AllCommit(fate) ==> report.View() == TableCounts(env, table, done)
      invariant (report.errors == 0 || AllCommit(fate)) && NoLocks(locked) ==> Covered(table, done, cursor)
      decreases |Remaining(table, cursor)|
    {
      var ending := fate(batchNo);
      if ending.SelectFails? {
        report.errors := report.errors + 1;
        aborted := true;
        return;
      }
      var rows := Select(db.table, cursor, batchSize, locked(batchNo));
      BatchIsOriginal(env, table, done, cursor, batchSize, locked(batchNo));
      if (report.errors == 0 || AllCommit(fate)) && NoLocks(locked) {
        CoverBatch(env, table, done, cursor, batchSize);
      }
      if |rows| == 0 {
        return;
      }
      CursorAdvances(table, done, cursor, rows);
      FreshDone(env, table, done, cursor, rows);
      done := ProcessBatch(env, db, rows, ending, report, table, done, cursor);
      cursor := rows[|rows| - 1].id;
      batchNo := batchNo + 1;
    }
  }

  lemma RotatedStays(env: Env, again: Env, before: seq<Row>, table: seq<Row>, done: set<int>, i: nat)
    requires FullyRotated(env, before, table) && i < |table| && (table[i].id in done ==> before[i].id > 0)
    requires Ideal(again) && again.oldKey != env.newKey
    ensures Rewritten(again, table, done)[i] == table[i]
  {
    UpdatesAt(again, table[i], |table[i].cells|);
    if table[i].id in done {
      assert RotatedRow(env, before[i], table[i]);
      forall col: nat | col < |table[i].cells| ensures CellUpdate(again, table[i].id, col, table[i].cells[col]).None? {
        assert RotatedCell(env, before[i].cells[col], table[i].cells[col]);
      }
      assert Rewritten(again, table, done)[i].cells == table[i].cells;
    }
  }

  /** A later run, in any mode and wherever it stops, finds nothing to write in a table that was rotated. */
  lemma SecondRunWritesNothing(
      env: Env, again: Env, before: seq<Row>, table: seq<Row>, after: seq<Row>, done: set<int>, clean: bool,
      complete: bool)
    requires FullyRotated(env, before, table) && RunLeaves(again, table, after, done, clean, complete)
    requires Ideal(again) && again.oldKey != env.newKey
    requires forall i :: 0 <= i < |table| ==> table[i].id == before[i].id
    ensures after == table
  {
    hide FullyRotated, Ideal;
    forall i | 0 <= i < |table| ensures Rewritten(again, table, done)[i] == table[i] {
      RotatedStays(env, again, before, table, done, i);
    }
  }

  /** Two runs one after the other: a complete first one is all it takes. */
  method ProcessTwice(
      env: Env, again: Env, db: Database, batchSize: nat, fate: nat -> Fate, locked: nat -> set<int>,
      fate': nat -> Fate, locked': nat -> set<int>)
    returns (complete: bool, ghost first: seq<Row>)
    requires ByKey(db.table) && batchSize > 0
    requires LiveRun(env) && Ideal(env) && Ideal(again) && again.oldKey != env.newKey
    modifies db
    ensures complete && NoLocks(locked) ==> FullyRotated(env, old(db.table), first) && db.table == first
  {
    ghost var before := db.table;
    var report, aborted, done := ProcessTable(env, db, batchSize, fate, locked);
    complete := !aborted && report.errors == 0;
    first := db.table;
    var report', aborted', done' := ProcessTable(again, db, batchSize, fate', locked');
    if complete && NoLocks(locked) {
      SecondRunWritesNothing(env, again, before, first, db.table, done', report'.errors == 0,
          !aborted' && report'.errors == 0 && NoLocks(locked'));
    }
  }

  lemma PrefixIsFresh(table: seq<Row>, done: set<int>, cursor: int, rows: seq<Row>, n: nat)
    requires FreshBatch(table, done, cursor, rows) && n <= |rows|
    ensures FreshBatch(table, done, cursor, rows[..n])
  {
  }

  lemma CleanUnion(env: Env, table: seq<Row>, done: set<int>, cursor: int, rows: seq<Row>)
    requires ByKey(table) && FreshBatch(table, done, cursor, rows) && BatchCounts(env, rows).errors == 0
    requires AllClean(env, table, done)
    ensures AllClean(env, table, done + Ids(rows))
  {
    CleanBatch(env, rows);
    forall r | r in table && r.id in Ids(rows) ensures Clean(env, r) {
      var q :| q in rows && q.id == r.id;
      KeysAreUnique(table, q, r);
    }
  }

  // ---- What a run does to the data ----

  /** A dry run and a verification pass write nothing. */
  lemma OnlyLiveRunsWrite(env: Env, table: seq<Row>, done: set<int>)
    requires !LiveRun(env)
    ensures Rewritten(env, table, done) == table
  {
    forall i | 0 <= i < |table| ensures Rewritten(env, table, done)[i] == table[i] {
      forall col: nat | col < |table[i].cells|
          ensures Rewritten(env, table, done)[i].cells[col] == table[i].cells[col] {
        RewrittenCells(env, table, done, i, col);
      }
      UpdatesAt(env, table[i], |table[i].cells|);
      assert Rewritten(env, table, done)[i].cells == table[i].cells;
    }
  }

  ghost predicate SameMeaning(a: Cell, b: Cell) {
    (a.None? <==> b.None?) && (a.Some? && b.Some? ==> Meaning(a.value) == Meaning(b.value))
  }

  /** A value with the look of a ciphertext, not sealed under the old key, opens under it: the branch that fails. */
  predicate OpensWrongly(env: Env, v: Value) {
    LooksEncrypted(v) && !(v.Sealed? && v.key == env.oldKey) && Decrypt(env, v, env.oldKey).Some?
  }

  /** What an accidental opening yields is never the plaintext. */
  ghost predicate AccidentsMislead(env: Env) {
    forall v, k :: env.chance(v, k).Some? ==> env.chance(v, k).value != Meaning(v)
  }

  lemma CellMeaning(env: Env, id: int, col: nat, cell: Cell)
    requires LiveRun(env)
    ensures (cell.Some? ==> !OpensWrongly(env, cell.value)) ==> SameMeaning(cell, CellAfter(env, id, col, cell))
    ensures AccidentsMislead(env) && SameMeaning(cell, CellAfter(env, id, col, cell)) ==>
      (cell.Some? ==> !OpensWrongly(env, cell.value))
  {
  }

  ghost predicate TableKeepsMeaning(env: Env, table: seq<Row>, done: set<int>) {
    forall i, col :: 0 <= i < |table| && 0 <= col < |table[i].cells| && col < |Rewritten(env, table, done)[i].cells| ==>
      SameMeaning(table[i].cells[col], Rewritten(env, table, done)[i].cells[col])
  }

  ghost predicate NoneOpensWrongly(env: Env, table: seq<Row>, done: set<int>) {
    forall i, col ::
      (0 <= i < |table| && 0 <= col < |table[i].cells| && table[i].id in done && table[i].cells[col].Some?) ==>
      !OpensWrongly(env, table[i].cells[col].value)
  }

  /**
   A live run preserves every plaintext if no processed cell that was not sealed under the old key opens under
   it, and, since what such an opening yields is not the plaintext, only then.
   */
  lemma RunPreservesPlaintextIff(env: Env, table: seq<Row>, done: set<int>)
    requires LiveRun(env)
    ensures NoneOpensWrongly(env, table, done) ==> TableKeepsMeaning(env, table, done)
    ensures AccidentsMislead(env) ==> (TableKeepsMeaning(env, table, done) <==> NoneOpensWrongly(env, table, done))
  {
    hide CellAfter, OpensWrongly, SameMeaning, AccidentsMislead, Rewritten;
    forall i: nat, col: nat | i < |table| && col < |table[i].cells|
      ensures |Rewritten(env, table, done)| == |table| && |Rewritten(env, table, done)[i].cells| == |table[i].cells|
      ensures var a, b := table[i].cells[col], Rewritten(env, table, done)[i].cells[col];
              && ((table[i].id in done && a.Some? ==> !OpensWrongly(env, a.value)) ==> SameMeaning(a, b))
              && (AccidentsMislead(env) && SameMeaning(a, b) ==>
                 (table[i].id in done && a.Some? ==> !OpensWrongly(env, a.value)))
    {
      RewrittenLength(env, table, done);
      RewrittenCells(env, table, done, i, col);
      CellMeaning(env, table[i].id, col, table[i].cells[col]);
      SameAsItself(table[i].cells[col]);
    }
  }

  lemma RewrittenLength(env: Env, table: seq<Row>, done: set<int>)
    ensures |Rewritten(env, table, done)| == |table|
  {
  }

  lemma SameAsItself(cell: Cell)
    ensures SameMeaning(cell, cell)
  {
  }

  /** A clean live run leaves every cell it processed null or readable with the new key. */
  lemma RunRotates(env: Env, table: seq<Row>, done: set<int>, i: nat, col: nat)
    requires LiveRun(env) && i < |table| && col < |table[i].cells|
    requires table[i].id in done && Clean(env, table[i])
    ensures |Rewritten(env, table, done)[i].cells| == |table[i].cells|
    ensures var after := Rewritten(env, table, done)[i].cells[col];
      && (after.None? <==> table[i].cells[col].None?)
      && (after.Some? ==> Decrypt(env, after.value, env.newKey).Some?)
  {
    RewrittenCells(env, table, done, i, col);
    assert table[i].cells[col] in table[i].cells;
  }

  ghost predicate Rotated(env: Env, table: seq<Row>) {
    forall i, col :: 0 <= i < |table| && 0 <= col < |table[i].cells| && table[i].cells[col].Some? ==>
      table[i].cells[col].value.Sealed? && table[i].cells[col].value.key == env.newKey
        && env.ivs(table[i].id, col) != table[i].cells[col].value.iv
  }

  ghost predicate NoneOpens(env: Env, table: seq<Row>, done: set<int>) {
    forall i, col ::
      (0 <= i < |table| && 0 <= col < |table[i].cells| && table[i].id in done && table[i].cells[col].Some?) ==>
      env.chance(table[i].cells[col].value, env.oldKey).None?
  }

  /** Running again over a rotated table changes nothing exactly when the old key opens none of its cells. */
  lemma SecondRunIff(env: Env, table: seq<Row>, done: set<int>)
    requires LiveRun(env) && env.oldKey != env.newKey && Rotated(env, table)
    ensures Rewritten(env, table, done) == table <==> NoneOpens(env, table, done)
  {
    var after := Rewritten(env, table, done);
    forall i: nat, col: nat | i < |table| && col < |table[i].cells|
      ensures |after[i].cells| == |table[i].cells|
      ensures after[i].cells[col] == table[i].cells[col] <==>
              (table[i].id in done && table[i].cells[col].Some? ==>
                  env.chance(table[i].cells[col].value, env.oldKey).None?)
    {
      RewrittenCells(env, table, done, i, col);
    }
    if NoneOpens(env, table, done) {
      forall i | 0 <= i < |table| ensures after[i] == table[i] {
        assert after[i].cells == table[i].cells;
      }
    }
  }

  /** A cipher that opens one new-key ciphertext under the old key. */
  function Unlucky(oldKey: Key, newKey: Key): Env {
    Env(oldKey, newKey, false, false,
        (v: Value, k: Key) => if v == Sealed(newKey, 0, "plain") && k == oldKey then Some("other") else None,
        (id: int, col: nat) => 1)
  }

  /** The failing case: a rotated cell that the old key happens to open is overwritten with something else. */
  lemma WrongKeyOverwrites(oldKey: Key, newKey: Key)
    requires oldKey != newKey
    ensures var env, table := Unlucky(oldKey, newKey), [Row(1, [Some(Sealed(newKey, 0, "plain"))])];
            && Rotated(env, table) && Rewritten(env, table, {1}) == [Row(1, [Some(Sealed(newKey, 1, "other"))])]
            && !TableKeepsMeaning(env, table, {1})
  {
    var env, table := Unlucky(oldKey, newKey), [Row(1, [Some(Sealed(newKey, 0, "plain"))])];
    RewrittenCells(env, table, {1}, 0, 0);
    var after := Rewritten(env, table, {1});
    assert after[0].cells == [Some(Sealed(newKey, 1, "other"))];
    assert !SameMeaning(table[0].cells[0], after[0].cells[0]);
  }
}

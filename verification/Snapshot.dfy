/** Writing and restoring the database snapshot, and the ids generated over any run of inserts, deletes and restores. */
module Snapshot {
  import opened Options
  import opened Database

  type Tables = map<string, Table>

  /** The content of the snapshot file: the rows of every table, as a JSON list of rows. */
  type File = map<string, seq<JsonRow>>

  const IDENTITIES := "identities"

  ghost predicate ValidDb(db: Tables) {
    IDENTITIES in db && !db[IDENTITIES].schema.serial && forall n :: n in db ==> ValidTable(db[n]) && Fresh(db[n])
  }

  predicate Populated(db: Tables) {
    IDENTITIES in db && db[IDENTITIES].rows != map[]
  }

  // ---- one table ----

  /** The sequence is moved behind the largest id, which PostgreSQL refuses to set below one. */
  ghost predicate SequenceSet(t: Table, next: int) {
    exists m :: IsMaxOrOne(t, m) && m >= 1 && next == m + 1
  }

  ghost predicate SequenceRefused(t: Table) {
    t.schema.serial && forall m :: IsMaxOrOne(t, m) ==> m < 1
  }

  /** The rows of a restored table, before its sequence is reset. */
  ghost function Merged(t: Table, rows: seq<JsonRow>, tt: TimeText): Table
    requires AllAdapt(rows, t.schema, tt)
  {
    t.(rows := InsertAll(t.rows, AdaptRows(rows, t.schema, tt), t.schema.key))
  }

  /** A table whose snapshot rows can all be inserted and whose sequence can be reset. */
  ghost predicate TableRestorable(t: Table, rows: seq<JsonRow>, tt: TimeText) {
    rows != [] ==> AllAdapt(rows, t.schema, tt) && !SequenceRefused(Merged(t, rows, tt))
  }

  /** A snapshot with no rows for a table leaves even its sequence alone. */
  ghost predicate TableRestored(t: Table, rows: seq<JsonRow>, tt: TimeText, r: Table) {
    if rows == [] then r == t
    else
      && AllAdapt(rows, t.schema, tt)
      && r.schema == t.schema && r.rows == Merged(t, rows, tt).rows
      && if t.schema.serial then SequenceSet(Merged(t, rows, tt), r.next) else r.next == t.next
  }

  // ---- the whole database ----

  ghost predicate Restorable(db: Tables, file: File, tt: TimeText) {
    forall n :: n in file ==> file[n] != [] ==> n in db && TableRestorable(db[n], file[n], tt)
  }

  ghost predicate Restored(db: Tables, file: File, tt: TimeText, r: Tables) {
    && r.Keys == db.Keys
    && forall n :: n in db ==> if n in file then TableRestored(db[n], file[n], tt, r[n]) else r[n] == db[n]
  }

  /** The tables in `done` were restored before another one raised: only their sequences tell. */
  ghost predicate Failed(db: Tables, file: File, tt: TimeText, done: set<string>, r: Tables) {
    && r.Keys == db.Keys && done < file.Keys
    && (forall n :: n in done && file[n] != [] ==> n in db && TableRestorable(db[n], file[n], tt))
    && (forall n :: n in db ==>
          && r[n] == db[n].(next := r[n].next)
          && if n in done && file[n] != [] && db[n].schema.serial
             then SequenceSet(Merged(db[n], file[n], tt), r[n].next)
             else r[n].next == db[n].next)
  }

  /** Inside the transaction, with the tables in `done` restored. */
  ghost predicate PartlyRestored(db: Tables, file: File, tt: TimeText, done: set<string>, result: Tables) {
    && result.Keys == db.Keys && done <= file.Keys
    && (forall n :: n in done && file[n] != [] ==> n in db && TableRestorable(db[n], file[n], tt))
    && (forall n :: n in db ==>
          if n in done then TableRestored(db[n], file[n], tt, result[n]) else result[n] == db[n])
  }

  lemma NothingToDo(db: Tables, file: File, tt: TimeText, done: set<string>, result: Tables, n: string)
    requires PartlyRestored(db, file, tt, done, result) && n in file && n !in done && file[n] == []
    ensures PartlyRestored(db, file, tt, done + {n}, result)
  {
  }

  lemma TableDone(db: Tables, file: File, tt: TimeText, done: set<string>, result: Tables, n: string, t: Table)
    requires PartlyRestored(db, file, tt, done, result) && n in file && n !in done && n in db
    requires TableRestorable(db[n], file[n], tt) && TableRestored(db[n], file[n], tt, t)
    ensures PartlyRestored(db, file, tt, done + {n}, result[n := t])
  {
  }

  /** A rollback does not reach the sequences. */
  function RolledBack(db: Tables, result: Tables): Tables
    requires result.Keys == db.Keys
  {
    map n | n in db :: db[n].(next := result[n].next)
  }

  lemma RollsBack(db: Tables, file: File, tt: TimeText, done: set<string>, result: Tables)
    requires PartlyRestored(db, file, tt, done, result) && done < file.Keys
    ensures Failed(db, file, tt, done, RolledBack(db, result))
  {
  }

  /** What SELECT * may return: every row once, in some order. */
  ghost predicate Lists(rows: seq<JsonRow>, t: Table, tt: TimeText) {
    exists keys :: Listing(keys, t) && rows == JsonOf(keys, t, tt)
  }

  ghost predicate Listing(keys: seq<Value>, t: Table) {
    && (forall k :: k in keys <==> k in t.rows)
    && (forall i, j :: 0 <= i < j < |keys| ==> keys[i] != keys[j])
  }

  function JsonOf(keys: seq<Value>, t: Table, tt: TimeText): (rows: seq<JsonRow>)
    requires forall k :: k in keys ==> k in t.rows
    ensures |rows| == |keys|
    ensures forall i :: 0 <= i < |rows| ==> rows[i] == RowToJson(t.rows[keys[i]], tt)
  {
    seq(|keys|, i requires 0 <= i < |keys| => RowToJson(t.rows[keys[i]], tt))
  }

  ghost predicate IsSnapshot(file: File, db: Tables, tt: TimeText) {
    file.Keys == db.Keys && forall n :: n in db ==> Lists(file[n], db[n], tt)
  }

  /** The row has the columns of the table, up to the id that is still to be generated. */
  predicate Insertable(row: Row, t: Table) {
    && ValidSchema(t.schema)
    && row.Keys + {t.schema.key} == t.schema.columns.Keys
    && forall c :: c in row && c != t.schema.key ==> Fits(row[c], t.schema.columns[c])
  }

  /** An insert that leaves the id to the sequence. */
  function Generated(t: Table, row: Row): Table {
    t.(rows := t.rows[Int(t.next) := row[t.schema.key := Int(t.next)]], next := t.next + 1)
  }

  /** A fresh sequence never collides, and stays fresh. */
  lemma GeneratedNeverCollides(t: Table, row: Row)
    requires ValidTable(t) && Fresh(t) && t.schema.serial && Insertable(row, t)
    ensures Int(t.next) !in t.rows
    ensures ValidTable(Generated(t, row)) && Fresh(Generated(t, row))
  {
    assert RowFits(row[t.schema.key := Int(t.next)], t.schema);
  }

  datatype DbOp =
    | GeneratedInsert(table: string, row: Row)
    | DeleteByKey(table: string, key: Value)
    | RestoreFile(file: File)

  class Store {
    var tables: Tables
    const tt: TimeText

    constructor (tables: Tables, tt: TimeText)
      ensures this.tables == tables && this.tt == tt
    {
      this.tables, this.tt := tables, tt;
    }

    method ReadTable(t: Table) returns (rows: seq<JsonRow>)
      ensures Lists(rows, t, tt)
    {
      var remaining := t.rows.Keys;
      var keys: seq<Value> := [];
      while remaining != {}
        invariant remaining <= t.rows.Keys
        invariant forall k :: k in keys <==> k in t.rows && k !in remaining
        invariant forall i, j :: 0 <= i < j < |keys| ==> keys[i] != keys[j]
        decreases remaining
      {
        var k :| k in remaining;
        assert k !in keys;
        keys := keys + [k];
        remaining := remaining - {k};
      }
      rows := JsonOf(keys, t, tt);
      assert Listing(keys, t);
    }

    /** write_db_snapshot: all tables in one repeatable-read transaction. */
    method WriteSnapshot() returns (file: File)
      ensures IsSnapshot(file, tables, tt)
    {
      file := map[];
      var remaining := tables.Keys;
      while remaining != {}
        invariant remaining <= tables.Keys && file.Keys == tables.Keys - remaining
        invariant forall n :: n in file ==> Lists(file[n], tables[n], tt)
        decreases remaining
      {
        var n :| n in remaining;
        var rows := ReadTable(tables[n]);
        file := file[n := rows];
        remaining := remaining - {n};
      }
    }

    /** SELECT COALESCE(MAX(id), 1) */
    method MaxId(t: Table) returns (m: int)
      ensures IsMaxOrOne(t, m)
    {
      m := 1;
      var any := false;
      var remaining := t.rows.Keys;
      while remaining != {}
        invariant remaining <= t.rows.Keys
        invariant !any ==> m == 1
        invariant any ==> m in Ids(t)
        invariant forall k :: k in t.rows && k !in remaining && k.Int? ==> any && k.n <= m
        decreases remaining
      {
        var k :| k in remaining;
        remaining := remaining - {k};
        if k.Int? {
          assert k.n in Ids(t);
          if !any || k.n > m {
            m := k.n;
          }
          any := true;
        }
      }
      assert any <==> Ids(t) != {} by {
        if i :| i in Ids(t) {
          assert Int(i) in t.rows;
        }
      }
    }

    /** The inserts of one table; false when a value does not fit its column. */
    method InsertRows(t: Table, rows: seq<JsonRow>) returns (ok: bool, r: Table)
      ensures ok <==> AllAdapt(rows, t.schema, tt)
      ensures ok ==> r == Merged(t, rows, tt)
    {
      r := t;
      for i := 0 to |rows|
        invariant AllAdapt(rows[..i], t.schema, tt) && r == Merged(t, rows[..i], tt)
      {
        if !Adapts(rows[i], t.schema, tt) {
          return false, t;
        }
        assert rows[..i + 1] == rows[..i] + [rows[i]];
        var row := AdaptRow(rows[i], t.schema, tt);
        assert AdaptRows(rows[..i + 1], t.schema, tt)[..i] == AdaptRows(rows[..i], t.schema, tt);
        if row[t.schema.key] !in r.rows {
          r := r.(rows := r.rows[row[t.schema.key] := row]);
        }
      }
      assert rows[..|rows|] == rows;
      ok := true;
    }

    /** The inserts of one table, then the reset of its sequence; false when anything raises. */
    method RestoreTable(t: Table, rows: seq<JsonRow>) returns (ok: bool, r: Table)
      requires rows != []
      ensures ok <==> TableRestorable(t, rows, tt)
      ensures ok ==> TableRestored(t, rows, tt, r)
    {
      ok, r := InsertRows(t, rows);
      if !ok {
        return;
      }
      if t.schema.serial {
        var m := MaxId(r);
        if m < 1 {
          forall m' | IsMaxOrOne(r, m') ensures m' < 1 {
            MaxIsUnique(r, m, m');
          }
          return false, t;
        }
        assert IsMaxOrOne(Merged(t, rows, tt), m);
        r := r.(next := m + 1);
      }
    }

    /** The tables of the file one after the other, up to the first that raises. */
    method RestoreTables(db: Tables, file: File) returns (ok: bool, result: Tables, ghost done: set<string>)
      ensures ok <==> Restorable(db, file, tt)
      ensures PartlyRestored(db, file, tt, done, result)
      ensures if ok then done == file.Keys else done < file.Keys
    {
      result, done := db, {};
      var remaining := file.Keys;
      while remaining != {}
        invariant remaining <= file.Keys && done == file.Keys - remaining
        invariant PartlyRestored(db, file, tt, done, result)
        decreases remaining
      {
        var n :| n in remaining;
        remaining := remaining - {n};
        if file[n] == [] {
          NothingToDo(db, file, tt, done, result, n);
        } else {
          if n !in db {
            return false, result, done;
          }
          var restored, t := RestoreTable(db[n], file[n]);
          if !restored {
            return false, result, done;
          }
          TableDone(db, file, tt, done, result, n, t);
          result := result[n := t];
        }
        done := done + {n};
      }
      ok := true;
    }

    /**
      restore_db_snapshot: one transaction, whose rows are rolled back when anything raises. The sequences of the
      tables that were done by then stay where they were set.
     */
    method RestoreSnapshot(file: Option<File>) returns (ok: bool, ghost done: set<string>)
      modifies this`tables
      ensures file.None? || Populated(old(tables)) ==> ok && tables == old(tables)
      ensures file.Some? && !Populated(old(tables)) ==>
        && (ok <==> Restorable(old(tables), file.value, tt))
        && (ok ==> Restored(old(tables), file.value, tt, tables))
        && (!ok ==> Failed(old(tables), file.value, tt, done, tables))
    {
      ok, done := true, {};
      if file.None? {
        return;
      }
      if Populated(tables) {
        return;
      }
      var result: Tables;
      ok, result, done := RestoreTables(tables, file.value);
      if ok {
        tables := result;
      } else {
        RollsBack(tables, file.value, tt, done, result);
        tables := RolledBack(tables, result);
      }
    }

    method InsertGenerated(n: string, row: Row) returns (id: int)
      requires ValidDb(tables) && n in tables && tables[n].schema.serial && Insertable(row, tables[n])
      modifies this`tables
      ensures id == old(tables)[n].next && Int(id) !in old(tables)[n].rows
      ensures ValidDb(tables) && tables == old(tables)[n := Generated(old(tables)[n], row)]
    {
      var t := tables[n];
      GeneratedNeverCollides(t, row);
      id := t.next;
      var rows := t.rows[Int(id) := row[t.schema.key := Int(id)]];
      tables := tables[n := t.(rows := rows, next := id + 1)];
    }

    method Delete(n: string, k: Value)
      requires ValidDb(tables) && n in tables
      modifies this`tables
      ensures ValidDb(tables) && tables == old(tables)[n := old(tables)[n].(rows := old(tables)[n].rows - {k})]
    {
      tables := tables[n := tables[n].(rows := tables[n].rows - {k})];
    }

    /**
      Any run of generated inserts, deletes and restores keeps every sequence ahead of every id, so that no
      generated insert of the run ever meets an id that is present.
     */
    method Replay(ops: seq<DbOp>)
      requires ValidDb(tables)
      modifies this`tables
      ensures ValidDb(tables) && SameSchemas(old(tables), tables)
    {
      for i := 0 to |ops|
        invariant ValidDb(tables) && SameSchemas(old(tables), tables)
      {
        match ops[i]
        case GeneratedInsert(n, row) =>
          if n in tables && tables[n].schema.serial && Insertable(row, tables[n]) {
            var id := InsertGenerated(n, row);
          }
        case DeleteByKey(n, k) =>
          if n in tables {
            Delete(n, k);
          }
        case RestoreFile(file) =>
          ghost var before := tables;
          var ok, done := RestoreSnapshot(Some(file));
          if !ok {
            FailedKeepsValid(before, file, tt, done, tables);
          } else if tables != before {
            RestoredKeepsValid(before, file, tt, tables);
          }
      }
    }
  }

  // ---- laws ----

  /** Resetting the sequence makes the next id exceed every id, whatever ids the rows brought. */
  lemma SequenceSetIsFresh(t: Table, next: int)
    requires ValidTable(t) && t.schema.serial && SequenceSet(t, next)
    ensures Fresh(t.(next := next))
  {
    forall k | k in t.rows ensures k.Int? && k.n < next {
      assert RowFits(t.rows[k], t.schema) && t.rows[k][t.schema.key] == k;
      assert k.n in Ids(t);
    }
  }

  /** A restore keeps every table valid and every sequence fresh. */
  lemma RestoredKeepsValid(db: Tables, file: File, tt: TimeText, r: Tables)
    requires ValidDb(db) && Restored(db, file, tt, r)
    ensures ValidDb(r)
  {
    forall n | n in r ensures ValidTable(r[n]) && Fresh(r[n]) && r[n].schema == db[n].schema {
      if n in file && file[n] != [] {
        var t, rows := db[n], file[n];
        var adapted := AdaptRows(rows, t.schema, tt);
        InsertAllKeepsValid(t, adapted);
        if t.schema.serial {
          SequenceSetIsFresh(Merged(t, rows, tt), r[n].next);
        }
      }
    }
  }

  /** A sequence set for the merged rows is ahead of the rows that were there before. */
  lemma SetSequenceStaysFresh(t: Table, rows: seq<JsonRow>, tt: TimeText, next: int)
    requires ValidTable(t) && t.schema.serial && AllAdapt(rows, t.schema, tt)
    requires SequenceSet(Merged(t, rows, tt), next)
    ensures Fresh(t.(next := next))
  {
    var adapted := AdaptRows(rows, t.schema, tt);
    InsertAllKeepsValid(t, adapted);
    InsertAllMerges(t.rows, adapted, t.schema.key);
    SequenceSetIsFresh(Merged(t, rows, tt), next);
  }

  /** So does a restore that fails half-way. */
  lemma FailedKeepsValid(db: Tables, file: File, tt: TimeText, done: set<string>, r: Tables)
    requires ValidDb(db) && Failed(db, file, tt, done, r)
    ensures ValidDb(r) && SameSchemas(db, r)
  {
    forall n | n in r ensures ValidTable(r[n]) && Fresh(r[n]) {
      if n in done && file[n] != [] && db[n].schema.serial {
        SetSequenceStaysFresh(db[n], file[n], tt, r[n].next);
      }
    }
  }

  /** A failed restore leaves everything as it was exactly when it moved no sequence to another place. */
  lemma FailureChangesNothingExactlyWhen(db: Tables, file: File, tt: TimeText, done: set<string>, r: Tables)
    requires Failed(db, file, tt, done, r)
    ensures r == db <==> forall n :: n in done && file[n] != [] && db[n].schema.serial ==>
      SequenceSet(Merged(db[n], file[n], tt), db[n].next)
  {
    if forall n :: n in done && file[n] != [] && db[n].schema.serial ==>
      SequenceSet(Merged(db[n], file[n], tt), db[n].next)
    {
      forall n | n in db ensures r[n] == db[n] {
        if n in done && file[n] != [] && db[n].schema.serial {
          SequenceSetOnce(Merged(db[n], file[n], tt), r[n].next, db[n].next);
        }
      }
    }
  }

  lemma SequenceSetOnce(t: Table, next: int, next': int)
    requires SequenceSet(t, next) && SequenceSet(t, next')
    ensures next == next'
  {
    var m :| IsMaxOrOne(t, m) && m >= 1 && next == m + 1;
    var m' :| IsMaxOrOne(t, m') && m' >= 1 && next' == m' + 1;
    MaxIsUnique(t, m, m');
  }

  /** Each table becomes its own rows and exactly the first snapshot row of each absent key. */
  lemma RestoreIsLeftBiasedMerge(db: Tables, file: File, tt: TimeText, r: Tables, n: string)
    requires Restored(db, file, tt, r) && n in db && n in file && file[n] != []
    ensures AllAdapt(file[n], db[n].schema, tt)
    ensures Merges(db[n].rows, AdaptRows(file[n], db[n].schema, tt), db[n].schema.key, r[n].rows)
  {
    InsertAllMerges(db[n].rows, AdaptRows(file[n], db[n].schema, tt), db[n].schema.key);
  }

  lemma TableRestoredTwice(t: Table, rows: seq<JsonRow>, tt: TimeText, r: Table, r': Table)
    requires TableRestored(t, rows, tt, r) && TableRestored(r, rows, tt, r')
    ensures r' == r
  {
    if rows != [] {
      var adapted := AdaptRows(rows, t.schema, tt);
      InsertAllMerges(t.rows, adapted, t.schema.key);
      forall i | 0 <= i < |adapted| ensures adapted[i][t.schema.key] in r.rows {
        assert HasKey(adapted, t.schema.key, adapted[i][t.schema.key]);
      }
      assert AdaptRows(rows, r.schema, tt) == adapted;
      InsertAgain(r.rows, adapted, t.schema.key);
      if t.schema.serial {
        var m :| IsMaxOrOne(Merged(t, rows, tt), m) && m >= 1 && r.next == m + 1;
        var m' :| IsMaxOrOne(Merged(r, rows, tt), m') && m' >= 1 && r'.next == m' + 1;
        assert Ids(Merged(t, rows, tt)) == Ids(Merged(r, rows, tt));
        MaxIsUnique(Merged(t, rows, tt), m, m');
      }
    }
  }

  /** Restoring the same snapshot again, even into a database without identities, changes nothing. */
  lemma SecondRestoreChangesNothing(db: Tables, file: File, tt: TimeText, r: Tables, r': Tables)
    requires Restored(db, file, tt, r) && Restored(r, file, tt, r')
    ensures r' == r
  {
    forall n | n in r ensures r'[n] == r[n] {
      if n in file {
        TableRestoredTwice(db[n], file[n], tt, r[n], r'[n]);
      }
    }
  }

  // ---- write, then restore into an empty database ----

  /** No document in the table is a JSON null; such a document comes back as SQL NULL. */
  ghost predicate NoNullDocuments(t: Table) {
    forall k, c :: k in t.rows && c in t.rows[k] ==> t.rows[k][c] != Document(JNull)
  }

  ghost predicate SameSchemas(db: Tables, db': Tables) {
    db.Keys == db'.Keys && forall n :: n in db ==> db[n].schema == db'[n].schema
  }

  ghost predicate Empty(db: Tables) {
    forall n :: n in db ==> db[n].rows == map[]
  }

  lemma RowRoundTrip(row: Row, schema: Schema, tt: TimeText)
    requires ParsesBack(tt) && ValidSchema(schema) && RowFits(row, schema) && !row[schema.key].Null?
    requires forall c :: c in row ==> row[c] != Document(JNull)
    ensures Adapts(RowToJson(row, tt), schema, tt)
    ensures AdaptRow(RowToJson(row, tt), schema, tt) == row
  {
    forall c | c in row ensures Adapt(ToJson(row[c], tt), schema.columns[c], tt) == Some(row[c]) {
      AdaptsBackExactlyWhen(row[c], schema.columns[c], tt);
    }
    assert !ToJson(row[schema.key], tt).JNull?;
  }

  lemma ListingRoundTrip(keys: seq<Value>, t: Table, tt: TimeText)
    requires ParsesBack(tt) && ValidTable(t) && NoNullDocuments(t) && Listing(keys, t)
    ensures AllAdapt(JsonOf(keys, t, tt), t.schema, tt)
    ensures var rows := AdaptRows(JsonOf(keys, t, tt), t.schema, tt);
      |rows| == |keys| && forall i :: 0 <= i < |keys| ==> rows[i] == t.rows[keys[i]]
  {
    var json := JsonOf(keys, t, tt);
    forall i | 0 <= i < |json|
      ensures Adapts(json[i], t.schema, tt) && AdaptRow(json[i], t.schema, tt) == t.rows[keys[i]]
    {
      assert keys[i] in t.rows;
      RowRoundTrip(t.rows[keys[i]], t.schema, tt);
    }
  }

  lemma FirstInListing(keys: seq<Value>, t: Table, rows: seq<Row>, k: Value) returns (i: nat)
    requires ValidTable(t) && Listing(keys, t) && k in t.rows && Keyed(rows, t.schema.key)
    requires |rows| == |keys| && forall i :: 0 <= i < |keys| ==> rows[i][t.schema.key] == keys[i]
    ensures FirstWithKey(rows, t.schema.key, k, i) && keys[i] == k && HasKey(rows, t.schema.key, k)
  {
    assert k in keys;
    i :| 0 <= i < |keys| && keys[i] == k;
    assert rows[i][t.schema.key] == k;
  }

  lemma ListingMerged(keys: seq<Value>, t: Table, rows: seq<Row>, r: map<Value, Row>)
    requires ValidTable(t) && Listing(keys, t) && Keyed(rows, t.schema.key)
    requires |rows| == |keys|
    requires forall i :: 0 <= i < |keys| ==> rows[i][t.schema.key] == keys[i] && rows[i] == t.rows[keys[i]]
    requires Merges(map[], rows, t.schema.key, r)
    ensures r == t.rows
  {
    forall k | k in t.rows ensures k in r && r[k] == t.rows[k] {
      var i := FirstInListing(keys, t, rows, k);
      assert r[k] == rows[i];
    }
    forall k | k in r ensures k in t.rows {
      assert HasKey(rows, t.schema.key, k);
      var i :| 0 <= i < |rows| && rows[i][t.schema.key] == k;
      assert keys[i] == k;
    }
  }

  /** Rows listed from a table and inserted into an empty one make the same table. */
  lemma InsertListing(keys: seq<Value>, t: Table, rows: seq<Row>)
    requires ValidTable(t) && Listing(keys, t)
    requires |rows| == |keys| && forall i :: 0 <= i < |keys| ==> rows[i] == t.rows[keys[i]]
    ensures Keyed(rows, t.schema.key) && InsertAll(map[], rows, t.schema.key) == t.rows
  {
    var key := t.schema.key;
    forall i | 0 <= i < |keys| ensures key in rows[i] && rows[i][key] == keys[i] {
      assert keys[i] in t.rows;
    }
    InsertAllMerges(map[], rows, key);
    ListingMerged(keys, t, rows, InsertAll(map[], rows, key));
  }

  /** A snapshot restored into an empty database reproduces the rows of every table. */
  lemma WriteThenRestore(db: Tables, file: File, tt: TimeText, empty: Tables, r: Tables, n: string)
    requires ParsesBack(tt) && ValidDb(db) && IsSnapshot(file, db, tt)
    requires SameSchemas(db, empty) && Empty(empty) && Restored(empty, file, tt, r)
    requires n in db && NoNullDocuments(db[n])
    ensures r[n].rows == db[n].rows
  {
    var t := db[n];
    var keys: seq<Value> :| Listing(keys, t) && file[n] == JsonOf(keys, t, tt);
    if keys == [] {
      assert forall k :: k in t.rows <==> k in keys;
    } else {
      ListingRoundTrip(keys, t, tt);
      InsertListing(keys, t, AdaptRows(file[n], t.schema, tt));
    }
  }

  /** Such a snapshot can always be restored: no insert and no sequence reset is refused. */
  lemma SnapshotIsRestorable(db: Tables, file: File, tt: TimeText, empty: Tables)
    requires ParsesBack(tt) && ValidDb(db) && IsSnapshot(file, db, tt)
    requires SameSchemas(db, empty) && Empty(empty)
    requires forall n :: n in db ==> NoNullDocuments(db[n])
    requires forall n, i :: n in db && db[n].schema.serial && Int(i) in db[n].rows ==> i >= 1
    ensures Restorable(empty, file, tt)
  {
    forall n | n in file && file[n] != [] ensures TableRestorable(empty[n], file[n], tt) {
      var t := db[n];
      var keys: seq<Value> :| Listing(keys, t) && file[n] == JsonOf(keys, t, tt);
      ListingRoundTrip(keys, t, tt);
      InsertListing(keys, t, AdaptRows(file[n], t.schema, tt));
      var merged := Merged(empty[n], file[n], tt);
      assert merged.rows == t.rows;
      if t.schema.serial {
        assert keys[0] in t.rows && RowFits(t.rows[keys[0]], t.schema);
        assert keys[0].n in Ids(merged);
        assert forall k :: k in t.rows ==> RowFits(t.rows[k], t.schema) && t.rows[k][t.schema.key] == k;
        var m := LargestId(merged);
        assert m in Ids(merged) && Int(m) in t.rows;
        assert IsMaxOrOne(merged, m) && m >= 1;
      }
    }
  }

  lemma {:induction false} LargestOf(keys: set<Value>) returns (m: int)
    requires keys != {} && forall k :: k in keys ==> k.Int?
    ensures Int(m) in keys && forall k :: k in keys ==> k.n <= m
    decreases keys
  {
    var k :| k in keys;
    var rest := keys - {k};
    m := k.n;
    if rest != {} {
      m := LargestOf(rest);
      if m < k.n {
        m := k.n;
      }
    }
    assert forall j :: j in keys ==> j == k || j in rest;
  }

  lemma LargestId(t: Table) returns (m: int)
    requires Ids(t) != {} && forall k :: k in t.rows ==> k.Int?
    ensures IsMaxOrOne(t, m)
  {
    m := LargestOf(t.rows.Keys);
    assert Int(m) in t.rows;
  }
}

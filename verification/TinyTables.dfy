/** The import of a TinyDB file: table by table, as the rows prepared from the records are inserted. */
module TinyTables {
  import opened Options
  import opened Database
  import opened Snapshot
  import opened TinyImport
  import opened TinyRows

  // ---- which files can be imported, and what their tables become ----

  /** Every row for the table can be inserted. */
  ghost predicate TableTakes(t: Table, data: TinyData, n: string) {
    && (n in data.keyed ==> !t.schema.serial && KeyedFit(data.keyed[n], t.schema))
    && (n in data.generated ==> t.schema.serial && AllInsertable(data.generated[n], t))
  }

  ghost predicate DataFits(data: TinyData, db: Tables) {
    forall n :: n in data.keyed.Keys + data.generated.Keys ==> n in db && TableTakes(db[n], data, n)
  }

  ghost predicate TinyFits(file: TinyFile, db: Tables) {
    DataFits(DataOf(file), db)
  }

  /** A failed import leaves every row; ids it generated are not generated again. */
  ghost predicate NothingImported(db: Tables, r: Tables) {
    && r.Keys == db.Keys
    && forall n :: n in db ==> r[n] == db[n].(next := r[n].next) && r[n].next >= db[n].next
  }

  ghost predicate AllInsertable(rows: seq<Row>, t: Table) {
    forall i :: 0 <= i < |rows| ==> Insertable(rows[i], t)
  }

  ghost predicate KeyedFit(rows: seq<Row>, schema: Schema) {
    ValidSchema(schema) && Keyed(rows, schema.key)
    && forall i :: 0 <= i < |rows| ==> RowFits(rows[i], schema) && !rows[i][schema.key].Null?
  }

  function GeneratedAll(t: Table, rows: seq<Row>): (r: Table)
    ensures r.schema == t.schema
  {
    if rows == [] then t else Generated(GeneratedAll(t, rows[..|rows| - 1]), rows[|rows| - 1])
  }

  /** The table after the import. */
  ghost function ImportedTable(t: Table, data: TinyData, n: string): Table {
    if n in data.keyed && Keyed(data.keyed[n], t.schema.key)
    then t.(rows := InsertAll(t.rows, data.keyed[n], t.schema.key))
    else if n in data.generated then GeneratedAll(t, data.generated[n])
    else t
  }

  ghost function Imported(db: Tables, file: TinyFile, n: string): Table
    requires n in db
  {
    ImportedTable(db[n], DataOf(file), n)
  }

  lemma {:induction false} GeneratedAllValid(t: Table, rows: seq<Row>)
    requires ValidTable(t) && Fresh(t) && t.schema.serial
    requires AllInsertable(rows, t)
    ensures ValidTable(GeneratedAll(t, rows)) && Fresh(GeneratedAll(t, rows))
  {
    if rows != [] {
      GeneratedAllValid(t, rows[..|rows| - 1]);
      GeneratedNeverCollides(GeneratedAll(t, rows[..|rows| - 1]), rows[|rows| - 1]);
    }
  }

  lemma ImportedValid(t: Table, data: TinyData, n: string)
    requires ValidTable(t) && Fresh(t) && TableTakes(t, data, n)
    ensures ValidTable(ImportedTable(t, data, n)) && Fresh(ImportedTable(t, data, n))
    ensures ImportedTable(t, data, n).schema == t.schema
  {
    if n in data.keyed {
      InsertAllKeepsValid(t, data.keyed[n]);
    } else if n in data.generated {
      GeneratedAllValid(t, data.generated[n]);
    }
  }

  lemma NothingImportedValid(db: Tables, r: Tables)
    requires ValidDb(db) && NothingImported(db, r)
    ensures ValidDb(r) && SameSchemas(db, r)
  {
    forall n | n in r ensures ValidTable(r[n]) && Fresh(r[n]) {
      assert r[n] == db[n].(next := r[n].next);
    }
  }

  /** Inside the transaction of the import, with the tables in `done` imported. */
  ghost predicate PartlyImported(db: Tables, data: TinyData, done: set<string>, result: Tables) {
    && result.Keys == db.Keys
    && (forall n :: n in done ==> n in db && TableTakes(db[n], data, n))
    && (forall n :: n in db ==> result[n] == if n in done then ImportedTable(db[n], data, n) else db[n])
  }

  lemma TableImported(db: Tables, data: TinyData, done: set<string>, result: Tables, n: string, t: Table)
    requires PartlyImported(db, data, done, result) && n in db && TableTakes(db[n], data, n)
    requires t == ImportedTable(db[n], data, n)
    ensures PartlyImported(db, data, done + {n}, result[n := t])
  {
  }

  lemma AllImported(db: Tables, data: TinyData, result: Tables)
    requires ValidDb(db) && PartlyImported(db, data, data.keyed.Keys + data.generated.Keys, result)
    ensures DataFits(data, db) && ValidDb(result) && SameSchemas(db, result)
    ensures forall n :: n in db ==> result[n] == ImportedTable(db[n], data, n)
  {
    forall n | n in db
      ensures result[n] == ImportedTable(db[n], data, n)
      ensures ValidTable(result[n]) && Fresh(result[n]) && result[n].schema == db[n].schema
    {
      if n in data.keyed.Keys + data.generated.Keys {
        ImportedValid(db[n], data, n);
      }
    }
  }

  /** The generated rows are under the ids from the next one on, in order; the others are as they were. */
  ghost predicate GeneratedOnTop(t: Table, rows: seq<Row>, r: Table) {
    && r.schema == t.schema && r.next == t.next + |rows|
    && (forall k :: k in r.rows <==> k in t.rows || (k.Int? && t.next <= k.n < r.next))
    && (forall k :: k in t.rows ==> k in r.rows && r.rows[k] == t.rows[k])
    && (forall k :: k in r.rows && k.Int? && t.next <= k.n < r.next ==>
          r.rows[k] == rows[k.n - t.next][t.schema.key := k])
  }

  lemma OneMoreOnTop(t: Table, rows: seq<Row>, r: Table, row: Row)
    requires Fresh(t) && t.schema.serial && GeneratedOnTop(t, rows, r)
    ensures GeneratedOnTop(t, rows + [row], Generated(r, row))
  {
  }

  lemma {:induction false} GeneratedAllRows(t: Table, rows: seq<Row>)
    requires Fresh(t) && t.schema.serial
    ensures GeneratedOnTop(t, rows, GeneratedAll(t, rows))
  {
    if rows != [] {
      var front, row := rows[..|rows| - 1], rows[|rows| - 1];
      GeneratedAllRows(t, front);
      OneMoreOnTop(t, front, GeneratedAll(t, front), row);
      assert rows == front + [row];
    }
  }

  // ---- that is what the names and the defaults say ----

  lemma FittingTableTakes(db: Tables, file: TinyFile, n: string)
    requires TinyFits(file, db) && n in db && KnownIntake(n) && RowsFor(file, n) != []
    ensures TableTakes(db[n], DataOf(file), n)
  {
    DataForTable(file, n);
  }

  lemma KeyedTableTakes(db: Tables, file: TinyFile, n: string)
    requires ValidDb(db) && TinyFits(file, db) && n in db && n in KEYED_TABLES
    ensures KeyedTaken(n, RecordsOf(file, n), db[n], Imported(db, file, n))
  {
    Intakes(n);
    RowsAreTaken(file, n);
    DataForTable(file, n);
    if RowsFor(file, n) != [] {
      FittingTableTakes(db, file, n);
    }
    KeyedIsNotSerial(n);
    KeyedRowsTake(n, RecordsOf(file, n), RowsFor(file, n), db[n], DataOf(file));
  }

  lemma KeyedRowsTake(n: string, records: seq<Record>, rows: seq<Row>, t: Table, data: TinyData)
    requires |rows| == |records| && forall i :: 0 <= i < |rows| ==> PreparedFrom(n, records[i], rows[i])
    requires n !in data.generated && (n in data.keyed <==> rows != []) && (n in data.keyed ==> data.keyed[n] == rows)
    requires rows != [] ==> TableTakes(t, data, n)
    ensures KeyedTaken(n, records, t, ImportedTable(t, data, n))
  {
    if rows != [] {
      forall i | 0 <= i < |rows|
        ensures t.schema.key in rows[i] && Taken(n, records[i], t.schema.key) == Some(rows[i][t.schema.key])
      {
        assert PreparedFrom(n, records[i], rows[i]);
      }
      InsertAllMerges(t.rows, rows, t.schema.key);
      MergesTakes(n, records, rows, t, InsertAll(t.rows, rows, t.schema.key));
    }
  }

  /** A merge of prepared rows is what the records say. */
  lemma MergesTakes(n: string, records: seq<Record>, rows: seq<Row>, t: Table, merged: map<Value, Row>)
    requires |rows| == |records| && Keyed(rows, t.schema.key) && Merges(t.rows, rows, t.schema.key, merged)
    requires forall i :: 0 <= i < |rows| ==> PreparedFrom(n, records[i], rows[i])
    requires forall i :: 0 <= i < |rows| ==> Taken(n, records[i], t.schema.key) == Some(rows[i][t.schema.key])
    ensures KeyedTaken(n, records, t, t.(rows := merged))
  {
    var key := t.schema.key;
    forall k ensures HasKey(rows, key, k) <==> exists i :: 0 <= i < |records| && Taken(n, records[i], key) == Some(k) {
      if i :| 0 <= i < |records| && Taken(n, records[i], key) == Some(k) {
        assert rows[i][key] == k;
      }
    }
    forall k, i: nat | k !in t.rows && FirstTaken(n, records, key, k, i)
      ensures k in merged && RowTaken(n, records[i], merged[k], {})
    {
      assert FirstWithKey(rows, key, k, i);
      assert PreparedFrom(n, records[i], rows[i]);
    }
  }

  lemma SerialTableTakes(db: Tables, file: TinyFile, n: string)
    requires ValidDb(db) && TinyFits(file, db) && n in db && n in SERIAL_TABLES
    ensures GeneratedTaken(n, RecordsOf(file, n), db[n], Imported(db, file, n))
  {
    Intakes(n);
    RowsAreTaken(file, n);
    DataForTable(file, n);
    if RowsFor(file, n) != [] {
      FittingTableTakes(db, file, n);
    }
    SerialRowsTake(n, RecordsOf(file, n), RowsFor(file, n), db[n], DataOf(file));
  }

  lemma SerialRowsTake(n: string, records: seq<Record>, rows: seq<Row>, t: Table, data: TinyData)
    requires |rows| == |records| && forall i :: 0 <= i < |rows| ==> PreparedFrom(n, records[i], rows[i])
    requires n !in data.keyed && (n in data.generated <==> rows != [])
    requires n in data.generated ==> data.generated[n] == rows
    requires Fresh(t) && (rows != [] ==> TableTakes(t, data, n))
    ensures GeneratedTaken(n, records, t, ImportedTable(t, data, n))
  {
    if rows != [] {
      GeneratedAllRows(t, rows);
      var r := ImportedTable(t, data, n);
      forall k | k in r.rows && k.Int? && t.next <= k.n < r.next
        ensures RowTaken(n, records[k.n - t.next], r.rows[k], {t.schema.key})
      {
        assert PreparedFrom(n, records[k.n - t.next], rows[k.n - t.next]);
      }
    }
  }

  /** An import takes from the file what its names and defaults say, for every table. */
  lemma ImportTakes(db: Tables, file: TinyFile, r: Tables)
    requires ValidDb(db) && TinyFits(file, db) && r.Keys == db.Keys
    requires forall n :: n in db ==> r[n] == Imported(db, file, n)
    ensures TakesFrom(db, file, r)
  {
    forall n | n in db && n in KEYED_TABLES ensures KeyedTaken(n, RecordsOf(file, n), db[n], r[n]) {
      KeyedTableTakes(db, file, n);
    }
    forall n | n in db && n in SERIAL_TABLES ensures GeneratedTaken(n, RecordsOf(file, n), db[n], r[n]) {
      SerialTableTakes(db, file, n);
    }
    forall n | n in db && n !in KEYED_TABLES && n !in SERIAL_TABLES ensures r[n] == db[n] {
      if n in INTAKES {
        NoOtherIntakes(n);
      }
    }
  }
}

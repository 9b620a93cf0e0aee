/** A database that was written to a TinyDB file comes back from it. */
module TinyLaws {
  import opened Options
  import opened Database
  import opened Snapshot
  import opened TinyImport
  import opened TinyRows
  import opened TinyTables

  /** The columns whose values an insert leaves to the database. */
  function IdColumns(schema: Schema): set<string> {
    if schema.serial then {schema.key} else {}
  }

  /** A table has the columns that the import inserts, and an id besides where ids are generated. */
  ghost predicate IsTinyTable(schema: Schema, table: string) {
    && schema.serial == (table in SERIAL_TABLES)
    && schema.columns.Keys == ColumnsOf(table) + IdColumns(schema) && ColumnsOf(table) !! IdColumns(schema)
  }

  ghost predicate HasTinyTables(db: Tables) {
    forall n :: n in KEYED_TABLES + SERIAL_TABLES ==> n in db && IsTinyTable(db[n].schema, n)
  }

  /** The record holds the row, but for its id, under the keys of the file, perhaps with other keys besides. */
  ghost predicate IsRecordOf(record: Record, row: Row, table: string, ids: set<string>) {
    forall c {:trigger TinyKey(table, c)} :: c in row && c !in ids ==>
      TinyKey(table, c) in record && record[TinyKey(table, c)] == row[c]
  }

  ghost predicate RecordsAre(records: seq<Record>, keys: seq<Value>, t: Table, table: string) {
    && Listing(keys, t) && |records| == |keys|
    && forall i :: 0 <= i < |keys| ==> IsRecordOf(records[i], t.rows[keys[i]], table, IdColumns(t.schema))
  }

  /** Each row of each table is one record of the file. */
  ghost predicate IsTinyFile(file: TinyFile, db: Tables) {
    forall n :: n in KEYED_TABLES + SERIAL_TABLES ==>
      n in db && exists keys :: RecordsAre(RecordsOf(file, n), keys, db[n], n)
  }

  /** The same rows, renumbered in the order of some listing. */
  ghost predicate SameUpToIds(t: Table, base: int, r: Table) {
    exists keys :: Listing(keys, t) && Renumbered(t, keys, base, r)
  }

  ghost predicate Renumbered(t: Table, keys: seq<Value>, base: int, r: Table)
    requires Listing(keys, t)
  {
    && r.next == base + |keys|
    && (forall k :: k in r.rows <==> k.Int? && base <= k.n < r.next)
    && (forall i :: 0 <= i < |keys| ==> SameButId(t, keys[i], r, base + i))
  }

  /** The row with that id in the one table is the row k of the other. */
  ghost predicate SameButId(t: Table, k: Value, r: Table, id: int)
    requires k in t.rows
  {
    Int(id) in r.rows && r.rows[Int(id)] == t.rows[k][t.schema.key := Int(id)]
  }

  lemma RecordGivesColumn(record: Record, row: Row, table: string, ids: set<string>, c: string)
    requires IsRecordOf(record, row, table, ids) && c in row && c !in ids
    ensures Taken(table, record, c) == Some(row[c])
  {
  }

  // ---- the file can be imported ----

  lemma PreparedRow(record: Record, row: Row, prepared: Row, table: string, ids: set<string>)
    requires IsRecordOf(record, row, table, ids) && PreparedFrom(table, record, prepared)
    requires row.Keys == ColumnsOf(table) + ids && ColumnsOf(table) !! ids
    ensures prepared.Keys == ColumnsOf(table)
    ensures forall c :: c in prepared ==> c in row && prepared[c] == row[c]
  {
    forall c | c in ColumnsOf(table) ensures c in prepared && prepared[c] == row[c] {
      RecordGivesColumn(record, row, table, ids, c);
    }
  }

  /** Every row prepared from the records of a table fits the table again. */
  lemma RowsFitAgain(rows: seq<Row>, records: seq<Record>, keys: seq<Value>, t: Table, table: string)
    requires ValidTable(t) && RecordsAre(records, keys, t, table) && |rows| == |records|
    requires forall i :: 0 <= i < |rows| ==> PreparedFrom(table, records[i], rows[i])
    requires IsTinyTable(t.schema, table)
    ensures !t.schema.serial ==> KeyedFit(rows, t.schema)
    ensures t.schema.serial ==> AllInsertable(rows, t)
  {
    forall i | 0 <= i < |rows|
      ensures if t.schema.serial then Insertable(rows[i], t)
              else RowFits(rows[i], t.schema) && !rows[i][t.schema.key].Null?
    {
      var row := t.rows[keys[i]];
      assert keys[i] in t.rows && RowFits(row, t.schema);
      PreparedRow(records[i], row, rows[i], table, IdColumns(t.schema));
      assert forall c :: c in rows[i] ==> Fits(rows[i][c], t.schema.columns[c]);
    }
  }

  lemma DataOfKnownTables(file: TinyFile, n: string)
    requires n in DataOf(file).keyed.Keys + DataOf(file).generated.Keys
    ensures n in KEYED_TABLES + SERIAL_TABLES
  {
    NoOtherIntakes(n);
  }

  lemma TableFitsAgain(t: Table, file: TinyFile, keys: seq<Value>, other: Table, n: string)
    requires ValidTable(t) && IsTinyTable(t.schema, n) && RecordsAre(RecordsOf(file, n), keys, t, n)
    requires other.schema == t.schema && KnownIntake(n)
    ensures TableTakes(other, DataOf(file), n)
  {
    RowsAreTaken(file, n);
    DataForTable(file, n);
    RowsFitAgain(RowsFor(file, n), RecordsOf(file, n), keys, t, n);
  }

  /** The file of a valid database can be imported into any database with the same tables. */
  lemma FileFits(db: Tables, file: TinyFile, other: Tables)
    requires ValidDb(db) && HasTinyTables(db) && IsTinyFile(file, db) && SameSchemas(db, other)
    ensures TinyFits(file, other)
  {
    var data := DataOf(file);
    forall n | n in data.keyed.Keys + data.generated.Keys ensures n in other && TableTakes(other[n], data, n) {
      DataOfKnownTables(file, n);
      Intakes(n);
      var keys :| RecordsAre(RecordsOf(file, n), keys, db[n], n);
      TableFitsAgain(db[n], file, keys, other[n], n);
    }
  }

  // ---- and gives the rows back ----

  /** A row taken from the record of a row is that row, but for a generated id. */
  lemma SameRow(record: Record, row: Row, taken: Row, table: string, ids: set<string>)
    requires IsRecordOf(record, row, table, ids) && RowTaken(table, record, taken, ids)
    requires taken.Keys == row.Keys
    ensures forall c :: c in row && c !in ids ==> taken[c] == row[c]
    ensures ids == {} ==> taken == row
  {
    forall c | c in row && c !in ids ensures taken[c] == row[c] {
      RecordGivesColumn(record, row, table, ids, c);
    }
  }

  lemma RecordOfKey(records: seq<Record>, keys: seq<Value>, t: Table, n: string, i: nat)
    requires ValidTable(t) && !t.schema.serial && RecordsAre(records, keys, t, n) && i < |keys|
    ensures keys[i] in t.rows && Taken(n, records[i], t.schema.key) == Some(keys[i])
  {
    assert keys[i] in t.rows && RowFits(t.rows[keys[i]], t.schema);
    RecordGivesColumn(records[i], t.rows[keys[i]], n, {}, t.schema.key);
  }

  lemma KeyIsFirst(records: seq<Record>, keys: seq<Value>, t: Table, n: string, i: nat)
    requires ValidTable(t) && !t.schema.serial && RecordsAre(records, keys, t, n) && i < |keys|
    ensures FirstTaken(n, records, t.schema.key, keys[i], i)
  {
    RecordOfKey(records, keys, t, n, i);
    forall j | 0 <= j < i ensures Taken(n, records[j], t.schema.key) != Some(keys[i]) {
      RecordOfKey(records, keys, t, n, j);
    }
  }

  lemma FirstMakesRow(records: seq<Record>, t: Table, r: Table, n: string, k: Value, i: nat)
    requires KeyedTaken(n, records, t, r) && k !in t.rows && FirstTaken(n, records, t.schema.key, k, i)
    ensures k in r.rows && RowTaken(n, records[i], r.rows[k], {})
  {
  }

  lemma TakenRowIsRow(record: Record, t: Table, r: Table, k: Value, n: string)
    requires ValidTable(t) && ValidTable(r) && r.schema == t.schema
    requires k in t.rows && IsRecordOf(record, t.rows[k], n, {})
    requires k in r.rows && RowTaken(n, record, r.rows[k], {})
    ensures r.rows[k] == t.rows[k]
  {
    assert RowFits(t.rows[k], t.schema) && RowFits(r.rows[k], r.schema);
    SameRow(record, t.rows[k], r.rows[k], n, {});
  }

  lemma RowReturns(records: seq<Record>, keys: seq<Value>, t: Table, empty: Table, r: Table, n: string, k: Value)
    requires ValidTable(t) && !t.schema.serial && RecordsAre(records, keys, t, n)
    requires empty.schema == t.schema && empty.rows == map[] && KeyedTaken(n, records, empty, r) && ValidTable(r)
    requires k in t.rows
    ensures k in r.rows && r.rows[k] == t.rows[k]
  {
    assert k in keys;
    var i: nat :| i < |keys| && keys[i] == k;
    KeyIsFirst(records, keys, t, n, i);
    FirstMakesRow(records, empty, r, n, k, i);
    TakenRowIsRow(records[i], t, r, k, n);
  }

  lemma NoOtherRow(records: seq<Record>, keys: seq<Value>, t: Table, empty: Table, r: Table, n: string, k: Value)
    requires ValidTable(t) && !t.schema.serial && RecordsAre(records, keys, t, n)
    requires empty.schema == t.schema && empty.rows == map[] && KeyedTaken(n, records, empty, r) && k in r.rows
    ensures k in t.rows
  {
    var i :| 0 <= i < |records| && Taken(n, records[i], t.schema.key) == Some(k);
    RecordOfKey(records, keys, t, n, i);
  }

  lemma AllRowsReturn(records: seq<Record>, keys: seq<Value>, t: Table, empty: Table, r: Table, n: string)
    requires ValidTable(t) && !t.schema.serial && RecordsAre(records, keys, t, n)
    requires empty.schema == t.schema && empty.rows == map[] && KeyedTaken(n, records, empty, r) && ValidTable(r)
    ensures SameRows(t.rows, r.rows)
  {
    forall k | k in t.rows ensures k in r.rows && r.rows[k] == t.rows[k] {
      RowReturns(records, keys, t, empty, r, n, k);
    }
    forall k | k in r.rows ensures k in t.rows {
      NoOtherRow(records, keys, t, empty, r, n, k);
    }
  }

  ghost predicate SameRows(rows: map<Value, Row>, rows': map<Value, Row>) {
    (forall k :: k in rows ==> k in rows' && rows'[k] == rows[k]) && (forall k :: k in rows' ==> k in rows)
  }

  lemma SameRowsAreEqual(rows: map<Value, Row>, rows': map<Value, Row>)
    requires SameRows(rows, rows')
    ensures rows == rows'
  {
  }

  lemma KeyedTableReturns(records: seq<Record>, keys: seq<Value>, t: Table, empty: Table, r: Table, n: string)
    requires ValidTable(t) && !t.schema.serial && RecordsAre(records, keys, t, n)
    requires empty.schema == t.schema && empty.rows == map[] && KeyedTaken(n, records, empty, r) && ValidTable(r)
    ensures r.rows == t.rows
  {
    AllRowsReturn(records, keys, t, empty, r, n);
    SameRowsAreEqual(t.rows, r.rows);
  }

  lemma NumberedRow(records: seq<Record>, t: Table, r: Table, n: string, i: nat)
    requires GeneratedTaken(n, records, t, r) && i < |records|
    ensures var k := Int(t.next + i); k in r.rows && RowTaken(n, records[i], r.rows[k], {t.schema.key})
  {
    var k := Int(t.next + i);
    assert k in r.rows && RowTaken(n, records[k.n - t.next], r.rows[k], {t.schema.key});
  }

  lemma NumberedRowIsRow(record: Record, t: Table, r: Table, j: Value, k: Value, n: string)
    requires ValidTable(t) && ValidTable(r) && r.schema == t.schema
    requires j in t.rows && IsRecordOf(record, t.rows[j], n, {t.schema.key})
    requires k in r.rows && RowTaken(n, record, r.rows[k], {t.schema.key})
    ensures r.rows[k] == t.rows[j][t.schema.key := k]
  {
    assert RowFits(t.rows[j], t.schema) && RowFits(r.rows[k], r.schema) && r.rows[k][t.schema.key] == k;
    SameRow(record, t.rows[j], r.rows[k], n, {t.schema.key});
  }

  lemma NumberedRowReturns(records: seq<Record>, keys: seq<Value>, t: Table, empty: Table, r: Table, n: string, i: nat)
    requires ValidTable(t) && t.schema.serial && RecordsAre(records, keys, t, n) && i < |keys|
    requires empty.schema == t.schema && GeneratedTaken(n, records, empty, r) && ValidTable(r)
    ensures keys[i] in t.rows && SameButId(t, keys[i], r, empty.next + i)
  {
    NumberedRow(records, empty, r, n, i);
    assert keys[i] in t.rows;
    NumberedRowIsRow(records[i], t, r, keys[i], Int(empty.next + i), n);
  }

  lemma SerialTableReturns(records: seq<Record>, keys: seq<Value>, t: Table, empty: Table, r: Table, n: string)
    requires ValidTable(t) && t.schema.serial && RecordsAre(records, keys, t, n)
    requires empty.schema == t.schema && empty.rows == map[] && GeneratedTaken(n, records, empty, r) && ValidTable(r)
    ensures Renumbered(t, keys, empty.next, r)
  {
    forall i: nat | i < |keys| ensures keys[i] in t.rows && SameButId(t, keys[i], r, empty.next + i) {
      NumberedRowReturns(records, keys, t, empty, r, n, i);
    }
  }

  lemma TinyTableOf(db: Tables, file: TinyFile, n: string) returns (keys: seq<Value>)
    requires HasTinyTables(db) && IsTinyFile(file, db) && n in KEYED_TABLES + SERIAL_TABLES
    ensures n in db && db[n].schema.serial == (n in SERIAL_TABLES)
    ensures RecordsAre(RecordsOf(file, n), keys, db[n], n)
  {
    keys :| RecordsAre(RecordsOf(file, n), keys, db[n], n);
  }

  /**
    Importing the file of a valid database into an empty one gives every table with own keys back, and every other
    one up to its ids.
   */
  lemma FileGivesBack(db: Tables, file: TinyFile, empty: Tables, r: Tables, n: string)
    requires ValidDb(db) && HasTinyTables(db) && IsTinyFile(file, db)
    requires SameSchemas(db, empty) && Empty(empty)
    requires TakesFrom(empty, file, r) && ValidDb(r) && SameSchemas(empty, r)
    requires n in KEYED_TABLES + SERIAL_TABLES
    ensures n in db && n in r
    ensures n in KEYED_TABLES ==> r[n].rows == db[n].rows
    ensures n in SERIAL_TABLES ==> SameUpToIds(db[n], empty[n].next, r[n])
  {
    var keys := TinyTableOf(db, file, n);
    if n in SERIAL_TABLES {
      if n in KEYED_TABLES {
        KeyedIsNotSerial(n);
      }
      SerialTableReturns(RecordsOf(file, n), keys, db[n], empty[n], r[n], n);
    } else {
      KeyedTableReturns(RecordsOf(file, n), keys, db[n], empty[n], r[n], n);
    }
  }
}

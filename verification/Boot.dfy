/**
  Where the identities of a shard come from: the TinyDB import, the snapshot restore and the default identity, in
  the order of startup, and the operations that later move the default.
 */
module Boot {
  import opened Options
  import opened Database
  import opened Snapshot
  import opened TinyImport
  import opened TinyRows
  import opened TinyTables
  import opened TinyLaws

  type Rows = map<Value, Row>

  const IS_DEFAULT := "is_default"

  predicate IsDefault(row: Row) {
    IS_DEFAULT in row && row[IS_DEFAULT] == Bool(true)
  }

  ghost predicate IsTheDefault(rows: Rows, k: Value) {
    k in rows && IsDefault(rows[k]) && forall l :: l in rows && IsDefault(rows[l]) ==> l == k
  }

  ghost predicate OneDefault(rows: Rows) {
    exists k :: IsTheDefault(rows, k)
  }

  ghost predicate NoneOrOneDefault(rows: Rows) {
    rows == map[] || OneDefault(rows)
  }

  // ---- startup ----

  class Host {
    const store: Store
    var tinyFile: Option<TinyFile>
    var snapshotFile: Option<File>

    constructor (store: Store, tinyFile: Option<TinyFile>, snapshotFile: Option<File>)
      ensures this.store == store && this.tinyFile == tinyFile && this.snapshotFile == snapshotFile
    {
      this.store, this.tinyFile, this.snapshotFile := store, tinyFile, snapshotFile;
    }

    ghost function Identities(): Rows
      reads store
      requires ValidDb(store.tables)
    {
      store.tables[IDENTITIES].rows
    }

    /** migrate_tinydb_data: one transaction for all tables; then the file is renamed. */
    method MigrateTinydb() returns (ok: bool)
      requires ValidDb(store.tables)
      modifies this`tinyFile, store`tables
      ensures ValidDb(store.tables) && SameSchemas(old(store.tables), store.tables)
      ensures ok <==> old(tinyFile).Some? ==> TinyFits(old(tinyFile).value, old(store.tables))
      ensures ok ==> tinyFile.None?
      ensures old(tinyFile).None? ==> store.tables == old(store.tables)
      ensures ok && old(tinyFile).Some? ==>
        && (forall n :: n in store.tables ==> store.tables[n] == Imported(old(store.tables), old(tinyFile).value, n))
        && TakesFrom(old(store.tables), old(tinyFile).value, store.tables)
      ensures !ok ==> tinyFile == old(tinyFile) && NothingImported(old(store.tables), store.tables)
    {
      if tinyFile.None? {
        return true;
      }
      var db := store.tables;
      var result: Tables;
      ok, result := ImportTables(db, DataOf(tinyFile.value));
      if ok {
        AllImported(db, DataOf(tinyFile.value), result);
        ImportTakes(db, tinyFile.value, result);
        store.tables := result;
        tinyFile := None;
      } else {
        store.tables := RolledBack(db, result);
        NothingImportedValid(db, store.tables);
      }
    }

    /** The file of another database, imported into an empty one, gives that database back. */
    method MigrateFileOf(ghost db: Tables) returns (ok: bool)
      requires ValidDb(store.tables) && Empty(store.tables) && tinyFile.Some?
      requires ValidDb(db) && HasTinyTables(db) && IsTinyFile(tinyFile.value, db) && SameSchemas(db, store.tables)
      modifies this`tinyFile, store`tables
      ensures ok && tinyFile.None? && ValidDb(store.tables) && SameSchemas(db, store.tables)
      ensures forall n :: n in KEYED_TABLES ==> n in db && n in store.tables && store.tables[n].rows == db[n].rows
      ensures forall n :: n in SERIAL_TABLES ==>
        n in db && n in store.tables && SameUpToIds(db[n], old(store.tables)[n].next, store.tables[n])
    {
      ghost var empty, file := store.tables, tinyFile.value;
      FileFits(db, file, empty);
      ok := MigrateTinydb();
      forall n | n in KEYED_TABLES + SERIAL_TABLES
        ensures n in db && n in store.tables
        ensures n in KEYED_TABLES ==> store.tables[n].rows == db[n].rows
        ensures n in SERIAL_TABLES ==> SameUpToIds(db[n], empty[n].next, store.tables[n])
      {
        FileGivesBack(db, file, empty, store.tables, n);
      }
    }

    /** The tables one after the other, up to the first that raises. */
    method ImportTables(db: Tables, data: TinyData) returns (ok: bool, result: Tables)
      ensures result.Keys == db.Keys && (ok <==> DataFits(data, db))
      ensures ok ==> PartlyImported(db, data, data.keyed.Keys + data.generated.Keys, result)
      ensures forall n :: n in db ==> result[n].next >= db[n].next
    {
      result := db;
      var remaining := data.keyed.Keys + data.generated.Keys;
      ghost var done: set<string> := {};
      while remaining != {}
        invariant remaining + done == data.keyed.Keys + data.generated.Keys
        invariant PartlyImported(db, data, done, result)
        invariant forall n :: n in db ==> result[n].next >= db[n].next
        decreases remaining
      {
        var n :| n in remaining;
        remaining := remaining - {n};
        if n !in db {
          return false, result;
        }
        var fits, t := ImportTable(db[n], data, n);
        if !fits {
          return false, result[n := t];
        }
        TableImported(db, data, done, result, n, t);
        result := result[n := t];
        done := done + {n};
      }
      assert done == data.keyed.Keys + data.generated.Keys;
      ok := true;
    }

    method ImportTable(t: Table, data: TinyData, n: string) returns (ok: bool, r: Table)
      ensures ok <==> TableTakes(t, data, n)
      ensures ok ==> r == ImportedTable(t, data, n)
      ensures r.next >= t.next
    {
      ok, r := true, t;
      if n in data.keyed {
        ok, r := ImportKeyed(t, data.keyed[n]);
        ok := ok && n !in data.generated;
      } else if n in data.generated {
        ok, r := ImportGenerated(t, data.generated[n]);
      }
    }

    method ImportKeyed(t: Table, rows: seq<Row>) returns (ok: bool, r: Table)
      ensures ok <==> !t.schema.serial && KeyedFit(rows, t.schema)
      ensures ok ==> r == t.(rows := InsertAll(t.rows, rows, t.schema.key))
      ensures r.next == t.next
    {
      r := t;
      if t.schema.serial || !ValidSchema(t.schema) {
        return false, t;
      }
      for i := 0 to |rows|
        invariant KeyedFit(rows[..i], t.schema)
        invariant r == t.(rows := InsertAll(t.rows, rows[..i], t.schema.key))
      {
        assert rows[..i + 1][..i] == rows[..i];
        if !RowFits(rows[i], t.schema) || rows[i][t.schema.key].Null? {
          return false, t;
        }
        if rows[i][t.schema.key] !in r.rows {
          r := r.(rows := r.rows[rows[i][t.schema.key] := rows[i]]);
        }
      }
      assert rows[..|rows|] == rows;
      ok := true;
    }

    method ImportGenerated(t: Table, rows: seq<Row>) returns (ok: bool, r: Table)
      ensures ok <==> t.schema.serial && AllInsertable(rows, t)
      ensures ok ==> r == GeneratedAll(t, rows)
      ensures r.next >= t.next
    {
      r := t;
      if !t.schema.serial {
        return false, t;
      }
      for i := 0 to |rows|
        invariant AllInsertable(rows[..i], t)
        invariant r == GeneratedAll(t, rows[..i]) && r.next >= t.next
      {
        assert rows[..i + 1][..i] == rows[..i];
        if !Insertable(rows[i], t) {
          return false, r;
        }
        r := Generated(r, rows[i]);
      }
      assert rows[..|rows|] == rows;
      ok := true;
    }

    /** init_default_identity with the identity it would create. */
    method InitDefaultIdentity(id: Value, row: Row)
      requires ValidDb(store.tables) && NewIdentity(store.tables[IDENTITIES].schema, id, row)
      modifies store`tables
      ensures ValidDb(store.tables) && SameSchemas(old(store.tables), store.tables)
      ensures store.tables ==
        if Populated(old(store.tables)) then old(store.tables)
        else old(store.tables)[IDENTITIES := old(store.tables)[IDENTITIES].(rows := map[id := row])]
    {
      var t := store.tables[IDENTITIES];
      if |t.rows| == 0 {
        assert t.rows == map[];
        store.tables := store.tables[IDENTITIES := t.(rows := t.rows[id := row])];
      }
    }

    /** The database part of startup; false when the import or the restore raises and startup stops. */
    method Boot(id: Value, row: Row) returns (ok: bool)
      requires ValidDb(store.tables) && NewIdentity(store.tables[IDENTITIES].schema, id, row)
      modifies this`tinyFile, store`tables
      ensures ValidDb(store.tables) && SameSchemas(old(store.tables), store.tables)
      ensures ok ==> tinyFile.None? && Populated(store.tables) && ImportSucceeds(old(tinyFile), old(store.tables))
      ensures ok ==>
        IdentitiesFrom(old(store.tables), old(tinyFile), snapshotFile, store.tt, id, row, Identities())
      ensures !ok ==> forall n :: n in store.tables ==>
        store.tables[n].rows == RowsAfterImport(old(store.tables), old(tinyFile), n)
    {
      ghost var db := store.tables;
      ok := MigrateTinydb();
      if !ok {
        return;
      }
      ghost var imported := store.tables;
      ghost var done: set<string>;
      ok, done := store.RestoreSnapshot(snapshotFile);
      if !ok {
        FailedKeepsValid(imported, snapshotFile.value, store.tt, done, store.tables);
        return;
      }
      IdentitiesSettled(db, old(tinyFile), imported, snapshotFile, store.tt, store.tables, id, row);
      InitDefaultIdentity(id, row);
    }

    /** A second start, with nothing in between, finds nothing to import, restore or create. */
    method BootTwice(id: Value, row: Row, id': Value, row': Row)
        returns (ok: bool, again: bool, ghost once: Tables)
      requires ValidDb(store.tables)
      requires NewIdentity(store.tables[IDENTITIES].schema, id, row)
      requires NewIdentity(store.tables[IDENTITIES].schema, id', row')
      modifies this`tinyFile, store`tables
      ensures ok ==> again && store.tables == once && IDENTITIES in once
      ensures ok ==> ImportSucceeds(old(tinyFile), old(store.tables))
      ensures ok ==>
        IdentitiesFrom(old(store.tables), old(tinyFile), snapshotFile, store.tt, id, row, once[IDENTITIES].rows)
    {
      ok := Boot(id, row);
      again, once := false, store.tables;
      if ok {
        again := Reboot(id', row');
      }
    }

    method Reboot(id: Value, row: Row) returns (ok: bool)
      requires ValidDb(store.tables) && NewIdentity(store.tables[IDENTITIES].schema, id, row)
      requires tinyFile.None? && Populated(store.tables)
      modifies this`tinyFile, store`tables
      ensures ok && store.tables == old(store.tables) && tinyFile.None?
    {
      ok := MigrateTinydb();
      ghost var done: set<string>;
      ok, done := store.RestoreSnapshot(snapshotFile);
      InitDefaultIdentity(id, row);
    }
  }

  ghost predicate ImportSucceeds(tiny: Option<TinyFile>, db: Tables) {
    tiny.Some? ==> TinyFits(tiny.value, db)
  }

  ghost function RowsAfterImport(db: Tables, tiny: Option<TinyFile>, n: string): Rows
    requires n in db
  {
    if tiny.Some? && TinyFits(tiny.value, db) then Imported(db, tiny.value, n).rows else db[n].rows
  }

  ghost predicate NewIdentity(schema: Schema, id: Value, row: Row) {
    RowFits(row, schema) && !schema.serial && schema.key in row && row[schema.key] == id && !id.Null? && IsDefault(row)
  }

  /** The identities after the import, before anything is restored. */
  ghost function ImportedIdentities(db: Tables, tiny: Option<TinyFile>): Rows
    requires ValidDb(db) && ImportSucceeds(tiny, db)
  {
    if tiny.Some? then Imported(db, tiny.value, IDENTITIES).rows else db[IDENTITIES].rows
  }

  ghost predicate SnapshotAdapts(file: Option<File>, db: Tables, tt: TimeText)
    requires IDENTITIES in db
  {
    file.Some? && IDENTITIES in file.value ==> AllAdapt(file.value[IDENTITIES], db[IDENTITIES].schema, tt)
  }

  /** The identities of the snapshot. */
  ghost function SnapshotIdentities(file: Option<File>, db: Tables, tt: TimeText): Rows
    requires IDENTITIES in db && SnapshotAdapts(file, db, tt)
  {
    if file.Some? && IDENTITIES in file.value then
      var schema := db[IDENTITIES].schema;
      InsertAll(map[], AdaptRows(file.value[IDENTITIES], schema, tt), schema.key)
    else map[]
  }

  /**
    The first source that has any identity gives all of them: the database together with the TinyDB file, else
    the snapshot, else the one default identity created on the spot.
   */
  ghost predicate IdentitiesFrom(db: Tables, tiny: Option<TinyFile>, file: Option<File>, tt: TimeText,
                                 id: Value, row: Row, rows: Rows)
    requires ValidDb(db) && ImportSucceeds(tiny, db)
  {
    var own := ImportedIdentities(db, tiny);
    if own != map[] then rows == own
    else
      && SnapshotAdapts(file, db, tt)
      && var restored := SnapshotIdentities(file, db, tt);
         rows == if restored != map[] then restored else map[id := row]
  }

  lemma RestoredIdentities(db: Tables, imported: Tables, file: File, tt: TimeText, restored: Tables)
    requires ValidDb(db) && ValidDb(imported) && SameSchemas(db, imported) && !Populated(imported)
    requires Restored(imported, file, tt, restored)
    ensures SameSchemas(imported, restored)
    ensures SnapshotAdapts(Some(file), db, tt)
    ensures restored[IDENTITIES].rows == SnapshotIdentities(Some(file), db, tt)
  {
    var t := imported[IDENTITIES];
    assert t.rows == map[] && t.schema == db[IDENTITIES].schema;
  }

  lemma IdentitiesSettled(db: Tables, tiny: Option<TinyFile>, imported: Tables, file: Option<File>, tt: TimeText,
                          restored: Tables, id: Value, row: Row)
    requires ValidDb(db) && ImportSucceeds(tiny, db)
    requires ValidDb(imported) && SameSchemas(db, imported)
    requires imported[IDENTITIES].rows == ImportedIdentities(db, tiny)
    requires if file.None? || Populated(imported) then restored == imported
             else Restored(imported, file.value, tt, restored)
    ensures ValidDb(restored) && SameSchemas(imported, restored)
    ensures var rows := restored[IDENTITIES].rows;
      IdentitiesFrom(db, tiny, file, tt, id, row, if rows == map[] then map[id := row] else rows)
  {
    if file.Some? && !Populated(imported) {
      RestoredKeepsValid(imported, file.value, tt, restored);
      RestoredIdentities(db, imported, file.value, tt, restored);
    }
  }

  // ---- exactly one default ----

  /** The source the identities come from. */
  ghost function Source(db: Tables, tiny: Option<TinyFile>, file: Option<File>, tt: TimeText): Rows
    requires ValidDb(db) && ImportSucceeds(tiny, db)
    requires ImportedIdentities(db, tiny) == map[] ==> SnapshotAdapts(file, db, tt)
  {
    var own := ImportedIdentities(db, tiny);
    if own != map[] then own else SnapshotIdentities(file, db, tt)
  }

  /** Startup ends with exactly one default exactly when its source has none at all or exactly one default. */
  lemma BootHasOneDefaultExactlyWhen(db: Tables, tiny: Option<TinyFile>, file: Option<File>, tt: TimeText,
                                     id: Value, row: Row, rows: Rows)
    requires ValidDb(db) && ImportSucceeds(tiny, db) && IsDefault(row)
    requires IdentitiesFrom(db, tiny, file, tt, id, row, rows)
    ensures OneDefault(rows) <==> NoneOrOneDefault(Source(db, tiny, file, tt))
  {
    if Source(db, tiny, file, tt) == map[] {
      assert IsTheDefault(map[id := row], id);
    }
  }

  /** A fresh database and at most one default in the TinyDB file, distinct keys assumed, is such a source. */
  lemma ImportIntoEmpty(rows: seq<Row>, key: string, k: Value)
    requires Keyed(rows, key)
    requires forall i, j :: 0 <= i < j < |rows| ==> rows[i][key] != rows[j][key]
    requires forall i :: 0 <= i < |rows| ==> (IsDefault(rows[i]) <==> rows[i][key] == k)
    requires exists i :: 0 <= i < |rows| && rows[i][key] == k
    ensures IsTheDefault(InsertAll(map[], rows, key), k)
  {
    InsertAllMerges(map[], rows, key);
    var r := InsertAll(map[], rows, key);
    forall l | l in r ensures IsDefault(r[l]) <==> l == k {
      assert HasKey(rows, key, l);
      var i: nat :| i < |rows| && rows[i][key] == l;
      assert FirstWithKey(rows, key, l, i);
    }
    var i: nat :| i < |rows| && rows[i][key] == k;
    assert HasKey(rows, key, k);
  }

  // ---- the operations that move the default ----

  datatype IdentityOp =
    | CreateIdentity(id: Value, row: Row)
    | UpdateIdentity(id: Value, data: Row)
    | MakeDefault(id: Value)

  /** The columns an update may set. */
  const UPDATABLE := {"name", "email", "description", "private_key", IS_DEFAULT}

  function Marked(rows: Rows, id: Value, mark: bool): Rows {
    if id in rows then rows[id := rows[id] + map[IS_DEFAULT := Bool(mark)]] else rows
  }

  lemma MarkedRow(row: Row, mark: bool)
    ensures IsDefault(row + map[IS_DEFAULT := Bool(mark)]) == mark
    ensures row + map[IS_DEFAULT := Bool(mark)] - {IS_DEFAULT} == row - {IS_DEFAULT}
  {
  }

  /** Unmarking the default and marking id leaves id as the default, and every row as it was but for the mark. */
  lemma DefaultMoves(rows: Rows, last: Value, id: Value)
    requires IsTheDefault(rows, last) && id in rows
    ensures var r := Marked(Marked(rows, last, false), id, true);
      IsTheDefault(r, id) && r.Keys == rows.Keys && forall k :: k in r ==> r[k] - {IS_DEFAULT} == rows[k] - {IS_DEFAULT}
  {
    var mid := Marked(rows, last, false);
    MarkedRow(rows[last], false);
    MarkedRow(mid[id], true);
  }

  class IdentityService {
    var rows: Rows

    constructor (rows: Rows)
      ensures this.rows == rows
    {
      this.rows := rows;
    }

    /** UPDATE identities SET ... WHERE id; false for a column that may not be set. */
    method Update(id: Value, data: Row) returns (ok: bool)
      modifies this
      ensures ok <==> data.Keys <= UPDATABLE
      ensures rows == if ok && id in old(rows) then old(rows)[id := old(rows)[id] + data] else old(rows)
    {
      if !(data.Keys <= UPDATABLE) {
        return false;
      }
      if id in rows {
        rows := rows[id := rows[id] + data];
      }
      ok := true;
    }

    /** PUT without an id: the new identity is not the default. */
    method Create(id: Value, row: Row) returns (ok: bool)
      requires !IsDefault(row)
      modifies this
      ensures ok <==> id !in old(rows)
      ensures rows == if ok then old(rows)[id := row] else old(rows)
    {
      ok := id !in rows;
      if ok {
        rows := rows[id := row];
      }
    }

    /** make_default: takes the mark from the current default, then gives it; also when both are the same identity. */
    method MakeDefault(id: Value) returns (ok: bool)
      requires OneDefault(rows)
      modifies this
      ensures ok <==> id in old(rows)
      ensures ok ==> IsTheDefault(rows, id) && rows.Keys == old(rows).Keys
      ensures ok ==> forall k :: k in rows ==> rows[k] - {IS_DEFAULT} == old(rows)[k] - {IS_DEFAULT}
      ensures !ok ==> rows == old(rows)
    {
      ghost var k :| IsTheDefault(rows, k);
      var last :| last in rows && IsDefault(rows[last]);
      if id !in rows {
        return false;
      }
      DefaultMoves(rows, last, id);
      var _ := Update(last, map[IS_DEFAULT := Bool(false)]);
      var _ := Update(id, map[IS_DEFAULT := Bool(true)]);
      ok := true;
    }

    /** Creating, renaming and moving the default in any order keeps exactly one default. */
    method Replay(ops: seq<IdentityOp>)
      requires OneDefault(rows)
      requires forall i :: 0 <= i < |ops| ==> OrdinaryOp(ops[i])
      modifies this
      ensures OneDefault(rows) && old(rows).Keys <= rows.Keys
    {
      for i := 0 to |ops|
        invariant OneDefault(rows) && old(rows).Keys <= rows.Keys
      {
        ghost var before := rows;
        ghost var k :| IsTheDefault(rows, k);
        match ops[i]
        case CreateIdentity(id, row) =>
          var _ := Create(id, row);
          assert IsTheDefault(rows, k);
        case UpdateIdentity(id, data) =>
          var ok := Update(id, data);
          if ok && id in before {
            UpdateKeepsDefaultExactlyWhen(before, id, data);
          }
        case MakeDefault(id) =>
          var ok := MakeDefault(id);
          assert ok ==> IsTheDefault(rows, id);
      }
    }
  }

  /** What the callers send: a created identity is not the default, and an update does not mention the mark. */
  ghost predicate OrdinaryOp(op: IdentityOp) {
    match op
    case CreateIdentity(_, row) => !IsDefault(row)
    case UpdateIdentity(_, data) => IS_DEFAULT !in data
    case MakeDefault(_) => true
  }

  /** An update keeps exactly one default exactly when it leaves the mark of its row as it is. */
  lemma UpdateKeepsDefaultExactlyWhen(rows: Rows, id: Value, data: Row)
    requires OneDefault(rows) && id in rows
    ensures OneDefault(rows[id := rows[id] + data]) <==> IsDefault(rows[id] + data) == IsDefault(rows[id])
  {
    var k :| IsTheDefault(rows, k);
    var r := rows[id := rows[id] + data];
    if IsDefault(rows[id] + data) == IsDefault(rows[id]) {
      assert IsTheDefault(r, k);
    } else if IsDefault(rows[id]) {
      assert forall l :: l in r ==> !IsDefault(r[l]);
    } else {
      assert k != id && IsDefault(r[k]) && IsDefault(r[id]);
    }
  }
}

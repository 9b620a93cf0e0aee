/**
  What a TinyDB file says about each table, read off the names and the defaults alone: which key of a record is which
  column, and what a missing key stands for.
 */
module TinyRows {
  import opened Options
  import opened Database
  import opened TinyImport

  const KEYED_TABLES := {"kv_store", "identities", "installed_apps", "terminals", "peers", "tours"}

  const SERIAL_TABLES := {"backups", "app_usage_tracks"}

  /** The name of a table in the file. */
  function TinyTable(table: string): string {
    if table == "kv_store" then "_default" else if table == "app_usage_tracks" then "app_usage_track" else table
  }

  /** The key of a column in a record. */
  function TinyKey(table: string, column: string): string {
    if table == "backups" && column == "start_time" then "startTime"
    else if table == "backups" && column == "end_time" then "endTime"
    else column
  }

  function ColumnsOf(table: string): set<string> {
    if table == "kv_store" then {"key", "value"}
    else if table == "identities" then {"id", "name", "email", "description", "private_key", "is_default"}
    else if table == "installed_apps" then {"name", "installation_reason", "status", "last_access"}
    else if table == "terminals" then {"id", "name", "icon", "last_connection"}
    else if table == "peers" then {"id", "name", "public_bytes_b64", "is_reachable"}
    else if table == "tours" then {"name", "status"}
    else if table == "backups" then {"directories", "start_time", "end_time"}
    else {"timestamp", "installed_apps"}
  }

  /** What a missing key stands for, where it may be missing. */
  function DefaultOf(table: string, column: string): Option<Value> {
    if table == "installed_apps" && (column == "installation_reason" || column == "status") then Some(Text("unknown"))
    else if table == "terminals" && column == "icon" then Some(Text("unknown"))
    else if table == "backups" && column == "directories" then Some(Document(JNested("[]")))
    else if table == "backups" && (column == "start_time" || column == "end_time") then Some(Null)
    else None
  }

  /** A key that is there gives its own value, whatever it is; a missing one its default. */
  function Taken(table: string, record: Record, column: string): Option<Value> {
    if TinyKey(table, column) in record then Some(record[TinyKey(table, column)]) else DefaultOf(table, column)
  }

  /** Every column of the row but a generated id has the value that is taken from the record. */
  ghost predicate RowTaken(table: string, record: Record, row: Row, generated: set<string>) {
    forall c {:trigger Taken(table, record, c)} :: c in row && c !in generated ==>
      Taken(table, record, c) == Some(row[c])
  }

  function RecordsOf(file: TinyFile, table: string): seq<Record> {
    if TinyTable(table) in file then file[TinyTable(table)] else []
  }

  ghost predicate FirstTaken(table: string, records: seq<Record>, key: string, k: Value, i: nat) {
    && i < |records| && Taken(table, records[i], key) == Some(k)
    && forall j :: 0 <= j < i ==> Taken(table, records[j], key) != Some(k)
  }

  /** Rows that were there stay; of the records, the first of each absent key makes a row. */
  ghost predicate KeyedTaken(table: string, records: seq<Record>, t: Table, r: Table) {
    var key := t.schema.key;
    && r.schema == t.schema && r.next == t.next
    && (forall k :: k in r.rows <==>
          k in t.rows || exists i :: 0 <= i < |records| && Taken(table, records[i], key) == Some(k))
    && (forall k :: k in t.rows ==> k in r.rows && r.rows[k] == t.rows[k])
    && (forall k, i: nat :: k !in t.rows && FirstTaken(table, records, key, k, i) ==>
          k in r.rows && RowTaken(table, records[i], r.rows[k], {}))
  }

  /** Rows that were there stay; each record makes a row under the next id. */
  ghost predicate GeneratedTaken(table: string, records: seq<Record>, t: Table, r: Table) {
    && r.schema == t.schema && r.next == t.next + |records|
    && (forall k :: k in r.rows <==> k in t.rows || (k.Int? && t.next <= k.n < r.next))
    && (forall k :: k in t.rows ==> k in r.rows && r.rows[k] == t.rows[k])
    && (forall k :: k in r.rows && k.Int? && t.next <= k.n < r.next ==>
          RowTaken(table, records[k.n - t.next], r.rows[k], {t.schema.key}))
  }

  ghost predicate TakesFrom(db: map<string, Table>, file: TinyFile, r: map<string, Table>) {
    && r.Keys == db.Keys
    && (forall n :: n in db && n in KEYED_TABLES ==> KeyedTaken(n, RecordsOf(file, n), db[n], r[n]))
    && (forall n :: n in db && n in SERIAL_TABLES ==> GeneratedTaken(n, RecordsOf(file, n), db[n], r[n]))
    && (forall n :: n in db && n !in KEYED_TABLES && n !in SERIAL_TABLES ==> r[n] == db[n])
  }

  // ---- the intakes say the same ----

  ghost predicate IntakeIs(table: string, intake: Intake) {
    && intake.from == TinyTable(table) && intake.serial == (table in SERIAL_TABLES)
    && intake.sources.Keys == ColumnsOf(table)
    && (forall c :: c in intake.sources ==> intake.sources[c] == TinyKey(table, c))
    && (forall c :: c in ColumnsOf(table) ==>
          DefaultOf(table, c) == if c in intake.defaults then Some(intake.defaults[c]) else None)
  }

  ghost predicate KnownIntake(table: string) {
    table in INTAKES && IntakeIs(table, INTAKES[table])
  }

  lemma KvStoreIntake()
    ensures KnownIntake("kv_store")
  {
  }

  lemma IdentitiesIntake()
    ensures KnownIntake("identities")
  {
  }

  lemma AppsIntake()
    ensures KnownIntake("installed_apps")
  {
  }

  lemma TerminalsIntake()
    ensures KnownIntake("terminals")
  {
  }

  lemma PeersIntake()
    ensures KnownIntake("peers")
  {
  }

  lemma ToursIntake()
    ensures KnownIntake("tours")
  {
  }

  lemma BackupsIntake()
    ensures KnownIntake("backups")
  {
  }

  lemma TracksIntake()
    ensures KnownIntake("app_usage_tracks")
  {
  }

  lemma Intakes(table: string)
    requires table in KEYED_TABLES || table in SERIAL_TABLES
    ensures KnownIntake(table)
  {
    if table == "kv_store" {
      KvStoreIntake();
    } else if table == "identities" {
      IdentitiesIntake();
    } else if table == "installed_apps" {
      AppsIntake();
    } else if table == "terminals" {
      TerminalsIntake();
    } else if table == "peers" {
      PeersIntake();
    } else if table == "tours" {
      ToursIntake();
    } else if table == "backups" {
      BackupsIntake();
    } else {
      TracksIntake();
    }
  }

  lemma KeyedIsNotSerial(table: string)
    requires table in KEYED_TABLES
    ensures table !in SERIAL_TABLES
  {
  }

  lemma NoOtherIntakes(table: string)
    requires table in INTAKES
    ensures table in KEYED_TABLES || table in SERIAL_TABLES
  {
  }

  lemma PreparedIsTaken(table: string, record: Record, row: Row)
    requires KnownIntake(table) && row == Prepared(record, INTAKES[table])
    ensures row.Keys <= ColumnsOf(table)
    ensures forall c :: c in ColumnsOf(table) ==> Taken(table, record, c) == if c in row then Some(row[c]) else None
  {
  }

  /** The rows prepared for a table are what is taken from its records. */
  lemma RowsAreTaken(file: TinyFile, table: string)
    requires KnownIntake(table)
    ensures |RowsFor(file, table)| == |RecordsOf(file, table)|
    ensures forall i :: 0 <= i < |RowsFor(file, table)| ==>
      PreparedFrom(table, RecordsOf(file, table)[i], RowsFor(file, table)[i])
  {
    var rows, records := RowsFor(file, table), RecordsOf(file, table);
    forall i | 0 <= i < |rows| ensures PreparedFrom(table, records[i], rows[i]) {
      PreparedIsTaken(table, records[i], rows[i]);
    }
  }

  ghost predicate PreparedFrom(table: string, record: Record, row: Row) {
    && row.Keys <= ColumnsOf(table)
    && forall c {:trigger Taken(table, record, c)} :: c in ColumnsOf(table) ==>
         Taken(table, record, c) == if c in row then Some(row[c]) else None
  }

  lemma DataForTable(file: TinyFile, table: string)
    requires KnownIntake(table)
    ensures var data, rows := DataOf(file), RowsFor(file, table);
      && (table in data.keyed <==> table !in SERIAL_TABLES && rows != [])
      && (table in data.generated <==> table in SERIAL_TABLES && rows != [])
      && (table in data.keyed ==> data.keyed[table] == rows)
      && (table in data.generated ==> data.generated[table] == rows)
  {
  }
}

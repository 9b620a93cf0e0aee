/** Which rows a TinyDB file becomes: the columns each table takes from a record, and what it puts for missing ones. */
module TinyImport {
  import opened Database

  /** A record whose dates have been parsed. */
  type Record = map<string, Value>

  /** The tables of the file, by the names they have there. */
  type TinyFile = map<string, seq<Record>>

  /**
    from:     the table of the file.
    sources:  the key of the record for each column of the insert; other keys are dropped.
    defaults: the columns that get a value when the key is missing. A key that is there keeps its value, even NULL.
   */
  datatype Intake = Intake(from: string, serial: bool, sources: map<string, string>, defaults: map<string, Value>)

  const IDENTITY_COLUMNS :=
    map["id" := "id", "name" := "name", "email" := "email", "description" := "description",
        "private_key" := "private_key", "is_default" := "is_default"]

  const APP_COLUMNS :=
    map["name" := "name", "installation_reason" := "installation_reason", "status" := "status",
        "last_access" := "last_access"]

  const TERMINAL_COLUMNS :=
    map["id" := "id", "name" := "name", "icon" := "icon", "last_connection" := "last_connection"]

  const PEER_COLUMNS :=
    map["id" := "id", "name" := "name", "public_bytes_b64" := "public_bytes_b64", "is_reachable" := "is_reachable"]

  const BACKUP_COLUMNS := map["directories" := "directories", "start_time" := "startTime", "end_time" := "endTime"]

  const TRACK_COLUMNS := map["timestamp" := "timestamp", "installed_apps" := "installed_apps"]

  const INTAKES: map<string, Intake> :=
    map["kv_store" := Intake("_default", false, map["key" := "key", "value" := "value"], map[]),
        "identities" := Intake("identities", false, IDENTITY_COLUMNS, map[]),
        "installed_apps" := Intake("installed_apps", false, APP_COLUMNS,
          map["installation_reason" := Text("unknown"), "status" := Text("unknown")]),
        "terminals" := Intake("terminals", false, TERMINAL_COLUMNS, map["icon" := Text("unknown")]),
        "peers" := Intake("peers", false, PEER_COLUMNS, map[]),
        "backups" := Intake("backups", true, BACKUP_COLUMNS,
          map["directories" := Document(JNested("[]")), "start_time" := Null, "end_time" := Null]),
        "tours" := Intake("tours", false, map["name" := "name", "status" := "status"], map[]),
        "app_usage_tracks" := Intake("app_usage_track", true, TRACK_COLUMNS, map[])]

  /** The row to insert; a column with neither a key nor a default is missing, and the insert will raise. */
  function Prepared(record: Record, intake: Intake): Row {
    map c | c in intake.sources && (intake.sources[c] in record || c in intake.defaults) ::
      if intake.sources[c] in record then record[intake.sources[c]] else intake.defaults[c]
  }

  function PreparedAll(records: seq<Record>, intake: Intake): (rows: seq<Row>)
    ensures |rows| == |records| && forall i :: 0 <= i < |rows| ==> rows[i] == Prepared(records[i], intake)
  {
    seq(|records|, i requires 0 <= i < |records| => Prepared(records[i], intake))
  }

  function RowsFor(file: TinyFile, table: string): seq<Row>
    requires table in INTAKES
  {
    var intake := INTAKES[table];
    if intake.from in file then PreparedAll(file[intake.from], intake) else []
  }

  /** Two records that agree on the keys a table takes become the same row: everything else is filtered out. */
  lemma OnlyTakenKeysMatter(record: Record, other: Record, intake: Intake)
    requires forall c :: c in intake.sources ==>
      var k := intake.sources[c];
      (k in record <==> k in other) && (k in record ==> record[k] == other[k])
    ensures Prepared(record, intake) == Prepared(other, intake)
  {
  }

  /** A row has all the columns of the insert exactly when every key without a default is in the record. */
  lemma CompleteExactlyWhen(record: Record, intake: Intake)
    ensures Prepared(record, intake).Keys == intake.sources.Keys <==>
      forall c :: c in intake.sources && c !in intake.defaults ==> intake.sources[c] in record
  {
    var row := Prepared(record, intake);
    if row.Keys == intake.sources.Keys {
      forall c | c in intake.sources && c !in intake.defaults ensures intake.sources[c] in record {
        assert c in row.Keys;
      }
    } else {
      assert row.Keys <= intake.sources.Keys;
      var c :| c in intake.sources.Keys && c !in row.Keys;
    }
  }

  /** Rows that bring their own keys, and rows whose ids are generated, by the table they go to. */
  datatype TinyData = TinyData(keyed: map<string, seq<Row>>, generated: map<string, seq<Row>>)

  function DataOf(file: TinyFile): TinyData {
    TinyData(
      map n | n in INTAKES && !INTAKES[n].serial && RowsFor(file, n) != [] :: RowsFor(file, n),
      map n | n in INTAKES && INTAKES[n].serial && RowsFor(file, n) != [] :: RowsFor(file, n))
  }
}

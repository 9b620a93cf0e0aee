/**
  Tables, rows and serial sequences as the snapshot code sees them: values as they are written to JSON and adapted
  back by column type, inserts that do nothing on a conflict, and sequences that generate ids.
 */
module Database {
  import opened Options

  // ---- values and their JSON form ----

  datatype Column = TextColumn | IntColumn | BoolColumn | JsonColumn | TimeColumn

  datatype Json = JNull | JBool(b: bool) | JNumber(n: int) | JText(s: string) | JNested(text: string)

  /** A value in a row; SQL NULL, and a JSON document that is null, are different values. */
  datatype Value = Null | Bool(b: bool) | Int(n: int) | Text(s: string) | Document(j: Json) | Time(t: int)

  /** The ISO text of a timestamp and its parser. */
  datatype TimeText = TimeText(iso: int -> string, parse: string -> Option<int>)

  ghost predicate ParsesBack(tt: TimeText) {
    forall t :: tt.parse(tt.iso(t)) == Some(t)
  }

  predicate Fits(v: Value, column: Column) {
    match v
    case Null => true
    case Bool(_) => column.BoolColumn?
    case Int(_) => column.IntColumn?
    case Text(_) => column.TextColumn?
    case Document(_) => column.JsonColumn?
    case Time(_) => column.TimeColumn?
  }

  function ToJson(v: Value, tt: TimeText): Json {
    match v
    case Null => JNull
    case Bool(b) => JBool(b)
    case Int(n) => JNumber(n)
    case Text(s) => JText(s)
    case Document(j) => j
    case Time(t) => JText(tt.iso(t))
  }

  /** _adapt_value and the insert of the adapted value; None when either raises. */
  function Adapt(j: Json, column: Column, tt: TimeText): Option<Value> {
    if j.JNull? then Some(Null)
    else
      match column
      case JsonColumn => Some(Document(j))
      case TimeColumn =>
        if !j.JText? then None
        else
          var t := tt.parse(j.s);
          if t.None? then None else Some(Time(t.value))
      case TextColumn => if j.JText? then Some(Text(j.s)) else None
      case IntColumn => if j.JNumber? then Some(Int(j.n)) else None
      case BoolColumn => if j.JBool? then Some(Bool(j.b)) else None
  }

  /** Adapting what was written gives the value back exactly when it is not a JSON document that is null. */
  lemma AdaptsBackExactlyWhen(v: Value, column: Column, tt: TimeText)
    requires ParsesBack(tt) && Fits(v, column)
    ensures Adapt(ToJson(v, tt), column, tt) == Some(v) <==> v != Document(JNull)
    ensures v == Document(JNull) ==> Adapt(ToJson(v, tt), column, tt) == Some(Null)
  {
  }

  // ---- rows and tables ----

  type Row = map<string, Value>

  type JsonRow = map<string, Json>

  /** key is the primary key column; a serial key is generated when an insert does not give it. */
  datatype Schema = Schema(columns: map<string, Column>, key: string, serial: bool)

  predicate ValidSchema(schema: Schema) {
    schema.key in schema.columns && (schema.serial ==> schema.columns[schema.key].IntColumn?)
  }

  /** next is the id the sequence of a serial table hands out next. */
  datatype Table = Table(schema: Schema, rows: map<Value, Row>, next: int)

  predicate RowFits(row: Row, schema: Schema) {
    && row.Keys == schema.columns.Keys
    && forall c :: c in row ==> Fits(row[c], schema.columns[c])
  }

  ghost predicate ValidTable(t: Table) {
    && ValidSchema(t.schema)
    && forall k :: k in t.rows ==> RowFits(t.rows[k], t.schema) && t.rows[k][t.schema.key] == k && !k.Null?
  }

  function RowToJson(row: Row, tt: TimeText): JsonRow {
    map c | c in row :: ToJson(row[c], tt)
  }

  predicate Adapts(row: JsonRow, schema: Schema, tt: TimeText) {
    && ValidSchema(schema)
    && row.Keys == schema.columns.Keys
    && (forall c :: c in row ==> Adapt(row[c], schema.columns[c], tt).Some?)
    && !row[schema.key].JNull?
  }

  function AdaptRow(row: JsonRow, schema: Schema, tt: TimeText): (r: Row)
    requires Adapts(row, schema, tt)
    ensures RowFits(r, schema) && !r[schema.key].Null?
  {
    map c | c in row :: Adapt(row[c], schema.columns[c], tt).value
  }

  predicate AllAdapt(rows: seq<JsonRow>, schema: Schema, tt: TimeText) {
    forall i :: 0 <= i < |rows| ==> Adapts(rows[i], schema, tt)
  }

  function AdaptRows(rows: seq<JsonRow>, schema: Schema, tt: TimeText): (r: seq<Row>)
    requires AllAdapt(rows, schema, tt)
    ensures |r| == |rows|
    ensures forall i :: 0 <= i < |r| ==> r[i] == AdaptRow(rows[i], schema, tt)
    ensures Keyed(r, schema.key)
  {
    seq(|rows|, i requires 0 <= i < |rows| => AdaptRow(rows[i], schema, tt))
  }

  // ---- inserts ----

  /** Every row brings its key. */
  ghost predicate Keyed(rows: seq<Row>, key: string) {
    forall i :: 0 <= i < |rows| ==> key in rows[i]
  }

  /** INSERT ... ON CONFLICT DO NOTHING */
  function Insert(m: map<Value, Row>, row: Row, key: string): map<Value, Row>
    requires key in row
  {
    if row[key] in m then m else m[row[key] := row]
  }

  function InsertAll(m: map<Value, Row>, rows: seq<Row>, key: string): map<Value, Row>
    requires Keyed(rows, key)
  {
    if rows == [] then m else Insert(InsertAll(m, rows[..|rows| - 1], key), rows[|rows| - 1], key)
  }

  /** The ids present in a serial table. */
  ghost function Ids(t: Table): set<int> {
    set k | k in t.rows && k.Int? :: k.n
  }

  /** The next generated id exceeds every id present. */
  ghost predicate Fresh(t: Table) {
    t.schema.serial ==> t.next >= 1 && forall k :: k in t.rows ==> k.Int? && k.n < t.next
  }

  /** m is what COALESCE(MAX(id), 1) evaluates to. */
  ghost predicate IsMaxOrOne(t: Table, m: int) {
    if Ids(t) == {} then m == 1 else m in Ids(t) && forall i :: i in Ids(t) ==> i <= m
  }

  lemma MaxIsUnique(t: Table, m1: int, m2: int)
    requires IsMaxOrOne(t, m1) && IsMaxOrOne(t, m2)
    ensures m1 == m2
  {
  }

  // ---- what inserting rows amounts to ----

  /** The first row that brings the key k. */
  ghost predicate FirstWithKey(rows: seq<Row>, key: string, k: Value, i: nat)
    requires Keyed(rows, key)
  {
    i < |rows| && rows[i][key] == k && forall j :: 0 <= j < i ==> rows[j][key] != k
  }

  ghost predicate HasKey(rows: seq<Row>, key: string, k: Value)
    requires Keyed(rows, key)
  {
    exists i :: 0 <= i < |rows| && rows[i][key] == k
  }

  /** A left-biased merge: existing rows stay, and of the new rows exactly the first of each absent key enters. */
  ghost predicate Merges(m: map<Value, Row>, rows: seq<Row>, key: string, r: map<Value, Row>)
    requires Keyed(rows, key)
  {
    && (forall k :: k in r <==> k in m || HasKey(rows, key, k))
    && (forall k :: k in m ==> k in r && r[k] == m[k])
    && (forall k, i: nat :: k !in m && FirstWithKey(rows, key, k, i) ==> k in r && r[k] == rows[i])
  }

  lemma {:induction false} InsertAllMerges(m: map<Value, Row>, rows: seq<Row>, key: string)
    requires Keyed(rows, key)
    ensures Merges(m, rows, key, InsertAll(m, rows, key))
  {
    if rows != [] {
      var front, last := rows[..|rows| - 1], rows[|rows| - 1];
      InsertAllMerges(m, front, key);
      forall k ensures HasKey(rows, key, k) <==> HasKey(front, key, k) || last[key] == k {
        HasKeySnoc(front, last, key, k);
        assert rows == front + [last];
      }
      forall k, i: nat | k !in m && FirstWithKey(rows, key, k, i)
        ensures k in InsertAll(m, rows, key) && InsertAll(m, rows, key)[k] == rows[i]
      {
        if i < |front| {
          assert FirstWithKey(front, key, k, i);
        } else {
          assert !HasKey(front, key, k);
        }
      }
    }
  }

  lemma HasKeySnoc(front: seq<Row>, last: Row, key: string, k: Value)
    requires Keyed(front, key) && key in last
    ensures Keyed(front + [last], key)
    ensures HasKey(front + [last], key, k) <==> HasKey(front, key, k) || last[key] == k
  {
    var rows := front + [last];
    if HasKey(front, key, k) {
      var i :| 0 <= i < |front| && front[i][key] == k;
      assert rows[i][key] == k;
    }
    if last[key] == k {
      assert rows[|front|][key] == k;
    }
  }

  /** Inserting rows whose keys are present changes nothing. */
  lemma {:induction false} InsertAgain(m: map<Value, Row>, rows: seq<Row>, key: string)
    requires Keyed(rows, key) && forall i :: 0 <= i < |rows| ==> rows[i][key] in m
    ensures InsertAll(m, rows, key) == m
  {
    if rows != [] {
      InsertAgain(m, rows[..|rows| - 1], key);
    }
  }

  lemma {:induction false} InsertAllKeepsValid(t: Table, rows: seq<Row>)
    requires ValidTable(t) && Keyed(rows, t.schema.key)
    requires forall i :: 0 <= i < |rows| ==> RowFits(rows[i], t.schema) && !rows[i][t.schema.key].Null?
    ensures ValidTable(t.(rows := InsertAll(t.rows, rows, t.schema.key)))
  {
    if rows != [] {
      InsertAllKeepsValid(t, rows[..|rows| - 1]);
    }
  }
}

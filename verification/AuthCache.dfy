/**
  The app cache in front of the auth endpoint. The cache hands out shared objects; most writers of the table clear
  it, one writes the row and the shared object together. Either way a cached answer is always the current row.
 */
module AuthCache {
  import opened Options
  import opened AppStatus

  datatype Row = Row(reason: string, status: Status, lastAccess: Option<int>)

  /** The object made from a row; everyone who asks for the app gets the same one. */
  class InstalledApp {
    const name: string
    const reason: string
    const status: Status
    var lastAccess: Option<int>

    constructor (name: string, row: Row)
      ensures this.name == name && Shows() == row
    {
      this.name, this.reason, this.status, this.lastAccess := name, row.reason, row.status, row.lastAccess;
    }

    function Shows(): Row
      reads this
    {
      Row(reason, status, lastAccess)
    }
  }

  datatype Op =
    | Request(name: string, now: int, granted: bool)
    | SetStatus(name: string, status: Status)
    | Install(name: string, reason: string)
    | Remove(name: string)

  // ---- the same service without a cache ----

  /** An access is written down unless the one on record is more recent than `freq`. */
  function Noted(row: Row, now: int, freq: int): Row {
    if row.lastAccess.Some? && now - row.lastAccess.value < freq then row else row.(lastAccess := Some(now))
  }

  function AfterOp(rows: map<string, Row>, op: Op, freq: int): map<string, Row> {
    match op
    case Request(n, now, granted) => if granted && n in rows then rows[n := Noted(rows[n], now, freq)] else rows
    case SetStatus(n, status) => if n in rows then rows[n := rows[n].(status := status)] else rows
    case Install(n, reason) => if n in rows then rows else rows[n := Row(reason, InstallationQueued, None)]
    case Remove(n) => rows - {n}
  }

  function AfterOps(rows: map<string, Row>, ops: seq<Op>, freq: int): map<string, Row> {
    if ops == [] then rows else AfterOp(AfterOps(rows, ops[..|ops| - 1], freq), ops[|ops| - 1], freq)
  }

  function RowOf(rows: map<string, Row>, n: string): Option<Row> {
    if n in rows then Some(rows[n]) else None
  }

  /** What reading the table at every request would answer, in order. */
  function Answers(rows: map<string, Row>, ops: seq<Op>, freq: int): seq<Option<Row>> {
    if ops == [] then []
    else
      var (before, op) := (ops[..|ops| - 1], ops[|ops| - 1]);
      Answers(rows, before, freq) + if op.Request? then [RowOf(AfterOps(rows, before, freq), op.name)] else []
  }

  // ---- how far the recorded access may lag behind ----

  /** When `n` was last used since it was installed, judged by the requests alone. */
  ghost function LastUse(rows: map<string, Row>, ops: seq<Op>, n: string, freq: int): Option<int> {
    if ops == [] then if n in rows then rows[n].lastAccess else None
    else
      var (before, op) := (ops[..|ops| - 1], ops[|ops| - 1]);
      if op == Remove(n) then None
      else if op.Request? && op.name == n && op.granted && n in AfterOps(rows, before, freq) then Some(op.now)
      else LastUse(rows, before, n, freq)
  }

  /** The clock never runs backwards, and no access on record is later than the first request. */
  ghost predicate Clocked(rows: map<string, Row>, ops: seq<Op>) {
    && (forall i, j :: 0 <= i < j < |ops| && ops[i].Request? && ops[j].Request? ==> ops[i].now <= ops[j].now)
    && (forall n, j :: n in rows && rows[n].lastAccess.Some? && 0 <= j < |ops| && ops[j].Request? ==>
          rows[n].lastAccess.value <= ops[j].now)
  }

  /** A last use is a granted request's time, or what was on record at the start. */
  lemma {:induction false} LastUseIsPast(rows: map<string, Row>, ops: seq<Op>, n: string, freq: int, now: int)
    requires n in rows && rows[n].lastAccess.Some? ==> rows[n].lastAccess.value <= now
    requires forall i :: 0 <= i < |ops| && ops[i].Request? ==> ops[i].now <= now
    ensures var u := LastUse(rows, ops, n, freq); u.Some? ==> u.value <= now
  {
    if ops != [] {
      LastUseIsPast(rows, ops[..|ops| - 1], n, freq, now);
    }
  }

  /**
    In every history, an installed app has an access on record exactly when it was used; the record is never ahead
    of the last use, and behind it by less than the update frequency. The idle rules thus err by at most that much.
   */
  lemma {:induction false} RecordLagsBoundedly(rows: map<string, Row>, ops: seq<Op>, n: string, freq: int)
    requires Clocked(rows, ops)
    ensures var after := AfterOps(rows, ops, freq); var use := LastUse(rows, ops, n, freq);
      if n in after then
        && (after[n].lastAccess.Some? <==> use.Some?)
        && (use.Some? ==> var rec := after[n].lastAccess.value; rec == use.value || 0 <= use.value - rec < freq)
      else
        use == None
  {
    if ops != [] {
      var (before, op) := (ops[..|ops| - 1], ops[|ops| - 1]);
      RecordLagsBoundedly(rows, before, n, freq);
      if op.Request? {
        LastUseIsPast(rows, before, n, freq, op.now);
      }
    }
  }

  // ---- what only the writers change ----

  /** The reason and the status of `n` as last written since it was installed; requests play no part. */
  ghost function LastWritten(rows: map<string, Row>, ops: seq<Op>, n: string): Option<(string, Status)> {
    if ops == [] then if n in rows then Some((rows[n].reason, rows[n].status)) else None
    else
      var op, written := ops[|ops| - 1], LastWritten(rows, ops[..|ops| - 1], n);
      if op == Remove(n) then None
      else if op.Install? && op.name == n && written.None? then Some((op.reason, InstallationQueued))
      else if op.SetStatus? && op.name == n && written.Some? then Some((written.value.0, op.status))
      else written
  }

  /** In every history, an app has a row exactly when it was written, with the reason and status written last. */
  lemma {:induction false} RowsAreLastWritten(rows: map<string, Row>, ops: seq<Op>, n: string, freq: int)
    ensures var after := AfterOps(rows, ops, freq);
      LastWritten(rows, ops, n) == if n in after then Some((after[n].reason, after[n].status)) else None
  {
    if ops != [] {
      RowsAreLastWritten(rows, ops[..|ops| - 1], n, freq);
    }
  }

  class Auth {
    var rows: map<string, Row>
    var cache: map<string, InstalledApp?>
    const maxUpdateFrequency: int

    ghost function Cached(): set<object>
      reads this
    {
      set n | n in cache && cache[n] != null :: cache[n]
    }

    /** A cached object shows the current row of its name; a cached absence is a missing row. */
    ghost predicate Current(n: string)
      requires n in cache
      reads this, Cached()
    {
      if n in rows then cache[n] != null && cache[n].name == n && cache[n].Shows() == rows[n] else cache[n] == null
    }

    ghost predicate Valid()
      reads this, Cached()
    {
      forall n :: n in cache ==> Current(n)
    }

    constructor (rows: map<string, Row>, maxUpdateFrequency: int)
      ensures Valid() && this.rows == rows && this.maxUpdateFrequency == maxUpdateFrequency && cache == map[]
    {
      this.rows, this.maxUpdateFrequency, this.cache := rows, maxUpdateFrequency, map[];
    }

    /** _find_app: whoever asks sees the current row, or learns that there is none. */
    method FindApp(n: string) returns (app: InstalledApp?)
      requires Valid()
      modifies this`cache
      ensures Valid() && n in cache && app == cache[n]
      ensures fresh(Cached() - old(Cached()))
      ensures app == null <==> n !in rows
      ensures app != null ==> app.name == n && app.Shows() == rows[n]
    {
      if n !in cache {
        if n in rows {
          var made := new InstalledApp(n, rows[n]);
          cache := cache[n := made];
        } else {
          cache := cache[n := null];
        }
      }
      app := cache[n];
    }

    /** The signal sent after a status, an insert or a delete has been written. */
    method Invalidate()
      modifies this`cache
      ensures cache == map[] && Valid()
    {
      cache := map[];
    }

    /** A status written by name; without a row the write is refused, and no signal is sent. */
    method UpdateStatus(n: string, status: Status)
      requires Valid()
      modifies this
      ensures Valid() && Cached() <= old(Cached())
      ensures rows == if n in old(rows) then old(rows)[n := old(rows)[n].(status := status)] else old(rows)
    {
      if n in rows {
        rows := rows[n := rows[n].(status := status)];
        Invalidate();
      }
    }

    method InsertApp(n: string, reason: string)
      requires Valid()
      modifies this
      ensures Valid() && Cached() <= old(Cached())
      ensures rows == if n in old(rows) then old(rows) else old(rows)[n := Row(reason, InstallationQueued, None)]
    {
      if n !in rows {
        rows := rows[n := Row(reason, InstallationQueued, None)];
        Invalidate();
      }
    }

    method RemoveApp(n: string)
      modifies this
      ensures Valid() && Cached() == {}
      ensures rows == old(rows) - {n}
    {
      rows := rows - {n};
      Invalidate();
    }

    /** update_last_access sends no signal: it writes the row, and the shared object with it. */
    method UpdateLastAccess(app: InstalledApp, now: int)
      requires Valid() && app.name in cache && cache[app.name] == app
      modifies this`rows, app`lastAccess
      ensures Valid() && app.name in rows && rows[app.name] == app.Shows()
      ensures var n := app.name; n in old(rows) && rows == old(rows)[n := Noted(old(rows)[n], now, maxUpdateFrequency)]
    {
      assert Current(app.name);
      if app.lastAccess.Some? && now - app.lastAccess.value < maxUpdateFrequency {
        return;
      }
      var n := app.name;
      rows := rows[n := rows[n].(lastAccess := Some(now))];
      app.lastAccess := Some(now);
      forall k | k in cache ensures Current(k) {
        if k != n && cache[k] != null {
          assert cache[k].name == k;
        }
      }
    }

    /** The auth endpoint for one app: unknown apps are refused, an access is noted only when it is granted. */
    method ServeRequest(n: string, now: int, granted: bool) returns (found: Option<Row>)
      requires Valid()
      modifies this, Cached()
      ensures Valid() && fresh(Cached() - old(Cached()))
      ensures found == RowOf(old(rows), n)
      ensures rows == AfterOp(old(rows), Request(n, now, granted), maxUpdateFrequency)
    {
      var app := FindApp(n);
      if app == null {
        return None;
      }
      found := Some(Row(app.reason, app.status, app.lastAccess));
      if granted {
        UpdateLastAccess(app, now);
      }
    }

    /**
      Whatever is requested and written in whatever order, every answer given from the cache is the one an uncached
      service would give at that moment, and the table ends up the same.
     */
    method Serve(ops: seq<Op>) returns (answers: seq<Option<Row>>)
      requires Valid()
      modifies this, Cached()
      ensures Valid()
      ensures rows == AfterOps(old(rows), ops, maxUpdateFrequency)
      ensures answers == Answers(old(rows), ops, maxUpdateFrequency)
    {
      answers := [];
      for i := 0 to |ops|
        invariant Valid() && fresh(Cached() - old(Cached()))
        invariant rows == AfterOps(old(rows), ops[..i], maxUpdateFrequency)
        invariant answers == Answers(old(rows), ops[..i], maxUpdateFrequency)
      {
        assert ops[..i + 1][..i] == ops[..i];
        match ops[i] {
          case Request(n, now, granted) =>
            var found := ServeRequest(n, now, granted);
            answers := answers + [found];
          case SetStatus(n, status) => UpdateStatus(n, status);
          case Install(n, reason) => InsertApp(n, reason);
          case Remove(n) => RemoveApp(n);
        }
      }
      assert ops[..|ops|] == ops;
    }
  }
}

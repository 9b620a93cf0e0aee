/**
  Monthly usage reports: the window of the last calendar month, the counts inside it, and the conservation of the
  counts over reports sent in consecutive months.
 */
module UsageReport {
  import opened Options

  // ---- the calendar ----

  datatype Date = Date(y: int, m: int, d: int)

  predicate IsLeap(y: int) {
    y % 4 == 0 && (y % 100 != 0 || y % 400 == 0)
  }

  function DaysInMonth(y: int, m: int): (n: int)
    ensures 28 <= n <= 31
  {
    if m == 2 then if IsLeap(y) then 29 else 28
    else if m == 4 || m == 6 || m == 9 || m == 11 then 30
    else 31
  }

  predicate ValidDate(x: Date) {
    x.y >= 1 && 1 <= x.m <= 12 && 1 <= x.d <= DaysInMonth(x.y, x.m)
  }

  function DaysBeforeYear(y: int): int {
    365 * (y - 1) + (y - 1) / 4 - (y - 1) / 100 + (y - 1) / 400
  }

  function DaysBeforeMonth(y: int, m: int): (n: int)
    requires 1 <= m <= 13
    ensures n >= 0
    decreases m
  {
    if m == 1 then 0 else DaysBeforeMonth(y, m - 1) + DaysInMonth(y, m - 1)
  }

  /** The proleptic Gregorian ordinal: day one is the first day of year one. */
  function Ordinal(x: Date): int
    requires ValidDate(x)
  {
    DaysBeforeYear(x.y) + DaysBeforeMonth(x.y, x.m) + x.d
  }

  /** A date one day back. */
  function PrevDay(x: Date): Date
    requires ValidDate(x) && x.y >= 2
  {
    if x.d > 1 then Date(x.y, x.m, x.d - 1)
    else if x.m > 1 then Date(x.y, x.m - 1, DaysInMonth(x.y, x.m - 1))
    else Date(x.y - 1, 12, 31)
  }

  /** date.replace(day=1) */
  function FirstOfMonth(x: Date): Date {
    x.(d := 1)
  }

  lemma YearLength(y: int)
    requires y >= 1
    ensures DaysBeforeMonth(y, 13) == if IsLeap(y) then 366 else 365
  {
    assert DaysBeforeMonth(y, 4) == 31 + DaysInMonth(y, 2) + 31;
    assert DaysBeforeMonth(y, 7) == DaysBeforeMonth(y, 4) + 30 + 31 + 30;
    assert DaysBeforeMonth(y, 10) == DaysBeforeMonth(y, 7) + 31 + 31 + 30;
    assert DaysBeforeMonth(y, 13) == DaysBeforeMonth(y, 10) + 31 + 30 + 31;
  }

  lemma DivSteps(y: int)
    ensures y / 4 == (y - 1) / 4 + if y % 4 == 0 then 1 else 0
    ensures y / 100 == (y - 1) / 100 + if y % 100 == 0 then 1 else 0
    ensures y / 400 == (y - 1) / 400 + if y % 400 == 0 then 1 else 0
  {
  }

  lemma FourHundreds(y: int)
    requires y % 400 == 0
    ensures y % 100 == 0
  {
  }

  lemma Hundreds(y: int)
    requires y % 100 == 0
    ensures y % 4 == 0
  {
  }

  /** The leap rule of the ordinal is the leap rule of the calendar. */
  lemma NextYear(y: int)
    requires y >= 1
    ensures DaysBeforeYear(y + 1) == DaysBeforeYear(y) + DaysBeforeMonth(y, 13)
  {
    YearLength(y);
    DivSteps(y);
    if y % 400 == 0 {
      FourHundreds(y);
    }
    if y % 100 == 0 {
      Hundreds(y);
    }
  }

  lemma LastMonth(y: int)
    requires y >= 1
    ensures DaysBeforeYear(y) + DaysBeforeMonth(y, 12) + 31 == DaysBeforeYear(y + 1)
  {
    NextYear(y);
    assert DaysBeforeMonth(y, 13) == DaysBeforeMonth(y, 12) + DaysInMonth(y, 12);
  }

  lemma MonthStep(y: int, m: int)
    requires 1 < m <= 13
    ensures DaysBeforeMonth(y, m) == DaysBeforeMonth(y, m - 1) + DaysInMonth(y, m - 1)
  {
  }

  lemma PrevDayInYear(x: Date)
    requires ValidDate(x) && x.y >= 2 && (x.d > 1 || x.m > 1)
    ensures ValidDate(PrevDay(x)) && PrevDay(x).y == x.y
    ensures DaysBeforeMonth(x.y, PrevDay(x).m) + PrevDay(x).d == DaysBeforeMonth(x.y, x.m) + x.d - 1
  {
    if x.d == 1 {
      MonthStep(x.y, x.m);
    }
  }

  lemma PrevDayInNewYear(x: Date)
    requires ValidDate(x) && x.y >= 2 && x.d == 1 && x.m == 1
    ensures PrevDay(x) == Date(x.y - 1, 12, 31) && ValidDate(PrevDay(x))
    ensures Ordinal(PrevDay(x)) == DaysBeforeYear(x.y)
  {
    LastMonth(x.y - 1);
  }

  /** Going back one day is subtracting one from the ordinal, across months, years and leap days. */
  lemma PrevDayIsOneLess(x: Date)
    requires ValidDate(x) && x.y >= 2
    ensures ValidDate(PrevDay(x)) && Ordinal(PrevDay(x)) == Ordinal(x) - 1
  {
    if x.d == 1 && x.m == 1 {
      PrevDayInNewYear(x);
    } else {
      PrevDayInYear(x);
    }
  }

  lemma {:induction false} MonthsGrow(y: int, m: int, n: int)
    requires 1 <= m <= n <= 13
    ensures DaysBeforeMonth(y, m) <= DaysBeforeMonth(y, n)
    ensures m < n ==> DaysBeforeMonth(y, m) + DaysInMonth(y, m) <= DaysBeforeMonth(y, n)
    decreases n
  {
    if m < n {
      MonthsGrow(y, m, n - 1);
    }
  }

  lemma {:induction false} YearsGrow(y: int, z: int)
    requires 1 <= y <= z
    ensures DaysBeforeYear(y) <= DaysBeforeYear(z)
    ensures y < z ==> DaysBeforeYear(y) + DaysBeforeMonth(y, 13) <= DaysBeforeYear(z)
    decreases z
  {
    if y < z {
      YearsGrow(y, z - 1);
      NextYear(z - 1);
    }
  }

  predicate Earlier(a: Date, b: Date) {
    a.y < b.y || (a.y == b.y && (a.m < b.m || (a.m == b.m && a.d < b.d)))
  }

  /** The ordinal orders dates as the calendar does. */
  lemma EarlierCountsLess(a: Date, b: Date)
    requires ValidDate(a) && ValidDate(b) && Earlier(a, b)
    ensures Ordinal(a) < Ordinal(b)
  {
    MonthsGrow(a.y, a.m, 13);
    if a.y < b.y {
      YearsGrow(a.y, b.y);
      assert a.m <= 12;
    } else if a.m < b.m {
      MonthsGrow(a.y, a.m, b.m);
    }
  }

  /** The day count orders exactly as the dates do, so that no two dates share a count. */
  lemma OrdinalOrders(a: Date, b: Date)
    requires ValidDate(a) && ValidDate(b)
    ensures Ordinal(a) < Ordinal(b) <==> Earlier(a, b)
  {
    if Earlier(a, b) {
      EarlierCountsLess(a, b);
    } else if Earlier(b, a) {
      EarlierCountsLess(b, a);
    } else {
      assert a == b;
    }
  }

  // ---- the window ----

  const DAY := 86_400_000_000

  /** datetime.combine(x, min time), in microseconds */
  function Midnight(x: Date): int
    requires ValidDate(x)
  {
    Ordinal(x) * DAY
  }

  /** The first day of the current month, and of the month before it. */
  function WindowEnd(today: Date): (x: Date)
    requires ValidDate(today)
    ensures ValidDate(x)
  {
    FirstOfMonth(today)
  }

  function WindowStart(today: Date): (x: Date)
    requires ValidDate(today) && today.y >= 2
    ensures ValidDate(x)
  {
    PrevDayIsOneLess(FirstOfMonth(today));
    FirstOfMonth(PrevDay(FirstOfMonth(today)))
  }

  function MonthIndex(x: Date): int {
    12 * x.y + x.m
  }

  /** The window is the calendar month before today's: from its first midnight to the next month's. */
  lemma WindowIsLastMonth(today: Date)
    requires ValidDate(today) && today.y >= 2
    ensures MonthIndex(WindowStart(today)) == MonthIndex(today) - 1 && WindowStart(today).d == 1
    ensures Ordinal(WindowEnd(today)) ==
      Ordinal(WindowStart(today)) + DaysInMonth(WindowStart(today).y, WindowStart(today).m)
  {
    var first := FirstOfMonth(today);
    PrevDayIsOneLess(first);
    assert PrevDay(first).d == DaysInMonth(PrevDay(first).y, PrevDay(first).m);
  }

  /** Windows of consecutive months abut: the end of one is the start of the next. */
  lemma WindowsAbut(today: Date, next: Date)
    requires ValidDate(today) && ValidDate(next) && today.y >= 2
    requires MonthIndex(next) == MonthIndex(today) + 1
    ensures next.y >= 2 && WindowStart(next) == WindowEnd(today)
  {
    WindowIsLastMonth(next);
    assert WindowStart(next).m - today.m == 12 * (today.y - WindowStart(next).y);
  }

  // ---- the report ----

  datatype Track = Track(time: int, apps: seq<string>)

  datatype Report = Report(year: int, month: int, usage: map<string, nat>)

  function Occurrences(apps: seq<string>, app: string): nat {
    if apps == [] then 0
    else Occurrences(apps[..|apps| - 1], app) + if apps[|apps| - 1] == app then 1 else 0
  }

  predicate InRange(t: Track, from: int, to: int) {
    from <= t.time < to
  }

  /** How often the app occurs in the tracks of a time range. */
  function Count(tracks: seq<Track>, app: string, from: int, to: int): nat {
    if tracks == [] then 0
    else
      Count(tracks[..|tracks| - 1], app, from, to)
      + if InRange(tracks[|tracks| - 1], from, to) then Occurrences(tracks[|tracks| - 1].apps, app) else 0
  }

  function UsageOf(usage: map<string, nat>, app: string): nat {
    if app in usage then usage[app] else 0
  }

  /** The time range a report covers. */
  datatype Window = Window(from: int, to: int)

  function WindowOf(today: Date): Window
    requires ValidDate(today) && today.y >= 2
  {
    Window(Midnight(WindowStart(today)), Midnight(WindowEnd(today)))
  }

  // ---- runs of tracks and reports ----

  /** A track of the installed apps, or a report, at a clock reading; today is the date the report goes by. */
  datatype Op =
    | Note(now: int, apps: seq<string>)
    | Send(now: int, today: Date)

  predicate ValidOp(op: Op) {
    op.Send? ==> ValidDate(op.today) && op.today.y >= 2
  }

  predicate ValidOps(ops: seq<Op>) {
    forall op :: op in ops ==> ValidOp(op)
  }

  /** The same, without the calendar. */
  datatype Step =
    | Tracked(track: Track)
    | Made(now: int, window: Window)

  function StepOf(op: Op): Step
    requires ValidOp(op)
  {
    match op
    case Note(now, apps) => Tracked(Track(now, apps))
    case Send(now, today) => Made(now, WindowOf(today))
  }

  function StepsOf(ops: seq<Op>): (steps: seq<Step>)
    requires ValidOps(ops)
    ensures |steps| == |ops| && forall i :: 0 <= i < |ops| ==> ops[i] in ops && steps[i] == StepOf(ops[i])
  {
    seq(|ops|, i requires 0 <= i < |ops| => assert ops[i] in ops; StepOf(ops[i]))
  }

  function After(tracks: seq<Track>, steps: seq<Step>): seq<Track> {
    if steps == [] then tracks
    else
      var (before, step) := (After(tracks, steps[..|steps| - 1]), steps[|steps| - 1]);
      if step.Tracked? then before + [step.track] else before
  }

  /** The windows of the reports made. */
  function Windows(steps: seq<Step>): seq<Window> {
    if steps == [] then []
    else
      var step := steps[|steps| - 1];
      Windows(steps[..|steps| - 1]) + if step.Made? then [step.window] else []
  }

  function TotalUsage(reports: seq<Option<Report>>, app: string): nat {
    if reports == [] then 0
    else
      var last := reports[|reports| - 1];
      TotalUsage(reports[..|reports| - 1], app) + if last.Some? then UsageOf(last.value.usage, app) else 0
  }

  /** The counts of all reports of a run, each made from the tracks that were there at its time. */
  function RunUsage(tracks: seq<Track>, steps: seq<Step>, app: string): nat {
    if steps == [] then 0
    else
      var (front, step) := (steps[..|steps| - 1], steps[|steps| - 1]);
      RunUsage(tracks, front, app)
      + if step.Made? then Count(After(tracks, front), app, step.window.from, step.window.to) else 0
  }

  class Reporter {
    var tracks: seq<Track>

    constructor ()
      ensures tracks == []
    {
      tracks := [];
    }

    /** track_currently_installed_apps */
    method TrackApps(now: int, apps: seq<string>)
      modifies this`tracks
      ensures tracks == old(tracks) + [Track(now, apps)]
    {
      tracks := tracks + [Track(now, apps)];
    }

    /** WHERE timestamp >= start AND timestamp < end */
    method SearchByTimeRange(from: int, to: int) returns (found: seq<Track>)
      ensures forall t :: t in found <==> t in tracks && InRange(t, from, to)
      ensures forall t :: multiset(found)[t] == if InRange(t, from, to) then multiset(tracks)[t] else 0
      ensures forall app :: Count(found, app, from, to) == Count(tracks, app, from, to)
    {
      found := [];
      for i := 0 to |tracks|
        invariant forall t :: t in found <==> t in tracks[..i] && InRange(t, from, to)
        invariant forall t :: multiset(found)[t] == if InRange(t, from, to) then multiset(tracks[..i])[t] else 0
        invariant forall app :: Count(found, app, from, to) == Count(tracks[..i], app, from, to)
      {
        assert tracks[..i + 1] == tracks[..i] + [tracks[i]];
        assert tracks[..i + 1][..i] == tracks[..i];
        if InRange(tracks[i], from, to) {
          var longer := found + [tracks[i]];
          assert longer[..|found|] == found;
          found := longer;
        }
      }
      assert tracks[..|tracks|] == tracks;
    }

    /** The report of the last calendar month; none when nothing was tracked in it. */
    method ReportAppUsage(today: Date) returns (report: Option<Report>)
      requires ValidDate(today) && today.y >= 2
      ensures var from, to := Midnight(WindowStart(today)), Midnight(WindowEnd(today));
        && (report.None? <==> forall t :: t in tracks ==> !InRange(t, from, to))
        && (report.None? ==> forall app :: Count(tracks, app, from, to) == 0)
        && (report.Some? ==>
              && MonthIndex(Date(report.value.year, report.value.month, 1)) == MonthIndex(today) - 1
              && (forall app :: UsageOf(report.value.usage, app) == Count(tracks, app, from, to))
              && (forall app :: app in report.value.usage <==> Count(tracks, app, from, to) > 0))
    {
      var start, end := WindowStart(today), WindowEnd(today);
      WindowIsLastMonth(today);
      var from, to := Midnight(start), Midnight(end);
      var relevant := SearchByTimeRange(from, to);
      if relevant == [] {
        forall app ensures Count(tracks, app, from, to) == 0 {
          assert Count(relevant, app, from, to) == 0;
        }
        return None;
      }
      assert relevant[0] in relevant;
      var usage := CountUsage(relevant, from, to);
      report := Some(Report(start.y, start.m, usage));
    }

    method CountUsage(relevant: seq<Track>, ghost from: int, ghost to: int) returns (usage: map<string, nat>)
      requires forall t :: t in relevant ==> InRange(t, from, to)
      ensures forall app :: UsageOf(usage, app) == Count(relevant, app, from, to)
      ensures forall app :: app in usage ==> usage[app] > 0
    {
      usage := map[];
      for i := 0 to |relevant|
        invariant forall app :: UsageOf(usage, app) == Count(relevant[..i], app, from, to)
        invariant forall app :: app in usage ==> usage[app] > 0
      {
        ghost var before := relevant[..i];
        var t := relevant[i];
        assert t in relevant;
        for j := 0 to |t.apps|
          invariant forall app ::
            UsageOf(usage, app) == Count(before, app, from, to) + Occurrences(t.apps[..j], app)
          invariant forall app :: app in usage ==> usage[app] > 0
        {
          var app := t.apps[j];
          assert t.apps[..j + 1][..j] == t.apps[..j];
          if app !in usage {
            usage := usage[app := 0];
          }
          usage := usage[app := usage[app] + 1];
        }
        assert t.apps[..|t.apps|] == t.apps;
        assert relevant[..i + 1][..i] == before;
      }
      assert relevant[..|relevant|] == relevant;
    }

    /** Tracks and reports in the order in which they are made; the result of each report. */
    method Run(ops: seq<Op>) returns (reports: seq<Option<Report>>)
      requires ValidOps(ops)
      modifies this`tracks
      ensures tracks == After(old(tracks), StepsOf(ops))
      ensures |reports| == |Windows(StepsOf(ops))|
      ensures forall app :: TotalUsage(reports, app) == RunUsage(old(tracks), StepsOf(ops), app)
    {
      reports := [];
      ghost var steps := StepsOf(ops);
      for i := 0 to |ops|
        invariant tracks == After(old(tracks), steps[..i])
        invariant |reports| == |Windows(steps[..i])|
        invariant forall app :: TotalUsage(reports, app) == RunUsage(old(tracks), steps[..i], app)
      {
        assert steps[..i + 1][..i] == steps[..i] && steps[i] == StepOf(ops[i]) && ops[i] in ops;
        match ops[i] {
          case Note(now, apps) => TrackApps(now, apps);
          case Send(_, today) =>
            var report := ReportAppUsage(today);
            ghost var before := reports;
            reports := reports + [report];
            assert reports[..|reports| - 1] == before;
        }
      }
      assert steps[..|ops|] == steps;
    }
  }

  // ---- conservation ----

  /** Counts of adjacent ranges add up. */
  lemma {:induction false} CountSplits(tracks: seq<Track>, app: string, from: int, mid: int, to: int)
    requires from <= mid <= to
    ensures Count(tracks, app, from, to) == Count(tracks, app, from, mid) + Count(tracks, app, mid, to)
  {
    if tracks != [] {
      CountSplits(tracks[..|tracks| - 1], app, from, mid, to);
    }
  }

  /** Reports run once in every month of a stretch of months. */
  ghost predicate ConsecutiveMonths(days: seq<Date>) {
    && (forall i :: 0 <= i < |days| ==> ValidDate(days[i]) && days[i].y >= 2)
    && (forall i, j :: 0 <= i < j < |days| && j == i + 1 ==> MonthIndex(days[j]) == MonthIndex(days[i]) + 1)
  }

  function WindowsOf(days: seq<Date>): (ws: seq<Window>)
    requires forall i :: 0 <= i < |days| ==> ValidDate(days[i]) && days[i].y >= 2
    ensures |ws| == |days| && forall i :: 0 <= i < |days| ==> ws[i] == WindowOf(days[i])
  {
    seq(|days|, i requires 0 <= i < |days| => WindowOf(days[i]))
  }

  ghost predicate Abutting(ws: seq<Window>) {
    && (forall i :: 0 <= i < |ws| ==> ws[i].from < ws[i].to)
    && (forall i, j :: 0 <= i < j < |ws| && j == i + 1 ==> ws[j].from == ws[i].to)
  }

  /** The windows of consecutive months follow each other without gap or overlap. */
  lemma ConsecutiveMonthsAbut(days: seq<Date>)
    requires ConsecutiveMonths(days)
    ensures Abutting(WindowsOf(days))
  {
    var ws := WindowsOf(days);
    forall i | 0 <= i < |ws| ensures ws[i].from < ws[i].to {
      WindowIsLastMonth(days[i]);
    }
    forall i, j | 0 <= i < j < |ws| && j == i + 1 ensures ws[j].from == ws[i].to {
      WindowsAbut(days[i], days[j]);
    }
  }

  /** The counts of all reports, added up. */
  function Reported(tracks: seq<Track>, app: string, ws: seq<Window>): nat {
    if ws == [] then 0
    else Reported(tracks, app, ws[..|ws| - 1]) + Count(tracks, app, ws[|ws| - 1].from, ws[|ws| - 1].to)
  }

  lemma {:induction false} StretchIsForward(ws: seq<Window>)
    requires Abutting(ws) && ws != []
    ensures ws[0].from < ws[|ws| - 1].to
  {
    if |ws| > 1 {
      var last := |ws| - 1;
      StretchIsForward(ws[..last]);
      assert ws[last].from == ws[last - 1].to;
    }
  }

  lemma {:induction false} AbuttingCounts(tracks: seq<Track>, app: string, ws: seq<Window>)
    requires Abutting(ws) && ws != []
    ensures Reported(tracks, app, ws) == Count(tracks, app, ws[0].from, ws[|ws| - 1].to)
  {
    var front, last := ws[..|ws| - 1], ws[|ws| - 1];
    if front == [] {
      assert Reported(tracks, app, front) == 0;
    } else {
      AbuttingCounts(tracks, app, front);
      StretchIsForward(front);
      assert last.from == front[|front| - 1].to;
      CountSplits(tracks, app, ws[0].from, last.from, last.to);
    }
  }

  /** From the start of the first window to the end of the last. */
  function SpanOf(ws: seq<Window>): Window
    requires ws != []
  {
    Window(ws[0].from, ws[|ws| - 1].to)
  }

  /** Nothing is lost and nothing counted twice: the reports add up to all occurrences in the covered span. */
  lemma UsageIsConserved(tracks: seq<Track>, app: string, days: seq<Date>, ws: seq<Window>)
    requires ConsecutiveMonths(days) && days != [] && ws == WindowsOf(days)
    ensures Reported(tracks, app, ws) == Count(tracks, app, SpanOf(ws).from, SpanOf(ws).to)
  {
    ConsecutiveMonthsAbut(days);
    AbuttingCounts(tracks, app, ws);
  }

  predicate Contains(w: Window, time: int) {
    w.from <= time < w.to
  }

  lemma {:induction false} LaterWindow(ws: seq<Window>, i: nat, j: nat)
    requires Abutting(ws) && i < j < |ws|
    ensures ws[i].to <= ws[j].from
    decreases j
  {
    assert ws[j].from == ws[j - 1].to;
    if i < j - 1 {
      LaterWindow(ws, i, j - 1);
    }
  }

  lemma ExactlyOneWindow(ws: seq<Window>, time: int) returns (i: nat)
    requires Abutting(ws) && ws != [] && ws[0].from <= time < ws[|ws| - 1].to
    ensures i < |ws| && Contains(ws[i], time)
    ensures forall j :: 0 <= j < |ws| && Contains(ws[j], time) ==> j == i
  {
    i := |ws| - 1;
    while time < ws[i].from
      invariant i < |ws| && time < ws[i].to
      decreases i
    {
      assert ws[i].from == ws[i - 1].to;
      i := i - 1;
    }
    forall j: nat | j < |ws| && Contains(ws[j], time) ensures j == i {
      if j < i {
        LaterWindow(ws, j, i);
      } else if i < j {
        LaterWindow(ws, i, j);
      }
    }
  }

  /** A track of the covered span falls into the window of exactly one report. */
  lemma ExactlyOneReport(days: seq<Date>, time: int) returns (i: nat)
    requires ConsecutiveMonths(days) && days != []
    requires Contains(SpanOf(WindowsOf(days)), time)
    ensures i < |days| && Contains(WindowsOf(days)[i], time)
    ensures forall j :: 0 <= j < |days| && Contains(WindowsOf(days)[j], time) ==> j == i
  {
    ConsecutiveMonthsAbut(days);
    i := ExactlyOneWindow(WindowsOf(days), time);
  }

  // ---- conservation over runs ----

  /** How many of the windows contain the time. */
  function Containing(ws: seq<Window>, time: int): nat {
    if ws == [] then 0 else Containing(ws[..|ws| - 1], time) + if Contains(ws[|ws| - 1], time) then 1 else 0
  }

  function TimesOver(k: nat, n: nat): nat {
    if k == 0 then 0 else n + TimesOver(k - 1, n)
  }

  /** What is tracked too late: its time lies in the window of a report that has been made. */
  function LateUsage(steps: seq<Step>, app: string): nat {
    if steps == [] then 0
    else
      var (front, step) := (steps[..|steps| - 1], steps[|steps| - 1]);
      LateUsage(front, app)
      + if step.Tracked?
        then TimesOver(Containing(Windows(front), step.track.time), Occurrences(step.track.apps, app))
        else 0
  }

  lemma {:induction false} ReportedTrack(tracks: seq<Track>, t: Track, app: string, ws: seq<Window>)
    ensures Reported(tracks + [t], app, ws) ==
      Reported(tracks, app, ws) + TimesOver(Containing(ws, t.time), Occurrences(t.apps, app))
  {
    if ws != [] {
      ReportedTrack(tracks, t, app, ws[..|ws| - 1]);
      assert (tracks + [t])[..|tracks|] == tracks;
    }
  }

  lemma ReportedWindow(tracks: seq<Track>, app: string, ws: seq<Window>, w: Window)
    ensures Reported(tracks, app, ws + [w]) == Reported(tracks, app, ws) + Count(tracks, app, w.from, w.to)
  {
    assert (ws + [w])[..|ws|] == ws;
  }

  /** What the final table holds of the windows is what was reported and what was tracked too late. */
  lemma {:induction false} RunMissesLateUsage(tracks: seq<Track>, steps: seq<Step>, app: string)
    ensures Reported(After(tracks, steps), app, Windows(steps)) == RunUsage(tracks, steps, app) + LateUsage(steps, app)
  {
    if steps != [] {
      var front, step := steps[..|steps| - 1], steps[|steps| - 1];
      RunMissesLateUsage(tracks, front, app);
      if step.Tracked? {
        assert Windows(steps) == Windows(front);
        ReportedTrack(After(tracks, front), step.track, app, Windows(front));
      } else {
        ReportedWindow(After(tracks, front), app, Windows(front), step.window);
      }
    }
  }

  /** The dates of the reports. */
  function DaysOf(ops: seq<Op>): (days: seq<Date>)
    requires ValidOps(ops)
    ensures forall i :: 0 <= i < |days| ==> ValidDate(days[i]) && days[i].y >= 2
  {
    if ops == [] then []
    else
      var op := ops[|ops| - 1];
      assert op in ops && ValidOp(op);
      DaysOf(ops[..|ops| - 1]) + if op.Send? then [op.today] else []
  }

  lemma {:induction false} WindowsAreOfDays(ops: seq<Op>)
    requires ValidOps(ops)
    ensures Windows(StepsOf(ops)) == WindowsOf(DaysOf(ops))
  {
    if ops != [] {
      var front, op := ops[..|ops| - 1], ops[|ops| - 1];
      WindowsAreOfDays(front);
      assert op in ops && ValidOp(op);
      assert StepsOf(ops)[..|front|] == StepsOf(front);
      assert op.Send? ==> WindowsOf(DaysOf(ops)) == WindowsOf(DaysOf(front)) + [WindowOf(op.today)];
    }
  }

  /**
    With one report in each month of a stretch, the reports of a run add up to all occurrences the final table holds
    in the covered span exactly when nothing was tracked too late.
   */
  lemma RunIsConservedExactlyWhen(tracks: seq<Track>, ops: seq<Op>, app: string)
    requires ValidOps(ops) && ConsecutiveMonths(DaysOf(ops)) && DaysOf(ops) != []
    ensures var span, steps := SpanOf(WindowsOf(DaysOf(ops))), StepsOf(ops);
      (RunUsage(tracks, steps, app) == Count(After(tracks, steps), app, span.from, span.to))
      <==> LateUsage(steps, app) == 0
  {
    RunMissesLateUsage(tracks, StepsOf(ops), app);
    WindowsAreOfDays(ops);
    UsageIsConserved(After(tracks, StepsOf(ops)), app, DaysOf(ops), WindowsOf(DaysOf(ops)));
  }

  function Reading(step: Step): int {
    match step
    case Tracked(t) => t.time
    case Made(now, _) => now
  }

  /** The clock never runs backwards, and a report is made after its window has ended. */
  ghost predicate InOrder(steps: seq<Step>) {
    && (forall i, j :: 0 <= i < j < |steps| ==> Reading(steps[i]) <= Reading(steps[j]))
    && (forall i :: 0 <= i < |steps| && steps[i].Made? ==> steps[i].window.to <= steps[i].now)
  }

  lemma {:induction false} ReportedMonthsArePast(steps: seq<Step>, time: int)
    requires InOrder(steps) && forall i :: 0 <= i < |steps| ==> Reading(steps[i]) <= time
    ensures Containing(Windows(steps), time) == 0
  {
    if steps != [] {
      var front, step := steps[..|steps| - 1], steps[|steps| - 1];
      ReportedMonthsArePast(front, time);
      var ws := Windows(front);
      assert step.Tracked? ==> Windows(steps) == ws;
      assert step.Made? ==> Windows(steps) == ws + [step.window] && (ws + [step.window])[..|ws|] == ws;
    }
  }

  /** In that order nothing is tracked too late. */
  lemma {:induction false} NothingIsLate(steps: seq<Step>, app: string)
    requires InOrder(steps)
    ensures LateUsage(steps, app) == 0
  {
    if steps != [] {
      var front := steps[..|steps| - 1];
      NothingIsLate(front, app);
      ReportedMonthsArePast(front, Reading(steps[|steps| - 1]));
    }
  }

  /** The clock never runs backwards, and a report goes by a date that has begun. */
  ghost predicate Clocked(ops: seq<Op>) {
    && (forall i, j :: 0 <= i < j < |ops| ==> ops[i].now <= ops[j].now)
    && (forall i :: 0 <= i < |ops| && ops[i].Send? && ValidDate(ops[i].today) ==> Midnight(ops[i].today) <= ops[i].now)
  }

  lemma WindowIsPast(op: Op)
    requires op.Send? && ValidOp(op) && Midnight(op.today) <= op.now
    ensures StepOf(op).window.to <= op.now
  {
  }

  lemma ClockedIsInOrder(ops: seq<Op>)
    requires ValidOps(ops) && Clocked(ops)
    ensures InOrder(StepsOf(ops))
  {
    var steps := StepsOf(ops);
    forall i | 0 <= i < |steps| ensures Reading(steps[i]) == ops[i].now {}
    forall i | 0 <= i < |steps| && steps[i].Made? ensures steps[i].window.to <= steps[i].now {
      assert ops[i] in ops && ValidOp(ops[i]);
      WindowIsPast(ops[i]);
    }
  }

  /** With such a clock, and one report a month, the reports of every run add up. */
  lemma RunIsConserved(tracks: seq<Track>, ops: seq<Op>, app: string)
    requires ValidOps(ops) && ConsecutiveMonths(DaysOf(ops)) && DaysOf(ops) != [] && Clocked(ops)
    ensures var span, steps := SpanOf(WindowsOf(DaysOf(ops))), StepsOf(ops);
      RunUsage(tracks, steps, app) == Count(After(tracks, steps), app, span.from, span.to)
  {
    RunIsConservedExactlyWhen(tracks, ops, app);
    ClockedIsInOrder(ops);
    NothingIsLate(StepsOf(ops), app);
  }
}

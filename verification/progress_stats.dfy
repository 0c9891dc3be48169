/**
 * The statistics panel of a journey: completion records are grouped by date and
 * task, every elapsed day that has records gets a status, and the statuses are
 * counted and scanned backwards for streaks.
 */
module ProgressStats {
  import opened Wrappers
  import opened Calendar
  import opened Records

  /** One row of the completions query: `completion_date, status, daily_task_id`. */
  datatype CompletionRow = CompletionRow(completionDate: int, status: Status, dailyTaskId: TaskId)

  /** The entry pushed onto `dayStatuses` for a day that has records. */
  datatype DayStatus = DayStatus(date: int, isComplete: bool, hasFailed: bool)

  /** The numbers the panel shows. `daysElapsed` may be negative, as in the component. */
  datatype Stats = Stats(
    daysCompleted: int,
    daysFailed: int,
    currentStreak: int,
    longestStreak: int,
    completionRate: int,
    daysElapsed: int)

  const InitialStats := Stats(0, 0, 0, 0, 0, 0)

  /** The statuses recorded on one date, keyed by task. */
  type DayCompletions = map<TaskId, Status>

  /** `completionsByDate`: date -> task -> status. */
  type CompletionsByDate = map<int, DayCompletions>

  function Min(a: int, b: int): int { if a <= b then a else b }

  function Max(a: int, b: int): int { if a >= b then a else b }

  // ---------------------------------------------------------------------------
  // Grouping the records by date, then by task
  // ---------------------------------------------------------------------------

  /** The effect of one `forEach` step on the grouping map. */
  function Put(byDate: CompletionsByDate, c: CompletionRow): CompletionsByDate
  {
    var day := if c.completionDate in byDate then byDate[c.completionDate] else map[];
    byDate[c.completionDate := day[c.dailyTaskId := c.status]]
  }

  /** The grouping map after visiting `rows` in order. */
  function Grouped(rows: seq<CompletionRow>): CompletionsByDate
  {
    if rows == [] then map[] else Put(Grouped(rows[..|rows| - 1]), rows[|rows| - 1])
  }

  /** Some row records task `t` on date `d`. */
  ghost predicate HasRow(rows: seq<CompletionRow>, d: int, t: TaskId)
  {
    exists i :: 0 <= i < |rows| && rows[i].completionDate == d && rows[i].dailyTaskId == t
  }

  /** Row `i` is the last one for its (date, task) pair. */
  ghost predicate IsLastFor(rows: seq<CompletionRow>, i: int)
  {
    && 0 <= i < |rows|
    && forall j :: i < j < |rows| ==>
         !(rows[j].completionDate == rows[i].completionDate && rows[j].dailyTaskId == rows[i].dailyTaskId)
  }

  /** The grouping has an entry for a date exactly when some row carries that date. */
  lemma {:induction false} GroupedDates(rows: seq<CompletionRow>)
    ensures forall d :: d in Grouped(rows) <==> exists i :: 0 <= i < |rows| && rows[i].completionDate == d
  {
    if rows != [] {
      var init := rows[..|rows| - 1];
      var c := rows[|rows| - 1];
      GroupedDates(init);
      var g := Grouped(rows);
      assert g == Put(Grouped(init), c);
      forall d
        ensures d in g <==> exists i :: 0 <= i < |rows| && rows[i].completionDate == d
      {
        if d in g && d != c.completionDate {
          var i :| 0 <= i < |init| && init[i].completionDate == d;
          assert rows[i].completionDate == d;
        }
        if d == c.completionDate {
          assert rows[|rows| - 1].completionDate == d;
        } else if exists i :: 0 <= i < |rows| && rows[i].completionDate == d {
          var i :| 0 <= i < |rows| && rows[i].completionDate == d;
          assert init[i].completionDate == d;
        }
      }
    }
  }

  /** Under each date, the grouping has a task exactly when some row records that (date, task) pair. */
  lemma {:induction false} GroupedTasks(rows: seq<CompletionRow>)
    ensures forall d, t :: d in Grouped(rows) ==> (t in Grouped(rows)[d] <==> HasRow(rows, d, t))
  {
    if rows != [] {
      var init := rows[..|rows| - 1];
      var c := rows[|rows| - 1];
      GroupedTasks(init);
      GroupedDates(init);
      var g := Grouped(rows);
      assert g == Put(Grouped(init), c);
      forall d, t | d in g
        ensures t in g[d] <==> HasRow(rows, d, t)
      {
        if d == c.completionDate && t == c.dailyTaskId {
          assert rows[|rows| - 1].completionDate == d && rows[|rows| - 1].dailyTaskId == t;
        } else if t in g[d] {
          assert HasRow(init, d, t);
          var i :| 0 <= i < |init| && init[i].completionDate == d && init[i].dailyTaskId == t;
          assert rows[i].completionDate == d && rows[i].dailyTaskId == t;
        }
      }
    }
  }

  /** For each (date, task) pair the grouping holds the status of the LAST row recording it. */
  lemma {:induction false} GroupedLastRecordWins(rows: seq<CompletionRow>)
    ensures forall i :: IsLastFor(rows, i) ==>
              && rows[i].completionDate in Grouped(rows)
              && rows[i].dailyTaskId in Grouped(rows)[rows[i].completionDate]
              && Grouped(rows)[rows[i].completionDate][rows[i].dailyTaskId] == rows[i].status
  {
    if rows != [] {
      var init := rows[..|rows| - 1];
      GroupedLastRecordWins(init);
      var g := Grouped(rows);
      forall i | IsLastFor(rows, i)
        ensures && rows[i].completionDate in g
                && rows[i].dailyTaskId in g[rows[i].completionDate]
                && g[rows[i].completionDate][rows[i].dailyTaskId] == rows[i].status
      {
        if i < |init| {
          assert IsLastFor(init, i);
        }
      }
    }
  }

  /** The `forEach` over the rows that fills `completionsByDate`. */
  method GroupCompletions(rows: seq<CompletionRow>) returns (completionsByDate: CompletionsByDate)
    ensures completionsByDate == Grouped(rows)
  {
    completionsByDate := map[];
    for i := 0 to |rows|
      invariant completionsByDate == Grouped(rows[..i])
    {
      var c := rows[i];
      if c.completionDate !in completionsByDate {
        completionsByDate := completionsByDate[c.completionDate := map[]];
      }
      completionsByDate := completionsByDate[c.completionDate :=
        completionsByDate[c.completionDate][c.dailyTaskId := c.status]];
      assert rows[..i + 1][..i] == rows[..i];
    }
    assert rows[..|rows|] == rows;
  }

  // ---------------------------------------------------------------------------
  // Elapsed days and the status of each day
  // ---------------------------------------------------------------------------

  /**
   * `Math.min(Math.floor((now - start) / day) + 1, durationDays)`: capped above by the
   * duration, not clamped below: 0 on the day before the start, negative on earlier days.
   */
  function DaysElapsed(startDate: int, durationDays: int, now: Instant): (n: int)
    ensures n <= durationDays && n <= now.day - startDate + 1
    ensures n == durationDays || n == now.day - startDate + 1
  {
    Min(WholeDaysSince(now, startDate) + 1, durationDays)
  }

  /** Before the start: 0 on the day before it, and one less for each earlier day. */
  lemma DaysElapsedBeforeStart(startDate: int, durationDays: int, now: Instant)
    requires durationDays >= 1 && now.day < startDate
    ensures DaysElapsed(startDate, durationDays, now) == now.day - startDate + 1
    ensures now.day == startDate - 1 ==> DaysElapsed(startDate, durationDays, now) == 0
    ensures now.day < startDate - 1 ==> DaysElapsed(startDate, durationDays, now) < 0
  {
  }

  /** `tasks.every(task => dayCompletions.get(task.id) === 'completed')`. */
  predicate AllCompleted(tasks: seq<TaskId>, day: DayCompletions)
  {
    forall k :: 0 <= k < |tasks| ==> tasks[k] in day && day[tasks[k]] == Completed
  }

  /** Some status recorded that day, for any task, is 'failed'. */
  predicate AnyFailed(day: DayCompletions)
  {
    exists t :: t in day && day[t] == Failed
  }

  /** The entry for a day that has records. */
  function Classify(date: int, tasks: seq<TaskId>, day: DayCompletions): (s: DayStatus)
    ensures s.date == date
    ensures s.hasFailed <==> Failed in day.Values
    ensures s.isComplete <==> AllCompleted(tasks, day) && Failed !in day.Values
  {
    var anyFailed := AnyFailed(day);
    assert anyFailed <==> Failed in day.Values by {
      if Failed in day.Values {
        var t :| t in day && day[t] == Failed;
      }
    }
    DayStatus(date, AllCompleted(tasks, day) && !anyFailed, anyFailed)
  }

  /** `dayStatuses` after the first `n` iterations of the loop over elapsed days. */
  function DayStatuses(tasks: seq<TaskId>, byDate: CompletionsByDate, start: int, n: int): seq<DayStatus>
    decreases n
  {
    if n <= 0 then []
    else
      var date := start + n - 1;
      DayStatuses(tasks, byDate, start, n - 1)
      + (if date in byDate then [Classify(date, tasks, byDate[date])] else [])
  }

  /**
   * One entry per elapsed day that has records, in increasing date order, each
   * classified from that day's records; no entry is both complete and failed.
   */
  lemma {:induction false} DayStatusesShape(tasks: seq<TaskId>, byDate: CompletionsByDate, start: int, n: int)
    ensures |DayStatuses(tasks, byDate, start, n)| <= Max(n, 0)
    ensures forall k :: 0 <= k < |DayStatuses(tasks, byDate, start, n)| ==>
              var s := DayStatuses(tasks, byDate, start, n)[k];
              start <= s.date < start + n && s.date in byDate && s == Classify(s.date, tasks, byDate[s.date])
    ensures forall k, l :: 0 <= k < l < |DayStatuses(tasks, byDate, start, n)| ==>
              DayStatuses(tasks, byDate, start, n)[k].date < DayStatuses(tasks, byDate, start, n)[l].date
    ensures forall d :: start <= d < start + n && d in byDate ==>
              exists k :: 0 <= k < |DayStatuses(tasks, byDate, start, n)| && DayStatuses(tasks, byDate, start, n)[k].date == d
    ensures forall k :: 0 <= k < |DayStatuses(tasks, byDate, start, n)| ==>
              !(DayStatuses(tasks, byDate, start, n)[k].isComplete && DayStatuses(tasks, byDate, start, n)[k].hasFailed)
    decreases n
  {
    if n > 0 {
      DayStatusesShape(tasks, byDate, start, n - 1);
      var prev := DayStatuses(tasks, byDate, start, n - 1);
      var ds := DayStatuses(tasks, byDate, start, n);
      var date := start + n - 1;
      assert forall k :: 0 <= k < |prev| ==> ds[k] == prev[k];
      forall d | start <= d < start + n && d in byDate
        ensures exists k :: 0 <= k < |ds| && ds[k].date == d
      {
        if d == date {
          assert ds[|ds| - 1].date == d;
        } else {
          var k :| 0 <= k < |prev| && prev[k].date == d;
          assert ds[k].date == d;
        }
      }
    }
  }

  /** The `for` loop over the elapsed days that pushes onto `dayStatuses`. */
  method BuildDayStatuses(tasks: seq<TaskId>, completionsByDate: CompletionsByDate, start: int, daysElapsed: int)
    returns (dayStatuses: seq<DayStatus>)
    ensures dayStatuses == DayStatuses(tasks, completionsByDate, start, daysElapsed)
  {
    dayStatuses := [];
    var i := 0;
    while i < daysElapsed
      invariant 0 <= i && (i <= daysElapsed || i == 0)
      invariant dayStatuses == DayStatuses(tasks, completionsByDate, start, i)
    {
      var date := start + i;
      if date in completionsByDate {
        var dayCompletions := completionsByDate[date];
        var allCompleted := AllCompleted(tasks, dayCompletions);
        var anyFailed := AnyFailed(dayCompletions);
        dayStatuses := dayStatuses + [DayStatus(date, allCompleted && !anyFailed, anyFailed)];
      }
      i := i + 1;
    }
  }

  // ---------------------------------------------------------------------------
  // Counting and the completion rate
  // ---------------------------------------------------------------------------

  /** `dayStatuses.filter(d => d.isComplete).length`. */
  function CountComplete(ds: seq<DayStatus>): (n: nat)
    ensures n <= |ds|
  {
    if ds == [] then 0 else (if ds[0].isComplete then 1 else 0) + CountComplete(ds[1..])
  }

  /** `dayStatuses.filter(d => d.hasFailed).length`. */
  function CountFailed(ds: seq<DayStatus>): (n: nat)
    ensures n <= |ds|
  {
    if ds == [] then 0 else (if ds[0].hasFailed then 1 else 0) + CountFailed(ds[1..])
  }

  /** A day is never counted both as complete and as failed. */
  lemma {:induction false} CompleteAndFailedAreDisjoint(ds: seq<DayStatus>)
    requires forall k :: 0 <= k < |ds| ==> !(ds[k].isComplete && ds[k].hasFailed)
    ensures CountComplete(ds) + CountFailed(ds) <= |ds|
  {
    if ds != [] {
      CompleteAndFailedAreDisjoint(ds[1..]);
    }
  }

  /**
   * `Math.round(daysCompleted / daysElapsed * 100)` in integers: the whole number
   * nearest to 100 * daysCompleted / daysElapsed, halves rounded up; 0 when no day
   * has elapsed.
   */
  function CompletionRate(daysCompleted: int, daysElapsed: int): (rate: int)
    ensures daysElapsed <= 0 ==> rate == 0
    ensures daysElapsed > 0 ==>
              2 * daysElapsed * rate - daysElapsed <= 200 * daysCompleted < 2 * daysElapsed * rate + daysElapsed
    ensures 0 <= daysCompleted <= daysElapsed ==> 0 <= rate <= 100
  {
    if daysElapsed > 0 then
      var num := 200 * daysCompleted + daysElapsed;
      var den := 2 * daysElapsed;
      var q := num / den;
      assert num == q * den + num % den && 0 <= num % den < den;
      assert 2 * daysElapsed * q == q * den;
      RateBounds(daysCompleted, daysElapsed, q);
      q
    else 0
  }

  /** A rounded percentage of a part of a whole lies between 0 and 100. */
  lemma RateBounds(c: int, e: int, q: int)
    requires e > 0
    requires 2 * e * q - e <= 200 * c < 2 * e * q + e
    ensures 0 <= c <= e ==> 0 <= q <= 100
  {
  }

  // ---------------------------------------------------------------------------
  // Streaks
  // ---------------------------------------------------------------------------

  /** Entries `lo .. hi-1` are all complete. */
  ghost predicate IsRun(ds: seq<DayStatus>, lo: int, hi: int)
  {
    0 <= lo <= hi <= |ds| && forall k :: lo <= k < hi ==> ds[k].isComplete
  }

  /** The number of complete entries at the front of `ds`. */
  function LeadingRun(ds: seq<DayStatus>): nat
  {
    if ds == [] || !ds[0].isComplete then 0 else 1 + LeadingRun(ds[1..])
  }

  /** The length of the longest run of complete entries in `ds`. */
  function LongestRun(ds: seq<DayStatus>): nat
  {
    if ds == [] then 0 else Max(LeadingRun(ds), LongestRun(ds[1..]))
  }

  /** `c` is the length of the run of complete entries that ends at the last entry. */
  ghost predicate IsTrailingRun(ds: seq<DayStatus>, c: int)
  {
    IsRun(ds, |ds| - c, |ds|) && (c < |ds| ==> !ds[|ds| - 1 - c].isComplete)
  }

  /** What the component stores as `currentStreak`: 1 when the last entry is complete, else 0. */
  function CurrentStreakAsWritten(ds: seq<DayStatus>): nat
  {
    if |ds| > 0 && ds[|ds| - 1].isComplete then 1 else 0
  }

  /** The leading run is a run, and the entry right after it is not complete. */
  lemma {:induction false} LeadingRunIsMaximalPrefix(ds: seq<DayStatus>)
    ensures IsRun(ds, 0, LeadingRun(ds))
    ensures LeadingRun(ds) < |ds| ==> !ds[LeadingRun(ds)].isComplete
    ensures forall hi :: IsRun(ds, 0, hi) ==> hi <= LeadingRun(ds)
  {
    if ds != [] && ds[0].isComplete {
      LeadingRunIsMaximalPrefix(ds[1..]);
      forall hi | IsRun(ds, 0, hi)
        ensures hi <= LeadingRun(ds)
      {
        if hi > 0 {
          assert IsRun(ds[1..], 0, hi - 1);
        }
      }
    }
  }

  /** `LongestRun` is the length of a run, and no run is longer. */
  lemma {:induction false} LongestRunIsMaximal(ds: seq<DayStatus>)
    ensures forall lo, hi :: IsRun(ds, lo, hi) ==> hi - lo <= LongestRun(ds)
    ensures exists lo, hi :: IsRun(ds, lo, hi) && hi - lo == LongestRun(ds)
  {
    if ds == [] {
      assert IsRun(ds, 0, 0);
    } else {
      var tail := ds[1..];
      LongestRunIsMaximal(tail);
      LeadingRunIsMaximalPrefix(ds);
      forall lo, hi | IsRun(ds, lo, hi)
        ensures hi - lo <= LongestRun(ds)
      {
        if lo > 0 {
          assert IsRun(tail, lo - 1, hi - 1);
        }
      }
      if LeadingRun(ds) >= LongestRun(tail) {
        assert IsRun(ds, 0, LeadingRun(ds));
      } else {
        var lo, hi :| IsRun(tail, lo, hi) && hi - lo == LongestRun(tail);
        assert IsRun(ds, lo + 1, hi + 1);
      }
    }
  }

  /** A run of complete days is never longer than the number of complete days. */
  lemma {:induction false} LongestRunAtMostCompleted(ds: seq<DayStatus>)
    ensures LongestRun(ds) <= CountComplete(ds)
    ensures LeadingRun(ds) <= CountComplete(ds)
  {
    if ds != [] {
      LongestRunAtMostCompleted(ds[1..]);
    }
  }

  /** How the runs of a suffix extend by one entry to the left. */
  lemma SuffixStep(ds: seq<DayStatus>, i: int)
    requires 0 <= i < |ds|
    ensures LeadingRun(ds[i..]) == if ds[i].isComplete then 1 + LeadingRun(ds[i + 1..]) else 0
    ensures LongestRun(ds[i..]) == Max(LeadingRun(ds[i..]), LongestRun(ds[i + 1..]))
  {
    assert ds[i..][1..] == ds[i + 1..];
  }

  /** The reverse loop over `dayStatuses` that tracks `tempStreak`, as written. */
  method ScanStreaks(dayStatuses: seq<DayStatus>) returns (currentStreak: nat, longestStreak: nat)
    ensures currentStreak == CurrentStreakAsWritten(dayStatuses)
    ensures longestStreak == LongestRun(dayStatuses)
  {
    currentStreak, longestStreak := 0, 0;
    var tempStreak: nat := 0;
    var i := |dayStatuses| - 1;
    while i >= 0
      invariant -1 <= i < |dayStatuses|
      invariant tempStreak == LeadingRun(dayStatuses[i + 1..])
      invariant Max(longestStreak, tempStreak) == LongestRun(dayStatuses[i + 1..])
      invariant currentStreak == if i < |dayStatuses| - 1 then CurrentStreakAsWritten(dayStatuses) else 0
    {
      SuffixStep(dayStatuses, i);
      if dayStatuses[i].isComplete {
        tempStreak := tempStreak + 1;
        if i == |dayStatuses| - 1 {
          currentStreak := tempStreak;
        }
      } else {
        if i == |dayStatuses| - 1 {
          currentStreak := 0;
        }
        longestStreak := Max(longestStreak, tempStreak);
        tempStreak := 0;
      }
      i := i - 1;
    }
    longestStreak := Max(longestStreak, tempStreak);
    assert dayStatuses[0..] == dayStatuses;
  }

  /**
   * The streak loop with `currentStreak` following `tempStreak` for as long as every
   * entry seen from the end is complete: the current streak is the run of complete
   * entries that ends at the last entry.
   */
  method ScanStreaksCorrected(dayStatuses: seq<DayStatus>) returns (currentStreak: nat, longestStreak: nat)
    ensures IsTrailingRun(dayStatuses, currentStreak)
    ensures longestStreak == LongestRun(dayStatuses)
    ensures currentStreak <= longestStreak
  {
    currentStreak, longestStreak := 0, 0;
    var tempStreak: nat := 0;
    var i := |dayStatuses| - 1;
    while i >= 0
      invariant -1 <= i < |dayStatuses|
      invariant tempStreak == LeadingRun(dayStatuses[i + 1..])
      invariant Max(longestStreak, tempStreak) == LongestRun(dayStatuses[i + 1..])
      invariant currentStreak <= |dayStatuses| - 1 - i
      invariant currentStreak == |dayStatuses| - 1 - i ==> tempStreak == currentStreak
      invariant IsRun(dayStatuses, |dayStatuses| - currentStreak, |dayStatuses|)
      invariant currentStreak < |dayStatuses| - 1 - i ==> !dayStatuses[|dayStatuses| - 1 - currentStreak].isComplete
    {
      SuffixStep(dayStatuses, i);
      if dayStatuses[i].isComplete {
        tempStreak := tempStreak + 1;
        if currentStreak == |dayStatuses| - 1 - i {
          currentStreak := tempStreak;
        }
      } else {
        longestStreak := Max(longestStreak, tempStreak);
        tempStreak := 0;
      }
      i := i - 1;
    }
    longestStreak := Max(longestStreak, tempStreak);
    assert dayStatuses[0..] == dayStatuses;
    LongestRunIsMaximal(dayStatuses);
  }

  /**
   * The streak as written never exceeds 1: whenever the last two entries are complete,
   * the run that ends at the last entry (what `ScanStreaksCorrected` returns) is at
   * least 2, while the stored value is 1.
   */
  lemma CurrentStreakUndercounts(ds: seq<DayStatus>)
    requires |ds| >= 2 && IsRun(ds, |ds| - 2, |ds|)
    ensures CurrentStreakAsWritten(ds) == 1
    ensures forall c :: IsTrailingRun(ds, c) ==> c >= 2 > CurrentStreakAsWritten(ds)
  {
  }

  // ---------------------------------------------------------------------------
  // The whole computation
  // ---------------------------------------------------------------------------

  /** The statistics `calculateStats` stores once both queries have returned data. */
  function ComputeStats(tasks: seq<TaskId>, rows: seq<CompletionRow>, startDate: int, durationDays: int, now: Instant): Stats
  {
    var daysElapsed := DaysElapsed(startDate, durationDays, now);
    var ds := DayStatuses(tasks, Grouped(rows), startDate, daysElapsed);
    var daysCompleted := CountComplete(ds);
    Stats(daysCompleted, CountFailed(ds), CurrentStreakAsWritten(ds), LongestRun(ds),
          CompletionRate(daysCompleted, daysElapsed), daysElapsed)
  }

  /** The bounds that hold of every computed result. */
  lemma StatsBounds(tasks: seq<TaskId>, rows: seq<CompletionRow>, startDate: int, durationDays: int, now: Instant)
    ensures var s := ComputeStats(tasks, rows, startDate, durationDays, now);
      && s.daysElapsed <= durationDays
      && s.daysElapsed <= now.day - startDate + 1
      && 0 <= s.daysCompleted && 0 <= s.daysFailed
      && s.daysCompleted + s.daysFailed <= Max(s.daysElapsed, 0)
      && 0 <= s.completionRate <= 100
      && 0 <= s.currentStreak <= 1
      && s.currentStreak <= s.longestStreak <= s.daysCompleted
  {
    var daysElapsed := DaysElapsed(startDate, durationDays, now);
    var ds := DayStatuses(tasks, Grouped(rows), startDate, daysElapsed);
    DayStatusesShape(tasks, Grouped(rows), startDate, daysElapsed);
    CompleteAndFailedAreDisjoint(ds);
    LongestRunAtMostCompleted(ds);
    LongestRunIsMaximal(ds);
    if CurrentStreakAsWritten(ds) == 1 {
      assert IsRun(ds, |ds| - 1, |ds|);
    }
  }

  /** Without any record no day has a status, so every count and the rate are 0. */
  lemma {:induction false} NoRecordsNoProgress(tasks: seq<TaskId>, startDate: int, durationDays: int, now: Instant)
    ensures var s := ComputeStats(tasks, [], startDate, durationDays, now);
      s == Stats(0, 0, 0, 0, 0, s.daysElapsed)
  {
    NoRecordsNoStatuses(tasks, startDate, DaysElapsed(startDate, durationDays, now));
  }

  lemma {:induction false} NoRecordsNoStatuses(tasks: seq<TaskId>, start: int, n: int)
    ensures DayStatuses(tasks, map[], start, n) == []
    decreases n
  {
    if n > 0 {
      NoRecordsNoStatuses(tasks, start, n - 1);
    }
  }

  /**
   * When every task is completed, and nothing failed, on every elapsed day, every
   * elapsed day is complete, the rate is 100 and the longest streak spans them all.
   */
  lemma PerfectJourney(tasks: seq<TaskId>, rows: seq<CompletionRow>, startDate: int, durationDays: int, now: Instant)
    requires DaysElapsed(startDate, durationDays, now) > 0
    requires forall d :: startDate <= d < startDate + DaysElapsed(startDate, durationDays, now) ==>
               d in Grouped(rows) && AllCompleted(tasks, Grouped(rows)[d]) && !AnyFailed(Grouped(rows)[d])
    ensures var s := ComputeStats(tasks, rows, startDate, durationDays, now);
      && s.daysCompleted == s.daysElapsed
      && s.daysFailed == 0
      && s.completionRate == 100
      && s.longestStreak == s.daysElapsed
      && s.currentStreak == 1
  {
    var n := DaysElapsed(startDate, durationDays, now);
    var ds := DayStatuses(tasks, Grouped(rows), startDate, n);
    AllDaysComplete(tasks, Grouped(rows), startDate, n);
    AllCompleteCounts(ds);
    FullRate(n);
  }

  /** Every elapsed day complete gives a rate of exactly 100. */
  lemma FullRate(n: int)
    requires n > 0
    ensures CompletionRate(n, n) == 100
  {
    var r := CompletionRate(n, n);
    if r <= 99 {
      assert false;
    } else if r >= 101 {
      assert false;
    }
  }

  lemma {:induction false} AllDaysComplete(tasks: seq<TaskId>, byDate: CompletionsByDate, start: int, n: int)
    requires forall d :: start <= d < start + n ==> d in byDate && AllCompleted(tasks, byDate[d]) && !AnyFailed(byDate[d])
    ensures |DayStatuses(tasks, byDate, start, n)| == Max(n, 0)
    ensures forall k :: 0 <= k < |DayStatuses(tasks, byDate, start, n)| ==>
              DayStatuses(tasks, byDate, start, n)[k].isComplete && !DayStatuses(tasks, byDate, start, n)[k].hasFailed
    decreases n
  {
    if n > 0 {
      AllDaysComplete(tasks, byDate, start, n - 1);
    }
  }

  lemma {:induction false} AllCompleteCounts(ds: seq<DayStatus>)
    requires forall k :: 0 <= k < |ds| ==> ds[k].isComplete && !ds[k].hasFailed
    ensures CountComplete(ds) == |ds| && CountFailed(ds) == 0
    ensures LeadingRun(ds) == |ds| && LongestRun(ds) == |ds|
  {
    if ds != [] {
      AllCompleteCounts(ds[1..]);
    }
  }

  /**
   * Tasks A and B, a five-day journey started on day 0, viewed on day 3: day 0 all
   * completed, day 1 with B failed, day 2 all completed, day 3 without records. Day 3
   * is skipped rather than counted as a break, so the last entry (day 2) is complete.
   */
  lemma WorkedExample()
    ensures ComputeStats(
              ["A", "B"],
              [CompletionRow(0, Completed, "A"), CompletionRow(0, Completed, "B"),
               CompletionRow(1, Completed, "A"), CompletionRow(1, Failed, "B"),
               CompletionRow(2, Completed, "A"), CompletionRow(2, Completed, "B")],
              0, 5, Instant(3, 0))
            == Stats(2, 1, 1, 1, 50, 4)
  {
    var rows := [CompletionRow(0, Completed, "A"), CompletionRow(0, Completed, "B"),
                 CompletionRow(1, Completed, "A"), CompletionRow(1, Failed, "B"),
                 CompletionRow(2, Completed, "A"), CompletionRow(2, Completed, "B")];
    var allDone := map["A" := Completed, "B" := Completed];
    var bFailed := map["A" := Completed, "B" := Failed];
    var g := map[0 := allDone, 1 := bFailed, 2 := allDone];
    assert Grouped(rows[..1]) == map[0 := map["A" := Completed]];
    assert Grouped(rows[..2]) == Put(Grouped(rows[..1]), rows[1]) by { assert rows[..2][..1] == rows[..1]; }
    assert Grouped(rows[..2]) == map[0 := allDone];
    assert Grouped(rows[..3]) == Put(Grouped(rows[..2]), rows[2]) by { assert rows[..3][..2] == rows[..2]; }
    assert Grouped(rows[..3]) == map[0 := allDone, 1 := map["A" := Completed]];
    assert Grouped(rows[..4]) == Put(Grouped(rows[..3]), rows[3]) by { assert rows[..4][..3] == rows[..3]; }
    assert Grouped(rows[..4]) == map[0 := allDone, 1 := bFailed];
    assert Grouped(rows[..5]) == Put(Grouped(rows[..4]), rows[4]) by { assert rows[..5][..4] == rows[..4]; }
    assert Grouped(rows[..5]) == map[0 := allDone, 1 := bFailed, 2 := map["A" := Completed]];
    assert Grouped(rows) == Put(Grouped(rows[..5]), rows[5]) by { assert rows[..|rows| - 1] == rows[..5]; }
    assert Grouped(rows) == g;
    assert DaysElapsed(0, 5, Instant(3, 0)) == 4;
    assert AllCompleted(["A", "B"], allDone);
    assert !AllCompleted(["A", "B"], bFailed) && AnyFailed(bFailed) by {
      assert "B" in bFailed && bFailed["B"] == Failed;
      assert ["A", "B"][1] == "B";
    }
    assert !AnyFailed(allDone) by {
      assert allDone.Values == {Completed};
    }
    var ds := [DayStatus(0, true, false), DayStatus(1, false, true), DayStatus(2, true, false)];
    assert DayStatuses(["A", "B"], g, 0, 4) == ds;
    assert CountComplete(ds) == 2 && CountFailed(ds) == 1;
    assert LongestRun(ds) == 1;
    assert CompletionRate(2, 4) == 50;
  }

  // ---------------------------------------------------------------------------
  // The component's state
  // ---------------------------------------------------------------------------

  /** The statistics panel and the `stats` state it renders. */
  class ProgressStatsView {
    var stats: Stats

    constructor()
      ensures stats == InitialStats
    {
      stats := InitialStats;
    }

    /**
     * `calculateStats`: when the task query returned no rows (or nothing) or the
     * completions query returned nothing, the previous statistics stay.
     */
    method CalculateStats(tasks: Option<seq<TaskId>>, completions: Option<seq<CompletionRow>>,
                          startDate: int, durationDays: int, now: Instant)
      modifies this
      ensures tasks.None? || |tasks.value| == 0 || completions.None? ==> stats == old(stats)
      ensures tasks.Some? && |tasks.value| > 0 && completions.Some? ==>
                stats == ComputeStats(tasks.value, completions.value, startDate, durationDays, now)
    {
      if tasks.None? || |tasks.value| == 0 {
        return;
      }
      if completions.None? {
        return;
      }
      var completionsByDate := GroupCompletions(completions.value);
      var daysElapsed := DaysElapsed(startDate, durationDays, now);
      var dayStatuses := BuildDayStatuses(tasks.value, completionsByDate, startDate, daysElapsed);
      var daysCompleted := CountComplete(dayStatuses);
      var daysFailed := CountFailed(dayStatuses);
      var currentStreak, longestStreak := ScanStreaks(dayStatuses);
      stats := Stats(daysCompleted, daysFailed, currentStreak, longestStreak,
                     CompletionRate(daysCompleted, daysElapsed), daysElapsed);
    }
  }
}

/**
 * The availability index: a spreadsheet of free times, read once into
 * week -> weekday -> person -> free windows, and the query that lists the
 * people free at a given instant.
 *
 * Sheet layout, as the build loop reads it: a row whose first cell starts
 * with "Week " carries the week number after that prefix and, from column 1
 * on, the person names; the five rows below it hold, column by column, each
 * person's free windows on weekdays 1 to 5. Cell [1][0] holds the current week.
 */
module Availability {
  import opened Wrappers
  import opened Text
  import opened TimeParsing

  /** The sheet as a list of rows; a row may be shorter than others. */
  type Table = seq<seq<string>>

  /** person -> free windows on one weekday */
  type DaySchedule = map<string, seq<Interval>>

  /** week -> weekday -> person -> free windows */
  type Index = map<nat, map<nat, DaySchedule>>

  /** The state the build leaves behind: the current week and the index. */
  datatype Snapshot = Snapshot(currentWeek: nat, times: Index)

  // ---------------------------------------------------------------------
  // The build, as functions of the table
  // ---------------------------------------------------------------------

  /** A row that opens a week block. */
  predicate IsWeekMarker(row: seq<string>)
  {
    |row| > 0 && StartsWith(row[0], "Week ")
  }

  /** The number after "Week ". */
  function WeekNumber(row: seq<string>): Result<nat>
    requires IsWeekMarker(row)
  {
    ParseInt(row[0][5..])
  }

  /** int() of cell [1][0]; an IndexError when that cell does not exist. */
  function CurrentWeek(table: Table): (r: Result<nat>)
    ensures (|table| < 2 || |table[1]| == 0) ==> r == Err(IndexError)
  {
    if |table| < 2 || |table[1]| == 0 then Err(IndexError) else ParseInt(table[1][0])
  }

  /** The cell of `row` in column c, or "" when the row is too short. */
  function CellOr(row: seq<string>, c: nat): string
  {
    if c < |row| then row[c] else ""
  }

  /**
   * The windows of column c on weekday `day` of the block opened at row i.
   * A day row past the end of the table is an IndexError (the handler
   * re-indexes the missing row); an unparsable cell is the "Malformed time"
   * error carrying the cell's text.
   */
  function CellRanges(table: Table, i: nat, day: nat, c: nat): (r: Result<seq<Interval>>)
    ensures i + day >= |table| ==> r == Err(IndexError)
    ensures i + day < |table| && c >= |table[i + day]| ==> r == Ok([])
    ensures i + day < |table| && r.Err? ==> r.error == MalformedTime(table[i + day][c])
  {
    if i + day >= |table| then Err(IndexError)
    else
      var text := CellOr(table[i + day], c);
      match TimeRanges(text)
      case Err(_) => Err(MalformedTime(text))
      case Ok(ranges) => Ok(ranges)
  }

  /**
   * The schedule of weekday `day` of the block opened at row i, continuing
   * from `acc` with columns c, c+1, ... of the header row, left to right: a
   * later column with the same name overwrites an earlier one.
   */
  function ColumnsFrom(table: Table, i: nat, day: nat, c: nat, acc: DaySchedule): Result<DaySchedule>
    requires i < |table|
    decreases |table[i]| - c
  {
    if c >= |table[i]| then Ok(acc)
    else
      match CellRanges(table, i, day, c)
      case Err(e) => Err(e)
      case Ok(ranges) => ColumnsFrom(table, i, day, c + 1, acc[table[i][c] := ranges])
  }

  /** The schedule of weekday `day`: every person column from column 1 on. */
  function DayOf(table: Table, i: nat, day: nat): Result<DaySchedule>
    requires i < |table|
  {
    ColumnsFrom(table, i, day, 1, map[])
  }

  /** The week of the block opened at row i, continuing from `acc` with weekdays d .. 5. */
  function DaysFrom(table: Table, i: nat, d: nat, acc: map<nat, DaySchedule>): Result<map<nat, DaySchedule>>
    requires i < |table|
    decreases 6 - d
  {
    if d > 5 then Ok(acc)
    else
      match DayOf(table, i, d)
      case Err(e) => Err(e)
      case Ok(schedule) => DaysFrom(table, i, d + 1, acc[d := schedule])
  }

  /** The week of the block opened at row i: weekdays 1 to 5. */
  function WeekOf(table: Table, i: nat): Result<map<nat, DaySchedule>>
    requires i < |table|
  {
    DaysFrom(table, i, 1, map[])
  }

  /** The index after rows 0 .. n-1 have been scanned, starting from `start`. */
  function Rows(start: Index, table: Table, n: nat): Result<Index>
    requires n <= |table|
  {
    if n == 0 then Ok(start)
    else
      match Rows(start, table, n - 1)
      case Err(e) => Err(e)
      case Ok(index) =>
        if !IsWeekMarker(table[n - 1]) then Ok(index)
        else
          match WeekNumber(table[n - 1])
          case Err(e) => Err(e)
          case Ok(week) =>
            match WeekOf(table, n - 1)
            case Err(e) => Err(e)
            case Ok(days) => Ok(index[week := days])
  }

  /** The whole build: the current week first, then every row. */
  function Build(start: Index, table: Table): Result<Snapshot>
  {
    match CurrentWeek(table)
    case Err(e) => Err(e)
    case Ok(current) =>
      match Rows(start, table, |table|)
      case Err(e) => Err(e)
      case Ok(index) => Ok(Snapshot(current, index))
  }

  // ---------------------------------------------------------------------
  // The query, as a function of the index
  // ---------------------------------------------------------------------

  /** The window covers the whole of [time, time + duration]. */
  predicate Covers(window: Interval, time: real, duration: real)
  {
    window.start <= time && time + duration <= window.end
  }

  /** Some window of the list covers [time, time + duration]. */
  predicate Free(windows: seq<Interval>, time: real, duration: real)
  {
    exists k :: 0 <= k < |windows| && Covers(windows[k], time, duration)
  }

  /** The people GetAvailablePeople reports: only ever for the current week. */
  function Available(index: Index, current: nat, week: nat, day: nat, time: real, duration: real): set<string>
  {
    if week == current && week in index && day in index[week] then
      set p | p in index[week][day] && Free(index[week][day][p], time, duration)
    else {}
  }

  /**
   * The guarded parse of one cell: a missing day row is an IndexError, a
   * missing cell reads as "", and a parse failure becomes the
   * "Malformed time" error.
   */
  method ReadCell(table: Table, i: nat, day: nat, column: nat) returns (r: Result<seq<Interval>>)
    ensures r == CellRanges(table, i, day, column)
  {
    if i + day >= |table| {
      return Err(IndexError);
    }
    var text := CellOr(table[i + day], column);
    var ranges := ParseTimeRanges(text);
    if ranges.Err? {
      return Err(MalformedTime(text));
    }
    r := ranges;
  }

  /**
   * The column loop of one weekday: parses the cell of every person column
   * into a fresh schedule; a later column with the same name overwrites.
   */
  method ReadDay(table: Table, i: nat, day: nat) returns (r: Result<DaySchedule>)
    requires i < |table|
    ensures r == DayOf(table, i, day)
  {
    var row := table[i];
    var schedule: DaySchedule := map[];
    var column := 1;
    while column < |row|
      invariant 1 <= column
      invariant DayOf(table, i, day) == ColumnsFrom(table, i, day, column, schedule)
      decreases |row| - column
    {
      var ranges := ReadCell(table, i, day, column);
      if ranges.Err? {
        return Err(ranges.error);
      }
      schedule := schedule[row[column] := ranges.value];
      column := column + 1;
    }
    r := Ok(schedule);
  }

  // ---------------------------------------------------------------------
  // The mutable table
  // ---------------------------------------------------------------------

  /** The globals `available_times` and `current_week`. */
  class AvailabilityTable {
    var times: Index
    var currentWeek: nat

    constructor()
      ensures times == map[] && currentWeek == 0
    {
      times := map[];
      currentWeek := 0;
    }

    /** The current week and the index, as a value. */
    function State(): Snapshot
      reads this
    {
      Snapshot(currentWeek, times)
    }

    /**
     * The build loop: reads the current week, then scans the rows, resetting
     * the entry of every week block and filling its weekdays 1 to 5 in turn.
     * Every failure is fatal to the program; the state it leaves is not used.
     */
    method Load(table: Table) returns (outcome: Outcome)
      modifies this
      ensures Build(old(times), table).Ok? ==>
                outcome == Pass &&
                currentWeek == Build(old(times), table).value.currentWeek &&
                times == Build(old(times), table).value.times
      ensures Build(old(times), table).Err? ==> outcome == Fail(Build(old(times), table).error)
    {
      if |table| < 2 || |table[1]| == 0 {
        return Fail(IndexError);
      }
      var current := ParseInt(table[1][0]);
      if current.Err? {
        return Fail(current.error);
      }
      currentWeek := current.value;
      ghost var start := times;
      var i := 0;
      while i < |table|
        invariant 0 <= i <= |table|
        invariant start == old(times)
        invariant currentWeek == current.value
        invariant Rows(start, table, i) == Ok(times)
      {
        var row := table[i];
        if |row| > 0 && StartsWith(row[0], "Week ") {
          var week := ParseInt(row[0][5..]);
          if week.Err? {
            assert Rows(start, table, i + 1) == Err(week.error);
            RowsFailureSticks(start, table, i + 1, |table|);
            return Fail(week.error);
          }
          var filled := LoadWeek(table, i, week.value);
          if filled.Fail? {
            assert Rows(start, table, i + 1) == Err(filled.error);
            RowsFailureSticks(start, table, i + 1, |table|);
            return filled;
          }
          assert Rows(start, table, i + 1) == Ok(times);
        } else {
          assert Rows(start, table, i + 1) == Rows(start, table, i);
        }
        i := i + 1;
      }
      outcome := Pass;
    }

    /**
     * The body of the build loop for a "Week N" row at index i: the week's
     * entry is reset, then weekdays 1 to 5 are read and stored in turn.
     */
    method LoadWeek(table: Table, i: nat, week: nat) returns (outcome: Outcome)
      requires i < |table|
      modifies this
      ensures currentWeek == old(currentWeek)
      ensures WeekOf(table, i).Ok? ==> outcome == Pass && times == old(times)[week := WeekOf(table, i).value]
      ensures WeekOf(table, i).Err? ==> outcome == Fail(WeekOf(table, i).error)
    {
      times := times[week := map[]];
      var day := 1;
      while day <= 5
        invariant 1 <= day <= 6
        invariant currentWeek == old(currentWeek)
        invariant week in times && times == old(times)[week := times[week]]
        invariant WeekOf(table, i) == DaysFrom(table, i, day, times[week])
      {
        var schedule := ReadDay(table, i, day);
        DaysFromStep(table, i, day, times[week]);
        if schedule.Err? {
          return Fail(schedule.error);
        }
        times := times[week := times[week][day := schedule.value]];
        day := day + 1;
      }
      outcome := Pass;
    }

    /**
     * GetAvailablePeople: walks the people of the day and adds each one
     * that has a window covering [time, time + duration], stopping at the
     * first such window.
     */
    method GetAvailablePeople(week: nat, day: nat, time: real, duration: real) returns (availables: set<string>)
      ensures availables == Available(times, currentWeek, week, day, time, duration)
      ensures week != currentWeek || week !in times || day !in times[week] ==> availables == {}
      ensures week in times && day in times[week] ==> availables <= times[week][day].Keys
      ensures forall p :: p in availables <==>
                week == currentWeek && week in times && day in times[week] &&
                p in times[week][day] && Free(times[week][day][p], time, duration)
    {
      availables := {};
      if week == currentWeek && week in times && day in times[week] {
        var schedule := times[week][day];
        var pending := schedule.Keys;
        while pending != {}
          invariant pending <= schedule.Keys
          invariant availables == set p | p in schedule.Keys - pending && Free(schedule[p], time, duration)
          decreases pending
        {
          var person :| person in pending;
          var windows := schedule[person];
          ghost var before := availables;
          var k := 0;
          while k < |windows|
            invariant 0 <= k <= |windows|
            invariant availables == before
            invariant forall j :: 0 <= j < k ==> !Covers(windows[j], time, duration)
          {
            if windows[k].start <= time && time + duration <= windows[k].end {
              availables := availables + {person};
              break;
            }
            k := k + 1;
          }
          pending := pending - {person};
        }
      }
    }
  }

  // ---------------------------------------------------------------------
  // Failures are final
  // ---------------------------------------------------------------------

  lemma {:induction false} RowsFailureSticks(start: Index, table: Table, n: nat, m: nat)
    requires n <= m <= |table|
    requires Rows(start, table, n).Err?
    ensures Rows(start, table, m) == Rows(start, table, n)
    decreases m - n
  {
    if n < m {
      RowsFailureSticks(start, table, n, m - 1);
    }
  }

  // ---------------------------------------------------------------------
  // What a week block contributes
  // ---------------------------------------------------------------------

  /** One weekday of the week loop: the day is read, then the later days. */
  lemma DaysFromStep(table: Table, i: nat, d: nat, acc: map<nat, DaySchedule>)
    requires i < |table| && d <= 5
    ensures DaysFrom(table, i, d, acc) ==
            match DayOf(table, i, d)
            case Err(e) => Err(e)
            case Ok(schedule) => DaysFrom(table, i, d + 1, acc[d := schedule])
  {
  }

  /** The weekdays from d to 5. */
  function Weekdays(d: nat): (days: set<nat>)
    ensures forall k :: k in days <==> d <= k <= 5
    decreases 6 - d
  {
    if d > 5 then {} else {d} + Weekdays(d + 1)
  }

  lemma {:induction false} DaysFromKeys(table: Table, i: nat, d: nat, acc: map<nat, DaySchedule>)
    requires i < |table| && DaysFrom(table, i, d, acc).Ok?
    ensures DaysFrom(table, i, d, acc).value.Keys == acc.Keys + Weekdays(d)
    decreases 6 - d
  {
    if d <= 5 {
      var schedule := DayOf(table, i, d).value;
      DaysFromKeys(table, i, d + 1, acc[d := schedule]);
    }
  }

  /** A week that was read has an entry for exactly the weekdays 1 to 5. */
  lemma WeekHasFiveDays(table: Table, i: nat)
    requires i < |table| && WeekOf(table, i).Ok?
    ensures WeekOf(table, i).value.Keys == {1, 2, 3, 4, 5}
  {
    DaysFromKeys(table, i, 1, map[]);
  }

  /** Weekday k of a week that was read is the schedule read for it. */
  lemma {:induction false} DaysFromValue(table: Table, i: nat, d: nat, acc: map<nat, DaySchedule>, k: nat)
    requires i < |table| && DaysFrom(table, i, d, acc).Ok?
    requires d <= k <= 5
    ensures DayOf(table, i, k).Ok? && k in DaysFrom(table, i, d, acc).value &&
            DaysFrom(table, i, d, acc).value[k] == DayOf(table, i, k).value
    decreases 6 - d
  {
    var next := acc[d := DayOf(table, i, d).value];
    if d == k {
      DaysFromKeep(table, i, d + 1, next, k);
    } else {
      DaysFromValue(table, i, d + 1, next, k);
    }
  }

  /** Every weekday of a week that was read is the schedule of that weekday's row. */
  lemma WeekDays(table: Table, i: nat, day: nat)
    requires i < |table| && WeekOf(table, i).Ok? && 1 <= day <= 5
    ensures DayOf(table, i, day).Ok? && day in WeekOf(table, i).value &&
            WeekOf(table, i).value[day] == DayOf(table, i, day).value
  {
    DaysFromValue(table, i, 1, map[], day);
  }

  /** A weekday already filled in before d is left alone by the later weekdays. */
  lemma {:induction false} DaysFromKeep(table: Table, i: nat, d: nat, acc: map<nat, DaySchedule>, k: nat)
    requires i < |table| && DaysFrom(table, i, d, acc).Ok?
    requires k in acc && k < d
    ensures k in DaysFrom(table, i, d, acc).value && DaysFrom(table, i, d, acc).value[k] == acc[k]
    decreases 6 - d
  {
    if d <= 5 {
      DaysFromKeep(table, i, d + 1, acc[d := DayOf(table, i, d).value], k);
    }
  }

  /** The person names of a weekday: every header cell from column c on, added to `acc`. */
  lemma {:induction false} ColumnsFromKeys(table: Table, i: nat, day: nat, c: nat, acc: DaySchedule)
    requires i < |table| && ColumnsFrom(table, i, day, c, acc).Ok?
    ensures ColumnsFrom(table, i, day, c, acc).value.Keys ==
            acc.Keys + (set k | c <= k < |table[i]| :: table[i][k])
    decreases |table[i]| - c
  {
    if c < |table[i]| {
      var row := table[i];
      var next := acc[row[c] := CellRanges(table, i, day, c).value];
      ColumnsFromKeys(table, i, day, c + 1, next);
      assert next.Keys + (set k | c + 1 <= k < |row| :: row[k]) == acc.Keys + (set k | c <= k < |row| :: row[k]);
    }
  }

  /** A weekday that was read has one entry per header cell from column 1 on. */
  lemma DayPeople(table: Table, i: nat, day: nat)
    requires i < |table| && DayOf(table, i, day).Ok?
    ensures DayOf(table, i, day).value.Keys == set k | 1 <= k < |table[i]| :: table[i][k]
  {
    ColumnsFromKeys(table, i, day, 1, map[]);
  }

  /** Column k is the last column of the row with its name. */
  predicate LastColumn(row: seq<string>, k: nat)
  {
    k < |row| && forall j :: k < j < |row| ==> row[j] != row[k]
  }

  /** One column of a weekday that was read: its cell parsed and was stored. */
  lemma ColumnsFromStep(table: Table, i: nat, day: nat, c: nat, acc: DaySchedule)
    requires i < |table| && ColumnsFrom(table, i, day, c, acc).Ok? && c < |table[i]|
    ensures CellRanges(table, i, day, c).Ok?
    ensures ColumnsFrom(table, i, day, c, acc) ==
            ColumnsFrom(table, i, day, c + 1, acc[table[i][c] := CellRanges(table, i, day, c).value])
  {
  }

  /** A name that no column from c on carries keeps its entry. */
  lemma {:induction false} ColumnsFromKeep(table: Table, i: nat, day: nat, c: nat, acc: DaySchedule, p: string)
    requires i < |table| && ColumnsFrom(table, i, day, c, acc).Ok?
    requires p in acc && forall k :: c <= k < |table[i]| ==> table[i][k] != p
    ensures p in ColumnsFrom(table, i, day, c, acc).value && ColumnsFrom(table, i, day, c, acc).value[p] == acc[p]
    decreases |table[i]| - c
  {
    if c < |table[i]| {
      ColumnsFromStep(table, i, day, c, acc);
      ColumnsFromKeep(table, i, day, c + 1, acc[table[i][c] := CellRanges(table, i, day, c).value], p);
    }
  }

  /** The last column with a name decides that name's windows. */
  lemma {:induction false} ColumnsFromLast(table: Table, i: nat, day: nat, c: nat, acc: DaySchedule, k: nat)
    requires i < |table| && ColumnsFrom(table, i, day, c, acc).Ok?
    requires c <= k && LastColumn(table[i], k)
    ensures CellRanges(table, i, day, k).Ok? && table[i][k] in ColumnsFrom(table, i, day, c, acc).value &&
            ColumnsFrom(table, i, day, c, acc).value[table[i][k]] == CellRanges(table, i, day, k).value
    decreases |table[i]| - c
  {
    ColumnsFromStep(table, i, day, c, acc);
    var next := acc[table[i][c] := CellRanges(table, i, day, c).value];
    if c < k {
      ColumnsFromLast(table, i, day, c + 1, next, k);
    } else {
      ColumnsFromKeep(table, i, day, c + 1, next, table[i][k]);
    }
  }

  /**
   * The windows a weekday holds for a person are those of the person's last
   * column; a column whose cell is missing gives no windows.
   */
  lemma DayValues(table: Table, i: nat, day: nat, k: nat)
    requires i < |table| && DayOf(table, i, day).Ok?
    requires 1 <= k && LastColumn(table[i], k)
    ensures CellRanges(table, i, day, k).Ok? && table[i][k] in DayOf(table, i, day).value &&
            DayOf(table, i, day).value[table[i][k]] == CellRanges(table, i, day, k).value
    ensures k >= |table[i + day]| ==> DayOf(table, i, day).value[table[i][k]] == []
  {
    ColumnsFromLast(table, i, day, 1, map[], k);
  }

  // ---------------------------------------------------------------------
  // What the whole scan builds
  // ---------------------------------------------------------------------

  /** The scan overrides the starting index with what it reads. */
  lemma {:induction false} RowsOverride(start: Index, table: Table, n: nat)
    requires n <= |table|
    ensures Rows(start, table, n) ==
            match Rows(map[], table, n)
            case Err(e) => Err(e)
            case Ok(read) => Ok(start + read)
  {
    if n > 0 {
      RowsOverride(start, table, n - 1);
      match Rows(map[], table, n - 1)
      case Err(e) =>
      case Ok(read) =>
        if IsWeekMarker(table[n - 1]) && WeekNumber(table[n - 1]).Ok? && WeekOf(table, n - 1).Ok? {
          var week := WeekNumber(table[n - 1]).value;
          var days := WeekOf(table, n - 1).value;
          assert (start + read)[week := days] == start + read[week := days];
        }
    } else {
      assert start + map[] == start;
    }
  }

  /**
   * The current week is read from cell [1][0] before any week block: a build
   * that succeeds took it from there, and a missing or non-numeric cell fails
   * the build whatever the rest of the table holds.
   */
  lemma BuildReadsCurrentWeek(start: Index, table: Table)
    ensures Build(start, table).Ok? ==>
              |table| >= 2 && |table[1]| > 0 &&
              ParseInt(table[1][0]) == Ok(Build(start, table).value.currentWeek)
    ensures |table| < 2 || |table[1]| == 0 ==> Build(start, table) == Err(IndexError)
    ensures |table| >= 2 && |table[1]| > 0 && ParseInt(table[1][0]).Err? ==>
              Build(start, table) == Err(ValueError(table[1][0]))
  {
  }

  /** Building the same table twice gives the same snapshot: no state carries over. */
  lemma BuildIdempotent(start: Index, table: Table)
    requires Build(start, table).Ok?
    ensures Build(Build(start, table).value.times, table) == Build(start, table)
  {
    RowsOverride(start, table, |table|);
    var read := Rows(map[], table, |table|).value;
    RowsOverride(start + read, table, |table|);
    assert (start + read) + read == start + read;
  }

  /**
   * Every week of the scanned index is the block of a "Week N" row with that
   * number, and every such row's number is a week of the index.
   */
  lemma {:induction false} RowsWeeks(start: Index, table: Table, n: nat)
    requires n <= |table| && Rows(start, table, n).Ok?
    ensures forall w :: w in Rows(start, table, n).value && w !in start ==>
              exists j :: 0 <= j < n && IsWeekMarker(table[j]) && WeekNumber(table[j]) == Ok(w) &&
                          WeekOf(table, j) == Ok(Rows(start, table, n).value[w])
    ensures forall j :: 0 <= j < n && IsWeekMarker(table[j]) ==>
              WeekNumber(table[j]).Ok? && WeekNumber(table[j]).value in Rows(start, table, n).value
  {
    if n > 0 {
      RowsWeeks(start, table, n - 1);
    }
  }

  /** Every week of an index built from scratch has exactly the weekdays 1 to 5. */
  lemma BuiltWeeksHaveFiveDays(table: Table)
    requires Build(map[], table).Ok?
    ensures forall w :: w in Build(map[], table).value.times ==>
              Build(map[], table).value.times[w].Keys == {1, 2, 3, 4, 5}
  {
    var times := Build(map[], table).value.times;
    RowsWeeks(map[], table, |table|);
    forall w | w in times
      ensures times[w].Keys == {1, 2, 3, 4, 5}
    {
      var j :| 0 <= j < |table| && IsWeekMarker(table[j]) && WeekNumber(table[j]) == Ok(w) &&
               WeekOf(table, j) == Ok(times[w]);
      WeekHasFiveDays(table, j);
    }
  }
}

/**
 * The per-course update of the result table: every lecture occurrence of a
 * course is checked, counted in the start-time histogram and expanded into
 * its academic weeks; each (occurrence, week) pair gets one row, created the
 * first time it is seen when enough people are free, and later sightings of
 * the pair from other curricula add a timetable link to that row.
 */
module Lectures {
  import opened Wrappers
  import opened Text
  import opened TimeParsing
  import opened ApiData
  import opened Filters
  import opened Availability

  // ---------------------------------------------------------------------
  // Rows of the result table
  // ---------------------------------------------------------------------

  /** The number of cells a row may reach; a row at this width takes no more links. */
  const MaxRowWidth: nat := 38

  /** The cells of a row before its timetable links. */
  const FixedCells: nat := 13

  /**
   * One row of the "Found lectures" sheet: the structural unit code, the
   * course code, the type label, the course name, the people free at the
   * start (the sheet joins them with ", " in set order), the registered
   * count, the group count, week, weekday, start time, address, the course
   * and plan links, and the timetable links.
   */
  datatype Record = Record(
    unitCode: string,
    courseCode: string,
    typeLabel: string,
    courseName: string,
    available: set<string>,
    registered: string,
    groups: string,
    week: string,
    day: string,
    startTime: string,
    address: string,
    courseUrl: string,
    planUrl: string,
    links: seq<string>)

  /** The number of cells of a row. */
  function Width(row: Record): nat
  {
    FixedCells + |row.links|
  }

  /** The fields of a course that every row of it repeats. */
  datatype Context = Context(
    unitCode: string,
    courseCode: string,
    courseName: string,
    registered: nat,
    groupCount: nat,
    courseUrl: string,
    planUrl: string,
    timetableUrl: string)

  /** The globals `lectures` and `lecture_times`, as a value. */
  datatype Tables = Tables(lectures: map<string, Record>, lectureTimes: map<string, nat>)

  /** How the processing of a course ended. */
  datatype Halt =
    | Finished               // every occurrence was processed
    | Skipped                // the course was passed over before its occurrences
    | MalformedLectureTimes  // an occurrence lacks its weekday or start time
    | DisallowedType         // an occurrence has a blacklisted type
    | Raised(error: Error)   // an exception ended the course

  /** The tables after a course, and how it ended. */
  datatype Run = Run(tables: Tables, halt: Halt)

  /** The lectures after a run of weeks, and the exception that cut it short, if any. */
  datatype Partial = Partial(lectures: map<string, Record>, failure: Option<Error>)

  // ---------------------------------------------------------------------
  // Keys and cells
  // ---------------------------------------------------------------------

  /** The key of an occurrence in a week: the uuid, "_", and the week number. */
  function EventKey(uuid: string, week: nat): string
  {
    Joined(uuid, '_', NatToString(week))
  }

  /** Different occurrences or different weeks never share a key. */
  lemma EventKeyInjective(uuid1: string, week1: nat, uuid2: string, week2: nat)
    requires EventKey(uuid1, week1) == EventKey(uuid2, week2)
    ensures uuid1 == uuid2 && week1 == week2
  {
    var key := EventKey(uuid1, week1);
    var d1, d2 := NatToString(week1), NatToString(week2);
    DigitsExclude(d1, '_');
    DigitsExclude(d2, '_');
    AfterLastJoined(uuid1, '_', d1);
    AfterLastJoined(uuid2, '_', d2);
    assert uuid1 == key[..|key| - |d1| - 1] == uuid2;
    NatToStringInjective(week1, week2);
  }

  /** `begin_time[:-3]`: the start time without its last three characters (the seconds). */
  function StartTimeCell(begin: string): (cell: string)
    ensures cell <= begin
    ensures |cell| == if |begin| >= 3 then |begin| - 3 else 0
  {
    begin[..if |begin| >= 3 then |begin| - 3 else 0]
  }

  /** The API's "HH:MM:SS" start time shows in the row as "HH:MM". */
  lemma StartTimeDropsSeconds(hhmm: string, ss: string)
    requires |ss| == 2
    ensures StartTimeCell(Joined(hhmm, ':', ss)) == hhmm
  {
    assert Joined(hhmm, ':', ss)[..|hhmm|] == hhmm;
  }

  /**
   * The row's start time denotes the same instant as the "HH:MM:SS" text it
   * was cut from, which is the instant availability was checked at.
   */
  lemma StartTimeSameClock(hh: string, mm: string, ss: string)
    requires |hh| > 0 && IsDigits(hh) && |mm| > 0 && IsDigits(mm) && |ss| == 2 && IsDigits(ss)
    ensures var begin := Joined(Joined(hh, ':', mm), ':', ss);
            TimeToFloat(StartTimeCell(begin)) == TimeToFloat(begin) == Ok(DigitsValue(hh) as real + DigitsValue(mm) as real / 60.0)
  {
    var hhmm := Joined(hh, ':', mm);
    StartTimeDropsSeconds(hhmm, ss);
    ClockTime(hhmm, hh, mm);
    ClockTimeWithSeconds(hh, mm, ss);
  }

  /** The group cell: the number of groups, or "-" when there are none. */
  function GroupsCell(count: nat): (cell: string)
    ensures count > 0 ==> ParseInt(cell) == Ok(count)
    ensures count == 0 ==> cell == "-"
  {
    if count > 0 then
      ParseIntOfNatToString(count);
      NatToString(count)
    else "-"
  }

  /**
   * The row created for an occurrence in a week. The type label is read from
   * `study_work_type`, so an occurrence typed only through `event_type`
   * raises a KeyError here.
   */
  function NewRecord(ctx: Context, ev: Event, begin: string, available: set<string>, week: nat, day: nat): (r: Result<Record>)
    ensures ev.studyWorkType.None? <==> r == Err(KeyError("study_work_type"))
    ensures r.Ok? ==>
              Width(r.value) == FixedCells + 1 && r.value.links == [ctx.timetableUrl] &&
              r.value.available == available &&
              ParseInt(r.value.week) == Ok(week) && ParseInt(r.value.day) == Ok(day) &&
              r.value.unitCode == ctx.unitCode && r.value.courseCode == ctx.courseCode &&
              r.value.courseName == ctx.courseName &&
              ParseInt(r.value.registered) == Ok(ctx.registered) &&
              r.value.groups == GroupsCell(ctx.groupCount) &&
              r.value.courseUrl == ctx.courseUrl && r.value.planUrl == ctx.planUrl &&
              r.value.startTime == StartTimeCell(begin) &&
              r.value.address == AddressOr(ev, "-") &&
              r.value.typeLabel == ev.studyWorkType.value.labelEt
  {
    match ev.studyWorkType
    case None => Err(KeyError("study_work_type"))
    case Some(workType) =>
      ParseIntOfNatToString(week);
      ParseIntOfNatToString(day);
      ParseIntOfNatToString(ctx.registered);
      Ok(Record(ctx.unitCode, ctx.courseCode, workType.labelEt, ctx.courseName, available,
                NatToString(ctx.registered), GroupsCell(ctx.groupCount), NatToString(week),
                NatToString(day), StartTimeCell(begin), AddressOr(ev, "-"),
                ctx.courseUrl, ctx.planUrl, [ctx.timetableUrl]))
  }

  /** The row with one more timetable link at its end. */
  function AddLink(row: Record, url: string): (r: Record)
    ensures Width(r) == Width(row) + 1
    ensures r.links == row.links + [url] && r.(links := row.links) == row
  {
    row.(links := row.links + [url])
  }

  // ---------------------------------------------------------------------
  // The start-time histogram
  // ---------------------------------------------------------------------

  /** `IncrementDict`: one more count for `key`, every other count unchanged. */
  function Increment(counts: map<string, nat>, key: string): (r: map<string, nat>)
    ensures r.Keys == counts.Keys + {key}
    ensures r[key] == (if key in counts then counts[key] else 0) + 1
    ensures forall k :: k in counts && k != key ==> r[k] == counts[k]
  {
    counts[key := if key in counts then counts[key] + 1 else 1]
  }

  /** The histogram of a sequence of keys, counted one by one from an empty map. */
  function Tally(keys: seq<string>): map<string, nat>
  {
    if |keys| == 0 then map[] else Increment(Tally(keys[..|keys| - 1]), keys[|keys| - 1])
  }

  /** Counting key by key gives each key's number of occurrences. */
  lemma {:induction false} TallyCounts(keys: seq<string>)
    ensures forall k :: k in Tally(keys) <==> k in multiset(keys)
    ensures forall k :: k in Tally(keys) ==> Tally(keys)[k] == multiset(keys)[k]
  {
    if |keys| > 0 {
      var front, last := keys[..|keys| - 1], keys[|keys| - 1];
      TallyCounts(front);
      assert keys == front + [last];
      assert multiset(keys) == multiset(front) + multiset{last};
    }
  }

  // ---------------------------------------------------------------------
  // The event and week loops, as functions of the tables
  // ---------------------------------------------------------------------

  /**
   * One week of an occurrence. An unseen key gets a row when at least two
   * people are free at the start and the location is allowed; a seen key
   * gets the course's timetable link while its row is narrower than the cap.
   */
  function WeekStep(snap: Snapshot, ctx: Context, ev: Event, begin: string, day: nat, start: real, week: nat,
                    lectures: map<string, Record>): Result<map<string, Record>>
  {
    var key := EventKey(ev.uuid, week);
    if key !in lectures then
      var available := Available(snap.times, snap.currentWeek, week, day, start, 0.0);
      if |available| >= 2 && IsAllowedLocation(AddressOr(ev, "")) then
        match NewRecord(ctx, ev, begin, available, week, day)
        case Err(e) => Err(e)
        case Ok(row) => Ok(lectures[key := row])
      else Ok(lectures)
    else if Width(lectures[key]) < MaxRowWidth then
      Ok(lectures[key := AddLink(lectures[key], ctx.timetableUrl)])
    else Ok(lectures)
  }

  /** The weeks of an occurrence, in order, until one raises. */
  function WeeksFrom(snap: Snapshot, ctx: Context, ev: Event, begin: string, day: nat, start: real,
                     weeks: seq<nat>, lectures: map<string, Record>): Partial
    decreases |weeks|
  {
    if |weeks| == 0 then Partial(lectures, None)
    else
      match WeekStep(snap, ctx, ev, begin, day, start, weeks[0], lectures)
      case Err(e) => Partial(lectures, Some(e))
      case Ok(next) => WeeksFrom(snap, ctx, ev, begin, day, start, weeks[1..], next)
  }

  /** An occurrence with a weekday and a start time that has passed the type filter. */
  function ScheduledStep(snap: Snapshot, ctx: Context, ev: Event, weekday: string, begin: string, t: Tables): Run
  {
    match ParseInt(weekday)
    case Err(e) => Run(t, Raised(e))
    case Ok(day) =>
      match TimeToFloat(begin)
      case Err(e) => Run(t, Raised(e))
      case Ok(start) =>
        var counted := if IsAllowedLocation(AddressOr(ev, "")) then Increment(t.lectureTimes, begin) else t.lectureTimes;
        match AcademicWeeks(ev.academicWeeks)
        case Err(e) => Run(Tables(t.lectures, counted), Raised(e))
        case Ok(weeks) =>
          var swept := WeeksFrom(snap, ctx, ev, begin, day, start, weeks, t.lectures);
          Run(Tables(swept.lectures, counted), if swept.failure.Some? then Raised(swept.failure.value) else Finished)
  }

  /** One occurrence: the checks that end the course, then the scheduled part. */
  function EventStep(snap: Snapshot, ctx: Context, ev: Event, t: Tables): Run
  {
    if ev.weekday.None? || ev.beginTime.None? then Run(t, MalformedLectureTimes)
    else
      match IsAllowedLectureType(ev)
      case Err(e) => Run(t, Raised(e))
      case Ok(allowed) =>
        if !allowed then Run(t, DisallowedType)
        else ScheduledStep(snap, ctx, ev, ev.weekday.value, ev.beginTime.value, t)
  }

  /** The occurrences of a course, in order, until one ends the course. */
  function EventsFrom(snap: Snapshot, ctx: Context, events: seq<Event>, t: Tables): Run
    decreases |events|
  {
    if |events| == 0 then Run(t, Finished)
    else
      var r := EventStep(snap, ctx, events[0], t);
      if r.halt.Finished? then EventsFrom(snap, ctx, events[1..], r.tables) else r
  }

  /** The fields a course's rows repeat, from its details, its registration and its links. */
  function ContextOf(details: CourseDetails, registration: Registration,
                     courseUrl: string, planUrl: string, timetableUrl: string): Context
  {
    Context(details.unitCode, registration.courseCode, details.titleEt, registration.registeredStudents,
            if registration.groups.Some? then registration.groups.value else 0,
            courseUrl, planUrl, timetableUrl)
  }

  /**
   * A whole course: open-university courses, courses not open to bachelor
   * students and courses without registration data are skipped.
   */
  function CourseRun(snap: Snapshot, details: CourseDetails, registration: Option<Registration>,
                     courseUrl: string, planUrl: string, timetableUrl: string,
                     events: seq<Event>, t: Tables): Run
  {
    if details.studyTypeCode == "openuniv" || !IsAllowedStudyLevel(details) || registration.None? then
      Run(t, Skipped)
    else
      EventsFrom(snap, ContextOf(details, registration.value, courseUrl, planUrl, timetableUrl), events, t)
  }

  // ---------------------------------------------------------------------
  // The mutable tables
  // ---------------------------------------------------------------------

  /** The globals `lectures` and `lecture_times`. */
  class ResultTable {
    var lectures: map<string, Record>
    var lectureTimes: map<string, nat>

    constructor()
      ensures lectures == map[] && lectureTimes == map[]
    {
      lectures := map[];
      lectureTimes := map[];
    }

    /** Both tables, as a value. */
    function State(): Tables
      reads this
    {
      Tables(lectures, lectureTimes)
    }

    /** IncrementDict on the start-time histogram. */
    method IncrementDict(key: string)
      modifies this
      ensures lectureTimes == Increment(old(lectureTimes), key)
      ensures lectures == old(lectures)
    {
      if key in lectureTimes {
        lectureTimes := lectureTimes[key := lectureTimes[key] + 1];
      } else {
        lectureTimes := lectureTimes[key := 1];
      }
    }

    /** The body of the week loop for one week. */
    method ProcessWeek(avail: AvailabilityTable, ctx: Context, ev: Event, begin: string, day: nat, start: real, week: nat)
      returns (failure: Option<Error>)
      modifies this
      ensures lectureTimes == old(lectureTimes)
      ensures WeekStep(avail.State(), ctx, ev, begin, day, start, week, old(lectures)) ==
              if failure.Some? then Err(failure.value) else Ok(lectures)
      ensures failure.Some? ==> lectures == old(lectures)
    {
      failure := None;
      var key := EventKey(ev.uuid, week);
      if key !in lectures {
        var availables := avail.GetAvailablePeople(week, day, start, 0.0);
        if |availables| >= 2 {
          if IsAllowedLocation(AddressOr(ev, "")) {
            var row := NewRecord(ctx, ev, begin, availables, week, day);
            if row.Err? {
              return Some(row.error);
            }
            lectures := lectures[key := row.value];
          }
        }
      } else if Width(lectures[key]) < MaxRowWidth {
        lectures := lectures[key := AddLink(lectures[key], ctx.timetableUrl)];
      }
    }

    /** The week loop of one occurrence. */
    method ProcessWeeks(avail: AvailabilityTable, ctx: Context, ev: Event, begin: string, day: nat, start: real, weeks: seq<nat>)
      returns (failure: Option<Error>)
      modifies this
      ensures lectureTimes == old(lectureTimes)
      ensures WeeksFrom(avail.State(), ctx, ev, begin, day, start, weeks, old(lectures)) == Partial(lectures, failure)
    {
      var j := 0;
      while j < |weeks|
        invariant j <= |weeks|
        invariant lectureTimes == old(lectureTimes)
        invariant WeeksFrom(avail.State(), ctx, ev, begin, day, start, weeks, old(lectures)) ==
                  WeeksFrom(avail.State(), ctx, ev, begin, day, start, weeks[j..], lectures)
      {
        assert weeks[j..][0] == weeks[j] && weeks[j..][1..] == weeks[j + 1..];
        failure := ProcessWeek(avail, ctx, ev, begin, day, start, weeks[j]);
        if failure.Some? {
          return;
        }
        j := j + 1;
      }
      failure := None;
    }

    /** The body of the event loop for one occurrence. */
    method ProcessEvent(avail: AvailabilityTable, ctx: Context, ev: Event) returns (halt: Halt)
      modifies this
      ensures EventStep(avail.State(), ctx, ev, old(State())) == Run(State(), halt)
    {
      if ev.weekday.None? || ev.beginTime.None? {
        return MalformedLectureTimes;
      }
      var allowed := IsAllowedLectureType(ev);
      if allowed.Err? {
        return Raised(allowed.error);
      }
      if !allowed.value {
        return DisallowedType;
      }
      halt := ProcessScheduled(avail, ctx, ev, ev.weekday.value, ev.beginTime.value);
    }

    /** An occurrence that passed the checks: weekday, start, histogram, weeks. */
    method ProcessScheduled(avail: AvailabilityTable, ctx: Context, ev: Event, weekday: string, begin: string)
      returns (halt: Halt)
      modifies this
      ensures ScheduledStep(avail.State(), ctx, ev, weekday, begin, old(State())) == Run(State(), halt)
    {
      var day := ParseInt(weekday);
      if day.Err? {
        return Raised(day.error);
      }
      var start := TimeToFloat(begin);
      if start.Err? {
        return Raised(start.error);
      }
      if IsAllowedLocation(AddressOr(ev, "")) {
        IncrementDict(begin);
      }
      var weeks := GetAcademicWeeks(ev.academicWeeks);
      if weeks.Err? {
        return Raised(weeks.error);
      }
      var failure := ProcessWeeks(avail, ctx, ev, begin, day.value, start.value, weeks.value);
      halt := if failure.Some? then Raised(failure.value) else Finished;
    }

    /** The event loop of ProcessCourse: stops at the first occurrence that ends the course. */
    method ProcessEvents(avail: AvailabilityTable, ctx: Context, events: seq<Event>) returns (halt: Halt)
      modifies this
      ensures EventsFrom(avail.State(), ctx, events, old(State())) == Run(State(), halt)
    {
      var i := 0;
      while i < |events|
        invariant i <= |events|
        invariant EventsFrom(avail.State(), ctx, events, old(State())) ==
                  EventsFrom(avail.State(), ctx, events[i..], State())
      {
        assert events[i..][0] == events[i] && events[i..][1..] == events[i + 1..];
        var step := ProcessEvent(avail, ctx, events[i]);
        if !step.Finished? {
          return step;
        }
        i := i + 1;
      }
      halt := Finished;
    }

    /** ProcessCourse, from the course details and the registration data on. */
    method ProcessCourse(avail: AvailabilityTable, details: CourseDetails, registration: Option<Registration>,
                         courseUrl: string, planUrl: string, timetableUrl: string, events: seq<Event>)
      returns (halt: Halt)
      modifies this
      ensures CourseRun(avail.State(), details, registration, courseUrl, planUrl, timetableUrl, events, old(State())) ==
              Run(State(), halt)
    {
      if details.studyTypeCode == "openuniv" {
        return Skipped;
      }
      if !IsAllowedStudyLevel(details) {
        return Skipped;
      }
      if registration.None? {
        return Skipped;
      }
      var ctx := ContextOf(details, registration.value, courseUrl, planUrl, timetableUrl);
      halt := ProcessEvents(avail, ctx, events);
    }
  }

  // ---------------------------------------------------------------------
  // One week of an occurrence
  // ---------------------------------------------------------------------

  /**
   * An unseen key: a row is created exactly when at least two people are
   * free at the start and the location is allowed (a KeyError when the
   * occurrence has no study_work_type); the new row has one link.
   */
  lemma FirstSighting(snap: Snapshot, ctx: Context, ev: Event, begin: string, day: nat, start: real, week: nat,
                      lectures: map<string, Record>)
    requires EventKey(ev.uuid, week) !in lectures
    ensures var r := WeekStep(snap, ctx, ev, begin, day, start, week, lectures);
            var available := Available(snap.times, snap.currentWeek, week, day, start, 0.0);
            var eligible := |available| >= 2 && IsAllowedLocation(AddressOr(ev, ""));
            && (r.Ok? && EventKey(ev.uuid, week) in r.value <==> eligible && ev.studyWorkType.Some?)
            && (r.Err? <==> eligible && ev.studyWorkType.None?)
            && (r.Ok? && EventKey(ev.uuid, week) in r.value ==>
                  r.value[EventKey(ev.uuid, week)].available == available &&
                  r.value[EventKey(ev.uuid, week)].links == [ctx.timetableUrl])
  {
  }

  /**
   * A seen key never gets a second row: its row gains the timetable link
   * while it is narrower than the cap, and is left as it is once it is at
   * the cap.
   */
  lemma SecondSighting(snap: Snapshot, ctx: Context, ev: Event, begin: string, day: nat, start: real, week: nat,
                       lectures: map<string, Record>)
    requires EventKey(ev.uuid, week) in lectures
    ensures var key := EventKey(ev.uuid, week);
            var r := WeekStep(snap, ctx, ev, begin, day, start, week, lectures);
            && r.Ok? && r.value.Keys == lectures.Keys
            && r.value[key].(links := lectures[key].links) == lectures[key]
            && r.value[key].links == lectures[key].links + (if Width(lectures[key]) < MaxRowWidth then [ctx.timetableUrl] else [])
  {
  }

  /** A week touches no row but its own key's. */
  lemma WeekStepFrame(snap: Snapshot, ctx: Context, ev: Event, begin: string, day: nat, start: real, week: nat,
                      lectures: map<string, Record>, k: string)
    requires WeekStep(snap, ctx, ev, begin, day, start, week, lectures).Ok?
    requires k != EventKey(ev.uuid, week)
    ensures k in WeekStep(snap, ctx, ev, begin, day, start, week, lectures).value <==> k in lectures
    ensures k in lectures ==> WeekStep(snap, ctx, ev, begin, day, start, week, lectures).value[k] == lectures[k]
  {
  }

  /**
   * No row is ever created for a week other than the current one: only the
   * links of existing rows can change.
   */
  lemma NoRowOutsideCurrentWeek(snap: Snapshot, ctx: Context, ev: Event, begin: string, day: nat, start: real, week: nat,
                                lectures: map<string, Record>)
    requires week != snap.currentWeek
    ensures WeekStep(snap, ctx, ev, begin, day, start, week, lectures).Ok?
    ensures WeekStep(snap, ctx, ev, begin, day, start, week, lectures).value.Keys == lectures.Keys
  {
  }

  // ---------------------------------------------------------------------
  // What every run keeps
  // ---------------------------------------------------------------------

  /** Every row of `before` is in `after` with the same cells and possibly more links. */
  ghost predicate Extends(before: map<string, Record>, after: map<string, Record>)
  {
    forall k :: k in before ==>
      k in after && after[k].(links := before[k].links) == before[k] && before[k].links <= after[k].links
  }

  /** No count of `before` is lost or lowered in `after`. */
  ghost predicate CountsGrow(before: map<string, nat>, after: map<string, nat>)
  {
    forall k :: k in before ==> k in after && before[k] <= after[k]
  }

  /**
   * A row as the update creates and grows it: at least one link and at
   * most the cap of cells, at least two people, an allowed address.
   */
  predicate RowValid(row: Record)
  {
    FixedCells + 1 <= Width(row) <= MaxRowWidth && |row.available| >= 2 && IsAllowedLocation(row.address)
  }

  ghost predicate TableValid(lectures: map<string, Record>)
  {
    forall k :: k in lectures ==> RowValid(lectures[k])
  }

  lemma ExtendsReflexive(m: map<string, Record>)
    ensures Extends(m, m)
  {
    forall k | k in m
      ensures m[k].(links := m[k].links) == m[k]
    {
    }
  }

  lemma ExtendsTransitive(a: map<string, Record>, b: map<string, Record>, c: map<string, Record>)
    requires Extends(a, b) && Extends(b, c)
    ensures Extends(a, c)
  {
    forall k | k in a
      ensures c[k].(links := a[k].links) == a[k]
    {
      assert c[k].(links := b[k].links).(links := a[k].links) == c[k].(links := a[k].links);
    }
  }

  /** Storing a row that keeps the cells of the one it replaces, if any, extends the table. */
  lemma ExtendsByUpdate(m: map<string, Record>, key: string, row: Record)
    requires key in m ==> row.(links := m[key].links) == m[key] && m[key].links <= row.links
    ensures Extends(m, m[key := row])
  {
    ExtendsReflexive(m);
  }

  /** Storing a valid row keeps a valid table valid. */
  lemma ValidByUpdate(m: map<string, Record>, key: string, row: Record)
    requires TableValid(m) && RowValid(row)
    ensures TableValid(m[key := row])
  {
  }

  /** A row created for an eligible occurrence is valid; "-" stands for a missing address. */
  lemma NewRecordValid(ctx: Context, ev: Event, begin: string, available: set<string>, week: nat, day: nat)
    requires NewRecord(ctx, ev, begin, available, week, day).Ok?
    requires |available| >= 2 && IsAllowedLocation(AddressOr(ev, ""))
    ensures RowValid(NewRecord(ctx, ev, begin, available, week, day).value)
  {
    if ev.address.None? {
      NoLettersAllowed("-");
    }
  }

  /** One week keeps every row and keeps every row valid. */
  lemma WeekStepGrows(snap: Snapshot, ctx: Context, ev: Event, begin: string, day: nat, start: real, week: nat,
                      lectures: map<string, Record>)
    requires WeekStep(snap, ctx, ev, begin, day, start, week, lectures).Ok?
    ensures Extends(lectures, WeekStep(snap, ctx, ev, begin, day, start, week, lectures).value)
    ensures TableValid(lectures) ==> TableValid(WeekStep(snap, ctx, ev, begin, day, start, week, lectures).value)
  {
    var key := EventKey(ev.uuid, week);
    ExtendsReflexive(lectures);
    if key !in lectures {
      var available := Available(snap.times, snap.currentWeek, week, day, start, 0.0);
      if |available| >= 2 && IsAllowedLocation(AddressOr(ev, "")) {
        var row := NewRecord(ctx, ev, begin, available, week, day).value;
        ExtendsByUpdate(lectures, key, row);
        if TableValid(lectures) {
          NewRecordValid(ctx, ev, begin, available, week, day);
          ValidByUpdate(lectures, key, row);
        }
      }
    } else if Width(lectures[key]) < MaxRowWidth {
      var row := AddLink(lectures[key], ctx.timetableUrl);
      ExtendsByUpdate(lectures, key, row);
      if TableValid(lectures) {
        assert RowValid(lectures[key]);
        ValidByUpdate(lectures, key, row);
      }
    }
  }

  /** The weeks of an occurrence keep every row and keep every row valid. */
  lemma {:induction false} WeeksFromGrows(snap: Snapshot, ctx: Context, ev: Event, begin: string, day: nat, start: real,
                                          weeks: seq<nat>, lectures: map<string, Record>)
    ensures Extends(lectures, WeeksFrom(snap, ctx, ev, begin, day, start, weeks, lectures).lectures)
    ensures TableValid(lectures) ==> TableValid(WeeksFrom(snap, ctx, ev, begin, day, start, weeks, lectures).lectures)
    decreases |weeks|
  {
    ExtendsReflexive(lectures);
    if |weeks| > 0 {
      var step := WeekStep(snap, ctx, ev, begin, day, start, weeks[0], lectures);
      if step.Ok? {
        WeekStepGrows(snap, ctx, ev, begin, day, start, weeks[0], lectures);
        WeeksFromGrows(snap, ctx, ev, begin, day, start, weeks[1..], step.value);
        ExtendsTransitive(lectures, step.value, WeeksFrom(snap, ctx, ev, begin, day, start, weeks[1..], step.value).lectures);
      }
    }
  }

  /** An occurrence past the checks keeps every row, keeps every row valid and only raises counts. */
  lemma ScheduledStepGrows(snap: Snapshot, ctx: Context, ev: Event, weekday: string, begin: string, t: Tables)
    ensures Extends(t.lectures, ScheduledStep(snap, ctx, ev, weekday, begin, t).tables.lectures)
    ensures TableValid(t.lectures) ==> TableValid(ScheduledStep(snap, ctx, ev, weekday, begin, t).tables.lectures)
    ensures CountsGrow(t.lectureTimes, ScheduledStep(snap, ctx, ev, weekday, begin, t).tables.lectureTimes)
  {
    ExtendsReflexive(t.lectures);
    if ParseInt(weekday).Ok? && TimeToFloat(begin).Ok? && AcademicWeeks(ev.academicWeeks).Ok? {
      WeeksFromGrows(snap, ctx, ev, begin, ParseInt(weekday).value, TimeToFloat(begin).value,
                     AcademicWeeks(ev.academicWeeks).value, t.lectures);
    }
  }

  /** One occurrence keeps every row, keeps every row valid and only raises counts. */
  lemma EventStepGrows(snap: Snapshot, ctx: Context, ev: Event, t: Tables)
    ensures Extends(t.lectures, EventStep(snap, ctx, ev, t).tables.lectures)
    ensures TableValid(t.lectures) ==> TableValid(EventStep(snap, ctx, ev, t).tables.lectures)
    ensures CountsGrow(t.lectureTimes, EventStep(snap, ctx, ev, t).tables.lectureTimes)
  {
    ExtendsReflexive(t.lectures);
    if ev.weekday.Some? && ev.beginTime.Some? && IsAllowedLectureType(ev) == Ok(true) {
      ScheduledStepGrows(snap, ctx, ev, ev.weekday.value, ev.beginTime.value, t);
    }
  }

  /**
   * The occurrences of a course keep every row (a key is never replaced,
   * only its links grow), keep every row within the cap and valid, and
   * only raise histogram counts.
   */
  lemma {:induction false} EventsFromGrows(snap: Snapshot, ctx: Context, events: seq<Event>, t: Tables)
    ensures Extends(t.lectures, EventsFrom(snap, ctx, events, t).tables.lectures)
    ensures TableValid(t.lectures) ==> TableValid(EventsFrom(snap, ctx, events, t).tables.lectures)
    ensures CountsGrow(t.lectureTimes, EventsFrom(snap, ctx, events, t).tables.lectureTimes)
    decreases |events|
  {
    ExtendsReflexive(t.lectures);
    if |events| > 0 {
      var r := EventStep(snap, ctx, events[0], t);
      EventStepGrows(snap, ctx, events[0], t);
      if r.halt.Finished? {
        EventsFromGrows(snap, ctx, events[1..], r.tables);
        ExtendsTransitive(t.lectures, r.tables.lectures, EventsFrom(snap, ctx, events[1..], r.tables).tables.lectures);
      }
    }
  }

  // ---------------------------------------------------------------------
  // Where a course stops
  // ---------------------------------------------------------------------

  /** An occurrence the course cannot go past: no weekday, no start time, or a blacklisted type. */
  predicate Rejected(ev: Event)
  {
    ev.weekday.None? || ev.beginTime.None? || IsAllowedLectureType(ev) == Ok(false)
  }

  /** A rejected occurrence ends the course and changes nothing. */
  lemma RejectedEventStops(snap: Snapshot, ctx: Context, ev: Event, t: Tables)
    requires Rejected(ev)
    ensures EventStep(snap, ctx, ev, t).tables == t
    ensures EventStep(snap, ctx, ev, t).halt ==
            if ev.weekday.None? || ev.beginTime.None? then MalformedLectureTimes else DisallowedType
  {
  }

  /**
   * A rejected occurrence ends the course: the occurrences after it are
   * never looked at, and the tables are those left by the ones before it.
   */
  lemma {:induction false} EventsStopAtRejected(snap: Snapshot, ctx: Context, events: seq<Event>, t: Tables, j: nat)
    requires j < |events| && Rejected(events[j])
    ensures EventsFrom(snap, ctx, events, t) == EventsFrom(snap, ctx, events[..j + 1], t)
    ensures EventsFrom(snap, ctx, events, t).halt != Finished
    ensures EventsFrom(snap, ctx, events, t).tables == EventsFrom(snap, ctx, events[..j], t).tables
    decreases j
  {
    var r := EventStep(snap, ctx, events[0], t);
    PrefixShapes(events, j);
    if j == 0 {
      RejectedEventStops(snap, ctx, events[0], t);
    } else if r.halt.Finished? {
      EventsStopAtRejected(snap, ctx, events[1..], r.tables, j - 1);
    }
  }

  /** The first element and the tail of the prefixes of a sequence. */
  lemma PrefixShapes<T>(s: seq<T>, j: nat)
    requires j < |s|
    ensures s[..j + 1][0] == s[0] && s[..j + 1][1..] == s[1..][..j]
    ensures j > 0 ==> s[..j][0] == s[0] && s[..j][1..] == s[1..][..j - 1]
    ensures j == 0 ==> s[..j] == []
  {
  }

  /** The event loop never reports a skipped course. */
  lemma {:induction false} EventsNeverSkip(snap: Snapshot, ctx: Context, events: seq<Event>, t: Tables)
    ensures EventsFrom(snap, ctx, events, t).halt != Skipped
    decreases |events|
  {
    if |events| > 0 {
      var r := EventStep(snap, ctx, events[0], t);
      if r.halt.Finished? {
        EventsNeverSkip(snap, ctx, events[1..], r.tables);
      }
    }
  }

  /**
   * A course is skipped, with the tables unchanged, exactly when it is an
   * open-university course, is closed to bachelor students or has no
   * registration data.
   */
  lemma CourseSkipped(snap: Snapshot, details: CourseDetails, registration: Option<Registration>,
                      courseUrl: string, planUrl: string, timetableUrl: string, events: seq<Event>, t: Tables)
    ensures var r := CourseRun(snap, details, registration, courseUrl, planUrl, timetableUrl, events, t);
            r.halt == Skipped <==>
              details.studyTypeCode == "openuniv" || !IsAllowedStudyLevel(details) || registration.None?
    ensures var r := CourseRun(snap, details, registration, courseUrl, planUrl, timetableUrl, events, t);
            r.halt == Skipped ==> r.tables == t
  {
    if !(details.studyTypeCode == "openuniv" || !IsAllowedStudyLevel(details) || registration.None?) {
      EventsNeverSkip(snap, ContextOf(details, registration.value, courseUrl, planUrl, timetableUrl), events, t);
    }
  }

  // ---------------------------------------------------------------------
  // A worked case
  // ---------------------------------------------------------------------

  /** A day on which A is free 9:30-11:00, B is free 10:00-10:30 and C is never free. */
  function ScenarioDay(): DaySchedule
  {
    map["A" := [Interval(9.5, 11.0)], "B" := [Interval(10.0, 10.5)], "C" := []]
  }

  /** With that day as weekday 2 of current week 5, A and B are free at 10:00; in week 6 nobody is. */
  lemma ScenarioAvailable(snap: Snapshot)
    requires snap.currentWeek == 5 && 5 in snap.times && 2 in snap.times[5] && snap.times[5][2] == ScenarioDay()
    ensures Available(snap.times, snap.currentWeek, 5, 2, 10.0, 0.0) == {"A", "B"}
    ensures Available(snap.times, snap.currentWeek, 6, 2, 10.0, 0.0) == {}
  {
    var day := snap.times[5][2];
    assert Covers(day["A"][0], 10.0, 0.0) && Covers(day["B"][0], 10.0, 0.0);
    assert day["C"] == [];
    assert day.Keys == {"A", "B", "C"};
  }

  /** The texts of the worked case: weekday "2", start "10:00", weeks "5-6". */
  lemma ScenarioWeekday(weekday: string)
    requires weekday == "2"
    ensures ParseInt(weekday) == Ok(2)
  {
    ParseIntOfDigits(weekday);
  }

  lemma ScenarioStart(begin: string)
    requires begin == "10:00"
    ensures TimeToFloat(begin) == Ok(10.0)
  {
    assert DigitsValue("10") == 10 && DigitsValue("00") == 0;
    ClockValue(begin, "10", "00", 10, 0);
  }

  lemma ScenarioWeeks(weeks: string)
    requires weeks == "5-6"
    ensures AcademicWeeks(weeks) == Ok([5, 6])
  {
    WeekRangePart(weeks, "5", "6");
    assert ',' !in weeks;
    WeeksOfOnePart(weeks);
    assert Range(5, 7) == [5, 6];
  }

  /** Weeks 5 and 6 of the worked occurrence: one row, for week 5, listing A and B. */
  lemma ScenarioSweep(snap: Snapshot, ctx: Context, ev: Event, begin: string)
    requires snap.currentWeek == 5 && 5 in snap.times && 2 in snap.times[5] && snap.times[5][2] == ScenarioDay()
    requires ev.studyWorkType.Some? && IsAllowedLocation(AddressOr(ev, ""))
    ensures var swept := WeeksFrom(snap, ctx, ev, begin, 2, 10.0, [5, 6], map[]);
            && swept.failure == None
            && swept.lectures.Keys == {EventKey(ev.uuid, 5)}
            && swept.lectures[EventKey(ev.uuid, 5)].available == {"A", "B"}
  {
    ScenarioAvailable(snap);
    var key5, key6 := EventKey(ev.uuid, 5), EventKey(ev.uuid, 6);
    var first := WeekStep(snap, ctx, ev, begin, 2, 10.0, 5, map[]);
    assert first.Ok? && first.value.Keys == {key5} && first.value[key5].available == {"A", "B"};
    assert key6 != key5 by {
      if key6 == key5 {
        EventKeyInjective(ev.uuid, 6, ev.uuid, 5);
      }
    }
    assert WeekStep(snap, ctx, ev, begin, 2, 10.0, 6, first.value) == first;
    assert [5, 6][1..] == [6] && [6][1..] == [];
  }

  /** An occurrence of type "lecture" passes the type filter. */
  lemma LectureAllowed(ev: Event)
    requires ev.studyWorkType.Some? && ev.studyWorkType.value.code == "lecture"
    ensures IsAllowedLectureType(ev) == Ok(true)
  {
    assert "lecture" !in BlacklistedLectureTypes;
  }

  /** The scheduled part of the worked occurrence, from an empty result table. */
  lemma ScenarioScheduled(snap: Snapshot, ctx: Context, ev: Event, weekday: string, begin: string, counts: map<string, nat>)
    requires snap.currentWeek == 5 && 5 in snap.times && 2 in snap.times[5] && snap.times[5][2] == ScenarioDay()
    requires ParseInt(weekday) == Ok(2) && TimeToFloat(begin) == Ok(10.0)
    requires AcademicWeeks(ev.academicWeeks) == Ok([5, 6])
    requires ev.studyWorkType.Some? && IsAllowedLocation(AddressOr(ev, ""))
    ensures var r := ScheduledStep(snap, ctx, ev, weekday, begin, Tables(map[], counts));
            && r.halt == Finished
            && r.tables.lectures.Keys == {EventKey(ev.uuid, 5)}
            && r.tables.lectures[EventKey(ev.uuid, 5)].available == {"A", "B"}
  {
    ScenarioSweep(snap, ctx, ev, begin);
  }

  /**
   * The worked case end to end: an allowed lecture whose weekday reads as 2,
   * whose start reads as 10.0 and whose weeks read as [5, 6] (the texts "2",
   * "10:00" and "5-6" do, by the three lemmas above) yields exactly one row,
   * for week 5, listing A and B; week 6 is not the current week and yields
   * none.
   */
  lemma MatchingScenario(snap: Snapshot, ctx: Context, ev: Event, counts: map<string, nat>)
    requires snap.currentWeek == 5 && 5 in snap.times && 2 in snap.times[5] && snap.times[5][2] == ScenarioDay()
    requires ev.weekday.Some? && ParseInt(ev.weekday.value) == Ok(2)
    requires ev.beginTime.Some? && TimeToFloat(ev.beginTime.value) == Ok(10.0)
    requires AcademicWeeks(ev.academicWeeks) == Ok([5, 6])
    requires ev.studyWorkType.Some? && ev.studyWorkType.value.code == "lecture"
    requires IsAllowedLocation(AddressOr(ev, ""))
    ensures var r := EventsFrom(snap, ctx, [ev], Tables(map[], counts));
            && r.halt == Finished
            && r.tables.lectures.Keys == {EventKey(ev.uuid, 5)}
            && r.tables.lectures[EventKey(ev.uuid, 5)].available == {"A", "B"}
  {
    LectureAllowed(ev);
    ScenarioScheduled(snap, ctx, ev, ev.weekday.value, ev.beginTime.value, counts);
    assert [ev][1..] == [];
  }
}

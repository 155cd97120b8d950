# Lecture-bash scraper: a verified model of its scheduling core

`scrape.py` looks for lectures where at least two members of a group are
free at the start of the lecture. It works in three steps:

- it reads the group's free times from a spreadsheet;
- it walks the University of Tartu timetable API course by course;
- it records every (lecture occurrence, week) pair that qualifies, as one row of a result sheet.

This project models the scheduling core of that script in Dafny and proves
properties about it. The core is:

- **Text parsers**: `TimeToFloat` ("13:30" is 13.5 hours), `GetAcademicWeeks`
  ("3-5,8" is weeks 3, 4, 5, 8) and `ParseTimeRanges` (a free-time cell such
  as "9:00-11:00,14:00-15:30").
- **Filters**: `IsAllowedLocation` (a city blacklist matched as a
  case-insensitive substring), `IsAllowedLectureType` (a blacklist of type
  codes) and `IsAllowedStudyLevel` (bachelor courses only).
- **The availability index**: the build loop reads the free-times sheet
  into week -> weekday -> person -> free windows and reads the current week
  from cell [1][0]. `GetAvailablePeople` lists the people who have a window
  covering an instant, and only for the current week.
- **The result table**: `ProcessCourse` walks the occurrences of a course.
  - It counts each start time in a histogram (`IncrementDict`).
  - It expands the occurrence's academic weeks.
  - For each week it creates a row, the first time the key `uuid_week` is seen, provided at least two people are free and the location is allowed.
  - On a later sighting of that key it appends a timetable link, until the row has 38 cells.

## Files

| file | contents |
|---|---|
| `wrappers.dfy` | `Option`, `Result`, `Outcome` and the Python exceptions the core can raise |
| `text.dfy` | the Python string operations used: `split`, `int()`/`float()` of a numeral, `str()` of a natural number, `startswith`, substring `in`, `lower()` |
| `time_parsing.dfy` | `TimeToFloat`, `GetAcademicWeeks`, `ParseTimeRanges` |
| `api_data.dfy` | the fields of the API's JSON objects that the core reads |
| `filters.dfy` | the three filters |
| `availability.dfy` | the index build (class `AvailabilityTable`, method `Load`) and `GetAvailablePeople` |
| `lectures.dfy` | the result table (class `ResultTable`): `IncrementDict`, the event/week loop of `ProcessCourse`, and the course skips before it |

Each loop of the source that builds a collection or changes state is a method. The two search loops (scrape.py:86-88 and 97-99) are functions: a quantifier and a recursion.
- Each method is proved equal to a specification function, as listed below.
- The lemmas state the source's promises about those functions.

| method | specification function |
|---|---|
| `TimeParsing.GetAcademicWeeks` | `AcademicWeeks` |
| `TimeParsing.AppendPartWeeks` | `PartWeeks` |
| `TimeParsing.ParseTimeRanges` | `TimeRanges` |
| `Availability.ReadCell` | `CellRanges` |
| `Availability.ReadDay` | `DayOf` |
| `Availability.AvailabilityTable.LoadWeek` | `WeekOf` |
| `Availability.AvailabilityTable.Load` | `Build` |
| `Availability.AvailabilityTable.GetAvailablePeople` | `Available` |
| `Lectures.ResultTable.IncrementDict` | `Increment` |
| `Lectures.ResultTable.ProcessWeek` | `WeekStep` |
| `Lectures.ResultTable.ProcessWeeks` | `WeeksFrom` |
| `Lectures.ResultTable.ProcessScheduled` | `ScheduledStep` |
| `Lectures.ResultTable.ProcessEvent` | `EventStep` |
| `Lectures.ResultTable.ProcessEvents` | `EventsFrom` |
| `Lectures.ResultTable.ProcessCourse` | `CourseRun` |

The module-level globals `available_times`/`current_week` and `lectures`/`lecture_times` become the fields of the two classes.

### Behaviour of scrape.py worth knowing

- **Person names.** They sit in the "Week N" row itself, from column 1 on (scrape.py:129-131). The five rows after it are weekdays 1 to 5.
- **Ragged tables.** The table need not be rectangular. A missing cell reads as "", which gives no free windows (scrape.py:131).
- **A missing weekday row.** Take a "Week N" row that has at least one person column but fewer than five rows after it. Reading it fails with an `IndexError` (scrape.py:131-133). The `except` handler indexes the missing row again, so the error escapes it.
- **Exceptions inside a course.** An exception raised while processing a course is not fatal to the run.
  - Each course runs as an `asyncio` task, and `asyncio.wait` keeps the exception inside the task (scrape.py:214).
  - So the exception ends only that course, and the rows and counts it already stored stay.
  - This is modelled as the course outcome `Raised(error)`.
- **Two defaults for a missing address.** The location test reads a missing address as "" (scrape.py:194, 201). The row stores it as "-" (scrape.py:203). Both are allowed.

## Model

| member | source | states |
|---|---|---|
| Text.Split | scrape.py:54 | `str.split(sep)` gives at least one piece, no piece contains the separator, and a text without the separator is its only piece |
| Text.JoinSplit | scrape.py:67-68 | joining the pieces of a split with the separator gives the text back |
| Text.SplitJoin | scrape.py:79-80 | splitting a join of separator-free pieces gives the pieces back |
| Text.SplitAtFirst | scrape.py:80 | splitting at the first separator yields the text before it, then the pieces of the rest |
| Text.ParseInt | scrape.py:57 | `int()`/`float()` of a text succeeds only if a digit occurs in it; every failure is a `ValueError` carrying the text |
| Text.ParseIntOfDigits | scrape.py:70 | `int()` of a digit string is its decimal value |
| Text.ParseIntOfNatToString | scrape.py:197 | `int(str(n)) == n` |
| Text.NatToStringInjective | scrape.py:197 | `str()` maps different numbers to different texts |
| Text.Contains | scrape.py:87 | `p in s` holds exactly when `p` occurs in `s` at some index |
| Text.Lower | scrape.py:85 | `lower()` keeps the length, lowers every character, and leaves no ASCII capital letter in the result |
| TimeParsing.TimeToFloat | scrape.py:53-57 | a time without ':' is an error, and a parsed time is never negative |
| TimeParsing.ClockTime | scrape.py:53-57 | "HH:MM" with digit strings HH and MM is HH + MM/60 hours |
| TimeParsing.ClockTimeOfNumbers | scrape.py:53-57 | the text `str(h) + ":" + str(m)` reads back as h + m/60 |
| TimeParsing.TimeOfFields | scrape.py:54-57 | two numeric ':'-fields give hours plus minutes/60 |
| TimeParsing.HalfPastOne | scrape.py:53-57 | "13:30" is 13.5 |
| TimeParsing.ClockFieldsWithSeconds | scrape.py:54 | "HH:MM:SS" splits at ':' into its three fields |
| TimeParsing.ClockTimeWithSeconds | scrape.py:53-57 | a seconds field after "HH:MM" does not change the time, since only the first two fields are read |
| TimeParsing.RangeIsInterval | scrape.py:72-73 | `range(lo, hi)` is lo, lo+1, ..., hi-1 in ascending order, and empty when hi <= lo |
| TimeParsing.RangeGrows | scrape.py:72-73 | `range(lo, hi+1)` is `range(lo, hi)` followed by hi |
| TimeParsing.GetAcademicWeeks | scrape.py:65-74 | the loop returns exactly the parts' weeks concatenated in order, or the first part's error |
| TimeParsing.AppendPartWeeks | scrape.py:68-73 | one part appends exactly its own weeks to the list built so far |
| TimeParsing.SingleWeekPart | scrape.py:69-70 | a part that is a single number contributes that week |
| TimeParsing.WeekRangePart | scrape.py:71-73 | a part "A-B" contributes A, A+1, ..., B in ascending order, and nothing when B < A |
| TimeParsing.WeeksOfBounds | scrape.py:68-73 | a part whose two '-'-fields read as A and B contributes `range(A, B+1)` |
| TimeParsing.WeeksOfPartsAppend | scrape.py:67-73 | the weeks of two runs of parts are the first run's weeks then the second's, so order is kept |
| TimeParsing.WeeksOfOnePart | scrape.py:67-73 | a text with one part gives that part's weeks |
| TimeParsing.WeeksOfTwoParts | scrape.py:65-74 | a text with two parts gives the first part's weeks, then the second's |
| TimeParsing.ExampleSingleWeek | scrape.py:65-74 | "12" gives [12] |
| TimeParsing.ExampleWeekList | scrape.py:65-74 | "3-5,8" gives [3, 4, 5, 8] |
| TimeParsing.ParseTimeRanges | scrape.py:76-82 | the loop returns exactly the windows of the cell, or the first part's error |
| TimeParsing.TimeRangesShape | scrape.py:76-82 | a cell without a digit gives no windows; otherwise each comma part gives exactly one window, in input order |
| TimeParsing.RangesOfPartsInOrder | scrape.py:79-81 | the k-th window is the k-th part's, and there is one window per part |
| TimeParsing.RangeOfClockTimes | scrape.py:80-81 | two clock times joined by '-' give the window from the first to the second |
| TimeParsing.FormattedRange | scrape.py:80-81 | "h1:m1-h2:m2" written with `str()` gives the window (h1 + m1/60, h2 + m2/60) |
| TimeParsing.ExampleNoRanges | scrape.py:76-82 | "" gives no windows |
| Filters.IsAllowedLocation | scrape.py:84-89 | an address is allowed exactly when no blacklisted city occurs in its lower-cased text |
| Filters.LowerIdempotent | scrape.py:85 | lower-casing twice is lower-casing once |
| Filters.LocationIgnoresCase | scrape.py:85 | lower-casing an address first does not change the verdict |
| Filters.BlacklistedCityRejects | scrape.py:86-88 | any occurrence of a blacklisted city rejects the address |
| Filters.NoLettersAllowed | scrape.py:84-89 | an address with no ASCII letter (A-Z, a-z), such as "", "-" or "18, 51014", is allowed, because every blacklisted city starts with one |
| Filters.NarvaRejected | scrape.py:84-89 | "Narva mnt 18, Tartu" is rejected, since its lower-cased text contains "narva" |
| Filters.IsAllowedLectureType | scrape.py:91-93 | a type is allowed exactly when its code is not blacklisted, and it fails exactly when the code does |
| Filters.StudyWorkTypeDecides | scrape.py:92 | when `study_work_type` is present, `event_type` has no influence |
| Filters.EventTypeDecides | scrape.py:92-93 | without `study_work_type`, the occurrence is allowed exactly when its `event_type` code is not blacklisted |
| Filters.NoTypeRaises | scrape.py:92 | with neither `study_work_type` nor `event_type`, the filter raises `KeyError('event_type')` |
| Filters.ExamRejected | scrape.py:91-93 | an "exam" occurrence is rejected |
| Filters.HasBachelor | scrape.py:97-100 | the level loop finds a level exactly when "bachelor" is among the codes |
| Filters.AddressDefaultsAgree | scrape.py:194-203 | the missing-address defaults "" (tested) and "-" (stored) get the same verdict, so a stored row's address passed the test |
| Filters.IsAllowedStudyLevel | scrape.py:95-102 | a course is allowed exactly when it declares no levels or one of its levels is "bachelor" |
| Availability.BuildReadsCurrentWeek | scrape.py:121 | a successful build took the current week from `int()` of cell [1][0]; without that cell the build is an `IndexError`, and with a non-numeric one a `ValueError`, whatever the rest of the table holds |
| Availability.CellRanges | scrape.py:131-133 | a missing weekday row is an `IndexError`; a missing cell gives no windows; a parse failure is "Malformed time" carrying the cell's text |
| Availability.ReadCell | scrape.py:130-133 | the guarded parse of one cell returns exactly the cell's windows or error |
| Availability.ReadDay | scrape.py:128-131 | the column loop returns exactly the weekday's schedule, or the first cell's error |
| Availability.AvailabilityTable.constructor | scrape.py:16 | the index starts empty |
| Availability.AvailabilityTable.Load | scrape.py:121-134 | the build either passes, leaving the current week and the index the table describes, or fails with the table's first error |
| Availability.AvailabilityTable.LoadWeek | scrape.py:124-134 | a week block replaces its week's entry with the five weekdays read, and leaves the other weeks alone |
| Availability.AvailabilityTable.GetAvailablePeople | scrape.py:104-112 | the result is empty unless the week is the current week and week and day are in the index; a person is in it exactly when one of their windows covers [time, time + duration]; it is a subset of the day's people |
| Availability.RowsFailureSticks | scrape.py:122-134 | once a row fails, the build fails with that error |
| Availability.WeekHasFiveDays | scrape.py:126-127 | a week read has an entry for exactly weekdays 1 to 5 |
| Availability.WeekDays | scrape.py:127-134 | weekday d of a week read is the schedule read from the d-th row below the marker |
| Availability.DayPeople | scrape.py:129-131 | a weekday has one entry per name in the marker row from column 1 on |
| Availability.DayValues | scrape.py:129-131 | a person's windows are those of the last column with their name; a missing cell gives no windows |
| Availability.RowsOverride | scrape.py:122-134 | the build overrides the index it starts from with the weeks the table holds |
| Availability.BuildIdempotent | scrape.py:120-134 | building from the same table again gives the same snapshot |
| Availability.RowsWeeks | scrape.py:123-126 | every new week of the index is the block of a "Week N" row with that number, and every such row's number is in the index |
| Availability.BuiltWeeksHaveFiveDays | scrape.py:122-134 | every week of an index built from scratch has exactly weekdays 1 to 5 |
| Lectures.EventKeyInjective | scrape.py:197 | `uuid + "_" + str(week)` determines both the uuid and the week, so two occurrences or two weeks never share a row |
| Lectures.StartTimeDropsSeconds | scrape.py:203 | `begin_time[:-3]` turns "HH:MM:SS" into "HH:MM" |
| Lectures.StartTimeSameClock | scrape.py:193-203 | the start-time cell of "HH:MM:SS" denotes the same time, HH + MM/60, as the `start_time` availability was checked at |
| Lectures.GroupsCell | scrape.py:203 | the group cell reads back as the group count, or is "-" when there are none |
| Lectures.NewRecord | scrape.py:203 | a new row has 14 cells and one link (the timetable's). It holds the structural unit, course code, course name, course and plan links copied from the course; registered and week and weekday cells that read back through `int()`; the group cell; the free people; the start time cut by `[:-3]`; and the address with "-" for a missing one. Without `study_work_type` it is `KeyError('study_work_type')` |
| Lectures.AddLink | scrape.py:205 | appending a link adds one cell and changes nothing else |
| Lectures.Increment | scrape.py:59-63 | `IncrementDict` adds one to the key's count, or starts it at 1, and leaves every other count alone |
| Lectures.TallyCounts | scrape.py:59-63 | counting keys one by one gives each key's number of occurrences |
| Lectures.ResultTable.constructor | scrape.py:14-15 | both tables start empty |
| Lectures.ResultTable.IncrementDict | scrape.py:59-63 | the histogram becomes the incremented one; the rows are untouched |
| Lectures.ResultTable.ProcessWeek | scrape.py:197-205 | one week stores exactly the rows its specification gives, or raises and stores nothing |
| Lectures.ResultTable.ProcessWeeks | scrape.py:196-205 | the week loop leaves exactly the rows of the weeks processed, and the exception that cut it short, if any |
| Lectures.ResultTable.ProcessScheduled | scrape.py:192-205 | weekday, start, histogram and weeks, in source order; each exception ends the occurrence with the tables as they stood |
| Lectures.ResultTable.ProcessEvent | scrape.py:181-205 | a missing weekday or start time, or a blacklisted type, ends the course before any change |
| Lectures.ResultTable.ProcessEvents | scrape.py:180-205 | the event loop leaves exactly the tables of its specification, and reports whether the course finished, stopped at a rejected occurrence, or raised |
| Lectures.ResultTable.ProcessCourse | scrape.py:150-205 | open-university courses, non-bachelor courses and courses without registration data are skipped; otherwise the event loop runs |
| Lectures.FirstSighting | scrape.py:198-203 | an unseen key gets a row exactly when at least two people are free, the location is allowed and `study_work_type` is present; when the first two hold but `study_work_type` is missing, the `KeyError` is raised and no row is stored; the row lists the free people and has one link |
| Lectures.SecondSighting | scrape.py:204-205 | a seen key never gets a second row: its row gains exactly one link while narrower than 38 cells, nothing otherwise, and keeps its other cells |
| Lectures.WeekStepFrame | scrape.py:196-205 | a week changes no row but its own key's |
| Lectures.NoRowOutsideCurrentWeek | scrape.py:106 | no row is ever created for a week other than the current week |
| Lectures.NewRecordValid | scrape.py:200-203 | a row created for an eligible occurrence has at least two people and an allowed address, including "-" for a missing one |
| Lectures.WeekStepGrows | scrape.py:198-205 | a week keeps every row and its cells, and keeps every row within the 38-cell cap |
| Lectures.WeeksFromGrows | scrape.py:196-205 | the weeks of an occurrence keep every row and keep every row within the cap |
| Lectures.EventStepGrows | scrape.py:181-205 | an occurrence keeps every row, keeps rows valid, and never lowers a histogram count |
| Lectures.EventsFromGrows | scrape.py:180-205 | a course's occurrences never remove or replace a row, keep every row within 38 cells with two free people and an allowed address, and never lower a count |
| Lectures.RejectedEventStops | scrape.py:184-190 | an occurrence without weekday or start time, or with a blacklisted type, ends the course and changes nothing |
| Lectures.EventsStopAtRejected | scrape.py:180-190 | after a rejected occurrence no later occurrence is looked at; the tables are those left by the occurrences before it |
| Lectures.EventsNeverSkip | scrape.py:180-205 | the event loop never reports a skipped course |
| Lectures.CourseSkipped | scrape.py:150-170 | a course is skipped exactly when it is open-university, closed to bachelors or lacks registration data, and then nothing changes |
| Lectures.LectureAllowed | scrape.py:91-93 | a "lecture" occurrence passes the type filter |
| Lectures.ScenarioAvailable | scrape.py:104-112 | with A free 9:30-11:00, B free 10:00-10:30 and C never free on weekday 2 of current week 5, A and B are free at 10:00; in week 6 nobody is |
| Lectures.ScenarioWeekday | scrape.py:192 | weekday "2" reads as 2 |
| Lectures.ScenarioStart | scrape.py:193 | "10:00" reads as 10.0 |
| Lectures.ScenarioWeeks | scrape.py:196 | "5-6" gives weeks [5, 6] |
| Lectures.ScenarioSweep | scrape.py:196-203 | weeks 5 and 6 of that occurrence give one row, for week 5, listing A and B |
| Lectures.ScenarioScheduled | scrape.py:192-203 | the scheduled part of that occurrence finishes with that single row |
| Lectures.MatchingScenario | scrape.py:180-205 | an allowed lecture on weekday 2 at 10:00 in weeks 5-6 gives exactly one row, for week 5, listing A and B |

## Left out

- `GetAPI`, `PostAPI`, `session` and the HTTP error handling (scrape.py:41-51, 148-170) are network I/O.
  - The course details, the registration data, the events and the timetable link are inputs.
  - A 404 or an unparsable registration body is the registration input `None`.
  - Other HTTP failures are not modelled.
- The Google Sheets read and write-back (scrape.py:114-120 and the end of the script) are foreign calls. The free-times table is an input, and the result table is not written anywhere.
- `ProcessTimetable`, `ProcessPlans`, `SearchPayload` and the asyncio event loop (scrape.py:207-241) are left out.
  - Courses are processed one at a time.
  - The interleaving of concurrent courses is not modelled.
  - An exception inside a course is modelled as `Raised`, with the course's earlier changes kept.
- Printing, `print_debug`, and the final sort and print of the histogram are output only.
- The `HYPERLINK` formulas (scrape.py:174-175, 208) are inputs: the course, plan and timetable links are given as strings.
- Lectures.NewRecord: the sheet cell joins the free people with ", " in Python set iteration order. The model keeps the set and does not fix that order.
- Text.ParseInt: it models `int()` and `float()` on ASCII digit strings with optional ASCII white space around them.
  - Signs, decimal points, exponents, underscores, "inf"/"nan", non-ASCII digits and non-ASCII white space are not modelled.
  - A text in any of those forms is a `ValueError` in the model, although Python may accept some of them.
- TimeParsing.TimeToFloat: it returns exact rationals, not binary floats. The values are only compared with `<=` (scrape.py:109).
  - For hour fields below 2^40 and minute fields 0 to 59, the comparisons agree with Python's doubles. This covers every clock time.
    - Equal values come from equal (hour, minute) numbers, so they give equal doubles.
    - Distinct values differ by at least 1/60. The rounding error of `h + m/60` at that size is below 2^-12, so rounding cannot reorder them.
  - Outside that range the comparisons can differ.
    - "0:77" and "1:17" are equal in the model, but their doubles are 1.2833333333333334 and 1.2833333333333332.
    - An hour of 2^53 with ":30" rounds to the hour itself in doubles, but not in the model.
- TimeParsing.HasDigit: `str.isdigit()` is modelled on ASCII digits only.
- Text.Lower: `str.lower()` is modelled on ASCII and the Latin-1 upper-case letters. Upper-case letters beyond Latin-1 are left unchanged.
- The JSON keys the code indexes directly are assumed present: `time`, `location`, `uuid`, `academic_weeks`, `code`, `et`, `restrictions`, `course`, `title`, `target`, `study_type` (scrape.py:151), `additional_info` (scrape.py:96), `registered_students` (scrape.py:172), `course_main_structural_unit` (scrape.py:203) and `events` (scrape.py:180). A `KeyError` from one of them is not modelled.
- The weekday code is taken as a string. The code applies `int()` to it.
- Availability.AvailabilityTable.Load: after a failed build the program stops. The state the build leaves behind is therefore not specified.

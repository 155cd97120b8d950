/**
 * The text parsers of scrape.py: clock times ("HH:MM"), academic-week lists
 * ("3-5,8") and free-time ranges ("9:00-11:00,14:00-15:30").
 */
module TimeParsing {
  import opened Wrappers
  import opened Text

  /** A free-time window in fractional hours; 13.5 is 13:30. */
  datatype Interval = Interval(start: real, end: real)

  // ---------------------------------------------------------------------
  // TimeToFloat
  // ---------------------------------------------------------------------

  /**
   * TimeToFloat: the first two ':'-separated fields as hours and minutes.
   * float() of the hours is evaluated before the minutes field is indexed,
   * so "x" fails with a ValueError and "9" with an IndexError.
   */
  function TimeToFloat(text: string): (r: Result<real>)
    ensures ':' !in text ==> r.Err?
    ensures r.Ok? ==> r.value >= 0.0
  {
    var parts := Split(text, ':');
    match ParseInt(parts[0])
    case Err(e) => Err(e)
    case Ok(hours) =>
      if |parts| < 2 then
        Err(IndexError)
      else
        match ParseInt(parts[1])
        case Err(e) => Err(e)
        case Ok(minutes) => Ok(hours as real + minutes as real / 60.0)
  }

  /** "HH:MM" with digit strings HH and MM is HH + MM/60 hours. */
  lemma ClockTime(text: string, hh: string, mm: string)
    requires |hh| > 0 && IsDigits(hh) && |mm| > 0 && IsDigits(mm)
    requires text == Joined(hh, ':', mm)
    ensures TimeToFloat(text) == Ok(DigitsValue(hh) as real + DigitsValue(mm) as real / 60.0)
  {
    ClockFields(hh, mm);
    ParseIntOfDigits(hh);
    ParseIntOfDigits(mm);
    TimeOfFields(text, hh, mm);
  }

  /** The decimal texts of h and m, joined by ':', read back as h + m/60. */
  lemma ClockTimeOfNumbers(text: string, h: nat, m: nat)
    requires text == Joined(NatToString(h), ':', NatToString(m))
    ensures TimeToFloat(text) == Ok(h as real + m as real / 60.0)
  {
    DigitsOfNatToString(h);
    DigitsOfNatToString(m);
    ClockTime(text, NatToString(h), NatToString(m));
  }

  /** "13:30" is 13.5 hours. */
  lemma HalfPastOne(text: string)
    requires text == "13:30"
    ensures TimeToFloat(text) == Ok(13.5)
  {
    assert DigitsValue("13") == 13 by { assert "13"[..1] == "1"; }
    assert DigitsValue("30") == 30 by { assert "30"[..1] == "3"; }
    ClockValue(text, "13", "30", 13, 30);
  }

  /** "HH:MM:SS" splits into its three fields. */
  lemma ClockFieldsWithSeconds(hh: string, mm: string, ss: string)
    requires IsDigits(hh) && IsDigits(mm) && IsDigits(ss)
    ensures Split(Joined(Joined(hh, ':', mm), ':', ss), ':') == [hh, mm, ss]
  {
    DigitsExclude(hh, ':');
    DigitsExclude(mm, ':');
    DigitsExclude(ss, ':');
    assert Joined(Joined(hh, ':', mm), ':', ss) == hh + [':'] + (mm + [':'] + ss);
    SplitAtFirst(hh, mm + [':'] + ss, ':');
    SplitAtFirst(mm, ss, ':');
  }

  /** A seconds field after "HH:MM" does not change the time: only the first two fields are read. */
  lemma ClockTimeWithSeconds(hh: string, mm: string, ss: string)
    requires |hh| > 0 && IsDigits(hh) && |mm| > 0 && IsDigits(mm) && IsDigits(ss)
    ensures TimeToFloat(Joined(Joined(hh, ':', mm), ':', ss)) ==
            Ok(DigitsValue(hh) as real + DigitsValue(mm) as real / 60.0)
  {
    ClockFieldsWithSeconds(hh, mm, ss);
    ParseIntOfDigits(hh);
    ParseIntOfDigits(mm);
  }

  lemma ClockFields(hh: string, mm: string)
    requires IsDigits(hh) && IsDigits(mm)
    ensures Split(Joined(hh, ':', mm), ':') == [hh, mm]
  {
    assert ':' !in hh by { assert forall k :: 0 <= k < |hh| ==> hh[k] != ':'; }
    assert ':' !in mm by { assert forall k :: 0 <= k < |mm| ==> mm[k] != ':'; }
    SplitAtFirst(hh, mm, ':');
  }

  lemma TimeOfFields(text: string, hh: string, mm: string)
    requires Split(text, ':') == [hh, mm]
    requires ParseInt(hh).Ok? && ParseInt(mm).Ok?
    ensures TimeToFloat(text) == Ok(ParseInt(hh).value as real + ParseInt(mm).value as real / 60.0)
  {
  }

  // ---------------------------------------------------------------------
  // GetAcademicWeeks
  // ---------------------------------------------------------------------

  /** A failure, or the successful list with `prefix` put in front. */
  function Prepend<T>(prefix: seq<T>, r: Result<seq<T>>): Result<seq<T>>
  {
    match r
    case Err(e) => Err(e)
    case Ok(rest) => Ok(prefix + rest)
  }

  lemma PrependNothing<T>(r: Result<seq<T>>)
    ensures Prepend([], r) == r
  {
    if r.Ok? {
      assert [] + r.value == r.value;
    }
  }

  lemma PrependTwice<T>(a: seq<T>, b: seq<T>, r: Result<seq<T>>)
    ensures Prepend(a, Prepend(b, r)) == Prepend(a + b, r)
  {
    if r.Ok? {
      assert a + (b + r.value) == a + b + r.value;
    }
  }

  /** Python's `range(lo, hi)` as a list. */
  function Range(lo: nat, hi: nat): seq<nat>
    decreases hi - lo
  {
    if hi <= lo then [] else [lo] + Range(lo + 1, hi)
  }

  /**
   * range(lo, hi) is lo, lo+1, ..., hi-1 in ascending order, and empty when
   * hi <= lo; a part "A-B" uses range(A, B + 1), so B < A contributes nothing.
   */
  lemma {:induction false} RangeIsInterval(lo: nat, hi: nat)
    ensures |Range(lo, hi)| == if hi <= lo then 0 else hi - lo
    ensures forall k :: 0 <= k < |Range(lo, hi)| ==> Range(lo, hi)[k] == lo + k
    decreases hi - lo
  {
    if lo < hi {
      RangeIsInterval(lo + 1, hi);
    }
  }

  /** Growing the upper bound of a range by one appends that bound. */
  lemma {:induction false} RangeGrows(lo: nat, hi: nat)
    requires lo <= hi
    ensures Range(lo, hi + 1) == Range(lo, hi) + [hi]
    decreases hi - lo
  {
    if lo < hi {
      RangeGrows(lo + 1, hi);
    }
  }

  /** The weeks one comma-separated part contributes: "8" or "3-5". */
  function PartWeeks(part: string): Result<seq<nat>>
  {
    var bounds := Split(part, '-');
    if |bounds| == 1 then
      match ParseInt(bounds[0])
      case Err(e) => Err(e)
      case Ok(week) => Ok([week])
    else
      match ParseInt(bounds[0])
      case Err(e) => Err(e)
      case Ok(first) =>
        match ParseInt(bounds[1])
        case Err(e) => Err(e)
        case Ok(last) => Ok(Range(first, last + 1))
  }

  /** The weeks of the parts, concatenated in order; the first failing part fails all. */
  function WeeksOfParts(parts: seq<string>): Result<seq<nat>>
  {
    if |parts| == 0 then Ok([])
    else
      match PartWeeks(parts[0])
      case Err(e) => Err(e)
      case Ok(first) =>
        match WeeksOfParts(parts[1..])
        case Err(e) => Err(e)
        case Ok(rest) => Ok(first + rest)
  }

  function AcademicWeeks(text: string): Result<seq<nat>>
  {
    WeeksOfParts(Split(text, ','))
  }

  /** GetAcademicWeeks: a loop over the comma-separated parts, appending week by week. */
  method GetAcademicWeeks(text: string) returns (r: Result<seq<nat>>)
    ensures r == AcademicWeeks(text)
  {
    var parts := Split(text, ',');
    var weeks: seq<nat> := [];
    var i := 0;
    assert parts[i..] == parts;
    PrependNothing(WeeksOfParts(parts));
    while i < |parts|
      invariant 0 <= i <= |parts|
      invariant WeeksOfParts(parts) == Prepend(weeks, WeeksOfParts(parts[i..]))
    {
      WeeksOfPartsStep(parts, i);
      var extended := AppendPartWeeks(parts[i], weeks);
      if extended.Err? {
        return extended;
      }
      PrependTwice(weeks, PartWeeks(parts[i]).value, WeeksOfParts(parts[i + 1..]));
      weeks := extended.value;
      i := i + 1;
    }
    assert parts[i..] == [];
    assert weeks + [] == weeks;
    r := Ok(weeks);
  }

  /**
   * The body of GetAcademicWeeks's loop for one part: appends the single
   * week of "N", or the weeks of "A-B" one by one from A up to B.
   */
  method AppendPartWeeks(part: string, weeks: seq<nat>) returns (r: Result<seq<nat>>)
    ensures r == Prepend(weeks, PartWeeks(part))
  {
    var bounds := Split(part, '-');
    if |bounds| == 1 {
      var week := ParseInt(bounds[0]);
      if week.Err? {
        return Err(week.error);
      }
      return Ok(weeks + [week.value]);
    }
    var first := ParseInt(bounds[0]);
    if first.Err? {
      return Err(first.error);
    }
    var last := ParseInt(bounds[1]);
    if last.Err? {
      return Err(last.error);
    }
    var extended := weeks;
    var w := first.value;
    while w < last.value + 1
      invariant first.value <= w
      invariant w == first.value || w <= last.value + 1
      invariant extended == weeks + Range(first.value, w)
    {
      RangeGrows(first.value, w);
      extended := extended + [w];
      w := w + 1;
    }
    r := Ok(extended);
  }

  /** The weeks of parts i, i+1, ...: those of part i, then those of the rest. */
  lemma WeeksOfPartsStep(parts: seq<string>, i: nat)
    requires i < |parts|
    ensures WeeksOfParts(parts[i..]) ==
            match PartWeeks(parts[i])
            case Err(e) => Err(e)
            case Ok(w) => Prepend(w, WeeksOfParts(parts[i + 1..]))
  {
    assert parts[i..][1..] == parts[i + 1..];
  }

  /** A part that is a single number contributes that week alone. */
  lemma SingleWeekPart(part: string)
    requires |part| > 0 && IsDigits(part)
    ensures PartWeeks(part) == Ok([DigitsValue(part)])
  {
    assert forall k :: 0 <= k < |part| ==> part[k] != '-';
    ParseIntOfDigits(part);
  }

  /** A part "A-B" contributes range(A, B + 1). */
  lemma WeekRangePart(part: string, lo: string, hi: string)
    requires |lo| > 0 && IsDigits(lo) && |hi| > 0 && IsDigits(hi)
    requires part == Joined(lo, '-', hi)
    ensures PartWeeks(part) == Ok(Range(DigitsValue(lo), DigitsValue(hi) + 1))
  {
    DigitsExclude(lo, '-');
    DigitsExclude(hi, '-');
    SplitPair(part, lo, hi, '-');
    ParseIntOfDigits(lo);
    ParseIntOfDigits(hi);
    WeeksOfBounds(part, lo, hi, DigitsValue(lo), DigitsValue(hi));
  }

  /** A part that splits into two numerals spans the inclusive range between them. */
  lemma WeeksOfBounds(part: string, lo: string, hi: string, first: nat, last: nat)
    requires Split(part, '-') == [lo, hi] && ParseInt(lo) == Ok(first) && ParseInt(hi) == Ok(last)
    ensures PartWeeks(part) == Ok(Range(first, last + 1))
  {
  }

  /** The weeks of a list of parts are the weeks of its front followed by those of its back. */
  lemma {:induction false} WeeksOfPartsAppend(front: seq<string>, back: seq<string>)
    ensures WeeksOfParts(front + back) ==
            match WeeksOfParts(front)
            case Err(e) => Err(e)
            case Ok(w) => Prepend(w, WeeksOfParts(back))
    decreases |front|
  {
    if |front| == 0 {
      assert front + back == back;
      PrependNothing(WeeksOfParts(back));
    } else {
      assert (front + back)[1..] == front[1..] + back;
      WeeksOfPartsAppend(front[1..], back);
      if PartWeeks(front[0]).Ok? && WeeksOfParts(front[1..]).Ok? {
        PrependTwice(PartWeeks(front[0]).value, WeeksOfParts(front[1..]).value, WeeksOfParts(back));
      }
    }
  }

  /** A single part contributes its own weeks. */
  lemma WeeksOfOnePart(part: string)
    ensures WeeksOfParts([part]) == PartWeeks(part)
  {
    assert [part][1..] == [];
    if PartWeeks(part).Ok? {
      assert PartWeeks(part).value + [] == PartWeeks(part).value;
    }
  }

  lemma WeeksOfTwoParts(text: string, first: string, second: string)
    requires Split(text, ',') == [first, second]
    requires PartWeeks(first).Ok? && PartWeeks(second).Ok?
    ensures AcademicWeeks(text) == Ok(PartWeeks(first).value + PartWeeks(second).value)
  {
    WeeksOfOnePart(first);
    WeeksOfOnePart(second);
    assert [first] + [second] == [first, second];
    WeeksOfPartsAppend([first], [second]);
  }

  lemma ExampleSingleWeek(text: string)
    requires text == "12"
    ensures AcademicWeeks(text) == Ok([12])
  {
    SingleWeekPart(text);
    assert NatToString(12) == "12";
    DigitsOfNatToString(12);
    assert [text][1..] == [];
    assert [12] + [] == [12];
    assert WeeksOfParts([text]) == Ok([12]);
  }

  /** "3-5,8" is weeks 3, 4, 5 and 8. */
  lemma ExampleWeekList(text: string)
    requires text == "3-5,8"
    ensures AcademicWeeks(text) == Ok([3, 4, 5, 8])
  {
    SplitPair(text, "3-5", "8", ',');
    RangeThreeToFive();
    EightWeek();
    WeeksOfTwoParts(text, "3-5", "8");
    assert [3, 4, 5] + [8] == [3, 4, 5, 8];
  }

  lemma RangeThreeToFive()
    ensures PartWeeks("3-5") == Ok([3, 4, 5])
  {
    assert DigitsValue("3") == 3 by { assert "3"[..0] == []; }
    assert DigitsValue("5") == 5 by { assert "5"[..0] == []; }
    WeekRangePart("3-5", "3", "5");
    assert Range(3, 6) == [3, 4, 5];
  }

  lemma EightWeek()
    ensures PartWeeks("8") == Ok([8])
  {
    assert DigitsValue("8") == 8 by { assert "8"[..0] == []; }
    SingleWeekPart("8");
  }

  // ---------------------------------------------------------------------
  // ParseTimeRanges
  // ---------------------------------------------------------------------

  predicate HasDigit(s: string) { exists k :: 0 <= k < |s| && IsDigit(s[k]) }

  /** One "a-b" part: TimeToFloat(a) is evaluated before b is indexed. */
  function RangeOfPart(part: string): Result<Interval>
  {
    var ends := Split(part, '-');
    match TimeToFloat(ends[0])
    case Err(e) => Err(e)
    case Ok(start) =>
      if |ends| < 2 then Err(IndexError)
      else
        match TimeToFloat(ends[1])
        case Err(e) => Err(e)
        case Ok(end) => Ok(Interval(start, end))
  }

  function RangesOfParts(parts: seq<string>): Result<seq<Interval>>
  {
    if |parts| == 0 then Ok([])
    else
      match RangeOfPart(parts[0])
      case Err(e) => Err(e)
      case Ok(first) =>
        match RangesOfParts(parts[1..])
        case Err(e) => Err(e)
        case Ok(rest) => Ok([first] + rest)
  }

  /** The free-time windows a spreadsheet cell describes. */
  function TimeRanges(text: string): Result<seq<Interval>>
  {
    if HasDigit(text) then RangesOfParts(Split(text, ',')) else Ok([])
  }

  /** ParseTimeRanges: a loop over the comma-separated parts, appending one pair each. */
  method ParseTimeRanges(text: string) returns (r: Result<seq<Interval>>)
    ensures r == TimeRanges(text)
  {
    var ranges: seq<Interval> := [];
    var hasDigit := false;
    var k := 0;
    while k < |text|
      invariant 0 <= k <= |text|
      invariant hasDigit <==> exists j :: 0 <= j < k && IsDigit(text[j])
    {
      if IsDigit(text[k]) {
        hasDigit := true;
      }
      k := k + 1;
    }
    if hasDigit {
      var parts := Split(text, ',');
      var i := 0;
      assert parts[i..] == parts;
      PrependNothing(RangesOfParts(parts));
      while i < |parts|
        invariant 0 <= i <= |parts|
        invariant RangesOfParts(parts) == Prepend(ranges, RangesOfParts(parts[i..]))
      {
        assert parts[i..][1..] == parts[i + 1..];
        var range := RangeOfPart(parts[i]);
        if range.Err? {
          assert RangesOfParts(parts[i..]) == Err(range.error);
          return Err(range.error);
        }
        assert RangesOfParts(parts[i..]) == Prepend([range.value], RangesOfParts(parts[i + 1..]));
        PrependTwice(ranges, [range.value], RangesOfParts(parts[i + 1..]));
        ranges := ranges + [range.value];
        i := i + 1;
      }
      assert parts[i..] == [];
      assert ranges + [] == ranges;
    }
    r := Ok(ranges);
  }

  /** A successful parse yields exactly one pair per part, in input order. */
  lemma {:induction false} RangesOfPartsInOrder(parts: seq<string>)
    requires RangesOfParts(parts).Ok?
    ensures |RangesOfParts(parts).value| == |parts|
    ensures forall k :: 0 <= k < |parts| ==>
              RangeOfPart(parts[k]).Ok? && RangesOfParts(parts).value[k] == RangeOfPart(parts[k]).value
  {
    if |parts| > 0 {
      RangesOfPartsInOrder(parts[1..]);
      forall k | 0 < k < |parts|
        ensures RangesOfParts(parts).value[k] == RangesOfParts(parts[1..]).value[k - 1]
      {
      }
    }
  }

  /** TimeRanges: nothing for a digit-free cell, else one interval per "a-b" part. */
  lemma TimeRangesShape(text: string)
    ensures !HasDigit(text) ==> TimeRanges(text) == Ok([])
    ensures HasDigit(text) && TimeRanges(text).Ok? ==>
              var parts := Split(text, ',');
              |TimeRanges(text).value| == |parts| &&
              forall k :: 0 <= k < |parts| ==>
                RangeOfPart(parts[k]).Ok? && TimeRanges(text).value[k] == RangeOfPart(parts[k]).value
  {
    if HasDigit(text) && TimeRanges(text).Ok? {
      RangesOfPartsInOrder(Split(text, ','));
    }
  }

  /** Two clock times joined by '-' make one window from the first to the second. */
  lemma RangeOfClockTimes(part: string, a: string, b: string, start: real, end: real)
    requires '-' !in a && '-' !in b && part == Joined(a, '-', b)
    requires TimeToFloat(a) == Ok(start) && TimeToFloat(b) == Ok(end)
    ensures RangeOfPart(part) == Ok(Interval(start, end))
  {
    SplitAtFirst(a, b, '-');
  }

  /** A clock time with known digit values. */
  lemma ClockValue(text: string, hh: string, mm: string, h: nat, m: nat)
    requires |hh| > 0 && IsDigits(hh) && |mm| > 0 && IsDigits(mm)
    requires DigitsValue(hh) == h && DigitsValue(mm) == m
    requires text == Joined(hh, ':', mm)
    ensures TimeToFloat(text) == Ok(h as real + m as real / 60.0)
  {
    ClockTime(text, hh, mm);
  }

  /** A window "a-b" whose ends a and b were written by str() as "h:m" reads back as the two clock times. */
  lemma FormattedRange(part: string, a: string, b: string, h1: nat, m1: nat, h2: nat, m2: nat)
    requires a == ClockText(h1, m1) && b == ClockText(h2, m2) && part == Joined(a, '-', b)
    ensures RangeOfPart(part) == Ok(Interval(h1 as real + m1 as real / 60.0, h2 as real + m2 as real / 60.0))
  {
    var start := h1 as real + m1 as real / 60.0;
    var end := h2 as real + m2 as real / 60.0;
    FormattedClock(a, h1, m1);
    FormattedClock(b, h2, m2);
    RangeOfClockTimes(part, a, b, start, end);
  }

  /** The clock time h:m written with str(), as in "9:30". */
  function ClockText(h: nat, m: nat): string
  {
    Joined(NatToString(h), ':', NatToString(m))
  }

  /** A clock time written by str() as "h:m" has no '-' and reads back as h + m/60. */
  lemma FormattedClock(a: string, h: nat, m: nat)
    requires a == ClockText(h, m)
    ensures '-' !in a && TimeToFloat(a) == Ok(h as real + m as real / 60.0)
  {
    ClockTimeOfNumbers(a, h, m);
    forall k | 0 <= k < |a|
      ensures a[k] != '-'
    {
      if k < |NatToString(h)| {
        assert a[k] == NatToString(h)[k];
      } else if k > |NatToString(h)| {
        assert a[k] == NatToString(m)[k - |NatToString(h)| - 1];
      }
    }
  }

  lemma ExampleNoRanges(text: string)
    requires text == ""
    ensures TimeRanges(text) == Ok([])
  {
  }
}

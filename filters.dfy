/**
 * The three eligibility predicates: a location blacklist matched by
 * case-insensitive substring search, a lecture-type blacklist and the
 * bachelor-level requirement.
 */
module Filters {
  import opened Wrappers
  import opened Text
  import opened ApiData

  const BlacklistedLectureTypes: set<string> := {"exam", "resit", "test", "practice", "e-learning"}
  const BlacklistedLocations: set<string> := {"tallinn", "narva", "p\U{e4}rnu"}

  // ---------------------------------------------------------------------
  // IsAllowedLocation
  // ---------------------------------------------------------------------

  /** An address is allowed iff no blacklisted city occurs anywhere in its lower-cased text. */
  function IsAllowedLocation(address: string): (allowed: bool)
    ensures allowed <==>
            forall city :: city in BlacklistedLocations ==> !exists i :: OccursAt(Lower(address), city, i)
  {
    forall city | city in BlacklistedLocations :: !Contains(Lower(address), city)
  }

  /** Lower-casing twice is lower-casing once. */
  lemma LowerIdempotent(s: string)
    ensures Lower(Lower(s)) == Lower(s)
  {
    var l := Lower(s);
    forall k | 0 <= k < |s|
      ensures Lower(l)[k] == l[k]
    {
      assert l[k] == LowerChar(s[k]);
    }
  }

  /** The location test ignores letter case: an address and its lower-cased form agree. */
  lemma LocationIgnoresCase(address: string)
    ensures IsAllowedLocation(Lower(address)) == IsAllowedLocation(address)
  {
    LowerIdempotent(address);
  }

  /** A blacklisted city anywhere in the address, in any letter case, rejects it. */
  lemma BlacklistedCityRejects(address: string, city: string, i: int)
    requires city in BlacklistedLocations && OccursAt(Lower(address), city, i)
    ensures !IsAllowedLocation(address)
  {
  }

  predicate IsAsciiLetter(c: char) { 'A' <= c <= 'Z' || 'a' <= c <= 'z' }

  /** Lower-casing a character that is not an ASCII letter never yields an ASCII letter. */
  lemma LowerOfNonLetter(c: char)
    requires !IsAsciiLetter(c)
    ensures !IsAsciiLetter(LowerChar(c))
  {
  }

  /**
   * Every blacklisted city starts with an ASCII letter, so a text without
   * ASCII letters, such as "", "-" or "18, 51014", is allowed.
   */
  lemma NoLettersAllowed(address: string)
    requires forall k :: 0 <= k < |address| ==> !IsAsciiLetter(address[k])
    ensures IsAllowedLocation(address)
  {
    var l := Lower(address);
    forall city, i | city in BlacklistedLocations
      ensures !OccursAt(l, city, i)
    {
      assert |city| > 0 && IsAsciiLetter(city[0]);
      if 0 <= i < |address| {
        LowerOfNonLetter(address[i]);
        assert l[i] != city[0];
        assert i + |city| <= |l| ==> l[i..i + |city|][0] != city[0];
      }
    }
  }

  /** "Narva mnt 18, Tartu" is rejected: "narva" occurs in its lower-cased text. */
  lemma NarvaRejected(address: string)
    requires address == "Narva mnt 18, Tartu"
    ensures !IsAllowedLocation(address)
  {
    var l := Lower(address);
    assert l[..5] == "narva" by {
      forall k | 0 <= k < 5
        ensures l[k] == "narva"[k]
      {
        assert l[k] == LowerChar(address[k]);
      }
    }
    assert OccursAt(l, "narva", 0);
  }

  // ---------------------------------------------------------------------
  // IsAllowedLectureType
  // ---------------------------------------------------------------------

  /**
   * The type code of an occurrence: study_work_type's when that key is
   * present, otherwise event_type's, and a KeyError when both are missing.
   */
  function LectureTypeCode(ev: Event): (r: Result<string>)
    ensures r.Err? <==> ev.studyWorkType.None? && ev.eventType.None?
    ensures r.Err? ==> r.error == KeyError("event_type")
    ensures ev.studyWorkType.Some? ==> r == Ok(ev.studyWorkType.value.code)
    ensures ev.studyWorkType.None? && ev.eventType.Some? ==> r == Ok(ev.eventType.value.code)
  {
    if ev.studyWorkType.Some? then Ok(ev.studyWorkType.value.code)
    else if ev.eventType.Some? then Ok(ev.eventType.value.code)
    else Err(KeyError("event_type"))
  }

  /** IsAllowedLectureType: the type code is not blacklisted. */
  function IsAllowedLectureType(ev: Event): (r: Result<bool>)
    ensures r.Err? <==> LectureTypeCode(ev).Err?
    ensures r.Err? ==> r.error == KeyError("event_type")
    ensures r.Ok? ==> (r.value <==> LectureTypeCode(ev).value !in BlacklistedLectureTypes)
  {
    match LectureTypeCode(ev)
    case Err(e) => Err(e)
    case Ok(code) => Ok(code !in BlacklistedLectureTypes)
  }

  /** When study_work_type is present, event_type does not matter. */
  lemma StudyWorkTypeDecides(ev: Event, eventType: Option<WorkType>)
    requires ev.studyWorkType.Some?
    ensures IsAllowedLectureType(ev.(eventType := eventType)) == IsAllowedLectureType(ev)
  {
  }

  /** Without study_work_type, the event_type code decides. */
  lemma EventTypeDecides(ev: Event)
    requires ev.studyWorkType.None? && ev.eventType.Some?
    ensures IsAllowedLectureType(ev) == Ok(ev.eventType.value.code !in BlacklistedLectureTypes)
  {
  }

  /** With neither key, the lookup of event_type raises. */
  lemma NoTypeRaises(ev: Event)
    requires ev.studyWorkType.None? && ev.eventType.None?
    ensures IsAllowedLectureType(ev) == Err(KeyError("event_type"))
  {
  }

  /** An exam is never allowed, whichever key carries it. */
  lemma ExamRejected(ev: Event, exam: WorkType)
    requires exam.code == "exam"
    requires ev.studyWorkType == Some(exam) || (ev.studyWorkType.None? && ev.eventType == Some(exam))
    ensures IsAllowedLectureType(ev) == Ok(false)
  {
  }

  // ---------------------------------------------------------------------
  // IsAllowedStudyLevel
  // ---------------------------------------------------------------------

  /** The search loop of IsAllowedStudyLevel: is some level code "bachelor"? */
  function HasBachelor(levels: seq<string>): (found: bool)
    ensures found <==> "bachelor" in levels
  {
    if |levels| == 0 then false
    else if levels[0] == "bachelor" then true
    else
      assert levels == [levels[0]] + levels[1..];
      HasBachelor(levels[1..])
  }

  /** A course without study levels is allowed; otherwise it must list "bachelor". */
  function IsAllowedStudyLevel(course: CourseDetails): (allowed: bool)
    ensures allowed <==> course.studyLevels.None? || "bachelor" in course.studyLevels.value
  {
    if course.studyLevels.Some? then HasBachelor(course.studyLevels.value) else true
  }

  // ---------------------------------------------------------------------
  // The two address defaults
  // ---------------------------------------------------------------------

  /**
   * The location test reads a missing address as "", the new row stores it
   * as "-": both are allowed, so the stored address passes the test exactly
   * when the tested one did.
   */
  lemma AddressDefaultsAgree(ev: Event)
    ensures IsAllowedLocation(AddressOr(ev, "-")) == IsAllowedLocation(AddressOr(ev, ""))
  {
    if ev.address.None? {
      NoLettersAllowed("-");
      NoLettersAllowed("");
    }
  }
}

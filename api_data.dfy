/**
 * The parts of the timetable API's JSON objects that the scraper reads, as
 * plain records. A key the code tests with `in` or reads with `.get` is an
 * Option; a key it indexes directly is a plain field.
 */
module ApiData {
  import opened Wrappers

  /** A `{"code": …, "et": …}` classifier object (study_work_type, event_type). */
  datatype WorkType = WorkType(code: string, labelEt: string)

  /**
   * One lecture occurrence of a course event list: `uuid`; the `time` object's
   * `weekday.code`, `begin_time` and `academic_weeks`; the two type objects;
   * and the `location` object's `address`.
   */
  datatype Event = Event(
    uuid: string,
    weekday: Option<string>,
    beginTime: Option<string>,
    academicWeeks: string,
    studyWorkType: Option<WorkType>,
    eventType: Option<WorkType>,
    address: Option<string>)

  /**
   * The course version details: `target.study_type.code`,
   * `additional_info.study_levels` (the level codes), the code of
   * `target.course_main_structural_unit` and `title.et`.
   */
  datatype CourseDetails = CourseDetails(
    studyTypeCode: string,
    studyLevels: Option<seq<string>>,
    unitCode: string,
    titleEt: string)

  /**
   * The registration data: `course.code`, `restrictions.registered_students`
   * and the length of `groups` when that key is present.
   */
  datatype Registration = Registration(
    courseCode: string,
    registeredStudents: nat,
    groups: Option<nat>)

  /** `lecture['location'].get('address', default)`. */
  function AddressOr(ev: Event, default: string): string
  {
    if ev.address.Some? then ev.address.value else default
  }
}

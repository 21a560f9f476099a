/** The Moodle side as far as the plugin sees it: courses with their
    sections, course categories, user accounts and the enrolments made. The
    Moodle APIs that change it (course and category creation, user insert,
    enrol_user) are modelled by their effect on this state; anything they
    decide on their own (new ids, failures) is passed in. */
module Platform {
  import opened Wrappers

  /** A row of course_sections: its name and summary. */
  datatype Section = Section(name: string, summary: string)

  /** A Moodle course: its identifying fields, its sections by position and
      the course format's `numsections` option. */
  datatype Course = Course(
    id: int, fullname: string, shortname: string, idnumber: string, category: int,
    summary: string, sections: map<int, Section>, numsections: int)

  /** A course category created by coursecat::create. */
  datatype Category = Category(id: int, name: string, idnumber: string, description: string,
                               parent: string, depth: int)

  /** A user account; `password` is absent when the record had none. */
  datatype Account = Account(id: int, password: Option<string>, firstname: string,
                             lastname: string, email: string)

  /** One call of enrol_user that went through. */
  datatype EnrolCall = EnrolCall(userid: int, courseid: int, enrolid: int, roleid: int)

  datatype Lms = Lms(courses: seq<Course>, categories: seq<Category>,
                     accounts: map<string, Account>, enrolments: seq<EnrolCall>)

  /** `record_exists('course', shortname)`. */
  predicate ShortnameTaken(lms: Lms, shortname: string)
  {
    exists i :: 0 <= i < |lms.courses| && lms.courses[i].shortname == shortname
  }

  /** `record_exists('course', idnumber)`. */
  predicate IdnumberTaken(lms: Lms, idnumber: string)
  {
    exists i :: 0 <= i < |lms.courses| && lms.courses[i].idnumber == idnumber
  }

  /** get_lms_userid_by_username: the account's id, or 0 (false) when there
      is no account with that username. */
  function LmsUserId(lms: Lms, username: string): (id: int)
    ensures username !in lms.accounts ==> id == 0
    ensures username in lms.accounts ==> id == lms.accounts[username].id
  {
    if username in lms.accounts then lms.accounts[username].id else 0
  }

  /** A course as create_course leaves it, after update_default_course_sections
      has set `numsections` to 0: only the general section 0, still empty. */
  function NewCourse(id: int, fullname: string, shortname: string, idnumber: string,
                     category: int, summary: string): (c: Course)
    ensures c.sections.Keys == {0} && c.numsections == 0
  {
    Course(id, fullname, shortname, idnumber, category, summary, map[0 := Section("", "")], 0)
  }
}

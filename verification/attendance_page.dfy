/**
 * The attendance sheet: the students of the chosen course narrowed by a
 * search, each one's recorded status for a day of that course, the badge a
 * status is shown with, and the five weekday columns of the week view.
 * Dates are day numbers counted from 1970-01-01 (a Thursday) for the week
 * columns, and `yyyy-MM-dd` strings for the record lookup.
 */
module AttendanceSheet {
  import opened Wrappers
  import opened JsString
  import opened JsArray
  import opened Types
  import opened MockData
  import Students

  // ---------------------------------------------------------------------------
  // The student list

  /** `studentsInCourse`: nobody until a course is chosen, then the course's students. */
  function StudentsInCourse(db: Db, selectedCourse: string): (r: seq<Student>)
    ensures selectedCourse == "" ==> r == []
    ensures forall st :: st in r ==> st in db.students && Linked(db, st.id, selectedCourse)
  {
    if selectedCourse == "" then []
    else
      var listed := StudentsByCourse(db, selectedCourse);
      assert forall st :: st in listed ==> st in db.students && Linked(db, st.id, selectedCourse) by {
        forall st | st in listed
          ensures st in db.students && Linked(db, st.id, selectedCourse)
        {
          StudentsByCourseSound(db, selectedCourse, st);
        }
      }
      listed
  }

  /** The search box here looks at the full name and the student code only, ignoring letter case. */
  predicate MatchesSearch(st: Student, term: string) {
    || Includes(ToLower(st.FullName()), ToLower(term))
    || Includes(ToLower(st.studentId), ToLower(term))
  }

  function Matching(term: string): Student -> bool {
    (st: Student) => MatchesSearch(st, term)
  }

  /** `filteredStudents`: the course's students the search accepts, in enrollment order. */
  function FilteredStudents(db: Db, selectedCourse: string, term: string): (r: seq<Student>)
    ensures forall st :: st in r <==> st in StudentsInCourse(db, selectedCourse) && MatchesSearch(st, term)
    ensures IsSubsequence(r, StudentsInCourse(db, selectedCourse))
  {
    FilterMembers(StudentsInCourse(db, selectedCourse), Matching(term));
    FilterSubsequence(StudentsInCourse(db, selectedCourse), Matching(term));
    Filter(StudentsInCourse(db, selectedCourse), Matching(term))
  }

  /** With no course chosen the list is empty, whatever the search. */
  lemma NoCourseNoStudents(db: Db, term: string)
    ensures FilteredStudents(db, "", term) == []
  {
  }

  /** An empty search keeps every student of the course. */
  lemma EmptySearchKeepsAll(db: Db, selectedCourse: string)
    ensures FilteredStudents(db, selectedCourse, "") == StudentsInCourse(db, selectedCourse)
  {
    forall st | st in StudentsInCourse(db, selectedCourse)
      ensures Matching("")(st)
    {
      IncludesEmpty(ToLower(st.FullName()));
    }
    FilterKeepsAll(StudentsInCourse(db, selectedCourse), Matching(""));
  }

  /**
   * Unlike the student list, this search does not look at the email: '@'
   * finds Alex Johnson on the student list but not here.
   */
  lemma EmailNotSearched()
    ensures !MatchesSearch(AlexJohnson, "@")
    ensures Students.MatchesSearch(AlexJohnson, "@")
  {
    var at := ToLower("@");
    assert at == "@";
    var name := ToLower(AlexJohnson.FullName());
    var code := ToLower(AlexJohnson.studentId);
    var email := ToLower(AlexJohnson.email);
    assert forall i :: 0 <= i < |name| ==> name[i] != '@';
    assert forall i :: 0 <= i < |code| ==> code[i] != '@';
    assert email[6] == '@';
    IncludesChar(name, '@');
    IncludesChar(code, '@');
    IncludesChar(email, '@');
  }

  /** Course '1' on the seed lists Alex Johnson and James Smith. */
  lemma SeedCourse1()
    ensures FilteredStudents(Seed, "1", "") == [AlexJohnson, JamesSmith]
  {
    SeedStudentsOfCourse1();
    EmptySearchKeepsAll(Seed, "1");
  }

  /** James Smith's code 'CS10003' matches the term 'cs10003'. */
  lemma SeedCodeMatches()
    ensures MatchesSearch(JamesSmith, "cs10003")
  {
    var code := ToLower(JamesSmith.studentId);
    var term := ToLower("cs10003");
    assert code == "cs10003" && term == "cs10003";
    assert OccursAt(code, term, 0);
  }

  /** Alex Johnson's name and code 'CS10001' do not contain 'cs10003'. */
  lemma SeedCodeMisses()
    ensures !MatchesSearch(AlexJohnson, "cs10003")
  {
    var term := ToLower("cs10003");
    assert term == "cs10003";
    var code := ToLower(AlexJohnson.studentId);
    assert code == "cs10001";
    assert forall i :: 0 <= i < |code| ==> code[i] != '3';
    if Includes(code, term) {
      IncludesPart(code, term, 6);
      assert false;
    }
    var name := ToLower(AlexJohnson.FullName());
    assert forall i :: 0 <= i < |name| ==> name[i] != '1';
    if Includes(name, term) {
      IncludesPart(name, term, 2);
      assert false;
    }
  }

  /** Searching 'cs10003' in course '1' leaves James Smith only. */
  lemma SeedCourse1Search()
    ensures FilteredStudents(Seed, "1", "cs10003") == [JamesSmith]
  {
    SeedStudentsOfCourse1();
    SeedCodeMatches();
    SeedCodeMisses();
    var p := Matching("cs10003");
    assert Filter([JamesSmith], p) == [JamesSmith];
    FilterCons(AlexJohnson, [JamesSmith], p);
  }

  // ---------------------------------------------------------------------------
  // Recorded status

  /** A record of this student, on this day, in this course. */
  function RecordFor(studentId: string, date: string, courseId: string): Attendance -> bool {
    (a: Attendance) => a.studentId == studentId && a.date == date && a.courseId == courseId
  }

  /**
   * `getAttendanceStatusForDate`: the status of the first record of the
   * student, day and selected course, or 'unknown' when there is none.
   */
  function StatusForDate(records: seq<Attendance>, studentId: string, date: string, selectedCourse: string): (r: string)
    ensures r == "unknown" <==> forall a :: a in records ==> !RecordFor(studentId, date, selectedCourse)(a)
    ensures r != "unknown" ==> exists i :: (
      && 0 <= i < |records|
      && records[i].studentId == studentId && records[i].date == date && records[i].courseId == selectedCourse
      && records[i].status.Name() == r
      && forall j :: 0 <= j < i ==> !RecordFor(studentId, date, selectedCourse)(records[j]))
  {
    var found := Find(records, RecordFor(studentId, date, selectedCourse));
    if found.Some? then found.value.status.Name() else "unknown"
  }

  /** A record of another course never decides the status shown for the selected one. */
  lemma OtherCoursesIgnored(records: seq<Attendance>, other: seq<Attendance>, studentId: string, date: string, selectedCourse: string)
    requires forall a :: a in other ==> a.courseId != selectedCourse
    ensures StatusForDate(records + other, studentId, date, selectedCourse) == StatusForDate(records, studentId, date, selectedCourse)
    ensures StatusForDate(other + records, studentId, date, selectedCourse) == StatusForDate(records, studentId, date, selectedCourse)
  {
    var p := RecordFor(studentId, date, selectedCourse);
    assert Find(other, p).None? by {
      forall i | 0 <= i < |other| ensures !p(other[i]) { assert other[i] in other; }
    }
    FindConcat(records, other, p);
    FindConcat(other, records, p);
  }

  /** On the seed, Alex Johnson was absent from course '1' on 2023-09-12. */
  lemma SeedStatusAbsent()
    ensures StatusForDate(SeedAttendance, "1", "2023-09-12", "1") == "absent"
  {
    var p := RecordFor("1", "2023-09-12", "1");
    assert !p(SeedAttendance[0]) && !p(SeedAttendance[1]) && p(SeedAttendance[2]);
    FindAt(SeedAttendance, p, 2);
  }

  /** Alex Johnson has no record in course '2' on that day: 'unknown', shown as "Not Recorded". */
  lemma SeedStatusUnknown()
    ensures StatusForDate(SeedAttendance, "1", "2023-09-12", "2") == "unknown"
  {
    assert forall a :: a in SeedAttendance ==> a.courseId != "2";
  }

  // ---------------------------------------------------------------------------
  // Status badge

  /** What a status cell shows: a label and its colour classes. */
  datatype Badge = Badge(caption: string, classes: string)

  /** `renderStatusBadge`: the four recorded statuses have their own badge; anything else is "Not Recorded". */
  function StatusBadge(status: string): (r: Badge)
    ensures r.caption == "Not Recorded" <==> status !in {"present", "absent", "late", "excused"}
  {
    if status == "present" then Badge("Present", "bg-success-50 text-success-700")
    else if status == "absent" then Badge("Absent", "bg-error-50 text-error-700")
    else if status == "late" then Badge("Late", "bg-warning-50 text-warning-700")
    else if status == "excused" then Badge("Excused", "bg-gray-100 text-gray-700")
    else Badge("Not Recorded", "bg-gray-100 text-gray-400")
  }

  /**
   * A recorded status shows its own name, capitalised, and different
   * statuses show different badges; the lookup's 'unknown' shows
   * "Not Recorded".
   */
  lemma StatusBadgeLabels(s: AttendanceStatus, t: AttendanceStatus)
    ensures StatusBadge(s.Name()).caption == Capitalize(s.Name())
    ensures StatusBadge(s.Name()) == StatusBadge(t.Name()) <==> s == t
    ensures StatusBadge("unknown").caption == "Not Recorded"
  {
  }

  // ---------------------------------------------------------------------------
  // The week view

  /** The Monday starting the week of day `d` (`startOfWeek` with weeks starting on Monday). */
  function StartOfWeek(d: int): (r: int)
    ensures r <= d < r + 7
    ensures (r + 3) % 7 == 0
  {
    d - (d + 3) % 7
  }

  /** `weekDays`: the five days Monday to Friday of the selected day's week. */
  function WeekDays(selectedDate: int): (r: seq<int>)
    ensures |r| == 5
    ensures (r[0] + 3) % 7 == 0 && r[0] <= selectedDate < r[0] + 7
    ensures forall i :: 0 < i < 5 ==> r[i] == r[i - 1] + 1
  {
    var monday := StartOfWeek(selectedDate);
    seq(5, i requires 0 <= i < 5 => monday + i)
  }

  /** A weekday is a column of its own week view; Saturday and Sunday are not. */
  lemma WeekDaysContain(d: int)
    ensures d in WeekDays(d) <==> (d + 3) % 7 < 5
  {
    var w := WeekDays(d);
    if (d + 3) % 7 < 5 {
      assert w[(d + 3) % 7] == d;
    }
  }

  /** Every day of a week shows the same columns, and moving a week on moves each column by seven days. */
  lemma WeekDaysShift(d: int, k: int)
    requires 0 <= k < 7 && (d + 3) % 7 == 0
    ensures WeekDays(d + k) == WeekDays(d)
    ensures forall i :: 0 <= i < 5 ==> WeekDays(d + k + 7)[i] == WeekDays(d)[i] + 7
  {
  }

  // ---------------------------------------------------------------------------
  // The page

  datatype ViewMode = DayView | WeekView

  /** The page's state: the selected day, course, search and view. */
  class AttendancePage {
    var selectedDate: int
    var selectedCourse: string
    var searchTerm: string
    var viewMode: ViewMode

    /** The page opens on `today`, with no course, no search and the day view. */
    constructor(today: int)
      ensures selectedDate == today && selectedCourse == "" && searchTerm == "" && viewMode == DayView
    {
      selectedDate := today;
      selectedCourse := "";
      searchTerm := "";
      viewMode := DayView;
    }

    method SelectCourse(courseId: string)
      modifies this
      ensures selectedCourse == courseId
      ensures selectedDate == old(selectedDate) && searchTerm == old(searchTerm) && viewMode == old(viewMode)
    {
      selectedCourse := courseId;
    }

    method SetSearchTerm(term: string)
      modifies this
      ensures searchTerm == term
      ensures selectedDate == old(selectedDate) && selectedCourse == old(selectedCourse) && viewMode == old(viewMode)
    {
      searchTerm := term;
    }

    method SetViewMode(mode: ViewMode)
      modifies this
      ensures viewMode == mode
      ensures selectedDate == old(selectedDate) && selectedCourse == old(selectedCourse) && searchTerm == old(searchTerm)
    {
      viewMode := mode;
    }

    /** `navigateDay`: one day back or forward. */
    method NavigateDay(forward: bool)
      modifies this
      ensures selectedDate == old(selectedDate) + (if forward then 1 else -1)
      ensures selectedCourse == old(selectedCourse) && searchTerm == old(searchTerm) && viewMode == old(viewMode)
    {
      selectedDate := selectedDate + (if forward then 1 else -1);
    }

    /** `navigateWeek`: seven days back or forward. */
    method NavigateWeek(forward: bool)
      modifies this
      ensures selectedDate == old(selectedDate) + (if forward then 7 else -7)
      ensures WeekDays(selectedDate)[0] == WeekDays(old(selectedDate))[0] + (if forward then 7 else -7)
      ensures selectedCourse == old(selectedCourse) && searchTerm == old(searchTerm) && viewMode == old(viewMode)
    {
      selectedDate := selectedDate + (if forward then 7 else -7);
    }

    /** The rows of the sheet. */
    function Rows(db: Db): (r: seq<Student>)
      reads this
      ensures selectedCourse == "" ==> r == []
      ensures IsSubsequence(r, StudentsByCourse(db, selectedCourse)) || selectedCourse == ""
    {
      FilteredStudents(db, selectedCourse, searchTerm)
    }
  }
}

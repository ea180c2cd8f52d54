/**
 * The course page: looking the course up by the route id and loading its
 * students, the schedule line, and the department and status badges.
 */
module CourseDetail {
  import opened Wrappers
  import opened JsString
  import opened JsArray
  import opened Types
  import opened MockData

  /**
   * `scheduleDisplay`: the days joined by ", ", a space, then "start - end".
   * One day gives that day alone before the times; no days leave a leading
   * space.
   */
  function ScheduleDisplay(s: Schedule): (r: string)
    ensures |s.days| == 1 ==> r == s.days[0] + " " + s.startTime + " - " + s.endTime
    ensures s.days == [] ==> r == " " + s.startTime + " - " + s.endTime
    ensures StartsWith(r, Join(s.days, ", "))
  {
    Join(s.days, ", ") + " " + s.startTime + " - " + s.endTime
  }

  /** Seed course '1' meets "Monday, Wednesday 09:00 - 10:30". */
  lemma SeedSchedule()
    ensures ScheduleDisplay(CS101.schedule) == "Monday, Wednesday 09:00 - 10:30"
  {
    var days := CS101.schedule.days;
    assert days[1..] == ["Wednesday"];
    assert Join(days, ", ") == "Monday, Wednesday";
  }

  const OtherDepartmentTone := "bg-gray-100 text-gray-700"

  /** The department badge: four departments have their own colours, every other one is gray. */
  function DepartmentTone(department: string): (r: string)
    ensures r == OtherDepartmentTone <==> department !in {"Computer Science", "Business", "Engineering", "Psychology"}
  {
    if department == "Computer Science" then "bg-blue-100 text-blue-700"
    else if department == "Business" then "bg-green-100 text-green-700"
    else if department == "Engineering" then "bg-purple-100 text-purple-700"
    else if department == "Psychology" then "bg-pink-100 text-pink-700"
    else OtherDepartmentTone
  }

  /** The four named departments are told apart. */
  lemma DepartmentTonesDistinct(a: string, b: string)
    requires a in {"Computer Science", "Business", "Engineering", "Psychology"}
    requires b in {"Computer Science", "Business", "Engineering", "Psychology"}
    ensures DepartmentTone(a) == DepartmentTone(b) <==> a == b
  {
  }

  /** The status badge: active is success, inactive gray, and anything else (upcoming) the warning class. */
  function StatusBadge(status: CourseStatus): (r: string)
    ensures r == "badge-warning" <==> status == Upcoming
    ensures r == "badge-success" <==> status == CourseActive
    ensures status == CourseInactive ==> r == "bg-gray-100 text-gray-800"
  {
    match status
    case CourseActive => "badge-success"
    case CourseInactive => "bg-gray-100 text-gray-800"
    case Upcoming => "badge-warning"
  }

  /** The status label: the status with its first letter upper-cased and the rest unchanged. */
  function StatusLabel(status: CourseStatus): (r: string)
    ensures |r| == |status.Name()| && r[0] == UpperChar(status.Name()[0]) && r[1..] == status.Name()[1..]
  {
    Capitalize(status.Name())
  }

  lemma StatusLabels()
    ensures StatusLabel(CourseActive) == "Active" && StatusLabel(CourseInactive) == "Inactive" && StatusLabel(Upcoming) == "Upcoming"
  {
  }

  /** The page's state: the course found for the route id, its students and the open tab. */
  class CourseDetailPage {
    var course: Option<Course>
    var students: seq<Student>
    var activeTab: string

    constructor()
      ensures course.None? && students == [] && activeTab == "overview"
    {
      course := None;
      students := [];
      activeTab := "overview";
    }

    /** The "Course not found" view is shown while there is no course. */
    predicate ShowsNotFound()
      reads this
    {
      course.None?
    }

    /**
     * The lookup effect for the route id. A missing or empty id changes
     * nothing; otherwise the course becomes the first with that id, if any,
     * and only a found course's students are loaded.
     */
    method Load(db: Db, id: Option<string>)
      modifies this
      ensures id.None? || id.value == "" ==> course == old(course) && students == old(students)
      ensures id.Some? && id.value != "" ==> course == Find(db.courses, CourseWithId(id.value))
      ensures id.Some? && id.value != "" && course.Some? ==>
        course.value in db.courses && course.value.id == id.value && students == StudentsByCourse(db, id.value)
      ensures id.Some? && id.value != "" && course.None? ==>
        students == old(students) && forall c :: c in db.courses ==> c.id != id.value
      ensures activeTab == old(activeTab)
    {
      if id.Some? && id.value != "" {
        var found := Find(db.courses, CourseWithId(id.value));
        course := found;
        if found.Some? {
          students := StudentsByCourse(db, found.value.id);
        }
      }
    }

    /** A tab button. */
    method SelectTab(tab: string)
      modifies this
      ensures activeTab == tab && course == old(course) && students == old(students)
    {
      activeTab := tab;
    }
  }

  /** Opening course '1' of the seed lists Alex Johnson and James Smith. */
  method SeedCoursePage() returns (page: CourseDetailPage)
    ensures page.course == Some(CS101) && page.students == [AlexJohnson, JamesSmith]
  {
    page := new CourseDetailPage();
    SeedFindCourse(CS101);
    SeedStudentsOfCourse1();
    page.Load(Seed, Some("1"));
  }
}

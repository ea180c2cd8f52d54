/**
 * The course catalogue list: a case-insensitive search over name, code and
 * instructor, exact status and department filters that `'all'` switches
 * off, and a sort on one of three string keys or the enrolment count, in
 * either direction. The page's state is the `CoursesPage` class.
 */
module Courses {
  import opened JsString
  import opened JsArray
  import opened Types
  import opened ListControls
  import MockData

  datatype CourseFilters = CourseFilters(searchTerm: string, statusFilter: string, departmentFilter: string)

  /** An empty search with both filters at `'all'`: the page's initial filters. */
  const NoFilters := CourseFilters("", "all", "all")

  /** The search box: the term, lower-cased, occurs in the lower-cased name, course code or instructor. */
  predicate MatchesSearch(c: Course, term: string) {
    || term == ""
    || Includes(ToLower(c.name), ToLower(term))
    || Includes(ToLower(c.courseCode), ToLower(term))
    || Includes(ToLower(c.instructor), ToLower(term))
  }

  predicate MatchesStatus(c: Course, statusFilter: string) {
    statusFilter == "all" || c.status.Name() == statusFilter
  }

  predicate MatchesDepartment(c: Course, departmentFilter: string) {
    departmentFilter == "all" || c.department == departmentFilter
  }

  /** A course is listed when the search, the status filter and the department filter all accept it. */
  function Shown(f: CourseFilters): Course -> bool {
    (c: Course) => MatchesSearch(c, f.searchTerm) && MatchesStatus(c, f.statusFilter) && MatchesDepartment(c, f.departmentFilter)
  }

  function NameKey(): Course -> string {
    (c: Course) => c.name
  }

  function CodeKey(): Course -> string {
    (c: Course) => c.courseCode
  }

  function InstructorKey(): Course -> string {
    (c: Course) => c.instructor
  }

  function EnrolledKey(): Course -> int {
    (c: Course) => c.enrolledStudents
  }

  /** The ascending comparison for a `sortBy` value; any other value compares every pair as equal. */
  function KeyOrder(sortBy: string): (Course, Course) -> int {
    if sortBy == "name" then ByString(NameKey())
    else if sortBy == "code" then ByString(CodeKey())
    else if sortBy == "instructor" then ByString(InstructorKey())
    else if sortBy == "students" then ByInt(EnrolledKey())
    else NoOrder()
  }

  function CourseOrder(s: SortState): (Course, Course) -> int {
    Directed(KeyOrder(s.sortBy), s.direction)
  }

  /** Every sort state gives a comparator `sort` can use. */
  lemma CourseOrderValid(s: SortState)
    ensures ValidComparator(KeyOrder(s.sortBy))
    ensures ValidComparator(CourseOrder(s))
  {
    ByStringValid(NameKey());
    ByStringValid(CodeKey());
    ByStringValid(InstructorKey());
    ByIntValid(EnrolledKey());
    NoOrderValid<Course>();
    DirectedValid(KeyOrder(s.sortBy), s.direction);
  }

  /**
   * `filteredCourses`: the courses the filters accept, each as often as in
   * the catalogue and no other, ordered by the sort state.
   */
  function FilteredCourses(courses: seq<Course>, f: CourseFilters, s: SortState): (r: seq<Course>)
    ensures |r| <= |courses|
    ensures forall x :: multiset(r)[x] == if Shown(f)(x) then multiset(courses)[x] else 0
    ensures SortedBy(r, CourseOrder(s))
  {
    var kept := Filter(courses, Shown(f));
    FilterMultiset(courses, Shown(f));
    CourseOrderValid(s);
    SortBySorted(kept, CourseOrder(s));
    SortBy(kept, CourseOrder(s))
  }

  /** With no search and both filters at `'all'`, every course is listed. */
  lemma NoFiltersShowAll(courses: seq<Course>, s: SortState)
    ensures multiset(FilteredCourses(courses, NoFilters, s)) == multiset(courses)
    ensures |FilteredCourses(courses, NoFilters, s)| == |courses|
  {
    FilterKeepsAll(courses, Shown(NoFilters));
  }

  /** Sorting by `'students'` orders by enrolment count: rising when ascending, falling when descending. */
  lemma SortByEnrolment(courses: seq<Course>, f: CourseFilters, d: Direction)
    ensures var r := FilteredCourses(courses, f, SortState("students", d));
      forall i, j :: 0 <= i < j < |r| ==>
        if d == Asc then r[i].enrolledStudents <= r[j].enrolledStudents
        else r[i].enrolledStudents >= r[j].enrolledStudents
  {
    var r := FilteredCourses(courses, f, SortState("students", d));
    forall i, j | 0 <= i < j < |r|
      ensures if d == Asc then r[i].enrolledStudents <= r[j].enrolledStudents
              else r[i].enrolledStudents >= r[j].enrolledStudents
    {
      assert CourseOrder(SortState("students", d))(r[i], r[j]) <= 0;
    }
  }

  /** Courses that tie on the sort key keep their catalogue order, in either direction. */
  lemma CourseSortStable(courses: seq<Course>, f: CourseFilters, s: SortState, x: Course)
    ensures var kept := Filter(courses, Shown(f));
      Filter(FilteredCourses(courses, f, s), TiedWith(KeyOrder(s.sortBy), x)) == Filter(kept, TiedWith(KeyOrder(s.sortBy), x))
  {
    var kept := Filter(courses, Shown(f));
    CourseOrderValid(s);
    DirectedStable(kept, KeyOrder(s.sortBy), s.direction, x);
    FilterSamePredicate(SortBy(kept, CourseOrder(s)), TiedWith(CourseOrder(s), x), TiedWith(KeyOrder(s.sortBy), x));
  }

  /** An unrecognised `sortBy` leaves the filtered courses in catalogue order. */
  lemma UnknownSortKeepsOrder(courses: seq<Course>, f: CourseFilters, s: SortState)
    requires s.sortBy != "name" && s.sortBy != "code" && s.sortBy != "instructor" && s.sortBy != "students"
    ensures FilteredCourses(courses, f, s) == Filter(courses, Shown(f))
  {
    SortByAllTied(Filter(courses, Shown(f)), CourseOrder(s));
  }

  /**
   * When no two different listed courses share a key, the descending list
   * is the ascending list reversed.
   */
  lemma DescendingReversesWithoutTies(courses: seq<Course>, f: CourseFilters, sortBy: string)
    requires TiesOnlyEqual(Filter(courses, Shown(f)), KeyOrder(sortBy))
    ensures FilteredCourses(courses, f, SortState(sortBy, Desc)) == Reverse(FilteredCourses(courses, f, SortState(sortBy, Asc)))
  {
    CourseOrderValid(SortState(sortBy, Asc));
    DescendingIsReversedAscending(Filter(courses, Shown(f)), KeyOrder(sortBy));
  }

  function DepartmentKey(): Course -> string {
    (c: Course) => c.department
  }

  /** `departments`: each department in the catalogue once, in order of first occurrence. */
  function Departments(courses: seq<Course>): (r: seq<string>)
    ensures forall d :: d in r <==> exists c :: c in courses && c.department == d
    ensures forall d :: d in r <==> d in Map(courses, DepartmentKey())
    ensures forall i, j :: 0 <= i < j < |r| ==> r[i] != r[j]
    ensures forall i, j :: 0 <= i < j < |r| ==>
      IndexOf(Map(courses, DepartmentKey()), r[i]) < IndexOf(Map(courses, DepartmentKey()), r[j])
  {
    var all := Map(courses, DepartmentKey());
    assert forall d :: d in all <==> exists c :: c in courses && c.department == d by {
      forall d | d in all
        ensures exists c :: c in courses && c.department == d
      {
        var i :| 0 <= i < |all| && all[i] == d;
        assert courses[i] in courses;
      }
      forall c | c in courses
        ensures c.department in all
      {
        var i :| 0 <= i < |courses| && courses[i] == c;
        assert all[i] == c.department;
      }
    }
    Distinct(all)
  }

  lemma SeedDepartments()
    ensures Departments(MockData.Seed.courses) == ["Computer Science"]
  {
    var r := Departments(MockData.Seed.courses);
    assert "Computer Science" in r by {
      assert MockData.CS101 in MockData.Seed.courses;
    }
    assert forall i :: 0 <= i < |r| ==> r[i] == "Computer Science" by {
      forall i | 0 <= i < |r|
        ensures r[i] == "Computer Science"
      {
        assert r[i] in r;
      }
    }
    if |r| > 1 {
      FirstTwoDiffer(r);
      assert false;
    }
  }

  /** The page's state: the search box, the two filters and the sort controls. */
  class CoursesPage {
    var searchTerm: string
    var statusFilter: string
    var departmentFilter: string
    var sortBy: string
    var sortDirection: Direction

    function Filters(): CourseFilters
      reads this
    {
      CourseFilters(searchTerm, statusFilter, departmentFilter)
    }

    function Sort(): SortState
      reads this
    {
      SortState(sortBy, sortDirection)
    }

    /** The initial state: no search, all statuses and departments, by name ascending. */
    constructor()
      ensures Filters() == NoFilters && Sort() == InitialSort
    {
      searchTerm := "";
      statusFilter := "all";
      departmentFilter := "all";
      sortBy := "name";
      sortDirection := Asc;
    }

    method SetSearchTerm(term: string)
      modifies this
      ensures Filters() == old(Filters()).(searchTerm := term) && Sort() == old(Sort())
    {
      searchTerm := term;
    }

    method SetStatusFilter(status: string)
      modifies this
      ensures Filters() == old(Filters()).(statusFilter := status) && Sort() == old(Sort())
    {
      statusFilter := status;
    }

    method SetDepartmentFilter(department: string)
      modifies this
      ensures Filters() == old(Filters()).(departmentFilter := department) && Sort() == old(Sort())
    {
      departmentFilter := department;
    }

    /** A click on a column header. */
    method ToggleSort(field: string)
      modifies this
      ensures Sort() == ListControls.ToggleSort(old(Sort()), field)
      ensures Filters() == old(Filters())
    {
      if sortBy == field {
        sortDirection := if sortDirection == Asc then Desc else Asc;
      } else {
        sortBy := field;
        sortDirection := Asc;
      }
    }

    /** The rows shown; their number is the N of "Showing N of M". */
    function Visible(courses: seq<Course>): (r: seq<Course>)
      reads this
      ensures |r| <= |courses|
    {
      FilteredCourses(courses, Filters(), Sort())
    }
  }
}

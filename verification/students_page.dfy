/**
 * The student list: a case-insensitive search, exact status and program
 * filters that `'all'` switches off, and a sort on one of four keys in
 * either direction. The page's state (search term, filters, sort field and
 * direction) is the `StudentsPage` class; the list it shows is a function of
 * that state and the roster.
 */
module Students {
  import opened JsString
  import opened JsArray
  import opened Types
  import opened ListControls
  import MockData

  datatype StudentFilters = StudentFilters(searchTerm: string, statusFilter: string, programFilter: string)

  /** An empty search with both filters at `'all'`: the page's initial filters. */
  const NoFilters := StudentFilters("", "all", "all")

  /** The search box: the term, lower-cased, occurs in the lower-cased full name, student code or email. */
  predicate MatchesSearch(st: Student, term: string) {
    || term == ""
    || Includes(ToLower(st.FullName()), ToLower(term))
    || Includes(ToLower(st.studentId), ToLower(term))
    || Includes(ToLower(st.email), ToLower(term))
  }

  predicate MatchesStatus(st: Student, statusFilter: string) {
    statusFilter == "all" || st.status.Name() == statusFilter
  }

  predicate MatchesProgram(st: Student, programFilter: string) {
    programFilter == "all" || st.program == programFilter
  }

  /** A student is listed when the search, the status filter and the program filter all accept it. */
  function Shown(f: StudentFilters): Student -> bool {
    (st: Student) => MatchesSearch(st, f.searchTerm) && MatchesStatus(st, f.statusFilter) && MatchesProgram(st, f.programFilter)
  }

  function FullNameKey(): Student -> string {
    (st: Student) => st.FullName()
  }

  function CodeKey(): Student -> string {
    (st: Student) => st.studentId
  }

  function ProgramKey(): Student -> string {
    (st: Student) => st.program
  }

  function StatusKey(): Student -> string {
    (st: Student) => st.status.Name()
  }

  /** The ascending comparison for a `sortBy` value; any other value compares every pair as equal. */
  function KeyOrder(sortBy: string): (Student, Student) -> int {
    if sortBy == "name" then ByString(FullNameKey())
    else if sortBy == "id" then ByString(CodeKey())
    else if sortBy == "program" then ByString(ProgramKey())
    else if sortBy == "status" then ByString(StatusKey())
    else NoOrder()
  }

  function StudentOrder(s: SortState): (Student, Student) -> int {
    Directed(KeyOrder(s.sortBy), s.direction)
  }

  /** Every sort state gives a comparator `sort` can use. */
  lemma StudentOrderValid(s: SortState)
    ensures ValidComparator(KeyOrder(s.sortBy))
    ensures ValidComparator(StudentOrder(s))
  {
    ByStringValid(FullNameKey());
    ByStringValid(CodeKey());
    ByStringValid(ProgramKey());
    ByStringValid(StatusKey());
    NoOrderValid<Student>();
    DirectedValid(KeyOrder(s.sortBy), s.direction);
  }

  /**
   * `filteredStudents`: the students the filters accept, each as often as
   * on the roster and no other, ordered by the sort state.
   */
  function FilteredStudents(students: seq<Student>, f: StudentFilters, s: SortState): (r: seq<Student>)
    ensures |r| <= |students|
    ensures forall x :: multiset(r)[x] == if Shown(f)(x) then multiset(students)[x] else 0
    ensures SortedBy(r, StudentOrder(s))
  {
    var kept := Filter(students, Shown(f));
    FilterMultiset(students, Shown(f));
    StudentOrderValid(s);
    SortBySorted(kept, StudentOrder(s));
    SortBy(kept, StudentOrder(s))
  }

  /** With no search and both filters at `'all'`, every student is listed: "Showing M of M". */
  lemma NoFiltersShowAll(students: seq<Student>, s: SortState)
    ensures multiset(FilteredStudents(students, NoFilters, s)) == multiset(students)
    ensures |FilteredStudents(students, NoFilters, s)| == |students|
  {
    FilterKeepsAll(students, Shown(NoFilters));
  }

  /**
   * Students that tie on the sort key keep their roster order, in either
   * direction.
   */
  lemma StudentSortStable(students: seq<Student>, f: StudentFilters, s: SortState, x: Student)
    ensures var kept := Filter(students, Shown(f));
      Filter(FilteredStudents(students, f, s), TiedWith(KeyOrder(s.sortBy), x)) == Filter(kept, TiedWith(KeyOrder(s.sortBy), x))
  {
    var kept := Filter(students, Shown(f));
    StudentOrderValid(s);
    DirectedStable(kept, KeyOrder(s.sortBy), s.direction, x);
    FilterSamePredicate(SortBy(kept, StudentOrder(s)), TiedWith(StudentOrder(s), x), TiedWith(KeyOrder(s.sortBy), x));
  }

  /** An unrecognised `sortBy` leaves the filtered students in roster order. */
  lemma UnknownSortKeepsOrder(students: seq<Student>, f: StudentFilters, s: SortState)
    requires s.sortBy != "name" && s.sortBy != "id" && s.sortBy != "program" && s.sortBy != "status"
    ensures FilteredStudents(students, f, s) == Filter(students, Shown(f))
  {
    SortByAllTied(Filter(students, Shown(f)), StudentOrder(s));
  }

  /**
   * When no two different listed students share a key, the descending list
   * is the ascending list reversed.
   */
  lemma DescendingReversesWithoutTies(students: seq<Student>, f: StudentFilters, sortBy: string)
    requires TiesOnlyEqual(Filter(students, Shown(f)), KeyOrder(sortBy))
    ensures FilteredStudents(students, f, SortState(sortBy, Desc)) == Reverse(FilteredStudents(students, f, SortState(sortBy, Asc)))
  {
    StudentOrderValid(SortState(sortBy, Asc));
    DescendingIsReversedAscending(Filter(students, Shown(f)), KeyOrder(sortBy));
  }

  /** When every student is in the same program, sorting by program changes nothing, in either direction. */
  lemma OneProgramKeepsOrder(students: seq<Student>, d: Direction)
    requires forall a, b :: a in students && b in students ==> a.program == b.program
    ensures FilteredStudents(students, NoFilters, SortState("program", d)) == students
  {
    FilterKeepsAll(students, Shown(NoFilters));
    forall a, b | a in students && b in students
      ensures StudentOrder(SortState("program", d))(a, b) == 0
    {
      LocaleCompareZero(a.program, b.program);
    }
    SortByAllTied(students, StudentOrder(SortState("program", d)));
  }

  /**
   * With ties it is not: every seed student is in 'Computer Science', so
   * sorting by program descending keeps roster order, which is not the
   * ascending order reversed.
   */
  lemma SeedProgramDescendingIsNotReversed()
    ensures FilteredStudents(MockData.Seed.students, NoFilters, SortState("program", Desc)) == MockData.Seed.students
    ensures FilteredStudents(MockData.Seed.students, NoFilters, SortState("program", Asc)) == MockData.Seed.students
    ensures Reverse(MockData.Seed.students) != MockData.Seed.students
  {
    var roster := MockData.Seed.students;
    assert forall st :: st in roster ==> st.program == "Computer Science";
    OneProgramKeepsOrder(roster, Desc);
    OneProgramKeepsOrder(roster, Asc);
    assert Reverse(roster)[0] == MockData.EthanBrown;
  }

  /** A term spanning the space between first and last name matches, in any letter case. */
  lemma SearchSpansFullName()
    ensures MatchesSearch(MockData.AlexJohnson, "x j")
    ensures MatchesSearch(MockData.AlexJohnson, "X J")
  {
    var name := MockData.AlexJohnson.FullName();
    assert name == "Alex Johnson";
    var lowered := ToLower(name);
    assert lowered[3] == 'x' && lowered[4] == ' ' && lowered[5] == 'j';
    assert lowered[3..6] == "x j";
    assert OccursAt(lowered, "x j", 3);
    var upper := ToLower("X J");
    assert upper[0] == 'x' && upper[1] == ' ' && upper[2] == 'j';
    assert upper == "x j";
    var term := ToLower("x j");
    assert term[0] == 'x' && term[1] == ' ' && term[2] == 'j';
    assert term == "x j";
  }

  /** `programs`: each program on the roster once, in order of first occurrence. */
  function Programs(students: seq<Student>): (r: seq<string>)
    ensures forall p :: p in r <==> exists st :: st in students && st.program == p
    ensures forall p :: p in r <==> p in Map(students, ProgramKey())
    ensures forall i, j :: 0 <= i < j < |r| ==> r[i] != r[j]
    ensures forall i, j :: 0 <= i < j < |r| ==>
      IndexOf(Map(students, ProgramKey()), r[i]) < IndexOf(Map(students, ProgramKey()), r[j])
  {
    var all := Map(students, ProgramKey());
    assert forall p :: p in all <==> exists st :: st in students && st.program == p by {
      forall p | p in all
        ensures exists st :: st in students && st.program == p
      {
        var i :| 0 <= i < |all| && all[i] == p;
        assert students[i] in students;
      }
      forall st | st in students
        ensures st.program in all
      {
        var i :| 0 <= i < |students| && students[i] == st;
        assert all[i] == st.program;
      }
    }
    Distinct(all)
  }

  lemma SeedPrograms()
    ensures Programs(MockData.Seed.students) == ["Computer Science"]
  {
    var r := Programs(MockData.Seed.students);
    assert "Computer Science" in r by {
      assert MockData.AlexJohnson in MockData.Seed.students;
    }
    assert forall i :: 0 <= i < |r| ==> r[i] == "Computer Science" by {
      forall i | 0 <= i < |r|
        ensures r[i] == "Computer Science"
      {
        assert r[i] in r;
      }
    }
    if |r| > 1 {
      FirstTwoDiffer(r);
      assert false;
    }
  }

  /** The page's state: the search box, the two filters and the sort controls. */
  class StudentsPage {
    var searchTerm: string
    var statusFilter: string
    var programFilter: string
    var sortBy: string
    var sortDirection: Direction

    function Filters(): StudentFilters
      reads this
    {
      StudentFilters(searchTerm, statusFilter, programFilter)
    }

    function Sort(): SortState
      reads this
    {
      SortState(sortBy, sortDirection)
    }

    /** The initial state: no search, all statuses and programs, by name ascending. */
    constructor()
      ensures Filters() == NoFilters && Sort() == InitialSort
    {
      searchTerm := "";
      statusFilter := "all";
      programFilter := "all";
      sortBy := "name";
      sortDirection := Asc;
    }

    method SetSearchTerm(term: string)
      modifies this
      ensures Filters() == old(Filters()).(searchTerm := term) && Sort() == old(Sort())
    {
      searchTerm := term;
    }

    method SetStatusFilter(status: string)
      modifies this
      ensures Filters() == old(Filters()).(statusFilter := status) && Sort() == old(Sort())
    {
      statusFilter := status;
    }

    method SetProgramFilter(program: string)
      modifies this
      ensures Filters() == old(Filters()).(programFilter := program) && Sort() == old(Sort())
    {
      programFilter := program;
    }

    /** A click on a column header. */
    method ToggleSort(field: string)
      modifies this
      ensures Sort() == ListControls.ToggleSort(old(Sort()), field)
      ensures Filters() == old(Filters())
    {
      if sortBy == field {
        sortDirection := if sortDirection == Asc then Desc else Asc;
      } else {
        sortBy := field;
        sortDirection := Asc;
      }
    }

    /** The rows shown, and the "Showing N of M" counts. */
    function Visible(students: seq<Student>): (r: seq<Student>)
      reads this
      ensures |r| <= |students|
    {
      FilteredStudents(students, Filters(), Sort())
    }
  }
}

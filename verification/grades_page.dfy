/**
 * The grade book: each grade record joined with its course and student for
 * display, a search and two filters over the joined records, and the colour
 * of a letter grade. The joined record keeps every field of the grade but
 * replaces its `studentId` with the student's human-readable code, so the
 * student filter, whose choices carry internal student ids, compares a code
 * with an id: that filter is modelled as written and as evidently intended.
 */
module Grades {
  import opened Wrappers
  import opened JsString
  import opened JsArray
  import opened Types
  import opened MockData

  /** `x || d` on a string: the empty string and a missing value both give the default. */
  function OrDefault(x: Option<string>, d: string): (r: string)
    ensures r == d || (x.Some? && r == x.value)
    ensures r == d <==> x.None? || x.value == "" || x.value == d
  {
    if x.Some? && x.value != "" then x.value else d
  }

  /**
   * One row of the grade book: the grade itself, with display fields. Its
   * `studentId` shadows `grade.studentId`.
   */
  datatype GradeDetail = GradeDetail(
    grade: Grade,
    courseName: string,
    courseCode: string,
    studentName: string,
    studentId: string)
  {
    /** The spread keeps the grade's own `courseId`. */
    function CourseId(): string {
      grade.courseId
    }
  }

  function CourseName(c: Option<Course>): Option<string> {
    if c.Some? then Some(c.value.name) else None
  }

  function CourseCode(c: Option<Course>): Option<string> {
    if c.Some? then Some(c.value.courseCode) else None
  }

  function StudentCode(st: Option<Student>): Option<string> {
    if st.Some? then Some(st.value.studentId) else None
  }

  /** The row for one grade, looked up in the given catalogue and roster. */
  function Detail(courses: seq<Course>, students: seq<Student>, g: Grade): GradeDetail {
    var course := Find(courses, CourseWithId(g.courseId));
    var student := Find(students, StudentWithId(g.studentId));
    GradeDetail(
      g,
      OrDefault(CourseName(course), "Unknown Course"),
      OrDefault(CourseCode(course), "Unknown"),
      if student.Some? then student.value.FullName() else "Unknown Student",
      OrDefault(StudentCode(student), "Unknown"))
  }

  function DetailIn(db: Db): Grade -> GradeDetail {
    (g: Grade) => Detail(db.courses, db.students, g)
  }

  /** `gradeDetails`: one row per grade record, in the same order. */
  function GradeDetails(db: Db): (r: seq<GradeDetail>)
    ensures |r| == |db.grades|
    ensures forall i :: 0 <= i < |r| ==> r[i].grade == db.grades[i] && r[i].CourseId() == db.grades[i].courseId
  {
    Map(db.grades, DetailIn(db))
  }

  /**
   * A grade whose course is missing shows 'Unknown Course' and 'Unknown'; one
   * whose student is missing shows 'Unknown Student' and 'Unknown'; a found
   * student with a code shows that code, not the internal id.
   */
  lemma DetailFallbacks(courses: seq<Course>, students: seq<Student>, g: Grade)
    ensures Find(courses, CourseWithId(g.courseId)).None? ==>
      Detail(courses, students, g).courseName == "Unknown Course" && Detail(courses, students, g).courseCode == "Unknown"
    ensures Find(students, StudentWithId(g.studentId)).None? ==>
      Detail(courses, students, g).studentName == "Unknown Student" && Detail(courses, students, g).studentId == "Unknown"
    ensures Find(students, StudentWithId(g.studentId)).Some? && Find(students, StudentWithId(g.studentId)).value.studentId != "" ==>
      Detail(courses, students, g).studentId == Find(students, StudentWithId(g.studentId)).value.studentId
  {
  }

  /** On the seed, grade '1' shows Alex Johnson's code 'CS10001' where the grade says '1'. */
  lemma SeedDetailShowsCode()
    ensures Detail(Seed.courses, Seed.students, Grade1).studentId == "CS10001"
    ensures Grade1.studentId == "1"
    ensures Detail(Seed.courses, Seed.students, Grade1).courseName == "Introduction to Computer Science"
  {
    SeedFindStudent(AlexJohnson);
    SeedFindCourse(CS101);
  }

  datatype GradeFilters = GradeFilters(searchTerm: string, courseFilter: string, studentFilter: string)

  const NoFilters := GradeFilters("", "all", "all")

  /** The search box: the term occurs, ignoring letter case, in the student name, course name, course code or shown student code. */
  predicate MatchesSearch(d: GradeDetail, term: string) {
    || term == ""
    || Includes(ToLower(d.studentName), ToLower(term))
    || Includes(ToLower(d.courseName), ToLower(term))
    || Includes(ToLower(d.courseCode), ToLower(term))
    || Includes(ToLower(d.studentId), ToLower(term))
  }

  predicate MatchesCourse(d: GradeDetail, courseFilter: string) {
    courseFilter == "all" || d.CourseId() == courseFilter
  }

  /** The student filter as written: it compares the shown student code with the chosen internal id. */
  predicate MatchesStudentAsWritten(d: GradeDetail, studentFilter: string) {
    studentFilter == "all" || d.studentId == studentFilter
  }

  /** The student filter as intended: it compares the grade's own student id with the chosen id. */
  predicate MatchesStudent(d: GradeDetail, studentFilter: string) {
    studentFilter == "all" || d.grade.studentId == studentFilter
  }

  function ShownAsWritten(f: GradeFilters): GradeDetail -> bool {
    (d: GradeDetail) => MatchesSearch(d, f.searchTerm) && MatchesCourse(d, f.courseFilter) && MatchesStudentAsWritten(d, f.studentFilter)
  }

  function Shown(f: GradeFilters): GradeDetail -> bool {
    (d: GradeDetail) => MatchesSearch(d, f.searchTerm) && MatchesCourse(d, f.courseFilter) && MatchesStudent(d, f.studentFilter)
  }

  /** `filteredGrades` as written. */
  function FilteredGradesAsWritten(details: seq<GradeDetail>, f: GradeFilters): (r: seq<GradeDetail>)
    ensures |r| <= |details|
    ensures forall d :: d in r <==> d in details && ShownAsWritten(f)(d)
    ensures IsSubsequence(r, details)
  {
    FilterMembers(details, ShownAsWritten(f));
    FilterSubsequence(details, ShownAsWritten(f));
    Filter(details, ShownAsWritten(f))
  }

  /**
   * `filteredGrades` with the student filter comparing internal ids: the
   * rows the search and both filters accept, in grade-book order.
   */
  function FilteredGrades(details: seq<GradeDetail>, f: GradeFilters): (r: seq<GradeDetail>)
    ensures |r| <= |details|
    ensures forall d :: d in r <==> d in details && Shown(f)(d)
    ensures IsSubsequence(r, details)
  {
    FilterMembers(details, Shown(f));
    FilterSubsequence(details, Shown(f));
    Filter(details, Shown(f))
  }

  /** With no search and both filters at `'all'`, every row is shown: "Showing M of M grade records". */
  lemma NoFiltersShowAll(details: seq<GradeDetail>)
    ensures FilteredGrades(details, NoFilters) == details
    ensures FilteredGradesAsWritten(details, NoFilters) == details
  {
    FilterKeepsAll(details, Shown(NoFilters));
    FilterKeepsAll(details, ShownAsWritten(NoFilters));
  }

  /**
   * Choosing a course keeps exactly the rows of that course, both as written
   * and as intended; with the intended student filter, choosing a student
   * keeps exactly that student's rows.
   */
  lemma SelectionFiltersWork(details: seq<GradeDetail>, courseId: string, studentId: string)
    requires courseId != "all" && studentId != "all"
    ensures forall d :: d in FilteredGrades(details, GradeFilters("", courseId, "all")) <==> d in details && d.CourseId() == courseId
    ensures forall d :: d in FilteredGradesAsWritten(details, GradeFilters("", courseId, "all")) <==> d in details && d.CourseId() == courseId
    ensures forall d :: d in FilteredGrades(details, GradeFilters("", "all", studentId)) <==> d in details && d.grade.studentId == studentId
  {
  }

  /** No student code on the roster equals any internal student id. */
  ghost predicate CodesAreNotIds(students: seq<Student>) {
    forall a, b :: a in students && b in students ==> a.studentId != b.id
  }

  /** A row whose student was found shows that student's code, or 'Unknown' when the code is empty. */
  lemma ShownCodeOfFoundStudent(courses: seq<Course>, students: seq<Student>, g: Grade)
    requires Find(students, StudentWithId(g.studentId)).Some?
    ensures var found := Find(students, StudentWithId(g.studentId)).value;
      && found in students
      && (Detail(courses, students, g).studentId == found.studentId || Detail(courses, students, g).studentId == "Unknown")
  {
  }

  /**
   * As written, choosing any student from the list (an internal id) shows
   * no row at all, when codes and ids never coincide: a found student shows
   * its code, and a missing one shows 'Unknown'.
   */
  lemma StudentFilterAsWrittenShowsNothing(db: Db, st: Student, f: GradeFilters)
    requires CodesAreNotIds(db.students) && st in db.students
    requires f.studentFilter == st.id && st.id != "all" && st.id != "Unknown"
    ensures FilteredGradesAsWritten(GradeDetails(db), f) == []
  {
    var details := GradeDetails(db);
    forall i | 0 <= i < |details|
      ensures !ShownAsWritten(f)(details[i])
    {
      assert details[i] == Detail(db.courses, db.students, db.grades[i]);
      if Find(db.students, StudentWithId(db.grades[i].studentId)).Some? {
        ShownCodeOfFoundStudent(db.courses, db.students, db.grades[i]);
      }
    }
    FilterNone(details, ShownAsWritten(f));
  }

  lemma SeedCodesAreNotIds()
    ensures CodesAreNotIds(Seed.students)
  {
    assert forall a :: a in Seed.students ==> |a.studentId| == 7;
    assert forall b :: b in Seed.students ==> |b.id| == 1;
  }

  /** Choosing Alex Johnson (id '1') in the seed grade book shows nothing as written. */
  lemma SeedStudentFilterAsWrittenIsEmpty()
    ensures FilteredGradesAsWritten(GradeDetails(Seed), GradeFilters("", "all", "1")) == []
  {
    SeedCodesAreNotIds();
    StudentFilterAsWrittenShowsNothing(Seed, AlexJohnson, GradeFilters("", "all", "1"));
  }

  /** With no search and every course, a row is shown exactly when its grade is the chosen student's. */
  lemma ShownForStudent(d: GradeDetail, studentId: string)
    ensures Shown(GradeFilters("", "all", studentId))(d) <==> studentId == "all" || d.grade.studentId == studentId
  {
  }

  /**
   * With the intended student filter and no search, the grade book shows
   * exactly the rows of that student's grades, `getGradesByStudent`, in order.
   */
  lemma StudentFilterShowsStudentGrades(db: Db, studentId: string)
    requires studentId != "all"
    ensures FilteredGrades(GradeDetails(db), GradeFilters("", "all", studentId)) == Map(GradesByStudent(db, studentId), DetailIn(db))
  {
    var p := Shown(GradeFilters("", "all", studentId));
    forall g: Grade
      ensures GradeOf(studentId)(g) == p(DetailIn(db)(g))
    {
      ShownForStudent(DetailIn(db)(g), studentId);
    }
    FilterMap(db.grades, DetailIn(db), p, GradeOf(studentId));
  }

  /** Choosing Alex Johnson (id '1') with the intended filter shows the rows of his two grades, '1' then '2'. */
  lemma SeedStudentFilterShowsGrades()
    ensures FilteredGrades(GradeDetails(Seed), GradeFilters("", "all", "1")) == [DetailIn(Seed)(Grade1), DetailIn(Seed)(Grade2)]
  {
    StudentFilterShowsStudentGrades(Seed, "1");
    SeedGradesOfStudent1();
  }

  /** `renderGradeColor`: the colour of a letter grade, by its first character. */
  function GradeColor(grade: string): (r: string)
    ensures grade != "" && grade[0] == 'A' ==> r == "text-success-700"
    ensures grade != "" && grade[0] == 'B' ==> r == "text-primary-600"
    ensures grade != "" && grade[0] == 'C' ==> r == "text-accent-600"
    ensures grade != "" && grade[0] == 'D' ==> r == "text-warning-600"
    ensures r == "text-error-600" <==> grade == "" || grade[0] !in {'A', 'B', 'C', 'D'}
  {
    var first := if grade == "" then "" else grade[..1];
    if first == "A" then "text-success-700"
    else if first == "B" then "text-primary-600"
    else if first == "C" then "text-accent-600"
    else if first == "D" then "text-warning-600"
    else "text-error-600"
  }

  /** The colour classes: A, B, C and D each have their own; 'B+' and 'B' share one. */
  lemma GradeColorByLetter()
    ensures GradeColor("A-") == "text-success-700" && GradeColor("B+") == "text-primary-600" && GradeColor("B") == "text-primary-600"
    ensures GradeColor("C") == "text-accent-600" && GradeColor("D+") == "text-warning-600"
    ensures GradeColor("F") == "text-error-600" && GradeColor("") == "text-error-600"
  {
  }

  /** The colour of a row: a missing (or empty) letter grade is coloured as 'F', that is, as an error. */
  function LetterColor(letterGrade: Option<string>): (r: string)
    ensures letterGrade.None? ==> r == "text-error-600"
  {
    GradeColor(OrDefault(letterGrade, "F"))
  }
}

/**
 * The in-memory tables of the system and the relationship resolvers over
 * them. The enrollment table is the join table between students and
 * courses. The resolvers take the tables as a `Db` value; `Seed` holds the
 * fixed tables the application ships with.
 */
module MockData {
  import opened Wrappers
  import opened Types
  import opened JsArray

  datatype Db = Db(
    users: seq<User>,
    students: seq<Student>,
    courses: seq<Course>,
    enrollments: seq<Enrollment>,
    grades: seq<Grade>,
    attendance: seq<Attendance>)

  // ---------------------------------------------------------------------------
  // Seed tables

  const AdminUser := User("1", "Admin User", "admin@edutrack.com", Admin, None)
  const FacultyUser := User("2", "Dr. Alan Turing", "faculty@edutrack.com", Faculty, None)
  const StudentUser := User("3", "Student User", "student@edutrack.com", StudentRole, None)

  const AlexJohnson := Student("1", "CS10001", "Alex", "Johnson", "alex.j@edutrack.com",
    Some("(555) 123-4567"), Some("1998-03-15"), Some("Male"),
    Some(Address("123 University Ave", "College Town", "CA", "90210", "USA")),
    "2021-09-01", Active, "Computer Science", "2021",
    Some("https://randomuser.me/api/portraits/men/1.jpg"))
  const MiaWilliams := Student("2", "CS10002", "Mia", "Williams", "mia.w@edutrack.com",
    Some("(555) 234-5678"), Some("1999-05-22"), Some("Female"),
    Some(Address("456 College Blvd", "Academic City", "NY", "10001", "USA")),
    "2021-09-01", Active, "Computer Science", "2021",
    Some("https://randomuser.me/api/portraits/women/1.jpg"))
  const JamesSmith := Student("3", "CS10003", "James", "Smith", "james.s@edutrack.com",
    Some("(555) 345-6789"), Some("1998-11-08"), Some("Male"),
    Some(Address("789 Learning Lane", "Studyville", "TX", "75001", "USA")),
    "2022-01-15", Active, "Computer Science", "2022",
    Some("https://randomuser.me/api/portraits/men/2.jpg"))
  const SophiaGarcia := Student("4", "CS10004", "Sophia", "Garcia", "sophia.g@edutrack.com",
    Some("(555) 456-7890"), Some("1997-07-30"), Some("Female"),
    Some(Address("321 Education Dr", "Knowledge Park", "FL", "33101", "USA")),
    "2020-09-01", Active, "Computer Science", "2020",
    Some("https://randomuser.me/api/portraits/women/2.jpg"))
  const EthanBrown := Student("5", "CS10005", "Ethan", "Brown", "ethan.b@edutrack.com",
    Some("(555) 567-8901"), Some("1999-01-14"), Some("Male"),
    Some(Address("555 Campus Circle", "Degree City", "IL", "60601", "USA")),
    "2021-09-01", Active, "Computer Science", "2021",
    Some("https://randomuser.me/api/portraits/men/3.jpg"))

  const CS101 := Course("1", "CS101", "Introduction to Computer Science",
    "An introductory course covering the basics of computer science, programming, and computational thinking.",
    3, "Computer Science", "Fall 2023", "Dr. Alan Turing",
    Schedule(["Monday", "Wednesday"], "09:00", "10:30", "Building A, Room 101"),
    35, 30, CourseActive)
  const CS202 := Course("2", "CS202", "Data Structures and Algorithms",
    "Advanced course covering fundamental data structures and algorithms used in computer science.",
    3, "Computer Science", "Fall 2023", "Dr. Jane Smith",
    Schedule(["Tuesday", "Thursday"], "11:00", "12:30", "Building B, Room 205"),
    40, 35, CourseActive)
  const CS304 := Course("3", "CS304", "Database Systems",
    "Introduction to database design, implementation, and management systems.",
    4, "Computer Science", "Fall 2023", "Dr. Robert Chen",
    Schedule(["Monday", "Wednesday", "Friday"], "13:00", "14:00", "Computer Lab, Room 302"),
    30, 28, CourseActive)
  const CS401 := Course("4", "CS401", "Software Engineering",
    "Principles and practices of software engineering, including design patterns and project management.",
    3, "Computer Science", "Fall 2023", "Dr. Maria Garcia",
    Schedule(["Tuesday", "Thursday"], "14:00", "15:30", "Building A, Room 110"),
    45, 42, CourseActive)
  const CS320 := Course("5", "CS320", "Computer Networks",
    "Fundamentals of computer networking, protocols, and network security.",
    4, "Computer Science", "Fall 2023", "Prof. David Wilson",
    Schedule(["Monday", "Wednesday", "Friday"], "10:00", "11:00", "Network Lab, Room 204"),
    30, 25, CourseActive)

  const SeedEnrollments := [
    Enrollment("1", "1", "1", "2023-08-20", Enrolled),
    Enrollment("2", "1", "3", "2023-08-20", Enrolled),
    Enrollment("3", "2", "2", "2023-08-15", Enrolled),
    Enrollment("4", "2", "4", "2023-08-15", Enrolled),
    Enrollment("5", "3", "1", "2023-08-18", Enrolled),
    Enrollment("6", "3", "5", "2023-08-18", Enrolled),
    Enrollment("7", "4", "2", "2023-08-20", Enrolled),
    Enrollment("8", "4", "4", "2023-08-20", Enrolled),
    Enrollment("9", "5", "3", "2023-08-21", Enrolled),
    Enrollment("10", "5", "5", "2023-08-21", Enrolled)
  ]

  const Grade1 := Grade("1", "1", "1",
    [ Assignment("a1", "Programming Assignment 1", 85.0, 100.0, 0.15),
      Assignment("a2", "Programming Assignment 2", 90.0, 100.0, 0.15),
      Assignment("a3", "Programming Assignment 3", 78.0, 100.0, 0.15) ],
    Some(Exam(88.0, 100.0, 0.25)), Some(Exam(92.0, 100.0, 0.3)),
    Some(87.7), Some("B+"), Some(3.5), Some("Excellent work throughout the semester."))
  const Grade2 := Grade("2", "1", "3",
    [ Assignment("a1", "Database Project 1", 92.0, 100.0, 0.2),
      Assignment("a2", "Database Project 2", 88.0, 100.0, 0.2) ],
    Some(Exam(90.0, 100.0, 0.3)), Some(Exam(94.0, 100.0, 0.3)),
    Some(91.2), Some("A-"), Some(3.7), Some("Outstanding performance in all areas."))
  const Grade3 := Grade("3", "2", "2",
    [ Assignment("a1", "Algorithm Analysis 1", 76.0, 100.0, 0.1),
      Assignment("a2", "Algorithm Analysis 2", 84.0, 100.0, 0.15),
      Assignment("a3", "Data Structures Project", 88.0, 100.0, 0.15) ],
    Some(Exam(82.0, 100.0, 0.3)), Some(Exam(85.0, 100.0, 0.3)),
    Some(83.7), Some("B"), Some(3.0), Some("Good understanding of core concepts."))

  const SeedAttendance := [
    Attendance("1", "1", "1", "2023-09-05", Present, None),
    Attendance("2", "1", "1", "2023-09-07", Present, None),
    Attendance("3", "1", "1", "2023-09-12", Absent, Some("Medical appointment")),
    Attendance("4", "1", "1", "2023-09-14", Present, None),
    Attendance("5", "1", "3", "2023-09-04", Present, None),
    Attendance("6", "1", "3", "2023-09-06", Late, Some("Arrived 15 minutes late"))
  ]

  const Seed := Db(
    [AdminUser, FacultyUser, StudentUser],
    [AlexJohnson, MiaWilliams, JamesSmith, SophiaGarcia, EthanBrown],
    [CS101, CS202, CS304, CS401, CS320],
    SeedEnrollments,
    [Grade1, Grade2, Grade3],
    SeedAttendance)

  // ---------------------------------------------------------------------------
  // Record predicates used by the resolvers

  function EnrolledIn(courseId: string): Enrollment -> bool {
    (e: Enrollment) => e.courseId == courseId
  }

  function EnrollmentOf(studentId: string): Enrollment -> bool {
    (e: Enrollment) => e.studentId == studentId
  }

  function StudentWithId(id: string): Student -> bool {
    (st: Student) => st.id == id
  }

  function CourseWithId(id: string): Course -> bool {
    (c: Course) => c.id == id
  }

  function GradeOf(studentId: string): Grade -> bool {
    (g: Grade) => g.studentId == studentId
  }

  function AttendanceOf(studentId: string): Attendance -> bool {
    (a: Attendance) => a.studentId == studentId
  }

  function AttendanceIn(courseId: string): Attendance -> bool {
    (a: Attendance) => a.courseId == courseId
  }

  /** The student an enrollment refers to: the first in roster order with its id, if any. */
  function StudentOf(students: seq<Student>): Enrollment -> Option<Student> {
    (e: Enrollment) => Find(students, StudentWithId(e.studentId))
  }

  /** The course an enrollment refers to: the first in catalogue order with its id, if any. */
  function CourseOf(courses: seq<Course>): Enrollment -> Option<Course> {
    (e: Enrollment) => Find(courses, CourseWithId(e.courseId))
  }

  // ---------------------------------------------------------------------------
  // Resolvers

  /** `getStudentsByCourse`: the students enrolled in a course, in enrollment order. */
  function StudentsByCourse(db: Db, courseId: string): (r: seq<Student>)
    ensures |r| <= |Filter(db.enrollments, EnrolledIn(courseId))|
  {
    Defined(Map(Filter(db.enrollments, EnrolledIn(courseId)), StudentOf(db.students)))
  }

  /** `getCoursesByStudent`: the courses a student is enrolled in, in enrollment order. */
  function CoursesByStudent(db: Db, studentId: string): (r: seq<Course>)
    ensures |r| <= |Filter(db.enrollments, EnrollmentOf(studentId))|
  {
    Defined(Map(Filter(db.enrollments, EnrollmentOf(studentId)), CourseOf(db.courses)))
  }

  /** `getGradesByStudent` */
  function GradesByStudent(db: Db, studentId: string): (r: seq<Grade>)
    ensures |r| <= |db.grades|
  {
    Filter(db.grades, GradeOf(studentId))
  }

  /** `getAttendanceByStudent` */
  function AttendanceByStudent(db: Db, studentId: string): (r: seq<Attendance>)
    ensures |r| <= |db.attendance|
  {
    Filter(db.attendance, AttendanceOf(studentId))
  }

  /** `getAttendanceByCourse` */
  function AttendanceByCourse(db: Db, courseId: string): (r: seq<Attendance>)
    ensures |r| <= |db.attendance|
  {
    Filter(db.attendance, AttendanceIn(courseId))
  }

  // ---------------------------------------------------------------------------
  // Properties of the resolvers

  /** Some enrollment links the student id to the course id. */
  ghost predicate Linked(db: Db, studentId: string, courseId: string) {
    exists e :: e in db.enrollments && e.studentId == studentId && e.courseId == courseId
  }

  ghost predicate UniqueStudentIds(students: seq<Student>) {
    forall i, j :: 0 <= i < j < |students| ==> students[i].id != students[j].id
  }

  ghost predicate UniqueCourseIds(courses: seq<Course>) {
    forall i, j :: 0 <= i < j < |courses| ==> courses[i].id != courses[j].id
  }

  /**
   * Every student listed for a course is a roster entry linked to the course
   * by an enrollment, and is the first roster entry carrying its id.
   */
  lemma StudentsByCourseSound(db: Db, courseId: string, st: Student)
    requires st in StudentsByCourse(db, courseId)
    ensures st in db.students && Linked(db, st.id, courseId)
    ensures Find(db.students, StudentWithId(st.id)) == Some(st)
  {
    var m := Filter(db.enrollments, EnrolledIn(courseId));
    DefinedMapMembers(m, StudentOf(db.students));
    FilterMembers(db.enrollments, EnrolledIn(courseId));
    var i :| 0 <= i < |m| && StudentOf(db.students)(m[i]) == Some(st);
    assert m[i] in m;
  }

  /** Every enrollment in the course whose student exists contributes that student. */
  lemma StudentsByCourseComplete(db: Db, courseId: string, e: Enrollment)
    requires e in db.enrollments && e.courseId == courseId
    requires exists st :: st in db.students && st.id == e.studentId
    ensures Find(db.students, StudentWithId(e.studentId)).Some?
    ensures Find(db.students, StudentWithId(e.studentId)).value in StudentsByCourse(db, courseId)
  {
    var m := Filter(db.enrollments, EnrolledIn(courseId));
    var st :| st in db.students && st.id == e.studentId;
    var k :| 0 <= k < |db.students| && db.students[k] == st;
    assert StudentWithId(e.studentId)(db.students[k]);
    DefinedMapMembers(m, StudentOf(db.students));
    FilterMembers(db.enrollments, EnrolledIn(courseId));
    var i :| 0 <= i < |m| && m[i] == e;
  }

  /**
   * Dangling enrollments are dropped rather than listed as missing entries:
   * the list is as long as the course's enrollments exactly when all of them
   * resolve, and then it is their students in enrollment order.
   */
  lemma StudentsByCourseResolved(db: Db, courseId: string)
    ensures var m := Filter(db.enrollments, EnrolledIn(courseId));
      && (|StudentsByCourse(db, courseId)| == |m| <==> forall i :: 0 <= i < |m| ==> StudentOf(db.students)(m[i]).Some?)
      && (|StudentsByCourse(db, courseId)| == |m| ==>
           forall i :: 0 <= i < |m| ==> StudentsByCourse(db, courseId)[i] == Find(db.students, StudentWithId(m[i].studentId)).value)
  {
    var m := Filter(db.enrollments, EnrolledIn(courseId));
    var looked := Map(m, StudentOf(db.students));
    assert forall i :: 0 <= i < |m| ==> looked[i] == StudentOf(db.students)(m[i]);
  }

  /** Every course listed for a student is a catalogue entry linked to the student, the first carrying its id. */
  lemma CoursesByStudentSound(db: Db, studentId: string, c: Course)
    requires c in CoursesByStudent(db, studentId)
    ensures c in db.courses && Linked(db, studentId, c.id)
    ensures Find(db.courses, CourseWithId(c.id)) == Some(c)
  {
    var m := Filter(db.enrollments, EnrollmentOf(studentId));
    DefinedMapMembers(m, CourseOf(db.courses));
    FilterMembers(db.enrollments, EnrollmentOf(studentId));
    var i :| 0 <= i < |m| && CourseOf(db.courses)(m[i]) == Some(c);
    assert m[i] in m;
  }

  /** Every enrollment of the student whose course exists contributes that course. */
  lemma CoursesByStudentComplete(db: Db, studentId: string, e: Enrollment)
    requires e in db.enrollments && e.studentId == studentId
    requires exists c :: c in db.courses && c.id == e.courseId
    ensures Find(db.courses, CourseWithId(e.courseId)).Some?
    ensures Find(db.courses, CourseWithId(e.courseId)).value in CoursesByStudent(db, studentId)
  {
    var m := Filter(db.enrollments, EnrollmentOf(studentId));
    var c :| c in db.courses && c.id == e.courseId;
    var k :| 0 <= k < |db.courses| && db.courses[k] == c;
    assert CourseWithId(e.courseId)(db.courses[k]);
    DefinedMapMembers(m, CourseOf(db.courses));
    FilterMembers(db.enrollments, EnrollmentOf(studentId));
    var i :| 0 <= i < |m| && m[i] == e;
  }

  /** With unique ids, looking up a roster entry's id finds that entry. */
  lemma FindUniqueStudent(students: seq<Student>, st: Student)
    requires UniqueStudentIds(students) && st in students
    ensures Find(students, StudentWithId(st.id)) == Some(st)
  {
    var k :| 0 <= k < |students| && students[k] == st;
    assert StudentWithId(st.id)(students[k]);
  }

  /** With unique ids, looking up a catalogue entry's id finds that entry. */
  lemma FindUniqueCourse(courses: seq<Course>, c: Course)
    requires UniqueCourseIds(courses) && c in courses
    ensures Find(courses, CourseWithId(c.id)) == Some(c)
  {
    var k :| 0 <= k < |courses| && courses[k] == c;
    assert CourseWithId(c.id)(courses[k]);
  }

  /**
   * The two resolvers mirror each other: with unique ids, a course is among
   * a student's courses exactly when the student is among the course's
   * students, and exactly when an enrollment links the two.
   */
  lemma EnrollmentMirror(db: Db, st: Student, c: Course)
    requires UniqueStudentIds(db.students) && UniqueCourseIds(db.courses)
    requires st in db.students && c in db.courses
    ensures c in CoursesByStudent(db, st.id) <==> Linked(db, st.id, c.id)
    ensures st in StudentsByCourse(db, c.id) <==> Linked(db, st.id, c.id)
  {
    if Linked(db, st.id, c.id) {
      var e :| e in db.enrollments && e.studentId == st.id && e.courseId == c.id;
      FindUniqueStudent(db.students, st);
      FindUniqueCourse(db.courses, c);
      StudentsByCourseComplete(db, c.id, e);
      CoursesByStudentComplete(db, st.id, e);
    } else {
      if c in CoursesByStudent(db, st.id) {
        CoursesByStudentSound(db, st.id, c);
      }
      if st in StudentsByCourse(db, c.id) {
        StudentsByCourseSound(db, c.id, st);
      }
    }
  }

  /**
   * The record filters keep exactly the records carrying the key, in table
   * order.
   */
  lemma RecordFiltersSpec(db: Db, studentId: string, courseId: string)
    ensures forall g :: g in GradesByStudent(db, studentId) <==> g in db.grades && g.studentId == studentId
    ensures IsSubsequence(GradesByStudent(db, studentId), db.grades)
    ensures forall a :: a in AttendanceByStudent(db, studentId) <==> a in db.attendance && a.studentId == studentId
    ensures IsSubsequence(AttendanceByStudent(db, studentId), db.attendance)
    ensures forall a :: a in AttendanceByCourse(db, courseId) <==> a in db.attendance && a.courseId == courseId
    ensures IsSubsequence(AttendanceByCourse(db, courseId), db.attendance)
  {
    FilterMembers(db.grades, GradeOf(studentId));
    FilterSubsequence(db.grades, GradeOf(studentId));
    FilterMembers(db.attendance, AttendanceOf(studentId));
    FilterSubsequence(db.attendance, AttendanceOf(studentId));
    FilterMembers(db.attendance, AttendanceIn(courseId));
    FilterSubsequence(db.attendance, AttendanceIn(courseId));
  }

  /** An id no record carries gives an empty list, never a failure. */
  lemma UnknownIdGivesEmpty(db: Db, id: string)
    ensures (forall e :: e in db.enrollments ==> e.courseId != id) ==> StudentsByCourse(db, id) == []
    ensures (forall e :: e in db.enrollments ==> e.studentId != id) ==> CoursesByStudent(db, id) == []
    ensures (forall g :: g in db.grades ==> g.studentId != id) ==> GradesByStudent(db, id) == []
    ensures (forall a :: a in db.attendance ==> a.studentId != id) ==> AttendanceByStudent(db, id) == []
    ensures (forall a :: a in db.attendance ==> a.courseId != id) ==> AttendanceByCourse(db, id) == []
  {
    if forall e :: e in db.enrollments ==> e.courseId != id {
      FilterNone(db.enrollments, EnrolledIn(id));
    }
    if forall e :: e in db.enrollments ==> e.studentId != id {
      FilterNone(db.enrollments, EnrollmentOf(id));
    }
    if forall g :: g in db.grades ==> g.studentId != id {
      FilterNone(db.grades, GradeOf(id));
    }
    if forall a :: a in db.attendance ==> a.studentId != id {
      FilterNone(db.attendance, AttendanceOf(id));
    }
    if forall a :: a in db.attendance ==> a.courseId != id {
      FilterNone(db.attendance, AttendanceIn(id));
    }
  }

  // ---------------------------------------------------------------------------
  // The seed tables

  /** The seed roster and catalogue carry no duplicate ids, so the mirror applies to them. */
  lemma SeedIdsUnique()
    ensures UniqueStudentIds(Seed.students) && UniqueCourseIds(Seed.courses)
  {
  }

  /** Looking up the id of a seed student finds that student. */
  lemma SeedFindStudent(st: Student)
    requires st in Seed.students
    ensures Find(Seed.students, StudentWithId(st.id)) == Some(st)
  {
    SeedIdsUnique();
    FindUniqueStudent(Seed.students, st);
  }

  /** Looking up the id of a seed course finds that course. */
  lemma SeedFindCourse(c: Course)
    requires c in Seed.courses
    ensures Find(Seed.courses, CourseWithId(c.id)) == Some(c)
  {
    SeedIdsUnique();
    FindUniqueCourse(Seed.courses, c);
  }

  lemma SeedEnrollmentsInCourse1()
    ensures Filter(SeedEnrollments, EnrolledIn("1")) == [SeedEnrollments[0], SeedEnrollments[4]]
  {
    FilterTwo(SeedEnrollments, EnrolledIn("1"), 0, 4);
  }

  lemma SeedEnrollmentsOfStudent1()
    ensures Filter(SeedEnrollments, EnrollmentOf("1")) == [SeedEnrollments[0], SeedEnrollments[1]]
  {
    FilterTwo(SeedEnrollments, EnrollmentOf("1"), 0, 1);
  }

  /** Two enrollments that both resolve give their two records, in order. */
  lemma ResolvedPair<U(!new)>(m: seq<Enrollment>, resolve: Enrollment -> Option<U>, a: U, b: U)
    requires |m| == 2 && resolve(m[0]) == Some(a) && resolve(m[1]) == Some(b)
    ensures Defined(Map(m, resolve)) == [a, b]
  {
    var looked := Map(m, resolve);
    assert looked == [Some(a), Some(b)];
  }

  /** Course '1' lists Alex Johnson and James Smith, from enrollments '1' and '5'. */
  lemma SeedStudentsOfCourse1()
    ensures StudentsByCourse(Seed, "1") == [AlexJohnson, JamesSmith]
  {
    SeedEnrollmentsInCourse1();
    SeedFindStudent(AlexJohnson);
    SeedFindStudent(JamesSmith);
    ResolvedPair([SeedEnrollments[0], SeedEnrollments[4]], StudentOf(Seed.students), AlexJohnson, JamesSmith);
  }

  /** Student '1' takes CS101 and CS304, in that order. */
  lemma SeedCoursesOfStudent1()
    ensures CoursesByStudent(Seed, "1") == [CS101, CS304]
  {
    SeedEnrollmentsOfStudent1();
    SeedFindCourse(CS101);
    SeedFindCourse(CS304);
    ResolvedPair([SeedEnrollments[0], SeedEnrollments[1]], CourseOf(Seed.courses), CS101, CS304);
  }

  /** Student '1' has grades '1' and '2'. */
  lemma SeedGradesOfStudent1()
    ensures GradesByStudent(Seed, "1") == [Grade1, Grade2]
  {
    var p := GradeOf("1");
    assert Filter([Grade3], p) == [];
    FilterCons(Grade2, [Grade3], p);
    assert [Grade2] + [Grade3] == [Grade2, Grade3];
    FilterCons(Grade1, [Grade2, Grade3], p);
    assert [Grade1] + [Grade2, Grade3] == [Grade1, Grade2, Grade3];
  }

  /** All six attendance records are student '1''s. */
  lemma SeedAttendanceOfStudent1()
    ensures AttendanceByStudent(Seed, "1") == SeedAttendance
  {
    FilterKeepsEvery(SeedAttendance, AttendanceOf("1"));
  }
}

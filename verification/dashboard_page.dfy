/**
 * The dashboard: the courses shown to the signed-in user, the two counts
 * taken from the tables, and the colour bar of each course card.
 */
module Dashboard {
  import opened Wrappers
  import opened JsArray
  import opened Types
  import opened MockData
  import CourseDetail

  /** A signed-in user with the student role. */
  predicate IsStudent(user: Option<User>) {
    user.Some? && user.value.role == StudentRole
  }

  /**
   * The course selection of the effect: a student sees the courses of
   * student '1', whoever they are; anyone else, or nobody, sees the first
   * three catalogue courses (`slice(0, 3)`, fewer when the catalogue is
   * shorter).
   */
  function UserCourses(db: Db, user: Option<User>): (r: seq<Course>)
    ensures IsStudent(user) ==> forall c :: c in r ==> c in db.courses && Linked(db, "1", c.id)
    ensures !IsStudent(user) ==> |r| == (if |db.courses| < 3 then |db.courses| else 3)
    ensures !IsStudent(user) ==> forall i :: 0 <= i < |r| ==> r[i] == db.courses[i]
  {
    if IsStudent(user) then
      var listed := CoursesByStudent(db, "1");
      assert forall c :: c in listed ==> c in db.courses && Linked(db, "1", c.id) by {
        forall c | c in listed
          ensures c in db.courses && Linked(db, "1", c.id)
        {
          CoursesByStudentSound(db, "1", c);
        }
      }
      listed
    else if |db.courses| < 3 then db.courses
    else db.courses[..3]
  }

  /** Every student sees the same courses: those of student '1'. */
  lemma StudentsSeeStudent1(db: Db, u: User, v: User)
    requires u.role == StudentRole && v.role == StudentRole
    ensures UserCourses(db, Some(u)) == UserCourses(db, Some(v)) == CoursesByStudent(db, "1")
  {
  }

  /** On the seed, a student sees CS101 and CS304. */
  lemma SeedStudentCourses()
    ensures UserCourses(Seed, Some(StudentUser)) == [CS101, CS304]
  {
    SeedCoursesOfStudent1();
  }

  /** On the seed, an administrator, a faculty member or nobody sees CS101, CS202 and CS304. */
  lemma SeedOtherCourses(user: Option<User>)
    requires !IsStudent(user)
    ensures UserCourses(Seed, user) == [CS101, CS202, CS304]
  {
    assert Seed.courses[..3] == [CS101, CS202, CS304];
  }

  /** The two counts the stat cards take from the tables. */
  datatype Counts = Counts(totalStudents: nat, activeCourses: nat)

  /** "Total Students" and "Active Courses": the lengths of the roster and the catalogue. */
  function StatCounts(db: Db): (r: Counts)
    ensures r.totalStudents == |db.students| && r.activeCourses == |db.courses|
  {
    Counts(|db.students|, |db.courses|)
  }

  function IsActive(): Course -> bool {
    (c: Course) => c.status == CourseActive
  }

  /**
   * "Active Courses" counts every course whatever its status: it is at least
   * the number of active ones, and equal to it exactly when all are active.
   */
  lemma ActiveCoursesCountsAll(db: Db)
    ensures |Filter(db.courses, IsActive())| <= StatCounts(db).activeCourses
    ensures |Filter(db.courses, IsActive())| == StatCounts(db).activeCourses <==> forall c :: c in db.courses ==> c.status == CourseActive
  {
    if forall c :: c in db.courses ==> c.status == CourseActive {
      FilterKeepsAll(db.courses, IsActive());
    } else {
      var c :| c in db.courses && c.status != CourseActive;
      FilterDropsSome(db.courses, IsActive(), c);
    }
  }

  lemma SeedCounts()
    ensures StatCounts(Seed) == Counts(5, 5)
  {
  }

  const OtherBarColour := "bg-gray-500"

  /** The colour bar of a course card: the course page's four departments and Mathematics, else gray. */
  function BarColour(department: string): (r: string)
    ensures department == "Computer Science" ==> r == "bg-blue-500"
    ensures department == "Business" ==> r == "bg-green-500"
    ensures department == "Engineering" ==> r == "bg-purple-500"
    ensures department == "Psychology" ==> r == "bg-pink-500"
    ensures department == "Mathematics" ==> r == "bg-yellow-500"
    ensures r == OtherBarColour <==> department !in {"Computer Science", "Business", "Engineering", "Psychology", "Mathematics"}
  {
    if department == "Computer Science" then "bg-blue-500"
    else if department == "Business" then "bg-green-500"
    else if department == "Engineering" then "bg-purple-500"
    else if department == "Psychology" then "bg-pink-500"
    else if department == "Mathematics" then "bg-yellow-500"
    else OtherBarColour
  }

  /** The five named departments get five different bars. */
  lemma BarColoursDistinct(a: string, b: string)
    requires a in {"Computer Science", "Business", "Engineering", "Psychology", "Mathematics"}
    requires b in {"Computer Science", "Business", "Engineering", "Psychology", "Mathematics"}
    ensures BarColour(a) == BarColour(b) <==> a == b
  {
  }

  /**
   * The bar gives a colour to exactly the departments the course page's
   * badge does, and to Mathematics, which the badge leaves gray.
   */
  lemma BarColourExtendsBadge(department: string)
    ensures department != "Mathematics" ==>
      (BarColour(department) == OtherBarColour <==> CourseDetail.DepartmentTone(department) == CourseDetail.OtherDepartmentTone)
    ensures BarColour("Mathematics") != OtherBarColour
    ensures CourseDetail.DepartmentTone("Mathematics") == CourseDetail.OtherDepartmentTone
  {
  }

  /** The page's state: the courses on the cards. */
  class DashboardPage {
    var userCourses: seq<Course>

    constructor()
      ensures userCourses == []
    {
      userCourses := [];
    }

    /** The effect run when the user changes. */
    method LoadCourses(db: Db, user: Option<User>)
      modifies this
      ensures userCourses == UserCourses(db, user)
    {
      userCourses := UserCourses(db, user);
    }
  }
}

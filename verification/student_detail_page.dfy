/**
 * The student profile page: looking the student up by the route id and
 * loading their courses, grades and attendance; the grade-point average and
 * the attendance rate shown in the summary; and the status and final-grade
 * badges.
 */
module StudentDetail {
  import opened Wrappers
  import opened JsString
  import opened JsArray
  import opened Types
  import opened MockData

  // ---------------------------------------------------------------------------
  // Grade-point average

  /** A grade's points, with a missing value counted as 0 (`grade.gpa || 0`). */
  function Points(g: Grade): real {
    g.gpa.GetOr(0.0)
  }

  /** The sum the `reduce` accumulates, from the left. */
  function PointsSum(grades: seq<Grade>): real
    decreases |grades|
  {
    if grades == [] then 0.0 else PointsSum(grades[..|grades| - 1]) + Points(grades[|grades| - 1])
  }

  /** `calculateGPA`: 0 for no grades, otherwise the mean of the grade points. */
  function Gpa(grades: seq<Grade>): (r: real)
    ensures grades == [] ==> r == 0.0
    ensures grades != [] ==> r * |grades| as real == PointsSum(grades)
  {
    if grades == [] then 0.0 else PointsSum(grades) / |grades| as real
  }

  /** When every grade's points are at least `lo`, their sum is at least `lo` times the count. */
  lemma {:induction false} PointsSumAtLeast(grades: seq<Grade>, lo: real)
    requires forall g :: g in grades ==> lo <= Points(g)
    ensures lo * |grades| as real <= PointsSum(grades)
    decreases |grades|
  {
    if grades != [] {
      var init, last := grades[..|grades| - 1], grades[|grades| - 1];
      assert forall g :: g in init ==> g in grades;
      assert last in grades;
      PointsSumAtLeast(init, lo);
      ScaleStep(lo, |init| as real);
    }
  }

  /** When every grade's points are at most `hi`, their sum is at most `hi` times the count. */
  lemma {:induction false} PointsSumAtMost(grades: seq<Grade>, hi: real)
    requires forall g :: g in grades ==> Points(g) <= hi
    ensures PointsSum(grades) <= hi * |grades| as real
    decreases |grades|
  {
    if grades != [] {
      var init, last := grades[..|grades| - 1], grades[|grades| - 1];
      assert forall g :: g in init ==> g in grades;
      assert last in grades;
      PointsSumAtMost(init, hi);
      ScaleStep(hi, |init| as real);
    }
  }

  /** `x * (k + 1) == x * k + x`, kept apart so the induction above stays linear. */
  lemma ScaleStep(x: real, k: real)
    ensures x * (k + 1.0) == x * k + x
  {
  }

  /**
   * The average lies within the range of the grade points: with points in
   * `0..4` (missing ones counting as 0), it lies in `0..4`; when every grade
   * has the same points, the average is those points.
   */
  lemma GpaBounds(grades: seq<Grade>, lo: real, hi: real)
    requires grades != []
    requires forall g :: g in grades ==> lo <= Points(g) <= hi
    ensures lo <= Gpa(grades) <= hi
  {
    PointsSumAtLeast(grades, lo);
    PointsSumAtMost(grades, hi);
  }

  lemma GpaOfEqualPoints(grades: seq<Grade>, v: real)
    requires grades != [] && forall g :: g in grades ==> Points(g) == v
    ensures Gpa(grades) == v
  {
    PointsSumAtLeast(grades, v);
    PointsSumAtMost(grades, v);
  }

  /** Seed student '1' has grade points 3.5 and 3.7: an average of 3.6. */
  lemma SeedGpa()
    ensures Gpa(GradesByStudent(Seed, "1")) == 3.6
  {
    SeedGradesOfStudent1();
    assert [Grade1][..0] == [];
    assert PointsSum([Grade1]) == 3.5;
    assert [Grade1, Grade2][..1] == [Grade1];
    assert PointsSum([Grade1, Grade2]) == 7.2;
  }

  // ---------------------------------------------------------------------------
  // Attendance rate

  /** `'present'` and `'late'` count as attended; `'absent'` and `'excused'` do not. */
  function Attended(): Attendance -> bool {
    (a: Attendance) => a.status == Present || a.status == Late
  }

  /**
   * `Math.round(attended / total * 100)`, in integers: the nearest whole
   * percentage, halves rounded up.
   */
  function AttendancePercent(attended: nat, total: nat): (pct: nat)
    requires 0 < total && attended <= total
    ensures -(total as int) <= 2 * (100 * attended - total * pct) < total
    ensures pct <= 100
  {
    RoundedPercentBounds(attended, total);
    (200 * attended + total) / (2 * total)
  }

  /** The rounded quotient is within half a unit of the exact percentage, and at most 100. */
  lemma RoundedPercentBounds(attended: nat, total: nat)
    requires 0 < total && attended <= total
    ensures var q := (200 * attended + total) / (2 * total);
      && -(total as int) <= 2 * (100 * attended - total * q) < total
      && 0 <= q <= 100
  {
    var a, b := 200 * attended + total, 2 * total;
    var q := a / b;
    assert q * b <= a < q * b + b by {
      assert a == q * b + a % b;
    }
    assert 2 * (100 * attended - total * q) == a - total - q * b;
    assert a < 101 * b;
    if q > 100 {
      MulMono(101, q, b);
      assert false;
    }
  }

  lemma MulMono(x: int, y: int, b: int)
    requires x <= y && 0 <= b
    ensures x * b <= y * b
  {
    assert (y - x) * b >= 0;
  }

  /** The quotient is the one `q` with `q * b <= a < (q + 1) * b`. */
  lemma DivIs(a: int, b: int, q: int)
    requires 0 < b && 0 <= a && q * b <= a < q * b + b
    ensures a / b == q
  {
    var d := a / b;
    assert d * b <= a < d * b + b;
    assert (d + 1) * b == d * b + b;
    assert (q + 1) * b == q * b + b;
    if d < q {
      MulMono(d + 1, q, b);
    } else if d > q {
      MulMono(q + 1, d, b);
    }
  }

  /**
   * The rounded percentage is 100 exactly from 99.5% upwards and 0 exactly
   * below 0.5%; in particular all attended gives 100 and none gives 0.
   */
  lemma AttendancePercentEnds(attended: nat, total: nat)
    requires 0 < total && attended <= total
    ensures AttendancePercent(attended, total) == 100 <==> 200 * attended >= 199 * total
    ensures AttendancePercent(attended, total) == 0 <==> 200 * attended < total
    ensures attended == total ==> AttendancePercent(attended, total) == 100
    ensures attended == 0 ==> AttendancePercent(attended, total) == 0
  {
    var a, b := 200 * attended + total, 2 * total;
    var d := a / b;
    assert d * b <= a < d * b + b;
    if 200 * attended >= 199 * total {
      DivIs(a, b, 100);
    } else if d >= 100 {
      MulMono(100, d, b);
    }
    if 200 * attended < total {
      DivIs(a, b, 0);
    }
  }

  /** `calculateAttendanceRate`: '0%' for no records, otherwise the rounded percentage attended. */
  function AttendanceRate(records: seq<Attendance>): (r: string)
    ensures records == [] ==> r == "0%"
  {
    if records == [] then "0%"
    else NatToString(AttendancePercent(|Filter(records, Attended())|, |records|)) + "%"
  }

  /**
   * The rate is a whole number between 0 and 100 followed by '%', whose
   * digits read back as that number. It is 100% when every record counts as
   * attended, and 0% when none does; rounding also gives 100% from 99.5%
   * upwards (199 of 200) and 0% below 0.5%.
   */
  lemma AttendanceRateSpec(records: seq<Attendance>)
    requires records != []
    ensures var pct := AttendancePercent(|Filter(records, Attended())|, |records|);
      && AttendanceRate(records) == NatToString(pct) + "%"
      && DigitsValue(NatToString(pct)) == pct
      && ((forall a :: a in records ==> Attended()(a)) ==> pct == 100)
      && ((forall a :: a in records ==> !Attended()(a)) ==> pct == 0)
      && (pct == 100 <==> 200 * |Filter(records, Attended())| >= 199 * |records|)
      && (pct == 0 <==> 200 * |Filter(records, Attended())| < |records|)
  {
    var n := |records|;
    var p := |Filter(records, Attended())|;
    var pct := AttendancePercent(p, n);
    NatToStringRoundTrip(pct);
    AttendancePercentEnds(p, n);
    if forall a :: a in records ==> Attended()(a) {
      FilterKeepsAll(records, Attended());
    }
    if forall a :: a in records ==> !Attended()(a) {
      FilterNone(records, Attended());
    }
  }

  /** Seed student '1' attended 5 of 6 sessions (one absence): '83%'. */
  lemma SeedAttendanceRate()
    ensures AttendanceRate(AttendanceByStudent(Seed, "1")) == "83%"
  {
    SeedAttendanceOfStudent1();
    var records := SeedAttendance;
    assert Filter(records[5..], Attended()) == [records[5]];
    assert Filter(records[4..], Attended()) == [records[4], records[5]];
    assert Filter(records[3..], Attended()) == [records[3], records[4], records[5]];
    assert Filter(records[2..], Attended()) == [records[3], records[4], records[5]];
    assert |Filter(records, Attended())| == 5;
    assert AttendancePercent(5, 6) == 83;
    assert NatToString(83) == "83";
  }

  /** One of two, and one of eight: 50%, and 12.5% rounded up to 13%. */
  lemma AttendancePercentExamples()
    ensures AttendancePercent(1, 2) == 50
    ensures AttendancePercent(1, 8) == 13
    ensures AttendancePercent(0, 3) == 0
  {
  }

  // ---------------------------------------------------------------------------
  // Badges

  /** The status badge: active, suspended and inactive have their own classes; graduated gets the warning class. */
  function StatusBadge(status: StudentStatus): (r: string)
    ensures status == Active ==> r == "badge-success"
    ensures status == Suspended ==> r == "badge-error"
    ensures status == Inactive ==> r == "bg-gray-100 text-gray-800"
    ensures r == "badge-warning" <==> status == Graduated
  {
    match status
    case Active => "badge-success"
    case Suspended => "badge-error"
    case Inactive => "bg-gray-100 text-gray-800"
    case Graduated => "badge-warning"
  }

  /** Different statuses get different badges. */
  lemma StatusBadgeDistinct(a: StudentStatus, b: StudentStatus)
    ensures StatusBadge(a) == StatusBadge(b) <==> a == b
  {
  }

  /** The badge label: the status with its first letter upper-cased. */
  function StatusLabel(status: StudentStatus): (r: string)
    ensures |r| == |status.Name()| && r[0] == UpperChar(status.Name()[0]) && r[1..] == status.Name()[1..]
  {
    Capitalize(status.Name())
  }

  lemma StatusLabels()
    ensures StatusLabel(Active) == "Active" && StatusLabel(Graduated) == "Graduated"
    ensures StatusLabel(Inactive) == "Inactive" && StatusLabel(Suspended) == "Suspended"
  {
  }

  /**
   * `parseFloat` of the first character of the letter grade (or of '0' when
   * there is none): the digit's value, or `NaN` (`None`) for anything else.
   */
  function FirstCharNumber(letterGrade: Option<string>): (r: Option<nat>)
    ensures r.Some? ==> r.value < 10
  {
    var first := if letterGrade.None? || letterGrade.value == "" then '0' else letterGrade.value[0];
    if IsDigit(first) then Some(DigitValue(first)) else None
  }

  /** The final-grade badge as written: thresholds 3.5 and 2.5 applied to the parsed first character. */
  function LetterBadgeAsWritten(letterGrade: Option<string>): (r: string)
    ensures r == "badge-success" <==> FirstCharNumber(letterGrade).Some? && FirstCharNumber(letterGrade).value >= 4
    ensures r == "badge-warning" <==> FirstCharNumber(letterGrade) == Some(3)
  {
    var n := FirstCharNumber(letterGrade);
    if n.Some? && n.value as real >= 3.5 then "badge-success"
    else if n.Some? && n.value as real >= 2.5 then "badge-warning"
    else "badge-error"
  }

  /** As written, a missing letter grade or one starting with a letter always gets the error badge. */
  lemma LetterBadgeAsWrittenIsError(letterGrade: Option<string>)
    requires letterGrade.None? || letterGrade.value == "" || !IsDigit(letterGrade.value[0])
    ensures LetterBadgeAsWritten(letterGrade) == "badge-error"
  {
  }

  /** Every seed grade, including an 'A-' with 3.7 points, gets the error badge as written. */
  lemma SeedLetterBadgesAsWritten()
    ensures LetterBadgeAsWritten(Grade1.letterGrade) == "badge-error"
    ensures LetterBadgeAsWritten(Grade2.letterGrade) == "badge-error"
    ensures LetterBadgeAsWritten(Grade3.letterGrade) == "badge-error"
  {
  }

  /** The final-grade badge as intended: the same thresholds applied to the grade points. */
  function LetterBadge(g: Grade): (r: string)
    ensures r == "badge-success" <==> Points(g) >= 3.5
    ensures r == "badge-warning" <==> 2.5 <= Points(g) < 3.5
    ensures r == "badge-error" <==> Points(g) < 2.5
  {
    if Points(g) >= 3.5 then "badge-success"
    else if Points(g) >= 2.5 then "badge-warning"
    else "badge-error"
  }

  /** Higher grade points never get a worse badge. */
  lemma LetterBadgeMonotone(g: Grade, h: Grade)
    requires Points(g) <= Points(h)
    ensures LetterBadge(g) == "badge-success" ==> LetterBadge(h) == "badge-success"
    ensures LetterBadge(h) == "badge-error" ==> LetterBadge(g) == "badge-error"
  {
  }

  lemma SeedLetterBadges()
    ensures LetterBadge(Grade1) == "badge-success" && LetterBadge(Grade2) == "badge-success"
    ensures LetterBadge(Grade3) == "badge-warning"
  {
  }

  // ---------------------------------------------------------------------------
  // The page

  /** The page's state: the student found for the route id, their records, and the open tab. */
  class StudentDetailPage {
    var student: Option<Student>
    var courses: seq<Course>
    var grades: seq<Grade>
    var attendance: seq<Attendance>
    var activeTab: string

    constructor()
      ensures student.None? && courses == [] && grades == [] && attendance == [] && activeTab == "overview"
    {
      student := None;
      courses := [];
      grades := [];
      attendance := [];
      activeTab := "overview";
    }

    /** The "Student not found" view is shown while there is no student. */
    predicate ShowsNotFound()
      reads this
    {
      student.None?
    }

    /**
     * The lookup effect for the route id. A missing or empty id changes
     * nothing; otherwise the student becomes the first with that id, if
     * any, and only a found student's records are loaded.
     */
    method Load(db: Db, id: Option<string>)
      modifies this
      ensures id.None? || id.value == "" ==>
        student == old(student) && courses == old(courses) && grades == old(grades) && attendance == old(attendance)
      ensures id.Some? && id.value != "" ==> student == Find(db.students, StudentWithId(id.value))
      ensures id.Some? && id.value != "" && student.Some? ==>
        && courses == CoursesByStudent(db, student.value.id)
        && grades == GradesByStudent(db, student.value.id)
        && attendance == AttendanceByStudent(db, student.value.id)
      ensures id.Some? && id.value != "" && student.None? ==>
        courses == old(courses) && grades == old(grades) && attendance == old(attendance)
      ensures activeTab == old(activeTab)
    {
      if id.Some? && id.value != "" {
        var found := Find(db.students, StudentWithId(id.value));
        student := found;
        if found.Some? {
          courses := CoursesByStudent(db, found.value.id);
          grades := GradesByStudent(db, found.value.id);
          attendance := AttendanceByStudent(db, found.value.id);
        }
      }
    }

    /** A tab button. */
    method SelectTab(tab: string)
      modifies this
      ensures activeTab == tab
      ensures student == old(student) && courses == old(courses) && grades == old(grades) && attendance == old(attendance)
    {
      activeTab := tab;
    }

    /** The summary figures for the loaded records. */
    function Summary(): (r: (real, string))
      reads this
      ensures grades == [] ==> r.0 == 0.0
      ensures attendance == [] ==> r.1 == "0%"
    {
      (Gpa(grades), AttendanceRate(attendance))
    }
  }

  /** An id no seed student carries shows the "Student not found" view. */
  lemma UnknownIdNotFound(db: Db, id: string)
    requires id != "" && forall st :: st in db.students ==> st.id != id
    ensures Find(db.students, StudentWithId(id)).None?
  {
  }
}

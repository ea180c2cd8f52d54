/**
 * The records of the student information system: users, students, courses,
 * enrollments, grades and attendance entries. Identifiers and dates are
 * strings (dates already formatted as `yyyy-MM-dd`); optional fields are
 * `Option`s; scores, weights and grade points are reals.
 */
module Types {
  import opened Wrappers

  datatype Role = Admin | Faculty | StudentRole {
    /** The role's spelling in the records and in the user interface. */
    function Name(): string {
      match this
      case Admin => "admin"
      case Faculty => "faculty"
      case StudentRole => "student"
    }
  }

  datatype User = User(id: string, name: string, email: string, role: Role, avatar: Option<string>)

  datatype Address = Address(street: string, city: string, state: string, zipCode: string, country: string)

  datatype StudentStatus = Active | Inactive | Graduated | Suspended {
    function Name(): string {
      match this
      case Active => "active"
      case Inactive => "inactive"
      case Graduated => "graduated"
      case Suspended => "suspended"
    }
  }

  datatype Student = Student(
    id: string,
    studentId: string,
    firstName: string,
    lastName: string,
    email: string,
    phone: Option<string>,
    dateOfBirth: Option<string>,
    gender: Option<string>,
    address: Option<Address>,
    enrollmentDate: string,
    status: StudentStatus,
    program: string,
    batch: string,
    avatar: Option<string>)
  {
    /** The `${firstName} ${lastName}` the pages display, search and sort by. */
    function FullName(): string {
      firstName + " " + lastName
    }
  }

  datatype Schedule = Schedule(days: seq<string>, startTime: string, endTime: string, location: string)

  datatype CourseStatus = CourseActive | CourseInactive | Upcoming {
    function Name(): string {
      match this
      case CourseActive => "active"
      case CourseInactive => "inactive"
      case Upcoming => "upcoming"
    }
  }

  datatype Course = Course(
    id: string,
    courseCode: string,
    name: string,
    description: string,
    credits: int,
    department: string,
    semester: string,
    instructor: string,
    schedule: Schedule,
    maxStudents: int,
    enrolledStudents: int,
    status: CourseStatus)

  datatype EnrollmentStatus = Enrolled | Dropped | Completed

  /** The optional nested grade of an enrollment is not used by the pages and is left out. */
  datatype Enrollment = Enrollment(
    id: string,
    studentId: string,
    courseId: string,
    enrollmentDate: string,
    status: EnrollmentStatus)

  datatype Assignment = Assignment(id: string, name: string, score: real, maxScore: real, weight: real)

  datatype Exam = Exam(score: real, maxScore: real, weight: real)

  datatype Grade = Grade(
    id: string,
    studentId: string,
    courseId: string,
    assignments: seq<Assignment>,
    midtermExam: Option<Exam>,
    finalExam: Option<Exam>,
    totalScore: Option<real>,
    letterGrade: Option<string>,
    gpa: Option<real>,
    comments: Option<string>)

  datatype AttendanceStatus = Present | Absent | Late | Excused {
    function Name(): string {
      match this
      case Present => "present"
      case Absent => "absent"
      case Late => "late"
      case Excused => "excused"
    }
  }

  datatype Attendance = Attendance(
    id: string,
    studentId: string,
    courseId: string,
    date: string,
    status: AttendanceStatus,
    notes: Option<string>)
}

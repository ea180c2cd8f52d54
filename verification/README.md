# EduTrack student information system: a Dafny model of its page logic

EduTrack is a React front end for a university student information system. It
keeps five in-memory tables: students, courses, enrollments, grades and
attendance. Its pages join, search, filter, sort and summarise those tables.
This project models that logic in Dafny and proves what the pages promise.

The model covers:

- the relationship resolvers of the data layer (`getStudentsByCourse`,
  `getCoursesByStudent`, `getGradesByStudent`, `getAttendanceByStudent`,
  `getAttendanceByCourse`), with the seed tables as concrete fixtures;
- the list pipelines of the students, courses, grades and attendance pages:
  - a case-insensitive substring search;
  - exact filters that `'all'` switches off;
  - a keyed comparator with a direction flip, run through a stable sort;
  - the two-field sort toggle;
- the derived metrics: the GPA mean, the rounded attendance percentage, and
  the status, department, grade and letter badges;
- the small state machines:
  - the profile draft with edit, save and cancel;
  - login submission with its error messages;
  - the dashboard's role-based course choice;
  - the redirect-to-login guard of the application shell.

Pure code (the resolvers, pipelines and classifiers) is written as functions
with lemmas. Code that updates React state is written as classes whose
methods change their fields, one handler per method. Each handler is one
atomic update.

Modules:

- `Wrappers`: `Option`.
- `JsString`: ASCII `toLowerCase`, `includes`, `startsWith`, `join`,
  `localeCompare` as code-unit order, capitalising, and decimal digits.
- `JsArray`: `filter`, `find`, `map`, dropping `undefined`, `Set`
  de-duplication, and a stable comparator sort.
- `Types`: the records and their closed status enums.
- `MockData`: the tables, the seed data and the resolvers. The resolvers take
  the tables as a `Db` value, so general facts can be proved about any
  tables, not only the seed.
- `ListControls`: the sort state, its toggle, and comparators with a
  direction.
- One module per page, and `App` for the shell.

## Model

| member | source | states |
|---|---|---|
| MockData.StudentsByCourse | src/data/mockData.ts:406-411 | a course's students number at most the enrollments naming that course |
| MockData.StudentsByCourseSound | src/data/mockData.ts:406-411 | every student returned is on the roster, is linked to the course by some enrollment, and is the first roster entry with its id |
| MockData.StudentsByCourseComplete | src/data/mockData.ts:406-411 | every enrollment of the course whose student exists yields that student in the result |
| MockData.StudentsByCourseResolved | src/data/mockData.ts:407-410 | dangling enrollments are dropped, never yielding `undefined`: the result is exactly as long as the matching enrollments iff each of them resolves, and then the i-th result is the i-th enrollment's student |
| MockData.CoursesByStudent | src/data/mockData.ts:414-419 | a student's courses number at most that student's enrollments |
| MockData.CoursesByStudentSound | src/data/mockData.ts:414-419 | every course returned is in the catalogue, is linked to the student, and is the first catalogue entry with its id |
| MockData.CoursesByStudentComplete | src/data/mockData.ts:414-419 | every enrollment of the student whose course exists yields that course |
| MockData.FindUniqueStudent | src/data/mockData.ts:409 | with unique student ids, the lookup by id returns that very student |
| MockData.FindUniqueCourse | src/data/mockData.ts:417 | with unique course ids, the lookup by id returns that very course |
| MockData.EnrollmentMirror | src/data/mockData.ts:406-419 | with unique ids, course c is among student s's courses iff s is among c's students iff an enrollment links them |
| MockData.GradesByStudent | src/data/mockData.ts:422-424 | a student's grades are at most all grades |
| MockData.AttendanceByStudent | src/data/mockData.ts:427-429 | a student's attendance records are at most all records |
| MockData.AttendanceByCourse | src/data/mockData.ts:432-434 | a course's attendance records are at most all records |
| MockData.RecordFiltersSpec | src/data/mockData.ts:422-434 | each record filter keeps exactly the records with the key, as an order-preserving subsequence of its table |
| MockData.UnknownIdGivesEmpty | src/data/mockData.ts:407-433 | an id no record carries gives the empty sequence from every resolver |
| MockData.SeedIdsUnique | src/data/mockData.ts:24-233 | the seed student ids and course ids are unique |
| MockData.SeedFindStudent | src/data/mockData.ts:24-135 | each seed student is found by its own id |
| MockData.SeedFindCourse | src/data/mockData.ts:137-233 | each seed course is found by its own id |
| MockData.SeedEnrollmentsInCourse1 | src/data/mockData.ts:235-306 | course '1' has exactly enrollments '1' and '5', in table order |
| MockData.SeedEnrollmentsOfStudent1 | src/data/mockData.ts:235-306 | student '1' has exactly enrollments '1' and '2' |
| MockData.SeedStudentsOfCourse1 | src/data/mockData.ts:236-270 | course '1' lists Alex Johnson, then James Smith |
| MockData.SeedCoursesOfStudent1 | src/data/mockData.ts:236-252 | student '1' takes CS101, then CS304 |
| MockData.SeedGradesOfStudent1 | src/data/mockData.ts:308-356 | student '1' has grades '1' and '2' |
| MockData.SeedAttendanceOfStudent1 | src/data/mockData.ts:358-403 | all six seed attendance records are student '1''s |
| ListControls.ToggleSort | src/pages/students/StudentsPage.tsx:44-51 | after a toggle the sort field is always the clicked field |
| ListControls.ToggleSameField | src/pages/students/StudentsPage.tsx:45-46 | toggling the current field flips the direction, and two such toggles restore the state |
| ListControls.ToggleOtherField | src/pages/students/StudentsPage.tsx:47-49 | toggling another field selects it, ascending |
| ListControls.ByStringValid | src/pages/students/StudentsPage.tsx:31-38 | comparing by a string key with `localeCompare` is a valid comparator: antisymmetric and transitive |
| ListControls.ByIntValid | src/pages/courses/CoursesPage.tsx:44-45 | comparing by the difference of an integer key is a valid comparator |
| ListControls.NoOrderValid | src/pages/students/StudentsPage.tsx:29 | the comparison left at 0 is a valid comparator |
| ListControls.DirectedValid | src/pages/students/StudentsPage.tsx:41 | negating a valid comparator for `'desc'` keeps it valid |
| ListControls.DirectedTies | src/pages/students/StudentsPage.tsx:41 | negating does not change which pairs tie |
| ListControls.DirectedStable | src/pages/students/StudentsPage.tsx:28-42 | in either direction, elements that tie keep their input order |
| JsArray.SortBy | src/pages/students/StudentsPage.tsx:28-42 | the sort returns a permutation of its input |
| JsArray.SortBySorted | src/pages/students/StudentsPage.tsx:28-42 | with a valid comparator, the sorted result is ordered by it |
| JsArray.SortByStable | src/pages/students/StudentsPage.tsx:28-42 | the stable sort keeps the input order within each tie class |
| JsArray.DescendingIsReversedAscending | src/pages/students/StudentsPage.tsx:41 | when only equal elements tie, the negated sort is the reverse of the ascending sort |
| JsArray.Distinct | src/pages/students/StudentsPage.tsx:15 | `[...new Set(xs)]` holds each element of xs exactly once, in order of first occurrence |
| Students.StudentOrderValid | src/pages/students/StudentsPage.tsx:28-42 | every sort state (field and direction) gives a valid comparator |
| Students.FilteredStudents | src/pages/students/StudentsPage.tsx:18-42 | the list holds each roster student the search and filters accept, as often as on the roster, and no other; it is sorted by the sort state; N ≤ M |
| Students.NoFiltersShowAll | src/pages/students/StudentsPage.tsx:18-27 | no search and both filters at `'all'` list every student (N = M) |
| Students.StudentSortStable | src/pages/students/StudentsPage.tsx:28-42 | students tying on the sort key keep roster order in either direction |
| Students.UnknownSortKeepsOrder | src/pages/students/StudentsPage.tsx:29-39 | an unrecognised `sortBy` leaves the filtered students in roster order |
| Students.DescendingReversesWithoutTies | src/pages/students/StudentsPage.tsx:41 | without ties between different students, descending is ascending reversed |
| Students.OneProgramKeepsOrder | src/pages/students/StudentsPage.tsx:35-36 | when all students share a program, sorting by program keeps roster order both ways |
| Students.SeedProgramDescendingIsNotReversed | src/pages/students/StudentsPage.tsx:41 | on the seed, descending by program equals ascending, which is not the reversal |
| Students.SearchSpansFullName | src/pages/students/StudentsPage.tsx:19-20 | a term across the space of the full name, such as "x j" or "X J", finds Alex Johnson |
| Students.Programs | src/pages/students/StudentsPage.tsx:15 | each program on the roster appears exactly once, nothing else appears, and programs are listed in the order of their first occurrence on the roster |
| Students.SeedPrograms | src/pages/students/StudentsPage.tsx:15 | the seed roster has the single program 'Computer Science' |
| Students.StudentsPage.constructor | src/pages/students/StudentsPage.tsx:8-12 | the page starts with no search, both filters at `'all'`, sorted by name ascending |
| Students.StudentsPage.SetSearchTerm | src/pages/students/StudentsPage.tsx:8 | only the search term changes |
| Students.StudentsPage.SetStatusFilter | src/pages/students/StudentsPage.tsx:9 | only the status filter changes |
| Students.StudentsPage.SetProgramFilter | src/pages/students/StudentsPage.tsx:10 | only the program filter changes |
| Students.StudentsPage.ToggleSort | src/pages/students/StudentsPage.tsx:44-51 | the sort state moves as the toggle function says, and the filters stay |
| Students.StudentsPage.Visible | src/pages/students/StudentsPage.tsx:18-42 | the shown rows number at most the roster |
| Courses.CourseOrderValid | src/pages/courses/CoursesPage.tsx:35-49 | every sort state gives a valid comparator |
| Courses.FilteredCourses | src/pages/courses/CoursesPage.tsx:25-49 | the list holds each catalogue course the search and filters accept, as often as in the catalogue, and no other; it is sorted by the sort state |
| Courses.NoFiltersShowAll | src/pages/courses/CoursesPage.tsx:25-34 | no search and both filters at `'all'` list every course |
| Courses.SortByEnrolment | src/pages/courses/CoursesPage.tsx:44-48 | by `'students'`, enrolment counts rise when ascending and fall when descending |
| Courses.CourseSortStable | src/pages/courses/CoursesPage.tsx:35-49 | courses tying on the key keep catalogue order in either direction |
| Courses.UnknownSortKeepsOrder | src/pages/courses/CoursesPage.tsx:36-46 | an unrecognised `sortBy` keeps catalogue order |
| Courses.DescendingReversesWithoutTies | src/pages/courses/CoursesPage.tsx:48 | without ties between different courses, descending is ascending reversed |
| Courses.Departments | src/pages/courses/CoursesPage.tsx:22 | each department in the catalogue appears exactly once, nothing else appears, and departments are listed in the order of their first occurrence in the catalogue |
| Courses.SeedDepartments | src/pages/courses/CoursesPage.tsx:22 | the seed catalogue has the single department 'Computer Science' |
| Courses.CoursesPage.constructor | src/pages/courses/CoursesPage.tsx:15-19 | no search, both filters at `'all'`, sorted by name ascending |
| Courses.CoursesPage.SetSearchTerm | src/pages/courses/CoursesPage.tsx:15 | only the search term changes |
| Courses.CoursesPage.SetStatusFilter | src/pages/courses/CoursesPage.tsx:16 | only the status filter changes |
| Courses.CoursesPage.SetDepartmentFilter | src/pages/courses/CoursesPage.tsx:17 | only the department filter changes |
| Courses.CoursesPage.ToggleSort | src/pages/courses/CoursesPage.tsx:51-58 | the sort state moves as the toggle function says, and the filters stay |
| Courses.CoursesPage.Visible | src/pages/courses/CoursesPage.tsx:25-49 | the shown rows number at most the catalogue |
| Grades.OrDefault | src/pages/GradesPage.tsx:26-29 | the or-default gives d exactly when x is missing, empty or d itself, and x otherwise |
| Grades.GradeDetails | src/pages/GradesPage.tsx:19-31 | one row per grade, in the same order, each carrying that grade and its `courseId` |
| Grades.DetailFallbacks | src/pages/GradesPage.tsx:24-29 | a missing course shows 'Unknown Course'/'Unknown'; a missing student shows 'Unknown Student'/'Unknown'; a found student shows its code in `studentId` |
| Grades.SeedDetailShowsCode | src/pages/GradesPage.tsx:25-29 | seed grade '1' of student '1' shows the code 'CS10001' and its course name |
| Grades.FilteredGradesAsWritten | src/pages/GradesPage.tsx:34-45 | as written, a row is shown exactly when it matches the search, the course filter and the student filter compared with the shown student code; the shown rows keep grade-book order |
| Grades.FilteredGrades | src/pages/GradesPage.tsx:34-45 | with the intended student filter, a row is shown iff it passes search and filters; the shown rows are a subsequence of the grade book |
| Grades.NoFiltersShowAll | src/pages/GradesPage.tsx:35-44 | no search and both filters at `'all'` keep every row, as written and as intended |
| Grades.SelectionFiltersWork | src/pages/GradesPage.tsx:41-42 | the course filter keeps exactly the chosen course's rows, both as written and as intended; the intended student filter keeps exactly the chosen student's rows |
| Grades.ShownCodeOfFoundStudent | src/pages/GradesPage.tsx:21-29 | a row whose student was found shows that student's code, or 'Unknown' |
| Grades.StudentFilterAsWrittenShowsNothing | src/pages/GradesPage.tsx:29-42 | as written, choosing a roster student's id shows no row when codes never equal ids |
| Grades.SeedCodesAreNotIds | src/data/mockData.ts:24-135 | no seed student code equals any seed student id |
| Grades.SeedStudentFilterAsWrittenIsEmpty | src/pages/GradesPage.tsx:42 | as written, choosing Alex Johnson (id '1') on the seed shows nothing |
| Grades.ShownForStudent | src/pages/GradesPage.tsx:35-44 | with no search and every course, a row is shown iff its grade is the chosen student's |
| Grades.StudentFilterShowsStudentGrades | src/pages/GradesPage.tsx:20-45 | with the intended filter, the rows shown for a student are the rows of `getGradesByStudent`, in order |
| Grades.SeedStudentFilterShowsGrades | src/pages/GradesPage.tsx:42 | with the intended filter, choosing Alex Johnson shows exactly the rows of his grades '1' and '2', in that order |
| Grades.GradeColor | src/pages/GradesPage.tsx:47-54 | a grade starting with A, B, C or D gets the success, primary, accent or warning colour; the error colour is given exactly for an empty grade or one starting with anything else |
| Grades.GradeColorByLetter | src/pages/GradesPage.tsx:47-54 | each of A, B, C and D has its own colour, with '+' and '-' ignored |
| Grades.LetterColor | src/pages/GradesPage.tsx:215 | a missing letter grade is coloured as 'F', the error colour |
| StudentDetail.Gpa | src/pages/students/StudentDetailPage.tsx:59-62 | no grades give 0; otherwise the result times the count is the sum of GPAs, a missing GPA counting 0 |
| StudentDetail.PointsSumAtLeast | src/pages/students/StudentDetailPage.tsx:61 | the GPA sum is at least the count times a lower bound on each GPA |
| StudentDetail.PointsSumAtMost | src/pages/students/StudentDetailPage.tsx:61 | the GPA sum is at most the count times an upper bound on each GPA |
| StudentDetail.GpaBounds | src/pages/students/StudentDetailPage.tsx:59-62 | the mean lies between the least and greatest GPA bounds |
| StudentDetail.GpaOfEqualPoints | src/pages/students/StudentDetailPage.tsx:59-62 | grades with the same GPA have that GPA as their mean |
| StudentDetail.SeedGpa | src/pages/students/StudentDetailPage.tsx:59-62 | seed student '1' (GPAs 3.5 and 3.7) has mean 3.6 |
| StudentDetail.AttendancePercent | src/pages/students/StudentDetailPage.tsx:69 | `Math.round(attended/total*100)` in integers: within half a point of the exact percentage, and at most 100 |
| StudentDetail.RoundedPercentBounds | src/pages/students/StudentDetailPage.tsx:69 | the integer rounding lies within half a unit of the exact ratio and in 0..100 |
| StudentDetail.AttendancePercentEnds | src/pages/students/StudentDetailPage.tsx:69 | 100 exactly from 99.5% up, 0 exactly below 0.5%; all attended gives 100 and none gives 0 |
| StudentDetail.AttendanceRate | src/pages/students/StudentDetailPage.tsx:66-67 | no records give '0%' |
| StudentDetail.AttendanceRateSpec | src/pages/students/StudentDetailPage.tsx:66-70 | the rate is the decimal percentage of present-or-late records followed by '%', with the bounds and ends above |
| StudentDetail.SeedAttendanceRate | src/pages/students/StudentDetailPage.tsx:66-70 | seed student '1' attended 5 of 6 records: '83%' |
| StudentDetail.AttendancePercentExamples | src/pages/students/StudentDetailPage.tsx:69 | halves round up: 1 of 2 is 50, 1 of 8 is 13, 0 of 3 is 0 |
| StudentDetail.StatusBadge | src/pages/students/StudentDetailPage.tsx:137-142 | active gets the success badge, suspended the error badge, inactive the grey classes; the warning class is given exactly to graduated students |
| StudentDetail.StatusBadgeDistinct | src/pages/students/StudentDetailPage.tsx:137-142 | the four statuses get four different classes |
| StudentDetail.StatusLabel | src/pages/students/StudentDetailPage.tsx:143 | the label is the status name with its first letter upper-cased and the rest unchanged |
| StudentDetail.StatusLabels | src/pages/students/StudentDetailPage.tsx:143 | the four statuses are shown 'Active', 'Inactive', 'Graduated' and 'Suspended' |
| StudentDetail.FirstCharNumber | src/pages/students/StudentDetailPage.tsx:400 | `parseFloat` of the first character is a digit value when there is one |
| StudentDetail.LetterBadgeAsWritten | src/pages/students/StudentDetailPage.tsx:399-402 | as written, success iff the first character is a digit ≥ 4, warning iff it is 3 |
| StudentDetail.LetterBadgeAsWrittenIsError | src/pages/students/StudentDetailPage.tsx:400-402 | as written, a missing, empty or alphabetic letter grade always gives the error badge |
| StudentDetail.SeedLetterBadgesAsWritten | src/pages/students/StudentDetailPage.tsx:399-402 | as written, all three seed grades (B+, A-, B) show the error badge |
| StudentDetail.LetterBadge | src/pages/students/StudentDetailPage.tsx:399-402 | intended: success iff GPA ≥ 3.5, warning iff 2.5 ≤ GPA < 3.5, error iff GPA < 2.5 |
| StudentDetail.LetterBadgeMonotone | src/pages/students/StudentDetailPage.tsx:399-402 | a higher GPA never gets a worse badge |
| StudentDetail.SeedLetterBadges | src/pages/students/StudentDetailPage.tsx:399-402 | intended: the seed B+ (GPA 3.5) and A- (3.7) are success, the B (3.0) is warning |
| StudentDetail.StudentDetailPage.constructor | src/pages/students/StudentDetailPage.tsx:25-29 | no student, empty lists, the overview tab |
| StudentDetail.StudentDetailPage.Load | src/pages/students/StudentDetailPage.tsx:31-42 | with an id, the student is the lookup result and, when found, the courses, grades and attendance are its resolver results; with no id nothing changes |
| StudentDetail.StudentDetailPage.SelectTab | src/pages/students/StudentDetailPage.tsx:29 | only the tab changes |
| StudentDetail.StudentDetailPage.Summary | src/pages/students/StudentDetailPage.tsx:59-70 | no grades give GPA 0, and no records give '0%' |
| StudentDetail.UnknownIdNotFound | src/pages/students/StudentDetailPage.tsx:33-44 | an id no student has is not found, so the not-found view shows |
| AttendanceSheet.StudentsInCourse | src/pages/AttendancePage.tsx:13-15 | no selected course gives no students; every listed student is on the roster and enrolled in the course |
| AttendanceSheet.FilteredStudents | src/pages/AttendancePage.tsx:18-21 | a student is shown iff in the course and matching the search, as an order-preserving subsequence |
| AttendanceSheet.NoCourseNoStudents | src/pages/AttendancePage.tsx:13-15 | with no course the list is empty, whatever the search |
| AttendanceSheet.EmptySearchKeepsAll | src/pages/AttendancePage.tsx:18-21 | the empty search keeps every student of the course |
| AttendanceSheet.EmailNotSearched | src/pages/AttendancePage.tsx:19-20 | '@' finds no one here, though the student list's search finds it in the email |
| AttendanceSheet.SeedCourse1 | src/pages/AttendancePage.tsx:13-21 | course '1' lists Alex Johnson, then James Smith |
| AttendanceSheet.SeedCodeMatches | src/pages/AttendancePage.tsx:20 | 'cs10003' finds James Smith by his code, ignoring case |
| AttendanceSheet.SeedCodeMisses | src/pages/AttendancePage.tsx:19-20 | 'cs10003' does not find Alex Johnson |
| AttendanceSheet.SeedCourse1Search | src/pages/AttendancePage.tsx:18-21 | course '1' searched for 'cs10003' lists only James Smith |
| AttendanceSheet.StatusForDate | src/pages/AttendancePage.tsx:46-53 | 'unknown' iff no record matches student, date and course; otherwise the status of the first matching record |
| AttendanceSheet.OtherCoursesIgnored | src/pages/AttendancePage.tsx:50 | records of other courses, before or after, never change the status |
| AttendanceSheet.SeedStatusAbsent | src/pages/AttendancePage.tsx:46-53 | student '1' was absent in course '1' on 2023-09-12 |
| AttendanceSheet.SeedStatusUnknown | src/pages/AttendancePage.tsx:46-53 | the same student and date in course '2' is 'unknown' |
| AttendanceSheet.StatusBadge | src/pages/AttendancePage.tsx:55-66 | "Not Recorded" exactly for a status other than the four names |
| AttendanceSheet.StatusBadgeLabels | src/pages/AttendancePage.tsx:55-66 | each status shows its capitalised name, the four badges differ, and 'unknown' is "Not Recorded" |
| AttendanceSheet.StartOfWeek | src/pages/AttendancePage.tsx:25 | the Monday on or before the day |
| AttendanceSheet.WeekDays | src/pages/AttendancePage.tsx:24-32 | exactly five consecutive days from the Monday of the selected week |
| AttendanceSheet.WeekDaysContain | src/pages/AttendancePage.tsx:24-25 | the week view shows the selected day iff it is Monday to Friday |
| AttendanceSheet.WeekDaysShift | src/pages/AttendancePage.tsx:24-25 | every day of a week gives the same columns, and the next week's columns are seven days on |
| AttendanceSheet.AttendancePage.constructor | src/pages/AttendancePage.tsx:7-10 | today, no course, no search, the day view |
| AttendanceSheet.AttendancePage.SelectCourse | src/pages/AttendancePage.tsx:8 | only the course changes |
| AttendanceSheet.AttendancePage.SetSearchTerm | src/pages/AttendancePage.tsx:9 | only the search term changes |
| AttendanceSheet.AttendancePage.SetViewMode | src/pages/AttendancePage.tsx:10 | only the view mode changes |
| AttendanceSheet.AttendancePage.NavigateDay | src/pages/AttendancePage.tsx:34-38 | the date moves one day back or forward, nothing else changes |
| AttendanceSheet.AttendancePage.NavigateWeek | src/pages/AttendancePage.tsx:40-44 | the date and the week's columns move seven days, nothing else changes |
| AttendanceSheet.AttendancePage.Rows | src/pages/AttendancePage.tsx:13-21 | no course shows no rows; otherwise a subsequence of the course's students |
| Profile.ProfileData.With | src/pages/ProfilePage.tsx:37 | `{ ...prev, [name]: value }` sets the named field and keeps every other |
| Profile.FieldsDetermineProfile | src/pages/ProfilePage.tsx:20-30 | two profiles agreeing on every field are equal |
| Profile.WithLaws | src/pages/ProfilePage.tsx:37 | writing a field's own value changes nothing; a second write of a field wins |
| Profile.InitialProfile | src/pages/ProfilePage.tsx:20-30 | no user gives empty name and email; role 'student' iff no user or a student; department 'Computer Science' iff faculty, else empty |
| Profile.EditsKeepOtherFields | src/pages/ProfilePage.tsx:35-38 | a run of edits not naming a field leaves that field unchanged |
| Profile.FormKeepsFixedFields | src/pages/ProfilePage.tsx:134-241 | edits through the page's inputs never change name, role, join date or department |
| Profile.RoleLabel | src/pages/ProfilePage.tsx:81 | the label is the role with its first letter upper-cased and the rest unchanged |
| Profile.RoleLabels | src/pages/ProfilePage.tsx:81 | the default role is shown 'Student', faculty 'Faculty', admin 'Admin' |
| Profile.ProfilePage.constructor | src/pages/ProfilePage.tsx:20-33 | the profile is the initial profile, the draft a copy of it, not editing |
| Profile.ProfilePage.Edit | src/pages/ProfilePage.tsx:92 | editing starts and no data changes |
| Profile.ProfilePage.HandleInputChange | src/pages/ProfilePage.tsx:35-38 | only the named draft field changes; the profile and the editing flag stay |
| Profile.ProfilePage.Save | src/pages/ProfilePage.tsx:40-44 | the profile becomes the draft, and editing ends |
| Profile.ProfilePage.Cancel | src/pages/ProfilePage.tsx:46-49 | the draft is discarded back to the profile, which stays, and editing ends; a second cancel changes nothing |
| Profile.EditSession | src/pages/ProfilePage.tsx:35-49 | edit, any input changes, then save or cancel: the profile is the edited one or the old one, and its name, role and department never change |
| CourseDetail.ScheduleDisplay | src/pages/courses/CourseDetailPage.tsx:53 | starts with the days joined by ", "; one day gives "day start - end"; no days give a leading space |
| CourseDetail.SeedSchedule | src/pages/courses/CourseDetailPage.tsx:53 | seed course '1' shows "Monday, Wednesday 09:00 - 10:30" |
| CourseDetail.DepartmentTone | src/pages/courses/CourseDetailPage.tsx:72-78 | gray exactly for a department outside the four named |
| CourseDetail.DepartmentTonesDistinct | src/pages/courses/CourseDetailPage.tsx:72-78 | the four named departments get four different colours |
| CourseDetail.StatusBadge | src/pages/courses/CourseDetailPage.tsx:89-93 | success exactly for active, warning exactly for upcoming, and the grey classes for inactive |
| CourseDetail.StatusLabel | src/pages/courses/CourseDetailPage.tsx:94 | the label is the status name with its first letter upper-cased and the rest unchanged |
| CourseDetail.StatusLabels | src/pages/courses/CourseDetailPage.tsx:94 | shown 'Active', 'Inactive' and 'Upcoming' |
| CourseDetail.CourseDetailPage.constructor | src/pages/courses/CourseDetailPage.tsx:23-25 | no course, no students, the overview tab |
| CourseDetail.CourseDetailPage.Load | src/pages/courses/CourseDetailPage.tsx:27-36 | with an id, the course is the lookup result; when found its students are `getStudentsByCourse` of it; when not found no course has that id and the not-found view shows |
| CourseDetail.CourseDetailPage.SelectTab | src/pages/courses/CourseDetailPage.tsx:25 | only the tab changes |
| CourseDetail.SeedCoursePage | src/pages/courses/CourseDetailPage.tsx:27-36 | loading course '1' shows CS101 with Alex Johnson and James Smith |
| Dashboard.UserCourses | src/pages/DashboardPage.tsx:44-52 | a student sees only catalogue courses linked to student '1'; anyone else sees the first min(3, n) catalogue courses in order |
| Dashboard.StudentsSeeStudent1 | src/pages/DashboardPage.tsx:45-47 | every student-role user sees `getCoursesByStudent('1')`, whoever they are |
| Dashboard.SeedStudentCourses | src/pages/DashboardPage.tsx:45-47 | a student sees CS101 then CS304 on the seed |
| Dashboard.SeedOtherCourses | src/pages/DashboardPage.tsx:48-51 | admin, faculty or no user sees CS101, CS202, CS304 |
| Dashboard.StatCounts | src/pages/DashboardPage.tsx:55-57 | the two counts are the full table lengths |
| Dashboard.ActiveCoursesCountsAll | src/pages/DashboardPage.tsx:57 | "Active Courses" is at least the active courses, and equal iff every course is active |
| Dashboard.SeedCounts | src/pages/DashboardPage.tsx:55-57 | 5 students and 5 courses on the seed |
| Dashboard.BarColour | src/pages/DashboardPage.tsx:155-161 | Computer Science blue, Business green, Engineering purple, Psychology pink, Mathematics yellow; gray exactly outside these five |
| Dashboard.BarColoursDistinct | src/pages/DashboardPage.tsx:155-161 | the five named departments get five different bars |
| Dashboard.BarColourExtendsBadge | src/pages/DashboardPage.tsx:155-161 | away from Mathematics, the bar is gray iff the course-page colour is; Mathematics has a colour only here |
| Dashboard.DashboardPage.constructor | src/pages/DashboardPage.tsx:42 | no courses before the effect runs |
| Dashboard.DashboardPage.LoadCourses | src/pages/DashboardPage.tsx:44-52 | the courses become the role-based selection |
| Login.SubmitMessage | src/pages/LoginPage.tsx:13-27 | empty iff both fields are filled and login succeeds; the missing-fields message iff a field is empty; the rejection message iff both are filled and login fails |
| Login.DemoCredentialsMatchUsers | src/pages/LoginPage.tsx:34-38 | the three demo accounts are the admin, faculty and student users, with non-empty email and password |
| Login.View | src/pages/LoginPage.tsx:29-31 | the page redirects, to '/', iff a user is present |
| Login.LoginPage.constructor | src/pages/LoginPage.tsx:7-10 | empty fields, no message, no login calls |
| Login.LoginPage.SetEmail | src/pages/LoginPage.tsx:7 | only the email changes |
| Login.LoginPage.SetPassword | src/pages/LoginPage.tsx:8 | only the password changes |
| Login.LoginPage.FillDemo | src/pages/LoginPage.tsx:174-177 | email and password become exactly the account's; nothing else changes |
| Login.LoginPage.HandleSubmit | src/pages/LoginPage.tsx:13-27 | the message is the submit message; login is called once with both fields when both are filled, and not at all otherwise |
| Login.DemoSignIn | src/pages/LoginPage.tsx:174-177 | a demo click then submit calls login once with that account, with no message iff it succeeds |
| App.Guard | src/App.tsx:23-28 | no redirect iff a user is present, the path is exactly '/login', or it starts with '/public'; a redirect always goes to '/login' |
| App.SignedInNeverRedirected | src/App.tsx:25 | a signed-in user is never redirected |
| App.GuardEdgeCases | src/App.tsx:25-26 | '/login/' redirects, '/publicity' does not, '/' and '/students' redirect |

## Left out

- Rendering: JSX markup, icons and CSS classes are left out, except where a
  class or label is the result of a classifier. Static pages and layout
  (`Header`, `Layout`, `DashboardChart`, `NotFoundPage`) are left out too.
- React scheduling: each handler and effect is one atomic update; batching
  and re-rendering are not modelled. An effect is a method the caller
  invokes with the route id or the user.
- `useAuth`, `login` and the router: `login` is an oracle parameter
  `accepts(email, password)` standing in for success or a thrown error.
  Sessions, `loading`, `ProtectedRoute` and route matching are not
  modelled. The current user and path are parameters.
- Floating point: GPAs are `real`, and the mean is exact.
  - `StudentDetail.Gpa` returns the exact mean, while the page shows
    `toFixed(2)` of it as a string.
  - `StudentDetail.AttendancePercent` is exact integer round-half-up, so a
    binary-rounding error at an exact .5 boundary is not modelled.
  - The per-item percentages and the enrolment bar width are not modelled.
- `StudentDetail.AttendanceRateSpec`: the attendance rate is 100% from 99.5%
  upwards, not only when every record counts. So "100% iff every record is
  present or late" is not stated: it is false from 200 records on. The code's
  rounding is what the model follows.
- date-fns: dates are whole day numbers counted from 1970-01-01, a Thursday.
  `format` is left out, and the attendance lookup takes the date as its
  already formatted `yyyy-MM-dd` string. The clock is a parameter (`today`).
  The wall-clock "days left" on the dashboard is left out.
- `localeCompare` is plain code-unit lexicographic order, not locale
  collation.
- `toLowerCase` folds ASCII letters only.
- The sort direction is the two-valued `Direction`, not a free string.
- Constants shown as stats ('8' assignments, '94%' attendance) and the
  pagination text are left out.
- Grade sub-records (assignments and exams) are kept as data, but the
  per-item score displays built from them are not modelled.
- Every status field is a closed enum, so a status outside the enum (the
  "anything else" branch of a badge) cannot occur in the records. The
  attendance badge takes a free string and keeps that branch.
- The `showPassword` toggle of the login page is not modelled.

## Findings

| source | as written | input that shows it | evidently intended | confidence | as-written member | corrected member |
|---|---|---|---|---|---|---|
| src/pages/GradesPage.tsx:29,42 | each row's `studentId` is overwritten with the student's code ('CS10001'), and the student filter compares it with the chosen internal id ('1') | seed grade book with the student filter at '1' (Alex Johnson): no row is shown | compare the grade's own `studentId`, so the chosen student's grades are shown | high; not executed | Grades.StudentFilterAsWrittenShowsNothing, Grades.SeedStudentFilterAsWrittenIsEmpty | Grades.FilteredGrades, Grades.StudentFilterShowsStudentGrades, Grades.SeedStudentFilterShowsGrades |
| src/pages/students/StudentDetailPage.tsx:399-402 | the badge applies `parseFloat` to the first character of the letter grade ('B'), which is NaN, so both comparisons are false | seed grade '1' with letter grade 'B+' and GPA 3.5 shows the error badge | classify by the grade's GPA against 3.5 and 2.5 | medium; not executed | StudentDetail.LetterBadgeAsWritten, StudentDetail.SeedLetterBadgesAsWritten | StudentDetail.LetterBadge, StudentDetail.SeedLetterBadges |

/** The route handlers of index.js, minus the Express wrapping: each takes
    the store and the parsed request and returns the new store and an
    outcome. Fields are snake_case, lists page by offset/limit, and a list
    with no filter sorts the stored collection itself. */
module Server {
  import opened Js
  import opened JsArray
  import opened MemoryStore

  // ---------------------------------------------------------------------
  // Records. Dates and timestamps are instants (integers); the handlers
  // only compare them.

  /** `student_id`, `instructor_id` and `duration` hold what `parseInt`
      made of the body's values, NaN included. */
  datatype Lesson = Lesson(
    id: int,
    student_id: Num,
    instructor_id: Num,
    lesson_date: int,
    duration: Num,
    status: string,
    notes: Option<string>,
    created_at: int,
    updated_at: int)

  datatype Student = Student(
    id: int,
    first_name: string,
    last_name: string,
    email: Option<string>,
    phone: Option<string>,
    license_class: Option<string>,
    status: string,
    created_at: int,
    updated_at: int)

  datatype Instructor = Instructor(
    id: int,
    first_name: string,
    last_name: string,
    email: Option<string>,
    phone: Option<string>,
    license_number: Option<string>,
    status: string,
    created_at: int,
    updated_at: int)

  /** A report; `kind` is the record's `type` field, and `student_id` is
      null or what `parseInt` made of the body's value. */
  datatype Report = Report(
    id: int,
    kind: string,
    student_id: Option<Num>,
    period_start: int,
    period_end: int,
    content: string,
    created_at: int)

  type ServerStore = Store<Student, Instructor, Lesson, Report>

  function LessonId(l: Lesson): int { l.id }
  function StudentId(s: Student): int { s.id }
  function InstructorId(i: Instructor): int { i.id }
  function ReportId(r: Report): int { r.id }

  /** The id discipline of every collection against its own counter. */
  predicate Valid(st: ServerStore) {
    && WellKeyed(st.students, StudentId, st.nextIds.students)
    && WellKeyed(st.instructors, InstructorId, st.nextIds.instructors)
    && WellKeyed(st.lessons, LessonId, st.nextIds.lessons)
    && WellKeyed(st.reports, ReportId, st.nextIds.reports)
  }

  // ---------------------------------------------------------------------
  // Listing

  /** The list envelope: the page, its length and the filtered count. */
  datatype Page<T> = Page(data: seq<T>, count: nat, total: nat)

  /** The destructuring defaults `offset = 0` and `limit = 50`. */
  function OffsetArg(offset: Option<Num>): Num {
    if offset.None? then Int(0) else offset.value
  }

  function LimitArg(limit: Option<Num>): Num {
    if limit.None? then Int(50) else limit.value
  }

  /** Where `slice` starts and ends a window of a list of length `len`. */
  function WindowStart(len: nat, offset: Option<Num>): nat {
    RelativeIndex(ToInteger(OffsetArg(offset)), len)
  }

  function WindowEnd(len: nat, offset: Option<Num>, limit: Option<Num>): nat {
    RelativeIndex(ToInteger(AddNum(OffsetArg(offset), LimitArg(limit))), len)
  }

  /** `slice(parseInt(offset), parseInt(offset) + parseInt(limit))` with the
      destructuring defaults: the run of `s` from the window's start to its
      end, or nothing when the end is not past the start. */
  function Window<T>(s: seq<T>, offset: Option<Num>, limit: Option<Num>): (r: seq<T>)
    ensures var from, to := WindowStart(|s|, offset), WindowEnd(|s|, offset, limit);
      && |r| == (if from < to then to - from else 0)
      && forall k :: 0 <= k < |r| ==> from + k < |s| && r[k] == s[from + k]
    ensures forall k :: 0 <= k < |r| ==> r[k] in s
  {
    var o := if offset.None? then Int(0) else offset.value;
    var l := if limit.None? then Int(50) else limit.value;
    Slice(s, ToInteger(o), ToInteger(AddNum(o, l)))
  }

  /** Newest first: the comparator `new Date(b.x) - new Date(a.x)`. */
  function NewerFirst(a: int, b: int): bool { a >= b }

  lemma NewerFirstIsTotal()
    ensures TotalPreorder(NewerFirst)
  {
  }

  function LessonDate(l: Lesson): int { l.lesson_date }
  function ReportCreated(r: Report): int { r.created_at }
  function StudentFirstName(s: Student): string { s.first_name }
  function InstructorFirstName(i: Instructor): string { i.first_name }

  /** GET /api/lessons query. `student_id` and `instructor_id` are absent
      when empty, and otherwise the number loose `==` converts the query
      text to (NaN when it is not numeric, and NaN equals nothing). */
  datatype LessonQuery = LessonQuery(
    student_id: Option<Num>,
    instructor_id: Option<Num>,
    status: Option<string>,
    limit: Option<Num>,
    offset: Option<Num>)

  function SameStudent(q: Option<Num>): Lesson -> bool {
    (l: Lesson) => q.Some? && q.value.Int? && l.student_id == q.value
  }

  function SameInstructor(q: Option<Num>): Lesson -> bool {
    (l: Lesson) => q.Some? && q.value.Int? && l.instructor_id == q.value
  }

  function SameStatus(q: Option<string>): Lesson -> bool {
    (l: Lesson) => q.Some? && l.status == q.value
  }

  /** The three conditional filters, applied one after the other. */
  function FilterLessons(s: seq<Lesson>, q: LessonQuery): seq<Lesson> {
    var byStudent := if q.student_id.Some? then Filter(s, SameStudent(q.student_id)) else s;
    var byInstructor := if q.instructor_id.Some? then Filter(byStudent, SameInstructor(q.instructor_id)) else byStudent;
    if TruthyStr(q.status) then Filter(byInstructor, SameStatus(q.status)) else byInstructor
  }

  /** A lesson matches a query when it agrees with every supplied filter. */
  predicate LessonMatches(q: LessonQuery, l: Lesson) {
    && (q.student_id.Some? ==> q.student_id.value.Int? && l.student_id == q.student_id.value)
    && (q.instructor_id.Some? ==> q.instructor_id.value.Int? && l.instructor_id == q.instructor_id.value)
    && (TruthyStr(q.status) ==> l.status == q.status.value)
  }

  function Matching(q: LessonQuery): Lesson -> bool {
    (l: Lesson) => LessonMatches(q, l)
  }

  /** No filter is active, so `filtered` is `store.lessons` itself. */
  predicate NoLessonFilter(q: LessonQuery) {
    q.student_id.None? && q.instructor_id.None? && !TruthyStr(q.status)
  }

  /** The sequential filters select exactly the matching lessons, in
      stored order. */
  lemma FilterLessonsMatches(s: seq<Lesson>, q: LessonQuery)
    ensures FilterLessons(s, q) == Filter(s, Matching(q))
  {
    var p1 := When(q.student_id.Some?, SameStudent(q.student_id));
    var p2 := Both(p1, When(q.instructor_id.Some?, SameInstructor(q.instructor_id)));
    var p3 := Both(p2, When(TruthyStr(q.status), SameStatus(q.status)));
    var f1 := if q.student_id.Some? then Filter(s, SameStudent(q.student_id)) else s;
    var f2 := if q.instructor_id.Some? then Filter(f1, SameInstructor(q.instructor_id)) else f1;
    ConditionalFilter(s, q.student_id.Some?, SameStudent(q.student_id));
    ConditionalFilterStep(s, f1, p1, q.instructor_id.Some?, SameInstructor(q.instructor_id));
    ConditionalFilterStep(s, f2, p2, TruthyStr(q.status), SameStatus(q.status));
    forall x | x in s ensures p3(x) == Matching(q)(x) {
      LessonPredicateAgrees(q, x);
    }
    FilterExt(s, p3, Matching(q));
  }

  lemma LessonPredicateAgrees(q: LessonQuery, x: Lesson)
    ensures Both(Both(When(q.student_id.Some?, SameStudent(q.student_id)),
                      When(q.instructor_id.Some?, SameInstructor(q.instructor_id))),
                 When(TruthyStr(q.status), SameStatus(q.status)))(x)
            == Matching(q)(x)
  {
  }

  /** GET /api/lessons. The page holds only matching lessons, newest first;
      `total` counts every matching lesson. With no filter the stored
      lessons themselves end up sorted; the store always keeps the same
      lessons. */
  function ListLessons(st: ServerStore, q: LessonQuery): (r: (ServerStore, Outcome<Page<Lesson>>))
    ensures r.1.Ok?
    ensures r.0.nextIds == st.nextIds && r.0.students == st.students
    ensures r.0.instructors == st.instructors && r.0.reports == st.reports
    ensures multiset(r.0.lessons) == multiset(st.lessons)
    ensures NoLessonFilter(q) ==> SortedBy(r.0.lessons, LessonDate, NewerFirst)
    ensures !NoLessonFilter(q) ==> r.0 == st
    ensures var page := r.1.value;
      && page.count == |page.data|
      && page.total == |Filter(st.lessons, Matching(q))|
      && SortedBy(page.data, LessonDate, NewerFirst)
      && forall k :: 0 <= k < |page.data| ==> page.data[k] in st.lessons && LessonMatches(q, page.data[k])
  {
    var filtered := FilterLessons(st.lessons, q);
    var sorted := SortBy(filtered, LessonDate, NewerFirst);
    var data := Window(sorted, q.offset, q.limit);
    FilterLessonsMatches(st.lessons, q);
    SortFilterMembers(st.lessons, Matching(q), LessonDate, NewerFirst);
    NewerFirstIsTotal();
    SortSorted(filtered, LessonDate, NewerFirst);
    WindowOfSorted(sorted, q.offset, q.limit, LessonDate, NewerFirst);
    assert NoLessonFilter(q) ==> filtered == st.lessons;
    (if NoLessonFilter(q) then st.(lessons := sorted) else st, Ok(Page(data, |data|, |sorted|)))
  }

  /** A window of a sorted list is sorted. */
  lemma WindowOfSorted<T, K>(s: seq<T>, offset: Option<Num>, limit: Option<Num>, key: T -> K, le: (K, K) -> bool)
    requires SortedBy(s, key, le)
    ensures SortedBy(Window(s, offset, limit), key, le)
  {
    var w := Window(s, offset, limit);
    var from := WindowStart(|s|, offset);
    if |w| > 0 {
      assert from + (|w| - 1) < |s|;
    }
    RunOfSorted(s, w, from, key, le);
  }

  /** A run of consecutive elements of a sorted list is sorted. */
  lemma RunOfSorted<T, K>(s: seq<T>, w: seq<T>, from: nat, key: T -> K, le: (K, K) -> bool)
    requires SortedBy(s, key, le)
    requires from + |w| <= |s|
    requires forall k :: 0 <= k < |w| ==> w[k] == s[from + k]
    ensures SortedBy(w, key, le)
  {
    forall i, j | 0 <= i < j < |w| ensures le(key(w[i]), key(w[j])) {
      assert w[i] == s[from + i] && w[j] == s[from + j];
    }
  }

  /** GET /api/students and GET /api/instructors query. */
  datatype RosterQuery = RosterQuery(status: Option<string>, limit: Option<Num>, offset: Option<Num>)

  function StudentStatus(q: Option<string>): Student -> bool {
    (s: Student) => q.Some? && s.status == q.value
  }

  function InstructorStatus(q: Option<string>): Instructor -> bool {
    (i: Instructor) => q.Some? && i.status == q.value
  }

  /** GET /api/students: filter by status, sort by first name under the
      collation `collate` (the model of `localeCompare`), then window. */
  function ListStudents(st: ServerStore, q: RosterQuery, collate: (string, string) -> bool): (r: (ServerStore, Outcome<Page<Student>>))
    requires TotalPreorder(collate)
    ensures r.1.Ok?
    ensures r.0.nextIds == st.nextIds && r.0.lessons == st.lessons
    ensures r.0.instructors == st.instructors && r.0.reports == st.reports
    ensures multiset(r.0.students) == multiset(st.students)
    ensures !TruthyStr(q.status) ==> SortedBy(r.0.students, StudentFirstName, collate)
    ensures TruthyStr(q.status) ==> r.0 == st
    ensures var page := r.1.value;
      && page.count == |page.data|
      && page.total == (if TruthyStr(q.status) then |Filter(st.students, StudentStatus(q.status))| else |st.students|)
      && SortedBy(page.data, StudentFirstName, collate)
      && forall k :: 0 <= k < |page.data| ==> page.data[k] in st.students && (TruthyStr(q.status) ==> page.data[k].status == q.status.value)
  {
    var filtered := if TruthyStr(q.status) then Filter(st.students, StudentStatus(q.status)) else st.students;
    var sorted := SortBy(filtered, StudentFirstName, collate);
    var data := Window(sorted, q.offset, q.limit);
    ConditionalFilter(st.students, TruthyStr(q.status), StudentStatus(q.status));
    SortFilterMembers(st.students, When(TruthyStr(q.status), StudentStatus(q.status)), StudentFirstName, collate);
    SortSorted(filtered, StudentFirstName, collate);
    WindowOfSorted(sorted, q.offset, q.limit, StudentFirstName, collate);
    (if TruthyStr(q.status) then st else st.(students := sorted), Ok(Page(data, |data|, |sorted|)))
  }

  /** GET /api/instructors: as for students, on the instructors. */
  function ListInstructors(st: ServerStore, q: RosterQuery, collate: (string, string) -> bool): (r: (ServerStore, Outcome<Page<Instructor>>))
    requires TotalPreorder(collate)
    ensures r.1.Ok?
    ensures r.0.nextIds == st.nextIds && r.0.lessons == st.lessons
    ensures r.0.students == st.students && r.0.reports == st.reports
    ensures multiset(r.0.instructors) == multiset(st.instructors)
    ensures !TruthyStr(q.status) ==> SortedBy(r.0.instructors, InstructorFirstName, collate)
    ensures TruthyStr(q.status) ==> r.0 == st
    ensures var page := r.1.value;
      && page.count == |page.data|
      && page.total == (if TruthyStr(q.status) then |Filter(st.instructors, InstructorStatus(q.status))| else |st.instructors|)
      && SortedBy(page.data, InstructorFirstName, collate)
      && forall k :: 0 <= k < |page.data| ==> page.data[k] in st.instructors && (TruthyStr(q.status) ==> page.data[k].status == q.status.value)
  {
    var filtered := if TruthyStr(q.status) then Filter(st.instructors, InstructorStatus(q.status)) else st.instructors;
    var sorted := SortBy(filtered, InstructorFirstName, collate);
    var data := Window(sorted, q.offset, q.limit);
    ConditionalFilter(st.instructors, TruthyStr(q.status), InstructorStatus(q.status));
    SortFilterMembers(st.instructors, When(TruthyStr(q.status), InstructorStatus(q.status)), InstructorFirstName, collate);
    SortSorted(filtered, InstructorFirstName, collate);
    WindowOfSorted(sorted, q.offset, q.limit, InstructorFirstName, collate);
    (if TruthyStr(q.status) then st else st.(instructors := sorted), Ok(Page(data, |data|, |sorted|)))
  }

  /** GET /api/reports query; the period bounds are instants, and
      `student_id` is read as for the lesson query. */
  datatype ReportQuery = ReportQuery(
    kind: Option<string>,
    student_id: Option<Num>,
    period_start: Option<int>,
    period_end: Option<int>)

  function SameKind(q: Option<string>): Report -> bool {
    (r: Report) => q.Some? && r.kind == q.value
  }

  /** `r.student_id == student_id`: a report without a student, or with
      a NaN one, never matches. */
  function ForStudent(q: Option<Num>): Report -> bool {
    (r: Report) => q.Some? && q.value.Int? && r.student_id == q
  }

  function StartsFrom(q: Option<int>): Report -> bool {
    (r: Report) => q.Some? && r.period_start >= q.value
  }

  function EndsBy(q: Option<int>): Report -> bool {
    (r: Report) => q.Some? && r.period_end <= q.value
  }

  function FilterReports(s: seq<Report>, q: ReportQuery): seq<Report> {
    var byKind := if TruthyStr(q.kind) then Filter(s, SameKind(q.kind)) else s;
    var byStudent := if q.student_id.Some? then Filter(byKind, ForStudent(q.student_id)) else byKind;
    var byStart := if q.period_start.Some? then Filter(byStudent, StartsFrom(q.period_start)) else byStudent;
    if q.period_end.Some? then Filter(byStart, EndsBy(q.period_end)) else byStart
  }

  /** A report matches when it agrees with every supplied filter; the
      period filters keep reports lying inside the queried period. */
  predicate ReportMatches(q: ReportQuery, r: Report) {
    && (TruthyStr(q.kind) ==> r.kind == q.kind.value)
    && (q.student_id.Some? ==> q.student_id.value.Int? && r.student_id == q.student_id)
    && (q.period_start.Some? ==> r.period_start >= q.period_start.value)
    && (q.period_end.Some? ==> r.period_end <= q.period_end.value)
  }

  function ReportMatching(q: ReportQuery): Report -> bool {
    (r: Report) => ReportMatches(q, r)
  }

  predicate NoReportFilter(q: ReportQuery) {
    !TruthyStr(q.kind) && q.student_id.None? && q.period_start.None? && q.period_end.None?
  }

  lemma FilterReportsMatches(s: seq<Report>, q: ReportQuery)
    ensures FilterReports(s, q) == Filter(s, ReportMatching(q))
  {
    var p1 := When(TruthyStr(q.kind), SameKind(q.kind));
    var p2 := Both(p1, When(q.student_id.Some?, ForStudent(q.student_id)));
    var p3 := Both(p2, When(q.period_start.Some?, StartsFrom(q.period_start)));
    var p4 := Both(p3, When(q.period_end.Some?, EndsBy(q.period_end)));
    var f1 := if TruthyStr(q.kind) then Filter(s, SameKind(q.kind)) else s;
    var f2 := if q.student_id.Some? then Filter(f1, ForStudent(q.student_id)) else f1;
    var f3 := if q.period_start.Some? then Filter(f2, StartsFrom(q.period_start)) else f2;
    ConditionalFilter(s, TruthyStr(q.kind), SameKind(q.kind));
    ConditionalFilterStep(s, f1, p1, q.student_id.Some?, ForStudent(q.student_id));
    ConditionalFilterStep(s, f2, p2, q.period_start.Some?, StartsFrom(q.period_start));
    ConditionalFilterStep(s, f3, p3, q.period_end.Some?, EndsBy(q.period_end));
    forall x | x in s ensures p4(x) == ReportMatching(q)(x) {
      ReportPredicateAgrees(q, x);
    }
    FilterExt(s, p4, ReportMatching(q));
  }

  lemma ReportPredicateAgrees(q: ReportQuery, x: Report)
    ensures Both(Both(Both(When(TruthyStr(q.kind), SameKind(q.kind)),
                           When(q.student_id.Some?, ForStudent(q.student_id))),
                      When(q.period_start.Some?, StartsFrom(q.period_start))),
                 When(q.period_end.Some?, EndsBy(q.period_end)))(x)
            == ReportMatching(q)(x)
  {
  }

  /** GET /api/reports: the matching reports, newest first, unpaged. */
  function ListReports(st: ServerStore, q: ReportQuery): (r: (ServerStore, Outcome<seq<Report>>))
    ensures r.1.Ok?
    ensures r.0.nextIds == st.nextIds && r.0.students == st.students
    ensures r.0.instructors == st.instructors && r.0.lessons == st.lessons
    ensures multiset(r.0.reports) == multiset(st.reports)
    ensures NoReportFilter(q) ==> SortedBy(r.0.reports, ReportCreated, NewerFirst)
    ensures !NoReportFilter(q) ==> r.0 == st
    ensures multiset(r.1.value) == multiset(Filter(st.reports, ReportMatching(q)))
    ensures SortedBy(r.1.value, ReportCreated, NewerFirst)
    ensures forall k :: 0 <= k < |r.1.value| ==> r.1.value[k] in st.reports && ReportMatches(q, r.1.value[k])
  {
    var filtered := FilterReports(st.reports, q);
    var sorted := SortBy(filtered, ReportCreated, NewerFirst);
    FilterReportsMatches(st.reports, q);
    SortFilterMembers(st.reports, ReportMatching(q), ReportCreated, NewerFirst);
    NewerFirstIsTotal();
    SortSorted(filtered, ReportCreated, NewerFirst);
    assert NoReportFilter(q) ==> filtered == st.reports;
    (if NoReportFilter(q) then st.(reports := sorted) else st, Ok(sorted))
  }

  // ---------------------------------------------------------------------
  // Creating

  const LessonFieldsMissing := "Missing required fields: student_id, instructor_id, lesson_date, duration"
  const NamesMissing := "First name and last name are required"
  const ReportFieldsMissing := "Missing required fields: type, period_start, period_end"
  const LessonNotFound := "Lesson not found"

  /** POST /api/lessons body. The numeric fields are raw values, checked
      for truthiness before `parseInt`; an absent or empty date string is
      `None`. */
  datatype LessonBody = LessonBody(
    student_id: Option<Raw>,
    instructor_id: Option<Raw>,
    lesson_date: Option<int>,
    duration: Option<Raw>,
    notes: Option<string>)

  predicate LessonBodyComplete(b: LessonBody) {
    TruthyRaw(b.student_id) && TruthyRaw(b.instructor_id) && b.lesson_date.Some? && TruthyRaw(b.duration)
  }

  /** POST /api/lessons: reject an incomplete body without touching the
      store; otherwise append one scheduled lesson under the next id. */
  function CreateLesson(st: ServerStore, b: LessonBody, now: int): (r: (ServerStore, Outcome<int>))
    ensures !r.1.NotFound?
    ensures r.1.ValidationError? <==> !LessonBodyComplete(b)
    ensures r.1.ValidationError? ==> r.0 == st && r.1.message == LessonFieldsMissing
    ensures r.1.Ok? ==>
      && r.1.value == st.nextIds.lessons
      && r.0.nextIds == st.nextIds.(lessons := st.nextIds.lessons + 1)
      && r.0.students == st.students && r.0.instructors == st.instructors && r.0.reports == st.reports
      && |r.0.lessons| == |st.lessons| + 1
      && r.0.lessons[..|st.lessons|] == st.lessons
      && var l := r.0.lessons[|st.lessons|];
        && l.id == st.nextIds.lessons
        && l.student_id == b.student_id.value.parsed && l.instructor_id == b.instructor_id.value.parsed
        && l.lesson_date == b.lesson_date.value && l.duration == b.duration.value.parsed
        && l.status == "scheduled"
        && (l.notes.None? <==> !TruthyStr(b.notes))
        && (l.notes.Some? ==> l.notes == b.notes)
        && l.created_at == now && l.updated_at == now
  {
    if !LessonBodyComplete(b) then (st, ValidationError(LessonFieldsMissing))
    else
      var id := st.nextIds.lessons;
      var lesson := Lesson(id, b.student_id.value.parsed, b.instructor_id.value.parsed, b.lesson_date.value,
                           b.duration.value.parsed, "scheduled", OrNull(b.notes), now, now);
      (st.(lessons := st.lessons + [lesson], nextIds := st.nextIds.(lessons := id + 1)), Ok(id))
  }

  /** POST /api/students body. */
  datatype StudentBody = StudentBody(
    first_name: Option<string>,
    last_name: Option<string>,
    email: Option<string>,
    phone: Option<string>,
    license_class: Option<string>)

  /** POST /api/students: both names are required; an active student is
      appended under the students counter. */
  function CreateStudent(st: ServerStore, b: StudentBody, now: int): (r: (ServerStore, Outcome<int>))
    ensures !r.1.NotFound?
    ensures r.1.ValidationError? <==> !(TruthyStr(b.first_name) && TruthyStr(b.last_name))
    ensures r.1.ValidationError? ==> r.0 == st && r.1.message == NamesMissing
    ensures r.1.Ok? ==>
      && r.1.value == st.nextIds.students
      && r.0.nextIds == st.nextIds.(students := st.nextIds.students + 1)
      && r.0.lessons == st.lessons && r.0.instructors == st.instructors && r.0.reports == st.reports
      && |r.0.students| == |st.students| + 1
      && r.0.students[..|st.students|] == st.students
      && var s := r.0.students[|st.students|];
        && s.id == st.nextIds.students
        && s.first_name == b.first_name.value && s.last_name == b.last_name.value
        && s.status == "active"
        && s.email == OrNull(b.email) && s.phone == OrNull(b.phone) && s.license_class == OrNull(b.license_class)
        && s.created_at == now && s.updated_at == now
  {
    if !TruthyStr(b.first_name) || !TruthyStr(b.last_name) then (st, ValidationError(NamesMissing))
    else
      var id := st.nextIds.students;
      var student := Student(id, b.first_name.value, b.last_name.value, OrNull(b.email), OrNull(b.phone),
                             OrNull(b.license_class), "active", now, now);
      (st.(students := st.students + [student], nextIds := st.nextIds.(students := id + 1)), Ok(id))
  }

  /** POST /api/instructors body. */
  datatype InstructorBody = InstructorBody(
    first_name: Option<string>,
    last_name: Option<string>,
    email: Option<string>,
    phone: Option<string>,
    license_number: Option<string>)

  /** POST /api/instructors: as for students, under the instructors counter. */
  function CreateInstructor(st: ServerStore, b: InstructorBody, now: int): (r: (ServerStore, Outcome<int>))
    ensures !r.1.NotFound?
    ensures r.1.ValidationError? <==> !(TruthyStr(b.first_name) && TruthyStr(b.last_name))
    ensures r.1.ValidationError? ==> r.0 == st && r.1.message == NamesMissing
    ensures r.1.Ok? ==>
      && r.1.value == st.nextIds.instructors
      && r.0.nextIds == st.nextIds.(instructors := st.nextIds.instructors + 1)
      && r.0.lessons == st.lessons && r.0.students == st.students && r.0.reports == st.reports
      && |r.0.instructors| == |st.instructors| + 1
      && r.0.instructors[..|st.instructors|] == st.instructors
      && var i := r.0.instructors[|st.instructors|];
        && i.id == st.nextIds.instructors
        && i.first_name == b.first_name.value && i.last_name == b.last_name.value
        && i.status == "active"
        && i.email == OrNull(b.email) && i.phone == OrNull(b.phone) && i.license_number == OrNull(b.license_number)
        && i.created_at == now && i.updated_at == now
  {
    if !TruthyStr(b.first_name) || !TruthyStr(b.last_name) then (st, ValidationError(NamesMissing))
    else
      var id := st.nextIds.instructors;
      var instructor := Instructor(id, b.first_name.value, b.last_name.value, OrNull(b.email), OrNull(b.phone),
                                   OrNull(b.license_number), "active", now, now);
      (st.(instructors := st.instructors + [instructor], nextIds := st.nextIds.(instructors := id + 1)), Ok(id))
  }

  /** POST /api/reports body; `content` is the payload as opaque text. */
  datatype ReportBody = ReportBody(
    kind: Option<string>,
    student_id: Option<Raw>,
    period_start: Option<int>,
    period_end: Option<int>,
    content: Option<string>)

  /** POST /api/reports: type and both period bounds are required; the
      student id is kept only when truthy, the content defaults to `{}`. */
  function CreateReport(st: ServerStore, b: ReportBody, now: int): (r: (ServerStore, Outcome<int>))
    ensures !r.1.NotFound?
    ensures r.1.ValidationError? <==> !(TruthyStr(b.kind) && b.period_start.Some? && b.period_end.Some?)
    ensures r.1.ValidationError? ==> r.0 == st && r.1.message == ReportFieldsMissing
    ensures r.1.Ok? ==>
      && r.1.value == st.nextIds.reports
      && r.0.nextIds == st.nextIds.(reports := st.nextIds.reports + 1)
      && r.0.lessons == st.lessons && r.0.students == st.students && r.0.instructors == st.instructors
      && |r.0.reports| == |st.reports| + 1
      && r.0.reports[..|st.reports|] == st.reports
      && var rep := r.0.reports[|st.reports|];
        && rep.id == st.nextIds.reports
        && rep.kind == b.kind.value
        && (rep.student_id.Some? <==> TruthyRaw(b.student_id))
        && (rep.student_id.Some? ==> rep.student_id.value == b.student_id.value.parsed)
        && rep.period_start == b.period_start.value && rep.period_end == b.period_end.value
        && rep.content == OrStr(b.content, "{}")
        && rep.created_at == now
  {
    if !TruthyStr(b.kind) || b.period_start.None? || b.period_end.None? then (st, ValidationError(ReportFieldsMissing))
    else
      var id := st.nextIds.reports;
      var report := Report(id, b.kind.value, if TruthyRaw(b.student_id) then Some(b.student_id.value.parsed) else None,
                           b.period_start.value, b.period_end.value, OrStr(b.content, "{}"), now);
      (st.(reports := st.reports + [report], nextIds := st.nextIds.(reports := id + 1)), Ok(id))
  }

  // ---------------------------------------------------------------------
  // Updating and deleting lessons

  /** `l.id == id` for the path segment `id`, read as a number (NaN never
      equals anything). */
  predicate HasId(l: Lesson, id: Num) {
    id.Int? && l.id == id.n
  }

  function WithId(id: Num): Lesson -> bool {
    (l: Lesson) => HasId(l, id)
  }

  /** PUT /api/lessons/:id body: each field is applied only when present
      (and, for date, duration and status, truthy). `notes` is
      `Some(None)` for an explicit null. */
  datatype LessonPatch = LessonPatch(
    lesson_date: Option<int>,
    duration: Option<Raw>,
    status: Option<string>,
    notes: Option<Option<string>>)

  function Patched(l: Lesson, p: LessonPatch, now: int): Lesson {
    l.(lesson_date := if p.lesson_date.Some? then p.lesson_date.value else l.lesson_date,
       duration := if TruthyRaw(p.duration) then p.duration.value.parsed else l.duration,
       status := if TruthyStr(p.status) then p.status.value else l.status,
       notes := if p.notes.Some? then p.notes.value else l.notes,
       updated_at := now)
  }

  /** PUT /api/lessons/:id: the first lesson with the id gets the supplied
      fields; identity, participants and creation time stay. */
  function UpdateLesson(st: ServerStore, id: Num, p: LessonPatch, now: int): (r: (ServerStore, Outcome<()>))
    ensures !r.1.ValidationError?
    ensures r.1.NotFound? <==> forall k :: 0 <= k < |st.lessons| ==> !HasId(st.lessons[k], id)
    ensures r.1.NotFound? ==> r.0 == st && r.1.message == LessonNotFound
    ensures r.0.nextIds == st.nextIds && r.0.students == st.students
    ensures r.0.instructors == st.instructors && r.0.reports == st.reports
    ensures |r.0.lessons| == |st.lessons|
    ensures r.1.Ok? ==> var i := FindIndex(st.lessons, WithId(id));
      && 0 <= i < |st.lessons| && HasId(st.lessons[i], id)
      && (forall k :: 0 <= k < i ==> !HasId(st.lessons[k], id))
      && (forall k :: 0 <= k < |st.lessons| && k != i ==> r.0.lessons[k] == st.lessons[k])
      && var before, after := st.lessons[i], r.0.lessons[i];
        && after.id == before.id && after.student_id == before.student_id
        && after.instructor_id == before.instructor_id && after.created_at == before.created_at
        && after.lesson_date == (if p.lesson_date.Some? then p.lesson_date.value else before.lesson_date)
        && after.duration == (if TruthyRaw(p.duration) then p.duration.value.parsed else before.duration)
        && after.status == (if TruthyStr(p.status) then p.status.value else before.status)
        && after.notes == (if p.notes.Some? then p.notes.value else before.notes)
        && after.updated_at == now
  {
    var i := FindIndex(st.lessons, WithId(id));
    if i == -1 then (st, NotFound(LessonNotFound))
    else (st.(lessons := ReplaceAt(st.lessons, i, Patched(st.lessons[i], p, now))), Ok(()))
  }

  /** DELETE /api/lessons/:id: a lesson with the id is spliced out; the
      counter is left alone. */
  function DeleteLesson(st: ServerStore, id: Num): (r: (ServerStore, Outcome<()>))
    ensures !r.1.ValidationError?
    ensures r.1.NotFound? <==> forall k :: 0 <= k < |st.lessons| ==> !HasId(st.lessons[k], id)
    ensures r.1.NotFound? ==> r.0 == st && r.1.message == LessonNotFound
    ensures r.0.nextIds == st.nextIds && r.0.students == st.students
    ensures r.0.instructors == st.instructors && r.0.reports == st.reports
    ensures r.1.Ok? ==> |r.0.lessons| == |st.lessons| - 1
  {
    var i := FindIndex(st.lessons, WithId(id));
    if i == -1 then (st, NotFound(LessonNotFound))
    else (st.(lessons := RemoveAt(st.lessons, i)), Ok(()))
  }

  /** The lesson removed is the first one with the id, and the others keep
      their relative order. */
  lemma DeleteRemovesFirstMatch(st: ServerStore, id: Num)
    requires DeleteLesson(st, id).1.Ok?
    ensures var i, after := FindIndex(st.lessons, WithId(id)), DeleteLesson(st, id).0.lessons;
      && 0 <= i < |st.lessons| && HasId(st.lessons[i], id)
      && (forall k :: 0 <= k < i ==> !HasId(st.lessons[k], id))
      && after == st.lessons[..i] + st.lessons[i + 1..]
  {
    var i := FindIndex(st.lessons, WithId(id));
    assert RemoveAt(st.lessons, i) == st.lessons[..i] + st.lessons[i + 1..];
  }

  // ---------------------------------------------------------------------
  // The route table

  /** One request against the store, with the instant it is served at. */
  datatype Request =
    | GetLessons(lessonQuery: LessonQuery)
    | PostLesson(lessonBody: LessonBody, now: int)
    | PutLesson(lessonId: Num, patch: LessonPatch, now: int)
    | RemoveLesson(lessonId: Num)
    | GetStudents(studentQuery: RosterQuery)
    | PostStudent(studentBody: StudentBody, now: int)
    | GetInstructors(instructorQuery: RosterQuery)
    | PostInstructor(instructorBody: InstructorBody, now: int)
    | GetReports(reportQuery: ReportQuery)
    | PostReport(reportBody: ReportBody, now: int)

  /** The store after serving one request. */
  function Step(st: ServerStore, req: Request, collate: (string, string) -> bool): ServerStore
    requires TotalPreorder(collate)
  {
    match req
    case GetLessons(q) => ListLessons(st, q).0
    case PostLesson(b, now) => CreateLesson(st, b, now).0
    case PutLesson(id, p, now) => UpdateLesson(st, id, p, now).0
    case RemoveLesson(id) => DeleteLesson(st, id).0
    case GetStudents(q) => ListStudents(st, q, collate).0
    case PostStudent(b, now) => CreateStudent(st, b, now).0
    case GetInstructors(q) => ListInstructors(st, q, collate).0
    case PostInstructor(b, now) => CreateInstructor(st, b, now).0
    case GetReports(q) => ListReports(st, q).0
    case PostReport(b, now) => CreateReport(st, b, now).0
  }

  /** The store after serving the requests in order. */
  function Run(st: ServerStore, reqs: seq<Request>, collate: (string, string) -> bool): ServerStore
    requires TotalPreorder(collate)
    decreases |reqs|
  {
    if |reqs| == 0 then st
    else Run(Step(st, reqs[0], collate), reqs[1..], collate)
  }
}

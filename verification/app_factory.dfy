/** The route handlers of the test application factory
    (tests/unit/app-factory.js), minus the Express wrapping. They share the
    store shape of index.js but differ in almost every detail: fields are
    camelCase, lists page by `page`/`limit` and never sort, and an update
    copies the whole request body onto the lesson. */
module AppFactory {
  import opened Js
  import opened JsArray
  import opened MemoryStore

  // ---------------------------------------------------------------------
  // Records. Dates are kept as the strings the client sent; creation
  // times are instants (integers) passed in by the caller.

  datatype Lesson = Lesson(
    id: int,
    studentId: int,
    instructorId: int,
    date: string,
    duration: int,
    status: string,
    notes: string,
    createdAt: int)

  datatype Student = Student(
    id: int,
    name: string,
    email: string,
    phone: string,
    licenseStatus: string,
    lessonsCompleted: int,
    totalCost: int,
    createdAt: int)

  datatype Instructor = Instructor(
    id: int,
    name: string,
    email: string,
    phone: string,
    specialization: string,
    lessonsGiven: int,
    rating: int,
    createdAt: int)

  /** A report; `kind` is the record's `type` field. */
  datatype Report = Report(
    id: int,
    kind: string,
    startDate: string,
    endDate: string,
    format: string,
    status: string,
    generatedAt: int)

  type FactoryStore = Store<Student, Instructor, Lesson, Report>

  function LessonId(l: Lesson): int { l.id }
  function StudentId(s: Student): int { s.id }
  function InstructorId(i: Instructor): int { i.id }
  function ReportId(r: Report): int { r.id }

  /** The id discipline of every collection against its own counter. */
  predicate Valid(st: FactoryStore) {
    && WellKeyed(st.students, StudentId, st.nextIds.students)
    && WellKeyed(st.instructors, InstructorId, st.nextIds.instructors)
    && WellKeyed(st.lessons, LessonId, st.nextIds.lessons)
    && WellKeyed(st.reports, ReportId, st.nextIds.reports)
  }

  const MissingFields := "Missing required fields"
  const LessonNotFound := "Lesson not found"

  // ---------------------------------------------------------------------
  // Listing

  /** A list response: the page of records and the `pagination` block
      (`page`, `limit`, `total`, `pages`), flattened. */
  datatype Listing<T> = Listing(data: seq<T>, page: int, limit: int, total: nat, pages: int)

  /** Pages `s` by the raw `page` and `limit` query parameters: both go
      through `parseInt(..) || default` (1 and 10), the page starts at
      `(page - 1) * limit`, and `pages` is `Math.ceil(total / limit)`. */
  function Paginate<T>(s: seq<T>, pageParam: Num, limitParam: Num): (r: Listing<T>)
    ensures r.total == |s|
    ensures r.page != 0 && r.limit != 0
    ensures pageParam.Int? && pageParam.n != 0 ==> r.page == pageParam.n
    ensures limitParam.Int? && limitParam.n != 0 ==> r.limit == limitParam.n
    ensures !(pageParam.Int? && pageParam.n != 0) ==> r.page == 1
    ensures !(limitParam.Int? && limitParam.n != 0) ==> r.limit == 10
    ensures r.limit > 0 ==> (r.pages - 1) * r.limit < |s| <= r.pages * r.limit
    ensures r.limit > 0 ==> |r.data| <= r.limit
    ensures forall k :: 0 <= k < |r.data| ==> r.data[k] in s
  {
    var page := NumOr(pageParam, 1);
    var limit := NumOr(limitParam, 10);
    var start := (page - 1) * limit;
    Listing(Slice(s, start, start + limit), page, limit, |s|, CeilDiv(|s|, limit))
  }

  /** GET /api/lessons query. */
  datatype LessonQuery = LessonQuery(page: Num, limit: Num, status: Option<string>)

  function StatusIs(status: string): Lesson -> bool {
    (l: Lesson) => l.status == status
  }

  /** The lessons a query selects, in insertion order: all of them, or
      those whose status equals a non-empty `status` parameter. */
  function SelectLessons(lessons: seq<Lesson>, status: Option<string>): (r: seq<Lesson>)
    ensures !TruthyStr(status) ==> r == lessons
    ensures TruthyStr(status) ==> r == Filter(lessons, StatusIs(status.value))
    ensures forall k :: 0 <= k < |r| ==> r[k] in lessons && (TruthyStr(status) ==> r[k].status == status.value)
    ensures forall k :: 0 <= k < |lessons| && (TruthyStr(status) ==> lessons[k].status == status.value) ==> lessons[k] in r
  {
    if TruthyStr(status) then
      FilterMembers(lessons, StatusIs(status.value));
      Filter(lessons, StatusIs(status.value))
    else lessons
  }

  /** GET /api/lessons: filters by status and pages the result, leaving the
      store as it is (no sort). */
  function ListLessons(st: FactoryStore, q: LessonQuery): (r: Listing<Lesson>)
    ensures !TruthyStr(q.status) ==> r.total == |st.lessons|
    ensures TruthyStr(q.status) ==> r.total == |Filter(st.lessons, StatusIs(q.status.value))|
    ensures r.limit > 0 ==> |r.data| <= r.limit
    ensures forall k :: 0 <= k < |r.data| ==>
      r.data[k] in st.lessons && (TruthyStr(q.status) ==> r.data[k].status == q.status.value)
  {
    var selected := SelectLessons(st.lessons, q.status);
    if TruthyStr(q.status) then
      FilterMembers(st.lessons, StatusIs(q.status.value));
      Paginate(selected, q.page, q.limit)
    else
      Paginate(selected, q.page, q.limit)
  }

  /** GET /api/students, /api/instructors, /api/reports query. */
  datatype PageQuery = PageQuery(page: Num, limit: Num)

  /** GET /api/students: a page of the students in insertion order. */
  function ListStudents(st: FactoryStore, q: PageQuery): (r: Listing<Student>)
    ensures r.total == |st.students|
    ensures forall k :: 0 <= k < |r.data| ==> r.data[k] in st.students
  {
    Paginate(st.students, q.page, q.limit)
  }

  /** GET /api/instructors: a page of the instructors in insertion order. */
  function ListInstructors(st: FactoryStore, q: PageQuery): (r: Listing<Instructor>)
    ensures r.total == |st.instructors|
    ensures forall k :: 0 <= k < |r.data| ==> r.data[k] in st.instructors
  {
    Paginate(st.instructors, q.page, q.limit)
  }

  /** GET /api/reports: a page of the reports in insertion order. */
  function ListReports(st: FactoryStore, q: PageQuery): (r: Listing<Report>)
    ensures r.total == |st.reports|
    ensures forall k :: 0 <= k < |r.data| ==> r.data[k] in st.reports
  {
    Paginate(st.reports, q.page, q.limit)
  }

  // ---------------------------------------------------------------------
  // Creating

  /** POST /api/lessons body. */
  datatype LessonBody = LessonBody(
    studentId: Option<int>,
    instructorId: Option<int>,
    date: Option<string>,
    duration: Option<int>,
    status: Option<string>,
    notes: Option<string>)

  /** POST /api/lessons: student, instructor, date and duration must all be
      truthy; the lesson is appended under the lessons counter, status
      defaulting to "scheduled" and notes to "". */
  function CreateLesson(st: FactoryStore, b: LessonBody, now: int): (r: (FactoryStore, Outcome<Lesson>))
    ensures !r.1.NotFound?
    ensures r.1.ValidationError? <==>
      !(TruthyInt(b.studentId) && TruthyInt(b.instructorId) && TruthyStr(b.date) && TruthyInt(b.duration))
    ensures r.1.ValidationError? ==> r.0 == st && r.1.message == MissingFields
    ensures r.1.Ok? ==>
      && r.0.nextIds == st.nextIds.(lessons := st.nextIds.lessons + 1)
      && r.0.students == st.students && r.0.instructors == st.instructors && r.0.reports == st.reports
      && r.0.lessons == st.lessons + [r.1.value]
      && var l := r.1.value;
        && l.id == st.nextIds.lessons
        && l.studentId == b.studentId.value && l.instructorId == b.instructorId.value
        && l.date == b.date.value && l.duration == b.duration.value
        && (TruthyStr(b.status) ==> l.status == b.status.value)
        && (!TruthyStr(b.status) ==> l.status == "scheduled")
        && (TruthyStr(b.notes) ==> l.notes == b.notes.value)
        && (!TruthyStr(b.notes) ==> l.notes == "")
        && l.createdAt == now
  {
    if !TruthyInt(b.studentId) || !TruthyInt(b.instructorId) || !TruthyStr(b.date) || !TruthyInt(b.duration) then
      (st, ValidationError(MissingFields))
    else
      var id := st.nextIds.lessons;
      var lesson := Lesson(id, b.studentId.value, b.instructorId.value, b.date.value, b.duration.value,
                           OrStr(b.status, "scheduled"), OrStr(b.notes, ""), now);
      (st.(lessons := st.lessons + [lesson], nextIds := st.nextIds.(lessons := id + 1)), Ok(lesson))
  }

  /** POST /api/students body. */
  datatype StudentBody = StudentBody(
    name: Option<string>,
    email: Option<string>,
    phone: Option<string>,
    licenseStatus: Option<string>)

  /** POST /api/students: name and email are required; the student starts
      with no lessons, no cost and licence status "pending" unless given. */
  function CreateStudent(st: FactoryStore, b: StudentBody, now: int): (r: (FactoryStore, Outcome<Student>))
    ensures !r.1.NotFound?
    ensures r.1.ValidationError? <==> !(TruthyStr(b.name) && TruthyStr(b.email))
    ensures r.1.ValidationError? ==> r.0 == st && r.1.message == MissingFields
    ensures r.1.Ok? ==>
      && r.0.nextIds == st.nextIds.(students := st.nextIds.students + 1)
      && r.0.lessons == st.lessons && r.0.instructors == st.instructors && r.0.reports == st.reports
      && r.0.students == st.students + [r.1.value]
      && var s := r.1.value;
        && s.id == st.nextIds.students
        && s.name == b.name.value && s.email == b.email.value
        && s.phone == OrStr(b.phone, "")
        && (TruthyStr(b.licenseStatus) ==> s.licenseStatus == b.licenseStatus.value)
        && (!TruthyStr(b.licenseStatus) ==> s.licenseStatus == "pending")
        && s.lessonsCompleted == 0 && s.totalCost == 0
        && s.createdAt == now
  {
    if !TruthyStr(b.name) || !TruthyStr(b.email) then (st, ValidationError(MissingFields))
    else
      var id := st.nextIds.students;
      var student := Student(id, b.name.value, b.email.value, OrStr(b.phone, ""),
                             OrStr(b.licenseStatus, "pending"), 0, 0, now);
      (st.(students := st.students + [student], nextIds := st.nextIds.(students := id + 1)), Ok(student))
  }

  /** POST /api/instructors body. */
  datatype InstructorBody = InstructorBody(
    name: Option<string>,
    email: Option<string>,
    phone: Option<string>,
    specialization: Option<string>)

  /** POST /api/instructors: name and email are required; the instructor
      starts with no lessons, rating 0 and specialization "standard"
      unless given. */
  function CreateInstructor(st: FactoryStore, b: InstructorBody, now: int): (r: (FactoryStore, Outcome<Instructor>))
    ensures !r.1.NotFound?
    ensures r.1.ValidationError? <==> !(TruthyStr(b.name) && TruthyStr(b.email))
    ensures r.1.ValidationError? ==> r.0 == st && r.1.message == MissingFields
    ensures r.1.Ok? ==>
      && r.0.nextIds == st.nextIds.(instructors := st.nextIds.instructors + 1)
      && r.0.lessons == st.lessons && r.0.students == st.students && r.0.reports == st.reports
      && r.0.instructors == st.instructors + [r.1.value]
      && var i := r.1.value;
        && i.id == st.nextIds.instructors
        && i.name == b.name.value && i.email == b.email.value
        && i.phone == OrStr(b.phone, "")
        && (TruthyStr(b.specialization) ==> i.specialization == b.specialization.value)
        && (!TruthyStr(b.specialization) ==> i.specialization == "standard")
        && i.lessonsGiven == 0 && i.rating == 0
        && i.createdAt == now
  {
    if !TruthyStr(b.name) || !TruthyStr(b.email) then (st, ValidationError(MissingFields))
    else
      var id := st.nextIds.instructors;
      var instructor := Instructor(id, b.name.value, b.email.value, OrStr(b.phone, ""),
                                   OrStr(b.specialization, "standard"), 0, 0, now);
      (st.(instructors := st.instructors + [instructor], nextIds := st.nextIds.(instructors := id + 1)),
       Ok(instructor))
  }

  /** POST /api/reports body; `kind` is the `type` field. */
  datatype ReportBody = ReportBody(
    kind: Option<string>,
    startDate: Option<string>,
    endDate: Option<string>,
    format: Option<string>)

  /** POST /api/reports: type and both dates are required; the report is
      stored as already generated, in format "json" unless given. */
  function CreateReport(st: FactoryStore, b: ReportBody, now: int): (r: (FactoryStore, Outcome<Report>))
    ensures !r.1.NotFound?
    ensures r.1.ValidationError? <==> !(TruthyStr(b.kind) && TruthyStr(b.startDate) && TruthyStr(b.endDate))
    ensures r.1.ValidationError? ==> r.0 == st && r.1.message == MissingFields
    ensures r.1.Ok? ==>
      && r.0.nextIds == st.nextIds.(reports := st.nextIds.reports + 1)
      && r.0.lessons == st.lessons && r.0.students == st.students && r.0.instructors == st.instructors
      && r.0.reports == st.reports + [r.1.value]
      && var rep := r.1.value;
        && rep.id == st.nextIds.reports
        && rep.kind == b.kind.value && rep.startDate == b.startDate.value && rep.endDate == b.endDate.value
        && (TruthyStr(b.format) ==> rep.format == b.format.value)
        && (!TruthyStr(b.format) ==> rep.format == "json")
        && rep.status == "generated"
        && rep.generatedAt == now
  {
    if !TruthyStr(b.kind) || !TruthyStr(b.startDate) || !TruthyStr(b.endDate) then
      (st, ValidationError(MissingFields))
    else
      var id := st.nextIds.reports;
      var report := Report(id, b.kind.value, b.startDate.value, b.endDate.value, OrStr(b.format, "json"),
                           "generated", now);
      (st.(reports := st.reports + [report], nextIds := st.nextIds.(reports := id + 1)), Ok(report))
  }

  // ---------------------------------------------------------------------
  // Updating and deleting

  /** `l.id === parseInt(param)`: a NaN parameter matches nothing. */
  function IdIs(id: Num): Lesson -> bool {
    (l: Lesson) => id.Int? && l.id == id.n
  }

  /** PUT /api/lessons/:id body, as `Object.assign` sees it: every key
      present is copied, whatever its value, and that includes `id` and
      `createdAt`. */
  datatype LessonPatch = LessonPatch(
    id: Option<int>,
    studentId: Option<int>,
    instructorId: Option<int>,
    date: Option<string>,
    duration: Option<int>,
    status: Option<string>,
    notes: Option<string>,
    createdAt: Option<int>)

  function Pick<T>(x: Option<T>, d: T): T {
    if x.Some? then x.value else d
  }

  /** `Object.assign(lesson, body)`. */
  function Assign(l: Lesson, p: LessonPatch): Lesson {
    Lesson(Pick(p.id, l.id), Pick(p.studentId, l.studentId), Pick(p.instructorId, l.instructorId),
           Pick(p.date, l.date), Pick(p.duration, l.duration), Pick(p.status, l.status),
           Pick(p.notes, l.notes), Pick(p.createdAt, l.createdAt))
  }

  /** PUT /api/lessons/:id: the first lesson with the id gets every field
      the body carries, and is answered back. */
  function UpdateLesson(st: FactoryStore, id: Num, p: LessonPatch): (r: (FactoryStore, Outcome<Lesson>))
    ensures !r.1.ValidationError?
    ensures r.1.NotFound? <==> forall k :: 0 <= k < |st.lessons| ==> !IdIs(id)(st.lessons[k])
    ensures r.1.NotFound? ==> r.0 == st && r.1.message == LessonNotFound
    ensures r.0.nextIds == st.nextIds && r.0.students == st.students
    ensures r.0.instructors == st.instructors && r.0.reports == st.reports
    ensures |r.0.lessons| == |st.lessons|
    ensures r.1.Ok? ==> var i := FindIndex(st.lessons, IdIs(id));
      && 0 <= i < |st.lessons| && id == Int(st.lessons[i].id)
      && (forall k :: 0 <= k < i ==> st.lessons[k].id != id.n)
      && (forall k :: 0 <= k < |st.lessons| && k != i ==> r.0.lessons[k] == st.lessons[k])
      && r.0.lessons[i] == r.1.value
      && var before, after := st.lessons[i], r.1.value;
        && (p.id.Some? ==> after.id == p.id.value) && (p.id.None? ==> after.id == before.id)
        && (p.studentId.Some? ==> after.studentId == p.studentId.value)
        && (p.studentId.None? ==> after.studentId == before.studentId)
        && (p.instructorId.Some? ==> after.instructorId == p.instructorId.value)
        && (p.instructorId.None? ==> after.instructorId == before.instructorId)
        && (p.date.Some? ==> after.date == p.date.value) && (p.date.None? ==> after.date == before.date)
        && (p.duration.Some? ==> after.duration == p.duration.value)
        && (p.duration.None? ==> after.duration == before.duration)
        && (p.status.Some? ==> after.status == p.status.value)
        && (p.status.None? ==> after.status == before.status)
        && (p.notes.Some? ==> after.notes == p.notes.value) && (p.notes.None? ==> after.notes == before.notes)
        && (p.createdAt.Some? ==> after.createdAt == p.createdAt.value)
        && (p.createdAt.None? ==> after.createdAt == before.createdAt)
  {
    var i := FindIndex(st.lessons, IdIs(id));
    if i == -1 then (st, NotFound(LessonNotFound))
    else
      var updated := Assign(st.lessons[i], p);
      (st.(lessons := ReplaceAt(st.lessons, i, updated)), Ok(updated))
  }

  /** DELETE /api/lessons/:id: a lesson with the id is spliced out and
      answered back; the counter is left alone. */
  function DeleteLesson(st: FactoryStore, id: Num): (r: (FactoryStore, Outcome<Lesson>))
    ensures !r.1.ValidationError?
    ensures r.1.NotFound? <==> forall k :: 0 <= k < |st.lessons| ==> !IdIs(id)(st.lessons[k])
    ensures r.1.NotFound? ==> r.0 == st && r.1.message == LessonNotFound
    ensures r.0.nextIds == st.nextIds && r.0.students == st.students
    ensures r.0.instructors == st.instructors && r.0.reports == st.reports
    ensures r.1.Ok? ==> |r.0.lessons| == |st.lessons| - 1 && id == Int(r.1.value.id)
  {
    var i := FindIndex(st.lessons, IdIs(id));
    if i == -1 then (st, NotFound(LessonNotFound))
    else (st.(lessons := RemoveAt(st.lessons, i)), Ok(st.lessons[i]))
  }

  /** The lesson deleted and answered back is the first one with the id,
      and the others keep their relative order. */
  lemma DeleteRemovesFirstMatch(st: FactoryStore, id: Num)
    requires DeleteLesson(st, id).1.Ok?
    ensures var i, r := FindIndex(st.lessons, IdIs(id)), DeleteLesson(st, id);
      && 0 <= i < |st.lessons|
      && r.1.value == st.lessons[i]
      && (forall k :: 0 <= k < i ==> st.lessons[k].id != id.n)
      && r.0.lessons == st.lessons[..i] + st.lessons[i + 1..]
  {
    var i := FindIndex(st.lessons, IdIs(id));
    assert RemoveAt(st.lessons, i) == st.lessons[..i] + st.lessons[i + 1..];
  }

  // ---------------------------------------------------------------------
  // The route table

  /** The requests that can change the store, plus the lists (which never
      do); health, readiness and the home page are left out. */
  datatype Request =
    | GetLessons(lessonQuery: LessonQuery)
    | PostLesson(lessonBody: LessonBody, now: int)
    | PutLesson(lessonId: Num, patch: LessonPatch)
    | RemoveLesson(lessonId: Num)
    | GetStudents(studentQuery: PageQuery)
    | PostStudent(studentBody: StudentBody, now: int)
    | GetInstructors(instructorQuery: PageQuery)
    | PostInstructor(instructorBody: InstructorBody, now: int)
    | GetReports(reportQuery: PageQuery)
    | PostReport(reportBody: ReportBody, now: int)

  /** The store after serving one request. */
  function Step(st: FactoryStore, req: Request): FactoryStore {
    match req
    case GetLessons(_) => st
    case PostLesson(b, now) => CreateLesson(st, b, now).0
    case PutLesson(id, p) => UpdateLesson(st, id, p).0
    case RemoveLesson(id) => DeleteLesson(st, id).0
    case GetStudents(_) => st
    case PostStudent(b, now) => CreateStudent(st, b, now).0
    case GetInstructors(_) => st
    case PostInstructor(b, now) => CreateInstructor(st, b, now).0
    case GetReports(_) => st
    case PostReport(b, now) => CreateReport(st, b, now).0
  }

  /** The store after serving the requests in order. */
  function Run(st: FactoryStore, reqs: seq<Request>): FactoryStore
    decreases |reqs|
  {
    if |reqs| == 0 then st
    else Run(Step(st, reqs[0]), reqs[1..])
  }
}

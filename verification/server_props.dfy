/** Properties of the index.js handlers that relate several calls: the id
    discipline over any sequence of requests, the list arithmetic, and how
    create, list, update and delete interact. */
module ServerProps {
  import opened Js
  import opened JsArray
  import opened MemoryStore
  import opened Server

  // ---------------------------------------------------------------------
  // Ids

  /** Every request keeps every collection well keyed. */
  lemma StepKeepsValid(st: ServerStore, req: Request, collate: (string, string) -> bool)
    requires TotalPreorder(collate)
    requires Valid(st)
    ensures Valid(Step(st, req, collate))
  {
    match req
    case GetLessons(q) => ListLessonsKeepsValid(st, q, collate);
    case PostLesson(b, now) => CreateLessonKeepsValid(st, b, now, collate);
    case PutLesson(id, p, now) => UpdateLessonKeepsValid(st, id, p, now, collate);
    case RemoveLesson(id) => DeleteLessonKeepsValid(st, id, collate);
    case GetStudents(q) => ListStudentsKeepsValid(st, q, collate);
    case PostStudent(b, now) => CreateStudentKeepsValid(st, b, now, collate);
    case GetInstructors(q) => ListInstructorsKeepsValid(st, q, collate);
    case PostInstructor(b, now) => CreateInstructorKeepsValid(st, b, now, collate);
    case GetReports(q) => ListReportsKeepsValid(st, q, collate);
    case PostReport(b, now) => CreateReportKeepsValid(st, b, now, collate);
  }

  // One lemma per handler, each stated for the handler and for the `Step`
  // that serves it, so that every proof stays small.

  lemma ListLessonsKeepsValid(st: ServerStore, q: LessonQuery, collate: (string, string) -> bool)
    requires Valid(st)
    requires TotalPreorder(collate)
    ensures Valid(ListLessons(st, q).0)
    ensures Valid(Step(st, GetLessons(q), collate))
  {
    if NoLessonFilter(q) {
      assert FilterLessons(st.lessons, q) == st.lessons;
      SortKeepsKeys(st.lessons, LessonDate, NewerFirst, LessonId, st.nextIds.lessons);
    }
  }

  lemma CreateLessonKeepsValid(st: ServerStore, b: LessonBody, now: int, collate: (string, string) -> bool)
    requires Valid(st)
    requires TotalPreorder(collate)
    ensures Valid(CreateLesson(st, b, now).0)
    ensures Valid(Step(st, PostLesson(b, now), collate))
  {
    var r := CreateLesson(st, b, now);
    if r.1.Ok? {
      assert r.0.lessons == st.lessons + [r.0.lessons[|st.lessons|]];
      AppendFresh(st.lessons, LessonId, st.nextIds.lessons, r.0.lessons[|st.lessons|]);
    }
  }

  lemma UpdateLessonKeepsValid(st: ServerStore, id: Num, p: LessonPatch, now: int, collate: (string, string) -> bool)
    requires Valid(st)
    requires TotalPreorder(collate)
    ensures Valid(UpdateLesson(st, id, p, now).0)
    ensures Valid(Step(st, PutLesson(id, p, now), collate))
  {
    var i := FindIndex(st.lessons, WithId(id));
    if i != -1 {
      ReplaceKeepsKeys(st.lessons, LessonId, st.nextIds.lessons, i, Patched(st.lessons[i], p, now));
    }
  }

  lemma DeleteLessonKeepsValid(st: ServerStore, id: Num, collate: (string, string) -> bool)
    requires Valid(st)
    requires TotalPreorder(collate)
    ensures Valid(DeleteLesson(st, id).0)
    ensures Valid(Step(st, RemoveLesson(id), collate))
  {
    var i := FindIndex(st.lessons, WithId(id));
    if i != -1 {
      RemoveKeepsKeys(st.lessons, LessonId, st.nextIds.lessons, i);
    }
  }

  lemma ListStudentsKeepsValid(st: ServerStore, q: RosterQuery, collate: (string, string) -> bool)
    requires TotalPreorder(collate)
    requires Valid(st)
    ensures Valid(ListStudents(st, q, collate).0)
    ensures Valid(Step(st, GetStudents(q), collate))
  {
    if !TruthyStr(q.status) {
      SortKeepsKeys(st.students, StudentFirstName, collate, StudentId, st.nextIds.students);
    }
  }

  lemma CreateStudentKeepsValid(st: ServerStore, b: StudentBody, now: int, collate: (string, string) -> bool)
    requires Valid(st)
    requires TotalPreorder(collate)
    ensures Valid(CreateStudent(st, b, now).0)
    ensures Valid(Step(st, PostStudent(b, now), collate))
  {
    var r := CreateStudent(st, b, now);
    if r.1.Ok? {
      assert r.0.students == st.students + [r.0.students[|st.students|]];
      AppendFresh(st.students, StudentId, st.nextIds.students, r.0.students[|st.students|]);
    }
  }

  lemma ListInstructorsKeepsValid(st: ServerStore, q: RosterQuery, collate: (string, string) -> bool)
    requires TotalPreorder(collate)
    requires Valid(st)
    ensures Valid(ListInstructors(st, q, collate).0)
    ensures Valid(Step(st, GetInstructors(q), collate))
  {
    if !TruthyStr(q.status) {
      SortKeepsKeys(st.instructors, InstructorFirstName, collate, InstructorId, st.nextIds.instructors);
    }
  }

  lemma CreateInstructorKeepsValid(st: ServerStore, b: InstructorBody, now: int, collate: (string, string) -> bool)
    requires Valid(st)
    requires TotalPreorder(collate)
    ensures Valid(CreateInstructor(st, b, now).0)
    ensures Valid(Step(st, PostInstructor(b, now), collate))
  {
    var r := CreateInstructor(st, b, now);
    if r.1.Ok? {
      assert r.0.instructors == st.instructors + [r.0.instructors[|st.instructors|]];
      AppendFresh(st.instructors, InstructorId, st.nextIds.instructors, r.0.instructors[|st.instructors|]);
    }
  }

  lemma ListReportsKeepsValid(st: ServerStore, q: ReportQuery, collate: (string, string) -> bool)
    requires Valid(st)
    requires TotalPreorder(collate)
    ensures Valid(ListReports(st, q).0)
    ensures Valid(Step(st, GetReports(q), collate))
  {
    if NoReportFilter(q) {
      assert FilterReports(st.reports, q) == st.reports;
      SortKeepsKeys(st.reports, ReportCreated, NewerFirst, ReportId, st.nextIds.reports);
    }
  }

  lemma CreateReportKeepsValid(st: ServerStore, b: ReportBody, now: int, collate: (string, string) -> bool)
    requires Valid(st)
    requires TotalPreorder(collate)
    ensures Valid(CreateReport(st, b, now).0)
    ensures Valid(Step(st, PostReport(b, now), collate))
  {
    var r := CreateReport(st, b, now);
    if r.1.Ok? {
      assert r.0.reports == st.reports + [r.0.reports[|st.reports|]];
      AppendFresh(st.reports, ReportId, st.nextIds.reports, r.0.reports[|st.reports|]);
    }
  }

  /** Starting from any well-keyed store (in particular the empty store of a
      fresh process), every sequence of requests keeps it well keyed. */
  lemma {:induction false} RunKeepsValid(st: ServerStore, reqs: seq<Request>, collate: (string, string) -> bool)
    requires TotalPreorder(collate)
    requires Valid(st)
    ensures Valid(Run(st, reqs, collate))
    decreases |reqs|
  {
    if |reqs| > 0 {
      StepKeepsValid(st, reqs[0], collate);
      RunKeepsValid(Step(st, reqs[0], collate), reqs[1..], collate);
    }
  }

  /** The store a fresh process starts with is well keyed, and so is every
      store any sequence of requests leads it to. */
  lemma ValidFromStartup(reqs: seq<Request>, collate: (string, string) -> bool)
    requires TotalPreorder(collate)
    ensures Valid(Empty<Student, Instructor, Lesson, Report>())
    ensures Valid(Run(Empty(), reqs, collate))
  {
    RunKeepsValid(Empty(), reqs, collate);
  }

  /** Counters never go down: only a successful create moves one, by one. */
  lemma StepCountersGrow(st: ServerStore, req: Request, collate: (string, string) -> bool)
    requires TotalPreorder(collate)
    ensures CountersLe(st.nextIds, Step(st, req, collate).nextIds)
  {
  }

  lemma {:induction false} RunCountersGrow(st: ServerStore, reqs: seq<Request>, collate: (string, string) -> bool)
    requires TotalPreorder(collate)
    ensures CountersLe(st.nextIds, Run(st, reqs, collate).nextIds)
    decreases |reqs|
  {
    if |reqs| > 0 {
      StepCountersGrow(st, reqs[0], collate);
      RunCountersGrow(Step(st, reqs[0], collate), reqs[1..], collate);
    }
  }

  /** A lesson id is never issued twice: whatever requests come between two
      successful lesson creates, the later one gets a larger id. */
  lemma LessonIdsNeverReused(st: ServerStore, b1: LessonBody, now1: int, reqs: seq<Request>,
                             b2: LessonBody, now2: int, collate: (string, string) -> bool)
    requires TotalPreorder(collate)
    requires CreateLesson(st, b1, now1).1.Ok?
    requires CreateLesson(Run(CreateLesson(st, b1, now1).0, reqs, collate), b2, now2).1.Ok?
    ensures CreateLesson(st, b1, now1).1.value < CreateLesson(Run(CreateLesson(st, b1, now1).0, reqs, collate), b2, now2).1.value
  {
    RunCountersGrow(CreateLesson(st, b1, now1).0, reqs, collate);
  }

  /** In a well-keyed store the id a create issues belongs to no stored
      lesson. */
  lemma CreatedLessonIdIsFresh(st: ServerStore, b: LessonBody, now: int)
    requires Valid(st)
    requires CreateLesson(st, b, now).1.Ok?
    ensures forall k :: 0 <= k < |st.lessons| ==> st.lessons[k].id != CreateLesson(st, b, now).1.value
  {
  }

  // ---------------------------------------------------------------------
  // Listing arithmetic

  /** `total` depends on the filters only, never on `offset` or `limit`. */
  lemma ListTotalIgnoresPaging(st: ServerStore, q: LessonQuery, limit: Option<Num>, offset: Option<Num>)
    ensures ListLessons(st, q).1.value.total == ListLessons(st, q.(limit := limit, offset := offset)).1.value.total
  {
    var q' := q.(limit := limit, offset := offset);
    forall x | x in st.lessons ensures Matching(q)(x) == Matching(q')(x) {
    }
    FilterExt(st.lessons, Matching(q), Matching(q'));
  }

  /** For numeric `offset, limit >= 0` the page holds
      `max(0, min(limit, total - offset))` lessons. */
  lemma ListCount(st: ServerStore, q: LessonQuery, offset: nat, limit: nat)
    requires q.offset == Some(Int(offset)) && q.limit == Some(Int(limit))
    ensures var page := ListLessons(st, q).1.value;
      page.count == if offset >= page.total then 0
                    else if limit <= page.total - offset then limit
                    else page.total - offset
  {
    var sorted := SortBy(FilterLessons(st.lessons, q), LessonDate, NewerFirst);
    assert |Window(sorted, q.offset, q.limit)| == ListLessons(st, q).1.value.count;
  }

  /** The page is the run of the newest-first matching lessons that the
      offset and limit cut out. */
  lemma ListLessonsPage(st: ServerStore, q: LessonQuery)
    ensures var sorted := SortBy(Filter(st.lessons, Matching(q)), LessonDate, NewerFirst);
      var from, to := WindowStart(|sorted|, q.offset), WindowEnd(|sorted|, q.offset, q.limit);
      var data := ListLessons(st, q).1.value.data;
      && |data| == (if from < to then to - from else 0)
      && forall k :: 0 <= k < |data| ==> from + k < |sorted| && data[k] == sorted[from + k]
  {
    LessonsData(st, q);
  }

  lemma LessonsData(st: ServerStore, q: LessonQuery)
    ensures ListLessons(st, q).1.value.data
      == Window(SortBy(Filter(st.lessons, Matching(q)), LessonDate, NewerFirst), q.offset, q.limit)
  {
    FilterLessonsMatches(st.lessons, q);
  }

  /** With neither `offset` nor `limit` given, the first 50 of the
      newest-first matching lessons come back. */
  lemma ListDefaultWindow(st: ServerStore, q: LessonQuery)
    requires q.offset.None? && q.limit.None?
    ensures var sorted := SortBy(Filter(st.lessons, Matching(q)), LessonDate, NewerFirst);
      var page := ListLessons(st, q).1.value;
      && page.total == |sorted|
      && page.count == (if page.total < 50 then page.total else 50)
      && page.data == sorted[..if |sorted| < 50 then |sorted| else 50]
  {
    var sorted := SortBy(Filter(st.lessons, Matching(q)), LessonDate, NewerFirst);
    SortFilterMembers(st.lessons, Matching(q), LessonDate, NewerFirst);
    LessonsData(st, q);
    var n := if |sorted| < 50 then |sorted| else 50;
    assert WindowStart(|sorted|, q.offset) == 0;
    assert WindowEnd(|sorted|, q.offset, q.limit) == n;
    var data := Window(sorted, q.offset, q.limit);
    assert data == sorted[..n];
  }

  /** The student page is the run of the matching students, in collation
      order of first names, that the offset and limit cut out. */
  lemma ListStudentsPage(st: ServerStore, q: RosterQuery, collate: (string, string) -> bool)
    requires TotalPreorder(collate)
    ensures var sorted := SortBy(Filter(st.students, When(TruthyStr(q.status), StudentStatus(q.status))),
                                 StudentFirstName, collate);
      var from, to := WindowStart(|sorted|, q.offset), WindowEnd(|sorted|, q.offset, q.limit);
      var data := ListStudents(st, q, collate).1.value.data;
      && |data| == (if from < to then to - from else 0)
      && forall k :: 0 <= k < |data| ==> from + k < |sorted| && data[k] == sorted[from + k]
  {
    StudentsData(st, q, collate);
  }

  lemma StudentsData(st: ServerStore, q: RosterQuery, collate: (string, string) -> bool)
    requires TotalPreorder(collate)
    ensures ListStudents(st, q, collate).1.value.data
      == Window(SortBy(Filter(st.students, When(TruthyStr(q.status), StudentStatus(q.status))), StudentFirstName, collate), q.offset, q.limit)
  {
    ConditionalFilter(st.students, TruthyStr(q.status), StudentStatus(q.status));
  }

  /** As for students, on the instructors. */
  lemma ListInstructorsPage(st: ServerStore, q: RosterQuery, collate: (string, string) -> bool)
    requires TotalPreorder(collate)
    ensures var sorted := SortBy(Filter(st.instructors, When(TruthyStr(q.status), InstructorStatus(q.status))),
                                 InstructorFirstName, collate);
      var from, to := WindowStart(|sorted|, q.offset), WindowEnd(|sorted|, q.offset, q.limit);
      var data := ListInstructors(st, q, collate).1.value.data;
      && |data| == (if from < to then to - from else 0)
      && forall k :: 0 <= k < |data| ==> from + k < |sorted| && data[k] == sorted[from + k]
  {
    InstructorsData(st, q, collate);
  }

  lemma InstructorsData(st: ServerStore, q: RosterQuery, collate: (string, string) -> bool)
    requires TotalPreorder(collate)
    ensures ListInstructors(st, q, collate).1.value.data
      == Window(SortBy(Filter(st.instructors, When(TruthyStr(q.status), InstructorStatus(q.status))), InstructorFirstName, collate), q.offset, q.limit)
  {
    ConditionalFilter(st.instructors, TruthyStr(q.status), InstructorStatus(q.status));
  }

  /** A non-numeric `offset` or `limit` does not fall back to its default:
      `parseInt` gives NaN, `slice` reads the bounds as 0, and the page is
      empty whatever the total. */
  lemma NonNumericPagingIsEmpty(st: ServerStore, q: LessonQuery)
    requires q.offset == Some(NaN) || q.limit == Some(NaN)
    ensures ListLessons(st, q).1.value.count == 0
  {
    var sorted := SortBy(FilterLessons(st.lessons, q), LessonDate, NewerFirst);
    assert |Window(sorted, q.offset, q.limit)| == ListLessons(st, q).1.value.count;
  }

  /** The in-place sort is stable: after an unfiltered list, lessons on
      the same date are stored in the order they were before. */
  lemma SameDateKeepsOrder(st: ServerStore, q: LessonQuery, date: int)
    requires NoLessonFilter(q)
    ensures var sameDay := EquivTo(LessonDate, NewerFirst, date);
      Filter(ListLessons(st, q).0.lessons, sameDay) == Filter(st.lessons, sameDay)
  {
    assert FilterLessons(st.lessons, q) == st.lessons;
    NewerFirstIsTotal();
    SortStable(st.lessons, LessonDate, NewerFirst, date);
  }

  /** The report sort is stable too: reports created at the same instant
      are answered in the order they are stored, and after an unfiltered
      list they are stored in the order they were before. */
  lemma SameCreatedKeepsOrder(st: ServerStore, q: ReportQuery, created: int)
    ensures var same := EquivTo(ReportCreated, NewerFirst, created);
      && Filter(ListReports(st, q).1.value, same) == Filter(Filter(st.reports, ReportMatching(q)), same)
      && (NoReportFilter(q) ==> Filter(ListReports(st, q).0.reports, same) == Filter(st.reports, same))
  {
    FilterReportsMatches(st.reports, q);
    NewerFirstIsTotal();
    SortStable(FilterReports(st.reports, q), ReportCreated, NewerFirst, created);
    if NoReportFilter(q) {
      assert FilterReports(st.reports, q) == st.reports;
    }
  }

  /** Students with equivalent first names keep their stored order in the
      sorted list the page is cut from, and, after a list without a status,
      in the store. */
  lemma SameStudentNameKeepsOrder(st: ServerStore, q: RosterQuery, collate: (string, string) -> bool, name: string)
    requires TotalPreorder(collate)
    ensures var same := EquivTo(StudentFirstName, collate, name);
      var matching := Filter(st.students, When(TruthyStr(q.status), StudentStatus(q.status)));
      && Filter(SortBy(matching, StudentFirstName, collate), same) == Filter(matching, same)
      && (!TruthyStr(q.status) ==> Filter(ListStudents(st, q, collate).0.students, same) == Filter(st.students, same))
  {
    var matching := Filter(st.students, When(TruthyStr(q.status), StudentStatus(q.status)));
    SortStable(matching, StudentFirstName, collate, name);
    SortStable(st.students, StudentFirstName, collate, name);
  }

  /** As for students, on the instructors. */
  lemma SameInstructorNameKeepsOrder(st: ServerStore, q: RosterQuery, collate: (string, string) -> bool, name: string)
    requires TotalPreorder(collate)
    ensures var same := EquivTo(InstructorFirstName, collate, name);
      var matching := Filter(st.instructors, When(TruthyStr(q.status), InstructorStatus(q.status)));
      && Filter(SortBy(matching, InstructorFirstName, collate), same) == Filter(matching, same)
      && (!TruthyStr(q.status) ==> Filter(ListInstructors(st, q, collate).0.instructors, same) == Filter(st.instructors, same))
  {
    var matching := Filter(st.instructors, When(TruthyStr(q.status), InstructorStatus(q.status)));
    SortStable(matching, InstructorFirstName, collate, name);
    SortStable(st.instructors, InstructorFirstName, collate, name);
  }

  /** A list without filters counts every stored lesson. */
  lemma UnfilteredTotal(st: ServerStore, q: LessonQuery)
    requires NoLessonFilter(q)
    ensures ListLessons(st, q).1.value.total == |st.lessons|
  {
    FilterKeepsAll(st.lessons, Matching(q));
  }

  // ---------------------------------------------------------------------
  // Create, list, update and delete together

  /** A successful create adds one to the total of every list whose filters
      the new lesson matches, and leaves the others alone. */
  lemma CreateBumpsTotal(st: ServerStore, b: LessonBody, now: int, q: LessonQuery)
    requires CreateLesson(st, b, now).1.Ok?
    ensures var st' := CreateLesson(st, b, now).0;
      ListLessons(st', q).1.value.total
        == ListLessons(st, q).1.value.total + (if LessonMatches(q, st'.lessons[|st.lessons|]) then 1 else 0)
  {
    var st' := CreateLesson(st, b, now).0;
    var l := st'.lessons[|st.lessons|];
    assert st'.lessons == st.lessons + [l];
    FilterAppend(st.lessons, [l], Matching(q));
    assert Filter([l], Matching(q)) == (if Matching(q)(l) then [l] else []) + Filter([l][1..], Matching(q));
  }

  /** Deleting an existing lesson drops the unfiltered total by exactly one,
      and deleting the same id again finds nothing. */
  lemma DeleteDropsTotal(st: ServerStore, id: Num, q: LessonQuery)
    requires Valid(st)
    requires NoLessonFilter(q)
    requires DeleteLesson(st, id).1.Ok?
    ensures ListLessons(DeleteLesson(st, id).0, q).1.value.total == ListLessons(st, q).1.value.total - 1
    ensures DeleteLesson(DeleteLesson(st, id).0, id).1.NotFound?
  {
    var st' := DeleteLesson(st, id).0;
    UnfilteredTotal(st, q);
    UnfilteredTotal(st', q);
    DeleteIsFinal(st, id);
  }

  /** In a well-keyed store the deleted lesson was the only one with its
      id, so none is left. */
  lemma DeleteIsFinal(st: ServerStore, id: Num)
    requires Valid(st)
    requires DeleteLesson(st, id).1.Ok?
    ensures DeleteLesson(DeleteLesson(st, id).0, id).1.NotFound?
  {
    var st' := DeleteLesson(st, id).0;
    DeleteRemovesFirstMatch(st, id);
    var i := FindIndex(st.lessons, WithId(id));
    forall k | 0 <= k < |st'.lessons| ensures !HasId(st'.lessons[k], id) {
      var k' := if k < i then k else k + 1;
      assert st'.lessons[k] == st.lessons[k'] && k' != i;
      UniqueId(st.lessons, LessonId, st.nextIds.lessons, k', i);
    }
  }

  /** Deleting the lesson just created restores the lessons, but not the
      counter: its id is gone for good. */
  lemma CreateThenDelete(st: ServerStore, b: LessonBody, now: int)
    requires Valid(st)
    requires CreateLesson(st, b, now).1.Ok?
    ensures var (st1, out) := CreateLesson(st, b, now);
      var st2 := DeleteLesson(st1, Int(out.value)).0;
      && DeleteLesson(st1, Int(out.value)).1.Ok?
      && st2.lessons == st.lessons
      && st2.nextIds.lessons == st.nextIds.lessons + 1
  {
    var (st1, out) := CreateLesson(st, b, now);
    var id := Int(out.value);
    assert HasId(st1.lessons[|st.lessons|], id);
    var i := FindIndex(st1.lessons, WithId(id));
    assert i == |st.lessons| by {
      forall k | 0 <= k < |st.lessons| ensures !HasId(st1.lessons[k], id) {
        assert st1.lessons[k] == st.lessons[k];
      }
    }
    DeleteRemovesFirstMatch(st1, id);
    assert st1.lessons[..i] == st.lessons;
  }

  /** Marking a lesson completed changes its status and update time only. */
  lemma CompleteLesson(st: ServerStore, id: Num, now: int)
    requires UpdateLesson(st, id, LessonPatch(None, None, Some("completed"), None), now).1.Ok?
    ensures var i := FindIndex(st.lessons, WithId(id));
      var after := UpdateLesson(st, id, LessonPatch(None, None, Some("completed"), None), now).0.lessons[i];
      after == st.lessons[i].(status := "completed", updated_at := now)
  {
  }
}

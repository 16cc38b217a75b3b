/** Properties of the test application's handlers that relate several
    calls: paging arithmetic, the id discipline and where `Object.assign`
    breaks it, and how create, list and delete interact. */
module FactoryProps {
  import opened Js
  import opened JsArray
  import opened MemoryStore
  import opened AppFactory

  // ---------------------------------------------------------------------
  // Paging

  /** A slice from a non-negative start: `len` records, or fewer at the
      end. */
  lemma SliceFrom<T>(s: seq<T>, start: nat, len: nat)
    ensures var r := Slice(s, start, start + len);
      && |r| == (if start >= |s| then 0 else if |s| - start < len then |s| - start else len)
      && forall k :: 0 <= k < |r| ==> r[k] == s[start + k]
  {
  }

  lemma ProductNonNegative(a: nat, b: nat)
    ensures a * b >= 0
  {
  }

  /** For `page, limit >= 1` the page is the run of records starting at
      `(page - 1) * limit`, `limit` long or cut short by the end. */
  lemma PageWindow<T>(s: seq<T>, page: int, limit: int)
    requires page >= 1 && limit >= 1
    ensures var l, start := Paginate(s, Int(page), Int(limit)), (page - 1) * limit;
      && |l.data| == (if start >= |s| then 0 else if |s| - start < limit then |s| - start else limit)
      && forall k :: 0 <= k < |l.data| ==> l.data[k] == s[start + k]
  {
    var start := (page - 1) * limit;
    ProductNonNegative(page - 1, limit);
    assert Paginate(s, Int(page), Int(limit)).data == Slice(s, start, start + limit);
    SliceFrom(s, start, limit);
  }

  /** Everything a listing of `s` answers for the raw `page` and `limit`
      parameters: the parsed values or their fallbacks 1 and 10, the
      count, `pages` as the ceiling of `total / limit`, and the records
      `slice` cuts out after ECMAScript's bound normalisation. For
      `page, limit >= 1` that is the run starting at `(page - 1) * limit`,
      `limit` long or cut short by the end. */
  ghost predicate Serves<T>(r: Listing<T>, s: seq<T>, pageParam: Num, limitParam: Num) {
    var from := (r.page - 1) * r.limit;
    var a, b := RelativeIndex(from, |s|), RelativeIndex(from + r.limit, |s|);
    && r.page == NumOr(pageParam, 1) && r.limit == NumOr(limitParam, 10)
    && r.total == |s| && r.pages == CeilDiv(|s|, r.limit)
    && |r.data| == (if a < b then b - a else 0)
    && (forall k :: 0 <= k < |r.data| ==> a + k < |s| && r.data[k] == s[a + k])
    && (r.page >= 1 && r.limit >= 1 ==>
          && |r.data| == (if from >= |s| then 0 else if |s| - from < r.limit then |s| - from else r.limit)
          && forall k :: 0 <= k < |r.data| ==> from + k < |s| && r.data[k] == s[from + k])
  }

  /** `Paginate` serves the page its parameters ask for. */
  lemma PageContents<T>(s: seq<T>, pageParam: Num, limitParam: Num)
    ensures Serves(Paginate(s, pageParam, limitParam), s, pageParam, limitParam)
  {
    PageSlice(s, pageParam, limitParam);
    if NumOr(pageParam, 1) >= 1 && NumOr(limitParam, 10) >= 1 {
      ParsedPageWindow(s, pageParam, limitParam);
    }
  }

  /** The listing's fields, and its data as the normalised `slice`. */
  lemma PageSlice<T>(s: seq<T>, pageParam: Num, limitParam: Num)
    ensures var r := Paginate(s, pageParam, limitParam);
      var from := (r.page - 1) * r.limit;
      var a, b := RelativeIndex(from, |s|), RelativeIndex(from + r.limit, |s|);
      && r.page == NumOr(pageParam, 1) && r.limit == NumOr(limitParam, 10)
      && r.total == |s| && r.pages == CeilDiv(|s|, r.limit)
      && |r.data| == (if a < b then b - a else 0)
      && (forall k :: 0 <= k < |r.data| ==> a + k < |s| && r.data[k] == s[a + k])
  {
    var page, limit := NumOr(pageParam, 1), NumOr(limitParam, 10);
    var from := (page - 1) * limit;
    assert Paginate(s, pageParam, limitParam) == Listing(Slice(s, from, from + limit), page, limit, |s|, CeilDiv(|s|, limit));
  }

  /** `PageWindow` for raw parameters that parse (or fall back) to
      `page, limit >= 1`. */
  lemma ParsedPageWindow<T>(s: seq<T>, pageParam: Num, limitParam: Num)
    requires NumOr(pageParam, 1) >= 1 && NumOr(limitParam, 10) >= 1
    ensures var page, limit := NumOr(pageParam, 1), NumOr(limitParam, 10);
      var r, from := Paginate(s, pageParam, limitParam), (page - 1) * limit;
      && |r.data| == (if from >= |s| then 0 else if |s| - from < limit then |s| - from else limit)
      && forall k :: 0 <= k < |r.data| ==> from + k < |s| && r.data[k] == s[from + k]
  {
    var r := Paginate(s, pageParam, limitParam);
    PageSlice(s, pageParam, limitParam);
    ProductNonNegative(r.page - 1, r.limit);
    NormalisedRun(s, r.data, (r.page - 1) * r.limit, r.limit);
  }

  /** A run cut out between the normalised bounds `from` and `from + len`,
      for `from >= 0`, starts at `from` itself. */
  lemma NormalisedRun<T>(s: seq<T>, run: seq<T>, from: int, len: int)
    requires from >= 0 && len >= 1
    requires var a, b := RelativeIndex(from, |s|), RelativeIndex(from + len, |s|);
      && |run| == (if a < b then b - a else 0)
      && forall k :: 0 <= k < |run| ==> a + k < |s| && run[k] == s[a + k]
    ensures |run| == (if from >= |s| then 0 else if |s| - from < len then |s| - from else len)
    ensures forall k :: 0 <= k < |run| ==> from + k < |s| && run[k] == s[from + k]
  {
  }

  /** Each list handler serves the page of its collection, or for lessons
      of the status selection, that the query asks for. */
  lemma ListLessonsPage(st: FactoryStore, q: LessonQuery)
    ensures Serves(ListLessons(st, q), SelectLessons(st.lessons, q.status), q.page, q.limit)
  {
    PageContents(SelectLessons(st.lessons, q.status), q.page, q.limit);
  }

  lemma ListStudentsPage(st: FactoryStore, q: PageQuery)
    ensures Serves(ListStudents(st, q), st.students, q.page, q.limit)
  {
    PageContents(st.students, q.page, q.limit);
  }

  lemma ListInstructorsPage(st: FactoryStore, q: PageQuery)
    ensures Serves(ListInstructors(st, q), st.instructors, q.page, q.limit)
  {
    PageContents(st.instructors, q.page, q.limit);
  }

  lemma ListReportsPage(st: FactoryStore, q: PageQuery)
    ensures Serves(ListReports(st, q), st.reports, q.page, q.limit)
  {
    PageContents(st.reports, q.page, q.limit);
  }

  lemma DivMod(i: nat, l: int)
    requires l >= 1
    ensures i == (i / l) * l + i % l && 0 <= i % l < l && i / l >= 0
  {
  }

  lemma ScaledLess(a: int, b: int, l: int, x: int)
    requires l >= 1 && a * l <= x < b * l
    ensures a < b
  {
    assert (b - a) * l == b * l - a * l;
  }

  /** Every record is on exactly the page its position says: record `i` is
      item `i % limit` of page `i / limit + 1`, and that page is within
      `pages`. */
  lemma RecordOnItsPage<T>(s: seq<T>, i: nat, limit: int)
    requires i < |s| && limit >= 1
    ensures var l := Paginate(s, Int(i / limit + 1), Int(limit));
      && i % limit < |l.data| && l.data[i % limit] == s[i]
      && i / limit + 1 <= l.pages
  {
    var q, m := i / limit, i % limit;
    DivMod(i, limit);
    RecordAt(s, q, m, limit);
    PageInRange(s, q, limit, i);
  }

  /** Item `m` of page `q + 1` is record `q * limit + m`. */
  lemma RecordAt<T>(s: seq<T>, q: nat, m: nat, limit: int)
    requires limit >= 1 && m < limit && q * limit + m < |s|
    ensures var l := Paginate(s, Int(q + 1), Int(limit));
      m < |l.data| && l.data[m] == s[q * limit + m]
  {
    PageWindow(s, q + 1, limit);
    assert (q + 1 - 1) * limit == q * limit;
  }

  /** A page that starts at or before some record is within `pages`. */
  lemma PageInRange<T>(s: seq<T>, q: nat, limit: int, i: nat)
    requires limit >= 1 && q * limit <= i < |s|
    ensures q + 1 <= Paginate(s, Int(q + 1), Int(limit)).pages
  {
    var l := Paginate(s, Int(q + 1), Int(limit));
    ScaledLess(q, l.pages, limit, i);
  }

  /** A missing, non-numeric or zero `page` and `limit` give the first ten
      records, with `pages` the number of tens needed. */
  lemma DefaultPaging<T>(s: seq<T>, pageParam: Num, limitParam: Num)
    requires pageParam.NaN? || pageParam == Int(0)
    requires limitParam.NaN? || limitParam == Int(0)
    ensures var l := Paginate(s, pageParam, limitParam);
      && l.page == 1 && l.limit == 10
      && l.data == (if |s| < 10 then s else s[..10])
      && (l.pages - 1) * 10 < |s| <= l.pages * 10
  {
  }

  /** Twelve stored students at the default limit fill page 1 with ten and
      page 2 with the last two, over two pages. */
  lemma TwelveRecords(st: FactoryStore)
    requires |st.students| == 12
    ensures var first := ListStudents(st, PageQuery(Int(1), Int(10)));
      |first.data| == 10 && first.total == 12 && first.pages == 2
    ensures ListStudents(st, PageQuery(Int(2), Int(10))).data == st.students[10..]
  {
    PageWindow(st.students, 2, 10);
  }

  // ---------------------------------------------------------------------
  // The lesson list

  /** Fifteen stored lessons at limit 10: page 1 holds the first ten, page
      2 the remaining five, over two pages. */
  lemma FifteenLessons(st: FactoryStore)
    requires |st.lessons| == 15
    ensures var first := ListLessons(st, LessonQuery(Int(1), Int(10), None));
      first.data == st.lessons[..10] && first.pages == 2
    ensures ListLessons(st, LessonQuery(Int(2), Int(10), None)).data == st.lessons[10..]
  {
    PageWindow(st.lessons, 1, 10);
    PageWindow(st.lessons, 2, 10);
  }

  /** Without a status the list is the stored lessons in insertion order:
      a page large enough holds all of them, unsorted. */
  lemma UnfilteredInInsertionOrder(st: FactoryStore, q: LessonQuery, limit: int)
    requires !TruthyStr(q.status)
    requires q.page == Int(1) && q.limit == Int(limit) && limit >= |st.lessons| && limit >= 1
    ensures ListLessons(st, q).data == st.lessons
  {
    PageWindow(st.lessons, 1, limit);
  }

  /** A status filter selects exactly the lessons with that status, in
      insertion order: on a page large enough, a lesson is listed if and
      only if its status matches, and the listed lessons keep the order in
      which they were stored. */
  lemma StatusFilterExact(st: FactoryStore, q: LessonQuery, limit: int)
    requires TruthyStr(q.status)
    requires q.page == Int(1) && q.limit == Int(limit) && limit >= |st.lessons| && limit >= 1
    ensures var data := ListLessons(st, q).data;
      && data == Filter(st.lessons, StatusIs(q.status.value))
      && (forall k :: 0 <= k < |st.lessons| ==> (st.lessons[k] in data <==> st.lessons[k].status == q.status.value))
  {
    var f := Filter(st.lessons, StatusIs(q.status.value));
    PageWindow(f, 1, limit);
    FilterMembers(st.lessons, StatusIs(q.status.value));
  }

  /** `total` and `pages` depend on the status filter only, never on which
      page is asked for. */
  lemma TotalIgnoresPage(st: FactoryStore, q: LessonQuery, page: Num)
    ensures ListLessons(st, q).total == ListLessons(st, q.(page := page)).total
    ensures ListLessons(st, q).pages == ListLessons(st, q.(page := page)).pages
  {
  }

  // ---------------------------------------------------------------------
  // Ids

  /** The requests that cannot break the id discipline: everything except
      an update whose body carries an `id` other than the lesson's own. */
  predicate KeepsIds(req: Request) {
    req.PutLesson? && req.patch.id.Some? ==> req.lessonId == Int(req.patch.id.value)
  }

  /** Every request that does not rewrite an id keeps every collection well
      keyed. */
  lemma StepKeepsValid(st: FactoryStore, req: Request)
    requires Valid(st)
    requires KeepsIds(req)
    ensures Valid(Step(st, req))
  {
    if req.PostLesson? || req.PutLesson? || req.RemoveLesson? {
      LessonRequestKeepsValid(st, req);
    } else {
      OtherRequestKeepsValid(st, req);
    }
  }

  lemma LessonRequestKeepsValid(st: FactoryStore, req: Request)
    requires Valid(st) && KeepsIds(req)
    requires req.PostLesson? || req.PutLesson? || req.RemoveLesson?
    ensures Valid(Step(st, req))
  {
    match req
    case PostLesson(b, now) =>
      var r := CreateLesson(st, b, now);
      if r.1.Ok? {
        AppendFresh(st.lessons, LessonId, st.nextIds.lessons, r.1.value);
      }
    case PutLesson(id, p) =>
      var i := FindIndex(st.lessons, IdIs(id));
      if i != -1 {
        ReplaceKeepsKeys(st.lessons, LessonId, st.nextIds.lessons, i, Assign(st.lessons[i], p));
      }
    case RemoveLesson(id) =>
      var i := FindIndex(st.lessons, IdIs(id));
      if i != -1 {
        RemoveKeepsKeys(st.lessons, LessonId, st.nextIds.lessons, i);
      }
  }

  lemma OtherRequestKeepsValid(st: FactoryStore, req: Request)
    requires Valid(st)
    requires !(req.PostLesson? || req.PutLesson? || req.RemoveLesson?)
    ensures Valid(Step(st, req))
  {
    match req
    case PostStudent(b, now) =>
      var r := CreateStudent(st, b, now);
      if r.1.Ok? {
        AppendFresh(st.students, StudentId, st.nextIds.students, r.1.value);
      }
    case PostInstructor(b, now) =>
      var r := CreateInstructor(st, b, now);
      if r.1.Ok? {
        AppendFresh(st.instructors, InstructorId, st.nextIds.instructors, r.1.value);
      }
    case PostReport(b, now) =>
      var r := CreateReport(st, b, now);
      if r.1.Ok? {
        AppendFresh(st.reports, ReportId, st.nextIds.reports, r.1.value);
      }
    case _ =>
  }

  lemma {:induction false} RunKeepsValid(st: FactoryStore, reqs: seq<Request>)
    requires Valid(st)
    requires forall k :: 0 <= k < |reqs| ==> KeepsIds(reqs[k])
    ensures Valid(Run(st, reqs))
    decreases |reqs|
  {
    if |reqs| > 0 {
      StepKeepsValid(st, reqs[0]);
      RunKeepsValid(Step(st, reqs[0]), reqs[1..]);
    }
  }

  /** The store the factory starts with is well keyed, and so is every
      store a sequence of requests leads it to, as long as no update
      carries an `id`. */
  lemma ValidFromStartup(reqs: seq<Request>)
    requires forall k :: 0 <= k < |reqs| ==> KeepsIds(reqs[k])
    ensures Valid(Empty<Student, Instructor, Lesson, Report>())
    ensures Valid(Run(Empty(), reqs))
  {
    var e: FactoryStore := Empty();
    assert Valid(e);
    RunKeepsValid(e, reqs);
  }

  /** The update copies the body's `id` too: with lessons 1 and 2 stored,
      `PUT /api/lessons/2` with body `{ id: 1 }` leaves two lessons with
      id 1, and the first of them shadows the other for every later
      update or delete by id. */
  lemma AssignCanDuplicateIds()
    ensures var a, b := Lesson(1, 1, 1, "2024-01-01", 60, "scheduled", "", 0),
                        Lesson(2, 1, 1, "2024-01-02", 60, "scheduled", "", 0);
      var st := Store([], [], [a, b], [], Counters(1, 1, 3, 1));
      var p := LessonPatch(Some(1), None, None, None, None, None, None, None);
      var after := UpdateLesson(st, Int(2), p).0;
      && Valid(st)
      && UpdateLesson(st, Int(2), p).1.Ok?
      && after.lessons[0].id == 1 && after.lessons[1].id == 1
      && !Valid(after)
      && UpdateLesson(after, Int(2), p).1.NotFound?
  {
    var a, b := Lesson(1, 1, 1, "2024-01-01", 60, "scheduled", "", 0),
                Lesson(2, 1, 1, "2024-01-02", 60, "scheduled", "", 0);
    var st := Store([], [], [a, b], [], Counters(1, 1, 3, 1));
    var p := LessonPatch(Some(1), None, None, None, None, None, None, None);
    assert FindIndex(st.lessons, IdIs(Int(2))) == 1;
    var after := UpdateLesson(st, Int(2), p).0;
    assert after.lessons == [a, b.(id := 1)];
  }

  /** Counters never go down: only a successful create moves one, by one. */
  lemma StepCountersGrow(st: FactoryStore, req: Request)
    ensures CountersLe(st.nextIds, Step(st, req).nextIds)
  {
  }

  lemma {:induction false} RunCountersGrow(st: FactoryStore, reqs: seq<Request>)
    ensures CountersLe(st.nextIds, Run(st, reqs).nextIds)
    decreases |reqs|
  {
    if |reqs| > 0 {
      StepCountersGrow(st, reqs[0]);
      RunCountersGrow(Step(st, reqs[0]), reqs[1..]);
    }
  }

  /** The counter never hands out an id twice, whatever the requests in
      between, deletes and updates included. */
  lemma LessonIdsNeverReused(st: FactoryStore, b1: LessonBody, now1: int, reqs: seq<Request>,
                             b2: LessonBody, now2: int)
    requires CreateLesson(st, b1, now1).1.Ok?
    requires CreateLesson(Run(CreateLesson(st, b1, now1).0, reqs), b2, now2).1.Ok?
    ensures CreateLesson(st, b1, now1).1.value.id < CreateLesson(Run(CreateLesson(st, b1, now1).0, reqs), b2, now2).1.value.id
  {
    RunCountersGrow(CreateLesson(st, b1, now1).0, reqs);
  }

  /** The counters are independent: in a fresh store the first student and
      the first instructor both get id 1, and a lesson booked between them
      gets id 1 as well, with the default status. */
  lemma FirstIdsAreOne(sb: StudentBody, ib: InstructorBody, lb: LessonBody, now: int)
    requires TruthyStr(sb.name) && TruthyStr(sb.email)
    requires TruthyStr(ib.name) && TruthyStr(ib.email)
    requires TruthyInt(lb.studentId) && TruthyInt(lb.instructorId) && TruthyStr(lb.date) && TruthyInt(lb.duration)
    requires !TruthyStr(lb.status)
    ensures var (st1, s) := CreateStudent(Empty(), sb, now);
      var (st2, i) := CreateInstructor(st1, ib, now);
      var (st3, l) := CreateLesson(st2, lb, now);
      && s.Ok? && i.Ok? && l.Ok?
      && s.value.id == 1 && i.value.id == 1 && l.value.id == 1
      && l.value.status == "scheduled"
      && st3.nextIds == Counters(2, 2, 2, 1)
      && ListLessons(st3, LessonQuery(NaN, NaN, None)).data == [l.value]
  {
    var (st1, s) := CreateStudent(Empty(), sb, now);
    var (st2, i) := CreateInstructor(st1, ib, now);
    var (st3, l) := CreateLesson(st2, lb, now);
    DefaultPaging(st3.lessons, NaN, NaN);
  }

  // ---------------------------------------------------------------------
  // Create and delete together

  /** Deleting the lesson just created answers it back and restores the
      lessons, but not the counter: its id is gone for good. */
  lemma CreateThenDelete(st: FactoryStore, b: LessonBody, now: int)
    requires Valid(st)
    requires CreateLesson(st, b, now).1.Ok?
    ensures var (st1, out) := CreateLesson(st, b, now);
      var (st2, del) := DeleteLesson(st1, Int(out.value.id));
      && del == Ok(out.value)
      && st2.lessons == st.lessons
      && st2.nextIds.lessons == st.nextIds.lessons + 1
  {
    var (st1, out) := CreateLesson(st, b, now);
    var id := Int(out.value.id);
    var i := FindIndex(st1.lessons, IdIs(id));
    assert i == |st.lessons| by {
      assert IdIs(id)(st1.lessons[|st.lessons|]);
      forall k | 0 <= k < |st.lessons| ensures !IdIs(id)(st1.lessons[k]) {
        assert st1.lessons[k] == st.lessons[k];
      }
    }
    DeleteRemovesFirstMatch(st1, id);
    assert st1.lessons[..i] == st.lessons;
  }

  /** Deleting an existing lesson in a well-keyed store removes the only
      lesson with that id: deleting it again finds nothing. */
  lemma DeleteIsFinal(st: FactoryStore, id: Num)
    requires Valid(st)
    requires DeleteLesson(st, id).1.Ok?
    ensures DeleteLesson(DeleteLesson(st, id).0, id).1.NotFound?
  {
    var st' := DeleteLesson(st, id).0;
    DeleteRemovesFirstMatch(st, id);
    var i := FindIndex(st.lessons, IdIs(id));
    forall k | 0 <= k < |st'.lessons| ensures !IdIs(id)(st'.lessons[k]) {
      var k' := if k < i then k else k + 1;
      assert st'.lessons[k] == st.lessons[k'] && k' != i;
      UniqueId(st.lessons, LessonId, st.nextIds.lessons, k', i);
    }
  }
}

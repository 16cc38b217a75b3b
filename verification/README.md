# Driving-school record store, modelled in Dafny

The system is a small HTTP service for a driving school. It keeps four
in-memory collections: students, instructors, lessons and reports. Each
collection has its own id counter. Two route tables are modelled, and each
builds and works on its own store of that shape:

- `index.js` is the production server. Its fields are snake_case. Lists
  are filtered and sorted. The lesson, student and instructor lists are
  then windowed by `offset`/`limit`, which default to 0 and 50; the report
  list is answered whole. A list with no filter sorts the stored
  collection itself, because `Array.prototype.sort` works in place.
  Lesson updates only touch whitelisted fields.
- `tests/unit/app-factory.js` is the application the unit tests build.
  Its fields are camelCase. Lists are paged by `page`/`limit`, which fall
  back to 1 and 10, and they report `pages = ceil(total / limit)`. Lists
  never sort. A lesson update copies the whole request body onto the
  lesson with `Object.assign`.

Each handler becomes a pure function of the store and the parsed request.
Every `index.js` handler, and every factory handler that creates, updates
or deletes, returns the new store together with an outcome: `Ok`,
`ValidationError` (HTTP 400) or `NotFound` (HTTP 404). The factory's list
handlers cannot fail and do not change the store, so they return only the
listing they answer. Creation times are
passed in as a parameter `now`. The ordering `localeCompare` gives on first
names is passed in as a parameter `collate`, which must be a total
preorder.

Modules:

- `Js` (`js.dfy`): the JavaScript conventions the handlers rely on.
  - absent fields and truthiness;
  - `x || d`;
  - the NaN-or-integer result of `parseInt`;
  - `Math.ceil(t / l)`.
- `JsArray` (`js_array.dfy`): `filter`, `slice` with ECMAScript's index
  rules, `findIndex`, `splice`, and a stable sort, plus the lemmas about
  them.
- `MemoryStore` (`memory_store.dfy`): the store shape, the outcome type,
  and the id discipline `WellKeyed`. A collection is well keyed when every
  id lies in `[1, counter)` and no id occurs twice. The module proves that
  appending, removing, replacing and sorting preserve it.
- `Server` and `ServerProps` (`server.dfy`, `server_props.dfy`): the
  `index.js` route table and the properties relating its handlers.
- `AppFactory` and `FactoryProps` (`app_factory.dfy`,
  `app_factory_props.dfy`): the `tests/unit/app-factory.js` route table
  and its properties.

The two route tables differ in ways the model keeps:

- `index.js` answers a create with the new id and a message, not with the
  stored record. `Server.Create*` therefore return the id. The factory
  answers with the stored record.
- `index.js` answers an update or a delete with a message only.
- Non-numeric pagination parameters do not fall back to their defaults in
  `index.js`: `parseInt` yields NaN, and the page comes back empty
  (`ServerProps.NonNumericPagingIsEmpty`). In `app-factory.js` they do
  fall back, through `|| 1` and `|| 10` (`FactoryProps.DefaultPaging`).
- `index.js` keeps a lesson's `created_at` on update
  (`Server.UpdateLesson`). The factory's `Object.assign` copies
  `createdAt` and even `id` when the body carries them
  (`AppFactory.UpdateLesson`). A copied `id` can make two lessons share
  an id (`FactoryProps.AssignCanDuplicateIds`).
- `index.js` tests a body field's truthiness on the value as sent and only
  then applies `parseInt`, so the string `"0"` passes the test and stores
  0. The model keeps both: a raw body field (`Js.Raw`) carries its
  truthiness and its parsed value.

## Model

| member | source | states |
|---|---|---|
| `MemoryStore.AppendFresh` | index.js:168-179 | Appending a record with the counter's id and bumping the counter keeps a well-keyed collection well keyed. |
| `MemoryStore.RemoveKeepsKeys` | index.js:229 | Splicing one record out keeps a collection well keyed. |
| `MemoryStore.ReplaceKeepsKeys` | index.js:204-208 | Overwriting a record in place with one that has the same id keeps a collection well keyed. |
| `MemoryStore.SortKeepsKeys` | index.js:144 | Sorting a collection in place keeps it well keyed. |
| `MemoryStore.UniqueId` | index.js:223 | In a well-keyed collection, two different positions hold different ids, so the first record `findIndex` finds with an id is the only one. |
| `Js.NumOr` | tests/unit/app-factory.js:51-52 | `parseInt(p) \|\| d` is `p` when `p` parses to a non-zero integer, and the default `d` otherwise (NaN or 0); with a non-zero default it is never 0. |
| `Js.CeilDiv` | tests/unit/app-factory.js:66 | `Math.ceil(total / limit)` meets the defining inequalities of the ceiling, for a positive divisor and for a negative one. |
| `JsArray.Filter` | index.js:135 | `filter` never lengthens the array. |
| `JsArray.FilterMembers` | index.js:134-142 | `filter` keeps exactly the elements satisfying the predicate: every kept element satisfies it, and every satisfying element is kept. |
| `JsArray.FilterAppend` | tests/unit/app-factory.js:88 | Filtering distributes over appending, so a pushed record only adds its own contribution to a filtered list. |
| `JsArray.FilterFilter` | index.js:134-142 | Filtering twice in sequence equals filtering once by the conjunction of the two predicates. |
| `JsArray.FilterExt` | index.js:134-142 | Two predicates that agree on every element give the same filtered list. |
| `JsArray.FilterKeepsAll` | index.js:132 | A predicate every element satisfies leaves the array unchanged. |
| `JsArray.ConditionalFilter` | index.js:134-136 | `if (x) filtered = filtered.filter(p)` equals one filter by "p when x is set, anything otherwise". |
| `JsArray.ConditionalFilterStep` | index.js:137-142 | Appending one more conditional filter to a chain equals filtering the original list once by the conjoined predicate. |
| `JsArray.Slice` | index.js:147 | `slice(start, end)` has length `to - from` (or 0), and its k-th element is the original's element `from + k`, where `from` and `to` are the bounds after ECMAScript's normalisation (`RelativeIndex`: clamped into `[0, length]`, a negative bound counting from the end). |
| `JsArray.FindIndex` | index.js:223 | `findIndex` is -1 exactly when no element matches; otherwise its result matches and no earlier element does. |
| `JsArray.RemoveAt` | index.js:229 | `splice(i, 1)` shortens the array by one, keeps the elements before `i`, shifts those after it, and removes exactly one copy of element `i`. |
| `JsArray.ReplaceAt` | index.js:204-208 | Mutating the found record in place changes position `i` only. |
| `JsArray.Insert` | index.js:144 | One insertion step of the sort adds exactly the inserted element. |
| `JsArray.SortBy` | index.js:144 | The sort is a permutation of its input. |
| `JsArray.SortFilterMembers` | index.js:144 | Sorting a filtered list keeps its length, and every element still comes from the source and satisfies the filter. |
| `JsArray.InsertSorted` | index.js:144 | Inserting into a sorted list keeps it sorted, for any total preorder. |
| `JsArray.SortSorted` | index.js:144 | The sort's output is ordered by the comparator, for any total preorder. |
| `JsArray.InsertStable` | index.js:144 | An insertion step keeps the relative order of the elements in every class of equal keys. |
| `JsArray.SortStable` | index.js:144 | The sort is stable: within every class of equal keys, the output keeps the input order. |
| `Server.Window` | index.js:131-147 | The `offset`/`limit` window, with defaults 0 and 50, runs from `from` (the normalised `parseInt(offset)`) to `to` (the normalised `offset_int + limit_int`): it has `to - from` elements, or none, and its k-th element is the list's element `from + k`. |
| `Server.NewerFirstIsTotal` | index.js:144 | "Later date first" is a total preorder, so the sort's guarantees apply. |
| `Server.FilterLessonsMatches` | index.js:134-142 | The three conditional filters, applied one after the other (`Server.FilterLessons`), select exactly the lessons matching every supplied filter, in stored order. |
| `Server.ListLessons` | index.js:129-154 | Every listed lesson is stored and matches all filters. The page is newest-first and `count` is its length. `total` counts every matching lesson. With no filter the stored lessons become sorted, and with a filter the store is untouched; either way the store keeps the same lessons. Which lessons the page holds is stated by `ServerProps.ListLessonsPage`. |
| `Server.WindowOfSorted` | index.js:144-147 | Any window of a sorted list is sorted. |
| `Server.ListStudents` | index.js:243-262 | Listed students are stored and match the status filter. The page is ordered by first name under the collation, and `total` counts the matching students. Without a status, the stored students become sorted, as a permutation of the originals. Which students the page holds is stated by `ServerProps.ListStudentsPage`, and that students with equivalent names keep their order, in the answer and in the store, by `ServerProps.SameStudentNameKeepsOrder`. |
| `Server.ListInstructors` | index.js:302-321 | As for students, on the instructors; the page contents are stated by `ServerProps.ListInstructorsPage` and the order among equivalent names by `ServerProps.SameInstructorNameKeepsOrder`. |
| `Server.FilterReportsMatches` | index.js:366-377 | The four conditional filters, applied one after the other (`Server.FilterReports`), select exactly the reports of the kind, for the student, starting no earlier than `period_start` and ending no later than `period_end`. |
| `Server.ListReports` | index.js:361-385 | The answer is exactly the matching reports, as a multiset, newest first. Unfiltered, the stored reports become sorted; filtered, the store is untouched. Reports created at the same instant keep their order (`ServerProps.SameCreatedKeepsOrder`). |
| `Server.CreateLesson` | index.js:157-190 | Rejected exactly when a required field is falsy as sent, and then the store does not change. On success the new lesson gets the old counter, the counter rises by one, and exactly one record is appended: the date as given, the ids and duration as `parseInt` makes them (NaN included), status "scheduled", and notes null unless truthy. |
| `Server.CreateStudent` | index.js:265-295 | Rejected exactly when a name is missing, with nothing allocated. On success one active student is appended under the students counter, with the optional fields nulled unless truthy. |
| `Server.CreateInstructor` | index.js:324-354 | As for students, under the instructors counter. |
| `Server.CreateReport` | index.js:388-418 | Rejected exactly when type or a period bound is missing. On success one report is appended under the reports counter; `student_id` is null unless truthy as sent, and then what `parseInt` makes of it; content defaults to `{}`. |
| `Server.UpdateLesson` | index.js:193-216 | NotFound exactly when no lesson has the id, and then the store is unchanged. Otherwise only the first lesson with the id changes. The new lesson is `Server.Patched`: id, participants and creation time stay; date, duration and status change only when truthy as sent (duration to its `parseInt` value); notes change when supplied; `updated_at` becomes `now`. |
| `Server.DeleteLesson` | index.js:219-236 | NotFound exactly when no lesson has the id, and then the store is unchanged. Otherwise exactly one lesson goes, and no counter moves. |
| `Server.DeleteRemovesFirstMatch` | index.js:223-229 | The lesson removed is the first one with the id, and the rest keep their order. |
| `ServerProps.StepKeepsValid` | index.js:45-56 | Every request keeps every collection well keyed. |
| `ServerProps.RunKeepsValid` | index.js:50-55 | Any sequence of requests from a well-keyed store keeps it well keyed. |
| `ServerProps.ValidFromStartup` | index.js:45-56 | The store a fresh process starts with is well keyed, and so is the store after any sequence of requests. |
| `ServerProps.StepCountersGrow` | index.js:169 | No request lowers a counter. |
| `ServerProps.RunCountersGrow` | index.js:50-55 | Counters never go down over any sequence of requests, deletes included. |
| `ServerProps.LessonIdsNeverReused` | index.js:229 | A later successful lesson create always gets a larger id than an earlier one, whatever was deleted in between. |
| `ServerProps.CreatedLessonIdIsFresh` | index.js:169 | In a well-keyed store, a newly issued lesson id belongs to no stored lesson. |
| `ServerProps.ListTotalIgnoresPaging` | index.js:149 | `total` does not depend on `offset` or `limit`. |
| `ServerProps.ListCount` | index.js:145-149 | For numeric `offset, limit >= 0`, `count = max(0, min(limit, total - offset))`. |
| `ServerProps.ListLessonsPage` | index.js:131-149 | The lesson page is the run of the newest-first matching lessons that the window cuts out: its length is `to - from` (or 0) and its k-th lesson is the sorted list's lesson `from + k`. The helper `ServerProps.LessonsData` links the handler to the window. |
| `ServerProps.ListStudentsPage` | index.js:243-255 | The student page is the run, cut out by the window, of the status-matching students ordered by first name. The helper `ServerProps.StudentsData` links the handler to the window. |
| `ServerProps.ListInstructorsPage` | index.js:302-314 | As for students, on the instructors, through `ServerProps.InstructorsData`. |
| `ServerProps.ListDefaultWindow` | index.js:131-149 | Without `offset` and `limit`, the page is exactly the first 50 of the newest-first matching lessons, or all of them if there are fewer, and `total` counts them all. |
| `ServerProps.NonNumericPagingIsEmpty` | index.js:145-147 | A non-numeric `offset` or `limit` yields an empty page. |
| `ServerProps.SameDateKeepsOrder` | index.js:144 | After an unfiltered list, lessons on the same date keep their previous relative order in the store. |
| `ServerProps.SameCreatedKeepsOrder` | index.js:364-379 | Reports created at the same instant are answered in their stored order among the matches, and after an unfiltered list they are stored in the order they had before. |
| `ServerProps.SameStudentNameKeepsOrder` | index.js:244-252 | Students whose first names the collation ranks equal keep their stored order in the sorted list the page is cut from, and after a list without a status they keep it in the store. |
| `ServerProps.SameInstructorNameKeepsOrder` | index.js:303-311 | As for students, on the instructors. |
| `ServerProps.UnfilteredTotal` | index.js:132 | With no filter, `total` is the number of stored lessons. |
| `ServerProps.CreateBumpsTotal` | index.js:179 | A successful create raises a list's total by one if the new lesson matches its filters, and by nothing otherwise. |
| `ServerProps.DeleteDropsTotal` | index.js:223-229 | Deleting drops the unfiltered total by exactly one, and deleting the same id again is NotFound. |
| `ServerProps.DeleteIsFinal` | index.js:223-229 | In a well-keyed store, deleting the same id a second time is NotFound: the lesson removed was the only one with its id. |
| `ServerProps.CreateThenDelete` | index.js:219-229 | Deleting the lesson just created restores the lessons, but the counter stays advanced. |
| `ServerProps.CompleteLesson` | index.js:204-208 | The update `{status: "completed"}` changes the lesson's status and `updated_at` only. |
| `AppFactory.Paginate` | tests/unit/app-factory.js:50-66 | Page and limit are the parsed parameters when those are non-zero numbers, and 1 and 10 otherwise, so never 0. `total` is the list length. For a positive limit, `pages` is the ceiling of `total / limit`, and a page holds at most `limit` records, all from the list. |
| `AppFactory.SelectLessons` | tests/unit/app-factory.js:54-58 | Without a status the selection is the stored lessons themselves. With one, every selected lesson is stored and has the status, and every stored lesson with the status is selected. |
| `AppFactory.ListLessons` | tests/unit/app-factory.js:50-68 | `total` is the number of lessons with the requested status, or of all lessons. Every listed lesson is stored and has that status. The page served, and its `page`, `limit` and `pages`, are stated by `FactoryProps.ListLessonsPage`. |
| `AppFactory.ListStudents` | tests/unit/app-factory.js:120-132 | `total` is the number of students, and the page holds only stored students. The page served, and its `page`, `limit` and `pages`, are stated by `FactoryProps.ListStudentsPage`. |
| `AppFactory.ListInstructors` | tests/unit/app-factory.js:160-172 | `total` is the number of instructors, and the page holds only stored instructors. The page served is stated by `FactoryProps.ListInstructorsPage`. |
| `AppFactory.ListReports` | tests/unit/app-factory.js:200-212 | `total` is the number of reports, and the page holds only stored reports. The page served is stated by `FactoryProps.ListReportsPage`. |
| `AppFactory.CreateLesson` | tests/unit/app-factory.js:70-90 | Rejected with "Missing required fields" exactly when a required field is falsy, and then the store does not change. On success the returned lesson is the one appended, with the old counter as id, the counter up by one, status "scheduled" and notes "" unless truthy. |
| `AppFactory.CreateStudent` | tests/unit/app-factory.js:134-154 | Rejected exactly when name or email is missing, with nothing allocated. On success the student is appended under its own counter with phone "", licence status "pending" unless given, and no lessons or cost. |
| `AppFactory.CreateInstructor` | tests/unit/app-factory.js:174-194 | Rejected exactly when name or email is missing. On success the instructor is appended under its own counter with specialization "standard" unless given, and no lessons or rating. |
| `AppFactory.CreateReport` | tests/unit/app-factory.js:214-233 | Rejected exactly when type or a date is missing. On success the report is appended as generated, in format "json" unless given. |
| `AppFactory.UpdateLesson` | tests/unit/app-factory.js:92-102 | NotFound exactly when no lesson has the id (a NaN id matches nothing), and then the store is unchanged. Otherwise only the first lesson with the id changes, to `AppFactory.Assign` of it and the body: every field the body carries overwrites it, including `id` and `createdAt`, and every other field keeps its value. The updated lesson is answered back. |
| `AppFactory.DeleteLesson` | tests/unit/app-factory.js:104-114 | NotFound exactly when no lesson has the id, and then the store is unchanged. Otherwise one lesson goes and is answered back, and no counter moves. |
| `AppFactory.DeleteRemovesFirstMatch` | tests/unit/app-factory.js:106-112 | The lesson answered back is the first one with the id, and the rest keep their order. |
| `FactoryProps.SliceFrom` | tests/unit/app-factory.js:62 | A slice from a non-negative start holds the next `len` records, or fewer at the end. |
| `FactoryProps.PageContents` | tests/unit/app-factory.js:50-66 | `Paginate` serves what its raw parameters ask for (`FactoryProps.Serves`): `page` and `limit` are the parsed values or 1 and 10; `total` is the length and `pages` the ceiling of `total / limit`; the data is what `slice((page - 1) * limit, page * limit)` cuts out after bound normalisation, which for `page, limit >= 1` is the run from `(page - 1) * limit`, `limit` long or cut short by the end. |
| `FactoryProps.PageSlice` | tests/unit/app-factory.js:50-66 | For any raw parameters the listing reports the parsed page and limit or their fallbacks, the count and the ceiling page count, and its data is the `slice` between the normalised bounds `(page - 1) * limit` and `page * limit`. |
| `FactoryProps.ParsedPageWindow` | tests/unit/app-factory.js:50-62 | For raw parameters that parse or fall back to `page, limit >= 1`, the page is the run of records from `(page - 1) * limit`, `limit` long or cut short by the end. |
| `FactoryProps.ListLessonsPage` | tests/unit/app-factory.js:50-66 | `GET /api/lessons` serves, in the sense of `FactoryProps.Serves`, the requested page of the status selection. |
| `FactoryProps.ListStudentsPage` | tests/unit/app-factory.js:120-130 | `GET /api/students` serves the requested page of the stored students, in insertion order. |
| `FactoryProps.ListInstructorsPage` | tests/unit/app-factory.js:160-170 | `GET /api/instructors` serves the requested page of the stored instructors, in insertion order. |
| `FactoryProps.ListReportsPage` | tests/unit/app-factory.js:200-210 | `GET /api/reports` serves the requested page of the stored reports, in insertion order. |
| `FactoryProps.PageWindow` | tests/unit/app-factory.js:61-62 | For `page, limit >= 1`, the page is the run of records starting at `(page - 1) * limit`, `limit` long or cut short by the end. |
| `FactoryProps.RecordOnItsPage` | tests/unit/app-factory.js:61-66 | Record `i` is item `i % limit` of page `i / limit + 1`, and that page is at most `pages`. |
| `FactoryProps.DefaultPaging` | tests/unit/app-factory.js:51-52 | A missing, non-numeric or zero page and limit give page 1 of size 10: the first ten records. |
| `FactoryProps.TwelveRecords` | tests/unit/app-factory.js:120-132 | With twelve stored students, the student list at limit 10 gives 10 items over 2 pages, and page 2 holds the last two. |
| `FactoryProps.FifteenLessons` | tests/unit/app-factory.js:50-68 | Fifteen lessons at limit 10: page 1 holds the first ten, over 2 pages, and page 2 holds the remaining five. |
| `FactoryProps.UnfilteredInInsertionOrder` | tests/unit/app-factory.js:55-62 | Without a status, a large enough first page is the stored lessons in insertion order; nothing is sorted. |
| `FactoryProps.StatusFilterExact` | tests/unit/app-factory.js:56-58 | With a status, a large enough first page is the status filter of the stored lessons, in insertion order. A stored lesson is listed if and only if its status matches. |
| `FactoryProps.TotalIgnoresPage` | tests/unit/app-factory.js:60-66 | `total` and `pages` do not depend on the requested page. |
| `FactoryProps.StepKeepsValid` | tests/unit/app-factory.js:14-19 | Every request whose body does not rewrite a lesson's id keeps every collection well keyed. |
| `FactoryProps.RunKeepsValid` | tests/unit/app-factory.js:9-20 | Any sequence of such requests keeps a well-keyed store well keyed. |
| `FactoryProps.ValidFromStartup` | tests/unit/app-factory.js:9-20 | The store the factory starts with is well keyed, and so is the store after any sequence of such requests. |
| `FactoryProps.AssignCanDuplicateIds` | tests/unit/app-factory.js:100 | With lessons 1 and 2 stored, `PUT /api/lessons/2 {id: 1}` succeeds and leaves two lessons with id 1. The store is no longer well keyed, and lesson 2 can no longer be found. |
| `FactoryProps.StepCountersGrow` | tests/unit/app-factory.js:78 | No request lowers a counter. |
| `FactoryProps.RunCountersGrow` | tests/unit/app-factory.js:14-19 | Counters never go down over any sequence of requests. |
| `FactoryProps.LessonIdsNeverReused` | tests/unit/app-factory.js:78 | A later successful lesson create always gets a larger id than an earlier one, whatever came between. |
| `FactoryProps.FirstIdsAreOne` | tests/unit/app-factory.js:14-19 | From a fresh store, the first student, the first instructor and the first lesson all get id 1. The lesson is "scheduled" by default, and the default lesson list then holds exactly that lesson. |
| `FactoryProps.CreateThenDelete` | tests/unit/app-factory.js:104-113 | Deleting the lesson just created answers it back and restores the lessons, but the counter stays advanced. |
| `FactoryProps.DeleteIsFinal` | tests/unit/app-factory.js:106-110 | In a well-keyed store, deleting the same id a second time is NotFound. |

## Left out

- The Express plumbing is not modelled: JSON and URL-encoded body parsing, static files, the home page, `/health`, `/ready`, the request-metrics middleware, the logger, the SLO bookkeeping, the 404 and global error handlers, and server start and shutdown. None of it reads or writes the store.
- `healthcheck.js` and the configuration files are not part of this model.
- The `catch` branches returning 500 are not modelled. With the value types the model admits, the modelled handlers do not throw.
- Names are modelled as strings. A truthy `first_name` of another JSON type, such as the number 5, passes the create check (index.js:268, index.js:327), and a later list that sorts it against another record calls `localeCompare` on a non-string: that throws a TypeError, answered with a 500. This failure is not modelled.
- Creation and update times are not read from a clock. They are a parameter `now`, and their ISO-8601 formatting is not modelled.
- Dates in `index.js` are modelled as instants (integers), not strings, and a date field is present exactly when it is truthy. An unparsable date, which `new Date` turns into NaN and which makes the comparisons false, is not modelled.
- Body fields that `index.js` passes through `parseInt` are modelled by `Js.Raw`: whether the value as sent is truthy, and what `parseInt` makes of it (an integer or NaN). Which JSON values give which pair is not modelled; fractional results are excluded, since `parseInt` never returns one.
- The `student_id` and `instructor_id` query filters are modelled as the number loose `==` converts the query text to, or NaN; that conversion itself, and a parameter repeated into an array, are not modelled.
- Body fields in `app-factory.js` keep the JSON type they are sent with: ids and duration as numbers, everything else as strings. Values of another JSON type are not modelled.
- Numbers are unbounded integers. Fractional or very large (beyond 2^53) `page`, `limit` and `offset` values and their floating-point arithmetic are not modelled, and neither is the sign of a zero `Math.ceil` result.
- `localeCompare` is modelled as an arbitrary total preorder `collate` on first names, since the real collation depends on the runtime's locale data.
- Object.assign: body keys outside the lesson's fields, and values of another JSON type (a string id, a null date), are not modelled. The patch is a record with one optional field per lesson field.
- Report `content` in `index.js` is modelled as a string defaulting to the text `{}`, not as a JSON object.
- FactoryProps.StepKeepsValid: requires that an update body carry no `id`, or the lesson's own id. The handler itself accepts any `id`, and `FactoryProps.AssignCanDuplicateIds` shows what happens then.
- Server.ListStudents: assumes `collate` is a total preorder; a collation that is not one is not modelled.

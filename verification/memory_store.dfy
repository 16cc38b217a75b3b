/** The in-memory record store shared by both route tables: four record
    collections and one id counter per collection, plus the result shape
    of a handler and the id discipline the counters are meant to keep. */
module MemoryStore {
  import opened JsArray

  /** `nextIds`: the id the next created record of each collection gets. */
  datatype Counters = Counters(students: int, instructors: int, lessons: int, reports: int)

  /** `store`, generic in the record type of each collection, since the two
      route tables store records of different shapes. */
  datatype Store<S, I, L, R> = Store(
    students: seq<S>,
    instructors: seq<I>,
    lessons: seq<L>,
    reports: seq<R>,
    nextIds: Counters)

  /** The store a freshly started process holds: nothing stored, every
      counter at 1. */
  function Empty<S, I, L, R>(): (st: Store<S, I, L, R>)
    ensures st.students == [] && st.instructors == [] && st.lessons == [] && st.reports == []
    ensures st.nextIds == Counters(1, 1, 1, 1)
  {
    Store([], [], [], [], Counters(1, 1, 1, 1))
  }

  /** What a handler answers, HTTP wrapping aside: success (200/201) with a
      payload, a rejected body (400) or an unknown id (404). */
  datatype Outcome<T> = Ok(value: T) | ValidationError(message: string) | NotFound(message: string)

  /** No counter has gone down. */
  predicate CountersLe(a: Counters, b: Counters) {
    && a.students <= b.students
    && a.instructors <= b.instructors
    && a.lessons <= b.lessons
    && a.reports <= b.reports
  }

  /** Every id of the collection was issued by its counter (ids start at 1
      and the counter is past all of them) and no id occurs twice. */
  predicate WellKeyed<T>(rs: seq<T>, id: T -> int, next: int) {
    && 1 <= next
    && (forall i :: 0 <= i < |rs| ==> 1 <= id(rs[i]) < next)
    && (forall i, j :: 0 <= i < j < |rs| ==> id(rs[i]) != id(rs[j]))
  }

  /** Creating: appending a record with the counter's id and bumping the
      counter keeps the collection well keyed. */
  lemma AppendFresh<T>(rs: seq<T>, id: T -> int, next: int, x: T)
    requires WellKeyed(rs, id, next)
    requires id(x) == next
    ensures WellKeyed(rs + [x], id, next + 1)
  {
  }

  /** Deleting one record keeps the collection well keyed. */
  lemma RemoveKeepsKeys<T>(rs: seq<T>, id: T -> int, next: int, i: nat)
    requires i < |rs|
    requires WellKeyed(rs, id, next)
    ensures WellKeyed(RemoveAt(rs, i), id, next)
  {
    var r := RemoveAt(rs, i);
    forall a, b | 0 <= a < b < |r| ensures id(r[a]) != id(r[b]) {
      var a' := if a < i then a else a + 1;
      var b' := if b < i then b else b + 1;
      assert r[a] == rs[a'] && r[b] == rs[b'] && a' < b';
    }
  }

  /** Overwriting a record without touching its id keeps the collection
      well keyed. */
  lemma ReplaceKeepsKeys<T>(rs: seq<T>, id: T -> int, next: int, i: nat, x: T)
    requires i < |rs|
    requires WellKeyed(rs, id, next)
    requires id(x) == id(rs[i])
    ensures WellKeyed(ReplaceAt(rs, i, x), id, next)
  {
  }

  lemma ConsKeepsKeys<T>(x: T, s: seq<T>, id: T -> int, next: int)
    requires WellKeyed(s, id, next)
    requires 1 <= id(x) < next
    requires forall i :: 0 <= i < |s| ==> id(s[i]) != id(x)
    ensures WellKeyed([x] + s, id, next)
  {
    var r := [x] + s;
    forall a, b | 0 <= a < b < |r| ensures id(r[a]) != id(r[b]) {
      assert r[b] == s[b - 1];
      if a > 0 {
        assert r[a] == s[a - 1];
      }
    }
  }

  lemma InsertMember<T, K>(x: T, s: seq<T>, key: T -> K, le: (K, K) -> bool, j: nat)
    requires j < |Insert(x, s, key, le)|
    ensures Insert(x, s, key, le)[j] == x || Insert(x, s, key, le)[j] in s
  {
    var t := Insert(x, s, key, le);
    assert t[j] in multiset(t);
    if t[j] != x {
      assert t[j] in multiset(s);
    }
  }

  lemma {:induction false} InsertKeepsKeys<T, K>(x: T, s: seq<T>, key: T -> K, le: (K, K) -> bool, id: T -> int, next: int)
    requires WellKeyed(s, id, next)
    requires 1 <= id(x) < next
    requires forall i :: 0 <= i < |s| ==> id(s[i]) != id(x)
    ensures WellKeyed(Insert(x, s, key, le), id, next)
  {
    if |s| == 0 {
    } else if le(key(x), key(s[0])) {
      ConsKeepsKeys(x, s, id, next);
    } else {
      var t := Insert(x, s[1..], key, le);
      InsertKeepsKeys(x, s[1..], key, le, id, next);
      forall j | 0 <= j < |t| ensures id(t[j]) != id(s[0]) {
        InsertMember(x, s[1..], key, le, j);
      }
      ConsKeepsKeys(s[0], t, id, next);
    }
  }

  /** Sorting in place keeps the collection well keyed. */
  lemma {:induction false} SortKeepsKeys<T, K>(s: seq<T>, key: T -> K, le: (K, K) -> bool, id: T -> int, next: int)
    requires WellKeyed(s, id, next)
    ensures WellKeyed(SortBy(s, key, le), id, next)
  {
    if |s| > 0 {
      var t := SortBy(s[1..], key, le);
      SortKeepsKeys(s[1..], key, le, id, next);
      forall i | 0 <= i < |t| ensures id(t[i]) != id(s[0]) {
        assert t[i] in multiset(s[1..]);
        assert t[i] in s[1..];
      }
      InsertKeepsKeys(s[0], t, key, le, id, next);
    }
  }

  /** In a well-keyed collection two different positions hold different
      ids, so the first record with an id is the only one. */
  lemma UniqueId<T>(rs: seq<T>, id: T -> int, next: int, i: nat, j: nat)
    requires WellKeyed(rs, id, next)
    requires i < |rs| && j < |rs| && i != j
    ensures id(rs[i]) != id(rs[j])
  {
    if j < i {
      assert id(rs[j]) != id(rs[i]);
    }
  }
}

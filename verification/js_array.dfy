/** The `Array.prototype` methods the route handlers use, on immutable
    sequences: `filter`, `slice`, `findIndex`, `splice(i, 1)` and the
    (stable) `sort` with a comparator. */
module JsArray {

  /** `s.filter(p)`: the elements satisfying `p`, in their original order. */
  function Filter<T>(s: seq<T>, p: T -> bool): (r: seq<T>)
    ensures |r| <= |s|
  {
    if |s| == 0 then []
    else (if p(s[0]) then [s[0]] else []) + Filter(s[1..], p)
  }

  /** The filter keeps exactly the elements satisfying the predicate. */
  lemma {:induction false} FilterMembers<T>(s: seq<T>, p: T -> bool)
    ensures forall i :: 0 <= i < |Filter(s, p)| ==> Filter(s, p)[i] in s && p(Filter(s, p)[i])
    ensures forall i :: 0 <= i < |s| && p(s[i]) ==> s[i] in Filter(s, p)
  {
    if |s| > 0 {
      FilterMembers(s[1..], p);
      var r := Filter(s, p);
      var head := if p(s[0]) then [s[0]] else [];
      assert r == head + Filter(s[1..], p);
      forall i | 0 <= i < |r| ensures r[i] in s && p(r[i]) {
        if i >= |head| {
          assert r[i] == Filter(s[1..], p)[i - |head|];
        }
      }
      forall i | 0 <= i < |s| && p(s[i]) ensures s[i] in r {
        if i > 0 {
          assert s[i] == s[1..][i - 1];
        }
      }
    }
  }

  /** Conjunction of two element predicates. */
  function Both<T>(p: T -> bool, q: T -> bool): T -> bool {
    (x: T) => p(x) && q(x)
  }

  /** A predicate that is `p` when `active`, and accepts everything otherwise. */
  function When<T>(active: bool, p: T -> bool): T -> bool {
    (x: T) => !active || p(x)
  }

  /** Filtering a concatenation filters each part. */
  lemma {:induction false} FilterAppend<T>(a: seq<T>, b: seq<T>, p: T -> bool)
    ensures Filter(a + b, p) == Filter(a, p) + Filter(b, p)
  {
    if |a| == 0 {
      assert a + b == b;
    } else {
      var head := if p(a[0]) then [a[0]] else [];
      assert (a + b)[0] == a[0];
      assert (a + b)[1..] == a[1..] + b;
      FilterAppend(a[1..], b, p);
      calc {
        Filter(a + b, p);
        head + Filter(a[1..] + b, p);
        head + (Filter(a[1..], p) + Filter(b, p));
        (head + Filter(a[1..], p)) + Filter(b, p);
      }
    }
  }

  /** Filtering twice is filtering once by the conjunction. */
  lemma {:induction false} FilterFilter<T>(s: seq<T>, p: T -> bool, q: T -> bool)
    ensures Filter(Filter(s, p), q) == Filter(s, Both(p, q))
  {
    if |s| > 0 {
      FilterFilter(s[1..], p, q);
      var head := if p(s[0]) then [s[0]] else [];
      FilterAppend(head, Filter(s[1..], p), q);
      if p(s[0]) {
        assert Filter(head, q) == (if q(s[0]) then [s[0]] else []) by {
          assert head[1..] == [];
        }
      }
    }
  }

  /** Two predicates that agree on the elements give the same filter. */
  lemma {:induction false} FilterExt<T>(s: seq<T>, p: T -> bool, q: T -> bool)
    requires forall x :: x in s ==> p(x) == q(x)
    ensures Filter(s, p) == Filter(s, q)
  {
    if |s| > 0 {
      assert s[0] in s;
      assert forall x :: x in s[1..] ==> x in s;
      FilterExt(s[1..], p, q);
    }
  }

  /** A filter every element passes returns the array unchanged. */
  lemma {:induction false} FilterKeepsAll<T>(s: seq<T>, p: T -> bool)
    requires forall x :: x in s ==> p(x)
    ensures Filter(s, p) == s
  {
    if |s| > 0 {
      assert s[0] in s;
      assert forall x :: x in s[1..] ==> x in s;
      FilterKeepsAll(s[1..], p);
      assert s == [s[0]] + s[1..];
    }
  }

  /** `if (active) s = s.filter(p)` is one filter by `When(active, p)`. */
  lemma ConditionalFilter<T>(s: seq<T>, active: bool, p: T -> bool)
    ensures (if active then Filter(s, p) else s) == Filter(s, When(active, p))
  {
    if active {
      FilterExt(s, p, When(active, p));
    } else {
      FilterKeepsAll(s, When(active, p));
    }
  }

  /** One more `if (active) s = s.filter(q)` after a filter by `p` is a
      single filter by the conjunction. */
  lemma ConditionalFilterStep<T>(s: seq<T>, f: seq<T>, p: T -> bool, active: bool, q: T -> bool)
    requires f == Filter(s, p)
    ensures (if active then Filter(f, q) else f) == Filter(s, Both(p, When(active, q)))
  {
    ConditionalFilter(f, active, q);
    FilterFilter(s, p, When(active, q));
  }

  /** The index `slice` derives from a relative argument: negative values
      count from the end, and the result is clamped to `[0, len]`. */
  function RelativeIndex(i: int, len: nat): (r: nat)
    ensures r <= len
    ensures 0 <= i <= len ==> r == i
    ensures i > len ==> r == len
    ensures i < 0 ==> r == if len + i < 0 then 0 else len + i
  {
    if i < 0 then (if len + i < 0 then 0 else len + i)
    else if i > len then len
    else i
  }

  /** `s.slice(start, end)`, with ECMAScript's treatment of negative and
      out-of-range arguments. */
  function Slice<T>(s: seq<T>, start: int, end: int): (r: seq<T>)
    ensures var from, to := RelativeIndex(start, |s|), RelativeIndex(end, |s|);
      && |r| == (if from < to then to - from else 0)
      && forall k :: 0 <= k < |r| ==> r[k] == s[from + k]
  {
    var from, to := RelativeIndex(start, |s|), RelativeIndex(end, |s|);
    if from < to then s[from..to] else []
  }

  /** `s.findIndex(p)`: the first index satisfying `p`, or -1. */
  function FindIndex<T>(s: seq<T>, p: T -> bool): (r: int)
    ensures r == -1 <==> forall i :: 0 <= i < |s| ==> !p(s[i])
    ensures r != -1 ==> 0 <= r < |s| && p(s[r])
    ensures r != -1 ==> forall i :: 0 <= i < r ==> !p(s[i])
  {
    if |s| == 0 then -1
    else if p(s[0]) then 0
    else
      var k := FindIndex(s[1..], p);
      if k == -1 then -1 else k + 1
  }

  /** `s.splice(i, 1)` seen from the array: element `i` is removed and
      the others close up in order. */
  function RemoveAt<T>(s: seq<T>, i: nat): (r: seq<T>)
    requires i < |s|
    ensures |r| == |s| - 1
    ensures forall k {:trigger r[k]} :: 0 <= k < i ==> r[k] == s[k]
    ensures forall k {:trigger r[k]} :: i <= k < |r| ==> r[k] == s[k + 1]
    ensures multiset(r) + multiset{s[i]} == multiset(s)
  {
    assert s == s[..i] + [s[i]] + s[i + 1..];
    s[..i] + s[i + 1..]
  }

  /** Replaces element `i`, keeping every other element in place. */
  function ReplaceAt<T>(s: seq<T>, i: nat, x: T): (r: seq<T>)
    requires i < |s|
    ensures |r| == |s| && r[i] == x
    ensures forall k :: 0 <= k < |s| && k != i ==> r[k] == s[k]
  {
    s[i := x]
  }

  // ---------------------------------------------------------------------
  // Stable sorting. `le(a, b)` holds when a comparator would return a
  // value <= 0 for keys `a` and `b`, i.e. when `a` may precede `b`.

  ghost predicate TotalPreorder<K(!new)>(le: (K, K) -> bool) {
    && (forall a, b :: le(a, b) || le(b, a))
    && (forall a, b, c :: le(a, b) && le(b, c) ==> le(a, c))
  }

  ghost predicate SortedBy<T, K>(s: seq<T>, key: T -> K, le: (K, K) -> bool) {
    forall i, j :: 0 <= i < j < |s| ==> le(key(s[i]), key(s[j]))
  }

  /** Keys equivalent to `k` under the preorder: the comparator returns 0. */
  function EquivTo<T, K>(key: T -> K, le: (K, K) -> bool, k: K): T -> bool {
    (x: T) => le(key(x), k) && le(k, key(x))
  }

  /** Puts `x` before the first element it may precede. */
  function Insert<T, K>(x: T, s: seq<T>, key: T -> K, le: (K, K) -> bool): (r: seq<T>)
    ensures multiset(r) == multiset{x} + multiset(s)
  {
    if |s| == 0 then [x]
    else if le(key(x), key(s[0])) then [x] + s
    else
      assert s == [s[0]] + s[1..];
      [s[0]] + Insert(x, s[1..], key, le)
  }

  /** `s.sort(cmp)`: a stable sort. For a comparator that is a total
      preorder the stable result is unique, so this insertion sort gives
      what any conforming engine gives. */
  function SortBy<T, K>(s: seq<T>, key: T -> K, le: (K, K) -> bool): (r: seq<T>)
    ensures multiset(r) == multiset(s)
  {
    if |s| == 0 then []
    else
      assert s == [s[0]] + s[1..];
      Insert(s[0], SortBy(s[1..], key, le), key, le)
  }

  /** Sorting a filtered array: same length, and only elements of the
      array that pass the filter. */
  lemma SortFilterMembers<T, K>(s: seq<T>, p: T -> bool, key: T -> K, le: (K, K) -> bool)
    ensures |SortBy(Filter(s, p), key, le)| == |Filter(s, p)|
    ensures forall k :: 0 <= k < |SortBy(Filter(s, p), key, le)| ==>
      SortBy(Filter(s, p), key, le)[k] in s && p(SortBy(Filter(s, p), key, le)[k])
  {
    var f := Filter(s, p);
    var r := SortBy(f, key, le);
    FilterMembers(s, p);
    assert |r| == |multiset(r)| == |multiset(f)| == |f|;
    forall k | 0 <= k < |r| ensures r[k] in s && p(r[k]) {
      assert r[k] in multiset(r);
      assert r[k] in multiset(f);
      assert r[k] in f;
    }
  }

  lemma {:induction false} InsertSorted<T, K(!new)>(x: T, s: seq<T>, key: T -> K, le: (K, K) -> bool)
    requires TotalPreorder(le)
    requires SortedBy(s, key, le)
    ensures SortedBy(Insert(x, s, key, le), key, le)
  {
    if |s| > 0 && !le(key(x), key(s[0])) {
      var t := Insert(x, s[1..], key, le);
      InsertSorted(x, s[1..], key, le);
      assert le(key(s[0]), key(x));
      forall j | 0 <= j < |t| ensures le(key(s[0]), key(t[j])) {
        assert t[j] in multiset(t);
        if t[j] != x {
          assert t[j] in multiset(s[1..]);
        }
      }
    }
  }

  /** The result is ordered by the comparator. */
  lemma {:induction false} SortSorted<T, K(!new)>(s: seq<T>, key: T -> K, le: (K, K) -> bool)
    requires TotalPreorder(le)
    ensures SortedBy(SortBy(s, key, le), key, le)
  {
    if |s| > 0 {
      SortSorted(s[1..], key, le);
      InsertSorted(s[0], SortBy(s[1..], key, le), key, le);
    }
  }

  /** An element that may not precede `y` has a key strictly after `y`'s,
      so the two never share a class of equivalent keys. */
  lemma NotBothEquiv<T, K(!new)>(x: T, y: T, key: T -> K, le: (K, K) -> bool, k: K)
    requires TotalPreorder(le)
    requires !le(key(x), key(y))
    ensures !(EquivTo(key, le, k)(x) && EquivTo(key, le, k)(y))
  {
  }

  lemma {:induction false} InsertStable<T, K(!new)>(x: T, s: seq<T>, key: T -> K, le: (K, K) -> bool, k: K)
    requires TotalPreorder(le)
    ensures var p := EquivTo(key, le, k);
      Filter(Insert(x, s, key, le), p) == (if p(x) then [x] else []) + Filter(s, p)
  {
    var p := EquivTo(key, le, k);
    var head := if p(x) then [x] else [];
    if |s| == 0 {
      assert Filter([x], p) == head + Filter([x][1..], p);
    } else if le(key(x), key(s[0])) {
      assert ([x] + s)[0] == x;
      assert ([x] + s)[1..] == s;
    } else {
      InsertStable(x, s[1..], key, le, k);
      NotBothEquiv(x, s[0], key, le, k);
      InsertStableStep(x, s, Insert(x, s[1..], key, le), p);
    }
  }

  /** The inductive step of `InsertStable`, where `x` goes after `s[0]`
      into `rest`. */
  lemma InsertStableStep<T>(x: T, s: seq<T>, rest: seq<T>, p: T -> bool)
    requires |s| > 0 && !(p(x) && p(s[0]))
    requires Filter(rest, p) == (if p(x) then [x] else []) + Filter(s[1..], p)
    ensures Filter([s[0]] + rest, p) == (if p(x) then [x] else []) + Filter(s, p)
  {
    assert s == [s[0]] + s[1..];
    FilterAppend([s[0]], rest, p);
    FilterAppend([s[0]], s[1..], p);
    if p(x) {
      assert Filter([s[0]], p) == [];
    }
  }

  /** Stability: records with equivalent keys keep their relative order. */
  lemma {:induction false} SortStable<T, K(!new)>(s: seq<T>, key: T -> K, le: (K, K) -> bool, k: K)
    requires TotalPreorder(le)
    ensures Filter(SortBy(s, key, le), EquivTo(key, le, k)) == Filter(s, EquivTo(key, le, k))
  {
    if |s| > 0 {
      SortStable(s[1..], key, le, k);
      InsertStable(s[0], SortBy(s[1..], key, le), key, le, k);
    }
  }
}

/** Sorting by a Go less function: the stable sort as a function, and what any sort guarantees. */
module Sorting {

  /** A strict weak order, which is what Go's sort package asks of a less function. */
  ghost predicate StrictWeak<T(!new)>(less: (T, T) -> bool) {
    && (forall a :: !less(a, a))
    && (forall a, b, c :: less(a, b) && less(b, c) ==> less(a, c))
    && (forall a, b, c :: less(a, c) ==> less(a, b) || less(b, c))
  }

  /** No later element comes before an earlier one. */
  ghost predicate Sorted<T>(less: (T, T) -> bool, s: seq<T>) {
    forall i, j :: 0 <= i < j < |s| ==> !less(s[j], s[i])
  }

  /** What sort.Slice promises, whatever it does with ties. */
  ghost predicate SortOf<T>(less: (T, T) -> bool, sorted: seq<T>, s: seq<T>) {
    multiset(sorted) == multiset(s) && Sorted(less, sorted)
  }

  function Insert<T>(less: (T, T) -> bool, x: T, s: seq<T>): seq<T> {
    if s == [] || !less(s[0], x) then [x] + s else [s[0]] + Insert(less, x, s[1..])
  }

  /** sort.SliceStable. */
  function StableSort<T>(less: (T, T) -> bool, s: seq<T>): seq<T> {
    if s == [] then [] else Insert(less, s[0], StableSort(less, s[1..]))
  }

  lemma {:induction false} InsertPermutes<T>(less: (T, T) -> bool, x: T, s: seq<T>)
    ensures multiset(Insert(less, x, s)) == multiset{x} + multiset(s)
  {
    if s != [] {
      assert s == [s[0]] + s[1..];
      InsertPermutes(less, x, s[1..]);
    }
  }

  lemma NotLessTransitive<T(!new)>(less: (T, T) -> bool, a: T, b: T, c: T)
    requires StrictWeak(less) && !less(a, b) && !less(b, c)
    ensures !less(a, c)
  {
  }

  lemma {:induction false} InsertSorts<T(!new)>(less: (T, T) -> bool, x: T, s: seq<T>)
    requires StrictWeak(less) && Sorted(less, s)
    ensures Sorted(less, Insert(less, x, s))
  {
    if s != [] && less(s[0], x) {
      InsertSorts(less, x, s[1..]);
      InsertPermutes(less, x, s[1..]);
      var rest := Insert(less, x, s[1..]);
      forall y | y in rest ensures !less(y, s[0]) {
        assert y in multiset(rest);
        assert y == x || y in s[1..];
      }
    } else if s != [] {
      forall j | 0 <= j < |s| ensures !less(s[j], x) {
        NotLessTransitive(less, s[j], s[0], x);
      }
    }
  }

  lemma {:induction false} StableSortPermutes<T>(less: (T, T) -> bool, s: seq<T>)
    ensures multiset(StableSort(less, s)) == multiset(s)
  {
    if s != [] {
      assert s == [s[0]] + s[1..];
      StableSortPermutes(less, s[1..]);
      InsertPermutes(less, s[0], StableSort(less, s[1..]));
    }
  }

  lemma {:induction false} StableSortSorts<T(!new)>(less: (T, T) -> bool, s: seq<T>)
    requires StrictWeak(less)
    ensures SortOf(less, StableSort(less, s), s)
  {
    StableSortPermutes(less, s);
    if s != [] {
      StableSortSorts(less, s[1..]);
      InsertSorts(less, s[0], StableSort(less, s[1..]));
    }
  }

  lemma {:induction false} StableSortIdentity<T>(less: (T, T) -> bool, s: seq<T>)
    requires Sorted(less, s)
    ensures StableSort(less, s) == s
  {
    if s != [] {
      StableSortIdentity(less, s[1..]);
      assert |s| > 1 ==> !less(s[1], s[0]);
    }
  }

  function Filter<T>(p: T -> bool, s: seq<T>): seq<T> {
    if s == [] then [] else (if p(s[0]) then [s[0]] else []) + Filter(p, s[1..])
  }

  lemma FilterCons<T>(p: T -> bool, x: T, s: seq<T>)
    ensures Filter(p, [x] + s) == if p(x) then [x] + Filter(p, s) else Filter(p, s)
  {
    assert ([x] + s)[1..] == s;
  }

  lemma {:induction false} InsertFilter<T(!new)>(less: (T, T) -> bool, p: T -> bool, x: T, s: seq<T>)
    requires forall a, b :: p(a) && p(b) ==> !less(a, b)
    ensures Filter(p, Insert(less, x, s)) == (if p(x) then [x] else []) + Filter(p, s)
  {
    if s != [] && less(s[0], x) {
      var rest := Insert(less, x, s[1..]);
      InsertFilter(less, p, x, s[1..]);
      FilterCons(p, s[0], rest);
      FilterCons(p, s[0], s[1..]);
      assert [s[0]] + s[1..] == s;
      if p(s[0]) {
        assert !p(x) && Filter(p, rest) == Filter(p, s[1..]);
      }
    } else {
      FilterCons(p, x, s);
    }
  }

  /** Stability: elements of one tie class keep their input order. */
  lemma {:induction false} StableSortStable<T(!new)>(less: (T, T) -> bool, p: T -> bool, s: seq<T>)
    requires forall a, b :: p(a) && p(b) ==> !less(a, b)
    ensures Filter(p, StableSort(less, s)) == Filter(p, s)
  {
    if s != [] {
      StableSortStable(less, p, s[1..]);
      InsertFilter(less, p, s[0], StableSort(less, s[1..]));
    }
  }

  /** The head of a filtered list is the first of its elements in the list. */
  lemma {:induction false} FilterHead<T>(p: T -> bool, s: seq<T>) returns (i: nat)
    requires Filter(p, s) != []
    ensures i < |s| && p(s[i]) && s[i] == Filter(p, s)[0] && forall j :: 0 <= j < i ==> !p(s[j])
  {
    if p(s[0]) {
      i := 0;
    } else {
      i := FilterHead(p, s[1..]);
      i := i + 1;
    }
  }

  /** A tie class has the same first element before and after a stable sort. */
  lemma FirstOfClass<T(!new)>(less: (T, T) -> bool, p: T -> bool, s: seq<T>, x: T) returns (before: nat, after: nat)
    requires forall a, b :: p(a) && p(b) ==> !less(a, b)
    requires x in s && p(x)
    ensures before < |s| && p(s[before]) && forall j :: 0 <= j < before ==> !p(s[j])
    ensures var sorted := StableSort(less, s);
      after < |sorted| && sorted[after] == s[before] && forall j :: 0 <= j < after ==> !p(sorted[j])
  {
    FilterMembers(p, s);
    StableSortStable(less, p, s);
    before := FilterHead(p, s);
    after := FilterHead(p, StableSort(less, s));
  }

  lemma SameHead<T(!new)>(less: (T, T) -> bool, s: seq<T>, t: seq<T>)
    requires forall a, b :: a in s && b in s && !less(a, b) && !less(b, a) ==> a == b
    requires Sorted(less, s) && Sorted(less, t) && multiset(s) == multiset(t) && s != [] && t != []
    ensures s[0] == t[0]
  {
    assert s[0] in multiset(s) && t[0] in multiset(t);
    var i :| 0 <= i < |s| && s[i] == t[0];
    var j :| 0 <= j < |t| && t[j] == s[0];
    if i > 0 && j > 0 {
      assert !less(s[i], s[0]) && !less(t[j], t[0]);
    }
  }

  lemma TailElements<T>(s: seq<T>)
    requires s != []
    ensures multiset(s[1..]) == multiset(s) - multiset{s[0]}
    ensures forall x :: x in s[1..] ==> x in s
  {
    assert s == [s[0]] + s[1..];
  }

  /** Sorted sequences of the same elements are equal when ties are equal elements: then any sort
      gives the same result, from any starting order. */
  lemma {:induction false} SortUnique<T(!new)>(less: (T, T) -> bool, s: seq<T>, t: seq<T>)
    requires forall a, b :: a in s && b in s && !less(a, b) && !less(b, a) ==> a == b
    requires Sorted(less, s) && Sorted(less, t) && multiset(s) == multiset(t)
    ensures s == t
  {
    if s == [] {
      assert |multiset(t)| == 0;
    } else {
      assert s[0] in multiset(s);
      assert t != [];
      SameHead(less, s, t);
      TailElements(s);
      TailElements(t);
      SortUnique(less, s[1..], t[1..]);
      assert s == [s[0]] + s[1..] && t == [t[0]] + t[1..];
    }
  }

  lemma {:induction false} FilterMembers<T>(p: T -> bool, s: seq<T>)
    ensures forall x :: x in Filter(p, s) ==> x in s && p(x)
    ensures forall x :: x in s && p(x) ==> x in Filter(p, s)
    ensures |Filter(p, s)| <= |s|
  {
    if s != [] {
      FilterMembers(p, s[1..]);
      assert s == [s[0]] + s[1..];
    }
  }

  lemma {:induction false} FilterTwice<T(!new)>(p: T -> bool, q: T -> bool, s: seq<T>)
    requires forall x :: p(x) ==> q(x)
    ensures Filter(p, Filter(q, s)) == Filter(p, s)
  {
    if s != [] {
      FilterTwice(p, q, s[1..]);
      FilterCons(p, s[0], Filter(q, s[1..]));
      assert Filter(q, s) == if q(s[0]) then [s[0]] + Filter(q, s[1..]) else Filter(q, s[1..]);
    }
  }

  /** Filtering keeps every copy of what passes. */
  lemma {:induction false} FilterCounts<T>(p: T -> bool, s: seq<T>)
    ensures forall x :: multiset(Filter(p, s))[x] == if p(x) then multiset(s)[x] else 0
  {
    if s != [] {
      FilterCounts(p, s[1..]);
      assert s == [s[0]] + s[1..];
    }
  }

  lemma {:induction false} FilterSorted<T>(less: (T, T) -> bool, p: T -> bool, s: seq<T>)
    requires Sorted(less, s)
    ensures Sorted(less, Filter(p, s))
  {
    if s != [] {
      FilterSorted(less, p, s[1..]);
      FilterMembers(p, s[1..]);
      forall y | y in s[1..] ensures !less(y, s[0]) {
        var k :| 0 <= k < |s[1..]| && s[1..][k] == y;
        assert s[k + 1] == y;
      }
      forall y | y in Filter(p, s[1..]) ensures !less(y, s[0]) {
        assert y in s[1..];
      }
    }
  }

  lemma {:induction false} FilterAll<T>(p: T -> bool, s: seq<T>)
    requires forall x :: x in s ==> p(x)
    ensures Filter(p, s) == s
  {
    if s != [] {
      FilterAll(p, s[1..]);
    }
  }

  lemma {:induction false} FilterAppend<T>(p: T -> bool, s: seq<T>, last: T)
    ensures Filter(p, s + [last]) == Filter(p, s) + if p(last) then [last] else []
  {
    if s != [] {
      assert (s + [last])[1..] == s[1..] + [last];
      FilterAppend(p, s[1..], last);
    }
  }

  /** The function applied to each element. */
  function Mapped<T, U>(f: T -> U, s: seq<T>): seq<U> {
    seq(|s|, i requires 0 <= i < |s| => f(s[i]))
  }

  lemma MappedAppend<T, U>(f: T -> U, s: seq<T>, last: T)
    ensures Mapped(f, s + [last]) == Mapped(f, s) + [f(last)]
  {
  }

  lemma {:induction false} InsertLength<T>(less: (T, T) -> bool, x: T, s: seq<T>)
    ensures |Insert(less, x, s)| == |s| + 1
  {
    if s != [] {
      InsertLength(less, x, s[1..]);
    }
  }

  lemma {:induction false} StableSortLength<T>(less: (T, T) -> bool, s: seq<T>)
    ensures |StableSort(less, s)| == |s|
  {
    if s != [] {
      StableSortLength(less, s[1..]);
      InsertLength(less, s[0], StableSort(less, s[1..]));
    }
  }

  lemma SortedSplit<T>(less: (T, T) -> bool, s: seq<T>, k: nat)
    requires Sorted(less, s) && k <= |s|
    ensures s[..k] + s[k..] == s
    ensures forall x, y :: x in s[..k] && y in s[k..] ==> !less(y, x)
  {
    forall x, y | x in s[..k] && y in s[k..] ensures !less(y, x) {
      var i :| 0 <= i < k && s[..k][i] == x;
      var j :| 0 <= j < |s| - k && s[k..][j] == y;
      assert s[i] == x && s[k + j] == y;
    }
  }
}

/** `Stream.filter` and `Stream.sorted(comparator)` on finite sequences.

    A Java `Comparator` is a total preorder (`leq(a, b)` stands for
    `compare(a, b) <= 0`). `sorted` on a sequential stream is stable, so its
    output is the unique sequence that is ordered, holds the same elements,
    and keeps every class of equivalent elements in input order. Insertion
    sort is used here as the reference definition; `StableSortIsUnique` shows
    that any stable sort, Java's included, yields the same sequence.
 */
module StreamSort {
  import opened JavaStrings

  ghost predicate TotalPreorder<T(!new)>(leq: (T, T) -> bool) {
    && (forall x, y :: leq(x, y) || leq(y, x))
    && (forall x, y, z :: leq(x, y) && leq(y, z) ==> leq(x, z))
  }

  ghost predicate SortedBy<T>(leq: (T, T) -> bool, s: seq<T>) {
    forall i, j :: 0 <= i < j < |s| ==> leq(s[i], s[j])
  }

  /** `stream.filter(keep)`. */
  function Filter<T(!new)>(s: seq<T>, keep: T -> bool): (r: seq<T>)
    ensures |r| <= |s|
    ensures forall i :: 0 <= i < |r| ==> keep(r[i])
  {
    if s == [] then [] else (if keep(s[0]) then [s[0]] else []) + Filter(s[1..], keep)
  }

  /** The filter keeps every occurrence of a kept element and nothing else. */
  lemma {:induction false} FilterMultiset<T(!new)>(s: seq<T>, keep: T -> bool, x: T)
    ensures multiset(Filter(s, keep))[x] == if keep(x) then multiset(s)[x] else 0
    decreases |s|
  {
    if s != [] {
      assert s == [s[0]] + s[1..];
      FilterMultiset(s[1..], keep, x);
    }
  }

  lemma {:induction false} FilterSnoc<T(!new)>(s: seq<T>, x: T, keep: T -> bool)
    ensures Filter(s + [x], keep) == Filter(s, keep) + (if keep(x) then [x] else [])
    decreases |s|
  {
    if s != [] {
      assert (s + [x])[1..] == s[1..] + [x];
      FilterSnoc(s[1..], x, keep);
    }
  }

  lemma {:induction false} FilterAppend<T(!new)>(a: seq<T>, b: seq<T>, keep: T -> bool)
    ensures Filter(a + b, keep) == Filter(a, keep) + Filter(b, keep)
    decreases |a|
  {
    if a == [] {
      assert a + b == b;
    } else {
      assert (a + b)[0] == a[0];
      assert (a + b)[1..] == a[1..] + b;
      FilterAppend(a[1..], b, keep);
    }
  }

  /** `a` is `b` with some elements left out, the rest in their order. */
  predicate IsSubsequence<T(==)>(a: seq<T>, b: seq<T>)
    decreases |b|
  {
    if a == [] then true
    else if b == [] then false
    else (a[0] == b[0] && IsSubsequence(a[1..], b[1..])) || IsSubsequence(a, b[1..])
  }

  /** The filter keeps the order of what it keeps. */
  lemma {:induction false} FilterIsSubsequence<T(!new)>(s: seq<T>, keep: T -> bool)
    ensures IsSubsequence(Filter(s, keep), s)
    decreases |s|
  {
    if s != [] {
      FilterIsSubsequence(s[1..], keep);
      if keep(s[0]) {
        assert Filter(s, keep)[1..] == Filter(s[1..], keep);
      } else {
        assert Filter(s, keep) == Filter(s[1..], keep);
      }
    }
  }

  /** A rearrangement of elements that all satisfy `keep` still does. */
  lemma PermutationKeepsAll<T>(r: seq<T>, s: seq<T>, keep: T -> bool)
    requires multiset(r) == multiset(s)
    requires forall i :: 0 <= i < |s| ==> keep(s[i])
    ensures forall i :: 0 <= i < |r| ==> keep(r[i])
  {
    forall i | 0 <= i < |r| ensures keep(r[i]) {
      assert r[i] in multiset(s);
      var j :| 0 <= j < |s| && s[j] == r[i];
    }
  }

  /** The predicate `n -> true` of the comparator-only overload. */
  function KeepAll<T>(): T -> bool {
    (x: T) => true
  }

  lemma {:induction false} FilterKeepAll<T(!new)>(s: seq<T>)
    ensures Filter(s, KeepAll()) == s
    decreases |s|
  {
    if s != [] {
      FilterKeepAll(s[1..]);
    }
  }

  /** Puts `x` in front of the first element it is not greater than. */
  function Insert<T(!new)>(x: T, s: seq<T>, leq: (T, T) -> bool): (r: seq<T>)
    ensures forall i :: 0 <= i < |r| ==> r[i] == x || r[i] in s
    ensures TotalPreorder(leq) && SortedBy(leq, s) ==> SortedBy(leq, r)
  {
    if s == [] || leq(x, s[0]) then [x] + s
    else
      var rest := Insert(x, s[1..], leq);
      assert s == [s[0]] + s[1..];
      assert forall i :: 0 <= i < |rest| ==> rest[i] == x || rest[i] in s[1..];
      InsertBehindHead(x, s, rest, leq);
      [s[0]] + rest
  }

  /** The step of `Insert` that passes the head: the head is not greater than
      `x` nor than any later element, so it stays in front. */
  lemma InsertBehindHead<T(!new)>(x: T, s: seq<T>, rest: seq<T>, leq: (T, T) -> bool)
    requires s != [] && !leq(x, s[0])
    requires forall i :: 0 <= i < |rest| ==> rest[i] == x || rest[i] in s[1..]
    requires TotalPreorder(leq) && SortedBy(leq, s[1..]) ==> SortedBy(leq, rest)
    ensures TotalPreorder(leq) && SortedBy(leq, s) ==> SortedBy(leq, [s[0]] + rest)
  {
    if TotalPreorder(leq) && SortedBy(leq, s) {
      assert leq(s[0], x);
      assert SortedBy(leq, s[1..]) by {
        forall i, j | 0 <= i < j < |s[1..]| ensures leq(s[1..][i], s[1..][j]) {
          assert s[1..][i] == s[i + 1] && s[1..][j] == s[j + 1];
        }
      }
      forall i | 0 <= i < |rest| ensures leq(s[0], rest[i]) {
        if rest[i] != x {
          var k :| 0 <= k < |s[1..]| && s[1..][k] == rest[i];
          assert s[1..][k] == s[k + 1];
        }
      }
      var r := [s[0]] + rest;
      forall i, j | 0 <= i < j < |r| ensures leq(r[i], r[j]) {
        if i > 0 {
          assert r[i] == rest[i - 1] && r[j] == rest[j - 1];
        } else {
          assert r[j] == rest[j - 1];
        }
      }
    }
  }

  /** The reference stable sort. */
  function InsertionSort<T(!new)>(s: seq<T>, leq: (T, T) -> bool): (r: seq<T>)
    ensures TotalPreorder(leq) ==> SortedBy(leq, r)
  {
    if s == [] then []
    else
      assert s == [s[0]] + s[1..];
      Insert(s[0], InsertionSort(s[1..], leq), leq)
  }

  /** An insertion adds exactly one copy of `x`. */
  lemma {:induction false} InsertPermutes<T(!new)>(x: T, s: seq<T>, leq: (T, T) -> bool)
    ensures multiset(Insert(x, s, leq)) == multiset(s) + multiset{x}
    decreases |s|
  {
    if s != [] && !leq(x, s[0]) {
      InsertPermutes(x, s[1..], leq);
      HeadTail(s);
    }
  }

  /** The reference sort is a permutation of its input. */
  lemma {:induction false} InsertionSortPermutes<T(!new)>(s: seq<T>, leq: (T, T) -> bool)
    ensures multiset(InsertionSort(s, leq)) == multiset(s)
    decreases |s|
  {
    if s != [] {
      InsertionSortPermutes(s[1..], leq);
      InsertPermutes(s[0], InsertionSort(s[1..], leq), leq);
      HeadTail(s);
    }
  }

  lemma SortCons<T(!new)>(h: T, t: seq<T>, leq: (T, T) -> bool)
    ensures InsertionSort([h] + t, leq) == Insert(h, InsertionSort(t, leq), leq)
  {
    ConsParts(h, t);
  }

  lemma InsertInFront<T(!new)>(x: T, s: seq<T>, leq: (T, T) -> bool)
    requires s == [] || leq(x, s[0])
    ensures Insert(x, s, leq) == [x] + s
  {
  }

  lemma InsertPastHead<T(!new)>(x: T, h: T, t: seq<T>, leq: (T, T) -> bool)
    requires !leq(x, h)
    ensures Insert(x, [h] + t, leq) == [h] + Insert(x, t, leq)
  {
    ConsParts(h, t);
  }

  lemma SortOne<T(!new)>(a: T, leq: (T, T) -> bool)
    ensures InsertionSort([a], leq) == [a]
  {
    SortCons(a, [], leq);
    assert [a] + [] == [a];
  }

  lemma SortConsTwo<T(!new)>(a: T, b: T, leq: (T, T) -> bool)
    ensures InsertionSort([a, b], leq) == Insert(a, [b], leq)
  {
    SortCons(a, [b], leq);
    assert [a] + [b] == [a, b];
    SortOne(b, leq);
  }

  lemma SortConsThree<T(!new)>(a: T, b: T, c: T, leq: (T, T) -> bool)
    ensures InsertionSort([a, b, c], leq) == Insert(a, InsertionSort([b, c], leq), leq)
  {
    SortCons(a, [b, c], leq);
    assert [a] + [b, c] == [a, b, c];
  }

  /** Two elements out of order are swapped. */
  lemma SortTwo<T(!new)>(a: T, b: T, leq: (T, T) -> bool)
    requires !leq(a, b)
    ensures InsertionSort([a, b], leq) == [b, a]
  {
    SortConsTwo(a, b, leq);
    InsertPastHead(a, b, [], leq);
    InsertInFront(a, [], leq);
    assert [b] + ([a] + []) == [b, a];
  }

  /** Two elements in order stay in place. */
  lemma SortTwoInOrder<T(!new)>(a: T, b: T, leq: (T, T) -> bool)
    requires leq(a, b)
    ensures InsertionSort([a, b], leq) == [a, b]
  {
    SortConsTwo(a, b, leq);
    InsertInFront(a, [b], leq);
  }

  lemma InsertBetween<T(!new)>(a: T, b: T, c: T, leq: (T, T) -> bool)
    requires !leq(a, b) && leq(a, c)
    ensures Insert(a, [b, c], leq) == [b, a, c]
  {
    InsertPastHead(a, b, [c], leq);
    assert [b] + [c] == [b, c];
    InsertInFront(a, [c], leq);
    assert [b] + ([a] + [c]) == [b, a, c];
  }

  lemma InsertAfterTwo<T(!new)>(a: T, b: T, c: T, leq: (T, T) -> bool)
    requires !leq(a, b) && !leq(a, c)
    ensures Insert(a, [b, c], leq) == [b, c, a]
  {
    InsertPastHead(a, b, [c], leq);
    assert [b] + [c] == [b, c];
    SortTwo(a, c, leq);
    SortConsTwo(a, c, leq);
    assert [b] + [c, a] == [b, c, a];
  }

  /** Three elements of which the first belongs between the other two,
      which are in order. */
  lemma SortThreeMiddle<T(!new)>(a: T, b: T, c: T, leq: (T, T) -> bool)
    requires leq(b, c) && !leq(a, b) && leq(a, c)
    ensures InsertionSort([a, b, c], leq) == [b, a, c]
  {
    SortConsThree(a, b, c, leq);
    SortTwoInOrder(b, c, leq);
    InsertBetween(a, b, c, leq);
  }

  /** Three elements of which the first belongs after the other two, which
      are in order. */
  lemma SortThreeLast<T(!new)>(a: T, b: T, c: T, leq: (T, T) -> bool)
    requires leq(b, c) && !leq(a, b) && !leq(a, c)
    ensures InsertionSort([a, b, c], leq) == [b, c, a]
  {
    SortConsThree(a, b, c, leq);
    SortTwoInOrder(b, c, leq);
    InsertAfterTwo(a, b, c, leq);
  }

  /** The elements equivalent to `e` under the comparator. */
  function ClassOf<T>(leq: (T, T) -> bool, e: T): T -> bool {
    (y: T) => leq(y, e) && leq(e, y)
  }

  /** Filtering a sequence with a known head. */
  lemma FilterCons<T(!new)>(h: T, t: seq<T>, keep: T -> bool)
    ensures Filter([h] + t, keep) == (if keep(h) then [h] else []) + Filter(t, keep)
  {
    assert ([h] + t)[1..] == t;
  }

  /** `keep` holds only of mutually equivalent elements. */
  ghost predicate WithinOneClass<T(!new)>(leq: (T, T) -> bool, keep: T -> bool) {
    forall y, z :: keep(y) && keep(z) ==> leq(y, z)
  }

  lemma ClassIsWithinOneClass<T(!new)>(leq: (T, T) -> bool, e: T)
    requires TotalPreorder(leq)
    ensures WithinOneClass(leq, ClassOf(leq, e))
  {
    forall y, z | ClassOf(leq, e)(y) && ClassOf(leq, e)(z) ensures leq(y, z) {
      assert leq(y, e) && leq(e, z);
    }
  }

  /** An insertion keeps the order of the elements a `keep` within one
      class selects, and puts `x` in front of them. */
  lemma {:induction false} InsertKeepsOrderWithin<T(!new)>(x: T, s: seq<T>, leq: (T, T) -> bool, keep: T -> bool)
    requires WithinOneClass(leq, keep)
    ensures Filter(Insert(x, s, leq), keep) == (if keep(x) then [x] else []) + Filter(s, keep)
    decreases |s|
  {
    if s == [] || leq(x, s[0]) {
      FilterCons(x, s, keep);
    } else {
      var rest := Insert(x, s[1..], leq);
      var head := if keep(s[0]) then [s[0]] else [];
      var mid := if keep(x) then [x] else [];
      var tail := Filter(s[1..], keep);
      assert Insert(x, s, leq) == [s[0]] + rest;
      FilterCons(s[0], rest, keep);
      InsertKeepsOrderWithin(x, s[1..], leq, keep);
      SwapFront(head, mid, tail);
      calc {
        Filter(Insert(x, s, leq), keep);
        head + Filter(rest, keep);
        head + (mid + tail);
        mid + (head + tail);
        mid + Filter(s, keep);
      }
    }
  }

  /** Two fronts of which one is empty can be swapped. */
  lemma SwapFront<T>(a: seq<T>, b: seq<T>, t: seq<T>)
    requires a == [] || b == []
    ensures a + (b + t) == b + (a + t)
  {
    if a == [] {
      assert a + (b + t) == b + t == b + (a + t);
    } else {
      assert a + (b + t) == a + t == b + (a + t);
    }
  }

  lemma InsertKeepsClassOrder<T(!new)>(x: T, s: seq<T>, leq: (T, T) -> bool, e: T)
    requires TotalPreorder(leq)
    ensures Filter(Insert(x, s, leq), ClassOf(leq, e))
         == (if ClassOf(leq, e)(x) then [x] else []) + Filter(s, ClassOf(leq, e))
  {
    ClassIsWithinOneClass(leq, e);
    InsertKeepsOrderWithin(x, s, leq, ClassOf(leq, e));
  }

  /** Stability: every class of equivalent elements keeps its input order. */
  lemma {:induction false} InsertionSortIsStable<T(!new)>(s: seq<T>, leq: (T, T) -> bool, e: T)
    requires TotalPreorder(leq)
    ensures Filter(InsertionSort(s, leq), ClassOf(leq, e)) == Filter(s, ClassOf(leq, e))
    decreases |s|
  {
    if s != [] {
      InsertionSortIsStable(s[1..], leq, e);
      InsertKeepsClassOrder(s[0], InsertionSort(s[1..], leq), leq, e);
    }
  }

  ghost predicate SameClasses<T(!new)>(leq: (T, T) -> bool, a: seq<T>, b: seq<T>) {
    forall e :: Filter(a, ClassOf(leq, e)) == Filter(b, ClassOf(leq, e))
  }

  lemma FilterHeadIn<T(!new)>(s: seq<T>, keep: T -> bool)
    requires s != [] && keep(s[0])
    ensures Filter(s, keep) == [s[0]] + Filter(s[1..], keep)
  {
  }

  lemma InFilterWhenKept<T(!new)>(s: seq<T>, keep: T -> bool, x: T)
    requires x in s && keep(x)
    ensures x in Filter(s, keep)
  {
    FilterMultiset(s, keep, x);
    assert multiset(s)[x] > 0;
    assert multiset(Filter(s, keep))[x] > 0;
  }

  lemma InSourceWhenFiltered<T(!new)>(s: seq<T>, keep: T -> bool, x: T)
    requires x in Filter(s, keep)
    ensures x in s
  {
    FilterMultiset(s, keep, x);
    assert multiset(Filter(s, keep))[x] > 0;
  }

  lemma NonEmptyWithSameClasses<T(!new)>(leq: (T, T) -> bool, a: seq<T>, b: seq<T>)
    requires TotalPreorder(leq)
    requires SameClasses(leq, a, b)
    ensures a != [] ==> b != []
  {
    if a != [] {
      FilterHeadIn(a, ClassOf(leq, a[0]));
      assert Filter(a, ClassOf(leq, a[0])) == Filter(b, ClassOf(leq, a[0]));
    }
  }

  /** Two ordered sequences whose equivalence classes agree are equal. */
  lemma {:induction false} SortedSameClassesEqual<T(!new)>(leq: (T, T) -> bool, a: seq<T>, b: seq<T>)
    requires TotalPreorder(leq)
    requires SortedBy(leq, a) && SortedBy(leq, b)
    requires SameClasses(leq, a, b)
    ensures a == b
    decreases |a| + |b|
  {
    NonEmptyWithSameClasses(leq, a, b);
    NonEmptyWithSameClasses(leq, b, a);
    if a != [] {
      var ca := ClassOf(leq, a[0]);
      var cb := ClassOf(leq, b[0]);
      assert ca(a[0]) && cb(b[0]);
      // b[0] occurs in a, so a[0] <= b[0]; symmetrically b[0] <= a[0]
      InFilterWhenKept(b, cb, b[0]);
      assert Filter(a, cb) == Filter(b, cb);
      InSourceWhenFiltered(a, cb, b[0]);
      var j :| 0 <= j < |a| && a[j] == b[0];
      assert j == 0 || leq(a[0], a[j]);
      InFilterWhenKept(a, ca, a[0]);
      assert Filter(a, ca) == Filter(b, ca);
      InSourceWhenFiltered(b, ca, a[0]);
      var k :| 0 <= k < |b| && b[k] == a[0];
      assert k == 0 || leq(b[0], b[k]);
      assert ca(b[0]);
      FilterHeadIn(a, ca);
      FilterHeadIn(b, ca);
      assert Filter(a, ca)[0] == a[0];
      assert Filter(b, ca)[0] == b[0];
      assert a[0] == b[0];
      forall e
        ensures Filter(a[1..], ClassOf(leq, e)) == Filter(b[1..], ClassOf(leq, e))
      {
        var ce := ClassOf(leq, e);
        assert Filter(a, ce) == Filter(b, ce);
        assert a == [a[0]] + a[1..] && b == [b[0]] + b[1..];
        FilterAppend([a[0]], a[1..], ce);
        FilterAppend([b[0]], b[1..], ce);
        var head := Filter([a[0]], ce);
        assert Filter(a, ce) == head + Filter(a[1..], ce);
        assert Filter(b, ce) == head + Filter(b[1..], ce);
        assert (head + Filter(a[1..], ce))[|head|..] == Filter(a[1..], ce);
        assert (head + Filter(b[1..], ce))[|head|..] == Filter(b[1..], ce);
      }
      SortedSameClassesEqual(leq, a[1..], b[1..]);
      assert a == [a[0]] + a[1..] && b == [b[0]] + b[1..];
    }
  }

  /** Any ordered result that keeps each class of equivalent elements in input
      order is the insertion sort: a stable sort has only one possible output. */
  lemma StableSortIsUnique<T(!new)>(s: seq<T>, r: seq<T>, leq: (T, T) -> bool)
    requires TotalPreorder(leq)
    requires SortedBy(leq, r)
    requires SameClasses(leq, r, s)
    ensures r == InsertionSort(s, leq)
  {
    forall e
      ensures Filter(r, ClassOf(leq, e)) == Filter(InsertionSort(s, leq), ClassOf(leq, e))
    {
      InsertionSortIsStable(s, leq, e);
    }
    SortedSameClassesEqual(leq, r, InsertionSort(s, leq));
  }
}

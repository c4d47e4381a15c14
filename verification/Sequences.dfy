/** Sequences: a stable sort, as `Array.prototype.sort` is, filters and counts, and what sorting keeps. */
module Sequences {
  predicate Distinct<T(==)>(xs: seq<T>) {
    forall i, j | 0 <= i < j < |xs| :: xs[i] != xs[j]
  }

  /** Where `le` says yes, the first argument may come first. */
  type Order<!T> = (T, T) -> bool

  ghost predicate TotalPreorder<T(!new)>(le: Order<T>) {
    && (forall a, b :: le(a, b) || le(b, a))
    && (forall a, b, c :: le(a, b) && le(b, c) ==> le(a, c))
  }

  ghost predicate Sorted<T>(xs: seq<T>, le: Order<T>) {
    forall i, j | 0 <= i < j < |xs| :: le(xs[i], xs[j])
  }

  /** After every member that may come before `x`. */
  function Insert<T>(xs: seq<T>, x: T, le: Order<T>): seq<T> {
    if xs == [] || le(xs[|xs| - 1], x) then xs + [x]
    else Insert(xs[..|xs| - 1], x, le) + [xs[|xs| - 1]]
  }

  function Sort<T>(xs: seq<T>, le: Order<T>): seq<T> {
    if xs == [] then [] else Insert(Sort(xs[..|xs| - 1], le), xs[|xs| - 1], le)
  }

  function Filter<T>(xs: seq<T>, p: T -> bool): seq<T> {
    if xs == [] then []
    else Filter(xs[..|xs| - 1], p) + if p(xs[|xs| - 1]) then [xs[|xs| - 1]] else []
  }

  lemma {:induction false} InsertKeeps<T>(xs: seq<T>, x: T, le: Order<T>)
    ensures multiset(Insert(xs, x, le)) == multiset(xs) + multiset{x}
  {
    if xs != [] {
      assert xs == xs[..|xs| - 1] + [xs[|xs| - 1]];
      if !le(xs[|xs| - 1], x) { InsertKeeps(xs[..|xs| - 1], x, le); }
    }
  }

  lemma {:induction false} SortKeeps<T>(xs: seq<T>, le: Order<T>)
    ensures multiset(Sort(xs, le)) == multiset(xs)
  {
    if xs != [] {
      SortKeeps(xs[..|xs| - 1], le);
      InsertKeeps(Sort(xs[..|xs| - 1], le), xs[|xs| - 1], le);
      assert xs == xs[..|xs| - 1] + [xs[|xs| - 1]];
    }
  }

  lemma {:induction false} SameMembers<T(!new)>(xs: seq<T>, le: Order<T>)
    ensures forall x :: x in Sort(xs, le) <==> x in xs
    ensures |Sort(xs, le)| == |xs|
  {
    SortKeeps(xs, le);
    forall x ensures x in Sort(xs, le) <==> x in xs {
      assert x in Sort(xs, le) <==> x in multiset(Sort(xs, le));
      assert x in xs <==> x in multiset(xs);
    }
    assert |multiset(Sort(xs, le))| == |multiset(xs)|;
  }

  lemma {:induction false} DistinctCounts<T(!new)>(xs: seq<T>)
    requires Distinct(xs)
    ensures forall x :: multiset(xs)[x] <= 1
  {
    if xs != [] {
      var rest, last := xs[..|xs| - 1], xs[|xs| - 1];
      DistinctCounts(rest);
      assert xs == rest + [last];
      assert last !in rest;
    }
  }

  lemma {:induction false} CountsTwice<T>(xs: seq<T>, i: nat, j: nat)
    requires i < j < |xs| && xs[i] == xs[j]
    ensures multiset(xs)[xs[i]] >= 2
  {
    assert xs == xs[..i] + [xs[i]] + xs[i + 1..j] + [xs[j]] + xs[j + 1..];
  }

  lemma {:induction false} SortKeepsDistinct<T(!new)>(xs: seq<T>, le: Order<T>)
    requires Distinct(xs)
    ensures Distinct(Sort(xs, le))
  {
    var sorted := Sort(xs, le);
    SortKeeps(xs, le);
    DistinctCounts(xs);
    forall i, j | 0 <= i < j < |sorted| ensures sorted[i] != sorted[j] {
      if sorted[i] == sorted[j] { CountsTwice(sorted, i, j); }
    }
  }

  lemma {:induction false} InsertSorts<T(!new)>(xs: seq<T>, x: T, le: Order<T>)
    requires TotalPreorder(le) && Sorted(xs, le)
    ensures Sorted(Insert(xs, x, le), le)
  {
    if xs != [] && !le(xs[|xs| - 1], x) {
      var rest, last := xs[..|xs| - 1], xs[|xs| - 1];
      InsertSorts(rest, x, le);
      InsertKeeps(rest, x, le);
      var more := Insert(rest, x, le);
      forall i | 0 <= i < |more| ensures le(more[i], last) {
        assert more[i] in multiset(more);
        if more[i] != x {
          assert more[i] in multiset(rest);
          assert more[i] in rest;
        }
      }
    }
  }

  lemma {:induction false} SortSorts<T(!new)>(xs: seq<T>, le: Order<T>)
    requires TotalPreorder(le)
    ensures Sorted(Sort(xs, le), le)
  {
    if xs != [] {
      SortSorts(xs[..|xs| - 1], le);
      InsertSorts(Sort(xs[..|xs| - 1], le), xs[|xs| - 1], le);
    }
  }

  /** Sorting changes nothing exactly where the order is already there. */
  lemma {:induction false} SortedIsFixed<T(!new)>(xs: seq<T>, le: Order<T>)
    requires TotalPreorder(le)
    ensures Sort(xs, le) == xs <==> Sorted(xs, le)
  {
    if Sorted(xs, le) && xs != [] {
      SortedIsFixed(xs[..|xs| - 1], le);
      assert xs == xs[..|xs| - 1] + [xs[|xs| - 1]];
    }
    SortSorts(xs, le);
  }

  lemma {:induction false} FilterOfConcat<T>(xs: seq<T>, ys: seq<T>, p: T -> bool)
    ensures Filter(xs + ys, p) == Filter(xs, p) + Filter(ys, p)
  {
    if ys == [] {
      assert xs + ys == xs;
    } else {
      assert (xs + ys)[..|xs + ys| - 1] == xs + ys[..|ys| - 1];
      FilterOfConcat(xs, ys[..|ys| - 1], p);
    }
  }

  lemma {:induction false} FilterMembers<T(!new)>(xs: seq<T>, p: T -> bool)
    ensures forall x :: x in Filter(xs, p) <==> x in xs && p(x)
  {
    if xs != [] {
      FilterMembers(xs[..|xs| - 1], p);
      assert xs == xs[..|xs| - 1] + [xs[|xs| - 1]];
    }
  }

  lemma {:induction false} FilterOfOneMore<T>(xs: seq<T>, x: T, p: T -> bool)
    ensures Filter(xs + [x], p) == Filter(xs, p) + if p(x) then [x] else []
  {
    assert (xs + [x])[..|xs|] == xs;
  }

  lemma {:induction false} InsertIntoOneMore<T>(xs: seq<T>, last: T, x: T, le: Order<T>)
    ensures Insert(xs + [last], x, le) == if le(last, x) then xs + [last] + [x] else Insert(xs, x, le) + [last]
  {
    assert (xs + [last])[..|xs|] == xs;
  }

  lemma {:induction false} SortOfOneMore<T>(xs: seq<T>, x: T, le: Order<T>)
    ensures Sort(xs + [x], le) == Insert(Sort(xs, le), x, le)
  {
    assert (xs + [x])[..|xs|] == xs;
  }

  lemma {:induction false} InsertLast<T>(xs: seq<T>, x: T, le: Order<T>)
    requires forall y | y in xs :: le(y, x)
    ensures Insert(xs, x, le) == xs + [x]
  {
  }

  lemma {:induction false} FilterInserts<T(!new)>(xs: seq<T>, x: T, le: Order<T>, p: T -> bool)
    requires TotalPreorder(le) && Sorted(xs, le)
    ensures Filter(Insert(xs, x, le), p) == if p(x) then Insert(Filter(xs, p), x, le) else Filter(xs, p)
  {
    hide Insert, Filter;
    if xs == [] || le(xs[|xs| - 1], x) {
      AllBefore(xs, x, le);
      FilterInsertsLast(xs, x, le, p);
    } else {
      var rest, last := xs[..|xs| - 1], xs[|xs| - 1];
      FilterInserts(rest, x, le, p);
      hide Sorted, TotalPreorder;
      FilterInsertsBefore(rest, last, x, le, p);
      assert xs == rest + [last];
    }
  }

  lemma {:induction false} AllBefore<T(!new)>(xs: seq<T>, x: T, le: Order<T>)
    requires TotalPreorder(le) && Sorted(xs, le) && (xs == [] || le(xs[|xs| - 1], x))
    ensures forall y | y in xs :: le(y, x)
  {
    forall y | y in xs ensures le(y, x) {
      var i :| 0 <= i < |xs| && xs[i] == y;
      assert i == |xs| - 1 || le(y, xs[|xs| - 1]);
    }
  }

  lemma {:induction false} FilterInsertsLast<T(!new)>(xs: seq<T>, x: T, le: Order<T>, p: T -> bool)
    requires forall y | y in xs :: le(y, x)
    ensures Filter(Insert(xs, x, le), p) == if p(x) then Insert(Filter(xs, p), x, le) else Filter(xs, p)
  {
    hide Insert;
    forall y | y in Filter(xs, p) ensures le(y, x) {
      FilterMembers(xs, p);
      assert y in xs;
    }
    InsertLast(xs, x, le);
    InsertLast(Filter(xs, p), x, le);
    FilterOfOneMore(xs, x, p);
  }

  lemma {:induction false} FilterInsertsBefore<T>(rest: seq<T>, last: T, x: T, le: Order<T>, p: T -> bool)
    requires !le(last, x) && Filter(Insert(rest, x, le), p) == if p(x) then Insert(Filter(rest, p), x, le)
               else Filter(rest, p)
    ensures Filter(Insert(rest + [last], x, le), p)
            == if p(x) then Insert(Filter(rest + [last], p), x, le) else Filter(rest + [last], p)
  {
    hide Filter, Insert;
    InsertIntoOneMore(rest, last, x, le);
    FilterOfOneMore(Insert(rest, x, le), last, p);
    FilterOfOneMore(rest, last, p);
    InsertIntoOneMore(Filter(rest, p), last, x, le);
    assert Filter(rest, p) + [] == Filter(rest, p);
  }

  /** What a stable sort does to a group of members is to sort the group. */
  lemma {:induction false} FilterOfSort<T(!new)>(xs: seq<T>, le: Order<T>, p: T -> bool)
    requires TotalPreorder(le)
    ensures Filter(Sort(xs, le), p) == Sort(Filter(xs, p), le)
  {
    hide TotalPreorder, Sorted, Insert;
    if xs != [] {
      var rest, last := xs[..|xs| - 1], xs[|xs| - 1];
      assert xs == rest + [last];
      FilterOfSort(rest, le, p);
      SortSorts(rest, le);
      hide Filter, Sort;
      assert Sort(xs, le) == Sort(rest + [last], le) && Filter(xs, p) == Filter(rest + [last], p);
      FilterInserts(Sort(rest, le), last, le, p);
      SortOfOneMore(rest, last, le);
      FilterOfOneMore(rest, last, p);
      SortOfOneMore(Filter(rest, p), last, le);
      assert Filter(rest, p) + [] == Filter(rest, p);
    }
  }

  function Count<T>(xs: seq<T>, p: T -> bool): nat {
    |Filter(xs, p)|
  }

  lemma {:induction false} CountOfOneMore<T>(xs: seq<T>, x: T, p: T -> bool)
    ensures Count(xs + [x], p) == Count(xs, p) + if p(x) then 1 else 0
  {
    FilterOfOneMore(xs, x, p);
  }

  lemma {:induction false} CountOfInsert<T>(xs: seq<T>, x: T, le: Order<T>, p: T -> bool)
    ensures Count(Insert(xs, x, le), p) == Count(xs, p) + if p(x) then 1 else 0
  {
    hide Count;
    if xs == [] || le(xs[|xs| - 1], x) {
      CountOfOneMore(xs, x, p);
    } else {
      var rest, last := xs[..|xs| - 1], xs[|xs| - 1];
      assert xs == rest + [last];
      CountOfInsert(rest, x, le, p);
      CountOfOneMore(rest, last, p);
      CountOfOneMore(Insert(rest, x, le), last, p);
    }
  }

  lemma {:induction false} CountOfSort<T>(xs: seq<T>, le: Order<T>, p: T -> bool)
    ensures Count(Sort(xs, le), p) == Count(xs, p)
  {
    if xs != [] {
      hide Count;
      var rest, last := xs[..|xs| - 1], xs[|xs| - 1];
      assert xs == rest + [last];
      CountOfSort(rest, le, p);
      CountOfOneMore(rest, last, p);
      CountOfInsert(Sort(rest, le), last, le, p);
    }
  }

  lemma {:induction false} CountOfTwo<T(!new)>(xs: seq<T>, p: T -> bool, q: T -> bool)
    requires forall x :: p(x) != q(x)
    ensures Count(xs, p) + Count(xs, q) == |xs|
  {
    if xs != [] {
      hide Count;
      var rest, last := xs[..|xs| - 1], xs[|xs| - 1];
      assert xs == rest + [last];
      CountOfTwo(rest, p, q);
      CountOfOneMore(rest, last, p);
      CountOfOneMore(rest, last, q);
    }
  }
}

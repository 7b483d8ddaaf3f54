/** The library sorts, as stable insertion sorts; what is proved holds of any correct stable sort. */
module Sorting {
  import opened Common

  ghost predicate Ordered<T(!new)>(s: seq<T>, less: (T, T) -> bool) {
    forall i, j :: 0 <= i < j < |s| ==> !less(s[j], s[i])
  }

  /** Among the elements of `s`, `less` is a strict weak order. */
  ghost predicate WeakOrderOn<T(!new)>(s: seq<T>, less: (T, T) -> bool) {
    && (forall a, b :: a in s && b in s && less(a, b) ==> !less(b, a))
    && (forall a, b, c :: a in s && b in s && c in s && less(a, c) ==> less(a, b) || less(b, c))
  }

  /** Among the elements of `s`, `less` leaves no two different ones unordered. */
  ghost predicate TotalOn<T(!new)>(s: seq<T>, less: (T, T) -> bool) {
    forall a, b :: a in s && b in s && a != b ==> less(a, b) || less(b, a)
  }

  function InsertBy<T>(s: seq<T>, x: T, less: (T, T) -> bool): seq<T> {
    if s == [] then [x]
    else if less(x, s[|s| - 1]) then InsertBy(s[..|s| - 1], x, less) + [s[|s| - 1]]
    else s + [x]
  }

  function SortBy<T>(s: seq<T>, less: (T, T) -> bool): seq<T> {
    if s == [] then [] else InsertBy(SortBy(s[..|s| - 1], less), s[|s| - 1], less)
  }

  lemma {:induction false} InsertPermutes<T>(s: seq<T>, x: T, less: (T, T) -> bool)
    ensures multiset(InsertBy(s, x, less)) == multiset(s) + multiset{x}
  {
    if s != [] {
      assert s == s[..|s| - 1] + [s[|s| - 1]];
      InsertPermutes(s[..|s| - 1], x, less);
    }
  }

  lemma {:induction false} SortPermutes<T>(s: seq<T>, less: (T, T) -> bool)
    ensures multiset(SortBy(s, less)) == multiset(s)
    ensures forall x :: x in SortBy(s, less) <==> x in s
  {
    if s != [] {
      assert s == s[..|s| - 1] + [s[|s| - 1]];
      SortPermutes(s[..|s| - 1], less);
      InsertPermutes(SortBy(s[..|s| - 1], less), s[|s| - 1], less);
    }
    SameMembers(SortBy(s, less), s);
  }

  lemma SortSnoc<T>(s: seq<T>, x: T, less: (T, T) -> bool)
    ensures SortBy(s + [x], less) == InsertBy(SortBy(s, less), x, less)
  {
    assert (s + [x])[..|s|] == s;
  }

  lemma InsertEnd<T>(s: seq<T>, x: T, less: (T, T) -> bool)
    requires s == [] || !less(x, s[|s| - 1])
    ensures InsertBy(s, x, less) == s + [x]
  {
  }

  lemma InsertFront<T>(y: T, x: T, less: (T, T) -> bool)
    requires less(x, y)
    ensures InsertBy([y], x, less) == [x, y]
  {
    assert [y][..0] == [];
    assert InsertBy([], x, less) == [x];
  }

  lemma SameMembers<T>(a: seq<T>, b: seq<T>)
    requires multiset(a) == multiset(b)
    ensures forall x :: x in a <==> x in b
    ensures |a| == |b|
  {
    assert forall x :: x in a <==> x in multiset(a);
    assert forall x :: x in b <==> x in multiset(b);
    assert |multiset(a)| == |a| && |multiset(b)| == |b|;
  }

  lemma TwiceCounts<T>(s: seq<T>, i: nat, j: nat)
    requires i < j < |s| && s[i] == s[j]
    ensures multiset(s)[s[i]] > 1
  {
    assert s == s[..j] + [s[j]] + s[j + 1..];
    assert s[..j][i] == s[i];
    assert s[i] in multiset(s[..j]);
  }

  lemma {:induction false} OnceCounts<T>(s: seq<T>, r: T)
    requires forall j, k :: 0 <= j < k < |s| ==> s[j] != s[k]
    ensures multiset(s)[r] <= 1
  {
    if s != [] {
      var init := s[..|s| - 1];
      OnceCounts(init, r);
      assert s == init + [s[|s| - 1]];
      if s[|s| - 1] == r {
        assert r !in init;
      }
    }
  }

  lemma EndOrders<T(!new)>(s: seq<T>, x: T, less: (T, T) -> bool)
    requires Ordered(s, less) && WeakOrderOn(s + [x], less) && s != [] && !less(x, s[|s| - 1])
    ensures Ordered(s + [x], less)
  {
    var last := s[|s| - 1];
    forall i | 0 <= i < |s|
      ensures !less(x, s[i])
    {
      assert s[i] in s + [x] && last in s + [x] && x in s + [x];
      assert i < |s| - 1 ==> !less(last, s[i]);
    }
  }

  lemma {:induction false} InsertOrders<T(!new)>(s: seq<T>, x: T, less: (T, T) -> bool)
    requires Ordered(s, less) && WeakOrderOn(s + [x], less)
    ensures Ordered(InsertBy(s, x, less), less)
  {
    if s != [] && !less(x, s[|s| - 1]) {
      EndOrders(s, x, less);
    } else if s != [] {
      var t, last := s[..|s| - 1], s[|s| - 1];
      assert forall y :: y in t + [x] ==> y in s + [x];
      assert last in s + [x] && x in s + [x];
      assert !less(last, x);
      assert WeakOrderOn(t + [x], less);
      hide WeakOrderOn;
      InsertOrders(t, x, less);
      InsertPermutes(t, x, less);
      var r := InsertBy(t, x, less);
      hide InsertBy;
      forall i | 0 <= i < |r|
        ensures !less(last, r[i])
      {
        assert r[i] in multiset(r);
        assert r[i] == x || r[i] in t;
      }
      assert InsertBy(s, x, less) == r + [last] by { InsertMiddle(s, x, less); }
    }
  }

  lemma InsertMiddle<T>(s: seq<T>, x: T, less: (T, T) -> bool)
    requires s != [] && less(x, s[|s| - 1])
    ensures InsertBy(s, x, less) == InsertBy(s[..|s| - 1], x, less) + [s[|s| - 1]]
  {
  }

  lemma {:induction false} SortOrders<T(!new)>(s: seq<T>, less: (T, T) -> bool)
    requires WeakOrderOn(s, less)
    ensures Ordered(SortBy(s, less), less)
  {
    if s != [] {
      var t, last := s[..|s| - 1], s[|s| - 1];
      assert forall y :: y in t ==> y in s;
      SortOrders(t, less);
      SortPermutes(t, less);
      assert forall y :: y in SortBy(t, less) + [last] ==> y in s;
      InsertOrders(SortBy(t, less), last, less);
    }
  }

  /** What a stable sort of the elements with `p` puts last: none comes after it, and one that ties with it stood before it. */
  ghost predicate LastOf<T(!new)>(s: seq<T>, p: T -> bool, i: nat, less: (T, T) -> bool) {
    && i < |s| && p(s[i])
    && (forall j :: 0 <= j <= i && p(s[j]) ==> !less(s[i], s[j]))
    && (forall j :: i < j < |s| && p(s[j]) ==> less(s[j], s[i]))
  }

  lemma LastOfSnoc<T(!new)>(init: seq<T>, x: T, p: T -> bool, i: nat, less: (T, T) -> bool)
    requires LastOf(init, p, i, less) && WeakOrderOn(init + [x], less)
    ensures i < |init|
    ensures LastOf(init + [x], p, if p(x) && !less(x, init[i]) then |init| else i, less)
  {
    var s := init + [x];
    forall j | 0 <= j <= |init| && p(s[j]) && !less(x, init[i])
      ensures !less(x, s[j])
    {
      assert s[j] in s && init[i] in s && x in s;
      assert j < |init| ==> s[j] == init[j];
    }
  }

  lemma SortedEnd<T(!new)>(s: seq<T>, x: T, less: (T, T) -> bool)
    ensures var r := SortBy(s + [x], less);
            r != [] && r[|r| - 1] == if s == [] || !less(x, SortBy(s, less)[|SortBy(s, less)| - 1]) then x
                                     else SortBy(s, less)[|SortBy(s, less)| - 1]
    ensures s != [] ==> SortBy(s, less) != []
  {
    SortPermutes(s, less);
    SortSnoc(s, x, less);
    var r := SortBy(s, less);
    assert s != [] ==> s[0] in r;
    if r == [] || !less(x, r[|r| - 1]) {
      InsertEnd(r, x, less);
    } else {
      InsertMiddle(r, x, less);
    }
  }

  lemma LastKept<T(!new)>(init: seq<T>, x: T, p: T -> bool, less: (T, T) -> bool)
    ensures Filter(init + [x], p) == if p(x) then Filter(init, p) + [x] else Filter(init, p)
  {
    FilterSnoc(init, x, p);
    assert Filter(init, p) + [] == Filter(init, p);
  }

  lemma OrderOfInit<T(!new)>(init: seq<T>, x: T, less: (T, T) -> bool)
    requires WeakOrderOn(init + [x], less)
    ensures WeakOrderOn(init, less) && !less(x, x)
  {
    assert x in init + [x] && forall y :: y in init ==> y in init + [x];
  }

  /** Where the kept element stands that no later kept element replaces; found from front to back. */
  ghost function EndIndex<T(!new)>(s: seq<T>, p: T -> bool, less: (T, T) -> bool): (i: int)
    ensures -1 <= i < |s|
  {
    if s == [] then -1
    else
      var n := |s| - 1;
      var before := EndIndex(s[..n], p, less);
      if p(s[n]) && (before < 0 || !less(s[n], s[before])) then n else before
  }

  lemma {:induction false} EndIndexIsLast<T(!new)>(s: seq<T>, p: T -> bool, less: (T, T) -> bool)
    requires WeakOrderOn(s, less)
    ensures if EndIndex(s, p, less) < 0 then forall j :: 0 <= j < |s| ==> !p(s[j]) else LastOf(s, p, EndIndex(s, p, less), less)
  {
    if s != [] {
      var n := |s| - 1;
      var init, x := s[..n], s[n];
      assert s == init + [x];
      OrderOfInit(init, x, less);
      EndIndexIsLast(init, p, less);
      var before := EndIndex(init, p, less);
      if before >= 0 {
        hide WeakOrderOn, LastOf;
        LastOfSnoc(init, x, p, before, less);
      } else {
        assert forall j :: 0 <= j < n ==> s[j] == init[j];
      }
    }
  }

  lemma {:induction false} SortEndsThere<T(!new)>(s: seq<T>, p: T -> bool, less: (T, T) -> bool)
    ensures var r, i := SortBy(Filter(s, p), less), EndIndex(s, p, less);
            (r == [] <==> i < 0) && (Filter(s, p) == [] <==> i < 0) && (i >= 0 ==> r[|r| - 1] == s[i])
  {
    if s != [] {
      var n := |s| - 1;
      var init, x := s[..n], s[n];
      assert s == init + [x];
      SortEndsThere(init, p, less);
      LastKept(init, x, p, less);
      SortedEnd(Filter(init, p), x, less);
      hide SortBy, Filter;
    }
  }

  lemma SortedLast<T(!new)>(s: seq<T>, p: T -> bool, less: (T, T) -> bool) returns (i: nat)
    requires Filter(s, p) != [] && WeakOrderOn(s, less)
    ensures LastOf(s, p, i, less)
    ensures var r := SortBy(Filter(s, p), less); r != [] && r[|r| - 1] == s[i]
  {
    EndIndexIsLast(s, p, less);
    SortEndsThere(s, p, less);
    i := EndIndex(s, p, less);
  }

  lemma DropLast<T>(s: seq<T>)
    requires s != []
    ensures multiset(s[..|s| - 1]) == multiset(s) - multiset{s[|s| - 1]}
  {
    assert s == s[..|s| - 1] + [s[|s| - 1]];
  }

  lemma LastIsUnique<T(!new)>(a: seq<T>, b: seq<T>, less: (T, T) -> bool)
    requires Ordered(a, less) && Ordered(b, less) && multiset(a) == multiset(b) && TotalOn(a, less) && a != [] && b != []
    ensures a[|a| - 1] == b[|b| - 1]
  {
    var x, y := a[|a| - 1], b[|b| - 1];
    assert x in multiset(b) && y in multiset(a);
    var i :| 0 <= i < |a| && a[i] == y;
    var j :| 0 <= j < |b| && b[j] == x;
    assert x in a && y in a;
  }

  lemma PrefixKeeps<T(!new)>(s: seq<T>, n: nat, less: (T, T) -> bool)
    requires n <= |s| && Ordered(s, less)
    ensures Ordered(s[..n], less) && (TotalOn(s, less) ==> TotalOn(s[..n], less))
  {
    assert forall y :: y in s[..n] ==> y in s;
  }

  lemma SameEnds<T>(a: seq<T>, b: seq<T>)
    requires a != [] && b != [] && a[|a| - 1] == b[|b| - 1] && a[..|a| - 1] == b[..|b| - 1]
    ensures a == b
  {
    assert a == a[..|a| - 1] + [a[|a| - 1]];
    assert b == b[..|b| - 1] + [b[|b| - 1]];
  }

  lemma SameRest<T(!new)>(a: seq<T>, b: seq<T>, less: (T, T) -> bool)
    requires Ordered(a, less) && Ordered(b, less) && multiset(a) == multiset(b) && TotalOn(a, less) && a != [] && b != []
    ensures a[|a| - 1] == b[|b| - 1] && multiset(a[..|a| - 1]) == multiset(b[..|b| - 1])
  {
    LastIsUnique(a, b, less);
    DropLast(a);
    DropLast(b);
  }

  /** An order that separates all elements leaves one sorted arrangement. */
  lemma {:induction false} SortedIsUnique<T(!new)>(a: seq<T>, b: seq<T>, less: (T, T) -> bool)
    requires Ordered(a, less) && Ordered(b, less) && multiset(a) == multiset(b) && TotalOn(a, less)
    ensures a == b
    decreases |a|
  {
    hide Ordered, TotalOn;
    SameMembers(a, b);
    if a != [] {
      SameRest(a, b, less);
      PrefixKeeps(a, |a| - 1, less);
      PrefixKeeps(b, |b| - 1, less);
      SortedIsUnique(a[..|a| - 1], b[..|b| - 1], less);
      SameEnds(a, b);
    }
  }

  /** Sorting under such an order depends only on what is sorted. */
  lemma SortIgnoresOrder<T(!new)>(a: seq<T>, b: seq<T>, less: (T, T) -> bool)
    requires multiset(a) == multiset(b) && WeakOrderOn(a, less) && TotalOn(a, less)
    ensures SortBy(a, less) == SortBy(b, less)
  {
    SameMembers(a, b);
    SortOrders(a, less);
    SortOrders(b, less);
    SortPermutes(a, less);
    SortPermutes(b, less);
    SortedIsUnique(SortBy(a, less), SortBy(b, less), less);
  }

  /** The step of the insertion that passes the last element. */
  lemma PassLast<T(!new)>(init: seq<T>, last: T, x: T, p: T -> bool, less: (T, T) -> bool)
    requires less(x, last)
    requires Filter(InsertBy(init, x, less), p) == if p(x) then InsertBy(Filter(init, p), x, less) else Filter(init, p)
    ensures Filter(InsertBy(init + [last], x, less), p)
            == if p(x) then InsertBy(Filter(init + [last], p), x, less) else Filter(init + [last], p)
  {
    hide Filter, InsertBy;
    var kept := Filter(init, p);
    InsertBefore(init, last, x, less);
    FilterSnoc(InsertBy(init, x, less), last, p);
    FilterSnoc(init, last, p);
    if p(last) {
      InsertBefore(kept, last, x, less);
    } else {
      assert kept + [] == kept && Filter(InsertBy(init, x, less), p) + [] == Filter(InsertBy(init, x, less), p);
    }
  }

  lemma InsertBefore<T>(s: seq<T>, last: T, x: T, less: (T, T) -> bool)
    requires less(x, last)
    ensures InsertBy(s + [last], x, less) == InsertBy(s, x, less) + [last]
  {
    assert (s + [last])[..|s|] == s;
  }

  /** The step of the insertion that stops behind the last element. */
  lemma StopAtEnd<T(!new)>(s: seq<T>, x: T, p: T -> bool, less: (T, T) -> bool)
    requires s == [] || !less(x, s[|s| - 1])
    requires Filter(s, p) == [] || !less(x, Filter(s, p)[|Filter(s, p)| - 1])
    ensures Filter(InsertBy(s, x, less), p) == if p(x) then InsertBy(Filter(s, p), x, less) else Filter(s, p)
  {
    hide Filter, InsertBy;
    InsertEnd(s, x, less);
    FilterSnoc(s, x, p);
    InsertEnd(Filter(s, p), x, less);
    assert Filter(s, p) + [] == Filter(s, p);
  }

  lemma WeakOrderOfInit<T(!new)>(s: seq<T>, x: T, less: (T, T) -> bool)
    requires s != [] && WeakOrderOn(s + [x], less)
    ensures WeakOrderOn(s[..|s| - 1] + [x], less)
  {
    assert forall y :: y in s[..|s| - 1] + [x] ==> y in s + [x];
  }

  lemma NothingKept<T>(p: T -> bool)
    ensures Filter([], p) == []
  {
  }

  /** Inserting commutes with dropping elements, also next to elements that compare equal. */
  lemma {:induction false} InsertFilter<T(!new)>(s: seq<T>, x: T, p: T -> bool, less: (T, T) -> bool)
    requires Ordered(s, less) && WeakOrderOn(s + [x], less)
    ensures Filter(InsertBy(s, x, less), p) == if p(x) then InsertBy(Filter(s, p), x, less) else Filter(s, p)
  {
    hide Ordered, WeakOrderOn, TotalOn, Filter, InsertBy;
    if s == [] {
      NothingKept(p);
      StopAtEnd(s, x, p, less);
    } else if less(x, s[|s| - 1]) {
      PrefixKeeps(s, |s| - 1, less);
      WeakOrderOfInit(s, x, less);
      InsertFilter(s[..|s| - 1], x, p, less);
      PassLast(s[..|s| - 1], s[|s| - 1], x, p, less);
      assert s[..|s| - 1] + [s[|s| - 1]] == s;
    } else {
      if Filter(s, p) != [] {
        FilterKeepsBehind(s, x, p, less);
      }
      StopAtEnd(s, x, p, less);
    }
  }

  /** What need not stand before the last element need not stand before any kept one. */
  lemma FilterKeepsBehind<T(!new)>(s: seq<T>, x: T, p: T -> bool, less: (T, T) -> bool)
    requires Ordered(s, less) && WeakOrderOn(s + [x], less) && s != [] && !less(x, s[|s| - 1]) && Filter(s, p) != []
    ensures !less(x, Filter(s, p)[|Filter(s, p)| - 1])
  {
    var y := Filter(s, p)[|Filter(s, p)| - 1];
    FilterMembers(s, p);
    assert y in Filter(s, p);
    var i :| 0 <= i < |s| && s[i] == y;
    EndOrders(s, x, less);
    assert (s + [x])[i] == y && (s + [x])[|s|] == x;
  }

  /** A stable sort commutes with dropping elements. */
  lemma {:induction false} SortFilter<T(!new)>(s: seq<T>, p: T -> bool, less: (T, T) -> bool)
    requires WeakOrderOn(s, less)
    ensures SortBy(Filter(s, p), less) == Filter(SortBy(s, less), p)
  {
    if s != [] {
      var init, x := s[..|s| - 1], s[|s| - 1];
      assert s == init + [x] && forall y :: y in init ==> y in s;
      SortFilter(init, p, less);
      SortOrders(init, less);
      SortPermutes(init, less);
      assert forall y :: y in SortBy(init, less) + [x] ==> y in s;
      InsertFilter(SortBy(init, less), x, p, less);
      hide Filter, SortBy, InsertBy, Ordered, WeakOrderOn;
      FilterSnoc(init, x, p);
      SortSnoc(init, x, less);
      SortSnoc(Filter(init, p), x, less);
      assert Filter(init, p) + [] == Filter(init, p);
    }
  }
}

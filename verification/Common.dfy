/** Small vocabulary shared by the models: optional values, outcomes and counting. */
module Common {

  datatype Option<+T> = None | Some(value: T)

  datatype Result<+T, +E> = Ok(value: T) | Err(error: E)

  const MIN_INT64: int := -0x8000_0000_0000_0000
  const MAX_INT64: int := 0x7FFF_FFFF_FFFF_FFFF

  type Int64 = x: int | MIN_INT64 <= x <= MAX_INT64 witness 0

  type ResidentId = nat

  /** The zero ID names no resident. */
  const ZERO_ID: ResidentId := 0

  /** Number of elements of `s` that satisfy `p`. */
  function CountIf<T>(s: seq<T>, p: T -> bool): nat {
    if s == [] then 0
    else CountIf(s[..|s| - 1], p) + if p(s[|s| - 1]) then 1 else 0
  }

  lemma CountAppend<T>(s: seq<T>, x: T, p: T -> bool)
    ensures CountIf(s + [x], p) == CountIf(s, p) + if p(x) then 1 else 0
  {
    assert (s + [x])[..|s|] == s;
  }

  /** Overwriting one element moves the count by what the old and the new element contribute. */
  lemma {:induction false} CountUpdate<T>(s: seq<T>, i: nat, x: T, p: T -> bool)
    requires i < |s|
    ensures CountIf(s[i := x], p) + (if p(s[i]) then 1 else 0) == CountIf(s, p) + if p(x) then 1 else 0
  {
    var n := |s| - 1;
    if i == n {
      assert s[i := x][..n] == s[..n];
    } else {
      assert s[i := x][..n] == s[..n][i := x];
      CountUpdate(s[..n], i, x, p);
    }
  }

  lemma {:induction false} CountBound<T>(s: seq<T>, p: T -> bool)
    ensures CountIf(s, p) <= |s|
    ensures CountIf(s, p) == 0 <==> forall i :: 0 <= i < |s| ==> !p(s[i])
  {
    if s != [] {
      CountBound(s[..|s| - 1], p);
      assert forall i :: 0 <= i < |s| - 1 ==> s[..|s| - 1][i] == s[i];
    }
  }

  /** A stronger property counts no more elements, and strictly fewer when some element tells them apart. */
  lemma {:induction false} CountImplied<T>(s: seq<T>, p: T -> bool, q: T -> bool)
    requires forall i :: 0 <= i < |s| && p(s[i]) ==> q(s[i])
    ensures CountIf(s, p) <= CountIf(s, q)
    ensures (exists i :: 0 <= i < |s| && q(s[i]) && !p(s[i])) ==> CountIf(s, p) < CountIf(s, q)
  {
    if s != [] {
      var t := s[..|s| - 1];
      assert forall i :: 0 <= i < |t| ==> t[i] == s[i];
      CountImplied(t, p, q);
    }
  }

  function Filter<T>(s: seq<T>, p: T -> bool): seq<T> {
    if s == [] then [] else Filter(s[..|s| - 1], p) + if p(s[|s| - 1]) then [s[|s| - 1]] else []
  }

  lemma {:induction false} FilterMembers<T(!new)>(s: seq<T>, p: T -> bool)
    ensures forall x :: x in Filter(s, p) <==> x in s && p(x)
  {
    if s != [] {
      FilterMembers(s[..|s| - 1], p);
      assert s == s[..|s| - 1] + [s[|s| - 1]];
    }
  }

  lemma FilterSnoc<T(!new)>(s: seq<T>, x: T, p: T -> bool)
    ensures Filter(s + [x], p) == Filter(s, p) + if p(x) then [x] else []
  {
    assert (s + [x])[..|s|] == s;
  }

  lemma {:induction false} FilterJoin<T(!new)>(a: seq<T>, b: seq<T>, p: T -> bool)
    ensures Filter(a + b, p) == Filter(a, p) + Filter(b, p)
  {
    if b == [] {
      assert a + b == a;
    } else {
      var init := b[..|b| - 1];
      assert a + b == (a + init) + [b[|b| - 1]];
      FilterSnoc(a + init, b[|b| - 1], p);
      FilterJoin(a, init, p);
    }
  }

  lemma {:induction false} FilterAll<T>(s: seq<T>, p: T -> bool)
    requires forall i :: 0 <= i < |s| ==> p(s[i])
    ensures Filter(s, p) == s
  {
    if s != [] {
      FilterAll(s[..|s| - 1], p);
    }
  }

  lemma FilterNone<T(!new)>(s: seq<T>, p: T -> bool)
    requires forall x :: x in s ==> !p(x)
    ensures Filter(s, p) == []
  {
    FilterMembers(s, p);
    assert forall x :: x in Filter(s, p) ==> false;
  }

  lemma ThroughStep<T(!new)>(init: seq<T>, x: T, keep: T -> bool, f: T -> bool, u: T -> bool)
    requires u(x) ==> keep(x)
    requires Filter(Filter(Filter(init, keep), f), u) == Filter(Filter(init, f), u)
    ensures Filter(Filter(Filter(init + [x], keep), f), u) == Filter(Filter(init + [x], f), u)
  {
    hide Filter;
    var kept := Filter(init, keep);
    FilterSnoc(init, x, keep);
    FilterSnoc(init, x, f);
    FilterSnoc(kept, x, f);
    FilterSnoc(Filter(kept, f), x, u);
    FilterSnoc(Filter(init, f), x, u);
    assert forall s: seq<T> :: s + [] == s;
  }

  /** Dropping elements that the last filter would drop anyway changes nothing. */
  lemma {:induction false} FilterThrough<T(!new)>(s: seq<T>, keep: T -> bool, f: T -> bool, u: T -> bool)
    requires forall x :: u(x) ==> keep(x)
    ensures Filter(Filter(Filter(s, keep), f), u) == Filter(Filter(s, f), u)
  {
    if s != [] {
      FilterThrough(s[..|s| - 1], keep, f, u);
      ThroughStep(s[..|s| - 1], s[|s| - 1], keep, f, u);
      assert s == s[..|s| - 1] + [s[|s| - 1]];
    }
  }

  function Total<T>(s: seq<T>, f: T -> nat): nat {
    if s == [] then 0 else Total(s[..|s| - 1], f) + f(s[|s| - 1])
  }

  lemma {:induction false} TotalUpdate<T>(s: seq<T>, i: nat, x: T, f: T -> nat)
    requires i < |s|
    ensures Total(s[i := x], f) + f(s[i]) == Total(s, f) + f(x)
  {
    var n := |s| - 1;
    if i == n {
      assert s[i := x][..n] == s[..n];
    } else {
      assert s[i := x][..n] == s[..n][i := x];
      TotalUpdate(s[..n], i, x, f);
    }
  }
}

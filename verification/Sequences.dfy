/** Sums, stable sorting and greedy choice over sequences. */
module Sequences {

  ghost predicate Distinct<T(!new)>(xs: seq<T>) {
    forall i, j :: 0 <= i < j < |xs| ==> xs[i] != xs[j]
  }

  function Take<T>(xs: seq<T>, n: nat): (r: seq<T>)
    ensures |r| <= n && r <= xs
  {
    if n <= |xs| then xs[..n] else xs
  }

  function Filter<T>(xs: seq<T>, keep: T -> bool): seq<T> {
    if xs == [] then []
    else if keep(xs[0]) then [xs[0]] + Filter(xs[1..], keep)
    else Filter(xs[1..], keep)
  }

  lemma Regroup<T>(a: seq<T>, b: seq<T>, c: seq<T>)
    ensures a + (b + c) == (a + b) + c
  {
  }

  lemma {:induction false} FilterMembers<T(!new)>(xs: seq<T>, keep: T -> bool)
    ensures forall x :: x in Filter(xs, keep) <==> x in xs && keep(x)
    ensures Distinct(xs) ==> Distinct(Filter(xs, keep))
  {
    if xs != [] {
      FilterMembers(xs[1..], keep);
      assert xs == [xs[0]] + xs[1..];
      if Distinct(xs) {
        assert forall j :: 0 <= j < |xs[1..]| ==> xs[1..][j] == xs[j + 1] && xs[1..][j] != xs[0];
        assert xs[0] !in Filter(xs[1..], keep);
      }
    }
  }

  // ---------- sums ----------

  function Sum<T>(xs: seq<T>, f: T -> real): real {
    if xs == [] then 0.0 else f(xs[0]) + Sum(xs[1..], f)
  }

  lemma {:induction false} SumConcat<T>(a: seq<T>, b: seq<T>, f: T -> real)
    ensures Sum(a + b, f) == Sum(a, f) + Sum(b, f)
  {
    if a == [] {
      assert a + b == b;
    } else {
      assert (a + b)[1..] == a[1..] + b;
      SumConcat(a[1..], b, f);
    }
  }

  lemma SumNext<T>(xs: seq<T>, i: nat, f: T -> real)
    requires i < |xs|
    ensures Sum(xs[..i + 1], f) == Sum(xs[..i], f) + f(xs[i])
  {
    assert xs[..i + 1] == xs[..i] + [xs[i]];
    SumConcat(xs[..i], [xs[i]], f);
  }

  lemma SumUpdate<T>(xs: seq<T>, i: nat, x: T, f: T -> real)
    requires i < |xs|
    ensures Sum(xs[i := x], f) == Sum(xs, f) - f(xs[i]) + f(x)
  {
    var a, b := xs[..i], xs[i + 1..];
    assert xs == a + ([xs[i]] + b);
    assert xs[i := x] == a + ([x] + b);
    SumConcat(a, [xs[i]] + b, f);
    SumConcat(a, [x] + b, f);
    assert ([xs[i]] + b)[1..] == b && ([x] + b)[1..] == b;
  }

  function Total<T>(xs: seq<T>, f: T -> nat): nat {
    if xs == [] then 0 else f(xs[0]) + Total(xs[1..], f)
  }

  lemma {:induction false} TotalConcat<T>(a: seq<T>, b: seq<T>, f: T -> nat)
    ensures Total(a + b, f) == Total(a, f) + Total(b, f)
  {
    if a == [] {
      assert a + b == b;
    } else {
      assert (a + b)[1..] == a[1..] + b;
      TotalConcat(a[1..], b, f);
    }
  }

  lemma TotalUpdate<T>(xs: seq<T>, i: nat, x: T, f: T -> nat)
    requires i < |xs|
    ensures Total(xs[i := x], f) == Total(xs, f) - f(xs[i]) + f(x)
  {
    var a, b := xs[..i], xs[i + 1..];
    assert xs == a + ([xs[i]] + b);
    assert xs[i := x] == a + ([x] + b);
    TotalConcat(a, [xs[i]] + b, f);
    TotalConcat(a, [x] + b, f);
    assert ([xs[i]] + b)[1..] == b && ([x] + b)[1..] == b;
  }

  /** How many elements of `xs` satisfy `p`. */
  function Count<T>(xs: seq<T>, p: T -> bool): nat {
    if xs == [] then 0 else (if p(xs[0]) then 1 else 0) + Count(xs[1..], p)
  }

  lemma {:induction false} CountConcat<T>(a: seq<T>, b: seq<T>, p: T -> bool)
    ensures Count(a + b, p) == Count(a, p) + Count(b, p)
  {
    if a == [] {
      assert a + b == b;
    } else {
      assert (a + b)[1..] == a[1..] + b;
      CountConcat(a[1..], b, p);
    }
  }

  lemma CountUpdate<T>(xs: seq<T>, i: nat, x: T, p: T -> bool)
    requires i < |xs|
    ensures Count(xs[i := x], p) == Count(xs, p) - (if p(xs[i]) then 1 else 0) + (if p(x) then 1 else 0)
  {
    var a, b := xs[..i], xs[i + 1..];
    assert xs == a + ([xs[i]] + b);
    assert xs[i := x] == a + ([x] + b);
    CountConcat(a, [xs[i]] + b, p);
    CountConcat(a, [x] + b, p);
    assert ([xs[i]] + b)[1..] == b && ([x] + b)[1..] == b;
  }

  // ---------- stable sorting ----------

  ghost predicate TotalPreorder<T(!new)>(leq: (T, T) -> bool) {
    && (forall x, y :: leq(x, y) || leq(y, x))
    && (forall x, y, z :: leq(x, y) && leq(y, z) ==> leq(x, z))
  }

  ghost predicate Sorted<T>(xs: seq<T>, leq: (T, T) -> bool) {
    forall i, j :: 0 <= i < j < |xs| ==> leq(xs[i], xs[j])
  }

  function Insert<T>(x: T, xs: seq<T>, leq: (T, T) -> bool): seq<T> {
    if xs == [] || leq(x, xs[0]) then [x] + xs
    else [xs[0]] + Insert(x, xs[1..], leq)
  }

  /** `sorted`: ascending, elements that compare equal keep their order. */
  function Sort<T>(xs: seq<T>, leq: (T, T) -> bool): seq<T> {
    if xs == [] then [] else Insert(xs[0], Sort(xs[1..], leq), leq)
  }

  lemma SortedCons<T(!new)>(x: T, xs: seq<T>, leq: (T, T) -> bool)
    requires Sorted(xs, leq) && forall y :: y in xs ==> leq(x, y)
    ensures Sorted([x] + xs, leq)
  {
  }

  lemma {:induction false} InsertAdds<T(!new)>(x: T, xs: seq<T>, leq: (T, T) -> bool)
    ensures multiset(Insert(x, xs, leq)) == multiset{x} + multiset(xs)
  {
    if xs != [] && !leq(x, xs[0]) {
      InsertAdds(x, xs[1..], leq);
      assert xs == [xs[0]] + xs[1..];
    }
  }

  lemma {:induction false} InsertMembers<T(!new)>(x: T, xs: seq<T>, leq: (T, T) -> bool, y: T)
    requires y in Insert(x, xs, leq)
    ensures y == x || y in xs
  {
    if xs != [] && !leq(x, xs[0]) && y != xs[0] {
      InsertMembers(x, xs[1..], leq, y);
    }
  }

  lemma {:induction false} InsertSorts<T(!new)>(x: T, xs: seq<T>, leq: (T, T) -> bool)
    requires TotalPreorder(leq) && Sorted(xs, leq)
    ensures Sorted(Insert(x, xs, leq), leq)
    ensures multiset(Insert(x, xs, leq)) == multiset{x} + multiset(xs)
  {
    InsertAdds(x, xs, leq);
    if xs == [] || leq(x, xs[0]) {
      SortedCons(x, xs, leq);
    } else {
      InsertSorts(x, xs[1..], leq);
      forall y | y in Insert(x, xs[1..], leq)
        ensures leq(xs[0], y)
      {
        InsertMembers(x, xs[1..], leq, y);
      }
      SortedCons(xs[0], Insert(x, xs[1..], leq), leq);
    }
  }

  lemma {:induction false} SortSorts<T(!new)>(xs: seq<T>, leq: (T, T) -> bool)
    requires TotalPreorder(leq)
    ensures Sorted(Sort(xs, leq), leq)
    ensures multiset(Sort(xs, leq)) == multiset(xs)
  {
    if xs != [] {
      SortSorts(xs[1..], leq);
      InsertSorts(xs[0], Sort(xs[1..], leq), leq);
      assert xs == [xs[0]] + xs[1..];
    }
  }

  lemma {:induction false} InsertIsStable<T(!new)>(x: T, xs: seq<T>, leq: (T, T) -> bool, keep: T -> bool)
    requires keep(x) ==> forall y :: keep(y) ==> leq(x, y)
    ensures Filter(Insert(x, xs, leq), keep) == Filter([x] + xs, keep)
  {
    assert ([x] + xs)[1..] == xs;
    if xs != [] && !leq(x, xs[0]) {
      InsertIsStable(x, xs[1..], leq, keep);
      var rest := Insert(x, xs[1..], leq);
      assert ([xs[0]] + rest)[1..] == rest;
      assert ([x] + xs[1..])[1..] == xs[1..];
    }
  }

  /** Within any class of elements that all compare equal, sorting changes nothing. */
  lemma {:induction false} SortIsStable<T(!new)>(xs: seq<T>, leq: (T, T) -> bool, keep: T -> bool)
    requires forall x, y :: keep(x) && keep(y) ==> leq(x, y)
    ensures Filter(Sort(xs, leq), keep) == Filter(xs, keep)
  {
    if xs != [] {
      SortIsStable(xs[1..], leq, keep);
      InsertIsStable(xs[0], Sort(xs[1..], leq), leq, keep);
      assert ([xs[0]] + Sort(xs[1..], leq))[1..] == Sort(xs[1..], leq);
    }
  }

  /** Sorted, and elements that compare equal stand in the order of `before`. */
  ghost predicate Ranked<T>(xs: seq<T>, leq: (T, T) -> bool, before: (T, T) -> bool) {
    forall i, j :: 0 <= i < j < |xs| ==> leq(xs[i], xs[j]) && (leq(xs[j], xs[i]) ==> before(xs[i], xs[j]))
  }

  lemma {:induction false} InsertRanks<T(!new)>(x: T, xs: seq<T>, leq: (T, T) -> bool, before: (T, T) -> bool)
    requires TotalPreorder(leq) && Ranked(xs, leq, before) && forall y :: y in xs ==> before(x, y)
    ensures Ranked(Insert(x, xs, leq), leq, before)
  {
    if xs != [] {
      assert forall y :: y in xs ==> y == xs[0] || leq(xs[0], y);
      if !leq(x, xs[0]) {
        var rest := Insert(x, xs[1..], leq);
        InsertRanks(x, xs[1..], leq, before);
        forall y | y in rest
          ensures leq(xs[0], y) && (leq(y, xs[0]) ==> before(xs[0], y))
        {
          InsertMembers(x, xs[1..], leq, y);
        }
        RankedCons(xs[0], rest, leq, before);
      } else {
        forall y | y in xs
          ensures leq(x, y)
        {
          assert leq(x, xs[0]);
        }
        RankedCons(x, xs, leq, before);
      }
    }
  }

  lemma RankedCons<T(!new)>(x: T, xs: seq<T>, leq: (T, T) -> bool, before: (T, T) -> bool)
    requires Ranked(xs, leq, before)
    requires forall y :: y in xs ==> leq(x, y) && (leq(y, x) ==> before(x, y))
    ensures Ranked([x] + xs, leq, before)
  {
    var all := [x] + xs;
    forall i, j | 0 <= i < j < |all|
      ensures leq(all[i], all[j]) && (leq(all[j], all[i]) ==> before(all[i], all[j]))
    {
      if i == 0 {
        assert all[j] == xs[j - 1] && xs[j - 1] in xs;
      } else {
        assert all[i] == xs[i - 1] && all[j] == xs[j - 1];
      }
    }
  }

  /** Elements that compare equal keep the order they came in. */
  lemma {:induction false} SortRanks<T(!new)>(xs: seq<T>, leq: (T, T) -> bool, before: (T, T) -> bool)
    requires TotalPreorder(leq) && Sorted(xs, before)
    ensures Ranked(Sort(xs, leq), leq, before)
  {
    if xs != [] {
      assert Sorted(xs[1..], before);
      SortRanks(xs[1..], leq, before);
      SortSorts(xs[1..], leq);
      forall y | y in Sort(xs[1..], leq)
        ensures before(xs[0], y)
      {
        assert y in multiset(xs[1..]);
        var j :| 0 <= j < |xs[1..]| && xs[1..][j] == y;
        assert xs[j + 1] == y;
      }
      InsertRanks(xs[0], Sort(xs[1..], leq), leq, before);
    }
  }

  lemma {:induction false} SortedIsFixed<T(!new)>(xs: seq<T>, leq: (T, T) -> bool)
    requires Sorted(xs, leq)
    ensures Sort(xs, leq) == xs
  {
    if xs != [] {
      assert Sorted(xs[1..], leq);
      SortedIsFixed(xs[1..], leq);
      if |xs| > 1 {
        assert xs[1..][0] == xs[1];
      }
      assert xs == [xs[0]] + xs[1..];
    }
  }

  lemma DistinctByMultiset<T(!new)>(xs: seq<T>, ys: seq<T>)
    requires Distinct(xs) && multiset(xs) == multiset(ys)
    ensures Distinct(ys)
    ensures forall x :: x in xs <==> x in ys
  {
    forall x
      ensures x in xs <==> x in ys
    {
      assert x in multiset(xs) <==> x in multiset(ys);
    }
    forall i, j | 0 <= i < j < |ys|
      ensures ys[i] != ys[j]
    {
      OccursOnce(xs, ys[i]);
      assert ys == ys[..j] + ([ys[j]] + ys[j + 1..]);
      assert ys[i] in multiset(ys[..j]) by {
        assert ys[..j][i] == ys[i];
      }
    }
  }

  lemma {:induction false} OccursOnce<T(!new)>(xs: seq<T>, x: T)
    requires Distinct(xs)
    ensures multiset(xs)[x] <= 1
  {
    if xs != [] {
      assert xs == [xs[0]] + xs[1..];
      assert Distinct(xs[1..]);
      OccursOnce(xs[1..], x);
      assert xs[0] !in xs[1..];
    }
  }

  // ---------- greedy choice ----------

  /** Different elements of `ys` are no more than `ys` has. */
  lemma {:induction false} NoMoreThan<T(!new)>(xs: seq<T>, ys: seq<T>)
    requires Distinct(xs) && forall x :: x in xs ==> x in ys
    ensures |xs| <= |ys|
  {
    if xs != [] {
      assert xs[0] in ys;
      var i :| 0 <= i < |ys| && ys[i] == xs[0];
      var rest := ys[..i] + ys[i + 1..];
      forall x | x in xs[1..]
        ensures x in rest
      {
        var j :| 0 <= j < |xs[1..]| && xs[1..][j] == x;
        assert x == xs[j + 1] && x != xs[0] && x in ys;
        var k :| 0 <= k < |ys| && ys[k] == x;
        assert k < i || k > i;
        assert x == rest[if k < i then k else k - 1];
      }
      assert Distinct(xs[1..]);
      NoMoreThan(xs[1..], rest);
    }
  }

  lemma FewerThan<T(!new)>(xs: seq<T>, ys: seq<T>, y: T)
    requires Distinct(xs) && (forall x :: x in xs ==> x in ys) && y in ys && y !in xs
    ensures |xs| < |ys|
  {
    NoMoreThan([y] + xs, ys);
  }

  lemma {:induction false} SumNonNegative<T>(xs: seq<T>, gain: T -> real)
    requires forall x :: x in xs ==> gain(x) >= 0.0
    ensures Sum(xs, gain) >= 0.0
  {
    if xs != [] {
      assert xs[0] in xs && forall x :: x in xs[1..] ==> x in xs;
      SumNonNegative(xs[1..], gain);
    }
  }

  lemma Without<T(!new)>(xs: seq<T>, i: nat, gain: T -> real) returns (ys: seq<T>)
    requires i < |xs| && Distinct(xs)
    ensures Distinct(ys) && |ys| == |xs| - 1
    ensures forall y :: y in ys <==> y in xs && y != xs[i]
    ensures Sum(xs, gain) == gain(xs[i]) + Sum(ys, gain)
  {
    var a, b := xs[..i], xs[i + 1..];
    ys := a + b;
    assert xs == a + ([xs[i]] + b);
    SumConcat(a, [xs[i]] + b, gain);
    SumConcat(a, b, gain);
    assert ([xs[i]] + b)[1..] == b;
    assert forall j :: 0 <= j < i ==> ys[j] == xs[j];
    assert forall j :: i <= j < |ys| ==> ys[j] == xs[j + 1];
  }

  /** Taking the first `n` of a ranking gains at least as much as any choice of at most `n` of it. */
  lemma {:induction false} GreedyIsBest<T(!new)>(ranked: seq<T>, chosen: seq<T>, n: nat, gain: T -> real)
    requires Distinct(chosen) && |chosen| <= n
    requires forall x :: x in chosen ==> x in ranked
    requires forall x :: x in ranked ==> gain(x) >= 0.0
    requires forall i, j :: 0 <= i < j < |ranked| ==> gain(ranked[i]) >= gain(ranked[j])
    ensures Sum(chosen, gain) <= Sum(Take(ranked, n), gain)
  {
    if chosen == [] {
      SumNonNegative(Take(ranked, n), gain);
    } else {
      assert chosen[0] in ranked;
      var best, rest := ranked[0], ranked[1..];
      assert ranked == [best] + rest;
      var i := 0;
      if best in chosen {
        i :| 0 <= i < |chosen| && chosen[i] == best;
      }
      var others := Without(chosen, i, gain);
      assert gain(chosen[i]) <= gain(best);
      GreedyIsBest(rest, others, n - 1, gain);
      assert Take(ranked, n)[1..] == Take(rest, n - 1);
    }
  }
}

/** Sums and counts over sequences by a weight or a test, and the laws the reports rest on. */
module Folds {

  ghost function SumBy<T>(s: seq<T>, f: T -> real): (t: real) {
    if s == [] then 0.0 else SumBy(s[..|s| - 1], f) + f(s[|s| - 1])
  }

  ghost function CountBy<T>(s: seq<T>, p: T -> bool): (n: nat) {
    if s == [] then 0 else CountBy(s[..|s| - 1], p) + (if p(s[|s| - 1]) then 1 else 0)
  }

  function FilterBy<T>(s: seq<T>, p: T -> bool): (r: seq<T>) {
    if s == [] then []
    else FilterBy(s[..|s| - 1], p) + (if p(s[|s| - 1]) then [s[|s| - 1]] else [])
  }

  ghost predicate NoDuplicates<T>(s: seq<T>) {
    forall i, j :: 0 <= i < j < |s| ==> s[i] != s[j]
  }

  lemma SlicePush<T>(s: seq<T>, i: nat)
    requires i < |s|
    ensures s[..i + 1] == s[..i] + [s[i]]
  {
  }

  lemma SliceAll<T>(s: seq<T>)
    ensures s[..|s|] == s
  {
  }

  lemma SumByPush<T>(s: seq<T>, x: T, f: T -> real)
    ensures SumBy(s + [x], f) == SumBy(s, f) + f(x)
  {
    assert (s + [x])[..|s|] == s;
  }

  lemma CountByPush<T>(s: seq<T>, x: T, p: T -> bool)
    ensures CountBy(s + [x], p) == CountBy(s, p) + (if p(x) then 1 else 0)
  {
    assert (s + [x])[..|s|] == s;
  }

  lemma FilterByPush<T>(s: seq<T>, x: T, p: T -> bool)
    ensures FilterBy(s + [x], p) == FilterBy(s, p) + (if p(x) then [x] else [])
  {
    assert (s + [x])[..|s|] == s;
  }

  lemma {:induction false} SumByConcat<T>(s: seq<T>, t: seq<T>, f: T -> real)
    ensures SumBy(s + t, f) == SumBy(s, f) + SumBy(t, f)
  {
    if t == [] {
      assert s + t == s;
    } else {
      var t', x := t[..|t| - 1], t[|t| - 1];
      assert s + t == (s + t') + [x];
      SumByPush(s + t', x, f);
      SumByConcat(s, t', f);
    }
  }

  lemma {:induction false} SumByCongruent<T>(s: seq<T>, f: T -> real, g: T -> real)
    requires forall x :: x in s ==> f(x) == g(x)
    ensures SumBy(s, f) == SumBy(s, g)
  {
    if s != [] {
      SumByCongruent(s[..|s| - 1], f, g);
    }
  }

  lemma {:induction false} CountByCongruent<T>(s: seq<T>, p: T -> bool, q: T -> bool)
    requires forall x :: x in s ==> p(x) == q(x)
    ensures CountBy(s, p) == CountBy(s, q)
  {
    if s != [] {
      CountByCongruent(s[..|s| - 1], p, q);
    }
  }

  lemma {:induction false} FilterByCongruent<T>(s: seq<T>, p: T -> bool, q: T -> bool)
    requires forall x :: x in s ==> p(x) == q(x)
    ensures FilterBy(s, p) == FilterBy(s, q)
  {
    if s != [] {
      FilterByCongruent(s[..|s| - 1], p, q);
    }
  }

  /** Position by position equal terms have equal sums. */
  lemma {:induction false} SumByPairwise<A, B>(s: seq<A>, t: seq<B>, f: A -> real, g: B -> real)
    requires |s| == |t| && forall i :: 0 <= i < |s| ==> f(s[i]) == g(t[i])
    ensures SumBy(s, f) == SumBy(t, g)
  {
    if s != [] {
      SumByPairwise(s[..|s| - 1], t[..|t| - 1], f, g);
    }
  }

  lemma {:induction false} CountByPairwise<A, B>(s: seq<A>, t: seq<B>, p: A -> bool, q: B -> bool)
    requires |s| == |t| && forall i :: 0 <= i < |s| ==> p(s[i]) == q(t[i])
    ensures CountBy(s, p) == CountBy(t, q)
  {
    if s != [] {
      CountByPairwise(s[..|s| - 1], t[..|t| - 1], p, q);
    }
  }

  lemma {:induction false} SumByAdd<T>(s: seq<T>, f: T -> real, g: T -> real, h: T -> real)
    requires forall x :: x in s ==> h(x) == f(x) + g(x)
    ensures SumBy(s, h) == SumBy(s, f) + SumBy(s, g)
  {
    if s != [] {
      SumByAdd(s[..|s| - 1], f, g, h);
    }
  }

  lemma {:induction false} SumByBound<T>(s: seq<T>, f: T -> real, g: T -> real)
    requires forall x :: x in s ==> f(x) <= g(x)
    ensures SumBy(s, f) <= SumBy(s, g)
  {
    if s != [] {
      SumByBound(s[..|s| - 1], f, g);
    }
  }

  /** Under a pointwise bound the sums agree exactly when every term does. */
  lemma {:induction false} SumByTight<T>(s: seq<T>, f: T -> real, g: T -> real)
    requires forall x :: x in s ==> f(x) <= g(x)
    ensures SumBy(s, f) == SumBy(s, g) <==> forall x :: x in s ==> f(x) == g(x)
  {
    if s != [] {
      var front, last := s[..|s| - 1], s[|s| - 1];
      SumByTight(front, f, g);
      SumByBound(front, f, g);
      assert forall x :: x in s <==> x in front || x == last;
    }
  }

  /** Reordering a double sum: by rows or by columns. */
  lemma {:induction false} SumBySwap<A, B>(rows: seq<A>, cols: seq<B>, f: A -> B -> real, g: B -> A -> real,
                                           rowSum: A -> real, colSum: B -> real)
    requires forall a, b :: a in rows && b in cols ==> f(a)(b) == g(b)(a)
    requires forall a :: a in rows ==> rowSum(a) == SumBy(cols, f(a))
    requires forall b :: b in cols ==> colSum(b) == SumBy(rows, g(b))
    ensures SumBy(rows, rowSum) == SumBy(cols, colSum)
  {
    if rows == [] {
      SumByZero(cols, colSum);
    } else {
      var front, last := rows[..|rows| - 1], rows[|rows| - 1];
      var inner := b => SumBy(front, g(b));
      SumBySwap(front, cols, f, g, rowSum, inner);
      SumByAdd(cols, inner, f(last), colSum);
    }
  }

  lemma {:induction false} SumByZero<T>(s: seq<T>, f: T -> real)
    requires forall x :: x in s ==> f(x) == 0.0
    ensures SumBy(s, f) == 0.0
  {
    if s != [] {
      SumByZero(s[..|s| - 1], f);
    }
  }

  /** Summing a term that is c at one listed element and 0 elsewhere gives c. */
  lemma {:induction false} SumByPoint<T>(s: seq<T>, f: T -> real, x: T)
    requires NoDuplicates(s) && x in s
    requires forall y :: y in s && y != x ==> f(y) == 0.0
    ensures SumBy(s, f) == f(x)
  {
    var front, last := s[..|s| - 1], s[|s| - 1];
    if last == x {
      SumByZero(front, f);
    } else {
      assert x in front;
      SumByPoint(front, f, x);
    }
  }

  lemma {:induction false} SumByIndicator<T>(s: seq<T>, p: T -> bool, c: real, f: T -> real)
    requires forall x :: x in s ==> f(x) == if p(x) then c else 0.0
    ensures SumBy(s, f) == Times(CountBy(s, p), c)
  {
    if s != [] {
      SumByIndicator(s[..|s| - 1], p, c, f);
      TimesNext(CountBy(s[..|s| - 1], p), c);
    } else {
      TimesNext(0, c);
    }
  }

  function Times(n: nat, c: real): (t: real) {
    n as real * c
  }

  lemma TimesNext(n: nat, c: real)
    ensures Times(n + 1, c) == Times(n, c) + c
    ensures Times(0, c) == 0.0
    ensures Times(n, 1.0) == n as real
  {
  }

  lemma {:induction false} CountByPositive<T>(s: seq<T>, p: T -> bool)
    ensures CountBy(s, p) > 0 <==> exists x :: x in s && p(x)
  {
    if s != [] {
      var front, last := s[..|s| - 1], s[|s| - 1];
      CountByPositive(front, p);
      assert forall x :: x in s <==> x in front || x == last;
    }
  }

  lemma {:induction false} CountByUpdate<T>(s: seq<T>, i: nat, x: T, p: T -> bool)
    requires i < |s|
    ensures CountBy(s[i := x], p) == CountBy(s, p) - (if p(s[i]) then 1 else 0) + (if p(x) then 1 else 0)
  {
    var n := |s| - 1;
    if i == n {
      assert s[i := x][..n] == s[..n];
    } else {
      assert s[i := x][..n] == s[..n][i := x];
      CountByUpdate(s[..n], i, x, p);
    }
  }

  lemma {:induction false} FilterByElements<T>(s: seq<T>, p: T -> bool)
    ensures forall x :: x in FilterBy(s, p) <==> x in s && p(x)
  {
    if s != [] {
      var front, last := s[..|s| - 1], s[|s| - 1];
      FilterByElements(front, p);
      assert forall x :: x in s <==> x in front || x == last;
    }
  }

  lemma {:induction false} FilterTwice<T>(s: seq<T>, p: T -> bool, q: T -> bool, both: T -> bool)
    requires forall x :: x in s ==> both(x) == (p(x) && q(x))
    ensures FilterBy(FilterBy(s, p), q) == FilterBy(s, both)
  {
    if s != [] {
      var front, last := s[..|s| - 1], s[|s| - 1];
      FilterTwice(front, p, q, both);
      if p(last) {
        FilterByPush(FilterBy(front, p), last, q);
      } else {
        assert FilterBy(front, p) + [] == FilterBy(front, p);
      }
    }
  }

  lemma {:induction false} FilterCount<T>(s: seq<T>, p: T -> bool)
    ensures |FilterBy(s, p)| == CountBy(s, p)
  {
    if s != [] {
      FilterCount(s[..|s| - 1], p);
    }
  }

  lemma {:induction false} SumByFilter<T>(s: seq<T>, p: T -> bool, f: T -> real, g: T -> real)
    requires forall x :: x in s ==> g(x) == if p(x) then f(x) else 0.0
    ensures SumBy(FilterBy(s, p), f) == SumBy(s, g)
  {
    if s != [] {
      var front, last := s[..|s| - 1], s[|s| - 1];
      SumByFilter(front, p, f, g);
      if p(last) {
        SumByPush(FilterBy(front, p), last, f);
      } else {
        assert FilterBy(front, p) + [] == FilterBy(front, p);
      }
    }
  }

  lemma {:induction false} CountByFilter<T>(s: seq<T>, p: T -> bool, q: T -> bool, both: T -> bool)
    requires forall x :: x in s ==> both(x) == (p(x) && q(x))
    ensures CountBy(FilterBy(s, p), q) == CountBy(s, both)
  {
    if s != [] {
      var front, last := s[..|s| - 1], s[|s| - 1];
      CountByFilter(front, p, q, both);
      if p(last) {
        CountByPush(FilterBy(front, p), last, q);
      } else {
        assert FilterBy(front, p) + [] == FilterBy(front, p);
      }
    }
  }

  // ----- independence of the listing order -----

  lemma {:induction false} SumByPermutation<T>(s: seq<T>, t: seq<T>, f: T -> real)
    requires multiset(s) == multiset(t)
    ensures SumBy(s, f) == SumBy(t, f)
  {
    if s == [] {
      assert |multiset(t)| == |t| == 0;
    } else {
      var n := |s| - 1;
      var i := FindLast(s, t);
      SumByPermutation(s[..n], t[..i] + t[i + 1..], f);
      SumByCut(t, i, f);
    }
  }

  /** The last element of one listing can be taken out of the other. */
  lemma FindLast<T>(s: seq<T>, t: seq<T>) returns (i: nat)
    requires s != [] && multiset(s) == multiset(t)
    ensures i < |t| && t[i] == s[|s| - 1]
    ensures multiset(s[..|s| - 1]) == multiset(t[..i] + t[i + 1..])
  {
    var front, last := s[..|s| - 1], s[|s| - 1];
    assert s == front + [last];
    assert last in multiset(t);
    i :| 0 <= i < |t| && t[i] == last;
    CutOne(t, i);
    assert multiset(front) == multiset(s) - multiset{last};
  }

  lemma CutOne<T>(t: seq<T>, i: nat)
    requires i < |t|
    ensures multiset(t) == multiset(t[..i] + t[i + 1..]) + multiset{t[i]}
  {
    CutAt(t, i);
  }

  lemma CutAt<T>(t: seq<T>, i: nat)
    requires i < |t|
    ensures t == t[..i] + [t[i]] + t[i + 1..]
  {
  }

  lemma SumByCut<T>(t: seq<T>, i: nat, f: T -> real)
    requires i < |t|
    ensures SumBy(t, f) == SumBy(t[..i] + t[i + 1..], f) + f(t[i])
  {
    var before, after := t[..i], t[i + 1..];
    CutAt(t, i);
    SumByConcat(before, after, f);
    SumByConcat(before + [t[i]], after, f);
    SumByPush(before, t[i], f);
  }

  lemma CountByPermutation<T>(s: seq<T>, t: seq<T>, p: T -> bool)
    requires multiset(s) == multiset(t)
    ensures CountBy(s, p) == CountBy(t, p)
  {
    var f := (x: T) => if p(x) then 1.0 else 0.0;
    SumByIndicator(s, p, 1.0, f);
    SumByIndicator(t, p, 1.0, f);
    SumByPermutation(s, t, f);
    TimesNext(CountBy(s, p), 1.0);
    TimesNext(CountBy(t, p), 1.0);
  }

  lemma PermutationElements<T>(s: seq<T>, t: seq<T>)
    requires multiset(s) == multiset(t)
    ensures |s| == |t| && forall x :: x in s <==> x in t
  {
    assert |multiset(s)| == |s| && |multiset(t)| == |t|;
    assert forall x :: x in s <==> x in multiset(s);
    assert forall x :: x in t <==> x in multiset(t);
  }

  /** Two duplicate-free listings of the same elements are permutations of each other. */
  lemma ListingsArePermutations<T>(s: seq<T>, t: seq<T>)
    requires NoDuplicates(s) && NoDuplicates(t)
    requires forall x :: x in s <==> x in t
    ensures multiset(s) == multiset(t)
  {
    forall x
      ensures multiset(s)[x] == multiset(t)[x]
    {
      Multiplicity(s, x);
      Multiplicity(t, x);
    }
  }

  lemma {:induction false} Multiplicity<T>(s: seq<T>, x: T)
    requires NoDuplicates(s)
    ensures multiset(s)[x] == if x in s then 1 else 0
  {
    if s != [] {
      var front, last := s[..|s| - 1], s[|s| - 1];
      assert s == front + [last];
      Multiplicity(front, x);
    }
  }
}

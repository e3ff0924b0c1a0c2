/**
 Sequence vocabulary shared by the views: filtering, summing, multiplicities, and the two facts
 every double-counting argument needs (exchange of summation, grouping by value).
 All recursions peel the last element, which is the order in which the service's loops append.
 */
module Sequences {

  datatype Option<+T> = None | Some(value: T)

  function Filter<T>(s: seq<T>, p: T -> bool): (r: seq<T>)
    ensures |r| <= |s|
    ensures forall x :: x in r ==> x in s && p(x)
    ensures forall x :: x in s && p(x) ==> x in r
  {
    if s == [] then [] else
      var init, last := s[..|s| - 1], s[|s| - 1];
      assert s == init + [last];
      if p(last) then Filter(init, p) + [last] else Filter(init, p)
  }

  function Map<T, U>(s: seq<T>, f: T -> U): (r: seq<U>)
    ensures |r| == |s|
    ensures forall i :: 0 <= i < |s| ==> r[i] == f(s[i])
  {
    seq(|s|, i requires 0 <= i < |s| => f(s[i]))
  }

  function Sum<T>(s: seq<T>, f: T -> int): int
  {
    if s == [] then 0 else Sum(s[..|s| - 1], f) + f(s[|s| - 1])
  }

  /** Concatenation of a list of lists. */
  function Flatten<T>(ss: seq<seq<T>>): seq<T>
  {
    if ss == [] then [] else Flatten(ss[..|ss| - 1]) + ss[|ss| - 1]
  }

  ghost predicate Distinct<T>(s: seq<T>)
  {
    forall i, j :: 0 <= i < j < |s| ==> s[i] != s[j]
  }

  /** `a` is obtained from `b` by dropping elements. */
  ghost predicate Subsequence<T>(a: seq<T>, b: seq<T>)
  {
    if a == [] then true
    else if b == [] then false
    else if a[|a| - 1] == b[|b| - 1] then Subsequence(a[..|a| - 1], b[..|b| - 1])
    else Subsequence(a, b[..|b| - 1])
  }

  /** An order in which Go may deliver the keys of a map: each key exactly once. */
  ghost predicate Enumerates<T>(order: seq<T>, keys: set<T>)
  {
    Distinct(order) && (forall k :: k in order ==> k in keys) && (forall k :: k in keys ==> k in order)
  }

  /** A Go map of counters: an absent key reads as zero. */
  function Get<K>(m: map<K, int>, k: K): int
  {
    if k in m then m[k] else 0
  }

  /** The numbers below `n` that satisfy `p`, in order. */
  function Where(n: nat, p: nat -> bool): (ps: seq<nat>)
    ensures forall j :: 0 <= j < |ps| ==> ps[j] < n && p(ps[j])
    ensures forall i: nat :: i < n && p(i) ==> i in ps
    ensures forall a, b :: 0 <= a < b < |ps| ==> ps[a] < ps[b]
  {
    if n == 0 then [] else if p(n - 1) then Where(n - 1, p) + [n - 1] else Where(n - 1, p)
  }

  lemma FilterStep<T>(s: seq<T>, i: nat, p: T -> bool)
    requires i < |s|
    ensures Filter(s[..i + 1], p) == Filter(s[..i], p) + (if p(s[i]) then [s[i]] else [])
  {
    assert s[..i + 1][..i] == s[..i];
  }

  lemma MapSnoc<T, U>(s: seq<T>, x: T, f: T -> U)
    ensures Map(s + [x], f) == Map(s, f) + [f(x)]
  {
  }

  lemma ConcatAssoc<T>(a: seq<T>, b: seq<T>, c: seq<T>)
    ensures a + (b + c) == (a + b) + c
  {
  }

  lemma PrefixStep<T>(s: seq<T>, i: nat)
    requires i < |s|
    ensures s[..i + 1] == s[..i] + [s[i]]
  {
  }

  lemma PrefixSnoc<T>(done: seq<T>, s: seq<T>, i: nat)
    requires i < |s|
    ensures done + s[..i + 1] == done + s[..i] + [s[i]]
  {
  }

  lemma FilterSnoc<T>(s: seq<T>, x: T, p: T -> bool)
    ensures Filter(s + [x], p) == if p(x) then Filter(s, p) + [x] else Filter(s, p)
  {
    assert (s + [x])[..|s|] == s;
  }

  lemma SnocMultiplicity<T>(s: seq<T>, last: T, x: T)
    ensures multiset(s + [last])[x] == multiset(s)[x] + if x == last then 1 else 0
  {
  }

  lemma SumStep<T>(s: seq<T>, i: nat, f: T -> int)
    requires i < |s|
    ensures Sum(s[..i + 1], f) == Sum(s[..i], f) + f(s[i])
  {
    assert s[..i + 1][..i] == s[..i];
  }

  lemma SumSnoc<T>(s: seq<T>, x: T, f: T -> int)
    ensures Sum(s + [x], f) == Sum(s, f) + f(x)
  {
    assert (s + [x])[..|s|] == s;
  }

  lemma {:induction false} FlattenHead<T>(ss: seq<seq<T>>)
    requires ss != []
    ensures Flatten(ss) == ss[0] + Flatten(ss[1..])
  {
    var n := |ss| - 1;
    if n == 0 {
      assert ss[..0] == [] && ss[1..] == [];
    } else {
      FlattenHead(ss[..n]);
      assert ss[..n][1..] == ss[1..][..n - 1] && ss[1..][n - 1] == ss[n];
      ConcatAssoc(ss[0], Flatten(ss[1..][..n - 1]), ss[n]);
    }
  }

  lemma {:induction false} FilterAppend<T>(a: seq<T>, b: seq<T>, p: T -> bool)
    ensures Filter(a + b, p) == Filter(a, p) + Filter(b, p)
  {
    if b == [] {
      assert a + b == a;
    } else {
      assert (a + b)[..|a + b| - 1] == a + b[..|b| - 1];
      FilterAppend(a, b[..|b| - 1], p);
    }
  }

  lemma {:induction false} FilterCongruent<T>(s: seq<T>, p: T -> bool, q: T -> bool)
    requires forall x :: x in s ==> p(x) == q(x)
    ensures Filter(s, p) == Filter(s, q)
  {
    if s != [] {
      FilterCongruent(s[..|s| - 1], p, q);
    }
  }

  lemma {:induction false} FilterFilter<T>(s: seq<T>, p: T -> bool, q: T -> bool, both: T -> bool)
    requires forall x :: x in s ==> both(x) == (p(x) && q(x))
    ensures Filter(Filter(s, p), q) == Filter(s, both)
  {
    if s != [] {
      var init, last := s[..|s| - 1], s[|s| - 1];
      FilterFilter(init, p, q, both);
      if p(last) {
        FilterAppend(Filter(init, p), [last], q);
        assert [last][..0] == [];
      }
    }
  }

  lemma {:induction false} FilterMultiplicity<T>(s: seq<T>, p: T -> bool, x: T)
    ensures multiset(Filter(s, p))[x] == if p(x) then multiset(s)[x] else 0
  {
    if s != [] {
      assert s == s[..|s| - 1] + [s[|s| - 1]];
      FilterMultiplicity(s[..|s| - 1], p, x);
    }
  }

  lemma {:induction false} FilterDistinct<T>(s: seq<T>, p: T -> bool)
    requires Distinct(s)
    ensures Distinct(Filter(s, p))
  {
    if s != [] {
      var init, last := s[..|s| - 1], s[|s| - 1];
      FilterDistinct(init, p);
      assert last !in Filter(init, p);
    }
  }

  lemma {:induction false} SubsequenceExtend<T>(a: seq<T>, b: seq<T>, x: T)
    requires Subsequence(a, b)
    ensures Subsequence(a, b + [x])
    decreases |b|, 1
  {
    assert (b + [x])[..|b|] == b;
    if a != [] && a[|a| - 1] == x {
      SubsequenceInit(a, b);
    }
  }

  lemma {:induction false} SubsequenceInit<T>(a: seq<T>, b: seq<T>)
    requires a != [] && Subsequence(a, b)
    ensures Subsequence(a[..|a| - 1], b)
    decreases |b|, 0
  {
    var init := b[..|b| - 1];
    assert b == init + [b[|b| - 1]];
    if a[|a| - 1] == b[|b| - 1] {
      SubsequenceExtend(a[..|a| - 1], init, b[|b| - 1]);
    } else {
      SubsequenceInit(a, init);
      SubsequenceExtend(a[..|a| - 1], init, b[|b| - 1]);
    }
  }

  lemma SubsequenceSnoc<T>(a: seq<T>, b: seq<T>, x: T)
    requires Subsequence(a, b)
    ensures Subsequence(a + [x], b + [x])
  {
    assert (a + [x])[..|a|] == a && (b + [x])[..|b|] == b;
  }

  lemma {:induction false} FilterSubsequence<T>(s: seq<T>, p: T -> bool, q: T -> bool)
    requires forall x :: x in s && p(x) ==> q(x)
    ensures Subsequence(Filter(s, p), Filter(s, q))
  {
    if s != [] {
      var init, last := s[..|s| - 1], s[|s| - 1];
      FilterSubsequence(init, p, q);
      var a, b := Filter(init, p), Filter(init, q);
      if p(last) {
        SubsequenceSnoc(a, b, last);
      } else if q(last) {
        SubsequenceExtend(a, b, last);
      }
    }
  }

  lemma {:induction false} FilterMapLength<T, U>(s: seq<T>, f: T -> U, p: T -> bool, q: U -> bool)
    requires forall x :: x in s ==> p(x) == q(f(x))
    ensures |Filter(s, p)| == |Filter(Map(s, f), q)|
  {
    if s != [] {
      assert Map(s, f)[..|s| - 1] == Map(s[..|s| - 1], f);
      FilterMapLength(s[..|s| - 1], f, p, q);
    }
  }

  lemma {:induction false} FilterAll<T>(s: seq<T>, p: T -> bool)
    requires forall x :: x in s ==> p(x)
    ensures Filter(s, p) == s
  {
    if s != [] {
      FilterAll(s[..|s| - 1], p);
    }
  }

  lemma {:induction false} FilterNone<T>(xs: seq<T>, p: T -> bool)
    requires forall x :: x in xs ==> !p(x)
    ensures Filter(xs, p) == []
  {
    if xs != [] {
      FilterNone(xs[..|xs| - 1], p);
    }
  }

  /** A narrower test keeps as many elements iff it keeps the same ones. */
  lemma {:induction false} NarrowerFilterLength<T>(s: seq<T>, narrow: T -> bool, wide: T -> bool)
    requires forall x :: x in s && narrow(x) ==> wide(x)
    ensures |Filter(s, narrow)| <= |Filter(s, wide)|
    ensures |Filter(s, narrow)| == |Filter(s, wide)| <==> forall x :: x in s && wide(x) ==> narrow(x)
  {
    if s != [] {
      var init, last := s[..|s| - 1], s[|s| - 1];
      assert s == init + [last];
      NarrowerFilterLength(init, narrow, wide);
    }
  }

  lemma {:induction false} SumCongruent<T>(s: seq<T>, f: T -> int, g: T -> int)
    requires forall x :: x in s ==> f(x) == g(x)
    ensures Sum(s, f) == Sum(s, g)
  {
    if s != [] {
      SumCongruent(s[..|s| - 1], f, g);
    }
  }

  lemma {:induction false} SumPlus<T>(s: seq<T>, f: T -> int, g: T -> int, h: T -> int)
    requires forall x :: x in s ==> h(x) == f(x) + g(x)
    ensures Sum(s, h) == Sum(s, f) + Sum(s, g)
  {
    if s != [] {
      SumPlus(s[..|s| - 1], f, g, h);
    }
  }

  lemma {:induction false} SumZero<T>(s: seq<T>, f: T -> int)
    requires forall x :: x in s ==> f(x) == 0
    ensures Sum(s, f) == 0
  {
    if s != [] {
      SumZero(s[..|s| - 1], f);
    }
  }

  lemma {:induction false} SumAppend<T>(a: seq<T>, b: seq<T>, f: T -> int)
    ensures Sum(a + b, f) == Sum(a, f) + Sum(b, f)
  {
    if b == [] {
      assert a + b == a;
    } else {
      assert (a + b)[..|a + b| - 1] == a + b[..|b| - 1];
      SumAppend(a, b[..|b| - 1], f);
    }
  }

  lemma {:induction false} SumMap<T, U>(s: seq<T>, f: T -> U, g: U -> int, h: T -> int)
    requires forall x :: x in s ==> h(x) == g(f(x))
    ensures Sum(Map(s, f), g) == Sum(s, h)
  {
    if s != [] {
      assert Map(s, f)[..|s| - 1] == Map(s[..|s| - 1], f);
      SumMap(s[..|s| - 1], f, g, h);
    }
  }

  lemma {:induction false} SumOnes<T>(xs: seq<T>, f: T -> int)
    requires forall x :: x in xs ==> f(x) == 1
    ensures Sum(xs, f) == |xs|
  {
    if xs != [] {
      SumOnes(xs[..|xs| - 1], f);
    }
  }

  lemma {:induction false} SumNonNegative<T>(xs: seq<T>, f: T -> int)
    requires forall y :: y in xs ==> f(y) >= 0
    ensures Sum(xs, f) >= 0
  {
    if xs != [] {
      SumNonNegative(xs[..|xs| - 1], f);
    }
  }

  lemma {:induction false} SumPositive<T>(xs: seq<T>, f: T -> int, x: T)
    requires x in xs && f(x) > 0 && forall y :: y in xs ==> f(y) >= 0
    ensures Sum(xs, f) > 0
  {
    var init, last := xs[..|xs| - 1], xs[|xs| - 1];
    assert xs == init + [last];
    if x in init {
      SumPositive(init, f, x);
    } else {
      SumNonNegative(init, f);
    }
  }

  /** The length of a filtered list is a sum of zeroes and ones. */
  lemma {:induction false} FilterLength<T>(s: seq<T>, p: T -> bool, f: T -> int)
    requires forall x :: x in s ==> f(x) == if p(x) then 1 else 0
    ensures |Filter(s, p)| == Sum(s, f)
  {
    if s != [] {
      FilterLength(s[..|s| - 1], p, f);
    }
  }

  /** Rows first or columns first, a table has one grand total. The table is given by rows as `f`
      and by columns as `g`. */
  lemma {:induction false} SumExchange<A, B>(rows: seq<A>, cols: seq<B>, f: A -> B -> int, g: B -> A -> int,
                                             rowSum: A -> int, colSum: B -> int)
    requires forall a, b :: a in rows && b in cols ==> f(a)(b) == g(b)(a)
    requires forall a :: a in rows ==> rowSum(a) == Sum(cols, f(a))
    requires forall b :: b in cols ==> colSum(b) == Sum(rows, g(b))
    ensures Sum(rows, rowSum) == Sum(cols, colSum)
  {
    if rows == [] {
      SumZero(cols, colSum);
    } else {
      var init, last := rows[..|rows| - 1], rows[|rows| - 1];
      var initSum := b => Sum(init, g(b));
      SumExchange(init, cols, f, g, rowSum, initSum);
      SumPlus(cols, initSum, f(last), colSum);
    }
  }

  lemma {:induction false} SumIndicator<T>(universe: seq<T>, x: T, weight: int, f: T -> int)
    requires Distinct(universe)
    requires forall u :: u in universe ==> f(u) == if u == x then weight else 0
    ensures Sum(universe, f) == if x in universe then weight else 0
  {
    if universe != [] {
      var init, last := universe[..|universe| - 1], universe[|universe| - 1];
      assert universe == init + [last];
      SumIndicator(init, x, weight, f);
    }
  }

  /** What all occurrences of `u` in `s` contribute together. */
  ghost function Weighted<T>(s: seq<T>, g: T -> int, u: T): int
  {
    multiset(s)[u] * g(u)
  }

  lemma WeightedStep<T>(init: seq<T>, last: T, g: T -> int, u: T)
    ensures Weighted(init + [last], g, u) == Weighted(init, g, u) + if u == last then g(last) else 0
  {
    var n := multiset(init)[u];
    assert multiset(init + [last])[u] == n + if u == last then 1 else 0;
    assert (n + 1) * g(u) == n * g(u) + g(u);
  }

  /** Summing over a list is summing over the distinct values it can take, each weighted by its
      multiplicity, as long as values outside the universe contribute nothing. */
  lemma {:induction false} SumByValue<T>(s: seq<T>, universe: seq<T>, g: T -> int, w: T -> int)
    requires Distinct(universe)
    requires forall x :: x in s && x !in universe ==> g(x) == 0
    requires forall u :: u in universe ==> w(u) == Weighted(s, g, u)
    ensures Sum(s, g) == Sum(universe, w)
  {
    if s == [] {
      SumZero(universe, w);
    } else {
      var init, last := s[..|s| - 1], s[|s| - 1];
      assert s == init + [last];
      var before, hit := u => Weighted(init, g, u), u => if u == last then g(last) else 0;
      SumByValue(init, universe, g, before);
      SumIndicator(universe, last, g(last), hit);
      forall u | u in universe ensures w(u) == before(u) + hit(u) {
        WeightedStep(init, last, g, u);
      }
      SumPlus(universe, before, hit, w);
    }
  }

  lemma {:induction false} DistinctMultiplicity<T>(s: seq<T>, x: T)
    requires Distinct(s)
    ensures multiset(s)[x] == if x in s then 1 else 0
  {
    if s != [] {
      assert s == s[..|s| - 1] + [s[|s| - 1]];
      DistinctMultiplicity(s[..|s| - 1], x);
    }
  }

  /** Two enumerations of one key set are permutations of each other, so every sum agrees. */
  lemma SumOfEnumerations<T>(a: seq<T>, b: seq<T>, f: T -> int)
    requires Distinct(a) && Distinct(b)
    requires (forall x :: x in a ==> x in b) && (forall x :: x in b ==> x in a)
    ensures Sum(a, f) == Sum(b, f)
  {
    forall u | u in b ensures Weighted(a, f, u) == f(u) {
      DistinctMultiplicity(a, u);
    }
    SumByValue(a, b, f, f);
  }

  /** The values of a list, each once. */
  lemma {:induction false} DistinctValues<T>(s: seq<T>) returns (values: seq<T>)
    ensures Distinct(values) && forall x :: x in values <==> x in s
  {
    values := [];
    if s != [] {
      var init, last := s[..|s| - 1], s[|s| - 1];
      assert s == init + [last];
      values := DistinctValues(init);
      if last !in values {
        values := values + [last];
      }
    }
  }

  /** A sum of larger terms is larger, and equal only if every term is. */
  lemma {:induction false} SumDominates<T>(s: seq<T>, f: T -> int, g: T -> int)
    requires forall x :: x in s ==> f(x) <= g(x)
    ensures Sum(s, f) <= Sum(s, g)
    ensures Sum(s, f) == Sum(s, g) <==> forall x :: x in s ==> f(x) == g(x)
  {
    if s != [] {
      var init, last := s[..|s| - 1], s[|s| - 1];
      assert s == init + [last];
      SumDominates(init, f, g);
    }
  }

  /** Summing over a list that repeats values counts too much, unless repeated values count nothing. */
  lemma SumOfRepeats<T>(s: seq<T>, values: seq<T>, f: T -> int)
    requires Distinct(values) && (forall x :: x in values <==> x in s) && (forall x :: x in s ==> f(x) >= 0)
    ensures Sum(values, f) <= Sum(s, f)
    ensures Sum(s, f) == Sum(values, f) <==> forall x :: x in s && multiset(s)[x] > 1 ==> f(x) == 0
  {
    var weight := u => Weighted(s, f, u);
    SumByValue(s, values, f, weight);
    forall x | x in values ensures f(x) <= weight(x) && (f(x) == weight(x) <==> multiset(s)[x] == 1 || f(x) == 0) {
      RepeatedWeight(multiset(s)[x], f(x));
    }
    SumDominates(values, f, weight);
  }

  lemma RepeatedWeight(n: int, w: int)
    requires n >= 1 && w >= 0
    ensures w <= n * w && (w == n * w <==> n == 1 || w == 0)
  {
    assert n * w == w + (n - 1) * w;
  }
}

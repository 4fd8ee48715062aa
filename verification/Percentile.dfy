/** `percentile` of the latency benchmark (`eval/latency_benchmark.py`), over reals. */
module Percentile {

  predicate Ascending(s: seq<real>) {
    forall i, j | 0 <= i <= j < |s| :: s[i] <= s[j]
  }

  function Inserted(x: real, s: seq<real>): seq<real> {
    if s == [] then [x]
    else if x <= s[0] then [x] + s
    else [s[0]] + Inserted(x, s[1..])
  }

  /** sorted(values) */
  function Sorted(values: seq<real>): seq<real> {
    if values == [] then [] else Inserted(values[0], Sorted(values[1..]))
  }

  lemma {:induction false} InsertedAdds(x: real, s: seq<real>)
    ensures multiset(Inserted(x, s)) == multiset(s) + multiset{x}
  {
    if s != [] {
      if x > s[0] {
        InsertedAdds(x, s[1..]);
      }
      assert s == [s[0]] + s[1..];
    }
  }

  lemma {:induction false} InsertedIsSorted(x: real, s: seq<real>)
    requires Ascending(s)
    ensures Ascending(Inserted(x, s))
  {
    if s != [] && x > s[0] {
      InsertedIsSorted(x, s[1..]);
      InsertedAdds(x, s[1..]);
      InsertedInFront(s[0], x, s[1..], Inserted(x, s[1..]));
    }
  }

  lemma InsertedInFront(first: real, x: real, s: seq<real>, rest: seq<real>)
    requires Ascending(rest) && multiset(rest) == multiset(s) + multiset{x}
    requires first < x && forall i | 0 <= i < |s| :: first <= s[i]
    ensures Ascending([first] + rest)
  {
    forall i | 0 <= i < |rest|
      ensures first <= rest[i]
    {
      assert rest[i] in multiset(rest);
      assert rest[i] in s || rest[i] == x;
    }
  }

  lemma {:induction false} SortedIsSorted(values: seq<real>)
    ensures Ascending(Sorted(values)) && multiset(Sorted(values)) == multiset(values)
    ensures |Sorted(values)| == |values|
  {
    if values != [] {
      SortedIsSorted(values[1..]);
      InsertedIsSorted(values[0], Sorted(values[1..]));
      InsertedAdds(values[0], Sorted(values[1..]));
      assert values == [values[0]] + values[1..];
    }
    assert |multiset(Sorted(values))| == |multiset(values)|;
  }

  lemma LeastFirst(s: seq<real>, t: seq<real>)
    requires Ascending(s) && s != [] && t != [] && multiset(s) == multiset(t)
    ensures s[0] <= t[0]
  {
    assert t[0] in multiset(t);
    assert t[0] in s;
  }

  lemma Rest(s: seq<real>)
    requires s != []
    ensures multiset(s[1..]) == multiset(s) - multiset{s[0]}
  {
    assert s == [s[0]] + s[1..];
  }

  /** There is only one ascending arrangement of the same samples. */
  lemma {:induction false} AscendingIsUnique(s: seq<real>, t: seq<real>)
    requires Ascending(s) && Ascending(t) && multiset(s) == multiset(t)
    ensures s == t
  {
    assert |s| == |multiset(s)| == |multiset(t)| == |t|;
    if s != [] {
      LeastFirst(s, t);
      LeastFirst(t, s);
      Rest(s);
      Rest(t);
      AscendingIsUnique(s[1..], t[1..]);
    }
  }

  /** The place of the percentile between two samples of the sorted list. */
  function Rank(n: nat, p: real): real {
    (n as real - 1.0) * (p / 100.0)
  }

  function OfSorted(s: seq<real>, k: real): real
    requires s != [] && 0.0 <= k <= |s| as real - 1.0
  {
    var f := k.Floor;
    var c := if f + 1 < |s| - 1 then f + 1 else |s| - 1;
    s[f] * (c as real - k) + s[c] * (k - f as real)
  }

  lemma Product(a: real, b: real)
    requires a >= 0.0 && b >= 0.0
    ensures a * b >= 0.0 && (a * b == 0.0 <==> a == 0.0 || b == 0.0)
  {
  }

  lemma RankInRange(n: nat, p: real)
    requires n > 0 && 0.0 <= p <= 100.0
    ensures 0.0 <= Rank(n, p) <= n as real - 1.0
    ensures n >= 2 ==> (Rank(n, p) < n as real - 1.0 <==> p < 100.0)
  {
    var m, q := n as real - 1.0, p / 100.0;
    Product(m, q);
    Product(m, 1.0 - q);
    assert m * q == m - m * (1.0 - q);
  }

  function Percentile(values: seq<real>, p: real): real
    requires 0.0 <= p <= 100.0
  {
    if values == [] then 0.0
    else
      SortedIsSorted(values);
      RankInRange(|values|, p);
      OfSorted(Sorted(values), Rank(|values|, p))
  }

  /** Below the last sample the value lies between two neighbouring samples. */
  lemma BetweenNeighbours(s: seq<real>, k: real)
    requires Ascending(s) && 0.0 <= k < |s| as real - 1.0
    ensures s[k.Floor] <= OfSorted(s, k) <= s[k.Floor + 1]
  {
    var f := k.Floor;
    Blend(s[f], s[f + 1], f as real, k);
    Product(s[f + 1] - s[f], k - f as real);
    Product(s[f + 1] - s[f], (f + 1) as real - k);
  }

  /** The code's weighted sum, seen from either end. */
  lemma Blend(lo: real, hi: real, f: real, k: real)
    ensures lo * (f + 1.0 - k) + hi * (k - f) == lo + (hi - lo) * (k - f) == hi - (hi - lo) * (f + 1.0 - k)
  {
  }

  lemma GrowsWithRank(s: seq<real>, j: real, k: real)
    requires Ascending(s) && 0.0 <= j <= k < |s| as real - 1.0
    ensures OfSorted(s, j) <= OfSorted(s, k)
  {
    var f, g := j.Floor, k.Floor;
    if f == g {
      Blend(s[f], s[f + 1], f as real, j);
      Blend(s[f], s[f + 1], f as real, k);
      Product(s[f + 1] - s[f], k - j);
      assert (s[f + 1] - s[f]) * (k - f as real) - (s[f + 1] - s[f]) * (j - f as real) == (s[f + 1] - s[f]) * (k - j);
    } else {
      BetweenNeighbours(s, j);
      BetweenNeighbours(s, k);
      assert s[f + 1] <= s[g];
    }
  }

  /** Some sample is at most `x` and some sample is at least `x`. */
  ghost predicate WithinSamples(values: seq<real>, x: real) {
    (exists i :: 0 <= i < |values| && values[i] <= x) && (exists i :: 0 <= i < |values| && x <= values[i])
  }

  lemma WithinSameSamples(s: seq<real>, values: seq<real>, x: real)
    requires multiset(s) == multiset(values) && WithinSamples(s, x)
    ensures WithinSamples(values, x)
  {
    var i :| 0 <= i < |s| && s[i] <= x;
    var j :| 0 <= j < |s| && x <= s[j];
    assert s[i] in multiset(values) && s[j] in multiset(values);
  }

  /** With one sample, or at p = 100, the result is 0 whatever the samples are. */
  lemma ZeroOutside(values: seq<real>, p: real)
    requires 0.0 <= p <= 100.0 && (|values| < 2 || p == 100.0)
    ensures Percentile(values, p) == 0.0
  {
    if values != [] {
      SortedIsSorted(values);
      RankInRange(|values|, p);
      LastWeighsNothing(Sorted(values), Rank(|values|, p));
    }
  }

  /**
    The percentile lies within the range of the samples exactly if there are two of them
    and p is below 100, or the range contains 0 anyway.
   */
  lemma WithinSamplesExactly(values: seq<real>, p: real)
    requires 0.0 <= p <= 100.0
    ensures WithinSamples(values, Percentile(values, p)) <==>
            (|values| >= 2 && p < 100.0) || WithinSamples(values, 0.0)
  {
    if |values| >= 2 && p < 100.0 {
      LiesWithin(values, p);
    } else {
      ZeroOutside(values, p);
    }
  }

  /** At the last sample both weights are zero. */
  lemma LastWeighsNothing(s: seq<real>, k: real)
    requires s != [] && k == |s| as real - 1.0
    ensures OfSorted(s, k) == 0.0
  {
    assert k.Floor == |s| - 1;
  }

  lemma LiesWithin(values: seq<real>, p: real)
    requires 0.0 <= p < 100.0 && |values| >= 2
    ensures WithinSamples(values, Percentile(values, p))
  {
    var s, k := Sorted(values), Rank(|values|, p);
    SortedIsSorted(values);
    RankInRange(|values|, p);
    BetweenNeighbours(s, k);
    assert WithinSamples(s, OfSorted(s, k));
    WithinSameSamples(s, values, OfSorted(s, k));
  }

  lemma GrowsWithP(values: seq<real>, p: real, q: real)
    requires 0.0 <= p <= q < 100.0 && |values| >= 2
    ensures Percentile(values, p) <= Percentile(values, q)
  {
    SortedIsSorted(values);
    RankInRange(|values|, p);
    RankInRange(|values|, q);
    RankGrows(|values|, p, q);
    GrowsWithRank(Sorted(values), Rank(|values|, p), Rank(|values|, q));
    hide Rank, OfSorted;
  }

  lemma RankGrows(n: nat, p: real, q: real)
    requires n > 0 && p <= q
    ensures Rank(n, p) <= Rank(n, q)
  {
    var m, a, b := n as real - 1.0, p / 100.0, q / 100.0;
    Product(m, b - a);
    assert m * b - m * a == m * (b - a);
  }

  lemma OrderDoesNotMatter(a: seq<real>, b: seq<real>, p: real)
    requires multiset(a) == multiset(b) && 0.0 <= p <= 100.0
    ensures Percentile(a, p) == Percentile(b, p)
  {
    assert |a| == |multiset(a)| == |multiset(b)| == |b|;
    SortedIsSorted(a);
    SortedIsSorted(b);
    AscendingIsUnique(Sorted(a), Sorted(b));
  }

  /**
    The interpolation, without the code's own functions: if the samples in ascending order
    are `s`, and the p-th percentile falls at `x` of the way from `s[i]` to `s[i + 1]`,
    then the value is that point between the two samples.
   */
  lemma InterpolatesExactly(values: seq<real>, s: seq<real>, p: real, i: nat, x: real)
    requires Ascending(s) && multiset(s) == multiset(values) && 0.0 <= p <= 100.0
    requires i + 1 < |s| && 0.0 <= x < 1.0 && p * (|s| - 1) as real == 100.0 * (i as real + x)
    ensures Percentile(values, p) == s[i] + (s[i + 1] - s[i]) * x
  {
    RankIs(|s|, p, i as real + x);
    InterpolatesAt(values, s, p, i, x);
  }

  lemma InterpolatesAt(values: seq<real>, s: seq<real>, p: real, i: nat, x: real)
    requires Ascending(s) && multiset(s) == multiset(values) && 0.0 <= p <= 100.0
    requires i + 1 < |s| && 0.0 <= x < 1.0 && Rank(|s|, p) == i as real + x
    ensures Percentile(values, p) == s[i] + (s[i + 1] - s[i]) * x
  {
    SortedIsSorted(values);
    AscendingIsUnique(Sorted(values), s);
    RankInRange(|values|, p);
    hide Rank;
    PointBetween(s, i, x);
    hide OfSorted;
  }

  lemma PointBetween(s: seq<real>, i: nat, x: real)
    requires i + 1 < |s| && 0.0 <= x < 1.0
    ensures OfSorted(s, i as real + x) == s[i] + (s[i + 1] - s[i]) * x
  {
    var k := i as real + x;
    assert k.Floor == i;
    Blend(s[i], s[i + 1], i as real, k);
    assert k - i as real == x;
    assert OfSorted(s, k) == s[i] * ((i + 1) as real - k) + s[i + 1] * (k - i as real);
    assert (i + 1) as real - k == i as real + 1.0 - k;
  }

  lemma RankIs(n: nat, p: real, k: real)
    requires n > 0 && p * (n - 1) as real == 100.0 * k
    ensures Rank(n, p) == k
  {
    var m := n as real - 1.0;
    assert m * (p / 100.0) == (m * p) / 100.0;
  }
}

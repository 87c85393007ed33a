/**
 Sorting, median and percentiles as the benchmark gate takes them
 (gates/bench/endpoints.py `percentile`; `statistics.median`), over exact numbers.
 */
module OrderStatistics {
  import opened Options

  ghost predicate Sorted(s: seq<real>) { forall i, j :: 0 <= i <= j < |s| ==> s[i] <= s[j] }

  function Insert(x: real, s: seq<real>): seq<real> {
    if s == [] || x <= s[0] then [x] + s else [s[0]] + Insert(x, s[1..])
  }

  function Sort(s: seq<real>): seq<real> {
    if s == [] then [] else Insert(s[0], Sort(s[1..]))
  }

  lemma {:induction false} InsertMembers(x: real, s: seq<real>)
    ensures multiset(Insert(x, s)) == multiset(s) + multiset{x}
  {
    if s != [] && x > s[0] {
      InsertMembers(x, s[1..]);
      assert s == [s[0]] + s[1..];
    }
  }

  lemma {:induction false} InsertSorted(x: real, s: seq<real>)
    requires Sorted(s)
    ensures Sorted(Insert(x, s))
  {
    if s != [] && x > s[0] {
      InsertSorted(x, s[1..]);
      InsertMembers(x, s[1..]);
      var t := Insert(x, s[1..]);
      forall j | 0 <= j < |t|
        ensures s[0] <= t[j]
      {
        assert t[j] in multiset(t);
        assert t[j] in multiset(s[1..]) || t[j] == x;
      }
    }
  }

  lemma {:induction false} SortSorts(s: seq<real>)
    ensures Sorted(Sort(s)) && multiset(Sort(s)) == multiset(s) && |Sort(s)| == |s|
  {
    if s != [] {
      SortSorts(s[1..]);
      InsertSorted(s[0], Sort(s[1..]));
      InsertMembers(s[0], Sort(s[1..]));
      assert s == [s[0]] + s[1..];
    }
    assert |multiset(Sort(s))| == |Sort(s)| && |multiset(s)| == |s|;
  }

  lemma SameHead(p: seq<real>, q: seq<real>)
    requires Sorted(p) && Sorted(q) && multiset(p) == multiset(q) && p != []
    ensures q != [] && p[0] == q[0]
  {
    assert p[0] in multiset(q);
    assert q[0] in multiset(p);
  }

  lemma TailMultiset(p: seq<real>)
    requires p != []
    ensures multiset(p[1..]) == multiset(p) - multiset{p[0]}
  {
    assert p == [p[0]] + p[1..];
  }

  /** Two sorted sequences of the same values are the same sequence. */
  lemma {:induction false} SortedUnique(p: seq<real>, q: seq<real>)
    requires Sorted(p) && Sorted(q) && multiset(p) == multiset(q)
    ensures p == q
    decreases |p|
  {
    if p == [] {
      assert |multiset(q)| == |q|;
    } else {
      SameHead(p, q);
      TailMultiset(p);
      TailMultiset(q);
      SortedUnique(p[1..], q[1..]);
      assert p == [p[0]] + p[1..] && q == [q[0]] + q[1..];
    }
  }

  /** Sorting ignores the order of the samples. */
  lemma SortPermutes(p: seq<real>, q: seq<real>)
    requires multiset(p) == multiset(q)
    ensures Sort(p) == Sort(q)
  {
    SortSorts(p);
    SortSorts(q);
    SortedUnique(Sort(p), Sort(q));
  }

  // ----- order statistics are monotone ----------------------------------------------------------

  function AtMost(s: seq<real>, x: real): nat {
    if s == [] then 0 else (if s[0] <= x then 1 else 0) + AtMost(s[1..], x)
  }

  lemma {:induction false} AtMostInsert(y: real, s: seq<real>, x: real)
    ensures AtMost(Insert(y, s), x) == AtMost(s, x) + (if y <= x then 1 else 0)
  {
    if s != [] && y > s[0] { AtMostInsert(y, s[1..], x); }
  }

  lemma {:induction false} AtMostSort(s: seq<real>, x: real)
    ensures AtMost(Sort(s), x) == AtMost(s, x)
  {
    if s != [] {
      AtMostSort(s[1..], x);
      AtMostInsert(s[0], Sort(s[1..]), x);
    }
  }

  /** In a sorted sequence entry `k` is at most `x` exactly when more than `k` values are. */
  lemma {:induction false} AtMostIndex(t: seq<real>, k: nat, x: real)
    requires Sorted(t) && k < |t|
    ensures t[k] <= x <==> AtMost(t, x) > k
  {
    if k > 0 {
      AtMostIndex(t[1..], k - 1, x);
    } else if t[0] > x {
      NoneBelow(t, x);
    }
  }

  lemma {:induction false} NoneBelow(t: seq<real>, x: real)
    requires Sorted(t) && (t != [] ==> t[0] > x)
    ensures AtMost(t, x) == 0
  {
    if t != [] { NoneBelow(t[1..], x); }
  }

  ghost predicate Below(a: seq<real>, b: seq<real>) {
    |a| == |b| && forall i :: 0 <= i < |a| ==> a[i] <= b[i]
  }

  lemma {:induction false} AtMostBelow(a: seq<real>, b: seq<real>, x: real)
    requires Below(a, b)
    ensures AtMost(b, x) <= AtMost(a, x)
  {
    if a != [] { AtMostBelow(a[1..], b[1..], x); }
  }

  /** Raising samples raises every order statistic. */
  lemma SortMonotone(a: seq<real>, b: seq<real>)
    requires Below(a, b)
    ensures Below(Sort(a), Sort(b))
  {
    SortSorts(a);
    SortSorts(b);
    forall k | 0 <= k < |a|
      ensures Sort(a)[k] <= Sort(b)[k]
    {
      var x := Sort(b)[k];
      AtMostIndex(Sort(b), k, x);
      AtMostSort(b, x);
      AtMostBelow(a, b, x);
      AtMostSort(a, x);
      AtMostIndex(Sort(a), k, x);
    }
  }

  // ----- median -----------------------------------------------------------------------------------

  function Median(s: seq<real>): real
    requires |s| > 0
  {
    SortSorts(s);
    var t := Sort(s);
    if |s| % 2 == 1 then t[|s| / 2] else (t[|s| / 2 - 1] + t[|s| / 2]) / 2.0
  }

  lemma MedianMonotone(a: seq<real>, b: seq<real>)
    requires Below(a, b) && |a| > 0
    ensures Median(a) <= Median(b)
  {
    SortSorts(a);
    SortSorts(b);
    SortMonotone(a, b);
  }

  // ----- percentile ----------------------------------------------------------------------------------

  /** Linear interpolation at the fractional rank `k` of a sorted sequence. */
  function AtRank(t: seq<real>, k: real): real
    requires |t| > 0 && 0.0 <= k <= (|t| - 1) as real
  {
    var lo := k.Floor;
    var hi := if lo + 1 < |t| - 1 then lo + 1 else |t| - 1;
    t[lo] + (t[hi] - t[lo]) * (k - lo as real)
  }

  /** The rank of the q-th percentile among `n` samples. */
  function Rank(n: nat, q: real): (k: real)
    requires n > 0 && 0.0 <= q <= 100.0
    ensures 0.0 <= k <= (n - 1) as real
  {
    RankBound(n, q);
    (n - 1) as real * q / 100.0
  }

  lemma RankBound(n: nat, q: real)
    requires n > 0 && 0.0 <= q <= 100.0
    ensures 0.0 <= (n - 1) as real * q / 100.0 <= (n - 1) as real
  {
    Scaled((n - 1) as real, 0.0, q);
    Scaled((n - 1) as real, q, 100.0);
  }

  function Percentile(vals: seq<real>, q: real): Option<real>
    requires 0.0 <= q <= 100.0
  {
    if vals == [] then None
    else
      SortSorts(vals);
      Some(AtRank(Sort(vals), Rank(|vals|, q)))
  }

  /** An interpolated value lies between the two values around it. */
  lemma Between(x: real, y: real, f: real)
    requires x <= y && 0.0 <= f <= 1.0
    ensures x <= x + (y - x) * f <= y
  {
    Product(y - x, f);
    Product(y - x, 1.0 - f);
    assert (y - x) * (1.0 - f) == (y - x) - (y - x) * f;
  }

  lemma Product(a: real, b: real)
    requires 0.0 <= a && 0.0 <= b
    ensures 0.0 <= a * b
  {
  }

  lemma AtRankBetween(t: seq<real>, k: real)
    requires Sorted(t) && |t| > 0 && 0.0 <= k <= (|t| - 1) as real
    ensures var lo := k.Floor;
            && 0 <= lo < |t| && t[lo] <= AtRank(t, k)
            && AtRank(t, k) <= t[if lo + 1 < |t| - 1 then lo + 1 else |t| - 1]
  {
    var lo := k.Floor;
    var hi := if lo + 1 < |t| - 1 then lo + 1 else |t| - 1;
    Between(t[lo], t[hi], k - lo as real);
  }

  lemma AtRankMonotone(t: seq<real>, j: real, k: real)
    requires Sorted(t) && |t| > 0 && 0.0 <= j <= k <= (|t| - 1) as real
    ensures AtRank(t, j) <= AtRank(t, k)
  {
    AtRankBetween(t, j);
    AtRankBetween(t, k);
    var lo := j.Floor;
    if k.Floor == lo {
      var hi := if lo + 1 < |t| - 1 then lo + 1 else |t| - 1;
      var d, f, g := t[hi] - t[lo], j - lo as real, k - lo as real;
      Scaled(d, f, g);
      assert AtRank(t, j) == t[lo] + d * f && AtRank(t, k) == t[lo] + d * g;
    } else {
      assert lo + 1 <= k.Floor;
    }
  }

  /** The percentile lies between any two bounds of the samples. */
  lemma PercentileBounds(vals: seq<real>, q: real, least: real, greatest: real)
    requires |vals| > 0 && 0.0 <= q <= 100.0 && forall v :: v in vals ==> least <= v <= greatest
    ensures least <= Percentile(vals, q).value <= greatest
  {
    SortSorts(vals);
    var t := Sort(vals);
    AtRankBetween(t, Rank(|vals|, q));
    forall i | 0 <= i < |t|
      ensures t[i] in vals
    {
      assert t[i] in multiset(t);
    }
  }

  lemma RankMonotone(n: nat, q: real, r: real)
    requires n > 0 && 0.0 <= q <= r <= 100.0
    ensures Rank(n, q) <= Rank(n, r)
  {
    Scaled((n - 1) as real, q, r);
  }

  lemma Scaled(m: real, q: real, r: real)
    requires 0.0 <= m && q <= r
    ensures m * q <= m * r
  {
  }

  /** p50 <= p95 <= p99, and in general the percentile grows with q. */
  lemma PercentileMonotone(vals: seq<real>, q: real, r: real)
    requires |vals| > 0 && 0.0 <= q <= r <= 100.0
    ensures Percentile(vals, q).value <= Percentile(vals, r).value
  {
    SortSorts(vals);
    RankMonotone(|vals|, q, r);
    AtRankMonotone(Sort(vals), Rank(|vals|, q), Rank(|vals|, r));
  }

  lemma Blend(x: real, y: real, u: real, v: real, f: real)
    requires x <= u && y <= v && 0.0 <= f <= 1.0
    ensures x + (y - x) * f <= u + (v - u) * f
  {
    Product(u - x, 1.0 - f);
    Product(v - y, f);
    assert (u - x) * (1.0 - f) + (v - y) * f == (u + (v - u) * f) - (x + (y - x) * f);
  }

  lemma AtRankRaised(t: seq<real>, u: seq<real>, k: real)
    requires Below(t, u) && |t| > 0 && 0.0 <= k <= (|t| - 1) as real
    ensures AtRank(t, k) <= AtRank(u, k)
  {
    var lo := k.Floor;
    var hi := if lo + 1 < |t| - 1 then lo + 1 else |t| - 1;
    Blend(t[lo], t[hi], u[lo], u[hi], k - lo as real);
  }

  /** Raising samples never lowers a percentile. */
  lemma PercentileRaised(a: seq<real>, b: seq<real>, q: real)
    requires Below(a, b) && |a| > 0 && 0.0 <= q <= 100.0
    ensures Percentile(a, q).value <= Percentile(b, q).value
  {
    SortSorts(a);
    SortSorts(b);
    SortMonotone(a, b);
    AtRankRaised(Sort(a), Sort(b), Rank(|a|, q));
  }

  /** The percentile ignores the order the samples came in. */
  lemma PercentilePermutes(p: seq<real>, r: seq<real>, q: real)
    requires multiset(p) == multiset(r) && 0.0 <= q <= 100.0
    ensures Percentile(p, q) == Percentile(r, q)
  {
    SortPermutes(p, r);
    assert |multiset(p)| == |p| && |multiset(r)| == |r|;
  }

  lemma MiddleRank(n: nat)
    requires n > 0
    ensures Rank(n, 50.0) == (if n % 2 == 1 then (n / 2) as real else (n / 2 - 1) as real + 0.5)
  {
    assert Rank(n, 50.0) == (n - 1) as real * 50.0 / 100.0;
    assert (n - 1) as real * 50.0 / 100.0 == (n - 1) as real / 2.0;
  }

  /** The 50th percentile is the median, for odd and even counts. */
  lemma PercentileMedian(vals: seq<real>)
    requires |vals| > 0
    ensures Percentile(vals, 50.0) == Some(Median(vals))
  {
    SortSorts(vals);
    MiddleRank(|vals|);
    var m, t := |vals| / 2, Sort(vals);
    if |vals| % 2 == 1 {
      AtWhole(t, m);
    } else {
      AtHalf(t, m - 1);
    }
  }

  lemma AtWhole(t: seq<real>, i: nat)
    requires i < |t|
    ensures AtRank(t, i as real) == t[i]
  {
    assert (i as real).Floor == i;
  }

  lemma AtHalf(t: seq<real>, i: nat)
    requires i + 1 < |t|
    ensures AtRank(t, i as real + 0.5) == (t[i] + t[i + 1]) / 2.0
  {
    assert (i as real + 0.5).Floor == i;
  }

  /** So much of the way from `x` to `y`. */
  function Mixed(x: real, y: real, part: real): real { x + (y - x) * part }

  /** The q-th percentile of n samples stands at the rank that is q hundredths of n - 1. */
  lemma PercentileAt(vals: seq<real>, q: real, k: real)
    requires |vals| > 0 && 0.0 <= q <= 100.0 && (|vals| - 1) as real * q == 100.0 * k && 0.0 <= k <= (|vals| - 1) as real
    ensures |Sort(vals)| == |vals| && Percentile(vals, q) == Some(AtRank(Sort(vals), k))
  {
    SortSorts(vals);
    assert Rank(|vals|, q) == k;
  }

  /** Between the i-th and the next sample in order the rank moves in proportion. */
  lemma AtPart(t: seq<real>, i: nat, part: real)
    requires i + 1 < |t| && 0.0 <= part <= 1.0
    ensures AtRank(t, i as real + part) == Mixed(t[i], t[i + 1], part)
  {
    var k := i as real + part;
    if part < 1.0 {
      assert k.Floor == i;
    } else {
      assert k == (i + 1) as real;
      AtWhole(t, i + 1);
    }
  }
}

/** The D4 verdict in plain numbers: both thresholds, the majority of the pairs, and the sign (gates/bench/gate.py `verdict`). */
module VerdictExact {
  import opened Options
  import opened OrderStatistics
  import opened VerdictRule

  /** The pairs in which the second value is the higher one. */
  function Risen(a: seq<real>, b: seq<real>): set<nat> {
    set i: nat | i < |a| && i < |b| && b[i] > a[i]
  }

  function Fallen(a: seq<real>, b: seq<real>): set<nat> {
    set i: nat | i < |a| && i < |b| && b[i] < a[i]
  }

  function Next(s: set<nat>): set<nat> { set i | i in s :: i + 1 }

  lemma {:induction false} NextCard(s: set<nat>)
    ensures |Next(s)| == |s|
  {
    if s != {} {
      var x :| x in s;
      NextCard(s - {x});
      forall y | y in Next(s) ensures y in Next(s - {x}) + {x + 1} {
        var i :| i in s && i + 1 == y;
        assert i != x ==> i in s - {x};
      }
      assert Next(s) == Next(s - {x}) + {x + 1};
      assert x + 1 !in Next(s - {x});
    }
  }

  lemma {:induction false} HigherCard(a: seq<real>, b: seq<real>)
    ensures Higher(a, b) == |Risen(a, b)|
  {
    if a == [] || b == [] {
      assert Risen(a, b) == {};
    } else {
      HigherCard(a[1..], b[1..]);
      var later := Next(Risen(a[1..], b[1..]));
      NextCard(Risen(a[1..], b[1..]));
      RisenSplit(a, b);
      assert 0 !in later;
    }
  }

  lemma RisenSplit(a: seq<real>, b: seq<real>)
    requires a != [] && b != []
    ensures Risen(a, b) == Next(Risen(a[1..], b[1..])) + if b[0] > a[0] then {0} else {}
  {
    forall i | i in Risen(a, b) && i > 0 ensures i in Next(Risen(a[1..], b[1..])) {
      assert i - 1 in Risen(a[1..], b[1..]);
    }
  }

  lemma LowerCard(a: seq<real>, b: seq<real>)
    ensures Lower(a, b) == |Fallen(a, b)|
  {
    PairsSwap(b, a);
    HigherCard(b, a);
    assert Risen(b, a) == Fallen(a, b);
  }

  /** No further than `limit` either way. */
  predicate Within(x: real, limit: real) { -limit <= x <= limit }

  lemma ScaledCompare(x: real, y: real, m: real)
    requires m > 0.0
    ensures x > y <==> x * m > y * m
  {
    if x > y {
      Strict(m, y, x);
    } else if x < y {
      Strict(m, x, y);
    }
  }

  lemma QuotientTimes(d: real, m: real)
    requires m != 0.0
    ensures d / m * m == d
  {
  }

  /** A percentage beyond the limit, without the division. */
  lemma PercentBeyond(d: real, m: real, limit: real)
    requires m != 0.0
    ensures Abs(d / m * 100.0) > limit <==> !Within(100.0 * d, limit * (if m < 0.0 then -m else m))
  {
    var q := d / m;
    var size := if m < 0.0 then -m else m;
    QuotientTimes(d, m);
    var s := if m < 0.0 then -q else q;
    assert s * size == d;
    Hundredfold(s, size, d);
    ScaledCompare(s * 100.0, limit, size);
    ScaledCompare(-(s * 100.0), limit, size);
    assert -(s * 100.0) * size == -(100.0 * d);
  }

  lemma Hundredfold(s: real, size: real, d: real)
    requires s * size == d
    ensures s * 100.0 * size == 100.0 * d
  {
  }

  /** The difference passes both thresholds. */
  predicate Large(m: real, d: real, th: Option<Thresholds>) {
    && th.Some? && m != 0.0
    && !Within(d, th.value.absolute)
    && !Within(100.0 * d, th.value.relativePct * (if m < 0.0 then -m else m))
  }

  lemma LargeIff(m: real, d: real, th: Option<Thresholds>)
    ensures Beyond(m, d, th) <==> Large(m, d, th)
  {
    if th.Some? && m != 0.0 {
      PercentBeyond(d, m, th.value.relativePct);
    }
  }

  lemma MajorityIff(n: nat, moved: nat)
    ensures moved >= n / 2 + 1 <==> 2 * moved > n
  {
  }

  /** The difference counts: both thresholds are passed and a majority of the pairs moved its way. */
  ghost predicate Counts(a: seq<real>, b: seq<real>, th: Option<Thresholds>)
    requires |a| > 0 && |b| > 0
  {
    var m, d := Median(a), Median(b) - Median(a);
    d != 0.0 && Large(m, d, th) && 2 * |if d > 0.0 then Risen(a, b) else Fallen(a, b)| > |a|
  }

  /** What counts is a regression or an improvement by its sign, and everything else is noise. */
  lemma VerdictMeans(a: seq<real>, b: seq<real>, th: Option<Thresholds>, higherIsBetter: bool)
    requires |a| > 0 && |b| > 0
    ensures var v := Judge(a, b, th, higherIsBetter).verdict;
            if !Counts(a, b, th) then v == WithinNoise
            else if Median(b) > Median(a) then v == (if higherIsBetter then Improved else Regressed)
            else v == (if higherIsBetter then Regressed else Improved)
  {
    HigherCard(a, b);
    LowerCard(a, b);
    MajorityIff(|a|, |Risen(a, b)|);
    MajorityIff(|a|, |Fallen(a, b)|);
    LargeIff(Median(a), Median(b) - Median(a), th);
  }

  lemma PercentOf(d: real, m: real)
    requires m != 0.0
    ensures d / m * 100.0 * m == 100.0 * d
  {
    QuotientTimes(d, m);
    Hundredfold(d / m, m, d);
  }

  /** The figures beside the verdict: the difference and the pairs that went the wrong way. */
  lemma VerdictFigures(a: seq<real>, b: seq<real>, th: Option<Thresholds>, higherIsBetter: bool)
    requires |a| > 0 && |b| > 0
    ensures Median(a) + Judge(a, b, th, higherIsBetter).diff == Median(b)
    ensures Judge(a, b, th, higherIsBetter).worse == |if higherIsBetter then Fallen(a, b) else Risen(a, b)|
  {
    HigherCard(a, b);
    LowerCard(a, b);
  }

  /** And the percentage, where there is one. */
  lemma VerdictPercent(a: seq<real>, b: seq<real>, th: Option<Thresholds>, higherIsBetter: bool)
    requires |a| > 0 && |b| > 0
    ensures Judge(a, b, th, higherIsBetter).pct.None? <==> Median(a) == 0.0
    ensures Median(a) != 0.0 ==> Judge(a, b, th, higherIsBetter).pct.value * Median(a) == 100.0 * (Median(b) - Median(a))
  {
    if Median(a) != 0.0 {
      PercentOf(Median(b) - Median(a), Median(a));
    }
  }
}

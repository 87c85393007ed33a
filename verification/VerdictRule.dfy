/**
 The D4 rule of the benchmark gate: a candidate regressed when its median moved beyond both
 thresholds for the worse and a majority of the run pairs agree
 (gates/bench/gate.py `verdict`).
 */
module VerdictRule {
  import opened Options
  import opened OrderStatistics

  datatype Thresholds = Thresholds(relativePct: real, absolute: real)

  datatype Verdict = Improved | WithinNoise | Regressed | NotComparable

  datatype Judgement = Judgement(verdict: Verdict, diff: real, pct: Option<real>, worse: nat)

  function Abs(x: real): real { if x < 0.0 then -x else x }

  /** Pairs in which the second run was higher; `Lower` in which it was lower. */
  function Higher(a: seq<real>, b: seq<real>): nat {
    if a == [] || b == [] then 0 else (if b[0] > a[0] then 1 else 0) + Higher(a[1..], b[1..])
  }

  function Lower(a: seq<real>, b: seq<real>): nat {
    if a == [] || b == [] then 0 else (if b[0] < a[0] then 1 else 0) + Lower(a[1..], b[1..])
  }

  predicate Beyond(ma: real, diff: real, th: Option<Thresholds>) {
    && th.Some? && ma != 0.0
    && Abs(diff / ma * 100.0) > th.value.relativePct && Abs(diff) > th.value.absolute
  }

  function Judge(a: seq<real>, b: seq<real>, th: Option<Thresholds>, higherIsBetter: bool): Judgement
    requires |a| > 0 && |b| > 0
  {
    var ma, mb := Median(a), Median(b);
    var diff := mb - ma;
    var pct := if ma != 0.0 then Some(diff / ma * 100.0) else None;
    var worse := if higherIsBetter then Lower(a, b) else Higher(a, b);
    var better := if higherIsBetter then Higher(a, b) else Lower(a, b);
    var need := |a| / 2 + 1;
    var forTheWorse := if higherIsBetter then diff < 0.0 else diff > 0.0;
    var forTheBetter := if higherIsBetter then diff > 0.0 else diff < 0.0;
    if Beyond(ma, diff, th) && forTheWorse && worse >= need then Judgement(Regressed, diff, pct, worse)
    else if Beyond(ma, diff, th) && forTheBetter && better >= need then Judgement(Improved, diff, pct, worse)
    else Judgement(WithinNoise, diff, pct, worse)
  }

  function Severity(v: Verdict): int {
    match v
    case Improved => 0
    case WithinNoise => 1
    case Regressed => 2
    case NotComparable => 2
  }

  lemma {:induction false} PairsMonotone(a: seq<real>, b: seq<real>, c: seq<real>)
    requires Below(b, c)
    ensures Higher(a, b) <= Higher(a, c) && Lower(a, c) <= Lower(a, b)
  {
    if a != [] && b != [] { PairsMonotone(a[1..], b[1..], c[1..]); }
  }

  /** Beyond both thresholds upwards stays beyond them further up. */
  lemma BeyondUp(ma: real, d: real, e: real, th: Option<Thresholds>)
    requires ma > 0.0 && 0.0 < d <= e && Beyond(ma, d, th)
    ensures Beyond(ma, e, th)
  {
    Ratio(ma, d, e);
    Ratio(ma, 0.0, d);
  }

  lemma BeyondDown(ma: real, d: real, e: real, th: Option<Thresholds>)
    requires ma > 0.0 && d <= e < 0.0 && Beyond(ma, e, th)
    ensures Beyond(ma, d, th)
  {
    Ratio(ma, d, e);
    Ratio(ma, e, 0.0);
  }

  lemma Ratio(m: real, d: real, e: real)
    requires m > 0.0 && d <= e
    ensures d / m <= e / m
  {
    var x, y := d / m, e / m;
    assert x * m == d && y * m == e;
    if x > y {
      Strict(m, y, x);
    }
  }

  lemma Strict(m: real, x: real, y: real)
    requires 0.0 < m && x < y
    ensures x * m < y * m
  {
  }

  /** Raising candidate values never moves the verdict towards improved. */
  lemma VerdictMonotone(a: seq<real>, b: seq<real>, c: seq<real>, th: Option<Thresholds>)
    requires |a| > 0 && |b| > 0 && Below(b, c) && Median(a) > 0.0
    ensures Severity(Judge(a, b, th, false).verdict) <= Severity(Judge(a, c, th, false).verdict)
  {
    MedianMonotone(b, c);
    PairsMonotone(a, b, c);
    var ma, d, e := Median(a), Median(b) - Median(a), Median(c) - Median(a);
    if Judge(a, b, th, false).verdict == Regressed {
      BeyondUp(ma, d, e, th);
    } else if Judge(a, c, th, false).verdict == Improved {
      BeyondDown(ma, d, e, th);
    }
  }

  function Mirror(v: Verdict): Verdict {
    match v
    case Improved => Regressed
    case Regressed => Improved
    case other => other
  }

  /** Higher-is-better is the exact mirror of lower-is-better. */
  lemma HigherIsMirror(a: seq<real>, b: seq<real>, th: Option<Thresholds>)
    requires |a| > 0 && |b| > 0
    ensures Judge(a, b, th, true).verdict == Mirror(Judge(a, b, th, false).verdict)
    ensures Judge(a, b, th, true).diff == Judge(a, b, th, false).diff
  {
    OneMajority(a, b);
  }

  lemma {:induction false} OneMajority(a: seq<real>, b: seq<real>)
    ensures Higher(a, b) + Lower(a, b) <= |a|
  {
    if a != [] && b != [] { OneMajority(a[1..], b[1..]); }
  }

  lemma {:induction false} PairsSwap(a: seq<real>, b: seq<real>)
    ensures Higher(a, b) == Lower(b, a)
  {
    if a != [] && b != [] { PairsSwap(a[1..], b[1..]); }
  }

  lemma ShrinkingBase(ma: real, mb: real)
    requires 0.0 < mb < ma
    ensures Abs((mb - ma) / ma * 100.0) <= Abs((ma - mb) / mb * 100.0)
  {
    var d := ma - mb;
    var x, y := d / ma, d / mb;
    assert x * ma == d && y * mb == d;
    if y < x {
      Strict(mb, y, x);
      Strict(x, mb, ma);
    }
    assert (mb - ma) / ma == -x;
  }

  /**
   An improvement seen from the other side is a regression exactly when the improved median
   is not zero: against a zero median no percentage exists and nothing is judged.
   */
  lemma ImprovedSwaps(a: seq<real>, b: seq<real>, th: Option<Thresholds>)
    requires |a| == |b| > 0 && Median(b) >= 0.0
    requires Judge(a, b, th, false).verdict == Improved
    ensures Judge(b, a, th, false).verdict == Regressed <==> Median(b) > 0.0
  {
    PairsSwap(b, a);
    if Median(b) > 0.0 { ShrinkingBase(Median(a), Median(b)); }
  }

  lemma SingleMedian(x: real)
    ensures Median([x]) == x
  {
    assert [x][1..] == [];
    assert Sort([x]) == Insert(x, []);
  }

  /** A latency of 10 that fell to 0 improved, and is no regression the other way round. */
  lemma ZeroMedianUnjudged()
    ensures var th := Some(Thresholds(5.0, 1.0));
            Judge([10.0], [0.0], th, false).verdict == Improved && Judge([0.0], [10.0], th, false).verdict == WithinNoise
  {
    SingleMedian(10.0);
    SingleMedian(0.0);
    assert Lower([10.0], [0.0]) == 1 + Lower([10.0][1..], [0.0][1..]);
  }
}

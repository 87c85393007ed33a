/**
 A measurement window against the resource sampler: accepted only when the samples bracket it
 and leave no gap (gates/bench/report.py `resource_windows`), over exact numbers.
 */
module ResourceWindows {
  import opened Options

  datatype Window = Window(start: real, end: real)

  /** The tolerances, in seconds, and whether a CPU counter is mandatory. */
  datatype Limits = Limits(bracket: real, gap: real, cpuRequired: bool)

  datatype Refusal = Unordered | NotBracketed | InvalidWindow | BracketExceeded | GapExceeded | CounterDecreased | CounterMissing

  datatype Verdict = Refused(why: Refusal) | Accepted(lo: nat, hi: nat, cpuSeconds: Option<real>)

  predicate Increasing(times: seq<real>) { forall i :: 0 <= i < |times| - 1 ==> times[i] < times[i + 1] }

  /** max(i for t <= x), or None. */
  function LastAtMost(times: seq<real>, x: real): (r: Option<nat>)
    ensures r.Some? ==> r.value < |times| && times[r.value] <= x && forall j :: r.value < j < |times| ==> times[j] > x
    ensures r.None? ==> forall j :: 0 <= j < |times| ==> times[j] > x
  {
    if times == [] then None
    else if times[|times| - 1] <= x then Some(|times| - 1)
    else LastAtMost(times[..|times| - 1], x)
  }

  /** min(i for t >= x), or None. */
  function FirstAtLeast(times: seq<real>, x: real, from: nat): (r: Option<nat>)
    requires from <= |times|
    ensures r.Some? ==> from <= r.value < |times| && times[r.value] >= x && forall j :: from <= j < r.value ==> times[j] < x
    ensures r.None? ==> forall j :: from <= j < |times| ==> times[j] < x
    decreases |times| - from
  {
    if from == |times| then None
    else if times[from] >= x then Some(from)
    else FirstAtLeast(times, x, from + 1)
  }

  predicate GapsWithin(times: seq<real>, lo: nat, hi: nat, limit: real)
    requires hi < |times|
  {
    forall i :: lo <= i < hi ==> times[i + 1] - times[i] <= limit
  }

  predicate NonDecreasing(cpu: seq<int>, lo: nat, hi: nat)
    requires hi < |cpu|
  {
    forall i :: lo <= i < hi ==> cpu[i] <= cpu[i + 1]
  }

  /** The largest gap between neighbouring samples, zero when there is none. */
  method MaxGap(times: seq<real>, lo: nat, hi: nat) returns (gap: real)
    requires lo <= hi < |times| && Increasing(times)
    ensures gap >= 0.0
    ensures lo < hi ==> forall limit :: gap > limit <==> !GapsWithin(times, lo, hi, limit)
  {
    gap := 0.0;
    for i := lo to hi
      invariant gap >= 0.0
      invariant forall j :: lo <= j < i ==> times[j + 1] - times[j] <= gap
      invariant (i == lo && gap == 0.0) || exists j :: lo <= j < i && times[j + 1] - times[j] == gap
    {
      if times[i + 1] - times[i] > gap {
        gap := times[i + 1] - times[i];
      }
    }
  }

  /** One window; `cpu` is the cumulative counter column in microseconds, if the samples have one. */
  method JudgeWindow(times: seq<real>, cpu: Option<seq<int>>, w: Window, limits: Limits) returns (v: Verdict)
    requires cpu.Some? ==> |cpu.value| == |times|
    ensures v.Accepted? <==> Sound(times, cpu, w, limits)
    ensures v.Accepted? ==> Bracket(times, w, v.lo, v.hi)
    ensures v == Refused(Unordered) <==> times == [] || !Increasing(times)
    ensures v == Refused(NotBracketed) ==> Increasing(times) && forall lo: nat, hi: nat :: !Bracket(times, w, lo, hi)
    ensures v.Refused? && v.why != Unordered && v.why != NotBracketed ==>
              exists lo: nat, hi: nat :: Bracket(times, w, lo, hi) && Fault(times, cpu, w, limits, lo, hi, v.why)
    ensures v.Accepted? && cpu.Some? ==> v.cpuSeconds == Some((cpu.value[v.hi] - cpu.value[v.lo]) as real / 1000000.0)
    ensures v.Accepted? && cpu.None? ==> v.cpuSeconds == None
  {
    if times == [] || !Increasing(times) { return Refused(Unordered); }
    var low, high := LastAtMost(times, w.start), FirstAtLeast(times, w.end, 0);
    if low.None? || high.None? {
      forall l: nat, h: nat ensures !Bracket(times, w, l, h) { }
      return Refused(NotBracketed);
    }
    var lo, hi := low.value, high.value;
    SoundIff(times, cpu, w, limits, lo, hi);
    assert Bracket(times, w, lo, hi);
    if hi <= lo || w.end <= w.start {
      assert Fault(times, cpu, w, limits, lo, hi, InvalidWindow);
      return Refused(InvalidWindow);
    }
    var gap := MaxGap(times, lo, hi);
    assert gap > limits.gap <==> !GapsWithin(times, lo, hi, limits.gap);
    if w.start - times[lo] > limits.bracket || times[hi] - w.end > limits.bracket {
      assert Fault(times, cpu, w, limits, lo, hi, BracketExceeded);
      return Refused(BracketExceeded);
    }
    if gap > limits.gap {
      assert Fault(times, cpu, w, limits, lo, hi, GapExceeded);
      return Refused(GapExceeded);
    }
    if cpu.Some? {
      if !NonDecreasing(cpu.value, lo, hi) {
        assert Fault(times, cpu, w, limits, lo, hi, CounterDecreased);
        return Refused(CounterDecreased);
      }
      return Accepted(lo, hi, Some((cpu.value[hi] - cpu.value[lo]) as real / 1000000.0));
    }
    if limits.cpuRequired {
      assert Fault(times, cpu, w, limits, lo, hi, CounterMissing);
      return Refused(CounterMissing);
    }
    v := Accepted(lo, hi, None);
  }

  /** `lo` is the last sample at or before the window, `hi` the first at or after it. */
  ghost predicate Bracket(times: seq<real>, w: Window, lo: nat, hi: nat) {
    && lo < |times| && hi < |times| && times[lo] <= w.start && w.end <= times[hi]
    && (forall j :: lo < j < |times| ==> times[j] > w.start)
    && (forall j :: 0 <= j < hi ==> times[j] < w.end)
  }

  /** What acceptance amounts to. */
  ghost predicate Sound(times: seq<real>, cpu: Option<seq<int>>, w: Window, limits: Limits)
    requires cpu.Some? ==> |cpu.value| == |times|
  {
    && Increasing(times) && w.start < w.end
    && exists lo: nat, hi: nat :: Bracket(times, w, lo, hi) && SoundAt(times, cpu, w, limits, lo, hi)
  }

  ghost predicate SoundAt(times: seq<real>, cpu: Option<seq<int>>, w: Window, limits: Limits, lo: nat, hi: nat)
    requires cpu.Some? ==> |cpu.value| == |times|
  {
    && lo < hi < |times|
    && w.start - times[lo] <= limits.bracket && times[hi] - w.end <= limits.bracket
    && GapsWithin(times, lo, hi, limits.gap)
    && (cpu.Some? ==> NonDecreasing(cpu.value, lo, hi)) && (cpu.None? ==> !limits.cpuRequired)
  }

  /** What each refusal of a bracketed window means; the first that applies is named. */
  ghost predicate Fault(times: seq<real>, cpu: Option<seq<int>>, w: Window, limits: Limits, lo: nat, hi: nat, why: Refusal)
    requires cpu.Some? ==> |cpu.value| == |times|
    requires lo < |times| && hi < |times|
  {
    var proper := lo < hi && w.start < w.end;
    var near := w.start - times[lo] <= limits.bracket && times[hi] - w.end <= limits.bracket;
    var dense := GapsWithin(times, lo, hi, limits.gap);
    match why
    case InvalidWindow => !proper
    case BracketExceeded => proper && !near
    case GapExceeded => proper && near && !dense
    case CounterDecreased => proper && near && dense && cpu.Some? && !NonDecreasing(cpu.value, lo, hi)
    case CounterMissing => proper && near && dense && cpu.None? && limits.cpuRequired
    case _ => false
  }

  lemma BracketUnique(times: seq<real>, w: Window, lo: nat, hi: nat)
    requires Bracket(times, w, lo, hi)
    ensures forall l: nat, h: nat :: Bracket(times, w, l, h) ==> l == lo && h == hi
  {
    forall l: nat, h: nat | Bracket(times, w, l, h)
      ensures l == lo && h == hi
    {
      assert !(lo < l) && !(l < lo) && !(hi < h) && !(h < hi);
    }
  }

  /** The bracket being unique, soundness is decided at it. */
  lemma SoundIff(times: seq<real>, cpu: Option<seq<int>>, w: Window, limits: Limits, lo: nat, hi: nat)
    requires cpu.Some? ==> |cpu.value| == |times|
    requires Increasing(times) && Bracket(times, w, lo, hi)
    ensures Sound(times, cpu, w, limits) <==> w.start < w.end && SoundAt(times, cpu, w, limits, lo, hi)
  {
    BracketUnique(times, w, lo, hi);
  }

  // ----- what an accepted window is worth ---------------------------------------------------------------

  /** Every instant lies between two samples no further apart than the limit. */
  lemma {:induction false} InstantCovered(times: seq<real>, lo: nat, hi: nat, limit: real, x: real) returns (i: nat)
    requires lo < hi < |times| && GapsWithin(times, lo, hi, limit) && times[lo] <= x <= times[hi]
    ensures lo <= i < hi && times[i] <= x <= times[i + 1] && times[i + 1] - times[i] <= limit
    decreases hi
  {
    if times[hi - 1] <= x {
      i := hi - 1;
    } else {
      i := InstantCovered(times, lo, hi - 1, limit, x);
    }
  }

  lemma AcceptedCovers(times: seq<real>, cpu: Option<seq<int>>, w: Window, limits: Limits, x: real)
    requires cpu.Some? ==> |cpu.value| == |times|
    requires Sound(times, cpu, w, limits) && w.start <= x <= w.end
    ensures exists i :: 0 <= i < |times| - 1 && times[i] <= x <= times[i + 1] && times[i + 1] - times[i] <= limits.gap
    ensures exists lo: nat, hi: nat :: Bracket(times, w, lo, hi) && w.start - times[lo] <= limits.bracket && times[hi] - w.end <= limits.bracket
  {
    var lo: nat, hi: nat :| Bracket(times, w, lo, hi) && SoundAt(times, cpu, w, limits, lo, hi);
    var i := InstantCovered(times, lo, hi, limits.gap, x);
  }

  function Increments(cpu: seq<int>, lo: nat, hi: nat): int
    requires lo <= hi < |cpu|
    decreases hi
  {
    if lo == hi then 0 else Increments(cpu, lo, hi - 1) + (cpu[hi] - cpu[hi - 1])
  }

  /** The CPU of a window is the sum of its sampled increments, none of them negative. */
  lemma {:induction false} CpuTelescopes(cpu: seq<int>, lo: nat, hi: nat)
    requires lo <= hi < |cpu| && NonDecreasing(cpu, lo, hi)
    ensures cpu[hi] - cpu[lo] == Increments(cpu, lo, hi) && Increments(cpu, lo, hi) >= 0
    decreases hi
  {
    if lo < hi { CpuTelescopes(cpu, lo, hi - 1); }
  }

  lemma {:induction false} CounterMonotone(cpu: seq<int>, lo: nat, hi: nat, i: nat, j: nat)
    requires lo <= i <= j <= hi < |cpu| && NonDecreasing(cpu, lo, hi)
    ensures cpu[i] <= cpu[j]
    decreases j
  {
    if i < j { CounterMonotone(cpu, lo, hi, i, j - 1); }
  }

  /** A window inside another brackets inside it. */
  lemma NestedBracket(times: seq<real>, w: Window, inner: Window, lo: nat, hi: nat, l: nat, h: nat)
    requires Bracket(times, w, lo, hi) && Bracket(times, inner, l, h) && w.start <= inner.start && inner.end <= w.end
    ensures lo <= l && h <= hi
  {
    assert !(l < lo) && !(hi < h);
  }

  /** An accepted window inside an accepted one never has more CPU. */
  lemma NestedCpu(times: seq<real>, cpu: seq<int>, w: Window, inner: Window, limits: Limits, lo: nat, hi: nat, l: nat, h: nat)
    requires |cpu| == |times|
    requires Sound(times, Some(cpu), w, limits) && Sound(times, Some(cpu), inner, limits)
    requires Bracket(times, w, lo, hi) && Bracket(times, inner, l, h)
    requires w.start <= inner.start && inner.end <= w.end
    ensures 0 <= cpu[h] - cpu[l] <= cpu[hi] - cpu[lo]
  {
    BracketUnique(times, w, lo, hi);
    BracketUnique(times, inner, l, h);
    assert SoundAt(times, Some(cpu), w, limits, lo, hi) && SoundAt(times, Some(cpu), inner, limits, l, h);
    NestedBracket(times, w, inner, lo, hi, l, h);
    CounterMonotone(cpu, lo, hi, lo, l);
    CounterMonotone(cpu, lo, hi, l, h);
    CounterMonotone(cpu, lo, hi, h, hi);
  }
}

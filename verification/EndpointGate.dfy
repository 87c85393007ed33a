/**
 The per-endpoint gate: each endpoint of either side judged over its runs, and the cells that
 stop a release (gates/bench/gate.py `endpoint_verdicts`, `blocking`;
 gates/bench/endpoints.py `uniform_status`, `problem`).
 */
module EndpointGate {
  import opened Options
  import opened Sequences
  import opened OrderStatistics
  import opened VerdictRule

  /** One endpoint's entry in a run's document. */
  datatype Entry = Entry(gates: bool, skipped: Option<string>, p50: Option<real>, target: Option<string>, statuses: map<string, nat>)

  type Run = map<string, Entry>

  datatype Why = MissingRuns | MissingFromRun | Skipped | NotMeasured | AskedDifferently | MixedStatuses | AnsweredDifferently | NoGated

  datatype Row = Judged(gated: bool, judgement: Judgement) | Unjudged(gated: bool, why: Why) {
    function Verdict(): Verdict { if Judged? then judgement.verdict else NotComparable }
  }

  /** A cell of the table: an endpoint, or the stand-in for "no gated endpoint at all". */
  datatype Cell = Of(id: string) | NoEndpoints

  // ----- one endpoint's runs ---------------------------------------------------------------------

  function Entries(runs: seq<Run>, id: string): (es: seq<Option<Entry>>)
    ensures |es| == |runs|
  {
    Map((run: Run) => if id in run then Some(run[id]) else None, runs)
  }

  lemma SingleKey(m: map<string, nat>)
    requires |m| == 1
    ensures exists s :: m.Keys == {s}
  {
    var s :| s in m;
    assert |m.Keys - {s}| == 0;
    assert m.Keys == {s} + (m.Keys - {s});
  }

  /** The one status every answer of the endpoint had, if there is one. */
  function UniformStatus(e: Entry): (r: Option<string>)
    ensures r.Some? <==> |e.statuses| == 1
    ensures r.Some? ==> e.statuses.Keys == {r.value}
  {
    if |e.statuses| == 1 then
      SingleKey(e.statuses);
      var s :| e.statuses.Keys == {s};
      Some(s)
    else None
  }

  /** Skipped with a reason; an empty one is none. */
  predicate HasSkipped(e: Entry) { e.skipped.Some? && e.skipped.value != "" }

  /** Why the runs cannot be set beside each other, the first reason in the source's order. */
  function Problem(es: seq<Option<Entry>>): Option<Why> {
    if exists i :: 0 <= i < |es| && es[i].None? then Some(MissingFromRun)
    else if exists i :: 0 <= i < |es| && es[i].Some? && HasSkipped(es[i].value) then Some(Skipped)
    else if exists i :: 0 <= i < |es| && es[i].Some? && es[i].value.p50.None? then Some(NotMeasured)
    else if exists i :: 0 <= i < |es| && es[i].Some? && es[0].Some? && es[i].value.target != es[0].value.target then Some(AskedDifferently)
    else if exists i :: 0 <= i < |es| && es[i].Some? && UniformStatus(es[i].value).None? then Some(MixedStatuses)
    else if exists i :: 0 <= i < |es| && es[i].Some? && es[0].Some? && UniformStatus(es[i].value) != UniformStatus(es[0].value) then
      Some(AnsweredDifferently)
    else None
  }

  /** Measured in this run, asked as `target` and always answered `status`. */
  ghost predicate Measured(e: Option<Entry>, target: Option<string>, status: string) {
    && e.Some? && !HasSkipped(e.value) && e.value.p50.Some?
    && e.value.target == target && e.value.statuses.Keys == {status}
  }

  ghost predicate Alike(es: seq<Option<Entry>>, target: Option<string>, status: string) {
    forall i :: 0 <= i < |es| ==> Measured(es[i], target, status)
  }

  /** No problem exactly when every run measured the endpoint, with one target and one uniform status. */
  lemma ProblemExact(es: seq<Option<Entry>>)
    requires |es| > 0
    ensures Problem(es).None? <==> exists target, status :: Alike(es, target, status)
  {
    if Problem(es).None? {
      var target, status := es[0].value.target, UniformStatus(es[0].value).value;
      assert Alike(es, target, status);
    }
    if target, status :| Alike(es, target, status) {
      forall i | 0 <= i < |es|
        ensures es[i].Some? && !HasSkipped(es[i].value) && es[i].value.p50.Some? && es[i].value.target == target
        ensures UniformStatus(es[i].value) == Some(status)
      {
        assert Measured(es[i], target, status);
      }
    }
  }

  // ----- the table ----------------------------------------------------------------------------------

  /** The per-run p50 values, in schedule order. */
  function P50s(es: seq<Option<Entry>>): (s: seq<real>)
    requires forall i :: 0 <= i < |es| ==> es[i].Some? && es[i].value.p50.Some?
    ensures |s| == |es|
  {
    seq(|es|, i requires 0 <= i < |es| => es[i].value.p50.value)
  }

  predicate Gated(es: seq<Option<Entry>>) { exists i :: 0 <= i < |es| && es[i].Some? && es[i].value.gates }

  lemma NoProblemMeasured(es: seq<Option<Entry>>)
    requires Problem(es).None?
    ensures forall i :: 0 <= i < |es| ==> es[i].Some? && es[i].value.p50.Some?
  {
  }

  function RowOf(aRuns: seq<Run>, bRuns: seq<Run>, band: Option<Thresholds>, id: string): Row {
    var a, b := Entries(aRuns, id), Entries(bRuns, id);
    var why := if a != [] && |a| == |b| then Problem(a + b) else Some(MissingRuns);
    if why.Some? then Unjudged(Gated(a + b), why.value)
    else
      NoProblemMeasured(a + b);
      assert forall i :: 0 <= i < |a| ==> (a + b)[i] == a[i];
      assert forall i :: 0 <= i < |b| ==> (a + b)[|a| + i] == b[i];
      Judged(Gated(a + b), Judge(P50s(a), P50s(b), band, false))
  }

  /** Every endpoint any run of either side names. */
  function Named(runs: seq<Run>): set<string> {
    if runs == [] then {} else Named(runs[..|runs| - 1]) + runs[|runs| - 1].Keys
  }

  function Band(bands: map<string, Thresholds>, default: Option<Thresholds>, id: string): Option<Thresholds> {
    if id in bands then Some(bands[id]) else default
  }

  method EndpointVerdicts(aRuns: seq<Run>, bRuns: seq<Run>, bands: map<string, Thresholds>, default: Option<Thresholds>)
    returns (out: map<Cell, Row>)
    ensures forall id :: Of(id) in out <==> id in Named(aRuns + bRuns)
    ensures forall id :: Of(id) in out ==> out[Of(id)] == RowOf(aRuns, bRuns, Band(bands, default, id), id)
    ensures NoEndpoints in out <==> forall id :: Of(id) in out ==> !out[Of(id)].gated
    ensures NoEndpoints in out ==> out[NoEndpoints] == Unjudged(true, NoGated)
  {
    out := map[];
    var rest := Named(aRuns + bRuns);
    var gated := false;
    while rest != {}
      invariant rest <= Named(aRuns + bRuns) && NoEndpoints !in out
      invariant forall id :: Of(id) in out <==> id in Named(aRuns + bRuns) && id !in rest
      invariant forall id :: Of(id) in out ==> out[Of(id)] == RowOf(aRuns, bRuns, Band(bands, default, id), id)
      invariant gated <==> exists id :: Of(id) in out && out[Of(id)].gated
      decreases rest
    {
      var id :| id in rest;
      var row := RowOf(aRuns, bRuns, Band(bands, default, id), id);
      out := out[Of(id) := row];
      gated := gated || row.gated;
      rest := rest - {id};
      assert row.gated ==> out[Of(id)].gated;
    }
    if !gated {
      out := out[NoEndpoints := Unjudged(true, NoGated)];
    }
  }

  /** The gated cells that stop the release. */
  function Blocking(rows: map<Cell, Row>): set<Cell> {
    set c | c in rows && rows[c].gated && (rows[c].Verdict() == Regressed || rows[c].Verdict() == NotComparable)
  }

  // ----- passing fails closed --------------------------------------------------------------------------

  /** An endpoint gates when any run of either side says so. */
  ghost predicate GatesAnywhere(aRuns: seq<Run>, bRuns: seq<Run>, id: string) {
    Gated(Entries(aRuns, id) + Entries(bRuns, id))
  }

  /** The endpoint was measured in every run of both sides, alike, and did not regress. */
  ghost predicate Passed(aRuns: seq<Run>, bRuns: seq<Run>, band: Option<Thresholds>, id: string) {
    var a, b := Entries(aRuns, id), Entries(bRuns, id);
    && |a| == |b| > 0
    && (exists target, status :: Alike(a + b, target, status))
    && (forall i :: 0 <= i < |a| ==> a[i].Some? && a[i].value.p50.Some?)
    && (forall i :: 0 <= i < |b| ==> b[i].Some? && b[i].value.p50.Some?)
    && Judge(P50s(a), P50s(b), band, false).verdict != Regressed
  }

  lemma RowPasses(aRuns: seq<Run>, bRuns: seq<Run>, band: Option<Thresholds>, id: string)
    ensures var v := RowOf(aRuns, bRuns, band, id).Verdict();
            (v == Improved || v == WithinNoise) <==> Passed(aRuns, bRuns, band, id)
    ensures RowOf(aRuns, bRuns, band, id).gated <==> GatesAnywhere(aRuns, bRuns, id)
  {
    var a, b := Entries(aRuns, id), Entries(bRuns, id);
    if |a| == |b| > 0 {
      ProblemExact(a + b);
      assert forall i :: 0 <= i < |a| ==> (a + b)[i] == a[i];
      assert forall i :: 0 <= i < |b| ==> (a + b)[|a| + i] == b[i];
    }
  }

  /** Nothing blocks exactly when some named endpoint gates and every named endpoint that gates passed. */
  lemma PassingFailsClosed(aRuns: seq<Run>, bRuns: seq<Run>, bands: map<string, Thresholds>, default: Option<Thresholds>,
                           out: map<Cell, Row>)
    requires forall id :: Of(id) in out <==> id in Named(aRuns + bRuns)
    requires forall id :: Of(id) in out ==> out[Of(id)] == RowOf(aRuns, bRuns, Band(bands, default, id), id)
    requires NoEndpoints in out <==> forall id :: Of(id) in out ==> !out[Of(id)].gated
    requires NoEndpoints in out ==> out[NoEndpoints] == Unjudged(true, NoGated)
    ensures Blocking(out) == {} <==>
            && (exists id :: id in Named(aRuns + bRuns) && GatesAnywhere(aRuns, bRuns, id))
            && (forall id :: id in Named(aRuns + bRuns) && GatesAnywhere(aRuns, bRuns, id) ==>
                  Passed(aRuns, bRuns, Band(bands, default, id), id))
  {
    forall id | id in Named(aRuns + bRuns)
      ensures Of(id) in out && (out[Of(id)].gated <==> GatesAnywhere(aRuns, bRuns, id))
      ensures Of(id) in Blocking(out) <==> GatesAnywhere(aRuns, bRuns, id) && !Passed(aRuns, bRuns, Band(bands, default, id), id)
    {
      RowPasses(aRuns, bRuns, Band(bands, default, id), id);
    }
    if NoEndpoints in out {
      assert NoEndpoints in Blocking(out);
    }
    forall c | c in Blocking(out)
      ensures c == NoEndpoints || (c.Of? && c.id in Named(aRuns + bRuns))
    {
    }
  }
}

/** The endpoint gate over the runs themselves (gates/bench/gate.py `endpoint_verdicts`, `blocking`). */
module EndpointFacts {
  import opened Options
  import opened Sequences
  import opened OrderStatistics
  import opened VerdictRule
  import opened VerdictExact
  import opened EndpointGate

  /** Measured, not skipped, asked as `target` and always answered `status`. */
  ghost predicate Fine(e: Entry, target: Option<string>, status: string) {
    && (e.skipped == None || e.skipped == Some("")) && e.p50.Some? && e.target == target && e.statuses.Keys == {status}
  }

  /** Every run has the endpoint, fine, with these p50 values. */
  ghost predicate AllFine(runs: seq<Run>, id: string, target: Option<string>, status: string, p50s: seq<real>) {
    |p50s| == |runs| && forall i :: 0 <= i < |runs| ==> id in runs[i] && Fine(runs[i][id], target, status) && runs[i][id].p50.value == p50s[i]
  }

  /** Both sides have as many runs, all of them fine alike, and their p50 values did not regress. */
  ghost predicate PassesIn(a: seq<Run>, b: seq<Run>, band: Option<Thresholds>, id: string) {
    |a| == |b| > 0 &&
    exists target, status, p, q :: AllFine(a, id, target, status, p) && AllFine(b, id, target, status, q)
      && |p| > 0 && |q| > 0 && !(Counts(p, q, band) && Median(q) > Median(p))
  }

  predicate GatesIn(runs: seq<Run>, id: string) {
    exists i :: 0 <= i < |runs| && id in runs[i] && runs[i][id].gates
  }

  predicate Gating(a: seq<Run>, b: seq<Run>, id: string) { GatesIn(a, id) || GatesIn(b, id) }

  /** The endpoint's own band, or the common one. */
  function OwnBand(bands: map<string, Thresholds>, default: Option<Thresholds>, id: string): (band: Option<Thresholds>)
    ensures id in bands ==> band == Some(bands[id])
    ensures id !in bands ==> band == default
  {
    if id in bands then Some(bands[id]) else default
  }

  lemma {:induction false} NamedIff(runs: seq<Run>, id: string)
    ensures id in Named(runs) <==> exists i :: 0 <= i < |runs| && id in runs[i]
  {
    if runs != [] {
      var front, last := runs[..|runs| - 1], runs[|runs| - 1];
      NamedIff(front, id);
      if i :| 0 <= i < |front| && id in front[i] {
        assert id in runs[i];
      }
      if i :| 0 <= i < |runs| && id in runs[i] {
        assert i < |front| ==> front[i] == runs[i];
      }
      assert id in last ==> id in runs[|runs| - 1];
    }
  }

  lemma GatesIff(a: seq<Run>, b: seq<Run>, id: string)
    ensures GatesAnywhere(a, b, id) <==> GatesIn(a, id) || GatesIn(b, id)
  {
    var es: seq<Option<Entry>>, fs: seq<Option<Entry>> := Entries(a, id), Entries(b, id);
    var all: seq<Option<Entry>> := es + fs;
    if i :| 0 <= i < |all| && all[i].Some? && all[i].value.gates {
      if i < |es| {
        assert id in a[i] && a[i][id].gates;
      } else {
        assert id in b[i - |es|] && b[i - |es|][id].gates;
      }
    }
    if i :| 0 <= i < |a| && id in a[i] && a[i][id].gates {
      assert all[i].Some? && all[i].value.gates;
    }
    if i :| 0 <= i < |b| && id in b[i] && b[i][id].gates {
      assert all[|es| + i].Some? && all[|es| + i].value.gates;
    }
  }

  /** A gating endpoint is a named one. */
  lemma GatingNamed(a: seq<Run>, b: seq<Run>, id: string)
    requires Gating(a, b, id)
    ensures id in Named(a + b)
  {
    NamedIff(a + b, id);
    if GatesIn(a, id) {
      var i :| 0 <= i < |a| && id in a[i] && a[i][id].gates;
      assert (a + b)[i] == a[i];
    } else {
      var i :| 0 <= i < |b| && id in b[i] && b[i][id].gates;
      assert (a + b)[|a| + i] == b[i];
    }
  }

  /** The entries of one side are those of its runs. */
  lemma AlikeSide(runs: seq<Run>, id: string, target: Option<string>, status: string)
    requires Alike(Entries(runs, id), target, status)
    ensures (forall i :: 0 <= i < |runs| ==> Entries(runs, id)[i].Some? && Entries(runs, id)[i].value.p50.Some?)
    ensures AllFine(runs, id, target, status, P50s(Entries(runs, id)))
  {
    forall i | 0 <= i < |runs| ensures id in runs[i] && Fine(runs[i][id], target, status) && Entries(runs, id)[i] == Some(runs[i][id]) {
      assert Measured(Entries(runs, id)[i], target, status);
    }
  }

  lemma FineSide(runs: seq<Run>, id: string, target: Option<string>, status: string, p: seq<real>)
    requires AllFine(runs, id, target, status, p)
    ensures Alike(Entries(runs, id), target, status)
    ensures (forall i :: 0 <= i < |runs| ==> Entries(runs, id)[i].Some? && Entries(runs, id)[i].value.p50.Some?)
    ensures P50s(Entries(runs, id)) == p
  {
    forall i | 0 <= i < |runs| ensures Measured(Entries(runs, id)[i], target, status) && Entries(runs, id)[i] == Some(runs[i][id]) {
      assert Fine(runs[i][id], target, status);
    }
  }

  lemma AlikeBoth(es: seq<Option<Entry>>, fs: seq<Option<Entry>>, target: Option<string>, status: string)
    ensures Alike(es + fs, target, status) <==> Alike(es, target, status) && Alike(fs, target, status)
  {
    assert forall i :: 0 <= i < |es| ==> (es + fs)[i] == es[i];
    assert forall i :: 0 <= i < |fs| ==> (es + fs)[|es| + i] == fs[i];
    forall i | 0 <= i < |es + fs| && Alike(es, target, status) && Alike(fs, target, status) ensures Measured((es + fs)[i], target, status) {
      assert i < |es| || (es + fs)[i] == fs[i - |es|];
    }
  }

  /** An endpoint passes exactly when its runs say so. */
  lemma PassedIff(a: seq<Run>, b: seq<Run>, band: Option<Thresholds>, id: string)
    ensures Passed(a, b, band, id) <==> PassesIn(a, b, band, id)
  {
    if Passed(a, b, band, id) {
      PassedIsIn(a, b, band, id);
    }
    if PassesIn(a, b, band, id) {
      InIsPassed(a, b, band, id);
    }
  }

  lemma PassedIsIn(a: seq<Run>, b: seq<Run>, band: Option<Thresholds>, id: string)
    requires Passed(a, b, band, id)
    ensures PassesIn(a, b, band, id)
  {
    var es, fs := Entries(a, id), Entries(b, id);
    var target, status :| Alike(es + fs, target, status);
    AlikeBoth(es, fs, target, status);
    AlikeSide(a, id, target, status);
    AlikeSide(b, id, target, status);
    VerdictMeans(P50s(es), P50s(fs), band, false);
  }

  lemma InIsPassed(a: seq<Run>, b: seq<Run>, band: Option<Thresholds>, id: string)
    requires PassesIn(a, b, band, id)
    ensures Passed(a, b, band, id)
  {
    var target, status, p, q :| AllFine(a, id, target, status, p) && AllFine(b, id, target, status, q)
      && |p| > 0 && |q| > 0 && !(Counts(p, q, band) && Median(q) > Median(p));
    FineSide(a, id, target, status, p);
    FineSide(b, id, target, status, q);
    AlikeBoth(Entries(a, id), Entries(b, id), target, status);
    VerdictMeans(p, q, band, false);
  }

  /**
   Nothing blocks a session exactly when some run has a gating endpoint and every endpoint that
   gates in any run passes by its own band, or by the common one when it has none.
   */
  lemma SessionPasses(a: seq<Run>, b: seq<Run>, bands: map<string, Thresholds>, default: Option<Thresholds>, out: map<Cell, Row>)
    requires forall id :: Of(id) in out <==> id in Named(a + b)
    requires forall id :: Of(id) in out ==> out[Of(id)] == RowOf(a, b, Band(bands, default, id), id)
    requires NoEndpoints in out <==> forall id :: Of(id) in out ==> !out[Of(id)].gated
    requires NoEndpoints in out ==> out[NoEndpoints] == Unjudged(true, NoGated)
    ensures Blocking(out) == {} <==>
            && (exists id :: Gating(a, b, id))
            && (forall id :: Gating(a, b, id) ==> PassesIn(a, b, OwnBand(bands, default, id), id))
  {
    PassingFailsClosed(a, b, bands, default, out);
    forall id
      ensures id in Named(a + b) && GatesAnywhere(a, b, id) <==> Gating(a, b, id)
      ensures Passed(a, b, Band(bands, default, id), id) <==> PassesIn(a, b, OwnBand(bands, default, id), id)
    {
      EndpointIff(a, b, bands, default, id);
    }
  }

  lemma EndpointIff(a: seq<Run>, b: seq<Run>, bands: map<string, Thresholds>, default: Option<Thresholds>, id: string)
    ensures id in Named(a + b) && GatesAnywhere(a, b, id) <==> Gating(a, b, id)
    ensures Passed(a, b, Band(bands, default, id), id) <==> PassesIn(a, b, OwnBand(bands, default, id), id)
  {
    GatesIff(a, b, id);
    if Gating(a, b, id) {
      GatingNamed(a, b, id);
    }
    PassedIff(a, b, OwnBand(bands, default, id), id);
    assert Band(bands, default, id) == OwnBand(bands, default, id);
  }
}

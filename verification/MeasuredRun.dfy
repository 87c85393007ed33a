/**
 The validator of a measured run against the validated slots
 (gates/bench/report.py `selection_problems`).
 */
module MeasuredRun {
  import opened Options
  import opened Sequences
  import opened ScreenRun
  import opened ShapeEvidence

  datatype Complaint = WorkloadDiffers | EvidenceIncomplete | IterationsWrong | RequestCountDiffers | PolicyDiffers
                     | ActorDiffers | NotValidated | RequestFailed | SelectionsDiffer

  const SCREENS: set<Screen> := {Home, Movies, Detail, Series, Search, Playback}

  function Everywhere(c: Complaint): (m: map<Screen, Complaint>)
    ensures Home in m
  {
    map s | s in SCREENS :: c
  }

  function RequestTotal(records: seq<Selection>): nat {
    if records == [] then 0 else RequestTotal(records[..|records| - 1]) + |records[|records| - 1].keys|
  }

  /** The iteration's slot was validated for its screen. */
  predicate Validated(expected: map<int, Selection>, slots: int, r: Selection)
    requires slots > 0
  {
    r.selection == r.iteration % slots && r.selection in expected && expected[r.selection].screen == r.screen
  }

  /** Nothing is wrong with one record. */
  predicate CleanRecord(meta: Meta, expected: map<int, Selection>, slots: int, r: Selection)
    requires slots > 0
  {
    && !ActorProblem(r, meta) && Validated(expected, slots, r)
    && r.ok && expected[r.selection].ok && r.keys == expected[r.selection].keys
  }

  /** Nothing is wrong with the run. */
  ghost predicate CleanRun(meta: Meta, summary: Option<Summary>, expected: map<int, Selection>, slots: int, records: seq<Selection>)
    requires slots > 0
  {
    && summary.Some?
    && summary.value.workload == meta.workload && summary.value.slots == meta.slots && summary.value.seed == meta.seed
    && records != [] && |records| == summary.value.iterations
    && AllOnce(Iterations(records), |records|)
    && RequestTotal(records) == summary.value.requests
    && (meta.isolation != 0 ==> summary.value.isolation == meta.isolation)
    && forall i :: 0 <= i < |records| ==> CleanRecord(meta, expected, slots, records[i])
  }

  /** The complaint of one record that does not stop the walk, if any. */
  function Complain(meta: Meta, expected: map<int, Selection>, slots: int, r: Selection): Option<Complaint>
    requires slots > 0 && (ActorProblem(r, meta) || Validated(expected, slots, r))
  {
    if ActorProblem(r, meta) then Some(ActorDiffers)
    else if !r.ok || !expected[r.selection].ok then Some(RequestFailed)
    else if r.keys != expected[r.selection].keys then Some(SelectionsDiffer)
    else None
  }

  /** What is wrong before any record is looked at, the first reason in the source's order. */
  function Headline(meta: Meta, summary: Option<Summary>, records: seq<Selection>): Option<Complaint> {
    if summary.Some? && (summary.value.workload != meta.workload || summary.value.slots != meta.slots || summary.value.seed != meta.seed)
    then Some(WorkloadDiffers)
    else if summary.None? || |records| != summary.value.iterations || records == [] then Some(EvidenceIncomplete)
    else if !AllOnce(Iterations(records), |records|) then Some(IterationsWrong)
    else if RequestTotal(records) != summary.value.requests then Some(RequestCountDiffers)
    else if meta.isolation != 0 && summary.value.isolation != meta.isolation then Some(PolicyDiffers)
    else None
  }

  /** A record that stops the walk. */
  predicate Stops(meta: Meta, expected: map<int, Selection>, slots: int, r: Selection)
    requires slots > 0
  {
    !ActorProblem(r, meta) && !Validated(expected, slots, r)
  }

  /** Record `i` is complained about, for its screen. */
  predicate Faulty(meta: Meta, expected: map<int, Selection>, slots: int, r: Selection, screen: Screen)
    requires slots > 0
  {
    r.screen == screen && !Stops(meta, expected, slots, r) && Complain(meta, expected, slots, r).Some?
  }

  /** Record `i` is the last of the first `n` that is complained about for the screen. */
  ghost predicate LastFaulty(meta: Meta, expected: map<int, Selection>, slots: int, records: seq<Selection>, n: nat, screen: Screen, i: nat)
    requires slots > 0 && n <= |records|
  {
    && i < n && Faulty(meta, expected, slots, records[i], screen)
    && forall j :: i < j < n ==> !Faulty(meta, expected, slots, records[j], screen)
  }

  /** The problems are those of the first `n` records: per screen, the last complaint. */
  ghost predicate Complaints(meta: Meta, expected: map<int, Selection>, slots: int, records: seq<Selection>, n: nat,
                             problems: map<Screen, Complaint>)
    requires slots > 0 && n <= |records|
  {
    && (forall s :: s in problems <==> exists i :: 0 <= i < n && Faulty(meta, expected, slots, records[i], s))
    && (forall s, i: nat :: LastFaulty(meta, expected, slots, records, n, s, i) ==>
          s in problems && problems[s] == Complain(meta, expected, slots, records[i]).value)
  }

  lemma FaultyStep(meta: Meta, expected: map<int, Selection>, slots: int, records: seq<Selection>, n: nat, s: Screen)
    requires slots > 0 && n < |records|
    ensures (exists i :: 0 <= i < n + 1 && Faulty(meta, expected, slots, records[i], s)) <==>
            (exists i :: 0 <= i < n && Faulty(meta, expected, slots, records[i], s)) || Faulty(meta, expected, slots, records[n], s)
  {
  }

  lemma LastFaultyStep(meta: Meta, expected: map<int, Selection>, slots: int, records: seq<Selection>, n: nat, s: Screen, i: nat)
    requires slots > 0 && n < |records| && LastFaulty(meta, expected, slots, records, n + 1, s, i)
    ensures if i < n then LastFaulty(meta, expected, slots, records, n, s, i) && !Faulty(meta, expected, slots, records[n], s) else i == n
  {
  }

  lemma ComplaintsStep(meta: Meta, expected: map<int, Selection>, slots: int, records: seq<Selection>, n: nat, problems: map<Screen, Complaint>)
    requires slots > 0 && n < |records| && Complaints(meta, expected, slots, records, n, problems) && !Stops(meta, expected, slots, records[n])
    ensures var c := Complain(meta, expected, slots, records[n]);
            Complaints(meta, expected, slots, records, n + 1, if c.Some? then problems[records[n].screen := c.value] else problems)
  {
    var r, c := records[n], Complain(meta, expected, slots, records[n]);
    var next := if c.Some? then problems[r.screen := c.value] else problems;
    forall s ensures s in next <==> exists i :: 0 <= i < n + 1 && Faulty(meta, expected, slots, records[i], s) {
      FaultyStep(meta, expected, slots, records, n, s);
    }
    forall s, i: nat | LastFaulty(meta, expected, slots, records, n + 1, s, i)
      ensures s in next && next[s] == Complain(meta, expected, slots, records[i]).value
    {
      LastFaultyStep(meta, expected, slots, records, n, s, i);
    }
  }

  /** Nothing is complained about exactly when every record is clean. */
  lemma CleanIffNoComplaint(meta: Meta, expected: map<int, Selection>, slots: int, records: seq<Selection>, problems: map<Screen, Complaint>)
    requires slots > 0 && Complaints(meta, expected, slots, records, |records|, problems)
    requires forall i :: 0 <= i < |records| ==> !Stops(meta, expected, slots, records[i])
    ensures problems == map[] <==> forall i :: 0 <= i < |records| ==> CleanRecord(meta, expected, slots, records[i])
  {
    forall i | 0 <= i < |records|
      ensures CleanRecord(meta, expected, slots, records[i]) <==> !Faulty(meta, expected, slots, records[i], records[i].screen)
    {
    }
    if problems == map[] {
      forall i | 0 <= i < |records| ensures CleanRecord(meta, expected, slots, records[i]) {
        assert records[i].screen !in problems;
      }
    } else {
      var s :| s in problems;
      var i :| 0 <= i < |records| && Faulty(meta, expected, slots, records[i], s);
      assert !CleanRecord(meta, expected, slots, records[i]);
    }
  }

  method SelectionProblems(meta: Meta, summary: Option<Summary>, expected: map<int, Selection>, slots: int, log: seq<Line>)
    returns (problems: map<Screen, Complaint>)
    requires slots > 0
    ensures problems == map[] <==> CleanRun(meta, summary, expected, slots, Records(log))
    ensures Headline(meta, summary, Records(log)).Some? ==> problems == Everywhere(Headline(meta, summary, Records(log)).value)
    ensures Headline(meta, summary, Records(log)).None? ==>
              if exists i :: 0 <= i < |Records(log)| && Stops(meta, expected, slots, Records(log)[i])
              then problems == Everywhere(NotValidated)
              else Complaints(meta, expected, slots, Records(log), |Records(log)|, problems)
  {
    var records := Records(log);
    if summary.Some? && (summary.value.workload != meta.workload || summary.value.slots != meta.slots || summary.value.seed != meta.seed) {
      return Everywhere(WorkloadDiffers);
    }
    if summary.None? || |records| != summary.value.iterations || records == [] { return Everywhere(EvidenceIncomplete); }
    if !AllOnce(Iterations(records), |records|) { return Everywhere(IterationsWrong); }
    if RequestTotal(records) != summary.value.requests { return Everywhere(RequestCountDiffers); }
    if meta.isolation != 0 && summary.value.isolation != meta.isolation { return Everywhere(PolicyDiffers); }
    var stopped;
    stopped, problems := WalkRecords(meta, expected, slots, records);
    if stopped { return Everywhere(NotValidated); }
    CleanIffNoComplaint(meta, expected, slots, records, problems);
  }

  /** The walk over the records: stopped by one that was not validated, or every screen's last complaint. */
  method WalkRecords(meta: Meta, expected: map<int, Selection>, slots: int, records: seq<Selection>)
    returns (stopped: bool, problems: map<Screen, Complaint>)
    requires slots > 0
    ensures stopped <==> exists i :: 0 <= i < |records| && Stops(meta, expected, slots, records[i])
    ensures !stopped ==> Complaints(meta, expected, slots, records, |records|, problems)
  {
    problems := map[];
    for i := 0 to |records|
      invariant Complaints(meta, expected, slots, records, i, problems)
      invariant forall k :: 0 <= k < i ==> !Stops(meta, expected, slots, records[k])
    {
      var r := records[i];
      if Stops(meta, expected, slots, r) { return true, problems; }
      ComplaintsStep(meta, expected, slots, records, i, problems);
      var c := Complain(meta, expected, slots, r);
      if c.Some? {
        problems := problems[r.screen := c.value];
      }
    }
    stopped := false;
  }

  // ----- what a clean run did --------------------------------------------------------------------

  /** The index of an accepted shape pass of the generator. */
  ghost predicate PassIndex(expected: map<int, Selection>, ids: Ids, plan: seq<Visit>) {
    forall i :: i in expected && 0 <= i < |plan| ==> expected[i] == Chosen(ids, plan)[i]
  }

  /** What a clean record of iteration `r.iteration` opened and issued. */
  ghost predicate AsPlanned(plan: seq<Visit>, r: Selection) {
    && |plan| > 0 && r.iteration >= 0 && r.screen == MIX[r.iteration % 10]
    && var visit := plan[r.iteration % |plan|];
       r.keys == Keys(r.iteration % |plan|, r.screen, visit.calls) && AllGood(visit.calls)
  }

  lemma SlotSelection(ids: Ids, slots: nat, slot: nat, visit: Visit)
    requires slot < slots
    ensures var c := SelectionOf(ids, slots, slot, visit.calls, visit.screenOk);
            c.screen == MIX[slot % 10] && c.keys == Keys(slot, MIX[slot % 10], visit.calls) && (c.ok ==> AllGood(visit.calls))
  {
    assert slot % slots == slot;
  }

  lemma CleanIsPlanned(meta: Meta, expected: map<int, Selection>, ids: Ids, plan: seq<Visit>, r: Selection)
    requires |plan| > 0 && |plan| % 10 == 0 && PassIndex(expected, ids, plan)
    requires r.iteration >= 0 && CleanRecord(meta, expected, |plan|, r)
    ensures AsPlanned(plan, r)
  {
    ModMultiple(r.iteration, |plan|);
    var slot := r.selection;
    SlotSelection(ids, |plan|, slot, plan[slot]);
    assert expected[slot] == Chosen(ids, plan)[slot];
  }

  /** A clean run opened in every iteration the screen of its slot and issued exactly the validated requests. */
  lemma CleanIterations(meta: Meta, summary: Option<Summary>, expected: map<int, Selection>, ids: Ids, plan: seq<Visit>,
                        records: seq<Selection>, i: nat)
    requires |plan| > 0 && |plan| % 10 == 0 && PassIndex(expected, ids, plan)
    requires CleanRun(meta, summary, expected, |plan|, records) && i < |records|
    ensures AsPlanned(plan, records[i])
  {
    IterationRange(records, i);
    assert CleanRecord(meta, expected, |plan|, records[i]);
    CleanIsPlanned(meta, expected, ids, plan, records[i]);
  }

  lemma IterationRange(records: seq<Selection>, i: nat)
    requires AllOnce(Iterations(records), |records|) && i < |records|
    ensures 0 <= records[i].iteration < |records|
  {
    assert Iterations(records)[i] in multiset(Iterations(records));
    assert records[i].iteration in Upto(|records|);
  }

  lemma ModMultiple(i: nat, slots: nat)
    requires slots > 0 && slots % 10 == 0
    ensures i % slots % 10 == i % 10
  {
    var q, m := i / slots, slots / 10;
    assert i == q * slots + i % slots && slots == 10 * m;
    assert q * slots == 10 * (q * m);
  }

  // ----- the mix ------------------------------------------------------------------------------------

  /** Exactly one iteration has number `n`, and it opened `screen`. */
  ghost predicate OpenedOnce(records: seq<Selection>, n: int, screen: Screen) {
    exists i :: 0 <= i < |records| && records[i].iteration == n && records[i].screen == screen
      && forall j :: 0 <= j < |records| && records[j].iteration == n ==> j == i
  }

  lemma TwiceCounts<T>(s: seq<T>, i: nat, j: nat)
    requires i < j < |s| && s[i] == s[j]
    ensures multiset(s)[s[j]] >= 2
  {
    var a, b := s[..j], s[j + 1..];
    assert s == a + [s[j]] + b;
    assert a[i] == s[j] && a[i] in multiset(a);
  }

  lemma NumberedOnce(records: seq<Selection>, n: nat) returns (i: nat)
    requires AllOnce(Iterations(records), |records|) && n < |records|
    ensures i < |records| && records[i].iteration == n
    ensures forall j :: 0 <= j < |records| && records[j].iteration == n ==> j == i
  {
    var s := Iterations(records);
    assert Upto(|records|)[n] == n && n in multiset(s);
    i :| 0 <= i < |s| && s[i] == n;
    DistinctOnce(Upto(|records|), n);
    forall j | 0 <= j < |records| && records[j].iteration == n
      ensures j == i
    {
      if i < j { TwiceCounts(s, i, j); } else if j < i { TwiceCounts(s, j, i); }
    }
  }

  /** The weights of the mix. */
  lemma MixWeights()
    ensures |MIX| == 10
    ensures multiset(MIX) == multiset{Home, Home, Home, Movies, Movies, Detail, Detail, Series, Search, Playback}
  {
  }

  lemma ModTen(k: nat, j: nat)
    requires j < 10
    ensures (10 * k + j) % 10 == j
  {
  }

  lemma CleanOpens(meta: Meta, summary: Option<Summary>, expected: map<int, Selection>, ids: Ids, plan: seq<Visit>,
                   records: seq<Selection>, n: nat)
    requires |plan| > 0 && |plan| % 10 == 0 && PassIndex(expected, ids, plan)
    requires CleanRun(meta, summary, expected, |plan|, records) && n < |records|
    ensures OpenedOnce(records, n, MIX[n % 10])
  {
    var i := NumberedOnce(records, n);
    CleanIterations(meta, summary, expected, ids, plan, records, i);
  }

  lemma CleanEntry(meta: Meta, summary: Option<Summary>, expected: map<int, Selection>, ids: Ids, plan: seq<Visit>,
                   records: seq<Selection>, k: nat, j: nat)
    requires |plan| > 0 && |plan| % 10 == 0 && PassIndex(expected, ids, plan)
    requires CleanRun(meta, summary, expected, |plan|, records) && 10 * k + 10 <= |records| && j < 10
    ensures OpenedOnce(records, 10 * k + j, MIX[j])
  {
    ModTen(k, j);
    CleanOpens(meta, summary, expected, ids, plan, records, 10 * k + j);
  }

  /** Every full round of a clean run opened each entry of the mix exactly once. */
  lemma CleanRounds(meta: Meta, summary: Option<Summary>, expected: map<int, Selection>, ids: Ids, plan: seq<Visit>,
                    records: seq<Selection>, k: nat)
    requires |plan| > 0 && |plan| % 10 == 0 && PassIndex(expected, ids, plan)
    requires CleanRun(meta, summary, expected, |plan|, records) && 10 * k + 10 <= |records|
    ensures forall j :: 0 <= j < 10 ==> OpenedOnce(records, 10 * k + j, MIX[j])
  {
    forall j | 0 <= j < 10
      ensures OpenedOnce(records, 10 * k + j, MIX[j])
    {
      CleanEntry(meta, summary, expected, ids, plan, records, k, j);
    }
  }

  /** With isolated users, every clean record is its role's, by its own user. */
  lemma CleanActors(meta: Meta, expected: map<int, Selection>, slots: int, r: Selection)
    requires slots > 0 && CleanRecord(meta, expected, slots, r) && meta.isolation != 0
    ensures meta.browse != "" && meta.playback != "" && meta.browse != meta.playback
    ensures r.screen == Playback ==> r.actor == "playback" && r.user == meta.playback
    ensures r.screen != Playback ==> r.actor == "browse" && r.user == meta.browse
  {
  }

  lemma {:induction false} RequestTotalIs(records: seq<Selection>)
    ensures RequestTotal(records) == |Tally(KeysIn, records)|
  {
    if records != [] { RequestTotalIs(records[..|records| - 1]); }
  }

  /** A clean run is the run described: its summary counts its records and their requests. */
  lemma CleanTotals(meta: Meta, summary: Option<Summary>, expected: map<int, Selection>, slots: int, records: seq<Selection>)
    requires slots > 0 && CleanRun(meta, summary, expected, slots, records)
    ensures summary.Some? && records != []
    ensures var s := summary.value;
            && s.workload == meta.workload && s.slots == meta.slots && s.seed == meta.seed
            && s.iterations == |records| && s.requests == |Tally(KeysIn, records)|
            && (meta.isolation != 0 ==> s.isolation == meta.isolation)
  {
    RequestTotalIs(records);
  }
}

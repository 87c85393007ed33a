/**
 What an accepted shape log says about its lines, one by one, and what exchanging a line does
 (gates/bench/report.py `shape_evidence`, `actor_problem`).
 */
module EvidenceMeans {
  import opened Sequences
  import opened ScreenRun
  import opened ShapeEvidence

  // ----- tallies and positions ------------------------------------------------------------------------------

  lemma {:induction false} TallyFound<T, K>(f: T -> multiset<K>, s: seq<T>, k: K)
    ensures k in Tally(f, s) <==> exists i :: 0 <= i < |s| && k in f(s[i])
  {
    if s != [] {
      var front, last := s[..|s| - 1], s[|s| - 1];
      TallyFound(f, front, k);
      if k in Tally(f, front) {
        var i :| 0 <= i < |front| && k in f(front[i]);
        assert k in f(s[i]);
      }
      if i :| 0 <= i < |s| && k in f(s[i]) {
        assert i < |front| ==> s[i] == front[i];
      }
      assert k in f(last) ==> k in f(s[|s| - 1]);
    }
  }

  lemma {:induction false} TallyTwice<T, K>(f: T -> multiset<K>, s: seq<T>, i: nat, j: nat, k: K)
    requires i < j < |s| && k in f(s[i]) && k in f(s[j])
    ensures Tally(f, s)[k] >= 2
  {
    var front := s[..|s| - 1];
    if j < |front| {
      TallyTwice(f, front, i, j, k);
    } else {
      assert k in f(front[i]);
      TallyFound(f, front, k);
    }
  }

  // ----- an accepted log ----------------------------------------------------------------------------------------

  /** Line `j` is a counted observation of the key. */
  predicate Shows(log: seq<Line>, j: nat, k: Key) {
    j < |log| && log[j].Observed? && log[j].shape != Endpoint("image") && log[j].key == k
  }

  /** Line `i` is a selection that lists the key. */
  predicate Lists(log: seq<Line>, i: nat, k: Key) {
    i < |log| && log[i].Selected? && k in log[i].record.keys
  }

  lemma {:induction false} RecordsFound(log: seq<Line>, r: Selection)
    ensures r in Records(log) <==> Selected(r) in log
  {
    if log != [] {
      RecordsFound(log[..|log| - 1], r);
      assert log == log[..|log| - 1] + [log[|log| - 1]];
    }
  }

  lemma ShownIff(log: seq<Line>, k: Key)
    ensures k in Tally(ObservedIn, log) <==> exists j: nat :: Shows(log, j, k)
  {
    TallyFound(ObservedIn, log, k);
    if i :| 0 <= i < |log| && k in ObservedIn(log[i]) {
      assert Shows(log, i, k);
    }
    if j: nat :| Shows(log, j, k) {
      assert k in ObservedIn(log[j]);
    }
  }

  lemma ListedIff(log: seq<Line>, k: Key)
    ensures k in Tally(KeysIn, Records(log)) <==> exists i: nat :: Lists(log, i, k)
  {
    var records := Records(log);
    TallyFound(KeysIn, records, k);
    if n :| 0 <= n < |records| && k in KeysIn(records[n]) {
      RecordsFound(log, records[n]);
      var i :| 0 <= i < |log| && log[i] == Selected(records[n]);
      assert Lists(log, i, k);
    }
    if i: nat :| Lists(log, i, k) {
      RecordsFound(log, log[i].record);
      assert Selected(log[i].record) == log[i];
      var n :| 0 <= n < |records| && records[n] == log[i].record;
      assert k in KeysIn(records[n]);
    }
  }

  /** Every listed key is shown by exactly one counted line, and every counted line shows a listed key. */
  lemma ValidKeys(meta: Meta, summary: Summary, log: seq<Line>, k: Key)
    requires Validate(meta, summary, log).Valid?
    ensures (exists i: nat :: Lists(log, i, k)) <==> (exists j: nat :: Shows(log, j, k))
    ensures forall j: nat, j': nat :: Shows(log, j, k) && Shows(log, j', k) ==> j == j'
  {
    ShownIff(log, k);
    ListedIff(log, k);
    forall j: nat, j': nat | Shows(log, j, k) && Shows(log, j', k) ensures j == j' {
      ValidOnce(meta, summary, log, k);
      ShownOnce(log, k, j, j');
    }
  }

  lemma ValidOnce(meta: Meta, summary: Summary, log: seq<Line>, k: Key)
    requires Validate(meta, summary, log).Valid?
    ensures Tally(ObservedIn, log)[k] <= 1
  {
  }

  lemma ShownOnce(log: seq<Line>, k: Key, j: nat, j': nat)
    requires Shows(log, j, k) && Shows(log, j', k) && Tally(ObservedIn, log)[k] <= 1
    ensures j == j'
  {
    assert k in ObservedIn(log[j]) && k in ObservedIn(log[j']);
    if j < j' {
      TallyTwice(ObservedIn, log, j, j', k);
    } else if j' < j {
      TallyTwice(ObservedIn, log, j', j, k);
    }
  }

  /** The log's numbers are the run's, and every selection is its slot's, by the right one of two different users. */
  lemma ValidRecords(meta: Meta, summary: Summary, log: seq<Line>, i: nat)
    requires Validate(meta, summary, log).Valid? && i < |log| && log[i].Selected?
    ensures meta.slots > 0 && meta.slots % 10 == 0 && summary.iterations == meta.slots
    ensures summary.workload == meta.workload && summary.slots == meta.slots && summary.seed == meta.seed && summary.vus == meta.vus
    ensures log[i].record.selection == log[i].record.iteration && 0 <= log[i].record.iteration < meta.slots
    ensures meta.isolation != 0 ==>
              && summary.isolation == meta.isolation && meta.browse != "" && meta.playback != "" && meta.browse != meta.playback
              && (log[i].record.screen == Playback ==> log[i].record.actor == "playback" && log[i].record.user == meta.playback)
              && (log[i].record.screen != Playback ==> log[i].record.actor == "browse" && log[i].record.user == meta.browse)
  {
    var records, r := Records(log), log[i].record;
    RecordsFound(log, r);
    assert Selected(r) == log[i];
    var n :| 0 <= n < |records| && records[n] == r;
    IterationInRange(records, meta.slots, n);
    assert !ActorProblem(records[n], meta);
  }

  lemma IterationInRange(records: seq<Selection>, slots: int, n: nat)
    requires AllOnce(Iterations(records), slots) && n < |records|
    ensures 0 <= records[n].iteration < slots
  {
    assert Iterations(records)[n] in multiset(Upto(slots));
  }

  /** Every slot has exactly one selection line. */
  lemma ValidSlots(meta: Meta, summary: Summary, log: seq<Line>, slot: int)
    requires Validate(meta, summary, log).Valid? && 0 <= slot < meta.slots
    ensures exists r :: r in Records(log) && r.iteration == slot
    ensures forall m, n :: 0 <= m < |Records(log)| && 0 <= n < |Records(log)| && Records(log)[m].iteration == slot == Records(log)[n].iteration ==> m == n
  {
    var records := Records(log);
    var s := Iterations(records);
    assert Upto(meta.slots)[slot] == slot && slot in multiset(s);
    var n :| 0 <= n < |s| && s[n] == slot;
    assert records[n] in records && records[n].iteration == slot;
    forall m, n | 0 <= m < n < |records| ensures !(records[m].iteration == slot == records[n].iteration) {
      if s[m] == slot == s[n] {
        TwiceCounts(s, m, n);
        DistinctOnce(Upto(meta.slots), slot);
      }
    }
  }

  lemma TwiceCounts<T>(s: seq<T>, i: nat, j: nat)
    requires i < j < |s| && s[i] == s[j]
    ensures multiset(s)[s[j]] >= 2
  {
    assert s == s[..j] + [s[j]] + s[j + 1..];
    assert s[i] in s[..j];
  }

  /** As many counted lines as the generator says it made requests. */
  lemma ValidTotal(meta: Meta, summary: Summary, log: seq<Line>)
    requires Validate(meta, summary, log).Valid?
    ensures |Counted(log)| == summary.requests
  {
    CountedCard(log);
  }

  /** The positions of the counted observations. */
  ghost function Counted(log: seq<Line>): set<nat> {
    set j: nat | j < |log| && log[j].Observed? && log[j].shape != Endpoint("image")
  }

  lemma {:induction false} CountedCard(log: seq<Line>)
    ensures |Counted(log)| == |Tally(ObservedIn, log)|
  {
    if log != [] {
      CountedCard(log[..|log| - 1]);
      CountedStep(log);
      assert |ObservedIn(log[|log| - 1])| == if ObservedIn(log[|log| - 1]) != multiset{} then 1 else 0;
    }
  }

  lemma CountedStep(log: seq<Line>)
    requires log != []
    ensures var front, n := log[..|log| - 1], |log| - 1;
            n !in Counted(front) && Counted(log) == Counted(front) + if ObservedIn(log[n]) != multiset{} then {n} else {}
  {
    var front, n := log[..|log| - 1], |log| - 1;
    forall i: nat | i < n ensures front[i] == log[i] {
    }
  }

  // ----- an exchanged line ------------------------------------------------------------------------------------------

  lemma Exchanged<K>(f: Line -> multiset<K>, log: seq<Line>, other: seq<Line>, was: Line, now: Line)
    requires multiset(other) + multiset{was} == multiset(log) + multiset{now}
    ensures Tally(f, other) + f(was) == Tally(f, log) + f(now)
  {
    assert multiset(other + [was]) == multiset(log + [now]);
    TallyPermutes(f, other + [was], log + [now]);
    TallyConcat(f, other, [was]);
    TallyConcat(f, log, [now]);
    TallyOne(f, was);
    TallyOne(f, now);
  }

  /** A pass in which one observation shows another key than the one requested is refused. */
  lemma SubstitutionRefused(log: seq<Line>, other: seq<Line>, chosen: seq<Selection>, noise: seq<Line>,
                            name: Name, k: Key, k': Key, meta: Meta, summary: Summary)
    requires LogOf(log, chosen, noise) && Agrees(meta, summary, chosen)
    requires name != Endpoint("image") && Observed(name, k) in log && forall j: nat :: !Shows(log, j, k')
    requires multiset(other) + multiset{Observed(name, k)} == multiset(log) + multiset{Observed(name, k')}
    ensures Validate(meta, summary, other).Problem?
  {
    LogTally(log, chosen, noise);
    ShownIff(log, k');
    SameSelections(log, other, chosen, name, k, k');
    ShownNow(log, other, name, k, k');
    UnlistedRefused(meta, summary, other, k');
  }

  lemma SameSelections(log: seq<Line>, other: seq<Line>, chosen: seq<Selection>, name: Name, k: Key, k': Key)
    requires Tally(SelectedIn, log) == multiset(chosen)
    requires multiset(other) + multiset{Observed(name, k)} == multiset(log) + multiset{Observed(name, k')}
    ensures Tally(KeysIn, Records(other)) == Tally(KeysIn, chosen)
  {
    Exchanged(SelectedIn, log, other, Observed(name, k), Observed(name, k'));
    RecordsTally(other);
    assert Tally(SelectedIn, other) + multiset{} == Tally(SelectedIn, other) && Tally(SelectedIn, log) + multiset{} == Tally(SelectedIn, log);
    TallyPermutes(KeysIn, Records(other), chosen);
  }

  lemma ShownNow(log: seq<Line>, other: seq<Line>, name: Name, k: Key, k': Key)
    requires name != Endpoint("image") && Observed(name, k) in log && forall j: nat :: !Shows(log, j, k')
    requires multiset(other) + multiset{Observed(name, k)} == multiset(log) + multiset{Observed(name, k')}
    ensures k' in Tally(ObservedIn, other)
  {
    var was := Observed(name, k);
    var j :| 0 <= j < |log| && log[j] == was;
    assert Shows(log, j, k);
    Exchanged(ObservedIn, log, other, was, Observed(name, k'));
    assert (Tally(ObservedIn, other) + multiset{k})[k'] > 0;
  }

  lemma UnlistedRefused(meta: Meta, summary: Summary, log: seq<Line>, k: Key)
    requires k in Tally(ObservedIn, log) && k !in Tally(KeysIn, Records(log))
    ensures Validate(meta, summary, log).Problem?
  {
    if Validate(meta, summary, log).Valid? {
      ValidKeys(meta, summary, log, k);
      ShownIff(log, k);
      ListedIff(log, k);
    }
  }
}

/**
 The validator of a shape pass: every slot selected once, every selected request observed once
 and nothing else observed (gates/bench/report.py `selection_records`, `shape_evidence`).
 */
module ShapeEvidence {
  import opened Sequences
  import opened ScreenRun

  /** The run's metadata and the load generator's own summary, as far as the validator reads them. */
  datatype Meta = Meta(workload: int, slots: int, seed: int, vus: int, isolation: int, browse: string, playback: string)
  datatype Summary = Summary(workload: int, slots: int, seed: int, vus: int, isolation: int, iterations: int, requests: int)

  datatype Reason = InvalidSlots | Differs | IsolationDiffers | WrongActor | CoverageIncomplete | SlotsWrong | RequestsWrong

  datatype Evidence = Problem(reason: Reason) | Valid(index: map<int, Selection>)

  // ----- what is read from a log --------------------------------------------------------------

  function SelectedIn(line: Line): multiset<Selection> {
    if line.Selected? then multiset{line.record} else multiset{}
  }

  /** Observations under the bare name "image" are the aggregate's and not counted. */
  function ObservedIn(line: Line): multiset<Key> {
    if line.Observed? && !Bare(line.shape) then multiset{line.key} else multiset{}
  }

  /** A line the validator does not count: unreadable, or observed under the bare name. */
  predicate Noise(line: Line) {
    line.Other? || (line.Observed? && Bare(line.shape))
  }

  function KeysIn(r: Selection): multiset<Key> { multiset(r.keys) }

  /** The selection records of a log, in order. */
  function Records(log: seq<Line>): seq<Selection> {
    if log == [] then []
    else Records(log[..|log| - 1]) + (if log[|log| - 1].Selected? then [log[|log| - 1].record] else [])
  }

  lemma {:induction false} RecordsTally(log: seq<Line>)
    ensures multiset(Records(log)) == Tally(SelectedIn, log)
  {
    if log != [] { RecordsTally(log[..|log| - 1]); }
  }

  // ----- the checks, in their order ----------------------------------------------------------------

  predicate ActorProblem(r: Selection, meta: Meta) {
    meta.isolation != 0 &&
    (|| meta.browse == "" || meta.playback == "" || meta.browse == meta.playback
     || r.actor != Actor(r.screen)
     || r.user != (if r.screen == Playback then meta.playback else meta.browse))
  }

  function Upto(n: nat): (s: seq<int>)
    ensures |s| == n && forall i :: 0 <= i < n ==> s[i] == i
  {
    seq(n, i => i)
  }

  /** The numbers are 0, 1, ..., n-1 in some order. */
  predicate AllOnce(s: seq<int>, n: int) { n >= 0 && multiset(s) == multiset(Upto(n)) }

  function Iterations(records: seq<Selection>): seq<int> { Map((r: Selection) => r.iteration, records) }

  predicate EachOnce(m: multiset<Key>) { forall k :: k in m ==> m[k] == 1 }

  /** Records by slot; a later one would replace an earlier one. */
  function Index(records: seq<Selection>): map<int, Selection> {
    if records == [] then map[]
    else Index(records[..|records| - 1])[records[|records| - 1].selection := records[|records| - 1]]
  }

  function Validate(meta: Meta, summary: Summary, log: seq<Line>): (e: Evidence) {
    var records := Records(log);
    if meta.slots <= 0 || meta.slots % 10 != 0 then Problem(InvalidSlots)
    else if summary.workload != meta.workload || summary.slots != meta.slots || summary.seed != meta.seed || summary.vus != meta.vus then
      Problem(Differs)
    else if meta.isolation != 0 && summary.isolation != meta.isolation then Problem(IsolationDiffers)
    else if exists i :: 0 <= i < |records| && ActorProblem(records[i], meta) then Problem(WrongActor)
    else if |records| != meta.slots || summary.iterations != meta.slots then Problem(CoverageIncomplete)
    else if !AllOnce(Iterations(records), meta.slots) || exists i :: 0 <= i < |records| && records[i].selection != records[i].iteration then
      Problem(SlotsWrong)
    else
      var expected, actual := Tally(KeysIn, records), Tally(ObservedIn, log);
      if expected != actual || !EachOnce(actual) || |actual| != summary.requests then Problem(RequestsWrong)
      else Valid(Index(records))
  }

  // ----- a complete pass -----------------------------------------------------------------------------

  /** What one slot's iteration did: its requests, and whether the screen itself was satisfied. */
  datatype Visit = Visit(calls: seq<Call>, screenOk: bool)

  /** The selections of a pass over `|plan|` slots. */
  function Chosen(ids: Ids, plan: seq<Visit>): (s: seq<Selection>)
    ensures |s| == |plan|
    ensures forall i :: 0 <= i < |plan| ==> s[i] == SelectionOf(ids, |plan|, i, plan[i].calls, plan[i].screenOk)
  {
    seq(|plan|, i requires 0 <= i < |plan| => SelectionOf(ids, |plan|, i, plan[i].calls, plan[i].screenOk))
  }

  /** The lines an iteration of the shape pass writes around its selection. */
  function Chunk(s: Selection): seq<Line> { Observations(s.keys) + [Selected(s)] }

  /** All iterations' lines, one after the other. */
  function PassLines(chosen: seq<Selection>): seq<Line> {
    if chosen == [] then [] else PassLines(chosen[..|chosen| - 1]) + Chunk(chosen[|chosen| - 1])
  }

  /** Every image request is named with its screen. */
  predicate ScopedKeys(keys: seq<Key>) { forall i :: 0 <= i < |keys| ==> !Bare(keys[i].name) }

  predicate AllScoped(chosen: seq<Selection>) { forall i :: 0 <= i < |chosen| ==> ScopedKeys(chosen[i].keys) }

  /** The machine's are. */
  lemma ChosenScoped(ids: Ids, plan: seq<Visit>)
    ensures AllScoped(Chosen(ids, plan))
  {
    var chosen := Chosen(ids, plan);
    forall i, a | 0 <= i < |chosen| && 0 <= a < |chosen[i].keys|
      ensures !Bare(chosen[i].keys[a].name)
    {
      KeysScoped(i % |plan|, MIX[i % |plan| % 10], plan[i].calls, a);
    }
  }

  /**
   A log of the pass: the iterations' lines in any order the virtual users interleave them, with
   lines the validator does not count anywhere.
   */
  ghost predicate LogOf(log: seq<Line>, chosen: seq<Selection>, noise: seq<Line>) {
    && AllScoped(chosen) && (forall i :: 0 <= i < |noise| ==> Noise(noise[i]))
    && multiset(log) == multiset(PassLines(chosen) + noise)
  }

  lemma {:induction false} ObservationsTally(keys: seq<Key>)
    requires ScopedKeys(keys)
    ensures Tally(ObservedIn, Observations(keys)) == multiset(keys)
    ensures Tally(SelectedIn, Observations(keys)) == multiset{}
  {
    if keys != [] {
      var front, last := keys[..|keys| - 1], keys[|keys| - 1];
      assert keys == front + [last];
      ObservationsTally(front);
      ObservationsStep(front, last);
      OneMore(ObservedIn, Observations(front), Observed(last.name, last));
      OneMore(SelectedIn, Observations(front), Observed(last.name, last));
    }
  }

  lemma OneMore<K>(f: Line -> multiset<K>, lines: seq<Line>, line: Line)
    ensures Tally(f, lines + [line]) == Tally(f, lines) + f(line)
  {
    TallyConcat(f, lines, [line]);
    TallyOne(f, line);
  }

  lemma ChunkTally(s: Selection)
    requires ScopedKeys(s.keys)
    ensures Tally(SelectedIn, Chunk(s)) == multiset{s} && Tally(ObservedIn, Chunk(s)) == multiset(s.keys)
  {
    ObservationsTally(s.keys);
    TallyConcat(SelectedIn, Observations(s.keys), [Selected(s)]);
    TallyOne(SelectedIn, Selected(s));
    TallyConcat(ObservedIn, Observations(s.keys), [Selected(s)]);
    TallyOne(ObservedIn, Selected(s));
  }

  /** The lines show every selection once. */
  lemma {:induction false} PassSelected(chosen: seq<Selection>)
    requires AllScoped(chosen)
    ensures Tally(SelectedIn, PassLines(chosen)) == multiset(chosen)
  {
    if chosen != [] {
      var front, s := chosen[..|chosen| - 1], chosen[|chosen| - 1];
      PassSelected(front);
      ChunkTally(s);
      TallyConcat(SelectedIn, PassLines(front), Chunk(s));
      assert PassLines(chosen) == PassLines(front) + Chunk(s);
      SplitLast(chosen);
    }
  }

  /** The lines show every selected key once. */
  lemma {:induction false} PassObserved(chosen: seq<Selection>)
    requires AllScoped(chosen)
    ensures Tally(ObservedIn, PassLines(chosen)) == Tally(KeysIn, chosen)
  {
    if chosen != [] {
      var front, s := chosen[..|chosen| - 1], chosen[|chosen| - 1];
      PassObserved(front);
      ChunkTally(s);
      TallyConcat(ObservedIn, PassLines(front), Chunk(s));
    }
  }

  lemma {:induction false} NoiseTally(noise: seq<Line>)
    requires forall i :: 0 <= i < |noise| ==> Noise(noise[i])
    ensures Tally(SelectedIn, noise) == multiset{} && Tally(ObservedIn, noise) == multiset{}
  {
    if noise != [] { NoiseTally(noise[..|noise| - 1]); }
  }

  lemma LogTally(log: seq<Line>, chosen: seq<Selection>, noise: seq<Line>)
    requires LogOf(log, chosen, noise)
    ensures Tally(SelectedIn, log) == multiset(chosen) && Tally(ObservedIn, log) == Tally(KeysIn, chosen)
  {
    var pass := PassLines(chosen);
    TallyPermutes(SelectedIn, log, pass + noise);
    TallyPermutes(ObservedIn, log, pass + noise);
    TallyConcat(SelectedIn, pass, noise);
    TallyConcat(ObservedIn, pass, noise);
    NoiseTally(noise);
    PassSelected(chosen);
    PassObserved(chosen);
  }

  // ----- the selections of a pass are coherent ----------------------------------------------------------

  /** Selection `i` is slot `i`'s, by the right user, and none of its keys repeats. */
  ghost predicate SlotFits(s: Selection, i: int, meta: Meta) {
    && s.selection == i && s.iteration == i && !ActorProblem(s, meta)
    && (forall a, b :: 0 <= a < b < |s.keys| ==> s.keys[a] != s.keys[b])
    && (forall a :: 0 <= a < |s.keys| ==> s.keys[a].slot == i)
  }

  ghost predicate Coherent(chosen: seq<Selection>, meta: Meta) {
    forall i :: 0 <= i < |chosen| ==> SlotFits(chosen[i], i, meta)
  }

  lemma IterationFits(ids: Ids, slots: nat, i: nat, visit: Visit, meta: Meta)
    requires i < slots && meta.browse == ids.user && meta.playback == ids.viewer
    requires ids.user != "" && ids.viewer != "" && ids.user != ids.viewer
    ensures SlotFits(SelectionOf(ids, slots, i, visit.calls, visit.screenOk), i, meta)
  {
    assert i % slots == i;
    KeysDistinct(i, MIX[i % 10], visit.calls);
  }

  /** The machine's selections are coherent. */
  lemma ChosenFits(ids: Ids, plan: seq<Visit>, meta: Meta)
    requires meta.browse == ids.user && meta.playback == ids.viewer
    requires ids.user != "" && ids.viewer != "" && ids.user != ids.viewer
    ensures Coherent(Chosen(ids, plan), meta)
  {
    var chosen := Chosen(ids, plan);
    forall i | 0 <= i < |chosen|
      ensures SlotFits(chosen[i], i, meta)
    {
      IterationFits(ids, |plan|, i, plan[i], meta);
    }
  }

  /** No key occurs twice: slots separate iterations, occurrences separate requests. */
  lemma {:induction false} KeysOnce(chosen: seq<Selection>, meta: Meta, k: Key)
    requires Coherent(chosen, meta)
    ensures Tally(KeysIn, chosen)[k] <= 1
    ensures k in Tally(KeysIn, chosen) ==> k.slot < |chosen|
  {
    if chosen != [] {
      var front, s := chosen[..|chosen| - 1], chosen[|chosen| - 1];
      KeysOnce(front, meta, k);
      DistinctOnce(s.keys, k);
      assert SlotFits(s, |chosen| - 1, meta);
      assert k in multiset(s.keys) ==> k in s.keys;
    }
  }

  // ----- accepted ------------------------------------------------------------------------------------------

  /** The generator's summary of the pass agrees with the run's metadata. */
  ghost predicate Agrees(meta: Meta, summary: Summary, chosen: seq<Selection>) {
    && |chosen| > 0 && |chosen| % 10 == 0 && meta.slots == |chosen|
    && summary.workload == meta.workload && summary.slots == meta.slots && summary.seed == meta.seed && summary.vus == meta.vus
    && summary.isolation == meta.isolation
    && summary.iterations == |chosen| && summary.requests == |Tally(KeysIn, chosen)|
  }

  lemma MembersOf<T>(p: seq<T>, q: seq<T>, i: nat)
    requires multiset(p) == multiset(q) && i < |p|
    ensures p[i] in q
  {
    assert p[i] in multiset(q);
  }

  lemma RecordsFit(records: seq<Selection>, chosen: seq<Selection>, meta: Meta)
    requires multiset(records) == multiset(chosen) && Coherent(chosen, meta)
    ensures |records| == |chosen| && AllOnce(Iterations(records), |chosen|)
    ensures forall i :: 0 <= i < |records| ==> !ActorProblem(records[i], meta) && records[i].selection == records[i].iteration
  {
    assert |records| == |multiset(records)| == |multiset(chosen)| == |chosen|;
    forall i: nat | i < |records|
      ensures !ActorProblem(records[i], meta) && records[i].selection == records[i].iteration
    {
      MembersOf(records, chosen, i);
      var k :| 0 <= k < |chosen| && chosen[k] == records[i];
      assert SlotFits(chosen[k], k, meta);
    }
    MapPermutes((r: Selection) => r.iteration, records, chosen);
    forall i | 0 <= i < |chosen|
      ensures Iterations(chosen)[i] == i
    {
      assert SlotFits(chosen[i], i, meta);
    }
    assert Iterations(chosen) == Upto(|chosen|);
  }

  /** Whatever the interleaving, a complete pass is accepted. */
  lemma CompletePassAccepted(log: seq<Line>, chosen: seq<Selection>, noise: seq<Line>, meta: Meta, summary: Summary)
    requires LogOf(log, chosen, noise) && Coherent(chosen, meta) && Agrees(meta, summary, chosen)
    ensures Validate(meta, summary, log) == Valid(Index(Records(log)))
    ensures multiset(Records(log)) == multiset(chosen)
  {
    var records, actual := Records(log), Tally(ObservedIn, log);
    LogTally(log, chosen, noise);
    RecordsTally(log);
    RecordsFit(records, chosen, meta);
    TallyPermutes(KeysIn, records, chosen);
    forall k | k in actual
      ensures actual[k] == 1
    {
      KeysOnce(chosen, meta, k);
    }
    assert EachOnce(actual);
  }

  // ----- the index of an accepted pass --------------------------------------------------------------------

  lemma {:induction false} IndexHolds(records: seq<Selection>, i: nat)
    requires i < |records| && forall j :: i < j < |records| ==> records[j].selection != records[i].selection
    ensures records[i].selection in Index(records) && Index(records)[records[i].selection] == records[i]
  {
    if i < |records| - 1 {
      IndexHolds(records[..|records| - 1], i);
    }
  }

  lemma {:induction false} LastAt(records: seq<Selection>, r: Selection) returns (k: nat)
    requires r in records
    ensures k < |records| && records[k] == r && forall j :: k < j < |records| ==> records[j] != r
  {
    if records[|records| - 1] == r {
      k := |records| - 1;
    } else {
      k := LastAt(records[..|records| - 1], r);
    }
  }

  /** Every slot is indexed by its own selection. */
  lemma IndexedBySlot(records: seq<Selection>, chosen: seq<Selection>, meta: Meta, i: nat)
    requires multiset(records) == multiset(chosen) && Coherent(chosen, meta) && i < |chosen|
    ensures i in Index(records) && Index(records)[i] == chosen[i]
  {
    assert SlotFits(chosen[i], i, meta);
    MembersOf(chosen, records, i);
    var k := LastAt(records, chosen[i]);
    forall j | k < j < |records|
      ensures records[j].selection != records[k].selection
    {
      MembersOf(records, chosen, j);
      var m :| 0 <= m < |chosen| && chosen[m] == records[j];
      assert SlotFits(chosen[m], m, meta);
    }
    IndexHolds(records, k);
  }

  // ----- refused -------------------------------------------------------------------------------------------

  /** An accepted log holds one record per slot and one observation per request of the summary. */
  lemma AcceptedSizes(log: seq<Line>, meta: Meta, summary: Summary)
    requires Validate(meta, summary, log).Valid?
    ensures |Tally(SelectedIn, log)| == meta.slots && |Tally(ObservedIn, log)| == summary.requests
  {
    RecordsTally(log);
    assert |multiset(Records(log))| == |Records(log)|;
  }

  lemma PassSizes(log: seq<Line>, chosen: seq<Selection>, noise: seq<Line>, meta: Meta, summary: Summary)
    requires LogOf(log, chosen, noise) && Agrees(meta, summary, chosen)
    ensures |Tally(SelectedIn, log)| == meta.slots && |Tally(ObservedIn, log)| == summary.requests
  {
    LogTally(log, chosen, noise);
  }

  /** No line of the pass itself is one the validator does not count. */
  lemma {:induction false} PassCounted(chosen: seq<Selection>, line: Line)
    requires AllScoped(chosen) && line in PassLines(chosen)
    ensures !Noise(line)
  {
    var front, s := chosen[..|chosen| - 1], chosen[|chosen| - 1];
    if line in PassLines(front) {
      PassCounted(front, line);
    } else if line in Observations(s.keys) {
      ObservationsCounted(s.keys, line);
    }
  }

  lemma {:induction false} ObservationsCounted(keys: seq<Key>, line: Line)
    requires ScopedKeys(keys) && line in Observations(keys)
    ensures !Noise(line)
  {
    var front, last := keys[..|keys| - 1], keys[|keys| - 1];
    if line in Observations(front) {
      ObservationsCounted(front, line);
    }
  }

  lemma NoiseAt(chosen: seq<Selection>, noise: seq<Line>, line: Line) returns (i: nat)
    requires AllScoped(chosen) && Noise(line) && line in PassLines(chosen) + noise
    ensures i < |noise| && noise[i] == line
  {
    if line in PassLines(chosen) {
      PassCounted(chosen, line);
    }
    i :| 0 <= i < |noise| && noise[i] == line;
  }

  lemma Cancel<T>(a: multiset<T>, b: multiset<T>, x: T)
    requires a + multiset{x} == b + multiset{x}
    ensures a == b
  {
    forall y ensures a[y] == b[y] {
      assert (a + multiset{x})[y] == a[y] + multiset{x}[y];
      assert (b + multiset{x})[y] == b[y] + multiset{x}[y];
    }
  }

  lemma LessOfSum<T>(pass: seq<T>, noise: seq<T>, i: nat, short: multiset<T>)
    requires i < |noise| && multiset(pass + noise) == short + multiset{noise[i]}
    ensures multiset(pass + Without(noise, i)) == short
  {
    var less := Without(noise, i);
    assert pass + noise == (pass + noise[..i]) + [noise[i]] + noise[i + 1..];
    assert pass + less == (pass + noise[..i]) + noise[i + 1..];
    Cancel(multiset(pass + less), short, noise[i]);
  }

  lemma MoreOfSum<T>(pass: seq<T>, noise: seq<T>, x: T)
    ensures multiset(pass + (noise + [x])) == multiset(pass + noise) + multiset{x}
  {
    assert pass + (noise + [x]) == pass + noise + [x];
  }

  lemma MemberOfSum<T>(all: seq<T>, rest: multiset<T>, x: T)
    requires multiset(all) == rest + multiset{x}
    ensures x in all
  {
    assert x in multiset(all);
  }

  /** A log with one uncounted line fewer is still a log of the pass. */
  lemma LessNoise(log: seq<Line>, short: seq<Line>, chosen: seq<Selection>, noise: seq<Line>, line: Line) returns (less: seq<Line>)
    requires LogOf(log, chosen, noise) && Noise(line) && multiset(log) == multiset(short) + multiset{line}
    ensures LogOf(short, chosen, less)
  {
    MemberOfSum(PassLines(chosen) + noise, multiset(short), line);
    var i := NoiseAt(chosen, noise, line);
    less := Without(noise, i);
    LessOfSum(PassLines(chosen), noise, i, multiset(short));
  }

  lemma MoreNoise(log: seq<Line>, long: seq<Line>, chosen: seq<Selection>, noise: seq<Line>, line: Line)
    requires LogOf(log, chosen, noise) && Noise(line) && multiset(long) == multiset(log) + multiset{line}
    ensures LogOf(long, chosen, noise + [line])
  {
    MoreOfSum(PassLines(chosen), noise, line);
  }

  /** Leaving out any line the validator counts makes the pass refused, and leaving out any other does not. */
  lemma OmissionRefused(log: seq<Line>, short: seq<Line>, chosen: seq<Selection>, noise: seq<Line>, line: Line,
                        meta: Meta, summary: Summary)
    requires LogOf(log, chosen, noise) && Agrees(meta, summary, chosen)
    requires multiset(log) == multiset(short) + multiset{line}
    ensures !Noise(line) ==> Validate(meta, summary, short).Problem?
    ensures Noise(line) && Coherent(chosen, meta) ==> Validate(meta, summary, short).Valid?
  {
    if !Noise(line) {
      PassSizes(log, chosen, noise, meta, summary);
      TallyAdded(SelectedIn, short, log, line);
      TallyAdded(ObservedIn, short, log, line);
      if Validate(meta, summary, short).Valid? {
        AcceptedSizes(short, meta, summary);
      }
    } else if Coherent(chosen, meta) {
      var less := LessNoise(log, short, chosen, noise, line);
      CompletePassAccepted(short, chosen, less, meta, summary);
    }
  }

  /** Adding or repeating any line the validator counts makes the pass refused, and adding any other does not. */
  lemma AdditionRefused(log: seq<Line>, long: seq<Line>, chosen: seq<Selection>, noise: seq<Line>, line: Line,
                        meta: Meta, summary: Summary)
    requires LogOf(log, chosen, noise) && Agrees(meta, summary, chosen)
    requires multiset(long) == multiset(log) + multiset{line}
    ensures !Noise(line) ==> Validate(meta, summary, long).Problem?
    ensures Noise(line) && Coherent(chosen, meta) ==> Validate(meta, summary, long).Valid?
  {
    if !Noise(line) {
      PassSizes(log, chosen, noise, meta, summary);
      TallyAdded(SelectedIn, log, long, line);
      TallyAdded(ObservedIn, log, long, line);
      if Validate(meta, summary, long).Valid? {
        AcceptedSizes(long, meta, summary);
      }
    } else if Coherent(chosen, meta) {
      MoreNoise(log, long, chosen, noise, line);
      CompletePassAccepted(long, chosen, noise + [line], meta, summary);
    }
  }

  /** A foreign observation under the bare name slips into an accepted pass, whatever its key. */
  lemma ForeignImageAccepted(log: seq<Line>, chosen: seq<Selection>, noise: seq<Line>, key: Key, meta: Meta, summary: Summary)
    requires LogOf(log, chosen, noise) && Coherent(chosen, meta) && Agrees(meta, summary, chosen)
    ensures Validate(meta, summary, log + [Observed(Endpoint("image"), key)]).Valid?
  {
    AdditionRefused(log, log + [Observed(Endpoint("image"), key)], chosen, noise, Observed(Endpoint("image"), key), meta, summary);
  }
}

/**
 Reading an adoption run's event log back into one row per fixture, its verdicts and their counts
 (gates/adoption/adoption_report.py). The log may hold unreadable or malformed lines anywhere.
 */
module AdoptionReport {
  import opened Options
  import Sequences

  /** A JSON value: null, a string, or anything else, told apart by a tag. */
  datatype Json = Null | Str(text: string) | Other(tag: int)

  type Event = map<string, Json>

  /** A line holds a JSON object, or is truncated, not JSON or not an object. */
  datatype Line = Unreadable | Parsed(event: Event)

  /** A verdict as the report tells them apart; `begin` events may bring one it does not list. */
  datatype Verdict = Pass | Fail | Skip | Incomplete | Unlisted(value: Json)

  /** What a line says once read. An absent column of an update is None. */
  datatype Entry =
    | Skipped
    | Header(event: Event)
    | Check(fixture: string, event: Event, verdict: Verdict)
    | Update(fixture: string, isRow: bool, kind: Json, expected: Json, given: Option<Option<Verdict>>, detail: Option<Json>)
    | Attach(fixture: string, key: string, data: Json)

  datatype Row = Row(fixture: string, kind: Json, expected: Json, verdict: Option<Verdict>, detail: Json,
                     checks: seq<Entry>, attachments: map<string, Json>)

  // ----- one line -----------------------------------------------------------------------------------------

  /** event.get(key) */
  function Get(e: Event, key: string): Json {
    if key in e then e[key] else Null
  }

  function Find(e: Event, key: string): Option<Json> {
    if key in e then Some(e[key]) else None
  }

  function VerdictOf(j: Json): Option<Verdict> {
    if j == Null then None
    else if j == Str("PASS") then Some(Pass)
    else if j == Str("FAIL") then Some(Fail)
    else if j == Str("SKIP") then Some(Skip)
    else if j == Str("INCOMPLETE") then Some(Incomplete)
    else Some(Unlisted(j))
  }

  /** The three a check or row event may carry. */
  predicate Known(v: Option<Verdict>) {
    v == Some(Pass) || v == Some(Fail) || v == Some(Skip)
  }

  function Read(line: Line): Entry {
    if line.Unreadable? || "event" !in line.event then Skipped
    else if line.event["event"] == Str("run") then Header(line.event)
    else if Get(line.event, "fixture").Str? then ReadFixture(line.event, line.event["fixture"].text)
    else Skipped
  }

  /** An event of a fixture, when it carries the fields its kind needs. */
  function ReadFixture(e: Event, fixture: string): Entry {
    var verdict := VerdictOf(Get(e, "verdict"));
    var columns := Get(e, "kind").Str? && Get(e, "expected").Str?;
    var given := if "verdict" in e then Some(verdict) else None;
    match Get(e, "event")
    case Str("check") =>
      if Get(e, "stage").Str? && Get(e, "check").Str? && Known(verdict) then Check(fixture, e, verdict.value) else Skipped
    case Str("row") =>
      if columns && Known(verdict) then Update(fixture, true, e["kind"], e["expected"], given, Find(e, "detail")) else Skipped
    case Str("begin") =>
      if columns then Update(fixture, false, e["kind"], e["expected"], given, Find(e, "detail")) else Skipped
    case Str("attach") =>
      if Get(e, "key").Str? then Attach(fixture, e["key"].text, Get(e, "data")) else Skipped
    case _ => Skipped
  }

  predicate Of(entry: Entry, f: string) {
    (entry.Check? || entry.Update? || entry.Attach?) && entry.fixture == f
  }

  // ----- the reading, in place ------------------------------------------------------------------------------

  function Fresh(fixture: string): Row {
    Row(fixture, Str(""), Str(""), None, Str(""), [], map[])
  }

  function Or<T>(o: Option<T>, was: T): T {
    if o.Some? then o.value else was
  }

  /** What one entry of a fixture does to its row. */
  function Absorb(row: Row, entry: Entry): Row {
    match entry
    case Check(_, _, _) => row.(checks := row.checks + [entry])
    case Update(_, _, kind, expected, given, detail) =>
      row.(kind := kind, expected := expected, verdict := Or(given, row.verdict), detail := Or(detail, row.detail))
    case Attach(_, key, data) => row.(attachments := row.attachments[key := data])
    case _ => row
  }

  /** The table once an entry of a fixture is taken in, its row made when it has none. */
  function Taken(rows: map<string, Row>, entry: Entry): map<string, Row> {
    if entry.Skipped? || entry.Header? then rows
    else rows[entry.fixture := Absorb(if entry.fixture in rows then rows[entry.fixture] else Fresh(entry.fixture), entry)]
  }

  method Load(lines: seq<Line>) returns (header: Event, table: seq<Row>, skipped: nat)
    ensures header == LastHeader(ReadAll(lines))
    ensures table == Rows(ReadAll(lines))
    ensures skipped == SkippedLines(ReadAll(lines))
  {
    ghost var log := ReadAll(lines);
    var order: seq<string>, rows: map<string, Row> := [], map[];
    header, skipped := map[], 0;
    for i := 0 to |lines|
      invariant header == LastHeader(log[..i]) && skipped == SkippedLines(log[..i])
      invariant order == Mentions(log[..i]) && rows == Table(log[..i])
    {
      var entry := Read(lines[i]);
      assert log[..i + 1] == log[..i] + [entry];
      LoadStep(log[..i], entry);
      if entry.Skipped? {
        skipped := skipped + 1;
      } else if entry.Header? {
        header := entry.event;
      }
      order, rows := Mention(order, entry), Taken(rows, entry);
    }
    assert log[..|lines|] == log;
    table := seq(|order|, i requires 0 <= i < |order| => rows[order[i]]);
  }

  // ----- what it amounts to, fixture by fixture ---------------------------------------------------------------

  function ReadAll(lines: seq<Line>): seq<Entry> {
    Sequences.Map(Read, lines)
  }

  function LastHeader(log: seq<Entry>): Event {
    if log == [] then map[]
    else if log[|log| - 1].Header? then log[|log| - 1].event
    else LastHeader(log[..|log| - 1])
  }

  function SkippedLines(log: seq<Entry>): nat {
    if log == [] then 0 else SkippedLines(log[..|log| - 1]) + (if log[|log| - 1].Skipped? then 1 else 0)
  }

  /** The fixtures in order of first appearance. */
  function Mentions(log: seq<Entry>): seq<string> {
    if log == [] then [] else Mention(Mentions(log[..|log| - 1]), log[|log| - 1])
  }

  function Mention(order: seq<string>, entry: Entry): seq<string> {
    if entry.Skipped? || entry.Header? || entry.fixture in order then order else order + [entry.fixture]
  }

  /** The entries of one fixture. */
  function Own(log: seq<Entry>, f: string): seq<Entry> {
    if log == [] then [] else Own(log[..|log| - 1], f) + (if Of(log[|log| - 1], f) then [log[|log| - 1]] else [])
  }

  /** The last update a predicate holds of. */
  function Latest(own: seq<Entry>, p: Entry -> bool): Option<Entry> {
    if own == [] then None
    else if p(own[|own| - 1]) then Some(own[|own| - 1])
    else Latest(own[..|own| - 1], p)
  }

  function LatestKind(own: seq<Entry>): Json {
    match Latest(own, (e: Entry) => e.Update?) case Some(Update(_, _, kind, _, _, _)) => kind case _ => Str("")
  }

  function LatestExpected(own: seq<Entry>): Json {
    match Latest(own, (e: Entry) => e.Update?) case Some(Update(_, _, _, expected, _, _)) => expected case _ => Str("")
  }

  /** The verdict the fixture's entries leave it with: the last one any row or begin event gave. */
  function Given(own: seq<Entry>): Option<Verdict> {
    match Latest(own, (e: Entry) => e.Update? && e.given.Some?) case Some(Update(_, _, _, _, Some(v), _)) => v case _ => None
  }

  function LatestDetail(own: seq<Entry>): Json {
    match Latest(own, (e: Entry) => e.Update? && e.detail.Some?) case Some(Update(_, _, _, _, _, Some(d))) => d case _ => Str("")
  }

  function Attached(own: seq<Entry>): set<string> {
    set e | e in own && e.Attach? :: e.key
  }

  function LatestData(own: seq<Entry>, key: string): Json {
    match Latest(own, (e: Entry) => e.Attach? && e.key == key) case Some(Attach(_, _, data)) => data case _ => Null
  }

  function Attachments(own: seq<Entry>): map<string, Json> {
    map key | key in Attached(own) :: LatestData(own, key)
  }

  predicate IsCheck(e: Entry) { e.Check? }

  function RowOf(f: string, own: seq<Entry>): Row {
    Row(f, LatestKind(own), LatestExpected(own), Given(own), LatestDetail(own),
      Sequences.Filter(IsCheck, own), Attachments(own))
  }

  /** The rows by fixture, and in order. */
  function RowAt(log: seq<Entry>, f: string): Row {
    RowOf(f, Own(log, f))
  }

  function Table(log: seq<Entry>): map<string, Row> {
    map f | f in Mentions(log) :: RowAt(log, f)
  }

  function Rows(log: seq<Entry>): seq<Row> {
    var order := Mentions(log);
    seq(|order|, i requires 0 <= i < |order| => RowAt(log, order[i]))
  }

  lemma AttachmentsStep(own: seq<Entry>, e: Entry)
    ensures Attachments(own + [e]) == if e.Attach? then Attachments(own)[e.key := e.data] else Attachments(own)
  {
    assert (own + [e])[..|own|] == own;
    assert Attached(own + [e]) == Attached(own) + if e.Attach? then {e.key} else {};
  }

  /** One entry moves the row the way the loop does. */
  lemma RowStep(f: string, own: seq<Entry>, e: Entry)
    ensures RowOf(f, own + [e]) == Absorb(RowOf(f, own), e)
  {
    assert (own + [e])[..|own|] == own;
    AttachmentsStep(own, e);
  }

  lemma OwnStep(log: seq<Entry>, e: Entry, f: string)
    ensures Own(log + [e], f) == Own(log, f) + if Of(e, f) then [e] else []
  {
    assert (log + [e])[..|log|] == log;
  }

  lemma MentionsStep(log: seq<Entry>, e: Entry)
    ensures Mentions(log + [e]) == Mention(Mentions(log), e)
  {
    assert (log + [e])[..|log|] == log;
  }

  lemma RowAtStep(log: seq<Entry>, e: Entry, f: string)
    ensures RowAt(log + [e], f) == if Of(e, f) then Absorb(RowAt(log, f), e) else RowAt(log, f)
  {
    OwnStep(log, e, f);
    RowStep(f, Own(log, f), e);
    assert Own(log, f) + [] == Own(log, f);
  }

  lemma FreshAt(log: seq<Entry>, f: string)
    requires f !in Mentions(log)
    ensures RowAt(log, f) == Fresh(f)
  {
    OwnIffMentioned(log, f);
  }

  lemma TakenAt(log: seq<Entry>, e: Entry, f: string)
    requires f in Mention(Mentions(log), e)
    ensures f in Taken(Table(log), e) && Taken(Table(log), e)[f] == RowAt(log + [e], f)
  {
    RowAtStep(log, e, f);
    if f !in Mentions(log) {
      FreshAt(log, f);
    }
  }

  lemma TakenKeys(log: seq<Entry>, e: Entry)
    ensures Table(log + [e]).Keys == Taken(Table(log), e).Keys
  {
    MentionsStep(log, e);
  }

  lemma TableStep(log: seq<Entry>, e: Entry)
    ensures Table(log + [e]) == Taken(Table(log), e)
  {
    MentionsStep(log, e);
    TakenKeys(log, e);
    var next, taken := Table(log + [e]), Taken(Table(log), e);
    forall f | f in next.Keys ensures next[f] == taken[f] {
      TakenAt(log, e, f);
    }
    SameMap(next, taken);
  }

  lemma SameMap<K, V>(m: map<K, V>, n: map<K, V>)
    requires m.Keys == n.Keys && forall k :: k in m.Keys ==> m[k] == n[k]
    ensures m == n
  {
  }

  lemma LoadStep(log: seq<Entry>, e: Entry)
    ensures LastHeader(log + [e]) == if e.Header? then e.event else LastHeader(log)
    ensures SkippedLines(log + [e]) == SkippedLines(log) + if e.Skipped? then 1 else 0
    ensures Mentions(log + [e]) == Mention(Mentions(log), e)
    ensures Table(log + [e]) == Taken(Table(log), e)
  {
    assert (log + [e])[..|log|] == log;
    TableStep(log, e);
  }

  lemma {:induction false} OwnIffMentioned(log: seq<Entry>, f: string)
    ensures f in Mentions(log) <==> Own(log, f) != []
  {
    if log != [] {
      OwnIffMentioned(log[..|log| - 1], f);
    }
  }

  lemma {:induction false} MentionedOnce(log: seq<Entry>)
    ensures forall i, j :: 0 <= i < j < |Mentions(log)| ==> Mentions(log)[i] != Mentions(log)[j]
  {
    if log != [] {
      MentionedOnce(log[..|log| - 1]);
    }
  }

  lemma {:induction false} OwnConcat(a: seq<Entry>, b: seq<Entry>, f: string)
    ensures Own(a + b, f) == Own(a, f) + Own(b, f)
  {
    if b == [] {
      assert a + b == a;
    } else {
      OwnConcat(a, b[..|b| - 1], f);
      assert (a + b)[..|a + b| - 1] == a + b[..|b| - 1];
    }
  }

  /** The row a log gives a fixture, if it mentions it. */
  lemma RowFound(log: seq<Entry>, f: string)
    ensures (exists i :: 0 <= i < |Rows(log)| && Rows(log)[i].fixture == f) <==> Own(log, f) != []
    ensures forall i :: 0 <= i < |Rows(log)| && Rows(log)[i].fixture == f ==> Rows(log)[i] == RowOf(f, Own(log, f))
  {
    OwnIffMentioned(log, f);
    if f in Mentions(log) {
      var i :| 0 <= i < |Mentions(log)| && Mentions(log)[i] == f;
      assert Rows(log)[i].fixture == f;
    }
  }

  /** A row is there once when it is its fixture's, and otherwise not at all. */
  lemma RowOnce(log: seq<Entry>, r: Row)
    ensures multiset(Rows(log))[r] == if Own(log, r.fixture) != [] && r == RowOf(r.fixture, Own(log, r.fixture)) then 1 else 0
  {
    MentionedOnce(log);
    Sequences.DistinctOnce(Rows(log), r);
    RowFound(log, r.fixture);
    assert r in Rows(log) <==> Own(log, r.fixture) != [] && r == RowOf(r.fixture, Own(log, r.fixture));
  }

  /** Two logs with the same entries per fixture give the same rows, however they are interleaved. */
  lemma InterleavingIrrelevant(p: seq<Entry>, q: seq<Entry>)
    requires forall f :: Own(p, f) == Own(q, f)
    ensures multiset(Rows(p)) == multiset(Rows(q))
  {
    forall r ensures multiset(Rows(p))[r] == multiset(Rows(q))[r] {
      RowOnce(p, r);
      RowOnce(q, r);
    }
  }

  lemma {:induction false} SkippedUnmentioned(a: seq<Entry>, b: seq<Entry>)
    ensures Mentions(a + [Skipped] + b) == Mentions(a + b)
    ensures LastHeader(a + [Skipped] + b) == LastHeader(a + b)
    ensures SkippedLines(a + [Skipped] + b) == SkippedLines(a + b) + 1
  {
    var log := a + [Skipped] + b;
    if b == [] {
      assert log[..|log| - 1] == a == a + b;
    } else {
      SkippedUnmentioned(a, b[..|b| - 1]);
      assert log[..|log| - 1] == a + [Skipped] + b[..|b| - 1];
      assert (a + b)[..|a + b| - 1] == a + b[..|b| - 1];
    }
  }

  lemma SkippedKeepsRows(a: seq<Entry>, b: seq<Entry>)
    ensures Rows(a + [Skipped] + b) == Rows(a + b)
  {
    SkippedUnmentioned(a, b);
    forall f ensures Own(a + [Skipped] + b, f) == Own(a + b, f) {
      OwnConcat(a + [Skipped], b, f);
      OwnStep(a, Skipped, f);
      OwnConcat(a, b, f);
    }
  }

  /** A line that cannot be used changes the skipped count and nothing else, wherever it stands. */
  lemma BadLineOnlyCounted(a: seq<Line>, bad: Line, b: seq<Line>)
    requires Read(bad).Skipped?
    ensures Rows(ReadAll(a + [bad] + b)) == Rows(ReadAll(a + b))
    ensures LastHeader(ReadAll(a + [bad] + b)) == LastHeader(ReadAll(a + b))
    ensures SkippedLines(ReadAll(a + [bad] + b)) == SkippedLines(ReadAll(a + b)) + 1
  {
    var p, q := ReadAll(a), ReadAll(b);
    assert ReadAll(a + [bad] + b) == p + [Skipped] + q && ReadAll(a + b) == p + q;
    SkippedUnmentioned(p, q);
    SkippedKeepsRows(p, q);
  }

  // ----- verdicts -----------------------------------------------------------------------------------------------

  predicate AnyFailed(checks: seq<Entry>) {
    exists i :: 0 <= i < |checks| && checks[i].Check? && checks[i].verdict == Fail
  }

  function RowVerdict(row: Row): Verdict {
    if row.verdict == None then Incomplete
    else if row.verdict == Some(Pass) && AnyFailed(row.checks) then Fail
    else row.verdict.value
  }

  datatype Outcome = NothingRan | Passed | Failed

  predicate Bad(v: Verdict) { v == Fail || v == Incomplete }

  function Overall(rows: seq<Row>): Outcome {
    if rows == [] then NothingRan
    else if exists i :: 0 <= i < |rows| && Bad(RowVerdict(rows[i])) then Failed
    else if exists i :: 0 <= i < |rows| && RowVerdict(rows[i]) == Pass then Passed
    else NothingRan
  }

  /** How many rows have the verdict. */
  function Count(rows: seq<Row>, v: Verdict): nat {
    if rows == [] then 0
    else Count(rows[..|rows| - 1], v) + (if RowVerdict(rows[|rows| - 1]) == v then 1 else 0)
  }

  lemma {:induction false} CountsCover(rows: seq<Row>)
    ensures var sum := Count(rows, Pass) + Count(rows, Fail) + Count(rows, Incomplete) + Count(rows, Skip);
            sum <= |rows| && (sum == |rows| <==> forall i :: 0 <= i < |rows| ==> !RowVerdict(rows[i]).Unlisted?)
  {
    if rows != [] {
      CountsCover(rows[..|rows| - 1]);
      assert rows == rows[..|rows| - 1] + [rows[|rows| - 1]];
    }
  }

  predicate FailsCheck(e: Entry, f: string) {
    e.Check? && e.fixture == f && e.verdict == Fail
  }

  /** A check of the fixture failed. */
  ghost predicate CheckFailed(log: seq<Entry>, f: string) {
    exists e :: e in log && FailsCheck(e, f)
  }

  lemma {:induction false} OwnMember(log: seq<Entry>, f: string, e: Entry)
    ensures e in Own(log, f) <==> e in log && Of(e, f)
  {
    if log != [] {
      OwnMember(log[..|log| - 1], f, e);
      assert log == log[..|log| - 1] + [log[|log| - 1]];
    }
  }

  lemma FailedChecks(log: seq<Entry>, f: string)
    ensures AnyFailed(Sequences.Filter(IsCheck, Own(log, f))) <==> CheckFailed(log, f)
  {
    var checks := Sequences.Filter(IsCheck, Own(log, f));
    forall e ensures e in checks <==> e in log && e.Check? && e.fixture == f {
      Sequences.FilterMember(IsCheck, Own(log, f), e);
      OwnMember(log, f, e);
    }
    if e :| e in log && FailsCheck(e, f) {
      assert e in checks;
    }
    if AnyFailed(checks) {
      var i :| 0 <= i < |checks| && checks[i].Check? && checks[i].verdict == Fail;
      assert checks[i] in checks;
    }
  }

  /** How a log leaves a fixture, read off its entries alone. */
  ghost function Conclusion(log: seq<Entry>, f: string): Verdict {
    match Given(Own(log, f))
    case None => Incomplete
    case Some(v) => if v == Pass && CheckFailed(log, f) then Fail else v
  }

  lemma RowConclusion(log: seq<Entry>, f: string)
    ensures RowVerdict(RowOf(f, Own(log, f))) == Conclusion(log, f)
  {
    FailedChecks(log, f);
  }

  /** The verdicts of the rows are the conclusions of the fixtures mentioned. */
  lemma VerdictFound(log: seq<Entry>, v: Verdict)
    ensures (exists i :: 0 <= i < |Rows(log)| && RowVerdict(Rows(log)[i]) == v) <==> exists f :: Own(log, f) != [] && Conclusion(log, f) == v
  {
    var rows := Rows(log);
    if i :| 0 <= i < |rows| && RowVerdict(rows[i]) == v {
      RowConclusion(log, rows[i].fixture);
      RowFound(log, rows[i].fixture);
    }
    if f :| Own(log, f) != [] && Conclusion(log, f) == v {
      RowConclusion(log, f);
      RowFound(log, f);
      var i :| 0 <= i < |rows| && rows[i].fixture == f;
      assert RowVerdict(rows[i]) == v;
    }
  }

  /** The whole run's outcome, in terms of the log. */
  lemma OverallExact(log: seq<Entry>)
    ensures Overall(Rows(log)) == Failed <==> exists f :: Own(log, f) != [] && Bad(Conclusion(log, f))
    ensures Overall(Rows(log)) == Passed <==>
            && (exists f :: Own(log, f) != [] && Conclusion(log, f) == Pass)
            && (forall f :: Own(log, f) != [] ==> !Bad(Conclusion(log, f)))
  {
    VerdictFound(log, Pass);
    VerdictFound(log, Fail);
    VerdictFound(log, Incomplete);
  }

  /** Entry `i` is the last row or begin event that carries a verdict, null included. */
  ghost predicate LastGiving(own: seq<Entry>, i: nat) {
    && i < |own| && own[i].Update? && own[i].given.Some?
    && forall j :: i < j < |own| ==> !(own[j].Update? && own[j].given.Some?)
  }

  lemma {:induction false} GivenByLast(own: seq<Entry>)
    ensures forall i: nat :: LastGiving(own, i) ==> own[i].given.value == Given(own)
    ensures (forall i: nat :: !LastGiving(own, i)) ==> Given(own) == None
  {
    if own != [] {
      var front, n := own[..|own| - 1], |own| - 1;
      GivenByLast(front);
      if own[n].Update? && own[n].given.Some? {
        assert LastGiving(own, n);
      } else {
        assert forall i: nat :: LastGiving(own, i) <==> LastGiving(front, i);
        assert Given(own) == Given(front);
      }
    }
  }

  /** No event of the fixture is a row: the run ended, or was killed, before it. */
  ghost predicate Rowless(log: seq<Entry>, f: string) {
    Own(log, f) != [] && forall e :: e in Own(log, f) && e.Update? ==> !e.isRow
  }

  /** Its last begin event with a verdict gives one that lets the run go on. */
  ghost predicate Relieved(log: seq<Entry>, f: string) {
    exists i: nat :: LastGiving(Own(log, f), i)
      && match Own(log, f)[i].given.value
         case Some(Pass) => !CheckFailed(log, f)
         case Some(v) => !Bad(v)
         case None => false
  }

  /** No begin event left it a verdict but null or INCOMPLETE. */
  ghost predicate LeftOpen(own: seq<Entry>) {
    forall i: nat :: LastGiving(own, i) ==> own[i].given.value.None? || own[i].given.value.value == Incomplete
  }

  /** A fixture without a row is shown unfinished exactly when it was left open. */
  lemma UnfinishedIff(log: seq<Entry>, f: string)
    requires Rowless(log, f)
    ensures Conclusion(log, f) == Incomplete <==> LeftOpen(Own(log, f))
  {
    var own := Own(log, f);
    GivenByLast(own);
    if i: nat :| LastGiving(own, i) {
      assert own[i].given.value == Given(own);
      assert LeftOpen(own) <==> Given(own).None? || Given(own).value == Incomplete;
    }
  }

  /** It fails the run exactly when no begin event relieves it; relieved, the run is up to the others. */
  lemma RowlessFails(log: seq<Entry>, f: string)
    requires Rowless(log, f)
    ensures !Relieved(log, f) ==> Overall(Rows(log)) == Failed
    ensures Relieved(log, f) ==>
              (Overall(Rows(log)) == Failed <==> exists g :: g != f && Own(log, g) != [] && Bad(Conclusion(log, g)))
  {
    GivenByLast(Own(log, f));
    OverallExact(log);
    assert Bad(Conclusion(log, f)) <==> !Relieved(log, f);
  }

  /** Where begin events carry no verdict, as the runner writes them, a mentioned fixture without a row fails the run. */
  lemma UnfinishedFails(log: seq<Entry>, f: string)
    requires Rowless(log, f) && forall e :: e in Own(log, f) && e.Update? ==> e.given == None || e.given == Some(None)
    ensures Overall(Rows(log)) == Failed && Conclusion(log, f) == Incomplete
  {
    GivenByLast(Own(log, f));
    RowlessFails(log, f);
    UnfinishedIff(log, f);
  }

  /** A log of one begin event that carries a verdict. */
  lemma OneBegin(log: seq<Entry>, e: Entry)
    requires log == [e] && e.Update? && e.given.Some?
    ensures Mentions(log) == [e.fixture] && Own(log, e.fixture) == [e] && Given([e]) == e.given.value
    ensures forall g :: g != e.fixture ==> Own(log, g) == []
  {
    assert [e][..0] == [];
    assert Mentions([]) == [] && Mention([], e) == [e.fixture];
  }

  /** Such an event with PASS passes the run on its own: the fixture never got its row. */
  lemma BeginPasses(f: string) returns (line: Line)
    ensures Rowless(ReadAll([line]), f) && Overall(Rows(ReadAll([line]))) == Passed
  {
    line := Parsed(map["event" := Str("begin"), "fixture" := Str(f), "kind" := Str("path"), "expected" := Str("12"), "verdict" := Str("PASS")]);
    var e := Update(f, false, Str("path"), Str("12"), Some(Some(Pass)), None);
    assert Read(line) == e;
    assert ReadAll([line]) == [e];
    BeginEntryPasses(e);
  }

  lemma BeginEntryPasses(e: Entry)
    requires e.Update? && !e.isRow && e.given == Some(Some(Pass))
    ensures Rowless([e], e.fixture) && Overall(Rows([e])) == Passed
  {
    OneBegin([e], e);
    OverallExact([e]);
    assert !CheckFailed([e], e.fixture);
    assert Conclusion([e], e.fixture) == Pass;
  }

  /** Once a check failed, no continuation of the log makes the row a pass; the run passes only if a later verdict says skipped or is unlisted. */
  lemma FailureSticks(log: seq<Entry>, more: seq<Entry>, f: string)
    requires CheckFailed(log, f)
    ensures Conclusion(log + more, f) != Pass
    ensures Overall(Rows(log + more)) == Passed ==> Conclusion(log + more, f) == Skip || Conclusion(log + more, f).Unlisted?
  {
    var e :| e in log && FailsCheck(e, f);
    assert e in log + more;
    OwnMember(log + more, f, e);
    OverallExact(log + more);
  }

  /** The last verdict given to the fixture is not one the report lists. */
  predicate Stray(log: seq<Entry>, f: string) {
    Given(Own(log, f)).Some? && Given(Own(log, f)).value.Unlisted?
  }

  /** The four counts add up to the fixtures exactly when no verdict left standing is unlisted. */
  lemma CountsExact(log: seq<Entry>)
    ensures |Rows(log)| == |Mentions(log)|
    ensures Count(Rows(log), Pass) + Count(Rows(log), Fail) + Count(Rows(log), Incomplete) + Count(Rows(log), Skip) == |Rows(log)|
            <==> forall f :: Own(log, f) != [] ==> !Stray(log, f)
  {
    CountsCover(Rows(log));
    forall i | 0 <= i < |Rows(log)|
      ensures Own(log, Mentions(log)[i]) != []
      ensures RowVerdict(Rows(log)[i]).Unlisted? <==> Stray(log, Mentions(log)[i])
    {
      OwnIffMentioned(log, Mentions(log)[i]);
      RowConclusion(log, Mentions(log)[i]);
    }
    forall f | Own(log, f) != [] ensures f in Mentions(log) {
      OwnIffMentioned(log, f);
    }
  }

  /** A begin event may carry any verdict: such a row is in none of the counts, which fall short. */
  lemma UncountedVerdict(f: string) returns (line: Line)
    ensures var rows := Rows(ReadAll([line]));
            |rows| == 1 && Count(rows, Pass) + Count(rows, Fail) + Count(rows, Incomplete) + Count(rows, Skip) == 0
  {
    line := Parsed(map["event" := Str("begin"), "fixture" := Str(f), "kind" := Str("path"), "expected" := Str("12"), "verdict" := Str("MAYBE")]);
    var e := Update(f, false, Str("path"), Str("12"), Some(Some(Unlisted(Str("MAYBE")))), None);
    assert Read(line) == e;
    assert ReadAll([line]) == [e];
    StrayEntryUncounted(e);
  }

  lemma StrayEntryUncounted(e: Entry)
    requires e.Update? && e.given.Some? && e.given.value.Some? && e.given.value.value.Unlisted?
    ensures var rows := Rows([e]);
            |rows| == 1 && Count(rows, Pass) + Count(rows, Fail) + Count(rows, Incomplete) + Count(rows, Skip) == 0
  {
    OneBegin([e], e);
    CountsExact([e]);
    CountsCover(Rows([e]));
    assert Stray([e], e.fixture);
  }

  /** A skipping row hides its own failed checks: whether the run then passes is up to the other fixtures. */
  lemma SkipHidesFailure(log: seq<Entry>, skip: Entry)
    requires skip.Update? && skip.given == Some(Some(Skip))
    ensures Overall(Rows(log + [skip])) == Passed <==>
            && (exists f :: f != skip.fixture && Own(log, f) != [] && Conclusion(log, f) == Pass)
            && (forall f :: f != skip.fixture && Own(log, f) != [] ==> !Bad(Conclusion(log, f)))
  {
    OverallExact(log + [skip]);
    OwnStep(log, skip, skip.fixture);
    GivenLast(Own(log, skip.fixture), skip);
    forall f | f != skip.fixture ensures Own(log + [skip], f) == Own(log, f) && Conclusion(log + [skip], f) == Conclusion(log, f) {
      OthersUnmoved(log, skip, f);
    }
  }

  lemma OthersUnmoved(log: seq<Entry>, e: Entry, f: string)
    requires !Of(e, f)
    ensures Own(log + [e], f) == Own(log, f) && Conclusion(log + [e], f) == Conclusion(log, f)
  {
    OwnStep(log, e, f);
    assert forall x :: FailsCheck(x, f) ==> (x in log + [e] <==> x in log);
    assert CheckFailed(log + [e], f) <==> CheckFailed(log, f);
  }

  lemma GivenLast(own: seq<Entry>, e: Entry)
    requires e.Update? && e.given.Some?
    ensures Given(own + [e]) == e.given.value
  {
  }

  // ----- which lines are read as what --------------------------------------------------------------------------------

  predicate Says(line: Line, key: string, text: string) { line.Parsed? && key in line.event && line.event[key] == Str(text) }

  predicate HasText(line: Line, key: string) { line.Parsed? && key in line.event && line.event[key].Str? }

  predicate HasVerdict(line: Line) { Says(line, "verdict", "PASS") || Says(line, "verdict", "FAIL") || Says(line, "verdict", "SKIP") }

  /** A run's header is any object whose event is "run". */
  lemma HeaderIff(line: Line)
    ensures Read(line).Header? <==> Says(line, "event", "run")
  {
  }

  /** A check names its fixture, stage and check and carries one of three verdicts. */
  lemma CheckIff(line: Line)
    ensures Read(line).Check? <==>
            Says(line, "event", "check") && HasText(line, "fixture") && HasText(line, "stage") && HasText(line, "check") && HasVerdict(line)
    ensures Read(line).Check? ==>
              Read(line).fixture == line.event["fixture"].text && (Read(line).verdict == Fail <==> Says(line, "verdict", "FAIL"))
  {
  }

  /** A row names its fixture, kind and expected outcome and carries one of three verdicts; a begin event needs none. */
  lemma UpdateIff(line: Line)
    ensures Read(line).Update? <==>
            && HasText(line, "fixture") && HasText(line, "kind") && HasText(line, "expected")
            && ((Says(line, "event", "row") && HasVerdict(line)) || Says(line, "event", "begin"))
    ensures Read(line).Update? ==>
              && Read(line).fixture == line.event["fixture"].text && (Read(line).isRow <==> Says(line, "event", "row"))
              && Read(line).kind == line.event["kind"] && Read(line).expected == line.event["expected"]
              && (Read(line).given.None? <==> "verdict" !in line.event) && (Read(line).detail.None? <==> "detail" !in line.event)
              && (Read(line).detail.Some? ==> Read(line).detail.value == line.event["detail"])
  {
  }

  /** The verdict an update carries, by its text. */
  lemma GivenIff(line: Line)
    requires Read(line).Update? && "verdict" in line.event
    ensures var given := Read(line).given.value;
            && (given == None <==> line.event["verdict"] == Null)
            && (given == Some(Pass) <==> Says(line, "verdict", "PASS")) && (given == Some(Fail) <==> Says(line, "verdict", "FAIL"))
            && (given == Some(Skip) <==> Says(line, "verdict", "SKIP")) && (given == Some(Incomplete) <==> Says(line, "verdict", "INCOMPLETE"))
  {
  }

  /** An attachment names its fixture and key. */
  lemma AttachIff(line: Line)
    ensures Read(line).Attach? <==> Says(line, "event", "attach") && HasText(line, "fixture") && HasText(line, "key")
    ensures Read(line).Attach? ==> Read(line).fixture == line.event["fixture"].text && Read(line).key == line.event["key"].text
  {
  }

  /** The rows with a verdict. */
  ghost function WithVerdict(rows: seq<Row>, v: Verdict): set<nat> {
    set i: nat | i < |rows| && RowVerdict(rows[i]) == v
  }

  lemma WithVerdictStep(rows: seq<Row>, v: Verdict)
    requires rows != []
    ensures var front, n := rows[..|rows| - 1], |rows| - 1;
            n !in WithVerdict(front, v) && WithVerdict(rows, v) == WithVerdict(front, v) + if RowVerdict(rows[n]) == v then {n} else {}
  {
    var front, n := rows[..|rows| - 1], |rows| - 1;
    forall i: nat | i < n ensures front[i] == rows[i] {
    }
  }

  /** A count is the number of rows with the verdict. */
  lemma {:induction false} CountIsCard(rows: seq<Row>, v: Verdict)
    ensures Count(rows, v) == |WithVerdict(rows, v)|
  {
    if rows != [] {
      CountIsCard(rows[..|rows| - 1], v);
      WithVerdictStep(rows, v);
    }
  }
}

/**
 One user's history of one item: which rows conflict, which one wins, and what the one-time
 harmonize repair leaves (gates/adoption/watch_history.py `conflicting`, `winner_order`,
 `harmonize`; crates/ferrofin-core/src/adoption_repairs.rs `winner_order`, `harmonize_groups`).
 */
module UserData {
  import opened Options
  import opened Dates
  import opened Sequences

  /** The nine columns the repair copies. */
  datatype Play = Play(audioStream: Option<int>, favorite: int, lastPlayed: Option<string>, likes: Option<int>,
                       position: int, playCount: int, played: int, rating: Option<real>, subtitleStream: Option<int>)

  /** RetentionDate: absent, a stored text, or (in a snapshot) only whether one is set. */
  datatype Retention = Unset | At(text: string) | Mark(isSet: bool)

  datatype Row = Row(key: string, play: Play, retention: Retention)

  // ----- the conflict test -----------------------------------------------------------------

  predicate DatesDisagree(a: Option<string>, b: Option<string>) {
    a.Some? && b.Some? && TickText(a.value) != TickText(b.value)
  }

  /** Two rows differ on one of the five watch fields, NULLs skipped. */
  predicate Disagree(a: Play, b: Play) {
    || a.played != b.played || a.playCount != b.playCount || a.position != b.position
    || DatesDisagree(a.lastPlayed, b.lastPlayed) || a.favorite != b.favorite
  }

  predicate Conflicting(rows: seq<Row>) {
    |rows| >= 2 && exists i, j :: 0 <= i < |rows| && 0 <= j < |rows| && Disagree(rows[i].play, rows[j].play)
  }

  // ----- the winner rule -----------------------------------------------------------------------

  predicate Dated(row: Row) {
    row.play.lastPlayed.Some? ==> Instant(row.play.lastPlayed.value).Some?
  }

  predicate AllDated(rows: seq<Row>) { forall i :: 0 <= i < |rows| ==> Dated(rows[i]) }

  predicate DistinctKeys(rows: seq<Row>) {
    forall i, j :: 0 <= i < j < |rows| ==> rows[i].key != rows[j].key
  }

  /** A NULL date ranks below every date. */
  function DateRank(row: Row): (bool, int)
    requires Dated(row)
  {
    match row.play.lastPlayed
    case None => (false, 0)
    case Some(text) => (true, Instant(text).value)
  }

  predicate DateBelow(a: (bool, int), b: (bool, int)) { (!a.0 && b.0) || (a.0 == b.0 && a.1 < b.1) }

  /** Strictly worse by date, then play count, then position. */
  predicate RankBelow(a: Row, b: Row)
    requires Dated(a) && Dated(b)
  {
    || DateBelow(DateRank(a), DateRank(b))
    || (DateRank(a) == DateRank(b) &&
        (a.play.playCount < b.play.playCount ||
         (a.play.playCount == b.play.playCount && a.play.position < b.play.position)))
  }

  predicate RankEqual(a: Row, b: Row)
    requires Dated(a) && Dated(b)
  {
    DateRank(a) == DateRank(b) && a.play.playCount == b.play.playCount && a.play.position == b.play.position
  }

  /** `winner_order(a, b) < 0`: `b` is preferred; on a tie the lower key is. */
  predicate Loses(a: Row, b: Row)
    requires Dated(a) && Dated(b)
  {
    RankBelow(a, b) || (RankEqual(a, b) && TextLess(b.key, a.key))
  }

  lemma {:induction false} TextTotal(a: string, b: string)
    ensures a == b || TextLess(a, b) || TextLess(b, a)
    ensures !(TextLess(a, b) && TextLess(b, a))
  {
    if a != "" && b != "" {
      TextTotal(a[1..], b[1..]);
      assert a == [a[0]] + a[1..] && b == [b[0]] + b[1..];
    }
  }

  lemma {:induction false} TextTransitive(a: string, b: string, c: string)
    requires TextLess(a, b) && TextLess(b, c)
    ensures TextLess(a, c)
  {
    if a != "" && a[0] == b[0] == c[0] {
      TextTransitive(a[1..], b[1..], c[1..]);
    }
  }

  /** The winner rule is a strict total order on rows with distinct keys. */
  lemma LosesTotal(a: Row, b: Row)
    requires Dated(a) && Dated(b)
    ensures !(Loses(a, b) && Loses(b, a))
    ensures a.key != b.key ==> Loses(a, b) || Loses(b, a)
  {
    TextTotal(a.key, b.key);
  }

  lemma LosesTransitive(a: Row, b: Row, c: Row)
    requires Dated(a) && Dated(b) && Dated(c) && Loses(a, b) && Loses(b, c)
    ensures Loses(a, c)
  {
    if RankEqual(a, b) && RankEqual(b, c) {
      TextTransitive(c.key, b.key, a.key);
    }
  }

  /** Python's `max`: the first row no later row beats. */
  function FirstMax(rows: seq<Row>): (w: nat)
    requires |rows| > 0 && AllDated(rows)
    ensures w < |rows|
  {
    if |rows| == 1 then 0
    else
      var w := FirstMax(rows[..|rows| - 1]);
      if Loses(rows[w], rows[|rows| - 1]) then |rows| - 1 else w
  }

  /** Rust's `max_by`: the last of the greatest. */
  function LastMax(rows: seq<Row>): (w: nat)
    requires |rows| > 0 && AllDated(rows)
    ensures w < |rows|
  {
    if |rows| == 1 then 0
    else
      var w := LastMax(rows[..|rows| - 1]);
      if Loses(rows[|rows| - 1], rows[w]) then w else |rows| - 1
  }

  /** `w` beats every other row. */
  ghost predicate Wins(rows: seq<Row>, w: nat)
    requires AllDated(rows)
  {
    w < |rows| && forall i :: 0 <= i < |rows| && i != w ==> Loses(rows[i], rows[w])
  }

  /** One more row: it wins or the old winner does. */
  lemma ExtendWinner(front: seq<Row>, last: Row, m: nat)
    requires AllDated(front + [last]) && DistinctKeys(front + [last]) && AllDated(front) && Dated(last) && Wins(front, m)
    ensures if Loses(front[m], last) then Wins(front + [last], |front|) else Loses(last, front[m]) && Wins(front + [last], m)
  {
    var rows := front + [last];
    assert rows[m].key != rows[|front|].key;
    LosesTotal(front[m], last);
    if Loses(front[m], last) {
      forall i | 0 <= i < |rows| && i != |front|
        ensures Loses(rows[i], rows[|front|])
      {
        if i != m { LosesTransitive(front[i], front[m], last); }
      }
    }
  }

  lemma {:induction false} FirstMaxWins(rows: seq<Row>)
    requires |rows| > 0 && AllDated(rows) && DistinctKeys(rows)
    ensures Wins(rows, FirstMax(rows))
  {
    if |rows| > 1 {
      var front, last := rows[..|rows| - 1], rows[|rows| - 1];
      assert rows == front + [last];
      FirstMaxWins(front);
      ExtendWinner(front, last, FirstMax(front));
    }
  }

  lemma {:induction false} LastMaxWins(rows: seq<Row>)
    requires |rows| > 0 && AllDated(rows) && DistinctKeys(rows)
    ensures Wins(rows, LastMax(rows))
  {
    if |rows| > 1 {
      var front, last := rows[..|rows| - 1], rows[|rows| - 1];
      assert rows == front + [last];
      LastMaxWins(front);
      ExtendWinner(front, last, LastMax(front));
      LosesTotal(front[LastMax(front)], last);
    }
  }

  lemma WinnerUnique(rows: seq<Row>, v: nat, w: nat)
    requires AllDated(rows) && Wins(rows, v) && Wins(rows, w)
    ensures v == w
  {
    if v != w { LosesTotal(rows[v], rows[w]); }
  }

  /** Both implementations pick the same row, whatever order the rows come in. */
  lemma WinnerIndependent(rows: seq<Row>, other: seq<Row>)
    requires |rows| > 0 && AllDated(rows) && DistinctKeys(rows)
    requires AllDated(other) && DistinctKeys(other) && |other| > 0
    requires forall r :: r in rows <==> r in other
    ensures rows[FirstMax(rows)] == other[LastMax(other)] == other[FirstMax(other)] == rows[LastMax(rows)]
  {
    FirstMaxWins(rows);
    LastMaxWins(rows);
    FirstMaxWins(other);
    LastMaxWins(other);
    WinnerUnique(rows, FirstMax(rows), LastMax(rows));
    WinnerUnique(other, FirstMax(other), LastMax(other));
    var a, b := rows[FirstMax(rows)], other[FirstMax(other)];
    assert a in other && b in rows;
    if a != b {
      var i :| 0 <= i < |other| && other[i] == a;
      var j :| 0 <= j < |rows| && rows[j] == b;
      LosesTotal(a, b);
    }
  }

  // ----- harmonize ---------------------------------------------------------------------------------

  function Bit(v: int): int { if v == 0 then 0 else 1 }

  /** The nine columns as the repair writes them: booleans become 0 or 1, the date stays text. */
  function Copied(p: Play): Play {
    p.(favorite := Bit(p.favorite), played := Bit(p.played),
       likes := if p.likes.Some? then Some(Bit(p.likes.value)) else None)
  }

  /** Every date of a conflicting group parses; otherwise the source raises. */
  predicate Judgeable(rows: seq<Row>) { Conflicting(rows) ==> AllDated(rows) }

  /** What the repair makes of one row of a group. */
  function Repaired(rows: seq<Row>, row: Row): Row
    requires Judgeable(rows)
  {
    if !Conflicting(rows) then row
    else
      var winner := rows[FirstMax(rows)];
      if row.key == winner.key then row else row.(play := Copied(winner.play))
  }

  function Harmonize(rows: seq<Row>): (r: seq<Row>)
    requires Judgeable(rows)
    ensures |r| == |rows|
    ensures forall i :: 0 <= i < |rows| ==> r[i].key == rows[i].key && r[i].retention == rows[i].retention
  {
    if !Conflicting(rows) then rows
    else
      var w := FirstMax(rows);
      seq(|rows|, i requires 0 <= i < |rows| => if i == w then rows[i] else rows[i].(play := Copied(rows[w].play)))
  }

  /** Updating by position and updating by key are the same: keys are unique in a group. */
  lemma HarmonizeRepairs(rows: seq<Row>, i: nat)
    requires Judgeable(rows) && DistinctKeys(rows) && i < |rows|
    ensures Harmonize(rows)[i] == Repaired(rows, rows[i])
  {
    if Conflicting(rows) {
      var w := FirstMax(rows);
      assert i < w ==> rows[i].key != rows[w].key;
      assert w < i ==> rows[w].key != rows[i].key;
    }
  }

  /** The winner's two NOT NULL booleans already hold 0 or 1. */
  predicate Settled(p: Play) { p.favorite == Bit(p.favorite) && p.played == Bit(p.played) }

  /** The repaired group agrees exactly when the winner's booleans were 0 or 1. */
  lemma HarmonizedAgrees(rows: seq<Row>)
    requires Conflicting(rows) && AllDated(rows)
    ensures Conflicting(Harmonize(rows)) <==> !Settled(rows[FirstMax(rows)].play)
  {
    var w, h := FirstMax(rows), Harmonize(rows);
    if !Settled(rows[w].play) {
      var other := if w == 0 then 1 else 0;
      assert Disagree(h[w].play, h[other].play);
    } else {
      assert forall i :: 0 <= i < |h| ==> h[i].play == rows[w].play || h[i].play == Copied(rows[w].play);
    }
  }

  lemma HarmonizedDated(rows: seq<Row>)
    requires Conflicting(rows) && AllDated(rows)
    ensures AllDated(Harmonize(rows)) && (DistinctKeys(rows) ==> DistinctKeys(Harmonize(rows)))
  {
  }

  ghost predicate LowestKey(rows: seq<Row>, v: nat) {
    v < |rows| && forall i :: 0 <= i < |rows| && i != v ==> TextLess(rows[v].key, rows[i].key)
  }

  /** Every row holds `p`, as stored or as copied. */
  ghost predicate Uniform(h: seq<Row>, p: Play) {
    forall i :: 0 <= i < |h| ==> h[i].play == p || h[i].play == Copied(p)
  }

  /** In such a group all ranks tie, so the lowest key wins. */
  lemma UniformWinner(h: seq<Row>, p: Play)
    requires |h| > 0 && AllDated(h) && DistinctKeys(h) && Uniform(h, p)
    ensures LowestKey(h, FirstMax(h))
  {
    FirstMaxWins(h);
    var v := FirstMax(h);
    forall i | 0 <= i < |h| && i != v
      ensures TextLess(h[v].key, h[i].key)
    {
      assert Loses(h[i], h[v]) && RankEqual(h[i], h[v]);
    }
  }

  /** A second run over such a group writes the copied form on every row but its winner. */
  lemma UniformRerun(h: seq<Row>, p: Play, i: nat)
    requires Conflicting(h) && AllDated(h) && Uniform(h, p) && i < |h|
    ensures Harmonize(h)[i] == if i == FirstMax(h) then h[i] else h[i].(play := Copied(p))
  {
    assert Copied(Copied(p)) == Copied(p);
  }

  /**
   The repair is idempotent exactly when the winner's booleans were 0 or 1, or the winner
   also has the lowest key and so wins again.
   */
  lemma HarmonizeIdempotent(rows: seq<Row>)
    requires Conflicting(rows) && AllDated(rows) && DistinctKeys(rows)
    ensures AllDated(Harmonize(rows))
    ensures Harmonize(Harmonize(rows)) == Harmonize(rows) <==>
            Settled(rows[FirstMax(rows)].play) || LowestKey(rows, FirstMax(rows))
  {
    var w, h := FirstMax(rows), Harmonize(rows);
    var p := rows[w].play;
    HarmonizedDated(rows);
    HarmonizedAgrees(rows);
    assert Uniform(h, p) && h[w].play == p && forall i :: 0 <= i < |h| && i != w ==> h[i].play == Copied(p);
    if Conflicting(h) {
      UniformWinner(h, p);
      Reharmonized(h, p, w, FirstMax(h));
      LowestKeys(rows, h, FirstMax(h));
    }
  }

  lemma LowestKeys(rows: seq<Row>, h: seq<Row>, v: nat)
    requires |rows| == |h| && LowestKey(h, v) && forall i :: 0 <= i < |h| ==> h[i].key == rows[i].key
    ensures forall w :: LowestKey(rows, w) <==> w == v
  {
    forall w: nat | w != v && LowestKey(rows, w)
      ensures false
    {
      TextTotal(rows[v].key, rows[w].key);
    }
  }

  lemma Reharmonized(h: seq<Row>, p: Play, w: nat, v: nat)
    requires Conflicting(h) && AllDated(h) && Uniform(h, p) && v == FirstMax(h)
    requires w < |h| && h[w].play == p && (forall i :: 0 <= i < |h| && i != w ==> h[i].play == Copied(p)) && !Settled(p)
    ensures Harmonize(h) == h <==> v == w
  {
    UniformRerun(h, p, w);
    if v == w {
      forall i: nat | i < |h|
        ensures Harmonize(h)[i] == h[i]
      {
        UniformRerun(h, p, i);
      }
      assert Harmonize(h) == h;
    }
  }

  // ----- the row order does not matter -------------------------------------------------------------

  lemma SameRows(p: seq<Row>, q: seq<Row>)
    requires multiset(p) == multiset(q)
    ensures |p| == |q| && forall r :: r in p <==> r in q
  {
    assert |multiset(p)| == |p| && |multiset(q)| == |q|;
    assert forall r :: r in p <==> r in multiset(p);
  }

  lemma SameConflict(p: seq<Row>, q: seq<Row>)
    requires multiset(p) == multiset(q) && Conflicting(p)
    ensures Conflicting(q)
  {
    SameRows(p, q);
    var i, j :| 0 <= i < |p| && 0 <= j < |p| && Disagree(p[i].play, p[j].play);
    assert p[i] in q && p[j] in q;
  }

  lemma SameVerdict(p: seq<Row>, q: seq<Row>)
    requires multiset(p) == multiset(q) && DistinctKeys(p) && DistinctKeys(q) && Judgeable(p)
    ensures Judgeable(q) && (Conflicting(p) <==> Conflicting(q))
    ensures Conflicting(p) ==> p[FirstMax(p)] == q[FirstMax(q)]
  {
    SameRows(p, q);
    if Conflicting(q) {
      SameConflict(q, p);
      forall i | 0 <= i < |q| ensures Dated(q[i]) { assert q[i] in p; }
      WinnerIndependent(p, q);
    } else if Conflicting(p) {
      SameConflict(p, q);
    }
  }

  lemma HarmonizeMaps(rows: seq<Row>, f: Row -> Row)
    requires Judgeable(rows) && DistinctKeys(rows) && forall r :: f(r) == Repaired(rows, r)
    ensures Harmonize(rows) == Map(f, rows)
  {
    forall i: nat | i < |rows| ensures Harmonize(rows)[i] == Map(f, rows)[i] {
      HarmonizeRepairs(rows, i);
    }
  }

  /** Harmonizing commutes with permuting the rows of a group. */
  lemma HarmonizePermutes(p: seq<Row>, q: seq<Row>)
    requires multiset(p) == multiset(q) && DistinctKeys(p) && DistinctKeys(q) && Judgeable(p)
    ensures Judgeable(q) && multiset(Harmonize(p)) == multiset(Harmonize(q))
  {
    SameVerdict(p, q);
    var f := (r: Row) => Repaired(p, r);
    HarmonizeMaps(p, f);
    HarmonizeMaps(q, f);
    MapPermutes(f, p, q);
  }

  /** A play with only its count and its played flag set. */
  function Counted(playCount: int, played: int): Play {
    Play(None, 0, None, None, 0, playCount, played, None, None)
  }

  /** A winner that stores its played flag as 2 keeps the group in conflict, and a second repair changes it again. */
  lemma StoredTwoConflicts()
    ensures var rows := [Row("a", Counted(1, 0), Unset), Row("b", Counted(2, 2), Unset)];
            && Conflicting(rows) && AllDated(rows) && DistinctKeys(rows)
            && Conflicting(Harmonize(rows)) && AllDated(Harmonize(rows)) && Harmonize(Harmonize(rows)) != Harmonize(rows)
  {
    var rows := [Row("a", Counted(1, 0), Unset), Row("b", Counted(2, 2), Unset)];
    assert Disagree(rows[0].play, rows[1].play);
    assert rows[..1] == [rows[0]];
    assert FirstMax(rows[..1]) == 0;
    assert Loses(rows[0], rows[1]);
    assert FirstMax(rows) == 1;
    HarmonizedAgrees(rows);
    HarmonizeIdempotent(rows);
    assert TextLess(rows[0].key, rows[1].key);
  }
}

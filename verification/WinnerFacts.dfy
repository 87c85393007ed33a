/**
 What the winner rule and the repair mean for a group's rows, column by column, and the conflict
 test as the repair's query writes it (crates/ferrofin-core/src/adoption_repairs.rs
 `CONFLICTING_GROUPS`, `winner_order`, `harmonize_groups`).
 */
module WinnerFacts {
  import opened Options
  import opened Dates
  import opened Sequences
  import opened UserData

  // ----- the winner ----------------------------------------------------------------------------------

  /** The instant of the last play, if there was one. */
  function When(row: Row): Option<int> {
    match row.play.lastPlayed
    case None => None
    case Some(text) => Instant(text)
  }

  /** The winner is the latest play; among those the most played, then the furthest, then the lowest key. */
  lemma LatestPlayWins(rows: seq<Row>, r: Row)
    requires |rows| > 0 && AllDated(rows) && DistinctKeys(rows) && r in rows
    ensures var w := rows[FirstMax(rows)];
            && (When(r).Some? ==> When(w).Some? && When(r).value <= When(w).value)
            && (When(r) == When(w) ==> r.play.playCount <= w.play.playCount)
            && (When(r) == When(w) && r.play.playCount == w.play.playCount ==> r.play.position <= w.play.position)
            && (When(r) == When(w) && r.play.playCount == w.play.playCount && r.play.position == w.play.position ==>
                  r == w || TextLess(w.key, r.key))
  {
    FirstMaxWins(rows);
    var i :| 0 <= i < |rows| && rows[i] == r;
    if i != FirstMax(rows) {
      LoserIsWorse(rows[i], rows[FirstMax(rows)]);
    }
  }

  lemma RankIsWhen(row: Row)
    requires Dated(row)
    ensures row.play.lastPlayed.Some? <==> When(row).Some?
    ensures DateRank(row) == (When(row).Some?, if When(row).Some? then When(row).value else 0)
  {
  }

  lemma LoserIsWorse(r: Row, w: Row)
    requires Dated(r) && Dated(w) && Loses(r, w)
    ensures When(r).Some? ==> When(w).Some? && When(r).value <= When(w).value
    ensures When(r) == When(w) ==> r.play.playCount <= w.play.playCount
    ensures When(r) == When(w) && r.play.playCount == w.play.playCount ==> r.play.position <= w.play.position
    ensures When(r) == When(w) && r.play.playCount == w.play.playCount && r.play.position == w.play.position ==> TextLess(w.key, r.key)
  {
    RankIsWhen(r);
    RankIsWhen(w);
  }

  // ----- the repaired group ------------------------------------------------------------------------------

  /** A stored boolean as a bound one is written. */
  predicate WrittenAs(stored: int, written: int) {
    (stored == 0 ==> written == 0) && (stored != 0 ==> written == 1)
  }

  /** Every row but the winner takes the winner's nine columns, the date as its text; nothing else changes. */
  lemma HarmonizedColumns(rows: seq<Row>, i: nat)
    requires Judgeable(rows) && i < |rows|
    ensures Harmonize(rows)[i].key == rows[i].key && Harmonize(rows)[i].retention == rows[i].retention
    ensures !Conflicting(rows) ==> Harmonize(rows)[i] == rows[i]
    ensures Conflicting(rows) && i == FirstMax(rows) ==> Harmonize(rows)[i] == rows[i]
    ensures Conflicting(rows) && i != FirstMax(rows) ==>
              var now, w := Harmonize(rows)[i].play, rows[FirstMax(rows)].play;
              && now.audioStream == w.audioStream && now.subtitleStream == w.subtitleStream && now.lastPlayed == w.lastPlayed
              && now.position == w.position && now.playCount == w.playCount && now.rating == w.rating
              && WrittenAs(w.favorite, now.favorite) && WrittenAs(w.played, now.played)
              && (w.likes.None? <==> now.likes.None?) && (w.likes.Some? ==> WrittenAs(w.likes.value, now.likes.value))
  {
  }

  // ----- the query's conflict test ---------------------------------------------------------------------------

  function Min(s: seq<int>): int
    requires |s| > 0
  {
    if |s| == 1 then s[0] else var m := Min(s[1..]); if s[0] < m then s[0] else m
  }

  function Max(s: seq<int>): int
    requires |s| > 0
  {
    if |s| == 1 then s[0] else var m := Max(s[1..]); if s[0] > m then s[0] else m
  }

  /** MIN and MAX of a text column skip NULLs. */
  function MinText(s: seq<Option<string>>): Option<string> {
    if s == [] then None
    else
      var m := MinText(s[1..]);
      if s[0].None? then m else if m.None? || TextLess(s[0].value, m.value) then s[0] else m
  }

  function MaxText(s: seq<Option<string>>): Option<string> {
    if s == [] then None
    else
      var m := MaxText(s[1..]);
      if s[0].None? then m else if m.None? || TextLess(m.value, s[0].value) then s[0] else m
  }

  /** substr(s, 1, n) */
  function Start(s: string, n: nat): string { if |s| < n then s else s[..n] }

  /** A date padded to seven fraction digits, as the query writes it. */
  function Padded(date: string): string {
    if '.' !in date then date + ".0000000" else Start(date + "0000000", 27)
  }

  function Position(r: Row): int { r.play.position }
  function PlayCount(r: Row): int { r.play.playCount }
  function Played(r: Row): int { r.play.played }
  function Favorite(r: Row): int { r.play.favorite }

  /** MIN(column) <> MAX(column) */
  predicate Varies(rows: seq<Row>, column: Row -> int)
    requires |rows| > 0
  {
    Min(Map(column, rows)) != Max(Map(column, rows))
  }

  function PaddedDates(rows: seq<Row>): seq<Option<string>> {
    Map((r: Row) => if r.play.lastPlayed.Some? then Some(Padded(r.play.lastPlayed.value)) else None, rows)
  }

  /** The HAVING clause. */
  predicate Selected(rows: seq<Row>) {
    && |rows| > 1
    && (|| Varies(rows, Position)
        || Varies(rows, PlayCount)
        || Varies(rows, Played)
        || Varies(rows, Favorite)
        || MinText(PaddedDates(rows)) != MaxText(PaddedDates(rows)))
  }

  lemma {:induction false} MinMaxBound(s: seq<int>, i: nat)
    requires i < |s|
    ensures Min(s) <= s[i] <= Max(s)
  {
    if |s| > 1 {
      MinMaxBound(s[1..], if i == 0 then 0 else i - 1);
    }
  }

  lemma {:induction false} MinMaxMembers(s: seq<int>)
    requires |s| > 0
    ensures Min(s) in s && Max(s) in s
  {
    if |s| > 1 { MinMaxMembers(s[1..]); }
  }

  /** The least and the greatest value differ exactly when two values do. */
  lemma SpreadIff(s: seq<int>)
    requires |s| > 0
    ensures Min(s) != Max(s) <==> exists i, j :: 0 <= i < |s| && 0 <= j < |s| && s[i] != s[j]
  {
    MinMaxMembers(s);
    if i, j :| 0 <= i < |s| && 0 <= j < |s| && s[i] != s[j] {
      MinMaxBound(s, i);
      MinMaxBound(s, j);
    }
  }

  lemma {:induction false} TextMembers(s: seq<Option<string>>)
    ensures MinText(s).Some? ==> MinText(s) in s && MaxText(s) in s && MaxText(s).Some?
    ensures MinText(s).None? ==> MaxText(s).None? && forall i :: 0 <= i < |s| ==> s[i].None?
  {
    if s != [] { TextMembers(s[1..]); }
  }

  /** Nothing is below the least text or above the greatest. */
  lemma {:induction false} TextBound(s: seq<Option<string>>, i: nat)
    requires i < |s| && s[i].Some?
    ensures MinText(s).Some? && MaxText(s).Some?
    ensures MinText(s) == s[i] || TextLess(MinText(s).value, s[i].value)
    ensures MaxText(s) == s[i] || TextLess(s[i].value, MaxText(s).value)
  {
    TextMembers(s[1..]);
    if i > 0 {
      TextBound(s[1..], i - 1);
      if s[0].Some? {
        var low, high := MinText(s[1..]).value, MaxText(s[1..]).value;
        if TextLess(s[0].value, low) && low != s[i].value { TextTransitive(s[0].value, low, s[i].value); }
        if TextLess(high, s[0].value) && high != s[i].value { TextTransitive(s[i].value, high, s[0].value); }
      }
    } else if MinText(s[1..]).Some? {
      TextTotal(s[0].value, MinText(s[1..]).value);
      TextTotal(s[0].value, MaxText(s[1..]).value);
    }
  }

  lemma TextSpreadIff(s: seq<Option<string>>)
    ensures MinText(s) != MaxText(s) <==>
            exists i, j :: 0 <= i < |s| && 0 <= j < |s| && s[i].Some? && s[j].Some? && s[i] != s[j]
  {
    TextMembers(s);
    if i, j :| 0 <= i < |s| && 0 <= j < |s| && s[i].Some? && s[j].Some? && s[i] != s[j] {
      TextBound(s, i);
      TextBound(s, j);
      if MinText(s) == MaxText(s) {
        TextTotal(MinText(s).value, s[i].value);
        TextTotal(MinText(s).value, s[j].value);
      }
    }
  }

  lemma PaddedIsTickText(date: string)
    ensures Padded(date) == TickText(date)
  {
    assert Zeros(7) == "0000000";
  }

  /** A column's values differ exactly when two rows do in it. */
  lemma ColumnSpread(rows: seq<Row>, column: Row -> int)
    requires |rows| > 0
    ensures Varies(rows, column) <==> exists i, j :: 0 <= i < |rows| && 0 <= j < |rows| && column(rows[i]) != column(rows[j])
  {
    var s := Map(column, rows);
    SpreadIff(s);
    if i, j :| 0 <= i < |s| && 0 <= j < |s| && s[i] != s[j] {
      assert column(rows[i]) != column(rows[j]);
    }
    if i, j :| 0 <= i < |rows| && 0 <= j < |rows| && column(rows[i]) != column(rows[j]) {
      assert s[i] != s[j];
    }
  }

  lemma DateSpread(rows: seq<Row>)
    ensures MinText(PaddedDates(rows)) != MaxText(PaddedDates(rows)) <==>
            exists i, j :: 0 <= i < |rows| && 0 <= j < |rows| && DatesDisagree(rows[i].play.lastPlayed, rows[j].play.lastPlayed)
  {
    var s := PaddedDates(rows);
    TextSpreadIff(s);
    forall date ensures Padded(date) == TickText(date) {
      PaddedIsTickText(date);
    }
    if i, j :| 0 <= i < |s| && 0 <= j < |s| && s[i].Some? && s[j].Some? && s[i] != s[j] {
      assert DatesDisagree(rows[i].play.lastPlayed, rows[j].play.lastPlayed);
    }
    if i, j :| 0 <= i < |rows| && 0 <= j < |rows| && DatesDisagree(rows[i].play.lastPlayed, rows[j].play.lastPlayed) {
      assert s[i].Some? && s[j].Some? && s[i] != s[j];
    }
  }

  /** The query selects exactly the groups the gate calls conflicting. */
  lemma SelectedIffConflicting(rows: seq<Row>)
    ensures Selected(rows) <==> Conflicting(rows)
  {
    if |rows| > 1 {
      ColumnSpread(rows, Position);
      ColumnSpread(rows, PlayCount);
      ColumnSpread(rows, Played);
      ColumnSpread(rows, Favorite);
      DateSpread(rows);
      assert forall i, j :: 0 <= i < |rows| && 0 <= j < |rows| ==>
        (Disagree(rows[i].play, rows[j].play) <==>
           || rows[i].play.position != rows[j].play.position || rows[i].play.playCount != rows[j].play.playCount
           || rows[i].play.played != rows[j].play.played || rows[i].play.favorite != rows[j].play.favorite
           || DatesDisagree(rows[i].play.lastPlayed, rows[j].play.lastPlayed));
    }
  }
}

/**
 The `UserData` table, in rowid order, and the one-time harmonize repair over it: conflicting
 (item, user) groups are paged in key order and repaired one page per transaction
 (crates/ferrofin-core/src/adoption_repairs.rs `harmonize_in_partitions`).
 */
module UserDataTable {
  import opened Options
  import opened Sequences
  import opened Orphans
  import opened UserData

  /** The placeholder item that keeps detached history. */
  const PLACEHOLDER: Id := 1

  datatype Group = Group(item: Id, user: Id)

  datatype Record = Record(item: Id, user: Id, row: Row) {
    function Of(): Group { Group(item, user) }
    function Name(): RowName { RowName(item, user, row.key) }
  }

  /** A row's primary key. */
  datatype RowName = RowName(item: Id, user: Id, key: string)

  /** The primary key holds. */
  ghost predicate Keyed(t: seq<Record>) {
    forall i, j :: 0 <= i < j < |t| ==> t[i].Name() != t[j].Name()
  }

  /** The rows of one (item, user) group, in rowid order. */
  function GroupRows(t: seq<Record>, g: Group): seq<Row> {
    if t == [] then []
    else GroupRows(t[..|t| - 1], g) + (if t[|t| - 1].Of() == g then [t[|t| - 1].row] else [])
  }

  lemma GroupRowsAppend(t: seq<Record>, r: Record, g: Group)
    ensures GroupRows(t + [r], g) == GroupRows(t, g) + (if r.Of() == g then [r.row] else [])
  {
    assert (t + [r])[..|t|] == t;
  }

  lemma {:induction false} GroupRowsMembers(t: seq<Record>, g: Group, row: Row)
    ensures row in GroupRows(t, g) <==> Record(g.item, g.user, row) in t
  {
    if t != [] {
      GroupRowsMembers(t[..|t| - 1], g, row);
      assert t == t[..|t| - 1] + [t[|t| - 1]];
    }
  }

  lemma {:induction false} GroupRowsEmpty(t: seq<Record>, g: Group)
    requires forall r :: r in t ==> r.Of() != g
    ensures GroupRows(t, g) == []
  {
    if t != [] { GroupRowsEmpty(t[..|t| - 1], g); }
  }

  lemma {:induction false} GroupRowsDistinct(t: seq<Record>, g: Group)
    requires Keyed(t)
    ensures DistinctKeys(GroupRows(t, g))
  {
    if t != [] {
      var front, last := t[..|t| - 1], t[|t| - 1];
      GroupRowsDistinct(front, g);
      if last.Of() == g {
        forall i | 0 <= i < |GroupRows(front, g)|
          ensures GroupRows(front, g)[i].key != last.row.key
        {
          GroupRowsMembers(front, g, GroupRows(front, g)[i]);
          var j :| 0 <= j < |front| && front[j] == Record(g.item, g.user, GroupRows(front, g)[i]);
          assert t[j].Name() != t[|t| - 1].Name();
        }
      }
    }
  }

  /** Changing the rows of a group in place changes what the group holds, row by row. */
  lemma {:induction false} GroupRowsMap(t: seq<Record>, f: Record -> Record, g: Group, h: Row -> Row)
    requires forall r :: f(r).Of() == r.Of()
    requires forall r: Record :: r.Of() == g ==> f(r).row == h(r.row)
    ensures GroupRows(Map(f, t), g) == Map(h, GroupRows(t, g))
  {
    if t != [] {
      var front, last := t[..|t| - 1], t[|t| - 1];
      GroupRowsMap(front, f, g, h);
      assert Map(f, t)[..|t| - 1] == Map(f, front);
      var mine := if last.Of() == g then [last.row] else [];
      assert GroupRows(t, g) == GroupRows(front, g) + mine;
      MapConcat(h, GroupRows(front, g), mine);
    }
  }

  // ----- the repair as one step --------------------------------------------------------------

  ghost predicate AllJudgeable(t: seq<Record>) {
    forall g: Group :: g.item != PLACEHOLDER ==> Judgeable(GroupRows(t, g))
  }

  /** Group order is the key order of the paging query. */
  predicate Before(g: Group, h: Group) { g.item < h.item || (g.item == h.item && g.user < h.user) }

  /** How far a run has got: every group up to and including `last`, or none yet. */
  predicate Reached(bound: Option<Group>, g: Group) { bound.Some? && !Before(bound.value, g) }

  /** One record after the groups `bound` has reached were repaired. */
  ghost function RepairedRecord(t: seq<Record>, bound: Option<Group>, r: Record): (q: Record)
    requires AllJudgeable(t)
    ensures q.Name() == r.Name() && q.row.retention == r.row.retention
  {
    if r.item == PLACEHOLDER || !Reached(bound, r.Of()) then r
    else r.(row := Repaired(GroupRows(t, r.Of()), r.row))
  }

  ghost function RepairedUpTo(t: seq<Record>, bound: Option<Group>): (u: seq<Record>)
    requires AllJudgeable(t)
    ensures |u| == |t| && forall i :: 0 <= i < |t| ==> u[i] == RepairedRecord(t, bound, t[i])
  {
    Map((r: Record) => RepairedRecord(t, bound, r), t)
  }

  /** Every group but the placeholder's, repaired once. */
  ghost function HarmonizeAll(t: seq<Record>): (u: seq<Record>)
    requires AllJudgeable(t)
    ensures |u| == |t|
  {
    Map((r: Record) => if r.item == PLACEHOLDER then r else r.(row := Repaired(GroupRows(t, r.Of()), r.row)), t)
  }

  /** What a partly repaired table holds in each group. */
  lemma GroupAfter(t: seq<Record>, bound: Option<Group>, g: Group)
    requires Keyed(t) && AllJudgeable(t) && g.item != PLACEHOLDER
    ensures GroupRows(RepairedUpTo(t, bound), g) ==
            if Reached(bound, g) then Harmonize(GroupRows(t, g)) else GroupRows(t, g)
  {
    var f := (r: Record) => RepairedRecord(t, bound, r);
    var rows := GroupRows(t, g);
    assert RepairedUpTo(t, bound) == Map(f, t);
    if Reached(bound, g) {
      var h := (row: Row) => Repaired(rows, row);
      GroupRowsMap(t, f, g, h);
      GroupRowsDistinct(t, g);
      HarmonizeMaps(rows, h);
    } else {
      GroupRowsMap(t, f, g, (row: Row) => row);
      assert Map((row: Row) => row, rows) == rows;
    }
  }

  lemma KeyedAfter(t: seq<Record>, bound: Option<Group>)
    requires Keyed(t) && AllJudgeable(t)
    ensures Keyed(RepairedUpTo(t, bound)) && AllJudgeable(RepairedUpTo(t, bound))
  {
    var u := RepairedUpTo(t, bound);
    forall i, j | 0 <= i < j < |u|
      ensures u[i].Name() != u[j].Name()
    {
      assert t[i].Name() != t[j].Name();
    }
    forall g: Group | g.item != PLACEHOLDER
      ensures Judgeable(GroupRows(u, g))
    {
      GroupAfter(t, bound, g);
      if Conflicting(GroupRows(t, g)) { HarmonizedDated(GroupRows(t, g)); }
    }
  }

  // ----- interrupted and resumed --------------------------------------------------------------------

  /** Repairing the group again changes nothing: its winner's booleans are 0 or 1, or it wins again. */
  ghost predicate Stable(rows: seq<Row>)
    requires Judgeable(rows)
  {
    Conflicting(rows) ==> Settled(rows[FirstMax(rows)].play) || LowestKey(rows, FirstMax(rows))
  }

  /** Some of the stopped runs got as far as the group. */
  ghost predicate ReachedBySome(bounds: seq<Option<Group>>, g: Group) {
    exists i :: 0 <= i < |bounds| && Reached(bounds[i], g)
  }

  /** Every group some stopped run had reached is stable. */
  ghost predicate StableUpTo(t: seq<Record>, bounds: seq<Option<Group>>)
    requires AllJudgeable(t)
  {
    forall g: Group :: g.item != PLACEHOLDER && ReachedBySome(bounds, g) ==> Stable(GroupRows(t, g))
  }

  /** The table after one stopped run per bound, each starting over. */
  ghost function Stopped(t: seq<Record>, bounds: seq<Option<Group>>): (u: seq<Record>)
    requires Keyed(t) && AllJudgeable(t)
    ensures Keyed(u) && AllJudgeable(u) && |u| == |t| && forall i :: 0 <= i < |t| ==> u[i].Name() == t[i].Name()
    ensures forall i :: 0 <= i < |t| && t[i].item == PLACEHOLDER ==> u[i] == t[i]
    decreases |bounds|
  {
    if bounds == [] then t
    else
      KeyedAfter(t, bounds[0]);
      Stopped(RepairedUpTo(t, bounds[0]), bounds[1..])
  }

  lemma HarmonizeAllGroup(t: seq<Record>, g: Group)
    requires Keyed(t) && AllJudgeable(t) && g.item != PLACEHOLDER
    ensures GroupRows(HarmonizeAll(t), g) == Harmonize(GroupRows(t, g))
  {
    GroupAfter(t, Some(g), g);
    var rows := GroupRows(t, g);
    var f := (r: Record) => if r.item == PLACEHOLDER then r else r.(row := Repaired(GroupRows(t, r.Of()), r.row));
    var h := (row: Row) => Repaired(rows, row);
    GroupRowsMap(t, f, g, h);
    GroupRowsDistinct(t, g);
    HarmonizeMaps(rows, h);
  }

  /** A group harmonized twice is the group harmonized once exactly when it is stable. */
  lemma StableIff(rows: seq<Row>)
    requires Judgeable(rows) && DistinctKeys(rows)
    ensures Judgeable(Harmonize(rows)) && (Harmonize(Harmonize(rows)) == Harmonize(rows) <==> Stable(rows))
  {
    if Conflicting(rows) {
      HarmonizedDated(rows);
      HarmonizeIdempotent(rows);
    }
  }

  /** A repaired group is stable: what still conflicts is won by the lowest key. */
  lemma HarmonizedStable(rows: seq<Row>)
    requires Judgeable(rows) && DistinctKeys(rows)
    ensures Judgeable(Harmonize(rows)) && Stable(Harmonize(rows))
  {
    if Conflicting(rows) {
      HarmonizedDated(rows);
      var h, p := Harmonize(rows), rows[FirstMax(rows)].play;
      assert Uniform(h, p);
      UniformWinner(h, p);
    }
  }

  /** A third repair never differs from the second. */
  lemma ThirdRepair(rows: seq<Row>)
    requires Judgeable(rows) && DistinctKeys(rows)
    ensures Judgeable(Harmonize(rows)) && Judgeable(Harmonize(Harmonize(rows)))
    ensures Harmonize(Harmonize(Harmonize(rows))) == Harmonize(Harmonize(rows))
  {
    HarmonizedStable(rows);
    HarmonizedKeys(rows);
    StableIff(Harmonize(rows));
  }

  /** A group the stopped runs had reached is harmonized twice in all, any other once. */
  lemma {:induction false} StoppedGroup(t: seq<Record>, bounds: seq<Option<Group>>, g: Group)
    requires Keyed(t) && AllJudgeable(t) && g.item != PLACEHOLDER
    ensures Judgeable(Harmonize(GroupRows(t, g)))
    ensures GroupRows(HarmonizeAll(Stopped(t, bounds)), g) ==
            if ReachedBySome(bounds, g) then Harmonize(Harmonize(GroupRows(t, g))) else Harmonize(GroupRows(t, g))
    decreases |bounds|
  {
    var rows := GroupRows(t, g);
    GroupRowsDistinct(t, g);
    HarmonizedKeys(rows);
    if bounds == [] {
      HarmonizeAllGroup(t, g);
    } else {
      KeyedAfter(t, bounds[0]);
      GroupAfter(t, bounds[0], g);
      StoppedGroup(RepairedUpTo(t, bounds[0]), bounds[1..], g);
      ReachedLater(bounds, g);
      ThirdRepair(rows);
    }
  }

  lemma ReachedLater(bounds: seq<Option<Group>>, g: Group)
    requires bounds != []
    ensures ReachedBySome(bounds, g) <==> Reached(bounds[0], g) || ReachedBySome(bounds[1..], g)
  {
    if i :| 0 <= i < |bounds| && Reached(bounds[i], g) {
      assert i > 0 ==> bounds[1..][i - 1] == bounds[i];
    }
    if i :| 0 <= i < |bounds[1..]| && Reached(bounds[1..][i], g) {
      assert bounds[i + 1] == bounds[1..][i];
    }
  }

  /** The resumed run leaves a group as the undisturbed one does exactly when it was stable or never reached. */
  lemma ResumedGroup(t: seq<Record>, bounds: seq<Option<Group>>, g: Group)
    requires Keyed(t) && AllJudgeable(t) && g.item != PLACEHOLDER
    ensures GroupRows(HarmonizeAll(Stopped(t, bounds)), g) == GroupRows(HarmonizeAll(t), g) <==>
            (ReachedBySome(bounds, g) ==> Stable(GroupRows(t, g)))
  {
    StoppedGroup(t, bounds, g);
    HarmonizeAllGroup(t, g);
    GroupRowsDistinct(t, g);
    StableIff(GroupRows(t, g));
  }

  /** A table is its names and its groups. */
  lemma SameByGroups(u: seq<Record>, v: seq<Record>)
    requires |u| == |v| && Keyed(v) && forall i :: 0 <= i < |u| ==> u[i].Name() == v[i].Name()
    requires forall i :: 0 <= i < |u| && u[i].item == PLACEHOLDER ==> u[i] == v[i]
    requires forall g: Group :: g.item != PLACEHOLDER ==> GroupRows(u, g) == GroupRows(v, g)
    ensures u == v
  {
    forall i | 0 <= i < |u| ensures u[i] == v[i] {
      if u[i].item != PLACEHOLDER {
        var g := u[i].Of();
        GroupRowsMembers(u, g, u[i].row);
        GroupRowsMembers(v, g, u[i].row);
        assert u[i] == Record(g.item, g.user, u[i].row) && u[i] in u;
        var j :| 0 <= j < |v| && v[j] == u[i];
        SameName(v, i, j);
      }
    }
  }

  lemma SameName(t: seq<Record>, i: nat, j: nat)
    requires Keyed(t) && i < |t| && j < |t| && t[i].Name() == t[j].Name()
    ensures i == j
  {
    assert !(i < j) && !(j < i);
  }

  /** Repairing all keeps the names and the placeholder's rows. */
  lemma HarmonizeAllNames(t: seq<Record>)
    requires Keyed(t) && AllJudgeable(t)
    ensures Keyed(HarmonizeAll(t)) && forall i :: 0 <= i < |t| ==> HarmonizeAll(t)[i].Name() == t[i].Name()
    ensures forall i :: 0 <= i < |t| && t[i].item == PLACEHOLDER ==> HarmonizeAll(t)[i] == t[i]
  {
    var u := HarmonizeAll(t);
    forall i, j | 0 <= i < j < |u| ensures u[i].Name() != u[j].Name() {
      assert t[i].Name() != t[j].Name();
    }
  }

  /**
   However many boots stopped, each after any page, the one that finishes starts over and ends with
   the result of an undisturbed run exactly when every group some of them had reached is stable.
   */
  lemma ResumedRepair(t: seq<Record>, bounds: seq<Option<Group>>)
    requires Keyed(t) && AllJudgeable(t)
    ensures HarmonizeAll(Stopped(t, bounds)) == HarmonizeAll(t) <==> StableUpTo(t, bounds)
  {
    var u := Stopped(t, bounds);
    forall g: Group | g.item != PLACEHOLDER
      ensures GroupRows(HarmonizeAll(u), g) == GroupRows(HarmonizeAll(t), g) <==> (ReachedBySome(bounds, g) ==> Stable(GroupRows(t, g)))
    {
      ResumedGroup(t, bounds, g);
    }
    if StableUpTo(t, bounds) {
      HarmonizeAllNames(t);
      HarmonizeAllNames(u);
      SameByGroups(HarmonizeAll(u), HarmonizeAll(t));
    }
  }

  lemma HarmonizedKeys(rows: seq<Row>)
    requires Judgeable(rows) && DistinctKeys(rows)
    ensures Judgeable(Harmonize(rows)) && DistinctKeys(Harmonize(rows))
  {
    if Conflicting(rows) { HarmonizedDated(rows); }
  }
}

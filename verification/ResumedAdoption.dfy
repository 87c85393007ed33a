/**
 Adoption whose repair was stopped any number of times, each time after any page, and finished by a
 later boot, against the watch-history gate.
 */
module ResumedAdoption {
  import opened Options
  import opened Orphans
  import opened UserData
  import opened UserDataTable
  import opened OrphanMigration
  import opened WatchHistory
  import opened AdoptionGate

  /** The database after migration 0042, a repair stopped at each bounds in turn, and a finished one. */
  ghost function Resumed(t: seq<Record>, orphans: set<Id>, now: string, bounds: seq<Option<Group>>): seq<Record>
    requires Keyed(t) && LiveJudgeable(t, orphans)
  {
    MigrateJudgeable(t, orphans, At(now));
    MigrateKeyed(t, orphans, At(now));
    var m := Migrate(t, orphans, At(now));
    HarmonizeAll(Stopped(m, bounds))
  }

  /** Every surviving item's group some stopped repair had reached is stable. */
  ghost predicate LiveStable(t: seq<Record>, orphans: set<Id>, bounds: seq<Option<Group>>)
    requires LiveJudgeable(t, orphans)
  {
    forall g: Group :: Live(orphans, g.item) && ReachedBySome(bounds, g) ==> Stable(GroupRows(t, g))
  }

  lemma StableAfterMigration(t: seq<Record>, orphans: set<Id>, mark: Retention, bounds: seq<Option<Group>>)
    requires Keyed(t) && LiveJudgeable(t, orphans) && AllJudgeable(Migrate(t, orphans, mark)) && LiveStable(t, orphans, bounds)
    ensures StableUpTo(Migrate(t, orphans, mark), bounds)
  {
    var m := Migrate(t, orphans, mark);
    forall g: Group | g.item != PLACEHOLDER && ReachedBySome(bounds, g) ensures Stable(GroupRows(m, g)) {
      if Live(orphans, g.item) {
        MigrateGroup(t, orphans, mark, g);
      } else {
        forall r | r in m ensures r.Of() != g {
          MigrateLeaves(t, orphans, mark, r);
        }
        GroupRowsEmpty(m, g);
      }
    }
  }

  /** Two lists of rows with the same distinct keys hold the same rows only if they are the same. */
  lemma MissingRow(p: seq<Row>, q: seq<Row>) returns (n: nat)
    requires |p| == |q| && p != q && DistinctKeys(q) && forall i :: 0 <= i < |p| ==> p[i].key == q[i].key
    ensures n < |p| && p[n] !in q
  {
    n :| 0 <= n < |p| && p[n] != q[n];
    forall i | 0 <= i < |q| ensures q[i] != p[n] {
      assert i < n ==> q[i].key != q[n].key;
      assert n < i ==> q[n].key != q[i].key;
    }
  }

  /** Harmonized twice, a group keeps its keys, and its rows exactly when it is stable. */
  lemma TwiceHarmonized(rows: seq<Row>)
    requires Judgeable(rows) && DistinctKeys(rows)
    ensures Judgeable(Harmonize(rows)) && DistinctKeys(Harmonize(rows)) && DistinctKeys(Harmonize(Harmonize(rows)))
    ensures Harmonize(Harmonize(rows)) == Harmonize(rows) <==> Stable(rows)
  {
    HarmonizedKeys(rows);
    HarmonizedKeys(Harmonize(rows));
    StableIff(rows);
  }

  lemma ResumedRows(t: seq<Record>, orphans: set<Id>, now: string, bounds: seq<Option<Group>>, g: Group)
    requires Keyed(t) && LiveJudgeable(t, orphans) && Live(orphans, g.item) && ReachedBySome(bounds, g)
    ensures Judgeable(Harmonize(GroupRows(t, g)))
    ensures GroupRows(Resumed(t, orphans, now, bounds), g) == Harmonize(Harmonize(GroupRows(t, g)))
  {
    MigrateJudgeable(t, orphans, At(now));
    MigrateKeyed(t, orphans, At(now));
    MigrateGroup(t, orphans, At(now), g);
    StoppedGroup(Migrate(t, orphans, At(now)), bounds, g);
  }

  /** An unstable group loses a row of its single repair. */
  lemma UnstableRow(t: seq<Record>, orphans: set<Id>, now: string, bounds: seq<Option<Group>>, g: Group) returns (n: nat)
    requires Keyed(t) && LiveJudgeable(t, orphans) && Live(orphans, g.item) && ReachedBySome(bounds, g) && !Stable(GroupRows(t, g))
    ensures n < |GroupRows(t, g)| && Harmonize(GroupRows(t, g))[n] !in GroupRows(Resumed(t, orphans, now, bounds), g)
  {
    var rows := GroupRows(t, g);
    GroupRowsDistinct(t, g);
    ResumedRows(t, orphans, now, bounds, g);
    TwiceHarmonized(rows);
    n := MissingRow(Harmonize(rows), Harmonize(Harmonize(rows)));
  }

  /** So a predicted row is lost. */
  lemma UnstableLost(t: seq<Record>, orphans: set<Id>, now: string, bounds: seq<Option<Group>>, g: Group)
    requires Keyed(t) && LiveJudgeable(t, orphans) && Live(orphans, g.item) && ReachedBySome(bounds, g) && !Stable(GroupRows(t, g))
    ensures exists r :: r in RepairedLive(t, orphans) && r !in Resumed(t, orphans, now, bounds)
  {
    var n := UnstableRow(t, orphans, now, bounds, g);
    var row := Harmonize(GroupRows(t, g))[n];
    PredictedRow(t, orphans, g, n);
    GroupRowsMembers(Resumed(t, orphans, now, bounds), g, row);
    assert Record(g.item, g.user, row) !in Resumed(t, orphans, now, bounds);
  }

  /** Every harmonized row of a surviving group is predicted. */
  lemma PredictedRow(t: seq<Record>, orphans: set<Id>, g: Group, n: nat)
    requires Keyed(t) && LiveJudgeable(t, orphans) && Live(orphans, g.item) && n < |GroupRows(t, g)|
    ensures Record(g.item, g.user, Harmonize(GroupRows(t, g))[n]) in RepairedLive(t, orphans)
  {
    var rows := GroupRows(t, g);
    GroupRowsDistinct(t, g);
    HarmonizeRepairs(rows, n);
    GroupRowsMembers(t, g, rows[n]);
    var q := Record(g.item, g.user, rows[n]);
    assert q in t && q.Of() == g;
    assert Record(g.item, g.user, Harmonize(rows)[n]) == q.(row := Repaired(GroupRows(t, q.Of()), q.row));
  }

  /** The resumed adoption preserves the history exactly when every group reached was stable. */
  lemma ResumedPreserves(t: seq<Record>, orphans: set<Id>, now: string, bounds: seq<Option<Group>>)
    requires Keyed(t) && LiveJudgeable(t, orphans) && PLACEHOLDER !in orphans
    ensures Preserves(t, orphans, Resumed(t, orphans, now, bounds)) <==> LiveStable(t, orphans, bounds)
  {
    if LiveStable(t, orphans, bounds) {
      MigrateJudgeable(t, orphans, At(now));
      MigrateKeyed(t, orphans, At(now));
      StableAfterMigration(t, orphans, At(now), bounds);
      ResumedRepair(Migrate(t, orphans, At(now)), bounds);
      assert Resumed(t, orphans, now, bounds) == Adopted(t, orphans, now);
      AdoptionPreserves(t, orphans, now);
    } else {
      var g: Group :| Live(orphans, g.item) && ReachedBySome(bounds, g) && !Stable(GroupRows(t, g));
      UnstableLost(t, orphans, now, bounds, g);
    }
  }

  /** A stopped and resumed adoption passes the gate exactly when every group a stopped boot reached was stable. */
  lemma ResumedPassesGate(lib: Library, schema: Schema, t: seq<Record>, now: string, bounds: seq<Option<Group>>, b: Snapshot, a: Snapshot)
    requires PLACEHOLDER in lib && lib[PLACEHOLDER] == Item(None, None) && Keyed(t)
    requires LiveJudgeable(t, OrphanedItems(lib, schema))
    requires Lists(b.rows, Predicted(t, OrphanedItems(lib, schema), Mark(true))) && b.moved == MovedNames(t, OrphanedItems(lib, schema))
    requires Lists(a.rows, set r | r in Resumed(t, OrphanedItems(lib, schema), now, bounds))
    requires Lists(a.detached, Detached(Resumed(t, OrphanedItems(lib, schema), now, bounds)))
    ensures Accepts(b, a) <==> LiveStable(t, OrphanedItems(lib, schema), bounds)
  {
    var orphans := OrphanedItems(lib, schema);
    PlaceholderSafe(lib, schema);
    ResumedPreserves(t, orphans, now, bounds);
    GateExact(t, orphans, b, Resumed(t, orphans, now, bounds), a);
  }
}

/**
 The gate against the thing it judges: `compare_db` accepts exactly the databases that still
 hold what adoption must leave, and adoption (migration 0042, then the harmonize repair)
 leaves such a database.
 */
module AdoptionGate {
  import opened Options
  import opened Orphans
  import opened UserData
  import opened UserDataTable
  import opened OrphanMigration
  import opened WatchHistory

  // ----- compare_db ---------------------------------------------------------------------------

  /** Moved rows are looked up with their date reduced to set or unset. */
  function Store(before: Snapshot, after: Snapshot, n: RowName): map<RowName, Row> {
    if n in before.moved then after.detached else after.rows
  }

  function Missing(before: Snapshot, after: Snapshot): set<RowName> {
    set n | n in before.rows && n !in Store(before, after, n)
  }

  function Changed(before: Snapshot, after: Snapshot): set<RowName> {
    set n | n in before.rows && n in Store(before, after, n) && Store(before, after, n)[n] != before.rows[n]
  }

  ghost predicate Accepts(before: Snapshot, after: Snapshot) {
    forall n :: n in before.rows ==> n in Store(before, after, n) && Store(before, after, n)[n] == before.rows[n]
  }

  method CompareDb(before: Snapshot, after: Snapshot) returns (missing: nat, changed: nat)
    ensures missing == |Missing(before, after)| && changed == |Changed(before, after)|
  {
    missing, changed := 0, 0;
    var rest := before.rows.Keys;
    ghost var gone, other := Missing(before, after), Changed(before, after);
    assert gone - rest == {} && other - rest == {};
    while rest != {}
      invariant rest <= before.rows.Keys
      invariant missing == |gone - rest| && changed == |other - rest|
      decreases rest
    {
      var n :| n in rest;
      Uncover(gone, rest, n);
      Uncover(other, rest, n);
      rest := rest - {n};
      var stored := Store(before, after, n);
      if n !in stored {
        missing := missing + 1;
      } else if before.rows[n] != stored[n] {
        changed := changed + 1;
      }
    }
    assert gone - rest == gone && other - rest == other;
  }

  lemma Uncover(s: set<RowName>, rest: set<RowName>, n: RowName)
    requires n in rest
    ensures |s - (rest - {n})| == |s - rest| + (if n in s then 1 else 0)
  {
    if n in s {
      assert s - (rest - {n}) == (s - rest) + {n};
    } else {
      assert s - (rest - {n}) == s - rest;
    }
  }

  /** No failure is counted exactly when every predicted row is found unchanged. */
  lemma AcceptsIff(before: Snapshot, after: Snapshot)
    ensures Accepts(before, after) <==> |Missing(before, after)| == 0 && |Changed(before, after)| == 0
  {
    if Accepts(before, after) {
      assert Missing(before, after) == {} && Changed(before, after) == {};
    } else {
      var n :| n in before.rows && !(n in Store(before, after, n) && Store(before, after, n)[n] == before.rows[n]);
      assert n in Missing(before, after) + Changed(before, after);
    }
  }

  // ----- exactly what the gate demands ------------------------------------------------------------

  /** A moved row is still there: same play state, some date. */
  ghost predicate MovedKept(after: seq<Record>, r: Record) {
    exists q :: q in after && q.Name() == r.Name() && q.row.play == r.row.play && q.row.retention != Unset
  }

  /** The table still holds everything adoption must leave. */
  ghost predicate Preserves(t: seq<Record>, orphans: set<Id>, after: seq<Record>)
    requires LiveJudgeable(t, orphans)
  {
    && (forall r :: r in RepairedLive(t, orphans) ==> r in after)
    && (forall r :: r in KeptRecords(t, orphans) ==> r in after)
    && (forall r :: r in MovedRecords(t, orphans, Mark(true)) ==> MovedKept(after, r))
  }

  lemma MovedByName(t: seq<Record>, orphans: set<Id>, r: Record)
    requires LiveJudgeable(t, orphans) && r in Predicted(t, orphans, Mark(true))
    ensures r.Name() in MovedNames(t, orphans) <==> r in MovedRecords(t, orphans, Mark(true))
  {
    if r.Name() in MovedNames(t, orphans) {
      var m :| m in MovedRecords(t, orphans, Mark(true)) && m.Name() == r.Name();
      var i: nat :| i < |t| && FirstOfSlot(t, orphans, i) && m == Moved(t, i, Mark(true));
      assert SlotOf(t[i]) == SlotOf(r);
      assert Taken(t, orphans, SlotOf(r));
    }
  }

  lemma MovedStored(after: seq<Record>, a: Snapshot, r: Record)
    requires Lists(a.detached, Detached(after)) && r.item == PLACEHOLDER && r.row.retention == Mark(true)
    ensures r.Name() in a.detached && a.detached[r.Name()] == r.row <==> MovedKept(after, r)
  {
    if r in Detached(after) {
      var q :| q in after && q.item == PLACEHOLDER && r == DateOnly(q);
      assert q.Name() == r.Name();
    }
    if MovedKept(after, r) {
      var q :| q in after && q.Name() == r.Name() && q.row.play == r.row.play && q.row.retention != Unset;
      assert DateOnly(q) == r;
    }
  }

  /** The gate passes exactly the tables that preserve the history; any lost or changed row fails it. */
  lemma GateExact(t: seq<Record>, orphans: set<Id>, b: Snapshot, after: seq<Record>, a: Snapshot)
    requires LiveJudgeable(t, orphans)
    requires Lists(b.rows, Predicted(t, orphans, Mark(true))) && b.moved == MovedNames(t, orphans)
    requires Lists(a.rows, set r | r in after) && Lists(a.detached, Detached(after))
    ensures Accepts(b, a) <==> Preserves(t, orphans, after)
  {
    var p := Predicted(t, orphans, Mark(true));
    forall r | r in p
      ensures r.Name() in b.rows && b.rows[r.Name()] == r.row
      ensures (r.Name() in Store(b, a, r.Name()) && Store(b, a, r.Name())[r.Name()] == r.row) <==>
              (if r in MovedRecords(t, orphans, Mark(true)) then MovedKept(after, r) else r in after)
    {
      MovedByName(t, orphans, r);
      if r in MovedRecords(t, orphans, Mark(true)) { MovedStored(after, a, r); }
    }
    forall n | n in b.rows
      ensures Record(n.item, n.user, b.rows[n]) in p && Record(n.item, n.user, b.rows[n]).Name() == n
    {
      assert Record(n.item, n.user, b.rows[n]).Name() == n;
    }
    if Preserves(t, orphans, after) {
      forall n | n in b.rows
        ensures n in Store(b, a, n) && Store(b, a, n)[n] == b.rows[n]
      {
        var r := Record(n.item, n.user, b.rows[n]);
        assert r in p;
      }
    }
    if Accepts(b, a) {
      forall r | r in p
        ensures if r in MovedRecords(t, orphans, Mark(true)) then MovedKept(after, r) else r in after
      {
        assert r.Name() in b.rows;
      }
      DisjointParts(t, orphans);
    }
  }

  lemma DisjointParts(t: seq<Record>, orphans: set<Id>)
    requires LiveJudgeable(t, orphans)
    ensures MovedRecords(t, orphans, Mark(true)) !! RepairedLive(t, orphans)
    ensures MovedRecords(t, orphans, Mark(true)) !! KeptRecords(t, orphans)
  {
    forall r | r in MovedRecords(t, orphans, Mark(true))
      ensures r !in RepairedLive(t, orphans) && r !in KeptRecords(t, orphans)
    {
      var i: nat :| i < |t| && FirstOfSlot(t, orphans, i) && r == Moved(t, i, Mark(true));
      assert SlotOf(t[i]) == SlotOf(r);
    }
  }

  // ----- adoption passes the gate -----------------------------------------------------------------

  lemma MigrateJudgeable(t: seq<Record>, orphans: set<Id>, mark: Retention)
    requires Keyed(t) && LiveJudgeable(t, orphans)
    ensures AllJudgeable(Migrate(t, orphans, mark))
  {
    var m := Migrate(t, orphans, mark);
    forall g: Group | g.item != PLACEHOLDER
      ensures Judgeable(GroupRows(m, g))
    {
      if Live(orphans, g.item) {
        MigrateGroup(t, orphans, mark, g);
      } else {
        forall r | r in m
          ensures r.Of() != g
        {
          MigrateLeaves(t, orphans, mark, r);
        }
        GroupRowsEmpty(m, g);
      }
    }
  }

  /** The database after migration 0042 at boot time `now` and the finished repair. */
  ghost function Adopted(t: seq<Record>, orphans: set<Id>, now: string): seq<Record>
    requires Keyed(t) && LiveJudgeable(t, orphans)
  {
    MigrateJudgeable(t, orphans, At(now));
    HarmonizeAll(Migrate(t, orphans, At(now)))
  }

  /** A row of the adopted table is a predicted one. */
  lemma AdoptedIsPredicted(t: seq<Record>, orphans: set<Id>, now: string, r: Record)
    requires Keyed(t) && LiveJudgeable(t, orphans) && r in Adopted(t, orphans, now)
    ensures || r in RepairedLive(t, orphans)
            || r in MovedRecords(t, orphans, At(now))
            || (PLACEHOLDER !in orphans && r in KeptRecords(t, orphans))
  {
    MigrateJudgeable(t, orphans, At(now));
    var m := Migrate(t, orphans, At(now));
    var u := HarmonizeAll(m);
    var i :| 0 <= i < |u| && u[i] == r;
    MigrateLeaves(t, orphans, At(now), m[i]);
    if m[i].item != PLACEHOLDER {
      MigrateGroup(t, orphans, At(now), m[i].Of());
      assert m[i] in t && Live(orphans, m[i].item);
    }
  }

  lemma RepairedIsAdopted(t: seq<Record>, orphans: set<Id>, now: string, r: Record)
    requires Keyed(t) && LiveJudgeable(t, orphans) && r in RepairedLive(t, orphans)
    ensures r in Adopted(t, orphans, now)
  {
    MigrateJudgeable(t, orphans, At(now));
    var m := Migrate(t, orphans, At(now));
    var q :| q in t && Live(orphans, q.item) && r == q.(row := Repaired(GroupRows(t, q.Of()), q.row));
    MigrateLeaves(t, orphans, At(now), q);
    MigrateGroup(t, orphans, At(now), q.Of());
    var i :| 0 <= i < |m| && m[i] == q;
    assert HarmonizeAll(m)[i] == r;
  }

  lemma DetachedIsAdopted(t: seq<Record>, orphans: set<Id>, now: string, r: Record)
    requires Keyed(t) && LiveJudgeable(t, orphans)
    requires r in MovedRecords(t, orphans, At(now)) || (PLACEHOLDER !in orphans && r in KeptRecords(t, orphans))
    ensures r in Adopted(t, orphans, now)
  {
    MigrateJudgeable(t, orphans, At(now));
    var m := Migrate(t, orphans, At(now));
    MigrateLeaves(t, orphans, At(now), r);
    var i :| 0 <= i < |m| && m[i] == r;
    assert HarmonizeAll(m)[i] == r;
  }

  /** Adoption keeps a placeholder row unless it deletes the placeholder item itself. */
  lemma AdoptedRecords(t: seq<Record>, orphans: set<Id>, now: string, r: Record)
    requires Keyed(t) && LiveJudgeable(t, orphans)
    ensures r in Adopted(t, orphans, now) <==>
            || r in RepairedLive(t, orphans)
            || r in MovedRecords(t, orphans, At(now))
            || (PLACEHOLDER !in orphans && r in KeptRecords(t, orphans))
  {
    if r in Adopted(t, orphans, now) {
      AdoptedIsPredicted(t, orphans, now, r);
    } else if r in RepairedLive(t, orphans) {
      RepairedIsAdopted(t, orphans, now, r);
    } else if r in MovedRecords(t, orphans, At(now)) || (PLACEHOLDER !in orphans && r in KeptRecords(t, orphans)) {
      DetachedIsAdopted(t, orphans, now, r);
    }
  }

  lemma AdoptedKeyed(t: seq<Record>, orphans: set<Id>, now: string)
    requires Keyed(t) && LiveJudgeable(t, orphans)
    ensures Keyed(Adopted(t, orphans, now))
  {
    MigrateJudgeable(t, orphans, At(now));
    MigrateKeyed(t, orphans, At(now));
    var m := Migrate(t, orphans, At(now));
    var u := HarmonizeAll(m);
    forall i, j | 0 <= i < j < |u|
      ensures u[i].Name() != u[j].Name()
    {
      assert m[i].Name() != m[j].Name();
    }
  }

  /**
   Adoption preserves the history exactly when it does not delete the placeholder item
   itself, or the placeholder holds nothing that is not replaced anyway.
   */
  lemma AdoptionPreserves(t: seq<Record>, orphans: set<Id>, now: string)
    requires Keyed(t) && LiveJudgeable(t, orphans)
    ensures Preserves(t, orphans, Adopted(t, orphans, now)) <==> PLACEHOLDER !in orphans || KeptRecords(t, orphans) == {}
  {
    var u := Adopted(t, orphans, now);
    forall r
      ensures r in u <==> r in RepairedLive(t, orphans) || r in MovedRecords(t, orphans, At(now)) ||
                          (PLACEHOLDER !in orphans && r in KeptRecords(t, orphans))
    {
      AdoptedRecords(t, orphans, now, r);
    }
    forall r | r in MovedRecords(t, orphans, Mark(true))
      ensures MovedKept(u, r)
    {
      var i: nat :| i < |t| && FirstOfSlot(t, orphans, i) && r == Moved(t, i, Mark(true));
      var q := Moved(t, i, At(now));
      assert q in MovedRecords(t, orphans, At(now));
      assert q in u && q.Name() == r.Name();
    }
    if r :| r in KeptRecords(t, orphans) && PLACEHOLDER in orphans {
      KeptNotMoved(t, orphans, At(now), r);
      assert r !in u;
    }
  }

  lemma KeptNotMoved(t: seq<Record>, orphans: set<Id>, mark: Retention, r: Record)
    requires LiveJudgeable(t, orphans) && r in KeptRecords(t, orphans)
    ensures r !in MovedRecords(t, orphans, mark) && r !in RepairedLive(t, orphans)
  {
    forall i: nat | i < |t| && FirstOfSlot(t, orphans, i)
      ensures Moved(t, i, mark) != r
    {
      assert Taken(t, orphans, SlotOf(t[i]));
    }
  }

  /** In a library whose placeholder has no parent and no owner, the placeholder is never an orphan. */
  lemma PlaceholderSafe(lib: Library, schema: Schema)
    requires PLACEHOLDER in lib && lib[PLACEHOLDER] == Item(None, None)
    ensures PLACEHOLDER !in OrphanedItems(lib, schema)
  {
    if schema.parentColumn {
      SelfContainedSurvive(lib, schema.ownerColumn, {PLACEHOLDER});
    }
  }

  /** End to end, for every library and every history: the adopted database passes the gate. */
  lemma AdoptionPassesGate(lib: Library, schema: Schema, t: seq<Record>, now: string, b: Snapshot, a: Snapshot)
    requires PLACEHOLDER in lib && lib[PLACEHOLDER] == Item(None, None) && Keyed(t)
    requires LiveJudgeable(t, OrphanedItems(lib, schema))
    requires Lists(b.rows, Predicted(t, OrphanedItems(lib, schema), Mark(true))) && b.moved == MovedNames(t, OrphanedItems(lib, schema))
    requires Lists(a.rows, set r | r in Adopted(t, OrphanedItems(lib, schema), now))
    requires Lists(a.detached, Detached(Adopted(t, OrphanedItems(lib, schema), now)))
    ensures Accepts(b, a)
  {
    PlaceholderSafe(lib, schema);
    AdoptionPreserves(t, OrphanedItems(lib, schema), now);
    GateExact(t, OrphanedItems(lib, schema), b, Adopted(t, OrphanedItems(lib, schema), now), a);
  }

  /** An orphaned placeholder takes any row it holds with it, and the gate fails. */
  lemma OrphanedPlaceholderLoses(r: Record, now: string)
    requires r.item == PLACEHOLDER
    ensures Keyed([r]) && LiveJudgeable([r], {PLACEHOLDER}) && !Preserves([r], {PLACEHOLDER}, Adopted([r], {PLACEHOLDER}, now))
  {
    forall g: Group | Live({PLACEHOLDER}, g.item) ensures Judgeable(GroupRows([r], g)) {
      GroupRowsEmpty([r], g);
    }
    assert r in KeptRecords([r], {PLACEHOLDER});
    AdoptionPreserves([r], {PLACEHOLDER}, now);
  }
}

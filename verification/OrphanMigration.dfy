/**
 Migration 0042 on `UserData`, statement by statement: the history of the items it deletes is
 moved to the placeholder item, one row per (user, key)
 (crates/ferrofin-db/migrations/0042_orphaned_parent_cleanup.sql).
 */
module OrphanMigration {
  import opened Sequences
  import opened Orphans
  import opened UserData
  import opened UserDataTable

  /** The placeholder can hold one row per (user, key). */
  datatype Slot = Slot(user: Id, key: string)

  function SlotOf(r: Record): Slot { Slot(r.user, r.row.key) }

  /** "DoomedUserDataKeys". */
  function Doomed(t: seq<Record>, orphans: set<Id>): set<Slot> {
    set r | r in t && r.item in orphans :: SlotOf(r)
  }

  /** The first DELETE: placeholder rows in the way. */
  function DropColliding(t: seq<Record>, doomed: set<Slot>): seq<Record> {
    Filter((r: Record) => !(r.item == PLACEHOLDER && SlotOf(r) in doomed), t)
  }

  /** An orphan's row with a lower rowid has the same (user, key). */
  predicate Later(t: seq<Record>, orphans: set<Id>, i: nat)
    requires i < |t|
  {
    t[i].item in orphans && exists j :: 0 <= j < i && t[j].item in orphans && SlotOf(t[j]) == SlotOf(t[i])
  }

  /** The second DELETE: of the orphans' rows only MIN(rowid) per (user, key) stays. */
  function DropLater(t: seq<Record>, orphans: set<Id>): seq<Record> {
    if t == [] then []
    else DropLater(t[..|t| - 1], orphans) + (if Later(t, orphans, |t| - 1) then [] else [t[|t| - 1]])
  }

  /** The UPDATE of one row. */
  function Rehome(orphans: set<Id>, mark: Retention, r: Record): Record {
    if r.item in orphans then Record(PLACEHOLDER, r.user, r.row.(retention := mark)) else r
  }

  function Migrate(t: seq<Record>, orphans: set<Id>, mark: Retention): seq<Record> {
    Map((r: Record) => Rehome(orphans, mark, r), DropLater(DropColliding(t, Doomed(t, orphans)), orphans))
  }

  // ----- what it leaves, without the statements ------------------------------------------------

  predicate Live(orphans: set<Id>, item: Id) { item != PLACEHOLDER && item !in orphans }

  predicate Detaches(orphans: set<Id>, item: Id) { item != PLACEHOLDER && item in orphans }

  /** Row `i` is the first of the deleted items' rows with its (user, key). */
  predicate FirstOfSlot(t: seq<Record>, orphans: set<Id>, i: nat) {
    && i < |t| && Detaches(orphans, t[i].item)
    && forall j :: 0 <= j < i && Detaches(orphans, t[j].item) ==> SlotOf(t[j]) != SlotOf(t[i])
  }

  predicate Taken(t: seq<Record>, orphans: set<Id>, slot: Slot) {
    exists i :: 0 <= i < |t| && Detaches(orphans, t[i].item) && SlotOf(t[i]) == slot
  }

  function LiveRecords(t: seq<Record>, orphans: set<Id>): set<Record> {
    set r | r in t && Live(orphans, r.item)
  }

  function KeptRecords(t: seq<Record>, orphans: set<Id>): set<Record> {
    set r | r in t && r.item == PLACEHOLDER && !Taken(t, orphans, SlotOf(r))
  }

  function Moved(t: seq<Record>, i: nat, mark: Retention): Record
    requires i < |t|
  {
    Record(PLACEHOLDER, t[i].user, t[i].row.(retention := mark))
  }

  function MovedRecords(t: seq<Record>, orphans: set<Id>, mark: Retention): set<Record> {
    set i: nat | i < |t| && FirstOfSlot(t, orphans, i) :: Moved(t, i, mark)
  }

  lemma {:induction false} DropLaterMember(t: seq<Record>, orphans: set<Id>, r: Record)
    ensures r in DropLater(t, orphans) <==> exists i: nat :: i < |t| && t[i] == r && !Later(t, orphans, i)
  {
    if t != [] {
      var front := t[..|t| - 1];
      DropLaterMember(front, orphans, r);
      assert forall i: nat :: i < |front| ==> (Later(front, orphans, i) <==> Later(t, orphans, i));
    }
  }

  lemma {:induction false} DropLaterPair(t: seq<Record>, orphans: set<Id>, i: nat, j: nat) returns (a: nat, b: nat)
    requires i < j < |DropLater(t, orphans)|
    ensures a < b < |t| && t[a] == DropLater(t, orphans)[i] && t[b] == DropLater(t, orphans)[j] && !Later(t, orphans, b)
  {
    var front := t[..|t| - 1];
    assert forall k: nat :: k < |front| ==> (Later(front, orphans, k) <==> Later(t, orphans, k));
    if j < |DropLater(front, orphans)| {
      a, b := DropLaterPair(front, orphans, i, j);
    } else {
      DropLaterMember(front, orphans, DropLater(front, orphans)[i]);
      a :| a < |front| && front[a] == DropLater(front, orphans)[i] && !Later(front, orphans, a);
      b := |t| - 1;
    }
  }

  lemma UniqueIndex(t: seq<Record>, i: nat, j: nat)
    requires Keyed(t) && i < |t| && j < |t| && t[i] == t[j]
    ensures i == j
  {
    assert t[i].Name() == t[j].Name();
  }

  /** After the first DELETE every row of a deleted item is a row to detach. */
  lemma CollidingGone(t: seq<Record>, orphans: set<Id>, r: Record)
    requires r in DropColliding(t, Doomed(t, orphans))
    ensures r in t && (r.item in orphans ==> Detaches(orphans, r.item))
    ensures r.item == PLACEHOLDER ==> !Taken(t, orphans, SlotOf(r))
  {
    FilterMember((q: Record) => !(q.item == PLACEHOLDER && SlotOf(q) in Doomed(t, orphans)), t, r);
    forall i | 0 <= i < |t| && Detaches(orphans, t[i].item)
      ensures SlotOf(t[i]) in Doomed(t, orphans)
    {
      assert t[i] in t;
    }
  }

  lemma CollidingKeeps(t: seq<Record>, orphans: set<Id>, r: Record)
    requires r in t
    requires r.item != PLACEHOLDER || (PLACEHOLDER !in orphans && !Taken(t, orphans, SlotOf(r)))
    ensures r in DropColliding(t, Doomed(t, orphans))
  {
    FilterMember((q: Record) => !(q.item == PLACEHOLDER && SlotOf(q) in Doomed(t, orphans)), t, r);
    forall q | q in t && Detaches(orphans, q.item)
      ensures Taken(t, orphans, SlotOf(q))
    {
      var i :| 0 <= i < |t| && t[i] == q;
    }
  }

  /** The first DELETE keeps the order of the rows. */
  lemma CollidingPair(t: seq<Record>, orphans: set<Id>, i: nat, j: nat) returns (a: nat, b: nat)
    requires i < j < |DropColliding(t, Doomed(t, orphans))|
    ensures a < b < |t|
    ensures t[a] == DropColliding(t, Doomed(t, orphans))[i] && t[b] == DropColliding(t, Doomed(t, orphans))[j]
  {
    a, b := FilterPair((q: Record) => !(q.item == PLACEHOLDER && SlotOf(q) in Doomed(t, orphans)), t, i, j);
  }

  /** MIN(rowid) among the rows the first DELETE left is the first row of its (user, key) in the table. */
  lemma KeptIsFirst(t: seq<Record>, orphans: set<Id>, i: nat, k: nat)
    requires Keyed(t) && i < |t| && Detaches(orphans, t[i].item)
    requires k < |DropColliding(t, Doomed(t, orphans))| && DropColliding(t, Doomed(t, orphans))[k] == t[i]
    ensures Later(DropColliding(t, Doomed(t, orphans)), orphans, k) <==> !FirstOfSlot(t, orphans, i)
  {
    var s := DropColliding(t, Doomed(t, orphans));
    if Later(s, orphans, k) {
      var j :| 0 <= j < k && s[j].item in orphans && SlotOf(s[j]) == SlotOf(s[k]);
      var a, b := CollidingPair(t, orphans, j, k);
      UniqueIndex(t, b, i);
      CollidingGone(t, orphans, s[j]);
    }
    if !FirstOfSlot(t, orphans, i) {
      var j :| 0 <= j < i && Detaches(orphans, t[j].item) && SlotOf(t[j]) == SlotOf(t[i]);
      CollidingKeeps(t, orphans, t[j]);
      var m :| 0 <= m < |s| && s[m] == t[j];
      if k < m {
        var a, b := CollidingPair(t, orphans, k, m);
        UniqueIndex(t, a, i);
      }
    }
  }

  /** The rows the migration leaves: live items' rows, placeholder rows nothing replaces, first rows moved. */
  lemma MigrateLeaves(t: seq<Record>, orphans: set<Id>, mark: Retention, r: Record)
    requires Keyed(t)
    ensures r in Migrate(t, orphans, mark) <==>
            || r in LiveRecords(t, orphans)
            || r in MovedRecords(t, orphans, mark)
            || (PLACEHOLDER !in orphans && r in KeptRecords(t, orphans))
  {
    var s := DropColliding(t, Doomed(t, orphans));
    var d := DropLater(s, orphans);
    var m := Migrate(t, orphans, mark);
    if r in m {
      var i :| 0 <= i < |d| && r == Rehome(orphans, mark, d[i]);
      LeftIsLeft(t, orphans, mark, d[i]);
    }
    if r in LiveRecords(t, orphans) || (PLACEHOLDER !in orphans && r in KeptRecords(t, orphans)) {
      CollidingKeeps(t, orphans, r);
      var k :| 0 <= k < |s| && s[k] == r;
      assert !Later(s, orphans, k);
      DropLaterMember(s, orphans, r);
      var i :| 0 <= i < |d| && d[i] == r;
      assert m[i] == Rehome(orphans, mark, d[i]);
    }
    if r in MovedRecords(t, orphans, mark) {
      var n: nat :| n < |t| && FirstOfSlot(t, orphans, n) && r == Moved(t, n, mark);
      CollidingKeeps(t, orphans, t[n]);
      var k :| 0 <= k < |s| && s[k] == t[n];
      KeptIsFirst(t, orphans, n, k);
      DropLaterMember(s, orphans, t[n]);
      var i :| 0 <= i < |d| && d[i] == t[n];
      assert m[i] == Rehome(orphans, mark, d[i]);
    }
  }

  lemma LeftIsLeft(t: seq<Record>, orphans: set<Id>, mark: Retention, q: Record)
    requires Keyed(t) && q in DropLater(DropColliding(t, Doomed(t, orphans)), orphans)
    ensures var r := Rehome(orphans, mark, q);
            || r in LiveRecords(t, orphans)
            || r in MovedRecords(t, orphans, mark)
            || (PLACEHOLDER !in orphans && r in KeptRecords(t, orphans))
  {
    var s := DropColliding(t, Doomed(t, orphans));
    DropLaterMember(s, orphans, q);
    var k: nat :| k < |s| && s[k] == q && !Later(s, orphans, k);
    assert q in s;
    CollidingGone(t, orphans, q);
    if q.item in orphans {
      var i :| 0 <= i < |t| && t[i] == q;
      KeptIsFirst(t, orphans, i, k);
      assert Rehome(orphans, mark, q) == Moved(t, i, mark);
    }
  }

  /** The primary key survives. */
  lemma MigrateKeyed(t: seq<Record>, orphans: set<Id>, mark: Retention)
    requires Keyed(t)
    ensures Keyed(Migrate(t, orphans, mark))
  {
    var s := DropColliding(t, Doomed(t, orphans));
    var d := DropLater(s, orphans);
    var m := Migrate(t, orphans, mark);
    forall i, j | 0 <= i < j < |m|
      ensures m[i].Name() != m[j].Name()
    {
      var c, e := DropLaterPair(s, orphans, i, j);
      var a, b := CollidingPair(t, orphans, c, e);
      assert t[a].Name() != t[b].Name();
      CollidingGone(t, orphans, s[c]);
      CollidingGone(t, orphans, s[e]);
      assert m[i] == Rehome(orphans, mark, t[a]) && m[j] == Rehome(orphans, mark, t[b]);
      assert Detaches(orphans, t[a].item) ==> Taken(t, orphans, SlotOf(t[a]));
      assert Detaches(orphans, t[b].item) ==> Taken(t, orphans, SlotOf(t[b]));
    }
  }

  /** A live item's group is untouched, its row order included. */
  lemma MigrateGroup(t: seq<Record>, orphans: set<Id>, mark: Retention, g: Group)
    requires Live(orphans, g.item)
    ensures GroupRows(Migrate(t, orphans, mark), g) == GroupRows(t, g)
  {
    var s := DropColliding(t, Doomed(t, orphans));
    CollidingGroup(t, Doomed(t, orphans), g);
    LaterGroup(s, orphans, g);
    RehomeGroup(DropLater(s, orphans), orphans, mark, g);
  }

  lemma {:induction false} CollidingGroup(t: seq<Record>, doomed: set<Slot>, g: Group)
    requires g.item != PLACEHOLDER
    ensures GroupRows(DropColliding(t, doomed), g) == GroupRows(t, g)
  {
    if t != [] {
      CollidingGroup(t[..|t| - 1], doomed, g);
      var front := DropColliding(t[..|t| - 1], doomed);
      GroupRowsAppend(front, t[|t| - 1], g);
      assert front + [] == front && GroupRows(t, g) + [] == GroupRows(t, g);
    }
  }

  lemma {:induction false} LaterGroup(t: seq<Record>, orphans: set<Id>, g: Group)
    requires g.item !in orphans
    ensures GroupRows(DropLater(t, orphans), g) == GroupRows(t, g)
  {
    if t != [] {
      LaterGroup(t[..|t| - 1], orphans, g);
      var front := DropLater(t[..|t| - 1], orphans);
      GroupRowsAppend(front, t[|t| - 1], g);
      assert front + [] == front;
    }
  }

  lemma {:induction false} RehomeGroup(t: seq<Record>, orphans: set<Id>, mark: Retention, g: Group)
    requires Live(orphans, g.item)
    ensures GroupRows(Map((r: Record) => Rehome(orphans, mark, r), t), g) == GroupRows(t, g)
  {
    var f := (r: Record) => Rehome(orphans, mark, r);
    if t != [] {
      RehomeGroup(t[..|t| - 1], orphans, mark, g);
      assert Map(f, t)[..|t| - 1] == Map(f, t[..|t| - 1]);
    }
  }
}

/**
 The watch-history gate: what `snapshot` writes down before adoption, what it reads back
 afterwards, and what `compare_db` makes of the two (gates/adoption/watch_history.py).
 Digests are collision-free names, so a digest stands for what it digests.
 */
module WatchHistory {
  import opened Options
  import opened Orphans
  import opened UserData
  import opened UserDataTable
  import opened OrphanMigration

  /** A snapshot file. `moved` is in a baseline only, `detached` in a reading only. */
  datatype Snapshot = Snapshot(rows: map<RowName, Row>, moved: set<RowName>, detached: map<RowName, Row>)

  /** Every conflicting group of a surviving item has dates that parse; otherwise `snapshot` raises. */
  ghost predicate LiveJudgeable(t: seq<Record>, orphans: set<Id>) {
    forall g: Group :: Live(orphans, g.item) ==> Judgeable(GroupRows(t, g))
  }

  ghost function RepairedLive(t: seq<Record>, orphans: set<Id>): set<Record>
    requires LiveJudgeable(t, orphans)
  {
    set r | r in t && Live(orphans, r.item) :: r.(row := Repaired(GroupRows(t, r.Of()), r.row))
  }

  /** What adoption must leave, the moved rows' dates being `mark`. */
  ghost function Predicted(t: seq<Record>, orphans: set<Id>, mark: Retention): set<Record>
    requires LiveJudgeable(t, orphans)
  {
    RepairedLive(t, orphans) + KeptRecords(t, orphans) + MovedRecords(t, orphans, mark)
  }

  /** The dictionary holds exactly these records. */
  ghost predicate Lists(m: map<RowName, Row>, s: set<Record>) {
    && (forall n :: n in m ==> m[n].key == n.key)
    && (forall r: Record :: r.Name() in m && m[r.Name()] == r.row <==> r in s)
  }

  function DateOnly(r: Record): Record {
    r.(row := r.row.(retention := Mark(r.row.retention != Unset)))
  }

  function Detached(t: seq<Record>): set<Record> {
    set r | r in t && r.item == PLACEHOLDER :: DateOnly(r)
  }

  function MovedNames(t: seq<Record>, orphans: set<Id>): set<RowName> {
    set r | r in MovedRecords(t, orphans, Mark(true)) :: r.Name()
  }

  // ----- snapshot --------------------------------------------------------------------------------

  /** The dictionary keyed by (user, key) holds exactly these placeholder rows. */
  ghost predicate Slots(m: map<Slot, Row>, s: set<Record>) {
    && (forall n :: n in m ==> m[n].key == n.key)
    && (forall r: Record :: r.item == PLACEHOLDER ==> (SlotOf(r) in m && m[SlotOf(r)] == r.row <==> r in s))
  }

  ghost predicate Grouped(m: map<Group, seq<Row>>, t: seq<Record>, orphans: set<Id>) {
    forall g: Group :: Live(orphans, g.item) ==>
      if g in m then m[g] == GroupRows(t, g) else GroupRows(t, g) == []
  }

  lemma MovedGrows(t: seq<Record>, i: nat, orphans: set<Id>, mark: Retention)
    requires i < |t|
    ensures MovedRecords(t[..i + 1], orphans, mark) ==
            MovedRecords(t[..i], orphans, mark) + (if FirstOfSlot(t, orphans, i) then {Moved(t, i, mark)} else {})
  {
    var a, b := t[..i], t[..i + 1];
    forall k: nat | k <= i
      ensures FirstOfSlot(b, orphans, k) <==> FirstOfSlot(t, orphans, k)
      ensures k < i ==> (FirstOfSlot(a, orphans, k) <==> FirstOfSlot(t, orphans, k))
    {
    }
    forall r | r in MovedRecords(b, orphans, mark)
      ensures r in MovedRecords(a, orphans, mark) + (if FirstOfSlot(t, orphans, i) then {Moved(t, i, mark)} else {})
    {
      var k: nat :| k < |b| && FirstOfSlot(b, orphans, k) && r == Moved(b, k, mark);
      if k < i { assert Moved(a, k, mark) in MovedRecords(a, orphans, mark); }
    }
    forall r | r in MovedRecords(a, orphans, mark)
      ensures r in MovedRecords(b, orphans, mark)
    {
      var k: nat :| k < |a| && FirstOfSlot(a, orphans, k) && r == Moved(a, k, mark);
      assert Moved(b, k, mark) in MovedRecords(b, orphans, mark);
    }
    if FirstOfSlot(t, orphans, i) {
      assert Moved(b, i, mark) in MovedRecords(b, orphans, mark);
    }
  }

  /** A (user, key) of some deleted item's row has a first one. */
  lemma {:induction false} TakenHasFirst(t: seq<Record>, orphans: set<Id>, slot: Slot, n: nat) returns (i: nat)
    requires n <= |t| && exists k :: 0 <= k < n && Detaches(orphans, t[k].item) && SlotOf(t[k]) == slot
    ensures i < n && FirstOfSlot(t, orphans, i) && SlotOf(t[i]) == slot
  {
    if exists k :: 0 <= k < n - 1 && Detaches(orphans, t[k].item) && SlotOf(t[k]) == slot {
      i := TakenHasFirst(t, orphans, slot, n - 1);
    } else {
      i := n - 1;
    }
  }

  function PlaceholderRecords(t: seq<Record>): set<Record> {
    set r | r in t && r.item == PLACEHOLDER
  }

  /** `setdefault` keeps the first row: the key is absent exactly when this row is the first. */
  lemma FirstIffAbsent(t: seq<Record>, i: nat, orphans: set<Id>, moved: map<Slot, Row>)
    requires i < |t| && Detaches(orphans, t[i].item)
    requires Slots(moved, MovedRecords(t[..i], orphans, Mark(true)))
    ensures SlotOf(t[i]) !in moved <==> FirstOfSlot(t, orphans, i)
  {
    var slot, a := SlotOf(t[i]), t[..i];
    if slot in moved {
      var r := Record(PLACEHOLDER, slot.user, moved[slot]);
      assert r in MovedRecords(a, orphans, Mark(true));
      var k: nat :| k < |a| && FirstOfSlot(a, orphans, k) && r == Moved(a, k, Mark(true));
      assert SlotOf(t[k]) == slot;
    }
    if !FirstOfSlot(t, orphans, i) {
      var k :| 0 <= k < i && Detaches(orphans, t[k].item) && SlotOf(t[k]) == slot;
      assert a[k] == t[k];
      var f := TakenHasFirst(a, orphans, slot, i);
      assert Moved(a, f, Mark(true)) in MovedRecords(a, orphans, Mark(true));
      assert SlotOf(Moved(a, f, Mark(true))) == slot;
    }
  }

  lemma SlotAdded(m: map<Slot, Row>, s: set<Record>, r: Record)
    requires Slots(m, s) && r.item == PLACEHOLDER && SlotOf(r) !in m
    ensures Slots(m[SlotOf(r) := r.row], s + {r})
  {
  }

  lemma PlaceholderNew(t: seq<Record>, i: nat, m: map<Slot, Row>)
    requires Keyed(t) && i < |t| && t[i].item == PLACEHOLDER && Slots(m, PlaceholderRecords(t[..i]))
    ensures SlotOf(t[i]) !in m && PlaceholderRecords(t[..i + 1]) == PlaceholderRecords(t[..i]) + {t[i]}
  {
    assert t[..i + 1] == t[..i] + [t[i]];
    forall q | q in t[..i] && q.item == PLACEHOLDER
      ensures SlotOf(q) != SlotOf(t[i])
    {
      var k :| 0 <= k < i && t[..i][k] == q;
      assert t[k].Name() != t[i].Name();
    }
    forall n | n in m
      ensures n != SlotOf(t[i])
    {
      assert Record(PLACEHOLDER, n.user, m[n]) in PlaceholderRecords(t[..i]);
    }
  }

  /** The rows by group, the placeholder's rows, and the rows that move there. */
  method Collect(t: seq<Record>, orphans: set<Id>)
    returns (groups: map<Group, seq<Row>>, detached: map<Slot, Row>, moved: map<Slot, Row>)
    requires Keyed(t)
    ensures Grouped(groups, t, orphans) && forall g :: g in groups ==> Live(orphans, g.item) && groups[g] != []
    ensures Slots(detached, PlaceholderRecords(t))
    ensures Slots(moved, MovedRecords(t, orphans, Mark(true)))
  {
    groups, detached, moved := map[], map[], map[];
    for i := 0 to |t|
      invariant Grouped(groups, t[..i], orphans)
      invariant forall g :: g in groups ==> Live(orphans, g.item) && groups[g] != []
      invariant Slots(detached, PlaceholderRecords(t[..i]))
      invariant Slots(moved, MovedRecords(t[..i], orphans, Mark(true)))
    {
      var r := t[i];
      MovedGrows(t, i, orphans, Mark(true));
      assert t[..i + 1] == t[..i] + [r];
      CollectGroup(groups, t, i, orphans);
      if r.item == PLACEHOLDER {
        PlaceholderNew(t, i, detached);
        SlotAdded(detached, PlaceholderRecords(t[..i]), r);
        detached := detached[SlotOf(r) := r.row];
      } else {
        assert PlaceholderRecords(t[..i + 1]) == PlaceholderRecords(t[..i]);
        if r.item in orphans {
          FirstIffAbsent(t, i, orphans, moved);
          if SlotOf(r) !in moved {
            SlotAdded(moved, MovedRecords(t[..i], orphans, Mark(true)), Moved(t, i, Mark(true)));
            moved := moved[SlotOf(r) := r.row.(retention := Mark(true))];
          }
        } else {
          groups := groups[r.Of() := (if r.Of() in groups then groups[r.Of()] else []) + [r.row]];
        }
      }
    }
    assert t[..|t|] == t;
  }

  lemma CollectGroup(groups: map<Group, seq<Row>>, t: seq<Record>, i: nat, orphans: set<Id>)
    requires i < |t| && Grouped(groups, t[..i], orphans)
    ensures if Live(orphans, t[i].item) then
              Grouped(groups[t[i].Of() := (if t[i].Of() in groups then groups[t[i].Of()] else []) + [t[i].row]], t[..i + 1], orphans)
            else Grouped(groups, t[..i + 1], orphans)
  {
    assert t[..i + 1] == t[..i] + [t[i]];
    forall g: Group
      ensures GroupRows(t[..i + 1], g) == GroupRows(t[..i], g) + (if t[i].Of() == g then [t[i].row] else [])
    {
      GroupRowsAppend(t[..i], t[i], g);
    }
  }

  // ----- the placeholder's groups and the row dictionary ---------------------------------------------

  /** Merging the two dictionaries: a moved row replaces the placeholder's. */
  lemma MergedSlots(t: seq<Record>, orphans: set<Id>, mark: Retention, detached: map<Slot, Row>, moved: map<Slot, Row>)
    requires Slots(detached, PlaceholderRecords(t)) && Slots(moved, MovedRecords(t, orphans, mark))
    ensures Slots(detached + moved, KeptRecords(t, orphans) + MovedRecords(t, orphans, mark))
    ensures moved.Keys == set r | r in MovedRecords(t, orphans, mark) :: SlotOf(r)
  {
    forall slot: Slot
      ensures slot in moved <==> Taken(t, orphans, slot)
    {
      if slot in moved {
        var r := Record(PLACEHOLDER, slot.user, moved[slot]);
        assert SlotOf(r) == slot && r in MovedRecords(t, orphans, mark);
        var k: nat :| k < |t| && FirstOfSlot(t, orphans, k) && r == Moved(t, k, mark);
        assert SlotOf(t[k]) == slot;
      }
      if Taken(t, orphans, slot) {
        var i := TakenHasFirst(t, orphans, slot, |t|);
        assert Moved(t, i, mark) in MovedRecords(t, orphans, mark) && SlotOf(Moved(t, i, mark)) == slot;
      }
    }
    forall slot | slot in moved
      ensures slot in set r | r in MovedRecords(t, orphans, mark) :: SlotOf(r)
    {
      assert SlotOf(Record(PLACEHOLDER, slot.user, moved[slot])) == slot;
    }
  }

  /** One group per user for the placeholder's rows. */
  method GroupPlaceholder(groups: map<Group, seq<Row>>, slots: map<Slot, Row>) returns (all: map<Group, seq<Row>>)
    requires forall n :: n in slots ==> slots[n].key == n.key
    requires forall g :: g in groups ==> g.item != PLACEHOLDER
    ensures forall g: Group :: g.item != PLACEHOLDER ==> (g in all <==> g in groups) && (g in groups ==> all[g] == groups[g])
    ensures forall g :: g in all && g.item == PLACEHOLDER ==> DistinctKeys(all[g])
    ensures forall r: Record :: r.item == PLACEHOLDER ==>
              (r.Of() in all && r.row in all[r.Of()] <==> SlotOf(r) in slots && slots[SlotOf(r)] == r.row)
  {
    all := groups;
    var rest := slots.Keys;
    while rest != {}
      invariant rest <= slots.Keys
      invariant forall g: Group :: g.item != PLACEHOLDER ==> (g in all <==> g in groups) && (g in groups ==> all[g] == groups[g])
      invariant forall g :: g in all && g.item == PLACEHOLDER ==> DistinctKeys(all[g])
      invariant forall r: Record :: r.item == PLACEHOLDER ==>
                  (r.Of() in all && r.row in all[r.Of()] <==> SlotOf(r) in slots && SlotOf(r) !in rest && slots[SlotOf(r)] == r.row)
      decreases rest
    {
      var slot :| slot in rest;
      var g := Group(PLACEHOLDER, slot.user);
      var before := if g in all then all[g] else [];
      forall i | 0 <= i < |before|
        ensures before[i].key != slot.key
      {
        var r := Record(PLACEHOLDER, slot.user, before[i]);
        assert r.Of() == g && r.row in all[r.Of()];
      }
      all := all[g := before + [slots[slot]]];
      rest := rest - {slot};
    }
  }

  /** A group's rows as the snapshot lists them: only a baseline is harmonized, and never the placeholder. */
  function Lines(expected: bool, g: Group, rows: seq<Row>): seq<Row>
    requires expected && g.item != PLACEHOLDER ==> Judgeable(rows)
  {
    if expected && g.item != PLACEHOLDER then Harmonize(rows) else rows
  }

  /** The record is one of its group's lines. */
  ghost predicate Listed(expected: bool, groups: map<Group, seq<Row>>, r: Record) {
    && r.Of() in groups
    && (expected && r.item != PLACEHOLDER ==> Judgeable(groups[r.Of()]))
    && r.row in Lines(expected, r.Of(), groups[r.Of()])
  }

  /** The lines of one group added to the row dictionary. */
  method AddLines(g: Group, lines: seq<Row>, rows: map<RowName, Row>) returns (more: map<RowName, Row>)
    requires DistinctKeys(lines)
    ensures forall n: RowName :: Group(n.item, n.user) != g ==> (n in more <==> n in rows) && (n in rows ==> more[n] == rows[n])
    ensures (forall n :: n in rows ==> rows[n].key == n.key) ==> forall n :: n in more ==> more[n].key == n.key
    ensures (forall n: RowName :: n in rows ==> Group(n.item, n.user) != g) ==>
              forall r: Record :: r.Of() == g ==> (r.Name() in more && more[r.Name()] == r.row <==> r.row in lines)
  {
    more := rows;
    for i := 0 to |lines|
      invariant forall n: RowName :: Group(n.item, n.user) != g ==> (n in more <==> n in rows) && (n in rows ==> more[n] == rows[n])
      invariant (forall n :: n in rows ==> rows[n].key == n.key) ==> forall n :: n in more ==> more[n].key == n.key
      invariant (forall n: RowName :: n in rows ==> Group(n.item, n.user) != g) ==>
                  forall r: Record :: r.Of() == g ==> (r.Name() in more && more[r.Name()] == r.row <==> r.row in lines[..i])
    {
      assert forall k :: 0 <= k < i ==> lines[k].key != lines[i].key;
      assert lines[..i + 1] == lines[..i] + [lines[i]];
      more := more[RowName(g.item, g.user, lines[i].key) := lines[i]];
    }
    assert lines[..|lines|] == lines;
  }

  /** Every group's lines by name; None where a conflicting group's date does not parse. */
  method Flatten(expected: bool, groups: map<Group, seq<Row>>) returns (rows: Option<map<RowName, Row>>)
    requires forall g :: g in groups ==> DistinctKeys(groups[g])
    ensures rows.None? <==> exists g :: g in groups && expected && g.item != PLACEHOLDER && !Judgeable(groups[g])
    ensures rows.Some? ==> forall n :: n in rows.value ==> rows.value[n].key == n.key
    ensures rows.Some? ==> forall r: Record :: r.Name() in rows.value && rows.value[r.Name()] == r.row <==> Listed(expected, groups, r)
  {
    var found: map<RowName, Row> := map[];
    var rest := groups.Keys;
    while rest != {}
      invariant rest <= groups.Keys
      invariant forall g :: g in groups && g !in rest && expected && g.item != PLACEHOLDER ==> Judgeable(groups[g])
      invariant forall n :: n in found ==> found[n].key == n.key && Group(n.item, n.user) !in rest
      invariant forall r: Record :: r.Name() in found && found[r.Name()] == r.row <==> r.Of() !in rest && Listed(expected, groups, r)
      decreases rest
    {
      var g :| g in rest;
      if expected && g.item != PLACEHOLDER && !Judgeable(groups[g]) { return None; }
      var lines := Lines(expected, g, groups[g]);
      LinesDistinct(expected, g, groups[g]);
      found := AddLines(g, lines, found);
      rest := rest - {g};
    }
    rows := Some(found);
  }

  lemma LinesDistinct(expected: bool, g: Group, rows: seq<Row>)
    requires (expected && g.item != PLACEHOLDER ==> Judgeable(rows)) && DistinctKeys(rows)
    ensures DistinctKeys(Lines(expected, g, rows))
  {
  }

  /** A surviving item's lines are its repaired rows. */
  lemma LiveListed(t: seq<Record>, orphans: set<Id>, groups: map<Group, seq<Row>>, r: Record)
    requires Keyed(t) && LiveJudgeable(t, orphans) && Live(orphans, r.item)
    requires if r.Of() in groups then groups[r.Of()] == GroupRows(t, r.Of()) else GroupRows(t, r.Of()) == []
    ensures Listed(true, groups, r) <==> r in RepairedLive(t, orphans)
  {
    var g := r.Of();
    var rows := GroupRows(t, g);
    GroupRowsDistinct(t, g);
    if Listed(true, groups, r) {
      var i :| 0 <= i < |rows| && Harmonize(rows)[i] == r.row;
      HarmonizeRepairs(rows, i);
      GroupRowsMembers(t, g, rows[i]);
      var q := Record(g.item, g.user, rows[i]);
      assert q in t && r == q.(row := Repaired(GroupRows(t, q.Of()), q.row));
    }
    if r in RepairedLive(t, orphans) {
      var q :| q in t && Live(orphans, q.item) && r == q.(row := Repaired(GroupRows(t, q.Of()), q.row));
      assert q == Record(g.item, g.user, q.row);
      GroupRowsMembers(t, g, q.row);
      var i :| 0 <= i < |rows| && rows[i] == q.row;
      HarmonizeRepairs(rows, i);
      assert Harmonize(rows)[i] == r.row;
    }
  }

  lemma StoredListed(t: seq<Record>, groups: map<Group, seq<Row>>, r: Record)
    requires r.item != PLACEHOLDER
    requires if r.Of() in groups then groups[r.Of()] == GroupRows(t, r.Of()) else GroupRows(t, r.Of()) == []
    ensures Listed(false, groups, r) <==> r in t
  {
    GroupRowsMembers(t, r.Of(), r.row);
  }

  lemma LiveDistinct(t: seq<Record>, orphans: set<Id>, groups: map<Group, seq<Row>>)
    requires Keyed(t) && Grouped(groups, t, orphans) && forall g :: g in groups ==> Live(orphans, g.item)
    ensures forall g :: g in groups ==> DistinctKeys(groups[g])
  {
    forall g | g in groups
      ensures DistinctKeys(groups[g])
    {
      GroupRowsDistinct(t, g);
    }
  }

  /** The baseline: history as adoption must leave it. */
  method Baseline(t: seq<Record>, orphans: set<Id>) returns (b: Option<Snapshot>)
    requires Keyed(t)
    ensures b.None? <==> !LiveJudgeable(t, orphans)
    ensures b.Some? ==> Lists(b.value.rows, Predicted(t, orphans, Mark(true)))
    ensures b.Some? ==> b.value.moved == MovedNames(t, orphans) && b.value.detached == map[]
  {
    var groups, detached, moved := Collect(t, orphans);
    MergedSlots(t, orphans, Mark(true), detached, moved);
    LiveDistinct(t, orphans, groups);
    var all := GroupPlaceholder(groups, detached + moved);
    var rows := Flatten(true, all);
    if rows.None? {
      ghost var g :| g in all && g.item != PLACEHOLDER && !Judgeable(all[g]);
      assert Live(orphans, g.item) && all[g] == GroupRows(t, g);
      return None;
    }
    assert LiveJudgeable(t, orphans) by {
      forall g: Group | Live(orphans, g.item)
        ensures Judgeable(GroupRows(t, g))
      {
        if g in all { assert all[g] == GroupRows(t, g); }
      }
    }
    forall r: Record
      ensures Listed(true, all, r) <==> r in Predicted(t, orphans, Mark(true))
    {
      if Live(orphans, r.item) {
        LiveListed(t, orphans, all, r);
      }
    }
    b := Some(Snapshot(rows.value, set slot | slot in moved :: RowName(PLACEHOLDER, slot.user, slot.key), map[]));
    MovedNamesAre(t, orphans, moved.Keys);
  }

  lemma MovedNamesAre(t: seq<Record>, orphans: set<Id>, slots: set<Slot>)
    requires slots == set r | r in MovedRecords(t, orphans, Mark(true)) :: SlotOf(r)
    ensures (set slot | slot in slots :: RowName(PLACEHOLDER, slot.user, slot.key)) == MovedNames(t, orphans)
  {
    var moved := MovedRecords(t, orphans, Mark(true));
    forall r | r in moved
      ensures r.Name() in set slot | slot in slots :: RowName(PLACEHOLDER, slot.user, slot.key)
    {
      assert SlotOf(r) in slots;
    }
  }

  /** The reading: history as stored, and the placeholder rows with their date reduced to set or unset. */
  method Reading(t: seq<Record>) returns (b: Snapshot)
    requires Keyed(t)
    ensures Lists(b.rows, set r | r in t)
    ensures b.moved == {} && Lists(b.detached, Detached(t))
  {
    var groups, detached, moved := Collect(t, {});
    assert MovedRecords(t, {}, Mark(true)) == {};
    MergedSlots(t, {}, Mark(true), detached, moved);
    assert KeptRecords(t, {}) == PlaceholderRecords(t);
    LiveDistinct(t, {}, groups);
    var all := GroupPlaceholder(groups, detached + moved);
    var rows := Flatten(false, all);
    forall r: Record
      ensures Listed(false, all, r) <==> r in t
    {
      if r.item != PLACEHOLDER { StoredListed(t, all, r); }
    }
    var retained := map n | n in rows.value && n.item == PLACEHOLDER ::
                      rows.value[n].(retention := Mark(rows.value[n].retention != Unset));
    b := Snapshot(rows.value, {}, retained);
    RetainedLists(t, rows.value, retained);
  }

  lemma RetainedLists(t: seq<Record>, rows: map<RowName, Row>, retained: map<RowName, Row>)
    requires Lists(rows, set r | r in t)
    requires retained.Keys == set n | n in rows && n.item == PLACEHOLDER
    requires forall n :: n in retained ==> retained[n] == rows[n].(retention := Mark(rows[n].retention != Unset))
    ensures Lists(retained, Detached(t))
  {
    forall r: Record | r.Name() in retained && retained[r.Name()] == r.row
      ensures r in Detached(t)
    {
      var q := Record(r.item, r.user, rows[r.Name()]);
      assert q.Name() == r.Name() && q in t && r == DateOnly(q);
    }
    forall r | r in Detached(t)
      ensures r.Name() in retained && retained[r.Name()] == r.row
    {
      var q :| q in t && q.item == PLACEHOLDER && r == DateOnly(q);
      assert q.Name() == r.Name() && rows[q.Name()] == q.row;
    }
  }
}

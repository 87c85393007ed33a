/**
 Which changes of a compared table are reported, over the cells as they are stored
 (gates/adoption/table_digests.py `table_rows`, `compare`).
 */
module TableChanges {
  import opened Options
  import opened Sequences
  import opened FolderText
  import opened TableDigests

  // ----- the records and columns compared ----------------------------------------------------------------

  /** A record of no user, of a known one, or of a table that has no owners. */
  predicate OfUser(c: Reading, r: Record) {
    !c.settings.userOwned ||
    match Get(r, "UserId")
    case Null => true
    case Text(text) => Text(c.lib.guid(text)) in c.users
    case Number(n) => Number(n) in c.users
    case Blob(tag) => Blob(tag) in c.users
  }

  lemma KeptIff(c: Reading, r: Record)
    ensures Kept(c, r) <==> OfUser(c, r)
  {
  }

  /** The record of a user that no longer exists is not compared: losing it, or any change to it, is no matter. */
  lemma StrangersIgnored(c: Reading, a: seq<Record>, r: Record, b: seq<Record>)
    requires !OfUser(c, r)
    ensures RowsOf(c, a + [r] + b) == RowsOf(c, a + b)
  {
    KeptIff(c, r);
    RowsOfConcat(c, a + [r], b);
    RowsOfStep(c, a, r);
    RowsOfConcat(c, a, b);
  }

  /** The record's item is known by its path. */
  predicate ByPath(c: Reading, r: Record) {
    && c.settings.itemKeyed && "ItemId" in c.columns
    && Get(r, "ItemId").Text? && c.lib.guid(Get(r, "ItemId").text) in c.identity
  }

  /** The column is compared as stored: hashed, not dropped, not derived, and not rewritten for a known item. */
  predicate Compared(c: Reading, r: Record, name: string) {
    && name in c.columns
    && !(Get(r, "DeviceId") in c.reauthenticated && name in c.settings.volatile)
    && (c.settings.derived.Some? ==> name != c.settings.derived.value.0)
    && (name == "ItemId" || name in c.settings.folders ==> !ByPath(c, r))
  }

  /** The text in a date column as its instant, where it is one. */
  function InstantOf(c: Reading, text: string): Option<Cell> { c.lib.instant(c.lib.guid(text)) }

  /** Two stored values of a column are told apart. */
  predicate Differ(c: Reading, name: string, x: Cell, y: Cell) {
    var date := name in c.settings.dates;
    match (x, y)
    case (Text(s), Text(t)) =>
      if date && InstantOf(c, s).Some? && InstantOf(c, t).Some? then InstantOf(c, s) != InstantOf(c, t)
      else if date && InstantOf(c, s).Some? then InstantOf(c, s).value != Text(c.lib.guid(t))
      else if date && InstantOf(c, t).Some? then InstantOf(c, t).value != Text(c.lib.guid(s))
      else c.lib.guid(s) != c.lib.guid(t)
    case (Text(s), _) => !date || InstantOf(c, s).None? || InstantOf(c, s).value != y
    case (_, Text(t)) => !date || InstantOf(c, t).None? || InstantOf(c, t).value != x
    case _ => x != y
  }

  // ----- what becomes of a cell ----------------------------------------------------------------------------

  function Dates(c: Reading, name: string, cell: Cell): Cell {
    if name in c.settings.dates && cell.Text? && c.lib.instant(cell.text).Some? then c.lib.instant(cell.text).value else cell
  }

  lemma NamedStays(c: Reading, r: Record, name: string)
    requires Compared(c, r, name)
    ensures var row := Trimmed(c, r, Columns(c, r));
            name in row && name in Named(c, row) && Named(c, row)[name] == Normalize(c.lib, Get(r, name))
  {
    var row := Trimmed(c, r, Columns(c, r));
    assert row[name] == Normalize(c.lib, Get(r, name));
    if Identified(c, row) {
      assert "ItemId" in row && row["ItemId"] == Normalize(c.lib, Get(r, "ItemId"));
      assert ByPath(c, r);
    }
  }

  lemma NormalCell(c: Reading, r: Record, name: string)
    requires Compared(c, r, name)
    ensures name in Normal(c, r) && Normal(c, r)[name] == Dates(c, name, Normalize(c.lib, Get(r, name)))
  {
    NamedStays(c, r, name);
  }

  lemma DifferIff(c: Reading, name: string, x: Cell, y: Cell)
    ensures Dates(c, name, Normalize(c.lib, x)) != Dates(c, name, Normalize(c.lib, y)) <==> Differ(c, name, x, y)
  {
  }

  /** The normal rows differ in a compared column exactly when its stored values are told apart. */
  lemma NormalDiffers(c: Reading, r: Record, r': Record, name: string)
    requires Compared(c, r, name) && Compared(c, r', name)
    ensures name in Normal(c, r) && name in Normal(c, r')
    ensures Normal(c, r)[name] != Normal(c, r')[name] <==> Differ(c, name, Get(r, name), Get(r', name))
  {
    NormalCell(c, r, name);
    NormalCell(c, r', name);
    DifferIff(c, name, Get(r, name), Get(r', name));
  }

  // ----- changes -----------------------------------------------------------------------------------------------

  /** Changing a compared value of any compared record is reported, whatever else the table holds. */
  lemma ChangeReported(c: Reading, a: seq<Record>, r: Record, r': Record, b: seq<Record>, name: string)
    requires OfUser(c, r) && Compared(c, r, name) && Compared(c, r', name) && Differ(c, name, Get(r, name), Get(r', name))
    ensures !Unharmed(ShotOf(c, a + [r] + b), ShotOf(c, a + [r'] + b))
  {
    KeptIff(c, r);
    NormalDiffers(c, r, r', name);
    RowsBetween(c, a, r, b);
    RowsBetween(c, a, r', b);
    var p, q := RowsOf(c, a + [r] + b), RowsOf(c, a + [r'] + b);
    OneRowLess(RowsOf(c, a) + RowsOf(c, b), Normal(c, r), Normal(c, r'), p, q, Kept(c, r'));
    RowsIncludedIff(c, p, q);
  }

  lemma RowsBetween(c: Reading, a: seq<Record>, r: Record, b: seq<Record>)
    ensures multiset(RowsOf(c, a + [r] + b)) ==
            multiset(RowsOf(c, a) + RowsOf(c, b)) + if Kept(c, r) then multiset{Normal(c, r)} else multiset{}
  {
    RowsOfConcat(c, a + [r], b);
    RowsOfStep(c, a, r);
  }

  lemma OneRowLess(rest: seq<Row>, row: Row, other: Row, p: seq<Row>, q: seq<Row>, kept: bool)
    requires row != other && multiset(p) == multiset(rest) + multiset{row}
    requires multiset(q) == multiset(rest) + if kept then multiset{other} else multiset{}
    ensures !(multiset(p) <= multiset(q))
  {
    assert multiset(p)[row] == multiset(rest)[row] + 1;
    assert multiset(q)[row] == multiset(rest)[row];
  }

  /** Any other change to an ordinary column is overlooked: the rows compared are the same. */
  lemma ChangeOverlooked(c: Reading, r: Record, r': Record, name: string)
    requires Compared(c, r, name) && !Differ(c, name, Get(r, name), Get(r', name))
    requires name != "ItemId" && name != "UserId" && name != "DeviceId" && name !in c.settings.folders
    requires forall other :: other != name ==> Get(r', other) == Get(r, other)
    ensures Normal(c, r') == Normal(c, r) && (Kept(c, r') <==> Kept(c, r))
  {
    NormalDiffers(c, r, r', name);
    assert Get(r', "UserId") == Get(r, "UserId") && Get(r', "DeviceId") == Get(r, "DeviceId") && Get(r', "ItemId") == Get(r, "ItemId");
    SameKeys(c, r, r');
    forall other | other in Normal(c, r).Keys ensures Normal(c, r')[other] == Normal(c, r)[other] {
      if other != name {
        SameElsewhere(c, r, r', other);
      }
    }
    SameRow(Normal(c, r'), Normal(c, r));
  }

  lemma SameRow(p: Row, q: Row)
    requires p.Keys == q.Keys && forall name :: name in q.Keys ==> p[name] == q[name]
    ensures p == q
  {
  }

  lemma StageKeys(c: Reading, row: Row)
    ensures Named(c, row).Keys == row.Keys && Dated(c, row).Keys == row.Keys && Blanked(c, row).Keys == row.Keys
  {
  }

  lemma SameKeys(c: Reading, r: Record, r': Record)
    requires Get(r', "DeviceId") == Get(r, "DeviceId")
    ensures Normal(c, r').Keys == Normal(c, r).Keys == Trimmed(c, r, Columns(c, r)).Keys == Trimmed(c, r', Columns(c, r')).Keys
  {
    var p, q := Trimmed(c, r, Columns(c, r)), Trimmed(c, r', Columns(c, r'));
    StageKeys(c, p);
    StageKeys(c, Named(c, p));
    StageKeys(c, Dated(c, Named(c, p)));
    StageKeys(c, q);
    StageKeys(c, Named(c, q));
    StageKeys(c, Dated(c, Named(c, q)));
    assert p.Keys == q.Keys;
  }

  lemma SameNamed(c: Reading, p: Row, q: Row, name: string)
    requires p.Keys == q.Keys && name in p && p[name] == q[name] && Get(p, "ItemId") == Get(q, "ItemId")
    ensures Named(c, p).Keys == Named(c, q).Keys == p.Keys && Named(c, p)[name] == Named(c, q)[name]
  {
  }

  lemma SameShown(c: Reading, p: Row, q: Row, name: string)
    requires p.Keys == q.Keys && name in p && p[name] == q[name]
    ensures name in Blanked(c, Dated(c, p)) && name in Blanked(c, Dated(c, q))
    ensures Blanked(c, Dated(c, p))[name] == Blanked(c, Dated(c, q))[name]
  {
    StageKeys(c, p);
    StageKeys(c, q);
  }

  lemma SameElsewhere(c: Reading, r: Record, r': Record, other: string)
    requires Get(r', "DeviceId") == Get(r, "DeviceId") && Get(r', "ItemId") == Get(r, "ItemId") && Get(r', other) == Get(r, other)
    requires other in Normal(c, r).Keys
    ensures other in Normal(c, r').Keys && Normal(c, r')[other] == Normal(c, r)[other]
  {
    SameKeys(c, r, r');
    var p, q := Trimmed(c, r, Columns(c, r)), Trimmed(c, r', Columns(c, r'));
    TrimmedCell(c, r, other);
    TrimmedCell(c, r', other);
    TrimmedItem(c, r, r');
    SameNamed(c, p, q, other);
    SameShown(c, Named(c, p), Named(c, q), other);
  }

  lemma TrimmedCell(c: Reading, r: Record, name: string)
    requires name in Trimmed(c, r, Columns(c, r))
    ensures Trimmed(c, r, Columns(c, r))[name] == Normalize(c.lib, Get(r, name))
  {
  }

  lemma TrimmedItem(c: Reading, r: Record, r': Record)
    requires Get(r', "DeviceId") == Get(r, "DeviceId") && Get(r', "ItemId") == Get(r, "ItemId")
    ensures Get(Trimmed(c, r, Columns(c, r)), "ItemId") == Get(Trimmed(c, r', Columns(c, r')), "ItemId")
  {
  }

  // ----- keys -----------------------------------------------------------------------------------------------------

  /** A row is filed under its key columns, printed, with slashes between them. */
  lemma KeyText(lib: Library, row: Row, keys: seq<string>, last: string)
    ensures Joined(lib, row, [last]) == lib.show(Get(row, last))
    ensures keys != [] ==> Joined(lib, row, keys + [last]) == Joined(lib, row, keys) + "/" + lib.show(Get(row, last))
  {
    assert (keys + [last])[..|keys|] == keys;
  }

  /** A row lacks a key column exactly when the column is not hashed or was dropped for the device. */
  lemma UnkeyedIff(c: Reading, r: Record)
    ensures Unkeyed(c, r) <==>
            && OfUser(c, r)
            && (exists name :: name in c.keys && (name !in c.columns || (name in c.settings.volatile && Get(r, "DeviceId") in c.reauthenticated)))
  {
    KeptIff(c, r);
    SameKeys(c, r, r);
    assert forall name :: name in Normal(c, r) <==>
      name in c.columns && !(name in c.settings.volatile && Get(r, "DeviceId") in c.reauthenticated);
  }

  // ----- the derived column ---------------------------------------------------------------------------------------------

  lemma {:induction false} CleanOfOthers(c: Reading, a: seq<Record>, b: seq<Record>, key: string)
    requires forall i :: 0 <= i < |b| && Kept(c, b[i]) ==> Key(c, Normal(c, b[i])) != key
    requires key in CleanOf(c, a)
    ensures key in CleanOf(c, a + b) && CleanOf(c, a + b)[key] == CleanOf(c, a)[key]
  {
    if b == [] {
      assert a + b == a;
    } else {
      var front, last := b[..|b| - 1], b[|b| - 1];
      CleanOfOthers(c, a, front, key);
      assert a + b == a + front + [last];
      CleanStep(c, a + front, last);
    }
  }

  lemma CleanAt(c: Reading, a: seq<Record>, r: Record, b: seq<Record>)
    requires c.derived.Some? && Kept(c, r)
    requires forall i :: 0 <= i < |b| && Kept(c, b[i]) ==> Key(c, Normal(c, b[i])) != Key(c, Normal(c, r))
    ensures var key := Key(c, Normal(c, r));
            key in CleanOf(c, a + [r] + b) && CleanOf(c, a + [r] + b)[key] == CleanPair(c, r)
  {
    CleanStep(c, a, r);
    CleanOfOthers(c, a + [r], b, Key(c, Normal(c, r)));
  }

  /**
   A derived value that neither stays nor becomes what its source derives to is reported, for every
   record that is the last of its key.
   */
  lemma DamageReported(c: Reading, a: seq<Record>, r: Record, r': Record, b: seq<Record>)
    requires c.derived.Some? && OfUser(c, r) && OfUser(c, r') && Key(c, Normal(c, r)) == Key(c, Normal(c, r'))
    requires forall i :: 0 <= i < |b| && Kept(c, b[i]) ==> Key(c, Normal(c, b[i])) != Key(c, Normal(c, r))
    requires Get(r', c.derived.value.0) != Get(r, c.derived.value.0)
    requires Get(r', c.derived.value.0) != c.lib.derive(Get(r', c.derived.value.1))
    ensures !Unharmed(ShotOf(c, a + [r] + b), ShotOf(c, a + [r'] + b))
  {
    KeptIff(c, r);
    KeptIff(c, r');
    CleanAt(c, a, r, b);
    CleanAt(c, a, r', b);
    var was, now := ShotOf(c, a + [r] + b), ShotOf(c, a + [r'] + b);
    assert !CleanKept(was.clean, now.clean, Key(c, Normal(c, r)));
  }

  lemma SomeUnkeyedIff(c: Reading, records: seq<Record>)
    ensures SomeUnkeyed(c, records) <==> exists r :: r in records && Unkeyed(c, r)
  {
    if r :| r in records && Unkeyed(c, r) {
      var i :| 0 <= i < |records| && records[i] == r;
      assert Unkeyed(c, records[i]);
    }
  }

  // ----- devices -------------------------------------------------------------------------------------------------------

  /** On a device nobody logged in from, a reset token, a deactivation or a new id is reported. */
  lemma DeviceResetReported(c: Reading, a: seq<Record>, r: Record, r': Record, b: seq<Record>, name: string)
    requires c.settings == SettingsOf("Devices") && name in {"Id", "AccessToken", "IsActive"} && name in c.columns
    requires OfUser(c, r) && Get(r, "DeviceId") !in c.reauthenticated && Get(r', "DeviceId") !in c.reauthenticated
    requires Differ(c, name, Get(r, name), Get(r', name))
    ensures !Unharmed(ShotOf(c, a + [r] + b), ShotOf(c, a + [r'] + b))
  {
    ChangeReported(c, a, r, r', b, name);
  }

  /** On one the harness logged in from, those and the creation date are not compared. */
  lemma ReloginIgnored(c: Reading, r: Record, name: string)
    requires c.settings == SettingsOf("Devices") && Get(r, "DeviceId") in c.reauthenticated
    requires name in {"Id", "AccessToken", "IsActive", "DateCreated"}
    ensures name !in Normal(c, r)
  {
    SameKeys(c, r, r);
  }

  /** What every request re-announces is never compared. */
  lemma AnnouncedIgnored(name: string, info: Info, only: Option<set<string>>)
    requires name in {"AppName", "AppVersion", "DeviceName", "DateModified", "DateLastActivity"}
    ensures name !in Hashed(SettingsOf("Devices"), info, only)
  {
    FilterMember((name: string) => name !in SettingsOf("Devices").ignored && (only.None? || name in only.value), info.columns, name);
  }
}

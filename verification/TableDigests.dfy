/**
 One table read into normalised rows and compared with an earlier reading
 (gates/adoption/table_digests.py). A digest is its row, a sorted list of digests the multiset of
 its rows; GUID parsing, timestamp parsing, the re-derivation of a clean value and the printing
 of a key part are functions the model is given.
 */
module TableDigests {
  import opened Options
  import opened Sequences
  import opened FolderText

  datatype Cell = Null | Number(n: int) | Text(text: string) | Blob(tag: int)

  type Record = map<string, Cell>
  type Row = map<string, Cell>

  datatype Library = Library(
    guid: string -> string,              // a GUID as 32 hexadecimal digits, any other text as it is
    instant: string -> Option<Cell>,     // a date as its instant, None when it is not one
    derive: Cell -> Cell,                // repaired_clean_value
    show: Cell -> string)                // str()

  /** What is particular to one table. */
  datatype Settings = Settings(
    ignored: set<string>, volatile: set<string>, keys: seq<string>, itemKeyed: bool, folders: set<string>,
    dates: set<string>, derived: Option<(string, string)>, userOwned: bool)

  const ItemKeyed := {"MediaStreamInfos", "AttachmentStreamInfos", "Chapters", "TrickplayInfos", "MediaSegments",
    "KeyframeData", "ItemValuesMap", "PeopleBaseItemMap", "DisplayPreferences", "ItemDisplayPreferences",
    "CustomItemDisplayPreferences"}

  const UserOwned := {"DisplayPreferences", "ItemDisplayPreferences", "CustomItemDisplayPreferences", "Devices"}

  function SettingsOf(table: string): Settings {
    Settings(
      if table == "Devices" then {"AppName", "AppVersion", "DeviceName", "DateModified", "DateLastActivity"}
      else if table == "ApiKeys" then {"DateLastActivity"} else {},
      if table == "Devices" then {"Id", "AccessToken", "IsActive", "DateCreated"} else {},
      if table == "Devices" then ["UserId", "DeviceId"] else [],
      table in ItemKeyed,
      if table == "Chapters" then {"ImagePath"} else {},
      if table == "ActivityLogs" || table == "ApiKeys" || table == "Devices" then {"DateCreated"}
      else if table == "Chapters" then {"ImageDateModified"} else {},
      if table == "ItemValues" then Some(("CleanValue", "Value")) else None,
      table in UserOwned)
  }

  // ----- items and their identities -------------------------------------------------------------------------

  datatype Item = Item(id: string, path: Option<string>, owner: Option<string>)

  const NoOwner := {"00000000000000000000000000000000", "00000000000000000000000000000001"}

  predicate Owned(lib: Library, item: Item) {
    item.owner.Some? && lib.guid(item.owner.value) != "" && lib.guid(item.owner.value) !in NoOwner
  }

  /** Owned, with a path no other item has. */
  predicate Identifiable(lib: Library, items: seq<Item>, i: nat)
    requires i < |items|
  {
    && items[i].path.Some? && items[i].path.value != "" && Owned(lib, items[i])
    && forall j :: 0 <= j < |items| && j != i ==> items[j].path != items[i].path
  }

  function IdentitiesUpTo(lib: Library, items: seq<Item>, n: nat): map<string, string>
    requires n <= |items|
  {
    if n == 0 then map[]
    else if Identifiable(lib, items, n - 1) then
      IdentitiesUpTo(lib, items, n - 1)[lib.guid(items[n - 1].id) := "path:" + items[n - 1].path.value]
    else IdentitiesUpTo(lib, items, n - 1)
  }

  /** {item id: 'path:<Path>'} */
  function Identities(lib: Library, items: seq<Item>): map<string, string> {
    IdentitiesUpTo(lib, items, |items|)
  }

  // ----- one record --------------------------------------------------------------------------------------------

  /** What a table is read with. */
  datatype Reading = Reading(lib: Library, settings: Settings, columns: seq<string>, keys: seq<string>,
                             derived: Option<(string, string)>, identity: map<string, string>,
                             users: set<Cell>, reauthenticated: set<Cell>)

  function Get(r: Record, name: string): Cell {
    if name in r then r[name] else Null
  }

  function Normalize(lib: Library, c: Cell): Cell {
    if c.Text? then Text(lib.guid(c.text)) else c
  }

  predicate Kept(c: Reading, r: Record) {
    c.settings.userOwned && Get(r, "UserId") != Null ==> Normalize(c.lib, Get(r, "UserId")) in c.users
  }

  function Columns(c: Reading, r: Record): Row {
    map name | name in c.columns :: Normalize(c.lib, Get(r, name))
  }

  function Trimmed(c: Reading, r: Record, row: Row): Row {
    if Get(r, "DeviceId") in c.reauthenticated then row - c.settings.volatile else row
  }

  predicate Identified(c: Reading, row: Row) {
    c.settings.itemKeyed && Get(row, "ItemId").Text? && Get(row, "ItemId").text in c.identity
  }

  function Named(c: Reading, row: Row): Row {
    if Identified(c, row) then
      var item := Get(row, "ItemId").text;
      map name | name in row ::
        if name == "ItemId" then Text(c.identity[item])
        else if name in c.settings.folders && row[name].Text? then Text(Replace(row[name].text, Folder(item), "/<item>/"))
        else row[name]
    else row
  }

  function Dated(c: Reading, row: Row): Row {
    map name | name in row ::
      if name in c.settings.dates && row[name].Text? && c.lib.instant(row[name].text).Some?
      then c.lib.instant(row[name].text).value else row[name]
  }

  function Blanked(c: Reading, row: Row): Row {
    if c.settings.derived.Some? && c.settings.derived.value.0 in row then row[c.settings.derived.value.0 := Null] else row
  }

  /** The row a record is compared as. */
  function Normal(c: Reading, r: Record): Row {
    Blanked(c, Dated(c, Named(c, Trimmed(c, r, Columns(c, r)))))
  }

  function Joined(lib: Library, row: Row, keys: seq<string>): string {
    if keys == [] then ""
    else if |keys| == 1 then lib.show(Get(row, keys[0]))
    else Joined(lib, row, keys[..|keys| - 1]) + "/" + lib.show(Get(row, keys[|keys| - 1]))
  }

  function Key(c: Reading, row: Row): string {
    Joined(c.lib, row, c.keys)
  }

  // ----- a table ---------------------------------------------------------------------------------------------------

  datatype Shot = Shot(columns: seq<string>, rows: map<string, multiset<Row>>, clean: map<string, (Cell, Cell)>)

  datatype Error = MissingTable | NoPrimaryKey

  /** `KeyMissing`: a row lacks a key column, because the baseline or a re-authentication dropped it. */
  datatype Result = Read(shot: Shot) | CheckError(error: Error) | KeyMissing

  /** The columns of a table, and those of its primary key in order. */
  datatype Info = Info(columns: seq<string>, primary: seq<string>)

  function Hashed(s: Settings, info: Info, only: Option<set<string>>): seq<string> {
    Filter((name: string) => name !in s.ignored && (only.None? || name in only.value), info.columns)
  }

  function ReadingOf(lib: Library, s: Settings, info: Info, only: Option<set<string>>, identity: map<string, string>,
                     users: set<Cell>, reauthenticated: set<Cell>): Reading {
    Reading(lib, s, Hashed(s, info, only), if s.keys != [] then s.keys else info.primary,
      if s.derived.Some? && s.derived.value.0 in info.columns && s.derived.value.1 in info.columns then s.derived else None,
      identity, users, reauthenticated)
  }

  method TableRows(lib: Library, s: Settings, info: Info, only: Option<set<string>>, identity: map<string, string>,
                   users: set<Cell>, reauthenticated: set<Cell>, records: seq<Record>) returns (result: Result)
    ensures result == CheckError(MissingTable) <==> info.columns == []
    ensures result == CheckError(NoPrimaryKey) <==> info.columns != [] && s.keys == [] && info.primary == []
    ensures result == KeyMissing <==>
            && info.columns != [] && (s.keys != [] || info.primary != [])
            && SomeUnkeyed(ReadingOf(lib, s, info, only, identity, users, reauthenticated), records)
    ensures result.Read? ==> forall name :: name in result.shot.columns <==>
              name in info.columns && name !in s.ignored && (only.Some? ==> name in only.value)
    ensures result.Read? ==> result.shot == ShotOf(ReadingOf(lib, s, info, only, identity, users, reauthenticated), records)
  {
    if info.columns == [] { return CheckError(MissingTable); }
    var c := ReadingOf(lib, s, info, only, identity, users, reauthenticated);
    if c.keys == [] { return CheckError(NoPrimaryKey); }
    if SomeUnkeyed(c, records) { return KeyMissing; }
    var rows, clean := ReadRecords(c, records);
    forall name ensures name in c.columns <==> name in info.columns && name !in s.ignored && (only.Some? ==> name in only.value) {
      FilterMember((name: string) => name !in s.ignored && (only.None? || name in only.value), info.columns, name);
    }
    result := Read(Shot(c.columns, rows, clean));
  }

  /** A record that is read and has no value for some key column. */
  predicate Unkeyed(c: Reading, r: Record) {
    Kept(c, r) && exists name :: name in c.keys && name !in Normal(c, r)
  }

  predicate SomeUnkeyed(c: Reading, records: seq<Record>) {
    exists i :: 0 <= i < |records| && Unkeyed(c, records[i])
  }

  method ReadRecords(c: Reading, records: seq<Record>) returns (rows: map<string, multiset<Row>>, clean: map<string, (Cell, Cell)>)
    ensures rows == Grouped(c, RowsOf(c, records)) && clean == CleanOf(c, records)
  {
    rows, clean := map[], map[];
    for i := 0 to |records|
      invariant rows == Grouped(c, RowsOf(c, records[..i])) && clean == CleanOf(c, records[..i])
    {
      RecordStep(c, records[..i], records[i]);
      CleanStep(c, records[..i], records[i]);
      assert records[..i + 1] == records[..i] + [records[i]];
      if Kept(c, records[i]) {
        var row := Normal(c, records[i]);
        rows := Filed(rows, Key(c, row), row);
        if c.derived.Some? {
          clean := clean[Key(c, row) := CleanPair(c, records[i])];
        }
      }
    }
    assert records[..|records|] == records;
  }

  lemma RowsOfStep(c: Reading, records: seq<Record>, r: Record)
    ensures RowsOf(c, records + [r]) == RowsOf(c, records) + if Kept(c, r) then [Normal(c, r)] else []
  {
    assert (records + [r])[..|records|] == records;
  }

  lemma GroupedStep(c: Reading, rows: seq<Row>, row: Row)
    ensures Grouped(c, rows + [row]) == Filed(Grouped(c, rows), Key(c, row), row)
  {
    assert (rows + [row])[..|rows|] == rows;
  }

  lemma RecordStep(c: Reading, records: seq<Record>, r: Record)
    ensures Grouped(c, RowsOf(c, records + [r])) ==
            if Kept(c, r) then Filed(Grouped(c, RowsOf(c, records)), Key(c, Normal(c, r)), Normal(c, r)) else Grouped(c, RowsOf(c, records))
  {
    var rows, more := RowsOf(c, records), RowsOf(c, records + [r]);
    RowsOfStep(c, records, r);
    if Kept(c, r) {
      GroupedStep(c, rows, Normal(c, r));
    } else {
      assert more == rows;
    }
  }

  lemma CleanStep(c: Reading, records: seq<Record>, r: Record)
    ensures CleanOf(c, records + [r]) ==
            if Kept(c, r) && c.derived.Some? then CleanOf(c, records)[Key(c, Normal(c, r)) := CleanPair(c, r)] else CleanOf(c, records)
  {
    assert (records + [r])[..|records|] == records;
  }

  /** The stored value and what its source derives to. */
  function CleanPair(c: Reading, r: Record): (Cell, Cell)
    requires c.derived.Some?
  {
    (Get(r, c.derived.value.0), c.lib.derive(Get(r, c.derived.value.1)))
  }

  /** `rows.setdefault(key, []).append(row)` */
  function Filed(rows: map<string, multiset<Row>>, key: string, row: Row): map<string, multiset<Row>> {
    rows[key := (if key in rows then rows[key] else multiset{}) + multiset{row}]
  }

  /** The normalised rows of the records kept. */
  function RowsOf(c: Reading, records: seq<Record>): seq<Row> {
    if records == [] then []
    else RowsOf(c, records[..|records| - 1]) + (if Kept(c, records[|records| - 1]) then [Normal(c, records[|records| - 1])] else [])
  }

  function Grouped(c: Reading, rows: seq<Row>): map<string, multiset<Row>> {
    if rows == [] then map[]
    else Filed(Grouped(c, rows[..|rows| - 1]), Key(c, rows[|rows| - 1]), rows[|rows| - 1])
  }

  /** The stored and the derived value by key; of records sharing one, the last. */
  function CleanOf(c: Reading, records: seq<Record>): map<string, (Cell, Cell)> {
    if records == [] then map[]
    else
      var front, last := CleanOf(c, records[..|records| - 1]), records[|records| - 1];
      if Kept(c, last) && c.derived.Some? then
        front[Key(c, Normal(c, last)) := CleanPair(c, last)]
      else front
  }

  function ShotOf(c: Reading, records: seq<Record>): Shot {
    Shot(c.columns, Grouped(c, RowsOf(c, records)), CleanOf(c, records))
  }

  /** A group holds the rows of its key, each as often as the table has it. */
  lemma {:induction false} GroupedCount(c: Reading, rows: seq<Row>, key: string, row: Row)
    ensures (if key in Grouped(c, rows) then Grouped(c, rows)[key][row] else 0) == (if Key(c, row) == key then multiset(rows)[row] else 0)
    ensures key in Grouped(c, rows) ==> Grouped(c, rows)[key] != multiset{}
  {
    if rows != [] {
      GroupedCount(c, rows[..|rows| - 1], key, row);
      SplitLast(rows);
    }
  }

  // ----- comparing two readings ------------------------------------------------------------------------------------

  datatype Failure = LostColumns(names: seq<string>) | Gone(key: string) | Changed(key: string)
                   | Fewer(key: string, lost: nat, of: nat) | CleanChanged(key: string)

  predicate Included(was: map<string, multiset<Row>>, now: map<string, multiset<Row>>, key: string)
    requires key in was
  {
    key in now && was[key] <= now[key]
  }

  predicate CleanKept(was: map<string, (Cell, Cell)>, now: map<string, (Cell, Cell)>, key: string)
    requires key in was
  {
    key in now ==> now[key].0 == was[key].0 || now[key].0 == now[key].1
  }

  predicate RowFailure(was: map<string, multiset<Row>>, now: map<string, multiset<Row>>, f: Failure) {
    match f
    case Gone(key) => key in was && key !in now
    case Changed(key) => key in was && key in now && !(was[key] <= now[key]) && |was[key]| == 1 && |now[key]| == 1
    case Fewer(key, lost, of) =>
      && key in was && key in now && !(was[key] <= now[key]) && !(|was[key]| == 1 && |now[key]| == 1)
      && lost == |was[key] - now[key]| && of == |was[key]|
    case _ => false
  }

  method CompareRows(was: map<string, multiset<Row>>, now: map<string, multiset<Row>>) returns (failures: seq<Failure>)
    ensures failures == [] <==> forall key :: key in was ==> Included(was, now, key)
    ensures forall f :: f in failures <==> RowFailure(was, now, f)
  {
    failures := [];
    var todo := was.Keys;
    while todo != {}
      invariant todo <= was.Keys
      invariant forall f :: f in failures <==> RowFailure(was, now, f) && KeyOf(f) !in todo
      invariant failures == [] <==> forall key :: key in was && key !in todo ==> Included(was, now, key)
    {
      var key :| key in todo;
      todo := todo - {key};
      var f := CompareKey(was, now, key);
      if f.Some? {
        failures := failures + [f.value];
      }
    }
  }

  function KeyOf(f: Failure): string {
    match f
    case Gone(key) => key
    case Changed(key) => key
    case Fewer(key, _, _) => key
    case CleanChanged(key) => key
    case LostColumns(_) => ""
  }

  /** A row gone, one row against one, or the rows sharing the key counted. */
  method CompareKey(was: map<string, multiset<Row>>, now: map<string, multiset<Row>>, key: string) returns (failure: Option<Failure>)
    requires key in was
    ensures failure.None? <==> Included(was, now, key)
    ensures forall f :: RowFailure(was, now, f) && KeyOf(f) == key <==> failure == Some(f)
  {
    if key !in now {
      failure := Some(Gone(key));
    } else if |was[key]| == 1 && |now[key]| == 1 {
      SingletonIncluded(was[key], now[key]);
      failure := if was[key] != now[key] then Some(Changed(key)) else None;
    } else {
      var lost := was[key] - now[key];
      DifferenceEmpty(was[key], now[key]);
      failure := if lost != multiset{} then Some(Fewer(key, |lost|, |was[key]|)) else None;
    }
  }

  lemma SingletonIncluded<T>(m: multiset<T>, n: multiset<T>)
    requires |m| == 1 && |n| == 1
    ensures m <= n <==> m == n
  {
    if m <= n {
      assert |n - m| == 0;
      assert n == m + (n - m);
    }
  }

  lemma DifferenceEmpty<T>(m: multiset<T>, n: multiset<T>)
    ensures m - n == multiset{} <==> m <= n
  {
    if m - n == multiset{} {
      forall x ensures m[x] <= n[x] {
        assert (m - n)[x] == 0;
      }
    }
  }

  method CompareClean(was: map<string, (Cell, Cell)>, now: map<string, (Cell, Cell)>) returns (failures: seq<Failure>)
    ensures failures == [] <==> forall key :: key in was ==> CleanKept(was, now, key)
    ensures forall f :: f in failures <==> f.CleanChanged? && f.key in was && !CleanKept(was, now, f.key)
  {
    failures := [];
    var todo := was.Keys;
    while todo != {}
      invariant todo <= was.Keys
      invariant forall f :: f in failures <==> f.CleanChanged? && f.key in was && f.key !in todo && !CleanKept(was, now, f.key)
      invariant failures == [] <==> forall key :: key in was && key !in todo ==> CleanKept(was, now, key)
    {
      var key :| key in todo;
      todo := todo - {key};
      if key in now && now[key].0 != was[key].0 && now[key].0 != now[key].1 {
        failures := failures + [CleanChanged(key)];
      }
    }
  }

  /** Nothing the earlier reading holds is missing or damaged in the later one. */
  ghost predicate Unharmed(was: Shot, now: Shot) {
    && (forall name :: name in was.columns ==> name in now.columns)
    && (forall key :: key in was.rows ==> Included(was.rows, now.rows, key))
    && (forall key :: key in was.clean ==> CleanKept(was.clean, now.clean, key))
  }

  method CompareTable(was: Shot, now: Shot) returns (failures: seq<Failure>)
    ensures failures == [] <==> Unharmed(was, now)
    ensures (forall name :: name in was.columns ==> name in now.columns) ==>
              forall f :: f in failures <==> RowFailure(was.rows, now.rows, f) || (f.CleanChanged? && f.key in was.clean && !CleanKept(was.clean, now.clean, f.key))
    ensures (exists name :: name in was.columns && name !in now.columns) ==>
              |failures| == 1 && failures[0].LostColumns? && forall name :: name in failures[0].names <==> name in was.columns && name !in now.columns
  {
    var gone := Filter((name: string) => name !in now.columns, was.columns);
    forall name ensures name in gone <==> name in was.columns && name !in now.columns {
      FilterMember((name: string) => name !in now.columns, was.columns, name);
    }
    if gone != [] {
      assert gone[0] in gone;
      return [LostColumns(gone)];
    }
    var rows := CompareRows(was.rows, now.rows);
    var clean := CompareClean(was.clean, now.clean);
    failures := rows + clean;
  }

  /** Every table of two snapshots; the later one has every table, as reading it fails otherwise. */
  method Compare(before: map<string, Shot>, after: map<string, Shot>) returns (failures: seq<(string, Failure)>)
    requires before.Keys <= after.Keys
    ensures failures == [] <==> forall table :: table in before ==> Unharmed(before[table], after[table])
  {
    failures := [];
    var todo := before.Keys;
    while todo != {}
      invariant todo <= before.Keys
      invariant failures == [] <==> forall table :: table in before && table !in todo ==> Unharmed(before[table], after[table])
    {
      var table :| table in todo;
      todo := todo - {table};
      var found := CompareTable(before[table], after[table]);
      failures := failures + Map((f: Failure) => (table, f), found);
    }
  }

  // ----- what a clean comparison means -------------------------------------------------------------------------------

  /** Whatever the keys and the one-row shortcut, the rows compare clean exactly when they are included as a multiset. */
  lemma RowsIncludedIff(c: Reading, p: seq<Row>, q: seq<Row>)
    ensures (forall key :: key in Grouped(c, p) ==> Included(Grouped(c, p), Grouped(c, q), key)) <==> multiset(p) <= multiset(q)
  {
    var was, now := Grouped(c, p), Grouped(c, q);
    if forall key :: key in was ==> Included(was, now, key) {
      forall row ensures multiset(p)[row] <= multiset(q)[row] {
        GroupedCount(c, p, Key(c, row), row);
        GroupedCount(c, q, Key(c, row), row);
        assert Key(c, row) in was ==> Included(was, now, Key(c, row));
      }
    }
    if multiset(p) <= multiset(q) {
      forall key | key in was ensures Included(was, now, key) {
        forall row ensures was[key][row] <= (if key in now then now[key][row] else 0) {
          GroupedCount(c, p, key, row);
          GroupedCount(c, q, key, row);
        }
        GroupedCount(c, p, key, map[]);
        var row :| row in was[key];
        assert was[key][row] > 0;
      }
    }
  }

  /** Losing any compared record is reported, whatever shares its key. */
  lemma LossReported(c: Reading, records: seq<Record>, i: nat)
    requires i < |records| && Kept(c, records[i])
    ensures !Unharmed(ShotOf(c, records), ShotOf(c, Without(records, i)))
  {
    RowsOfWithout(c, records, i);
    RowsIncludedIff(c, RowsOf(c, records), RowsOf(c, Without(records, i)));
  }

  lemma {:induction false} RowsOfConcat(c: Reading, a: seq<Record>, b: seq<Record>)
    ensures RowsOf(c, a + b) == RowsOf(c, a) + RowsOf(c, b)
  {
    if b == [] {
      assert a + b == a;
    } else {
      RowsOfConcat(c, a, b[..|b| - 1]);
      assert (a + b)[..|a + b| - 1] == a + b[..|b| - 1];
    }
  }

  lemma RowsOfWithout(c: Reading, records: seq<Record>, i: nat)
    requires i < |records| && Kept(c, records[i])
    ensures multiset(RowsOf(c, records)) == multiset(RowsOf(c, Without(records, i))) + multiset{Normal(c, records[i])}
  {
    var a, r, b := records[..i], records[i], records[i + 1..];
    assert records == a + [r] + b;
    RowsOfConcat(c, a + [r], b);
    RowsOfConcat(c, a, [r]);
    RowsOfConcat(c, a, b);
    assert RowsOf(c, [r]) == [Normal(c, r)] by {
      assert [r][..0] == [];
    }
  }
}

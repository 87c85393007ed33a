/**
 What clean table comparisons add up to: they compose, they overlook an owned item moved to a new
 id with its folder, and they never overlook one without an owner (gates/adoption/table_digests.py).
 */
module TableRekey {
  import opened Options
  import opened Sequences
  import opened TextSearch
  import opened FolderText
  import opened TableDigests

  // ----- composition -------------------------------------------------------------------------------------------

  /** Two databases read the same way, each with its own items and users. */
  predicate SameShape(c: Reading, d: Reading) {
    && c.columns == d.columns && c.keys == d.keys && c.derived == d.derived && c.settings == d.settings
  }

  /** The source of the derived column is hashed as its GUID-normalised self. */
  predicate SourceHashed(c: Reading) {
    c.derived.Some? ==>
      var (derived, source) := c.derived.value;
      && c.settings.derived == c.derived && derived != source && source in c.columns
      && !c.settings.itemKeyed && source !in c.settings.dates && source !in c.settings.volatile
  }

  lemma ItemValuesSource(lib: Library, info: Info, only: Option<set<string>>, identity: map<string, string>, users: set<Cell>)
    requires only.None? || "Value" in only.value
    ensures SourceHashed(ReadingOf(lib, SettingsOf("ItemValues"), info, only, identity, users, {}))
  {
    FilterMember((name: string) => name !in SettingsOf("ItemValues").ignored && (only.None? || name in only.value), info.columns, "Value");
  }

  ghost predicate DistinctKeys(c: Reading, records: seq<Record>) {
    forall i, j :: 0 <= i < j < |records| && Kept(c, records[i]) && Kept(c, records[j]) ==>
                     Key(c, Normal(c, records[i])) != Key(c, Normal(c, records[j]))
  }

  /** No source text is GUID-shaped: normalising leaves it alone. */
  ghost predicate PlainSources(c: Reading, records: seq<Record>) {
    c.derived.Some? ==> forall i :: 0 <= i < |records| ==> Plain(c, records[i])
  }

  predicate Plain(c: Reading, r: Record)
    requires c.derived.Some?
  {
    Normalize(c.lib, Get(r, c.derived.value.1)) == Get(r, c.derived.value.1)
  }

  lemma SourceVisible(c: Reading, r: Record)
    requires c.derived.Some? && SourceHashed(c)
    ensures Get(Normal(c, r), c.derived.value.1) == Normalize(c.lib, Get(r, c.derived.value.1))
  {
    var source := c.derived.value.1;
    var row := Trimmed(c, r, Columns(c, r));
    assert source in row && row[source] == Normalize(c.lib, Get(r, source));
    assert Named(c, row) == row;
    assert Dated(c, row)[source] == row[source];
  }

  lemma {:induction false} RowWitness(c: Reading, records: seq<Record>, row: Row) returns (i: nat)
    requires row in RowsOf(c, records)
    ensures i < |records| && Kept(c, records[i]) && Normal(c, records[i]) == row
  {
    var front, last := records[..|records| - 1], records[|records| - 1];
    if row in RowsOf(c, front) {
      i := RowWitness(c, front, row);
    } else {
      i := |records| - 1;
    }
  }

  lemma {:induction false} RowListed(c: Reading, records: seq<Record>, i: nat)
    requires i < |records| && Kept(c, records[i])
    ensures Normal(c, records[i]) in RowsOf(c, records)
  {
    if i < |records| - 1 {
      RowListed(c, records[..|records| - 1], i);
    }
  }

  lemma {:induction false} CleanWitness(c: Reading, records: seq<Record>, key: string) returns (i: nat)
    requires key in CleanOf(c, records)
    ensures i < |records| && c.derived.Some? && Kept(c, records[i])
    ensures Key(c, Normal(c, records[i])) == key && CleanOf(c, records)[key] == CleanPair(c, records[i])
  {
    var last := records[|records| - 1];
    if Kept(c, last) && c.derived.Some? && Key(c, Normal(c, last)) == key {
      i := |records| - 1;
    } else {
      i := CleanWitness(c, records[..|records| - 1], key);
    }
  }

  lemma GroupMember(c: Reading, rows: seq<Row>, key: string, row: Row)
    ensures key in Grouped(c, rows) && row in Grouped(c, rows)[key] <==> row in rows && Key(c, row) == key
  {
    GroupedCount(c, rows, key, row);
  }

  lemma {:induction false} CleanListed(c: Reading, records: seq<Record>, i: nat)
    requires c.derived.Some? && i < |records| && Kept(c, records[i])
    ensures Key(c, Normal(c, records[i])) in CleanOf(c, records)
  {
    if i < |records| - 1 {
      CleanListed(c, records[..|records| - 1], i);
    }
  }

  /** Every group has a clean entry when the derived column is there. */
  lemma CleanPresent(c: Reading, records: seq<Record>, key: string)
    requires c.derived.Some? && key in Grouped(c, RowsOf(c, records))
    ensures key in CleanOf(c, records)
  {
    GroupedCount(c, RowsOf(c, records), key, map[]);
    var row :| row in Grouped(c, RowsOf(c, records))[key];
    GroupMember(c, RowsOf(c, records), key, row);
    var i := RowWitness(c, records, row);
    CleanListed(c, records, i);
  }

  /** Between clean readings the derived value of a key cannot move. */
  lemma DerivedKept(b: Reading, c: Reading, rb: seq<Record>, rc: seq<Record>, key: string)
    requires b.derived.Some? && b.lib == c.lib && SameShape(b, c) && SourceHashed(b)
    requires DistinctKeys(c, rc) && PlainSources(b, rb) && PlainSources(c, rc)
    requires Unharmed(ShotOf(b, rb), ShotOf(c, rc))
    requires key in CleanOf(b, rb) && key in CleanOf(c, rc)
    ensures CleanOf(b, rb)[key].1 == CleanOf(c, rc)[key].1
  {
    var i := CleanWitness(b, rb, key);
    var k := CleanWitness(c, rc, key);
    var row := Normal(b, rb[i]);
    RowListed(b, rb, i);
    GroupMember(b, RowsOf(b, rb), key, row);
    assert Included(Grouped(b, RowsOf(b, rb)), Grouped(c, RowsOf(c, rc)), key);
    GroupMember(c, RowsOf(c, rc), key, row);
    var j := RowWitness(c, rc, row);
    assert j == k;
    SourceVisible(b, rb[i]);
    SourceVisible(c, rc[j]);
    assert Plain(b, rb[i]) && Plain(c, rc[j]);
  }

  /** The value b repaired was kept by c while what it should derive to moved on. */
  predicate Overtaken(a: Shot, b: Shot, c: Shot, key: string) {
    && key in a.clean && key in b.clean && key in c.clean
    && a.clean[key].0 != b.clean[key].0 == c.clean[key].0 && b.clean[key].1 != c.clean[key].1
  }

  lemma ShotsCompose(a: Shot, b: Shot, c: Shot)
    requires Unharmed(a, b) && Unharmed(b, c)
    requires forall key :: key in a.clean && key in c.clean ==> key in b.clean
    ensures Unharmed(a, c) <==> forall key :: !Overtaken(a, b, c, key)
  {
    RowsCompose(a.rows, b.rows, c.rows);
    forall key | key in a.clean ensures CleanKept(a.clean, c.clean, key) <==> !Overtaken(a, b, c, key) {
      if key in c.clean {
        assert CleanKept(a.clean, b.clean, key) && CleanKept(b.clean, c.clean, key);
      }
    }
  }

  /** A key with a clean entry has rows. */
  lemma CleanHasRows(c: Reading, records: seq<Record>, key: string)
    requires key in CleanOf(c, records)
    ensures key in Grouped(c, RowsOf(c, records))
  {
    var i := CleanWitness(c, records, key);
    RowListed(c, records, i);
    GroupMember(c, RowsOf(c, records), key, Normal(c, records[i]));
  }

  /**
   a to b clean and b to c clean make a to c clean exactly when no value b repaired is kept by c
   while its source derives to something else there: for every table, shared keys included.
   */
  lemma ComposesIff(a: Reading, b: Reading, c: Reading, ra: seq<Record>, rb: seq<Record>, rc: seq<Record>)
    requires SameShape(b, c)
    requires Unharmed(ShotOf(a, ra), ShotOf(b, rb)) && Unharmed(ShotOf(b, rb), ShotOf(c, rc))
    ensures Unharmed(ShotOf(a, ra), ShotOf(c, rc)) <==> forall key :: !Overtaken(ShotOf(a, ra), ShotOf(b, rb), ShotOf(c, rc), key)
  {
    var was, now, later := ShotOf(a, ra), ShotOf(b, rb), ShotOf(c, rc);
    forall key | key in was.clean && key in later.clean ensures key in now.clean {
      CleanHasRows(a, ra, key);
      assert Included(was.rows, now.rows, key);
      var _ := CleanWitness(c, rc, key);
      CleanPresent(b, rb, key);
    }
    ShotsCompose(was, now, later);
  }

  /** So they compose where keys are not shared and sources are not GUID-shaped. */
  lemma CleanComposes(a: Reading, b: Reading, c: Reading, ra: seq<Record>, rb: seq<Record>, rc: seq<Record>)
    requires b.lib == c.lib && SameShape(b, c) && SourceHashed(b)
    requires b.derived.Some? ==> DistinctKeys(c, rc) && PlainSources(b, rb) && PlainSources(c, rc)
    requires Unharmed(ShotOf(a, ra), ShotOf(b, rb)) && Unharmed(ShotOf(b, rb), ShotOf(c, rc))
    ensures Unharmed(ShotOf(a, ra), ShotOf(c, rc))
  {
    ComposesIff(a, b, c, ra, rb, rc);
    forall key ensures !Overtaken(ShotOf(a, ra), ShotOf(b, rb), ShotOf(c, rc), key) {
      if key in CleanOf(b, rb) && key in CleanOf(c, rc) {
        var _ := CleanWitness(c, rc, key);
        DerivedKept(b, c, rb, rc, key);
      }
    }
  }

  lemma RowsCompose(a: map<string, multiset<Row>>, b: map<string, multiset<Row>>, c: map<string, multiset<Row>>)
    requires forall key :: key in a ==> Included(a, b, key)
    requires forall key :: key in b ==> Included(b, c, key)
    ensures forall key :: key in a ==> Included(a, c, key)
  {
    forall key | key in a ensures Included(a, c, key) {
      assert Included(a, b, key) && Included(b, c, key);
    }
  }

  // ----- why the source texts matter ----------------------------------------------------------------------------

  /** Two records that normalise alike but for the derived column are compared as one row. */
  lemma NormalIgnoresDerived(c: Reading, r: Record, r': Record)
    requires c.derived.Some? && SourceHashed(c) && Get(r, "DeviceId") == Get(r', "DeviceId")
    requires forall name :: name != c.derived.value.0 ==> Normalize(c.lib, Get(r, name)) == Normalize(c.lib, Get(r', name))
    ensures Normal(c, r) == Normal(c, r')
  {
    var p, q := Trimmed(c, r, Columns(c, r)), Trimmed(c, r', Columns(c, r'));
    assert p.Keys == q.Keys && forall name :: name in p.Keys && name != c.derived.value.0 ==> p[name] == q[name];
    assert Named(c, p) == p && Named(c, q) == q;
    BlankedAlike(c, Dated(c, p), Dated(c, q));
  }

  lemma BlankedAlike(c: Reading, p: Row, q: Row)
    requires c.settings.derived.Some? && p.Keys == q.Keys
    requires forall name :: name in p.Keys && name != c.settings.derived.value.0 ==> p[name] == q[name]
    ensures Blanked(c, p) == Blanked(c, q)
  {
  }

  /** A reading with one row. */
  function Single(columns: seq<string>, key: string, row: Row, pair: (Cell, Cell)): Shot {
    Shot(columns, map[key := multiset{row}], map[key := pair])
  }

  lemma OneRecord(c: Reading, r: Record)
    requires Kept(c, r) && c.derived.Some?
    ensures ShotOf(c, [r]) == Single(c.columns, Key(c, Normal(c, r)), Normal(c, r), CleanPair(c, r))
  {
    assert [] + [r] == [r];
    RecordStep(c, [], r);
    CleanStep(c, [], r);
    FiledFirst(Key(c, Normal(c, r)), Normal(c, r));
    assert Grouped(c, RowsOf(c, [])) == map[];
  }

  lemma FiledFirst(key: string, row: Row)
    ensures Filed(map[], key, row) == map[key := multiset{row}]
  {
    assert multiset{} + multiset{row} == multiset{row};
  }

  lemma SingleUnharmed(columns: seq<string>, key: string, row: Row, was: (Cell, Cell), now: (Cell, Cell))
    ensures Unharmed(Single(columns, key, row, was), Single(columns, key, row, now)) <==> now.0 == was.0 || now.0 == now.1
  {
    var p, q := Single(columns, key, row, was), Single(columns, key, row, now);
    assert Included(p.rows, q.rows, key);
    assert CleanKept(p.clean, q.clean, key) <==> now.0 == was.0 || now.0 == now.1;
  }

  /** A record with its source text and its derived column set. */
  function Stored(c: Reading, r: Record, source: string, derived: Cell): Record
    requires c.derived.Some?
  {
    r[c.derived.value.1 := Text(source)][c.derived.value.0 := derived]
  }

  /**
   GUID-shaped sources do not compose: repaired, then re-spelled so that it derives to something
   else, a value passes both comparisons in turn and fails the one over both steps.
   */
  lemma RespelledBreaks(c: Reading, r: Record, x: Cell, v: string, w: string)
    requires c.derived.Some? && SourceHashed(c) && Kept(c, r)
    requires {c.derived.value.0, c.derived.value.1} !! {"UserId", "DeviceId"}
    requires c.lib.guid(v) == c.lib.guid(w) && c.lib.derive(Text(v)) != c.lib.derive(Text(w)) && x != c.lib.derive(Text(v))
    ensures var a, b := ShotOf(c, [Stored(c, r, v, x)]), ShotOf(c, [Stored(c, r, v, c.lib.derive(Text(v)))]);
            var d := ShotOf(c, [Stored(c, r, w, c.lib.derive(Text(v)))]);
            Unharmed(a, b) && Unharmed(b, d) && !Unharmed(a, d)
  {
    var clean := c.lib.derive(Text(v));
    StoredOne(c, r, v, x, v, x);
    StoredOne(c, r, v, x, v, clean);
    StoredOne(c, r, v, x, w, clean);
    var row := Normal(c, Stored(c, r, v, x));
    SingleUnharmed(c.columns, Key(c, row), row, (x, clean), (clean, clean));
    SingleUnharmed(c.columns, Key(c, row), row, (clean, clean), (clean, c.lib.derive(Text(w))));
    SingleUnharmed(c.columns, Key(c, row), row, (x, clean), (clean, c.lib.derive(Text(w))));
  }

  /** However its source is spelled and its derived column set, the record is compared as the same row. */
  lemma StoredNormal(c: Reading, r: Record, v: string, x: Cell, w: string, y: Cell)
    requires c.derived.Some? && SourceHashed(c) && Kept(c, r) && c.lib.guid(v) == c.lib.guid(w)
    requires {c.derived.value.0, c.derived.value.1} !! {"UserId", "DeviceId"}
    ensures Normal(c, Stored(c, r, w, y)) == Normal(c, Stored(c, r, v, x)) && Kept(c, Stored(c, r, w, y))
    ensures CleanPair(c, Stored(c, r, w, y)) == (y, c.lib.derive(Text(w)))
  {
    var p, q := Stored(c, r, v, x), Stored(c, r, w, y);
    assert Get(q, "UserId") == Get(r, "UserId") && Get(p, "DeviceId") == Get(q, "DeviceId");
    NormalIgnoresDerived(c, q, p);
  }

  lemma StoredOne(c: Reading, r: Record, v: string, x: Cell, w: string, y: Cell)
    requires c.derived.Some? && SourceHashed(c) && Kept(c, r) && c.lib.guid(v) == c.lib.guid(w)
    requires {c.derived.value.0, c.derived.value.1} !! {"UserId", "DeviceId"}
    ensures var row := Normal(c, Stored(c, r, v, x));
            ShotOf(c, [Stored(c, r, w, y)]) == Single(c.columns, Key(c, row), row, (y, c.lib.derive(Text(w))))
  {
    StoredNormal(c, r, v, x, w, y);
    OneRecord(c, Stored(c, r, w, y));
  }

  lemma TwoRecords(c: Reading, p: Record, q: Record)
    requires c.derived.Some? && Kept(c, p) && Kept(c, q) && Key(c, Normal(c, p)) == Key(c, Normal(c, q))
    ensures var key := Key(c, Normal(c, p));
            ShotOf(c, [p, q]) == Shot(c.columns, map[key := multiset{Normal(c, p)} + multiset{Normal(c, q)}], map[key := CleanPair(c, q)])
  {
    assert [p] + [q] == [p, q];
    OneRecord(c, p);
    RecordStep(c, [p], q);
    CleanStep(c, [p], q);
    FiledSecond(Key(c, Normal(c, p)), Normal(c, p), Normal(c, q));
    SecondPair(Key(c, Normal(c, p)), CleanPair(c, p), CleanPair(c, q));
  }

  lemma FiledSecond(key: string, row: Row, other: Row)
    ensures Filed(map[key := multiset{row}], key, other) == map[key := multiset{row} + multiset{other}]
  {
  }

  lemma SecondPair(key: string, was: (Cell, Cell), now: (Cell, Cell))
    ensures map[key := was][key := now] == map[key := now]
  {
  }

  lemma SharedUnharmed(columns: seq<string>, key: string, row: Row, other: Row, was: (Cell, Cell), now: (Cell, Cell))
    ensures Unharmed(Single(columns, key, row, was), Shot(columns, map[key := multiset{row} + multiset{other}], map[key := now]))
            <==> now.0 == was.0 || now.0 == now.1
  {
    var p, q := Single(columns, key, row, was), Shot(columns, map[key := multiset{row} + multiset{other}], map[key := now]);
    assert Included(p.rows, q.rows, key);
    assert CleanKept(p.clean, q.clean, key) <==> now.0 == was.0 || now.0 == now.1;
  }

  /**
   Shared keys do not compose either: beside the repaired record a second one of the same key
   brings its own source, and only the last record's clean pair is compared.
   */
  lemma SharedKeyBreaks(c: Reading, r: Record, r': Record, x: Cell, v: string, w: string)
    requires c.derived.Some? && SourceHashed(c) && Kept(c, r) && Kept(c, r')
    requires {c.derived.value.0, c.derived.value.1} !! {"UserId", "DeviceId"}
    requires c.lib.derive(Text(v)) != c.lib.derive(Text(w)) && x != c.lib.derive(Text(v))
    requires Key(c, Normal(c, Stored(c, r, v, x))) == Key(c, Normal(c, Stored(c, r', w, c.lib.derive(Text(v)))))
    ensures var clean := c.lib.derive(Text(v));
            var a, b := ShotOf(c, [Stored(c, r, v, x)]), ShotOf(c, [Stored(c, r, v, clean)]);
            var d := ShotOf(c, [Stored(c, r, v, clean), Stored(c, r', w, clean)]);
            Unharmed(a, b) && Unharmed(b, d) && !Unharmed(a, d)
  {
    var clean := c.lib.derive(Text(v));
    StoredOne(c, r, v, x, v, x);
    StoredOne(c, r, v, x, v, clean);
    StoredNormal(c, r, v, x, v, clean);
    StoredNormal(c, r', w, clean, w, clean);
    TwoRecords(c, Stored(c, r, v, clean), Stored(c, r', w, clean));
    var row, other := Normal(c, Stored(c, r, v, x)), Normal(c, Stored(c, r', w, clean));
    SingleUnharmed(c.columns, Key(c, row), row, (x, clean), (clean, clean));
    SharedUnharmed(c.columns, Key(c, row), row, other, (clean, clean), (clean, c.lib.derive(Text(w))));
    SharedUnharmed(c.columns, Key(c, row), row, other, (x, clean), (clean, c.lib.derive(Text(w))));
  }

  // ----- moving items to new ids ----------------------------------------------------------------------------------

  /** The settings every item-keyed table has. */
  predicate ItemSettings(s: Settings) {
    && s.itemKeyed && s.derived == None && s.volatile == {}
    && "ItemId" !in s.folders && "UserId" !in s.folders && "ItemId" !in s.dates
  }

  lemma ItemTables(table: string)
    ensures table in ItemKeyed <==> ItemSettings(SettingsOf(table))
  {
  }

  /** GUID parsing rewrites no text with a slash and writes none. */
  ghost predicate GuidLaw(lib: Library) {
    forall s :: lib.guid(s) == s || ('/' !in s && '/' !in lib.guid(s))
  }

  /** The same items under new ids: paths kept, and whether they have an owner. */
  ghost predicate Renamed(lib: Library, items: seq<Item>, items': seq<Item>, move: string -> string) {
    && |items'| == |items|
    && (forall i :: 0 <= i < |items| ==>
          && lib.guid(items'[i].id) == move(lib.guid(items[i].id))
          && items'[i].path == items[i].path && (Owned(lib, items'[i]) <==> Owned(lib, items[i])))
    && (forall i, j :: 0 <= i < |items| && 0 <= j < |items| && move(lib.guid(items[i].id)) == move(lib.guid(items[j].id)) ==>
          lib.guid(items[i].id) == lib.guid(items[j].id))
  }

  lemma {:induction false} IdentityKeys(lib: Library, items: seq<Item>, n: nat, id: string) returns (i: nat)
    requires n <= |items| && id in IdentitiesUpTo(lib, items, n)
    ensures i < n && Identifiable(lib, items, i) && lib.guid(items[i].id) == id
    ensures IdentitiesUpTo(lib, items, n)[id] == "path:" + items[i].path.value
  {
    if Identifiable(lib, items, n - 1) && lib.guid(items[n - 1].id) == id {
      i := n - 1;
    } else {
      i := IdentityKeys(lib, items, n - 1, id);
    }
  }

  /** The item has an owner (the two ids that mean none aside) and a path no other item has. */
  predicate OwnedAlone(lib: Library, items: seq<Item>, i: nat)
    requires i < |items|
  {
    match (items[i].owner, items[i].path)
    case (Some(owner), Some(path)) =>
      && lib.guid(owner) !in {"", "00000000000000000000000000000000", "00000000000000000000000000000001"}
      && path != "" && forall j :: 0 <= j < |items| && items[j].path == Some(path) ==> j == i
    case _ => false
  }

  lemma {:induction false} IdentityListed(lib: Library, items: seq<Item>, n: nat, i: nat)
    requires i < n <= |items| && Identifiable(lib, items, i)
    ensures lib.guid(items[i].id) in IdentitiesUpTo(lib, items, n)
  {
    if i < n - 1 { IdentityListed(lib, items, n - 1, i); }
  }

  /** An id is known by a path exactly when it is the id of an owned item alone on its path. */
  lemma IdentityIff(lib: Library, items: seq<Item>, id: string)
    ensures id in Identities(lib, items) <==> exists i :: 0 <= i < |items| && lib.guid(items[i].id) == id && OwnedAlone(lib, items, i)
    ensures id in Identities(lib, items) ==>
              exists i :: 0 <= i < |items| && lib.guid(items[i].id) == id && OwnedAlone(lib, items, i)
                          && Identities(lib, items)[id] == "path:" + items[i].path.value
  {
    forall i | 0 <= i < |items| ensures Identifiable(lib, items, i) <==> OwnedAlone(lib, items, i) {
    }
    if id in Identities(lib, items) {
      var i := IdentityKeys(lib, items, |items|, id);
    }
    if i :| 0 <= i < |items| && lib.guid(items[i].id) == id && OwnedAlone(lib, items, i) {
      IdentityListed(lib, items, |items|, i);
    }
  }

  /** Two ids never share an identity. */
  lemma IdentityInjective(lib: Library, items: seq<Item>, a: string, b: string)
    requires a in Identities(lib, items) && b in Identities(lib, items)
    requires Identities(lib, items)[a] == Identities(lib, items)[b]
    ensures a == b
  {
    var i := IdentityKeys(lib, items, |items|, a);
    var j := IdentityKeys(lib, items, |items|, b);
    assert ("path:" + items[i].path.value)[5..] == ("path:" + items[j].path.value)[5..];
  }

  /** Renaming carries the identities over to the new ids and makes no others. */
  lemma {:induction false} RenamedIdentities(lib: Library, items: seq<Item>, items': seq<Item>, move: string -> string, n: nat)
    requires Renamed(lib, items, items', move) && n <= |items|
    ensures forall id :: id in IdentitiesUpTo(lib, items, n) ==>
              move(id) in IdentitiesUpTo(lib, items', n) && IdentitiesUpTo(lib, items', n)[move(id)] == IdentitiesUpTo(lib, items, n)[id]
    ensures forall to :: to in IdentitiesUpTo(lib, items', n) ==> exists id :: id in IdentitiesUpTo(lib, items, n) && move(id) == to
  {
    if n > 0 {
      RenamedIdentities(lib, items, items', move, n - 1);
      assert Identifiable(lib, items', n - 1) <==> Identifiable(lib, items, n - 1);
      var was, now := IdentitiesUpTo(lib, items, n - 1), IdentitiesUpTo(lib, items', n - 1);
      var last := lib.guid(items[n - 1].id);
      forall id | id in was ensures move(id) == move(last) ==> id == last {
        var i := IdentityKeys(lib, items, n - 1, id);
      }
    }
  }

  /** The item a record belongs to. */
  function ItemOf(c: Reading, r: Record): Cell {
    Normalize(c.lib, Get(r, "ItemId"))
  }

  /** Its item is one of those moved. */
  predicate Moves(c: Reading, move: string -> string, r: Record) {
    ItemOf(c, r).Text? && ItemOf(c, r).text in c.identity && move(ItemOf(c, r).text) != ItemOf(c, r).text
  }

  /** A column once the item has moved: its folder moved with it, anything else as it was. */
  function MovedCell(c: Reading, move: string -> string, r: Record, name: string): Cell {
    if name in c.settings.folders && Get(r, name).Text? && Moves(c, move, r) then
      Text(Replace(Get(r, name).text, Folder(ItemOf(c, r).text), Folder(move(ItemOf(c, r).text))))
    else Get(r, name)
  }

  ghost predicate RecordMoved(c: Reading, move: string -> string, r: Record, r': Record) {
    && ItemOf(c, r') == (if ItemOf(c, r).Text? then Text(move(ItemOf(c, r).text)) else ItemOf(c, r))
    && forall name :: name != "ItemId" ==> Get(r', name) == MovedCell(c, move, r, name)
  }

  /** The new id is one, no row of another item uses it, and no path of this record lies in its folder yet. */
  ghost predicate FreshFor(c: Reading, move: string -> string, r: Record) {
    && (Moves(c, move, r) ==>
          var to := move(ItemOf(c, r).text);
          && |to| >= 3 && '/' !in to
          && forall name :: name in c.settings.folders && Get(r, name).Text? ==> !Contains(Get(r, name).text, Folder(to)))
    && (ItemOf(c, r).Text? && ItemOf(c, r).text !in c.identity ==> forall id :: id in c.identity ==> move(id) != ItemOf(c, r).text)
  }

  lemma SlashFree(s: string, id: string)
    requires '/' !in s
    ensures !Contains(s, Folder(id))
  {
    forall i: nat ensures !MatchAt(s, Folder(id), i) {
      assert Folder(id)[0] == '/';
      assert i + |Folder(id)| <= |s| ==> s[i..i + |Folder(id)|][0] == s[i];
    }
  }

  lemma MovedHasSlash(p: string, id: string, to: string)
    requires '/' in p
    ensures '/' in Replace(p, Folder(id), Folder(to))
  {
    if Contains(p, Folder(id)) {
      var k := Find(p, Folder(id), 0).value;
      ReplaceFirst(p, Folder(id), Folder(to), k);
      assert Folder(to)[0] == '/';
      assert Replace(p, Folder(id), Folder(to))[k] == '/';
    } else {
      ReplaceNothing(p, Folder(id), Folder(to));
    }
  }

  /** A folder column names the item the same before and after the move. */
  lemma FolderCellNamed(lib: Library, p: string, id: string, to: string)
    requires GuidLaw(lib) && |to| >= 3 && '/' !in to && !Contains(p, Folder(to))
    ensures Replace(lib.guid(Replace(p, Folder(id), Folder(to))), Folder(to), "/<item>/") == Replace(lib.guid(p), Folder(id), "/<item>/")
  {
    if '/' in p {
      MovedHasSlash(p, id, to);
      MoveThenName(p, Folder(id), to, "/<item>/");
    } else {
      SlashFree(p, id);
      ReplaceNothing(p, Folder(id), Folder(to));
      SlashFree(lib.guid(p), id);
      SlashFree(lib.guid(p), to);
      ReplaceNothing(lib.guid(p), Folder(id), "/<item>/");
      ReplaceNothing(lib.guid(p), Folder(to), "/<item>/");
    }
  }

  /** The reading of the later database carries the moved identities. */
  ghost predicate Carried(c: Reading, d: Reading, move: string -> string) {
    && d == c.(identity := d.identity)
    && (forall id :: id in c.identity ==> move(id) in d.identity && d.identity[move(id)] == c.identity[id])
    && (forall to :: to in d.identity ==> exists id :: id in c.identity && move(id) == to)
    && (forall id :: move(id) != id ==> id in c.identity)
  }

  lemma NamedCell(c: Reading, d: Reading, move: string -> string, r: Record, r': Record, name: string)
    requires ItemSettings(c.settings) && GuidLaw(c.lib) && "ItemId" in c.columns && name in c.columns
    requires Carried(c, d, move) && RecordMoved(c, move, r, r') && FreshFor(c, move, r)
    ensures Named(d, Columns(d, r'))[name] == Named(c, Columns(c, r))[name]
  {
    var item := ItemOf(c, r);
    assert Get(Columns(c, r), "ItemId") == item && Get(Columns(d, r'), "ItemId") == ItemOf(c, r');
    if item.Text? && item.text in c.identity {
      if name in c.settings.folders && Get(r, name).Text? && Moves(c, move, r) {
        FolderCellNamed(c.lib, Get(r, name).text, item.text, move(item.text));
      }
    }
  }

  lemma NamedMoved(c: Reading, d: Reading, move: string -> string, r: Record, r': Record)
    requires ItemSettings(c.settings) && GuidLaw(c.lib) && "ItemId" in c.columns
    requires Carried(c, d, move) && RecordMoved(c, move, r, r') && FreshFor(c, move, r)
    ensures Named(d, Columns(d, r')) == Named(c, Columns(c, r))
  {
    var named, named' := Named(c, Columns(c, r)), Named(d, Columns(d, r'));
    assert named'.Keys == named.Keys;
    forall name | name in named.Keys ensures named'[name] == named[name] {
      NamedCell(c, d, move, r, r', name);
    }
  }

  lemma NothingTrimmed(c: Reading, r: Record)
    requires ItemSettings(c.settings)
    ensures Normal(c, r) == Dated(c, Named(c, Columns(c, r)))
  {
    assert Columns(c, r) - {} == Columns(c, r);
  }

  /** The normalised row does not see the move. */
  lemma NormalMoved(c: Reading, d: Reading, move: string -> string, r: Record, r': Record)
    requires ItemSettings(c.settings) && GuidLaw(c.lib) && "ItemId" in c.columns
    requires Carried(c, d, move) && RecordMoved(c, move, r, r') && FreshFor(c, move, r)
    ensures Normal(d, r') == Normal(c, r) && (Kept(d, r') <==> Kept(c, r))
  {
    NamedMoved(c, d, move, r, r');
    NothingTrimmed(c, r);
    NothingTrimmed(d, r');
    assert Get(r', "UserId") == Get(r, "UserId");
  }

  lemma {:induction false} RowsMoved(c: Reading, d: Reading, move: string -> string, p: seq<Record>, q: seq<Record>)
    requires ItemSettings(c.settings) && GuidLaw(c.lib) && "ItemId" in c.columns && Carried(c, d, move) && |p| == |q|
    requires forall i :: 0 <= i < |p| ==> RecordMoved(c, move, p[i], q[i]) && FreshFor(c, move, p[i])
    ensures RowsOf(d, q) == RowsOf(c, p)
  {
    if p != [] {
      RowsMoved(c, d, move, p[..|p| - 1], q[..|q| - 1]);
      NormalMoved(c, d, move, p[|p| - 1], q[|q| - 1]);
    }
  }

  /**
   Moving owned items with paths of their own to new ids, their folders with them, leaves every
   item-keyed table reading exactly as before: the comparison is clean, both ways.
   */
  lemma RekeyInvisible(c: Reading, items: seq<Item>, items': seq<Item>, move: string -> string, p: seq<Record>, q: seq<Record>)
    requires ItemSettings(c.settings) && c.derived == None && GuidLaw(c.lib) && "ItemId" in c.columns
    requires c.identity == Identities(c.lib, items) && Renamed(c.lib, items, items', move)
    requires forall id :: move(id) != id ==> exists i :: 0 <= i < |items| && c.lib.guid(items[i].id) == id && OwnedAlone(c.lib, items, i)
    requires |p| == |q| && forall i :: 0 <= i < |p| ==> RecordMoved(c, move, p[i], q[i]) && FreshFor(c, move, p[i])
    ensures var d := c.(identity := Identities(c.lib, items'));
            && ShotOf(d, q) == ShotOf(c, p)
            && Unharmed(ShotOf(c, p), ShotOf(d, q)) && Unharmed(ShotOf(d, q), ShotOf(c, p))
  {
    var d := c.(identity := Identities(c.lib, items'));
    RenamedIdentities(c.lib, items, items', move, |items|);
    forall id | move(id) != id ensures id in c.identity {
      IdentityIff(c.lib, items, id);
    }
    assert Carried(c, d, move);
    RowsMoved(c, d, move, p, q);
    SameGroups(c, d, RowsOf(c, p));
    NoClean(c, p);
    NoClean(d, q);
  }

  lemma {:induction false} SameGroups(c: Reading, d: Reading, rows: seq<Row>)
    requires d == c.(identity := d.identity)
    ensures Grouped(c, rows) == Grouped(d, rows)
  {
    if rows != [] {
      SameGroups(c, d, rows[..|rows| - 1]);
    }
  }

  lemma {:induction false} NoClean(c: Reading, records: seq<Record>)
    requires c.derived == None
    ensures CleanOf(c, records) == map[]
  {
    if records != [] {
      NoClean(c, records[..|records| - 1]);
    }
  }

  // ----- an item without an owner ---------------------------------------------------------------------------------

  lemma ItemIdShown(c: Reading, r: Record)
    requires ItemSettings(c.settings) && "ItemId" in c.columns
    ensures Get(Normal(c, r), "ItemId") ==
            if ItemOf(c, r).Text? && ItemOf(c, r).text in c.identity then Text(c.identity[ItemOf(c, r).text]) else ItemOf(c, r)
  {
    NothingTrimmed(c, r);
    assert Get(Columns(c, r), "ItemId") == ItemOf(c, r);
  }

  /** Re-keying an item without an owner, or not alone on its path, away from rows it has is always reported. */
  lemma UnownedRekeyReported(c: Reading, items: seq<Item>, items': seq<Item>, d: Reading, p: seq<Record>, q: seq<Record>, i: nat, id: string)
    requires ItemSettings(c.settings) && "ItemId" in c.columns
    requires c.identity == Identities(c.lib, items) && d == c.(identity := Identities(c.lib, items'), users := d.users)
    requires forall k :: 0 <= k < |items| && c.lib.guid(items[k].id) == id ==> !OwnedAlone(c.lib, items, k)
    requires i < |p| && Kept(c, p[i]) && ItemOf(c, p[i]) == Text(id) && !("path:" <= id)
    requires forall j :: 0 <= j < |q| ==> ItemOf(d, q[j]) != Text(id)
    ensures !Unharmed(ShotOf(c, p), ShotOf(d, q))
  {
    var row := Normal(c, p[i]);
    IdentityIff(c.lib, items, id);
    ItemIdShown(c, p[i]);
    RowListed(c, p, i);
    if row in RowsOf(d, q) {
      var j := RowWitness(d, q, row);
      ItemIdShown(d, q[j]);
      PathIdentity(d, items', q[j]);
    }
    GroupMember(c, RowsOf(c, p), Key(c, row), row);
    GroupMember(d, RowsOf(d, q), Key(c, row), row);
    assert !Included(Grouped(c, RowsOf(c, p)), Grouped(d, RowsOf(d, q)), Key(c, row));
  }

  lemma PathIdentity(d: Reading, items: seq<Item>, r: Record)
    requires d.identity == Identities(d.lib, items)
    ensures ItemOf(d, r).Text? && ItemOf(d, r).text in d.identity ==> "path:" <= d.identity[ItemOf(d, r).text]
  {
    if ItemOf(d, r).Text? && ItemOf(d, r).text in d.identity {
      var i := IdentityKeys(d.lib, items, |items|, ItemOf(d, r).text);
    }
  }
}

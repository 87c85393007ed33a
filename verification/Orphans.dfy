/**
 The orphan set of migration 0042 as the adoption gate recomputes it: items whose ParentId
 names no item, everything under them, and every extra they own
 (gates/adoption/metadata.py `orphaned_items`).
 */
module Orphans {
  import opened Options

  type Id = nat

  datatype Item = Item(parent: Option<Id>, owner: Option<Id>)

  /** `BaseItems` by id. */
  type Library = map<Id, Item>

  /** Which of the two link columns the table has (a canned test schema may lack them). */
  datatype Schema = Schema(parentColumn: bool, ownerColumn: bool)

  /** Items whose ParentId names no item. */
  function Dangling(lib: Library): set<Id> {
    set x | x in lib && lib[x].parent.Some? && lib[x].parent.value !in lib
  }

  /** `x` hangs off `p`: as its child, or (with an OwnerId column) as an extra it owns. */
  predicate Under(lib: Library, owned: bool, x: Id, p: Id) {
    x in lib && (lib[x].parent == Some(p) || (owned && lib[x].owner == Some(p)))
  }

  /** One round of the recursive query. */
  function Attached(lib: Library, owned: bool, found: set<Id>): set<Id> {
    set x | x in lib &&
            ( || (lib[x].parent.Some? && lib[x].parent.value in found)
              || (owned && lib[x].owner.Some? && lib[x].owner.value in found))
  }

  /** `UNION` queues a row once, so the rounds end even on a cyclic parent graph. */
  function Closure(lib: Library, owned: bool, found: set<Id>): (r: set<Id>)
    requires found <= lib.Keys
    ensures found <= r <= lib.Keys
    ensures Attached(lib, owned, r) <= r
    decreases lib.Keys - found
  {
    var next := Attached(lib, owned, found);
    if next <= found then found else Closure(lib, owned, found + next)
  }

  function OrphanedItems(lib: Library, schema: Schema): (r: set<Id>)
    ensures r <= lib.Keys && (!schema.parentColumn ==> r == {})
  {
    if !schema.parentColumn then {} else Closure(lib, schema.ownerColumn, Dangling(lib))
  }

  // ----- least fixed point --------------------------------------------------------------

  ghost predicate OrphanClosed(lib: Library, owned: bool, s: set<Id>) {
    Dangling(lib) <= s && forall x, p :: p in s && Under(lib, owned, x, p) ==> x in s
  }

  lemma {:induction false} ClosureLeast(lib: Library, owned: bool, found: set<Id>, s: set<Id>)
    requires found <= lib.Keys && found <= s
    requires forall x, p :: p in s && Under(lib, owned, x, p) ==> x in s
    ensures Closure(lib, owned, found) <= s
    decreases lib.Keys - found
  {
    var next := Attached(lib, owned, found);
    forall x | x in next
      ensures x in s
    {
      var p := if lib[x].parent.Some? && lib[x].parent.value in found then lib[x].parent.value else lib[x].owner.value;
      assert Under(lib, owned, x, p);
    }
    if !(next <= found) {
      ClosureLeast(lib, owned, found + next, s);
    }
  }

  /** The orphan set holds every dangling item, is closed downwards, and is contained in every such set. */
  lemma OrphansLeast(lib: Library, owned: bool)
    ensures OrphanClosed(lib, owned, OrphanedItems(lib, Schema(true, owned)))
    ensures forall s :: OrphanClosed(lib, owned, s) ==> OrphanedItems(lib, Schema(true, owned)) <= s
  {
    var r := OrphanedItems(lib, Schema(true, owned));
    forall x, p | p in r && Under(lib, owned, x, p)
      ensures x in r
    {
      assert x in Attached(lib, owned, r);
    }
    forall s | OrphanClosed(lib, owned, s)
      ensures r <= s
    {
      ClosureLeast(lib, owned, Dangling(lib), s);
    }
  }

  // ----- an item is an orphan exactly when a chain of links ends in it ---------------------

  ghost predicate OrphanChain(lib: Library, owned: bool, chain: seq<Id>) {
    && |chain| > 0 && chain[0] in Dangling(lib)
    && forall i :: 0 < i < |chain| ==> Under(lib, owned, chain[i], chain[i - 1])
  }

  /** A chain of links leads from a dangling item to `x`. */
  ghost predicate Chained(lib: Library, owned: bool, x: Id) {
    exists chain :: OrphanChain(lib, owned, chain) && chain[|chain| - 1] == x
  }

  lemma {:induction false} ChainedAreOrphans(lib: Library, owned: bool, chain: seq<Id>)
    requires OrphanChain(lib, owned, chain)
    ensures chain[|chain| - 1] in OrphanedItems(lib, Schema(true, owned))
  {
    OrphansLeast(lib, owned);
    if |chain| > 1 {
      ChainedAreOrphans(lib, owned, chain[..|chain| - 1]);
    }
  }

  lemma {:induction false} ClosureChained(lib: Library, owned: bool, found: set<Id>, x: Id)
    requires found <= lib.Keys && x in Closure(lib, owned, found)
    requires forall y :: y in found ==> Chained(lib, owned, y)
    ensures Chained(lib, owned, x)
    decreases lib.Keys - found
  {
    var next := Attached(lib, owned, found);
    forall y | y in next
      ensures Chained(lib, owned, y)
    {
      var p := if lib[y].parent.Some? && lib[y].parent.value in found then lib[y].parent.value else lib[y].owner.value;
      var above :| OrphanChain(lib, owned, above) && above[|above| - 1] == p;
      assert OrphanChain(lib, owned, above + [y]);
    }
    if !(next <= found) {
      ClosureChained(lib, owned, found + next, x);
    }
  }

  lemma OrphanIffChained(lib: Library, owned: bool, x: Id)
    ensures x in OrphanedItems(lib, Schema(true, owned)) <==> Chained(lib, owned, x)
  {
    forall y | y in Dangling(lib)
      ensures Chained(lib, owned, y)
    {
      assert OrphanChain(lib, owned, [y]);
    }
    if x in OrphanedItems(lib, Schema(true, owned)) {
      ClosureChained(lib, owned, Dangling(lib), x);
    }
    if Chained(lib, owned, x) {
      var chain :| OrphanChain(lib, owned, chain) && chain[|chain| - 1] == x;
      ChainedAreOrphans(lib, owned, chain);
    }
  }

  // ----- what is left behind -----------------------------------------------------------------

  /** After the removal no survivor names a missing parent or a removed owner, and there is nothing left to remove. */
  lemma SurvivorsIntact(lib: Library)
    ensures var orphans := OrphanedItems(lib, Schema(true, true));
            var left := lib - orphans;
            && (forall x :: x in left && left[x].parent.Some? ==> left[x].parent.value in left)
            && (forall x :: x in left && left[x].owner.Some? ==> left[x].owner.value !in orphans)
            && OrphanedItems(left, Schema(true, true)) == {}
  {
    var orphans := OrphanedItems(lib, Schema(true, true));
    var left := lib - orphans;
    OrphansLeast(lib, true);
    forall x | x in left && left[x].parent.Some?
      ensures left[x].parent.value in left
    {
      var p := left[x].parent.value;
      assert p !in lib ==> x in Dangling(lib);
      assert Under(lib, true, x, p);
    }
    forall x | x in left && left[x].owner.Some?
      ensures left[x].owner.value !in orphans
    {
      assert Under(lib, true, x, left[x].owner.value);
    }
    assert Dangling(left) == {};
    assert Attached(left, true, {}) == {};
  }

  /** A group of items, a cycle included, none of which hangs off anything outside it, is left alone. */
  lemma SelfContainedSurvive(lib: Library, owned: bool, group: set<Id>)
    requires group <= lib.Keys
    requires forall x :: x in group && lib[x].parent.Some? ==> lib[x].parent.value in group
    requires forall x :: x in group && owned && lib[x].owner.Some? ==> lib[x].owner.value in group || lib[x].owner.value !in lib
    ensures OrphanedItems(lib, Schema(true, owned)) !! group
  {
    var rest := lib.Keys - group;
    forall x, p | p in rest && Under(lib, owned, x, p)
      ensures x in rest
    {
    }
    ClosureLeast(lib, owned, Dangling(lib), rest);
  }
}

/**
 `overlay_modern_jamo`: a private index-2 block, a private index-3 block and seven private
 data blocks are appended, and index slot 64 (U+1000..U+3FFF of a Small trie) is pointed at
 them. The result must differ from the input on the 67 modern Jamo and nowhere else.
 */
module JamoOverlay {
  import opened CodePointTrie

  /** Index slot of U+1000..U+3FFF in a Small trie. */
  const ROOT := 64

  /** The first two assertions of the source. */
  predicate Shaped(t: Trie) { t.kind == Small && t.highStart > 0x1200 }

  /** The value the overlay owes each code point. */
  function Expected(t: Trie, ce32s: seq<nat>, cp: nat): nat
    requires |ce32s| >= 67 && Readable(t, cp)
  {
    if IsJamo(cp) then ce32s[|ce32s| - 67 + JamoRank(cp)] else Lookup(t, cp)
  }

  /** `n` reads what the overlay of `o` owes `cp`. */
  predicate Owed(o: Trie, n: Trie, ce32s: seq<nat>, cp: nat) {
    |ce32s| >= 67 && Readable(o, cp) && Readable(n, cp) && Lookup(n, cp) == Expected(o, ce32s, cp)
  }

  /** Where the old index-2 block of U+1000..U+3FFF starts. */
  predicate Rooted(index: seq<nat>) { ROOT < |index| && index[ROOT] + 8 < |index| }

  /** Words the index-2 copy takes: a slice at the end of the index is cut short. */
  function CopyLength(index: seq<nat>): (c: nat)
    requires Rooted(index)
    ensures 9 <= c <= 32
  {
    if |index| - index[ROOT] < 32 then |index| - index[ROOT] else 32
  }

  /** Where the private index-3 block starts. */
  function PrivateIndex3(index: seq<nat>): nat
    requires Rooted(index)
  {
    |index| + CopyLength(index)
  }

  lemma WellFormedIsRooted(t: Trie)
    requires WellFormed(t) && Shaped(t)
    ensures Rooted(t.index) && |t.data| >= 16
  {
    assert Readable(t, 0x1000);
    assert Readable(t, 0x100f);
  }

  // ----- the three layers of the result, as plain sequences ---------------------------

  /** The private index-2 copy, its ninth word redirected to the private index-3 block. */
  function PrivateIndex2(index: seq<nat>): (copy: seq<nat>)
    requires Rooted(index)
    ensures |copy| == CopyLength(index)
  {
    index[index[ROOT]..index[ROOT] + CopyLength(index)][8 := PrivateIndex3(index)]
  }

  /** The old index with slot 64 redirected, then the private index-2 copy. */
  function Redirected(index: seq<nat>): (s: seq<nat>)
    requires Rooted(index)
    ensures |s| == PrivateIndex3(index)
  {
    index[ROOT := |index|] + PrivateIndex2(index)
  }

  /**
   Entry `j` of the index-3 block at `i3`: the block's old data offset, or, when the block
   holds a Jamo, an offset at which the block's wanted values stand.
   */
  ghost predicate BlockStored(base: seq<nat>, want: seq<nat>, oldLength: nat,
                              index: seq<nat>, data: seq<nat>, i3: nat, j: nat)
    requires |base| == 32 && |want| == 512 && j < 32
  {
    && i3 + j < |index|
    && if HasJamo(j) then
         && index[i3 + j] == oldLength + 16 * BlocksBefore(j)
         && index[i3 + j] + 16 <= |data|
         && data[index[i3 + j]..index[i3 + j] + 16] == want[16 * j..16 * j + 16]
       else index[i3 + j] == base[j]
  }

  lemma StoredStays(base: seq<nat>, want: seq<nat>, oldLength: nat, index: seq<nat>, data: seq<nat>,
                    index': seq<nat>, data': seq<nat>, i3: nat, j: nat)
    requires |base| == 32 && |want| == 512 && j < 32
    requires BlockStored(base, want, oldLength, index, data, i3, j)
    requires i3 + j < |index'| && index'[i3 + j] == index[i3 + j] && data <= data'
    ensures BlockStored(base, want, oldLength, index', data', i3, j)
  {
    if HasJamo(j) {
      var at := index[i3 + j];
      assert data'[at..at + 16] == data[at..at + 16];
    }
  }

  /** The loop over the 32 blocks, `k` of them done. */
  ghost predicate Progress(base: seq<nat>, want: seq<nat>, oldData: seq<nat>,
                           index: seq<nat>, data: seq<nat>, i3: nat, k: nat)
    requires |base| == 32 && |want| == 512 && k <= 32
  {
    && |index| == i3 + 32
    && |data| == |oldData| + 16 * BlocksBefore(k) && oldData <= data
    && (forall j: nat :: j < k ==> BlockStored(base, want, |oldData|, index, data, i3, j))
    && index[i3 + k..] == base[k..]
  }

  lemma ProgressSkip(base: seq<nat>, want: seq<nat>, oldData: seq<nat>, index: seq<nat>, data: seq<nat>, i3: nat, k: nat)
    requires |base| == 32 && |want| == 512 && k < 32
    requires Progress(base, want, oldData, index, data, i3, k) && !HasJamo(k)
    ensures Progress(base, want, oldData, index, data, i3, k + 1)
  {
    assert index[i3 + k] == index[i3 + k..][0] == base[k];
    assert index[i3 + k + 1..] == index[i3 + k..][1..];
  }

  lemma ProgressCopy(base: seq<nat>, want: seq<nat>, oldData: seq<nat>, index: seq<nat>, data: seq<nat>, i3: nat, k: nat)
    requires |base| == 32 && |want| == 512 && k < 32
    requires Progress(base, want, oldData, index, data, i3, k) && HasJamo(k)
    ensures Progress(base, want, oldData, index[i3 + k := |data|], data + want[16 * k..16 * k + 16], i3, k + 1)
  {
    var index', data' := index[i3 + k := |data|], data + want[16 * k..16 * k + 16];
    forall j: nat | j < k
      ensures BlockStored(base, want, |oldData|, index', data', i3, j)
    {
      StoredStays(base, want, |oldData|, index, data, index', data', i3, j);
    }
    assert data'[|data|..|data| + 16] == want[16 * k..16 * k + 16];
    assert index'[i3 + k + 1..] == index[i3 + k..][1..];
  }

  // ----- the relation between input and output -------------------------------------

  /** The data offsets U+1000..U+11FF have in the input, block by block. */
  function Bases(o: Trie): (bases: seq<nat>)
    requires WellFormed(o)
    ensures |bases| == 32
  {
    seq(32, j requires 0 <= j < 32 => assert Readable(o, BlockStart(j)); TrieIndex(o, BlockStart(j)))
  }

  /** What U+1000..U+11FF must read. */
  function Wanted(o: Trie, ce32s: seq<nat>): (want: seq<nat>)
    requires WellFormed(o) && |ce32s| >= 67
    ensures |want| == 512
  {
    seq(512, r requires 0 <= r < 512 => assert Readable(o, 0x1000 + r); Expected(o, ce32s, 0x1000 + r) as nat)
  }

  lemma BasesAt(o: Trie, j: nat)
    requires WellFormed(o) && j < 32
    ensures Readable(o, BlockStart(j)) && Bases(o)[j] == TrieIndex(o, BlockStart(j))
  {
    assert Readable(o, BlockStart(j));
  }

  lemma WantedAt(o: Trie, ce32s: seq<nat>, cp: nat)
    requires WellFormed(o) && |ce32s| >= 67 && 0x1000 <= cp < 0x1200
    ensures Readable(o, cp) && Wanted(o, ce32s)[cp - 0x1000] == Expected(o, ce32s, cp)
  {
    assert Readable(o, cp);
  }

  ghost predicate IsOverlay(o: Trie, n: Trie, ce32s: seq<nat>)
    requires WellFormed(o) && |ce32s| >= 67
  {
    && n.kind == o.kind && n.highStart == o.highStart
    && Rooted(o.index)
    && |n.index| == PrivateIndex3(o.index) + 32 && Redirected(o.index) <= n.index
    && |n.data| == |o.data| + 7 * 16 + 2 && o.data <= n.data
    && |o.data| >= 2 && n.data[|n.data| - 2..] == o.data[|o.data| - 2..]
    && forall j: nat :: j < 32 ==>
         BlockStored(Bases(o), Wanted(o, ce32s), |o.data|, n.index, n.data, PrivateIndex3(o.index), j)
  }

  // ----- which lookups slot 64 can disturb -------------------------------------------

  /** Slot 64 is read as a data offset, or as the high bits of an 18-bit group that change. */
  predicate LeafDisturbed(index: seq<nat>, i3: nat, pos: nat)
    requires Rooted(index)
  {
    if Wide(i3) then
      || Group(i3, pos) + 1 + pos % 8 == ROOT
      || (Group(i3, pos) == ROOT && HighBits(index[ROOT], pos) != HighBits(|index|, pos))
    else i3 + pos == ROOT
  }

  /**
   The lookups outside U+1000..U+11FF that depend on slot 64 as anything but the root of
   U+1000..U+3FFF: in their last step, or as an index-3 block of which entry 8 is taken.
   */
  predicate Disturbed(t: Trie, cp: nat) {
    && Shaped(t) && 0x1200 <= cp < t.highStart && Addressable(t, cp) && Rooted(t.index)
    && if Slot2(t, cp) == ROOT && cp >= 0x4000 then Pos(cp) == 8
       else LeafDisturbed(t.index, t.index[Slot2(t, cp)], Pos(cp))
  }

  lemma RedirectedSlots(index: seq<nat>, index': seq<nat>, i: nat)
    requires Rooted(index) && Redirected(index) <= index'
    ensures i < |index| && i != ROOT ==> index'[i] == index[i]
    ensures index'[ROOT] == |index|
    ensures i < CopyLength(index) && i != 8 ==> index'[|index| + i] == index[index[ROOT] + i]
    ensures index'[|index| + 8] == PrivateIndex3(index)
  {
    var r, L := Redirected(index), |index|;
    assert r[ROOT] == L && r[L + 8] == PrivateIndex2(index)[8];
    if i < CopyLength(index) {
      assert r[L + i] == PrivateIndex2(index)[i];
    }
  }

  lemma LeafMovesIffDisturbed(index: seq<nat>, index': seq<nat>, i3: nat, pos: nat)
    requires Rooted(index) && Redirected(index) <= index'
    requires LeafAddressable(index, i3, pos)
    ensures LeafAddressable(index', i3, pos)
    ensures LeafBase(index', i3, pos) == LeafBase(index, i3, pos) <==> !LeafDisturbed(index, i3, pos)
  {
    if Wide(i3) {
      RedirectedSlots(index, index', Group(i3, pos));
      RedirectedSlots(index, index', Group(i3, pos) + 1 + pos % 8);
    } else {
      RedirectedSlots(index, index', i3 + pos);
    }
  }

  /** Read as an index-3 block, the private index-2 copy differs from its original in entry 8 only. */
  lemma CopyAsLeaf(index: seq<nat>, index': seq<nat>, pos: nat)
    requires Rooted(index) && Redirected(index) <= index' && |index'| < INDEX_LIMIT
    requires pos < 32 && index[ROOT] + pos < |index|
    requires LeafAddressable(index, index[index[ROOT] + 8], 0)
    ensures !Wide(index[ROOT]) && !Wide(|index|) && LeafAddressable(index', |index|, pos)
    ensures LeafBase(index', |index|, pos) == LeafBase(index, index[ROOT], pos) <==> pos != 8
  {
    RedirectedSlots(index, index', pos);
  }

  /** The index-3 entry the result uses for a code point at or above U+1200. */
  lemma EntryAfter(o: Trie, n: Trie, cp: nat)
    requires Shaped(o) && n.kind == o.kind && n.highStart == o.highStart
    requires Rooted(o.index) && Redirected(o.index) <= n.index
    requires 0x1200 <= cp < o.highStart && Addressable(o, cp)
    ensures Slot1(n, cp) < |n.index| && Slot2(n, cp) < |n.index|
    ensures n.index[Slot2(n, cp)] ==
            if Slot2(o, cp) == ROOT && cp >= 0x4000 then |o.index| else o.index[Slot2(o, cp)]
  {
    if cp < 0x4000 {
      assert cp / 0x200 % 32 == cp / 0x200 > 8;
      RedirectedSlots(o.index, n.index, cp / 0x200);
    } else {
      RedirectedSlots(o.index, n.index, Slot1(o, cp));
      RedirectedSlots(o.index, n.index, Slot2(o, cp));
    }
  }

  /** Outside the replaced rows, a lookup keeps its data cell exactly when it is not disturbed. */
  lemma LookupMovesIffDisturbed(o: Trie, n: Trie, cp: nat)
    requires Shaped(o) && n.kind == o.kind && n.highStart == o.highStart
    requires Rooted(o.index) && Redirected(o.index) <= n.index && |n.index| < INDEX_LIMIT
    requires 0x1200 <= cp < o.highStart && Addressable(o, cp) && Addressable(o, 0x1000)
    ensures Addressable(n, cp)
    ensures TrieIndex(n, cp) == TrieIndex(o, cp) <==> !Disturbed(o, cp)
  {
    EntryAfter(o, n, cp);
    if Slot2(o, cp) == ROOT && cp >= 0x4000 {
      CopiedLeaf(o);
      CopyAsLeaf(o.index, n.index, Pos(cp));
    } else {
      LeafMovesIffDisturbed(o.index, n.index, o.index[Slot2(o, cp)], Pos(cp));
    }
  }

  /** The index-3 block of U+1000 hangs off entry 8 of the old index-2 block. */
  lemma CopiedLeaf(o: Trie)
    requires Shaped(o) && Rooted(o.index) && Addressable(o, 0x1000)
    ensures LeafAddressable(o.index, o.index[o.index[ROOT] + 8], 0)
  {
    assert Slot2(o, 0x1000) == o.index[ROOT] + 8 && Pos(0x1000) == 0;
  }

  // ----- what the result reads ---------------------------------------------------------

  /** Below U+1000 and from `highStart` on, nothing depends on slot 64. */
  lemma OutsideUnchanged(o: Trie, n: Trie, ce32s: seq<nat>, cp: nat)
    requires WellFormed(o) && Shaped(o) && |ce32s| >= 67 && IsOverlay(o, n, ce32s)
    requires cp < CODE_POINTS && (cp < 0x1000 || cp >= o.highStart)
    ensures Owed(o, n, ce32s, cp)
  {
    assert Readable(o, cp);
    if cp < 0x1000 {
      RedirectedSlots(o.index, n.index, cp / 64);
    } else {
      assert n.data[|n.data| - 2..][0] == n.data[|n.data| - 2];
    }
  }

  lemma BlockNumbers(j: nat, r: nat)
    requires j < 32 && r < 16
    ensures var b, cp := BlockStart(j), BlockStart(j) + r;
            0x1000 <= b <= cp < 0x1200 && Pos(cp) == Pos(b) == j && cp / 0x200 == 8 == b / 0x200 && cp / 0x4000 == 0 == b / 0x4000
            && cp % 16 == r && b % 16 == 0
  {
  }

  /** Two code points of one block are looked up through the same leaf. */
  lemma SameLeaf(t: Trie, b: nat, cp: nat)
    requires Shaped(t) && 0x1000 <= b < t.highStart && 0x1000 <= cp < t.highStart && Addressable(t, b) && Addressable(t, cp)
    requires b / 0x4000 == cp / 0x4000 && b / 0x200 == cp / 0x200 && Pos(b) == Pos(cp)
    ensures TrieIndex(t, cp) - cp % 16 == TrieIndex(t, b) - b % 16
  {
    assert Slot1(t, cp) == Slot1(t, b);
    assert Slot2(t, cp) == Slot2(t, b);
  }

  /** Blocks of sixteen code points are contiguous in the data. */
  lemma BlockContiguous(t: Trie, j: nat, r: nat)
    requires WellFormed(t) && Shaped(t) && j < 32 && r < 16
    ensures Readable(t, BlockStart(j)) && Readable(t, BlockStart(j) + r)
    ensures TrieIndex(t, BlockStart(j) + r) == TrieIndex(t, BlockStart(j)) + r
  {
    BlockNumbers(j, r);
    assert Readable(t, BlockStart(j)) && Readable(t, BlockStart(j) + r);
    SameLeaf(t, BlockStart(j), BlockStart(j) + r);
  }

  lemma BlockOf(cp: nat) returns (j: nat, r: nat)
    requires 0x1000 <= cp < 0x1200
    ensures j < 32 && r < 16 && cp == BlockStart(j) + r && cp % 16 == r && Pos(cp) == j
    ensures cp / 0x200 == 8 && cp / 0x4000 == 0
  {
    j, r := cp / 16 - 0x100, cp % 16;
  }

  lemma PrivateCell(o: Trie, n: Trie, cp: nat)
    requires Shaped(o) && n.kind == o.kind && n.highStart == o.highStart && 0x1000 <= cp < 0x1200
    requires Rooted(o.index) && Redirected(o.index) <= n.index
    requires |n.index| == PrivateIndex3(o.index) + 32 < INDEX_LIMIT
    ensures Addressable(n, cp)
    ensures TrieIndex(n, cp) == n.index[PrivateIndex3(o.index) + Pos(cp)] + cp % 16
  {
    var j, r := BlockOf(cp);
    RedirectedSlots(o.index, n.index, 0);
    assert n.index[Slot2(n, cp)] == PrivateIndex3(o.index) && !Wide(PrivateIndex3(o.index));
  }

  /** U+1000..U+11FF always reads what it is owed, whatever else reads slot 64. */
  lemma PrivateRows(o: Trie, n: Trie, ce32s: seq<nat>, cp: nat)
    requires WellFormed(o) && Shaped(o) && |ce32s| >= 67 && IsOverlay(o, n, ce32s) && |n.index| < INDEX_LIMIT
    requires 0x1000 <= cp < 0x1200
    ensures Owed(o, n, ce32s, cp)
  {
    var j, r := BlockOf(cp);
    PrivateCell(o, n, cp);
    PrivateValue(o, n, ce32s, j, r);
  }

  lemma PrivateValue(o: Trie, n: Trie, ce32s: seq<nat>, j: nat, r: nat)
    requires WellFormed(o) && Shaped(o) && |ce32s| >= 67 && IsOverlay(o, n, ce32s) && j < 32 && r < 16
    ensures PrivateIndex3(o.index) + j < |n.index|
    ensures var at := n.index[PrivateIndex3(o.index) + j] + r;
            at < |n.data| && Readable(o, BlockStart(j) + r) && n.data[at] == Expected(o, ce32s, BlockStart(j) + r)
  {
    assert BlockStored(Bases(o), Wanted(o, ce32s), |o.data|, n.index, n.data, PrivateIndex3(o.index), j);
    if HasJamo(j) {
      CopiedValue(o, n.data, ce32s, n.index[PrivateIndex3(o.index) + j], j, r);
    } else {
      KeptValue(o, ce32s, j, r);
    }
  }

  /** Value `r` of a private block is the one wanted. */
  lemma CopiedValue(o: Trie, data: seq<nat>, ce32s: seq<nat>, at: nat, j: nat, r: nat)
    requires WellFormed(o) && |ce32s| >= 67 && j < 32 && r < 16 && at + 16 <= |data|
    requires data[at..at + 16] == Wanted(o, ce32s)[16 * j..16 * j + 16]
    ensures Readable(o, BlockStart(j) + r) && data[at + r] == Expected(o, ce32s, BlockStart(j) + r)
  {
    WantedAt(o, ce32s, BlockStart(j) + r);
    assert data[at..at + 16][r] == Wanted(o, ce32s)[16 * j..16 * j + 16][r];
  }

  /** A block without a Jamo is read where it was. */
  lemma KeptValue(o: Trie, ce32s: seq<nat>, j: nat, r: nat)
    requires WellFormed(o) && Shaped(o) && |ce32s| >= 67 && j < 32 && r < 16 && !HasJamo(j)
    ensures Readable(o, BlockStart(j) + r) && Bases(o)[j] + r < |o.data|
    ensures o.data[Bases(o)[j] + r] == Expected(o, ce32s, BlockStart(j) + r)
  {
    assert !IsJamo(BlockStart(j) + r);
    BlockContiguous(o, j, r);
    BasesAt(o, j);
  }

  /** Every code point of the result reads what it is owed, unless it is disturbed. */
  lemma OverlayLookup(o: Trie, n: Trie, ce32s: seq<nat>, cp: nat)
    requires WellFormed(o) && Shaped(o) && |ce32s| >= 67 && IsOverlay(o, n, ce32s) && |n.index| < INDEX_LIMIT
    requires cp < CODE_POINTS
    ensures !Disturbed(o, cp) ==> Owed(o, n, ce32s, cp)
    ensures Disturbed(o, cp) ==> Addressable(o, cp) && Addressable(n, cp) && TrieIndex(n, cp) != TrieIndex(o, cp)
  {
    assert Readable(o, cp) && Readable(o, 0x1000);
    if cp < 0x1000 || cp >= o.highStart {
      OutsideUnchanged(o, n, ce32s, cp);
    } else if cp < 0x1200 {
      PrivateRows(o, n, ce32s, cp);
    } else {
      LookupMovesIffDisturbed(o, n, cp);
    }
  }

  // ----- the overlaid trie as a function of the input ---------------------------------

  /** The private index-3 block. */
  function PrivateEntries(o: Trie): (s: seq<nat>)
    requires WellFormed(o)
    ensures |s| == 32
  {
    seq(32, j requires 0 <= j < 32 => if HasJamo(j) then |o.data| + 16 * BlocksBefore(j) else Bases(o)[j])
  }

  /** The private data of the first `k` blocks. */
  function PrivateData(want: seq<nat>, k: nat): (s: seq<nat>)
    requires |want| == 512 && k <= 32
    ensures |s| == 16 * BlocksBefore(k)
  {
    if k == 0 then [] else PrivateData(want, k - 1) + if HasJamo(k - 1) then want[16 * (k - 1)..16 * k] else []
  }

  function Overlaid(o: Trie, ce32s: seq<nat>): Trie
    requires WellFormed(o) && |ce32s| >= 67 && Rooted(o.index) && |o.data| >= 2
  {
    Trie(o.kind, o.highStart, Redirected(o.index) + PrivateEntries(o),
      o.data + PrivateData(Wanted(o, ce32s), 32) + o.data[|o.data| - 2..])
  }

  /** The private block of `j`, if it has one, stands where the blocks before it end. */
  predicate BlockAt(want: seq<nat>, start: nat, data: seq<nat>, j: nat)
    requires |want| == 512 && j < 32
  {
    var at := start + 16 * BlocksBefore(j);
    HasJamo(j) ==> at + 16 <= |data| && data[at..at + 16] == want[16 * j..16 * j + 16]
  }

  lemma {:induction false} DataDetermined(want: seq<nat>, before: seq<nat>, data: seq<nat>, k: nat)
    requires |want| == 512 && k <= 32 && before <= data
    requires forall j: nat :: j < k ==> BlockAt(want, |before|, data, j)
    ensures |before| + 16 * BlocksBefore(k) <= |data|
    ensures data[..|before| + 16 * BlocksBefore(k)] == before + PrivateData(want, k)
  {
    if k > 0 {
      DataDetermined(want, before, data, k - 1);
      PrivateStep(want, k);
      var at := |before| + 16 * BlocksBefore(k - 1);
      assert BlockAt(want, |before|, data, k - 1);
      if HasJamo(k - 1) {
        Appended(data, before, PrivateData(want, k - 1), want[16 * (k - 1)..16 * k], at);
      } else {
        assert PrivateData(want, k) == PrivateData(want, k - 1);
      }
    }
  }

  /** The private data of one block more. */
  lemma PrivateStep(want: seq<nat>, k: nat)
    requires |want| == 512 && 0 < k <= 32
    ensures PrivateData(want, k) == PrivateData(want, k - 1) + if HasJamo(k - 1) then want[16 * (k - 1)..16 * k] else []
    ensures BlocksBefore(k) == BlocksBefore(k - 1) + if HasJamo(k - 1) then 1 else 0
  {
  }

  lemma Appended(data: seq<nat>, before: seq<nat>, p: seq<nat>, w: seq<nat>, at: nat)
    requires at + |w| <= |data| && data[..at] == before + p && data[at..at + |w|] == w
    ensures data[..at + |w|] == before + (p + w)
  {
    assert data[..at + |w|] == data[..at] + data[at..at + |w|];
  }

  /** What the generator builds is determined by its input. */
  lemma OverlayUnique(o: Trie, n: Trie, ce32s: seq<nat>)
    requires WellFormed(o) && |ce32s| >= 67 && IsOverlay(o, n, ce32s)
    ensures n == Overlaid(o, ce32s)
  {
    var i3 := PrivateIndex3(o.index);
    BlocksBeforeValue(32);
    forall j: nat | j < 32 ensures BlockAt(Wanted(o, ce32s), |o.data|, n.data, j) {
      assert BlockStored(Bases(o), Wanted(o, ce32s), |o.data|, n.index, n.data, i3, j);
    }
    DataDetermined(Wanted(o, ce32s), o.data, n.data, 32);
    assert n.data == n.data[..|o.data| + 112] + n.data[|n.data| - 2..];
    forall j: nat | j < 32 ensures n.index[i3 + j] == PrivateEntries(o)[j] {
      assert BlockStored(Bases(o), Wanted(o, ce32s), |o.data|, n.index, n.data, i3, j);
    }
    assert n.index[i3..] == PrivateEntries(o);
    assert n.index == n.index[..i3] + n.index[i3..];
  }

  // ----- the generator's method ---------------------------------------------------------

  ghost predicate AllOwed(o: Trie, n: Trie, ce32s: seq<nat>) {
    forall cp: nat :: cp < CODE_POINTS ==> Owed(o, n, ce32s, cp)
  }

  /** The last 67 records, in order, are what the modern Jamo read. */
  lemma RecordsRead(o: Trie, n: Trie, ce32s: seq<nat>)
    requires |ce32s| >= 67 && AllOwed(o, n, ce32s)
    ensures |MODERN| == 67
    ensures forall i :: 0 <= i < 67 ==> Readable(n, MODERN[i]) && Lookup(n, MODERN[i]) == ce32s[|ce32s| - 67..][i]
  {
    JamoListed(0x1100);
    forall i | 0 <= i < 67 ensures Readable(n, MODERN[i]) && Lookup(n, MODERN[i]) == ce32s[|ce32s| - 67..][i] {
      JamoListed(MODERN[i]);
      assert Owed(o, n, ce32s, MODERN[i]);
    }
  }

  /** Every other code point reads what it read. */
  lemma OthersRead(o: Trie, n: Trie, ce32s: seq<nat>)
    requires |ce32s| >= 67 && AllOwed(o, n, ce32s)
    ensures forall cp: nat :: cp < CODE_POINTS && cp !in MODERN ==> Readable(o, cp) && Readable(n, cp) && Lookup(n, cp) == Lookup(o, cp)
  {
    forall cp: nat | cp < CODE_POINTS && cp !in MODERN ensures Readable(o, cp) && Readable(n, cp) && Lookup(n, cp) == Lookup(o, cp) {
      JamoListed(cp);
      assert Owed(o, n, ce32s, cp);
    }
  }

  /** Which assertion of the generator stopped it, if any. */
  datatype Check = WrongShape | TooFewRecords | DataFull | IndexFull | Differs(cp: nat) | Passed

  /** Every assertion before the final comparison holds. */
  predicate Room(t: Trie, ce32s: seq<nat>) {
    && Shaped(t) && |ce32s| >= 67
    && |t.data| + 7 * 16 <= DATA_LIMIT
    && Rooted(t.index) && PrivateIndex3(t.index) + 32 < INDEX_LIMIT
  }

  /** Every disturbed lookup of the input happens to move onto the value it had. */
  ghost predicate Harmless(o: Trie, ce32s: seq<nat>)
    requires WellFormed(o) && Room(o, ce32s)
  {
    WellFormedIsRooted(o);
    forall cp: nat :: cp < CODE_POINTS && Disturbed(o, cp) ==> Owed(o, Overlaid(o, ce32s), ce32s, cp)
  }

  class SearchData {
    const kind: Kind
    const highStart: nat
    const ce32s: seq<nat>
    var index: seq<nat>
    var data: seq<nat>
    var indexLength: nat
    var dataLength: nat

    constructor (t: Trie, ce32s: seq<nat>)
      ensures View() == t && this.ce32s == ce32s
      ensures indexLength == |t.index| && dataLength == |t.data|
    {
      kind, highStart, this.ce32s := t.kind, t.highStart, ce32s;
      index, data := t.index, t.data;
      indexLength, dataLength := |t.index|, |t.data|;
    }

    function View(): Trie
      reads this
    {
      Trie(kind, highStart, index, data)
    }

    /** Redirect slot 64 and append the two private index blocks. */
    method ExtendIndex(base: seq<nat>) returns (i3: nat)
      requires Rooted(index) && |base| == 32
      modifies this`index
      ensures i3 == PrivateIndex3(old(index)) && index == Redirected(old(index)) + base
    {
      var i2, start := |index|, index[ROOT];
      index := index + index[start..start + CopyLength(index)];
      index := index[ROOT := i2];
      i3 := |index|;
      index := index + base;
      index := index[i2 + 8 := i3];
      assert index == Redirected(old(index)) + base;
    }

    /** Append the private data blocks; stops when one would pass the limit. */
    method CopyBlocks(base: seq<nat>, want: seq<nat>, i3: nat) returns (full: bool)
      requires |base| == 32 && |want| == 512
      requires Progress(base, want, data, index, data, i3, 0)
      modifies this`index, this`data
      ensures full <==> |old(data)| + 7 * 16 > DATA_LIMIT
      ensures !full ==> i3 <= |index| && index[..i3] == old(index)[..i3]
      ensures !full ==> Progress(base, want, old(data), index, data, i3, 32)
    {
      BlocksBeforeValue(32);
      ghost var oldData := data;
      for j := 0 to 32
        invariant i3 <= |index| && index[..i3] == old(index)[..i3]
        invariant Progress(base, want, oldData, index, data, i3, j)
        invariant BlocksBefore(j) == 0 || |data| <= DATA_LIMIT
      {
        BlocksBeforeMonotone(j, 32);
        if HasJamo(j) {
          var offset := |data|;
          if offset + 16 > DATA_LIMIT { return true; }
          ProgressCopy(base, want, oldData, index, data, i3, j);
          data := data + want[16 * j..16 * j + 16];
          index := index[i3 + j := offset];
        } else {
          ProgressSkip(base, want, oldData, index, data, i3, j);
        }
      }
      full := false;
    }

    /** All of the growth, and the two size assertions. */
    method Build(base: seq<nat>, want: seq<nat>) returns (r: Check, ghost copied: seq<nat>)
      requires Rooted(index) && |data| >= 2 && |base| == 32 && |want| == 512
      modifies this
      ensures r == DataFull <==> |old(data)| + 7 * 16 > DATA_LIMIT
      ensures r == Passed <==> |old(data)| + 7 * 16 <= DATA_LIMIT && PrivateIndex3(old(index)) + 32 < INDEX_LIMIT
      ensures r == DataFull || r == Passed || r == IndexFull
      ensures r == Passed ==>
        && PrivateIndex3(old(index)) <= |index| < INDEX_LIMIT
        && index[..PrivateIndex3(old(index))] == Redirected(old(index))
        && Progress(base, want, old(data), index, copied, PrivateIndex3(old(index)), 32)
        && data == copied + old(data)[|old(data)| - 2..]
        && indexLength == |index| && dataLength == |data|
    {
      var tail := data[|data| - 2..];
      var i3 := ExtendIndex(base);
      assert index[i3..] == base && index[..i3] == Redirected(old(index));
      var full := CopyBlocks(base, want, i3);
      copied := data;
      if full { return DataFull, copied; }
      data := data + tail;
      if |index| >= INDEX_LIMIT { return IndexFull, copied; }
      indexLength, dataLength := |index|, |data|;
      r := Passed;
    }

    /** The source's final loop: every code point against what it is owed. */
    method Verify(o: Trie) returns (r: Check)
      requires WellFormed(o) && Shaped(o) && |ce32s| >= 67 && IsOverlay(o, View(), ce32s) && |index| < INDEX_LIMIT
      ensures r.Passed? || r.Differs?
      ensures r.Passed? ==> forall cp: nat :: cp < CODE_POINTS ==> Owed(o, View(), ce32s, cp)
      ensures r.Differs? ==> r.cp < CODE_POINTS && Disturbed(o, r.cp) && !Owed(o, View(), ce32s, r.cp)
    {
      for cp := 0 to CODE_POINTS
        invariant forall c: nat :: c < cp ==> Owed(o, View(), ce32s, c)
      {
        OverlayLookup(o, View(), ce32s, cp);
        if !Owed(o, View(), ce32s, cp) { return Differs(cp); }
      }
      r := Passed;
    }

    /** The steps up to the final comparison. */
    method Overlay(o: Trie) returns (r: Check)
      requires WellFormed(o) && View() == o
      modifies this
      ensures r == WrongShape <==> !Shaped(o)
      ensures r == TooFewRecords <==> Shaped(o) && |ce32s| < 67
      ensures r == DataFull <==> Shaped(o) && |ce32s| >= 67 && |o.data| + 7 * 16 > DATA_LIMIT
      ensures r == Passed <==> Room(o, ce32s)
      ensures r == Passed ==> IsOverlay(o, View(), ce32s) && indexLength == |index| < INDEX_LIMIT && dataLength == |data|
      ensures !r.Differs?
    {
      if kind != Small || highStart <= 0x1200 { return WrongShape; }
      if |ce32s| < 67 { return TooFewRecords; }
      WellFormedIsRooted(o);
      var base, want := Bases(o), Wanted(o, ce32s);
      ghost var copied;
      r, copied := Build(base, want);
      if r == Passed {
        Assembled(o, View(), copied, ce32s, base, want);
      }
    }

    method OverlayModernJamo() returns (r: Check)
      requires WellFormed(View())
      modifies this
      ensures r == WrongShape <==> !Shaped(old(View()))
      ensures r == TooFewRecords <==> Shaped(old(View())) && |ce32s| < 67
      ensures r == DataFull <==> Shaped(old(View())) && |ce32s| >= 67 && |old(data)| + 7 * 16 > DATA_LIMIT
      ensures r.Differs? || r.Passed? <==> Room(old(View()), ce32s)
      ensures r.Passed? <==> Room(old(View()), ce32s) && Harmless(old(View()), ce32s)
      ensures r.Passed? ==> forall cp: nat :: cp < CODE_POINTS ==> Owed(old(View()), View(), ce32s, cp)
      ensures r.Passed? ==> forall i :: 0 <= i < 67 ==>
                Readable(View(), MODERN[i]) && Lookup(View(), MODERN[i]) == ce32s[|ce32s| - 67..][i]
      ensures r.Passed? ==> forall cp: nat :: cp < CODE_POINTS && cp !in MODERN ==>
                Readable(old(View()), cp) && Readable(View(), cp) && Lookup(View(), cp) == Lookup(old(View()), cp)
      ensures r.Passed? || r.Differs? ==> IsOverlay(old(View()), View(), ce32s) && View() == Overlaid(old(View()), ce32s)
      ensures r.Passed? ==> indexLength == |index| && dataLength == |data|
      ensures r.Differs? ==> Disturbed(old(View()), r.cp)
    {
      var original := View();
      r := Overlay(original);
      if r == Passed {
        OverlayUnique(original, View(), ce32s);
        r := Verify(original);
        if r.Passed? {
          RecordsRead(original, View(), ce32s);
          OthersRead(original, View(), ce32s);
        }
      }
    }
  }

  /** The finished pieces make an overlay. */
  lemma Assembled(o: Trie, n: Trie, copied: seq<nat>, ce32s: seq<nat>, base: seq<nat>, want: seq<nat>)
    requires WellFormed(o) && |ce32s| >= 67 && n.kind == o.kind && n.highStart == o.highStart
    requires Rooted(o.index) && |o.data| >= 16
    requires PrivateIndex3(o.index) <= |n.index| && n.index[..PrivateIndex3(o.index)] == Redirected(o.index)
    requires base == Bases(o) && want == Wanted(o, ce32s)
    requires Progress(base, want, o.data, n.index, copied, PrivateIndex3(o.index), 32)
    requires n.data == copied + o.data[|o.data| - 2..]
    ensures IsOverlay(o, n, ce32s)
  {
    BlocksBeforeValue(32);
    var i3 := PrivateIndex3(o.index);
    assert Redirected(o.index) <= n.index;
    assert n.data[|n.data| - 2..] == o.data[|o.data| - 2..];
    forall j: nat | j < 32
      ensures BlockStored(base, want, |o.data|, n.index, n.data, i3, j)
    {
      StoredStays(base, want, |o.data|, n.index, copied, n.index, n.data, i3, j);
    }
  }

  /** Every index word of the result is 16 bits wide. */
  lemma WordsFit(o: Trie, n: Trie, ce32s: seq<nat>, i: nat)
    requires WellFormed(o) && Room(o, ce32s) && IsOverlay(o, n, ce32s) && i < |n.index|
    ensures n.index[i] < 0x10000
  {
    var i3 := PrivateIndex3(o.index);
    if i < |o.index| {
      RedirectedSlots(o.index, n.index, i);
    } else if i < i3 {
      RedirectedSlots(o.index, n.index, i - |o.index|);
    } else {
      BlocksBeforeMonotone(i - i3, 32);
      BlocksBeforeValue(32);
      BasesAt(o, i - i3);
      assert BlockStored(Bases(o), Wanted(o, ce32s), |o.data|, n.index, n.data, i3, i - i3);
    }
  }

  /** Without disturbed lookups the result is again a trie the emitter accepts. */
  lemma OverlayWellFormed(o: Trie, n: Trie, ce32s: seq<nat>)
    requires WellFormed(o) && Room(o, ce32s) && IsOverlay(o, n, ce32s)
    requires forall cp: nat :: cp < CODE_POINTS ==> !Disturbed(o, cp)
    ensures WellFormed(n)
  {
    forall i | 0 <= i < |n.index|
      ensures n.index[i] < 0x10000
    {
      WordsFit(o, n, ce32s, i);
    }
    forall cp: nat | cp < CODE_POINTS
      ensures Readable(n, cp)
    {
      OverlayLookup(o, n, ce32s, cp);
    }
  }

  /** A trie the overlay damages: U+4000..U+400F reads slot 64 as its data offset. */
  function Aliased(): (t: Trie)
    ensures t.kind == Small && t.highStart == 0x4010
    ensures |t.index| == 67 && t.index[65] == 66 && t.index[66] == 64
    ensures forall i :: 0 <= i < 65 ==> t.index[i] == 0
    ensures |t.data| == 64 && forall i :: 0 <= i < 64 ==> t.data[i] == 0
  {
    Trie(Small, 0x4010, seq(65, i => 0) + [66, 64], seq(64, i => 0))
  }

  lemma AliasedLow(cp: nat)
    requires 0x1000 <= cp < 0x4000
    ensures Addressable(Aliased(), cp) && TrieIndex(Aliased(), cp) == cp % 16
  {
    var t := Aliased();
    assert Slot1(t, cp) == 64 && Slot2(t, cp) == cp / 0x200 % 32;
    assert !Wide(0) && LeafBase(t.index, 0, Pos(cp)) == 0;
  }

  lemma AliasedHigh(cp: nat)
    requires 0x4000 <= cp < 0x4010
    ensures Addressable(Aliased(), cp) && TrieIndex(Aliased(), cp) == cp % 16
  {
    var t := Aliased();
    assert Slot1(t, cp) == 65 && Slot2(t, cp) == 66 && Pos(cp) == 0;
    assert !Wide(64) && LeafBase(t.index, 64, 0) == 0;
  }

  lemma AliasedReadable(cp: nat)
    ensures Readable(Aliased(), cp)
  {
    if 0x1000 <= cp < 0x4000 {
      AliasedLow(cp);
    } else if 0x4000 <= cp < 0x4010 {
      AliasedHigh(cp);
    }
  }

  /** It is well formed and meets every assertion but the last. */
  lemma AliasedWellFormed(ce32s: seq<nat>)
    requires |ce32s| == 67
    ensures WellFormed(Aliased()) && Room(Aliased(), ce32s) && Disturbed(Aliased(), 0x4000)
  {
    forall cp: nat | cp < CODE_POINTS
      ensures Readable(Aliased(), cp)
    {
      AliasedReadable(cp);
    }
    assert Slot2(Aliased(), 0x4000) == 66 && Pos(0x4000) == 0 && !Wide(64);
  }

  /** The overlay changes U+4000, which is no Jamo. */
  lemma AliasedDamaged(n: Trie, ce32s: seq<nat>)
    requires |ce32s| == 67 && forall i :: 0 <= i < 67 ==> ce32s[i] == 1
    requires WellFormed(Aliased()) && IsOverlay(Aliased(), n, ce32s)
    ensures Lookup(Aliased(), 0x4000) == 0
    ensures Readable(n, 0x4000) && Lookup(n, 0x4000) == 1 && !Owed(Aliased(), n, ce32s, 0x4000)
  {
    AliasedReadable(0x4000);
    AliasedPath(n, ce32s);
    AliasedValue(n, ce32s);
  }

  lemma AliasedPath(n: Trie, ce32s: seq<nat>)
    requires |ce32s| == 67 && WellFormed(Aliased()) && IsOverlay(Aliased(), n, ce32s)
    ensures Addressable(n, 0x4000) && TrieIndex(n, 0x4000) == 67
  {
    var o := Aliased();
    RedirectedSlots(o.index, n.index, 65);
    RedirectedSlots(o.index, n.index, 66);
    assert Slot2(n, 0x4000) == 66 && Pos(0x4000) == 0 && !Wide(64);
  }

  lemma AliasedValue(n: Trie, ce32s: seq<nat>)
    requires |ce32s| == 67 && (forall i :: 0 <= i < 67 ==> ce32s[i] == 1)
    requires WellFormed(Aliased()) && IsOverlay(Aliased(), n, ce32s)
    ensures |n.data| > 67 && n.data[67] == 1
  {
    var o, base, want := Aliased(), Bases(Aliased()), Wanted(Aliased(), ce32s);
    JamoBlocks(16);
    BlocksBeforeValue(16);
    assert BlockStored(base, want, 64, n.index, n.data, 99, 16);
    CopiedValue(o, n.data, ce32s, 64, 16, 3);
  }
}

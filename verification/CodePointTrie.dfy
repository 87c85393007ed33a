/**
 The compressed code-point trie of the search collation exports, and the copy-on-write
 overlay that restores the 67 modern conjoining Jamo records
 (tools/generate-search-collation-data.py).

 Shifts and masks of the original are written with `/` and `%`; all operands are
 non-negative, so the two agree.
 */
module CodePointTrie {

  datatype Kind = Fast | Small

  /** The four trie fields a lookup reads. */
  datatype Trie = Trie(kind: Kind, highStart: nat, index: seq<nat>, data: seq<nat>)

  const CODE_POINTS := 0x110000
  const INDEX_LIMIT := 32768
  const DATA_LIMIT := 65535

  // ----- lookup ---------------------------------------------------------------

  predicate Linear(t: Trie, cp: nat) {
    cp < (if t.kind == Fast then 0x10000 else 0x1000)
  }

  function Slot1(t: Trie, cp: nat): nat {
    cp / 0x4000 + (if t.kind == Fast then 1020 else 64)
  }

  /** The position of a code point's 16-value block inside its index-3 block. */
  function Pos(cp: nat): nat { cp / 16 % 32 }

  /** Bit 15 of an index-3 entry: the block holds 18-bit offsets. */
  predicate Wide(i3: nat) { i3 / 0x8000 % 2 == 1 }

  /** Where the group of eight 18-bit offsets holding `pos` starts. */
  function Group(i3: nat, pos: nat): nat { i3 % 0x8000 + pos / 8 * 8 + pos / 8 }

  function Shifted(v: nat, n: nat): nat
    decreases n
  {
    if n == 0 then v else Shifted(2 * v, n - 1)
  }

  /** The two high bits of an 18-bit offset, taken from the group's first word. */
  function HighBits(word: nat, pos: nat): nat {
    Shifted(word, 2 + 2 * (pos % 8)) / 0x10000 % 4 * 0x10000
  }

  predicate LeafAddressable(index: seq<nat>, i3: nat, pos: nat) {
    if Wide(i3) then Group(i3, pos) + 1 + pos % 8 < |index| else i3 + pos < |index|
  }

  /** The data offset an index-3 entry gives for `pos`. */
  function LeafBase(index: seq<nat>, i3: nat, pos: nat): nat
    requires LeafAddressable(index, i3, pos)
  {
    if Wide(i3) then HighBits(index[Group(i3, pos)], pos) + index[Group(i3, pos) + 1 + pos % 8]
    else index[i3 + pos]
  }

  function Slot2(t: Trie, cp: nat): nat
    requires Slot1(t, cp) < |t.index|
  {
    t.index[Slot1(t, cp)] + cp / 0x200 % 32
  }

  /** Every index word the lookup of `cp` reads exists. */
  predicate Addressable(t: Trie, cp: nat) {
    if Linear(t, cp) then cp / 64 < |t.index|
    else if cp >= t.highStart then 2 <= |t.data|
    else
      && Slot1(t, cp) < |t.index|
      && Slot2(t, cp) < |t.index|
      && LeafAddressable(t.index, t.index[Slot2(t, cp)], Pos(cp))
  }

  function TrieIndex(t: Trie, cp: nat): nat
    requires Addressable(t, cp)
  {
    if Linear(t, cp) then t.index[cp / 64] + cp % 64
    else if cp >= t.highStart then |t.data| - 2
    else LeafBase(t.index, t.index[Slot2(t, cp)], Pos(cp)) + cp % 16
  }

  predicate Readable(t: Trie, cp: nat) {
    Addressable(t, cp) && TrieIndex(t, cp) < |t.data|
  }

  function Lookup(t: Trie, cp: nat): nat
    requires Readable(t, cp)
  {
    t.data[TrieIndex(t, cp)]
  }

  /** The shape the generator insists on: 16-bit index words, and a value for every code point. */
  ghost predicate WellFormed(t: Trie) {
    && (forall i :: 0 <= i < |t.index| ==> t.index[i] < 0x10000)
    && (forall cp: nat :: cp < CODE_POINTS ==> Readable(t, cp))
  }

  // ----- the 67 modern Jamo ----------------------------------------------------

  function Range(lo: nat, hi: nat): (s: seq<nat>)
    requires lo <= hi
    ensures |s| == hi - lo && forall i :: 0 <= i < |s| ==> s[i] == lo + i
  {
    seq(hi - lo, i requires 0 <= i => lo + i)
  }

  /** Modern L, V and T Jamo (section 3.12 of the Unicode Standard), in record order. */
  const MODERN: seq<nat> := Range(0x1100, 0x1113) + Range(0x1161, 0x1176) + Range(0x11a8, 0x11c3)

  predicate IsJamo(cp: nat) {
    0x1100 <= cp < 0x1113 || 0x1161 <= cp < 0x1176 || 0x11a8 <= cp < 0x11c3
  }

  function JamoRank(cp: nat): (r: nat)
    requires IsJamo(cp)
    ensures r < 67
  {
    if cp < 0x1113 then cp - 0x1100 else if cp < 0x1176 then cp - 0x1161 + 19 else cp - 0x11a8 + 40
  }

  /** `IsJamo` and `JamoRank` are membership and position in the record list. */
  lemma JamoListed(cp: nat)
    ensures |MODERN| == 67
    ensures forall i :: 0 <= i < 67 ==> MODERN[i] == if i < 19 then 0x1100 + i else if i < 40 then 0x1161 + (i - 19) else 0x11a8 + (i - 40)
    ensures IsJamo(cp) <==> cp in MODERN
    ensures IsJamo(cp) ==> MODERN[JamoRank(cp)] == cp
  {
    assert |MODERN| == 67;
    if IsJamo(cp) {
      assert MODERN[JamoRank(cp)] == cp;
    }
    forall i | 0 <= i < 67 && MODERN[i] == cp
      ensures IsJamo(cp)
    {
    }
  }

  function BlockStart(j: nat): nat { 0x1000 + 16 * j }

  predicate HasJamo(j: nat) {
    exists cp: nat :: BlockStart(j) <= cp < BlockStart(j) + 16 && IsJamo(cp)
  }

  lemma JamoBlocks(j: nat)
    requires j < 32
    ensures HasJamo(j) <==> j == 16 || j == 17 || j == 22 || j == 23 || 26 <= j <= 28
  {
    if j == 16 || j == 17 || j == 23 || j == 27 || j == 28 {
      assert IsJamo(BlockStart(j));
    } else if j == 22 {
      assert IsJamo(BlockStart(j) + 1);
    } else if j == 26 {
      assert IsJamo(BlockStart(j) + 8);
    }
  }

  /** How many of the first `j` blocks hold a Jamo: where block `j`'s private copy lands. */
  function BlocksBefore(j: nat): nat {
    if j == 0 then 0 else BlocksBefore(j - 1) + (if HasJamo(j - 1) then 1 else 0)
  }

  /** Seven blocks are copied in all; the last copy is block 28's. */
  lemma {:induction false} BlocksBeforeValue(j: nat)
    requires j <= 32
    ensures BlocksBefore(j) ==
            if j <= 16 then 0 else if j <= 17 then 1 else if j <= 22 then 2 else if j <= 23 then 3
            else if j <= 26 then 4 else if j <= 27 then 5 else if j <= 28 then 6 else 7
  {
    if j > 0 {
      BlocksBeforeValue(j - 1);
      JamoBlocks(j - 1);
    }
  }

  lemma BlocksBeforeMonotone(j: nat, k: nat)
    requires j <= k
    ensures BlocksBefore(j) <= BlocksBefore(k)
    ensures j < k && HasJamo(j) ==> BlocksBefore(j) + 1 <= BlocksBefore(k)
  {
    if j < k { BlocksBeforeMonotone(j, k - 1); }
  }
}

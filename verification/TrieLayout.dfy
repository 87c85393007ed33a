/**
 The layout a code-point trie stores a plain map in, and reading it back
 (tools/generate-search-collation-data.py `trie_index`). A layout is described from the map's side,
 block by block and value by value.
 */
module TrieLayout {
  import opened CodePointTrie

  // ----- 18-bit offsets ----------------------------------------------------------------------------

  /** Eight two-bit digits in one word, the first in its highest bits. */
  function Pack(h: seq<nat>): nat {
    if h == [] then 0 else Pack(h[..|h| - 1]) * 4 + h[|h| - 1]
  }

  function Highs(offsets: seq<nat>): seq<nat> {
    seq(|offsets|, i requires 0 <= i < |offsets| => offsets[i] / 0x10000)
  }

  function Lows(offsets: seq<nat>): seq<nat> {
    seq(|offsets|, i requires 0 <= i < |offsets| => offsets[i] % 0x10000)
  }

  /** A group of eight offsets: their high bits packed, then their low words. */
  function GroupWords(offsets: seq<nat>): seq<nat> { [Pack(Highs(offsets))] + Lows(offsets) }

  /** Four groups. */
  function WideWords(offsets: seq<nat>): seq<nat>
    requires |offsets| == 32
  {
    GroupWords(offsets[0..8]) + GroupWords(offsets[8..16]) + GroupWords(offsets[16..24]) + GroupWords(offsets[24..32])
  }

  /** The entry points at these 32 offsets: as they are, or with bit 15 set as an 18-bit block. */
  predicate StoresLeaf(index: seq<nat>, entry: nat, offsets: seq<nat>) {
    && |offsets| == 32
    && if entry < 0x8000 then entry + 32 <= |index| && index[entry..entry + 32] == offsets
       else
         && entry < 0x10000 && (forall p :: 0 <= p < 32 ==> offsets[p] < 0x40000)
         && entry - 0x8000 + 36 <= |index| && index[entry - 0x8000..entry - 0x8000 + 36] == WideWords(offsets)
  }

  // ----- the layout of a map -----------------------------------------------------------------------

  function Direct(t: Trie): nat { if t.kind == Fast then 0x10000 else 0x1000 }

  function Root(t: Trie): nat { if t.kind == Fast then 1020 else 64 }

  /** Value `r` of a block that starts at `at` is that of code point `start + r`. */
  predicate Stands(t: Trie, f: nat -> nat, at: nat, start: nat, r: nat) {
    at + r < |t.data| && t.data[at + r] == f(start + r)
  }

  /** Block `b` of 64 values. */
  predicate DirectBlock(t: Trie, f: nat -> nat, b: nat) {
    && b < |t.index| && t.index[b] + 64 <= |t.data|
    && forall r: nat :: r < 64 ==> Stands(t, f, t.index[b], 64 * b, r)
  }

  /** Value `r` of block `p` of a leaf whose first code point is `start`, where the leaf is used. */
  predicate LeafValue(t: Trie, f: nat -> nat, start: nat, offsets: seq<nat>, p: nat, r: nat)
    requires p < |offsets|
  {
    Direct(t) <= start + 16 * p + r < t.highStart ==> Stands(t, f, offsets[p], start + 16 * p, r)
  }

  /** The entry points at 32 blocks of 16 values, the first code point being `start`. */
  ghost predicate Leaf(t: Trie, f: nat -> nat, entry: nat, start: nat) {
    exists offsets :: StoresLeaf(t.index, entry, offsets) && forall p: nat, r: nat :: p < 32 && r < 16 ==> LeafValue(t, f, start, offsets, p, r)
  }

  /** Leaf `k` of index-2 block `a`, if any of its code points is looked up there. */
  ghost predicate Branch(t: Trie, f: nat -> nat, a: nat, k: nat) {
    var start := 0x4000 * a + 0x200 * k;
    Direct(t) < start + 0x200 && start < t.highStart ==>
      && Root(t) + a < |t.index| && t.index[Root(t) + a] + k < |t.index|
      && Leaf(t, f, t.index[t.index[Root(t) + a] + k], start)
  }

  /** The trie is laid out from the map. */
  ghost predicate LaidOut(t: Trie, f: nat -> nat) {
    && (forall b: nat :: 64 * b < Direct(t) ==> DirectBlock(t, f, b))
    && (forall a: nat, k: nat :: k < 32 ==> Branch(t, f, a, k))
    && |t.data| >= 2 && (forall cp: nat :: Direct(t) <= cp && t.highStart <= cp < CODE_POINTS ==> f(cp) == t.data[|t.data| - 2])
  }

  // ----- reading it back ----------------------------------------------------------------------------

  /** 4 to the n. */
  function Quad(n: nat): (q: nat)
    ensures q > 0
  {
    if n == 0 then 1 else 4 * Quad(n - 1)
  }

  lemma AtLeastOnce(d: nat, k: nat)
    requires k > 0
    ensures d * k >= d
  {
    assert d * k == d + d * (k - 1);
  }

  lemma Spread(d: nat, b: nat, q: nat)
    requires q < b
    ensures d * b >= d * q + d
  {
    assert d * b == d * q + d * (b - q);
    AtLeastOnce(d, b - q);
  }

  lemma DivUnique(y: nat, d: nat, b: nat, rest: nat)
    requires d > 0 && y == d * b + rest && rest < d
    ensures y / d == b
  {
    var q := y / d;
    Divided(y, d);
    if q < b {
      Spread(d, b, q);
    } else if b < q {
      Spread(d, q, b);
    }
  }

  lemma Divided(y: nat, d: nat)
    requires d > 0
    ensures y == d * (y / d) + y % d && y % d < d
  {
  }

  /** Dividing by four and then by `q`. */
  lemma DivFour(y: nat, q: nat)
    requires q > 0
    ensures y / (4 * q) == y / 4 / q
  {
    var a := y / 4;
    var b := a / q;
    assert y == 4 * a + y % 4 && a == q * b + a % q;
    assert 4 * (q * b) == (4 * q) * b;
    DivUnique(y, 4 * q, b, 4 * (a % q) + y % 4);
  }

  predicate Digits(h: seq<nat>) { forall i :: 0 <= i < |h| ==> h[i] < 4 }

  lemma PackStep(h: seq<nat>)
    requires h != [] && h[|h| - 1] < 4
    ensures Pack(h) / 4 == Pack(h[..|h| - 1]) && Pack(h) % 4 == h[|h| - 1]
  {
  }

  /** Each digit is read back from its place. */
  lemma {:induction false} PackDigit(h: seq<nat>, p: nat)
    requires Digits(h) && p < |h|
    ensures Pack(h) / Quad(|h| - 1 - p) % 4 == h[p]
  {
    var front, n := h[..|h| - 1], |h| - 1 - p;
    PackStep(h);
    if n > 0 {
      PackDigit(front, p);
      DivFour(Pack(h), Quad(n - 1));
      calc {
        Pack(h) / Quad(n) % 4;
        Pack(h) / (4 * Quad(n - 1)) % 4;
        Pack(h) / 4 / Quad(n - 1) % 4;
        Pack(front) / Quad(n - 1) % 4;
        front[p];
      }
    }
  }

  lemma ShiftTwo(v: nat, p: nat)
    ensures Shifted(v, 2 + 2 * p) == Shifted(4 * v, 2 * p)
  {
    assert Shifted(v, 2 + 2 * p) == Shifted(2 * v, 1 + 2 * p);
  }

  lemma {:induction false} ShiftedQuad(v: nat, p: nat)
    ensures Shifted(v, 2 * p) == v * Quad(p)
    decreases p
  {
    if p > 0 {
      ShiftTwo(v, p - 1);
      ShiftedQuad(4 * v, p - 1);
      assert 4 * v * Quad(p - 1) == v * (4 * Quad(p - 1));
    }
  }

  lemma Quads()
    ensures Quad(1) == 4 && Quad(2) == 16 && Quad(3) == 64 && Quad(4) == 256 && Quad(5) == 1024 && Quad(6) == 4096
    ensures Quad(7) == 16384 && Quad(8) == 65536
  {
    assert Quad(2) == 4 * Quad(1) && Quad(3) == 4 * Quad(2) && Quad(4) == 4 * Quad(3) && Quad(5) == 4 * Quad(4);
  }

  lemma ShiftBack(w: nat, p: nat)
    requires p < 8
    ensures w * Quad(p + 1) / 0x10000 == w / Quad(7 - p)
  {
    Quads();
  }

  /** The two bits of each position are read from where they were packed. */
  lemma HighDigit(h: seq<nat>, p: nat)
    requires Digits(h) && |h| == 8 && p < 8
    ensures HighBits(Pack(h), p) == h[p] * 0x10000
  {
    var w := Pack(h);
    ShiftedQuad(w, p + 1);
    assert 2 * (p + 1) == 2 + 2 * p && p % 8 == p;
    ShiftBack(w, p);
    PackDigit(h, p);
    calc {
      HighBits(w, p);
      Shifted(w, 2 + 2 * p) / 0x10000 % 4 * 0x10000;
      w * Quad(p + 1) / 0x10000 % 4 * 0x10000;
      w / Quad(7 - p) % 4 * 0x10000;
    }
  }

  /** Where an offset's two parts stand among the words of an 18-bit block. */
  lemma WideWordsAt(offsets: seq<nat>, g: nat, q: nat)
    requires |offsets| == 32 && g < 4 && q < 8
    ensures |WideWords(offsets)| == 36
    ensures WideWords(offsets)[9 * g] == Pack(Highs(offsets[8 * g..8 * g + 8]))
    ensures WideWords(offsets)[9 * g + 1 + q] == offsets[8 * g + q] % 0x10000
  {
    var a, b, c, d := GroupWords(offsets[0..8]), GroupWords(offsets[8..16]), GroupWords(offsets[16..24]), GroupWords(offsets[24..32]);
    assert |a| == |b| == |c| == |d| == 9;
    var words := if g == 0 then a else if g == 1 then b else if g == 2 then c else d;
    assert words == GroupWords(offsets[8 * g..8 * g + 8]);
    assert WideWords(offsets)[9 * g] == words[0] && WideWords(offsets)[9 * g + 1 + q] == words[1 + q];
    assert words[1 + q] == Lows(offsets[8 * g..8 * g + 8])[q];
  }

  /** How an 18-bit block at `base` gives position `q` of its group `g`. */
  lemma WideBase(index: seq<nat>, entry: nat, g: nat, q: nat)
    requires 0x8000 <= entry < 0x10000 && g < 4 && q < 8 && entry - 0x8000 + 36 <= |index|
    ensures var base, p := entry - 0x8000, 8 * g + q;
            && LeafAddressable(index, entry, p)
            && LeafBase(index, entry, p) == HighBits(index[base + 9 * g], p) + index[base + 9 * g + 1 + q]
  {
    var p := 8 * g + q;
    WideEntry(entry);
    assert p / 8 == g && p % 8 == q && Group(entry, p) == entry - 0x8000 + 9 * g;
  }

  lemma WideReads(index: seq<nat>, entry: nat, offsets: seq<nat>, g: nat, q: nat)
    requires StoresLeaf(index, entry, offsets) && entry >= 0x8000 && g < 4 && q < 8
    ensures LeafAddressable(index, entry, 8 * g + q) && LeafBase(index, entry, 8 * g + q) == offsets[8 * g + q]
  {
    WideBase(index, entry, g, q);
    WideWordsAt(offsets, g, q);
    WordAt(index, entry - 0x8000, WideWords(offsets), 9 * g);
    WordAt(index, entry - 0x8000, WideWords(offsets), 9 * g + 1 + q);
    PackedHigh(offsets, g, q);
  }

  lemma WordAt(index: seq<nat>, base: nat, words: seq<nat>, i: nat)
    requires base + |words| <= |index| && index[base..base + |words|] == words && i < |words|
    ensures index[base + i] == words[i]
  {
    assert index[base + i] == index[base..base + |words|][i];
  }

  lemma PackedHigh(offsets: seq<nat>, g: nat, q: nat)
    requires |offsets| == 32 && g < 4 && q < 8 && forall p :: 0 <= p < 32 ==> offsets[p] < 0x40000
    ensures HighBits(Pack(Highs(offsets[8 * g..8 * g + 8])), 8 * g + q) + offsets[8 * g + q] % 0x10000 == offsets[8 * g + q]
  {
    var h := Highs(offsets[8 * g..8 * g + 8]);
    GroupHigh(offsets, g, q);
    HighDigit(h, q);
    assert (8 * g + q) % 8 == q;
    HighBitsMod(Pack(h), 8 * g + q, q);
  }

  lemma HighBitsMod(word: nat, p: nat, q: nat)
    requires p % 8 == q
    ensures HighBits(word, p) == HighBits(word, q)
  {
    assert q % 8 == q;
  }

  lemma GroupHigh(offsets: seq<nat>, g: nat, q: nat)
    requires |offsets| == 32 && g < 4 && q < 8 && forall p :: 0 <= p < 32 ==> offsets[p] < 0x40000
    ensures var h := Highs(offsets[8 * g..8 * g + 8]);
            |h| == 8 && Digits(h) && h[q] == offsets[8 * g + q] / 0x10000
  {
    var group := offsets[8 * g..8 * g + 8];
    forall i | 0 <= i < 8 ensures group[i] == offsets[8 * g + i] && group[i] / 0x10000 < 4 {
    }
  }

  lemma WideEntry(entry: nat)
    requires entry < 0x10000
    ensures Wide(entry) <==> entry >= 0x8000
    ensures entry >= 0x8000 ==> entry % 0x8000 == entry - 0x8000
  {
  }

  /** A leaf gives each position the offset stored for it. */
  lemma LeafReads(index: seq<nat>, entry: nat, offsets: seq<nat>, p: nat)
    requires StoresLeaf(index, entry, offsets) && p < 32
    ensures LeafAddressable(index, entry, p) && LeafBase(index, entry, p) == offsets[p]
  {
    if entry < 0x8000 {
      WideEntry(entry);
      assert index[entry + p] == index[entry..entry + 32][p];
    } else {
      WideReads(index, entry, offsets, p / 8, p % 8);
    }
  }

  lemma DirectParts(cp: nat)
    ensures cp == 64 * (cp / 64) + cp % 64
  {
  }

  lemma Parts(cp: nat)
    ensures cp == 0x4000 * (cp / 0x4000) + 0x200 * (cp / 0x200 % 32) + 16 * Pos(cp) + cp % 16
    ensures Pos(cp) < 32 && cp / 0x200 % 32 < 32
  {
    var q := cp / 16;
    Nested16(cp);
    Nested512(cp);
    assert cp == 16 * q + cp % 16 && q == 32 * (q / 32) + q % 32;
    assert cp / 0x200 == 32 * (cp / 0x200 / 32) + cp / 0x200 % 32;
  }

  lemma Nested16(cp: nat)
    ensures cp / 16 / 32 == cp / 0x200
  {
  }

  lemma Nested512(cp: nat)
    ensures cp / 0x200 / 32 == cp / 0x4000
  {
  }

  lemma DirectReads(t: Trie, f: nat -> nat, cp: nat)
    requires LaidOut(t, f) && cp < Direct(t)
    ensures Readable(t, cp) && Lookup(t, cp) == f(cp)
  {
    DirectParts(cp);
    assert DirectBlock(t, f, cp / 64);
    assert Stands(t, f, t.index[cp / 64], 64 * (cp / 64), cp % 64);
  }

  /** Above the direct blocks the lookup ends at the offset stored for its position. */
  lemma LeafIndex(t: Trie, cp: nat, entry: nat, offsets: seq<nat>)
    requires Direct(t) <= cp < t.highStart && Root(t) + cp / 0x4000 < |t.index|
    requires t.index[Root(t) + cp / 0x4000] + cp / 0x200 % 32 < |t.index|
    requires entry == t.index[t.index[Root(t) + cp / 0x4000] + cp / 0x200 % 32] && StoresLeaf(t.index, entry, offsets)
    ensures Pos(cp) < 32 && Addressable(t, cp) && TrieIndex(t, cp) == offsets[Pos(cp)] + cp % 16
  {
    LeafReads(t.index, entry, offsets, Pos(cp));
    assert Slot1(t, cp) == Root(t) + cp / 0x4000;
  }

  lemma LeafAt(t: Trie, f: nat -> nat, entry: nat, start: nat, p: nat, r: nat) returns (offsets: seq<nat>)
    requires Leaf(t, f, entry, start) && p < 32 && r < 16
    ensures StoresLeaf(t.index, entry, offsets) && LeafValue(t, f, start, offsets, p, r)
  {
    offsets :| StoresLeaf(t.index, entry, offsets) && forall p: nat, r: nat :: p < 32 && r < 16 ==> LeafValue(t, f, start, offsets, p, r);
  }

  lemma BranchOf(t: Trie, f: nat -> nat, cp: nat)
    requires LaidOut(t, f) && Direct(t) <= cp < t.highStart
    ensures Root(t) + cp / 0x4000 < |t.index| && t.index[Root(t) + cp / 0x4000] + cp / 0x200 % 32 < |t.index|
    ensures cp >= 16 * Pos(cp) + cp % 16
    ensures Leaf(t, f, t.index[t.index[Root(t) + cp / 0x4000] + cp / 0x200 % 32], cp - 16 * Pos(cp) - cp % 16)
  {
    Parts(cp);
    assert Branch(t, f, cp / 0x4000, cp / 0x200 % 32);
  }

  lemma LeafBlockReads(t: Trie, f: nat -> nat, cp: nat)
    requires LaidOut(t, f) && Direct(t) <= cp < t.highStart
    ensures Readable(t, cp) && Lookup(t, cp) == f(cp)
  {
    BranchOf(t, f, cp);
    var entry := t.index[t.index[Root(t) + cp / 0x4000] + cp / 0x200 % 32];
    var start := cp - 16 * Pos(cp) - cp % 16;
    var offsets := LeafAt(t, f, entry, start, Pos(cp), cp % 16);
    LeafIndex(t, cp, entry, offsets);
    LeafLookup(t, f, cp, start, offsets, Pos(cp), cp % 16);
  }

  lemma LeafLookup(t: Trie, f: nat -> nat, cp: nat, start: nat, offsets: seq<nat>, p: nat, r: nat)
    requires Direct(t) <= cp < t.highStart && cp == start + 16 * p + r && p < |offsets| && LeafValue(t, f, start, offsets, p, r)
    requires Addressable(t, cp) && TrieIndex(t, cp) == offsets[p] + r
    ensures Readable(t, cp) && Lookup(t, cp) == f(cp)
  {
  }

  /** A trie laid out from a map reads the map back at every code point. */
  lemma ReadsBack(t: Trie, f: nat -> nat, cp: nat)
    requires LaidOut(t, f) && cp < CODE_POINTS
    ensures Readable(t, cp) && Lookup(t, cp) == f(cp)
  {
    if cp < Direct(t) {
      DirectReads(t, f, cp);
    } else if cp < t.highStart {
      LeafBlockReads(t, f, cp);
    }
  }

  // ----- a trie for any map --------------------------------------------------------------------------

  /** The offsets of U+1000..U+11FF, `pad` values behind those of the code points below. */
  function PaddedOffsets(pad: nat): (s: seq<nat>)
    ensures |s| == 32 && forall p :: 0 <= p < 32 ==> s[p] == 0x1000 + pad + 16 * p
  {
    seq(32, p requires 0 <= p < 32 => 0x1000 + pad + 16 * p)
  }

  /** A small trie of a map that is constant from U+1200 on, with one 18-bit block. */
  function LayOut(f: nat -> nat, pad: nat): Trie {
    Trie(Small, 0x1200,
      seq(64, b requires 0 <= b < 64 => 64 * b) + ([65] + seq(8, i => 0) + [0x8000 + 74]) + WideWords(PaddedOffsets(pad)),
      seq(0x1000, i requires 0 <= i < 0x1000 => f(i)) + seq(pad, i => 0) + seq(0x200, i requires 0 <= i < 0x200 => f(0x1000 + i)) + [f(0x1200), 0])
  }

  lemma LayOutIndex(f: nat -> nat, pad: nat)
    ensures var index := LayOut(f, pad).index;
            && |index| == 110 && (forall b :: 0 <= b < 64 ==> index[b] == 64 * b)
            && index[64] == 65 && index[73] == 0x8000 + 74 && index[74..110] == WideWords(PaddedOffsets(pad))
  {
    WideWordsAt(PaddedOffsets(pad), 0, 0);
  }

  lemma LayOutData(f: nat -> nat, pad: nat)
    ensures var data := LayOut(f, pad).data;
            && |data| == 0x1202 + pad && (forall i :: 0 <= i < 0x1000 ==> data[i] == f(i))
            && (forall i :: 0x1000 <= i < 0x1200 ==> data[pad + i] == f(i)) && data[|data| - 2] == f(0x1200)
  {
  }

  lemma LayOutLeaf(f: nat -> nat, pad: nat)
    requires pad + 0x1200 < 0x40000
    ensures Leaf(LayOut(f, pad), f, 0x8000 + 74, 0x1000)
  {
    var t, offsets := LayOut(f, pad), PaddedOffsets(pad);
    LayOutIndex(f, pad);
    LayOutData(f, pad);
    assert StoresLeaf(t.index, 0x8000 + 74, offsets);
    forall p: nat, r: nat | p < 32 && r < 16 ensures LeafValue(t, f, 0x1000, offsets, p, r) {
      assert t.data[pad + (0x1000 + 16 * p + r)] == f(0x1000 + 16 * p + r);
    }
  }

  /** It is laid out from the map. */
  lemma LayOutLaidOut(f: nat -> nat, pad: nat)
    requires pad + 0x1200 < 0x40000 && forall cp: nat :: 0x1200 <= cp < CODE_POINTS ==> f(cp) == f(0x1200)
    ensures LaidOut(LayOut(f, pad), f)
  {
    var t := LayOut(f, pad);
    LayOutIndex(f, pad);
    LayOutData(f, pad);
    LayOutLeaf(f, pad);
    forall b: nat | 64 * b < Direct(t) ensures DirectBlock(t, f, b) {
      forall r: nat | r < 64 ensures Stands(t, f, t.index[b], 64 * b, r) {
        assert t.data[64 * b + r] == f(64 * b + r);
      }
    }
    forall a: nat, k: nat | k < 32 ensures Branch(t, f, a, k) {
      OnlyBranch(a, k);
    }
  }

  lemma OnlyBranch(a: nat, k: nat)
    requires k < 32
    ensures 0x1000 < 0x4000 * a + 0x200 * k + 0x200 && 0x4000 * a + 0x200 * k < 0x1200 <==> a == 0 && k == 8
  {
  }
}

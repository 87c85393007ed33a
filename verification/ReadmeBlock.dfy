/** Replacing the generated block of a README (the end of `render` in gates/publish.py). */
module ReadmeBlock {
  import opened Options
  import opened TextSearch

  /** What opens and closes the block. */
  datatype Marks = Marks(begin: string, end: string)

  const ReadmeMarks := Marks("<!-- BEGIN GENERATED RESULTS", "<!-- END GENERATED RESULTS -->")

  /** The generated block, its body starting in the opening comment. */
  function Section(m: Marks, body: string): string {
    m.begin + body + m.end + "\n"
  }

  /** Past the end marker at `j`, and its line feed if there is one. */
  function Past(m: Marks, text: string, j: nat): nat {
    if j + |m.end| < |text| && text[j + |m.end|] == '\n' then j + |m.end| + 1 else j + |m.end|
  }

  /** None: there is no block to replace. */
  function Splice(m: Marks, text: string, section: string): Option<string> {
    var i, j := Find(text, m.begin, 0), Find(text, m.end, 0);
    if i.None? || j.None? || j.value < i.value then None
    else Some(text[..i.value] + section + text[Past(m, text, j.value)..])
  }

  /** An opening bracket first and nowhere else. */
  predicate Marker(mark: string) {
    mark != "" && mark[0] == '<' && forall i :: 0 < i < |mark| ==> mark[i] != '<'
  }

  /** Both marks are markers, the closing one longer than its bracket. */
  predicate Marked(m: Marks) {
    Marker(m.begin) && Marker(m.end) && |m.end| > 1
  }

  lemma ReadmeMarked()
    ensures Marked(ReadmeMarks)
  {
  }

  /** A marker cannot straddle the start of a block. */
  lemma NoStraddle(prefix: string, block: string, rest: string, mark: string, p: nat)
    requires Marker(mark) && block != "" && block[0] == '<' && !Contains(prefix, mark) && p < |prefix|
    ensures !MatchAt(prefix + block + rest, mark, p)
  {
    var text := prefix + block + rest;
    if p + |mark| <= |prefix| {
      assert !MatchAt(prefix, mark, p);
      assert text[p..p + |mark|] == prefix[p..p + |mark|];
    } else {
      assert text[|prefix|] == '<';
      assert p + |mark| <= |text| ==> text[p..p + |mark|][|prefix| - p] == text[|prefix|];
    }
  }

  /** Behind a prefix without it, a marker is first found where the block has it. */
  lemma FoundInBlock(prefix: string, block: string, rest: string, mark: string, k: nat)
    requires Marker(mark) && block != "" && block[0] == '<' && !Contains(prefix, mark) && FirstAt(block, mark, k)
    ensures FirstAt(prefix + block + rest, mark, |prefix| + k)
  {
    var text := prefix + block + rest;
    assert text[|prefix| + k..|prefix| + k + |mark|] == block[k..k + |mark|];
    forall p: nat | p < |prefix| + k ensures !MatchAt(text, mark, p) {
      if p < |prefix| {
        NoStraddle(prefix, block, rest, mark, p);
      } else {
        assert !MatchAt(block, mark, p - |prefix|);
        assert text[p..p + |mark|] == block[p - |prefix|..p - |prefix| + |mark|];
      }
    }
  }

  lemma PrefixFree(text: string, mark: string, i: nat, j: nat)
    requires FirstAt(text, mark, j) && i <= j && mark != ""
    ensures !Contains(text[..i], mark)
  {
    forall p: nat ensures !MatchAt(text[..i], mark, p) {
      if p + |mark| <= i {
        assert !MatchAt(text, mark, p);
        assert text[..i][p..p + |mark|] == text[p..p + |mark|];
      }
    }
  }

  /** Where the block's first end marker is. */
  ghost function EndAt(m: Marks, body: string): (e: nat)
    ensures FirstAt(Section(m, body), m.end, e) && e <= |m.begin + body|
  {
    assert Section(m, body)[|m.begin + body|..|m.begin + body| + |m.end|] == m.end;
    assert MatchAt(Section(m, body), m.end, |m.begin + body|);
    Find(Section(m, body), m.end, 0).value
  }

  /** What a second splice leaves of the block: nothing but what follows its first end marker. */
  ghost function Leftover(m: Marks, body: string): string {
    Section(m, body)[Past(m, Section(m, body), EndAt(m, body))..]
  }

  lemma FoundAt(text: string, mark: string, k: nat)
    requires FirstAt(text, mark, k)
    ensures Find(text, mark, 0) == Some(k)
  {
    FirstUnique(text, mark, k, Find(text, mark, 0).value);
  }

  lemma BeginsBlock(m: Marks, body: string)
    requires Marked(m)
    ensures Section(m, body) != "" && Section(m, body)[0] == '<' && FirstAt(Section(m, body), m.begin, 0)
  {
    assert Section(m, body)[0..0 + |m.begin|] == m.begin;
  }

  /** What is dropped after a block's end marker lies inside it, when more of the block follows. */
  lemma PastInBlock(m: Marks, prefix: string, block: string, rest: string, e: nat)
    requires e + |m.end| < |block|
    ensures var once := prefix + block + rest;
            && Past(m, once, |prefix| + e) == |prefix| + Past(m, block, e) <= |once|
            && once[Past(m, once, |prefix| + e)..] == block[Past(m, block, e)..] + rest
  {
    assert (prefix + block + rest)[|prefix| + e + |m.end|] == block[e + |m.end|];
  }

  lemma FoundAround(m: Marks, prefix: string, block: string, rest: string, e: nat)
    requires Marked(m) && !Contains(prefix, m.begin) && !Contains(prefix, m.end) && block != "" && block[0] == '<'
    requires FirstAt(block, m.begin, 0) && FirstAt(block, m.end, e)
    ensures Find(prefix + block + rest, m.begin, 0) == Some(|prefix|)
    ensures Find(prefix + block + rest, m.end, 0) == Some(|prefix| + e)
  {
    FoundInBlock(prefix, block, rest, m.begin, 0);
    FoundInBlock(prefix, block, rest, m.end, e);
    FoundAt(prefix + block + rest, m.begin, |prefix|);
    FoundAt(prefix + block + rest, m.end, |prefix| + e);
  }

  lemma SpliceAround(m: Marks, prefix: string, block: string, rest: string, section: string, e: nat)
    requires Marked(m) && !Contains(prefix, m.begin) && !Contains(prefix, m.end) && block != "" && block[0] == '<'
    requires FirstAt(block, m.begin, 0) && FirstAt(block, m.end, e) && e + |m.end| < |block|
    ensures Splice(m, prefix + block + rest, section) == Some(prefix + section + (block[Past(m, block, e)..] + rest))
  {
    FoundAround(m, prefix, block, rest, e);
    PastInBlock(m, prefix, block, rest, e);
    assert (prefix + block + rest)[..|prefix|] == prefix;
  }

  /** Spliced again, the prefix and the rest stay and the block's leftover with them. */
  lemma SpliceBlock(m: Marks, prefix: string, body: string, rest: string, section: string)
    requires Marked(m) && !Contains(prefix, m.begin) && !Contains(prefix, m.end)
    ensures Splice(m, prefix + Section(m, body) + rest, section) == Some(prefix + section + (Leftover(m, body) + rest))
  {
    BeginsBlock(m, body);
    SpliceAround(m, prefix, Section(m, body), rest, section, EndAt(m, body));
  }

  /** A second splice replaces the first, keeping the text before and after and the first block's leftover. */
  lemma SpliceAgain(m: Marks, text: string, body: string, section: string)
    requires Marked(m) && Splice(m, text, Section(m, body)).Some?
    ensures var i, j := Find(text, m.begin, 0).value, Find(text, m.end, 0).value;
            Splice(m, Splice(m, text, Section(m, body)).value, section) ==
            Some(text[..i] + section + (Leftover(m, body) + text[Past(m, text, j)..]))
  {
    var i, j := Find(text, m.begin, 0).value, Find(text, m.end, 0).value;
    PrefixFree(text, m.begin, i, i);
    PrefixFree(text, m.end, i, j);
    SpliceBlock(m, text[..i], body, text[Past(m, text, j)..], section);
  }

  lemma LeftoverEmptyIff(m: Marks, body: string)
    requires Marked(m)
    ensures Leftover(m, body) == "" <==> EndAt(m, body) == |m.begin + body|
  {
    var block := Section(m, body);
    assert |block| == |m.begin + body| + |m.end| + 1 && block[|block| - 1] == '\n';
    assert |Leftover(m, body)| == |block| - Past(m, block, EndAt(m, body));
    assert |m.end| > 1;
  }

  lemma InsertedNothing(prefix: string, extra: string, rest: string)
    ensures prefix + (extra + rest) == prefix + rest <==> extra == ""
  {
    assert extra == "" ==> extra + rest == rest;
    assert |prefix + (extra + rest)| == |prefix + rest| + |extra|;
  }

  /** Splicing twice is splicing once exactly when the block holds no end marker before its own. */
  lemma IdempotentIff(m: Marks, text: string, body: string)
    requires Marked(m) && Splice(m, text, Section(m, body)).Some?
    ensures var once := Splice(m, text, Section(m, body));
            Splice(m, once.value, Section(m, body)) == once <==> EndAt(m, body) == |m.begin + body|
  {
    SpliceAgain(m, text, body, Section(m, body));
    LeftoverEmptyIff(m, body);
    var i, j := Find(text, m.begin, 0).value, Find(text, m.end, 0).value;
    InsertedNothing(text[..i] + Section(m, body), Leftover(m, body), text[Past(m, text, j)..]);
  }

  /** With no end marker inside the first block, the last block written is all that is left of either. */
  lemma LastBlockWins(m: Marks, text: string, body: string, again: string)
    requires Marked(m) && Splice(m, text, Section(m, body)).Some? && EndAt(m, body) == |m.begin + body|
    ensures Splice(m, Splice(m, text, Section(m, body)).value, Section(m, again)) == Splice(m, text, Section(m, again))
  {
    SpliceAgain(m, text, body, Section(m, again));
    LeftoverEmptyIff(m, body);
    var i, j := Find(text, m.begin, 0).value, Find(text, m.end, 0).value;
    InsertedNothing(text[..i] + Section(m, again), Leftover(m, body), text[Past(m, text, j)..]);
  }

  /**
   A splice is refused unless the first end mark follows the first begin mark; otherwise it keeps the
   text before the begin mark and behind the end mark and its line feed.
   */
  lemma SpliceShape(m: Marks, text: string, section: string)
    ensures Splice(m, text, section).None? <==> !exists i: nat, j: nat :: FirstAt(text, m.begin, i) && FirstAt(text, m.end, j) && i <= j
    ensures forall i: nat, j: nat :: FirstAt(text, m.begin, i) && FirstAt(text, m.end, j) && i <= j ==>
              Splice(m, text, section) ==
              Some(text[..i] + section + (if "\n" <= text[j + |m.end|..] then text[j + |m.end| + 1..] else text[j + |m.end|..]))
  {
    forall i: nat, j: nat | FirstAt(text, m.begin, i) && FirstAt(text, m.end, j)
      ensures Find(text, m.begin, 0) == Some(i) && Find(text, m.end, 0) == Some(j)
    {
      FoundAt(text, m.begin, i);
      FoundAt(text, m.end, j);
    }
    var i, j := Find(text, m.begin, 0), Find(text, m.end, 0);
    if Splice(m, text, section).Some? {
      assert FirstAt(text, m.begin, i.value) && FirstAt(text, m.end, j.value);
    }
  }
}

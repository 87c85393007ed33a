/** Python's `str.replace`, and moving an item's metadata folder to a new id and back to a placeholder. */
module FolderText {
  import opened TextSearch

  /** Left to right, without overlap. */
  function Replace(s: string, from: string, to: string): string
    requires from != ""
    decreases |s|
  {
    if |s| < |from| then s
    else if s[..|from|] == from then to + Replace(s[|from|..], from, to)
    else [s[0]] + Replace(s[1..], from, to)
  }

  /** An item's metadata folder: library/<2>/<id>/. */
  function Folder(id: string): string {
    "/" + (if |id| < 2 then id else id[..2]) + "/" + id + "/"
  }

  lemma {:induction false} ReplaceNothing(s: string, from: string, to: string)
    requires from != "" && !Contains(s, from)
    ensures Replace(s, from, to) == s
    decreases |s|
  {
    if |s| >= |from| {
      assert !MatchAt(s, from, 0);
      TailFree(s, from, 1);
      ReplaceNothing(s[1..], from, to);
    }
  }

  lemma FirstInTail(s: string, t: string, k: nat)
    requires FirstAt(s, t, k) && k > 0
    ensures FirstAt(s[1..], t, k - 1)
  {
    MatchInTail(s, t, 1, k - 1);
    forall j: nat | j < k - 1 ensures !MatchAt(s[1..], t, j) {
      MatchInTail(s, t, 1, j);
    }
  }

  lemma ReplaceHere(from: string, to: string, b: string)
    requires from != ""
    ensures Replace(from + b, from, to) == to + Replace(b, from, to)
  {
    assert (from + b)[..|from|] == from && (from + b)[|from|..] == b;
  }

  lemma ReplaceLater(s: string, from: string, to: string)
    requires from != "" && s != "" && !MatchAt(s, from, 0)
    ensures Replace(s, from, to) == [s[0]] + Replace(s[1..], from, to)
  {
    assert |s| < |from| ==> Replace(s[1..], from, to) == s[1..];
  }

  lemma {:induction false} ReplaceBetween(a: string, from: string, to: string, b: string)
    requires from != "" && FirstAt(a + (from + b), from, |a|)
    ensures Replace(a + (from + b), from, to) == a + (to + Replace(b, from, to))
  {
    if a == "" {
      assert a + (from + b) == from + b;
      ReplaceHere(from, to, b);
    } else {
      var s := a + (from + b);
      var tail := to + Replace(b, from, to);
      assert s[1..] == a[1..] + (from + b) && s[0] == a[0];
      FirstInTail(s, from, |a|);
      ReplaceBetween(a[1..], from, to, b);
      ReplaceLater(s, from, to);
      Reattach(a, tail);
    }
  }

  lemma Reattach(a: string, tail: string)
    requires a != ""
    ensures [a[0]] + (a[1..] + tail) == a + tail
  {
    assert [a[0]] + a[1..] == a;
  }

  lemma Split(s: string, t: string, k: nat)
    requires MatchAt(s, t, k)
    ensures s == s[..k] + (t + s[k + |t|..])
  {
    assert s[k..] == s[k..k + |t|] + s[k + |t|..];
  }

  /** Replacing starts at the first match. */
  lemma ReplaceFirst(s: string, from: string, to: string, k: nat)
    requires from != "" && FirstAt(s, from, k)
    ensures Replace(s, from, to) == s[..k] + to + Replace(s[k + |from|..], from, to)
  {
    Split(s, from, k);
    ReplaceBetween(s[..k], from, to, s[k + |from|..]);
    var rest := Replace(s[k + |from|..], from, to);
    assert s[..k] + (to + rest) == s[..k] + to + rest;
  }

  /** A folder overlaps itself in its outer slash only. */
  lemma FolderBorder(id: string, d: nat) returns (i: nat)
    requires |id| >= 3 && '/' !in id && 0 < d < |Folder(id)| - 1
    ensures d + i < |Folder(id)| && Folder(id)[d + i] != Folder(id)[i]
  {
    var g := Folder(id);
    assert |g| == |id| + 5 && g[0] == '/' && g[3] == '/' && g[6] == id[2];
    if d == 3 {
      i := 3;
    } else {
      i := 0;
      assert g[d] == if d < 3 then id[d - 1] else id[d - 4];
    }
  }

  /** Before the first moved folder there is no match of the new one, unless the text already had one. */
  lemma NoEarlyMatch(s: string, from: string, id: string, rest: string, k: nat, j: nat)
    requires |id| >= 3 && '/' !in id
    requires from != "" && from[0] == '/' && MatchAt(s, from, k) && j < k
    requires !Contains(s, Folder(id))
    ensures !MatchAt(s[..k] + Folder(id) + rest, Folder(id), j)
  {
    var g := Folder(id);
    var o := s[..k] + g + rest;
    assert !MatchAt(s, g, j);
    assert s[k] == s[k..k + |from|][0] == '/' == g[0] == g[|g| - 1];
    if k - j >= |g| - 1 {
      assert o[..k + 1] == s[..k + 1] by {
        assert o[..k] == s[..k] && o[k] == g[0];
      }
      assert o[j..j + |g|] == o[..k + 1][j..j + |g|];
      assert s[j..j + |g|] == s[..k + 1][j..j + |g|];
    } else {
      var i := FolderBorder(id, k - j);
      assert o[k + i] == g[i];
      assert o[j..j + |g|][k - j + i] == o[k + i];
    }
  }

  /** Moving a folder to a new id and then naming it is naming the old one, for a text without the new folder. */
  lemma {:induction false} MoveThenName(s: string, from: string, id: string, name: string)
    requires |id| >= 3 && '/' !in id && from != "" && from[0] == '/'
    requires !Contains(s, Folder(id))
    ensures Replace(Replace(s, from, Folder(id)), Folder(id), name) == Replace(s, from, name)
    decreases |s|
  {
    var g := Folder(id);
    if Contains(s, from) {
      var k := Find(s, from, 0).value;
      var tail := s[k + |from|..];
      TailFree(s, g, k + |from|);
      MoveThenName(tail, from, id, name);
      ReplaceFirst(s, from, g, k);
      ReplaceFirst(s, from, name, k);
      var rest := Replace(tail, from, g);
      var o := s[..k] + g + rest;
      assert MatchAt(o, g, k);
      forall j: nat | j < k ensures !MatchAt(o, g, j) {
        NoEarlyMatch(s, from, id, rest, k, j);
      }
      ReplaceFirst(o, g, name, k);
      assert o[k + |g|..] == rest && o[..k] == s[..k];
    } else {
      ReplaceNothing(s, from, g);
      ReplaceNothing(s, from, name);
      ReplaceNothing(s, g, name);
    }
  }
}

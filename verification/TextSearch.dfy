/** Where a text occurs in another: what `str.find` and `in` look for. */
module TextSearch {
  import opened Options

  predicate MatchAt(s: string, t: string, i: nat) {
    i + |t| <= |s| && s[i..i + |t|] == t
  }

  ghost predicate Contains(s: string, t: string) {
    exists i: nat :: MatchAt(s, t, i)
  }

  ghost predicate FirstAt(s: string, t: string, k: nat) {
    MatchAt(s, t, k) && forall j: nat :: j < k ==> !MatchAt(s, t, j)
  }

  lemma MatchInTail(s: string, t: string, k: nat, i: nat)
    requires k <= |s|
    ensures MatchAt(s[k..], t, i) <==> MatchAt(s, t, k + i)
  {
    assert i + |t| <= |s[k..]| ==> s[k..][i..i + |t|] == s[k + i..k + i + |t|];
  }

  lemma TailFree(s: string, t: string, k: nat)
    requires !Contains(s, t) && k <= |s|
    ensures !Contains(s[k..], t)
  {
    forall i: nat ensures !MatchAt(s[k..], t, i) {
      MatchInTail(s, t, k, i);
    }
  }

  /** `s.find(t)`: the first match. */
  function Find(s: string, t: string, from: nat): (r: Option<nat>)
    requires from <= |s| && forall j: nat :: j < from ==> !MatchAt(s, t, j)
    ensures r.Some? ==> FirstAt(s, t, r.value)
    ensures r.None? ==> !Contains(s, t)
    decreases |s| - from
  {
    if MatchAt(s, t, from) then Some(from)
    else if from == |s| then None
    else Find(s, t, from + 1)
  }

  lemma FirstUnique(s: string, t: string, k: nat, k': nat)
    requires FirstAt(s, t, k) && FirstAt(s, t, k')
    ensures k == k'
  {
  }
}

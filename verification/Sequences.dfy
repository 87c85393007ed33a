/** Sequence facts the models share. */
module Sequences {

  function Map<T, U>(f: T -> U, s: seq<T>): (r: seq<U>)
    ensures |r| == |s| && forall i :: 0 <= i < |s| ==> r[i] == f(s[i])
  {
    seq(|s|, i requires 0 <= i < |s| => f(s[i]))
  }

  lemma MapConcat<T, U>(f: T -> U, a: seq<T>, b: seq<T>)
    ensures Map(f, a + b) == Map(f, a) + Map(f, b)
  {
  }

  /** `s` without its element at `i`. */
  function Without<T>(s: seq<T>, i: nat): seq<T>
    requires i < |s|
  {
    s[..i] + s[i + 1..]
  }

  lemma WithoutMultiset<T>(s: seq<T>, i: nat)
    requires i < |s|
    ensures multiset(Without(s, i)) == multiset(s) - multiset{s[i]}
  {
    assert s == s[..i] + [s[i]] + s[i + 1..];
  }

  lemma MapWithout<T, U>(f: T -> U, s: seq<T>, i: nat)
    requires i < |s|
    ensures multiset(Map(f, s)) == multiset(Map(f, Without(s, i))) + multiset{f(s[i])}
  {
    assert s == s[..i] + ([s[i]] + s[i + 1..]);
    MapConcat(f, s[..i], [s[i]] + s[i + 1..]);
    MapConcat(f, [s[i]], s[i + 1..]);
    MapConcat(f, s[..i], s[i + 1..]);
    assert Map(f, [s[i]]) == [f(s[i])];
  }

  /** Mapping permuted sequences gives permuted results. */
  lemma {:induction false} MapPermutes<T, U>(f: T -> U, p: seq<T>, q: seq<T>)
    requires multiset(p) == multiset(q)
    ensures multiset(Map(f, p)) == multiset(Map(f, q))
    decreases |p|
  {
    if p == [] {
      assert |multiset(q)| == 0 && q == [];
    } else {
      assert p[0] in multiset(q);
      var i :| 0 <= i < |q| && q[i] == p[0];
      WithoutMultiset(p, 0);
      WithoutMultiset(q, i);
      MapPermutes(f, Without(p, 0), Without(q, i));
      MapWithout(f, p, 0);
      MapWithout(f, q, i);
    }
  }

  /** The elements that satisfy `p`, in order. */
  function Filter<T>(p: T -> bool, s: seq<T>): seq<T> {
    if s == [] then [] else Filter(p, s[..|s| - 1]) + (if p(s[|s| - 1]) then [s[|s| - 1]] else [])
  }

  lemma {:induction false} FilterMember<T>(p: T -> bool, s: seq<T>, x: T)
    ensures x in Filter(p, s) <==> x in s && p(x)
  {
    if s != [] {
      FilterMember(p, s[..|s| - 1], x);
      assert s == s[..|s| - 1] + [s[|s| - 1]];
    }
  }

  /** Two kept elements stand in the order they had. */
  lemma {:induction false} FilterPair<T>(p: T -> bool, s: seq<T>, i: nat, j: nat) returns (a: nat, b: nat)
    requires i < j < |Filter(p, s)|
    ensures a < b < |s| && s[a] == Filter(p, s)[i] && s[b] == Filter(p, s)[j]
  {
    var front := s[..|s| - 1];
    if j < |Filter(p, front)| {
      a, b := FilterPair(p, front, i, j);
    } else {
      FilterMember(p, front, Filter(p, front)[i]);
      a :| 0 <= a < |front| && front[a] == Filter(p, front)[i];
      b := |s| - 1;
    }
  }

  // ----- totals over a sequence, whatever its order ------------------------------------------------

  /** The multiset sum of `f` over `s`: what a counter holds after going through it. */
  function Tally<T, K(==)>(f: T -> multiset<K>, s: seq<T>): multiset<K> {
    if s == [] then multiset{} else Tally(f, s[..|s| - 1]) + f(s[|s| - 1])
  }

  lemma {:induction false} TallyConcat<T, K>(f: T -> multiset<K>, a: seq<T>, b: seq<T>)
    ensures Tally(f, a + b) == Tally(f, a) + Tally(f, b)
  {
    if b == [] {
      assert a + b == a;
    } else {
      TallyConcat(f, a, b[..|b| - 1]);
      assert (a + b)[..|a + b| - 1] == a + b[..|b| - 1];
    }
  }

  lemma TallyOne<T, K>(f: T -> multiset<K>, x: T)
    ensures Tally(f, [x]) == f(x)
  {
    assert [x][..0] == [];
    assert Tally(f, [x]) == Tally(f, []) + f(x);
  }

  lemma {:induction false} TallyInsert<T, K>(f: T -> multiset<K>, s: seq<T>, a: seq<T>, x: T, b: seq<T>)
    requires s == a + [x] + b
    ensures Tally(f, s) == Tally(f, a + b) + f(x)
  {
    TallyConcat(f, a + [x], b);
    TallyConcat(f, a, [x]);
    TallyOne(f, x);
    TallyConcat(f, a, b);
  }

  lemma {:induction false} TallyWithout<T, K>(f: T -> multiset<K>, s: seq<T>, i: nat)
    requires i < |s|
    ensures Tally(f, s) == Tally(f, Without(s, i)) + f(s[i])
  {
    TallyInsert(f, s, s[..i], s[i], s[i + 1..]);
  }

  lemma {:induction false} TallyPermutes<T, K>(f: T -> multiset<K>, p: seq<T>, q: seq<T>)
    requires multiset(p) == multiset(q)
    ensures Tally(f, p) == Tally(f, q)
    decreases |p|
  {
    if p == [] {
      assert |multiset(q)| == 0 && q == [];
    } else {
      assert p[0] in multiset(q);
      var i :| 0 <= i < |q| && q[i] == p[0];
      WithoutMultiset(p, 0);
      WithoutMultiset(q, i);
      TallyPermutes(f, Without(p, 0), Without(q, i));
      TallyWithout(f, p, 0);
      TallyWithout(f, q, i);
    }
  }

  /** One element more or less moves the tally by exactly its share. */
  lemma TallyAdded<T, K>(f: T -> multiset<K>, p: seq<T>, q: seq<T>, x: T)
    requires multiset(q) == multiset(p) + multiset{x}
    ensures Tally(f, q) == Tally(f, p) + f(x)
  {
    assert multiset(p + [x]) == multiset(q);
    TallyPermutes(f, p + [x], q);
    TallyConcat(f, p, [x]);
    TallyOne(f, x);
  }

  lemma SplitLast<T>(s: seq<T>)
    requires s != []
    ensures multiset(s) == multiset(s[..|s| - 1]) + multiset{s[|s| - 1]}
  {
    assert s == s[..|s| - 1] + [s[|s| - 1]];
  }

  /** A sequence without repetition counts everything at most once. */
  lemma {:induction false} DistinctOnce<T>(s: seq<T>, x: T)
    requires forall i, j :: 0 <= i < j < |s| ==> s[i] != s[j]
    ensures multiset(s)[x] <= 1
  {
    if s != [] {
      var front, last := s[..|s| - 1], s[|s| - 1];
      DistinctOnce(front, x);
      assert s == front + [last];
      assert multiset(front)[last] == 0 by {
        assert last !in front;
      }
    }
  }
}

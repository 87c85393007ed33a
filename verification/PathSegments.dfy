/** Absolute paths as segments, and removing their dot segments (section 5.2.4 of RFC 3986). */
module PathSegments {
  import opened BaseUrl

  /** The text between slashes. */
  function Pieces(s: string): (r: seq<string>)
    ensures r != []
  {
    if s == "" then [""]
    else
      Fronted(s[0], Pieces(s[1..]))
  }

  /** The segments of an absolute path. */
  function Segments(path: string): (r: seq<string>)
    ensures r != []
  {
    Pieces(if path == "" then "" else path[1..])
  }

  function Path(segs: seq<string>): string {
    if segs == [] then "" else "/" + segs[0] + Path(segs[1..])
  }

  predicate SlashFree(segs: seq<string>) { forall i :: 0 <= i < |segs| ==> '/' !in segs[i] }

  lemma {:induction false} PiecesSlashFree(s: string)
    ensures SlashFree(Pieces(s))
  {
    if s != "" { PiecesSlashFree(s[1..]); }
  }

  /** `c` put in front of the pieces of the rest. */
  function Fronted(c: char, t: seq<string>): seq<string>
    requires t != []
  {
    if c == '/' then [""] + t else [[c] + t[0]] + t[1..]
  }

  lemma FrontedConcat(c: char, t: seq<string>, u: seq<string>)
    requires t != []
    ensures Fronted(c, t + u) == Fronted(c, t) + u
  {
    assert (t + u)[0] == t[0] && (t + u)[1..] == t[1..] + u;
  }

  lemma FrontedPath(c: char, t: seq<string>, s: string)
    requires t != [] && Path(t) == "/" + s
    ensures Path(Fronted(c, t)) == "/" + ([c] + s)
  {
    PathHead(t);
    assert s == Path(t)[1..];
    var f := Fronted(c, t);
    PathHead(f);
    if c == '/' {
      assert f[1..] == t;
    } else {
      assert f[1..] == t[1..];
      assert ([c] + t[0]) + Path(t[1..]) == [c] + (t[0] + Path(t[1..]));
    }
    assert Path(f)[1..] == [c] + s;
    assert Path(f) == "/" + Path(f)[1..];
  }

  lemma {:induction false} PiecesConcat(a: string, b: string)
    ensures Pieces(a + "/" + b) == Pieces(a) + Pieces(b)
  {
    var s := a + "/" + b;
    if a == "" {
      assert s[1..] == b;
    } else {
      PiecesConcat(a[1..], b);
      assert s[1..] == a[1..] + "/" + b;
      FrontedConcat(a[0], Pieces(a[1..]), Pieces(b));
    }
  }

  lemma {:induction false} PathConcat(p: seq<string>, q: seq<string>)
    ensures Path(p + q) == Path(p) + Path(q)
  {
    if p == [] {
      assert p + q == q;
    } else {
      PathConcat(p[1..], q);
      assert (p + q)[1..] == p[1..] + q;
      assert "/" + p[0] + (Path(p[1..]) + Path(q)) == ("/" + p[0] + Path(p[1..])) + Path(q);
    }
  }

  lemma {:induction false} PathPieces(s: string)
    ensures Path(Pieces(s)) == "/" + s
  {
    if s == "" {
      assert Path([""][1..]) == "";
    } else {
      PathPieces(s[1..]);
      FrontedPath(s[0], Pieces(s[1..]), s[1..]);
      assert [s[0]] + s[1..] == s;
    }
  }

  /** An absolute path is the path of its segments. */
  lemma PathSegmentsOf(path: string)
    requires "/" <= path
    ensures Path(Segments(path)) == path
  {
    PathPieces(path[1..]);
  }

  lemma {:induction false} OnePiece(s: string)
    requires '/' !in s
    ensures Pieces(s) == [s]
  {
    if s != "" {
      OnePiece(s[1..]);
      assert [s[0]] + s[1..] == s;
    }
  }

  lemma PathHead(segs: seq<string>)
    requires segs != []
    ensures "/" <= Path(segs) && Path(segs)[1..] == segs[0] + Path(segs[1..])
  {
    var rest := Path(segs[1..]);
    assert "/" + segs[0] + rest == "/" + (segs[0] + rest);
  }

  lemma PieceBefore(head: string, tail: string)
    requires '/' !in head
    ensures Pieces(head + ("/" + tail)) == [head] + Pieces(tail)
  {
    assert head + ("/" + tail) == head + "/" + tail;
    PiecesConcat(head, tail);
    OnePiece(head);
  }

  /** The segments of a path of segments are those. */
  lemma {:induction false} SegmentsOfPath(segs: seq<string>)
    requires segs != [] && SlashFree(segs)
    ensures "/" <= Path(segs) && Segments(Path(segs)) == segs
  {
    PathHead(segs);
    if |segs| == 1 {
      assert segs[0] + "" == segs[0];
      OnePiece(segs[0]);
    } else {
      SegmentsOfPath(segs[1..]);
      assert Path(segs[1..]) == "/" + Path(segs[1..])[1..];
      PieceBefore(segs[0], Path(segs[1..])[1..]);
    }
  }

  lemma SegmentsConcat(a: string, b: string)
    requires "/" <= a && "/" <= b
    ensures Segments(a + b) == Segments(a) + Segments(b)
  {
    assert (a + b)[1..] == a[1..] + "/" + b[1..];
    PiecesConcat(a[1..], b[1..]);
  }

  predicate SameSegments(p: seq<string>, q: seq<string>) {
    |p| == |q| && forall i :: 0 <= i < |p| ==> SameText(p[i], q[i])
  }

  lemma FrontedSame(c: char, d: char, t: seq<string>, u: seq<string>)
    requires LowerChar(c) == LowerChar(d) && t != [] && SameSegments(t, u)
    ensures SameSegments(Fronted(c, t), Fronted(d, u))
  {
    assert c == '/' <==> d == '/';
    assert SameText([c] + t[0], [d] + u[0]) by {
      assert SameText(t[0], u[0]);
    }
  }

  lemma {:induction false} SamePieces(a: string, b: string)
    requires SameText(a, b)
    ensures SameSegments(Pieces(a), Pieces(b))
  {
    if a != "" {
      assert LowerChar(a[0]) == LowerChar(b[0]);
      assert SameText(a[1..], b[1..]);
      SamePieces(a[1..], b[1..]);
      FrontedSame(a[0], b[0], Pieces(a[1..]), Pieces(b[1..]));
    } else {
      assert a == b;
    }
  }

  // ----- dot segments -------------------------------------------------------------------------------

  /** An ordinary segment, ".", or "..". */
  datatype Dot = Plain | Here | Up

  predicate NoDots(dots: string -> Dot, segs: seq<string>) {
    forall i :: 0 <= i < |segs| ==> dots(segs[i]) == Plain
  }

  function Popped(out: seq<string>): seq<string> {
    if out == [] then [] else out[..|out| - 1]
  }

  /** What one segment does to those kept so far. */
  function Pushed(dots: string -> Dot, out: seq<string>, seg: string): seq<string> {
    match dots(seg)
    case Plain => out + [seg]
    case Here => out
    case Up => Popped(out)
  }

  function Stack(dots: string -> Dot, segs: seq<string>, out: seq<string>): seq<string> {
    if segs == [] then out else Stack(dots, segs[1..], Pushed(dots, out, segs[0]))
  }

  /** A path that ends in a dot segment ends in a slash. */
  function Undot(dots: string -> Dot, segs: seq<string>): seq<string>
    requires segs != []
  {
    Stack(dots, segs, []) + if dots(segs[|segs| - 1]) == Plain then [] else [""]
  }

  function Undotted(dots: string -> Dot, path: string): string {
    Path(Undot(dots, Segments(path)))
  }

  lemma {:induction false} StackConcat(dots: string -> Dot, a: seq<string>, b: seq<string>, out: seq<string>)
    ensures Stack(dots, a + b, out) == Stack(dots, b, Stack(dots, a, out))
  {
    if a == [] {
      assert a + b == b;
    } else {
      StackConcat(dots, a[1..], b, Pushed(dots, out, a[0]));
      assert (a + b)[1..] == a[1..] + b;
    }
  }

  lemma {:induction false} StackPlain(dots: string -> Dot, segs: seq<string>, out: seq<string>)
    requires NoDots(dots, segs)
    ensures Stack(dots, segs, out) == out + segs
  {
    if segs != [] {
      StackPlain(dots, segs[1..], out + [segs[0]]);
      assert out + [segs[0]] + segs[1..] == out + segs;
    }
  }

  /** Whatever held of the segments holds of those kept, none of which is a dot. */
  lemma {:induction false} StackKeeps(dots: string -> Dot, segs: seq<string>, out: seq<string>, ok: string -> bool)
    requires NoDots(dots, out) && (forall i :: 0 <= i < |out| ==> ok(out[i])) && (forall i :: 0 <= i < |segs| ==> ok(segs[i]))
    ensures NoDots(dots, Stack(dots, segs, out)) && forall i :: 0 <= i < |Stack(dots, segs, out)| ==> ok(Stack(dots, segs, out)[i])
  {
    if segs != [] { StackKeeps(dots, segs[1..], Pushed(dots, out, segs[0]), ok); }
  }

  lemma StackOne(dots: string -> Dot, last: string, out: seq<string>)
    ensures Stack(dots, [last], out) == Pushed(dots, out, last)
  {
    assert [last][1..] == [];
  }

  lemma StackLast(dots: string -> Dot, segs: seq<string>)
    requires segs != []
    ensures Stack(dots, segs, []) == Pushed(dots, Stack(dots, segs[..|segs| - 1], []), segs[|segs| - 1])
  {
    var front, last := segs[..|segs| - 1], segs[|segs| - 1];
    calc {
      Stack(dots, segs, []);
      { assert segs == front + [last]; }
      Stack(dots, front + [last], []);
      { StackConcat(dots, front, [last], []); }
      Stack(dots, [last], Stack(dots, front, []));
      { StackOne(dots, last, Stack(dots, front, [])); }
      Pushed(dots, Stack(dots, front, []), last);
    }
  }

  lemma UndotKeeps(dots: string -> Dot, segs: seq<string>, ok: string -> bool)
    requires segs != [] && (forall i :: 0 <= i < |segs| ==> ok(segs[i])) && ok("") && dots("") == Plain
    ensures Undot(dots, segs) != [] && NoDots(dots, Undot(dots, segs)) && forall i :: 0 <= i < |Undot(dots, segs)| ==> ok(Undot(dots, segs)[i])
  {
    StackKeeps(dots, segs, [], ok);
    StackLast(dots, segs);
  }

  /** An ordinary segment at the end is kept behind what the others leave. */
  lemma UndotBehind(dots: string -> Dot, a: seq<string>, b: seq<string>)
    requires b != [] && NoDots(dots, b)
    ensures Undot(dots, a + b) == Stack(dots, a, []) + b
  {
    StackConcat(dots, a, b, []);
    StackPlain(dots, b, Stack(dots, a, []));
    assert (a + b)[|a + b| - 1] == b[|b| - 1];
  }

  /** Some ".." finds nothing left of its own path to take. */
  predicate Climbs(dots: string -> Dot, segs: seq<string>, depth: nat) {
    segs != [] &&
    match dots(segs[0])
    case Plain => Climbs(dots, segs[1..], depth + 1)
    case Here => Climbs(dots, segs[1..], depth)
    case Up => depth == 0 || Climbs(dots, segs[1..], depth - 1)
  }

  lemma {:induction false} StackShorter(dots: string -> Dot, segs: seq<string>, out: seq<string>, own: seq<string>)
    ensures |Stack(dots, segs, out + own)| <= |out| + |Stack(dots, segs, own)|
    decreases |segs|
  {
    if segs != [] {
      var s := segs[0];
      if own == [] && dots(s) == Up {
        assert out + own == out && Pushed(dots, own, s) == [] && Popped(out) + [] == Popped(out);
        StackShorter(dots, segs[1..], Popped(out), []);
      } else {
        assert Pushed(dots, out + own, s) == out + Pushed(dots, own, s);
        StackShorter(dots, segs[1..], out, Pushed(dots, own, s));
      }
    }
  }

  /** What lies below stays untouched exactly when the segments do not climb out. */
  lemma {:induction false} StackAbove(dots: string -> Dot, segs: seq<string>, out: seq<string>, own: seq<string>)
    requires out != []
    ensures !Climbs(dots, segs, |own|) ==> Stack(dots, segs, out + own) == out + Stack(dots, segs, own)
    ensures Climbs(dots, segs, |own|) ==> |Stack(dots, segs, out + own)| < |out| + |Stack(dots, segs, own)|
    decreases |segs|
  {
    if segs != [] {
      var s := segs[0];
      if own == [] && dots(s) == Up {
        assert out + own == out && Pushed(dots, own, s) == [] && Popped(out) + [] == Popped(out);
        StackShorter(dots, segs[1..], Popped(out), []);
      } else {
        assert Pushed(dots, out + own, s) == out + Pushed(dots, own, s);
        StackAbove(dots, segs[1..], out, Pushed(dots, own, s));
      }
    }
  }

  lemma {:induction false} NoClimb(dots: string -> Dot, segs: seq<string>, depth: nat)
    requires NoDots(dots, segs)
    ensures !Climbs(dots, segs, depth)
  {
    if segs != [] { NoClimb(dots, segs[1..], depth + 1); }
  }

  /** A path without dot segments stays as it is. */
  lemma UndottedPlain(dots: string -> Dot, path: string)
    requires "/" <= path && NoDots(dots, Segments(path))
    ensures Undotted(dots, path) == path && !Climbs(dots, Segments(path), 0)
  {
    var segs := Segments(path);
    StackPlain(dots, segs, []);
    assert [] + segs == segs && segs + [] == segs;
    PathSegmentsOf(path);
    NoClimb(dots, segs, 0);
  }
}

/**
 Following the Locations of the base-URL middleware: what a client makes of a reference (sections
 4.2 and 5.2 of RFC 3986) and where its next request then ends up.
 */
module Redirects {
  import opened Options
  import opened BaseUrl
  import opened PathSegments

  // ----- the client ----------------------------------------------------------------------------------

  /** What it sends for a character of a path, and which segments it takes for dots. */
  datatype Client = Client(send: char -> string, dots: string -> Dot)

  /** A character sent as it is. */
  predicate Good(k: Client, c: char) { k.send(c) == [c] }

  predicate AllGood(k: Client, s: string) { forall i :: 0 <= i < |s| ==> Good(k, s[i]) }

  /**
   What every client has in common: it sends slashes and letters as they are, delimiters never,
   everything else as characters it would send; case does not matter, and a dot segment begins
   with a dot or an escape.
   */
  ghost predicate Lawful(k: Client) {
    && (forall c: char :: AllGood(k, k.send(c)))
    && (forall c: char :: Good(k, c) <==> Good(k, LowerChar(c)))
    && (forall c: char :: c == '/' || 'a' <= c <= 'z' ==> Good(k, c))
    && (forall c: char :: Delimiter(c) ==> !Good(k, c))
    && (forall s, t :: SameText(s, t) ==> k.dots(s) == k.dots(t))
    && (forall s :: k.dots(s) != Plain ==> s != "" && (s[0] == '.' || s[0] == '%'))
  }

  predicate Delimiter(c: char) { c == '?' || c == '#' }

  /** The path of a reference: up to its query or fragment. */
  function PathOf(s: string): (r: string)
    ensures |r| <= |s| && (|r| == |s| ==> r == s)
  {
    if s == "" || Delimiter(s[0]) then "" else [s[0]] + PathOf(s[1..])
  }

  /** The query behind the path, without the fragment. */
  function QueryOf(s: string): Option<string> {
    var n := |PathOf(s)|;
    if n < |s| && s[n] == '?' then Some(UpToFragment(s[n + 1..])) else None
  }

  function UpToFragment(s: string): string {
    if s == "" || s[0] == '#' then "" else [s[0]] + UpToFragment(s[1..])
  }

  function Sent(k: Client, s: string): string {
    if s == "" then "" else k.send(s[0]) + Sent(k, s[1..])
  }

  /** Another host, or the next request here. */
  datatype Hop = Elsewhere | Next(path: string, query: Option<string>)

  /** The path asked for, were the reference followed on this host. */
  function Asked(k: Client, location: string): string {
    Undotted(k.dots, Sent(k, PathOf(location)))
  }

  function Follow(k: Client, location: string): Hop {
    if "//" <= Sent(k, PathOf(location)) then Elsewhere else Next(Asked(k, location), QueryOf(location))
  }

  // ----- what is sent -----------------------------------------------------------------------------------

  lemma PathOfStep(x: char, t: string)
    requires !Delimiter(x)
    ensures PathOf([x] + t) == [x] + PathOf(t) && (PathOf([x] + t) == [x] + t <==> PathOf(t) == t)
  {
    assert ([x] + t)[1..] == t;
    assert |PathOf([x] + t)| == 1 + |PathOf(t)|;
  }

  lemma {:induction false} PathOfConcat(a: string, b: string)
    ensures PathOf(a + b) == if PathOf(a) == a then a + PathOf(b) else PathOf(a)
  {
    if a == "" {
      assert a + b == b && "" + PathOf(b) == PathOf(b);
    } else if !Delimiter(a[0]) {
      var x, t := a[0], a[1..];
      assert a == [x] + t && a + b == [x] + (t + b);
      PathOfConcat(t, b);
      PathOfStep(x, t);
      PathOfStep(x, t + b);
      assert [x] + (t + PathOf(b)) == ([x] + t) + PathOf(b);
    }
  }

  lemma {:induction false} PlainPath(s: string)
    requires forall i :: 0 <= i < |s| ==> !Delimiter(s[i])
    ensures PathOf(s) == s
  {
    if s != "" { PlainPath(s[1..]); }
  }

  lemma {:induction false} SentConcat(k: Client, a: string, b: string)
    ensures Sent(k, a + b) == Sent(k, a) + Sent(k, b)
  {
    if a == "" {
      assert a + b == b;
    } else {
      SentConcat(k, a[1..], b);
      assert (a + b)[1..] == a[1..] + b;
    }
  }

  lemma {:induction false} SentGood(k: Client, s: string)
    requires Lawful(k)
    ensures AllGood(k, Sent(k, s))
  {
    if s != "" {
      assert AllGood(k, k.send(s[0]));
      SentGood(k, s[1..]);
    }
  }

  lemma {:induction false} GoodSent(k: Client, s: string)
    requires AllGood(k, s)
    ensures Sent(k, s) == s
  {
    if s != "" {
      assert Good(k, s[0]);
      GoodSent(k, s[1..]);
      assert [s[0]] + s[1..] == s;
    }
  }

  lemma SentAbsolute(k: Client, s: string)
    requires Lawful(k) && "/" <= s
    ensures "/" <= Sent(k, s)
  {
    assert s[0] == '/' && Good(k, '/');
  }

  lemma {:induction false} GoodPieces(k: Client, s: string)
    requires AllGood(k, s)
    ensures forall i :: 0 <= i < |Pieces(s)| ==> AllGood(k, Pieces(s)[i])
  {
    if s != "" {
      GoodPieces(k, s[1..]);
      assert Good(k, s[0]);
      assert AllGood(k, Pieces(s[1..])[0]);
    }
  }

  lemma {:induction false} GoodPath(k: Client, segs: seq<string>)
    requires Lawful(k) && forall i :: 0 <= i < |segs| ==> AllGood(k, segs[i])
    ensures AllGood(k, Path(segs))
  {
    if segs != [] {
      GoodPath(k, segs[1..]);
      assert Good(k, '/') && AllGood(k, segs[0]);
    }
  }

  /** A request holds sent characters and no dot segments. */
  lemma RequestShape(k: Client, path: string)
    requires Lawful(k) && "/" <= path && AllGood(k, path)
    ensures var q := Undotted(k.dots, path);
            "/" <= q && AllGood(k, q) && Segments(q) == Undot(k.dots, Segments(path)) && NoDots(k.dots, Segments(q))
  {
    var ok := (s: string) => AllGood(k, s) && '/' !in s;
    GoodPieces(k, path[1..]);
    PiecesSlashFree(path[1..]);
    UndotKeeps(k.dots, Segments(path), ok);
    var segs := Undot(k.dots, Segments(path));
    assert forall i :: 0 <= i < |segs| ==> ok(segs[i]);
    GoodPath(k, segs);
    SegmentsOfPath(segs);
  }

  lemma AskedShape(k: Client, location: string)
    requires Lawful(k) && "/" <= location
    ensures var sent := Sent(k, PathOf(location));
            && "/" <= sent && AllGood(k, sent) && "/" <= Asked(k, location) && AllGood(k, Asked(k, location))
            && Segments(Asked(k, location)) == Undot(k.dots, Segments(sent)) && NoDots(k.dots, Segments(Asked(k, location)))
  {
    assert "/" <= PathOf(location);
    SentAbsolute(k, PathOf(location));
    SentGood(k, PathOf(location));
    RequestShape(k, Sent(k, PathOf(location)));
  }

  // ----- the mount, seen from a request -----------------------------------------------------------------

  /** Whatever a sent request starts with, is sent as it is. */
  lemma PrefixGood(k: Client, base: string, q: string)
    requires Lawful(k) && AllGood(k, q) && HasPrefix(base, q)
    ensures AllGood(k, base) && PathOf(base) == base
  {
    forall i | 0 <= i < |base| ensures Good(k, base[i]) && !Delimiter(base[i]) {
      assert Good(k, q[i]);
      assert LowerChar(q[..|base|][i]) == LowerChar(base[i]);
      assert Good(k, LowerChar(q[i])) && Good(k, LowerChar(base[i]));
    }
    PlainPath(base);
  }

  /** A base that is a request's whole leading segments has no more dots than the request. */
  lemma PrefixUndotted(k: Client, base: string, q: string)
    requires Lawful(k) && "/" <= base && "/" <= q && HasPrefix(base, q) && |q| > |base| && q[|base|] == '/'
    requires NoDots(k.dots, Segments(q))
    ensures NoDots(k.dots, Segments(base)) && |Segments(q)| == |Segments(base)| + |Segments(q[|base|..])|
  {
    var front, rest := q[..|base|], q[|base|..];
    assert q == front + rest && front[0] == '/' && rest[0] == '/';
    SegmentsConcat(front, rest);
    assert SameText(front[1..], base[1..]);
    SamePieces(front[1..], base[1..]);
    forall i | 0 <= i < |Segments(base)| ensures k.dots(Segments(base)[i]) == Plain {
      assert SameText(Segments(front)[i], Segments(base)[i]);
      assert Segments(q)[i] == Segments(front)[i];
    }
  }

  /** Sent as it is and free of dot segments. */
  predicate Clean(k: Client, base: string) {
    AllGood(k, base) && NoDots(k.dots, Segments(base))
  }

  /** The base reads as a network path: everything under it is on another host. */
  predicate Leaves(k: Client, base: string) {
    "//" <= Sent(k, PathOf(base + "/"))
  }

  /** A reference behind a clean base is asked for there, while its own dots stay inside. */
  lemma CleanAsked(k: Client, base: string, location: string)
    requires Lawful(k) && "/" <= base && Clean(k, base) && "/" <= location
    ensures PathOf(base + location) == base + PathOf(location) && QueryOf(base + location) == QueryOf(location)
    ensures Sent(k, PathOf(base + location)) == base + Sent(k, PathOf(location))
    ensures var segs := Segments(Sent(k, PathOf(location)));
            && (!Climbs(k.dots, segs, 0) ==> Asked(k, base + location) == base + Asked(k, location))
            && (Climbs(k.dots, segs, 0) ==>
                  |Segments(Asked(k, base + location))| < |Segments(base)| + |Segments(Asked(k, location))|)
  {
    CleanPath(k, base, location);
    AskedShape(k, location);
    SentGood(k, PathOf(base + location));
    CleanRequest(k, base, Sent(k, PathOf(location)));
  }

  lemma CleanRequest(k: Client, base: string, sent: string)
    requires Lawful(k) && "/" <= base && Clean(k, base) && "/" <= sent && AllGood(k, sent) && AllGood(k, base + sent)
    ensures !Climbs(k.dots, Segments(sent), 0) ==> Undotted(k.dots, base + sent) == base + Undotted(k.dots, sent)
    ensures Climbs(k.dots, Segments(sent), 0) ==>
              |Segments(Undotted(k.dots, base + sent))| < |Segments(base)| + |Segments(Undotted(k.dots, sent))|
  {
    RequestShape(k, sent);
    RequestShape(k, base + sent);
    SegmentsConcat(base, sent);
    PathSegmentsOf(base);
    CleanUndot(k, base, Segments(base), Segments(sent));
  }

  lemma CleanPath(k: Client, base: string, location: string)
    requires Lawful(k) && AllGood(k, base)
    ensures PathOf(base + location) == base + PathOf(location) && QueryOf(base + location) == QueryOf(location)
    ensures Sent(k, PathOf(base + location)) == base + Sent(k, PathOf(location))
  {
    GoodPlain(k, base);
    PathOfConcat(base, location);
    SentConcat(k, base, PathOf(location));
    GoodSent(k, base);
    QueryBehind(base, location);
  }

  lemma GoodPlain(k: Client, base: string)
    requires Lawful(k) && AllGood(k, base)
    ensures PathOf(base) == base
  {
    forall i | 0 <= i < |base| ensures !Delimiter(base[i]) {
      assert Good(k, base[i]);
    }
    PlainPath(base);
  }

  lemma QueryBehind(base: string, location: string)
    requires PathOf(base) == base
    ensures QueryOf(base + location) == QueryOf(location)
  {
    PathOfConcat(base, location);
    var n := |PathOf(location)|;
    assert |PathOf(base + location)| == |base| + n;
    if n < |location| {
      assert (base + location)[|base| + n] == location[n];
      assert (base + location)[|base| + n + 1..] == location[n + 1..];
    }
  }

  lemma CleanUndot(k: Client, base: string, above: seq<string>, segs: seq<string>)
    requires above != [] && segs != [] && NoDots(k.dots, above) && Path(above) == base
    ensures !Climbs(k.dots, segs, 0) ==> Path(Undot(k.dots, above + segs)) == base + Path(Undot(k.dots, segs))
    ensures Climbs(k.dots, segs, 0) ==> |Undot(k.dots, above + segs)| < |above| + |Undot(k.dots, segs)|
  {
    StackConcat(k.dots, above, segs, []);
    StackPlain(k.dots, above, []);
    assert [] + above == above && above + [] == above;
    StackAbove(k.dots, segs, above, []);
    assert (above + segs)[|above + segs| - 1] == segs[|segs| - 1];
    if !Climbs(k.dots, segs, 0) {
      var tail := if k.dots(segs[|segs| - 1]) == Plain then [] else [""];
      assert above + Stack(k.dots, segs, []) + tail == above + (Stack(k.dots, segs, []) + tail);
      PathConcat(above, Undot(k.dots, segs));
    }
  }

  // ----- following a redirect of the middleware ----------------------------------------------------------

  lemma LandingShape(path: string)
    ensures "/" <= Landing(path) && Landing(path) != "/" && |Landing(path)| >= 5
    ensures Landing(path)[1] == 'w' || Landing(path)[1] == 'h'
    ensures Path(LandingSegments(path)) == Landing(path) && SlashFree(LandingSegments(path))
    ensures forall i :: 0 <= i < |LandingSegments(path)| ==> LandingSegments(path)[i] in {"web", "", "health"}
  {
    assert Path([""]) == "/" + "" + Path([""][1..]);
    assert Path(["web", ""]) == "/" + "web" + Path(["web", ""][1..]);
    assert Path(["health"]) == "/" + "health" + Path(["health"][1..]);
  }

  function LandingSegments(path: string): (r: seq<string>)
    ensures r != []
  {
    if Health(path) then ["health"] else ["web", ""]
  }

  lemma LandingLetters(path: string, i: nat)
    requires i < |Landing(path)|
    ensures Landing(path)[i] == '/' || 'a' <= Landing(path)[i] <= 'z'
  {
  }

  lemma LandingGood(k: Client, path: string)
    requires Lawful(k)
    ensures AllGood(k, Landing(path)) && NoDots(k.dots, LandingSegments(path)) && Segments(Landing(path)) == LandingSegments(path)
  {
    var landing := Landing(path);
    forall i | 0 <= i < |landing| ensures Good(k, landing[i]) {
      LandingLetters(path, i);
    }
    LandingShape(path);
    SegmentsOfPath(LandingSegments(path));
  }

  /** Behind any text, a landing is no probe. */
  lemma LandingNotAProbe(x: string, path: string)
    ensures !Probe(x + Landing(path))
  {
    var s := x + Landing(path);
    var last := s[|s| - 1];
    assert last == '/' || last == 'h';
    assert LowerChar(LIVE[|LIVE| - 1]) == 'e' && LowerChar(READY[|READY| - 1]) == 'y';
  }

  /** Where the middleware's redirect leads, on this host. */
  function Landed(k: Client, base: string, path: string): string {
    Asked(k, base + Landing(path))
  }

  /** The landing stays behind whatever the client makes of the base. */
  lemma LandedShape(k: Client, base: string, path: string)
    requires Lawful(k) && "/" <= base
    ensures PathOf(base) != base ==> Landed(k, base, path) == Undotted(k.dots, Sent(k, PathOf(base)))
    ensures PathOf(base) == base ==>
              Landed(k, base, path) == Path(Stack(k.dots, Segments(Sent(k, base)), [])) + Landing(path)
  {
    LandingGood(k, path);
    LandingShape(path);
    GoodPlain(k, Landing(path));
    PathOfConcat(base, Landing(path));
    if PathOf(base) == base {
      SentConcat(k, base, Landing(path));
      GoodSent(k, Landing(path));
      SentAbsolute(k, base);
      SegmentsConcat(Sent(k, base), Landing(path));
      UndotBehind(k.dots, Segments(Sent(k, base)), LandingSegments(path));
      PathConcat(Stack(k.dots, Segments(Sent(k, base)), []), LandingSegments(path));
    }
  }

  /** Whether the client leaves the host is up to the base. */
  lemma LeavesByBase(k: Client, base: string, rest: string)
    requires Lawful(k) && "/" <= base && "/" <= rest
    ensures "//" <= Sent(k, PathOf(base + rest)) <==> Leaves(k, base)
  {
    PathOfConcat(base, rest);
    PathOfConcat(base, "/");
    if PathOf(base) == base {
      SentConcat(k, base, PathOf(rest));
      SentConcat(k, base, PathOf("/"));
      SentAbsolute(k, base);
      SentAbsolute(k, PathOf(rest));
      assert PathOf("/") == "/";
      SentAbsolute(k, "/");
    }
  }

  /**
   A base into which the redirects of the middleware lead: not another host's, and clean, or cut
   at a delimiter into a probe path.
   */
  predicate Enterable(k: Client, base: string) {
    && !Leaves(k, base)
    && (Clean(k, base) || (PathOf(base) != base && Probe(Undotted(k.dots, Sent(k, PathOf(base))))))
  }

  /** The redirect's next request is handed to the router. */
  predicate Reaches(k: Client, base: string, location: string) {
    Follow(k, location).Next? && Route(base, Follow(k, location).path).Forward?
  }

  lemma CleanReaches(k: Client, base: string, path: string)
    requires Lawful(k) && "/" <= base && Clean(k, base)
    ensures Route(base, Landed(k, base, path)).Forward?
  {
    GoodPlain(k, base);
    GoodSent(k, base);
    LandedShape(k, base, path);
    StackPlain(k.dots, Segments(base), []);
    assert [] + Segments(base) == Segments(base);
    PathSegmentsOf(base);
    LandingShape(path);
    LandingNotAProbe(base, path);
    MountedRoute(base, Landing(path));
  }

  /** Under the mount, a path behind the base is handed on without it. */
  lemma MountedRoute(base: string, rest: string)
    requires base != "" && "/" <= rest && rest != "/"
    ensures Route(base, base + rest) == if Probe(base + rest) then Forward(base + rest) else Forward(rest)
  {
    assert (base + rest)[..|base|] == base && (base + rest)[|base|..] == rest;
  }

  lemma ForwardIsClean(k: Client, base: string, q: string)
    requires Lawful(k) && "/" <= base && "/" <= q && AllGood(k, q) && NoDots(k.dots, Segments(q))
    requires !Probe(q) && Route(base, q).Forward?
    ensures Clean(k, base)
  {
    PrefixGood(k, base, q);
    assert q[|base|..][0] == q[|base|];
    PrefixUndotted(k, base, q);
  }

  lemma UncleanRoutes(k: Client, base: string, path: string)
    requires Lawful(k) && "/" <= base && !Clean(k, base)
    ensures Route(base, Landed(k, base, path)).Forward? <==> PathOf(base) != base && Probe(Undotted(k.dots, Sent(k, PathOf(base))))
  {
    var q := Landed(k, base, path);
    LandedShape(k, base, path);
    LandingShape(path);
    AskedShape(k, base + Landing(path));
    if PathOf(base) == base {
      LandingNotAProbe(Path(Stack(k.dots, Segments(Sent(k, base)), [])), path);
    }
    if !Probe(q) && Route(base, q).Forward? {
      ForwardIsClean(k, base, q);
    }
  }

  lemma LandedRoutes(k: Client, base: string, path: string)
    requires Lawful(k) && "/" <= base
    ensures Route(base, Landed(k, base, path)).Forward? <==>
            Clean(k, base) || (PathOf(base) != base && Probe(Undotted(k.dots, Sent(k, PathOf(base)))))
  {
    if Clean(k, base) {
      CleanReaches(k, base, path);
    } else {
      UncleanRoutes(k, base, path);
    }
  }

  lemma RedirectTo(base: string, path: string)
    requires Normal(base) && Route(base, path).Redirect?
    ensures base != "" && "/" <= base && HeaderText(base) && Route(base, path).location == base + Landing(path)
  {
  }

  lemma FollowLanding(k: Client, base: string, path: string)
    requires Lawful(k) && "/" <= base
    ensures var location := base + Landing(path);
            Follow(k, location) == if Leaves(k, base) then Elsewhere else Next(Landed(k, base, path), QueryOf(location))
  {
    LandingShape(path);
    LeavesByBase(k, base, Landing(path));
  }

  /**
   A redirect made by the middleware reaches the router on the next hop exactly when the base can
   be entered.
   */
  lemma RedirectReachesRouter(k: Client, base: string, path: string)
    requires Lawful(k) && Normal(base) && Route(base, path).Redirect?
    ensures Reaches(k, base, Route(base, path).location) <==> Enterable(k, base)
  {
    RedirectTo(base, path);
    FollowLanding(k, base, path);
    LandedRoutes(k, base, path);
  }

  // ----- otherwise it leaves, or goes round for ever ----------------------------------------------------------

  /** From another host's base every redirect leaves this one. */
  lemma NetworkBaseLeaves(k: Client, base: string, path: string)
    requires Lawful(k) && Normal(base) && Route(base, path).Redirect? && Leaves(k, base)
    ensures Follow(k, Route(base, path).location) == Elsewhere
  {
    RedirectTo(base, path);
    FollowLanding(k, base, path);
  }

  lemma {:induction false} FirstDot(dots: string -> Dot, segs: seq<string>) returns (i: nat)
    requires !NoDots(dots, segs)
    ensures i < |segs| && dots(segs[i]) != Plain && NoDots(dots, segs[..i])
  {
    if dots(segs[0]) != Plain {
      i := 0;
    } else {
      var j := FirstDot(dots, segs[1..]);
      i := j + 1;
      forall n | 0 <= n < i ensures dots(segs[..i][n]) == Plain {
        assert n > 0 ==> segs[..i][n] == segs[1..][..j][n - 1];
      }
    }
  }

  /** A dot segment inside the base never comes back at the head of a request. */
  lemma InnerDot(k: Client, base: string, q: string, i: nat)
    requires Lawful(k) && "/" <= base && "/" <= q && NoDots(k.dots, Segments(q))
    requires i < |Segments(base)| - 1 && k.dots(Segments(base)[i]) != Plain
    ensures !HasPrefix(base, q)
  {
    if HasPrefix(base, q) {
      var segs := Segments(base);
      var head, tail := segs[..i + 1], segs[i + 1..];
      assert segs == head + tail;
      PathSegmentsOf(base);
      PathConcat(head, tail);
      PiecesSlashFree(base[1..]);
      SegmentsOfPath(head);
      assert !NoDots(k.dots, head) by {
        assert head[i] == segs[i];
      }
      HeadPrefix(Path(head), Path(tail), q);
      PrefixUndotted(k, Path(head), q);
    }
  }

  lemma HeadPrefix(head: string, tail: string, q: string)
    requires "/" <= tail && HasPrefix(head + tail, q)
    ensures HasPrefix(head, q) && |q| > |head| && q[|head|] == '/'
  {
    var base := head + tail;
    forall i | 0 <= i <= |head| ensures LowerChar(q[i]) == LowerChar(base[i]) {
      assert q[..|base|][i] == q[i];
    }
    assert LowerChar(q[|head|]) == LowerChar('/');
    assert forall i :: 0 <= i < |head| ==> q[..|head|][i] == q[i] && base[i] == head[i];
  }

  /** A dot segment at the end of the base is not what a landing starts with. */
  lemma LastDot(k: Client, base: string, path: string, xs: seq<string>, d: string)
    requires Lawful(k) && k.dots(d) != Plain && NoDots(k.dots, xs) && base == Path(xs) + "/" + d
    ensures var q := Path(Pushed(k.dots, xs, d)) + Landing(path);
            HasPrefix(base, q) ==> |q| == |base|
  {
    var q := Path(Pushed(k.dots, xs, d)) + Landing(path);
    var n := |Path(xs)|;
    LandingShape(path);
    assert base[n] == '/' && base[n + 1] == d[0];
    if |q| > |base| {
      if k.dots(d) == Here || xs == [] {
        assert q[n + 1] == Landing(path)[1];
        NotPrefixAt(base, q, n + 1);
      } else {
        LastDotUp(xs, path);
        assert q[n] == Landing(path)[n - |Path(xs[..|xs| - 1])|];
        NotPrefixAt(base, q, n);
      }
    }
  }

  lemma NotPrefixAt(base: string, q: string, i: nat)
    requires i < |base| <= |q| && LowerChar(q[i]) != LowerChar(base[i])
    ensures !HasPrefix(base, q)
  {
    assert q[..|base|][i] == q[i];
  }

  lemma LandingSlash(path: string, i: nat)
    requires 0 < i < |Landing(path)| && Landing(path)[i] == '/'
    ensures i + 1 == |Landing(path)|
  {
  }

  /** One segment up, a landing has no slash where the segment ended, unless it ends there. */
  lemma LastDotUp(xs: seq<string>, path: string)
    requires xs != []
    ensures var m, n := |Path(xs[..|xs| - 1])|, |Path(xs)|;
            m < n && (n < m + |Landing(path)| && Landing(path)[n - m] == '/' ==> n + 1 == m + |Landing(path)|)
  {
    var front, last := xs[..|xs| - 1], xs[|xs| - 1];
    assert xs == front + [last];
    PathConcat(front, [last]);
    assert Path([last]) == "/" + last + Path([last][1..]);
    var i := |Path(xs)| - |Path(front)|;
    if 0 < i < |Landing(path)| && Landing(path)[i] == '/' {
      LandingSlash(path, i);
    }
  }

  /** Where a base can neither be entered nor left, the next hop is redirected again. */
  lemma NextRedirects(k: Client, base: string, path: string)
    requires Lawful(k) && Normal(base) && base != "" && HeaderText(base) && !Enterable(k, base) && !Leaves(k, base)
    ensures Route(base, Landed(k, base, path)).Redirect?
  {
    var q := Landed(k, base, path);
    UncleanRoutes(k, base, path);
    if HasPrefix(base, q) {
      DottedPrefix(k, base, path);
    }
  }

  /** The request of a dotted base starts with it only by being it. */
  lemma DottedPrefix(k: Client, base: string, path: string)
    requires Lawful(k) && "/" <= base && !Clean(k, base) && HasPrefix(base, Landed(k, base, path))
    ensures |Landed(k, base, path)| == |base|
  {
    var q, segs := Landed(k, base, path), Segments(base);
    LandingShape(path);
    AskedShape(k, base + Landing(path));
    PrefixGood(k, base, q);
    GoodSent(k, base);
    LandedShape(k, base, path);
    var i := FirstDot(k.dots, segs);
    if i < |segs| - 1 {
      InnerDot(k, base, q, i);
    } else {
      LastSegment(base, segs[..i], segs[i]);
      StackLast(k.dots, segs);
      StackPlain(k.dots, segs[..i], []);
      assert [] + segs[..i] == segs[..i];
      LastDot(k, base, path, segs[..i], segs[i]);
    }
  }

  lemma LastSegment(base: string, xs: seq<string>, d: string)
    requires "/" <= base && Segments(base) == xs + [d]
    ensures base == Path(xs) + "/" + d
  {
    PathSegmentsOf(base);
    PathConcat(xs, [d]);
    assert Path([d]) == "/" + d + Path([d][1..]);
    assert Path(xs) + ("/" + d) == Path(xs) + "/" + d;
  }

  /** Where the client is after `n` redirects. */
  function HopAfter(k: Client, base: string, path: string, n: nat): Hop {
    if n == 0 then Next(path, None)
    else
      var before := HopAfter(k, base, path, n - 1);
      if before.Next? && Route(base, before.path).Redirect? then Follow(k, Route(base, before.path).location) else before
  }

  /** However many redirects it follows, the client is redirected again. */
  lemma {:induction false} RedirectLoops(k: Client, base: string, path: string, n: nat)
    requires Lawful(k) && Normal(base) && Route(base, path).Redirect? && !Enterable(k, base) && !Leaves(k, base)
    ensures HopAfter(k, base, path, n).Next? && Route(base, HopAfter(k, base, path, n).path).Redirect?
  {
    if n > 0 {
      RedirectLoops(k, base, path, n - 1);
      var p := HopAfter(k, base, path, n - 1).path;
      RedirectTo(base, p);
      FollowLanding(k, base, p);
      NextRedirects(k, base, p);
    }
  }

  // ----- Location headers of the inner router ------------------------------------------------------------------

  /** Followed through the mount, the Location asks the router for what it asks for without one. */
  predicate StripsBack(k: Client, base: string, location: string) {
    var hop := Follow(k, Mounted(base, location));
    hop.Next? && Route(base, hop.path) == Forward(Asked(k, location)) && hop.query == QueryOf(location)
  }

  /** The segments the client sends for it climb above its own root. */
  predicate ClimbsOut(k: Client, location: string) {
    Climbs(k.dots, Segments(Sent(k, PathOf(location))), 0)
  }

  /** It is a probe, and the client asks for the same with the mount as without. */
  predicate SameProbe(k: Client, base: string, location: string) {
    Probe(Asked(k, location)) && Asked(k, base + location) == Asked(k, location) && QueryOf(base + location) == QueryOf(location)
  }

  lemma BehindRoute(base: string, t: string)
    requires base != "" && "/" <= t
    ensures Route(base, base + t) == Forward(t) <==> t != "/" && !Probe(base + t)
  {
    assert |base + t| != |t|;
    if t == "/" {
      assert (base + t)[|base|..] == "/";
    } else {
      MountedRoute(base, t);
    }
  }

  /** Out of a climb only a probe gets to where it would have gone. */
  lemma ClimbingRoute(k: Client, base: string, q: string, t: string)
    requires Lawful(k) && "/" <= base && "/" <= q && NoDots(k.dots, Segments(q))
    requires |Segments(q)| < |Segments(base)| + |Segments(t)|
    ensures Route(base, q) == Forward(t) <==> Probe(q) && q == t
  {
    if !Probe(q) && Route(base, q).Forward? {
      assert q[|base|..][0] == q[|base|];
      PrefixUndotted(k, base, q);
    }
  }

  lemma CleanStripsBack(k: Client, base: string, location: string)
    requires Lawful(k) && "/" <= base && Clean(k, base) && "/" <= location
    ensures Route(base, Asked(k, base + location)) == Forward(Asked(k, location)) <==>
            || (!ClimbsOut(k, location) && Asked(k, location) != "/" && !Probe(base + Asked(k, location)))
            || (Probe(Asked(k, location)) && Asked(k, base + location) == Asked(k, location))
  {
    CleanAsked(k, base, location);
    AskedShape(k, location);
    AskedShape(k, base + location);
    var t, q := Asked(k, location), Asked(k, base + location);
    if ClimbsOut(k, location) {
      ClimbingRoute(k, base, q, t);
    } else {
      assert |base + t| != |t|;
      BehindRoute(base, t);
    }
  }

  lemma UncleanStripsBack(k: Client, base: string, location: string)
    requires Lawful(k) && "/" <= base && !Clean(k, base) && "/" <= location
    ensures Route(base, Asked(k, base + location)) == Forward(Asked(k, location)) <==>
            Probe(Asked(k, location)) && Asked(k, base + location) == Asked(k, location)
  {
    AskedShape(k, base + location);
    var q := Asked(k, base + location);
    if !Probe(q) && Route(base, q).Forward? {
      ForwardIsClean(k, base, q);
    }
  }

  lemma MountedFollow(k: Client, base: string, location: string)
    requires Lawful(k) && "/" <= base && Mountable(base, location)
    ensures Follow(k, Mounted(base, location)) ==
            if Leaves(k, base) then Elsewhere else Next(Asked(k, base + location), QueryOf(base + location))
  {
    LeavesByBase(k, base, location);
  }

  /**
   A mounted Location strips back to itself exactly when the base is entered as it is spelled and
   the Location neither climbs out, nor is the root, nor becomes a probe behind the base; or when
   it is a probe the client reaches without the mount.
   */
  lemma MountStripsBack(k: Client, base: string, location: string)
    requires Lawful(k) && Normal(base) && base != "" && Mountable(base, location)
    ensures StripsBack(k, base, location) <==>
            && !Leaves(k, base)
            && (|| (Clean(k, base) && !ClimbsOut(k, location) && Asked(k, location) != "/" && !Probe(base + Asked(k, location)))
                || SameProbe(k, base, location))
  {
    MountedFollow(k, base, location);
    if Clean(k, base) {
      CleanStripsBack(k, base, location);
      CleanPath(k, base, location);
    } else {
      UncleanStripsBack(k, base, location);
    }
  }

  /** For a Location without dots behind an ordinary base that is: its path is not "/" and no probe behind the base. */
  lemma PlainStripsBack(k: Client, base: string, location: string)
    requires Lawful(k) && Normal(base) && base != "" && Mountable(base, location)
    requires Clean(k, base) && !("//" <= base) && Clean(k, PathOf(location))
    ensures StripsBack(k, base, location) <==> PathOf(location) != "/" && !Probe(base + PathOf(location))
  {
    PlainAsked(k, location);
    CleanAsked(k, base, location);
    assert |base + PathOf(location)| != |PathOf(location)|;
    CleanLeaves(k, base);
    MountStripsBack(k, base, location);
  }

  lemma PlainAsked(k: Client, location: string)
    requires Lawful(k) && "/" <= location && Clean(k, PathOf(location))
    ensures Asked(k, location) == PathOf(location) && !ClimbsOut(k, location)
  {
    GoodSent(k, PathOf(location));
    UndottedPlain(k.dots, PathOf(location));
  }

  lemma CleanLeaves(k: Client, base: string)
    requires Lawful(k) && Clean(k, base) && |base| >= 2
    ensures Leaves(k, base) <==> "//" <= base
  {
    CleanPath(k, base, "/");
    assert PathOf("/") == "/";
  }
}

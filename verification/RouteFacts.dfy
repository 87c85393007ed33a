/**
 The base-URL middleware's promises in its own terms: normalising, letter case, the probes, the
 landings and the mounted Locations (apps/ferrofin-server/src/base_url.rs and its tests).
 */
module RouteFacts {
  import opened Options
  import opened BaseUrl

  function Slashes(n: nat): string { seq(n, i => '/') }

  lemma {:induction false} TrimmedIs(s: string)
    ensures s == TrimSlashes(s) + Slashes(|s| - |TrimSlashes(s)|)
  {
    if s != "" && s[|s| - 1] == '/' {
      var front := s[..|s| - 1];
      TrimmedIs(front);
      assert s == front + "/";
      assert Slashes(|s| - |TrimSlashes(s)|) == Slashes(|front| - |TrimSlashes(front)|) + "/";
    }
  }

  /** Normalising puts a slash in front of a value that has none and takes those at its end away. */
  lemma NormalizeKeeps(value: string)
    ensures Blank(value) <==> (forall i :: 0 <= i < |value| ==> IsSpace(value[i]))
    ensures Blank(value) ==> Normalize(value) == ""
    ensures !Blank(value) ==> exists n :: (if value[0] == '/' then value else "/" + value) == Normalize(value) + Slashes(n)
  {
    if !Blank(value) {
      TrimmedIs(if value[0] == '/' then value else "/" + value);
    }
  }

  // ----- letter case -----------------------------------------------------------------------------------

  /** The same character, or the same letter in the other case. */
  predicate SameLetter(c: char, d: char) {
    || c == d
    || ('A' <= c <= 'Z' && d as int == c as int + 32)
    || ('A' <= d <= 'Z' && c as int == d as int + 32)
  }

  predicate AnyCase(a: string, b: string) { |a| == |b| && forall i :: 0 <= i < |a| ==> SameLetter(a[i], b[i]) }

  lemma SameTextIff(a: string, b: string)
    ensures SameText(a, b) <==> AnyCase(a, b)
  {
    forall c: char, d: char ensures LowerChar(c) == LowerChar(d) <==> SameLetter(c, d) {
      LetterIff(c, d);
    }
  }

  lemma LetterIff(c: char, d: char)
    ensures LowerChar(c) == LowerChar(d) <==> SameLetter(c, d)
  {
  }

  // ----- where a request goes -----------------------------------------------------------------------------

  predicate IsProbe(path: string) { AnyCase(path, "/health/live") || AnyCase(path, "/health/ready") }

  predicate IsHealth(path: string) { AnyCase(path, "/health") || AnyCase(path, "/health/") }

  lemma ProbeIff(path: string)
    ensures Probe(path) <==> IsProbe(path)
    ensures Health(path) <==> IsHealth(path)
  {
    SameTextIff(path, LIVE);
    SameTextIff(path, READY);
    SameTextIff(path, HEALTH);
    SameTextIff(path, HEALTH + "/");
    assert HEALTH + "/" == "/health/";
  }

  /** Without a base, and on the probes, nothing is rewritten. */
  lemma Untouched(base: string, path: string)
    requires base == "" || IsProbe(path)
    ensures Route(base, path) == Forward(path)
  {
    ProbeIff(path);
  }

  /** Under the mount, in any case, the rest of the path is handed on. */
  lemma UnderMount(base: string, head: string, rest: string)
    requires base != "" && AnyCase(head, base) && "/" <= rest && rest != "/" && !IsProbe(head + rest)
    ensures Route(base, head + rest) == Forward(rest)
  {
    ProbeIff(head + rest);
    SameTextIff(head, base);
    assert (head + rest)[..|base|] == head && (head + rest)[|base|..] == rest;
  }

  /** A path that only begins like the mount is not found. */
  lemma BesideMount(base: string, head: string, rest: string)
    requires base != "" && AnyCase(head, base) && rest != "" && rest[0] != '/' && !IsProbe(head + rest)
    ensures Route(base, head + rest) == NotFound
  {
    ProbeIff(head + rest);
    SameTextIff(head, base);
    assert (head + rest)[..|base|] == head && (head + rest)[|base|..] == rest;
  }

  /** The mount itself and everything outside it is sent to the health check or the web client under it. */
  lemma OutsideMount(base: string, path: string)
    requires base != "" && Sendable(base) && !IsProbe(path)
    requires AnyCase(path, base) || (|path| == |base| + 1 && AnyCase(path[..|base|], base) && path[|base|] == '/')
             || |path| < |base| || !AnyCase(path[..|base|], base)
    ensures IsHealth(path) ==> Route(base, path) == Redirect(base + "/health")
    ensures !IsHealth(path) ==> Route(base, path) == Redirect(base + "/web/")
  {
    ProbeIff(path);
    if |path| >= |base| {
      SameTextIff(path[..|base|], base);
      assert |path| == |base| ==> path[..|base|] == path && path[|base|..] == "";
      assert |path| == |base| + 1 ==> path[|base|..] == [path[|base|]];
    }
  }

  // ----- Locations --------------------------------------------------------------------------------------------

  /** What a header value can hold: no control character but the tab. */
  predicate Sendable(s: string) { forall i :: 0 <= i < |s| ==> s[i] == '\t' || (s[i] >= ' ' && s[i] as int != 0x7f) }

  /** What a header value is read as text with: printable ASCII and the tab. */
  predicate Printable(s: string) { forall i :: 0 <= i < |s| ==> s[i] == '\t' || ' ' <= s[i] <= '~' }

  /** A Location is mounted exactly when it starts with one slash, is plain text and the base can be sent. */
  lemma MountedIff(base: string, location: string)
    ensures "/" <= location && !("//" <= location) && Printable(location) && Sendable(base) ==> Mounted(base, location) == base + location
    ensures !("/" <= location) || "//" <= location || !Printable(location) || !Sendable(base) ==> Mounted(base, location) == location
  {
    assert "//" <= location <==> |location| >= 2 && location[0] == '/' && location[1] == '/';
    assert Printable(location) <==> VisibleAscii(location);
    assert Sendable(base) <==> HeaderText(base);
  }

  /** A base that cannot be sent answers every redirect with an error. */
  lemma UnsendableBase(base: string, path: string)
    requires !Sendable(base) && !IsProbe(path) && (|path| < |base| || !AnyCase(path[..|base|], base))
    ensures Route(base, path) == Broken
  {
    ProbeIff(path);
    if |path| >= |base| {
      SameTextIff(path[..|base|], base);
    }
    assert Sendable(base) <==> HeaderText(base);
  }

  /** Unicode's white space, by code point. */
  lemma SpaceIff(c: char)
    ensures IsSpace(c) <==>
            c as int in {0x09, 0x0a, 0x0b, 0x0c, 0x0d, 0x20, 0x85, 0xa0, 0x1680, 0x2000, 0x2001, 0x2002, 0x2003, 0x2004, 0x2005,
                         0x2006, 0x2007, 0x2008, 0x2009, 0x200a, 0x2028, 0x2029, 0x202f, 0x205f, 0x3000}
  {
  }
}

/** Two clients, and the bases and Locations that trip them. */
module RedirectClients {
  import opened Options
  import opened BaseUrl
  import opened PathSegments
  import opened Redirects

  function Hex(n: nat): (c: char)
    requires n < 16
    ensures '0' <= c <= '9' || 'A' <= c <= 'F'
  {
    if n < 10 then ('0' as int + n) as char else ('A' as int + n - 10) as char
  }

  function Escaped(byte: nat): string
    requires byte < 256
  {
    ['%', Hex(byte / 16), Hex(byte % 16)]
  }

  /** A character percent-encoded as UTF-8 (section 2.1 of RFC 3986). */
  function Percent(c: char): string {
    var n := c as int;
    if n < 0x80 then Escaped(n)
    else if n < 0x800 then Escaped(0xC0 + n / 64) + Escaped(0x80 + n % 64)
    else if n < 0x10000 then Escaped(0xE0 + n / 4096) + Escaped(0x80 + n / 64 % 64) + Escaped(0x80 + n % 64)
    else Escaped(0xF0 + n / 262144 % 8) + Escaped(0x80 + n / 4096 % 64) + Escaped(0x80 + n / 64 % 64) + Escaped(0x80 + n % 64)
  }

  predicate Escape(c: char) { c == '%' || '0' <= c <= '9' || 'A' <= c <= 'F' }

  lemma PercentEscapes(c: char)
    ensures |Percent(c)| >= 3 && forall i :: 0 <= i < |Percent(c)| ==> Escape(Percent(c)[i])
  {
  }

  /** pchar of section 3.3 of RFC 3986, an escape's percent sign, and the slash. */
  predicate PathChar(c: char) {
    || 'a' <= c <= 'z' || 'A' <= c <= 'Z' || '0' <= c <= '9' || c == '/' || c == '%'
    || c == '-' || c == '.' || c == '_' || c == '~' || c == ':' || c == '@'
    || c == '!' || c == '$' || c == '&' || c == '\'' || c == '(' || c == ')' || c == '*' || c == '+' || c == ',' || c == ';' || c == '='
  }

  function PlainSend(c: char): string { if PathChar(c) then [c] else Percent(c) }

  function PlainDots(s: string): Dot { if s == "." then Here else if s == ".." then Up else Plain }

  /** A client that follows RFC 3986 to the letter. */
  function Rfc3986(): Client { Client(PlainSend, PlainDots) }

  /** The path percent-encode set of the WHATWG URL Standard. */
  predicate BrowserEscapes(c: char) {
    || c as int < 32 || c as int > 126 || c == ' ' || c == '"' || c == '#' || c == '<' || c == '>' || c == '?'
    || c == '^' || c == '`' || c == '{' || c == '}'
  }

  /** Tabs and line ends are dropped, a backslash is a slash. */
  function BrowserSend(c: char): string {
    if c == '\t' || c == '\n' || c == '\r' then "" else if c == '\\' then "/" else if BrowserEscapes(c) then Percent(c) else [c]
  }

  function BrowserDots(s: string): Dot {
    if SameText(s, ".") || SameText(s, "%2e") then Here
    else if SameText(s, "..") || SameText(s, ".%2e") || SameText(s, "%2e.") || SameText(s, "%2e%2e") then Up
    else Plain
  }

  function Browser(): Client { Client(BrowserSend, BrowserDots) }

  lemma LowerClass(c: char)
    ensures PathChar(c) <==> PathChar(LowerChar(c))
    ensures Good(Browser(), c) <==> Good(Browser(), LowerChar(c))
  {
    if 'A' <= c <= 'Z' {
      assert 'a' <= LowerChar(c) <= 'z';
    }
    PercentEscapes(c);
    PercentEscapes(LowerChar(c));
  }

  lemma RfcGood(c: char)
    ensures Good(Rfc3986(), c) <==> PathChar(c)
  {
    PercentEscapes(c);
  }

  lemma RfcSendsGood(c: char)
    ensures AllGood(Rfc3986(), PlainSend(c))
  {
    PercentEscapes(c);
    forall i | 0 <= i < |PlainSend(c)| ensures Good(Rfc3986(), PlainSend(c)[i]) {
      RfcGood(PlainSend(c)[i]);
    }
  }

  lemma EscapeGood(c: char)
    requires Escape(c)
    ensures Good(Browser(), c)
  {
  }

  lemma BrowserSendsGood(c: char)
    ensures AllGood(Browser(), BrowserSend(c))
  {
    if BrowserEscapes(c) {
      PercentEscapes(c);
      forall i | 0 <= i < |Percent(c)| ensures Good(Browser(), Percent(c)[i]) {
        EscapeGood(Percent(c)[i]);
      }
    }
  }

  lemma SameTextTransfers(s: string, t: string, x: string)
    requires SameText(s, t)
    ensures SameText(s, x) <==> SameText(t, x)
  {
  }

  lemma PlainDotsSame(s: string, t: string)
    requires SameText(s, t)
    ensures PlainDots(s) == PlainDots(t)
  {
    SameTextTransfers(s, t, ".");
    SameTextTransfers(s, t, "..");
    DotText(s);
    DotText(t);
  }

  lemma DotText(s: string)
    ensures SameText(s, ".") <==> s == "."
    ensures SameText(s, "..") <==> s == ".."
  {
    if SameText(s, ".") { assert LowerChar(s[0]) == LowerChar('.'); assert s[0] == '.'; }
    if SameText(s, "..") { assert LowerChar(s[0]) == LowerChar('.') && LowerChar(s[1]) == LowerChar('.'); assert s[0] == '.' && s[1] == '.'; }
  }

  lemma BrowserDotsSame(s: string, t: string)
    requires SameText(s, t)
    ensures BrowserDots(s) == BrowserDots(t)
  {
    SameTextTransfers(s, t, ".");
    SameTextTransfers(s, t, "%2e");
    SameTextTransfers(s, t, "..");
    SameTextTransfers(s, t, ".%2e");
    SameTextTransfers(s, t, "%2e.");
    SameTextTransfers(s, t, "%2e%2e");
  }

  lemma BrowserDotStarts(s: string)
    requires BrowserDots(s) != Plain
    ensures s != "" && (s[0] == '.' || s[0] == '%')
  {
    assert s != "" && (LowerChar(s[0]) == '.' || LowerChar(s[0]) == '%');
  }

  lemma RfcChar(c: char)
    ensures AllGood(Rfc3986(), Rfc3986().send(c)) && (Good(Rfc3986(), c) <==> Good(Rfc3986(), LowerChar(c)))
    ensures (c == '/' || 'a' <= c <= 'z' ==> Good(Rfc3986(), c)) && (Delimiter(c) ==> !Good(Rfc3986(), c))
  {
    RfcSendsGood(c);
    RfcGood(c);
    RfcGood(LowerChar(c));
    LowerClass(c);
  }

  lemma RfcLawful()
    ensures Lawful(Rfc3986())
  {
    var k := Rfc3986();
    forall c: char
      ensures AllGood(k, k.send(c)) && (Good(k, c) <==> Good(k, LowerChar(c)))
      ensures (c == '/' || 'a' <= c <= 'z' ==> Good(k, c)) && (Delimiter(c) ==> !Good(k, c))
    {
      RfcChar(c);
    }
    forall s, t | SameText(s, t) ensures k.dots(s) == k.dots(t) {
      PlainDotsSame(s, t);
    }
  }

  lemma BrowserGood(c: char)
    ensures c == '/' || 'a' <= c <= 'z' ==> Good(Browser(), c)
    ensures Delimiter(c) ==> !Good(Browser(), c)
  {
    PercentEscapes(c);
  }

  lemma BrowserLawful()
    ensures Lawful(Browser())
  {
    var k := Browser();
    forall c: char
      ensures AllGood(k, k.send(c)) && (Good(k, c) <==> Good(k, LowerChar(c)))
      ensures (c == '/' || 'a' <= c <= 'z' ==> Good(k, c)) && (Delimiter(c) ==> !Good(k, c))
    {
      BrowserSendsGood(c);
      LowerClass(c);
      BrowserGood(c);
    }
    forall s, t | SameText(s, t) ensures k.dots(s) == k.dots(t) {
      BrowserDotsSame(s, t);
    }
    forall s | k.dots(s) != Plain ensures s != "" && (s[0] == '.' || s[0] == '%') {
      BrowserDotStarts(s);
    }
  }

  // ----- failing inputs ---------------------------------------------------------------------------------

  /** "//evil" sends every client to another host. */
  lemma NetworkBase(k: Client)
    requires Lawful(k)
    ensures Normalize("//evil") == "//evil" && Route("//evil", "/x") == Redirect("//evil/web/")
    ensures Follow(k, "//evil/web/") == Elsewhere
  {
    var base := "//evil";
    NormalizeFixed(base);
    assert !SameText("/x", HEALTH) && !SameText("/x", HEALTH + "/");
    assert Route(base, "/x") == Redirect(base + WEB);
    assert base + WEB == "//evil/web/";
    assert Good(k, '/');
    NetworkSent(k, base + "/");
    NetworkBaseLeaves(k, base, "/x");
  }

  lemma NetworkSent(k: Client, s: string)
    requires Lawful(k) && "//" <= s
    ensures "//" <= Sent(k, PathOf(s))
  {
    assert Good(k, '/') && s[0] == '/' && s[1] == '/';
    var p := PathOf(s);
    assert PathOf(s) == ['/'] + PathOf(s[1..]) && PathOf(s[1..]) == ['/'] + PathOf(s[1..][1..]);
    assert Sent(k, p) == ['/'] + Sent(k, p[1..]) && p[1..] == PathOf(s[1..]);
    assert Sent(k, p[1..]) == ['/'] + Sent(k, p[1..][1..]);
  }

  /** A second character other than a slash, sent as it is, keeps the client here. */
  lemma SecondSent(k: Client, base: string)
    requires Lawful(k) && |base| >= 2 && base[0] == '/' && 'a' <= base[1] <= 'z'
    ensures !Leaves(k, base)
  {
    var s := base + "/";
    assert Good(k, s[0]) && Good(k, s[1]);
    var p := PathOf(s);
    assert PathOf(s) == ['/'] + PathOf(s[1..]) && PathOf(s[1..]) == [s[1]] + PathOf(s[1..][1..]);
    assert Sent(k, p) == ['/'] + Sent(k, p[1..]) && p[1..] == PathOf(s[1..]);
    assert Sent(k, p[1..]) == [s[1]] + Sent(k, p[1..][1..]);
    assert Sent(k, p)[1] == s[1];
  }

  lemma FirstHop(base: string)
    requires Normal(base) && |base| > 2 && HeaderText(base)
    ensures Normalize(base) == base && Route(base, "/x").Redirect?
  {
    NormalizeFixed(base);
    assert !SameText("/x", LIVE) && !SameText("/x", READY);
  }

  /** The client is sent round for ever: the base is a fixed point, and every hop is a redirect. */
  ghost predicate Loops(k: Client, base: string) {
    Normalize(base) == base && forall n :: HopAfter(k, base, "/x", n).Next? && Route(base, HopAfter(k, base, "/x", n).path).Redirect?
  }

  lemma LoopsFrom(k: Client, base: string)
    requires Lawful(k) && Normal(base) && |base| > 2 && 'a' <= base[1] <= 'z' && HeaderText(base) && !Enterable(k, base)
    ensures Loops(k, base)
  {
    FirstHop(base);
    SecondSent(k, base);
    forall n: nat ensures HopAfter(k, base, "/x", n).Next? && Route(base, HopAfter(k, base, "/x", n).path).Redirect? {
      RedirectLoops(k, base, "/x", n);
    }
  }

  lemma DottedSegments()
    ensures |Segments("/a/../b")| == 3 && Segments("/a/../b")[1] == ".."
  {
    assert "/a/../b"[1..] == "a" + "/" + "../b" && "../b" == ".." + "/" + "b";
    PiecesConcat("a", "../b");
    PiecesConcat("..", "b");
    OnePiece("a");
    OnePiece("..");
    OnePiece("b");
  }

  lemma UncleanLoops(k: Client, base: string)
    requires Lawful(k) && Normal(base) && |base| > 2 && 'a' <= base[1] <= 'z' && HeaderText(base) && !Clean(k, base)
    requires forall i :: 0 <= i < |base| ==> !Delimiter(base[i])
    ensures Loops(k, base)
  {
    PlainPath(base);
    LoopsFrom(k, base);
  }

  /** "/a/../b" is asked for as "/b". */
  lemma DottedBase(k: Client)
    requires Lawful(k) && k.dots("..") == Up
    ensures Loops(k, "/a/../b")
  {
    DottedSegments();
    UncleanLoops(k, "/a/../b");
  }

  /** A space is escaped, so the mount is never asked for as it is spelled. */
  lemma SpacedBase(k: Client)
    requires Lawful(k) && !Good(k, ' ')
    ensures Loops(k, "/my media")
  {
    assert "/my media"[3] == ' ';
    UncleanLoops(k, "/my media");
  }

  /** Everything behind a question mark is a query. */
  lemma DelimitedBase(k: Client)
    requires Lawful(k)
    ensures Loops(k, "/a?b")
  {
    DelimitedAsked(k);
    assert Delimiter("/a?b"[2]) && !Good(k, "/a?b"[2]);
    LoopsFrom(k, "/a?b");
  }

  /** And everything behind a number sign is a fragment, which no request carries. */
  lemma FragmentBase(k: Client)
    requires Lawful(k)
    ensures Loops(k, "/a#b")
  {
    FragmentAsked(k);
    assert Delimiter("/a#b"[2]) && !Good(k, "/a#b"[2]);
    LoopsFrom(k, "/a#b");
  }

  lemma FragmentAsked(k: Client)
    requires Lawful(k)
    ensures PathOf("/a#b") == "/a" && Undotted(k.dots, Sent(k, "/a")) == "/a"
  {
    DelimitedAsked(k);
    PlainPath("/a");
    assert "/a#b" == "/a" + "#b" && PathOf("#b") == "";
    PathOfConcat("/a", "#b");
  }

  lemma DelimitedAsked(k: Client)
    requires Lawful(k)
    ensures PathOf("/a?b") == "/a" && Undotted(k.dots, Sent(k, "/a")) == "/a"
  {
    PlainPath("/a");
    assert "/a?b" == "/a" + "?b" && PathOf("?b") == "";
    PathOfConcat("/a", "?b");
    GoodSent(k, "/a");
    OnePiece("a");
    assert "/a"[1..] == "a";
    UndottedPlain(k.dots, "/a");
  }

  lemma Tripped()
    ensures Rfc3986().dots("..") == Browser().dots("..") == Up && !Good(Rfc3986(), ' ') && !Good(Browser(), ' ')
  {
    PercentEscapes(' ');
    assert BrowserDots("..") == Up;
  }

  /** Both clients go round for ever on all three bases. */
  lemma BothTripped()
    ensures Loops(Rfc3986(), "/a/../b") && Loops(Rfc3986(), "/my media") && Loops(Rfc3986(), "/a?b")
    ensures Loops(Browser(), "/a/../b") && Loops(Browser(), "/my media") && Loops(Browser(), "/a?b")
  {
    Tripped();
    RfcLawful();
    BrowserLawful();
    DottedBase(Rfc3986());
    SpacedBase(Rfc3986());
    DelimitedBase(Rfc3986());
    DottedBase(Browser());
    SpacedBase(Browser());
    DelimitedBase(Browser());
  }

  lemma JellyClean(k: Client)
    requires Lawful(k)
    ensures Clean(k, "/jelly")
  {
    var base := "/jelly";
    forall i | 0 <= i < |base| ensures Good(k, base[i]) {
      assert base[i] == '/' || 'a' <= base[i] <= 'z';
    }
    assert base[1..] == "jelly";
    OnePiece("jelly");
  }

  lemma RootAsked(k: Client)
    requires Lawful(k)
    ensures PathOf("/?a=b") == "/" && QueryOf("/?a=b") == Some("a=b") && Clean(k, "/")
  {
    var location := "/?a=b";
    assert location[1..] == "?a=b" && location[2..] == "a=b";
    assert UpToFragment("a=b") == "a=b";
    assert Good(k, '/') && "/"[1..] == "";
    OnePiece("");
  }

  /** Behind "/jelly", the Location "/?a=b" leads back to the mount's own redirect. */
  lemma QueriedRoot(k: Client)
    requires Lawful(k)
    ensures Mountable("/jelly", "/?a=b") && !StripsBack(k, "/jelly", "/?a=b")
  {
    JellyClean(k);
    RootAsked(k);
    PlainStripsBack(k, "/jelly", "/?a=b");
  }
}

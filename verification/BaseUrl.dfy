/**
 Mounting the routes under the advertised base URL: the prefix is stripped on the way in and
 kept in redirects on the way out (apps/ferrofin-server/src/base_url.rs;
 crates/ferrofin-networking/src/network_configuration.rs `normalize_base_url`).
 Paths are ASCII, one character per byte.
 */
module BaseUrl {
  import opened Options

  // ----- the normalised base --------------------------------------------------------------------

  /** Unicode White_Space. */
  predicate IsSpace(c: char) {
    var n := c as int;
    || 9 <= n <= 13 || n == 0x20 || n == 0x85 || n == 0xA0 || n == 0x1680 || 0x2000 <= n <= 0x200A
    || n == 0x2028 || n == 0x2029 || n == 0x202F || n == 0x205F || n == 0x3000
  }

  predicate Blank(s: string) { forall i :: 0 <= i < |s| ==> IsSpace(s[i]) }

  function TrimSlashes(s: string): (r: string)
    ensures r <= s && (r != "" ==> r[|r| - 1] != '/')
  {
    if s != "" && s[|s| - 1] == '/' then TrimSlashes(s[..|s| - 1]) else s
  }

  function Normalize(value: string): string {
    if Blank(value) then ""
    else TrimSlashes(if value[0] == '/' then value else "/" + value)
  }

  /** Empty, or a path that starts with a slash and does not end with one. */
  predicate Normal(base: string) { base == "" || (base[0] == '/' && base[|base| - 1] != '/') }

  lemma NormalizeNormal(value: string)
    ensures Normal(Normalize(value))
  {
  }

  /** Exactly the normal bases are left alone, so repeated normalisation changes nothing. */
  lemma NormalizeFixed(base: string)
    ensures Normalize(base) == base <==> Normal(base)
  {
    NormalizeNormal(base);
    if base != "" && Normal(base) {
      assert !IsSpace(base[0]);
    }
  }

  // ----- routing ------------------------------------------------------------------------------------

  function LowerChar(c: char): char { if 'A' <= c <= 'Z' then ((c as int) + 32) as char else c }

  /** Equal but for ASCII case. */
  predicate SameText(a: string, b: string) {
    |a| == |b| && forall i :: 0 <= i < |a| ==> LowerChar(a[i]) == LowerChar(b[i])
  }

  const LIVE := "/health/live"
  const READY := "/health/ready"
  const HEALTH := "/health"
  const WEB := "/web/"

  predicate Probe(path: string) { SameText(path, LIVE) || SameText(path, READY) }

  predicate Health(path: string) { SameText(path, HEALTH) || SameText(path, HEALTH + "/") }

  /** What a header value may hold (tab and everything but control characters). */
  predicate HeaderText(s: string) {
    forall i :: 0 <= i < |s| ==> s[i] == '\t' || (s[i] as int >= 32 && s[i] as int != 127)
  }

  /** What a header value can be read back as text with. */
  predicate VisibleAscii(s: string) {
    forall i :: 0 <= i < |s| ==> s[i] == '\t' || 32 <= s[i] as int < 127
  }

  /** `Broken`: the base is no header value, so its redirect becomes a server error. */
  datatype Outcome = Forward(path: string) | Redirect(location: string) | NotFound | Broken

  predicate HasPrefix(base: string, path: string) { |path| >= |base| && SameText(path[..|base|], base) }

  function Suffix(base: string, path: string): string { if |path| >= |base| then path[|base|..] else "" }

  /** Where a request outside the mount is sent, behind the base. */
  function Landing(path: string): string { if Health(path) then HEALTH else WEB }

  function Route(base: string, path: string): Outcome {
    if base == "" || Probe(path) then Forward(path)
    else if !HasPrefix(base, path) || Suffix(base, path) == "" || Suffix(base, path) == "/" then
      if HeaderText(base) then Redirect(base + Landing(path)) else Broken
    else if Suffix(base, path)[0] != '/' then NotFound
    else Forward(Suffix(base, path))
  }

  /** A path reference, not a network-path one. */
  predicate RootRelative(location: string) {
    location != "" && location[0] == '/' && !(|location| >= 2 && location[1] == '/')
  }

  /** A Location the mount is put in front of. */
  predicate Mountable(base: string, location: string) {
    RootRelative(location) && VisibleAscii(location) && HeaderText(base)
  }

  /** The Location of the inner answer as it leaves the mount. */
  function Mounted(base: string, location: string): string {
    if Mountable(base, location) then base + location else location
  }

  datatype Reply = Reply(status: nat, location: Option<string>)

  /** The request the middleware may rewrite in place. */
  class Request {
    var path: string
    var query: Option<string>

    constructor (path: string, query: Option<string>)
      ensures this.path == path && this.query == query
    {
      this.path, this.query := path, query;
    }
  }

  /** The middleware around `inner`, the router behind it. */
  method Rewrite(base: string, request: Request, inner: (string, Option<string>) -> Reply) returns (reply: Reply)
    modifies request
    ensures request.query == old(request.query)
    ensures match Route(base, old(request.path))
            case Forward(path) =>
              && request.path == path
              && var answer := inner(path, request.query);
                 reply == (if base == "" || Probe(old(request.path)) || answer.location.None? then answer
                           else answer.(location := Some(Mounted(base, answer.location.value))))
            case Redirect(location) => request.path == old(request.path) && reply == Reply(302, Some(location))
            case NotFound => request.path == old(request.path) && reply == Reply(404, None)
            case Broken => request.path == old(request.path) && reply == Reply(500, None)
    ensures Route(base, old(request.path)).Forward? ==>
              var answer := inner(request.path, request.query);
              answer.location.Some? && ("//" <= answer.location.value || !("/" <= answer.location.value)) ==> reply == answer
  {
    var path := request.path;
    if base == "" || Probe(path) {
      reply := inner(path, request.query);
      return;
    }
    var suffix := Suffix(base, path);
    if !HasPrefix(base, path) || suffix == "" || suffix == "/" {
      if !HeaderText(base) {
        return Reply(500, None);
      }
      if Health(path) {
        return Reply(302, Some(base + HEALTH));
      }
      return Reply(302, Some(base + WEB));
    }
    if suffix[0] != '/' {
      return Reply(404, None);
    }
    request.path := suffix;
    reply := inner(request.path, request.query);
    if reply.location.Some? {
      var location := reply.location.value;
      if RootRelative(location) && VisibleAscii(location) && HeaderText(base) {
        reply := reply.(location := Some(base + location));
      }
    }
  }
}

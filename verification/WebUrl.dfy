/** The host and path of an `http` or `https` URL. */
module WebUrls {
  import opened Decimal
  import opened DotSegments
  import opened Hosts
  import opened Letters
  import opened Prelude
  import opened Segments
  import opened Text

  datatype WebUrl = WebUrl(host: string, path: string)

  function FirstOf(s: string, stops: string): (n: nat)
    ensures n <= |s| && (n < |s| ==> s[n] in stops) && forall k :: 0 <= k < n ==> s[k] !in stops
  {
    if s == "" || s[0] in stops then 0 else 1 + FirstOf(s[1..], stops)
  }

  predicate IsHttp(scheme: string) {
    Lower(scheme) == "http" || Lower(scheme) == "https"
  }

  predicate Refused(u: Unicode, c: char) {
    c == '\\' || u.control(c) || u.space(c)
  }

  predicate NoneRefused(u: Unicode, url: string) {
    forall k :: 0 <= k < |url| ==> !Refused(u, url[k])
  }

  predicate ValidPort(port: string) {
    1 <= |port| <= 5 && AllDigits(port) && Read(port) <= 65535
  }

  predicate ValidHost(host: string) {
    ValidIpv4(host) || ValidDomain(host)
  }

  function HostAndPort(authority: string): (string, Option<string>) {
    match SplitOnce(authority, ':')
    case None => (authority, None)
    case Some(parts) => (parts.0, Some(parts.1))
  }

  function FromParts(authority: string, path: string): Option<WebUrl> {
    var parts := HostAndPort(authority);
    var host := Lower(parts.0);
    if (parts.1.Some? && !ValidPort(parts.1.value)) || !ValidHost(host) || HasDotSegment(path) then None
    else Some(WebUrl(host, path))
  }

  function AfterScheme(rest: string): Option<WebUrl> {
    var cut := FirstOf(rest, "/?#");
    var tail := rest[cut..];
    FromParts(rest[..cut], tail[..FirstOf(tail, "?#")])
  }

  function SplitUrl(u: Unicode, url: string): Option<WebUrl> {
    var at := Matches(url, "://", 0);
    if at == [] then None
    else
      MatchesFit(url, "://", 0, 0);
      FitsInside(url, 0, at, 3);
      var scheme, rest := url[..at[0]], url[at[0] + 3..];
      if !IsHttp(scheme) || !NoneRefused(u, url) then None else AfterScheme(rest)
  }

  // ----- the URLs accepted -----

  // A port with the colon before it, or nothing.
  predicate IsPortPart(part: string) {
    part == "" || (part[0] == ':' && ValidPort(part[1..]))
  }

  // A query or a fragment, or nothing.
  predicate IsTail(tail: string) {
    tail == "" || tail[0] == '?' || tail[0] == '#'
  }

  predicate IsPath(path: string) {
    Absolute(path) && '?' !in path && '#' !in path && !HasDotSegment(path)
  }

  datatype Pieces = Pieces(scheme: string, host: string, port: string, path: string, tail: string) {
    function Url(): string {
      scheme + "://" + (host + port + (path + tail))
    }

    predicate Valid(u: Unicode) {
      && IsHttp(scheme) && ValidHost(Lower(host)) && IsPortPart(port) && IsPath(path) && IsTail(tail)
      && NoneRefused(u, Url())
    }
  }

  lemma HostChars(host: string, c: char)
    requires ValidHost(Lower(host)) && c in host
    ensures host != "" && (IsUpper(c) || HostChar(c))
  {
    var k :| 0 <= k < |host| && host[k] == c;
    assert Lower(host)[k] == LowerChar(c);
    HostCharsOnly(Lower(host), LowerChar(c));
  }

  lemma SchemeChars(scheme: string, c: char)
    requires IsHttp(scheme) && c in scheme
    ensures IsUpper(c) || IsLower(c)
  {
    var k :| 0 <= k < |scheme| && scheme[k] == c;
    assert Lower(scheme)[k] == LowerChar(c);
    assert Lower(scheme)[k] in "https";
  }

  lemma SchemeEnds(scheme: string, rest: string)
    requires ':' !in scheme
    ensures Matches(scheme + "://" + rest, "://", 0) != []
    ensures Matches(scheme + "://" + rest, "://", 0)[0] == |scheme|
  {
    SchemeEndsFrom(scheme, rest, 0);
  }

  lemma {:induction false} SchemeEndsFrom(scheme: string, rest: string, from: nat)
    requires ':' !in scheme && from <= |scheme|
    ensures var at := Matches(scheme + "://" + rest, "://", from); at != [] && at[0] == |scheme|
    decreases |scheme| - from
  {
    var url := scheme + "://" + rest;
    if from < |scheme| {
      assert url[from..from + 3][0] == scheme[from];
      SchemeEndsFrom(scheme, rest, from + 1);
    } else {
      assert url[from..from + 3] == "://";
    }
  }

  lemma {:induction false} FirstOfEnds(front: string, back: string, stops: string)
    requires forall k :: 0 <= k < |front| ==> front[k] !in stops
    requires back == "" || back[0] in stops
    ensures FirstOf(front + back, stops) == |front|
  {
    if front == "" {
      assert front + back == back;
    } else {
      assert (front + back)[1..] == front[1..] + back;
      FirstOfEnds(front[1..], back, stops);
    }
  }

  lemma AuthorityReads(host: string, port: string)
    requires ValidHost(Lower(host)) && IsPortPart(port)
    ensures HostAndPort(host + port) == (host, if port == "" then None else Some(port[1..]))
  {
    if ':' in host { HostChars(host, ':'); }
    if port == "" {
      assert host + port == host;
      SplitsAtFirst(host, ':');
    } else {
      assert host + port == host + [':'] + port[1..];
      SplitOnceHere(host, port[1..], ':');
    }
  }

  /** A URL made of valid pieces is accepted, with its own path and its host in lower case. */
  lemma PiecesAreAccepted(u: Unicode, p: Pieces)
    requires p.Valid(u)
    ensures SplitUrl(u, p.Url()) == Some(WebUrl(Lower(p.host), p.path))
  {
    if ':' in p.scheme { SchemeChars(p.scheme, ':'); }
    var rest := p.host + p.port + (p.path + p.tail);
    SchemeEnds(p.scheme, rest);
    assert p.Url()[..|p.scheme|] == p.scheme && p.Url()[|p.scheme| + 3..] == rest;
    RestIsRead(p.host, p.port, p.path, p.tail);
  }

  lemma RestIsRead(host: string, port: string, path: string, tail: string)
    requires ValidHost(Lower(host)) && IsPortPart(port) && IsPath(path) && IsTail(tail)
    ensures AfterScheme(host + port + (path + tail)) == Some(WebUrl(Lower(host), path))
  {
    var authority, after := host + port, path + tail;
    var rest := authority + after;
    AuthorityHasNoStops(host, port);
    FirstOfEnds(authority, after, "/?#");
    assert rest[..|authority|] == authority && rest[|authority|..] == after;
    FirstOfEnds(path, tail, "?#");
    assert after[..|path|] == path;
    AuthorityReads(host, port);
  }

  lemma AuthorityHasNoStops(host: string, port: string)
    requires ValidHost(Lower(host)) && IsPortPart(port)
    ensures forall k :: 0 <= k < |host + port| ==> (host + port)[k] !in "/?#"
  {
    forall k | 0 <= k < |host + port|
      ensures (host + port)[k] !in "/?#"
    {
      if k < |host| {
        HostChars(host, host[k]);
      } else if k > |host| {
        assert IsDigit(port[1..][k - |host| - 1]);
      }
    }
  }

  // A URL with a scheme, cut where the splitter cuts it.
  function PiecesOf(url: string): Pieces
    requires Matches(url, "://", 0) != []
  {
    SchemeIsCut(url);
    var n := Matches(url, "://", 0)[0];
    var rest := url[n + 3..];
    var cut := FirstOf(rest, "/?#");
    var after := rest[cut..];
    var end := FirstOf(after, "?#");
    Pieces(url[..n], HostAndPort(rest[..cut]).0, PortPart(rest[..cut]), after[..end], after[end..])
  }

  function PortPart(authority: string): string {
    match HostAndPort(authority).1
    case None => ""
    case Some(port) => [':'] + port
  }

  lemma PiecesMakeTheUrl(url: string)
    requires Matches(url, "://", 0) != []
    ensures PiecesOf(url).Url() == url
  {
    SchemeIsCut(url);
    var rest := url[Matches(url, "://", 0)[0] + 3..];
    RestIsWhole(rest);
    AuthorityIsWhole(rest[..FirstOf(rest, "/?#")]);
  }

  /** Every accepted URL is made of valid pieces, among them the host and path reported. */
  lemma AcceptedIsMadeOfPieces(u: Unicode, url: string) returns (p: Pieces)
    requires SplitUrl(u, url).Some?
    ensures p.Valid(u) && p.Url() == url && SplitUrl(u, url) == Some(WebUrl(Lower(p.host), p.path))
  {
    p := PiecesOf(url);
    PiecesMakeTheUrl(url);
    SchemeIsCut(url);
    var rest := url[Matches(url, "://", 0)[0] + 3..];
    RestIsCut(rest);
  }

  lemma SchemeIsCut(url: string)
    requires Matches(url, "://", 0) != []
    ensures var n := Matches(url, "://", 0)[0]; n + 3 <= |url| && url == url[..n] + "://" + url[n + 3..]
  {
    var at := Matches(url, "://", 0);
    MatchesAreAt(url, "://", 0);
    assert At(url, at[0], "://");
    InThree(url, 0, at[0], at[0] + 3);
  }

  lemma RestIsWhole(rest: string)
    ensures var cut := FirstOf(rest, "/?#");
      var end := FirstOf(rest[cut..], "?#");
      rest == rest[..cut] + (rest[cut..][..end] + rest[cut..][end..])
  {
    Halves(rest, FirstOf(rest, "/?#"));
    Halves(rest[FirstOf(rest, "/?#")..], FirstOf(rest[FirstOf(rest, "/?#")..], "?#"));
  }

  lemma Halves(s: string, n: nat)
    requires n <= |s|
    ensures s[..n] + s[n..] == s
  {
  }

  lemma RestIsCut(rest: string)
    ensures var after := rest[FirstOf(rest, "/?#")..];
      var end := FirstOf(after, "?#");
      Absolute(after[..end]) && '?' !in after[..end] && '#' !in after[..end] && IsTail(after[end..])
  {
    var after := rest[FirstOf(rest, "/?#")..];
    var end := FirstOf(after, "?#");
    assert forall k :: 0 <= k < end ==> after[..end][k] == after[k];
  }

  lemma AuthorityIsWhole(authority: string)
    ensures HostAndPort(authority).0 + PortPart(authority) == authority
  {
    SplitsAtFirst(authority, ':');
    var parts := HostAndPort(authority);
    assert parts.1.Some? ==> parts.0 + [':'] + parts.1.value == parts.0 + ([':'] + parts.1.value);
  }

  /** What the splitter accepts, exactly. */
  lemma AcceptsExactly(u: Unicode, url: string, web: WebUrl)
    ensures SplitUrl(u, url) == Some(web)
      <==> exists p: Pieces :: p.Valid(u) && p.Url() == url && web == WebUrl(Lower(p.host), p.path)
  {
    if SplitUrl(u, url) == Some(web) {
      var p := AcceptedIsMadeOfPieces(u, url);
    }
    if p: Pieces :| p.Valid(u) && p.Url() == url && web == WebUrl(Lower(p.host), p.path) {
      PiecesAreAccepted(u, p);
    }
  }

  lemma LowerTwice(s: string)
    ensures Lower(Lower(s)) == Lower(s)
  {
  }

  /** A reported host and path, put together again, split into the same host and path. */
  lemma SplittingAgain(u: Unicode, url: string)
    requires u.Valid() && SplitUrl(u, url).Some?
    ensures var web := SplitUrl(u, url).value; SplitUrl(u, "https://" + web.host + web.path) == Some(web)
    ensures var web := SplitUrl(u, url).value; RemoveDots(web.path, "") == web.path && Absolute(web.path)
  {
    var p := AcceptedIsMadeOfPieces(u, url);
    var again := Pieces("https", Lower(p.host), "", p.path, "");
    AgainIsValid(u, p);
    LowerTwice(p.host);
    PiecesAreAccepted(u, again);
    RefusesExactlyWhatWouldChange(p.path);
  }

  lemma AgainIsValid(u: Unicode, p: Pieces)
    requires u.Valid() && p.Valid(u)
    ensures var again := Pieces("https", Lower(p.host), "", p.path, "");
      again.Valid(u) && again.Url() == "https://" + Lower(p.host) + p.path
  {
    var again := Pieces("https", Lower(p.host), "", p.path, "");
    assert IsHttp(again.scheme) by { assert Lower("https") == "https"; }
    LowerTwice(p.host);
    AgainIsClear(u, p);
    NothingAfter(Lower(p.host), p.path);
  }

  lemma NothingAfter(host: string, path: string)
    ensures "https" + "://" + (host + "" + (path + "")) == "https://" + host + path
  {
    assert host + "" == host && path + "" == path;
    assert "https" + "://" == "https://";
  }

  lemma AgainIsClear(u: Unicode, p: Pieces)
    requires u.Valid() && p.Valid(u)
    ensures NoneRefused(u, Pieces("https", Lower(p.host), "", p.path, "").Url())
  {
    var host := Lower(p.host);
    NothingAfter(host, p.path);
    PathIsClear(u, p);
    HostIsClear(u, host);
    ClearJoins(u, "https://", host);
    ClearJoins(u, "https://" + host, p.path);
  }

  lemma HostIsClear(u: Unicode, host: string)
    requires u.Valid() && ValidHost(host)
    ensures NoneRefused(u, host)
  {
    forall k | 0 <= k < |host| ensures !Refused(u, host[k]) {
      HostCharsOnly(host, host[k]);
    }
  }

  lemma ClearJoins(u: Unicode, a: string, b: string)
    requires NoneRefused(u, a) && NoneRefused(u, b)
    ensures NoneRefused(u, a + b)
  {
  }

  lemma PathIsClear(u: Unicode, p: Pieces)
    requires NoneRefused(u, p.Url())
    ensures NoneRefused(u, p.path)
  {
    var before := p.scheme + "://" + (p.host + p.port);
    assert p.Url() == before + p.path + p.tail;
    assert forall k :: 0 <= k < |p.path| ==> p.path[k] == p.Url()[|before| + k];
  }
}

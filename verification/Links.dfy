/** Which links may be opened, and how a candidate found in text is trimmed. */
module LinkRules {
  import opened Letters
  import opened Prelude
  import opened Text
  import opened UrlSpans
  import opened WebUrls

  const MAX_URL_LEN := 2048
  const BLOCKED_SCHEMES := [
    "javascript", "data", "vbscript", "file", "blob", "about", "tauri", "ipc", "asset", "ohwidget", "filesystem",
    "chrome", "chrome-extension", "view-source", "ws", "wss", "ftp", "openhuman"
  ]
  const IMAGE_EXTENSIONS := [
    "jpg", "jpeg", "png", "gif", "webp", "avif", "svg", "bmp", "ico", "heic", "heif", "tif", "tiff"
  ]

  datatype LinkClass = Web | Image | Handoff | Blocked

  datatype LinkKind = External | HandedOff

  function AfterLast(s: string, c: char): Option<string> {
    if s == "" then None
    else if s[|s| - 1] == c then Some("")
    else match AfterLast(s[..|s| - 1], c)
      case None => None
      case Some(rest) => Some(rest + [s[|s| - 1]])
  }

  predicate ImagePath(path: string) {
    var lower := Lower(path);
    Occurs(lower, "/image/upload/")
    || match AfterLast(lower, '.')
       case None => false
       case Some(ext) => '/' !in ext && ext in IMAGE_EXTENSIONS
  }

  /** A path leads to an image when it passes through an image upload, or ends in an image extension. */
  lemma ImagesExactly(path: string)
    ensures ImagePath(path) <==>
      || (exists before, after :: Lower(path) == before + "/image/upload/" + after)
      || (exists before, ext :: Lower(path) == before + "." + ext && ext in IMAGE_EXTENSIONS)
  {
    var lower := Lower(path);
    OccursBetween(lower, "/image/upload/");
    LastIsCut(lower, '.');
    ExtensionsArePlain();
    if before, ext :| lower == before + "." + ext && ext in IMAGE_EXTENSIONS {
      LastIsHere(before, ext, '.');
    }
  }

  lemma ExtensionsArePlain()
    ensures forall ext :: ext in IMAGE_EXTENSIONS ==> '.' !in ext && '/' !in ext
  {
  }

  lemma OccursBetween(t: string, s: string)
    ensures Occurs(t, s) <==> exists before, after :: t == before + s + after
  {
    if Occurs(t, s) {
      var i :| 0 <= i <= |t| && At(t, i, s);
      assert t == t[..i] + s + t[i + |s|..];
    }
    if before, after :| t == before + s + after {
      assert t[|before|..|before| + |s|] == s;
      assert At(t, |before|, s);
    }
  }

  lemma {:induction false} LastIsCut(s: string, c: char)
    ensures match AfterLast(s, c)
      case None => c !in s
      case Some(rest) => c !in rest && exists before :: s == before + [c] + rest
  {
    if s != "" {
      var front, last := s[..|s| - 1], s[|s| - 1];
      assert s == front + [last];
      if last == c {
        assert s == front + [c] + "";
      } else {
        LastIsCut(front, c);
        if AfterLast(front, c).Some? {
          var before :| front == before + [c] + AfterLast(front, c).value;
          assert s == before + [c] + (AfterLast(front, c).value + [last]);
        }
      }
    }
  }

  lemma {:induction false} LastIsHere(before: string, rest: string, c: char)
    requires c !in rest
    ensures AfterLast(before + [c] + rest, c) == Some(rest)
    decreases |rest|
  {
    var s := before + [c] + rest;
    if rest == "" {
      assert s == before + [c];
    } else {
      assert s[..|s| - 1] == before + [c] + rest[..|rest| - 1];
      LastIsHere(before, rest[..|rest| - 1], c);
      assert rest == rest[..|rest| - 1] + [rest[|rest| - 1]];
    }
  }

  predicate ValidScheme(scheme: string) {
    scheme != "" && IsAlpha(scheme[0]) && forall k :: 0 <= k < |scheme| ==> SchemeChar(scheme[k])
  }

  function ClassifyLink(u: Unicode, url: string): LinkClass {
    match SplitOnce(url, ':')
    case None => Blocked
    case Some(parts) =>
      var scheme := Lower(parts.0);
      if !ValidScheme(scheme) || scheme in BLOCKED_SCHEMES || Trim(u.space, parts.1) == ""
         || (exists k :: 0 <= k < |url| && u.control(url[k])) || Bytes(url) > MAX_URL_LEN then Blocked
      else if scheme == "http" || scheme == "https" then
        match SplitUrl(u, url)
        case None => Blocked
        case Some(web) => if ImagePath(web.path) then Image else Web
      else Handoff
  }

  function KindOf(link: LinkClass): Option<LinkKind> {
    match link
    case Web => Some(External)
    case Handoff => Some(HandedOff)
    case Image => None
    case Blocked => None
  }

  function LinkKindOf(u: Unicode, url: string): Option<LinkKind> {
    KindOf(ClassifyLink(u, url))
  }

  /** A blocked scheme opens nothing, in any letter case. */
  lemma BlockedInAnyCase(u: Unicode, scheme: string, rest: string)
    requires Lower(scheme) in BLOCKED_SCHEMES
    ensures LinkKindOf(u, scheme + ":" + rest).None?
  {
    var url := scheme + ":" + rest;
    assert url[|scheme|] == ':';
    SplitsAtFirst(url, ':');
    if ':' in scheme {
      var k :| 0 <= k < |scheme| && scheme[k] == ':';
      assert Lower(scheme)[k] == ':';
      NoColonInBlocked(Lower(scheme));
    } else {
      SplitOnceHere(scheme, rest, ':');
    }
  }

  lemma NoColonInBlocked(scheme: string)
    requires scheme in BLOCKED_SCHEMES
    ensures ':' !in scheme
  {
  }

  // What is asked of a link besides its scheme's own rules.
  predicate WellFormed(u: Unicode, url: string, scheme: string, rest: string) {
    && url == scheme + ":" + rest && ':' !in scheme
    && ValidScheme(Lower(scheme)) && Lower(scheme) !in BLOCKED_SCHEMES && Trim(u.space, rest) != ""
    && (forall c :: c in url ==> !u.control(c)) && Bytes(url) <= MAX_URL_LEN
  }

  // A page of an accepted web URL, not an image.
  ghost predicate IsPage(u: Unicode, url: string) {
    exists p: Pieces :: p.Valid(u) && p.Url() == url && !ImagePath(p.path)
  }

  lemma PagesAreWeb(u: Unicode, url: string)
    ensures IsPage(u, url) <==> SplitUrl(u, url).Some? && !ImagePath(SplitUrl(u, url).value.path)
  {
    if SplitUrl(u, url).Some? {
      var p := AcceptedIsMadeOfPieces(u, url);
    }
    if p: Pieces :| p.Valid(u) && p.Url() == url && !ImagePath(p.path) {
      PiecesAreAccepted(u, p);
    }
  }

  /** Which links open, and how. */
  lemma OpensExactly(u: Unicode, url: string, scheme: string, rest: string)
    requires url == scheme + ":" + rest && ':' !in scheme
    ensures LinkKindOf(u, url) == Some(External)
      <==> WellFormed(u, url, scheme, rest) && IsHttp(scheme) && IsPage(u, url)
    ensures LinkKindOf(u, url) == Some(HandedOff) <==> WellFormed(u, url, scheme, rest) && !IsHttp(scheme)
  {
    SplitOnceHere(scheme, rest, ':');
    assert scheme + [':'] + rest == url;
    PagesAreWeb(u, url);
    NoControls(u, url);
  }

  lemma NoControls(u: Unicode, url: string)
    ensures (forall c :: c in url ==> !u.control(c)) <==> !exists k :: 0 <= k < |url| && u.control(url[k])
  {
    if exists k :: 0 <= k < |url| && u.control(url[k]) {
      var k :| 0 <= k < |url| && u.control(url[k]);
      assert url[k] in url;
    }
  }

  lemma {:induction false} SchemesWeighTheSame(scheme: string, other: string)
    requires Lower(scheme) == Lower(other)
    ensures Bytes(scheme) == Bytes(other)
    decreases |scheme|
  {
    assert |Lower(scheme)| == |scheme| && |Lower(other)| == |other|;
    if scheme != [] {
      assert Lower(scheme)[0] == LowerChar(scheme[0]) && Lower(other)[0] == LowerChar(other[0]);
      assert Lower(scheme[1..]) == Lower(scheme)[1..] && Lower(other[1..]) == Lower(other)[1..];
      SchemesWeighTheSame(scheme[1..], other[1..]);
    }
  }

  lemma SchemeCharIsClear(u: Unicode, scheme: string, c: char)
    requires u.Valid() && ValidScheme(Lower(scheme)) && c in scheme
    ensures !u.control(c) && !Refused(u, c) && c != ':'
  {
    var k :| 0 <= k < |scheme| && scheme[k] == c;
    assert SchemeChar(Lower(scheme)[k]);
  }

  lemma WellFormedInAnyCase(u: Unicode, scheme: string, other: string, rest: string)
    requires u.Valid() && Lower(scheme) == Lower(other)
    requires WellFormed(u, scheme + ":" + rest, scheme, rest)
    ensures WellFormed(u, other + ":" + rest, other, rest)
  {
    SchemesWeighTheSame(scheme, other);
    BytesAdd(scheme, ":" + rest);
    BytesAdd(other, ":" + rest);
    assert scheme + ":" + rest == scheme + (":" + rest) && other + ":" + rest == other + (":" + rest);
    forall c | c in other ensures !u.control(c) && c != ':' {
      SchemeCharIsClear(u, other, c);
    }
    forall c | c in ":" + rest ensures !u.control(c) {
      assert c in scheme + (":" + rest);
    }
  }

  lemma ClearInAnyCase(u: Unicode, scheme: string, other: string, rest: string)
    requires u.Valid() && Lower(scheme) == Lower(other) && ValidScheme(Lower(scheme))
    requires NoneRefused(u, scheme + ":" + rest)
    ensures NoneRefused(u, other + ":" + rest)
  {
    assert |Lower(scheme)| == |scheme| && |Lower(other)| == |other|;
    forall k | 0 <= k < |other + ":" + rest| ensures !Refused(u, (other + ":" + rest)[k]) {
      if k < |other| {
        SchemeCharIsClear(u, other, other[k]);
      } else {
        assert (other + ":" + rest)[k] == (scheme + ":" + rest)[k];
      }
    }
  }

  // A text splits at its first colon in one way.
  lemma SameScheme(scheme: string, rest: string, p: Pieces)
    requires ':' !in scheme && IsHttp(p.scheme) && p.Url() == scheme + ":" + rest
    ensures p.scheme == scheme && rest == "//" + (p.host + p.port + (p.path + p.tail))
  {
    var after := p.host + p.port + (p.path + p.tail);
    if ':' in p.scheme {
      SchemeChars(p.scheme, ':');
    }
    SplitOnceHere(scheme, rest, ':');
    SplitOnceHere(p.scheme, "//" + after, ':');
    assert p.scheme + [':'] + ("//" + after) == p.Url();
    assert scheme + [':'] + rest == p.Url();
  }

  lemma PageInAnyCase(u: Unicode, scheme: string, other: string, rest: string)
    requires u.Valid() && Lower(scheme) == Lower(other) && ValidScheme(Lower(scheme)) && ':' !in scheme
    requires IsPage(u, scheme + ":" + rest)
    ensures IsPage(u, other + ":" + rest)
  {
    var p: Pieces :| p.Valid(u) && p.Url() == scheme + ":" + rest && !ImagePath(p.path);
    SameScheme(scheme, rest, p);
    var q := p.(scheme := other);
    assert q.Url() == other + ":" + rest;
    ClearInAnyCase(u, scheme, other, rest);
  }

  /** The letter case of a scheme does not matter to a link. */
  lemma OpensInAnyCase(u: Unicode, scheme: string, other: string, rest: string)
    requires u.Valid() && Lower(scheme) == Lower(other) && ':' !in scheme && ':' !in other
    ensures LinkKindOf(u, scheme + ":" + rest) == LinkKindOf(u, other + ":" + rest)
  {
    OpensExactly(u, scheme + ":" + rest, scheme, rest);
    OpensExactly(u, other + ":" + rest, other, rest);
    if WellFormed(u, scheme + ":" + rest, scheme, rest) {
      WellFormedInAnyCase(u, scheme, other, rest);
    }
    if WellFormed(u, other + ":" + rest, other, rest) {
      WellFormedInAnyCase(u, other, scheme, rest);
      if IsPage(u, scheme + ":" + rest) {
        PageInAnyCase(u, scheme, other, rest);
      }
      if IsPage(u, other + ":" + rest) {
        PageInAnyCase(u, other, scheme, rest);
      }
    }
  }

  /** Without a scheme nothing opens. */
  lemma NoSchemeOpensNothing(u: Unicode, url: string)
    requires ':' !in url
    ensures LinkKindOf(u, url).None?
  {
    SplitsAtFirst(url, ':');
  }

  // ----- trimming -----

  function Count(s: string, c: char): nat {
    if s == "" then 0 else Count(s[..|s| - 1], c) + if s[|s| - 1] == c then 1 else 0
  }

  // The last character is punctuation that ends a sentence, or a closing parenthesis without its opening one.
  predicate EndsLoosely(s: string) {
    s != "" && (s[|s| - 1] in ".,;:!?*" || (s[|s| - 1] == ')' && Count(s, '(') < Count(s, ')')))
  }

  /** The longest start of the text that does not end loosely. */
  function TrimTrailing(url: string): (kept: string)
    ensures kept <= url && !EndsLoosely(kept)
    ensures forall n :: |kept| < n <= |url| ==> EndsLoosely(url[..n])
  {
    if EndsLoosely(url) then
      var front := url[..|url| - 1];
      var kept := TrimTrailing(front);
      assert forall n :: 0 <= n < |url| ==> url[..n] == front[..n];
      assert url[..|url|] == url;
      kept
    else url
  }

  /** Nothing else is both a start that does not end loosely and longer than all the others. */
  lemma TrimmedIsLongest(url: string, n: nat)
    requires n <= |url| && !EndsLoosely(url[..n])
    ensures n <= |TrimTrailing(url)| && TrimTrailing(TrimTrailing(url)) == TrimTrailing(url)
  {
  }

  method TrimLoop(url: string) returns (kept: string)
    ensures kept == TrimTrailing(url)
  {
    var end := |url|;
    assert url[..end] == url;
    while true
      invariant 0 <= end <= |url| && TrimTrailing(url[..end]) == TrimTrailing(url)
      decreases end
    {
      var trimmed := url[..end];
      if !EndsLoosely(trimmed) {
        return trimmed;
      }
      assert trimmed[..end - 1] == url[..end - 1];
      end := end - 1;
    }
  }
}

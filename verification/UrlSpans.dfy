/** Finding the URLs in free text. */
module UrlSpans {
  import opened LeftmostScan
  import opened Letters
  import opened Prelude
  import opened Text

  const MAX_SCHEME_LEN := 32
  const URL_TERMINATORS := "\"'<>`{}|\\^[]"

  predicate SchemeChar(c: char) {
    IsAlpha(c) || IsDigit(c) || c == '+' || c == '.' || c == '-'
  }

  predicate BodyChar(u: Unicode, c: char) {
    !u.space(c) && c !in URL_TERMINATORS
  }

  predicate IsWord(u: Unicode, c: char) {
    u.alphanumeric(c) || c == '_'
  }

  // The scheme characters from `at` on, counted no further than `cap`.
  function SchemeRun(h: string, at: nat, cap: nat): (n: nat)
    requires at <= |h|
    ensures n <= cap && at + n <= |h| && forall k :: at <= k < at + n ==> SchemeChar(h[k])
    ensures n < cap && at + n < |h| ==> !SchemeChar(h[at + n])
    decreases |h| - at
  {
    if cap == 0 || at == |h| || !SchemeChar(h[at]) then 0 else 1 + SchemeRun(h, at + 1, cap - 1)
  }

  function BodyRun(u: Unicode, h: string, at: nat): (n: nat)
    requires at <= |h|
    ensures at + n <= |h| && forall k :: at <= k < at + n ==> BodyChar(u, h[k])
    ensures at + n < |h| ==> !BodyChar(u, h[at + n])
    decreases |h| - at
  {
    if at == |h| || !BodyChar(u, h[at]) then 0 else 1 + BodyRun(u, h, at + 1)
  }

  // The length of the URL that starts at `at`, if one does.
  function UrlLen(u: Unicode, h: string, at: nat): Option<nat>
    requires at <= |h|
  {
    var scheme := SchemeRun(h, at, MAX_SCHEME_LEN + 1);
    if !(2 <= scheme <= MAX_SCHEME_LEN) || !IsAlpha(h[at]) || !At(h, at + scheme, "://") then None
    else WithBody(u, h, at, scheme + |"://"|)
  }

  // The length with a body after the first `start` characters, which must not be empty.
  function WithBody(u: Unicode, h: string, at: nat, start: nat): Option<nat>
    requires at + start <= |h|
  {
    var body := BodyRun(u, h, at + start);
    if body > 0 then Some(start + body) else None
  }

  predicate AllScheme(h: string, from: nat, to: nat)
    requires from <= to <= |h|
  {
    forall k :: from <= k < to ==> SchemeChar(h[k])
  }

  predicate AllBody(u: Unicode, h: string, from: nat, to: nat)
    requires from <= to <= |h|
  {
    forall k :: from <= k < to ==> BodyChar(u, h[k])
  }

  /**
  A URL of `len` characters whose scheme has `scheme`: a letter and at least one more scheme
  character, `://`, and the longest body there is, which is not empty.
  */
  predicate IsUrlWith(u: Unicode, h: string, at: nat, scheme: nat, len: nat) {
    && 2 <= scheme <= MAX_SCHEME_LEN && scheme + 3 < len && at + len <= |h|
    && AllScheme(h, at, at + scheme) && IsAlpha(h[at]) && At(h, at + scheme, "://")
    && AllBody(u, h, at + scheme + 3, at + len)
    && (at + len == |h| || !BodyChar(u, h[at + len]))
  }

  predicate IsUrl(u: Unicode, h: string, at: nat, len: nat) {
    exists scheme: nat :: scheme <= MAX_SCHEME_LEN && IsUrlWith(u, h, at, scheme, len)
  }

  lemma {:induction false} SchemeRunIs(h: string, at: nat, cap: nat, n: nat)
    requires n <= cap && at + n <= |h| && AllScheme(h, at, at + n)
    requires n < cap && at + n < |h| ==> !SchemeChar(h[at + n])
    ensures SchemeRun(h, at, cap) == n
    decreases n
  {
    if n > 0 { SchemeRunIs(h, at + 1, cap - 1, n - 1); }
  }

  lemma {:induction false} BodyRunIs(u: Unicode, h: string, at: nat, n: nat)
    requires at + n <= |h| && AllBody(u, h, at, at + n) && (at + n < |h| ==> !BodyChar(u, h[at + n]))
    ensures BodyRun(u, h, at) == n
    decreases n
  {
    if n > 0 { BodyRunIs(u, h, at + 1, n - 1); }
  }

  lemma ColonEndsScheme(h: string, at: nat)
    requires At(h, at, "://")
    ensures at < |h| && !SchemeChar(h[at])
  {
    assert h[at] == h[at..at + 3][0];
  }

  lemma GrammarIsMeasured(u: Unicode, h: string, at: nat, scheme: nat, len: nat)
    requires IsUrlWith(u, h, at, scheme, len)
    ensures UrlLen(u, h, at) == Some(len)
  {
    SchemeIsMeasured(h, at, scheme);
    BodyIsMeasured(u, h, at, scheme + 3, len);
  }

  lemma BodyIsMeasured(u: Unicode, h: string, at: nat, start: nat, len: nat)
    requires start < len && at + len <= |h| && AllBody(u, h, at + start, at + len)
    requires at + len == |h| || !BodyChar(u, h[at + len])
    ensures WithBody(u, h, at, start) == Some(len)
  {
    BodyRunIs(u, h, at + start, len - start);
  }

  lemma SchemeIsMeasured(h: string, at: nat, scheme: nat)
    requires scheme <= MAX_SCHEME_LEN && at + scheme <= |h| && AllScheme(h, at, at + scheme)
      && At(h, at + scheme, "://")
    ensures SchemeRun(h, at, MAX_SCHEME_LEN + 1) == scheme
  {
    ColonEndsScheme(h, at + scheme);
    SchemeRunIs(h, at, MAX_SCHEME_LEN + 1, scheme);
  }

  /** The scanner's measure is the grammar's. */
  lemma UrlLenExactly(u: Unicode, h: string, at: nat, len: nat)
    requires at <= |h|
    ensures UrlLen(u, h, at) == Some(len) <==> IsUrl(u, h, at, len)
  {
    if UrlLen(u, h, at) == Some(len) {
      assert IsUrlWith(u, h, at, SchemeRun(h, at, MAX_SCHEME_LEN + 1), len);
    }
    if IsUrl(u, h, at, len) {
      var scheme: nat :| scheme <= MAX_SCHEME_LEN && IsUrlWith(u, h, at, scheme, len);
      GrammarIsMeasured(u, h, at, scheme, len);
    }
  }

  // ----- the spans of a text -----

  predicate Boundary(u: Unicode, h: string, at: nat)
    requires at <= |h|
  {
    at == 0 || !IsWord(u, h[at - 1])
  }

  // The length of the URL a scan finds at `at`, which starts at a word boundary; or zero.
  function Found(u: Unicode, h: string, at: nat): (n: nat)
    requires at < |h|
    ensures at + n <= |h|
  {
    if Boundary(u, h, at) && UrlLen(u, h, at).Some? then UrlLen(u, h, at).value else 0
  }

  function UrlHits(u: Unicode, h: string): (hits: Hits)
    ensures |hits| == |h| && Fitting(hits)
  {
    seq(|h|, at requires 0 <= at < |h| => Found(u, h, at))
  }

  function Spans(u: Unicode, h: string): seq<Span> {
    Scan(UrlHits(u, h), 0)
  }

  /**
  URLs in order, none overlapping, each starting at a word boundary and as long as it can be,
  such that every other URL that starts at a word boundary starts inside one of them.
  */
  ghost predicate AreSpans(u: Unicode, h: string, spans: seq<Span>) {
    && (forall k, m :: 0 <= k < m < |spans| ==> spans[k].start + spans[k].length <= spans[m].start)
    && (forall k :: 0 <= k < |spans| ==> IsFreeUrl(u, h, spans[k]))
    && (forall s: Span :: IsFreeUrl(u, h, s) ==> Covered(spans, s.start))
  }

  predicate IsFreeUrl(u: Unicode, h: string, s: Span) {
    s.start < |h| && Boundary(u, h, s.start) && IsUrl(u, h, s.start, s.length)
  }

  lemma FreeUrlsAreHits(u: Unicode, h: string, s: Span)
    ensures IsFreeUrl(u, h, s) <==> IsHit(UrlHits(u, h), s)
  {
    if s.start < |h| {
      UrlLenExactly(u, h, s.start, s.length);
      assert UrlHits(u, h)[s.start] == Found(u, h, s.start);
    }
  }

  lemma SpansAreLeftmost(u: Unicode, h: string, spans: seq<Span>)
    ensures AreSpans(u, h, spans) <==> AreLeftmost(UrlHits(u, h), 0, spans)
  {
    var hits := UrlHits(u, h);
    forall s: Span
      ensures IsFreeUrl(u, h, s) <==> IsHit(hits, s)
    {
      FreeUrlsAreHits(u, h, s);
    }
    if AreSpans(u, h, spans) {
      forall p: nat | p < |hits| && hits[p] > 0
        ensures Covered(spans, p)
      {
        assert IsHit(hits, Span(p, hits[p]));
        assert IsFreeUrl(u, h, Span(p, hits[p]));
      }
    }
    if AreLeftmost(hits, 0, spans) {
      forall s: Span | IsFreeUrl(u, h, s)
        ensures Covered(spans, s.start)
      {
        assert hits[s.start] > 0;
      }
    }
  }

  /** The spans the scan finds are the one list of this kind. */
  lemma SpansExactly(u: Unicode, h: string, spans: seq<Span>)
    ensures AreSpans(u, h, spans) <==> spans == Spans(u, h)
  {
    SpansAreLeftmost(u, h, spans);
    ScanIsLeftmost(UrlHits(u, h), 0);
    if AreSpans(u, h, spans) {
      LeftmostIsScan(UrlHits(u, h), 0, spans);
    }
  }

  // ----- the loops, and how many characters they read -----

  /** A text that counts the characters read from it: the loops below read it in no other way. */
  class CountedText {
    const text: string
    ghost var count: nat

    constructor (text: string)
      ensures this.text == text && count == 0
    {
      this.text := text;
      count := 0;
    }

    method Read(at: nat) returns (c: char)
      requires at < |text|
      modifies this
      ensures c == text[at] && count == old(count) + 1
    {
      count := count + 1;
      c := text[at];
    }
  }

  // Scheme characters are counted up to one more than a scheme may have, so that text with
  // a boundary at every other character is not read over and over.
  method SchemeLength(h: CountedText, at: nat) returns (n: nat)
    requires at <= |h.text|
    modifies h
    ensures n == SchemeRun(h.text, at, MAX_SCHEME_LEN + 1)
    ensures h.count <= old(h.count) + MAX_SCHEME_LEN + 1
  {
    n := 0;
    while n < MAX_SCHEME_LEN + 1 && at + n < |h.text|
      invariant n <= MAX_SCHEME_LEN + 1 && at + n <= |h.text| && AllScheme(h.text, at, at + n)
      invariant h.count == old(h.count) + n
      decreases |h.text| - n
    {
      var c := h.Read(at + n);
      if !SchemeChar(c) {
        SchemeRunIs(h.text, at, MAX_SCHEME_LEN + 1, n);
        return;
      }
      n := n + 1;
    }
    SchemeRunIs(h.text, at, MAX_SCHEME_LEN + 1, n);
  }

  method ColonFollows(h: CountedText, at: nat) returns (yes: bool)
    modifies h
    ensures yes == At(h.text, at, "://")
    ensures h.count <= old(h.count) + 3
  {
    if at + 3 > |h.text| {
      return false;
    }
    var c := h.Read(at);
    if c != ':' {
      assert h.text[at..at + 3][0] == c;
      return false;
    }
    c := h.Read(at + 1);
    if c != '/' {
      assert h.text[at..at + 3][1] == c;
      return false;
    }
    c := h.Read(at + 2);
    assert h.text[at..at + 3] == [':', '/', c];
    assert [':', '/', c][2] == c;
    yes := c == '/';
  }

  method BodyLength(u: Unicode, h: CountedText, at: nat) returns (n: nat)
    requires at <= |h.text|
    modifies h
    ensures n == BodyRun(u, h.text, at)
    ensures h.count <= old(h.count) + n + 1
  {
    n := 0;
    while at + n < |h.text|
      invariant at + n <= |h.text| && AllBody(u, h.text, at, at + n)
      invariant h.count == old(h.count) + n
    {
      var c := h.Read(at + n);
      if !BodyChar(u, c) {
        BodyRunIs(u, h.text, at, n);
        return;
      }
      n := n + 1;
    }
    BodyRunIs(u, h.text, at, n);
  }

  // What one place costs beyond the URL found there.
  const PLACE_READS := MAX_SCHEME_LEN + 8

  method UrlLength(u: Unicode, h: CountedText, at: nat) returns (len: Option<nat>)
    requires at < |h.text|
    modifies h
    ensures len == UrlLen(u, h.text, at)
    ensures h.count <= old(h.count) + PLACE_READS - 2 + len.GetOr(0)
  {
    var scheme := SchemeLength(h, at);
    if !(2 <= scheme <= MAX_SCHEME_LEN) {
      return None;
    }
    var first := h.Read(at);
    if !IsAlpha(first) {
      return None;
    }
    var colon := ColonFollows(h, at + scheme);
    if !colon {
      return None;
    }
    var body := BodyLength(u, h, at + scheme + 3);
    len := if body > 0 then Some(scheme + 3 + body) else None;
  }

  ghost predicate AreHits(u: Unicode, h: string, hits: Hits) {
    |hits| == |h| && forall k {:trigger Found(u, h, k)} :: 0 <= k < |h| ==> hits[k] == Found(u, h, k)
  }

  // The length of the URL found at `at`, which starts at a word boundary; or zero.
  method LookFor(u: Unicode, h: CountedText, at: nat, ghost hits: Hits) returns (n: nat)
    requires at < |h.text| && AreHits(u, h.text, hits)
    modifies h
    ensures n == hits[at] && (n > 0 ==> n >= 6)
    ensures h.count <= old(h.count) + PLACE_READS - 1 + n
  {
    assert hits[at] == Found(u, h.text, at);
    if at > 0 {
      var before := h.Read(at - 1);
      if IsWord(u, before) {
        return 0;
      }
    }
    var len := UrlLength(u, h, at);
    n := len.GetOr(0);
  }

  // Every read is paid for by a character the scan moves past, at most PLACE_READS by each.
  method ScanText(u: Unicode, h: CountedText, ghost hits: Hits) returns (spans: seq<Span>)
    requires Fitting(hits) && AreHits(u, h.text, hits)
    modifies h
    ensures spans == Scan(hits, 0)
    ensures h.count <= old(h.count) + PLACE_READS * |h.text|
  {
    spans := [];
    var at: nat := 0;
    while at < |h.text|
      invariant at <= |h.text| && h.count <= old(h.count) + PLACE_READS * at
      invariant spans + Scan(hits, at) == Scan(hits, 0)
    {
      var next := h.Read(at);
      var n := LookFor(u, h, at, hits);
      Onward(spans, hits, at);
      if n > 0 {
        spans := spans + [Span(at, n)];
        at := at + n;
      } else {
        at := at + 1;
      }
    }
  }

  lemma Onward(spans: seq<Span>, hits: Hits, at: nat)
    requires Fitting(hits) && at < |hits|
    ensures spans + Scan(hits, at)
      == if hits[at] > 0 then spans + [Span(at, hits[at])] + Scan(hits, at + hits[at]) else spans + Scan(hits, at + 1)
  {
  }

  /** Every span, from a number of reads that is linear in the text. */
  method UrlSpans(u: Unicode, text: string) returns (spans: seq<Span>, ghost count: nat)
    ensures spans == Spans(u, text)
    ensures count <= PLACE_READS * |text|
  {
    var h := new CountedText(text);
    spans := ScanText(u, h, UrlHits(u, text));
    count := h.count;
  }
}

/** The strings of a JSON value, as far as they are looked at. */
module JsonStrings {
  import opened JsonValues

  const MAX_WALK_DEPTH := 8
  const MAX_WALK_STRINGS := 512

  // The strings no deeper than the walk goes, in order.
  function Strings(value: Json, depth: nat): seq<string>
    decreases value
  {
    if depth > MAX_WALK_DEPTH then []
    else match value
      case String(text) => [text]
      case Array(items) => StringsOfItems(items, depth + 1)
      case Object(entries) => StringsOfEntries(entries, depth + 1)
      case _ => []
  }

  function StringsOfItems(items: seq<Json>, depth: nat): seq<string>
    decreases items
  {
    if items == [] then []
    else
      var front, last := items[..|items| - 1], items[|items| - 1];
      StringsOfItems(front, depth) + Strings(last, depth)
  }

  function StringsOfEntries(entries: seq<Entry>, depth: nat): seq<string>
    decreases entries
  {
    if entries == [] then []
    else
      var front, last := entries[..|entries| - 1], entries[|entries| - 1];
      StringsOfEntries(front, depth) + Strings(last.value, depth)
  }

  // What is collected, with as many more as there is room for.
  function Capped(collected: seq<string>, more: seq<string>): seq<string> {
    if |collected| >= MAX_WALK_STRINGS then collected
    else if |collected| + |more| <= MAX_WALK_STRINGS then collected + more
    else collected + more[..MAX_WALK_STRINGS - |collected|]
  }

  lemma FrontOfBoth(a: seq<string>, b: seq<string>, n: nat)
    requires n < |a| + |b|
    ensures (a + b)[..n] == if |a| <= n then a + b[..n - |a|] else a[..n]
  {
  }

  lemma CappedTwice(collected: seq<string>, a: seq<string>, b: seq<string>)
    ensures Capped(Capped(collected, a), b) == Capped(collected, a + b)
  {
    var room := MAX_WALK_STRINGS - |collected|;
    if 0 < room {
      if room < |a| + |b| {
        FrontOfBoth(a, b, room);
      }
      if |a| <= room {
        assert collected + a + b == collected + (a + b);
        assert room < |a| + |b| ==> collected + a + b[..room - |a|] == collected + (a + b[..room - |a|]);
      }
    }
  }

  lemma MoreItems(collected: seq<string>, items: seq<Json>, k: nat, depth: nat)
    requires k < |items|
    ensures Capped(Capped(collected, StringsOfItems(items[..k], depth)), Strings(items[k], depth))
      == Capped(collected, StringsOfItems(items[..k + 1], depth))
  {
    CappedTwice(collected, StringsOfItems(items[..k], depth), Strings(items[k], depth));
    assert items[..k + 1][..k] == items[..k];
  }

  lemma MoreEntries(collected: seq<string>, entries: seq<Entry>, k: nat, depth: nat)
    requires k < |entries|
    ensures Capped(Capped(collected, StringsOfEntries(entries[..k], depth)), Strings(entries[k].value, depth))
      == Capped(collected, StringsOfEntries(entries[..k + 1], depth))
  {
    CappedTwice(collected, StringsOfEntries(entries[..k], depth), Strings(entries[k].value, depth));
    assert entries[..k + 1][..k] == entries[..k];
  }

  /** Walking a value adds the first of its strings in order, up to the cap. */
  method CollectStrings(value: Json, depth: nat, collected: seq<string>) returns (more: seq<string>)
    ensures more == Capped(collected, Strings(value, depth))
    decreases value
  {
    more := collected;
    if depth > MAX_WALK_DEPTH || |collected| >= MAX_WALK_STRINGS {
      return;
    }
    match value {
      case String(text) =>
        more := more + [text];
      case Array(items) =>
        for k := 0 to |items|
          invariant more == Capped(collected, StringsOfItems(items[..k], depth + 1))
        {
          MoreItems(collected, items, k, depth + 1);
          more := CollectStrings(items[k], depth + 1, more);
        }
        assert items[..|items|] == items;
      case Object(entries) =>
        for k := 0 to |entries|
          invariant more == Capped(collected, StringsOfEntries(entries[..k], depth + 1))
        {
          MoreEntries(collected, entries, k, depth + 1);
          more := CollectStrings(entries[k].value, depth + 1, more);
        }
        assert entries[..|entries|] == entries;
      case _ =>
    }
  }
}

/** The links a tool result offers. */
module LinkExtraction {
  import opened JsonStrings
  import opened JsonValues
  import opened LeftmostScan
  import opened Letters
  import opened LinkRules
  import opened Prelude
  import opened Text
  import opened UrlSpans

  const MAX_LINKS := 5

  datatype UiLink = UiLink(url: string, kind: LinkKind)

  // ----- every candidate, in order -----

  predicate Inside(h: string, s: Span) {
    s.start + s.length <= |h|
  }

  predicate AllInside(h: string, spans: seq<Span>) {
    forall k :: 0 <= k < |spans| ==> Inside(h, spans[k])
  }

  function Slice(h: string, s: Span): string
    requires Inside(h, s)
  {
    h[s.start..s.start + s.length]
  }

  function CandidatesOf(h: string, spans: seq<Span>): seq<string>
    requires AllInside(h, spans)
  {
    if spans == [] then []
    else
      var last := spans[|spans| - 1];
      assert Inside(h, last);
      CandidatesOf(h, spans[..|spans| - 1]) + [TrimTrailing(Slice(h, last))]
  }

  lemma SpansAreInside(u: Unicode, h: string)
    ensures AllInside(h, Spans(u, h))
  {
    SpansExactly(u, h, Spans(u, h));
    forall k | 0 <= k < |Spans(u, h)|
      ensures Inside(h, Spans(u, h)[k])
    {
      assert IsFreeUrl(u, h, Spans(u, h)[k]);
    }
  }

  function Candidates(u: Unicode, h: string): seq<string> {
    SpansAreInside(u, h);
    CandidatesOf(h, Spans(u, h))
  }

  function AllCandidates(u: Unicode, texts: seq<string>): seq<string> {
    if texts == [] then [] else AllCandidates(u, texts[..|texts| - 1]) + Candidates(u, texts[|texts| - 1])
  }

  // ----- the links chosen among them -----

  function Actionable(u: Unicode, urls: seq<string>): seq<string> {
    if urls == [] then []
    else
      var front, last := urls[..|urls| - 1], urls[|urls| - 1];
      Actionable(u, front) + if LinkKindOf(u, last).Some? then [last] else []
  }

  function Distinct(urls: seq<string>): seq<string> {
    if urls == [] then []
    else
      var front, last := Distinct(urls[..|urls| - 1]), urls[|urls| - 1];
      if last in front then front else front + [last]
  }

  function LinksOf(u: Unicode, urls: seq<string>): seq<UiLink>
    requires forall url :: url in urls ==> LinkKindOf(u, url).Some?
  {
    seq(|urls|, k requires 0 <= k < |urls| => UiLink(urls[k], LinkKindOf(u, urls[k]).value))
  }

  function AtMost(urls: seq<string>, n: nat): seq<string> {
    if |urls| <= n then urls else urls[..n]
  }

  // The first distinct actionable URLs.
  function FirstLinks(u: Unicode, urls: seq<string>): seq<string> {
    AtMost(Distinct(Actionable(u, urls)), MAX_LINKS)
  }

  lemma {:induction false} ActionableOnly(u: Unicode, urls: seq<string>, url: string)
    ensures url in Actionable(u, urls) <==> url in urls && LinkKindOf(u, url).Some?
  {
    if urls != [] {
      var front, last := urls[..|urls| - 1], urls[|urls| - 1];
      ActionableOnly(u, front, url);
      assert urls == front + [last];
    }
  }

  /** Each URL once. */
  lemma {:induction false} DistinctKeepsEachOnce(urls: seq<string>)
    ensures forall i, j :: 0 <= i < j < |Distinct(urls)| ==> Distinct(urls)[i] != Distinct(urls)[j]
    ensures forall url :: url in Distinct(urls) <==> url in urls
  {
    if urls != [] {
      var front, last := urls[..|urls| - 1], urls[|urls| - 1];
      DistinctKeepsEachOnce(front);
      assert urls == front + [last];
    }
  }

  // One more candidate, when the list is not full.
  lemma OneMoreCandidate(u: Unicode, seen: seq<string>, url: string)
    requires |FirstLinks(u, seen)| < MAX_LINKS
    ensures FirstLinks(u, seen + [url]) == FirstLinks(u, seen)
      + if LinkKindOf(u, url).Some? && url !in FirstLinks(u, seen) then [url] else []
  {
    var before := Distinct(Actionable(u, seen));
    assert FirstLinks(u, seen) == before;
    MoreActionable(u, seen, url);
    if LinkKindOf(u, url).Some? {
      MoreDistinct(Actionable(u, seen), url);
    }
    assert before + [] == before;
  }

  lemma MoreActionable(u: Unicode, seen: seq<string>, url: string)
    ensures Actionable(u, seen + [url])
      == if LinkKindOf(u, url).Some? then Actionable(u, seen) + [url] else Actionable(u, seen)
  {
    assert (seen + [url])[..|seen|] == seen;
    assert Actionable(u, seen) + [] == Actionable(u, seen);
  }

  lemma MoreDistinct(urls: seq<string>, url: string)
    ensures Distinct(urls + [url]) == if url in Distinct(urls) then Distinct(urls) else Distinct(urls) + [url]
  {
    assert (urls + [url])[..|urls|] == urls;
  }

  /** Later candidates leave a full list as it is. */
  lemma {:induction false} FullStaysFull(u: Unicode, seen: seq<string>, more: seq<string>)
    requires |FirstLinks(u, seen)| == MAX_LINKS
    ensures FirstLinks(u, seen + more) == FirstLinks(u, seen)
    decreases |more|
  {
    if more == [] {
      assert seen + more == seen;
    } else {
      var front, last := more[..|more| - 1], more[|more| - 1];
      FullStaysFull(u, seen, front);
      var all := seen + more;
      assert all[..|all| - 1] == seen + front;
      DistinctGrows(u, seen + front, last);
      assert seen + front + [last] == all;
    }
  }

  lemma DistinctGrows(u: Unicode, seen: seq<string>, url: string)
    ensures Distinct(Actionable(u, seen)) <= Distinct(Actionable(u, seen + [url]))
  {
    MoreActionable(u, seen, url);
    if LinkKindOf(u, url).Some? {
      MoreDistinct(Actionable(u, seen), url);
    }
  }

  // ----- the loop -----

  function TextsOf(structured: Option<Json>, text: string): seq<string> {
    (match structured case None => [] case Some(value) => Capped([], Strings(value, 0))) + [text]
  }

  // The links a list of texts offers: structured content first, each once, five at most.
  function Links(u: Unicode, texts: seq<string>): seq<string> {
    FirstLinks(u, AllCandidates(u, texts))
  }

  /** One text's spans, one after the other, until the list is full. */
  method AddLinks(u: Unicode, h: string, urls: seq<string>, ghost seen: seq<string>)
    returns (more: seq<string>, full: bool)
    requires urls == FirstLinks(u, seen)
    ensures more == FirstLinks(u, seen + Candidates(u, h))
    ensures full ==> |more| == MAX_LINKS
  {
    var spans, _ := UrlSpans.UrlSpans(u, h);
    SpansAreInside(u, h);
    more := urls;
    assert seen + [] == seen;
    for k := 0 to |spans|
      invariant more == FirstLinks(u, seen + CandidatesOf(h, spans[..k]))
    {
      if |more| >= MAX_LINKS {
        EndsFull(u, h, spans, k, seen);
        return more, true;
      }
      var url := TrimLoop(Slice(h, spans[k]));
      OneMoreSpan(u, h, spans, k, seen);
      if LinkKindOf(u, url).Some? && url !in more {
        more := more + [url];
      }
    }
    assert spans[..|spans|] == spans;
    full := false;
  }

  lemma NextCandidate(h: string, spans: seq<Span>, k: nat)
    requires k < |spans| && AllInside(h, spans)
    ensures CandidatesOf(h, spans[..k + 1])
      == CandidatesOf(h, spans[..k]) + [TrimTrailing(Slice(h, spans[k]))]
  {
    assert spans[..k + 1][..k] == spans[..k];
  }

  lemma OneMoreSpan(u: Unicode, h: string, spans: seq<Span>, k: nat, seen: seq<string>)
    requires k < |spans| && AllInside(h, spans)
    requires |FirstLinks(u, seen + CandidatesOf(h, spans[..k]))| < MAX_LINKS
    ensures var (url, found) := (TrimTrailing(Slice(h, spans[k])), FirstLinks(u, seen + CandidatesOf(h, spans[..k])));
      FirstLinks(u, seen + CandidatesOf(h, spans[..k + 1]))
        == found + if LinkKindOf(u, url).Some? && url !in found then [url] else []
  {
    var before, url := CandidatesOf(h, spans[..k]), TrimTrailing(Slice(h, spans[k]));
    NextCandidate(h, spans, k);
    OneMoreCandidate(u, seen + before, url);
    assert seen + before + [url] == seen + (before + [url]);
  }

  lemma EndsFull(u: Unicode, h: string, spans: seq<Span>, k: nat, seen: seq<string>)
    requires spans == Spans(u, h) && k <= |spans| && AllInside(h, spans)
    requires |FirstLinks(u, seen + CandidatesOf(h, spans[..k]))| == MAX_LINKS
    ensures FirstLinks(u, seen + Candidates(u, h)) == FirstLinks(u, seen + CandidatesOf(h, spans[..k]))
    decreases |spans| - k
  {
    if k == |spans| {
      assert spans[..k] == spans;
    } else {
      NextCandidate(h, spans, k);
      var now, next := CandidatesOf(h, spans[..k]), CandidatesOf(h, spans[..k + 1]);
      var last := [next[|next| - 1]];
      FullStaysFull(u, seen + now, last);
      assert seen + now + last == seen + next;
      EndsFull(u, h, spans, k + 1, seen);
    }
  }

  method GatherTexts(structured: Option<Json>, text: string) returns (texts: seq<string>)
    ensures texts == TextsOf(structured, text)
  {
    texts := [];
    match structured {
      case None =>
      case Some(value) => texts := CollectStrings(value, 0, texts);
    }
    texts := texts + [text];
  }

  method ExtractLinks(u: Unicode, structured: Option<Json>, text: string) returns (out: seq<UiLink>)
    ensures var urls := Links(u, TextsOf(structured, text));
      && (forall url :: url in urls ==> LinkKindOf(u, url).Some?)
      && out == LinksOf(u, urls)
  {
    var texts := GatherTexts(structured, text);
    var urls := ChooseLinks(u, texts);
    LinksAreActionable(u, AllCandidates(u, texts));
    out := LinksOf(u, urls);
  }

  method ChooseLinks(u: Unicode, texts: seq<string>) returns (urls: seq<string>)
    ensures urls == Links(u, texts)
  {
    urls := [];
    for k := 0 to |texts|
      invariant urls == Links(u, texts[..k])
    {
      var full;
      assert texts[..k + 1][..k] == texts[..k];
      urls, full := AddLinks(u, texts[k], urls, AllCandidates(u, texts[..k]));
      if full {
        TextsEndFull(u, texts, k + 1);
        return;
      }
    }
    assert texts[..|texts|] == texts;
  }

  lemma TextsEndFull(u: Unicode, texts: seq<string>, k: nat)
    requires k <= |texts| && |Links(u, texts[..k])| == MAX_LINKS
    ensures Links(u, texts) == Links(u, texts[..k])
    decreases |texts| - k
  {
    if k == |texts| {
      assert texts[..k] == texts;
    } else {
      assert texts[..k + 1][..k] == texts[..k];
      FullStaysFull(u, AllCandidates(u, texts[..k]), Candidates(u, texts[k]));
      TextsEndFull(u, texts, k + 1);
    }
  }

  // ----- what is promised of the links -----

  lemma LinksAreActionable(u: Unicode, urls: seq<string>)
    ensures forall url :: url in FirstLinks(u, urls) ==> url in urls && LinkKindOf(u, url).Some?
  {
    DistinctKeepsEachOnce(Actionable(u, urls));
    forall url | url in FirstLinks(u, urls)
      ensures url in urls && LinkKindOf(u, url).Some?
    {
      assert url in Distinct(Actionable(u, urls));
      ActionableOnly(u, urls, url);
    }
  }

  lemma {:induction false} CandidatesComeFromTexts(u: Unicode, texts: seq<string>, url: string)
    returns (text: string, s: Span)
    requires url in AllCandidates(u, texts)
    ensures text in texts && IsFreeUrl(u, text, s) && Inside(text, s)
    ensures url == TrimTrailing(Slice(text, s))
  {
    var last := texts[|texts| - 1];
    if url in Candidates(u, last) {
      text := last;
      s := CandidateComesFromText(u, last, url);
    } else {
      text, s := CandidatesComeFromTexts(u, texts[..|texts| - 1], url);
    }
  }

  lemma CandidateComesFromText(u: Unicode, h: string, url: string) returns (s: Span)
    requires url in Candidates(u, h)
    ensures IsFreeUrl(u, h, s) && Inside(h, s) && url == TrimTrailing(Slice(h, s))
  {
    SpansAreInside(u, h);
    var k := CandidateHasSpan(h, Spans(u, h), url);
    SpansExactly(u, h, Spans(u, h));
    s := Spans(u, h)[k];
    assert IsFreeUrl(u, h, s);
  }

  lemma {:induction false} CandidateHasSpan(h: string, spans: seq<Span>, url: string) returns (k: nat)
    requires AllInside(h, spans)
    requires url in CandidatesOf(h, spans)
    ensures k < |spans| && Inside(h, spans[k]) && url == TrimTrailing(Slice(h, spans[k]))
  {
    var last := spans[|spans| - 1];
    assert Inside(h, last);
    if url == TrimTrailing(Slice(h, last)) {
      k := |spans| - 1;
    } else {
      k := CandidateHasSpan(h, spans[..|spans| - 1], url);
    }
  }

  /**
  Each link offered may be opened, ends firmly, and is the trimmed form of a URL that
  stands at a word boundary of one of the texts; none is offered twice, and at most five are.
  */
  lemma LinksAreSafe(u: Unicode, texts: seq<string>, k: nat) returns (text: string, s: Span)
    requires k < |Links(u, texts)|
    ensures |Links(u, texts)| <= MAX_LINKS
    ensures forall m :: 0 <= m < |Links(u, texts)| && m != k ==> Links(u, texts)[m] != Links(u, texts)[k]
    ensures var url := Links(u, texts)[k];
      && LinkKindOf(u, url).Some? && !EndsLoosely(url)
      && text in texts && IsFreeUrl(u, text, s) && Inside(text, s)
      && url <= Slice(text, s)
  {
    var urls := AllCandidates(u, texts);
    DistinctKeepsEachOnce(Actionable(u, urls));
    LinksAreActionable(u, urls);
    text, s := CandidatesComeFromTexts(u, texts, Links(u, texts)[k]);
  }

  /** A link that may be opened is left out only when five others are offered. */
  lemma NoLinkIsMissed(u: Unicode, texts: seq<string>, url: string)
    requires url in AllCandidates(u, texts) && LinkKindOf(u, url).Some?
    ensures url in Links(u, texts) || |Links(u, texts)| == MAX_LINKS
  {
    var urls := AllCandidates(u, texts);
    ActionableOnly(u, urls, url);
    DistinctKeepsEachOnce(Actionable(u, urls));
  }
}

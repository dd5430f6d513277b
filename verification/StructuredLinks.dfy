/** The order of the links offered, and the links found in structured content. */
module StructuredLinks {
  import opened JsonPaths
  import opened JsonStrings
  import opened JsonValues
  import opened Letters
  import opened LinkExtraction
  import opened LinkRules
  import opened Prelude

  // ----- the order -----

  // The distinct actionable URLs, all of them.
  function AllLinks(u: Unicode, urls: seq<string>): seq<string> {
    Distinct(Actionable(u, urls))
  }

  lemma OneMoreUrl(u: Unicode, urls: seq<string>)
    requires urls != []
    ensures var (front, last) := (AllLinks(u, urls[..|urls| - 1]), urls[|urls| - 1]);
      AllLinks(u, urls) == front + if LinkKindOf(u, last).Some? && last !in front then [last] else []
  {
    var front, last := urls[..|urls| - 1], urls[|urls| - 1];
    assert urls == front + [last];
    MoreActionable(u, front, last);
    if LinkKindOf(u, last).Some? {
      MoreDistinct(Actionable(u, front), last);
    }
  }

  lemma {:induction false} EarlierStandsFirst(u: Unicode, urls: seq<string>, i: nat, j: nat) returns (p: nat)
    requires i < j < |AllLinks(u, urls)|
    ensures p < |urls| && urls[p] == AllLinks(u, urls)[i] && AllLinks(u, urls)[j] !in urls[..p + 1]
    decreases |urls|
  {
    var front, last := urls[..|urls| - 1], urls[|urls| - 1];
    assert urls == front + [last];
    OneMoreUrl(u, urls);
    if j < |AllLinks(u, front)| {
      p := EarlierStandsFirst(u, front, i, j);
      assert urls[..p + 1] == front[..p + 1];
    } else {
      p := StandsThere(u, front, i);
      ActionableOnly(u, front, last);
      DistinctKeepsEachOnce(Actionable(u, front));
      assert last !in front;
      assert urls[..p + 1] == front[..p + 1];
    }
  }

  lemma StandsThere(u: Unicode, urls: seq<string>, i: nat) returns (p: nat)
    requires i < |AllLinks(u, urls)|
    ensures p < |urls| && urls[p] == AllLinks(u, urls)[i]
  {
    var url := AllLinks(u, urls)[i];
    DistinctKeepsEachOnce(Actionable(u, urls));
    ActionableOnly(u, urls, url);
    assert url in AllLinks(u, urls);
    p :| p < |urls| && urls[p] == url;
  }

  /** Links are offered in the order in which they are first found. */
  lemma LinksComeAsFound(u: Unicode, texts: seq<string>, i: nat, j: nat) returns (p: nat)
    requires i < j < |Links(u, texts)|
    ensures var found := AllCandidates(u, texts);
      p < |found| && found[p] == Links(u, texts)[i] && Links(u, texts)[j] !in found[..p + 1]
  {
    p := EarlierStandsFirst(u, AllCandidates(u, texts), i, j);
  }

  lemma OneMoreText(u: Unicode, texts: seq<string>, text: string)
    ensures AllCandidates(u, texts + [text]) == AllCandidates(u, texts) + Candidates(u, text)
  {
    assert (texts + [text])[..|texts|] == texts;
  }

  /** So a link found in structured content comes before every link found only in the text. */
  lemma StructuredContentFirst(u: Unicode, value: Json, text: string, i: nat, j: nat)
    requires i < j < |Links(u, TextsOf(Some(value), text))|
    requires Links(u, TextsOf(Some(value), text))[j] in AllCandidates(u, Capped([], Strings(value, 0)))
    ensures Links(u, TextsOf(Some(value), text))[i] in AllCandidates(u, Capped([], Strings(value, 0)))
  {
    var structured := Capped([], Strings(value, 0));
    var texts := TextsOf(Some(value), text);
    var p := LinksComeAsFound(u, texts, i, j);
    OneMoreText(u, structured, text);
    var (found, inside) := (AllCandidates(u, texts), AllCandidates(u, structured));
    var k :| 0 <= k < |inside| && inside[k] == Links(u, texts)[j];
    assert found[k] == inside[k];
    assert p < k;
    assert found[p] == inside[p];
  }

  // ----- structured content -----

  lemma {:induction false} CandidatesOfAText(u: Unicode, texts: seq<string>, k: nat, url: string)
    requires k < |texts| && url in Candidates(u, texts[k])
    ensures url in AllCandidates(u, texts)
    decreases |texts|
  {
    if k < |texts| - 1 {
      CandidatesOfAText(u, texts[..|texts| - 1], k, url);
    }
  }

  lemma TextIsGathered(value: Json, text: string, paths: seq<Path>, k: nat)
    requires InOrder(paths) && AreAll(value, MAX_WALK_DEPTH, paths) && k < |paths| && k < MAX_WALK_STRINGS
    ensures var texts := TextsOf(Some(value), text); k < |texts| && TextAt(value, paths[k]) == Some(texts[k])
  {
    var all := StringsAreTheTexts(value);
    OnlyOneOrder(paths, all);
    var strings := Strings(value, 0);
    assert TextAt(value, all[k]) == Some(strings[k]);
    FirstAreKept(strings, k);
    assert Capped([], strings)[k] == strings[k];
  }

  lemma FirstAreKept(strings: seq<string>, k: nat)
    requires k < |strings| && k < MAX_WALK_STRINGS
    ensures var kept := Capped([], strings); k < |kept| && kept[k] == strings[k]
  {
  }

  /**
  Whatever array or object a text stands in: if it is no deeper than eight levels, and among
  the first 512 such texts in order, then each link in it that may be opened is offered, unless
  five others are.
  */
  lemma StructuredLinkIsOffered(u: Unicode, value: Json, text: string, paths: seq<Path>, k: nat, url: string)
    requires InOrder(paths) && AreAll(value, MAX_WALK_DEPTH, paths) && k < |paths| && k < MAX_WALK_STRINGS
    requires TextAt(value, paths[k]).Some? && url in Candidates(u, TextAt(value, paths[k]).value)
    requires LinkKindOf(u, url).Some?
    ensures var links := Links(u, TextsOf(Some(value), text)); url in links || |links| == MAX_LINKS
  {
    var texts := TextsOf(Some(value), text);
    TextIsGathered(value, text, paths, k);
    CandidatesOfAText(u, texts, k, url);
    NoLinkIsMissed(u, texts, url);
  }
}

/** Where the scrubber replaces a secret, and what it leaves alone. */
module ScrubWords {
  import opened JsonValues
  import opened Scrub
  import opened ScrubJson
  import opened ScrubPass
  import opened Text

  // ----- one secret -----

  // Whether an occurrence of the secret is replaced where it stands: anywhere if it is long, or
  // if it is strict and the text is no name; else only as a word of its own.
  predicate IsReplacedAt(word: char -> bool, s: Secret, strict: seq<string>, short: bool, t: string, p: nat) {
    && p + |s| <= |t|
    && (Bytes(s) >= MIN_SECRET_LEN || (short && s in strict) || Alone(word, t, p, |s|))
  }

  /** Of one secret's occurrences, taken from the left without overlaps, exactly these are replaced. */
  lemma OneSecretExactly(word: char -> bool, s: Secret, strict: seq<string>, short: bool, t: string)
    returns (cuts: seq<nat>)
    ensures Fits(t, 0, cuts, |s|)
    ensures forall p :: p in cuts <==> p in Matches(t, s, 0) && IsReplacedAt(word, s, strict, short, t, p)
    ensures Scrubbed(word, [s], strict, short, t) == Splice(t, 0, cuts, |s|, REDACTED)
  {
    MatchesFit(t, s, 0, 0);
    cuts := if Anywhere(s, strict, short) then AnywhereCuts(t, s) else WordCuts(word, t, s);
    assert [s][1..] == [];
    MatchesAreAt(t, s, 0);
    forall p: nat
      ensures p in cuts <==> p in Matches(t, s, 0) && IsReplacedAt(word, s, strict, short, t, p)
    {
      WholeKeepsExactlyAlone(word, t, 0, Matches(t, s, 0), |s|, p);
      if p in Matches(t, s, 0) {
        var k :| 0 <= k < |Matches(t, s, 0)| && Matches(t, s, 0)[k] == p;
        assert At(t, p, s);
      }
    }
  }

  // ----- what is left alone -----

  // The secret stands nowhere in the text; or it is short, is not replaced inside words, and
  // stands only inside words.
  ghost predicate IsSpared(word: char -> bool, s: Secret, strict: seq<string>, short: bool, t: string) {
    || !Occurs(t, s)
    || (&& Bytes(s) < MIN_SECRET_LEN && (s !in strict || !short)
        && forall p: nat :: p + |s| <= |t| && At(t, p, s) ==> !Alone(word, t, p, |s|))
  }

  lemma SparedPass(word: char -> bool, s: Secret, strict: seq<string>, short: bool, t: string)
    requires IsSpared(word, s, strict, short, t)
    ensures Pass(word, t, s, Anywhere(s, strict, short)) == t
  {
    if !Occurs(t, s) {
      AbsentPass(word, t, s, Anywhere(s, strict, short));
    } else {
      MatchesFit(t, s, 0, 0);
      var cuts := WordCuts(word, t, s);
      if cuts != [] {
        var p := cuts[0];
        WholeKeepsExactlyAlone(word, t, 0, Matches(t, s, 0), |s|, p);
        MatchesAreAt(t, s, 0);
      }
    }
  }

  /** A text that spares every secret is returned as it is: a short secret is not taken out of longer words. */
  lemma {:induction false} SparedTextIsKept(word: char -> bool, secrets: seq<Secret>, strict: seq<string>,
                                            short: bool, t: string)
    requires forall s :: s in secrets ==> IsSpared(word, s, strict, short, t)
    ensures Scrubbed(word, secrets, strict, short, t) == t
    decreases |secrets|
  {
    if secrets != [] {
      SparedPass(word, secrets[0], strict, short, t);
      SparedTextIsKept(word, secrets[1..], strict, short, t);
    }
  }

  // ----- values -----

  ghost predicate SparesAll(word: char -> bool, scrubber: SecretScrubber, short: bool, t: string) {
    forall s :: s in scrubber.secrets ==> IsSpared(word, s, scrubber.strict, short, t)
  }

  // No text and no name of the value, at any depth, holds anything to replace, and its objects
  // have distinct names.
  ghost predicate IsHarmless(word: char -> bool, scrubber: SecretScrubber, value: Json)
    decreases value
  {
    match value
    case String(text) => SparesAll(word, scrubber, true, text)
    case Array(items) => forall k :: 0 <= k < |items| ==> IsHarmless(word, scrubber, items[k])
    case Object(entries) =>
      && DistinctKeys(entries)
      && forall k :: 0 <= k < |entries| ==>
           SparesAll(word, scrubber, false, entries[k].key) && IsHarmless(word, scrubber, entries[k].value)
    case _ => true
  }

  /** Such a value is returned as it is. */
  lemma {:induction false} HarmlessValueIsKept(word: char -> bool, scrubber: SecretScrubber, value: Json)
    requires IsHarmless(word, scrubber, value)
    ensures ScrubbedValue(word, scrubber, value) == value
    decreases value
  {
    match value {
      case String(text) =>
        SparedTextIsKept(word, scrubber.secrets, scrubber.strict, true, text);
      case Array(items) =>
        forall k | 0 <= k < |items|
          ensures ScrubbedValue(word, scrubber, items[k]) == items[k]
        {
          HarmlessValueIsKept(word, scrubber, items[k]);
        }
      case Object(entries) =>
        forall k | 0 <= k < |entries|
          ensures ScrubbedValue(word, scrubber, entries[k].value) == entries[k].value
        {
          HarmlessValueIsKept(word, scrubber, entries[k].value);
        }
        HarmlessEntriesAreKept(word, scrubber, entries);
      case _ =>
    }
  }

  lemma {:induction false} HarmlessEntriesAreKept(word: char -> bool, scrubber: SecretScrubber, entries: seq<Entry>)
    requires DistinctKeys(entries)
    requires forall k :: 0 <= k < |entries| ==> SparesAll(word, scrubber, false, entries[k].key)
    requires forall k :: 0 <= k < |entries| ==> ScrubbedValue(word, scrubber, entries[k].value) == entries[k].value
    ensures ScrubbedEntries(word, scrubber, entries) == entries
  {
    if entries != [] {
      var front, last := entries[..|entries| - 1], entries[|entries| - 1];
      HarmlessEntriesAreKept(word, scrubber, front);
      SparedTextIsKept(word, scrubber.secrets, scrubber.strict, false, last.key);
      assert last.key !in Keys(front);
      assert entries == front + [last];
    }
  }

  // The same value but for its texts and names.
  predicate SameShape(value: Json, out: Json)
    decreases value
  {
    match value
    case String(_) => out.String?
    case Array(items) =>
      out.Array? && |out.items| == |items| && forall k :: 0 <= k < |items| ==> SameShape(items[k], out.items[k])
    case Object(entries) =>
      && out.Object? && |out.entries| == |entries|
      && forall k :: 0 <= k < |entries| ==> SameShape(entries[k].value, out.entries[k].value)
    case _ => out == value
  }

  /** Scrubbing changes texts and names only, at every depth. */
  lemma {:induction false} ScrubbingKeepsShape(word: char -> bool, scrubber: SecretScrubber, value: Json)
    ensures SameShape(value, ScrubbedValue(word, scrubber, value))
    decreases value
  {
    match value {
      case Array(items) =>
        forall k | 0 <= k < |items|
          ensures SameShape(items[k], ScrubbedValue(word, scrubber, items[k]))
        {
          ScrubbingKeepsShape(word, scrubber, items[k]);
        }
      case Object(entries) =>
        forall k | 0 <= k < |entries|
          ensures SameShape(entries[k].value, ScrubbedEntries(word, scrubber, entries)[k].value)
        {
          ScrubbingKeepsShape(word, scrubber, entries[k].value);
          EntryKeepsPlace(word, scrubber, entries, k);
        }
      case _ =>
    }
  }

  lemma EntryKeepsPlace(word: char -> bool, scrubber: SecretScrubber, entries: seq<Entry>, k: nat)
    requires k < |entries|
    ensures ScrubbedEntries(word, scrubber, entries)[k].value == ScrubbedValue(word, scrubber, entries[k].value)
  {
    NoEntryIsLost(word, scrubber, entries);
    var out := ScrubbedEntries(word, scrubber, entries);
    assert Values(out)[k] == out[k].value && Values(entries)[k] == entries[k].value;
  }
}

/** What redacted object names can hold: the number added to a name can spell a secret again. */
module ScrubNames {
  import opened Decimal
  import opened JsonValues
  import opened Letters
  import opened Scrub
  import opened ScrubJson
  import opened ScrubPass
  import opened SecretOrder
  import opened Text

  // No end of `u` agrees with the start of the suffix for `n`, and that suffix does not hold `u`.
  ghost predicate CleanOfSuffix(u: string, n: nat) {
    forall d: int {:trigger Clashes(u, Suffix(n), d)} ::
      -|Suffix(n)| < d < |u| <= d + |Suffix(n)| ==> Clashes(u, Suffix(n), d)
  }

  /** `u` overlaps no numbered suffix. */
  ghost predicate CleanOfSuffixes(u: string) {
    forall n: nat :: n >= 2 ==> CleanOfSuffix(u, n)
  }

  /** Numbering never puts `u` into a name that did not hold it. */
  ghost predicate NumberingSpellsNothing(u: string) {
    forall taken: set<string>, base: string {:trigger UniqueKey(taken, base)} ::
      !Occurs(base, u) ==> !Occurs(UniqueKey(taken, base), u)
  }

  lemma NumberedNameHoldsNothing(base: string, n: nat, u: Secret)
    requires CleanOfSuffix(u, n) && !Occurs(base, u)
    ensures !Occurs(base + Suffix(n), u)
  {
    var key := base + Suffix(n);
    forall i | 0 <= i <= |key|
      ensures !At(key, i, u)
    {
      if i + |u| <= |base| {
        assert !At(base, i, u) && key[i..i + |u|] == base[i..i + |u|];
      } else if i + |u| <= |key| {
        var d := |base| - i;
        assert Clashes(u, Suffix(n), d);
        var k :| 0 <= k < |u| && 0 <= k - d < |Suffix(n)| && u[k] != Suffix(n)[k - d];
        assert key[i..i + |u|][k] == key[i + k] == Suffix(n)[k - d];
      }
    }
  }

  lemma SuffixCanSpell(u: Secret, n: nat, d: int) returns (taken: set<string>, base: string)
    requires n >= 2 && -|Suffix(n)| < d < |u| <= d + |Suffix(n)| && !Clashes(u, Suffix(n), d)
    ensures !Occurs(base, u) && Occurs(UniqueKey(taken, base), u)
  {
    base := Lead(u, d);
    taken := Names(base, n);
    NamesAreCounted(base, n);
    NamesWereTried(base, n);
    var key := base + Suffix(n);
    FirstFreeIsUnique(taken, base, key, UniqueKey(taken, base));
    SuffixCompletes(u, Suffix(n), d);
  }

  // What of `u` stands before a suffix that is `d` characters after its start.
  function Lead(u: string, d: int): string
    requires d < |u|
  {
    if d > 0 then u[..d] else ""
  }

  lemma SuffixCompletes(u: string, suffix: string, d: int)
    requires -|suffix| < d < |u| <= d + |suffix| && !Clashes(u, suffix, d)
    ensures Occurs(Lead(u, d) + suffix, u)
  {
    var key := Lead(u, d) + suffix;
    var at := if d > 0 then 0 else -d;
    forall k | 0 <= k < |u|
      ensures key[at + k] == u[k]
    {
      assert k - d >= 0 ==> u[k] == suffix[k - d];
    }
    assert key[at..at + |u|] == u;
    assert At(key, at, u);
  }

  lemma {:induction false} NamesWereTried(base: string, n: nat)
    requires n >= 2
    ensures Tried(Names(base, n), base, n)
  {
    if n > 2 { NamesWereTried(base, n - 1); }
  }

  /** Numbering names keeps a secret out exactly when it cannot overlap a suffix. */
  lemma NumberingIsSafeExactlyWhen(u: Secret)
    ensures NumberingSpellsNothing(u) <==> CleanOfSuffixes(u)
  {
    if CleanOfSuffixes(u) {
      forall taken: set<string>, base: string | !Occurs(base, u)
        ensures !Occurs(UniqueKey(taken, base), u)
      {
        var key := UniqueKey(taken, base);
        if key != base {
          var n: nat :| 2 <= n <= |taken| + 1 && key == base + Suffix(n) && Tried(taken, base, n);
          NumberedNameHoldsNothing(base, n, u);
        }
      }
    } else {
      var n: nat :| n >= 2 && !CleanOfSuffix(u, n);
      var d: int :| -|Suffix(n)| < d < |u| <= d + |Suffix(n)| && !Clashes(u, Suffix(n), d);
      var taken, base := SuffixCanSpell(u, n, d);
      assert Occurs(UniqueKey(taken, base), u);
    }
  }

  /** A secret with no parenthesis, no space at its end and a character that is no digit is clean of suffixes. */
  lemma PlainSecretsAreCleanOfSuffixes(u: Secret)
    requires '(' !in u && ')' !in u && u[|u| - 1] != ' ' && !AllDigits(u)
    ensures CleanOfSuffixes(u)
  {
    forall n: nat, d: int | n >= 2 && -|Suffix(n)| < d < |u| <= d + |Suffix(n)|
      ensures Clashes(u, Suffix(n), d)
    {
      PrintThenRead(n);
      var s := Suffix(n);
      if d >= 0 {
        var k := if d + 1 < |u| then d + 1 else d;
        assert u[k] != s[k - d];
      } else if d == -1 {
        assert u[0] != s[0 - d];
      } else if |u| == d + |s| {
        var k := |u| - 1;
        assert u[k] != s[k - d];
      } else {
        var k :| 0 <= k < |u| && !IsDigit(u[k]);
        assert s[k - d] == Print(n)[k - d - 2];
        assert u[k] != s[k - d];
      }
    }
  }

  predicate NamesAreFreeOf(entries: seq<Entry>, u: string) {
    forall k :: 0 <= k < |entries| ==> !Occurs(entries[k].key, u)
  }

  // No name of an object in the value holds `u`, and no two names of one object are alike.
  predicate WellNamed(value: Json, u: string)
    decreases value
  {
    match value
    case Array(items) => forall k :: 0 <= k < |items| ==> WellNamed(items[k], u)
    case Object(entries) =>
      && DistinctKeys(entries)
      && NamesAreFreeOf(entries, u)
      && forall k :: 0 <= k < |entries| ==> WellNamed(entries[k].value, u)
    case _ => true
  }

  lemma {:induction false} EntryNamesHoldNoSecret(word: char -> bool, scrubber: SecretScrubber, entries: seq<Entry>,
                                                  u: Secret)
    requires u in scrubber.secrets && Bytes(u) >= MIN_SECRET_LEN && Clean(u) && CleanOfSuffixes(u)
    ensures NamesAreFreeOf(ScrubbedEntries(word, scrubber, entries), u)
  {
    if entries != [] {
      var front, last := entries[..|entries| - 1], entries[|entries| - 1];
      EntryNamesHoldNoSecret(word, scrubber, front, u);
      CleanSecretIsGone(word, scrubber.secrets, scrubber.strict, false, last.key, u);
      NumberingIsSafeExactlyWhen(u);
      var done := ScrubbedEntries(word, scrubber, front);
      var key := UniqueKey(Keys(done), ScrubbedKey(word, scrubber, last.key));
      assert !Occurs(key, u);
      var out := ScrubbedEntries(word, scrubber, entries);
      assert out == done + [Entry(key, ScrubbedValue(word, scrubber, last.value))];
    }
  }

  /** In a scrubbed value no object, at any depth, names a long secret that is clean of both. */
  lemma {:induction false} NamesHoldNoSecret(word: char -> bool, scrubber: SecretScrubber, value: Json, u: Secret)
    requires u in scrubber.secrets && Bytes(u) >= MIN_SECRET_LEN && Clean(u) && CleanOfSuffixes(u)
    ensures WellNamed(ScrubbedValue(word, scrubber, value), u)
    decreases value
  {
    match value {
      case Array(items) =>
        forall k | 0 <= k < |items|
          ensures WellNamed(ScrubbedValue(word, scrubber, items[k]), u)
        {
          NamesHoldNoSecret(word, scrubber, items[k], u);
        }
      case Object(entries) =>
        var out := ScrubbedEntries(word, scrubber, entries);
        NoEntryIsLost(word, scrubber, entries);
        EntryNamesHoldNoSecret(word, scrubber, entries, u);
        forall k | 0 <= k < |entries|
          ensures WellNamed(out[k].value, u)
        {
          NamesHoldNoSecret(word, scrubber, entries[k].value, u);
          assert Values(out)[k] == ScrubbedItems(word, scrubber, Values(entries))[k];
        }
      case _ =>
    }
  }

  // ----- short secrets -----

  // The letters of the replacement are word characters.
  predicate LettersAreWords(word: char -> bool) {
    forall k :: 1 <= k < |REDACTED| - 1 ==> word(REDACTED[k])
  }

  // What is shorter than the word in the replacement never stands alone there.
  lemma NoShortStretchIsAlone(word: char -> bool, p: nat, width: nat)
    requires LettersAreWords(word) && 1 <= width < MIN_SECRET_LEN && p + width <= |REDACTED|
    ensures !Alone(word, REDACTED, p, width)
  {
    if p >= 2 {
      assert word(REDACTED[p - 1]);
    } else {
      assert word(REDACTED[p + width]);
    }
  }

  lemma ReplacementStays(word: char -> bool, s: Secret)
    requires LettersAreWords(word) && Bytes(s) < MIN_SECRET_LEN
    ensures Pass(word, REDACTED, s, false) == REDACTED
  {
    BytesCoverChars(s);
    MatchesFit(REDACTED, s, 0, 0);
    var cuts := WordCuts(word, REDACTED, s);
    if cuts != [] {
      var p := cuts[0];
      WholeKeepsExactlyAlone(word, REDACTED, 0, Matches(REDACTED, s, 0), |s|, p);
      NoShortStretchIsAlone(word, p, |s|);
    }
  }

  lemma {:induction false} ReplacementStaysForAll(word: char -> bool, secrets: seq<Secret>, strict: seq<string>)
    requires LettersAreWords(word) && forall s :: s in secrets ==> Bytes(s) < MIN_SECRET_LEN
    ensures Scrubbed(word, secrets, strict, false, REDACTED) == REDACTED
    decreases |secrets|
  {
    if secrets != [] {
      ReplacementStays(word, secrets[0]);
      ReplacementStaysForAll(word, secrets[1..], strict);
    }
  }

  lemma WholeTextIsReplaced(word: char -> bool, u: Secret)
    ensures Pass(word, u, u, false) == REDACTED
  {
    assert u[0..|u|] == u;
    assert At(u, 0, u);
    assert Matches(u, u, 0) == [0];
    assert Alone(word, u, 0, |u|);
    var none: seq<nat> := [];
    assert [0 as nat][1..] == none;
    assert Whole(word, u, |u|, none, |u|) == none;
    assert WordCuts(word, u, u) == [0];
    assert Splice(u, |u|, none, |u|, REDACTED) == "";
    assert u[0..0] == "" && "" + REDACTED + "" == REDACTED;
  }

  /** A name that is as a whole a short secret is redacted, whatever the other secrets are. */
  lemma ShortNameIsRedacted(word: char -> bool, scrubber: SecretScrubber, u: Secret)
    requires LettersAreWords(word) && Ordered(scrubber.secrets) && u in scrubber.secrets
    requires Bytes(u) < MIN_SECRET_LEN
    ensures ScrubbedKey(word, scrubber, u) == REDACTED
  {
    var secrets := scrubber.secrets;
    var n :| 0 <= n < |secrets| && secrets[n] == u;
    InTurn(word, secrets, n, scrubber.strict, false, u);
    assert "" + u + "" == u;
    EarlierFindNothing(word, secrets, n, scrubber.strict, false, "", "");
    WholeTextIsReplaced(word, u);
    assert [u][1..] == [];
    forall s | s in secrets[n + 1..]
      ensures Bytes(s) < MIN_SECRET_LEN
    {
      var k :| n < k < |secrets| && secrets[k] == s;
      assert Before(u, s);
    }
    ReplacementStaysForAll(word, secrets[n + 1..], scrubber.strict);
  }
}

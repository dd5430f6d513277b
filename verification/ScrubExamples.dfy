/** Scrubbers as a host sets them up, and what they let through all the same. */
module ScrubExamples {
  import opened Decimal
  import opened JsonValues
  import opened Letters
  import opened Prelude
  import opened Scrub
  import opened ScrubJson
  import opened ScrubLimits
  import opened ScrubNames
  import opened ScrubNamesExact
  import opened ScrubPass
  import opened ScrubSetup
  import opened SecretOrder
  import opened Text

  // ----- a numbered name -----

  // `key` stands behind the replacement in one name, and behind a secret in the other.
  lemma TwoNamesCollide(word: char -> bool, scrubber: SecretScrubber, c: Secret, key: string)
    requires Ordered(scrubber.secrets) && c in scrubber.secrets && Bytes(c) >= MIN_SECRET_LEN
    requires HoldsNone(REDACTED + key, scrubber.secrets)
    requires forall s :: s in scrubber.secrets ==> Clean(s) && (s == c || !Occurs(c + key, s))
    requires forall p :: 0 < p <= |key| ==> !At(c + key, p, c)
    ensures var out := ScrubbedEntries(word, scrubber, [Entry(REDACTED + key, Null), Entry(c + key, Null)]);
      |out| == 2 && out[1].key == REDACTED + key + Suffix(2)
  {
    LiteralsAreKept(word, scrubber, [Entry(REDACTED + key, Null)]);
    FrontIsReplaced(word, scrubber, c, key);
    SecondIsNumbered(word, scrubber, REDACTED + key, c + key);
  }

  lemma SecondIsNumbered(word: char -> bool, scrubber: SecretScrubber, base: string, other: string)
    requires ScrubbedEntries(word, scrubber, [Entry(base, Null)]) == [Entry(base, Null)]
    requires ScrubbedKey(word, scrubber, other) == base
    ensures var out := ScrubbedEntries(word, scrubber, [Entry(base, Null), Entry(other, Null)]);
      |out| == 2 && out[1].key == base + Suffix(2)
  {
    OneName(Entry(base, Null));
    NextFreeName(base, 2);
    LastEntry(word, scrubber, [Entry(base, Null)], Entry(other, Null));
    assert [Entry(base, Null)] + [Entry(other, Null)] == [Entry(base, Null), Entry(other, Null)];
  }

  lemma OneName(e: Entry)
    ensures Keys([e]) == {e.key} == Names(e.key, 2)
  {
    assert [e][0].key == e.key;
  }

  lemma LettersAreClean(l: char, c: Secret)
    requires c == Run(l, 8) && l !in REDACTED && Utf8(l) == 1
    ensures Clean(c) && Bytes(c) == 8
  {
    assert c[0] == l && "redacted" == REDACTED[1..9];
    MissingCharacter("redacted", c, 0);
    PlainSecretsAreClean(c);
    RunBytes(l, 8);
  }

  lemma ExampleHoldsNothing(u: Secret, e: Secret, c: Secret, key: string)
    requires u == "mykey (2)" && e == "mykey%20%282%29" && c == "wwwwwwww" && key == "mykey"
    ensures HoldsNone(REDACTED + key, [u, e, c]) && HoldsNone(c + key, [u, e])
    ensures forall p :: 0 < p <= |key| ==> !At(c + key, p, c)
  {
    MissingCharacter(REDACTED + key, u, 6);
    MissingCharacter(REDACTED + key, e, 5);
    MissingCharacter(REDACTED + key, c, 0);
    MissingCharacter(c + key, u, 6);
    MissingCharacter(c + key, e, 5);
    forall p | 0 < p <= |key|
      ensures !At(c + key, p, c)
    {
      assert (c + key)[p..p + |c|][8 - p] == key[0];
    }
  }

  lemma OddCharacterIsClean(s: Secret, k: nat)
    requires k < |s| && s[k] !in "redacted" && '[' !in s && ']' !in s
    ensures Clean(s)
  {
    MissingCharacter("redacted", s, k);
    PlainSecretsAreClean(s);
  }

  lemma ExampleIsClean(u: Secret, e: Secret, c: Secret)
    requires u == "mykey (2)" && e == "mykey%20%282%29" && c == "wwwwwwww"
    ensures Clean(u) && Clean(e) && Clean(c) && Bytes(c) == 8 && Bytes(u) > 8
  {
    OddCharacterIsClean(u, 6);
    OddCharacterIsClean(e, 5);
    BytesCoverChars(u);
    WIsClean(c);
  }

  lemma WIsClean(c: Secret)
    requires c == "wwwwwwww"
    ensures Clean(c) && Bytes(c) == 8
  {
    assert c == Run('w', 8);
    LettersAreClean('w', c);
  }

  // No printable ASCII character is white space, and the two secrets are encoded as they are in a URL.
  ghost predicate ExampleRules(rules: Rules, u: Secret, e: Secret, c: Secret) {
    (forall ch :: '!' <= ch <= '~' ==> !rules.space(ch)) && rules.encode(u) == e && rules.encode(c) == c
  }

  lemma SplitNeedsSpace(s: string)
    ensures SplitOnce(s, ' ').Some? ==> ' ' in s
  {
    SplitsAtFirst(s, ' ');
    if SplitOnce(s, ' ').Some? {
      assert s[|SplitOnce(s, ' ').value.0|] == ' ';
    }
  }

  lemma OneForm(rules: Rules, secret: Secret)
    requires !rules.space(secret[0]) && !rules.space(secret[|secret| - 1])
    requires match SplitOnce(secret, ' ') case None => true case Some(parts) => |parts.0| != 6
    ensures FormsOf(rules, secret)
      == if rules.encode(secret) != secret then [rules.encode(secret), secret] else [secret]
  {
    assert Trim(rules.space, secret) == secret;
    assert BearerToken(rules, secret).None?;
  }

  lemma TwoForms(rules: Rules, u: Secret, e: Secret, c: Secret)
    requires e != u && FormsOf(rules, u) == [e, u] && FormsOf(rules, c) == [c]
    ensures AllForms(rules, [u, c]) == [e, u, c]
  {
    var none: seq<string> := [];
    assert [u, c][1..] == [c] && [c][1..] == none;
    assert AllForms(rules, [c]) == [c];
  }

  lemma ExampleForms(rules: Rules, u: Secret, e: Secret, c: Secret)
    requires u == "mykey (2)" && e == "mykey%20%282%29" && c == "wwwwwwww" && ExampleRules(rules, u, e, c)
    ensures AllForms(rules, [u, c]) == [e, u, c]
  {
    SplitOnceHere("mykey", "(2)", ' ');
    assert "mykey" + [' '] + "(2)" == u;
    OneForm(rules, u);
    SplitNeedsSpace(c);
    OneForm(rules, c);
    TwoForms(rules, u, e, c);
  }

  /**
  A scrubber given two secrets, and the two names "[redacted]mykey" and "wwwwwwwwmykey": they
  collide once redacted, and the number that the second one gets spells the first secret.
  */
  lemma NumberSpellsASecret(word: char -> bool, rules: Rules, u: Secret, e: Secret, c: Secret, key: string)
    requires u == "mykey (2)" && e == "mykey%20%282%29" && c == "wwwwwwww" && ExampleRules(rules, u, e, c)
    requires key == "mykey"
    ensures var scrubber := Adding(rules, SecretScrubber([], []), [u, c]);
      var entries := [Entry(REDACTED + key, Null), Entry(c + key, Null)];
      var out := ScrubbedEntries(word, scrubber, entries);
      && u in scrubber.secrets && Clean(u) && Bytes(u) >= MIN_SECRET_LEN && InNameOrder(entries)
      && |out| == 2 && out[1].key == REDACTED + u && Occurs(out[1].key, u)
  {
    var scrubber := Adding(rules, SecretScrubber([], []), [u, c]);
    ExampleForms(rules, u, e, c);
    ExampleSecrets(rules, scrubber, u, e, c);
    ExampleIsClean(u, e, c);
    ExampleNames(word, scrubber, u, e, c, key);
    assert u[0..|u|] == u;
    assert At(u, 0, u);
    OccursBehind(REDACTED, u, u);
  }

  lemma ExampleNames(word: char -> bool, scrubber: SecretScrubber, u: Secret, e: Secret, c: Secret, key: string)
    requires u == "mykey (2)" && e == "mykey%20%282%29" && c == "wwwwwwww" && key == "mykey"
    requires Ordered(scrubber.secrets) && forall s :: s in scrubber.secrets <==> s in [u, e, c]
    ensures var entries := [Entry(REDACTED + key, Null), Entry(c + key, Null)];
      var out := ScrubbedEntries(word, scrubber, entries);
      InNameOrder(entries) && |out| == 2 && out[1].key == REDACTED + u
  {
    ExampleIsClean(u, e, c);
    ExampleHoldsNothing(u, e, c, key);
    TwoNamesCollide(word, scrubber, c, key);
    assert Suffix(2) == " (2)";
    assert REDACTED + key + Suffix(2) == REDACTED + u;
    assert (REDACTED + key)[0] == '[' && (c + key)[0] == 'w';
  }

  lemma ExampleSecrets(rules: Rules, scrubber: SecretScrubber, u: Secret, e: Secret, c: Secret)
    requires scrubber == Adding(rules, SecretScrubber([], []), [u, c])
    requires AllForms(rules, [u, c]) == [e, u, c]
    ensures Ordered(scrubber.secrets) && forall s :: s in scrubber.secrets <==> s in [u, e, c]
  {
    var none: seq<Secret> := [];
    assert none + [e, u, c] == [e, u, c];
  }

  // ----- the replacement itself -----

  lemma BracketForms(rules: Rules, u: Secret, e: Secret, c: Secret)
    requires u == "x[redacted]y" && e == "x%5Bredacted%5Dy" && c == "wwwwwwww" && ExampleRules(rules, u, e, c)
    ensures AllForms(rules, [u, c]) == [e, u, c]
  {
    SplitNeedsSpace(u);
    OneForm(rules, u);
    SplitNeedsSpace(c);
    OneForm(rules, c);
    TwoForms(rules, u, e, c);
  }

  // The shortest secret comes last.
  lemma ShortestIsLast(secrets: seq<Secret>, c: Secret) returns (n: nat)
    requires Ordered(secrets) && c in secrets && forall s :: s in secrets && s != c ==> Bytes(s) > Bytes(c)
    ensures n + 1 == |secrets| && secrets[n] == c
  {
    n :| n < |secrets| && secrets[n] == c;
    if n + 1 < |secrets| {
      assert secrets[n + 1] in secrets && Before(c, secrets[n + 1]);
      LessIsStrict(c, c);
    }
  }

  lemma OnlyTheLastOccurs(word: char -> bool, secrets: seq<Secret>, strict: seq<string>, a: string, c: Secret,
                          b: string)
    requires Ordered(secrets) && c in secrets && Anywhere(c, strict, true)
    requires forall s :: s in secrets && s != c ==> Bytes(s) > Bytes(c) && !Occurs(a + c + b, s)
    requires Confined(a + c + b, |a|, |a| + |c|, c)
    ensures Scrubbed(word, secrets, strict, true, a + c + b) == a + REDACTED + b
  {
    var n := ShortestIsLast(secrets, c);
    InTurn(word, secrets, n, strict, true, a + c + b);
    forall s | s in secrets[..n]
      ensures !Occurs(a + c + b, s)
    {
      var k :| 0 <= k < n && secrets[k] == s;
      LessIsStrict(s, c);
    }
    TextWithoutSecretsIsKept(word, secrets[..n], strict, true, a + c + b);
    ContainerPass(word, a, c, b, strict, true);
    assert secrets[n + 1..] == [];
  }

  lemma BracketsOccurNot(u: Secret, e: Secret, t: string)
    requires u == "x[redacted]y" && e == "x%5Bredacted%5Dy" && t == "xwwwwwwwwy"
    ensures !Occurs(t, u) && !Occurs(t, e) && Bytes(u) > 8 && Bytes(e) > 8
  {
    MissingCharacter(t, u, 1);
    MissingCharacter(t, e, 1);
    BytesCoverChars(u);
    BytesCoverChars(e);
  }

  lemma LettersStandOnce(c: Secret, t: string)
    requires c == "wwwwwwww" && t == "xwwwwwwwwy"
    ensures Confined(t, 1, 9, c) && Bytes(c) == 8
  {
    assert c == Run('w', 8);
    RunBytes('w', 8);
    forall p | 0 <= p <= |t| && At(t, p, c)
      ensures 1 <= p && p + |c| <= 9
    {
      assert t[p..p + |c|][0] == t[p] && t[p..p + |c|][7] == t[p + 7];
    }
  }

  lemma LettersAreReplaced(word: char -> bool, scrubber: SecretScrubber, u: Secret, e: Secret, c: Secret)
    requires u == "x[redacted]y" && e == "x%5Bredacted%5Dy" && c == "wwwwwwww"
    requires Ordered(scrubber.secrets) && forall s :: s in scrubber.secrets <==> s in [u, e, c]
    ensures ScrubbedText(word, scrubber, "xwwwwwwwwy") == u
  {
    var t := "xwwwwwwwwy";
    assert "x" + c + "y" == t && "x" + REDACTED + "y" == u;
    BracketsOccurNot(u, e, t);
    LettersStandOnce(c, t);
    OnlyTheLastOccurs(word, scrubber.secrets, scrubber.strict, "x", c, "y");
  }

  /**
  A scrubber given "x[redacted]y" and another secret: where that one stands between an x and
  a y, its replacement spells the first.
  */
  lemma ReplacementSpellsASecret(word: char -> bool, rules: Rules, u: Secret, e: Secret, c: Secret)
    requires u == "x[redacted]y" && e == "x%5Bredacted%5Dy" && c == "wwwwwwww" && ExampleRules(rules, u, e, c)
    ensures var scrubber := Adding(rules, SecretScrubber([], []), [u, c]);
      u in scrubber.secrets && ScrubbedText(word, scrubber, "xwwwwwwwwy") == u
  {
    BracketForms(rules, u, e, c);
    var scrubber := Adding(rules, SecretScrubber([], []), [u, c]);
    ExampleSecrets(rules, scrubber, u, e, c);
    LettersAreReplaced(word, scrubber, u, e, c);
  }
}

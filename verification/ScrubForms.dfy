/** Which texts a supplied secret is matched as. */
module ScrubForms {
  import opened Letters
  import opened Prelude
  import opened ScrubPass
  import opened SecretOrder
  import opened Scrub
  import opened ScrubSetup
  import opened Text

  // `value` is a bearer credential, between white space, and `token` what follows the word.
  ghost predicate IsBearer(rules: Rules, value: string, scheme: string, rest: string, token: string) {
    && IsBare(rules.space, value, scheme + " " + rest) && Lower(scheme) == "bearer"
    && IsBare(rules.space, rest, token) && token != ""
  }

  ghost predicate IsTokenOf(rules: Rules, value: string, token: string) {
    exists scheme, rest :: IsBearer(rules, value, scheme, rest, token)
  }

  lemma WordHasNoSpace(scheme: string)
    requires Lower(scheme) == "bearer"
    ensures ' ' !in scheme
  {
    forall k | 0 <= k < |scheme| ensures scheme[k] != ' ' {
      assert Lower(scheme)[k] == LowerChar(scheme[k]);
    }
  }

  /** The token of a bearer credential is found in exactly these, in any letter case of the word. */
  lemma BearerTokenExactly(rules: Rules, value: string, token: string)
    ensures BearerToken(rules, value) == Some(token) <==> IsTokenOf(rules, value, token)
  {
    var bare := Trim(rules.space, value);
    TrimExactly(rules.space, value, bare);
    SplitsAtFirst(bare, ' ');
    if BearerToken(rules, value) == Some(token) {
      var parts := SplitOnce(bare, ' ').value;
      TrimExactly(rules.space, parts.1, token);
      assert IsBearer(rules, value, parts.0, parts.1, token);
    }
    if IsTokenOf(rules, value, token) {
      var scheme, rest :| IsBearer(rules, value, scheme, rest, token);
      WordHasNoSpace(scheme);
      TrimExactly(rules.space, value, scheme + " " + rest);
      SplitOnceHere(scheme, rest, ' ');
      TrimExactly(rules.space, rest, token);
    }
  }

  // A supplied secret without its white space, or the token in it; and how it stands in a URL.
  ghost predicate IsBareSecret(rules: Rules, bare: string, secret: string) {
    bare != "" && (IsBare(rules.space, secret, bare) || IsTokenOf(rules, secret, bare))
  }

  ghost predicate IsFormOf(rules: Rules, u: Secret, secret: string) {
    exists bare :: IsBareSecret(rules, bare, secret) && (u == bare || u == rules.encode(bare))
  }

  lemma TokenIsBare(rules: Rules, secret: string)
    requires BearerToken(rules, secret).Some?
    ensures var token := BearerToken(rules, secret).value; token != "" && Trim(rules.space, token) == token
  {
    var rest := SplitOnce(Trim(rules.space, secret), ' ').value.1;
    var token := Trim(rules.space, rest);
    TrimExactly(rules.space, rest, token);
    assert token == "" + token + "";
    assert AllSpace(rules.space, "");
    TrimExactly(rules.space, token, token);
  }

  lemma FormsOfOne(rules: Rules, secret: string, u: Secret)
    ensures u in FormsOf(rules, secret) <==> IsFormOf(rules, u, secret)
  {
    var bare, found := Trim(rules.space, secret), BearerToken(rules, secret);
    TrimExactly(rules.space, secret, bare);
    if found.Some? {
      BearerTokenExactly(rules, secret, found.value);
      TokenIsBare(rules, secret);
    }
    if u in FormsOf(rules, secret) {
      if u in Forms(rules, secret) {
        assert IsBareSecret(rules, bare, secret);
      } else {
        assert IsBareSecret(rules, found.value, secret);
      }
    }
    if IsFormOf(rules, u, secret) {
      var t :| IsBareSecret(rules, t, secret) && (u == t || u == rules.encode(t));
      TrimExactly(rules.space, secret, t);
      BearerTokenExactly(rules, secret, t);
    }
  }

  lemma {:induction false} FormsOfAll(rules: Rules, given: seq<string>, u: Secret)
    ensures u in AllForms(rules, given) <==> exists secret :: secret in given && IsFormOf(rules, u, secret)
  {
    if given != [] {
      FormsOfOne(rules, given[0], u);
      FormsOfAll(rules, given[1..], u);
    }
  }

  /**
  A scrubber given more secrets looks for what it looked for before, and for each supplied secret
  that is not blank: as typed, without the white space around it, and as it stands in a URL; and
  the same for the token of a bearer credential. It looks for nothing else.
  */
  lemma AddedExactly(rules: Rules, scrubber: SecretScrubber, given: seq<string>, u: Secret)
    ensures var (more, supplied) :=
        (Adding(rules, scrubber, given), exists secret :: secret in given && IsFormOf(rules, u, secret));
      && (u in more.secrets <==> u in scrubber.secrets || supplied)
      && (u in more.strict <==> u in scrubber.strict || supplied)
  {
    FormsOfAll(rules, given, u);
    assert u in scrubber.secrets + AllForms(rules, given) <==> u in scrubber.secrets || u in AllForms(rules, given);
  }

  /**
  Every clean form of a supplied secret, however short, is gone from a scrubbed text,
  and so is every clean secret the scrubber replaced anywhere before.
  */
  lemma SuppliedSecretIsGone(word: char -> bool, rules: Rules, scrubber: SecretScrubber, given: seq<string>,
                             t: string, u: Secret)
    requires Clean(u)
    requires (exists secret :: secret in given && IsFormOf(rules, u, secret))
          || (u in scrubber.secrets && Anywhere(u, scrubber.strict, true))
    ensures var more := Adding(rules, scrubber, given);
      !Occurs(Scrubbed(word, more.secrets, more.strict, true, t), u)
  {
    AddedExactly(rules, scrubber, given, u);
    var more := Adding(rules, scrubber, given);
    CleanSecretIsGone(word, more.secrets, more.strict, true, t, u);
  }
}

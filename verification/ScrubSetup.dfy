/** Secrets a host adds to a scrubber. */
module ScrubSetup {
  import opened Letters
  import opened Prelude
  import opened ScrubPass
  import opened SecretOrder
  import opened Scrub
  import opened Text

  // White space, and the percent-encoding of a non-empty text.
  datatype Rules = Rules(space: char -> bool, encode: Secret -> Secret)

  // The token of a `Bearer <token>` credential.
  function BearerToken(rules: Rules, value: string): Option<string> {
    match SplitOnce(Trim(rules.space, value), ' ')
    case None => None
    case Some(parts) =>
      var token := Trim(rules.space, parts.1);
      if Lower(parts.0) == "bearer" && token != "" then Some(token) else None
  }

  // A secret as typed and as it stands in a URL; nothing for a blank one.
  function Forms(rules: Rules, secret: string): seq<Secret> {
    var bare := Trim(rules.space, secret);
    if bare == "" then [] else if rules.encode(bare) != bare then [rules.encode(bare), bare] else [bare]
  }

  function FormsOf(rules: Rules, given: string): seq<Secret> {
    Forms(rules, given) + (match BearerToken(rules, given) case None => [] case Some(token) => Forms(rules, token))
  }

  function AllForms(rules: Rules, given: seq<string>): seq<Secret> {
    if given == [] then [] else FormsOf(rules, given[0]) + AllForms(rules, given[1..])
  }

  function InOrder(secrets: seq<Secret>): (sorted: seq<Secret>)
    ensures Ordered(sorted) && forall s :: s in sorted <==> s in secrets
  {
    SortingKeeps(secrets);
    var sorted := LongestFirst(secrets);
    assert forall k :: 0 <= k < |sorted| ==> sorted[k] in sorted;
    sorted
  }

  function Adding(rules: Rules, scrubber: SecretScrubber, given: seq<string>): SecretScrubber {
    var forms := AllForms(rules, given);
    SecretScrubber(InOrder(scrubber.secrets + forms), scrubber.strict + forms)
  }

  method AddForms(rules: Rules, strict: seq<string>, secrets: seq<Secret>, given: string)
    returns (newStrict: seq<string>, newSecrets: seq<Secret>)
    ensures newStrict == strict + Forms(rules, given) && newSecrets == secrets + Forms(rules, given)
  {
    newStrict, newSecrets := strict, secrets;
    var secret := Trim(rules.space, given);
    if secret == "" { return; }
    var encoded := rules.encode(secret);
    if encoded != secret {
      newStrict := newStrict + [encoded];
      newSecrets := newSecrets + [encoded];
    }
    newStrict := newStrict + [secret];
    newSecrets := newSecrets + [secret];
  }

  method AddGiven(rules: Rules, strict: seq<string>, secrets: seq<Secret>, given: string)
    returns (newStrict: seq<string>, newSecrets: seq<Secret>)
    ensures newStrict == strict + FormsOf(rules, given) && newSecrets == secrets + FormsOf(rules, given)
  {
    newStrict, newSecrets := AddForms(rules, strict, secrets, given);
    match BearerToken(rules, given) {
      case None =>
      case Some(token) =>
        newStrict, newSecrets := AddForms(rules, newStrict, newSecrets, token);
    }
  }

  method WithSecrets(rules: Rules, scrubber: SecretScrubber, given: seq<string>) returns (more: SecretScrubber)
    ensures more == Adding(rules, scrubber, given)
  {
    var strict, secrets := scrubber.strict, scrubber.secrets;
    for k := 0 to |given|
      invariant strict == scrubber.strict + AllForms(rules, given[..k])
      invariant secrets == scrubber.secrets + AllForms(rules, given[..k])
    {
      OneMoreGiven(rules, given, k, scrubber.strict, scrubber.secrets);
      strict, secrets := AddGiven(rules, strict, secrets, given[k]);
    }
    assert given[..|given|] == given;
    more := SecretScrubber(InOrder(secrets), strict);
  }

  lemma OneMoreGiven(rules: Rules, given: seq<string>, k: nat, strict: seq<string>, secrets: seq<Secret>)
    requires k < |given|
    ensures strict + AllForms(rules, given[..k + 1]) == strict + AllForms(rules, given[..k]) + FormsOf(rules, given[k])
    ensures secrets + AllForms(rules, given[..k + 1])
      == secrets + AllForms(rules, given[..k]) + FormsOf(rules, given[k])
  {
    FormsUpTo(rules, given, k);
    Regroup(strict, AllForms(rules, given[..k]), FormsOf(rules, given[k]));
    Regroup(secrets, AllForms(rules, given[..k]), FormsOf(rules, given[k]));
  }

  lemma FormsUpTo(rules: Rules, given: seq<string>, k: nat)
    requires k < |given|
    ensures AllForms(rules, given[..k + 1]) == AllForms(rules, given[..k]) + FormsOf(rules, given[k])
  {
    var front, last := given[..k], given[k];
    AllFormsOfMore(rules, front, last);
    OneMore(given, k);
  }

  lemma OneMore(given: seq<string>, k: nat)
    requires k < |given|
    ensures given[..k + 1] == given[..k] + [given[k]]
  {
  }

  lemma Regroup<T>(a: seq<T>, b: seq<T>, c: seq<T>)
    ensures a + (b + c) == a + b + c
  {
  }

  lemma {:induction false} AllFormsOfMore(rules: Rules, given: seq<string>, last: string)
    ensures AllForms(rules, given + [last]) == AllForms(rules, given) + FormsOf(rules, last)
  {
    if given == [] {
      assert [last][1..] == [];
    } else {
      assert (given + [last])[1..] == given[1..] + [last];
      AllFormsOfMore(rules, given[1..], last);
    }
  }
}

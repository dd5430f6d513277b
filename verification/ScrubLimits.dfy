/** The secrets the scrubber cannot keep out: those that overlap the text it writes in their place. */
module ScrubLimits {
  import opened Text
  import opened ScrubPass
  import opened SecretOrder
  import opened Scrub

  /** Whatever else is scrubbed, in whatever text, `u` is not there afterwards. */
  ghost predicate NeverLeft(word: char -> bool, u: Secret) {
    forall secrets: seq<Secret>, strict: seq<string>, t: string ::
      Ordered(secrets) && u in secrets && Anywhere(u, strict, true) ==>
        !Occurs(Scrubbed(word, secrets, strict, true, t), u)
  }

  /** A secret is kept out of every text exactly when it cannot overlap what replaces secrets. */
  lemma GoneExactlyWhenClean(word: char -> bool, u: Secret)
    ensures NeverLeft(word, u) <==> Clean(u)
  {
    if Clean(u) {
      forall secrets: seq<Secret>, strict: seq<string>, t: string | u in secrets && Anywhere(u, strict, true)
        ensures !Occurs(Scrubbed(word, secrets, strict, true, t), u)
      {
        CleanSecretIsGone(word, secrets, strict, true, t, u);
      }
    } else {
      var secrets, strict, t := OverlapLeaks(word, u);
      assert Occurs(Scrubbed(word, secrets, strict, true, t), u);
    }
  }

  lemma OverlapLeaks(word: char -> bool, u: Secret) returns (secrets: seq<Secret>, strict: seq<string>, t: string)
    requires !Clean(u)
    ensures Ordered(secrets) && u in secrets && Anywhere(u, strict, true)
    ensures Occurs(Scrubbed(word, secrets, strict, true, t), u)
  {
    var d :| -|REDACTED| < d < |u| && !Clashes(u, REDACTED, d);
    if d <= 0 && |u| <= d + |REDACTED| {
      secrets, strict, t := [u], [u], u;
      PartOfRedactedLeaks(word, u, d);
    } else {
      var lo := if d < 0 then 0 else d;
      var hi := if |u| <= d + |REDACTED| then |u| else d + |REDACTED|;
      var c := Filler(u, lo, hi);
      secrets, strict, t := [u, c], [u, c], u[..lo] + c + u[hi..];
      FillerIsShorter(u, lo, hi);
      FillerHidesTheSecret(u, lo, hi);
      FillerIsFoundOnce(u, lo, hi);
      TwoPasses(word, u, c, strict, u[..lo], u[hi..]);
      RedactedCompletes(u, d, lo, hi);
    }
  }

  // ----- a secret inside the replacement -----

  lemma PartOfRedactedLeaks(word: char -> bool, u: Secret, d: int)
    requires d <= 0 && |u| <= d + |REDACTED| && !Clashes(u, REDACTED, d)
    ensures Occurs(Scrubbed(word, [u], [u], true, u), u)
  {
    assert "" + u + "" == u;
    WholeTextIsOneMatch(u);
    OnePass(word, "", u, "");
    assert "" + REDACTED + "" == REDACTED;
    assert Scrubbed(word, [u], [u], true, u) == REDACTED;
    PartOfRedacted(u, d);
  }

  lemma PartOfRedacted(u: string, d: int)
    requires d <= 0 && |u| <= d + |REDACTED| && !Clashes(u, REDACTED, d)
    ensures Occurs(REDACTED, u)
  {
    var part := REDACTED[-d..-d + |u|];
    forall k | 0 <= k < |u|
      ensures part[k] == u[k]
    {
      assert part[k] == REDACTED[k - d];
    }
    assert part == u;
    assert At(REDACTED, -d, u);
  }

  lemma WholeTextIsOneMatch(u: Secret)
    ensures Matches(u, u, 0) == [0]
  {
    assert u[0..|u|] == u;
    assert At(u, 0, u);
  }

  // ----- a secret that sticks out of the replacement -----

  function Run(c: char, n: nat): string {
    seq(n, i => c)
  }

  // A letter other than three given ones.
  function Other(a: char, b: char, c: char): (l: char)
    ensures l != a && l != b && l != c && Utf8(l) == 1
  {
    if 'w' != a && 'w' != b && 'w' != c then 'w'
    else if 'x' != a && 'x' != b && 'x' != c then 'x'
    else if 'y' != a && 'y' != b && 'y' != c then 'y'
    else 'z'
  }

  function RunLength(u: string, lo: nat, hi: nat): nat
    requires lo < hi <= |u|
  {
    if lo <= |u| - hi then |u| - hi else lo
  }

  function FillerLetter(u: string, lo: nat, hi: nat): (l: char)
    requires lo < hi <= |u|
    ensures l != u[lo] && (lo > 0 ==> l != u[lo - 1]) && (hi < |u| ==> l != u[hi]) && Utf8(l) == 1
  {
    Other(u[lo], if lo > 0 then u[lo - 1] else '?', if hi < |u| then u[hi] else '?')
  }

  // One letter repeated, as often as the longer end of the secret is long.
  function Filler(u: string, lo: nat, hi: nat): (c: Secret)
    requires lo < hi <= |u| && (lo > 0 || hi < |u|)
    ensures c == Run(FillerLetter(u, lo, hi), RunLength(u, lo, hi))
  {
    var n := RunLength(u, lo, hi);
    assert |Run(FillerLetter(u, lo, hi), n)| == n > 0;
    Run(FillerLetter(u, lo, hi), n)
  }

  lemma {:induction false} RunBytes(c: char, n: nat)
    requires Utf8(c) == 1
    ensures Bytes(Run(c, n)) == n
  {
    if n > 0 {
      RunBytes(c, n - 1);
      assert Run(c, n)[1..] == Run(c, n - 1);
    }
  }

  lemma FillerIsShorter(u: string, lo: nat, hi: nat)
    requires lo < hi <= |u| && (lo > 0 || hi < |u|)
    ensures Before(u, Filler(u, lo, hi))
  {
    RunBytes(FillerLetter(u, lo, hi), RunLength(u, lo, hi));
    BytesCoverChars(u);
  }

  lemma FillerHidesTheSecret(u: string, lo: nat, hi: nat)
    requires lo < hi <= |u| && (lo > 0 || hi < |u|)
    ensures !Occurs(u[..lo] + Filler(u, lo, hi) + u[hi..], u)
  {
    var c := Filler(u, lo, hi);
    var t := u[..lo] + c + u[hi..];
    forall j | 0 <= j <= |t|
      ensures !At(t, j, u)
    {
      if j + |u| <= |t| {
        assert t[lo + j] == c[j];
        assert t[j..j + |u|][lo] == t[j + lo];
      }
    }
  }

  lemma FillerIsFoundOnce(u: string, lo: nat, hi: nat)
    requires lo < hi <= |u| && (lo > 0 || hi < |u|)
    ensures var c := Filler(u, lo, hi); Matches(u[..lo] + c + u[hi..], c, 0) == [lo]
  {
    var c := Filler(u, lo, hi);
    var t := u[..lo] + c + u[hi..];
    assert t[lo..lo + |c|] == c;
    assert At(t, lo, c);
    forall p | 0 <= p <= |t| - |c| && !(lo <= p < lo + |c|)
      ensures !At(t, p, c)
    {
      if p < lo {
        assert t[p..p + |c|][lo - 1 - p] == t[lo - 1] == u[lo - 1] != c[lo - 1 - p];
      } else {
        assert p == lo + |c| && t[p..p + |c|][0] == t[p] == u[hi] != c[0];
      }
    }
    OneMatch(t, c, 0, lo);
  }

  lemma TwoPasses(word: char -> bool, u: Secret, c: Secret, strict: seq<string>, pre: string, post: string)
    requires !Occurs(pre + c + post, u) && Matches(pre + c + post, c, 0) == [|pre|] && u in strict && c in strict
    ensures Scrubbed(word, [u, c], strict, true, pre + c + post) == pre + REDACTED + post
  {
    var t := pre + c + post;
    AbsentPass(word, t, u, true);
    OnePass(word, pre, c, post);
    assert [u, c][1..] == [c] && [c][1..] == [];
    assert Scrubbed(word, [c], strict, true, t) == pre + REDACTED + post;
  }

  lemma RedactedCompletes(u: string, d: int, lo: nat, hi: nat)
    requires -|REDACTED| < d < |u| && !Clashes(u, REDACTED, d)
    requires lo == (if d < 0 then 0 else d) && hi == (if |u| <= d + |REDACTED| then |u| else d + |REDACTED|)
    ensures Occurs(u[..lo] + REDACTED + u[hi..], u)
  {
    var t := u[..lo] + REDACTED + u[hi..];
    var at := lo - d;
    forall k | 0 <= k < |u|
      ensures t[at + k] == u[k]
    {
      if k >= lo && k < hi {
        assert u[k] == REDACTED[k - d];
      }
    }
    assert t[at..at + |u|] == u;
    assert At(t, at, u);
  }
}

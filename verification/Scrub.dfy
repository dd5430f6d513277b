/** The order a scrubber keeps its secrets in. */
module SecretOrder {
  import opened Text

  predicate Less(a: string, b: string) {
    if b == [] then false
    else if a == [] then true
    else a[0] < b[0] || (a[0] == b[0] && Less(a[1..], b[1..]))
  }

  // Longer in bytes first, and the alphabet among equals.
  predicate Before(a: string, b: string) {
    Bytes(a) > Bytes(b) || (Bytes(a) == Bytes(b) && Less(a, b))
  }

  predicate Ordered(list: seq<string>) {
    forall i, j :: 0 <= i < j < |list| ==> Before(list[i], list[j])
  }

  lemma {:induction false} LessIsStrict(a: string, b: string)
    ensures Less(a, b) ==> a != b && !Less(b, a)
    ensures a != b ==> Less(a, b) || Less(b, a)
  {
    if a != [] && b != [] {
      LessIsStrict(a[1..], b[1..]);
      if a != b && a[0] == b[0] {
        assert a == [a[0]] + a[1..] && b == [b[0]] + b[1..];
      }
    }
  }

  lemma {:induction false} LessChains(a: string, b: string, c: string)
    requires Less(a, b) && Less(b, c)
    ensures Less(a, c)
  {
    if a != [] && a[0] == b[0] && b[0] == c[0] {
      LessChains(a[1..], b[1..], c[1..]);
    }
  }

  lemma BeforeChains(a: string, b: string, c: string)
    requires Before(a, b) && Before(b, c)
    ensures Before(a, c)
  {
    if Bytes(a) == Bytes(b) == Bytes(c) { LessChains(a, b, c); }
  }

  // Sorted and without repetitions, one element at a time.
  function Insert(x: string, list: seq<string>): seq<string> {
    if list == [] then [x]
    else if x == list[0] then list
    else if Before(x, list[0]) then [x] + list
    else [list[0]] + Insert(x, list[1..])
  }

  function LongestFirst(list: seq<string>): seq<string> {
    if list == [] then [] else Insert(list[0], LongestFirst(list[1..]))
  }

  lemma {:induction false} InsertAdds(x: string, list: seq<string>, y: string)
    ensures y in Insert(x, list) <==> y == x || y in list
  {
    if list != [] && x != list[0] && !Before(x, list[0]) {
      InsertAdds(x, list[1..], y);
    }
    if list != [] { assert list == [list[0]] + list[1..]; }
  }

  lemma OrderedWithFirst(first: string, rest: seq<string>)
    ensures Ordered([first] + rest) <==> Ordered(rest) && forall y :: y in rest ==> Before(first, y)
  {
    var list := [first] + rest;
    assert list[0] == first && list[1..] == rest;
    if Ordered(list) {
      forall i, j | 0 <= i < j < |rest|
        ensures Before(rest[i], rest[j])
      {
        assert rest[i] == list[i + 1] && rest[j] == list[j + 1];
      }
      forall y | y in rest
        ensures Before(first, y)
      {
        var j :| 0 <= j < |rest| && rest[j] == y;
        assert list[j + 1] == y;
      }
    }
  }

  lemma {:induction false} InsertKeepsOrder(x: string, list: seq<string>)
    requires Ordered(list)
    ensures Ordered(Insert(x, list))
  {
    if list == [] || x == list[0] {
    } else {
      var first, rest := list[0], list[1..];
      assert list == [first] + rest;
      OrderedWithFirst(first, rest);
      if Before(x, first) {
        forall y | y in list
          ensures Before(x, y)
        {
          if y != first { BeforeChains(x, first, y); }
        }
        OrderedWithFirst(x, list);
      } else {
        LessIsStrict(x, first);
        InsertKeepsOrder(x, rest);
        forall y | y in Insert(x, rest)
          ensures Before(first, y)
        {
          InsertAdds(x, rest, y);
        }
        OrderedWithFirst(first, Insert(x, rest));
      }
    }
  }

  /** Sorting keeps exactly the secrets given, each once, longest first. */
  lemma {:induction false} SortingKeeps(list: seq<string>)
    ensures Ordered(LongestFirst(list))
    ensures forall y :: y in LongestFirst(list) <==> y in list
  {
    if list != [] {
      SortingKeeps(list[1..]);
      InsertKeepsOrder(list[0], LongestFirst(list[1..]));
      assert list == [list[0]] + list[1..];
      forall y
        ensures y in LongestFirst(list) <==> y in list
      {
        InsertAdds(list[0], LongestFirst(list[1..]), y);
      }
    }
  }

  /** There is one such list. */
  lemma {:induction false} OrderIsUnique(a: seq<string>, b: seq<string>)
    requires Ordered(a) && Ordered(b) && forall y :: y in a <==> y in b
    ensures a == b
  {
    if a == [] {
      if b != [] { FirstIsThere(b); }
    } else {
      assert a[0] in b && b != [];
      var x, y, p, q := a[0], b[0], a[1..], b[1..];
      assert a == [x] + p && b == [y] + q;
      OrderedWithFirst(x, p);
      OrderedWithFirst(y, q);
      LessIsStrict(x, y);
      assert x == y by {
        assert x in b && y in a;
      }
      forall z
        ensures z in p <==> z in q
      {
        LessIsStrict(x, z);
        assert z in a <==> z in b;
        LessIsStrict(x, x);
      }
      OrderIsUnique(p, q);
    }
  }

  lemma FirstIsThere(list: seq<string>)
    requires list != []
    ensures exists y :: y in list
  {
    assert list[0] in list;
  }

  /** A secret is placed before every other secret it contains. */
  lemma ContainerComesFirst(long: string, short: string, at: int)
    requires At(long, at, short) && long != short
    ensures Before(long, short) && !Before(short, long)
  {
    var a, b := long[..at], long[at + |short|..];
    assert long == a + short + b;
    BytesAdd(a + short, b);
    BytesAdd(a, short);
    BytesCoverChars(a);
    BytesCoverChars(b);
    assert a == [] && b == [] ==> long == short;
  }
}

/** What the scrubber makes of a text, and which secrets it keeps out of it. */
module Scrub {
  import opened Text
  import opened ScrubPass
  import opened SecretOrder

  const MIN_SECRET_LEN := 8

  type Secret = s: string | s != [] witness "s"

  datatype SecretScrubber = SecretScrubber(secrets: seq<Secret>, strict: seq<string>)

  // Replaced wherever it stands, not only as a whole word.
  predicate Anywhere(secret: string, strict: seq<string>, short: bool) {
    Bytes(secret) >= MIN_SECRET_LEN || (secret in strict && short)
  }

  function Pass(word: char -> bool, t: string, s: Secret, anywhere: bool): string
  {
    Splice(t, 0, if anywhere then AnywhereCuts(t, s) else WordCuts(word, t, s), |s|, REDACTED)
  }

  // One pass for each secret, in order.
  function Scrubbed(word: char -> bool, secrets: seq<Secret>, strict: seq<string>, short: bool, t: string): string
    decreases |secrets|
  {
    if secrets == [] then t
    else
      var s := secrets[0];
      Scrubbed(word, secrets[1..], strict, short, Pass(word, t, s, Anywhere(s, strict, short)))
  }

  // ----- the loops -----

  // What is still to be written of the whole-word pass from a cursor on.
  function WordsFrom(word: char -> bool, t: string, cursor: nat, at: seq<nat>, width: nat): string
    requires Fits(t, cursor, at, width)
  {
    Splice(t, cursor, Whole(word, t, cursor, at, width), width, REDACTED)
  }

  lemma WordsSkip(word: char -> bool, t: string, cursor: nat, at: seq<nat>, width: nat)
    requires at != [] && Fits(t, cursor, at, width)
    ensures cursor <= at[0] && at[0] + width <= |t| && Fits(t, cursor, at[1..], width)
    ensures !Alone(word, t, at[0], width) ==>
      WordsFrom(word, t, cursor, at, width) == WordsFrom(word, t, cursor, at[1..], width)
  {
    FitsInside(t, cursor, at, width);
    FitsEarlier(t, cursor, at[0] + width, at[1..], width);
    WholeIgnoresStart(word, t, cursor, at[0] + width, at[1..], width);
  }

  lemma WholeIgnoresStart(word: char -> bool, t: string, from: nat, later: nat, at: seq<nat>, width: nat)
    requires Fits(t, from, at, width) && Fits(t, later, at, width)
    ensures Whole(word, t, from, at, width) == Whole(word, t, later, at, width)
  {
  }

  lemma WordsTake(word: char -> bool, t: string, cursor: nat, at: seq<nat>, width: nat, done: string)
    requires at != [] && Fits(t, cursor, at, width)
    ensures cursor <= at[0] && at[0] + width <= |t| && Fits(t, at[0] + width, at[1..], width)
    ensures Alone(word, t, at[0], width) ==>
      done + WordsFrom(word, t, cursor, at, width)
        == done + t[cursor..at[0]] + REDACTED + WordsFrom(word, t, at[0] + width, at[1..], width)
  {
    FitsInside(t, cursor, at, width);
    var rest := Whole(word, t, at[0] + width, at[1..], width);
    assert ([at[0]] + rest)[1..] == rest;
    InFront(done, t[cursor..at[0]], REDACTED, WordsFrom(word, t, at[0] + width, at[1..], width));
  }

  lemma InFront(a: string, b: string, c: string, d: string)
    ensures a + (b + c + d) == a + b + c + d
  {
  }

  // The whole-word pass: one walk over the matches with a cursor behind the last replacement.
  method WholeWords(word: char -> bool, out: string, secret: Secret) returns (next: string)
    ensures next == Pass(word, out, secret, false)
  {
    MatchesFit(out, secret, 0, 0);
    var starts := Matches(out, secret, 0);
    next := "";
    var cursor: nat := 0;
    assert "" + WordsFrom(word, out, 0, starts, |secret|) == Pass(word, out, secret, false);
    while starts != []
      invariant Fits(out, cursor, starts, |secret|)
      invariant next + WordsFrom(word, out, cursor, starts, |secret|) == Pass(word, out, secret, false)
      decreases |starts|
    {
      WordsSkip(word, out, cursor, starts, |secret|);
      WordsTake(word, out, cursor, starts, |secret|, next);
      var start := starts[0];
      starts := starts[1..];
      if start < cursor {
        continue;
      }
      var end := start + |secret|;
      var before := start > 0 && word(out[start - 1]);
      var after := end < |out| && word(out[end]);
      if !before && !after {
        next := next + out[cursor..start];
        next := next + REDACTED;
        cursor := end;
      }
    }
    next := next + out[cursor..];
  }

  method ScrubText(word: char -> bool, scrubber: SecretScrubber, text: string, short: bool) returns (out: string)
    ensures out == Scrubbed(word, scrubber.secrets, scrubber.strict, short, text)
  {
    out := text;
    for k := 0 to |scrubber.secrets|
      invariant Scrubbed(word, scrubber.secrets[k..], scrubber.strict, short, out)
             == Scrubbed(word, scrubber.secrets, scrubber.strict, short, text)
    {
      var secret := scrubber.secrets[k];
      assert scrubber.secrets[k..][1..] == scrubber.secrets[k + 1..];
      if Bytes(secret) < MIN_SECRET_LEN && (secret !in scrubber.strict || !short) {
        out := WholeWords(word, out, secret);
      } else if Occurs(out, secret) {
        out := Splice(out, 0, AnywhereCuts(out, secret), |secret|, REDACTED);
      } else {
        AbsentPass(word, out, secret, true);
      }
    }
  }

  // ----- secrets that do not occur -----

  lemma AbsentPass(word: char -> bool, t: string, s: Secret, anywhere: bool)
    requires !Occurs(t, s)
    ensures Pass(word, t, s, anywhere) == t
  {
    AbsentHasNoMatches(t, s);
  }

  /** A text without any of the secrets is left as it is. */
  lemma {:induction false} TextWithoutSecretsIsKept(word: char -> bool, secrets: seq<Secret>, strict: seq<string>,
                                                    short: bool, t: string)
    requires forall s :: s in secrets ==> !Occurs(t, s)
    ensures Scrubbed(word, secrets, strict, short, t) == t
    decreases |secrets|
  {
    if secrets != [] {
      AbsentPass(word, t, secrets[0], Anywhere(secrets[0], strict, short));
      TextWithoutSecretsIsKept(word, secrets[1..], strict, short, t);
    }
  }

  lemma PassSpellsNothing(word: char -> bool, t: string, s: Secret, anywhere: bool, u: string)
    requires Clean(u) && !Occurs(t, u)
    ensures !Occurs(Pass(word, t, s, anywhere), u)
  {
    SpliceSpellsNothing(t, 0, if anywhere then AnywhereCuts(t, s) else WordCuts(word, t, s), |s|, u);
  }

  lemma {:induction false} ScrubbingSpellsNothing(word: char -> bool, secrets: seq<Secret>, strict: seq<string>,
                                                  short: bool, t: string, u: string)
    requires Clean(u) && !Occurs(t, u)
    ensures !Occurs(Scrubbed(word, secrets, strict, short, t), u)
    decreases |secrets|
  {
    if secrets != [] {
      var anywhere := Anywhere(secrets[0], strict, short);
      PassSpellsNothing(word, t, secrets[0], anywhere, u);
      ScrubbingSpellsNothing(word, secrets[1..], strict, short, Pass(word, t, secrets[0], anywhere), u);
    }
  }

  /** A clean secret that is replaced anywhere does not occur afterwards, whatever the other secrets are. */
  lemma {:induction false} CleanSecretIsGone(word: char -> bool, secrets: seq<Secret>, strict: seq<string>,
                                             short: bool, t: string, u: Secret)
    requires u in secrets && Anywhere(u, strict, short) && Clean(u)
    ensures !Occurs(Scrubbed(word, secrets, strict, short, t), u)
    decreases |secrets|
  {
    var s, rest := secrets[0], secrets[1..];
    var next := Pass(word, t, s, Anywhere(s, strict, short));
    if s == u {
      ReplacingRemoves(t, u, 0, 0);
      ScrubbingSpellsNothing(word, rest, strict, short, next, u);
    } else {
      CleanSecretIsGone(word, rest, strict, short, next, u);
    }
  }

  /** Scrubbing twice is scrubbing once when every secret is clean and replaced anywhere. */
  lemma ScrubbingTwiceIsOnce(word: char -> bool, secrets: seq<Secret>, strict: seq<string>, short: bool, t: string)
    requires forall s :: s in secrets ==> Clean(s) && Anywhere(s, strict, short)
    ensures var once := Scrubbed(word, secrets, strict, short, t);
      Scrubbed(word, secrets, strict, short, once) == once
  {
    var once := Scrubbed(word, secrets, strict, short, t);
    forall s | s in secrets
      ensures !Occurs(once, s)
    {
      CleanSecretIsGone(word, secrets, strict, short, t, s);
    }
    TextWithoutSecretsIsKept(word, secrets, strict, short, once);
  }

  // ----- what the order is for -----

  lemma {:induction false} PassesCompose(word: char -> bool, first: seq<Secret>, second: seq<Secret>,
                                         strict: seq<string>, short: bool, t: string)
    ensures Scrubbed(word, first + second, strict, short, t)
      == Scrubbed(word, second, strict, short, Scrubbed(word, first, strict, short, t))
    decreases |first|
  {
    if first == [] {
      assert first + second == second;
    } else {
      assert (first + second)[1..] == first[1..] + second;
      var next := Pass(word, t, first[0], Anywhere(first[0], strict, short));
      PassesCompose(word, first[1..], second, strict, short, next);
    }
  }

  // Every occurrence of `s` lies inside the stretch from `lo` to `hi`.
  predicate Confined(t: string, lo: nat, hi: nat, s: string) {
    forall p :: 0 <= p <= |t| && At(t, p, s) ==> lo <= p && p + |s| <= hi
  }

  lemma ConfinedMeansContained(a: string, u: string, b: string, s: string)
    requires Confined(a + u + b, |a|, |a| + |u|, s)
    ensures Occurs(a + u + b, s) ==> Occurs(u, s)
    ensures s != [] ==> !Occurs(a, s) && !Occurs(b, s)
  {
    var t := a + u + b;
    forall p | 0 <= p <= |t| && At(t, p, s)
      ensures Occurs(u, s)
    {
      assert t[p..p + |s|] == u[p - |a|..p - |a| + |s|];
      assert At(u, p - |a|, s);
    }
    forall p | 0 <= p <= |a| && s != []
      ensures !At(a, p, s)
    {
      AtInFront(a, u + b, p, s);
      assert a + (u + b) == t;
    }
    forall p | 0 <= p <= |b| && s != []
      ensures !At(b, p, s)
    {
      AtBehind(a + u, b, p, s);
    }
  }

  lemma AtInFront(front: string, back: string, p: int, s: string)
    ensures At(front, p, s) ==> At(front + back, p, s)
  {
    if At(front, p, s) { assert (front + back)[p..p + |s|] == front[p..p + |s|]; }
  }

  lemma AtBehind(front: string, back: string, p: int, s: string)
    ensures At(back, p, s) ==> At(front + back, |front| + p, s)
  {
    if At(back, p, s) {
      var q := |front| + p;
      assert (front + back)[q..q + |s|] == back[p..p + |s|];
    }
  }

  lemma ContainerIsOneMatch(a: string, u: Secret, b: string)
    requires Confined(a + u + b, |a|, |a| + |u|, u)
    ensures Matches(a + u + b, u, 0) == [|a|]
  {
    var t := a + u + b;
    assert t[|a|..|a| + |u|] == u;
    assert At(t, |a|, u);
    OneMatch(t, u, 0, |a|);
  }

  /**
  Longest first: a secret is replaced whole, and nothing else is touched, when every
  other secret in the text is a part of it.
  */
  lemma ContainerIsReplacedWhole(word: char -> bool, secrets: seq<Secret>, strict: seq<string>, short: bool,
                                 a: string, u: Secret, b: string)
    requires Ordered(secrets) && u in secrets && Anywhere(u, strict, short)
    requires forall s :: s in secrets ==> Clean(s) && Confined(a + u + b, |a|, |a| + |u|, s)
    ensures Scrubbed(word, secrets, strict, short, a + u + b) == a + REDACTED + b
  {
    var n :| 0 <= n < |secrets| && secrets[n] == u;
    InTurn(word, secrets, n, strict, short, a + u + b);
    EarlierFindNothing(word, secrets, n, strict, short, a, b);
    ContainerPass(word, a, u, b, strict, short);
    LaterFindNothing(word, secrets[n + 1..], strict, short, a, u, b);
  }

  lemma InTurn(word: char -> bool, secrets: seq<Secret>, n: nat, strict: seq<string>, short: bool, t: string)
    requires n < |secrets|
    ensures Scrubbed(word, secrets, strict, short, t)
      == Scrubbed(word, secrets[n + 1..], strict, short,
           Scrubbed(word, [secrets[n]], strict, short, Scrubbed(word, secrets[..n], strict, short, t)))
  {
    var first, later := secrets[..n], secrets[n + 1..];
    assert secrets == first + ([secrets[n]] + later);
    PassesCompose(word, first, [secrets[n]] + later, strict, short, t);
    PassesCompose(word, [secrets[n]], later, strict, short, Scrubbed(word, first, strict, short, t));
  }

  lemma EarlierFindNothing(word: char -> bool, secrets: seq<Secret>, n: nat, strict: seq<string>, short: bool,
                           a: string, b: string)
    requires Ordered(secrets) && n < |secrets|
    requires forall s :: s in secrets ==> Confined(a + secrets[n] + b, |a|, |a| + |secrets[n]|, s)
    ensures Scrubbed(word, secrets[..n], strict, short, a + secrets[n] + b) == a + secrets[n] + b
  {
    forall s | s in secrets[..n]
      ensures !Occurs(a + secrets[n] + b, s)
    {
      assert s in secrets;
      EarlierIsAbsent(secrets, n, a, b, s);
    }
    TextWithoutSecretsIsKept(word, secrets[..n], strict, short, a + secrets[n] + b);
  }

  lemma ContainerPass(word: char -> bool, a: string, u: Secret, b: string, strict: seq<string>, short: bool)
    requires Anywhere(u, strict, short) && Confined(a + u + b, |a|, |a| + |u|, u)
    ensures Scrubbed(word, [u], strict, short, a + u + b) == a + REDACTED + b
  {
    ContainerIsOneMatch(a, u, b);
    OnePass(word, a, u, b);
    assert [u][1..] == [];
  }

  lemma LaterFindNothing(word: char -> bool, later: seq<Secret>, strict: seq<string>, short: bool, a: string,
                         u: Secret, b: string)
    requires forall s :: s in later ==> Clean(s) && Confined(a + u + b, |a|, |a| + |u|, s)
    ensures Scrubbed(word, later, strict, short, a + REDACTED + b) == a + REDACTED + b
  {
    forall s | s in later
      ensures !Occurs(a + REDACTED + b, s)
    {
      ConfinedMeansContained(a, u, b, s);
      GlueSpellsNothing(a, b, s);
    }
    TextWithoutSecretsIsKept(word, later, strict, short, a + REDACTED + b);
  }

  lemma EarlierIsAbsent(secrets: seq<Secret>, n: nat, a: string, b: string, s: Secret)
    requires Ordered(secrets) && n < |secrets| && s in secrets[..n]
    requires Confined(a + secrets[n] + b, |a|, |a| + |secrets[n]|, s)
    ensures !Occurs(a + secrets[n] + b, s)
  {
    var u := secrets[n];
    var k :| 0 <= k < n && secrets[k] == s;
    assert Before(s, u);
    LessIsStrict(s, u);
    ConfinedMeansContained(a, u, b, s);
    if Occurs(u, s) {
      var at :| 0 <= at <= |u| && At(u, at, s);
      ContainerComesFirst(u, s, at);
    }
  }

  lemma OnePass(word: char -> bool, pre: string, c: Secret, post: string)
    requires Matches(pre + c + post, c, 0) == [|pre|]
    ensures Pass(word, pre + c + post, c, true) == pre + REDACTED + post
  {
    var t := pre + c + post;
    assert t[0..|pre|] == pre && t[|pre| + |c|..] == post;
    assert AnywhereCuts(t, c) == [|pre|] && [|pre|][1..] == [];
    var cuts: seq<nat> := [];
    assert Splice(t, |pre| + |c|, cuts, |c|, REDACTED) == post;
  }

  /** A secret without square brackets that is no part of the word redacted is clean. */
  lemma PlainSecretsAreClean(s: Secret)
    requires '[' !in s && ']' !in s && !Occurs("redacted", s)
    ensures Clean(s)
  {
    forall d | -|REDACTED| < d < |s|
      ensures Clashes(s, REDACTED, d)
    {
      if d >= 0 {
        assert REDACTED[0] == '[' && s[d] != REDACTED[d - d];
      } else if d + |REDACTED| <= |s| {
        var k := d + |REDACTED| - 1;
        assert REDACTED[k - d] == ']' && s[k] != REDACTED[k - d];
      } else {
        InsideRedacted(s, -d);
      }
    }
  }

  lemma InsideRedacted(s: Secret, i: int)
    requires !Occurs("redacted", s) && 1 <= i && i + |s| <= |REDACTED| - 1
    ensures Clashes(s, REDACTED, -i)
  {
    var inner := "redacted";
    assert REDACTED[1..9] == inner;
    assert !At(inner, i - 1, s);
    var k :| 0 <= k < |s| && s[k] != inner[i - 1..i - 1 + |s|][k];
    assert inner[i - 1..i - 1 + |s|][k] == inner[i - 1 + k] == REDACTED[i + k];
    assert s[k] != REDACTED[k - -i];
  }
}

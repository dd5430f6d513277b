/** Substrings, their leftmost occurrences, and the byte lengths of UTF-8 text. */
module Text {
  import opened LeftmostScan

  predicate At(t: string, i: int, s: string) {
    0 <= i && i + |s| <= |t| && t[i..i + |s|] == s
  }

  predicate Occurs(t: string, s: string) {
    exists i :: 0 <= i <= |t| && At(t, i, s)
  }

  lemma SliceOfSlice<T>(t: seq<T>, lo: nat, hi: nat, i: nat, j: nat)
    requires lo <= hi <= |t| && i <= j <= hi - lo
    ensures t[lo..hi][i..j] == t[lo + i..lo + j]
  {
    var part := t[lo..hi];
    assert part[i..j] == t[lo + i..lo + j] by {
      forall k | 0 <= k < j - i
        ensures part[i..j][k] == t[lo + i..lo + j][k]
      {
        assert part[i..j][k] == part[i + k] == t[lo + (i + k)];
      }
    }
  }

  lemma InThree(t: string, i: nat, j: nat, k: nat)
    requires i <= j <= k <= |t|
    ensures t[i..] == t[i..j] + t[j..k] + t[k..]
  {
  }

  lemma PartsHaveNoMore(t: string, lo: nat, hi: nat, s: string)
    requires lo <= hi <= |t| && !Occurs(t, s)
    ensures !Occurs(t[lo..hi], s)
  {
    forall i | 0 <= i <= hi - lo
      ensures !At(t[lo..hi], i, s)
    {
      if At(t[lo..hi], i, s) {
        SliceOfSlice(t, lo, hi, i, i + |s|);
        assert At(t, lo + i, s);
      }
    }
  }

  lemma MissingCharacter(t: string, s: string, k: nat)
    requires k < |s| && s[k] !in t
    ensures !Occurs(t, s)
  {
    forall i | 0 <= i <= |t|
      ensures !At(t, i, s)
    {
      assert i + |s| <= |t| ==> t[i..i + |s|][k] == t[i + k];
    }
  }

  // ----- leftmost, non-overlapping occurrences -----

  function Matches(t: string, s: string, from: nat): seq<nat>
    requires s != [] && from <= |t|
    decreases |t| - from
  {
    if |t| - from < |s| then []
    else if At(t, from, s) then [from] + Matches(t, s, from + |s|)
    else Matches(t, s, from + 1)
  }

  predicate AllAt(t: string, s: string, at: seq<nat>) {
    forall k :: 0 <= k < |at| ==> At(t, at[k], s)
  }

  lemma {:induction false} MatchesAreAt(t: string, s: string, from: nat)
    requires s != [] && from <= |t|
    ensures AllAt(t, s, Matches(t, s, from))
    decreases |t| - from
  {
    if |t| - from < |s| {
    } else if At(t, from, s) {
      MatchesAreAt(t, s, from + |s|);
    } else {
      MatchesAreAt(t, s, from + 1);
    }
  }

  lemma {:induction false} NoMatchesFrom(t: string, s: string, from: nat)
    requires s != [] && from <= |t| && forall p :: from <= p <= |t| ==> !At(t, p, s)
    ensures Matches(t, s, from) == []
    decreases |t| - from
  {
    if |t| - from >= |s| { NoMatchesFrom(t, s, from + 1); }
  }

  lemma AbsentHasNoMatches(t: string, s: string)
    requires s != [] && !Occurs(t, s)
    ensures Matches(t, s, 0) == []
  {
    NoMatchesFrom(t, s, 0);
  }

  lemma {:induction false} OneMatch(t: string, s: string, from: nat, n: nat)
    requires s != [] && from <= n && At(t, n, s)
    requires forall p :: from <= p <= |t| && At(t, p, s) ==> n <= p < n + |s|
    ensures Matches(t, s, from) == [n]
    decreases n - from
  {
    if from < n {
      OneMatch(t, s, from + 1, n);
    } else {
      NoMatchesFrom(t, s, n + |s|);
    }
  }

  function TextHits(t: string, s: string): (hits: Hits)
    ensures Fitting(hits)
  {
    seq(|t|, at requires 0 <= at < |t| => if At(t, at, s) then |s| else 0)
  }

  function SpansOf(at: seq<nat>, width: nat): (spans: seq<Span>)
    ensures |spans| == |at|
  {
    seq(|at|, k requires 0 <= k < |at| => Span(at[k], width))
  }

  lemma {:induction false} MatchesAreScanned(t: string, s: string, from: nat)
    requires s != [] && from <= |t|
    ensures SpansOf(Matches(t, s, from), |s|) == Scan(TextHits(t, s), from)
    decreases |t| - from
  {
    if from == |t| {
    } else if At(t, from, s) {
      MatchesAreScanned(t, s, from + |s|);
      assert TextHits(t, s)[from] == |s|;
      SpansOfMore(from, Matches(t, s, from + |s|), |s|);
    } else {
      MatchesAreScanned(t, s, from + 1);
      assert TextHits(t, s)[from] == 0;
      if |t| - from < |s| { NoMatchesFrom(t, s, from + 1); }
    }
  }

  lemma SpansOfMore(first: nat, rest: seq<nat>, width: nat)
    ensures SpansOf([first] + rest, width) == [Span(first, width)] + SpansOf(rest, width)
  {
  }

  /** The matches are the leftmost occurrences, none overlapping, and no other list is. */
  lemma MatchesExactly(t: string, s: string, at: seq<nat>)
    requires s != []
    ensures at == Matches(t, s, 0) <==> AreLeftmost(TextHits(t, s), 0, SpansOf(at, |s|))
  {
    MatchesAreScanned(t, s, 0);
    ScanIsLeftmost(TextHits(t, s), 0);
    if AreLeftmost(TextHits(t, s), 0, SpansOf(at, |s|)) {
      LeftmostIsScan(TextHits(t, s), 0, SpansOf(at, |s|));
      SpansTellStarts(at, Matches(t, s, 0), |s|);
    }
  }

  lemma SpansTellStarts(a: seq<nat>, b: seq<nat>, width: nat)
    requires SpansOf(a, width) == SpansOf(b, width)
    ensures a == b
  {
    assert |a| == |SpansOf(a, width)| == |b|;
    forall k | 0 <= k < |a|
      ensures a[k] == b[k]
    {
      assert SpansOf(a, width)[k] == SpansOf(b, width)[k];
    }
  }

  // ----- putting another text in place of stretches of a text -----

  predicate Fits(t: string, from: nat, cuts: seq<nat>, width: nat)
    decreases |cuts|
  {
    if cuts == [] then from <= |t|
    else from <= cuts[0] && Fits(t, cuts[0] + width, cuts[1..], width)
  }

  lemma {:induction false} FitsInside(t: string, from: nat, cuts: seq<nat>, width: nat)
    requires Fits(t, from, cuts, width)
    ensures from <= |t| && (cuts != [] ==> cuts[0] + width <= |t|)
    decreases |cuts|
  {
    if cuts != [] { FitsInside(t, cuts[0] + width, cuts[1..], width); }
  }

  // The text from `from` on, with `fill` for each stretch of `width` characters at a cut.
  function Splice(t: string, from: nat, cuts: seq<nat>, width: nat, fill: string): string
    requires Fits(t, from, cuts, width)
    decreases |cuts|
  {
    FitsInside(t, from, cuts, width);
    if cuts == [] then t[from..]
    else t[from..cuts[0]] + fill + Splice(t, cuts[0] + width, cuts[1..], width, fill)
  }

  lemma {:induction false} MatchesFit(t: string, s: string, from: nat, later: nat)
    requires s != [] && from <= later <= |t|
    ensures Fits(t, from, Matches(t, s, later), |s|)
    decreases |t| - later
  {
    if |t| - later < |s| {
    } else if At(t, later, s) {
      MatchesFit(t, s, later + |s|, later + |s|);
    } else {
      MatchesFit(t, s, from, later + 1);
    }
  }

  function Replace(t: string, s: string, fill: string): string
    requires s != []
  {
    MatchesFit(t, s, 0, 0);
    Splice(t, 0, Matches(t, s, 0), |s|, fill)
  }

  /** A replacement brings in no character from elsewhere. */
  lemma {:induction false} SpliceHasNoOthers(t: string, from: nat, cuts: seq<nat>, width: nat, fill: string, c: char)
    requires Fits(t, from, cuts, width) && c !in t && c !in fill
    ensures c !in Splice(t, from, cuts, width, fill)
    decreases |cuts|
  {
    FitsInside(t, from, cuts, width);
    if cuts != [] { SpliceHasNoOthers(t, cuts[0] + width, cuts[1..], width, fill, c); }
  }

  // ----- bytes -----

  // The length of one character in UTF-8.
  function Utf8(c: char): (n: nat)
    ensures 1 <= n <= 4
  {
    if c as int < 0x80 then 1 else if c as int < 0x800 then 2 else if c as int < 0x10000 then 3 else 4
  }

  function Bytes(s: string): nat {
    if s == [] then 0 else Utf8(s[0]) + Bytes(s[1..])
  }

  lemma {:induction false} BytesAdd(a: string, b: string)
    ensures Bytes(a + b) == Bytes(a) + Bytes(b)
  {
    if a == [] {
      assert a + b == b;
    } else {
      assert (a + b)[1..] == a[1..] + b;
      BytesAdd(a[1..], b);
    }
  }

  lemma {:induction false} BytesCoverChars(s: string)
    ensures |s| <= Bytes(s) <= 4 * |s|
  {
    if s != [] { BytesCoverChars(s[1..]); }
  }
}

/** Removing surrounding white space and comparing without letter case. */
module Letters {
  import opened Prelude

  // The character classes that reach beyond ASCII.
  datatype Unicode = Unicode(space: char -> bool, control: char -> bool, alphanumeric: char -> bool) {
    // Printable ASCII is neither white space nor control.
    ghost predicate Valid() {
      forall c :: '!' <= c <= '~' ==> !space(c) && !control(c)
    }
  }

  function TrimStart(space: char -> bool, s: string): string {
    if s != [] && space(s[0]) then TrimStart(space, s[1..]) else s
  }

  function TrimEnd(space: char -> bool, s: string): string {
    if s != [] && space(s[|s| - 1]) then TrimEnd(space, s[..|s| - 1]) else s
  }

  function Trim(space: char -> bool, s: string): string {
    TrimEnd(space, TrimStart(space, s))
  }

  predicate AllSpace(space: char -> bool, s: string) {
    forall k :: 0 <= k < |s| ==> space(s[k])
  }

  // `t` is what is left of `s` between white space, and begins and ends with none.
  ghost predicate IsBare(space: char -> bool, s: string, t: string) {
    && (t == "" || (!space(t[0]) && !space(t[|t| - 1])))
    && exists before, after :: AllSpace(space, before) && AllSpace(space, after) && s == before + t + after
  }

  lemma {:induction false} TrimStartLeaves(space: char -> bool, s: string) returns (before: string)
    ensures AllSpace(space, before) && s == before + TrimStart(space, s)
    ensures TrimStart(space, s) == "" || !space(TrimStart(space, s)[0])
  {
    if s != "" && space(s[0]) {
      var more := TrimStartLeaves(space, s[1..]);
      before := [s[0]] + more;
    } else {
      before := "";
    }
  }

  lemma {:induction false} TrimEndLeaves(space: char -> bool, s: string) returns (after: string)
    ensures AllSpace(space, after) && s == TrimEnd(space, s) + after
    ensures TrimEnd(space, s) == "" || !space(TrimEnd(space, s)[|TrimEnd(space, s)| - 1])
  {
    if s != "" && space(s[|s| - 1]) {
      var more := TrimEndLeaves(space, s[..|s| - 1]);
      after := more + [s[|s| - 1]];
    } else {
      after := "";
    }
  }

  /** Trimming leaves exactly what stands between the white space at either end. */
  lemma TrimExactly(space: char -> bool, s: string, t: string)
    ensures Trim(space, s) == t <==> IsBare(space, s, t)
  {
    var before := TrimStartLeaves(space, s);
    var after := TrimEndLeaves(space, TrimStart(space, s));
    var bare := Trim(space, s);
    assert s == before + bare + after;
    assert bare != "" ==> bare[0] == TrimStart(space, s)[0];
    assert IsBare(space, s, bare);
    if IsBare(space, s, t) {
      var a, b :| AllSpace(space, a) && AllSpace(space, b) && s == a + t + b;
      BareIsTrimmed(space, a, t, b);
    }
  }

  lemma {:induction false} TrimStartPasses(space: char -> bool, before: string, rest: string)
    requires AllSpace(space, before)
    ensures TrimStart(space, before + rest) == TrimStart(space, rest)
  {
    if before == "" {
      assert before + rest == rest;
    } else {
      assert (before + rest)[1..] == before[1..] + rest;
      TrimStartPasses(space, before[1..], rest);
    }
  }

  lemma {:induction false} TrimEndPasses(space: char -> bool, rest: string, after: string)
    requires AllSpace(space, after)
    ensures TrimEnd(space, rest + after) == TrimEnd(space, rest)
  {
    if after == "" {
      assert rest + after == rest;
    } else {
      assert (rest + after)[..|rest + after| - 1] == rest + after[..|after| - 1];
      TrimEndPasses(space, rest, after[..|after| - 1]);
    }
  }

  lemma BareIsTrimmed(space: char -> bool, before: string, t: string, after: string)
    requires AllSpace(space, before) && AllSpace(space, after)
    requires t == "" || (!space(t[0]) && !space(t[|t| - 1]))
    ensures Trim(space, before + t + after) == t
  {
    assert before + t + after == before + (t + after);
    TrimStartPasses(space, before, t + after);
    if t == "" {
      assert t + after == after == after + "";
      TrimStartPasses(space, after, "");
    } else {
      TrimEndPasses(space, t, after);
    }
  }

  predicate IsDigit(c: char) { '0' <= c <= '9' }

  predicate IsUpper(c: char) { 'A' <= c <= 'Z' }

  predicate IsLower(c: char) { 'a' <= c <= 'z' }

  predicate IsAlpha(c: char) { IsUpper(c) || IsLower(c) }

  function LowerChar(c: char): char {
    if IsUpper(c) then (c as int + 32) as char else c
  }

  function Lower(s: string): string {
    seq(|s|, i requires 0 <= i < |s| => LowerChar(s[i]))
  }

  // What stands before and after the first `c`.
  function SplitOnce(s: string, c: char): Option<(string, string)> {
    if s == [] then None
    else if s[0] == c then Some(("", s[1..]))
    else match SplitOnce(s[1..], c)
      case None => None
      case Some(parts) => Some(([s[0]] + parts.0, parts.1))
  }

  lemma {:induction false} SplitsAtFirst(s: string, c: char)
    ensures match SplitOnce(s, c)
      case None => c !in s
      case Some(parts) => c !in parts.0 && s == parts.0 + [c] + parts.1
  {
    if s != [] && s[0] != c {
      SplitsAtFirst(s[1..], c);
      assert s == [s[0]] + s[1..];
    }
  }

  lemma {:induction false} SplitOnceHere(before: string, after: string, c: char)
    requires c !in before
    ensures SplitOnce(before + [c] + after, c) == Some((before, after))
  {
    var s := before + [c] + after;
    if before == "" {
      assert s[1..] == after;
    } else {
      assert s[1..] == before[1..] + [c] + after;
      SplitOnceHere(before[1..], after, c);
      assert before == [before[0]] + before[1..];
    }
  }
}

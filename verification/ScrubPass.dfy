/** Replacing one secret in a text: which replacements a pass makes, and which secrets it can bring back. */
module ScrubPass {
  import opened Text

  const REDACTED := "[redacted]"

  // ----- replacing some of the occurrences -----

  /** Putting the secret back for each replacement gives the text again: nothing else was changed. */
  lemma {:induction false} SplicingBackRestores(t: string, from: nat, cuts: seq<nat>, s: string)
    requires Fits(t, from, cuts, |s|) && AllAt(t, s, cuts)
    ensures from <= |t| && Splice(t, from, cuts, |s|, s) == t[from..]
    decreases |cuts|
  {
    FitsInside(t, from, cuts, |s|);
    if cuts != [] {
      var first, rest := cuts[0], cuts[1..];
      assert At(t, first, s);
      AllAtRest(t, s, cuts);
      SplicingBackRestores(t, first + |s|, rest, s);
      SplicingOneBack(t, from, cuts, s);
    }
  }

  lemma SplicingOneBack(t: string, from: nat, cuts: seq<nat>, s: string)
    requires cuts != [] && Fits(t, from, cuts, |s|) && At(t, cuts[0], s)
    requires Splice(t, cuts[0] + |s|, cuts[1..], |s|, s) == t[cuts[0] + |s|..]
    ensures Splice(t, from, cuts, |s|, s) == t[from..]
  {
    InThree(t, from, cuts[0], cuts[0] + |s|);
  }

  lemma AllAtRest(t: string, s: string, at: seq<nat>)
    requires at != [] && AllAt(t, s, at)
    ensures AllAt(t, s, at[1..])
  {
    forall k | 0 <= k < |at[1..]|
      ensures At(t, at[1..][k], s)
    {
      assert at[1..][k] == at[k + 1];
    }
  }

  // Whether the characters before and after a stretch are not word characters.
  predicate Alone(word: char -> bool, t: string, at: nat, width: nat)
    requires at + width <= |t|
  {
    (at == 0 || !word(t[at - 1])) && (at + width == |t| || !word(t[at + width]))
  }

  // The matches among `at` that stand alone.
  function Whole(word: char -> bool, t: string, from: nat, at: seq<nat>, width: nat): (kept: seq<nat>)
    requires Fits(t, from, at, width)
    ensures Fits(t, from, kept, width)
    decreases |at|
  {
    if at == [] then []
    else
      FitsInside(t, from, at, width);
      var rest := Whole(word, t, at[0] + width, at[1..], width);
      if Alone(word, t, at[0], width) then FitsWithFirst(t, from, at[0], rest, width); [at[0]] + rest
      else FitsEarlier(t, from, at[0] + width, rest, width); rest
  }

  lemma FitsWithFirst(t: string, from: nat, first: nat, rest: seq<nat>, width: nat)
    requires from <= first && Fits(t, first + width, rest, width)
    ensures Fits(t, from, [first] + rest, width)
  {
    assert ([first] + rest)[1..] == rest;
  }

  lemma FitsEarlier(t: string, from: nat, later: nat, cuts: seq<nat>, width: nat)
    requires from <= later && Fits(t, later, cuts, width)
    ensures Fits(t, from, cuts, width)
  {
  }

  /** The whole-word pass replaces exactly the matches that stand alone. */
  lemma {:induction false} WholeKeepsExactlyAlone(word: char -> bool, t: string, from: nat, at: seq<nat>, width: nat,
                                                  p: nat)
    requires Fits(t, from, at, width)
    ensures p in Whole(word, t, from, at, width) <==> p in at && p + width <= |t| && Alone(word, t, p, width)
    decreases |at|
  {
    if at != [] {
      FitsInside(t, from, at, width);
      WholeKeepsExactlyAlone(word, t, at[0] + width, at[1..], width, p);
      assert at == [at[0]] + at[1..];
    }
  }

  function AnywhereCuts(t: string, s: string): (cuts: seq<nat>)
    requires s != []
    ensures Fits(t, 0, cuts, |s|)
  {
    MatchesFit(t, s, 0, 0);
    Matches(t, s, 0)
  }

  function WordCuts(word: char -> bool, t: string, s: string): (cuts: seq<nat>)
    requires s != []
    ensures Fits(t, 0, cuts, |s|)
  {
    MatchesFit(t, s, 0, 0);
    Whole(word, t, 0, Matches(t, s, 0), |s|)
  }

  // ----- secrets that REDACTED cannot help to spell -----

  // With `r` placed `d` characters after the start of `s`, the two disagree somewhere.
  predicate Clashes(s: string, r: string, d: int) {
    exists k :: 0 <= k < |s| && 0 <= k - d < |r| && s[k] != r[k - d]
  }

  /** No overlap of `s` with REDACTED agrees on every shared character. */
  predicate Clean(s: string) {
    forall d :: -|REDACTED| < d < |s| ==> Clashes(s, REDACTED, d)
  }

  lemma GlueSpellsNothing(a: string, b: string, s: string)
    requires Clean(s) && !Occurs(a, s) && !Occurs(b, s)
    ensures !Occurs(a + REDACTED + b, s)
  {
    var t := a + REDACTED + b;
    forall i | 0 <= i <= |t|
      ensures !At(t, i, s)
    {
      if i + |s| <= |a| {
        assert !At(a, i, s) && t[i..i + |s|] == a[i..i + |s|];
      } else if i >= |a| + |REDACTED| {
        var j := i - |a| - |REDACTED|;
        assert j <= |b| ==> !At(b, j, s);
        assert i + |s| <= |t| ==> t[i..i + |s|] == b[j..j + |s|];
      } else {
        var d := |a| - i;
        assert Clashes(s, REDACTED, d);
        var k :| 0 <= k < |s| && 0 <= k - d < |REDACTED| && s[k] != REDACTED[k - d];
        assert i + |s| <= |t| ==> t[i..i + |s|][k] == t[i + k];
      }
    }
  }

  /** A pass over another secret never spells a clean secret that was not there. */
  lemma {:induction false} SpliceSpellsNothing(t: string, from: nat, cuts: seq<nat>, width: nat, s: string)
    requires Fits(t, from, cuts, width) && Clean(s) && !Occurs(t, s)
    ensures !Occurs(Splice(t, from, cuts, width, REDACTED), s)
    decreases |cuts|
  {
    FitsInside(t, from, cuts, width);
    if cuts == [] {
      PartsHaveNoMore(t, from, |t|, s);
      assert t[from..|t|] == t[from..];
    } else {
      PartsHaveNoMore(t, from, cuts[0], s);
      SpliceSpellsNothing(t, cuts[0] + width, cuts[1..], width, s);
      GlueSpellsNothing(t[from..cuts[0]], Splice(t, cuts[0] + width, cuts[1..], width, REDACTED), s);
    }
  }

  /** Replacing a clean secret everywhere leaves it nowhere. */
  lemma {:induction false} ReplacingRemoves(t: string, s: string, from: nat, later: nat)
    requires s != [] && Clean(s) && from <= later <= |t|
    requires forall p :: from <= p < later ==> !At(t, p, s)
    ensures Fits(t, from, Matches(t, s, later), |s|)
    ensures !Occurs(Splice(t, from, Matches(t, s, later), |s|, REDACTED), s)
    decreases |t| - later
  {
    MatchesFit(t, s, from, later);
    if |t| - later < |s| {
      StretchWithout(t, s, from, |t|);
      assert t[from..|t|] == t[from..];
    } else if At(t, later, s) {
      StretchWithout(t, s, from, later);
      ReplacingRemoves(t, s, later + |s|, later + |s|);
      GlueSpellsNothing(t[from..later], Splice(t, later + |s|, Matches(t, s, later + |s|), |s|, REDACTED), s);
    } else {
      ReplacingRemoves(t, s, from, later + 1);
    }
  }

  lemma StretchWithout(t: string, s: string, lo: nat, hi: nat)
    requires lo <= hi <= |t| && forall p :: lo <= p && p + |s| <= hi ==> !At(t, p, s)
    ensures !Occurs(t[lo..hi], s)
  {
    forall i | 0 <= i <= hi - lo
      ensures !At(t[lo..hi], i, s)
    {
      if At(t[lo..hi], i, s) {
        SliceOfSlice(t, lo, hi, i, i + |s|);
        assert At(t, lo + i, s);
      }
    }
  }
}

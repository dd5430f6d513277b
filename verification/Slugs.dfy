/** Slugs: words in lower case, joined by underscores. */
module Slugs {
  import opened Letters
  import opened Segments

  predicate IsAlnum(c: char) {
    IsAlpha(c) || IsDigit(c)
  }

  predicate SlugChar(c: char) {
    IsLower(c) || IsDigit(c)
  }

  // Between a lower-case letter or a digit and an upper-case letter.
  predicate CamelBoundary(before: char, c: char) {
    IsUpper(c) && (IsLower(before) || IsDigit(before))
  }

  predicate EndsWith(s: string, c: char) {
    s != "" && s[|s| - 1] == c
  }

  // One character more; `boundary` when a word ends before it.
  function Push(out: string, c: char, boundary: bool): string {
    if IsAlnum(c) then
      (if boundary && !EndsWith(out, '_') then out + "_" else out) + [LowerChar(c)]
    else if out != "" && !EndsWith(out, '_') then out + "_"
    else out
  }

  predicate BoundaryAt(input: string, k: nat, split: bool)
    requires k < |input|
  {
    split && k > 0 && CamelBoundary(input[k - 1], input[k])
  }

  // What is written for the input before trailing underscores are dropped.
  function Raw(input: string, split: bool): string {
    if input == "" then ""
    else
      var n := |input| - 1;
      Push(Raw(input[..n], split), input[n], BoundaryAt(input, n, split))
  }

  function TrimUnderscores(s: string): (t: string)
    ensures t <= s && !EndsWith(t, '_')
  {
    if EndsWith(s, '_') then TrimUnderscores(s[..|s| - 1]) else s
  }

  function SlugWith(input: string, split: bool): string {
    TrimUnderscores(Raw(input, split))
  }

  function Slug(input: string): string {
    SlugWith(input, true)
  }

  method MakeSlug(input: string, split: bool) returns (out: string)
    ensures out == SlugWith(input, split)
  {
    out := "";
    for k := 0 to |input|
      invariant out == Raw(input[..k], split)
    {
      var c := input[k];
      assert input[..k + 1][..k] == input[..k];
      if IsAlnum(c) {
        var boundary := split && k > 0 && CamelBoundary(input[k - 1], c);
        if boundary && !EndsWith(out, '_') {
          out := out + "_";
        }
        out := out + [LowerChar(c)];
      } else if out != "" && !EndsWith(out, '_') {
        out := out + "_";
      }
    }
    assert input[..|input|] == input;
    while EndsWith(out, '_')
      invariant TrimUnderscores(out) == SlugWith(input, split)
      decreases |out|
    {
      out := out[..|out| - 1];
    }
  }

  // ----- the words of a text -----

  // A word goes on while letters and digits do, up to a camel-case boundary.
  function Words(input: string, split: bool): seq<string> {
    if input == "" then []
    else
      var n := |input| - 1;
      var before, c := Words(input[..n], split), input[n];
      if !IsAlnum(c) then before
      else if before != [] && n > 0 && IsAlnum(input[n - 1]) && !BoundaryAt(input, n, split) then
        before[..|before| - 1] + [before[|before| - 1] + [LowerChar(c)]]
      else before + [[LowerChar(c)]]
  }

  function JoinWords(words: seq<string>): string {
    if words == [] then "" else Join(words, '_')
  }

  predicate IsWord(w: string) {
    w != "" && forall k :: 0 <= k < |w| ==> SlugChar(w[k])
  }

  predicate AllWords(words: seq<string>) {
    forall k :: 0 <= k < |words| ==> IsWord(words[k])
  }

  lemma {:induction false} WordsAreWords(input: string, split: bool)
    ensures AllWords(Words(input, split))
    ensures input != "" && IsAlnum(input[|input| - 1]) ==> Words(input, split) != []
  {
    if input != "" { WordsAreWords(input[..|input| - 1], split); }
  }

  lemma {:induction false} JoinMore(words: seq<string>, last: string)
    requires words != []
    ensures Join(words + [last], '_') == Join(words, '_') + "_" + last
  {
    assert (words + [last])[1..] == words[1..] + [last];
    if |words| == 1 {
      assert words + [last] == [words[0], last];
    } else {
      JoinMore(words[1..], last);
    }
  }

  lemma FrontAndLast(words: seq<string>)
    requires words != []
    ensures words == words[..|words| - 1] + [words[|words| - 1]]
  {
  }

  lemma LastLonger(front: seq<string>, last: string, c: char)
    ensures Join(front + [last + [c]], '_') == Join(front + [last], '_') + [c]
  {
    if front == [] {
      assert front + [last] == [last] && front + [last + [c]] == [last + [c]];
    } else {
      JoinMore(front, last);
      JoinMore(front, last + [c]);
      assert Join(front, '_') + "_" + (last + [c]) == Join(front, '_') + "_" + last + [c];
    }
  }

  lemma {:induction false} JoinedEndsFirmly(words: seq<string>)
    requires words != [] && AllWords(words)
    ensures Join(words, '_') != "" && !EndsWith(Join(words, '_'), '_')
  {
    if |words| == 1 {
      assert IsWord(words[0]);
    } else {
      forall k | 0 <= k < |words[1..]|
        ensures IsWord(words[1..][k])
      {
        assert words[1..][k] == words[k + 1];
      }
      JoinedEndsFirmly(words[1..]);
    }
  }

  // The words so far, and an underscore when a separator followed them.
  function Written(input: string, split: bool): string {
    var words := Words(input, split);
    JoinWords(words) + if words != [] && !IsAlnum(input[|input| - 1]) then "_" else ""
  }

  lemma {:induction false} RawWritesWords(input: string, split: bool)
    ensures Raw(input, split) == Written(input, split)
  {
    if input != "" {
      var n := |input| - 1;
      var front := input[..n];
      RawWritesWords(front, split);
      WordsAreWords(front, split);
      if Words(front, split) == [] {
        assert Raw(front, split) == "";
      } else {
        RawWritesOneMore(input, split);
      }
    }
  }

  lemma RawWritesOneMore(input: string, split: bool)
    requires input != "" && Words(input[..|input| - 1], split) != []
    requires Raw(input[..|input| - 1], split) == Written(input[..|input| - 1], split)
    ensures Raw(input, split) == Written(input, split)
  {
    var n := |input| - 1;
    var front, c := input[..n], input[n];
    var words := Words(front, split);
    WordsAreWords(front, split);
    JoinedEndsFirmly(words);
    assert front[n - 1] == input[n - 1];
    if IsAlnum(front[n - 1]) {
      assert Join(words, '_') + "" == Join(words, '_');
      AfterAWord(input, split);
    } else {
      JoinMore(words, [LowerChar(c)]);
    }
  }

  lemma AfterAWord(input: string, split: bool)
    requires |input| > 1 && IsAlnum(input[|input| - 2])
    requires var words := Words(input[..|input| - 1], split);
      words != [] && Raw(input[..|input| - 1], split) == Join(words, '_') && !EndsWith(Join(words, '_'), '_')
    ensures Raw(input, split) == Written(input, split)
  {
    var n := |input| - 1;
    var words, c := Words(input[..n], split), input[n];
    if !IsAlnum(c) {
      WordsJoinToSomething(input[..n], split);
    } else if BoundaryAt(input, n, split) {
      JoinMore(words, [LowerChar(c)]);
    } else {
      FrontAndLast(words);
      LastLonger(words[..|words| - 1], words[|words| - 1], LowerChar(c));
    }
  }

  lemma WordsJoinToSomething(input: string, split: bool)
    requires Words(input, split) != []
    ensures Join(Words(input, split), '_') != ""
  {
    WordsAreWords(input, split);
    JoinedEndsFirmly(Words(input, split));
  }

  /** A slug is the words of its input, in lower case, joined by underscores. */
  lemma SlugIsItsWords(input: string, split: bool)
    ensures SlugWith(input, split) == JoinWords(Words(input, split)) && AllWords(Words(input, split))
  {
    RawWritesWords(input, split);
    WordsAreWords(input, split);
    var words := Words(input, split);
    if words != [] {
      JoinedEndsFirmly(words);
      var joined := Join(words, '_');
      assert (joined + "_")[..|joined|] == joined;
      assert joined + "" == joined;
    }
  }

  // ----- the words a text is written from -----

  function UpperChar(c: char): char {
    if IsLower(c) then (c as int - 32) as char else c
  }

  function Capital(w: string): string {
    if w == "" then "" else [UpperChar(w[0])] + w[1..]
  }

  // Words one after another, each but the first with a capital letter.
  function CamelCase(words: seq<string>): string {
    if words == [] then ""
    else if |words| == 1 then words[0]
    else CamelCase(words[..|words| - 1]) + Capital(words[|words| - 1])
  }

  // Words one after another, each behind a separator.
  function Spelled(words: seq<string>, separator: char): string {
    if words == [] then ""
    else if |words| == 1 then words[0]
    else Spelled(words[..|words| - 1], separator) + [separator] + words[|words| - 1]
  }

  // The last word, with more letters.
  function Grown(words: seq<string>, w: string): seq<string>
    requires words != []
  {
    words[..|words| - 1] + [words[|words| - 1] + w]
  }

  lemma GrownTwice(words: seq<string>, a: string, b: string)
    requires words != []
    ensures Grown(Grown(words, a), b) == Grown(words, a + b)
  {
    var once := Grown(words, a);
    assert once[..|once| - 1] == words[..|words| - 1];
    assert words[|words| - 1] + a + b == words[|words| - 1] + (a + b);
  }

  // One letter more of a word that is under way.
  lemma LetterGoesOn(before: string, c: char, split: bool)
    requires SlugChar(c) && before != "" && IsAlnum(before[|before| - 1])
    ensures Words(before, split) != [] && Words(before + [c], split) == Grown(Words(before, split), [c])
  {
    WordsAreWords(before, split);
    assert (before + [c])[..|before|] == before;
  }

  lemma {:induction false} WordGoesOn(before: string, w: string, split: bool)
    requires w != "" && forall k :: 0 <= k < |w| ==> SlugChar(w[k])
    requires before != "" && IsAlnum(before[|before| - 1])
    ensures Words(before, split) != [] && Words(before + w, split) == Grown(Words(before, split), w)
    decreases |w|
  {
    LetterGoesOn(before, w[0], split);
    if |w| == 1 {
      OneLetter(before, w, w[0]);
    } else {
      WordGoesOn(before + [w[0]], w[1..], split);
      GrownTwice(Words(before, split), [w[0]], w[1..]);
      FirstOfRest(before, w[0], w[1..]);
      FirstLetter(w);
    }
  }

  lemma FirstLetter(w: string)
    requires w != ""
    ensures [w[0]] + w[1..] == w
  {
  }

  lemma OneLetter(before: string, w: string, first: char)
    requires |w| == 1
    ensures before + ([first] + w[1..]) == before + [first] && w == [w[0]]
  {
  }

  lemma FirstOfRest(before: string, first: char, rest: string)
    ensures before + ([first] + rest) == before + [first] + rest
  {
  }

  // A letter that begins a word.
  lemma LetterBegins(before: string, c: char, split: bool)
    requires IsAlnum(c)
    requires before == "" || !IsAlnum(before[|before| - 1]) || (split && CamelBoundary(before[|before| - 1], c))
    ensures Words(before + [c], split) == Words(before, split) + [[LowerChar(c)]]
  {
    assert (before + [c])[..|before|] == before;
  }

  // A word behind something that ends the word before it.
  lemma WordBegins(before: string, w: string, first: char, split: bool)
    requires IsWord(w) && IsAlnum(first) && LowerChar(first) == w[0]
    requires before == "" || !IsAlnum(before[|before| - 1]) || (split && CamelBoundary(before[|before| - 1], first))
    ensures Words(before + ([first] + w[1..]), split) == Words(before, split) + [w]
  {
    LetterBegins(before, first, split);
    if |w| == 1 {
      OneLetter(before, w, first);
    } else {
      WordGoesOn(before + [first], w[1..], split);
      NewWordGrown(Words(before, split), w);
      FirstOfRest(before, first, w[1..]);
    }
  }

  lemma NewWordGrown(words: seq<string>, w: string)
    requires w != ""
    ensures Grown(words + [[w[0]]], w[1..]) == words + [w]
  {
    assert (words + [[w[0]]])[..|words|] == words;
    assert [w[0]] + w[1..] == w;
  }

  /** Words written behind separators are the words read. */
  lemma {:induction false} SpelledWordsAreRead(words: seq<string>, separator: char, split: bool)
    requires AllWords(words) && !IsAlnum(separator)
    ensures Words(Spelled(words, separator), split) == words
    decreases |words|
  {
    if words != [] {
      var front, last := words[..|words| - 1], words[|words| - 1];
      assert IsWord(last) && words == front + [last] && [last[0]] + last[1..] == last;
      if front == [] {
        WordBegins("", last, last[0], split);
        assert "" + last == last;
      } else {
        SpelledWordsAreRead(front, separator, split);
        var before := Spelled(front, separator) + [separator];
        assert before[..|before| - 1] == Spelled(front, separator);
        WordBegins(before, last, last[0], split);
      }
    }
  }

  // A word that begins with a letter.
  predicate IsName(w: string) {
    IsWord(w) && IsLower(w[0])
  }

  lemma {:induction false} CamelEndsInside(words: seq<string>)
    requires words != [] && (forall k :: 0 <= k < |words| ==> IsName(words[k]))
    requires |words| > 1 ==> |words[|words| - 1]| > 1
    ensures var text := CamelCase(words); text != "" && SlugChar(text[|text| - 1])
  {
    var last := words[|words| - 1];
    assert IsName(last);
    if |words| > 1 {
      var text := CamelCase(words);
      assert text[|text| - 1] == last[|last| - 1];
    }
  }

  /** Words written in camel case are the words read, if the text is split there; else all of it is one. */
  lemma {:induction false} CamelWordsAreRead(words: seq<string>)
    requires forall k :: 0 <= k < |words| ==> IsName(words[k]) && |words[k]| > 1
    ensures Words(CamelCase(words), true) == words
    decreases |words|
  {
    if words != [] {
      var front, last := words[..|words| - 1], words[|words| - 1];
      assert IsName(last) && words == front + [last] && [last[0]] + last[1..] == last;
      if front == [] {
        WordBegins("", last, last[0], true);
        assert "" + last == last;
      } else {
        CamelWordsAreRead(front);
        CamelEndsInside(front);
        WordBegins(CamelCase(front), last, UpperChar(last[0]), true);
      }
    }
  }

  lemma {:induction false} UncutIsOneWord(input: string, split: bool)
    requires input != "" && forall k :: 0 <= k < |input| ==> IsAlnum(input[k])
    requires forall k :: 0 < k < |input| ==> !BoundaryAt(input, k, split)
    ensures Words(input, split) == [Lower(input)]
  {
    var n := |input| - 1;
    if n == 0 {
      assert input[..n] == "" && Lower(input) == [LowerChar(input[0])];
    } else {
      var front := input[..n];
      assert forall k :: 0 < k < n ==> BoundaryAt(front, k, split) == BoundaryAt(input, k, split);
      UncutIsOneWord(front, split);
      assert Lower(input) == Lower(front) + [LowerChar(input[n])];
    }
  }

  /** Letters and digits without a separator are one word if the text is not split at capitals;
      a run of capitals always is. */
  lemma RunsAreOneWord(input: string, split: bool)
    requires input != "" && forall k :: 0 <= k < |input| ==> IsAlnum(input[k])
    requires !split || forall k :: 0 <= k < |input| ==> IsUpper(input[k])
    ensures Words(input, split) == [Lower(input)]
  {
    UncutIsOneWord(input, split);
  }

  // ----- canonical slugs -----

  predicate Canonical(s: string) {
    && (forall k :: 0 <= k < |s| ==> SlugChar(s[k]) || s[k] == '_')
    && (s != "" ==> s[0] != '_' && s[|s| - 1] != '_')
    && (forall k :: 0 < k < |s| ==> s[k - 1] != '_' || s[k] != '_')
  }

  lemma CanonicalJoin(a: string, b: string)
    requires Canonical(a) && Canonical(b) && a != "" && b != ""
    ensures Canonical(a + "_" + b)
  {
  }

  lemma {:induction false} JoinedIsCanonical(words: seq<string>)
    requires words != [] && AllWords(words)
    ensures Canonical(Join(words, '_')) && Join(words, '_') != ""
  {
    assert IsWord(words[0]);
    if |words| > 1 {
      forall k | 0 <= k < |words[1..]|
        ensures IsWord(words[1..][k])
      {
        assert words[1..][k] == words[k + 1];
      }
      JoinedIsCanonical(words[1..]);
      CanonicalJoin(words[0], Join(words[1..], '_'));
    }
  }

  lemma SlugIsCanonical(input: string, split: bool)
    ensures Canonical(SlugWith(input, split))
  {
    SlugIsItsWords(input, split);
    var words := Words(input, split);
    if words != [] { JoinedIsCanonical(words); }
  }

  // No underscore first and no two together; one may be last.
  predicate Spaced(s: string) {
    && (forall k :: 0 <= k < |s| ==> SlugChar(s[k]) || s[k] == '_')
    && (s != "" ==> s[0] != '_')
    && (forall k :: 0 < k < |s| ==> s[k - 1] != '_' || s[k] != '_')
  }

  lemma {:induction false} SpacedIsWrittenAsIs(s: string, split: bool)
    requires Spaced(s)
    ensures Raw(s, split) == s
  {
    if s != "" {
      var n := |s| - 1;
      var front := s[..n];
      assert Spaced(front);
      SpacedIsWrittenAsIs(front, split);
      assert s == front + [s[n]];
      if s[n] == '_' { assert s[n - 1] != '_'; }
    }
  }

  /** Making a slug changes nothing exactly when the text is one; so it is idempotent. */
  lemma SlugKeepsExactlySlugs(s: string, split: bool)
    ensures SlugWith(s, split) == s <==> Canonical(s)
    ensures SlugWith(SlugWith(s, split), split) == SlugWith(s, split)
  {
    SlugIsCanonical(s, split);
    if Canonical(s) { SpacedIsWrittenAsIs(s, split); }
    SpacedIsWrittenAsIs(SlugWith(s, split), split);
  }

  // ----- cutting -----

  function Truncate(slug: string, max: nat): string {
    TrimUnderscores(slug[..if |slug| <= max then |slug| else max])
  }

  /** A cut slug is a slug, no longer than allowed, and empty only if it was or nothing is allowed. */
  lemma TruncatedIsCanonical(slug: string, max: nat)
    requires Canonical(slug)
    ensures var cut := Truncate(slug, max);
      Canonical(cut) && |cut| <= max && cut <= slug && (cut == "" <==> slug == "" || max == 0)
    ensures |slug| <= max ==> Truncate(slug, max) == slug
  {
    var start := slug[..if |slug| <= max then |slug| else max];
    TrimmedIsCanonical(start);
    assert |slug| <= max ==> start == slug;
  }

  lemma {:induction false} TrimmedIsCanonical(s: string)
    requires Spaced(s)
    ensures Canonical(TrimUnderscores(s)) && (s != "" ==> TrimUnderscores(s) != "")
  {
    if EndsWith(s, '_') {
      assert s[0] != '_';
      TrimmedIsCanonical(s[..|s| - 1]);
    }
  }
}

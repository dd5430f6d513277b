/** Splitting a text at every occurrence of one character, and joining the parts again. */
module Segments {
  function Split(s: string, c: char): (parts: seq<string>)
    ensures parts != []
  {
    if s == "" then [""]
    else
      var rest := Split(s[1..], c);
      if s[0] == c then [""] + rest else [[s[0]] + rest[0]] + rest[1..]
  }

  function Join(parts: seq<string>, c: char): string
    requires parts != []
  {
    if |parts| == 1 then parts[0] else parts[0] + [c] + Join(parts[1..], c)
  }

  predicate Without(parts: seq<string>, c: char) {
    forall k :: 0 <= k < |parts| ==> c !in parts[k]
  }

  lemma {:induction false} SplitThenJoin(s: string, c: char)
    ensures Join(Split(s, c), c) == s && Without(Split(s, c), c)
  {
    if s != "" {
      SplitThenJoin(s[1..], c);
      var rest := Split(s[1..], c);
      assert s == [s[0]] + s[1..];
      if s[0] == c {
        assert ([""] + rest)[1..] == rest;
        assert "" + [c] + Join(rest, c) == s;
      } else {
        var first := [s[0]] + rest[0];
        assert ([first] + rest[1..])[1..] == rest[1..];
        if |rest| > 1 { assert [s[0]] + (rest[0] + [c] + Join(rest[1..], c)) == first + [c] + Join(rest[1..], c); }
      }
    }
  }

  lemma {:induction false} JoinThenSplit(parts: seq<string>, c: char)
    requires parts != [] && Without(parts, c)
    ensures Split(Join(parts, c), c) == parts
    decreases |parts|
  {
    if |parts| == 1 {
      SplitOne(parts[0], c);
    } else {
      var rest := parts[1..];
      assert forall k :: 0 <= k < |rest| ==> rest[k] == parts[k + 1];
      JoinThenSplit(rest, c);
      SplitFirst(parts[0], Join(rest, c), c);
      assert parts == [parts[0]] + rest;
    }
  }

  lemma {:induction false} SplitOne(s: string, c: char)
    requires c !in s
    ensures Split(s, c) == [s]
  {
    if s != "" {
      SplitOne(s[1..], c);
      assert [s[0]] + s[1..] == s;
    }
  }

  lemma {:induction false} SplitFirst(first: string, rest: string, c: char)
    requires c !in first
    ensures Split(first + [c] + rest, c) == [first] + Split(rest, c)
  {
    var s := first + [c] + rest;
    if first == "" {
      assert s[1..] == rest;
    } else {
      assert s[1..] == first[1..] + [c] + rest;
      SplitFirst(first[1..], rest, c);
      assert [first[0]] + first[1..] == first;
      assert ([first[1..]] + Split(rest, c))[1..] == Split(rest, c);
    }
  }

  /** The parts hold the characters of the text and no others. */
  lemma {:induction false} PartsComeFromText(s: string, c: char, x: char)
    requires x !in s
    ensures forall k :: 0 <= k < |Split(s, c)| ==> x !in Split(s, c)[k]
  {
    if s != "" { PartsComeFromText(s[1..], c, x); }
  }

  predicate NoneEmpty(parts: seq<string>) {
    forall k :: 0 <= k < |parts| ==> parts[k] != ""
  }

  // Another character follows wherever `c` stands.
  predicate AllFollowed(s: string, c: char) {
    forall k :: 0 <= k < |s| && s[k] == c ==> k + 1 < |s| && s[k + 1] != c
  }

  lemma {:induction false} LaterPartsAreWords(s: string, c: char)
    ensures NoneEmpty(Split(s, c)[1..]) <==> AllFollowed(s, c)
    ensures Split(s, c)[0] != "" <==> s != "" && s[0] != c
  {
    if s != "" {
      var tail, rest := s[1..], Split(s[1..], c);
      LaterPartsAreWords(tail, c);
      FollowedFromTheStart(s, c);
      if s[0] == c {
        assert Split(s, c)[1..] == rest == [rest[0]] + rest[1..];
        assert NoneEmpty(rest) <==> rest[0] != "" && NoneEmpty(rest[1..]);
      } else {
        assert Split(s, c)[1..] == rest[1..];
      }
    }
  }

  lemma FollowedFromTheStart(s: string, c: char)
    requires s != ""
    ensures AllFollowed(s, c) <==> (s[0] == c ==> 1 < |s| && s[1] != c) && AllFollowed(s[1..], c)
  {
    var tail := s[1..];
    if AllFollowed(s, c) {
      assert forall k :: 0 <= k < |tail| && tail[k] == c ==> s[k + 1] == c && k + 1 < |tail| && tail[k + 1] == s[k + 2];
    }
    if AllFollowed(tail, c) {
      assert forall k :: 0 < k < |s| && s[k] == c ==> tail[k - 1] == c && k + 1 < |s| && s[k + 1] == tail[k];
    }
  }

  /** No part is empty exactly when the character stands singly, inside the text. */
  lemma PartsAreWords(s: string, c: char)
    ensures NoneEmpty(Split(s, c)) <==> s != "" && s[0] != c && AllFollowed(s, c)
  {
    LaterPartsAreWords(s, c);
    var parts := Split(s, c);
    assert parts == [parts[0]] + parts[1..];
    assert NoneEmpty(parts) <==> parts[0] != "" && NoneEmpty(parts[1..]);
  }
}

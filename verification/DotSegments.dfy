/** Dot segments, and the remove_dot_segments algorithm of section 5.2.4 of RFC 3986. */
module DotSegments {
  import opened Letters
  import opened Segments
  import opened Text

  predicate IsDots(segment: string) {
    segment == "." || segment == ".."
  }

  function Decoded(segment: string): string {
    Replace(Lower(segment), "%2e", ".")
  }

  // A segment is one or two dots, literally or percent-encoded.
  predicate HasDotSegment(path: string) {
    var segments := Split(path, '/');
    exists k :: 0 <= k < |segments| && IsDots(Decoded(segments[k]))
  }

  // ----- the algorithm of the standard -----

  function UpToSlash(s: string): (n: nat)
    ensures n <= |s| && '/' !in s[..n] && (n < |s| ==> s[n] == '/')
  {
    if s == "" || s[0] == '/' then 0
    else
      var n := UpToSlash(s[1..]);
      assert s[..n + 1] == [s[0]] + s[1..][..n];
      n + 1
  }

  // The length of the first segment, with the slash it may begin with.
  function FirstSegment(s: string): (n: nat)
    requires s != ""
    ensures 1 <= n <= |s|
  {
    1 + UpToSlash(s[1..])
  }

  // The output without its last segment and the slash before it.
  function DropLast(output: string): (front: string)
    ensures |front| <= |output|
  {
    if output == "" then ""
    else if output[|output| - 1] == '/' then output[..|output| - 1]
    else DropLast(output[..|output| - 1])
  }

  function RemoveDots(input: string, output: string): string
    decreases |input|
  {
    if input == "" then output
    else if "../" <= input then RemoveDots(input[3..], output)
    else if "./" <= input then RemoveDots(input[2..], output)
    else if "/./" <= input then RemoveDots(input[2..], output)
    else if input == "/." then RemoveDots("/", output)
    else if "/../" <= input then RemoveDots(input[3..], DropLast(output))
    else if input == "/.." then RemoveDots("/", DropLast(output))
    else if IsDots(input) then RemoveDots("", output)
    else RemoveDots(input[FirstSegment(input)..], output + input[..FirstSegment(input)])
  }

  // ----- paths that begin with a slash -----

  predicate Absolute(path: string) {
    path == "" || path[0] == '/'
  }

  predicate DotFree(path: string) {
    var segments := Split(path, '/');
    forall k :: 0 <= k < |segments| ==> !IsDots(segments[k])
  }

  lemma FirstOfSplit(path: string, n: nat)
    requires path != "" && path[0] == '/' && n == FirstSegment(path)
    ensures Absolute(path[n..]) && Split(path[n..], '/')[0] == ""
    ensures Split(path, '/') == ["", path[1..n]] + Split(path[n..], '/')[1..]
  {
    var first, rest := path[1..n], path[n..];
    assert path[1..][..n - 1] == first;
    assert path[1..] == first + rest;
    SplitFirstSegment(first, rest);
    SplitLeadingSlash(path, first, Split(rest, '/')[1..]);
  }

  lemma SplitLeadingSlash(path: string, first: string, more: seq<string>)
    requires path != "" && path[0] == '/' && Split(path[1..], '/') == [first] + more
    ensures Split(path, '/') == ["", first] + more
  {
  }

  lemma SplitFirstSegment(first: string, rest: string)
    requires '/' !in first && Absolute(rest)
    ensures Split(rest, '/')[0] == ""
    ensures Split(first + rest, '/') == [first] + Split(rest, '/')[1..]
  {
    if rest == "" {
      SplitOne(first, '/');
      assert first + rest == first;
    } else {
      var after := rest[1..];
      assert first + rest == first + ['/'] + after;
      SplitFirst(first, after, '/');
      assert Split(rest, '/')[1..] == Split(after, '/');
    }
  }

  lemma DotFreeStep(path: string, n: nat)
    requires path != "" && path[0] == '/' && n == FirstSegment(path)
    ensures Absolute(path[n..])
    ensures DotFree(path) <==> !IsDots(path[1..n]) && DotFree(path[n..])
  {
    FirstOfSplit(path, n);
    var all, rest := Split(path, '/'), Split(path[n..], '/');
    assert all[1] == path[1..n] && rest[0] == "";
    assert forall k :: 1 <= k < |rest| ==> rest[k] == all[k + 1];
    assert forall k :: 2 <= k < |all| ==> all[k] == rest[k - 1];
  }

  lemma FirstIsDots(path: string, n: nat)
    requires path != "" && path[0] == '/' && n == FirstSegment(path)
    ensures path[1..n] == "." <==> "/./" <= path || path == "/."
    ensures path[1..n] == ".." <==> "/../" <= path || path == "/.."
    ensures !("../" <= path) && !("./" <= path) && !IsDots(path)
  {
    var first := path[1..n];
    assert path[1..][..n - 1] == first;
    if "/./" <= path || path == "/." {
      assert path[1..2] == ".";
      SegmentEnds(path, 2);
    }
    if "/../" <= path || path == "/.." {
      assert path[1..3] == "..";
      SegmentEnds(path, 3);
    }
    assert path[..n] == "/" + first;
    assert n < |path| ==> path[..n + 1] == path[..n] + "/";
  }

  lemma SegmentEnds(path: string, n: nat)
    requires 1 <= n <= |path| && '/' !in path[1..n] && (n < |path| ==> path[n] == '/')
    ensures n == FirstSegment(path)
  {
    assert path[1..][..n - 1] == path[1..n];
    UpToSlashIs(path[1..], n - 1);
  }

  lemma {:induction false} UpToSlashIs(s: string, n: nat)
    requires n <= |s| && '/' !in s[..n] && (n < |s| ==> s[n] == '/')
    ensures UpToSlash(s) == n
  {
    if n > 0 {
      assert s[0] == s[..n][0];
      assert s[1..][..n - 1] == s[..n][1..];
      UpToSlashIs(s[1..], n - 1);
    }
  }

  /** Removing dot segments never lengthens, and shortens a path that has some. */
  lemma {:induction false} RemovingShortens(input: string, output: string)
    requires Absolute(input)
    ensures |RemoveDots(input, output)| <= |input| + |output|
    ensures !DotFree(input) ==> |RemoveDots(input, output)| < |input| + |output|
    decreases |input|
  {
    if input != "" {
      var n := FirstSegment(input);
      FirstIsDots(input, n);
      DotFreeStep(input, n);
      FirstOfSplit(input, n);
      if "/./" <= input {
        RemovingShortens(input[2..], output);
      } else if input == "/." {
        RemovingShortens("/", output);
      } else if "/../" <= input {
        RemovingShortens(input[3..], DropLast(output));
      } else if input == "/.." {
        RemovingShortens("/", DropLast(output));
      } else {
        RemovingShortens(input[n..], output + input[..n]);
      }
    }
  }

  lemma {:induction false} NothingToRemove(input: string, output: string)
    requires Absolute(input) && DotFree(input)
    ensures RemoveDots(input, output) == output + input
    decreases |input|
  {
    if input == "" {
      assert output + input == output;
    } else {
      var n := FirstSegment(input);
      DotFreeStep(input, n);
      SegmentMoves(input, output, n);
      NothingToRemove(input[n..], output + input[..n]);
      Regroup(output, input, n);
    }
  }

  lemma Regroup(output: string, input: string, n: nat)
    requires n <= |input|
    ensures output + input[..n] + input[n..] == output + input
  {
  }

  lemma SegmentMoves(input: string, output: string, n: nat)
    requires input != "" && input[0] == '/' && n == FirstSegment(input) && !IsDots(input[1..n])
    ensures RemoveDots(input, output) == RemoveDots(input[n..], output + input[..n])
  {
    FirstIsDots(input, n);
  }

  /** The standard's algorithm leaves a path alone exactly when it has no dot segment. */
  lemma UnchangedExactlyWhenDotFree(path: string)
    requires Absolute(path)
    ensures RemoveDots(path, "") == path <==> DotFree(path)
  {
    if DotFree(path) { NothingToRemove(path, ""); }
    RemovingShortens(path, "");
  }

  // ----- percent-encoded dots -----

  function DecodedSegments(path: string): (segments: seq<string>)
    ensures segments != []
  {
    var parts := Split(path, '/');
    seq(|parts|, k requires 0 <= k < |parts| => Decoded(parts[k]))
  }

  // The path with every segment decoded.
  function DecodedPath(path: string): string {
    Join(DecodedSegments(path), '/')
  }

  lemma DecodedHasNoSlash(segment: string)
    requires '/' !in segment
    ensures '/' !in Decoded(segment)
  {
    MatchesFit(Lower(segment), "%2e", 0, 0);
    SpliceHasNoOthers(Lower(segment), 0, Matches(Lower(segment), "%2e", 0), 3, ".", '/');
  }

  lemma DecodedPathSplits(path: string)
    requires Absolute(path)
    ensures Split(DecodedPath(path), '/') == DecodedSegments(path) && Absolute(DecodedPath(path))
  {
    var parts, decoded := Split(path, '/'), DecodedSegments(path);
    SplitThenJoin(path, '/');
    forall k | 0 <= k < |decoded|
      ensures '/' !in decoded[k]
    {
      DecodedHasNoSlash(parts[k]);
    }
    JoinThenSplit(decoded, '/');
    assert parts[0] == "";
    assert Decoded("") == "" by { assert Lower("") == ""; }
  }

  lemma DotsDecodeToThemselves(segment: string)
    requires IsDots(segment)
    ensures IsDots(Decoded(segment))
  {
    assert Lower(segment) == segment;
    assert Matches(segment, "%2e", 0) == [];
  }

  /**
  The paths refused are those the algorithm would change once the dots in them are decoded;
  it leaves an accepted path alone as it is written, too.
  */
  lemma RefusesExactlyWhatWouldChange(path: string)
    requires Absolute(path)
    ensures HasDotSegment(path) <==> RemoveDots(DecodedPath(path), "") != DecodedPath(path)
    ensures !HasDotSegment(path) ==> RemoveDots(path, "") == path
  {
    DecodedPathSplits(path);
    UnchangedExactlyWhenDotFree(DecodedPath(path));
    UnchangedExactlyWhenDotFree(path);
    var parts := Split(path, '/');
    assert forall k :: 0 <= k < |parts| ==> DecodedSegments(path)[k] == Decoded(parts[k]);
    if !DotFree(path) {
      var k :| 0 <= k < |parts| && IsDots(parts[k]);
      DotsDecodeToThemselves(parts[k]);
    }
  }
}

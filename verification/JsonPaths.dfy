/**
Where the strings of a JSON value stand, by paths of indices, and which of them a walk
gathers: those no deeper than its limit, in the order of their paths.
*/
module JsonPaths {
  import opened JsonStrings
  import opened JsonValues
  import opened Prelude

  type Path = seq<nat>

  // What an array or an object is made of.
  function Parts(value: Json): seq<Json> {
    match value
    case Array(items) => items
    case Object(entries) => Values(entries)
    case _ => []
  }

  // The text at the end of a path: one index for each level.
  function TextAt(value: Json, path: Path): Option<string>
    decreases |path|
  {
    if path == [] then (if value.String? then Some(value.text) else None)
    else if path[0] < |Parts(value)| then TextAt(Parts(value)[path[0]], path[1..])
    else None
  }

  // In the order a reader meets them.
  predicate Precedes(a: Path, b: Path)
    decreases |a|
  {
    b != [] && (a == [] || a[0] < b[0] || (a[0] == b[0] && Precedes(a[1..], b[1..])))
  }

  ghost predicate InOrder(paths: seq<Path>) {
    forall i, j :: 0 <= i < j < |paths| ==> Precedes(paths[i], paths[j])
  }

  ghost predicate AreAll(value: Json, limit: int, paths: seq<Path>) {
    forall p :: p in paths <==> |p| <= limit && TextAt(value, p).Some?
  }

  ghost predicate LeadTo(value: Json, paths: seq<Path>, texts: seq<string>) {
    |paths| == |texts| && forall i :: 0 <= i < |paths| ==> TextAt(value, paths[i]) == Some(texts[i])
  }

  // `paths` lead to `texts`, one by one, in order, and to all the texts that `limit` levels hold.
  ghost predicate AreTextsAt(value: Json, limit: int, paths: seq<Path>, texts: seq<string>) {
    InOrder(paths) && AreAll(value, limit, paths) && LeadTo(value, paths, texts)
  }

  // The same of the parts of a value, their texts one after another.
  ghost predicate AreAllOfParts(parts: seq<Json>, limit: int, paths: seq<Path>) {
    forall p :: p in paths <==> p != [] && |p| - 1 <= limit && p[0] < |parts| && TextAt(parts[p[0]], p[1..]).Some?
  }

  ghost predicate LeadIntoParts(parts: seq<Json>, paths: seq<Path>, texts: seq<string>) {
    && |paths| == |texts|
    && forall i :: 0 <= i < |paths| ==>
         paths[i] != [] && paths[i][0] < |parts| && TextAt(parts[paths[i][0]], paths[i][1..]) == Some(texts[i])
  }

  ghost predicate ArePartsTexts(parts: seq<Json>, limit: int, paths: seq<Path>, texts: seq<string>) {
    InOrder(paths) && AreAllOfParts(parts, limit, paths) && LeadIntoParts(parts, paths, texts)
  }

  lemma {:induction false} EntriesAreItems(entries: seq<Entry>, depth: nat)
    ensures StringsOfEntries(entries, depth) == StringsOfItems(Values(entries), depth)
  {
    if entries != [] {
      var front, last := entries[..|entries| - 1], entries[|entries| - 1];
      EntriesAreItems(front, depth);
      assert Values(entries)[..|entries| - 1] == Values(front);
    }
  }

  function Behind(index: nat, paths: seq<Path>): seq<Path> {
    seq(|paths|, k requires 0 <= k < |paths| => [index] + paths[k])
  }

  lemma BehindHolds(index: nat, paths: seq<Path>, p: Path)
    ensures p in Behind(index, paths) <==> p != [] && p[0] == index && p[1..] in paths
  {
    if p in Behind(index, paths) {
      var k :| 0 <= k < |paths| && Behind(index, paths)[k] == p;
      assert ([index] + paths[k])[1..] == paths[k];
    }
    if p != [] && p[0] == index && p[1..] in paths {
      var k :| 0 <= k < |paths| && paths[k] == p[1..];
      assert Behind(index, paths)[k] == p;
    }
  }

  lemma PartsInOrder(front: seq<Path>, index: nat, last: seq<Path>)
    requires InOrder(front) && InOrder(last)
    requires forall p :: p in front ==> p != [] && p[0] < index
    ensures InOrder(front + Behind(index, last))
  {
    var all := front + Behind(index, last);
    forall i, j | 0 <= i < j < |all|
      ensures Precedes(all[i], all[j])
    {
      if i >= |front| {
        var a, b := last[i - |front|], last[j - |front|];
        assert Precedes(a, b);
        assert all[i] == [index] + a && all[j] == [index] + b;
        assert ([index] + a)[1..] == a && ([index] + b)[1..] == b;
      } else if j < |front| {
        assert all[i] == front[i] && all[j] == front[j];
      } else {
        assert front[i] in front && all[j][0] == index;
      }
    }
  }

  lemma OneMorePartsPaths(parts: seq<Json>, limit: int, paths: seq<Path>, last: seq<Path>)
    requires parts != [] && AreAllOfParts(parts[..|parts| - 1], limit, paths)
    requires AreAll(parts[|parts| - 1], limit, last)
    ensures AreAllOfParts(parts, limit, paths + Behind(|parts| - 1, last))
    ensures forall p :: p in paths ==> p != [] && p[0] < |parts| - 1
  {
    var n := |parts| - 1;
    forall p
      ensures p in paths + Behind(n, last)
        <==> p != [] && |p| - 1 <= limit && p[0] < |parts| && TextAt(parts[p[0]], p[1..]).Some?
    {
      BehindHolds(n, last, p);
      if p != [] && p[0] < n {
        assert parts[..n][p[0]] == parts[p[0]];
      }
    }
  }

  lemma OneMorePartsTexts(parts: seq<Json>, paths: seq<Path>, texts: seq<string>, last: seq<Path>, more: seq<string>)
    requires parts != [] && LeadIntoParts(parts[..|parts| - 1], paths, texts)
    requires LeadTo(parts[|parts| - 1], last, more)
    ensures LeadIntoParts(parts, paths + Behind(|parts| - 1, last), texts + more)
  {
    var n := |parts| - 1;
    var all := paths + Behind(n, last);
    forall i | 0 <= i < |all|
      ensures all[i] != [] && all[i][0] < |parts| && TextAt(parts[all[i][0]], all[i][1..]) == Some((texts + more)[i])
    {
      if i < |paths| {
        assert parts[..n][paths[i][0]] == parts[paths[i][0]];
      } else {
        assert ([n] + last[i - |paths|])[1..] == last[i - |paths|];
      }
    }
  }

  lemma OneMorePart(parts: seq<Json>, limit: int, paths: seq<Path>, texts: seq<string>,
                    last: seq<Path>, more: seq<string>)
    requires parts != []
    requires ArePartsTexts(parts[..|parts| - 1], limit, paths, texts)
    requires AreTextsAt(parts[|parts| - 1], limit, last, more)
    ensures ArePartsTexts(parts, limit, paths + Behind(|parts| - 1, last), texts + more)
  {
    OneMorePartsPaths(parts, limit, paths, last);
    OneMorePartsTexts(parts, paths, texts, last, more);
    PartsInOrder(paths, |parts| - 1, last);
  }

  // Levels left at a depth.
  function Levels(depth: nat): int {
    MAX_WALK_DEPTH - depth
  }

  lemma {:induction false} PartsTexts(parts: seq<Json>, depth: nat) returns (paths: seq<Path>)
    ensures ArePartsTexts(parts, Levels(depth), paths, StringsOfItems(parts, depth))
    decreases if depth > MAX_WALK_DEPTH then 0 else Levels(depth) + 1, 1, |parts|
  {
    paths := [];
    if parts != [] {
      var n := |parts| - 1;
      paths := PartsTexts(parts[..n], depth);
      var last := PathsOf(parts[n], depth);
      OneMorePart(parts, Levels(depth), paths, StringsOfItems(parts[..n], depth), last, Strings(parts[n], depth));
      paths := paths + Behind(n, last);
    }
  }

  lemma WholeOfParts(value: Json, limit: int, paths: seq<Path>, texts: seq<string>)
    requires !value.String? && ArePartsTexts(Parts(value), limit, paths, texts)
    ensures AreTextsAt(value, limit + 1, paths, texts)
  {
  }

  lemma OneText(text: string, limit: nat)
    ensures AreTextsAt(String(text), limit, [[]], [text])
  {
    var paths: seq<Path> := [[]];
    forall p
      ensures p in paths <==> |p| <= limit && TextAt(String(text), p).Some?
    {
      if p in paths {
        assert p == [];
      } else {
        assert paths[0] == [] && p != [];
      }
    }
  }

  lemma StringsOfParts(value: Json, depth: nat)
    requires depth <= MAX_WALK_DEPTH && !value.String?
    ensures Strings(value, depth) == StringsOfItems(Parts(value), depth + 1)
  {
    if value.Object? {
      EntriesAreItems(value.entries, depth + 1);
    }
  }

  lemma NoTextsDeeper(value: Json, depth: nat)
    requires depth > MAX_WALK_DEPTH
    ensures AreTextsAt(value, Levels(depth), [], Strings(value, depth))
  {
  }

  lemma {:induction false} PathsOf(value: Json, depth: nat) returns (paths: seq<Path>)
    ensures AreTextsAt(value, Levels(depth), paths, Strings(value, depth))
    decreases if depth > MAX_WALK_DEPTH then 0 else Levels(depth) + 1, 0, 0
  {
    if depth > MAX_WALK_DEPTH {
      paths := [];
      NoTextsDeeper(value, depth);
    } else if value.String? {
      paths := [[]];
      OneText(value.text, Levels(depth));
    } else {
      paths := PartsTexts(Parts(value), depth + 1);
      StringsOfParts(value, depth);
      WholeOfParts(value, Levels(depth + 1), paths, StringsOfItems(Parts(value), depth + 1));
    }
  }

  /**
  The strings of a value are its texts at paths of up to eight indices, each of them once, in
  the order of the paths.
  */
  lemma StringsAreTheTexts(value: Json) returns (paths: seq<Path>)
    ensures AreTextsAt(value, MAX_WALK_DEPTH, paths, Strings(value, 0))
  {
    paths := PathsOf(value, 0);
  }

  lemma {:induction false} OrderIsStrict(a: Path, b: Path)
    ensures Precedes(a, b) ==> a != b && !Precedes(b, a)
    ensures a != b ==> Precedes(a, b) || Precedes(b, a)
    decreases |a|
  {
    if a != [] && b != [] {
      OrderIsStrict(a[1..], b[1..]);
      assert a == [a[0]] + a[1..] && b == [b[0]] + b[1..];
    }
  }

  /** There is one such list of paths. */
  lemma {:induction false} OnlyOneOrder(a: seq<Path>, b: seq<Path>)
    requires InOrder(a) && InOrder(b) && forall p :: p in a <==> p in b
    ensures a == b
    decreases |a|
  {
    if a == [] {
      if b != [] {
        FirstIsThere(b);
      }
    } else {
      assert a[0] in b && b != [];
      FirstIsFirst(a, b);
      FirstIsFirst(b, a);
      OrderIsStrict(a[0], b[0]);
      forall p
        ensures p in a[1..] <==> p in b[1..]
      {
        RestHolds(a, p);
        RestHolds(b, p);
      }
      OnlyOneOrder(a[1..], b[1..]);
      assert a == [a[0]] + a[1..] && b == [b[0]] + b[1..];
    }
  }

  lemma FirstIsThere(paths: seq<Path>)
    requires paths != []
    ensures paths[0] in paths
  {
  }

  lemma FirstIsFirst(a: seq<Path>, b: seq<Path>)
    requires InOrder(a) && a != [] && b != [] && b[0] in a
    ensures a[0] == b[0] || Precedes(a[0], b[0])
  {
    var k :| 0 <= k < |a| && a[k] == b[0];
  }

  lemma RestHolds(a: seq<Path>, p: Path)
    requires InOrder(a) && a != []
    ensures p in a[1..] <==> p in a && p != a[0]
  {
    assert a == [a[0]] + a[1..];
    if p in a[1..] {
      var k :| 0 <= k < |a[1..]| && a[1..][k] == p;
      assert Precedes(a[0], a[k + 1]);
      OrderIsStrict(a[0], p);
    }
  }
}

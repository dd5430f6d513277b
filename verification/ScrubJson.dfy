/** Redacting JSON values in place, and the names object entries get when redacted names collide. */
module ScrubJson {
  import opened Decimal
  import opened JsonValues
  import opened Letters
  import opened Prelude
  import opened Scrub
  import opened ScrubPass
  import opened Text

  function Keys(entries: seq<Entry>): set<string> {
    set k | 0 <= k < |entries| :: entries[k].key
  }

  // ----- names that are still free -----

  function Suffix(n: nat): string {
    " (" + Print(n) + ")"
  }

  ghost predicate Tried(taken: set<string>, base: string, n: nat) {
    base in taken && forall m :: 2 <= m < n ==> base + Suffix(m) in taken
  }

  /** The base itself, or the base with the first free number from two. */
  ghost predicate IsFirstFree(taken: set<string>, base: string, key: string) {
    && key !in taken
    && (key == base || exists n: nat :: 2 <= n <= |taken| + 1 && key == base + Suffix(n) && Tried(taken, base, n))
  }

  function Names(base: string, n: nat): set<string> {
    if n <= 2 then {base} else Names(base, n - 1) + {base + Suffix(n - 1)}
  }

  lemma NumeralInName(base: string, n: nat)
    ensures var key := base + Suffix(n); (key[|base| + 2..|key| - 1]) == Print(n) != ""
  {
    PrintThenRead(n);
    var key := base + Suffix(n);
    assert Suffix(n)[2..|Suffix(n)| - 1] == Print(n);
    assert key[|base| + 2..|key| - 1] == Suffix(n)[2..|Suffix(n)| - 1];
  }

  lemma SuffixesDiffer(base: string, m: nat, n: nat)
    requires m != n
    ensures base + Suffix(m) != base + Suffix(n) && base + Suffix(m) != base
  {
    NumeralInName(base, m);
    NumeralInName(base, n);
    PrintThenRead(m);
    PrintThenRead(n);
  }

  lemma {:induction false} NamesAreCounted(base: string, n: nat)
    requires n >= 2
    ensures |Names(base, n)| == n - 1
    ensures forall m :: m >= n ==> base + Suffix(m) !in Names(base, n)
  {
    if n == 2 {
      forall m | m >= n
        ensures base + Suffix(m) !in Names(base, n)
      {
        SuffixesDiffer(base, m, m + 1);
      }
    } else {
      NamesAreCounted(base, n - 1);
      forall m | m >= n
        ensures base + Suffix(m) !in Names(base, n)
      {
        SuffixesDiffer(base, m, n - 1);
      }
    }
  }

  lemma {:induction false} NamesAreTaken(taken: set<string>, base: string, n: nat)
    requires n >= 2 && Tried(taken, base, n)
    ensures Names(base, n) <= taken
  {
    if n > 2 { NamesAreTaken(taken, base, n - 1); }
  }

  /** Numbers tried in vain are fewer than the names taken. */
  lemma TriesAreBounded(taken: set<string>, base: string, n: nat)
    requires n >= 2 && Tried(taken, base, n)
    ensures n <= |taken| + 1
  {
    NamesAreCounted(base, n);
    NamesAreTaken(taken, base, n);
    SmallerSet(Names(base, n), taken);
  }

  lemma FirstFreeIsUnique(taken: set<string>, base: string, a: string, b: string)
    requires IsFirstFree(taken, base, a) && IsFirstFree(taken, base, b)
    ensures a == b
  {
    if a != base && b != base {
      var m: nat :| 2 <= m <= |taken| + 1 && a == base + Suffix(m) && Tried(taken, base, m);
      var n: nat :| 2 <= n <= |taken| + 1 && b == base + Suffix(n) && Tried(taken, base, n);
      assert m == n;
    }
  }

  function FreeFrom(taken: set<string>, base: string, n: nat): (key: string)
    requires n >= 2 && Tried(taken, base, n)
    ensures IsFirstFree(taken, base, key)
    decreases |taken| + 2 - n
  {
    TriesAreBounded(taken, base, n);
    if base + Suffix(n) in taken then FreeFrom(taken, base, n + 1) else base + Suffix(n)
  }

  function UniqueKey(taken: set<string>, base: string): (key: string)
    ensures IsFirstFree(taken, base, key)
  {
    if base in taken then FreeFrom(taken, base, 2) else base
  }

  method FindUniqueKey(taken: set<string>, base: string) returns (key: string)
    ensures key == UniqueKey(taken, base)
  {
    key := base;
    var suffix: nat := 2;
    while key in taken
      invariant suffix >= 2 && (suffix == 2 ==> key == base) && (suffix > 2 ==> key == base + Suffix(suffix - 1))
      invariant suffix > 2 ==> Tried(taken, base, suffix - 1)
      decreases |taken| + 3 - suffix
    {
      TriesAreBounded(taken, base, suffix);
      key := base + Suffix(suffix);
      suffix := suffix + 1;
    }
    assert IsFirstFree(taken, base, key) by {
      if suffix > 2 { TriesAreBounded(taken, base, suffix - 1); }
    }
    FirstFreeIsUnique(taken, base, key, UniqueKey(taken, base));
  }

  // ----- values -----

  function ScrubbedKey(word: char -> bool, scrubber: SecretScrubber, key: string): string {
    Scrubbed(word, scrubber.secrets, scrubber.strict, false, key)
  }

  function ScrubbedText(word: char -> bool, scrubber: SecretScrubber, text: string): string {
    Scrubbed(word, scrubber.secrets, scrubber.strict, true, text)
  }

  function ScrubbedValue(word: char -> bool, scrubber: SecretScrubber, value: Json): Json
    decreases value
  {
    match value
    case String(text) => String(ScrubbedText(word, scrubber, text))
    case Array(items) => Array(ScrubbedItems(word, scrubber, items))
    case Object(entries) => Object(ScrubbedEntries(word, scrubber, entries))
    case _ => value
  }

  function ScrubbedItems(word: char -> bool, scrubber: SecretScrubber, items: seq<Json>): (out: seq<Json>)
    ensures |out| == |items| && forall k :: 0 <= k < |items| ==> out[k] == ScrubbedValue(word, scrubber, items[k])
    decreases items
  {
    if items == [] then []
    else
      var front, last := items[..|items| - 1], items[|items| - 1];
      ScrubbedItems(word, scrubber, front) + [ScrubbedValue(word, scrubber, last)]
  }

  // Each entry goes in under its redacted name, or under the first free numbered one.
  function ScrubbedEntries(word: char -> bool, scrubber: SecretScrubber, entries: seq<Entry>): (out: seq<Entry>)
    ensures |out| == |entries|
    decreases entries
  {
    if entries == [] then []
    else
      var front, last := entries[..|entries| - 1], entries[|entries| - 1];
      var done := ScrubbedEntries(word, scrubber, front);
      var key := UniqueKey(Keys(done), ScrubbedKey(word, scrubber, last.key));
      done + [Entry(key, ScrubbedValue(word, scrubber, last.value))]
  }

  method ScrubValue(word: char -> bool, scrubber: SecretScrubber, value: Json) returns (out: Json)
    ensures out == ScrubbedValue(word, scrubber, value)
    decreases value
  {
    match value {
      case String(text) =>
        var scrubbed := ScrubText(word, scrubber, text, true);
        out := String(scrubbed);
      case Array(items) =>
        var done: seq<Json> := [];
        for k := 0 to |items|
          invariant done == ScrubbedItems(word, scrubber, items[..k])
        {
          var item := ScrubValue(word, scrubber, items[k]);
          done := done + [item];
          assert items[..k + 1][..k] == items[..k];
        }
        assert items[..|items|] == items;
        out := Array(done);
      case Object(entries) =>
        var done: seq<Entry> := [];
        for k := 0 to |entries|
          invariant done == ScrubbedEntries(word, scrubber, entries[..k])
        {
          var item := ScrubValue(word, scrubber, entries[k].value);
          var baseKey := ScrubText(word, scrubber, entries[k].key, false);
          var uniqueKey := FindUniqueKey(Keys(done), baseKey);
          done := done + [Entry(uniqueKey, item)];
          assert entries[..k + 1][..k] == entries[..k];
        }
        assert entries[..|entries|] == entries;
        out := Object(done);
      case _ =>
        out := value;
    }
  }

  predicate DistinctKeys(entries: seq<Entry>) {
    forall i, j :: 0 <= i < j < |entries| ==> entries[i].key != entries[j].key
  }

  lemma {:induction false} NamesStayApart(word: char -> bool, scrubber: SecretScrubber, entries: seq<Entry>)
    ensures var out := ScrubbedEntries(word, scrubber, entries); DistinctKeys(out) && |Keys(out)| == |entries|
  {
    var out := ScrubbedEntries(word, scrubber, entries);
    if entries == [] {
      assert Keys(out) == {};
    } else {
      var front, last := entries[..|entries| - 1], entries[|entries| - 1];
      var done := ScrubbedEntries(word, scrubber, front);
      var key := UniqueKey(Keys(done), ScrubbedKey(word, scrubber, last.key));
      NamesStayApart(word, scrubber, front);
      KeysGrow(done, Entry(key, ScrubbedValue(word, scrubber, last.value)));
    }
  }

  lemma {:induction false} ValuesAreScrubbed(word: char -> bool, scrubber: SecretScrubber, entries: seq<Entry>)
    ensures Values(ScrubbedEntries(word, scrubber, entries)) == ScrubbedItems(word, scrubber, Values(entries))
  {
    if entries != [] {
      var front, last := entries[..|entries| - 1], entries[|entries| - 1];
      ValuesAreScrubbed(word, scrubber, front);
      assert Values(entries)[..|entries| - 1] == Values(front);
      assert Values(entries)[|entries| - 1] == last.value;
      var done := ScrubbedEntries(word, scrubber, front);
      var key := UniqueKey(Keys(done), ScrubbedKey(word, scrubber, last.key));
      ValuesGrow(done, Entry(key, ScrubbedValue(word, scrubber, last.value)));
    }
  }

  /**
  Redacting an object loses no entry: every value is there, scrubbed, and no two entries
  share a name, however many redacted names collide.
  */
  lemma NoEntryIsLost(word: char -> bool, scrubber: SecretScrubber, entries: seq<Entry>)
    ensures var out := ScrubbedEntries(word, scrubber, entries);
      DistinctKeys(out) && Values(out) == ScrubbedItems(word, scrubber, Values(entries)) && |Keys(out)| == |entries|
  {
    NamesStayApart(word, scrubber, entries);
    ValuesAreScrubbed(word, scrubber, entries);
  }

  lemma ValuesGrow(done: seq<Entry>, entry: Entry)
    ensures Values(done + [entry]) == Values(done) + [entry.value]
  {
  }

  lemma KeysGrow(done: seq<Entry>, entry: Entry)
    ensures Keys(done + [entry]) == Keys(done) + {entry.key}
    ensures DistinctKeys(done) && entry.key !in Keys(done) ==> DistinctKeys(done + [entry])
  {
    var more := done + [entry];
    forall k
      ensures k in Keys(more) <==> k in Keys(done) + {entry.key}
    {
      if k in Keys(done) {
        var i :| 0 <= i < |done| && done[i].key == k;
        assert more[i].key == k;
      }
      assert more[|done|].key == entry.key;
    }
  }

  // ----- what the leaves and the names hold -----

  // No string in the value holds `u`.
  predicate NoTextHolds(value: Json, u: string)
    decreases value
  {
    match value
    case String(text) => !Occurs(text, u)
    case Array(items) => forall k :: 0 <= k < |items| ==> NoTextHolds(items[k], u)
    case Object(entries) => forall k :: 0 <= k < |entries| ==> NoTextHolds(entries[k].value, u)
    case _ => true
  }

  /** No text anywhere in a scrubbed value holds a clean secret that is replaced anywhere. */
  lemma {:induction false} LeavesHoldNoSecret(word: char -> bool, scrubber: SecretScrubber, value: Json, u: Secret)
    requires u in scrubber.secrets && Anywhere(u, scrubber.strict, true) && Clean(u)
    ensures NoTextHolds(ScrubbedValue(word, scrubber, value), u)
    decreases value
  {
    match value {
      case String(text) =>
        CleanSecretIsGone(word, scrubber.secrets, scrubber.strict, true, text, u);
      case Array(items) =>
        forall k | 0 <= k < |items|
          ensures NoTextHolds(ScrubbedValue(word, scrubber, items[k]), u)
        {
          LeavesHoldNoSecret(word, scrubber, items[k], u);
        }
      case Object(entries) =>
        var out := ScrubbedEntries(word, scrubber, entries);
        NoEntryIsLost(word, scrubber, entries);
        forall k | 0 <= k < |entries|
          ensures NoTextHolds(out[k].value, u)
        {
          LeavesHoldNoSecret(word, scrubber, entries[k].value, u);
          assert Values(out)[k] == ScrubbedItems(word, scrubber, Values(entries))[k];
        }
      case _ =>
    }
  }
}

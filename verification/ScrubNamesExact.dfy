/**
The secrets that names can be kept free of, exactly: for every other long secret there is a
scrubber and an object whose redacted names spell it again.
*/
module ScrubNamesExact {
  import opened Decimal
  import opened JsonValues
  import opened Letters
  import opened Scrub
  import opened ScrubJson
  import opened ScrubLimits
  import opened ScrubNames
  import opened ScrubPass
  import opened ScrubWords
  import opened SecretOrder
  import opened Text

  /** Whatever else is scrubbed, in whatever value, no name of an object holds `u` afterwards. */
  ghost predicate NeverNamed(word: char -> bool, u: Secret) {
    forall scrubber: SecretScrubber, value: Json ::
      Ordered(scrubber.secrets) && u in scrubber.secrets ==> WellNamed(ScrubbedValue(word, scrubber, value), u)
  }

  /** A long clean secret is kept out of every name exactly when it can overlap no numbered suffix. */
  lemma NeverNamedExactly(word: char -> bool, u: Secret)
    requires Bytes(u) >= MIN_SECRET_LEN && Clean(u)
    ensures NeverNamed(word, u) <==> CleanOfSuffixes(u)
  {
    if CleanOfSuffixes(u) {
      forall scrubber: SecretScrubber, value: Json | u in scrubber.secrets
        ensures WellNamed(ScrubbedValue(word, scrubber, value), u)
      {
        NamesHoldNoSecret(word, scrubber, value, u);
      }
    } else {
      var n := FirstUncleanSuffix(u);
      var scrubber, entries := ObjectNamesSecret(word, u, n);
      assert !WellNamed(ScrubbedValue(word, scrubber, Object(entries)), u);
    }
  }

  lemma FirstUncleanSuffix(u: Secret) returns (n: nat)
    requires !CleanOfSuffixes(u)
    ensures n >= 2 && !CleanOfSuffix(u, n) && forall m: nat :: 2 <= m < n ==> CleanOfSuffix(u, m)
  {
    var some: nat :| some >= 2 && !CleanOfSuffix(u, some);
    n := 2;
    while CleanOfSuffix(u, n)
      invariant 2 <= n <= some && forall m: nat :: 2 <= m < n ==> CleanOfSuffix(u, m)
      decreases some - n
    {
      n := n + 1;
    }
  }

  // The order in which an object's entries are visited.
  predicate InNameOrder(entries: seq<Entry>) {
    forall i, j :: 0 <= i < j < |entries| ==> Less(entries[i].key, entries[j].key)
  }

  /**
  An object that spells `u`: one name as `u` begins, the same name with every lower number,
  and one that becomes the first when a second secret is replaced.
  */
  lemma ObjectNamesSecret(word: char -> bool, u: Secret, n: nat) returns (scrubber: SecretScrubber, entries: seq<Entry>)
    requires Bytes(u) >= MIN_SECRET_LEN && Clean(u)
    requires n >= 2 && !CleanOfSuffix(u, n) && forall m: nat :: 2 <= m < n ==> CleanOfSuffix(u, m)
    ensures Ordered(scrubber.secrets) && u in scrubber.secrets && DistinctKeys(entries) && InNameOrder(entries)
    ensures !NamesAreFreeOf(ScrubbedEntries(word, scrubber, entries), u)
  {
    var d: int :| -|Suffix(n)| < d < |u| <= d + |Suffix(n)| && !Clashes(u, Suffix(n), d);
    var lead := Lead(u, d);
    assert u != Second(u, lead) by { assert u[0] != Second(u, lead)[0]; }
    scrubber := SecretScrubber(InOrder(u, Second(u, lead)), []);
    LiteralsAreDistinct(REDACTED + lead, n);
    var literals := SortByName(Literals(REDACTED + lead, n));
    entries := literals + [Entry(Second(u, lead) + lead, Null)];
    SecondComesLast(u, lead, n, literals);
    OrderedNamesDiffer(entries);
    SecondTakesNextName(word, u, lead, n, scrubber, literals);
    NextNameHolds(u, n, d);
  }

  lemma NextNameHolds(u: Secret, n: nat, d: int)
    requires -|Suffix(n)| < d < |u| <= d + |Suffix(n)| && !Clashes(u, Suffix(n), d)
    ensures Occurs(REDACTED + Lead(u, d) + Suffix(n), u)
  {
    SuffixCompletes(u, Suffix(n), d);
    OccursBehind(REDACTED, Lead(u, d) + Suffix(n), u);
    assert REDACTED + (Lead(u, d) + Suffix(n)) == REDACTED + Lead(u, d) + Suffix(n);
  }

  lemma OrderedNamesDiffer(entries: seq<Entry>)
    requires InNameOrder(entries)
    ensures DistinctKeys(entries)
  {
    forall i, j | 0 <= i < j < |entries|
      ensures entries[i].key != entries[j].key
    {
      LessIsStrict(entries[i].key, entries[j].key);
    }
  }

  // Its name begins with a letter, and the literal ones with a bracket.
  lemma SecondComesLast(u: Secret, lead: string, n: nat, literals: seq<Entry>)
    requires InNameOrder(literals) && forall e :: e in literals <==> e in Literals(REDACTED + lead, n)
    ensures InNameOrder(literals + [Entry(Second(u, lead) + lead, Null)])
  {
    var last := Second(u, lead) + lead;
    assert last[0] == SecondLetter(u);
    forall k | 0 <= k < |literals|
      ensures Less(literals[k].key, last)
    {
      assert literals[k] in literals;
      LiteralsBegin(REDACTED + lead, n, literals[k]);
      assert literals[k].key[0] == (REDACTED + lead)[0] == '[';
    }
  }

  lemma {:induction false} LiteralsBegin(base: string, n: nat, e: Entry)
    requires e in Literals(base, n)
    ensures base <= e.key
  {
    if n > 2 && e in Literals(base, n - 1) {
      LiteralsBegin(base, n - 1, e);
    }
  }

  // ----- sorting by name -----

  lemma {:induction false} SortByName(entries: seq<Entry>) returns (sorted: seq<Entry>)
    requires DistinctKeys(entries)
    ensures InNameOrder(sorted) && forall e :: e in sorted <==> e in entries
  {
    sorted := [];
    if entries != [] {
      var front, last := entries[..|entries| - 1], entries[|entries| - 1];
      var rest := SortByName(front);
      forall e | e in rest
        ensures e.key != last.key
      {
        assert e in front;
      }
      sorted := InsertByName(last, rest);
      assert entries == front + [last];
    }
  }

  lemma {:induction false} InsertByName(e: Entry, list: seq<Entry>) returns (longer: seq<Entry>)
    requires InNameOrder(list) && forall x :: x in list ==> x.key != e.key
    ensures InNameOrder(longer) && forall x :: x in longer <==> x == e || x in list
  {
    if list == [] {
      longer := [e];
    } else if Less(e.key, list[0].key) {
      longer := [e] + list;
      FirstByName(e, list);
    } else {
      var first, rest := list[0], list[1..];
      assert list == [first] + rest && first in list;
      var more := InsertByName(e, rest);
      longer := [first] + more;
      LessIsStrict(e.key, first.key);
      forall k | 0 <= k < |more|
        ensures Less(first.key, more[k].key)
      {
        assert more[k] in more;
        if more[k] != e {
          var i :| 0 <= i < |rest| && rest[i] == more[k];
          assert list[i + 1] == rest[i];
        }
      }
    }
  }

  lemma FirstByName(e: Entry, list: seq<Entry>)
    requires InNameOrder(list) && list != [] && Less(e.key, list[0].key)
    ensures InNameOrder([e] + list)
  {
    forall k | 0 <= k < |list|
      ensures Less(e.key, list[k].key)
    {
      if k > 0 {
        LessChains(e.key, list[0].key, list[k].key);
      }
    }
  }

  // ----- the names they get -----

  // The last entry gets the first name that the literal ones leave free.
  lemma SecondTakesNextName(word: char -> bool, u: Secret, lead: string, n: nat, scrubber: SecretScrubber,
                            literals: seq<Entry>)
    requires Clean(u) && |lead| < |u| && (lead != "" ==> lead[0] == u[0]) && u != Second(u, lead)
    requires n >= 2 && forall m: nat :: 2 <= m < n ==> CleanOfSuffix(u, m)
    requires scrubber == SecretScrubber(InOrder(u, Second(u, lead)), [])
    requires InNameOrder(literals) && forall e :: e in literals <==> e in Literals(REDACTED + lead, n)
    ensures var out := ScrubbedEntries(word, scrubber, literals + [Entry(Second(u, lead) + lead, Null)]);
      |out| > 0 && out[|out| - 1].key == REDACTED + lead + Suffix(n)
  {
    LiteralsAreNames(REDACTED + lead, n);
    SameEntriesSameKeys(literals, Literals(REDACTED + lead, n));
    OrderedNamesDiffer(literals);
    LiteralsHoldNoSecret(u, lead, n);
    LiteralsAreKept(word, scrubber, literals);
    SecondIsReplaced(word, u, lead, scrubber);
    NextFreeName(REDACTED + lead, n);
    LastEntry(word, scrubber, literals, Entry(Second(u, lead) + lead, Null));
  }

  lemma SameEntriesSameKeys(a: seq<Entry>, b: seq<Entry>)
    requires forall e :: e in a <==> e in b
    ensures Keys(a) == Keys(b)
  {
    forall k
      ensures k in Keys(a) <==> k in Keys(b)
    {
      if k in Keys(a) {
        var i :| 0 <= i < |a| && a[i].key == k;
        assert a[i] in b;
      }
      if k in Keys(b) {
        var i :| 0 <= i < |b| && b[i].key == k;
        assert b[i] in a;
      }
    }
  }

  lemma LastEntry(word: char -> bool, scrubber: SecretScrubber, front: seq<Entry>, last: Entry)
    ensures var done := ScrubbedEntries(word, scrubber, front);
      var out := ScrubbedEntries(word, scrubber, front + [last]);
      |out| == |front| + 1 && out[|front|].key == UniqueKey(Keys(done), ScrubbedKey(word, scrubber, last.key))
  {
    assert (front + [last])[..|front|] == front;
  }

  lemma OccursBehind(front: string, back: string, s: string)
    requires Occurs(back, s)
    ensures Occurs(front + back, s)
  {
    var p :| 0 <= p <= |back| && At(back, p, s);
    AtBehind(front, back, p, s);
  }

  // ----- the second secret -----

  // A letter repeated more often than `lead` is long, and that `u` does not begin with.
  function Second(u: Secret, lead: string): (c: Secret)
    ensures |c| == MIN_SECRET_LEN + |lead| && forall k :: 0 <= k < |c| ==> c[k] == SecondLetter(u)
  {
    Run(SecondLetter(u), MIN_SECRET_LEN + |lead|)
  }

  function SecondLetter(u: Secret): (l: char)
    ensures l != u[0] && (l == 'x' || l == 'y')
  {
    if u[0] == 'x' then 'y' else 'x'
  }

  function InOrder(u: Secret, c: Secret): (secrets: seq<Secret>)
    requires u != c
    ensures Ordered(secrets) && forall s :: s in secrets <==> s == u || s == c
  {
    LessIsStrict(u, c);
    if Before(u, c) then [u, c] else [c, u]
  }

  lemma SecondIsClean(u: Secret, lead: string)
    ensures Clean(Second(u, lead)) && Bytes(Second(u, lead)) >= MIN_SECRET_LEN
  {
    var c := Second(u, lead);
    RunBytes(SecondLetter(u), MIN_SECRET_LEN + |lead|);
    assert c[0] == SecondLetter(u);
    forall i | 0 <= i <= |"redacted"|
      ensures !At("redacted", i, c)
    {
      assert i + |c| <= |"redacted"| ==> "redacted"[i..i + |c|][0] == "redacted"[i] != c[0];
    }
    PlainSecretsAreClean(c);
  }

  // A run of a letter does not fit where the letter stands only in a shorter stretch.
  lemma RunDoesNotFit(t: string, lo: nat, hi: nat, l: char, c: Secret)
    requires lo <= hi && |c| > hi - lo && forall k :: 0 <= k < |c| ==> c[k] == l
    requires forall p :: 0 <= p < |t| && t[p] == l ==> lo <= p < hi
    ensures !Occurs(t, c)
  {
    forall i | 0 <= i <= |t|
      ensures !At(t, i, c)
    {
      if i + |c| <= |t| {
        var part := t[i..i + |c|];
        assert part[0] == t[i] && part[|c| - 1] == t[i + |c| - 1];
      }
    }
  }

  lemma SecretNotInSecond(u: Secret, lead: string)
    requires |lead| < |u|
    ensures !Occurs(Second(u, lead) + lead, u)
  {
    var c := Second(u, lead);
    forall j | 0 <= j <= |c + lead|
      ensures !At(c + lead, j, u)
    {
      if j + |u| <= |c + lead| {
        assert (c + lead)[j..j + |u|][0] == c[j];
      }
    }
  }

  lemma ConfinedToFront(c: Secret, key: string, s: string)
    requires !Occurs(c + key, s) || (s == c && forall p :: 0 < p <= |key| ==> !At(c + key, p, c))
    ensures Confined("" + c + key, 0, |c|, s)
  {
    assert "" + c + key == c + key;
  }

  lemma AllConfinedToFront(secrets: seq<Secret>, c: Secret, key: string)
    requires forall s :: s in secrets ==> s == c || !Occurs(c + key, s)
    requires forall p :: 0 < p <= |key| ==> !At(c + key, p, c)
    ensures forall s :: s in secrets ==> Confined("" + c + key, 0, |c|, s)
  {
    forall s | s in secrets
      ensures Confined("" + c + key, 0, |c|, s)
    {
      ConfinedToFront(c, key, s);
    }
  }

  // A name whose front is one of the secrets, and that holds no other.
  lemma FrontIsReplaced(word: char -> bool, scrubber: SecretScrubber, c: Secret, key: string)
    requires Ordered(scrubber.secrets) && c in scrubber.secrets && Bytes(c) >= MIN_SECRET_LEN
    requires forall s :: s in scrubber.secrets ==> Clean(s) && (s == c || !Occurs(c + key, s))
    requires forall p :: 0 < p <= |key| ==> !At(c + key, p, c)
    ensures ScrubbedKey(word, scrubber, c + key) == REDACTED + key
  {
    AllConfinedToFront(scrubber.secrets, c, key);
    NothingBefore(c, key);
    NothingBefore(REDACTED, key);
    ContainerIsReplacedWhole(word, scrubber.secrets, scrubber.strict, false, "", c, key);
  }

  lemma NothingBefore(c: Secret, key: string)
    ensures "" + c + key == c + key
  {
  }

  lemma SecondIsReplaced(word: char -> bool, u: Secret, lead: string, scrubber: SecretScrubber)
    requires Clean(u) && |lead| < |u| && (lead != "" ==> lead[0] == u[0])
    requires u != Second(u, lead) && scrubber == SecretScrubber(InOrder(u, Second(u, lead)), [])
    ensures ScrubbedKey(word, scrubber, Second(u, lead) + lead) == REDACTED + lead
  {
    var c := Second(u, lead);
    var t := c + lead;
    SecondIsClean(u, lead);
    SecretNotInSecond(u, lead);
    forall p | 0 < p <= |lead|
      ensures !At(t, p, c)
    {
      assert t[p..p + |c|][|c| - p] == t[|c|] == lead[0] != c[|c| - p];
    }
    FrontIsReplaced(word, scrubber, c, lead);
  }

  // ----- names that stand in the object as they are -----

  function Literals(base: string, n: nat): seq<Entry> {
    if n <= 2 then [Entry(base, Null)] else Literals(base, n - 1) + [Entry(base + Suffix(n - 1), Null)]
  }

  lemma {:induction false} LiteralsAreNames(base: string, n: nat)
    requires n >= 2
    ensures Keys(Literals(base, n)) == Names(base, n)
  {
    if n == 2 {
      assert Literals(base, n)[0].key == base;
    } else {
      LiteralsAreNames(base, n - 1);
      KeysGrow(Literals(base, n - 1), Entry(base + Suffix(n - 1), Null));
    }
  }

  lemma {:induction false} LiteralsAreDistinct(base: string, n: nat)
    requires n >= 2
    ensures DistinctKeys(Literals(base, n))
  {
    if n > 2 {
      LiteralsAreDistinct(base, n - 1);
      LiteralsAreNames(base, n - 1);
      NamesAreCounted(base, n - 1);
      KeysGrow(Literals(base, n - 1), Entry(base + Suffix(n - 1), Null));
    }
  }

  predicate HoldsNone(key: string, secrets: seq<Secret>) {
    forall s :: s in secrets ==> !Occurs(key, s)
  }

  lemma NameHoldsNoSecret(u: Secret, lead: string, m: nat)
    requires Clean(u) && |lead| < |u| && u != Second(u, lead) && CleanOfSuffix(u, m)
    ensures HoldsNone(REDACTED + lead + Suffix(m), InOrder(u, Second(u, lead)))
  {
    BaseHoldsNoSecret(u, lead);
    NumberedNameHoldsNothing(REDACTED + lead, m, u);
    SecondNotInName(u, lead, m);
  }

  lemma SecondNotInName(u: Secret, lead: string, m: nat)
    ensures !Occurs(REDACTED + lead + Suffix(m), Second(u, lead))
  {
    var t := REDACTED + lead + Suffix(m);
    SuffixHasNoLetters(m);
    forall p | 0 <= p < |t| && !(|REDACTED| <= p < |REDACTED| + |lead|)
      ensures t[p] != SecondLetter(u)
    {
      assert p < |REDACTED| ==> t[p] == REDACTED[p];
      assert p >= |REDACTED| + |lead| ==> t[p] == Suffix(m)[p - |REDACTED| - |lead|];
    }
    RunDoesNotFit(t, |REDACTED|, |REDACTED| + |lead|, SecondLetter(u), Second(u, lead));
  }

  lemma SuffixHasNoLetters(m: nat)
    ensures forall p :: 0 <= p < |Suffix(m)| ==> !IsAlpha(Suffix(m)[p])
  {
    PrintThenRead(m);
    var s := Suffix(m);
    forall p | 0 <= p < |s|
      ensures !IsAlpha(s[p])
    {
      assert 2 <= p < |s| - 1 ==> s[p] == Print(m)[p - 2];
    }
  }

  lemma BaseHoldsNoSecret(u: Secret, lead: string)
    requires Clean(u) && |lead| < |u| && u != Second(u, lead)
    ensures HoldsNone(REDACTED + lead, InOrder(u, Second(u, lead)))
  {
    GlueSpellsNothing("", lead, u);
    assert "" + REDACTED + lead == REDACTED + lead;
    RunDoesNotFit(REDACTED + lead, |REDACTED|, |REDACTED| + |lead|, SecondLetter(u), Second(u, lead));
  }

  lemma {:induction false} LiteralsHoldNoSecret(u: Secret, lead: string, n: nat)
    requires Clean(u) && |lead| < |u| && u != Second(u, lead)
    requires n >= 2 && forall m: nat :: 2 <= m < n ==> CleanOfSuffix(u, m)
    ensures forall e :: e in Literals(REDACTED + lead, n) ==>
      e.value == Null && HoldsNone(e.key, InOrder(u, Second(u, lead)))
  {
    if n == 2 {
      BaseHoldsNoSecret(u, lead);
    } else {
      LiteralsHoldNoSecret(u, lead, n - 1);
      NameHoldsNoSecret(u, lead, n - 1);
    }
  }

  lemma LiteralsAreKept(word: char -> bool, scrubber: SecretScrubber, entries: seq<Entry>)
    requires DistinctKeys(entries)
    requires forall e :: e in entries ==> e.value == Null && HoldsNone(e.key, scrubber.secrets)
    ensures ScrubbedEntries(word, scrubber, entries) == entries
  {
    forall k | 0 <= k < |entries|
      ensures SparesAll(word, scrubber, false, entries[k].key) && entries[k].value == Null
    {
      assert entries[k] in entries;
    }
    HarmlessEntriesAreKept(word, scrubber, entries);
  }

  lemma NextFreeName(base: string, n: nat)
    requires n >= 2
    ensures UniqueKey(Names(base, n), base) == base + Suffix(n)
  {
    NamesAreCounted(base, n);
    NamesWereTried(base, n);
    FirstFreeIsUnique(Names(base, n), base, base + Suffix(n), UniqueKey(Names(base, n), base));
  }
}

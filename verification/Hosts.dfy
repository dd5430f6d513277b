/** Hosts: dotted addresses and domain names. */
module Hosts {
  import opened Decimal
  import opened Letters
  import opened Prelude
  import opened Segments

  const MAX_HOST_LEN := 253
  const MAX_LABEL_LEN := 63

  // Lengths are counted in characters: every other condition leaves ASCII only.
  predicate ValidByte(part: string) {
    1 <= |part| <= 3 && AllDigits(part) && (|part| == 1 || part[0] != '0') && Read(part) <= 255
  }

  predicate ValidIpv4(host: string) {
    var labels := Split(host, '.');
    |labels| == 4 && forall k :: 0 <= k < |labels| ==> ValidByte(labels[k])
  }

  predicate ValidLabel(part: string) {
    && 1 <= |part| <= MAX_LABEL_LEN
    && (forall k :: 0 <= k < |part| ==> IsLower(part[k]) || IsDigit(part[k]) || part[k] == '-')
    && part[0] != '-' && part[|part| - 1] != '-'
    && !exists k :: 0 <= k < |part| - 1 && part[k] == '-' && part[k + 1] == '-'
  }

  predicate ValidDomain(host: string) {
    var labels := Split(host, '.');
    var last := labels[|labels| - 1];
    && host != "" && |host| <= MAX_HOST_LEN
    && !AllDigits(last)
    && !("0x" <= last)
    && forall k :: 0 <= k < |labels| ==> ValidLabel(labels[k])
  }

  // Lower-case letters and digits.
  predicate IsPlain(word: string) {
    forall k :: 0 <= k < |word| ==> IsLower(word[k]) || IsDigit(word[k])
  }

  predicate AreWords(words: seq<string>) {
    words != [] && forall k :: 0 <= k < |words| ==> words[k] != "" && IsPlain(words[k])
  }

  predicate IsHyphened(part: string) {
    forall k :: 0 <= k < |part| ==> IsLower(part[k]) || IsDigit(part[k]) || part[k] == '-'
  }

  /** A label is words of lower-case letters and digits, joined by single hyphens. */
  lemma LabelsExactly(part: string)
    ensures ValidLabel(part) <==>
      |part| <= MAX_LABEL_LEN && exists words: seq<string> :: AreWords(words) && Join(words, '-') == part
  {
    SplitThenJoin(part, '-');
    PartsAreWords(part, '-');
    if ValidLabel(part) {
      PartsArePlain(part);
      assert AllFollowed(part, '-');
      assert AreWords(Split(part, '-'));
    }
    if words: seq<string> :| AreWords(words) && Join(words, '-') == part {
      assert Without(words, '-');
      JoinThenSplit(words, '-');
      JoinedIsHyphened(words);
    }
  }

  lemma {:induction false} PartsArePlain(part: string)
    requires IsHyphened(part)
    ensures forall k :: 0 <= k < |Split(part, '-')| ==> IsPlain(Split(part, '-')[k])
  {
    if part != "" {
      PartsArePlain(part[1..]);
    }
  }

  lemma {:induction false} JoinedIsHyphened(words: seq<string>)
    requires AreWords(words)
    ensures IsHyphened(Join(words, '-'))
    decreases |words|
  {
    if |words| > 1 {
      JoinedIsHyphened(words[1..]);
      assert forall k :: 0 <= k < |words[0]| ==> Join(words, '-')[k] == words[0][k];
    }
  }

  // ----- dotted addresses -----

  datatype Address = Address(a: nat, b: nat, c: nat, d: nat) {
    predicate Bytes() {
      a < 256 && b < 256 && c < 256 && d < 256
    }
  }

  function Dotted(x: Address): string {
    Join([Print(x.a), Print(x.b), Print(x.c), Print(x.d)], '.')
  }

  function ReadAddress(host: string): Address
    requires ValidIpv4(host)
  {
    var labels := Split(host, '.');
    Address(Read(labels[0]), Read(labels[1]), Read(labels[2]), Read(labels[3]))
  }

  lemma ByteIsPrinted(part: string)
    requires ValidByte(part)
    ensures Print(Read(part)) == part
  {
    ReadThenPrint(part);
  }

  lemma PrintedByteIsValid(n: nat)
    requires n < 256
    ensures ValidByte(Print(n)) && Read(Print(n)) == n && '.' !in Print(n)
  {
    PrintThenRead(n);
    PrintIsCanonical(n);
    SmallIsShort(n);
  }

  /** Reading an accepted address and printing it gives the same text. */
  lemma ReadThenDotted(host: string)
    requires ValidIpv4(host)
    ensures ReadAddress(host).Bytes() && Dotted(ReadAddress(host)) == host
  {
    var labels := Split(host, '.');
    ByteIsPrinted(labels[0]);
    ByteIsPrinted(labels[1]);
    ByteIsPrinted(labels[2]);
    ByteIsPrinted(labels[3]);
    SplitThenJoin(host, '.');
    assert labels == [labels[0], labels[1], labels[2], labels[3]];
  }

  /** Every printed address is accepted, and reads back as itself. */
  lemma DottedThenRead(x: Address)
    requires x.Bytes()
    ensures ValidIpv4(Dotted(x)) && ReadAddress(Dotted(x)) == x
  {
    PrintedByteIsValid(x.a);
    PrintedByteIsValid(x.b);
    PrintedByteIsValid(x.c);
    PrintedByteIsValid(x.d);
    JoinThenSplit([Print(x.a), Print(x.b), Print(x.c), Print(x.d)], '.');
  }

  /** A host is accepted as an address exactly when it is four bytes in print. */
  lemma AddressesExactly(host: string)
    ensures ValidIpv4(host) <==> exists x: Address :: x.Bytes() && Dotted(x) == host
  {
    if ValidIpv4(host) {
      ReadThenDotted(host);
      assert ReadAddress(host).Bytes();
    }
    if x: Address :| x.Bytes() && Dotted(x) == host {
      DottedThenRead(x);
    }
  }

  /** No host is both an address and a domain name. */
  lemma AddressIsNoDomain(host: string)
    ensures !(ValidIpv4(host) && ValidDomain(host))
  {
    var labels := Split(host, '.');
    assert |labels| == 4 && ValidByte(labels[3]) ==> AllDigits(labels[|labels| - 1]);
  }

  // ----- the characters of a host -----

  predicate HostChar(c: char) {
    IsLower(c) || IsDigit(c) || c == '-' || c == '.'
  }

  lemma HostCharsOnly(host: string, c: char)
    requires (ValidIpv4(host) || ValidDomain(host)) && c in host
    ensures HostChar(c) && host != ""
  {
    if c != '.' {
      SplitThenJoin(host, '.');
      var labels := Split(host, '.');
      var k := PartWith(labels, '.', c);
      assert ValidByte(labels[k]) || ValidLabel(labels[k]);
    }
  }

  lemma {:induction false} PartWith(parts: seq<string>, sep: char, c: char) returns (k: nat)
    requires parts != [] && c in Join(parts, sep) && c != sep
    ensures k < |parts| && c in parts[k]
  {
    if c in parts[0] {
      k := 0;
    } else {
      k := PartWith(parts[1..], sep, c);
      k := k + 1;
    }
  }
}

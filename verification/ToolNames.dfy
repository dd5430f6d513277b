/** The names of tools. */
module ToolNames {
  import opened Letters
  import opened Segments
  import opened Slugs

  const MAX_TOOL_NAME_LEN := 64
  const TOOL_NAME_PREFIX := "mcp_"
  const MAX_SERVER_SLUG_LEN := 24
  const SUFFIX_HEX_LEN := 6

  function LastPart(name: string, c: char): string {
    var parts := Split(name, c);
    parts[|parts| - 1]
  }

  function TrimAt(s: string): string {
    if s != "" && s[0] == '@' then TrimAt(s[1..]) else s
  }

  predicate IsNoise(word: string) {
    word == "mcp" || word == "server"
  }

  function NonEmpty(words: seq<string>): seq<string> {
    if words == [] then [] else (if words[0] == "" then [] else [words[0]]) + NonEmpty(words[1..])
  }

  function Meaningful(words: seq<string>): seq<string> {
    if words == [] then [] else (if IsNoise(words[0]) then [] else [words[0]]) + Meaningful(words[1..])
  }

  function OrElse(value: string, fallback: string): string {
    if value == "" then fallback else value
  }

  function ChosenWords(name: string): seq<string> {
    var words := NonEmpty(Split(SlugWith(TrimAt(LastPart(name, '/')), false), '_'));
    if Meaningful(words) == [] then words else Meaningful(words)
  }

  function ServerSlug(name: string): string {
    OrElse(Truncate(JoinWords(ChosenWords(name)), MAX_SERVER_SLUG_LEN), "server")
  }

  function ToolSlug(tool: string): string {
    OrElse(Slug(tool), "tool")
  }

  function WithSuffix(server: string, tool: string, suffix: string): string {
    var fixed := |TOOL_NAME_PREFIX| + |server| + 1 + 1 + |suffix|;
    var room := if fixed <= MAX_TOOL_NAME_LEN then MAX_TOOL_NAME_LEN - fixed else 0;
    TOOL_NAME_PREFIX + server + "_" + OrElse(Truncate(tool, room), "tool") + "_" + suffix
  }

  function ToolName(serverName: string, tool: string, digest: string): string {
    var plain := TOOL_NAME_PREFIX + ServerSlug(serverName) + "_" + ToolSlug(tool);
    if |plain| <= MAX_TOOL_NAME_LEN then plain else WithSuffix(ServerSlug(serverName), ToolSlug(tool), digest)
  }

  function DisambiguatedToolName(serverName: string, tool: string, digest: string): string {
    WithSuffix(ServerSlug(serverName), ToolSlug(tool), digest)
  }

  // Six lower-case hexadecimal digits.
  predicate IsDigest(digest: string) {
    |digest| == SUFFIX_HEX_LEN && forall k :: 0 <= k < |digest| ==> IsDigit(digest[k]) || 'a' <= digest[k] <= 'f'
  }

  // ----- the words of a server's name -----

  lemma {:induction false} MeaningfulAreWords(words: seq<string>)
    requires AllWords(words)
    ensures AllWords(Meaningful(words))
    ensures forall w :: w in Meaningful(words) <==> w in words && !IsNoise(w)
  {
    if words != [] {
      MeaningfulAreWords(words[1..]);
      assert words == [words[0]] + words[1..];
    }
  }

  lemma {:induction false} JoinedWordsSplit(words: seq<string>)
    requires AllWords(words)
    ensures NonEmpty(Split(JoinWords(words), '_')) == words
  {
    if words == [] {
      assert Split("", '_') == [""] && NonEmpty([""]) == [];
    } else {
      forall k | 0 <= k < |words|
        ensures '_' !in words[k]
      {
        assert IsWord(words[k]);
      }
      JoinThenSplit(words, '_');
      NonEmptyKeepsWords(words);
    }
  }

  lemma {:induction false} NonEmptyKeepsWords(words: seq<string>)
    requires AllWords(words)
    ensures NonEmpty(words) == words
  {
    if words != [] {
      assert IsWord(words[0]);
      forall k | 0 <= k < |words[1..]|
        ensures IsWord(words[1..][k])
      {
        assert words[1..][k] == words[k + 1];
      }
      NonEmptyKeepsWords(words[1..]);
      assert words == [words[0]] + words[1..];
    }
  }

  // The words of the last segment of a server's name, without the scope's sign.
  function SegmentWords(name: string): seq<string> {
    Words(TrimAt(LastPart(name, '/')), false)
  }

  lemma FirstWordIsThere(words: seq<string>)
    requires words != []
    ensures exists w :: w in words
  {
    assert words[0] in words;
  }

  /** The words kept are those of the last segment, in order: all of them, or all but noise when another is left. */
  lemma ServerWords(name: string)
    ensures AllWords(ChosenWords(name)) && '/' !in LastPart(name, '/')
    ensures ChosenWords(name)
      == if exists w :: w in SegmentWords(name) && !IsNoise(w) then Meaningful(SegmentWords(name))
        else SegmentWords(name)
    ensures forall w :: w in Meaningful(SegmentWords(name)) <==> w in SegmentWords(name) && !IsNoise(w)
  {
    var segment := TrimAt(LastPart(name, '/'));
    SlugIsItsWords(segment, false);
    JoinedWordsSplit(SegmentWords(name));
    MeaningfulAreWords(SegmentWords(name));
    SplitThenJoin(name, '/');
    if w :| w in SegmentWords(name) && !IsNoise(w) {
      assert w in Meaningful(SegmentWords(name));
    } else if Meaningful(SegmentWords(name)) != [] {
      FirstWordIsThere(Meaningful(SegmentWords(name)));
    }
  }

  /** The server's part is a slug, never empty, and short. */
  lemma ServerSlugIsShort(name: string)
    ensures var server := ServerSlug(name); Canonical(server) && 1 <= |server| <= MAX_SERVER_SLUG_LEN
  {
    ServerWords(name);
    var words := ChosenWords(name);
    if words != [] { JoinedIsCanonical(words); }
    TruncatedIsCanonical(JoinWords(words), MAX_SERVER_SLUG_LEN);
    FixedWordsAreCanonical();
  }

  lemma ToolSlugIsNeverEmpty(tool: string)
    ensures Canonical(ToolSlug(tool)) && ToolSlug(tool) != ""
  {
    SlugIsCanonical(tool, true);
    FixedWordsAreCanonical();
  }

  // ----- names -----

  predicate IsSafeName(name: string) {
    TOOL_NAME_PREFIX <= name && Canonical(name) && |name| <= MAX_TOOL_NAME_LEN
  }

  /** A shortened name keeps a part of the tool's slug: the fallback is never needed. */
  lemma SuffixedNameIsSafe(server: string, tool: string, digest: string)
    requires Canonical(server) && 1 <= |server| <= MAX_SERVER_SLUG_LEN
    requires Canonical(tool) && tool != "" && IsDigest(digest)
    ensures IsSafeName(WithSuffix(server, tool, digest))
    ensures var cut := Truncate(tool, 52 - |server|);
      cut != "" && cut <= tool
        && WithSuffix(server, tool, digest) == TOOL_NAME_PREFIX + server + "_" + cut + "_" + digest
  {
    TruncatedIsCanonical(tool, 52 - |server|);
    SuffixedForm(server, tool, digest);
    FourParts(server, Truncate(tool, 52 - |server|), digest);
  }

  lemma SuffixedForm(server: string, tool: string, digest: string)
    requires |server| <= MAX_SERVER_SLUG_LEN && |digest| == SUFFIX_HEX_LEN && Truncate(tool, 52 - |server|) != ""
    ensures WithSuffix(server, tool, digest)
      == TOOL_NAME_PREFIX + server + "_" + Truncate(tool, 52 - |server|) + "_" + digest
  {
    assert |TOOL_NAME_PREFIX| == 4;
  }

  lemma FourParts(server: string, cut: string, digest: string)
    requires Canonical(server) && server != "" && Canonical(cut) && cut != "" && IsDigest(digest)
    ensures Canonical(TOOL_NAME_PREFIX + server + "_" + cut + "_" + digest)
  {
    PrefixedIsCanonical(server);
    CanonicalJoin(TOOL_NAME_PREFIX + server, cut);
    DigestIsCanonical(digest);
    CanonicalJoin(TOOL_NAME_PREFIX + server + "_" + cut, digest);
  }

  lemma DigestIsCanonical(digest: string)
    requires IsDigest(digest)
    ensures Canonical(digest)
  {
  }

  lemma FixedWordsAreCanonical()
    ensures Canonical("mcp") && Canonical("server") && Canonical("tool")
  {
  }

  lemma PrefixedIsCanonical(server: string)
    requires Canonical(server) && server != ""
    ensures Canonical(TOOL_NAME_PREFIX + server)
  {
    FixedWordsAreCanonical();
    CanonicalJoin("mcp", server);
    assert "mcp" + "_" + server == TOOL_NAME_PREFIX + server;
  }

  /** Every name made, for any server, tool and digest, is one every provider accepts. */
  lemma NamesAreSafe(serverName: string, tool: string, digest: string)
    requires IsDigest(digest)
    ensures IsSafeName(ToolName(serverName, tool, digest))
    ensures IsSafeName(DisambiguatedToolName(serverName, tool, digest))
  {
    var server, part := ServerSlug(serverName), ToolSlug(tool);
    ServerSlugIsShort(serverName);
    ToolSlugIsNeverEmpty(tool);
    SuffixedNameIsSafe(server, part, digest);
    PrefixedIsCanonical(server);
    CanonicalJoin(TOOL_NAME_PREFIX + server, part);
  }

  /** A disambiguated name ends in its digest, so names with different digests differ. */
  lemma NameEndsInDigest(serverName: string, tool: string, digest: string)
    requires IsDigest(digest)
    ensures var name := DisambiguatedToolName(serverName, tool, digest);
      |name| > SUFFIX_HEX_LEN && name[|name| - SUFFIX_HEX_LEN..] == digest && name[|name| - SUFFIX_HEX_LEN - 1] == '_'
  {
    ServerSlugIsShort(serverName);
    ToolSlugIsNeverEmpty(tool);
    SuffixedNameIsSafe(ServerSlug(serverName), ToolSlug(tool), digest);
  }

  // ----- what a name says -----

  /** The last segment is what stands behind the last slash; the scope's sign is taken off it, and no more. */
  lemma SegmentIsLast(name: string) returns (before: string, signs: string)
    ensures name == before + LastPart(name, '/') && '/' !in LastPart(name, '/')
    ensures before == "" || before[|before| - 1] == '/'
    ensures LastPart(name, '/') == signs + TrimAt(LastPart(name, '/'))
    ensures forall c :: c in signs ==> c == '@'
    ensures TrimAt(LastPart(name, '/')) != "" ==> TrimAt(LastPart(name, '/'))[0] != '@'
  {
    before := LastPartEnds(name, '/');
    SplitThenJoin(name, '/');
    signs := OnlySignsGo(LastPart(name, '/'));
  }

  lemma {:induction false} LastPartEnds(s: string, c: char) returns (before: string)
    ensures s == before + LastPart(s, c) && (before == "" || before[|before| - 1] == c)
  {
    before := "";
    if s != "" {
      var parts := Split(s[1..], c);
      assert s == [s[0]] + s[1..];
      if s[0] == c || |parts| > 1 {
        before := LastPartEnds(s[1..], c);
        assert LastPart(s, c) == LastPart(s[1..], c);
        if before == "" {
          LastOfMany(s[1..], c);
        }
        before := [s[0]] + before;
      } else {
        SplitThenJoin(s[1..], c);
        assert LastPart(s, c) == [s[0]] + parts[0];
      }
    }
  }

  // With more than one part, the last is not everything.
  lemma LastOfMany(s: string, c: char)
    ensures |Split(s, c)| > 1 ==> LastPart(s, c) != s
  {
    SplitThenJoin(s, c);
    if c !in s {
      SplitOne(s, c);
    }
  }

  lemma {:induction false} OnlySignsGo(s: string) returns (signs: string)
    ensures s == signs + TrimAt(s) && forall c :: c in signs ==> c == '@'
    ensures TrimAt(s) != "" ==> TrimAt(s)[0] != '@'
  {
    signs := "";
    if s != "" && s[0] == '@' {
      var rest := OnlySignsGo(s[1..]);
      signs := "@" + rest;
      assert s == [s[0]] + s[1..];
    }
  }

  // The server's words, or the one that stands in for none.
  function ServerParts(name: string): seq<string> {
    if ChosenWords(name) == [] then ["server"] else ChosenWords(name)
  }

  function ToolParts(tool: string): seq<string> {
    if Words(tool, true) == [] then ["tool"] else Words(tool, true)
  }

  lemma ServerPartsAreWords(name: string)
    ensures AllWords(ServerParts(name)) && ServerSlug(name) <= JoinWords(ServerParts(name))
    ensures |JoinWords(ServerParts(name))| <= MAX_SERVER_SLUG_LEN ==> ServerSlug(name) == JoinWords(ServerParts(name))
  {
    ServerWords(name);
    var words := ChosenWords(name);
    if words != [] {
      JoinedIsCanonical(words);
      TruncatedIsCanonical(JoinWords(words), MAX_SERVER_SLUG_LEN);
    }
  }

  lemma ToolPartsAreWords(tool: string)
    ensures AllWords(ToolParts(tool)) && ToolSlug(tool) == JoinWords(ToolParts(tool))
  {
    SlugIsItsWords(tool, true);
    if Words(tool, true) != [] {
      JoinedIsCanonical(Words(tool, true));
    }
  }

  lemma {:induction false} JoinBoth(a: seq<string>, b: seq<string>, c: char)
    requires a != [] && b != []
    ensures Join(a + b, c) == Join(a, c) + [c] + Join(b, c)
    decreases |a|
  {
    assert (a + b)[1..] == a[1..] + b;
    if |a| > 1 {
      JoinBoth(a[1..], b, c);
      assert a[0] + [c] + (Join(a[1..], c) + [c] + Join(b, c)) == a[0] + [c] + Join(a[1..], c) + [c] + Join(b, c);
    } else {
      assert a[1..] + b == b;
    }
  }

  lemma ThreeParts(server: seq<string>, tool: seq<string>)
    requires server != [] && tool != [] && AllWords(server) && AllWords(tool)
    ensures Split(TOOL_NAME_PREFIX + JoinWords(server) + "_" + JoinWords(tool), '_') == ["mcp"] + server + tool
  {
    var all := ["mcp"] + server + tool;
    JoinBoth(["mcp"], server, '_');
    JoinBoth(["mcp"] + server, tool, '_');
    assert TOOL_NAME_PREFIX == "mcp" + ['_'];
    assert "mcp" + ['_'] + Join(server, '_') == TOOL_NAME_PREFIX + JoinWords(server);
    forall k | 0 <= k < |all|
      ensures '_' !in all[k]
    {
      if 0 < k <= |server| {
        assert IsWord(server[k - 1]);
      } else if k > |server| {
        assert IsWord(tool[k - 1 - |server|]);
      }
    }
    JoinThenSplit(all, '_');
  }

  /**
  A name that fits reads as it should: the prefix, the words of the server, the words of the
  tool. No name that fits is shortened, and one that does not ends in its digest.
  */
  lemma NamesReadAsWords(serverName: string, tool: string, digest: string)
    requires IsDigest(digest)
    ensures var (server, parts) := (ServerParts(serverName), ToolParts(tool));
      |JoinWords(server)| <= MAX_SERVER_SLUG_LEN ==>
        var name := ToolName(serverName, tool, digest);
        if |TOOL_NAME_PREFIX| + |JoinWords(server)| + 1 + |JoinWords(parts)| <= MAX_TOOL_NAME_LEN
        then Split(name, '_') == ["mcp"] + server + parts
        else name == DisambiguatedToolName(serverName, tool, digest)
  {
    ServerPartsAreWords(serverName);
    ToolPartsAreWords(tool);
    ThreeParts(ServerParts(serverName), ToolParts(tool));
  }

  /** A shortened name is the prefix, the server's part, a start of the tool's part, and the digest. */
  lemma ShortenedNamesKeepTheirOrder(serverName: string, tool: string, digest: string) returns (cut: string)
    requires IsDigest(digest)
    ensures cut != "" && cut <= JoinWords(ToolParts(tool))
    ensures DisambiguatedToolName(serverName, tool, digest)
      == TOOL_NAME_PREFIX + ServerSlug(serverName) + "_" + cut + "_" + digest
    ensures ServerSlug(serverName) <= JoinWords(ServerParts(serverName))
  {
    ServerSlugIsShort(serverName);
    ToolSlugIsNeverEmpty(tool);
    ServerPartsAreWords(serverName);
    ToolPartsAreWords(tool);
    SuffixedNameIsSafe(ServerSlug(serverName), ToolSlug(tool), digest);
    cut := Truncate(ToolSlug(tool), 52 - |ServerSlug(serverName)|);
  }
}

/** What the lines of a blocklist yield: hosts-file lines, lines of several names, comments. */
module HostsLines {
  import opened Text
  import opened Loader
  import opened LoaderFixpoint
  import opened FilterRules
  import opened LocalTrie
  import opened NameRules

  // ---------------------------------------------------------------- lines of words

  predicate Gap(sep: string) {
    sep != "" && forall i :: 0 <= i < |sep| ==> IsSpace(sep[i])
  }

  ghost predicate Word(w: string) {
    w != "" && NoSpace(w) && '#' !in w
  }

  /** The words with gaps between them. */
  function Joined(words: seq<string>, sep: string): string {
    if words == [] then ""
    else if |words| == 1 then words[0]
    else words[0] + (sep + Joined(words[1..], sep))
  }

  lemma {:induction false} FieldsOfGap(sep: string, s: string)
    requires forall i :: 0 <= i < |sep| ==> IsSpace(sep[i])
    ensures Fields(sep + s) == Fields(s)
  {
    if sep == "" {
      AppendNothing(s);
    } else {
      assert (sep + s)[1..] == sep[1..] + s;
      FieldsOfGap(sep[1..], s);
    }
  }

  lemma WordLengthOf(w: string, s: string)
    requires NoSpace(w) && s != "" && IsSpace(s[0])
    ensures WordLength(w + s) == |w|
  {
    var n := WordLength(w + s);
    assert forall i :: 0 <= i < |w| ==> (w + s)[i] == w[i];
    assert (w + s)[|w|] == s[0];
  }

  lemma FieldsCons(w: string, sep: string, s: string)
    requires w != "" && NoSpace(w) && Gap(sep)
    ensures Fields(w + (sep + s)) == [w] + Fields(s)
  {
    var line := w + (sep + s);
    WordLengthOf(w, sep + s);
    assert line[..|w|] == w && line[|w|..] == sep + s;
    assert line[0] == w[0];
    FieldsOfGap(sep, s);
  }

  lemma {:induction false} FieldsOfJoined(words: seq<string>, sep: string)
    requires Gap(sep) && forall w :: w in words ==> w != "" && NoSpace(w)
    ensures Fields(Joined(words, sep)) == words
  {
    if |words| == 1 {
      assert words[0] in words;
      FieldsOfWord(words[0]);
    } else if words != [] {
      assert words[0] in words && forall w :: w in words[1..] ==> w in words;
      FieldsOfJoined(words[1..], sep);
      FieldsCons(words[0], sep, Joined(words[1..], sep));
    }
  }

  lemma {:induction false} JoinedUncommented(words: seq<string>, sep: string)
    requires Gap(sep) && forall w :: w in words ==> '#' !in w
    ensures '#' !in Joined(words, sep)
  {
    if |words| > 1 {
      JoinedUncommented(words[1..], sep);
    }
  }

  lemma NoHash(line: string)
    requires '#' !in line
    ensures Uncommented(line) == line
  {
  }

  lemma CandidatesOfJoined(words: seq<string>, sep: string)
    requires Gap(sep) && words != [] && forall w :: w in words ==> Word(w)
    ensures Candidates(Joined(words, sep)) == if words[0] in LOOPBACK_ADDRESSES then words[1..] else words
  {
    FieldsOfJoined(words, sep);
    JoinedUncommented(words, sep);
    NoHash(Joined(words, sep));
  }

  // ---------------------------------------------------------------- one word to a line

  lemma OneWord(w: string)
    requires Word(w) && w != "127.0.0.1"
    ensures ValidDomains(Candidates(w)) == ValidDomains([w])
  {
    NoHash(w);
    FieldsOfWord(w);
    if w in LOOPBACK_ADDRESSES {
      SingleDomain(w);
      AddressIsInvalid(w);
    }
  }

  lemma AddressIsInvalid(w: string)
    requires w in LOOPBACK_ADDRESSES && w != "127.0.0.1"
    ensures !IsValidDomain(Normalize(w))
  {
    AddressIsSettled(w);
    NormalizeFixpoint(w);
    if w != "0.0.0.0" {
      assert w[0] == ':';
      if IsValidDomain(w) { ValidCharacters(w); }
    }
  }

  lemma AddressIsSettled(w: string)
    requires w in LOOPBACK_ADDRESSES
    ensures Settled(w)
  {
    assert w == "0.0.0.0" || w == "127.0.0.1" || w == "::1" || w == "::";
    assert w[0] == '0' || w[0] == '1' || w[0] == ':';
    assert w[|w| - 1] == '0' || w[|w| - 1] == '1' || w[|w| - 1] == ':';
    NotAffix(w, "||");
    NotAffix(w, "^");
    NotAffix(w, ".");
  }

  lemma {:induction false} ValidConcat(a: seq<string>, b: seq<string>)
    ensures ValidDomains(a + b) == ValidDomains(a) + ValidDomains(b)
    decreases |b|
  {
    if b == [] {
      AppendNothing(a);
      AppendNothing(ValidDomains(a));
    } else {
      FrontOfConcat(a, b);
      ValidConcat(a, Front(b));
      var clean := Normalize(Last(b));
      AppendAssociates(ValidDomains(a), ValidDomains(Front(b)), if IsValidDomain(clean) then [clean] else []);
    }
  }

  lemma {:induction false} WordsAsLines(words: seq<string>)
    requires forall w :: w in words ==> Word(w) && w != "127.0.0.1"
    ensures Tokens(words) == ValidDomains(words)
  {
    if words != [] {
      var init, last := Front(words), Last(words);
      WordsAsLines(init);
      OneWord(last);
      FrontLast(words);
      ValidConcat(init, [last]);
    }
  }

  // ---------------------------------------------------------------- lines within a list

  lemma SameLines(before: seq<string>, a: seq<string>, b: seq<string>, after: seq<string>)
    requires Tokens(a) == Tokens(b)
    ensures Parsed(before + (a + after)) == Parsed(before + (b + after))
  {
    TokensConcat(before, a + after);
    TokensConcat(a, after);
    TokensConcat(before, b + after);
    TokensConcat(b, after);
  }

  /** A hosts-file line, an address followed by hosts, anywhere in a list yields what the hosts one to a
      line yield. */
  lemma HostsLine(before: seq<string>, address: string, hosts: seq<string>, sep: string, after: seq<string>)
    requires address == "0.0.0.0" || address == "127.0.0.1" || address == "::1" || address == "::"
    requires Gap(sep) && forall h :: h in hosts ==> Word(h) && h != "127.0.0.1"
    ensures Parsed(before + ([Joined([address] + hosts, sep)] + after)) == Parsed(before + (hosts + after))
  {
    var words := [address] + hosts;
    AddressIsWord(address);
    CandidatesOfJoined(words, sep);
    WordsAsLines(hosts);
    TokensOfLine(Joined(words, sep));
    SameLines(before, [Joined(words, sep)], hosts, after);
  }

  lemma AddressIsWord(address: string)
    requires address in LOOPBACK_ADDRESSES
    ensures Word(address)
  {
    assert forall i :: 0 <= i < |address| ==> address[i] == '0' || address[i] == '1' || address[i] == '2' || address[i] == '7'
                                              || address[i] == '.' || address[i] == ':';
  }

  lemma NotAnAddress(w: string)
    requires w != "0.0.0.0" && w != "127.0.0.1" && w != "::1" && w != "::"
    ensures w !in LOOPBACK_ADDRESSES
  {
  }

  /** A line of several names yields what they yield one to a line. */
  lemma NamesLine(before: seq<string>, names: seq<string>, sep: string, after: seq<string>)
    requires Gap(sep) && forall h :: h in names ==> Word(h) && h != "127.0.0.1"
    requires names != [] && names[0] != "0.0.0.0" && names[0] != "::1" && names[0] != "::"
    ensures Parsed(before + ([Joined(names, sep)] + after)) == Parsed(before + (names + after))
  {
    assert names[0] in names;
    CandidatesOfJoined(names, sep);
    NotAnAddress(names[0]);
    WordsAsLines(names);
    TokensOfLine(Joined(names, sep));
    SameLines(before, [Joined(names, sep)], names, after);
  }

  /** A comment changes nothing. */
  lemma CommentedLine(before: seq<string>, line: string, comment: string, after: seq<string>)
    requires '#' !in line
    ensures Parsed(before + ([line + ("#" + comment)] + after)) == Parsed(before + ([line] + after))
  {
    var commented := line + ("#" + comment);
    NoHash(line);
    assert commented[|line|] == '#' && forall k :: 0 <= k < |line| ==> commented[k] == line[k];
    assert IndexOf(commented, '#') == |line|;
    assert commented[..|line|] == line;
    TokensOfLine(commented);
    TokensOfLine(line);
    SameLines(before, [commented], [line], after);
  }

  /** As a host the loopback address is listed; on a line of its own it heads a hosts-file line without hosts. */
  lemma LoopbackHost(address: string, sep: string)
    requires address == "0.0.0.0" || address == "127.0.0.1" || address == "::1" || address == "::"
    requires Gap(sep)
    ensures Parsed([Joined([address, "127.0.0.1"], sep)]) == ["127.0.0.1"] && Parsed(["127.0.0.1"]) == []
  {
    LoopbackAsHost(address, "127.0.0.1", sep);
    LoopbackAlone("127.0.0.1");
  }

  lemma LoopbackAsHost(address: string, h: string, sep: string)
    requires address in LOOPBACK_ADDRESSES && h == "127.0.0.1" && Gap(sep)
    ensures Parsed([Joined([address, h], sep)]) == [h]
  {
    var words := [address, h];
    AddressIsWord(address);
    AddressIsWord(h);
    CandidatesOfJoined(words, sep);
    assert words[1..] == [h];
    TokensOfLine(Joined(words, sep));
    LoopbackIsKept();
  }

  lemma LoopbackAlone(h: string)
    requires h in LOOPBACK_ADDRESSES
    ensures Parsed([h]) == []
  {
    AddressIsWord(h);
    CandidatesOfJoined([h], " ");
    assert Joined([h], " ") == h && [h][1..] == [];
    TokensOfLine(h);
  }

  lemma LoopbackIsKept()
    ensures Distinct(ValidDomains(["127.0.0.1"])) == ["127.0.0.1"]
  {
    var h := "127.0.0.1";
    AddressIsSettled(h);
    NormalizeFixpoint(h);
    LoopbackIsValid();
    SingleDomain(h);
    DistinctOfDistinct([h]);
  }

  lemma LoopbackIsValid()
    ensures IsValidDomain("127.0.0.1")
  {
    var h := "127.0.0.1";
    NotAffix(h, "*.");
    NotAffix(h, ".");
    forall i | 0 <= i < |h| ensures h[i] !in FORBIDDEN_CHARACTERS { NameCharAllowed(h[i]); }
  }

  lemma NameCharAllowed(c: char)
    requires NameChar(c)
    ensures c !in FORBIDDEN_CHARACTERS
  {
  }

  /** Of the printable ASCII characters, only those of names, plus, comma, equals and the apostrophe may occur in
      a domain behind its prefix; other characters all may. */
  lemma ForbiddenExactly(c: char)
    ensures c in FORBIDDEN_CHARACTERS <==> ' ' <= c <= '~' && !NameChar(c) && c != '+' && c != ',' && c != '=' && c != '\''
  {
  }

  // ---------------------------------------------------------------- which names are listed

  /** The names that lists may hold for other purposes. */
  predicate Reserved(d: string) {
    || d == "localhost" || d == "localhost.localdomain" || d == "local" || d == "broadcasthost"
    || d == "ip6-localhost" || d == "ip6-loopback" || d == "ip6-localnet" || d == "ip6-mcastprefix"
    || d == "ip6-allnodes" || d == "ip6-allrouters" || d == "ip6-allhosts" || d == "0.0.0.0" || d == "255.255.255.255"
  }

  lemma ReservedIsIgnored(d: string)
    ensures Reserved(d) <==> d in IGNORED_HOSTS
  {
  }

  lemma ValidWritten(e: NameRule)
    requires PlainName(e.name)
    ensures IsValidDomain(Written(e)) <==> |Written(e)| <= 253 && !Reserved(Written(e))
  {
    var d := Written(e);
    ReservedIsIgnored(d);
    WrittenHarmless(e);
    PrefixesOf(e);
    PlainEnds(e.name);
    NotAffix(e.name, ".");
    assert TrimPrefix(TrimPrefix(d, "*."), ".") == e.name;
    forall i | 0 <= i < |e.name| ensures e.name[i] !in FORBIDDEN_CHARACTERS { NameCharAllowed(e.name[i]); }
  }

  lemma WrittenIsWord(e: NameRule)
    requires PlainName(e.name)
    ensures Word(Written(e))
  {
    WrittenHarmless(e);
    assert forall c :: NameChar(c) || c == '*' ==> c != '#';
  }

  /** A line with one name, prefixed or not, yields it in lower case, unless it is too long, reserved or the
      loopback address. */
  lemma WrittenLine(e: NameRule)
    requires PlainName(e.name)
    ensures var d := ToLower(Written(e));
            Parsed([Written(e)]) == if |d| > 253 || Reserved(d) || Written(e) == "127.0.0.1" then [] else [d]
  {
    var w, d := Written(e), ToLower(Written(e));
    WrittenIsWord(e);
    WrittenLower(e);
    NormalizeWritten(e);
    PlainLower(e.name);
    ValidWritten(Lowered(e));
    TokensOfLine(w);
    SingleDomain(w);
    if w == "127.0.0.1" {
      NoHash(w);
      FieldsOfWord(w);
    } else {
      OneWord(w);
    }
    DistinctOfDistinct(ValidDomains(Candidates(w)));
  }

  function WrittenLines(es: seq<NameRule>): seq<string> {
    seq(|es|, i requires 0 <= i < |es| => Written(es[i]))
  }

  ghost predicate Listable(es: seq<NameRule>) {
    forall e :: e in es ==> PlainName(e.name) && |Written(e)| <= 253 && !Reserved(ToLower(Written(e))) && Written(e) != "127.0.0.1"
  }

  lemma {:induction false} WrittenTokens(es: seq<NameRule>)
    requires Listable(es)
    ensures forall d :: d in Tokens(WrittenLines(es)) <==> exists e :: e in es && d == ToLower(Written(e))
  {
    if es != [] {
      var init, last := Front(es), Last(es);
      FrontLast(es);
      WrittenTokens(init);
      SameElements(WrittenLines(es), WrittenLines(init) + [Written(last)]);
      TokensConcat(WrittenLines(init), [Written(last)]);
      WrittenLine(last);
      DistinctInOrder(Tokens([Written(last)]));
      forall d ensures d in Tokens(WrittenLines(es)) <==> d in Tokens(WrittenLines(init)) || d == ToLower(Written(last)) {
        assert d in Tokens([Written(last)]) <==> d in Parsed([Written(last)]);
      }
    }
  }

  /** A list with one rule to a line provides these rules. */
  lemma LinesProvide(es: seq<NameRule>)
    requires Listable(es)
    ensures Provides([Some(WrittenLines(es))], es)
  {
    WrittenTokens(es);
    DistinctInOrder(Tokens(WrittenLines(es)));
    forall d ensures Lists([Some(WrittenLines(es))], d) <==> d in Parsed(WrittenLines(es)) {
      assert [Some(WrittenLines(es))][0] == Some(WrittenLines(es));
    }
  }
}

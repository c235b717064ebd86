/** When does parsing a parsed list, one domain per line, give the same list? */
module LoaderFixpoint {
  import opened Text
  import opened Loader

  // ---------------------------------------------------------------- what a parsed domain looks like

  ghost predicate Wordlike(d: string) {
    NoSpace(d) && forall i :: 0 <= i < |d| ==> !IsUpper(d[i])
  }

  lemma TrimmedWord(s: string, p: string)
    requires Wordlike(s)
    ensures Wordlike(TrimPrefix(s, p)) && Wordlike(TrimSuffix(s, p))
  {
  }

  lemma NormalizeWord(w: string)
    requires NoSpace(w)
    ensures Wordlike(Normalize(w))
  {
    TrimSpaceOfWord(w);
    var s1 := ToLower(w);
    var s2 := TrimPrefix(s1, "||");
    var s3 := TrimPrefix(s2, "^");
    var s4 := TrimSuffix(s3, "^");
    TrimmedWord(s1, "||");
    TrimmedWord(s2, "^");
    TrimmedWord(s3, "^");
    TrimmedWord(s4, ".");
    assert Normalize(w) == TrimSuffix(s4, ".");
  }

  lemma {:induction false} ValidDomainsShape(words: seq<string>)
    requires forall w :: w in words ==> NoSpace(w)
    ensures forall e :: e in ValidDomains(words) ==> IsValidDomain(e) && Wordlike(e)
  {
    if words != [] {
      ValidDomainsShape(words[..|words| - 1]);
      NormalizeWord(words[|words| - 1]);
    }
  }

  lemma {:induction false} TokensShape(lines: seq<string>)
    ensures forall e :: e in Tokens(lines) ==> IsValidDomain(e) && Wordlike(e)
  {
    if lines != [] {
      TokensShape(lines[..|lines| - 1]);
      var raw := lines[|lines| - 1];
      FieldsAreWords(Uncommented(raw));
      ValidDomainsShape(Candidates(raw));
    }
  }

  predicate IsMark(c: char) { c == '#' || c == ':' || c == '|' || c == '^' }

  lemma MarksAreForbidden(c: char)
    requires IsMark(c)
    ensures c in FORBIDDEN_CHARACTERS
  {
    var f := FORBIDDEN_CHARACTERS;
    assert f[3] == ':' && f[10] == '|' && f[13] == '#' && f[17] == '^';
  }

  /** A valid domain has no comment mark, colon, bar or caret anywhere. */
  lemma ValidCharacters(e: string)
    requires IsValidDomain(e)
    ensures forall i :: 0 <= i < |e| ==> !IsMark(e[i])
  {
    var clean := TrimPrefix(TrimPrefix(e, "*."), ".");
    var k := |e| - |clean|;
    assert forall i :: 0 <= i < k ==> e[i] == '*' || e[i] == '.';
    forall i | k <= i < |e| ensures !IsMark(e[i]) {
      assert e[i] == clean[i - k];
      assert !ContainsAny(clean, FORBIDDEN_CHARACTERS);
      if IsMark(e[i]) { MarksAreForbidden(e[i]); }
    }
  }

  /** Re-reading one parsed domain as a line. */
  function Reread(e: string): seq<string> {
    ValidDomains(Candidates(e))
  }

  predicate Stable(e: string) {
    !HasSuffix(e, ".") && e != "127.0.0.1"
  }

  lemma CandidatesOfDomain(e: string)
    requires IsValidDomain(e) && NoSpace(e)
    ensures Candidates(e) == if e == "127.0.0.1" then [] else [e]
  {
    ValidCharacters(e);
    assert Uncommented(e) == e;
    FieldsOfWord(e);
    assert "::"[0] == ':' && "::1"[0] == ':';
    assert e != "::" && e != "::1" && e != "0.0.0.0";
  }

  lemma AffixCharacter(s: string, p: string)
    requires p != ""
    ensures HasPrefix(s, p) || HasSuffix(s, p) ==> p[0] in s
  {
    if HasPrefix(s, p) {
      assert s[0] == p[0];
    } else if HasSuffix(s, p) {
      assert s[|s| - |p|] == p[0];
    }
  }

  lemma StableIsSettled(e: string)
    requires IsValidDomain(e) && Wordlike(e) && !HasSuffix(e, ".")
    ensures Normalize(e) == e
  {
    ValidCharacters(e);
    AffixCharacter(e, "||");
    AffixCharacter(e, "^");
    NormalizeFixpoint(e);
  }

  lemma RereadStable(e: string)
    requires IsValidDomain(e) && Wordlike(e) && Stable(e)
    ensures Reread(e) == [e]
  {
    CandidatesOfDomain(e);
    StableIsSettled(e);
    SingleDomain(e);
  }

  // ---------------------------------------------------------------- total length as a measure

  function TotalLength(ts: seq<string>): nat {
    if ts == [] then 0 else TotalLength(ts[..|ts| - 1]) + |ts[|ts| - 1]|
  }

  lemma DottedShrinks(e: string)
    requires Wordlike(e) && HasSuffix(e, ".")
    ensures |Normalize(e)| < |e|
  {
    TrimSpaceOfWord(e);
    LowerFixpoint(e);
    var s2 := TrimPrefix(e, "||");
    var s3 := TrimPrefix(s2, "^");
    var s4 := TrimSuffix(s3, "^");
    TrimmingShrinks(e, "||");
    TrimmingShrinks(s2, "^");
    TrimmingShrinks(s3, "^");
    TrimmingShrinks(s4, ".");
    assert Normalize(e) == TrimSuffix(s4, ".");
  }

  lemma SingleDomain(w: string)
    ensures ValidDomains([w]) == if IsValidDomain(Normalize(w)) then [Normalize(w)] else []
  {
    assert ValidDomains([w][..0]) == [];
  }

  lemma RereadUnstable(e: string)
    requires IsValidDomain(e) && Wordlike(e) && !Stable(e)
    ensures TotalLength(Reread(e)) < |e|
  {
    CandidatesOfDomain(e);
    if e != "127.0.0.1" {
      DottedShrinks(e);
      SingleDomain(e);
      assert TotalLength([Normalize(e)][..0]) == 0;
    }
  }

  lemma {:induction false} TotalLengthConcat(a: seq<string>, b: seq<string>)
    ensures TotalLength(a + b) == TotalLength(a) + TotalLength(b)
    decreases |b|
  {
    if b == [] {
      assert a + b == a;
    } else {
      assert (a + b)[..|a + b| - 1] == a + b[..|b| - 1];
      TotalLengthConcat(a, b[..|b| - 1]);
    }
  }

  lemma {:induction false} DistinctIsShorter(ts: seq<string>)
    ensures TotalLength(Distinct(ts)) <= TotalLength(ts)
  {
    if ts != [] {
      DistinctIsShorter(ts[..|ts| - 1]);
      var r := Distinct(ts[..|ts| - 1]);
      assert (r + [ts[|ts| - 1]])[..|r|] == r;
    }
  }

  lemma {:induction false} RereadAll(out: seq<string>)
    requires forall e :: e in out ==> IsValidDomain(e) && Wordlike(e)
    ensures (forall e :: e in out ==> Stable(e)) ==> Tokens(out) == out
    ensures TotalLength(Tokens(out)) <= TotalLength(out)
    ensures (exists e :: e in out && !Stable(e)) ==> TotalLength(Tokens(out)) < TotalLength(out)
  {
    if out != [] {
      var init, last := out[..|out| - 1], out[|out| - 1];
      assert out == init + [last];
      RereadAll(init);
      TotalLengthConcat(Tokens(init), Reread(last));
      assert TotalLength([last][..0]) == 0;
      if Stable(last) {
        RereadStable(last);
        assert TotalLength([last]) == |last|;
      } else {
        RereadUnstable(last);
      }
    }
  }

  lemma {:induction false} DistinctOfDistinct(ts: seq<string>)
    requires forall i, j :: 0 <= i < j < |ts| ==> ts[i] != ts[j]
    ensures Distinct(ts) == ts
  {
    if ts != [] {
      DistinctOfDistinct(ts[..|ts| - 1]);
    }
  }

  /** Parsing is a fixpoint of its own output exactly when no parsed domain ends in a dot or is the
      literal loopback address that heads hosts-file lines. */
  lemma ReparseFixpoint(lines: seq<string>)
    ensures var out := Parsed(lines);
            Parsed(out) == out <==> forall e :: e in out ==> !HasSuffix(e, ".") && e != "127.0.0.1"
  {
    var out := Parsed(lines);
    TokensShape(lines);
    DistinctInOrder(Tokens(lines));
    RereadAll(out);
    if forall e :: e in out ==> Stable(e) {
      DistinctOfDistinct(out);
    } else {
      DistinctIsShorter(Tokens(out));
    }
  }

  /** A line with one valid domain that ends in a dot. */
  lemma ParsedWord(w: string, clean: string)
    requires IsValidDomain(w) && NoSpace(w) && w != "" && w[|w| - 1] == '.'
    requires clean == Normalize(w) && IsValidDomain(clean)
    ensures Parsed([w]) == [clean]
  {
    DottedIsNotLoopback(w);
    CandidatesOfDomain(w);
    SingleDomain(w);
    TokensOfLine(w);
    DistinctOfDistinct([clean]);
  }

  lemma DottedIsNotLoopback(w: string)
    requires w != "" && w[|w| - 1] == '.'
    ensures w != "127.0.0.1"
  {
  }

  lemma NoSpaceDotted(d: string, dots: string)
    requires NoSpace(d) && NoSpace(dots)
    ensures NoSpace(d + dots)
  {
  }

  lemma TokensOfLine(line: string)
    ensures Tokens([line]) == ValidDomains(Candidates(line))
  {
    assert [line][..0] == [];
    AppendNothing(ValidDomains(Candidates(line)));
  }

  /** A domain with two trailing dots loses one in each parse. */
  lemma DotsWearOff(d: string)
    requires Settled(d) && NoSpace(d) && IsValidDomain(d) && IsValidDomain(d + ".") && IsValidDomain(d + "..")
    ensures Parsed([d + ".."]) == [d + "."] && Parsed([d + "."]) == [d]
  {
    NormalizeNotIdempotent(d);
    DotWearsOff(d, ".", d);
    DotWearsOff(d, "..", d + ".");
  }

  lemma DotWearsOff(d: string, dots: string, rest: string)
    requires dots == "." || dots == ".."
    requires NoSpace(d) && IsValidDomain(d + dots) && IsValidDomain(rest) && Normalize(d + dots) == rest
    ensures Parsed([d + dots]) == [rest]
  {
    NoSpaceDotted(d, dots);
    ParsedWord(d + dots, rest);
  }

  lemma IgnoredHostsAreLong(h: string)
    requires |h| <= 4
    ensures h !in IGNORED_HOSTS
  {
  }

  lemma PlainIsAllowed(c: char)
    requires c == 'a' || c == '.'
    ensures c !in FORBIDDEN_CHARACTERS
  {
  }

  lemma DotsAreValid(d: string)
    requires 0 < |d| <= 4 && d[0] == 'a' && forall i :: 0 <= i < |d| ==> d[i] == 'a' || d[i] == '.'
    ensures IsValidDomain(d) && NoSpace(d)
  {
    IgnoredHostsAreLong(d);
    assert TrimPrefix(TrimPrefix(d, "*."), ".") == d;
    forall i | 0 <= i < |d| ensures d[i] !in FORBIDDEN_CHARACTERS {
      PlainIsAllowed(d[i]);
    }
  }

  /** So the parse of this line is no fixpoint. */
  lemma DottedLine()
    ensures Parsed(["a.."]) == ["a."] && Parsed(Parsed(["a.."])) == ["a"] != Parsed(["a.."])
  {
    var a := "a";
    assert a + "." == "a." && a + ".." == "a..";
    DotsAreValid(a);
    DotsAreValid(a + ".");
    DotsAreValid(a + "..");
    DotsWearOff(a);
  }
}

/** String-suffix matching of allowed names and label-suffix matching of the trie are the same test on
    well-formed names. */
module LocalTrie {
  import opened Text
  import opened Labels
  import opened Loader
  import opened Tries
  import opened LocalNames

  // ---------------------------------------------------------------- names and labels

  predicate NameChar(c: char) {
    IsLetter(c) || '0' <= c <= '9' || c == '-' || c == '_' || c == '.'
  }

  /** No empty labels. */
  predicate Solid(s: string) { "" !in Split(s) }

  /** A non-empty name of letters, digits, hyphens and underscores without empty labels. */
  ghost predicate PlainName(s: string) {
    (forall i :: 0 <= i < |s| ==> NameChar(s[i])) && Solid(s)
  }

  /** Puts reversed labels back together. */
  function Unlabel(labels: seq<string>): string
    requires labels != []
  {
    if |labels| == 1 then labels[0] else Unlabel(labels[1..]) + "." + labels[0]
  }

  lemma {:induction false} UnlabelConcat(a: seq<string>, b: seq<string>)
    requires a != [] && b != []
    ensures Unlabel(a + b) == Unlabel(b) + "." + Unlabel(a)
  {
    if |a| == 1 {
      assert (a + b)[1..] == b;
    } else {
      assert (a + b)[1..] == a[1..] + b;
      UnlabelConcat(a[1..], b);
      assert Unlabel(b) + "." + Unlabel(a[1..]) + "." + a[0] == Unlabel(b) + "." + (Unlabel(a[1..]) + "." + a[0]);
    }
  }

  /** The first label and the rest of a name with a dot. */
  lemma Uncons(s: string, i: nat)
    requires IndexOf(s, '.') == i
    ensures s == s[..i] + "." + s[i + 1..] && '.' !in s[..i]
    ensures Split(s) == [s[..i]] + Split(s[i + 1..])
    ensures Solid(s) <==> s[..i] != "" && Solid(s[i + 1..])
  {
    TakeStep(s, i);
    SameElements(s, s[..i + 1] + s[i + 1..]);
    InCons("", s[..i], Split(s[i + 1..]));
  }

  lemma EmptyIsNotSolid()
    ensures !Solid("")
  {
    assert Split("") == [""];
  }

  /** Without empty labels nothing is lost. */
  lemma {:induction false} UnlabelOfLabels(s: string)
    requires Solid(s)
    ensures ReverseLabels(s) != [] && Unlabel(ReverseLabels(s)) == s
    decreases |s|
  {
    var i := IndexOf(s, '.');
    if i < 0 {
      assert Split(s) == [s];
      ReverseLabelsOfWord(s);
    } else {
      var w, rest := s[..i], s[i + 1..];
      Uncons(s, i);
      UnlabelOfLabels(rest);
      ReverseLabelsOfWord(w);
      ReverseLabelsConcat(w, rest);
      UnlabelConcat(ReverseLabels(rest), [w]);
    }
  }

  lemma SuffixGivesPrefix(n: string, t: string)
    requires HasSuffix(n, "." + t)
    ensures ReverseLabels(t) <= ReverseLabels(n)
  {
    var x := n[..|n| - |t| - 1];
    AppendAssociates(x, ".", t);
    assert n == x + ("." + t);
    ReverseLabelsConcat(x, t);
  }

  lemma PrefixGivesSuffix(n: string, t: string)
    requires Solid(n) && Solid(t) && ReverseLabels(t) <= ReverseLabels(n) && ReverseLabels(t) != ReverseLabels(n)
    ensures HasSuffix(n, "." + t)
  {
    UnlabelOfLabels(n);
    UnlabelOfLabels(t);
    var rest := ReverseLabels(n)[|ReverseLabels(t)|..];
    assert ReverseLabels(n) == ReverseLabels(t) + rest;
    UnlabelConcat(ReverseLabels(t), rest);
    AppendAssociates(Unlabel(rest), ".", t);
    EndsWith(Unlabel(rest), "." + t);
  }

  lemma EndsWith(a: string, b: string)
    ensures HasSuffix(a + b, b)
  {
  }

  /** A name is another one, or ends in a dot and it, exactly when its reversed labels extend the
      other's. */
  lemma SuffixIsLabelPrefix(n: string, t: string)
    requires Solid(n) && Solid(t)
    ensures n == t || HasSuffix(n, "." + t) <==> ReverseLabels(t) <= ReverseLabels(n)
    ensures n == t <==> ReverseLabels(t) == ReverseLabels(n)
  {
    UnlabelOfLabels(n);
    UnlabelOfLabels(t);
    if HasSuffix(n, "." + t) {
      SuffixGivesPrefix(n, t);
    }
    if ReverseLabels(t) <= ReverseLabels(n) && ReverseLabels(t) != ReverseLabels(n) {
      PrefixGivesSuffix(n, t);
    }
  }

  // ---------------------------------------------------------------- normalisation of plain names

  lemma DotsLower(s: string)
    ensures IndexOf(ToLower(s), '.') == IndexOf(s, '.')
  {
    assert forall k :: 0 <= k < |s| ==> (ToLower(s)[k] == '.' <==> s[k] == '.');
  }

  lemma {:induction false} SolidLower(s: string)
    ensures Solid(ToLower(s)) <==> Solid(s)
    decreases |s|
  {
    var i := IndexOf(s, '.');
    DotsLower(s);
    if i < 0 {
      assert Split(s) == [s] && Split(ToLower(s)) == [ToLower(s)];
    } else {
      SameElements(ToLower(s)[i + 1..], ToLower(s[i + 1..]));
      SolidLower(s[i + 1..]);
      Uncons(s, i);
      Uncons(ToLower(s), i);
    }
  }

  lemma PlainLower(s: string)
    requires PlainName(s)
    ensures PlainName(ToLower(s))
  {
    SolidLower(s);
  }

  lemma TrailingDot(s: string)
    requires s != "" && s[|s| - 1] == '.'
    ensures "" in Split(s)
  {
    FrontLast(s);
    AppendNothing(Front(s) + ".");
    SplitConcat(Front(s), "");
    assert Split("") == [""];
  }

  /** A plain name neither starts nor ends with a dot. */
  lemma PlainEnds(s: string)
    requires PlainName(s)
    ensures s != "" && s[0] != '.' && s[|s| - 1] != '.'
  {
    EmptyIsNotSolid();
    if s[0] == '.' {
      Uncons(s, 0);
    } else if s[|s| - 1] == '.' {
      TrailingDot(s);
    }
  }

  /** A word with harmless ends is only lowered, with or without a final dot. */
  lemma NormalizeHarmless(x: string)
    requires x != "" && NoSpace(x) && x[0] != '|' && x[0] != '^' && x[|x| - 1] != '^' && x[|x| - 1] != '.'
    ensures Normalize(x) == ToLower(x) && Normalize(x + ".") == ToLower(x)
  {
    var l := ToLower(x);
    TrimSpaceOfWord(x);
    TrimSpaceOfWord(x + ".");
    SameElements(ToLower(x + "."), l + ".");
    NormalizeLowered(x);
    NormalizeLowered(x + ".");
    TrimDotted(l, false);
    TrimDotted(l, true);
  }

  lemma NormalizeLowered(x: string)
    requires x != "" && TrimSpace(x) == x && x[0] != '|' && x[0] != '^' && x[|x| - 1] != '^'
    ensures Normalize(x) == TrimSuffix(ToLower(x), ".")
  {
    var l := ToLower(x);
    NotAffix(l, "||");
    NotAffix(l, "^");
  }

  lemma NotAffix(s: string, p: string)
    requires s != "" && p != ""
    ensures s[0] != p[0] ==> !HasPrefix(s, p)
    ensures s[|s| - 1] != p[|p| - 1] ==> !HasSuffix(s, p)
  {
    assert HasPrefix(s, p) ==> s[0] == s[..|p|][0];
    assert HasSuffix(s, p) ==> s[|s| - 1] == s[|s| - |p|..][|p| - 1];
  }

  // ---------------------------------------------------------------- patterns

  /** `name` or `*.name`, with or without a final dot. */
  datatype LocalPattern = LocalPattern(name: string, wildcard: bool, dotted: bool)

  function Dotted(s: string, dotted: bool): string {
    if dotted then s + "." else s
  }

  function Spelled(p: LocalPattern): string {
    Dotted(if p.wildcard then "*." + p.name else p.name, p.dotted)
  }

  lemma TrimDotted(s: string, dotted: bool)
    requires s != "" && s[|s| - 1] != '.'
    ensures TrimSuffix(Dotted(s, dotted), ".") == s
  {
    NotAffix(s, ".");
    assert (s + ".")[|s|..] == "." && (s + ".")[..|s|] == s;
  }

  /** What is left of the pattern after its final dot and letter case. */
  function Bare(p: LocalPattern): string {
    if p.wildcard then "*." + ToLower(p.name) else ToLower(p.name)
  }

  lemma BareAffixes(p: LocalPattern)
    requires PlainName(p.name)
    ensures p.wildcard ==> HasPrefix(Bare(p), "*.") && TrimPrefix(Bare(p), "*.") == ToLower(p.name)
    ensures !p.wildcard ==> !HasPrefix(Bare(p), "*.") && !HasPrefix(Bare(p), ".")
  {
    PlainEnds(p.name);
    if p.wildcard {
      assert Bare(p)[2..] == ToLower(p.name);
    } else {
      NotAffix(Bare(p), "*.");
      NotAffix(Bare(p), ".");
    }
  }

  /** A word that normalisation only lowers. */
  predicate Harmless(x: string) {
    && x != "" && (forall i :: 0 <= i < |x| ==> !IsSpace(x[i]))
    && x[0] != '|' && x[0] != '^' && x[|x| - 1] != '^' && x[|x| - 1] != '.'
  }

  lemma HarmlessForms(x: string, dotted: bool)
    requires Harmless(x)
    ensures Normalize(Dotted(x, dotted)) == ToLower(x) && ToLower(TrimSuffix(Dotted(x, dotted), ".")) == ToLower(x)
  {
    NormalizeHarmless(x);
    TrimDotted(x, dotted);
  }

  lemma StarLower(name: string)
    requires PlainName(name)
    ensures ToLower("*." + name) == "*." + ToLower(name)
    ensures Harmless(name) && Harmless("*." + name)
  {
    HarmlessName(name);
    SameElements(ToLower("*." + name), "*." + ToLower(name));
  }

  lemma HarmlessName(name: string)
    requires PlainName(name)
    ensures Harmless(name) && Harmless("*." + name)
  {
    PlainEnds(name);
  }

  lemma BareForms(p: LocalPattern)
    requires PlainName(p.name)
    ensures Normalize(Spelled(p)) == Bare(p) && ToLower(TrimSuffix(Spelled(p), ".")) == Bare(p)
  {
    StarLower(p.name);
    HarmlessForms(if p.wildcard then "*." + p.name else p.name, p.dotted);
  }

  lemma RuleOfPattern(p: LocalPattern)
    requires PlainName(p.name)
    ensures AcceptedRules(Spelled(p), false) == [Rule(ReverseLabels(ToLower(p.name)), p.wildcard)]
  {
    BareForms(p);
    BareAffixes(p);
    PlainLower(p.name);
    UnlabelOfLabels(ToLower(p.name));
  }

  lemma PatternAgrees(p: LocalPattern, d: string)
    requires PlainName(p.name) && PlainName(d)
    ensures PatternAllows(Spelled(p), ToLower(d)) <==>
            Covers(Rule(ReverseLabels(ToLower(p.name)), p.wildcard), ReverseLabels(ToLower(d)))
  {
    BareForms(p);
    BareAffixes(p);
    PlainLower(p.name);
    PlainLower(d);
    SuffixIsLabelPrefix(ToLower(d), ToLower(p.name));
  }

  function Spellings(patterns: seq<LocalPattern>): seq<string> {
    seq(|patterns|, i requires 0 <= i < |patterns| => Spelled(patterns[i]))
  }

  function Concat(parts: seq<seq<Rule>>): seq<Rule> {
    if parts == [] then [] else Concat(Front(parts)) + Last(parts)
  }

  function AcceptedEach(patterns: seq<string>): seq<seq<Rule>> {
    seq(|patterns|, i requires 0 <= i < |patterns| => AcceptedRules(patterns[i], false))
  }

  /** The rules of a trie after inserting the patterns in order. */
  function RulesAfter(patterns: seq<string>): seq<Rule> {
    Concat(AcceptedEach(patterns))
  }

  lemma {:induction false} ConcatSingles(parts: seq<seq<Rule>>, rules: seq<Rule>)
    requires |parts| == |rules| && forall i :: 0 <= i < |parts| ==> parts[i] == [rules[i]]
    ensures Concat(parts) == rules
  {
    if parts != [] {
      ConcatSingles(Front(parts), Front(rules));
      FrontLast(rules);
    }
  }

  function RuleOf(p: LocalPattern): Rule {
    Rule(ReverseLabels(ToLower(p.name)), p.wildcard)
  }

  function LocalRules(patterns: seq<LocalPattern>): seq<Rule> {
    seq(|patterns|, i requires 0 <= i < |patterns| => RuleOf(patterns[i]))
  }

  lemma RulesOfPatterns(patterns: seq<LocalPattern>)
    requires forall i :: 0 <= i < |patterns| ==> PlainName(patterns[i].name)
    ensures RulesAfter(Spellings(patterns)) == LocalRules(patterns)
  {
    forall i | 0 <= i < |patterns| ensures AcceptedEach(Spellings(patterns))[i] == [LocalRules(patterns)[i]] {
      RuleOfPattern(patterns[i]);
    }
    ConcatSingles(AcceptedEach(Spellings(patterns)), LocalRules(patterns));
  }

  /** On well-formed names and patterns, fully qualified or not, the string test of the rebinding
      filter agrees with a trie that holds the same patterns. */
  lemma AllowedIsTrieMatch(d: string, dotted: bool, patterns: seq<LocalPattern>)
    requires PlainName(d) && forall i :: 0 <= i < |patterns| ==> PlainName(patterns[i].name)
    ensures AllowedLocal(Dotted(d, dotted), Spellings(patterns)) <==>
            MatchesSome(RulesAfter(Spellings(patterns)), Dotted(d, dotted))
  {
    var name, n := Dotted(d, dotted), ToLower(d);
    assert ToLower(TrimSuffix(name, ".")) == n && Normalize(name) == n by {
      PlainEnds(d);
      TrimDotted(d, dotted);
      NormalizeHarmless(d);
    }
    assert RulesAfter(Spellings(patterns)) == LocalRules(patterns) by { RulesOfPatterns(patterns); }
    forall i | 0 <= i < |patterns|
      ensures PatternAllows(Spellings(patterns)[i], n) <==> Covers(LocalRules(patterns)[i], ReverseLabels(n))
    {
      PatternAgrees(patterns[i], d);
    }
    SomeAgrees(Spellings(patterns), n, LocalRules(patterns), ReverseLabels(n));
  }

  lemma SomeAgrees(patterns: seq<string>, n: string, rules: seq<Rule>, labels: seq<string>)
    requires |patterns| == |rules|
    requires forall i :: 0 <= i < |patterns| ==> (PatternAllows(patterns[i], n) <==> Covers(rules[i], labels))
    ensures (exists i :: 0 <= i < |patterns| && PatternAllows(patterns[i], n)) <==> exists r :: r in rules && Covers(r, labels)
  {
    if i :| 0 <= i < |patterns| && PatternAllows(patterns[i], n) {
      assert rules[i] in rules;
    }
    if r :| r in rules && Covers(r, labels) {
      var i :| 0 <= i < |rules| && rules[i] == r;
      assert PatternAllows(patterns[i], n);
    }
  }
}

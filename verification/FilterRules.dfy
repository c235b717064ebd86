/** The flat meaning of a filter configuration, and the tables that stand for it. */
module FilterRules {
  import opened Text
  import opened Labels
  import opened Loader
  import opened Tries

  datatype BlockingConfig = BlockingConfig(
    enabled: bool,
    whitelist: seq<string>,
    blacklist: seq<string>,
    regexBlacklist: seq<string>,
    blocklistFiles: seq<string>,
    blocklistURLs: seq<string>)

  /** The regular-expression library: which patterns compile, and what a compiled one matches. */
  datatype RegexLibrary = RegexLibrary(compiles: string -> bool, matches: (string, string) -> bool)

  // ---------------------------------------------------------------- patterns

  datatype Pattern = Literal(name: string) | Suffix(rule: Rule)

  predicate IsSuffixPattern(clean: string) {
    HasPrefix(clean, "*.") || HasPrefix(clean, ".")
  }

  function WrapRules(rules: seq<Rule>): seq<Pattern> {
    seq(|rules|, i requires 0 <= i < |rules| => Suffix(rules[i]))
  }

  /** What one cleaned domain contributes: a suffix rule goes to the trie, any other to the hash set. */
  function PatternsOf(clean: string): seq<Pattern> {
    if IsSuffixPattern(clean) then WrapRules(AcceptedRules(clean, true)) else [Literal(clean)]
  }

  function Flatten(batches: seq<seq<Pattern>>): seq<Pattern> {
    if batches == [] then []
    else Flatten(batches[..|batches| - 1]) + batches[|batches| - 1]
  }

  function EachDomain(domains: seq<string>): seq<seq<Pattern>> {
    seq(|domains|, i requires 0 <= i < |domains| => PatternsOf(domains[i]))
  }

  /** Entries of the configuration are normalised first; those that become empty are dropped. */
  function EntryPatterns(raw: string): seq<Pattern> {
    if Normalize(raw) == "" then [] else PatternsOf(Normalize(raw))
  }

  function EachEntry(raws: seq<string>): seq<seq<Pattern>> {
    seq(|raws|, i requires 0 <= i < |raws| => EntryPatterns(raws[i]))
  }

  /** A list that could not be read contributes nothing. */
  function ListPatterns(list: Option<seq<string>>): seq<Pattern> {
    match list
    case None => []
    case Some(lines) => Flatten(EachDomain(Parsed(lines)))
  }

  function EachList(lists: seq<Option<seq<string>>>): seq<seq<Pattern>> {
    seq(|lists|, i requires 0 <= i < |lists| => ListPatterns(lists[i]))
  }

  function WhitePatterns(cfg: BlockingConfig): seq<Pattern> {
    Flatten(EachEntry(cfg.whitelist))
  }

  function BlackPatterns(cfg: BlockingConfig, files: seq<Option<seq<string>>>, fetched: seq<Option<seq<string>>>): seq<Pattern> {
    Flatten(EachEntry(cfg.blacklist)) + Flatten(EachList(files)) + Flatten(EachList(fetched))
  }

  function Compiled(raws: seq<string>, lib: RegexLibrary): seq<string> {
    if raws == [] then []
    else
      var p := TrimSpace(raws[|raws| - 1]);
      Compiled(raws[..|raws| - 1], lib) + if p != "" && lib.compiles(p) then [p] else []
  }

  // ---------------------------------------------------------------- the flat specification

  /** Names are compared after one normalisation; labels after a second one. */
  predicate PatternMatches(p: Pattern, domain: string) {
    match p
    case Literal(name) => Normalize(domain) == name
    case Suffix(rule) => Covers(rule, ReverseLabels(Normalize(Normalize(domain))))
  }

  ghost predicate AnyMatches(patterns: seq<Pattern>, domain: string) {
    exists p :: p in patterns && PatternMatches(p, domain)
  }

  ghost predicate RegexMatches(regexes: seq<string>, lib: RegexLibrary, domain: string) {
    exists re :: re in regexes && lib.matches(re, Normalize(domain))
  }

  ghost predicate FlatBlocked(white: seq<Pattern>, black: seq<Pattern>, regexes: seq<string>, lib: RegexLibrary, domain: string) {
    && Normalize(domain) != ""
    && !AnyMatches(white, domain)
    && (AnyMatches(black, domain) || RegexMatches(regexes, lib, domain))
  }

  /** More blacklist patterns can only block more. */
  lemma BlockedMonotone(white: seq<Pattern>, black: seq<Pattern>, more: seq<Pattern>, regexes: seq<string>,
                        moreRegexes: seq<string>, lib: RegexLibrary, domain: string)
    requires forall p :: p in black ==> p in more
    requires forall r :: r in regexes ==> r in moreRegexes
    requires FlatBlocked(white, black, regexes, lib, domain)
    ensures FlatBlocked(white, more, moreRegexes, lib, domain)
  {
    if AnyMatches(black, domain) {
      var p :| p in black && PatternMatches(p, domain);
      assert p in more;
    } else {
      var r :| r in regexes && lib.matches(r, Normalize(domain));
      assert r in moreRegexes;
    }
  }

  /** More whitelist patterns can only block less. */
  lemma BlockedAntitone(white: seq<Pattern>, more: seq<Pattern>, black: seq<Pattern>, regexes: seq<string>,
                        lib: RegexLibrary, domain: string)
    requires forall p :: p in white ==> p in more
    requires FlatBlocked(more, black, regexes, lib, domain)
    ensures FlatBlocked(white, black, regexes, lib, domain)
  {
  }

  lemma {:induction false} FlattenMembers(batches: seq<seq<Pattern>>)
    ensures forall p :: p in Flatten(batches) <==> exists i :: 0 <= i < |batches| && p in batches[i]
  {
    if batches != [] {
      FlattenMembers(batches[..|batches| - 1]);
    }
  }

  lemma MoreEntriesMorePatterns(raws: seq<string>, more: seq<string>)
    requires forall raw :: raw in raws ==> raw in more
    ensures forall p :: p in Flatten(EachEntry(raws)) ==> p in Flatten(EachEntry(more))
  {
    EntryMembers(raws);
    EntryMembers(more);
  }

  lemma EntryMembers(raws: seq<string>)
    ensures forall p :: p in Flatten(EachEntry(raws)) <==> exists raw :: raw in raws && p in EntryPatterns(raw)
  {
    var batches := EachEntry(raws);
    FlattenMembers(batches);
    assert forall i :: 0 <= i < |raws| ==> batches[i] == EntryPatterns(raws[i]);
    forall p | p in Flatten(batches) ensures exists raw :: raw in raws && p in EntryPatterns(raw) {
      var i :| 0 <= i < |batches| && p in batches[i];
      assert raws[i] in raws;
    }
  }

  lemma DomainMembers(domains: seq<string>)
    ensures forall p :: p in Flatten(EachDomain(domains)) <==> exists d :: d in domains && p in PatternsOf(d)
  {
    var batches := EachDomain(domains);
    FlattenMembers(batches);
    assert forall i :: 0 <= i < |domains| ==> batches[i] == PatternsOf(domains[i]);
    forall p | p in Flatten(batches) ensures exists d :: d in domains && p in PatternsOf(d) {
      var i :| 0 <= i < |batches| && p in batches[i];
      assert domains[i] in domains;
    }
  }

  /** Some list that could be read has the domain. */
  ghost predicate Lists(lists: seq<Option<seq<string>>>, d: string) {
    exists list :: list in lists && list.Some? && d in Parsed(list.value)
  }

  /** Some list gives the pattern. */
  ghost predicate Gives(lists: seq<Option<seq<string>>>, p: Pattern) {
    exists d :: Lists(lists, d) && p in PatternsOf(d)
  }

  lemma ListMembers(lists: seq<Option<seq<string>>>, p: Pattern)
    ensures p in Flatten(EachList(lists)) <==> Gives(lists, p)
  {
    var batches := EachList(lists);
    FlattenMembers(batches);
    if p in Flatten(batches) {
      var i :| 0 <= i < |batches| && p in batches[i];
      assert lists[i] in lists && batches[i] == ListPatterns(lists[i]);
      DomainMembers(Parsed(lists[i].value));
      var d :| d in Parsed(lists[i].value) && p in PatternsOf(d);
      assert Lists(lists, d);
    }
    if Gives(lists, p) {
      var d :| Lists(lists, d) && p in PatternsOf(d);
      var list :| list in lists && list.Some? && d in Parsed(list.value);
      DomainMembers(Parsed(list.value));
      var i :| 0 <= i < |lists| && lists[i] == list;
      assert batches[i] == ListPatterns(list);
    }
  }

  lemma {:induction false} CompiledMembers(raws: seq<string>, lib: RegexLibrary)
    ensures forall re :: re in Compiled(raws, lib) <==> re != "" && lib.compiles(re) && exists raw :: raw in raws && re == TrimSpace(raw)
  {
    if raws != [] {
      var init, last := raws[..|raws| - 1], raws[|raws| - 1];
      CompiledMembers(init, lib);
      assert forall raw :: raw in raws <==> raw in init || raw == last;
    }
  }

  lemma MoreListsMorePatterns(lists: seq<Option<seq<string>>>, more: seq<Option<seq<string>>>)
    requires forall d :: Lists(lists, d) ==> Lists(more, d)
    ensures forall p :: p in Flatten(EachList(lists)) ==> p in Flatten(EachList(more))
  {
    forall p | p in Flatten(EachList(lists)) ensures p in Flatten(EachList(more)) {
      ListMembers(lists, p);
      ListMembers(more, p);
      var d :| Lists(lists, d) && p in PatternsOf(d);
      assert Lists(more, d);
    }
  }

  lemma EachListConcat(files: seq<Option<seq<string>>>, fetched: seq<Option<seq<string>>>)
    ensures Flatten(EachList(files + fetched)) == Flatten(EachList(files)) + Flatten(EachList(fetched))
  {
    SameElements(EachList(files + fetched), EachList(files) + EachList(fetched));
    FlattenConcat(EachList(files), EachList(fetched));
  }

  lemma BlackMembers(cfg: BlockingConfig, files: seq<Option<seq<string>>>, fetched: seq<Option<seq<string>>>, p: Pattern)
    ensures p in BlackPatterns(cfg, files, fetched) <==> p in Flatten(EachEntry(cfg.blacklist)) || p in Flatten(EachList(files + fetched))
  {
    EachListConcat(files, fetched);
  }

  /** Adding whitelist entries and dropping blacklist entries, expressions or domains of the lists never
      blocks a domain that was not blocked before. */
  lemma ConfigMonotone(cfg: BlockingConfig, files: seq<Option<seq<string>>>, fetched: seq<Option<seq<string>>>,
                       looser: BlockingConfig, fewer: seq<Option<seq<string>>>, fewerFetched: seq<Option<seq<string>>>,
                       lib: RegexLibrary, domain: string)
    requires forall raw :: raw in cfg.whitelist ==> raw in looser.whitelist
    requires forall raw :: raw in looser.blacklist ==> raw in cfg.blacklist
    requires forall raw :: raw in looser.regexBlacklist ==> raw in cfg.regexBlacklist
    requires forall d :: Lists(fewer + fewerFetched, d) ==> Lists(files + fetched, d)
    requires FlatBlocked(WhitePatterns(looser), BlackPatterns(looser, fewer, fewerFetched), Compiled(looser.regexBlacklist, lib), lib, domain)
    ensures FlatBlocked(WhitePatterns(cfg), BlackPatterns(cfg, files, fetched), Compiled(cfg.regexBlacklist, lib), lib, domain)
  {
    var black, more := BlackPatterns(looser, fewer, fewerFetched), BlackPatterns(cfg, files, fetched);
    var regexes, moreRegexes := Compiled(looser.regexBlacklist, lib), Compiled(cfg.regexBlacklist, lib);
    MoreEntriesMorePatterns(cfg.whitelist, looser.whitelist);
    MoreEntriesMorePatterns(looser.blacklist, cfg.blacklist);
    MoreListsMorePatterns(fewer + fewerFetched, files + fetched);
    forall p | p in black ensures p in more {
      BlackMembers(looser, fewer, fewerFetched, p);
      BlackMembers(cfg, files, fetched, p);
    }
    CompiledMembers(looser.regexBlacklist, lib);
    CompiledMembers(cfg.regexBlacklist, lib);
    BlockedAntitone(WhitePatterns(cfg), WhitePatterns(looser), black, regexes, lib, domain);
    BlockedMonotone(WhitePatterns(cfg), black, more, regexes, moreRegexes, lib, domain);
  }

  // ---------------------------------------------------------------- names and trie rules of a pattern list

  function NamesOf(patterns: seq<Pattern>): set<string> {
    if patterns == [] then {}
    else
      NamesOf(patterns[..|patterns| - 1]) +
      match patterns[|patterns| - 1] case Literal(name) => {name} case Suffix(_) => {}
  }

  function RulesOf(patterns: seq<Pattern>): seq<Rule> {
    if patterns == [] then []
    else
      RulesOf(patterns[..|patterns| - 1]) +
      match patterns[|patterns| - 1] case Literal(_) => [] case Suffix(rule) => [rule]
  }

  lemma {:induction false} PartsConcat(a: seq<Pattern>, b: seq<Pattern>)
    ensures NamesOf(a + b) == NamesOf(a) + NamesOf(b)
    ensures RulesOf(a + b) == RulesOf(a) + RulesOf(b)
    decreases |b|
  {
    if b == [] {
      assert a + b == a;
    } else {
      assert (a + b)[..|a + b| - 1] == a + b[..|b| - 1];
      PartsConcat(a, b[..|b| - 1]);
    }
  }

  lemma {:induction false} PartsMembers(patterns: seq<Pattern>)
    ensures forall name :: name in NamesOf(patterns) <==> Literal(name) in patterns
    ensures forall rule :: rule in RulesOf(patterns) <==> Suffix(rule) in patterns
  {
    if patterns != [] {
      var init, last := patterns[..|patterns| - 1], patterns[|patterns| - 1];
      assert patterns == init + [last];
      PartsMembers(init);
      assert forall p :: p in patterns <==> p in init || p == last;
    }
  }

  lemma PartsOfWrapped(rules: seq<Rule>)
    requires |rules| <= 1
    ensures NamesOf(WrapRules(rules)) == {} && RulesOf(WrapRules(rules)) == rules
  {
    if |rules| == 1 {
      assert WrapRules(rules) == [Suffix(rules[0])];
      assert RulesOf([Suffix(rules[0])][..0]) == [];
      assert NamesOf([Suffix(rules[0])][..0]) == {};
    }
  }

  lemma PartsOfNothing()
    ensures NamesOf([]) == {} && RulesOf([]) == [] && Flatten([]) == []
  {
  }

  lemma PartsOfLiteral(name: string)
    ensures NamesOf([Literal(name)]) == {name} && RulesOf([Literal(name)]) == []
  {
    assert RulesOf([Literal(name)][..0]) == [];
    assert NamesOf([Literal(name)][..0]) == {};
  }

  lemma FlattenStep(batches: seq<seq<Pattern>>, i: nat)
    requires i < |batches|
    ensures NamesOf(Flatten(batches[..i + 1])) == NamesOf(Flatten(batches[..i])) + NamesOf(batches[i])
    ensures RulesOf(Flatten(batches[..i + 1])) == RulesOf(Flatten(batches[..i])) + RulesOf(batches[i])
  {
    TakeStep(batches, i);
    PartsConcat(Flatten(batches[..i]), batches[i]);
  }

  function Drop(s: seq<seq<Pattern>>, i: nat): seq<seq<Pattern>>
    requires i < |s|
  {
    s[..i] + s[i + 1..]
  }

  lemma {:induction false} FlattenConcat(a: seq<seq<Pattern>>, b: seq<seq<Pattern>>)
    ensures Flatten(a + b) == Flatten(a) + Flatten(b)
    decreases |b|
  {
    if b == [] {
      AppendNothing(a);
      AppendNothing(Flatten(a));
    } else {
      FrontOfConcat(a, b);
      FlattenConcat(a, Front(b));
      AppendAssociates(Flatten(a), Flatten(Front(b)), Last(b));
    }
  }

  /** Names, and rules up to order. */
  ghost predicate SameParts(a: seq<Pattern>, b: seq<Pattern>) {
    NamesOf(a) == NamesOf(b) && multiset(RulesOf(a)) == multiset(RulesOf(b))
  }

  lemma SwapParts(a: seq<Pattern>, x: seq<Pattern>, b: seq<Pattern>)
    ensures SameParts(a + (x + b), x + (a + b))
  {
    PartsConcat(x, b);
    PartsConcat(a, x + b);
    PartsConcat(a, b);
    PartsConcat(x, a + b);
  }

  lemma FlattenAppend(batches: seq<seq<Pattern>>, last: seq<Pattern>)
    ensures Flatten(batches + [last]) == Flatten(batches) + last
  {
    FrontOfAppend(batches, last);
  }

  lemma FlattenSplit(batches: seq<seq<Pattern>>, i: nat)
    requires i < |batches|
    ensures Flatten(batches) == Flatten(batches[..i]) + (batches[i] + Flatten(batches[i + 1..]))
  {
    var upto, after := batches[..i + 1], batches[i + 1..];
    TakeStep(batches, i);
    FlattenAppend(batches[..i], batches[i]);
    TakeDrop(batches, i + 1);
    FlattenConcat(upto, after);
    AppendAssociates(Flatten(batches[..i]), batches[i], Flatten(after));
  }

  /** Taking one batch out of the middle to the front changes nothing but order. */
  lemma FlattenRemove(batches: seq<seq<Pattern>>, i: nat)
    requires i < |batches|
    ensures SameParts(Flatten(batches), batches[i] + Flatten(Drop(batches, i)))
  {
    FlattenSplit(batches, i);
    FlattenConcat(batches[..i], batches[i + 1..]);
    SwapParts(Flatten(batches[..i]), batches[i], Flatten(batches[i + 1..]));
  }

  lemma SamePartsUnder(x: seq<Pattern>, a: seq<Pattern>, b: seq<Pattern>)
    requires SameParts(a, b)
    ensures SameParts(x + a, x + b)
  {
    PartsConcat(x, a);
    PartsConcat(x, b);
  }

  lemma RemoveFromBag(s: seq<seq<Pattern>>, i: nat)
    requires i < |s|
    ensures multiset(Drop(s, i)) == multiset(s) - multiset{s[i]}
  {
    assert s == s[..i] + [s[i]] + s[i + 1..];
  }

  lemma FindInPermutation(batches: seq<seq<Pattern>>, order: seq<seq<Pattern>>) returns (j: nat)
    requires multiset(batches) == multiset(order) && batches != []
    ensures j < |order| && order[j] == batches[0]
    ensures multiset(Drop(batches, 0)) == multiset(Drop(order, j))
  {
    assert batches[0] in multiset(order);
    j :| 0 <= j < |order| && order[j] == batches[0];
    RemoveFromBag(batches, 0);
    RemoveFromBag(order, j);
  }

  lemma MoveToFront(batches: seq<seq<Pattern>>, i: nat, order: seq<seq<Pattern>>, j: nat)
    requires i < |batches| && j < |order| && batches[i] == order[j]
    requires SameParts(Flatten(Drop(batches, i)), Flatten(Drop(order, j)))
    ensures SameParts(Flatten(batches), Flatten(order))
  {
    FlattenRemove(batches, i);
    FlattenRemove(order, j);
    SamePartsUnder(batches[i], Flatten(Drop(batches, i)), Flatten(Drop(order, j)));
  }

  /** Batches merged in any order give the same parts. */
  lemma {:induction false} FlattenPermuted(batches: seq<seq<Pattern>>, order: seq<seq<Pattern>>)
    requires multiset(batches) == multiset(order)
    ensures SameParts(Flatten(batches), Flatten(order))
    decreases |batches|
  {
    if batches == [] {
      assert |multiset(order)| == 0;
    } else {
      var j := FindInPermutation(batches, order);
      FlattenPermuted(Drop(batches, 0), Drop(order, j));
      MoveToFront(batches, 0, order, j);
    }
  }

  // ---------------------------------------------------------------- rule tables

  /** The contents of a loaded snapshot. */
  datatype RuleTable = RuleTable(
    whiteExact: set<string>,
    whiteRules: seq<Rule>,
    blackExact: set<string>,
    blackRules: seq<Rule>,
    regexes: seq<string>,
    totalRules: nat)

  const EMPTY_TABLE := RuleTable({}, [], {}, [], [], 0)

  /** The verdict of a table: whitelist before blacklist, names before labels before expressions. */
  ghost predicate TableBlocks(t: RuleTable, lib: RegexLibrary, domain: string) {
    var d := Normalize(domain);
    && d != ""
    && d !in t.whiteExact
    && !MatchesSome(t.whiteRules, d)
    && (d in t.blackExact || MatchesSome(t.blackRules, d) || RegexMatches(t.regexes, lib, domain))
  }

  /** What the engine answers from. */
  datatype Filter = Filter(enabled: bool, lib: RegexLibrary, table: RuleTable)

  ghost predicate Blocks(f: Filter, domain: string) {
    f.enabled && TableBlocks(f.table, f.lib, domain)
  }

  ghost function Verdict(f: Filter): string -> bool {
    (domain: string) => Blocks(f, domain)
  }

  /** The table holds exactly these patterns, its trie rules in any order and with repetitions. */
  ghost predicate Represents(t: RuleTable, white: seq<Pattern>, black: seq<Pattern>, regexes: seq<string>) {
    && t.whiteExact == NamesOf(white)
    && multiset(t.whiteRules) == multiset(RulesOf(white))
    && t.blackExact == NamesOf(black)
    && multiset(t.blackRules) == multiset(RulesOf(black))
    && t.regexes == regexes
    && t.totalRules == |NamesOf(black)| + |RulesOf(black)| + |regexes|
  }

  lemma SideMatches(exact: set<string>, rules: seq<Rule>, patterns: seq<Pattern>, domain: string)
    requires exact == NamesOf(patterns) && multiset(rules) == multiset(RulesOf(patterns))
    ensures Normalize(domain) in exact || MatchesSome(rules, Normalize(domain)) <==> AnyMatches(patterns, domain)
  {
    var d := Normalize(domain);
    PartsMembers(patterns);
    assert forall r :: r in rules <==> r in multiset(rules);
    assert forall r :: r in RulesOf(patterns) <==> r in multiset(RulesOf(patterns));
    if d in exact { assert PatternMatches(Literal(d), domain); }
    if MatchesSome(rules, d) {
      var r :| r in rules && Covers(r, ReverseLabels(Normalize(d)));
      assert PatternMatches(Suffix(r), domain);
    }
    if AnyMatches(patterns, domain) {
      var p :| p in patterns && PatternMatches(p, domain);
      match p
      case Literal(name) => assert name in exact;
      case Suffix(r) => assert r in rules;
    }
  }

  /** A table answers for every domain as the flat specification of the patterns it represents. */
  lemma RepresentsMeaning(t: RuleTable, white: seq<Pattern>, black: seq<Pattern>, regexes: seq<string>,
                          lib: RegexLibrary, domain: string)
    requires Represents(t, white, black, regexes)
    ensures TableBlocks(t, lib, domain) <==> FlatBlocked(white, black, regexes, lib, domain)
  {
    SideMatches(t.whiteExact, t.whiteRules, white, domain);
    SideMatches(t.blackExact, t.blackRules, black, domain);
  }

  /** Whatever the order in which the fetched lists are merged, the loaded table gives the same answer
      for every domain and the same total. */
  lemma MergeOrderIrrelevant(cfg: BlockingConfig, files: seq<Option<seq<string>>>, fetched: seq<Option<seq<string>>>,
                             order: seq<Option<seq<string>>>, lib: RegexLibrary, t: RuleTable, u: RuleTable, domain: string)
    requires multiset(EachList(fetched)) == multiset(EachList(order))
    requires Represents(t, WhitePatterns(cfg), BlackPatterns(cfg, files, fetched), Compiled(cfg.regexBlacklist, lib))
    requires Represents(u, WhitePatterns(cfg), BlackPatterns(cfg, files, order), Compiled(cfg.regexBlacklist, lib))
    ensures TableBlocks(t, lib, domain) <==> TableBlocks(u, lib, domain)
    ensures t.totalRules == u.totalRules
  {
    var regexes := Compiled(cfg.regexBlacklist, lib);
    FlattenPermuted(EachList(fetched), EachList(order));
    SamePartsUnder(Flatten(EachEntry(cfg.blacklist)) + Flatten(EachList(files)), Flatten(EachList(fetched)), Flatten(EachList(order)));
    assert SameParts(BlackPatterns(cfg, files, fetched), BlackPatterns(cfg, files, order));
    assert |multiset(RulesOf(BlackPatterns(cfg, files, fetched)))| == |multiset(RulesOf(BlackPatterns(cfg, files, order)))|;
    assert Represents(u, WhitePatterns(cfg), BlackPatterns(cfg, files, fetched), regexes);
    RepresentsMeaning(t, WhitePatterns(cfg), BlackPatterns(cfg, files, fetched), regexes, lib, domain);
    RepresentsMeaning(u, WhitePatterns(cfg), BlackPatterns(cfg, files, fetched), regexes, lib, domain);
  }
}

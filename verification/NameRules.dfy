/** What entries and lists mean for names, in terms of names and string suffixes alone. */
module NameRules {
  import opened Text
  import opened Labels
  import opened Loader
  import opened Tries
  import opened FilterRules
  import opened LoaderFixpoint
  import opened LocalTrie

  /** The three ways to write an entry: `name`, `*.name` and `.name`. */
  datatype Form = Whole | Starred | Led

  datatype NameRule = NameRule(name: string, form: Form)

  function Written(e: NameRule): string {
    match e.form
    case Whole => e.name
    case Starred => "*." + e.name
    case Led => "." + e.name
  }

  /** The dots that may follow a name in a query. */
  predicate FinalDots(dots: string) { dots == "" || dots == "." || dots == ".." }

  /** The entry is for this name: itself, or with a prefix also every name below it. A whole name is not for
      itself with two final dots, since one normalisation takes off one of them. */
  predicate Names(e: NameRule, q: string, dots: string) {
    || (ToLower(q) == ToLower(e.name) && (dots == ".." ==> e.form != Whole))
    || (e.form != Whole && HasSuffix(ToLower(q), "." + ToLower(e.name)))
  }

  /** What one normalisation leaves of the name. */
  function Seen(q: string, dots: string): string {
    if dots == ".." then ToLower(q) + "." else ToLower(q)
  }

  ghost predicate AllPlain(es: seq<NameRule>) {
    forall e :: e in es ==> PlainName(e.name)
  }

  ghost predicate SomeNames(es: seq<NameRule>, q: string, dots: string) {
    exists e :: e in es && Names(e, q, dots)
  }

  predicate Blank(raw: string) {
    forall i :: 0 <= i < |raw| ==> IsSpace(raw[i])
  }

  /** The entries of a configuration are these rules as written, and blank ones. */
  ghost predicate Writes(raws: seq<string>, es: seq<NameRule>) {
    && (forall e :: e in es ==> Written(e) in raws)
    && forall raw :: raw in raws ==> Blank(raw) || exists e :: e in es && raw == Written(e)
  }

  /** The domains of the lists that could be read are these rules in lower case. */
  ghost predicate Provides(lists: seq<Option<seq<string>>>, es: seq<NameRule>) {
    forall d :: Lists(lists, d) <==> exists e :: e in es && d == ToLower(Written(e))
  }

  ghost predicate SomeExpression(raws: seq<string>, lib: RegexLibrary, d: string) {
    exists raw :: raw in raws && TrimSpace(raw) != "" && lib.compiles(TrimSpace(raw)) && lib.matches(TrimSpace(raw), d)
  }

  // ---------------------------------------------------------------- one entry

  function Lowered(e: NameRule): NameRule {
    e.(name := ToLower(e.name))
  }

  lemma WrittenLower(e: NameRule)
    ensures ToLower(Written(e)) == Written(Lowered(e))
  {
    SameElements(ToLower(Written(e)), Written(Lowered(e)));
  }

  lemma WrittenHarmless(e: NameRule)
    requires PlainName(e.name)
    ensures Harmless(Written(e))
  {
    PlainEnds(e.name);
  }

  /** An entry is only lowered. */
  lemma NormalizeWritten(e: NameRule)
    requires PlainName(e.name)
    ensures Normalize(Written(e)) == Written(Lowered(e)) != ""
  {
    WrittenHarmless(e);
    NormalizeHarmless(Written(e));
    WrittenLower(e);
  }

  lemma LowerTwice(s: string)
    ensures ToLower(ToLower(s)) == ToLower(s)
  {
    SameElements(ToLower(ToLower(s)), ToLower(s));
  }

  lemma PrefixesOf(e: NameRule)
    requires PlainName(e.name)
    ensures HasPrefix(Written(e), "*.") <==> e.form.Starred?
    ensures HasPrefix(Written(e), ".") <==> e.form.Led?
    ensures e.form.Starred? ==> TrimPrefix(Written(e), "*.") == e.name
    ensures e.form.Led? ==> TrimPrefix(Written(e), ".") == e.name
  {
    PlainEnds(e.name);
    var s := Written(e);
    match e.form
    case Whole =>
      NotAffix(s, ".");
      NotAffix(s, "*.");
    case Starred =>
      NotAffix(s, ".");
      assert s[..2] == "*." && s[2..] == e.name;
    case Led =>
      NotAffix(s, "*.");
      assert s[..1] == "." && s[1..] == e.name;
  }

  /** The one pattern that the entry contributes. */
  function PatternFor(e: NameRule): Pattern {
    if e.form.Whole? then Literal(ToLower(e.name)) else Suffix(Rule(ReverseLabels(ToLower(e.name)), true))
  }

  lemma ContributesOne(e: NameRule)
    requires PlainName(e.name)
    ensures PatternsOf(Written(Lowered(e))) == [PatternFor(e)]
  {
    var low := Lowered(e);
    PlainLower(e.name);
    LowerTwice(e.name);
    NormalizeWritten(low);
    PrefixesOf(low);
    UnlabelOfLabels(low.name);
  }

  lemma PatternNames(e: NameRule, q: string, dots: string)
    requires PlainName(e.name) && PlainName(q) && FinalDots(dots)
    ensures PatternMatches(PatternFor(e), q + dots) <==> Names(e, q, dots)
  {
    NormalizesToLower(q, dots);
    if e.form.Whole? {
      SeenIsName(ToLower(e.name), ToLower(q), dots, e);
    } else {
      PlainLower(e.name);
      PlainLower(q);
      SuffixIsLabelPrefix(ToLower(q), ToLower(e.name));
    }
  }

  /** What is seen of a name is a plain name only without a dot left. */
  lemma SeenIsName(n: string, l: string, dots: string, e: NameRule)
    requires PlainName(e.name) && n == ToLower(e.name)
    ensures (if dots == ".." then l + "." else l) == n <==> l == n && dots != ".."
  {
    PlainLower(e.name);
    PlainEnds(n);
    FrontOfAppend(l, '.');
    assert Last(n) != '.';
  }

  lemma NormalizesToLower(q: string, dots: string)
    requires PlainName(q) && FinalDots(dots)
    ensures Normalize(q + dots) == Seen(q, dots) != "" && Normalize(Seen(q, dots)) == ToLower(q)
  {
    AppendNothing(q);
    PlainOnlyLowered(q);
    PlainLower(q);
    PlainOnlyLowered(ToLower(q));
    LowerTwice(q);
    if dots == ".." { TwoDots(q); }
  }

  lemma PlainOnlyLowered(q: string)
    requires PlainName(q)
    ensures q != "" && Normalize(q) == ToLower(q) && Normalize(q + ".") == ToLower(q)
  {
    PlainEnds(q);
    NormalizeHarmless(q);
  }

  lemma TwoDots(q: string)
    requires PlainName(q)
    ensures Normalize(q + "..") == ToLower(q) + "."
  {
    var x := q + "..";
    PlainEnds(q);
    TrimSpaceOfWord(x);
    NormalizeLowered(x);
    LowerTwoDots(q);
    OneDotOff(ToLower(q));
  }

  lemma LowerTwoDots(q: string)
    ensures ToLower(q + "..") == ToLower(q) + ".."
  {
    SameElements(ToLower(q + ".."), ToLower(q) + "..");
  }

  lemma OneDotOff(s: string)
    ensures TrimSuffix(s + "..", ".") == s + "."
  {
    var l := s + "..";
    assert l[|l| - 1..] == "." && l[..|l| - 1] == s + ".";
  }

  lemma BlankIsEmpty(raw: string)
    requires Blank(raw)
    ensures Normalize(raw) == ""
  {
    BlankTrims(raw);
  }

  lemma {:induction false} BlankTrims(raw: string)
    requires Blank(raw)
    ensures TrimLeft(raw) == ""
  {
    if raw != "" { BlankTrims(raw[1..]); }
  }

  // ---------------------------------------------------------------- entries and lists

  lemma EntryContributes(e: NameRule)
    requires PlainName(e.name)
    ensures EntryPatterns(Written(e)) == [PatternFor(e)]
  {
    NormalizeWritten(e);
    ContributesOne(e);
  }

  /** Blank entries put nothing into a table, not even an empty name. */
  lemma NoEmptyName(t: RuleTable, cfg: BlockingConfig, files: seq<Option<seq<string>>>, fetched: seq<Option<seq<string>>>,
                    regexes: seq<string>)
    requires Represents(t, WhitePatterns(cfg), BlackPatterns(cfg, files, fetched), regexes)
    ensures "" !in t.whiteExact && "" !in t.blackExact
  {
    EntriesHaveNoEmptyName(cfg.whitelist);
    EntriesHaveNoEmptyName(cfg.blacklist);
    ListsHaveNoEmptyName(files + fetched);
    BlackMembers(cfg, files, fetched, Literal(""));
    PartsMembers(WhitePatterns(cfg));
    PartsMembers(BlackPatterns(cfg, files, fetched));
  }

  lemma EntriesHaveNoEmptyName(raws: seq<string>)
    ensures Literal("") !in Flatten(EachEntry(raws))
  {
    EntryMembers(raws);
    forall raw | raw in raws ensures Literal("") !in EntryPatterns(raw) { NotTheEmptyName(raw); }
  }

  lemma NotTheEmptyName(raw: string)
    ensures Literal("") !in EntryPatterns(raw)
  {
    var clean := Normalize(raw);
    if clean != "" && Literal("") in PatternsOf(clean) { OnlyItself(clean, Literal("")); }
  }

  lemma OnlyItself(clean: string, p: Pattern)
    requires p in PatternsOf(clean) && p.Literal?
    ensures p.name == clean
  {
  }

  lemma ListsHaveNoEmptyName(lists: seq<Option<seq<string>>>)
    ensures Literal("") !in Flatten(EachList(lists))
  {
    ListMembers(lists, Literal(""));
    forall d | Lists(lists, d) ensures Literal("") !in PatternsOf(d) {
      var list :| list in lists && list.Some? && d in Parsed(list.value);
      ListedIsNotEmpty(list.value, d);
      if Literal("") in PatternsOf(d) { OnlyItself(d, Literal("")); }
    }
  }

  lemma ListedIsNotEmpty(lines: seq<string>, d: string)
    requires d in Parsed(lines)
    ensures d != ""
  {
    DistinctInOrder(Tokens(lines));
    TokensShape(lines);
  }

  lemma EntriesNameOnly(raws: seq<string>, es: seq<NameRule>, q: string, dots: string)
    requires AllPlain(es) && Writes(raws, es) && PlainName(q) && FinalDots(dots)
    requires AnyMatches(Flatten(EachEntry(raws)), q + dots)
    ensures SomeNames(es, q, dots)
  {
    EntryMembers(raws);
    var p :| p in Flatten(EachEntry(raws)) && PatternMatches(p, q + dots);
    var raw :| raw in raws && p in EntryPatterns(raw);
    RawNames(raw, es, p, q, dots);
  }

  lemma RawNames(raw: string, es: seq<NameRule>, p: Pattern, q: string, dots: string)
    requires AllPlain(es) && PlainName(q) && FinalDots(dots)
    requires Blank(raw) || exists e :: e in es && raw == Written(e)
    requires p in EntryPatterns(raw) && PatternMatches(p, q + dots)
    ensures SomeNames(es, q, dots)
  {
    if Blank(raw) {
      BlankIsEmpty(raw);
    } else {
      var e :| e in es && raw == Written(e);
      EntryContributes(e);
      PatternNames(e, q, dots);
    }
  }

  lemma EntriesNameAll(raws: seq<string>, es: seq<NameRule>, q: string, dots: string)
    requires AllPlain(es) && Writes(raws, es) && PlainName(q) && FinalDots(dots)
    requires SomeNames(es, q, dots)
    ensures AnyMatches(Flatten(EachEntry(raws)), q + dots)
  {
    EntryMembers(raws);
    var e :| e in es && Names(e, q, dots);
    EntryContributes(e);
    PatternNames(e, q, dots);
    assert Written(e) in raws && PatternFor(e) in EntryPatterns(Written(e));
  }

  lemma EntriesName(raws: seq<string>, es: seq<NameRule>, q: string, dots: string)
    requires AllPlain(es) && Writes(raws, es) && PlainName(q) && FinalDots(dots)
    ensures AnyMatches(Flatten(EachEntry(raws)), q + dots) <==> SomeNames(es, q, dots)
  {
    if AnyMatches(Flatten(EachEntry(raws)), q + dots) { EntriesNameOnly(raws, es, q, dots); }
    if SomeNames(es, q, dots) { EntriesNameAll(raws, es, q, dots); }
  }

  lemma ListsNameOnly(lists: seq<Option<seq<string>>>, es: seq<NameRule>, q: string, dots: string)
    requires AllPlain(es) && Provides(lists, es) && PlainName(q) && FinalDots(dots)
    requires AnyMatches(Flatten(EachList(lists)), q + dots)
    ensures SomeNames(es, q, dots)
  {
    var p :| p in Flatten(EachList(lists)) && PatternMatches(p, q + dots);
    ListMembers(lists, p);
    var domain :| Lists(lists, domain) && p in PatternsOf(domain);
    var e :| e in es && domain == ToLower(Written(e));
    WrittenLower(e);
    ContributesOne(e);
    PatternNames(e, q, dots);
  }

  lemma ListsNameAll(lists: seq<Option<seq<string>>>, es: seq<NameRule>, q: string, dots: string)
    requires AllPlain(es) && Provides(lists, es) && PlainName(q) && FinalDots(dots)
    requires SomeNames(es, q, dots)
    ensures AnyMatches(Flatten(EachList(lists)), q + dots)
  {
    var e :| e in es && Names(e, q, dots);
    WrittenLower(e);
    ContributesOne(e);
    PatternNames(e, q, dots);
    assert Lists(lists, ToLower(Written(e)));
    assert Gives(lists, PatternFor(e));
    ListMembers(lists, PatternFor(e));
  }

  lemma ListsName(lists: seq<Option<seq<string>>>, es: seq<NameRule>, q: string, dots: string)
    requires AllPlain(es) && Provides(lists, es) && PlainName(q) && FinalDots(dots)
    ensures AnyMatches(Flatten(EachList(lists)), q + dots) <==> SomeNames(es, q, dots)
  {
    if AnyMatches(Flatten(EachList(lists)), q + dots) { ListsNameOnly(lists, es, q, dots); }
    if SomeNames(es, q, dots) { ListsNameAll(lists, es, q, dots); }
  }

  lemma ExpressionsMatch(raws: seq<string>, lib: RegexLibrary, domain: string)
    ensures RegexMatches(Compiled(raws, lib), lib, domain) <==> SomeExpression(raws, lib, Normalize(domain))
  {
    CompiledMembers(raws, lib);
    var d := Normalize(domain);
    if RegexMatches(Compiled(raws, lib), lib, domain) {
      var re :| re in Compiled(raws, lib) && lib.matches(re, d);
      var raw :| raw in raws && re == TrimSpace(raw);
    }
    if SomeExpression(raws, lib, d) {
      var raw :| raw in raws && TrimSpace(raw) != "" && lib.compiles(TrimSpace(raw)) && lib.matches(TrimSpace(raw), d);
      assert TrimSpace(raw) in Compiled(raws, lib);
    }
  }

  /** The verdict on a name, by the rules and the expressions alone. */
  ghost predicate BlocksName(white: seq<NameRule>, black: seq<NameRule>, listed: seq<NameRule>,
                             expressions: seq<string>, lib: RegexLibrary, q: string, dots: string)
  {
    && !SomeNames(white, q, dots)
    && (SomeNames(black, q, dots) || SomeNames(listed, q, dots) || SomeExpression(expressions, lib, Seen(q, dots)))
  }

  /** A configuration and its lists block a name, with or without final dots, exactly when no whitelist entry is
      for it and a blacklist entry or a listed domain is, or an expression matches it. */
  lemma BlockedByName(cfg: BlockingConfig, files: seq<Option<seq<string>>>, fetched: seq<Option<seq<string>>>, lib: RegexLibrary,
                      white: seq<NameRule>, black: seq<NameRule>, listed: seq<NameRule>, q: string, dots: string)
    requires AllPlain(white) && AllPlain(black) && AllPlain(listed) && PlainName(q) && FinalDots(dots)
    requires Writes(cfg.whitelist, white) && Writes(cfg.blacklist, black) && Provides(files + fetched, listed)
    ensures FlatBlocked(WhitePatterns(cfg), BlackPatterns(cfg, files, fetched), Compiled(cfg.regexBlacklist, lib), lib, q + dots) <==>
            BlocksName(white, black, listed, cfg.regexBlacklist, lib, q, dots)
  {
    NormalizesToLower(q, dots);
    EntriesName(cfg.whitelist, white, q, dots);
    EntriesName(cfg.blacklist, black, q, dots);
    ListsName(files + fetched, listed, q, dots);
    ExpressionsMatch(cfg.regexBlacklist, lib, q + dots);
    BlackMatches(cfg, files, fetched, q + dots);
  }

  lemma BlackMatches(cfg: BlockingConfig, files: seq<Option<seq<string>>>, fetched: seq<Option<seq<string>>>, d: string)
    ensures AnyMatches(BlackPatterns(cfg, files, fetched), d) <==>
            AnyMatches(Flatten(EachEntry(cfg.blacklist)), d) || AnyMatches(Flatten(EachList(files + fetched)), d)
  {
    forall p ensures p in BlackPatterns(cfg, files, fetched) <==>
                     p in Flatten(EachEntry(cfg.blacklist)) || p in Flatten(EachList(files + fetched)) {
      BlackMembers(cfg, files, fetched, p);
    }
  }

  /** So does the table that is loaded from them, in whatever order the lists were merged. */
  lemma TableBlocksByName(t: RuleTable, cfg: BlockingConfig, files: seq<Option<seq<string>>>, fetched: seq<Option<seq<string>>>,
                          lib: RegexLibrary, white: seq<NameRule>, black: seq<NameRule>, listed: seq<NameRule>, q: string, dots: string)
    requires Represents(t, WhitePatterns(cfg), BlackPatterns(cfg, files, fetched), Compiled(cfg.regexBlacklist, lib))
    requires AllPlain(white) && AllPlain(black) && AllPlain(listed) && PlainName(q) && FinalDots(dots)
    requires Writes(cfg.whitelist, white) && Writes(cfg.blacklist, black) && Provides(files + fetched, listed)
    ensures TableBlocks(t, lib, q + dots) <==>
            BlocksName(white, black, listed, cfg.regexBlacklist, lib, q, dots)
  {
    var d := q + dots;
    RepresentsMeaning(t, WhitePatterns(cfg), BlackPatterns(cfg, files, fetched), Compiled(cfg.regexBlacklist, lib), lib, d);
    BlockedByName(cfg, files, fetched, lib, white, black, listed, q, dots);
  }

  /** So it is for the canonical form of a name, under which requests and aliases are looked up. */
  lemma RequestBlockedByName(t: RuleTable, cfg: BlockingConfig, files: seq<Option<seq<string>>>, fetched: seq<Option<seq<string>>>,
                             lib: RegexLibrary, white: seq<NameRule>, black: seq<NameRule>, listed: seq<NameRule>, q: string)
    requires Represents(t, WhitePatterns(cfg), BlackPatterns(cfg, files, fetched), Compiled(cfg.regexBlacklist, lib))
    requires AllPlain(white) && AllPlain(black) && AllPlain(listed) && PlainName(q)
    requires Writes(cfg.whitelist, white) && Writes(cfg.blacklist, black) && Provides(files + fetched, listed)
    ensures TableBlocks(t, lib, CanonicalName(q)) <==> BlocksName(white, black, listed, cfg.regexBlacklist, lib, q, ".")
  {
    PlainCanonical(q);
    TableBlocksByName(t, cfg, files, fetched, lib, white, black, listed, ToLower(q), ".");
    CaseIsIgnored(white, black, listed, cfg.regexBlacklist, lib, q);
  }

  lemma PlainCanonical(q: string)
    requires PlainName(q)
    ensures CanonicalName(q) == ToLower(q) + "." && PlainName(ToLower(q))
  {
    PlainEnds(q);
    CanonicalPlain(q);
    PlainLower(q);
  }

  lemma CaseIsIgnored(white: seq<NameRule>, black: seq<NameRule>, listed: seq<NameRule>, expressions: seq<string>,
                      lib: RegexLibrary, q: string)
    ensures BlocksName(white, black, listed, expressions, lib, ToLower(q), ".") <==>
            BlocksName(white, black, listed, expressions, lib, q, ".")
  {
    LowerTwice(q);
    forall e ensures Names(e, ToLower(q), ".") <==> Names(e, q, ".") {}
  }
}

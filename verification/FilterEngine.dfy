/** The filter engine: snapshots of loaded rules, reloads that swap them, and the blocking verdict. */
module FilterEngine {
  import opened Text
  import opened Loader
  import opened Tries
  import opened FilterRules

  /** One side of a snapshot, whitelist or blacklist: a hash set of names and a trie of suffix rules. */
  class RuleSide {
    var exact: set<string>
    const trie: DomainTrie

    ghost predicate Valid()
      reads trie, trie.Repr
    {
      trie.Valid()
    }

    constructor ()
      ensures Valid() && fresh(trie) && fresh(trie.Repr)
      ensures exact == {} && trie.rules == []
    {
      exact := {};
      trie := new DomainTrie();
    }

    /** Adds one cleaned domain: suffix patterns to the trie, all others to the hash set. */
    method Add(clean: string)
      requires Valid()
      modifies this, trie, trie.Repr
      ensures Valid() && fresh(trie.Repr - old(trie.Repr))
      ensures exact == old(exact) + NamesOf(PatternsOf(clean))
      ensures trie.rules == old(trie.rules) + RulesOf(PatternsOf(clean))
    {
      if HasPrefix(clean, "*.") || HasPrefix(clean, ".") {
        PartsOfWrapped(AcceptedRules(clean, true));
        trie.Insert(clean, true);
      } else {
        PartsOfLiteral(clean);
        exact := exact + {clean};
      }
    }

    /** Adds the domains of a parsed list. */
    method AddAll(domains: seq<string>)
      requires Valid()
      modifies this, trie, trie.Repr
      ensures Valid() && fresh(trie.Repr - old(trie.Repr))
      ensures exact == old(exact) + NamesOf(Flatten(EachDomain(domains)))
      ensures trie.rules == old(trie.rules) + RulesOf(Flatten(EachDomain(domains)))
    {
      ghost var before, batches := trie.rules, EachDomain(domains);
      TakeAll(batches);
      AppendNothing(before);
      for i := 0 to |domains|
        invariant Valid() && fresh(trie.Repr - old(trie.Repr))
        invariant exact == old(exact) + NamesOf(Flatten(batches[..i]))
        invariant trie.rules == before + RulesOf(Flatten(batches[..i]))
      {
        FlattenStep(batches, i);
        AppendAssociates(before, RulesOf(Flatten(batches[..i])), RulesOf(batches[i]));
        Add(domains[i]);
      }
    }

    /** Adds an entry of the configuration, normalised; an empty one is skipped. */
    method AddEntry(raw: string)
      requires Valid()
      modifies this, trie, trie.Repr
      ensures Valid() && fresh(trie.Repr - old(trie.Repr))
      ensures exact == old(exact) + NamesOf(EntryPatterns(raw))
      ensures trie.rules == old(trie.rules) + RulesOf(EntryPatterns(raw))
    {
      var clean := Normalize(raw);
      if clean == "" {
        PartsOfNothing();
        AppendNothing(trie.rules);
      } else {
        Add(clean);
      }
    }

    /** Adds the entries of the configuration. */
    method AddEntries(raws: seq<string>)
      requires Valid()
      modifies this, trie, trie.Repr
      ensures Valid() && fresh(trie.Repr - old(trie.Repr))
      ensures exact == old(exact) + NamesOf(Flatten(EachEntry(raws)))
      ensures trie.rules == old(trie.rules) + RulesOf(Flatten(EachEntry(raws)))
    {
      ghost var before, batches := trie.rules, EachEntry(raws);
      TakeAll(batches);
      AppendNothing(before);
      for i := 0 to |raws|
        invariant Valid() && fresh(trie.Repr - old(trie.Repr))
        invariant exact == old(exact) + NamesOf(Flatten(batches[..i]))
        invariant trie.rules == before + RulesOf(Flatten(batches[..i]))
      {
        FlattenStep(batches, i);
        AppendAssociates(before, RulesOf(Flatten(batches[..i])), RulesOf(batches[i]));
        AddEntry(raws[i]);
      }
    }

    /** Whether the side holds the domain, by name or by suffix rule. */
    method Holds(d: string) returns (b: bool)
      requires Valid()
      ensures b <==> d in exact || MatchesSome(trie.rules, d)
    {
      if d in exact { return true; }
      b := trie.HasRules();
      if b {
        b := trie.Matches(d);
      }
    }

    /** One list, merged under the lock by whichever worker holds it. */
    method MergeList(list: Option<seq<string>>)
      requires Valid()
      modifies this, trie, trie.Repr
      ensures Valid() && fresh(trie.Repr - old(trie.Repr))
      ensures exact == old(exact) + NamesOf(ListPatterns(list))
      ensures trie.rules == old(trie.rules) + RulesOf(ListPatterns(list))
    {
      match list
      case None =>
        PartsOfNothing();
        AppendNothing(trie.rules);
      case Some(lines) =>
        var domains := ParseHosts(lines);
        AddAll(domains);
    }

    /** Reads local files in order. `files[i]` is the content of the i-th file, if it can be read. */
    method LoadFiles(files: seq<Option<seq<string>>>)
      requires Valid()
      modifies this, trie, trie.Repr
      ensures Valid() && fresh(trie.Repr - old(trie.Repr))
      ensures exact == old(exact) + NamesOf(Flatten(EachList(files)))
      ensures trie.rules == old(trie.rules) + RulesOf(Flatten(EachList(files)))
    {
      ghost var before, batches := trie.rules, EachList(files);
      TakeAll(batches);
      AppendNothing(before);
      for i := 0 to |files|
        invariant Valid() && fresh(trie.Repr - old(trie.Repr))
        invariant exact == old(exact) + NamesOf(Flatten(batches[..i]))
        invariant trie.rules == before + RulesOf(Flatten(batches[..i]))
      {
        FlattenStep(batches, i);
        AppendAssociates(before, RulesOf(Flatten(batches[..i])), RulesOf(batches[i]));
        MergeList(files[i]);
      }
    }

    /** The URL workers take the merge lock in an arbitrary order. */
    method MergeFetched(fetched: seq<Option<seq<string>>>)
      requires Valid()
      modifies this, trie, trie.Repr
      ensures Valid() && fresh(trie.Repr - old(trie.Repr))
      ensures exact == old(exact) + NamesOf(Flatten(EachList(fetched)))
      ensures multiset(trie.rules) == multiset(old(trie.rules)) + multiset(RulesOf(Flatten(EachList(fetched))))
    {
      var pending := fetched;
      while pending != []
        invariant Valid() && fresh(trie.Repr - old(trie.Repr))
        invariant exact + NamesOf(Flatten(EachList(pending))) == old(exact) + NamesOf(Flatten(EachList(fetched)))
        invariant multiset(trie.rules) + multiset(RulesOf(Flatten(EachList(pending)))) ==
                  multiset(old(trie.rules)) + multiset(RulesOf(Flatten(EachList(fetched))))
        decreases |pending|
      {
        var i: nat :| i < |pending|;
        PendingStep(pending, i);
        MergeList(pending[i]);
        pending := pending[..i] + pending[i + 1..];
      }
    }

    lemma DropList(lists: seq<Option<seq<string>>>, i: nat)
      requires i < |lists|
      ensures Drop(EachList(lists), i) == EachList(lists[..i] + lists[i + 1..])
    {
      SameElements(Drop(EachList(lists), i), EachList(lists[..i] + lists[i + 1..]));
    }

    lemma PendingStep(pending: seq<Option<seq<string>>>, i: nat)
      requires i < |pending|
      ensures var rest := Flatten(EachList(pending[..i] + pending[i + 1..]));
              && NamesOf(Flatten(EachList(pending))) == NamesOf(ListPatterns(pending[i])) + NamesOf(rest)
              && multiset(RulesOf(Flatten(EachList(pending)))) == multiset(RulesOf(ListPatterns(pending[i]))) + multiset(RulesOf(rest))
    {
      FlattenRemove(EachList(pending), i);
      DropList(pending, i);
      PartsConcat(ListPatterns(pending[i]), Flatten(EachList(pending[..i] + pending[i + 1..])));
    }
  }

  class FilterSnapshot {
    const white: RuleSide
    const black: RuleSide
    const regexBlacklist: seq<string>
    const totalRules: nat

    ghost predicate Valid()
      reads this, white, black, white.trie, black.trie, white.trie.Repr, black.trie.Repr
    {
      && white.Valid() && black.Valid()
      && white.trie.Repr !! black.trie.Repr
      && white != black && white.trie != black.trie
    }

    ghost function Table(): RuleTable
      reads this, white, black, white.trie, black.trie
    {
      RuleTable(white.exact, white.trie.rules, black.exact, black.trie.rules, regexBlacklist, totalRules)
    }

    constructor (white: RuleSide, black: RuleSide, regexBlacklist: seq<string>, totalRules: nat)
      requires white.Valid() && black.Valid()
      requires white.trie.Repr !! black.trie.Repr && white != black && white.trie != black.trie
      ensures Valid() && this.white == white && this.black == black
      ensures this.regexBlacklist == regexBlacklist && this.totalRules == totalRules
    {
      this.white, this.black := white, black;
      this.regexBlacklist, this.totalRules := regexBlacklist, totalRules;
    }
  }

  class Engine {
    var cfg: BlockingConfig
    const lib: RegexLibrary
    var snapshot: FilterSnapshot

    ghost predicate Valid()
      reads this, snapshot, snapshot.white, snapshot.black, snapshot.white.trie, snapshot.black.trie
      reads snapshot.white.trie.Repr, snapshot.black.trie.Repr
    {
      snapshot.Valid()
    }

    ghost function Table(): RuleTable
      reads this, snapshot, snapshot.white, snapshot.black, snapshot.white.trie, snapshot.black.trie
    {
      snapshot.Table()
    }

    constructor (cfg: BlockingConfig, lib: RegexLibrary)
      ensures Valid()
      ensures this.cfg == cfg && this.lib == lib && Table() == EMPTY_TABLE
    {
      this.cfg, this.lib := cfg, lib;
      var white := new RuleSide();
      var black := new RuleSide();
      snapshot := new FilterSnapshot(white, black, [], 0);
    }

    /** Never when blocking is off, else the verdict of the current snapshot. */
    method IsBlocked(domain: string) returns (b: bool)
      requires Valid()
      ensures b <==> cfg.enabled && TableBlocks(Table(), lib, domain)
    {
      if !cfg.enabled { return false; }
      var snap := snapshot;
      var d := Normalize(domain);
      if d == "" { return false; }
      var listed := snap.white.Holds(d);
      if listed { return false; }
      listed := snap.black.Holds(d);
      if listed { return true; }
      b := AnyExpression(snap.regexBlacklist, d);
    }

    method AnyExpression(regexes: seq<string>, d: string) returns (b: bool)
      ensures b <==> exists re :: re in regexes && lib.matches(re, d)
    {
      for i := 0 to |regexes|
        invariant forall k :: 0 <= k < i ==> !lib.matches(regexes[k], d)
      {
        if lib.matches(regexes[i], d) { return true; }
      }
      b := false;
    }

    method CompileAll(raws: seq<string>) returns (compiled: seq<string>)
      ensures compiled == Compiled(raws, lib)
    {
      compiled := [];
      assert raws[..0] == [];
      for i := 0 to |raws|
        invariant compiled == Compiled(raws[..i], lib)
      {
        assert raws[..i + 1][..i] == raws[..i];
        var p := TrimSpace(raws[i]);
        if p != "" && lib.compiles(p) {
          compiled := compiled + [p];
        }
      }
      assert raws[..|raws|] == raws;
    }

    method BuildEntries(raws: seq<string>) returns (side: RuleSide)
      ensures side.Valid() && fresh(side) && fresh(side.trie) && fresh(side.trie.Repr)
      ensures side.exact == NamesOf(Flatten(EachEntry(raws))) && side.trie.rules == RulesOf(Flatten(EachEntry(raws)))
    {
      side := new RuleSide();
      side.AddEntries(raws);
      AppendNothing(RulesOf(Flatten(EachEntry(raws))));
    }

    method BuildLocal(files: seq<Option<seq<string>>>) returns (side: RuleSide)
      ensures side.Valid() && fresh(side) && fresh(side.trie) && fresh(side.trie.Repr)
      ensures var patterns := Flatten(EachEntry(cfg.blacklist)) + Flatten(EachList(files));
              side.exact == NamesOf(patterns) && side.trie.rules == RulesOf(patterns)
    {
      PartsConcat(Flatten(EachEntry(cfg.blacklist)), Flatten(EachList(files)));
      side := BuildEntries(cfg.blacklist);
      side.LoadFiles(files);
    }

    method BuildBlack(files: seq<Option<seq<string>>>, fetched: seq<Option<seq<string>>>) returns (side: RuleSide)
      ensures side.Valid() && fresh(side) && fresh(side.trie) && fresh(side.trie.Repr)
      ensures side.exact == NamesOf(BlackPatterns(cfg, files, fetched))
      ensures multiset(side.trie.rules) == multiset(RulesOf(BlackPatterns(cfg, files, fetched)))
      ensures side.trie.count == |RulesOf(BlackPatterns(cfg, files, fetched))|
    {
      side := BuildLocal(files);
      PartsConcat(Flatten(EachEntry(cfg.blacklist)) + Flatten(EachList(files)), Flatten(EachList(fetched)));
      side.MergeFetched(fetched);
      SameSize(side.trie.rules, RulesOf(BlackPatterns(cfg, files, fetched)));
    }

    lemma SameSize(a: seq<Rule>, b: seq<Rule>)
      requires multiset(a) == multiset(b)
      ensures |a| == |b|
    {
      assert |multiset(a)| == |a|;
    }

    method BuildSnapshot(files: seq<Option<seq<string>>>, fetched: seq<Option<seq<string>>>) returns (snap: FilterSnapshot)
      ensures snap.Valid() && fresh(snap)
      ensures Represents(snap.Table(), WhitePatterns(cfg), BlackPatterns(cfg, files, fetched), Compiled(cfg.regexBlacklist, lib))
    {
      var white := BuildEntries(cfg.whitelist);
      var black := BuildBlack(files, fetched);
      var regexes := CompileAll(cfg.regexBlacklist);
      snap := new FilterSnapshot(white, black, regexes, |black.exact| + black.trie.count + |regexes|);
    }

    /** Builds a snapshot of the configuration and the lists that could be read, and swaps it in; the
        old snapshot is not touched. With blocking off nothing changes. */
    method LoadRules(files: seq<Option<seq<string>>>, fetched: seq<Option<seq<string>>>)
      requires Valid()
      modifies this`snapshot
      ensures Valid()
      ensures !cfg.enabled ==> snapshot == old(snapshot)
      ensures cfg.enabled ==> fresh(snapshot)
      ensures cfg.enabled ==>
        Represents(Table(), WhitePatterns(cfg), BlackPatterns(cfg, files, fetched), Compiled(cfg.regexBlacklist, lib))
    {
      if !cfg.enabled { return; }
      var newSnap := BuildSnapshot(files, fetched);
      snapshot := newSnap;
    }
  }
}

/** What a reload does not undo: answers that are already in the cache. */
module StaleAliases {
  import opened Text
  import opened Messages
  import opened Loader
  import opened FilterRules
  import opened CacheModel
  import opened Forwarders
  import opened HandlerModel
  import opened Pipeline
  import opened SequentialRuns

  /** Load one table, serve, load another, serve on. */
  function ReloadedRun(env: Env, older: RuleTable, before: seq<Step>, newer: RuleTable, after: seq<Step>): State {
    var s := Run(env, After(env, INITIAL, Reload(older)), before);
    Run(env, After(env, s, Reload(newer)), after)
  }

  /** A reply from the cache, to a request that arrived under the newer table, with an alias of a name that
      this table blocks. */
  ghost predicate StaleReply(env: Env, newer: RuleTable, x: Sent) {
    && x.source.FromCache? && x.window.first == 2
    && exists i :: 0 <= i < |x.reply.answer| && Cloaks(env.verdict(newer), x.reply.answer[i])
  }

  /** Some run that loads these two tables and no other sends such a reply. */
  ghost predicate ServesStale(env: Env, older: RuleTable, newer: RuleTable) {
    exists before, after, x ::
      && x in ReloadedRun(env, older, before, newer, after).sent && StaleReply(env, newer, x)
      && ReloadedRun(env, older, before, newer, after).tables == [EMPTY_TABLE, older, newer]
  }

  /** Of two names that the older table lets through the newer one blocks the second only. */
  predicate Splits(env: Env, older: RuleTable, newer: RuleTable, name: string, alias: string) {
    && !env.verdict(older)(CanonicalName(name)) && !env.verdict(older)(CanonicalName(alias))
    && !env.verdict(newer)(CanonicalName(name)) && env.verdict(newer)(CanonicalName(alias))
  }

  // ---------------------------------------------------------------- when there are such names

  /** A request for the name and a response that makes it an alias. */
  function QueryFor(name: string): MessageValue {
    MessageValue(0, Header(false, 0, false, false, true, false, false, false, RCODE_SUCCESS),
                 [Question(name, TYPE_A, CLASS_INET)], [], [], [])
  }

  function AliasResponse(name: string, alias: string): MessageValue {
    MessageValue(0, Header(true, 0, false, false, true, true, false, false, RCODE_SUCCESS),
                 [Question(name, TYPE_A, CLASS_INET)], [RecordValue(name, CLASS_INET, 60, CNAME(alias))], [], [])
  }

  lemma AliasStored(l: Limits, name: string, alias: string)
    requires WellFormed(l) && l.enabled
    ensures var r, resp := QueryFor(name), AliasResponse(name, alias); AfterSet(l, [], r, resp, 0) == [EntryFor(l, r, resp, 0)]
  {
    var rr := RecordValue(name, CLASS_INET, 60, CNAME(alias));
    assert AllRecords(AliasResponse(name, alias)) == [rr];
    assert Front([rr]) == [] && Last([rr]) == rr;
    assert LeastTTL([rr]) == Some(60);
  }

  lemma AliasServed(l: Limits, name: string, alias: string, e: Entry)
    requires l.enabled && e == EntryFor(l, QueryFor(name), AliasResponse(name, alias), 0)
    ensures Hits(l, [e], QueryFor(name), 0)
    ensures var hit := Lookup(l, [e], QueryFor(name), 0).value; |hit.answer| == 1 && hit.answer[0].rdata == CNAME(alias)
  {
    assert Find([e], e.key) == 0;
  }

  /** A table that blocks an alias does not stop a request that arrives after it is published from being
      answered with that alias, if the entry was stored before. */
  lemma StaleAlias(env: Env, older: RuleTable, newer: RuleTable, name: string, alias: string)
    returns (before: seq<Step>, after: seq<Step>, x: Sent)
    requires WellFormed(env.limits) && env.limits.enabled && Splits(env, older, newer, name, alias)
    ensures var s := ReloadedRun(env, older, before, newer, after);
            x in s.sent && StaleReply(env, newer, x) && s.tables == [EMPTY_TABLE, older, newer]
  {
    var s0 := After(env, INITIAL, Reload(older));
    before := CacheAlias(env, s0, name, alias);
    var s1 := After(env, Run(env, s0, before), Reload(newer));
    after, x := ServeAlias(env, s1, name, alias);
    assert Cloaks(env.verdict(newer), x.reply.answer[0]);
  }

  /** Under a table that lets the name through the stored alias is served. */
  lemma ServeAlias(env: Env, s: State, name: string, alias: string) returns (steps: seq<Step>, x: Sent)
    requires s.tables != [] && s.jobs == map[] && env.limits.enabled
    requires s.cache == [EntryFor(env.limits, QueryFor(name), AliasResponse(name, alias), 0)]
    requires !Current(env, s.tables)(CanonicalName(name))
    ensures Run(env, s, steps).tables == s.tables && x in Run(env, s, steps).sent
    ensures x.source.FromCache? && x.window.first == |s.tables| - 1
    ensures |x.reply.answer| == 1 && x.reply.answer[0].rdata == CNAME(alias)
  {
    AliasServed(env.limits, name, alias, s.cache[0]);
    steps := ServeIsRun(env, s, 0, QueryFor(name), 0, 0, AllFailed(None));
    x := Last(Run(env, s, steps).sent);
  }

  /** Under a table that blocks neither name the alias is stored. */
  lemma CacheAlias(env: Env, s: State, name: string, alias: string) returns (steps: seq<Step>)
    requires WellFormed(env.limits) && env.limits.enabled && s.tables != [] && s.cache == [] && s.jobs == map[]
    requires !Current(env, s.tables)(CanonicalName(name)) && !Current(env, s.tables)(CanonicalName(alias))
    ensures var s' := Run(env, s, steps);
            && s'.tables == s.tables && s'.jobs == map[]
            && s'.cache == [EntryFor(env.limits, QueryFor(name), AliasResponse(name, alias), 0)]
  {
    var r, resp := QueryFor(name), AliasResponse(name, alias);
    steps := ServeIsRun(env, s, 0, r, 0, 0, Response(resp));
    assert Restored(resp, r).(id := r.id) == resp;
    assert !Refused(env.cfg, Current(env, s.tables), CanonicalName(name), resp.answer);
    AliasStored(env.limits, name, alias);
  }

  // ---------------------------------------------------------------- only when there are such names

  /** Nothing in the state goes back to before the table in place `base`. */
  ghost predicate NotBefore(s: State, base: nat) {
    && base < |s.tables|
    && (forall t :: t in s.jobs ==> s.jobs[t].since >= base)
    && (forall k :: k in s.vetted ==> s.vetted[k].since >= base)
    && (forall x :: x in s.sent && x.source.FromCache? ==> x.source.vetting.since >= base)
  }

  lemma SinceLookUp(env: Env, s: State, t: nat, now: int, base: nat)
    requires Inv(env, s) && NotBefore(s, base) && Ready(s, t)
    ensures NotBefore(LookUp(env, s, t, now), base)
  {
    var r := s.jobs[t].r;
    if Hits(env.limits, s.cache, r, now) {
      var e := s.cache[Find(s.cache, MakeKey(r.questions[0]))];
      assert e in s.cache && EntryOk(env, Past(s), s.vetted, e);
    }
  }

  lemma SinceGoto(s: State, t: nat, phase: Phase, base: nat)
    requires NotBefore(s, base) && t in s.jobs
    ensures NotBefore(Goto(s, t, phase), base)
  {
  }

  lemma SinceFinish(s: State, t: nat, reply: MessageValue, source: Source, base: nat)
    requires NotBefore(s, base) && t in s.jobs && !source.FromCache?
    ensures NotBefore(Finish(s, t, reply, source), base)
  {
  }

  lemma SinceProceed(env: Env, s: State, t: nat, now: int, upstream: ForwardResult<MessageValue>, base: nat)
    requires Inv(env, s) && NotBefore(s, base) && Ready(s, t)
    ensures NotBefore(Proceed(env, s, t, now, upstream), base)
  {
    var r := s.jobs[t].r;
    match s.jobs[t].phase
    case Naming =>
      SinceGoto(s, t, Looking, base);
      SinceFinish(s, t, Sinkhole(env.cfg, r), Sunk(Listed), base);
    case Looking => SinceLookUp(env, s, t, now, base);
    case Asking =>
    case Screening(got, passed) =>
      ScreenNextCases(env, s, t, got, passed);
      SinceGoto(s, t, Guarding(got), base);
      SinceGoto(s, t, Screening(got, passed + 1), base);
      SinceFinish(s, t, Sinkhole(env.cfg, r), Sunk(CloakedBy(got, passed)), base);
    case Guarding(got) =>
      SinceGoto(s, t, Storing(got), base);
      SinceFinish(s, t, Sinkhole(env.cfg, r), Sunk(Rebound(got)), base);
    case Storing(got) =>
  }

  lemma SinceStep(env: Env, s: State, step: Step, base: nat)
    requires Inv(env, s) && NotBefore(s, base)
    ensures NotBefore(After(env, s, step), base)
  {
    match step
    case Advance(t, now, upstream) => if Ready(s, t) { SinceProceed(env, s, t, now, upstream, base); }
    case _ =>
  }

  lemma {:induction false} SinceRun(env: Env, s: State, steps: seq<Step>, base: nat)
    requires Inv(env, s) && NotBefore(s, base)
    ensures Inv(env, Run(env, s, steps)) && NotBefore(Run(env, s, steps), base)
    decreases steps
  {
    if steps != [] {
      SinceStep(env, s, steps[0], base);
      AfterKeeps(env, s, steps[0]);
      SinceRun(env, After(env, s, steps[0]), steps[1..], base);
    }
  }

  lemma ReloadedOk(env: Env, older: RuleTable, before: seq<Step>, newer: RuleTable, after: seq<Step>)
    ensures var s := ReloadedRun(env, older, before, newer, after); Inv(env, s) && NotBefore(s, 1)
  {
    var s0 := After(env, INITIAL, Reload(older));
    var s1 := Run(env, s0, before);
    var s2 := After(env, s1, Reload(newer));
    AfterKeeps(env, INITIAL, Reload(older));
    SinceRun(env, s0, before, 1);
    SinceStep(env, s1, Reload(newer), 1);
    AfterKeeps(env, s1, Reload(newer));
    SinceRun(env, s2, after, 1);
  }

  /** What vouches for a stale alias is the older table, which lets its name through as well. */
  lemma StaleSplits(env: Env, older: RuleTable, newer: RuleTable, s: State, x: Sent) returns (name: string, alias: string)
    requires Inv(env, s) && NotBefore(s, 1) && s.tables == [EMPTY_TABLE, older, newer] && env.cfg.cnameUncloaking
    requires x in s.sent && StaleReply(env, newer, x)
    ensures Splits(env, older, newer, name, alias)
  {
    assert SentOk(env, Past(s), x);
    var v := x.source.vetting;
    var i := StaleRecord(env, newer, x, v);
    name, alias := v.got.r.questions[0].name, v.got.answer.answer[i].rdata.target;
    OlderVouches(env, older, newer, s, v, CanonicalName(alias));
    OneTable(env, Past(s), 1, CanonicalName(name));
    OneTable(env, Past(s), 2, CanonicalName(name));
  }

  lemma OneTable(env: Env, past: History, k: nat, name: string)
    requires k < |past.tables| && Clear(env, past, Window(k, k), name)
    ensures !env.verdict(past.tables[k])(name)
  {
    assert At(env, past.tables, k) == env.verdict(past.tables[k]);
  }

  lemma OlderVouches(env: Env, older: RuleTable, newer: RuleTable, s: State, v: Vetting, name: string)
    requires s.tables == [EMPTY_TABLE, older, newer] && 1 <= v.since <= v.got.table <= v.stored < 3
    requires Clear(env, Past(s), Window(v.got.table, v.stored), name) && env.verdict(newer)(name)
    ensures v.since == v.got.table == 1 && !env.verdict(older)(name)
  {
    var k :| v.got.table <= k <= v.stored && !At(env, s.tables, k)(name);
    assert At(env, s.tables, 2) == env.verdict(newer) && At(env, s.tables, 1) == env.verdict(older);
  }

  /** The alias as the resolver gave it. */
  lemma StaleRecord(env: Env, newer: RuleTable, x: Sent, v: Vetting) returns (i: nat)
    requires StaleReply(env, newer, x) && Renders(x.reply, x.r, v.got)
    ensures i < |v.got.answer.answer| && Cloaks(env.verdict(newer), v.got.answer.answer[i])
  {
    var ttl: nat :| x.reply == RetimedMessage(Final(v.got), ttl).(id := x.r.id);
    i :| 0 <= i < |x.reply.answer| && Cloaks(env.verdict(newer), x.reply.answer[i]);
    assert v.got.answer.answer[i].rdata == x.reply.answer[i].rdata;
  }

  /** With uncloaking on, loading one table after another leaves the cache serving an alias that the newer
      one blocks exactly when the newer one blocks one of two names that the older one let through and not
      the other. */
  lemma StaleExactly(env: Env, older: RuleTable, newer: RuleTable)
    requires WellFormed(env.limits) && env.limits.enabled && env.cfg.cnameUncloaking
    ensures ServesStale(env, older, newer) <==> exists name, alias :: Splits(env, older, newer, name, alias)
  {
    if ServesStale(env, older, newer) {
      var before, after, x :|
        && x in ReloadedRun(env, older, before, newer, after).sent && StaleReply(env, newer, x)
        && ReloadedRun(env, older, before, newer, after).tables == [EMPTY_TABLE, older, newer];
      ReloadedOk(env, older, before, newer, after);
      var name, alias := StaleSplits(env, older, newer, ReloadedRun(env, older, before, newer, after), x);
    }
    if name, alias :| Splits(env, older, newer, name, alias) {
      var before, after, x := StaleAlias(env, older, newer, name, alias);
    }
  }

  // ---------------------------------------------------------------- two blocklists

  /** The table loaded from a blacklist of plain names. */
  function NamesTable(names: set<string>): RuleTable {
    RuleTable({}, [], names, [], [], |names|)
  }

  /** It blocks exactly those names. */
  lemma NamesVerdict(names: set<string>, lib: RegexLibrary, d: string)
    requires Settled(d) && d != ""
    ensures Verdict(Filter(true, lib, NamesTable(names)))(CanonicalName(d)) <==> d in names
  {
    NormalizeNotIdempotent(d);
    LowerFixpoint(d + ".");
    assert d[|d| - 1..] == "." || d[|d| - 1] != '.';
    assert CanonicalName(d) == d + ".";
  }

  lemma NamesSplit(cfg: HandlerConfig, limits: Limits, lib: RegexLibrary, ads: string, tracker: string, news: string)
    requires Settled(tracker) && Settled(news) && tracker != "" && news != ""
    requires ads != tracker && tracker != news && news != ads
    ensures Splits(FilterEnv(cfg, limits, true, lib), NamesTable({ads}), NamesTable({ads, tracker}), news, tracker)
  {
    NamesVerdict({ads}, lib, news);
    NamesVerdict({ads}, lib, tracker);
    NamesVerdict({ads, tracker}, lib, news);
    NamesVerdict({ads, tracker}, lib, tracker);
  }

  lemma SettledNames()
    ensures Settled("tracker.example") && Settled("news.example")
  {
    var tracker, news := "tracker.example", "news.example";
    assert tracker[14] == 'e' && news[11] == 'e' && tracker[0] == 't' && news[0] == 'n';
  }

  /** Adding tracker.example to a blacklist of ads.example: an answer that makes news.example an alias of it
      stays in the cache. */
  lemma StaleTracker(cfg: HandlerConfig, limits: Limits, lib: RegexLibrary)
    requires WellFormed(limits) && limits.enabled
    ensures var older, newer := NamesTable({"ads.example"}), NamesTable({"ads.example", "tracker.example"});
            && Represents(older, [], [Literal("ads.example")], [])
            && Represents(newer, [], [Literal("ads.example"), Literal("tracker.example")], [])
            && ServesStale(FilterEnv(cfg, limits, true, lib), older, newer)
  {
    var ads, tracker, news := "ads.example", "tracker.example", "news.example";
    var older, newer := NamesTable({ads}), NamesTable({ads, tracker});
    var env := FilterEnv(cfg, limits, true, lib);
    assert ads[0] == 'a' && tracker[0] == 't' && news[0] == 'n';
    SettledNames();
    NamesSplit(cfg, limits, lib, ads, tracker, news);
    var before, after, x := StaleAlias(env, older, newer, news, tracker);
    TwoNames(ads, tracker);
  }

  lemma TwoNames(a: string, b: string)
    requires a != b
    ensures Represents(NamesTable({a}), [], [Literal(a)], [])
    ensures Represents(NamesTable({a, b}), [], [Literal(a), Literal(b)], [])
  {
    PartsOfNothing();
    PartsOfLiteral(a);
    PartsOfLiteral(b);
    PartsConcat([Literal(a)], [Literal(b)]);
    assert [Literal(a), Literal(b)] == [Literal(a)] + [Literal(b)];
    assert {a, b} == {a} + {b};
  }
}

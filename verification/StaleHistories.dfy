/** Stale aliases over any history of tables, with requests in progress while tables are loaded. */
module StaleHistories {
  import opened Text
  import opened Messages
  import opened FilterRules
  import opened CacheModel
  import opened Forwarders
  import opened HandlerModel
  import opened Pipeline
  import opened SequentialRuns
  import opened StaleAliases

  /** The machine when these tables have been loaded and nothing has been served. */
  function Loaded(tables: seq<RuleTable>): State {
    State(tables, [], map[], map[], {}, [])
  }

  /** Loading tables one after another only adds them to the history. */
  lemma {:induction false} LoadAll(env: Env, s: State, more: seq<RuleTable>) returns (steps: seq<Step>)
    ensures Run(env, s, steps) == s.(tables := s.tables + more)
    decreases more
  {
    if more == [] {
      steps := [];
      AppendNothing(s.tables);
    } else {
      var s' := s.(tables := s.tables + [more[0]]);
      var rest := LoadAll(env, s', more[1..]);
      steps := [Reload(more[0])] + rest;
      RunCons(env, s, Reload(more[0]), rest);
      AppendAssociates(s.tables, [more[0]], more[1..]);
      assert more == [more[0]] + more[1..];
    }
  }

  lemma LoadedIsReachable(env: Env, tables: seq<RuleTable>)
    requires tables != [] && tables[0] == EMPTY_TABLE
    ensures Reachable(env, Loaded(tables))
  {
    var steps := LoadAll(env, INITIAL, tables[1..]);
    assert tables == [EMPTY_TABLE] + tables[1..];
    assert Loaded(tables) == Run(env, INITIAL, steps);
  }

  /** A reply from the cache, to a request that arrived under the last table, with an alias of a name that
      this table blocks. */
  ghost predicate StaleIn(env: Env, s: State, x: Sent) {
    && s.tables != [] && x in s.sent && x.source.FromCache? && x.window.first == |s.tables| - 1
    && exists i :: 0 <= i < |x.reply.answer| && Cloaks(Current(env, s.tables), x.reply.answer[i])
  }

  /** Some run that goes through this history, and serves once the first of its tables are loaded, sends
      such a reply. */
  ghost predicate ServesStaleIn(env: Env, loaded: seq<RuleTable>, history: seq<RuleTable>) {
    exists steps, x :: StaleIn(env, Run(env, Loaded(loaded), steps), x) && Run(env, Loaded(loaded), steps).tables == history
  }

  /** The i-th table lets the name through and the j-th the alias; the last lets the name through as well and
      blocks the alias. */
  predicate Slips(env: Env, history: seq<RuleTable>, name: string, alias: string, i: nat, j: nat)
    requires i < |history| && j < |history|
  {
    && !At(env, history, i)(CanonicalName(name)) && !At(env, history, j)(CanonicalName(alias))
    && !Current(env, history)(CanonicalName(name)) && Current(env, history)(CanonicalName(alias))
  }

  /** Some table from place `first` on, and the same or a later one before the last, let such names slip. */
  ghost predicate LetsSlip(env: Env, history: seq<RuleTable>, first: nat) {
    exists name, alias, i: nat, j: nat :: first <= i <= j < |history| - 1 && Slips(env, history, name, alias, i, j)
  }

  // ---------------------------------------------------------------- a run that serves a stale alias

  /** A request that is neither blocked nor cached. */
  lemma ToAsking(env: Env, s: State, r: MessageValue) returns (steps: seq<Step>)
    requires s.tables != [] && s.jobs == map[] && s.cache == [] && r.questions != []
    requires !Current(env, s.tables)(Name(r))
    ensures Run(env, s, steps) == s.(jobs := map[0 := Job(r, |s.tables| - 1, Asking)])
  {
    var now, wait := |s.tables| - 1, Advance(0, 0, AllFailed(None));
    var s1 := s.(jobs := map[0 := Job(r, now, Naming)]);
    var s2 := s.(jobs := map[0 := Job(r, now, Looking)]);
    assert After(env, s, Arrive(0, r)) == s1;
    assert After(env, s1, wait) == s2;
    NothingCached(env, s2, wait);
    RunOne(env, s2, wait);
    RunCons(env, s1, wait, [wait]);
    RunCons(env, s, Arrive(0, r), [wait] + [wait]);
    steps := [Arrive(0, r)] + ([wait] + [wait]);
  }

  /** It gets as far as the screening of its response. */
  lemma ToScreening(env: Env, s: State, name: string, alias: string) returns (steps: seq<Step>, got: Given)
    requires s.tables != [] && s.jobs == map[] && s.cache == [] && env.cfg.cnameUncloaking
    requires !Current(env, s.tables)(CanonicalName(name))
    ensures got == Given(QueryFor(name), AliasResponse(name, alias), |s.tables| - 1)
    ensures Run(env, s, steps) ==
            s.(jobs := map[0 := Job(QueryFor(name), |s.tables| - 1, Screening(got, 0))], given := s.given + {got})
  {
    var r, resp := QueryFor(name), AliasResponse(name, alias);
    got := Given(r, resp, |s.tables| - 1);
    var asking := ToAsking(env, s, r);
    var s1 := Run(env, s, asking);
    var take := Advance(0, 0, Response(resp));
    TakeResponseCases(env, s1, 0, Response(resp));
    RunOne(env, s1, take);
    RunConcat(env, s, asking, [take]);
    steps := asking + [take];
  }

  lemma NothingCached(env: Env, s: State, step: Step)
    requires s.cache == [] && step.Advance? && Ready(s, step.job) && s.jobs[step.job].phase == Looking
    ensures After(env, s, step) == Goto(s, step.job, Asking)
  {
  }

  /** Its response passes the screening under another table and is stored. */
  lemma ToStored(env: Env, s: State, name: string, alias: string, got: Given) returns (steps: seq<Step>)
    requires s.tables != [] && s.cache == [] && WellFormed(env.limits) && env.limits.enabled
    requires got.r == QueryFor(name) && got.answer == AliasResponse(name, alias) && got.table < |s.tables|
    requires s.jobs == map[0 := Job(got.r, got.table, Screening(got, 0))]
    requires !Current(env, s.tables)(CanonicalName(alias))
    ensures var s' := Run(env, s, steps);
            && s'.tables == s.tables && s'.jobs == map[]
            && s'.cache == [EntryFor(env.limits, QueryFor(name), AliasResponse(name, alias), 0)]
  {
    steps := FromScreening(env, s, 0, got, 0, 0);
    assert !CloakedFrom(Current(env, s.tables), got.answer.answer, 0);
    assert Final(got) == got.answer;
    AliasStored(env.limits, name, alias);
  }

  /** Asked under the i-th table. */
  lemma SlipIsAsked(env: Env, loaded: seq<RuleTable>, history: seq<RuleTable>, name: string, alias: string, i: nat)
    returns (steps: seq<Step>, got: Given)
    requires loaded != [] && loaded <= history && |loaded| - 1 <= i < |history| && env.cfg.cnameUncloaking
    requires !At(env, history, i)(CanonicalName(name))
    ensures got == Given(QueryFor(name), AliasResponse(name, alias), i)
    ensures var s := Run(env, Loaded(loaded), steps);
            s.tables == history[..i + 1] && s.cache == [] && s.jobs == map[0 := Job(got.r, i, Screening(got, 0))]
  {
    var s0 := Loaded(loaded);
    var a := LoadAll(env, s0, history[|loaded|..i + 1]);
    var s1 := Run(env, s0, a);
    TablesUpTo(loaded, history, |loaded|, i + 1);
    assert Current(env, s1.tables) == At(env, history, i);
    var b;
    b, got := ToScreening(env, s1, name, alias);
    steps := a + b;
    RunConcat(env, s0, a, b);
  }

  /** Stored under the j-th. */
  lemma SlipIsStored(env: Env, loaded: seq<RuleTable>, history: seq<RuleTable>, name: string, alias: string, i: nat, j: nat)
    returns (steps: seq<Step>)
    requires loaded != [] && loaded <= history && |loaded| - 1 <= i <= j < |history| - 1
    requires WellFormed(env.limits) && env.limits.enabled && env.cfg.cnameUncloaking && Slips(env, history, name, alias, i, j)
    ensures var s := Run(env, Loaded(loaded), steps);
            && s.tables == history[..j + 1] && s.jobs == map[]
            && s.cache == [EntryFor(env.limits, QueryFor(name), AliasResponse(name, alias), 0)]
  {
    var s0 := Loaded(loaded);
    var a, got := SlipIsAsked(env, loaded, history, name, alias, i);
    var s1 := Run(env, s0, a);
    var b := LoadAll(env, s1, history[i + 1..j + 1]);
    var s2 := Run(env, s1, b);
    TablesUpTo(s1.tables, history, i + 1, j + 1);
    assert Current(env, s2.tables) == At(env, history, j);
    var c := ToStored(env, s2, name, alias, got);
    steps := a + (b + c);
    RunConcat(env, s0, a, b + c);
    RunConcat(env, s1, b, c);
  }

  /** Served under the last. */
  lemma SlipIsServed(env: Env, loaded: seq<RuleTable>, history: seq<RuleTable>, name: string, alias: string, i: nat, j: nat)
    requires loaded != [] && loaded <= history && |loaded| - 1 <= i <= j < |history| - 1
    requires WellFormed(env.limits) && env.limits.enabled && env.cfg.cnameUncloaking && Slips(env, history, name, alias, i, j)
    ensures ServesStaleIn(env, loaded, history)
  {
    var s0 := Loaded(loaded);
    var a := SlipIsStored(env, loaded, history, name, alias, i, j);
    var s1 := Run(env, s0, a);
    var b := LoadAll(env, s1, history[j + 1..]);
    var s2 := Run(env, s1, b);
    TablesUpTo(s1.tables, history, j + 1, |history|);
    TakeAll(history);
    var c, x := ServeAlias(env, s2, name, alias);
    assert Cloaks(Current(env, history), x.reply.answer[0]);
    RunConcat(env, s0, a, b + c);
    RunConcat(env, s1, b, c);
    assert StaleIn(env, Run(env, s0, a + (b + c)), x);
  }

  lemma TablesUpTo(tables: seq<RuleTable>, history: seq<RuleTable>, from: nat, to: nat)
    requires from <= to <= |history| && tables == history[..from]
    ensures tables + history[from..to] == history[..to]
  {
  }

  // ---------------------------------------------------------------- only such runs

  /** What vouched for the alias of a stale reply, and before that for its name. */
  lemma StaleSlips(env: Env, loaded: seq<RuleTable>, s: State, x: Sent)
    requires loaded != [] && Inv(env, s) && NotBefore(s, |loaded| - 1) && env.cfg.cnameUncloaking && StaleIn(env, s, x)
    ensures LetsSlip(env, s.tables, |loaded| - 1)
  {
    var m := StaleVetting(env, s, x);
    VettingSlips(env, Past(s), x.source.vetting, m, |loaded| - 1);
  }

  lemma StaleVetting(env: Env, s: State, x: Sent) returns (m: nat)
    requires Inv(env, s) && StaleIn(env, s, x)
    ensures var v := x.source.vetting;
            && Vetted(env, Past(s), v) && !Current(env, s.tables)(Name(v.got.r))
            && m < |v.got.answer.answer| && Cloaks(Current(env, s.tables), v.got.answer.answer[m])
  {
    HitParts(env, s, x);
    m := StaleRecordIn(env, s, x, x.source.vetting);
    StillClear(env, Past(s), x.window, Name(x.r));
  }

  lemma HitParts(env: Env, s: State, x: Sent)
    requires Inv(env, s) && x in s.sent && x.source.FromCache?
    ensures var v := x.source.vetting;
            && Vetted(env, Past(s), v) && Name(v.got.r) == Name(x.r) && Renders(x.reply, x.r, v.got)
            && Within(x.window, Past(s)) && Clear(env, Past(s), x.window, Name(x.r))
  {
    assert SentOk(env, Past(s), x);
  }

  lemma StillClear(env: Env, past: History, w: Window, name: string)
    requires Within(w, past) && w.first == |past.tables| - 1 && Clear(env, past, w, name)
    ensures !Current(env, past.tables)(name)
  {
    var k := ClearAt(env, past, w, name);
  }

  lemma VettingSlips(env: Env, past: History, v: Vetting, m: nat, first: nat)
    requires Vetted(env, past, v) && env.cfg.cnameUncloaking && first <= v.since && m < |v.got.answer.answer|
    requires !Current(env, past.tables)(Name(v.got.r)) && Cloaks(Current(env, past.tables), v.got.answer.answer[m])
    ensures LetsSlip(env, past.tables, first)
  {
    var name, alias := v.got.r.questions[0].name, v.got.answer.answer[m].rdata.target;
    assert Clear(env, past, Window(v.got.table, v.stored), CanonicalName(alias));
    var j := ClearAt(env, past, Window(v.got.table, v.stored), CanonicalName(alias));
    var i := ClearAt(env, past, Window(v.since, v.got.table), CanonicalName(name));
    assert Slips(env, past.tables, name, alias, i, j);
  }

  lemma ClearAt(env: Env, past: History, w: Window, name: string) returns (k: nat)
    requires Within(w, past) && Clear(env, past, w, name)
    ensures w.first <= k <= w.last && !At(env, past.tables, k)(name)
  {
    k :| w.first <= k <= w.last && !At(env, past.tables, k)(name);
  }

  lemma StaleRecordIn(env: Env, s: State, x: Sent, v: Vetting) returns (i: nat)
    requires StaleIn(env, s, x) && Renders(x.reply, x.r, v.got)
    ensures i < |v.got.answer.answer| && Cloaks(Current(env, s.tables), v.got.answer.answer[i])
  {
    var ttl: nat :| x.reply == RetimedMessage(Final(v.got), ttl).(id := x.r.id);
    i :| 0 <= i < |x.reply.answer| && Cloaks(Current(env, s.tables), x.reply.answer[i]);
    assert v.got.answer.answer[i].rdata == x.reply.answer[i].rdata;
  }

  /** For any history, with requests in progress while tables are loaded: some run serves a stale alias from
      the cache if and only if some table in force while serving lets a name through, that one or a later one
      before the last an alias, and the last blocks the alias and not the name. */
  lemma StaleInHistory(env: Env, loaded: seq<RuleTable>, history: seq<RuleTable>)
    requires loaded != [] && loaded <= history
    requires WellFormed(env.limits) && env.limits.enabled && env.cfg.cnameUncloaking
    ensures ServesStaleIn(env, loaded, history) <==> LetsSlip(env, history, |loaded| - 1)
  {
    if ServesStaleIn(env, loaded, history) {
      var steps, x :| StaleIn(env, Run(env, Loaded(loaded), steps), x) && Run(env, Loaded(loaded), steps).tables == history;
      SinceRun(env, Loaded(loaded), steps, |loaded| - 1);
      StaleSlips(env, loaded, Run(env, Loaded(loaded), steps), x);
    }
    if LetsSlip(env, history, |loaded| - 1) {
      var name, alias, i: nat, j: nat :| |loaded| - 1 <= i <= j < |history| - 1 && Slips(env, history, name, alias, i, j);
      SlipIsServed(env, loaded, history, name, alias, i, j);
    }
  }
}

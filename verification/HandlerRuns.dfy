/** The handler on the heap is one of the machine's runs, so what every run keeps holds of its replies. */
module HandlerRuns {
  import opened Text
  import opened Messages
  import opened Arithmetic
  import opened FilterRules
  import opened FilterEngine
  import opened Caches
  import opened RingBuffers
  import opened CacheModel
  import opened LocalNames
  import opened Forwarders
  import opened HandlerModel
  import opened UpstreamQuery
  import opened Replies
  import opened Handlers
  import opened Pipeline
  import opened SequentialRuns
  import opened CalmRuns
  import opened Provenance

  /** The machine's environment for this handler. */
  ghost function EnvOf(h: Handler): Env
    reads h.engine
  {
    FilterEnv(h.cfg, h.cache.limits, h.engine.cfg.enabled, h.engine.lib)
  }

  /** A reachable state with nothing in progress stands for the handler: the same table in force, the same
      cache. */
  ghost predicate Stands(env: Env, s: State, st: HandlerState) {
    && Reachable(env, s) && s.jobs == map[] && Calm(s)
    && s.tables != [] && Last(s.tables) == st.filter.table && s.cache == st.cache
  }

  lemma StaysReachable(env: Env, s: State, steps: seq<Step>)
    requires Reachable(env, s)
    ensures Reachable(env, Run(env, s, steps))
  {
    var before :| s == Run(env, INITIAL, before);
    RunConcat(env, INITIAL, before, steps);
  }

  /** A new engine and cache stand at the machine's first state. */
  lemma InitialStands(env: Env, st: HandlerState)
    requires st.filter.table == EMPTY_TABLE && st.cache == []
    ensures Stands(env, INITIAL, st)
  {
    assert INITIAL == Run(env, INITIAL, []);
  }

  /** The reply that the run has just sent for the request. */
  ghost predicate JustSent(s: State, s': State, r: MessageValue, reply: MessageValue, status: Option<string>) {
    && s'.tables == s.tables && s'.sent != [] && Front(s'.sent) == s.sent
    && Last(s'.sent).window.first == |s.tables| - 1
    && Last(s'.sent).r == r && Last(s'.sent).reply == reply && StatusOf(Last(s'.sent).source) == status
  }

  lemma EffectIsRun(cfg: HandlerConfig, env: Env, s: State, st: HandlerState, st': HandlerState, clock: Clock, r: MessageValue,
                    reply: MessageValue, service: Service, upstream: ForwardResult<MessageValue>) returns (s': State)
    requires env == FilterEnv(cfg, env.limits, st.filter.enabled, st.filter.lib) && Stands(env, s, st)
    requires service == Serve(cfg, Verdict(st.filter), env.limits, st.cache, r, clock.lookup, clock.store, upstream)
    requires Effect(st, st', clock, r, reply, service)
    ensures Stands(env, s', st') && JustSent(s, s', r, reply, service.status)
  {
    var steps := HandlerIsRun(cfg, env.limits, st.filter, s, 0, r, clock.lookup, clock.store, upstream);
    s' := Run(env, s, steps);
    StaysReachable(env, s, steps);
    CalmRun(env, s, steps);
    assert s.jobs - {0} == s.jobs;
  }

  // ---------------------------------------------------------------- what a reply of the handler may show

  /** A private or local address only under an allowed local name. */
  predicate ShowsNoLocal(cfg: HandlerConfig, r: MessageValue, reply: MessageValue) {
    HasLocalAddress(reply.answer) ==> AllowedLocal(Name(r), cfg.allowedLocal)
  }

  /** Only aliases of names that this verdict lets through. */
  predicate ShowsNoCloak(blocks: string -> bool, reply: MessageValue) {
    !HasBlockedAlias(blocks, reply.answer)
  }

  /** What is made here is the sinkhole's reply or a failure without records. What is relayed is what a
      resolver gave, unchanged as far as that goes, and has been screened: for
      addresses by the name, and for aliases by the one table in force when the response was taken from the
      resolver and stored: for a response just forwarded the table in force now, for one from the cache the
      table in force when it was forwarded before. */
  ghost predicate SafeReply(env: Env, tables: seq<RuleTable>, earlier: seq<Sent>, x: Sent) {
    if !Relayed(x) then
      match x.source
      case Sunk(_) => SinkholeReply(env.cfg, x.r, x.reply)
      case Malformed => x.r.questions == [] && FailureReply(x.r, x.reply, 1)
      case _ => x.r.questions != [] && FailureReply(x.r, x.reply, 2)
    else
      && (env.cfg.rebindingProtection ==> ShowsNoLocal(env.cfg, x.r, x.reply))
      && var v := VettingOfSent(x);
      && v.got.table == v.stored < |tables|
      && (x.source.FromResolver? ==> v.stored == |tables| - 1 && Forwards(v.got.answer, x.r, x.reply))
      && (x.source.FromCache? ==> Forwarded(earlier, v) && Repeats(v.got.answer, v.got.r, x.r, x.reply))
      && (env.cfg.cnameUncloaking ==> ShowsNoCloak(At(env, tables, v.stored), x.reply))
  }

  lemma SentIsSafe(env: Env, s: State)
    requires Reachable(env, s) && Calm(s) && s.sent != [] && Last(s.sent).window.first == |s.tables| - 1
    ensures SafeReply(env, s.tables, Front(s.sent), Last(s.sent))
  {
    var x := Last(s.sent);
    if Relayed(x) {
      RelayedIsSafe(env, s, x);
    } else {
      ReachableOk(env, s);
      assert SentOk(env, Past(s), x);
      RepliesMatchRequests(env, s, x);
      if x.r.questions != [] { SinkholeFields(env.cfg, x.r); }
    }
  }

  lemma RelayedIsSafe(env: Env, s: State, x: Sent)
    requires Reachable(env, s) && Calm(s) && s.sent != [] && x == Last(s.sent) && Relayed(x) && x.window.first == |s.tables| - 1
    ensures SafeReply(env, s.tables, Front(s.sent), x)
  {
    ReachableOk(env, s);
    assert SentOk(env, Past(s), x);
    var v := VettingOfSent(x);
    if env.cfg.rebindingProtection { NoRebinding(env, s); }
    RelayedIsVetted(env, s, x);
    if env.cfg.cnameUncloaking { SentIsUncloaked(env, s, x); }
    if x.source.FromCache? {
      HitWasForwarded(env, s, x);
      FrontLast(s.sent);
      var y :| y in s.sent && y.source == FromResolver(v.got) && y.window == Window(v.since, v.stored);
      assert y in Front(s.sent);
      RendersRepeats(x, v.got);
    } else {
      RestoredForwards(v.got.answer, v.got.r);
    }
  }

  lemma SentIsUncloaked(env: Env, s: State, x: Sent)
    requires Reachable(env, s) && x in s.sent && Relayed(x) && env.cfg.cnameUncloaking
    requires VettingOfSent(x).got.table == VettingOfSent(x).stored < |s.tables|
    ensures ShowsNoCloak(At(env, s.tables, VettingOfSent(x).stored), x.reply)
  {
    var blocks := At(env, s.tables, VettingOfSent(x).stored);
    forall i: nat | i < |x.reply.answer| && x.reply.answer[i].rdata.CNAME?
      ensures !blocks(CanonicalName(x.reply.answer[i].rdata.target))
    {
      var k := NoCloaking(env, s, x, i);
    }
  }

  /** The last reply is safe, and when it is just forwarded the filter blocks no alias in it. */
  ghost predicate SafelySent(env: Env, s: State, f: Filter) {
    && s.sent != [] && SafeReply(env, s.tables, Front(s.sent), Last(s.sent))
    && (Last(s.sent).source.FromResolver? && env.cfg.cnameUncloaking ==> ShowsNoCloak(Verdict(f), Last(s.sent).reply))
  }

  lemma JustSentIsSafe(cfg: HandlerConfig, limits: Limits, s: State, f: Filter)
    requires var env := FilterEnv(cfg, limits, f.enabled, f.lib); Reachable(env, s) && Calm(s)
    requires Last(s.tables) == f.table && s.sent != [] && Last(s.sent).window.first == |s.tables| - 1
    ensures SafelySent(FilterEnv(cfg, limits, f.enabled, f.lib), s, f)
  {
    var env := FilterEnv(cfg, limits, f.enabled, f.lib);
    SentIsSafe(env, s);
    VerdictInForce(cfg, limits, f, s.tables);
    SafeUnder(env, s, f);
  }

  lemma SafeUnder(env: Env, s: State, f: Filter)
    requires s.sent != [] && SafeReply(env, s.tables, Front(s.sent), Last(s.sent))
    requires s.tables != [] && At(env, s.tables, |s.tables| - 1) == Verdict(f)
    ensures SafelySent(env, s, f)
  {
    if Last(s.sent).source.FromResolver? && env.cfg.cnameUncloaking {
      ForwardedIsUncloaked(env, s.tables, Front(s.sent), Last(s.sent));
    }
  }

  lemma VerdictInForce(cfg: HandlerConfig, limits: Limits, f: Filter, tables: seq<RuleTable>)
    requires tables != [] && Last(tables) == f.table
    ensures At(FilterEnv(cfg, limits, f.enabled, f.lib), tables, |tables| - 1) == Verdict(f)
  {
  }

  lemma ForwardedIsUncloaked(env: Env, tables: seq<RuleTable>, earlier: seq<Sent>, x: Sent)
    requires SafeReply(env, tables, earlier, x) && x.source.FromResolver? && env.cfg.cnameUncloaking
    ensures tables != [] && ShowsNoCloak(At(env, tables, |tables| - 1), x.reply)
  {
  }

  /** One entry in the query log for a request that is sunk or answered, under its name and by the source of
      its reply, with the round-trip time of an answer just fetched; none for a failure. */
  predicate Noted(log: seq<LogEntry>, log': seq<LogEntry>, r: MessageValue, source: Source, clock: Clock) {
    match source
    case Malformed => log' == log
    case Failure => log' == log
    case _ =>
      && r.questions != []
      && log' == log + [LogEntry(clock.logged, CanonicalName(r.questions[0].name), r.questions[0].qtype,
                                 match source case Sunk(_) => "blocked" case FromCache(_) => "cache_hit" case _ => "forwarded",
                                 if source.FromResolver? then clock.rtt else 0)]
  }

  lemma LoggedIsNoted(log: seq<LogEntry>, r: MessageValue, source: Source, clock: Clock)
    requires source.Malformed? || source.Failure? || r.questions != []
    ensures Noted(log, log + Logged(r, StatusOf(source), clock), r, source, clock)
  {
    AppendNothing(log);
  }

  // ---------------------------------------------------------------- whom a request asks

  /** A request asks nobody when it has no question, is answered from the cache, or names what is blocked;
      any other asks the resolvers in the way of the strategy, and fails exactly when none of them answers. */
  ghost predicate Inquires(source: Source, blocked: bool, strategy: string, counter: nat, counter': nat,
                           outcomes: seq<Outcome<MessageValue>>, upstream: ForwardResult<MessageValue>)
    requires outcomes != []
  {
    if source.Malformed? || source.FromCache? || (source.Sunk? && blocked) then counter' == counter
    else
      && !blocked && Allowed(strategy, counter', outcomes, upstream)
      && (source.Failure? <==> !SomeAnswered(outcomes))
  }

  lemma ServedBySource(cfg: HandlerConfig, blocks: string -> bool, l: Limits, s: seq<Entry>, r: MessageValue, now: int, later: int,
                       upstream: ForwardResult<MessageValue>, source: Source)
    requires Serve(cfg, blocks, l, s, r, now, later, upstream).status == StatusOf(source)
    requires source.Malformed? <==> r.questions == []
    ensures Asks(blocks, l, s, r, now) <==> !source.Malformed? && !source.FromCache? && !(source.Sunk? && blocks(Name(r)))
    ensures Asks(blocks, l, s, r, now) ==> !blocks(Name(r)) && (source.Failure? <==> upstream.AllFailed?)
  {
  }

  lemma ConsultedBySource(h: Handler, st: HandlerState, counter: nat, v: MessageValue, clock: Clock, random: nat -> bv8,
                          exchange: Exchange, upstream: ForwardResult<MessageValue>, source: Source)
    requires h.forwarder.resolvers > 0 && h.Consulted(st, counter, v, clock, random, exchange, upstream)
    requires h.Served(st, v, clock, upstream).status == StatusOf(source)
    requires source.Malformed? <==> v.questions == []
    ensures Inquires(source, Verdict(st.filter)(Name(v)), h.forwarder.strategy, st.counter, counter,
                     Outcomes(h.forwarder.resolvers, exchange, Prepared(v, h.cfg.privacy, random)), upstream)
  {
    var outcomes := Outcomes(h.forwarder.resolvers, exchange, Prepared(v, h.cfg.privacy, random));
    ServedBySource(h.cfg, Verdict(st.filter), h.cache.limits, st.cache, v, clock.lookup, clock.store, upstream, source);
    if Asks(Verdict(st.filter), h.cache.limits, st.cache, v, clock.lookup) {
      StrategiesAgree(h.forwarder.strategy, counter, outcomes, upstream);
    }
  }

  // ---------------------------------------------------------------- the heap and the machine in step

  /** A new handler over a new engine and an empty cache starts where the machine does. */
  method StartInStep(cfg: HandlerConfig, engine: Engine, forwarder: Forwarder, cache: Cache, ringSize: int64) returns (h: Handler)
    requires engine.Valid() && forwarder.Valid() && cache.Valid()
    requires engine.Table() == EMPTY_TABLE && cache.Contents() == []
    ensures fresh(h) && h.Valid() && h.engine == engine && h.forwarder == forwarder && h.cache == cache
    ensures Stands(EnvOf(h), INITIAL, h.State())
  {
    h := new Handler(cfg, engine, forwarder, cache, ringSize);
    InitialStands(EnvOf(h), h.State());
  }

  lemma SentHasQuestion(env: Env, s: State, x: Sent)
    requires Reachable(env, s) && x in s.sent
    ensures x.source.Malformed? <==> x.r.questions == []
  {
    ReachableOk(env, s);
    assert SentOk(env, Past(s), x);
  }

  /** Serving a request takes the machine along one of its runs, ending with this reply, logged by its source
      and asked of the resolvers only where it has to be; so the reply is safe, whatever was served and loaded before, and one just forwarded has no
      alias of a name that the filter now blocks. */
  method ServeInStep(h: Handler, r: Msg, clock: Clock, random: nat -> bv8, exchange: Exchange, ghost s: State)
    returns (reply: Msg, ghost s': State, ghost upstream: ForwardResult<MessageValue>)
    requires h.Valid() && Stands(EnvOf(h), s, h.State())
    modifies h.forwarder, h.cache, h.cache.evict, h.ring, h.ring.buffer
    ensures h.Valid() && fresh(reply) && EnvOf(h) == old(EnvOf(h))
    ensures Stands(EnvOf(h), s', h.State())
    ensures s'.tables == s.tables && s'.sent != [] && Front(s'.sent) == s.sent
    ensures Last(s'.sent).r == old(r.Value()) && Last(s'.sent).reply == reply.Value()
    ensures Noted(old(h.ring.log), h.ring.log, old(r.Value()), Last(s'.sent).source, clock)
    ensures h.forwarder.resolvers > 0 &&
            Inquires(Last(s'.sent).source, Blocks(old(h.CurrentFilter()), Name(old(r.Value()))), h.forwarder.strategy,
                     old(h.forwarder.counter), h.forwarder.counter,
                     Outcomes(h.forwarder.resolvers, exchange, Prepared(old(r.Value()), h.cfg.privacy, random)), upstream)
    ensures Last(s'.sent).source.FromResolver? ==> upstream.Response? && Forwards(upstream.resp, old(r.Value()), reply.Value())
    ensures SafelySent(EnvOf(h), s', h.CurrentFilter())
  {
    ghost var env, st, v := EnvOf(h), h.State(), r.Value();
    reply, upstream := h.ServeDNS(r, clock, random, exchange);
    s' := EffectIsRun(h.cfg, env, s, st, h.State(), clock, v, reply.Value(), h.Served(st, v, clock, upstream), upstream);
    RelayedUnchanged(h.cfg, Verdict(st.filter), h.cache.limits, st.cache, v, clock.lookup, clock.store, upstream);
    JustSentIsSafe(h.cfg, h.cache.limits, s', h.CurrentFilter());
    SentHasQuestion(env, s', Last(s'.sent));
    LoggedIsNoted(st.log, v, Last(s'.sent).source, clock);
    ConsultedBySource(h, st, h.forwarder.counter, v, clock, random, exchange, upstream, Last(s'.sent).source);
  }

  lemma ReloadStands(env: Env, s: State, st: HandlerState, table: RuleTable) returns (s': State)
    requires Stands(env, s, st)
    ensures s'.tables == s.tables + [table] && s'.sent == s.sent
    ensures Stands(env, s', st.(filter := st.filter.(table := table)))
  {
    var step := Reload(table);
    s' := After(env, s, step);
    RunOne(env, s, step);
    StaysReachable(env, s, [step]);
  }

  /** Loading rules takes the machine along one reload to the table now in force, or along none when
      blocking is off. */
  method LoadInStep(h: Handler, files: seq<Option<seq<string>>>, fetched: seq<Option<seq<string>>>, ghost s: State)
    returns (ghost s': State)
    requires h.Valid() && Stands(EnvOf(h), s, h.State())
    modifies h.engine`snapshot
    ensures h.Valid() && EnvOf(h) == old(EnvOf(h)) && Stands(EnvOf(h), s', h.State())
    ensures s'.sent == s.sent
    ensures s'.tables == if h.engine.cfg.enabled then s.tables + [h.engine.Table()] else s.tables
    ensures h.engine.cfg.enabled ==>
      Represents(h.engine.Table(), WhitePatterns(h.engine.cfg), BlackPatterns(h.engine.cfg, files, fetched),
                 Compiled(h.engine.cfg.regexBlacklist, h.engine.lib))
  {
    ghost var env, st := EnvOf(h), h.State();
    h.engine.LoadRules(files, fetched);
    s' := s;
    if h.engine.cfg.enabled {
      s' := ReloadStands(env, s, st, h.engine.Table());
    }
  }
}

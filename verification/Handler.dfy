/** The request handler: filter, cache, resolvers and query log behind one entry point. */
module Handlers {
  import opened Text
  import opened Messages
  import opened FilterRules
  import opened FilterEngine
  import opened CacheModel
  import opened Caches
  import opened UpstreamQuery
  import opened LocalNames
  import opened Forwarders
  import opened RingBuffers
  import opened Arithmetic
  import opened HandlerModel
  import opened Replies

  /** Readings of the clock during one request. */
  datatype Clock = Clock(lookup: int, store: int, logged: int, rtt: int)

  /** What each resolver makes of a query. */
  type Exchange = (nat, MessageValue) -> Outcome<MessageValue>

  function Outcomes(n: nat, exchange: Exchange, query: MessageValue): seq<Outcome<MessageValue>> {
    seq(n, i requires 0 <= i < n => exchange(i, query))
  }

  /** The entries that a request adds to the query log. */
  function Logged(r: MessageValue, status: Option<string>, clock: Clock): seq<LogEntry> {
    if status.None? || r.questions == [] then []
    else [EntryOf(r, status.value, clock)]
  }

  function EntryOf(r: MessageValue, status: string, clock: Clock): LogEntry
    requires r.questions != []
  {
    var q := r.questions[0];
    LogEntry(clock.logged, CanonicalName(q.name), q.qtype, status, if status == "forwarded" then clock.rtt else 0)
  }

  /** The abstract state behind a handler. */
  datatype HandlerState = HandlerState(filter: Filter, cache: seq<Entry>, log: seq<LogEntry>, counter: nat)

  /** What one request, served so, does to the state and sends. */
  ghost predicate Effect(st: HandlerState, st': HandlerState, clock: Clock, v: MessageValue,
                         reply: MessageValue, service: Service)
  {
    && reply == service.reply
    && st' == st.(cache := service.cache, log := st.log + Logged(v, service.status, clock), counter := st'.counter)
  }

  class Handler {
    const cfg: HandlerConfig
    const engine: Engine
    const forwarder: Forwarder
    const cache: Cache
    const ring: RingBuffer

    ghost predicate Valid()
      reads engine, engine.snapshot, engine.snapshot.white, engine.snapshot.black
      reads engine.snapshot.white.trie, engine.snapshot.black.trie
      reads engine.snapshot.white.trie.Repr, engine.snapshot.black.trie.Repr
      reads forwarder, cache, cache.evict, cache.messages, cache.records, ring, ring.buffer
    {
      engine.Valid() && forwarder.Valid() && cache.Valid() && ring.Valid()
    }

    ghost function CurrentFilter(): Filter
      reads engine, engine.snapshot, engine.snapshot.white, engine.snapshot.black
      reads engine.snapshot.white.trie, engine.snapshot.black.trie
    {
      Filter(engine.cfg.enabled, engine.lib, engine.Table())
    }

    /** The specification of one request, and of its later parts, in this handler's configuration. */
    ghost function Served(st: HandlerState, v: MessageValue, clock: Clock, upstream: ForwardResult<MessageValue>): Service {
      Serve(cfg, Verdict(st.filter), cache.limits, st.cache, v, clock.lookup, clock.store, upstream)
    }

    ghost function Resolved(st: HandlerState, v: MessageValue, clock: Clock, upstream: ForwardResult<MessageValue>): Service
      requires v.questions != []
    {
      Resolve(cfg, Verdict(st.filter), cache.limits, st.cache, v, clock.lookup, clock.store, upstream)
    }

    ghost function Concluded(st: HandlerState, v: MessageValue, clock: Clock, upstream: ForwardResult<MessageValue>): Service
      requires v.questions != []
    {
      Conclude(cfg, Verdict(st.filter), cache.limits, st.cache, v, clock.store, upstream)
    }

    /** The resolvers are asked the prepared query, and only about names neither blocked nor cached. */
    ghost predicate Consulted(st: HandlerState, counter: nat, v: MessageValue, clock: Clock, random: nat -> bv8,
                              exchange: Exchange, upstream: ForwardResult<MessageValue>)
      requires forwarder.resolvers > 0
    {
      if Asks(Verdict(st.filter), cache.limits, st.cache, v, clock.lookup)
      then Allowed(forwarder.strategy, counter, Outcomes(forwarder.resolvers, exchange, Prepared(v, cfg.privacy, random)), upstream)
      else counter == st.counter
    }

    // The cases of the specification, as effects on the state.

    lemma MalformedEffect(st: HandlerState, v: MessageValue, clock: Clock, upstream: ForwardResult<MessageValue>)
      requires v.questions == []
      ensures Effect(st, st, clock, v, BareReply(v, RCODE_FORMAT_ERROR), Served(st, v, clock, upstream))
    {
      AppendNothing(st.log);
    }

    lemma BlockedEffect(st: HandlerState, v: MessageValue, clock: Clock, upstream: ForwardResult<MessageValue>)
      requires v.questions != [] && Blocks(st.filter, CanonicalName(v.questions[0].name))
      ensures Effect(st, st.(log := st.log + [EntryOf(v, "blocked", clock)]), clock, v, Sinkhole(cfg, v), Served(st, v, clock, upstream))
    {
    }

    lemma UnblockedEffect(st: HandlerState, st': HandlerState, v: MessageValue, clock: Clock,
                          reply: MessageValue, upstream: ForwardResult<MessageValue>)
      requires v.questions != [] && !Blocks(st.filter, CanonicalName(v.questions[0].name))
      requires Effect(st, st', clock, v, reply, Resolved(st, v, clock, upstream))
      ensures Effect(st, st', clock, v, reply, Served(st, v, clock, upstream))
    {
    }

    lemma HitEffect(st: HandlerState, v: MessageValue, clock: Clock, upstream: ForwardResult<MessageValue>)
      requires v.questions != [] && Hits(cache.limits, st.cache, v, clock.lookup)
      ensures Effect(st, st.(cache := AfterGet(cache.limits, st.cache, v, clock.lookup), log := st.log + [EntryOf(v, "cache_hit", clock)]),
                     clock, v, Lookup(cache.limits, st.cache, v, clock.lookup).value, Resolved(st, v, clock, upstream))
    {
    }

    lemma MissEffect(st: HandlerState, st': HandlerState, v: MessageValue, clock: Clock,
                     reply: MessageValue, upstream: ForwardResult<MessageValue>)
      requires v.questions != [] && !Hits(cache.limits, st.cache, v, clock.lookup)
      requires var missed := st.(cache := AfterGet(cache.limits, st.cache, v, clock.lookup));
               Effect(missed, st', clock, v, reply, Concluded(missed, v, clock, upstream))
      ensures Effect(st, st', clock, v, reply, Resolved(st, v, clock, upstream))
    {
    }

    lemma RefusedEffect(st: HandlerState, v: MessageValue, clock: Clock, answer: MessageValue)
      requires v.questions != [] && Refused(cfg, Verdict(st.filter), CanonicalName(v.questions[0].name), answer.answer)
      ensures Effect(st, st.(log := st.log + [EntryOf(v, "blocked", clock)]),
                     clock, v, Sinkhole(cfg, v), Concluded(st, v, clock, Response(answer)))
    {
    }

    lemma AcceptedEffect(st: HandlerState, v: MessageValue, clock: Clock, answer: MessageValue)
      requires v.questions != [] && !Refused(cfg, Verdict(st.filter), CanonicalName(v.questions[0].name), answer.answer)
      ensures var final := Restored(answer, v).(id := v.id);
              Effect(st, st.(cache := AfterSet(cache.limits, st.cache, v, final, clock.store),
                             log := st.log + [EntryOf(v, "forwarded", clock)]),
                     clock, v, final, Concluded(st, v, clock, Response(answer)))
    {
    }

    lemma CounterEffect(st: HandlerState, st': HandlerState, counter: nat, v: MessageValue, clock: Clock,
                        reply: MessageValue, upstream: ForwardResult<MessageValue>)
      requires v.questions != []
      requires var asked := st.(counter := counter); Effect(asked, st', clock, v, reply, Concluded(asked, v, clock, upstream))
      ensures Effect(st, st', clock, v, reply, Concluded(st, v, clock, upstream))
    {
    }

    lemma FailedEffect(st: HandlerState, v: MessageValue, clock: Clock, upstream: ForwardResult<MessageValue>)
      requires v.questions != [] && upstream.AllFailed?
      ensures Effect(st, st, clock, v, BareReply(v, RCODE_SERVER_FAILURE), Concluded(st, v, clock, upstream))
    {
      AppendNothing(st.log);
    }

    /** The abstract state. */
    ghost function State(): HandlerState
      reads engine, engine.snapshot, engine.snapshot.white, engine.snapshot.black
      reads engine.snapshot.white.trie, engine.snapshot.black.trie
      reads forwarder, cache, cache.evict, ring
    {
      HandlerState(CurrentFilter(), cache.Contents(), ring.log, forwarder.counter)
    }

    constructor (cfg: HandlerConfig, engine: Engine, forwarder: Forwarder, cache: Cache, ringSize: int64)
      requires engine.Valid() && forwarder.Valid() && cache.Valid()
      ensures Valid() && this.cfg == cfg && fresh(ring) && ring.log == []
      ensures this.engine == engine && this.forwarder == forwarder && this.cache == cache
    {
      this.cfg, this.engine, this.forwarder, this.cache := cfg, engine, forwarder, cache;
      ring := new RingBuffer(ringSize);
    }

    /** Sinks blocked names, serves cached answers, and asks the resolvers otherwise; what they answer
        is screened before it is stored and sent. */
    method ServeDNS(r: Msg, clock: Clock, random: nat -> bv8, exchange: Exchange)
      returns (reply: Msg, ghost upstream: ForwardResult<MessageValue>)
      requires Valid()
      modifies forwarder, cache, cache.evict, ring, ring.buffer
      ensures Valid() && fresh(reply)
      ensures var v := old(r.Value());
              Effect(old(State()), State(), clock, v, reply.Value(), Served(old(State()), v, clock, upstream))
      ensures Consulted(old(State()), State().counter, old(r.Value()), clock, random, exchange, upstream)
    {
      ghost var v, st := r.Value(), State();
      upstream := AllFailed(None);
      if |r.questions| == 0 {
        reply := Bare(r, RCODE_FORMAT_ERROR);
        MalformedEffect(st, v, clock, upstream);
        return;
      }
      var qname := CanonicalName(r.questions[0].name);
      var blocked := engine.IsBlocked(qname);
      if blocked {
        reply := HandleBlocked(r, qname, clock);
        BlockedEffect(st, v, clock, upstream);
      } else {
        reply, upstream := ServeUnblocked(r, clock, random, exchange, v);
        UnblockedEffect(st, State(), v, clock, reply.Value(), upstream);
      }
    }

    /** From the cache, or else from the resolvers. */
    method ServeUnblocked(r: Msg, clock: Clock, random: nat -> bv8, exchange: Exchange, ghost v: MessageValue)
      returns (reply: Msg, ghost upstream: ForwardResult<MessageValue>)
      requires Valid() && v == r.Value() && v.questions != []
      requires !Blocks(CurrentFilter(), CanonicalName(v.questions[0].name))
      modifies forwarder, cache, cache.evict, ring, ring.buffer
      ensures Valid() && fresh(reply)
      ensures Effect(old(State()), State(), clock, v, reply.Value(), Resolved(old(State()), v, clock, upstream))
      ensures Consulted(old(State()), State().counter, v, clock, random, exchange, upstream)
    {
      ghost var st := State();
      upstream := AllFailed(None);
      var cached := LookUp(r, clock.lookup);
      if cached != null {
        HitEffect(st, v, clock, upstream);
        LogQuery("cache_hit", CanonicalName(r.questions[0].name), r.questions[0].qtype, 0, clock, cached);
        reply := cached;
      } else {
        reply, upstream := AskAndScreen(r, clock, random, exchange, v);
        MissEffect(st, State(), v, clock, reply.Value(), upstream);
      }
    }

    method LookUp(r: Msg, now: int) returns (hit: Msg?)
      requires Valid()
      modifies cache
      ensures Valid() && r.Value() == old(r.Value())
      ensures forall i :: 0 <= i < |cache.evict| ==> cache.evict[i] in old(cache.evict)
      ensures State() == old(State()).(cache := AfterGet(cache.limits, old(State()).cache, r.Value(), now))
      ensures hit != null <==> Hits(cache.limits, old(State()).cache, r.Value(), now)
      ensures hit != null ==> fresh(hit)
      ensures hit != null ==> Lookup(cache.limits, old(State()).cache, r.Value(), now) == Some(hit.Value())
    {
      ghost var own;
      hit, own := cache.Get(r, now);
    }

    method Bare(r: Msg, rcode: nat) returns (reply: Msg)
      ensures fresh(reply) && reply.Value() == BareReply(r.Value(), rcode)
    {
      var query := r.header.opcode == 0;
      var header := Header(true, r.header.opcode, false, false, query && r.header.recursionDesired, false, false,
                           query && r.header.checkingDisabled, rcode);
      reply := new Msg(r.id, header, if |r.questions| == 0 then [] else [r.questions[0]], [], [], []);
    }

    /** Logs and builds the sinkhole reply. */
    method HandleBlocked(r: Msg, domain: string, clock: Clock) returns (reply: Msg)
      requires Valid() && r.questions != []
      modifies ring, ring.buffer
      ensures Valid() && fresh(reply) && reply.Value() == Sinkhole(cfg, r.Value())
      ensures var entry := LogEntry(clock.logged, domain, r.questions[0].qtype, "blocked", 0);
              State() == old(State()).(log := old(State()).log + [entry])
    {
      LogQuery("blocked", domain, r.questions[0].qtype, 0, clock, r);
      reply := BuildSinkhole(r);
    }

    method BuildSinkhole(r: Msg) returns (reply: Msg)
      requires r.questions != []
      ensures fresh(reply) && reply.Value() == Sinkhole(cfg, r.Value())
    {
      var q := r.questions[0];
      reply := Bare(r, RCODE_SUCCESS);
      reply.header := reply.header.(authoritative := true, recursionAvailable := true);
      var ttl := if cfg.blockTTL == 0 then 300 else cfg.blockTTL;
      if cfg.blockMode == "nxdomain" {
        reply.header := reply.header.(rcode := RCODE_NAME_ERROR);
        return;
      }
      if q.qtype == TYPE_A {
        var rr := new Record(RecordValue(q.name, CLASS_INET, ttl, A(cfg.zeroIPv4)));
        reply.answer := [rr];
      } else if q.qtype == TYPE_AAAA {
        var rr := new Record(RecordValue(q.name, CLASS_INET, ttl, AAAA(cfg.zeroIPv6)));
        reply.answer := [rr];
      }
    }

    method LogQuery(status: string, domain: string, qtype: nat, rtt: int, clock: Clock, ghost m: Msg)
      requires Valid()
      modifies ring, ring.buffer
      ensures Valid() && m.Value() == old(m.Value())
      ensures State() == old(State()).(log := old(State()).log + [LogEntry(clock.logged, domain, qtype, status, rtt)])
    {
      ring.Push(LogEntry(clock.logged, domain, qtype, status, rtt));
    }

    /** Forwards the prepared query and turns the result into a reply. */
    method AskAndScreen(r: Msg, clock: Clock, random: nat -> bv8, exchange: Exchange, ghost v: MessageValue)
      returns (reply: Msg, ghost upstream: ForwardResult<MessageValue>)
      requires Valid() && v == r.Value() && v.questions != []
      modifies forwarder, cache, cache.evict, ring, ring.buffer
      ensures Valid() && fresh(reply)
      ensures Effect(old(State()), State(), clock, v, reply.Value(), Concluded(old(State()), v, clock, upstream))
      ensures Allowed(forwarder.strategy, forwarder.counter,
                      Outcomes(forwarder.resolvers, exchange, Prepared(v, cfg.privacy, random)), upstream)
    {
      ghost var st := State();
      var result := Ask(r, random, exchange, v);
      upstream := result;
      reply := Settle(r, clock, result, v);
      CounterEffect(st, State(), forwarder.counter, v, clock, reply.Value(), upstream);
    }

    /** Reports a failure, or screens the response. */
    method Settle(r: Msg, clock: Clock, result: ForwardResult<MessageValue>, ghost v: MessageValue) returns (reply: Msg)
      requires Valid() && v == r.Value() && v.questions != []
      modifies cache, cache.evict, ring, ring.buffer
      ensures Valid() && fresh(reply)
      ensures Effect(old(State()), State(), clock, v, reply.Value(), Concluded(old(State()), v, clock, result))
    {
      if result.AllFailed? {
        reply := Bare(r, RCODE_SERVER_FAILURE);
        FailedEffect(State(), v, clock, result);
      } else {
        reply := ScreenAnswer(r, clock, result.resp, v);
      }
    }

    method ScreenAnswer(r: Msg, clock: Clock, answer: MessageValue, ghost v: MessageValue) returns (reply: Msg)
      requires Valid() && v == r.Value() && v.questions != []
      modifies cache, cache.evict, ring, ring.buffer
      ensures Valid() && fresh(reply)
      ensures Effect(old(State()), State(), clock, v, reply.Value(), Concluded(old(State()), v, clock, Response(answer)))
    {
      var resp, own := Receive(answer, r, v);
      Restore(r, resp, own, v);
      reply := Decide(r, resp, own, clock, answer, v);
    }

    /** Screens a response before it is stored and sent. */
    method Decide(r: Msg, resp: Msg, ghost own: set<Record>, clock: Clock, ghost answer: MessageValue, ghost v: MessageValue)
      returns (reply: Msg)
      requires Valid() && v == r.Value() && v.questions != [] && resp.Value() == Restored(answer, v)
      requires resp != r && resp !in cache.messages && resp.Within(own)
      modifies resp, cache, cache.evict, ring, ring.buffer
      ensures Valid() && (reply == resp || fresh(reply))
      ensures Effect(old(State()), State(), clock, v, reply.Value(), Concluded(old(State()), v, clock, Response(answer)))
    {
      ghost var st := State();
      var qname := CanonicalName(r.questions[0].name);
      var refused := Refuses(resp, qname, answer, v);
      if refused {
        reply := HandleBlocked(r, qname, clock);
        RefusedEffect(st, v, clock, answer);
      } else {
        Accept(r, resp, own, clock, v);
        AcceptedEffect(st, v, clock, answer);
        reply := resp;
      }
    }

    /** Gives the response the client's id, offers it to the cache and logs the query. */
    method Accept(r: Msg, resp: Msg, ghost own: set<Record>, clock: Clock, ghost v: MessageValue)
      requires Valid() && v == r.Value() && v.questions != []
      requires resp != r && resp !in cache.messages && resp.Within(own)
      modifies resp, cache, cache.evict, ring, ring.buffer
      ensures Valid() && resp.Value() == old(resp.Value()).(id := v.id)
      ensures var final := old(resp.Value()).(id := v.id);
              State() == old(State()).(cache := AfterSet(cache.limits, old(State()).cache, v, final, clock.store),
                                       log := old(State()).log + [EntryOf(v, "forwarded", clock)])
    {
      var q := r.questions[0];
      Readdress(r, resp, own);
      StoreAnswer(r, resp, clock.store, v, resp.Value());
      LogQuery("forwarded", CanonicalName(q.name), q.qtype, clock.rtt, clock, resp);
    }

    /** The decoded response. */
    method Receive(answer: MessageValue, r: Msg, ghost v: MessageValue) returns (resp: Msg, ghost own: set<Record>)
      requires Valid() && v == r.Value()
      ensures Valid() && State() == old(State()) && r.Value() == v
      ensures fresh(resp) && fresh(own) && resp.Within(own) && resp.Value() == answer
    {
      resp, own := Allocate(answer);
    }

    /** Gives the response the client's spelling of the name. */
    method Restore(r: Msg, resp: Msg, ghost own: set<Record>, ghost v: MessageValue)
      requires Valid() && v == r.Value() && v.questions != []
      requires resp != r && resp !in cache.messages && resp.Within(own)
      modifies resp
      ensures Valid() && State() == old(State()) && r.Value() == v
      ensures resp.Within(own) && resp.Value() == Restored(old(resp.Value()), v)
    {
      if |resp.questions| > 0 {
        resp.questions := resp.questions[0 := resp.questions[0].(name := r.questions[0].name)];
      }
    }

    /** Gives the response the client's id. */
    method Readdress(r: Msg, resp: Msg, ghost own: set<Record>)
      requires Valid() && resp != r && resp !in cache.messages && resp.Within(own)
      modifies resp
      ensures Valid() && State() == old(State()) && r.Value() == old(r.Value())
      ensures resp.Within(own) && resp.Value() == old(resp.Value()).(id := r.id)
    {
      resp.id := r.id;
    }

    /** Offers the response to the cache. */
    method Deposit(r: Msg, resp: Msg, now: int, ghost v: MessageValue, ghost final: MessageValue)
      requires cache.Valid() && forwarder.Valid() && ring.Valid() && v == r.Value() && final == resp.Value()
      modifies cache, cache.evict
      ensures cache.Valid() && forwarder.Valid() && ring.Valid() && resp.Value() == final
      ensures cache.Contents() == AfterSet(cache.limits, old(cache.Contents()), v, final, now)
      ensures ring.log == old(ring.log) && forwarder.counter == old(forwarder.counter)
    {
      cache.Set(r, resp, now);
    }

    method StoreAnswer(r: Msg, resp: Msg, now: int, ghost v: MessageValue, ghost final: MessageValue)
      requires Valid() && v == r.Value() && final == resp.Value()
      modifies cache, cache.evict
      ensures Valid() && resp.Value() == final
      ensures State() == old(State()).(cache := AfterSet(cache.limits, old(State()).cache, v, final, now))
    {
      Deposit(r, resp, now, v, final);
    }

    method Ask(r: Msg, random: nat -> bv8, exchange: Exchange, ghost v: MessageValue) returns (result: ForwardResult<MessageValue>)
      requires Valid() && v == r.Value()
      modifies forwarder
      ensures Valid() && r.Value() == v && State() == old(State()).(counter := forwarder.counter)
      ensures Allowed(forwarder.strategy, forwarder.counter,
                      Outcomes(forwarder.resolvers, exchange, Prepared(v, cfg.privacy, random)), result)
    {
      var query := Query(r, random, v);
      result := Send(r, exchange, query, v);
    }

    method Send(r: Msg, exchange: Exchange, query: MessageValue, ghost v: MessageValue) returns (result: ForwardResult<MessageValue>)
      requires Valid() && v == r.Value()
      modifies forwarder
      ensures Valid() && r.Value() == v && State() == old(State()).(counter := forwarder.counter)
      ensures Allowed(forwarder.strategy, forwarder.counter, Outcomes(forwarder.resolvers, exchange, query), result)
    {
      result := forwarder.Forward(Outcomes(forwarder.resolvers, exchange, query));
    }

    method Query(r: Msg, random: nat -> bv8, ghost v: MessageValue) returns (query: MessageValue)
      requires Valid() && v == r.Value()
      ensures Valid() && State() == old(State()) && r.Value() == v
      ensures query == Prepared(v, cfg.privacy, random)
    {
      var req, own := PrepareUpstreamQuery(r, cfg.privacy, random);
      query := req.Value();
    }

    /** Screening judges the records that the resolver sent. */
    method Refuses(resp: Msg, qname: string, ghost answer: MessageValue, ghost v: MessageValue) returns (refused: bool)
      requires Valid() && v.questions != [] && resp.Value() == Restored(answer, v)
      ensures refused <==> Refused(cfg, Verdict(CurrentFilter()), qname, answer.answer)
    {
      refused := Screen(resp, qname);
    }

    /** CNAME uncloaking and rebinding protection. */
    method Screen(resp: Msg, qname: string) returns (refused: bool)
      requires engine.Valid()
      ensures refused <==> Refused(cfg, Verdict(CurrentFilter()), qname, resp.Value().answer)
      ensures refused <==>
        || (cfg.cnameUncloaking && HasBlockedAlias(Verdict(CurrentFilter()), resp.Value().answer))
        || (cfg.rebindingProtection && !AllowedLocal(qname, cfg.allowedLocal) && HasLocalAddress(resp.Value().answer))
    {
      RefusedExactly(cfg, Verdict(CurrentFilter()), qname, resp.Value().answer);
      if cfg.cnameUncloaking && |resp.answer| > 0 {
        refused := Uncloak(resp);
        if refused { return true; }
      }
      if cfg.rebindingProtection && |resp.answer| > 0 {
        refused := FilterDNSRebinding(resp, qname, cfg.allowedLocal);
        if refused { return true; }
      }
      refused := false;
    }

    method Uncloak(resp: Msg) returns (cloaked: bool)
      requires engine.Valid()
      ensures cloaked <==> Cloaked(Verdict(CurrentFilter()), resp.Value().answer)
    {
      ghost var blocks, answer := Verdict(CurrentFilter()), resp.Value().answer;
      cloaked := false;
      for i := 0 to |resp.answer|
        invariant engine.Valid() && blocks == Verdict(CurrentFilter())
        invariant !cloaked && !CloakedBefore(blocks, answer, i)
      {
        cloaked := Targets(resp.answer[i], blocks, answer[i]);
        CloakedNext(blocks, answer, i);
        if cloaked { return; }
      }
    }

    /** Whether the record is an alias of a blocked name. */
    method Targets(rr: Record, ghost blocks: string -> bool, ghost v: RecordValue) returns (b: bool)
      requires engine.Valid() && blocks == Verdict(CurrentFilter()) && v == rr.Value()
      ensures engine.Valid() && blocks == Verdict(CurrentFilter()) && (b <==> Cloaks(blocks, v))
    {
      b := false;
      if rr.rdata.CNAME? {
        b := engine.IsBlocked(CanonicalName(rr.rdata.target));
      }
    }
  }
}

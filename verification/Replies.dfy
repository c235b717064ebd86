/** What replies hold, field by field. */
module Replies {
  import opened Text
  import opened Messages
  import opened CacheModel
  import opened LocalNames
  import opened Forwarders
  import opened HandlerModel

  // ---------------------------------------------------------------- relayed replies

  /** The same records with other times, that of OPT excepted. */
  predicate SameButTimes(a: seq<RecordValue>, b: seq<RecordValue>) {
    && |a| == |b|
    && forall i :: 0 <= i < |a| ==>
         && b[i].name == a[i].name && b[i].rclass == a[i].rclass && b[i].rdata == a[i].rdata
         && (a[i].rdata.Opt? ==> b[i].ttl == a[i].ttl)
  }

  /** The same questions, the first under this spelling of its name. */
  predicate SameButFirstName(a: seq<Question>, b: seq<Question>, name: string) {
    && |a| == |b|
    && forall i :: 0 <= i < |a| ==>
         && b[i].qtype == a[i].qtype && b[i].qclass == a[i].qclass
         && b[i].name == if i == 0 then name else a[i].name
  }

  function FirstName(r: MessageValue): string {
    if r.questions == [] then "" else r.questions[0].name
  }

  /** The response is passed on to the client unchanged but for its id and the spelling of the name. */
  predicate Forwards(resp: MessageValue, r: MessageValue, reply: MessageValue) {
    && reply.id == r.id && reply.header == resp.header
    && SameButFirstName(resp.questions, reply.questions, FirstName(r))
    && reply.answer == resp.answer && reply.ns == resp.ns && reply.extra == resp.extra
  }

  /** The response, as it was passed on to `first`, is repeated to another client with other times. */
  predicate Repeats(resp: MessageValue, first: MessageValue, r: MessageValue, reply: MessageValue) {
    && reply.id == r.id && reply.header == resp.header
    && SameButFirstName(resp.questions, reply.questions, FirstName(first))
    && SameButTimes(resp.answer, reply.answer) && SameButTimes(resp.ns, reply.ns) && SameButTimes(resp.extra, reply.extra)
  }

  lemma RestoredForwards(resp: MessageValue, r: MessageValue)
    requires r.questions != []
    ensures Forwards(resp, r, Restored(resp, r).(id := r.id))
  {
  }

  lemma RetimedSame(rrs: seq<RecordValue>, ttl: nat)
    ensures SameButTimes(rrs, RetimedAll(rrs, ttl))
  {
  }

  lemma RetimedRepeats(resp: MessageValue, first: MessageValue, m: MessageValue, ttl: nat, r: MessageValue)
    requires Forwards(resp, first, m)
    ensures Repeats(resp, first, r, RetimedMessage(m, ttl).(id := r.id))
  {
    RetimedSame(m.answer, ttl);
    RetimedSame(m.ns, ttl);
    RetimedSame(m.extra, ttl);
  }

  /** The stored message under another id, with other times. */
  predicate RepeatsStored(m: MessageValue, r: MessageValue, reply: MessageValue) {
    && reply.id == r.id && reply.header == m.header && reply.questions == m.questions
    && SameButTimes(m.answer, reply.answer) && SameButTimes(m.ns, reply.ns) && SameButTimes(m.extra, reply.extra)
  }

  /** One request: a forwarded reply is the resolvers' response but for id and spelling, and one from the
      cache is the stored message of an entry for the same question whose time has not passed. */
  lemma RelayedUnchanged(cfg: HandlerConfig, blocks: string -> bool, l: Limits, s: seq<Entry>, r: MessageValue,
                         now: int, later: int, upstream: ForwardResult<MessageValue>)
    ensures var service := Serve(cfg, blocks, l, s, r, now, later, upstream);
            && (service.status == Some("forwarded") ==> upstream.Response? && Forwards(upstream.resp, r, service.reply))
            && (service.status == Some("cache_hit") ==>
                  r.questions != [] && exists e ::
                    && e in s && now <= e.expireAt && RepeatsStored(e.msg, r, service.reply)
                    && e.key.name == CanonicalName(r.questions[0].name)
                    && e.key.qtype == r.questions[0].qtype && e.key.qclass == r.questions[0].qclass)
  {
    if r.questions != [] {
      if upstream.Response? { RestoredForwards(upstream.resp, r); }
      if Hits(l, s, r, now) { HitRepeats(l, s, r, now); }
    }
  }

  lemma HitRepeats(l: Limits, s: seq<Entry>, r: MessageValue, now: int)
    requires Hits(l, s, r, now)
    ensures var e := s[Find(s, MakeKey(r.questions[0]))];
            e in s && e.key == MakeKey(r.questions[0]) && now <= e.expireAt && RepeatsStored(e.msg, r, Lookup(l, s, r, now).value)
  {
    var e := s[Find(s, MakeKey(r.questions[0]))];
    RetimedSame(e.msg.answer, RemainingTTL(e.expireAt, now));
    RetimedSame(e.msg.ns, RemainingTTL(e.expireAt, now));
    RetimedSame(e.msg.extra, RemainingTTL(e.expireAt, now));
  }

  // ---------------------------------------------------------------- replies made here

  predicate AnswersRequest(r: MessageValue, reply: MessageValue, rcode: nat) {
    && reply.id == r.id && reply.questions == (if r.questions == [] then [] else [r.questions[0]])
    && reply.ns == [] && reply.extra == []
    && reply.header.response && reply.header.opcode == r.header.opcode && reply.header.rcode == rcode
    && !reply.header.truncated && !reply.header.authenticatedData
    && reply.header.recursionDesired == (r.header.opcode == 0 && r.header.recursionDesired)
    && reply.header.checkingDisabled == (r.header.opcode == 0 && r.header.checkingDisabled)
  }

  predicate FailureReply(r: MessageValue, reply: MessageValue, rcode: nat) {
    && AnswersRequest(r, reply, rcode) && reply.answer == []
    && !reply.header.authoritative && !reply.header.recursionAvailable
  }

  /** NXDOMAIN without records, or one zero address for an address query and no records for another. */
  predicate SinkholeReply(cfg: HandlerConfig, r: MessageValue, reply: MessageValue) {
    && r.questions != [] && AnswersRequest(r, reply, if cfg.blockMode == "nxdomain" then 3 else 0)
    && reply.header.authoritative && reply.header.recursionAvailable
    && var q := r.questions[0];
       if cfg.blockMode != "nxdomain" && (q.qtype == 1 || q.qtype == 28) then
         && |reply.answer| == 1
         && reply.answer[0].name == q.name && reply.answer[0].rclass == 1
         && reply.answer[0].ttl == (if cfg.blockTTL == 0 then 300 else cfg.blockTTL)
         && reply.answer[0].rdata == if q.qtype == 1 then A(cfg.zeroIPv4) else AAAA(cfg.zeroIPv6)
       else reply.answer == []
  }

  lemma SinkholeFields(cfg: HandlerConfig, r: MessageValue)
    requires r.questions != []
    ensures SinkholeReply(cfg, r, Sinkhole(cfg, r))
  {
  }

  lemma FailureFields(r: MessageValue, rcode: nat)
    ensures FailureReply(r, BareReply(r, rcode), rcode)
  {
  }

  /** One request: it is sunk with the sinkhole's reply; without a question it gets FORMERR, and when all
      resolvers fail SERVFAIL, and only then a reply that is neither sunk nor relayed. */
  lemma MadeHere(cfg: HandlerConfig, blocks: string -> bool, l: Limits, s: seq<Entry>, r: MessageValue,
                 now: int, later: int, upstream: ForwardResult<MessageValue>)
    ensures var service := Serve(cfg, blocks, l, s, r, now, later, upstream);
            match service.status
            case Some(status) =>
              && (status == "blocked" || status == "cache_hit" || status == "forwarded")
              && (status == "blocked" ==> SinkholeReply(cfg, r, service.reply))
            case None =>
              if r.questions == [] then FailureReply(r, service.reply, 1) else upstream.AllFailed? && FailureReply(r, service.reply, 2)
  {
    FailureFields(r, RCODE_FORMAT_ERROR);
    FailureFields(r, RCODE_SERVER_FAILURE);
    if r.questions != [] { SinkholeFields(cfg, r); }
  }

  // ---------------------------------------------------------------- refused responses

  /** Some record is an alias of a blocked name. */
  predicate HasBlockedAlias(blocks: string -> bool, answer: seq<RecordValue>) {
    exists i :: 0 <= i < |answer| && answer[i].rdata.CNAME? && blocks(CanonicalName(answer[i].rdata.target))
  }

  /** Some address record, of either kind, has a private or local address. */
  predicate HasLocalAddress(answer: seq<RecordValue>) {
    exists i :: 0 <= i < |answer| && (answer[i].rdata.A? || answer[i].rdata.AAAA?) && IsPrivateOrLocalIP(answer[i].rdata.ip)
  }

  lemma RefusedExactly(cfg: HandlerConfig, blocks: string -> bool, name: string, answer: seq<RecordValue>)
    ensures Refused(cfg, blocks, name, answer) <==>
            || (cfg.cnameUncloaking && HasBlockedAlias(blocks, answer))
            || (cfg.rebindingProtection && !AllowedLocal(name, cfg.allowedLocal) && HasLocalAddress(answer))
  {
    RebindsExactly(cfg, name, answer);
    if i :| 0 <= i < |answer| && answer[i].rdata.CNAME? && blocks(CanonicalName(answer[i].rdata.target)) {
      assert Cloaks(blocks, answer[i]);
    }
    if i :| 0 <= i < |answer| && Cloaks(blocks, answer[i]) {
      assert answer[i].rdata.CNAME?;
    }
  }

  lemma RebindsExactly(cfg: HandlerConfig, name: string, answer: seq<RecordValue>)
    ensures Rebinds(cfg, name, answer) <==>
            cfg.rebindingProtection && !AllowedLocal(name, cfg.allowedLocal) && HasLocalAddress(answer)
  {
    if i :| 0 <= i < |answer| && PrivateAddress(answer[i].rdata) {
      assert answer[i].rdata.A? || answer[i].rdata.AAAA?;
    }
    if i :| 0 <= i < |answer| && (answer[i].rdata.A? || answer[i].rdata.AAAA?) && IsPrivateOrLocalIP(answer[i].rdata.ip) {
      assert PrivateAddress(answer[i].rdata);
    }
  }

  /** One request that is neither blocked nor cached and gets a response: it is sunk exactly when, with
      uncloaking on, an alias leads to a blocked name or, with rebinding protection on, an address record shows
      a local address under a name that may not have one; else the response is forwarded. */
  lemma ForwardedExactly(cfg: HandlerConfig, blocks: string -> bool, l: Limits, s: seq<Entry>, r: MessageValue,
                         now: int, later: int, resp: MessageValue)
    requires r.questions != [] && !blocks(CanonicalName(r.questions[0].name)) && !Hits(l, s, r, now)
    ensures var service := Serve(cfg, blocks, l, s, r, now, later, Response(resp));
            var sunk :=
              || (cfg.cnameUncloaking && HasBlockedAlias(blocks, resp.answer))
              || (cfg.rebindingProtection && !AllowedLocal(CanonicalName(r.questions[0].name), cfg.allowedLocal) && HasLocalAddress(resp.answer));
            service.status == Some(if sunk then "blocked" else "forwarded")
  {
    RefusedExactly(cfg, blocks, CanonicalName(r.questions[0].name), resp.answer);
  }
}

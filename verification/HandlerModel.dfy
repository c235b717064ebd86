/** How one request is answered, on values: the specification of the handler. `blocks` is the filter's
    verdict on names. */
module HandlerModel {
  import opened Text
  import opened Messages
  import opened CacheModel
  import opened UpstreamQuery
  import opened LocalNames
  import opened Forwarders

  datatype HandlerConfig = HandlerConfig(
    blockMode: string,
    blockTTL: nat,
    zeroIPv4: seq<nat>,
    zeroIPv6: seq<nat>,
    cnameUncloaking: bool,
    rebindingProtection: bool,
    allowedLocal: seq<string>,
    privacy: PrivacyConfig)

  // ---------------------------------------------------------------- replies made here

  /** `dns.Msg.SetRcode`: a reply to `r` with no records. */
  function BareReply(r: MessageValue, rcode: nat): MessageValue {
    var query := r.header.opcode == 0;
    MessageValue(
      r.id,
      Header(true, r.header.opcode, false, false, query && r.header.recursionDesired, false, false,
             query && r.header.checkingDisabled, rcode),
      if r.questions == [] then [] else [r.questions[0]], [], [], [])
  }

  /** The records of a sinkhole reply: one zero address for an address query, none for others. */
  function SinkholeAnswer(cfg: HandlerConfig, q: Question): seq<RecordValue> {
    var ttl := if cfg.blockTTL == 0 then 300 else cfg.blockTTL;
    if cfg.blockMode == "nxdomain" then []
    else if q.qtype == TYPE_A then [RecordValue(q.name, CLASS_INET, ttl, A(cfg.zeroIPv4))]
    else if q.qtype == TYPE_AAAA then [RecordValue(q.name, CLASS_INET, ttl, AAAA(cfg.zeroIPv6))]
    else []
  }

  function Sinkhole(cfg: HandlerConfig, r: MessageValue): MessageValue
    requires r.questions != []
  {
    var rcode := if cfg.blockMode == "nxdomain" then RCODE_NAME_ERROR else RCODE_SUCCESS;
    var bare := BareReply(r, rcode);
    bare.(header := bare.header.(authoritative := true, recursionAvailable := true),
          answer := SinkholeAnswer(cfg, r.questions[0]))
  }

  // ---------------------------------------------------------------- screening a response

  /** The response with the client's spelling of the name. */
  function Restored(resp: MessageValue, r: MessageValue): MessageValue
    requires r.questions != []
  {
    if resp.questions == [] then resp
    else resp.(questions := resp.questions[0 := resp.questions[0].(name := r.questions[0].name)])
  }

  predicate Cloaks(blocks: string -> bool, rr: RecordValue) {
    rr.rdata.CNAME? && blocks(CanonicalName(rr.rdata.target))
  }

  predicate Cloaked(blocks: string -> bool, answer: seq<RecordValue>) {
    CloakedBefore(blocks, answer, |answer|)
  }

  /** One of the first `n` records is an alias of a blocked name. */
  predicate CloakedBefore(blocks: string -> bool, answer: seq<RecordValue>, n: nat)
    requires n <= |answer|
  {
    exists i :: 0 <= i < n && Cloaks(blocks, answer[i])
  }

  lemma CloakedNext(blocks: string -> bool, answer: seq<RecordValue>, n: nat)
    requires n < |answer|
    ensures CloakedBefore(blocks, answer, n + 1) <==> CloakedBefore(blocks, answer, n) || Cloaks(blocks, answer[n])
    ensures CloakedBefore(blocks, answer, n + 1) ==> Cloaked(blocks, answer)
  {
  }

  predicate Rebinds(cfg: HandlerConfig, name: string, answer: seq<RecordValue>) {
    cfg.rebindingProtection && !AllowedLocal(name, cfg.allowedLocal) && RevealsLocal(answer)
  }

  predicate Refused(cfg: HandlerConfig, blocks: string -> bool, name: string, answer: seq<RecordValue>) {
    (cfg.cnameUncloaking && Cloaked(blocks, answer)) || Rebinds(cfg, name, answer)
  }

  // ---------------------------------------------------------------- one request

  /** The reply, the cache afterwards and the status logged, if any. */
  datatype Service = Service(reply: MessageValue, cache: seq<Entry>, status: Option<string>)

  /** The resolvers are asked only about names that are neither blocked nor cached. */
  predicate Asks(blocks: string -> bool, l: Limits, s: seq<Entry>, r: MessageValue, now: int) {
    r.questions != [] && !blocks(CanonicalName(r.questions[0].name)) && !Hits(l, s, r, now)
  }

  function Serve(cfg: HandlerConfig, blocks: string -> bool, l: Limits, s: seq<Entry>, r: MessageValue,
                       now: int, later: int, upstream: ForwardResult<MessageValue>): Service
  {
    if r.questions == [] then Service(BareReply(r, RCODE_FORMAT_ERROR), s, None)
    else if blocks(CanonicalName(r.questions[0].name)) then Service(Sinkhole(cfg, r), s, Some("blocked"))
    else Resolve(cfg, blocks, l, s, r, now, later, upstream)
  }

  /** From the cache, or else from the resolvers. */
  function Resolve(cfg: HandlerConfig, blocks: string -> bool, l: Limits, s: seq<Entry>, r: MessageValue,
                         now: int, later: int, upstream: ForwardResult<MessageValue>): Service
    requires r.questions != []
  {
    var s' := AfterGet(l, s, r, now);
    match Lookup(l, s, r, now)
    case Some(hit) => Service(hit, s', Some("cache_hit"))
    case None => Conclude(cfg, blocks, l, s', r, later, upstream)
  }

  /** What becomes of the resolvers' result. */
  function Conclude(cfg: HandlerConfig, blocks: string -> bool, l: Limits, s: seq<Entry>, r: MessageValue,
                          later: int, upstream: ForwardResult<MessageValue>): Service
    requires r.questions != []
  {
    match upstream
    case AllFailed(_) => Service(BareReply(r, RCODE_SERVER_FAILURE), s, None)
    case Response(resp) =>
      if Refused(cfg, blocks, CanonicalName(r.questions[0].name), resp.answer) then Service(Sinkhole(cfg, r), s, Some("blocked"))
      else
        var final := Restored(resp, r).(id := r.id);
        Service(final, AfterSet(l, s, r, final, later), Some("forwarded"))
  }
}

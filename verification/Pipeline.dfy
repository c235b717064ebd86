/** Requests in progress, interleaved with one another and with reloads of the rules. Each look at the
    filter, the cache or the resolvers is one step, so anything may happen between two of them. */
module Pipeline {
  import opened Text
  import opened Messages
  import opened FilterRules
  import opened CacheModel
  import opened LocalNames
  import opened Forwarders
  import opened HandlerModel
  import opened Replies

  /** The fixed configuration, and the filter's verdict on names under each table. */
  datatype Env = Env(cfg: HandlerConfig, limits: Limits, verdict: RuleTable -> string -> bool)

  /** Tables in force from one moment to another, by their place in the history. */
  datatype Window = Window(first: nat, last: nat)

  /** A resolver's response to a request, and the table in force when it was taken. */
  datatype Given = Given(r: MessageValue, answer: MessageValue, table: nat)

  datatype Phase =
    | Naming
    | Looking
    | Asking
    | Screening(got: Given, passed: nat)
    | Guarding(got: Given)
    | Storing(got: Given)

  /** A request, the table in force when it arrived, and how far it has got. */
  datatype Job = Job(r: MessageValue, since: nat, phase: Phase)

  /** Why a request was sunk: its name, the i-th record of the response, or an address in it. */
  datatype Cause = Listed | CloakedBy(got: Given, i: nat) | Rebound(got: Given)

  /** How a stored response was let through: what was given, the table in force when its request arrived,
      and the one in force when it was stored. */
  datatype Vetting = Vetting(got: Given, since: nat, stored: nat)

  datatype Source =
    | Malformed
    | Sunk(cause: Cause)
    | Failure
    | FromCache(vetting: Vetting)
    | FromResolver(got: Given)

  /** A reply, with the tables in force between the request's arrival and the reply. */
  datatype Sent = Sent(r: MessageValue, reply: MessageValue, window: Window, source: Source)

  /** `tables` is the history of published tables, the last one in force; `given` holds the responses taken
      from resolvers; `vetted` remembers how each entry of the cache came to be stored. */
  datatype State = State(
    tables: seq<RuleTable>,
    cache: seq<Entry>,
    vetted: map<CacheKey, Vetting>,
    jobs: map<nat, Job>,
    given: set<Given>,
    sent: seq<Sent>)

  const INITIAL := State([EMPTY_TABLE], [], map[], map[], {}, [])

  datatype Step =
    | Arrive(job: nat, r: MessageValue)
    | Advance(job: nat, now: int, upstream: ForwardResult<MessageValue>)
    | Reload(table: RuleTable)

  // ---------------------------------------------------------------- the steps

  function Name(r: MessageValue): string {
    if r.questions == [] then "" else CanonicalName(r.questions[0].name)
  }

  /** The response with the client's spelling and id. */
  function Final(got: Given): MessageValue {
    if got.r.questions == [] then got.answer else Restored(got.answer, got.r).(id := got.r.id)
  }

  /** The verdict of the k-th table. */
  function At(env: Env, tables: seq<RuleTable>, k: nat): string -> bool
    requires k < |tables|
  {
    env.verdict(tables[k])
  }

  function Current(env: Env, tables: seq<RuleTable>): string -> bool
    requires tables != []
  {
    At(env, tables, |tables| - 1)
  }

  function Goto(s: State, t: nat, phase: Phase): State
    requires t in s.jobs
  {
    s.(jobs := s.jobs[t := s.jobs[t].(phase := phase)])
  }

  /** Replies and ends the job. */
  function Finish(s: State, t: nat, reply: MessageValue, source: Source): State
    requires t in s.jobs && s.tables != []
  {
    s.(jobs := s.jobs - {t}, sent := s.sent + [Sent(s.jobs[t].r, reply, Since(s, t), source)])
  }

  /** The tables in force since the job's request arrived. */
  function Since(s: State, t: nat): Window
    requires t in s.jobs && s.tables != []
  {
    Window(s.jobs[t].since, |s.tables| - 1)
  }

  function Sink(env: Env, s: State, t: nat, cause: Cause): State
    requires Ready(s, t)
  {
    Finish(s, t, Sinkhole(env.cfg, s.jobs[t].r), Sunk(cause))
  }

  function VettingOf(vetted: map<CacheKey, Vetting>, r: MessageValue): Vetting
    requires r.questions != []
  {
    var key := MakeKey(r.questions[0]);
    if key in vetted then vetted[key] else Vetting(Given(r, r, 0), 0, 0)
  }

  predicate Ready(s: State, t: nat) {
    t in s.jobs && s.tables != [] && s.jobs[t].r.questions != []
  }

  function Proceed(env: Env, s: State, t: nat, now: int, upstream: ForwardResult<MessageValue>): State
    requires Ready(s, t)
  {
    match s.jobs[t].phase
    case Naming => CheckName(env, s, t)
    case Looking => LookUp(env, s, t, now)
    case Asking => TakeResponse(env, s, t, upstream)
    case Screening(got, passed) => ScreenNext(env, s, t, got, passed)
    case Guarding(got) => Guard(env, s, t, got)
    case Storing(got) => Store(env, s, t, got, now)
  }

  function CheckName(env: Env, s: State, t: nat): State
    requires Ready(s, t)
  {
    if Current(env, s.tables)(Name(s.jobs[t].r)) then Sink(env, s, t, Listed) else Goto(s, t, Looking)
  }

  function LookUp(env: Env, s: State, t: nat, now: int): State
    requires Ready(s, t)
  {
    var r := s.jobs[t].r;
    var s' := s.(cache := AfterGet(env.limits, s.cache, r, now));
    match Lookup(env.limits, s.cache, r, now)
    case Some(hit) => Finish(s', t, hit, FromCache(VettingOf(s.vetted, r)))
    case None => Goto(s', t, Asking)
  }

  function TakeResponse(env: Env, s: State, t: nat, upstream: ForwardResult<MessageValue>): State
    requires Ready(s, t)
  {
    var r := s.jobs[t].r;
    match upstream
    case AllFailed(_) => Finish(s, t, BareReply(r, RCODE_SERVER_FAILURE), Failure)
    case Response(answer) =>
      var got := Given(r, answer, |s.tables| - 1);
      Goto(s.(given := s.given + {got}), t, if env.cfg.cnameUncloaking then Screening(got, 0) else Guarding(got))
  }

  function ScreenNext(env: Env, s: State, t: nat, got: Given, passed: nat): State
    requires Ready(s, t)
  {
    if passed >= |got.answer.answer| then Goto(s, t, Guarding(got))
    else if Cloaks(Current(env, s.tables), got.answer.answer[passed]) then Sink(env, s, t, CloakedBy(got, passed))
    else Goto(s, t, Screening(got, passed + 1))
  }

  function Guard(env: Env, s: State, t: nat, got: Given): State
    requires Ready(s, t)
  {
    if Rebinds(env.cfg, Name(s.jobs[t].r), got.answer.answer) then Sink(env, s, t, Rebound(got)) else Goto(s, t, Storing(got))
  }

  function Store(env: Env, s: State, t: nat, got: Given, now: int): State
    requires Ready(s, t)
  {
    var r, final := s.jobs[t].r, Final(got);
    var vetted :=
      if Accepts(env.limits, r, final) then s.vetted[MakeKey(r.questions[0]) := Vetting(got, s.jobs[t].since, |s.tables| - 1)]
      else s.vetted;
    Finish(s.(cache := AfterSet(env.limits, s.cache, r, final, now), vetted := vetted), t, final, FromResolver(got))
  }

  function Arrival(s: State, t: nat, r: MessageValue): State
    requires t !in s.jobs && s.tables != []
  {
    var now := |s.tables| - 1;
    if r.questions == [] then s.(sent := s.sent + [Sent(r, BareReply(r, RCODE_FORMAT_ERROR), Window(now, now), Malformed)])
    else s.(jobs := s.jobs[t := Job(r, now, Naming)])
  }

  /** A step that is not possible changes nothing. */
  function After(env: Env, s: State, step: Step): State {
    match step
    case Arrive(t, r) => if t !in s.jobs && s.tables != [] then Arrival(s, t, r) else s
    case Advance(t, now, upstream) => if Ready(s, t) then Proceed(env, s, t, now, upstream) else s
    case Reload(table) => s.(tables := s.tables + [table])
  }

  function Run(env: Env, s: State, steps: seq<Step>): State
    decreases steps
  {
    if steps == [] then s else Run(env, After(env, s, steps[0]), steps[1..])
  }

  // ---------------------------------------------------------------- the invariant

  /** What only grows: published tables and responses taken. */
  datatype History = History(tables: seq<RuleTable>, given: set<Given>)

  function Past(s: State): History {
    History(s.tables, s.given)
  }

  ghost predicate Within(w: Window, past: History) {
    w.first <= w.last < |past.tables|
  }

  /** Some table of the window does not block the name. */
  ghost predicate Clear(env: Env, past: History, w: Window, name: string)
    requires Within(w, past)
  {
    exists k {:trigger At(env, past.tables, k)} :: w.first <= k <= w.last && !At(env, past.tables, k)(name)
  }

  /** Every alias among the first `n` records had a target that some table of the window does not block. */
  ghost predicate Uncloaked(env: Env, past: History, w: Window, answer: seq<RecordValue>, n: nat)
    requires Within(w, past) && n <= |answer|
  {
    forall i :: 0 <= i < n && answer[i].rdata.CNAME? ==> Clear(env, past, w, CanonicalName(answer[i].rdata.target))
  }

  /** The response was taken for this request, whose name was clear by then. */
  ghost predicate Taken(env: Env, past: History, r: MessageValue, since: nat, got: Given) {
    && got in past.given && got.r == r && r.questions != []
    && since <= got.table < |past.tables|
    && Clear(env, past, Window(since, got.table), Name(r))
  }

  /** The response was let through: taken, then its aliases judged by tables in force from then until it
      was stored, and its addresses by the name. */
  ghost predicate Vetted(env: Env, past: History, v: Vetting) {
    && Taken(env, past, v.got.r, v.since, v.got)
    && v.got.table <= v.stored < |past.tables|
    && !Rebinds(env.cfg, Name(v.got.r), v.got.answer.answer)
    && (env.cfg.cnameUncloaking ==>
          Uncloaked(env, past, Window(v.got.table, v.stored), v.got.answer.answer, |v.got.answer.answer|))
  }

  /** The entry is a vetted response, under the key of the request that it was given for. */
  ghost predicate EntryOk(env: Env, past: History, vetted: map<CacheKey, Vetting>, e: Entry) {
    && e.key in vetted
    && var v := vetted[e.key];
    && Vetted(env, past, v) && e.key == MakeKey(v.got.r.questions[0]) && e.msg == Final(v.got)
  }

  ghost predicate CacheOk(env: Env, past: History, vetted: map<CacheKey, Vetting>, cache: seq<Entry>) {
    DistinctKeys(cache) && forall e :: e in cache ==> EntryOk(env, past, vetted, e)
  }

  ghost predicate PhaseOk(env: Env, past: History, r: MessageValue, since: nat, phase: Phase)
    requires since < |past.tables|
  {
    var last := |past.tables| - 1;
    match phase
    case Naming => true
    case Looking => Clear(env, past, Window(since, last), Name(r))
    case Asking => Clear(env, past, Window(since, last), Name(r))
    case Screening(got, passed) =>
      && env.cfg.cnameUncloaking && Taken(env, past, r, since, got)
      && passed <= |got.answer.answer| && Uncloaked(env, past, Window(got.table, last), got.answer.answer, passed)
    case Guarding(got) =>
      && Taken(env, past, r, since, got)
      && (env.cfg.cnameUncloaking ==> Uncloaked(env, past, Window(got.table, last), got.answer.answer, |got.answer.answer|))
    case Storing(got) => got.r == r && Vetted(env, past, Vetting(got, since, last))
  }

  ghost predicate JobOk(env: Env, past: History, j: Job) {
    j.r.questions != [] && j.since < |past.tables| && PhaseOk(env, past, j.r, j.since, j.phase)
  }

  /** Every sinkhole reply has its cause, judged by the table in force when it is sent. */
  ghost predicate CauseOk(env: Env, past: History, r: MessageValue, w: Window, cause: Cause)
    requires Within(w, past)
  {
    match cause
    case Listed => At(env, past.tables, w.last)(Name(r))
    case CloakedBy(got, i) =>
      && env.cfg.cnameUncloaking && Taken(env, past, r, w.first, got)
      && i < |got.answer.answer| && Cloaks(At(env, past.tables, w.last), got.answer.answer[i])
    case Rebound(got) => Taken(env, past, r, w.first, got) && Rebinds(env.cfg, Name(r), got.answer.answer)
  }

  /** The reply is what was given, under another id and with other times. */
  ghost predicate Renders(reply: MessageValue, r: MessageValue, got: Given) {
    exists ttl: nat {:trigger RetimedMessage(Final(got), ttl)} :: reply == RetimedMessage(Final(got), ttl).(id := r.id)
  }

  ghost predicate SentOk(env: Env, past: History, x: Sent) {
    && Within(x.window, past)
    && match x.source
       case Malformed => x.r.questions == [] && x.reply == BareReply(x.r, RCODE_FORMAT_ERROR)
       case Failure =>
         && x.r.questions != [] && x.reply == BareReply(x.r, RCODE_SERVER_FAILURE)
         && Clear(env, past, x.window, Name(x.r))
       case Sunk(cause) =>
         && x.r.questions != [] && x.reply == Sinkhole(env.cfg, x.r)
         && CauseOk(env, past, x.r, x.window, cause)
       case FromCache(v) =>
         && x.r.questions != [] && Clear(env, past, x.window, Name(x.r))
         && Vetted(env, past, v) && MakeKey(v.got.r.questions[0]) == MakeKey(x.r.questions[0]) && Renders(x.reply, x.r, v.got)
       case FromResolver(got) =>
         && got.r == x.r && x.reply == Final(got)
         && Vetted(env, past, Vetting(got, x.window.first, x.window.last))
  }

  ghost predicate JobsOk(env: Env, past: History, jobs: map<nat, Job>) {
    forall t :: t in jobs ==> JobOk(env, past, jobs[t])
  }

  ghost predicate AllSentOk(env: Env, past: History, sent: seq<Sent>) {
    forall i :: 0 <= i < |sent| ==> SentOk(env, past, sent[i])
  }

  ghost predicate Inv(env: Env, s: State) {
    && s.tables != []
    && CacheOk(env, Past(s), s.vetted, s.cache)
    && JobsOk(env, Past(s), s.jobs)
    && AllSentOk(env, Past(s), s.sent)
  }

  // ---------------------------------------------------------------- the history only grows

  ghost predicate Extends(past: History, past': History) {
    && |past.tables| <= |past'.tables| && (forall k :: 0 <= k < |past.tables| ==> past'.tables[k] == past.tables[k])
    && past.given <= past'.given
  }

  ghost predicate Widens(w: Window, w': Window) {
    w'.first <= w.first && w.last <= w'.last
  }

  lemma ClearWidens(env: Env, past: History, w: Window, past': History, w': Window, name: string)
    requires Within(w, past) && Within(w', past') && Extends(past, past') && Widens(w, w')
    requires Clear(env, past, w, name)
    ensures Clear(env, past', w', name)
  {
    var k :| w.first <= k <= w.last && !At(env, past.tables, k)(name);
    assert At(env, past'.tables, k) == At(env, past.tables, k);
  }

  lemma UncloakedWidens(env: Env, past: History, w: Window, past': History, w': Window, answer: seq<RecordValue>, n: nat)
    requires Within(w, past) && Within(w', past') && Extends(past, past') && Widens(w, w')
    requires n <= |answer| && Uncloaked(env, past, w, answer, n)
    ensures Uncloaked(env, past', w', answer, n)
  {
    forall i | 0 <= i < n && answer[i].rdata.CNAME? ensures Clear(env, past', w', CanonicalName(answer[i].rdata.target)) {
      ClearWidens(env, past, w, past', w', CanonicalName(answer[i].rdata.target));
    }
  }

  lemma TakenStays(env: Env, past: History, past': History, r: MessageValue, since: nat, got: Given)
    requires Extends(past, past') && Taken(env, past, r, since, got)
    ensures Taken(env, past', r, since, got)
  {
    var w := Window(since, got.table);
    ClearWidens(env, past, w, past', w, Name(r));
  }

  lemma VettedStays(env: Env, past: History, past': History, v: Vetting, stored: nat)
    requires Extends(past, past') && Vetted(env, past, v) && v.stored <= stored < |past'.tables|
    ensures Vetted(env, past', v.(stored := stored))
  {
    TakenStays(env, past, past', v.got.r, v.since, v.got);
    if env.cfg.cnameUncloaking {
      var answer := v.got.answer.answer;
      UncloakedWidens(env, past, Window(v.got.table, v.stored), past', Window(v.got.table, stored), answer, |answer|);
    }
  }

  lemma JobStays(env: Env, past: History, past': History, j: Job)
    requires Extends(past, past') && JobOk(env, past, j)
    ensures JobOk(env, past', j)
  {
    var last, last' := |past.tables| - 1, |past'.tables| - 1;
    match j.phase
    case Naming =>
    case Looking => ClearWidens(env, past, Window(j.since, last), past', Window(j.since, last'), Name(j.r));
    case Asking => ClearWidens(env, past, Window(j.since, last), past', Window(j.since, last'), Name(j.r));
    case Screening(got, passed) =>
      TakenStays(env, past, past', j.r, j.since, got);
      UncloakedWidens(env, past, Window(got.table, last), past', Window(got.table, last'), got.answer.answer, passed);
    case Guarding(got) =>
      TakenStays(env, past, past', j.r, j.since, got);
      if env.cfg.cnameUncloaking {
        var answer := got.answer.answer;
        UncloakedWidens(env, past, Window(got.table, last), past', Window(got.table, last'), answer, |answer|);
      }
    case Storing(got) => VettedStays(env, past, past', Vetting(got, j.since, last), last');
  }

  lemma CauseStays(env: Env, past: History, past': History, r: MessageValue, w: Window, cause: Cause)
    requires Within(w, past) && Extends(past, past') && CauseOk(env, past, r, w, cause)
    ensures Within(w, past') && CauseOk(env, past', r, w, cause)
  {
    assert At(env, past'.tables, w.last) == At(env, past.tables, w.last);
    match cause
    case Listed =>
    case CloakedBy(got, i) => TakenStays(env, past, past', r, w.first, got);
    case Rebound(got) => TakenStays(env, past, past', r, w.first, got);
  }

  lemma SentStays(env: Env, past: History, past': History, x: Sent)
    requires Extends(past, past') && SentOk(env, past, x)
    ensures SentOk(env, past', x)
  {
    var w := x.window;
    match x.source
    case Malformed =>
    case Failure => ClearWidens(env, past, w, past', w, Name(x.r));
    case Sunk(cause) => CauseStays(env, past, past', x.r, w, cause);
    case FromCache(v) =>
      ClearWidens(env, past, w, past', w, Name(x.r));
      VettedStays(env, past, past', v, v.stored);
    case FromResolver(got) => VettedStays(env, past, past', Vetting(got, w.first, w.last), w.last);
  }

  lemma EntryStays(env: Env, past: History, past': History, vetted: map<CacheKey, Vetting>, e: Entry)
    requires Extends(past, past') && EntryOk(env, past, vetted, e)
    ensures EntryOk(env, past', vetted, e)
  {
    VettedStays(env, past, past', vetted[e.key], vetted[e.key].stored);
  }

  /** Whatever grows the history keeps the invariant. */
  lemma GrowthKeeps(env: Env, s: State, past: History)
    requires Inv(env, s) && Extends(Past(s), past)
    ensures Inv(env, s.(tables := past.tables, given := past.given))
  {
    forall e | e in s.cache ensures EntryOk(env, past, s.vetted, e) {
      EntryStays(env, Past(s), past, s.vetted, e);
    }
    forall t | t in s.jobs ensures JobOk(env, past, s.jobs[t]) {
      JobStays(env, Past(s), past, s.jobs[t]);
    }
    forall i | 0 <= i < |s.sent| ensures SentOk(env, past, s.sent[i]) {
      SentStays(env, Past(s), past, s.sent[i]);
    }
  }

  // ---------------------------------------------------------------- steps of a job

  lemma GotoKeeps(env: Env, s: State, t: nat, phase: Phase)
    requires Inv(env, s) && t in s.jobs && s.jobs[t].since < |s.tables|
    requires PhaseOk(env, Past(s), s.jobs[t].r, s.jobs[t].since, phase)
    ensures Inv(env, Goto(s, t, phase))
  {
    assert JobOk(env, Past(s), s.jobs[t]);
    assert JobOk(env, Past(s), s.jobs[t].(phase := phase));
  }

  lemma FinishKeeps(env: Env, s: State, t: nat, reply: MessageValue, source: Source)
    requires Inv(env, s) && t in s.jobs
    requires SentOk(env, Past(s), Sent(s.jobs[t].r, reply, Since(s, t), source))
    ensures Inv(env, Finish(s, t, reply, source))
  {
    AppendedOk(env, Past(s), s.sent, Sent(s.jobs[t].r, reply, Since(s, t), source));
  }

  lemma AppendedOk(env: Env, past: History, sent: seq<Sent>, x: Sent)
    requires AllSentOk(env, past, sent) && SentOk(env, past, x)
    ensures AllSentOk(env, past, sent + [x])
  {
  }

  lemma SinkKeeps(env: Env, s: State, t: nat, cause: Cause)
    requires Inv(env, s) && Ready(s, t) && s.jobs[t].since < |s.tables|
    requires CauseOk(env, Past(s), s.jobs[t].r, Since(s, t), cause)
    ensures Inv(env, Sink(env, s, t, cause))
  {
    FinishKeeps(env, s, t, Sinkhole(env.cfg, s.jobs[t].r), Sunk(cause));
  }

  /** What the table in force does not block is clear. */
  lemma CurrentClears(env: Env, past: History, first: nat, name: string)
    requires first < |past.tables| && !Current(env, past.tables)(name)
    ensures Clear(env, past, Window(first, |past.tables| - 1), name)
  {
  }

  lemma CheckNameKeeps(env: Env, s: State, t: nat)
    requires Inv(env, s) && Ready(s, t) && s.jobs[t].phase.Naming?
    ensures Inv(env, CheckName(env, s, t))
  {
    assert JobOk(env, Past(s), s.jobs[t]);
    if Current(env, s.tables)(Name(s.jobs[t].r)) {
      SinkKeeps(env, s, t, Listed);
    } else {
      CurrentClears(env, Past(s), s.jobs[t].since, Name(s.jobs[t].r));
      GotoKeeps(env, s, t, Looking);
    }
  }

  /** Reading the cache only reorders it or drops an expired entry. */
  lemma GetKeeps(l: Limits, cache: seq<Entry>, r: MessageValue, now: int)
    requires DistinctKeys(cache)
    ensures DistinctKeys(AfterGet(l, cache, r, now)) && forall e :: e in AfterGet(l, cache, r, now) ==> e in cache
  {
    if l.enabled && r.questions != [] && Find(cache, MakeKey(r.questions[0])) >= 0 {
      var i := Find(cache, MakeKey(r.questions[0]));
      RemoveElements(cache, i);
      ToFrontElements(cache, i);
    }
  }

  lemma RemoveDistinct(cache: seq<Entry>, i: nat)
    requires DistinctKeys(cache) && i < |cache|
    ensures DistinctKeys(Remove(cache, i))
    ensures forall e :: e in Remove(cache, i) ==> e in cache && e.key != cache[i].key
  {
    RemoveElements(cache, i);
  }

  lemma PushDistinct(cache: seq<Entry>, e: Entry)
    requires DistinctKeys(cache) && forall x :: x in cache ==> x.key != e.key
    ensures DistinctKeys([e] + cache)
  {
    forall i, j | 0 <= i < j < |cache| + 1 ensures ([e] + cache)[i].key != ([e] + cache)[j].key {
      assert ([e] + cache)[j] == cache[j - 1] && cache[j - 1] in cache;
    }
  }

  /** Storing leaves the new entry and old ones under other keys. */
  lemma StoredKeeps(cache: seq<Entry>, e: Entry, maxSize: nat)
    requires DistinctKeys(cache)
    ensures DistinctKeys(Stored(cache, e, maxSize))
    ensures forall x :: x in Stored(cache, e, maxSize) ==> x == e || (x in cache && x.key != e.key)
  {
    var i := Find(cache, e.key);
    if i >= 0 {
      RemoveDistinct(cache, i);
      PushDistinct(Remove(cache, i), e);
    } else if |cache| >= maxSize && cache != [] {
      RemoveDistinct(cache, |cache| - 1);
      PushDistinct(Remove(cache, |cache| - 1), e);
    } else {
      PushDistinct(cache, e);
    }
  }

  /** The key under which an answer is found is that of the request it was vetted for. */
  lemma HitOk(env: Env, s: State, t: nat, now: int)
    requires Inv(env, s) && Ready(s, t) && s.jobs[t].phase.Looking? && Hits(env.limits, s.cache, s.jobs[t].r, now)
    ensures var r := s.jobs[t].r;
            SentOk(env, Past(s), Sent(r, Lookup(env.limits, s.cache, r, now).value, Since(s, t), FromCache(VettingOf(s.vetted, r))))
  {
    var r := s.jobs[t].r;
    var e := s.cache[Find(s.cache, MakeKey(r.questions[0]))];
    assert JobOk(env, Past(s), s.jobs[t]);
    assert e in s.cache && EntryOk(env, Past(s), s.vetted, e);
    var got := s.vetted[e.key].got;
    assert Served(e, r.id, now) == RetimedMessage(Final(got), RemainingTTL(e.expireAt, now)).(id := r.id);
    assert Renders(Served(e, r.id, now), r, got);
  }

  lemma LookUpKeeps(env: Env, s: State, t: nat, now: int)
    requires Inv(env, s) && Ready(s, t) && s.jobs[t].phase.Looking?
    ensures Inv(env, LookUp(env, s, t, now))
  {
    var r := s.jobs[t].r;
    var s' := s.(cache := AfterGet(env.limits, s.cache, r, now));
    GetKeeps(env.limits, s.cache, r, now);
    assert Inv(env, s');
    assert JobOk(env, Past(s), s.jobs[t]);
    if Hits(env.limits, s.cache, r, now) {
      HitOk(env, s, t, now);
      FinishKeeps(env, s', t, Lookup(env.limits, s.cache, r, now).value, FromCache(VettingOf(s.vetted, r)));
    } else {
      GotoKeeps(env, s', t, Asking);
    }
  }

  lemma TakeResponseCases(env: Env, s: State, t: nat, upstream: ForwardResult<MessageValue>)
    requires Ready(s, t)
    ensures upstream.AllFailed? ==>
      TakeResponse(env, s, t, upstream) == Finish(s, t, BareReply(s.jobs[t].r, RCODE_SERVER_FAILURE), Failure)
    ensures upstream.Response? ==>
      var got := Given(s.jobs[t].r, upstream.resp, |s.tables| - 1);
      TakeResponse(env, s, t, upstream) ==
        Goto(s.(given := s.given + {got}), t, if env.cfg.cnameUncloaking then Screening(got, 0) else Guarding(got))
  {
  }

  lemma TakeResponseKeeps(env: Env, s: State, t: nat, upstream: ForwardResult<MessageValue>)
    requires Inv(env, s) && Ready(s, t) && s.jobs[t].phase.Asking?
    ensures Inv(env, TakeResponse(env, s, t, upstream))
  {
    var r := s.jobs[t].r;
    TakeResponseCases(env, s, t, upstream);
    assert JobOk(env, Past(s), s.jobs[t]);
    match upstream
    case AllFailed(_) => FinishKeeps(env, s, t, BareReply(r, RCODE_SERVER_FAILURE), Failure);
    case Response(answer) => ResponseKeeps(env, s, t, Given(r, answer, |s.tables| - 1));
  }

  lemma ResponseKeeps(env: Env, s: State, t: nat, got: Given)
    requires Inv(env, s) && Ready(s, t) && s.jobs[t].phase.Asking? && got.r == s.jobs[t].r && got.table == |s.tables| - 1
    ensures var s' := s.(given := s.given + {got});
            Inv(env, Goto(s', t, if env.cfg.cnameUncloaking then Screening(got, 0) else Guarding(got)))
  {
    var s' := s.(given := s.given + {got});
    GrowthKeeps(env, s, Past(s'));
    assert JobOk(env, Past(s'), s'.jobs[t]);
    assert Taken(env, Past(s'), got.r, s.jobs[t].since, got);
    if env.cfg.cnameUncloaking {
      GotoKeeps(env, s', t, Screening(got, 0));
    } else {
      GotoKeeps(env, s', t, Guarding(got));
    }
  }

  lemma NextUncloaked(env: Env, past: History, first: nat, answer: seq<RecordValue>, n: nat)
    requires first < |past.tables| && n < |answer|
    requires Uncloaked(env, past, Window(first, |past.tables| - 1), answer, n) && !Cloaks(Current(env, past.tables), answer[n])
    ensures Uncloaked(env, past, Window(first, |past.tables| - 1), answer, n + 1)
  {
    if answer[n].rdata.CNAME? {
      CurrentClears(env, past, first, CanonicalName(answer[n].rdata.target));
    }
  }

  lemma ScreenNextCases(env: Env, s: State, t: nat, got: Given, passed: nat)
    requires Ready(s, t)
    ensures ScreenNext(env, s, t, got, passed) ==
            if passed >= |got.answer.answer| then Goto(s, t, Guarding(got))
            else if !Cloaks(Current(env, s.tables), got.answer.answer[passed]) then Goto(s, t, Screening(got, passed + 1))
            else Sink(env, s, t, CloakedBy(got, passed))
  {
  }

  /** What screening the record at `passed` leads to. */
  lemma ScreenedOk(env: Env, past: History, r: MessageValue, since: nat, got: Given, passed: nat)
    requires since < |past.tables| && PhaseOk(env, past, r, since, Screening(got, passed))
    ensures passed >= |got.answer.answer| ==> PhaseOk(env, past, r, since, Guarding(got))
    ensures passed < |got.answer.answer| && !Cloaks(Current(env, past.tables), got.answer.answer[passed]) ==>
      PhaseOk(env, past, r, since, Screening(got, passed + 1))
    ensures passed < |got.answer.answer| && Cloaks(Current(env, past.tables), got.answer.answer[passed]) ==>
      CauseOk(env, past, r, Window(since, |past.tables| - 1), CloakedBy(got, passed))
  {
    if passed < |got.answer.answer| && !Cloaks(Current(env, past.tables), got.answer.answer[passed]) {
      NextUncloaked(env, past, got.table, got.answer.answer, passed);
    }
  }

  lemma JobInPhase(env: Env, s: State, t: nat)
    requires Inv(env, s) && t in s.jobs
    ensures s.jobs[t].since < |s.tables| && PhaseOk(env, Past(s), s.jobs[t].r, s.jobs[t].since, s.jobs[t].phase)
  {
    assert JobOk(env, Past(s), s.jobs[t]);
  }

  lemma ScreenNextKeeps(env: Env, s: State, t: nat, got: Given, passed: nat)
    requires Inv(env, s) && Ready(s, t) && s.jobs[t].phase == Screening(got, passed)
    ensures Inv(env, ScreenNext(env, s, t, got, passed))
  {
    ScreenNextCases(env, s, t, got, passed);
    JobInPhase(env, s, t);
    ScreenedOk(env, Past(s), s.jobs[t].r, s.jobs[t].since, got, passed);
    if passed >= |got.answer.answer| {
      GotoKeeps(env, s, t, Guarding(got));
    } else if Cloaks(Current(env, s.tables), got.answer.answer[passed]) {
      SinkKeeps(env, s, t, CloakedBy(got, passed));
    } else {
      GotoKeeps(env, s, t, Screening(got, passed + 1));
    }
  }

  lemma GuardKeeps(env: Env, s: State, t: nat, got: Given)
    requires Inv(env, s) && Ready(s, t) && s.jobs[t].phase == Guarding(got)
    ensures Inv(env, Guard(env, s, t, got))
  {
    assert JobOk(env, Past(s), s.jobs[t]);
    if Rebinds(env.cfg, Name(s.jobs[t].r), got.answer.answer) {
      SinkKeeps(env, s, t, Rebound(got));
    } else {
      GotoKeeps(env, s, t, Storing(got));
    }
  }

  lemma StoredOk(env: Env, past: History, vetted: map<CacheKey, Vetting>, cache: seq<Entry>, v: Vetting, now: int)
    requires CacheOk(env, past, vetted, cache) && Vetted(env, past, v) && Accepts(env.limits, v.got.r, Final(v.got))
    ensures CacheOk(env, past, vetted[MakeKey(v.got.r.questions[0]) := v], AfterSet(env.limits, cache, v.got.r, Final(v.got), now))
  {
    var r, final := v.got.r, Final(v.got);
    var key := MakeKey(r.questions[0]);
    StoredKeeps(cache, EntryFor(env.limits, r, final, now), env.limits.maxSize);
    forall e | e in AfterSet(env.limits, cache, r, final, now) ensures EntryOk(env, past, vetted[key := v], e) {
      if e.key != key {
        assert EntryOk(env, past, vetted, e);
      }
    }
  }

  lemma StoreKeeps(env: Env, s: State, t: nat, got: Given, now: int)
    requires Inv(env, s) && Ready(s, t) && s.jobs[t].phase == Storing(got)
    ensures Inv(env, Store(env, s, t, got, now))
  {
    var r, v := s.jobs[t].r, Vetting(got, s.jobs[t].since, |s.tables| - 1);
    var final := Final(got);
    assert JobOk(env, Past(s), s.jobs[t]);
    if Accepts(env.limits, r, final) {
      StoredOk(env, Past(s), s.vetted, s.cache, v, now);
      var s' := s.(cache := AfterSet(env.limits, s.cache, r, final, now), vetted := s.vetted[MakeKey(r.questions[0]) := v]);
      FinishKeeps(env, s', t, final, FromResolver(got));
    } else {
      FinishKeeps(env, s, t, final, FromResolver(got));
    }
  }

  lemma AfterKeeps(env: Env, s: State, step: Step)
    requires Inv(env, s)
    ensures Inv(env, After(env, s, step))
  {
    match step
    case Reload(table) => GrowthKeeps(env, s, History(s.tables + [table], s.given));
    case Arrive(t, r) => if t !in s.jobs { ArrivalKeeps(env, s, t, r); }
    case Advance(t, now, upstream) => if Ready(s, t) { ProceedKeeps(env, s, t, now, upstream); }
  }

  lemma ArrivalKeeps(env: Env, s: State, t: nat, r: MessageValue)
    requires Inv(env, s) && t !in s.jobs
    ensures Inv(env, Arrival(s, t, r))
  {
    var now := |s.tables| - 1;
    if r.questions == [] {
      AppendedOk(env, Past(s), s.sent, Sent(r, BareReply(r, RCODE_FORMAT_ERROR), Window(now, now), Malformed));
    } else {
      assert JobOk(env, Past(s), Job(r, now, Naming));
    }
  }

  lemma ProceedKeeps(env: Env, s: State, t: nat, now: int, upstream: ForwardResult<MessageValue>)
    requires Inv(env, s) && Ready(s, t)
    ensures Inv(env, Proceed(env, s, t, now, upstream))
  {
    match s.jobs[t].phase
    case Naming => CheckNameKeeps(env, s, t);
    case Looking => LookUpKeeps(env, s, t, now);
    case Asking => TakeResponseKeeps(env, s, t, upstream);
    case Screening(got, passed) => ScreenNextKeeps(env, s, t, got, passed);
    case Guarding(got) => GuardKeeps(env, s, t, got);
    case Storing(got) => StoreKeeps(env, s, t, got, now);
  }

  // ---------------------------------------------------------------- the results

  /** Every run, however requests and reloads interleave, keeps the invariant. */
  lemma {:induction false} RunKeeps(env: Env, s: State, steps: seq<Step>)
    requires Inv(env, s)
    ensures Inv(env, Run(env, s, steps))
    decreases steps
  {
    if steps != [] {
      AfterKeeps(env, s, steps[0]);
      RunKeeps(env, After(env, s, steps[0]), steps[1..]);
    }
  }

  ghost predicate Reachable(env: Env, s: State) {
    exists steps :: s == Run(env, INITIAL, steps)
  }

  lemma ReachableOk(env: Env, s: State)
    requires Reachable(env, s)
    ensures Inv(env, s)
  {
    var steps :| s == Run(env, INITIAL, steps);
    RunKeeps(env, INITIAL, steps);
  }

  /** The reply comes from the cache or a resolver. */
  predicate Relayed(x: Sent) {
    x.source.FromCache? || x.source.FromResolver?
  }

  /** How a relayed reply was let through. */
  function VettingOfSent(x: Sent): Vetting
    requires Relayed(x)
  {
    if x.source.FromCache? then x.source.vetting else Vetting(x.source.got, x.window.first, x.window.last)
  }

  /** A relayed reply has the records of a vetted response given for the same question. */
  lemma RelayedIsVetted(env: Env, s: State, x: Sent)
    requires Reachable(env, s) && x in s.sent && Relayed(x)
    ensures var v := VettingOfSent(x);
            && Vetted(env, Past(s), v) && x.r.questions != [] && Name(v.got.r) == Name(x.r)
            && |x.reply.answer| == |v.got.answer.answer|
            && forall i :: 0 <= i < |x.reply.answer| ==> x.reply.answer[i].rdata == v.got.answer.answer[i].rdata
  {
    ReachableOk(env, s);
    assert SentOk(env, Past(s), x);
    var v := VettingOfSent(x);
    if x.source.FromCache? {
      var ttl: nat :| x.reply == RetimedMessage(Final(v.got), ttl).(id := x.r.id);
    }
  }

  /** With rebinding protection on, no reply that comes from the cache or a resolver shows a private or
      local address under a name that is not allowed to have one, and no cached entry does. */
  lemma NoRebinding(env: Env, s: State)
    requires Reachable(env, s) && env.cfg.rebindingProtection
    ensures forall e :: e in s.cache && HasLocalAddress(e.msg.answer) ==> AllowedLocal(e.key.name, env.cfg.allowedLocal)
    ensures forall x :: x in s.sent && Relayed(x) && HasLocalAddress(x.reply.answer) ==> AllowedLocal(Name(x.r), env.cfg.allowedLocal)
  {
    ReachableOk(env, s);
    forall e | e in s.cache && HasLocalAddress(e.msg.answer) ensures AllowedLocal(e.key.name, env.cfg.allowedLocal) {
      assert EntryOk(env, Past(s), s.vetted, e);
      RebindsExactly(env.cfg, e.key.name, e.msg.answer);
    }
    forall x | x in s.sent && Relayed(x) && HasLocalAddress(x.reply.answer) ensures AllowedLocal(Name(x.r), env.cfg.allowedLocal) {
      RelayedIsVetted(env, s, x);
      SameAddresses(x.reply.answer, VettingOfSent(x).got.answer.answer);
      RebindsExactly(env.cfg, Name(x.r), VettingOfSent(x).got.answer.answer);
    }
  }

  lemma SameAddresses(a: seq<RecordValue>, b: seq<RecordValue>)
    requires |a| == |b| && forall i :: 0 <= i < |a| ==> a[i].rdata == b[i].rdata
    ensures HasLocalAddress(a) <==> HasLocalAddress(b)
  {
    if i :| 0 <= i < |a| && (a[i].rdata.A? || a[i].rdata.AAAA?) && IsPrivateOrLocalIP(a[i].rdata.ip) {
      assert b[i].rdata == a[i].rdata;
    }
    if i :| 0 <= i < |b| && (b[i].rdata.A? || b[i].rdata.AAAA?) && IsPrivateOrLocalIP(b[i].rdata.ip) {
      assert a[i].rdata == b[i].rdata;
    }
  }

  /** With CNAME uncloaking on, each alias in such a reply led to a name that some table did not block:
      one in force after the response was taken from the resolver and before it was stored or sent. */
  lemma NoCloaking(env: Env, s: State, x: Sent, i: nat) returns (k: nat)
    requires Reachable(env, s) && env.cfg.cnameUncloaking && x in s.sent && Relayed(x)
    requires i < |x.reply.answer| && x.reply.answer[i].rdata.CNAME?
    ensures VettingOfSent(x).got.table <= k <= VettingOfSent(x).stored < |s.tables|
    ensures !At(env, s.tables, k)(CanonicalName(x.reply.answer[i].rdata.target))
  {
    RelayedIsVetted(env, s, x);
    var v := VettingOfSent(x);
    var target := CanonicalName(x.reply.answer[i].rdata.target);
    assert v.got.answer.answer[i].rdata.CNAME?;
    assert Clear(env, Past(s), Window(v.got.table, v.stored), target);
    k :| v.got.table <= k <= v.stored && !At(env, s.tables, k)(target);
  }

  /** The step, taken in state `s`, delivers this response to a job that is asking the resolvers. */
  ghost predicate Delivers(s: State, step: Step, got: Given) {
    && step.Advance? && step.upstream == Response(got.answer)
    && Ready(s, step.job) && s.jobs[step.job].phase == Asking && s.jobs[step.job].r == got.r
    && got.table == |s.tables| - 1
  }

  /** A response counts as given only because some step delivered it. */
  lemma {:induction false} GivenBySteps(env: Env, s: State, steps: seq<Step>, got: Given) returns (k: nat)
    requires got in Run(env, s, steps).given && got !in s.given
    ensures k < |steps| && Delivers(Run(env, s, steps[..k]), steps[k], got)
    decreases steps
  {
    var s' := After(env, s, steps[0]);
    if got in s'.given {
      k := 0;
      GivenNow(env, s, steps[0], got);
    } else {
      var rest := GivenBySteps(env, s', steps[1..], got);
      k := rest + 1;
      assert steps[..k][1..] == steps[1..][..rest];
    }
  }

  lemma GivenNow(env: Env, s: State, step: Step, got: Given)
    requires got in After(env, s, step).given && got !in s.given
    ensures Delivers(s, step, got)
  {
  }

  /** The same name up to spelling, type and class. */
  predicate SameQuestion(a: MessageValue, b: MessageValue) {
    && a.questions != [] && b.questions != []
    && CanonicalName(a.questions[0].name) == CanonicalName(b.questions[0].name)
    && a.questions[0].qtype == b.questions[0].qtype && a.questions[0].qclass == b.questions[0].qclass
  }

  lemma RendersRepeats(x: Sent, got: Given)
    requires got.r.questions != [] && Renders(x.reply, x.r, got)
    ensures Repeats(got.answer, got.r, x.r, x.reply)
  {
    var ttl: nat :| x.reply == RetimedMessage(Final(got), ttl).(id := x.r.id);
    RestoredForwards(got.answer, got.r);
    RetimedRepeats(got.answer, got.r, Final(got), ttl, x.r);
  }

  /** What is relayed comes from a resolver: a step delivered it to a job whose request has the same question.
      Forwarded, it is unchanged but for its id and the spelling of the name; from the cache its times, that of
      OPT excepted, are others as well. */
  lemma RelayedWasGiven(env: Env, steps: seq<Step>, x: Sent) returns (k: nat, got: Given)
    requires x in Run(env, INITIAL, steps).sent && Relayed(x)
    ensures k < |steps| && Delivers(Run(env, INITIAL, steps[..k]), steps[k], got)
    ensures SameQuestion(got.r, x.r)
    ensures if x.source.FromResolver? then got.r == x.r && Forwards(got.answer, x.r, x.reply)
            else Repeats(got.answer, got.r, x.r, x.reply)
  {
    var s := Run(env, INITIAL, steps);
    RunKeeps(env, INITIAL, steps);
    assert SentOk(env, Past(s), x);
    got := VettingOfSent(x).got;
    k := GivenBySteps(env, INITIAL, steps, got);
    RestoredForwards(got.answer, got.r);
    if x.source.FromCache? { RendersRepeats(x, got); }
  }

  /** A sinkhole reply depends on the request and the configuration alone, and it is never sent without
      cause: the table in force blocks the name or an alias in the response that a resolver gave for the
      request, or that response shows an address that the name may not have. */
  lemma SunkHasCause(env: Env, s: State, x: Sent)
    requires Reachable(env, s) && x in s.sent && x.source.Sunk?
    ensures x.r.questions != [] && SinkholeReply(env.cfg, x.r, x.reply)
    ensures Within(x.window, Past(s)) && CauseOk(env, Past(s), x.r, x.window, x.source.cause)
    ensures x.source.cause.Rebound? ==>
      env.cfg.rebindingProtection && !AllowedLocal(Name(x.r), env.cfg.allowedLocal) && HasLocalAddress(x.source.cause.got.answer.answer)
  {
    ReachableOk(env, s);
    assert SentOk(env, Past(s), x);
    SinkholeFields(env.cfg, x.r);
    if x.source.cause.Rebound? {
      RebindsExactly(env.cfg, Name(x.r), x.source.cause.got.answer.answer);
    }
  }

  /** The question, if any, is the one asked, up to its spelling. */
  predicate Echoes(name: string, m: MessageValue) {
    m.questions == [] || CanonicalName(m.questions[0].name) == name
  }

  /** Whatever the source of a reply: it carries the id of its request. Its question, if it has one, names
      what was asked up to spelling, and is the one asked unless a resolver supplied it. A request without a
      question gets FORMERR, and one that no resolver answers SERVFAIL. */
  lemma RepliesMatchRequests(env: Env, s: State, x: Sent)
    requires Reachable(env, s) && x in s.sent
    ensures x.reply.id == x.r.id && Echoes(Name(x.r), x.reply)
    ensures !Relayed(x) ==> x.reply.questions == if x.r.questions == [] then [] else [x.r.questions[0]]
    ensures x.source.Malformed? ==> x.r.questions == [] && FailureReply(x.r, x.reply, 1)
    ensures x.source.Failure? ==> x.r.questions != [] && FailureReply(x.r, x.reply, 2)
  {
    ReachableOk(env, s);
    assert SentOk(env, Past(s), x);
    FailureFields(x.r, RCODE_FORMAT_ERROR);
    FailureFields(x.r, RCODE_SERVER_FAILURE);
    if x.source.FromCache? {
      var ttl: nat :| x.reply == RetimedMessage(Final(x.source.vetting.got), ttl).(id := x.r.id);
    }
  }

  /** A relayed reply spells the name as its own client did exactly when the client it was given for did. */
  lemma SpellingOfGiven(env: Env, s: State, x: Sent)
    requires Reachable(env, s) && x in s.sent && Relayed(x) && x.reply.questions != []
    ensures var given := VettingOfSent(x).got.r;
            && given.questions != [] && x.r.questions != []
            && (x.reply.questions[0].name == x.r.questions[0].name <==> given.questions[0].name == x.r.questions[0].name)
  {
    ReachableOk(env, s);
    assert SentOk(env, Past(s), x);
    if x.source.FromCache? {
      var ttl: nat :| x.reply == RetimedMessage(Final(x.source.vetting.got), ttl).(id := x.r.id);
    }
  }

  /** A name that every table in force between arrival and reply blocks gets no answer but the sinkhole's. */
  lemma ListedIsSunk(env: Env, s: State, x: Sent)
    requires Reachable(env, s) && x in s.sent && x.r.questions != []
    requires forall k {:trigger At(env, s.tables, k)} ::
      x.window.first <= k <= x.window.last && k < |s.tables| ==> At(env, s.tables, k)(Name(x.r))
    ensures x.source.Sunk? && SinkholeReply(env.cfg, x.r, x.reply)
  {
    ReachableOk(env, s);
    assert SentOk(env, Past(s), x);
    SinkholeFields(env.cfg, x.r);
  }
}

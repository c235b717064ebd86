/** The cache of the step machine goes through one run of lookups and stores, so what holds of those runs
    holds of requests and replies. */
module PipelineCache {
  import opened Text
  import opened Messages
  import opened CacheModel
  import opened CacheRuns
  import opened Forwarders
  import opened Pipeline

  /** The operation on the cache that a step performs, if any. */
  function OpOf(s: State, step: Step): seq<Op> {
    if !step.Advance? || !Ready(s, step.job) then []
    else
      var j := s.jobs[step.job];
      match j.phase
      case Looking => [Get(j.r, step.now)]
      case Storing(got) => [Set(j.r, Final(got), step.now)]
      case _ => []
  }

  /** The operations of a run, in order. */
  function OpsOf(env: Env, s: State, steps: seq<Step>): seq<Op>
    decreases steps
  {
    if steps == [] then [] else OpOf(s, steps[0]) + OpsOf(env, After(env, s, steps[0]), steps[1..])
  }

  /** A step changes the cache as its operation does. */
  lemma StepIsOp(env: Env, s: State, step: Step)
    ensures var ops := OpOf(s, step);
            After(env, s, step).cache == if ops == [] then s.cache else AfterOp(env.limits, s.cache, ops[0])
  {
    if step.Advance? && Ready(s, step.job) {
      match s.jobs[step.job].phase
      case Naming =>
      case Looking =>
      case Asking => TakeResponseCases(env, s, step.job, step.upstream);
      case Screening(got, passed) => ScreenNextCases(env, s, step.job, got, passed);
      case Guarding(_) =>
      case Storing(_) =>
    }
  }

  lemma {:induction false} CacheFollows(env: Env, s: State, steps: seq<Step>, done: seq<Op>)
    requires s.cache == RunOps(env.limits, done)
    ensures Run(env, s, steps).cache == RunOps(env.limits, done + OpsOf(env, s, steps))
    decreases steps
  {
    if steps == [] {
      AppendNothing(done);
    } else {
      var op, s' := OpOf(s, steps[0]), After(env, s, steps[0]);
      StepIsOp(env, s, steps[0]);
      if op == [] {
        AppendNothing(done);
      } else {
        assert op == [op[0]];
        FrontOfAppend(done, op[0]);
      }
      CacheFollows(env, s', steps[1..], done + op);
      AppendAssociates(done, op, OpsOf(env, s', steps[1..]));
      AppendNothing(OpsOf(env, s', steps[1..]));
    }
  }

  /** In every run the cache is that of its lookups and stores. */
  lemma CacheIsRun(env: Env, steps: seq<Step>)
    ensures Run(env, INITIAL, steps).cache == RunOps(env.limits, OpsOf(env, INITIAL, steps))
  {
    CacheFollows(env, INITIAL, steps, []);
    AppendNothing(OpsOf(env, INITIAL, steps));
  }

  /** The reply that a job about to look in the cache gets at once. */
  ghost predicate HitNow(env: Env, s: State, t: nat, now: int) {
    Ready(s, t) && s.jobs[t].phase == Looking && Hits(env.limits, s.cache, s.jobs[t].r, now)
  }

  /** It is the last accepted store under the question's key, retimed and under the asker's id. */
  lemma HitSendsLastStore(env: Env, steps: seq<Step>, t: nat, now: int, upstream: ForwardResult<MessageValue>)
    requires WellFormed(env.limits) && HitNow(env, Run(env, INITIAL, steps), t, now)
    ensures var s, ops := Run(env, INITIAL, steps), OpsOf(env, INITIAL, steps);
            var r, s' := s.jobs[t].r, After(env, s, Advance(t, now, upstream));
            var stored := LastStore(env.limits, ops, MakeKey(r.questions[0]));
            && stored.Some? && now <= stored.value.expireAt
            && s'.sent != [] && Front(s'.sent) == s.sent && Last(s'.sent).r == r
            && Last(s'.sent).reply == Served(stored.value, r.id, now)
  {
    var s, ops := Run(env, INITIAL, steps), OpsOf(env, INITIAL, steps);
    var r := s.jobs[t].r;
    CacheIsRun(env, steps);
    HitServesLastStore(env.limits, ops, r, now);
    var hit := Lookup(env.limits, s.cache, r, now).value;
    FrontOfAppend(s.sent, Sent(r, hit, Since(s, t), FromCache(VettingOf(s.vetted, r))));
  }

  /** With a nondecreasing clock its records, OPT aside, have one time to live between 1 and the stored one,
      which reaches at most a second past expiry and within a second of it. */
  lemma HitTimes(env: Env, steps: seq<Step>, t: nat, now: int)
    requires WellFormed(env.limits) && HitNow(env, Run(env, INITIAL, steps), t, now)
    requires var ops := OpsOf(env, INITIAL, steps); WireTTLs(ops) && Clocked(ops) && (ops != [] ==> Last(ops).now <= now)
    ensures var s, ops := Run(env, INITIAL, steps), OpsOf(env, INITIAL, steps);
            var r := s.jobs[t].r;
            var stored := LastStore(env.limits, ops, MakeKey(r.questions[0]));
            && stored.Some? && now <= stored.value.expireAt
            && var ttl, reply := RemainingTTL(stored.value.expireAt, now), Lookup(env.limits, s.cache, r, now).value;
            && 1 <= ttl <= stored.value.initialTTL && now + ttl * SECOND <= stored.value.expireAt + SECOND
            && stored.value.expireAt < now + (ttl + 1) * SECOND
            && EveryTTL(reply.answer, ttl) && EveryTTL(reply.ns, ttl) && EveryTTL(reply.extra, ttl)
  {
    CacheIsRun(env, steps);
    HitTTL(env.limits, OpsOf(env, INITIAL, steps), Run(env, INITIAL, steps).jobs[t].r, now);
  }

  /** An answer once touched is still cached while fewer keys than the limit have been touched since, unless a
      lookup found it expired. */
  lemma AnswerSurvives(env: Env, steps: seq<Step>, from: nat, k: CacheKey)
    requires var ops := OpsOf(env, INITIAL, steps);
             && WellFormed(env.limits) && 0 < from <= |ops|
             && Touched(env.limits, RunOps(env.limits, ops[..from - 1]), ops[from - 1]) == Some(k)
             && |OthersTouched(env.limits, ops, from, k)| < env.limits.maxSize && !ExpiresAfter(env.limits, ops, from, k)
    ensures Find(Run(env, INITIAL, steps).cache, k) >= 0
  {
    CacheIsRun(env, steps);
    KeySurvives(env.limits, OpsOf(env, INITIAL, steps), from, k);
  }
}

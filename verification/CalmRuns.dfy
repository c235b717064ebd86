/** Runs in which nothing is reloaded while a request is in progress. */
module CalmRuns {
  import opened Messages
  import opened CacheModel
  import opened Forwarders
  import opened HandlerModel
  import opened Pipeline

  /** Nothing was reloaded while a request was in progress: each entry was vetted under one table. */
  ghost predicate Calm(s: State) {
    && s.tables != []
    && (forall t :: t in s.jobs ==> s.jobs[t].since == |s.tables| - 1)
    && (forall k :: k in s.vetted ==> s.vetted[k].since == s.vetted[k].stored)
    && (forall x :: x in s.sent && x.source.FromCache? ==> x.source.vetting.since == x.source.vetting.stored)
  }

  lemma CalmGoto(s: State, t: nat, phase: Phase)
    requires Calm(s) && t in s.jobs
    ensures Calm(Goto(s, t, phase))
  {
  }

  lemma CalmFinish(s: State, t: nat, reply: MessageValue, source: Source)
    requires Calm(s) && t in s.jobs && (source.FromCache? ==> source.vetting.since == source.vetting.stored)
    ensures Calm(Finish(s, t, reply, source))
  {
  }

  lemma CalmLookUp(env: Env, s: State, t: nat, now: int)
    requires Calm(s) && Ready(s, t)
    ensures Calm(LookUp(env, s, t, now))
  {
    var r := s.jobs[t].r;
    var s' := s.(cache := AfterGet(env.limits, s.cache, r, now));
    match Lookup(env.limits, s.cache, r, now)
    case Some(hit) => CalmFinish(s', t, hit, FromCache(VettingOf(s.vetted, r)));
    case None => CalmGoto(s', t, Asking);
  }

  lemma CalmTakeResponse(env: Env, s: State, t: nat, upstream: ForwardResult<MessageValue>)
    requires Calm(s) && Ready(s, t)
    ensures Calm(TakeResponse(env, s, t, upstream))
  {
    var r := s.jobs[t].r;
    TakeResponseCases(env, s, t, upstream);
    match upstream
    case AllFailed(_) => CalmFinish(s, t, BareReply(r, RCODE_SERVER_FAILURE), Failure);
    case Response(answer) =>
      var got := Given(r, answer, |s.tables| - 1);
      CalmGoto(s.(given := s.given + {got}), t, if env.cfg.cnameUncloaking then Screening(got, 0) else Guarding(got));
  }

  lemma CalmStore(env: Env, s: State, t: nat, got: Given, now: int)
    requires Calm(s) && Ready(s, t)
    ensures Calm(Store(env, s, t, got, now))
  {
    var r := s.jobs[t].r;
    var s' := s.(cache := AfterSet(env.limits, s.cache, r, Final(got), now));
    if Accepts(env.limits, r, Final(got)) {
      var v := Vetting(got, s.jobs[t].since, |s.tables| - 1);
      CalmFinish(s'.(vetted := s.vetted[MakeKey(r.questions[0]) := v]), t, Final(got), FromResolver(got));
    } else {
      CalmFinish(s', t, Final(got), FromResolver(got));
    }
  }

  lemma CalmProceed(env: Env, s: State, t: nat, now: int, upstream: ForwardResult<MessageValue>)
    requires Calm(s) && Ready(s, t)
    ensures Calm(Proceed(env, s, t, now, upstream))
  {
    var r := s.jobs[t].r;
    match s.jobs[t].phase
    case Naming =>
      CalmGoto(s, t, Looking);
      CalmFinish(s, t, Sinkhole(env.cfg, r), Sunk(Listed));
    case Looking => CalmLookUp(env, s, t, now);
    case Asking => CalmTakeResponse(env, s, t, upstream);
    case Screening(got, passed) =>
      ScreenNextCases(env, s, t, got, passed);
      CalmGoto(s, t, Guarding(got));
      CalmGoto(s, t, Screening(got, passed + 1));
      CalmFinish(s, t, Sinkhole(env.cfg, r), Sunk(CloakedBy(got, passed)));
    case Guarding(got) =>
      CalmGoto(s, t, Storing(got));
      CalmFinish(s, t, Sinkhole(env.cfg, r), Sunk(Rebound(got)));
    case Storing(got) => CalmStore(env, s, t, got, now);
  }

  lemma {:induction false} TablesGrow(env: Env, s: State, steps: seq<Step>)
    ensures |Run(env, s, steps).tables| >= |s.tables|
    decreases steps
  {
    if steps != [] {
      AfterTables(env, s, steps[0]);
      TablesGrow(env, After(env, s, steps[0]), steps[1..]);
    }
  }

  lemma AfterTables(env: Env, s: State, step: Step)
    ensures After(env, s, step).tables == if step.Reload? then s.tables + [step.table] else s.tables
  {
  }

  /** A run without reloads stays calm. */
  lemma {:induction false} CalmRun(env: Env, s: State, steps: seq<Step>)
    requires Calm(s) && Run(env, s, steps).tables == s.tables
    ensures Calm(Run(env, s, steps))
    decreases steps
  {
    if steps != [] {
      var s' := After(env, s, steps[0]);
      AfterTables(env, s, steps[0]);
      TablesGrow(env, s', steps[1..]);
      if steps[0].Advance? && Ready(s, steps[0].job) {
        CalmProceed(env, s, steps[0].job, steps[0].now, steps[0].upstream);
      }
      CalmRun(env, s', steps[1..]);
    }
  }
}

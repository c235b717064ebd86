/** A request that nothing interrupts: the step machine then does what the handler's specification says. */
module SequentialRuns {
  import opened Text
  import opened Messages
  import opened FilterRules
  import opened CacheModel
  import opened Forwarders
  import opened HandlerModel
  import opened Pipeline

  function StatusOf(source: Source): Option<string> {
    match source
    case Sunk(_) => Some("blocked")
    case FromCache(_) => Some("cache_hit")
    case FromResolver(_) => Some("forwarded")
    case _ => None
  }

  /** From `s` to `s'` the job has ended with this service, and nothing else has changed. */
  ghost predicate Completes(s: State, s': State, t: nat, r: MessageValue, service: Service) {
    && s'.tables == s.tables && s'.jobs == s.jobs - {t} && s'.cache == service.cache
    && s'.sent != [] && Front(s'.sent) == s.sent
    && Last(s'.sent).window.first == (if t in s.jobs then s.jobs[t].since else |s.tables| - 1)
    && Last(s'.sent).r == r && Last(s'.sent).reply == service.reply && StatusOf(Last(s'.sent).source) == service.status
  }

  lemma FinishCompletes(s: State, t: nat, reply: MessageValue, source: Source)
    requires t in s.jobs && s.tables != []
    ensures Completes(s, Finish(s, t, reply, source), t, s.jobs[t].r, Service(reply, s.cache, StatusOf(source)))
  {
    FrontOfAppend(s.sent, Sent(s.jobs[t].r, reply, Since(s, t), source));
  }

  lemma RunCons(env: Env, s: State, step: Step, rest: seq<Step>)
    ensures Run(env, s, [step] + rest) == Run(env, After(env, s, step), rest)
  {
    assert ([step] + rest)[1..] == rest;
  }

  lemma RunOne(env: Env, s: State, step: Step)
    ensures Run(env, s, [step]) == After(env, s, step)
  {
    assert [step][1..] == [];
  }

  lemma {:induction false} RunConcat(env: Env, s: State, a: seq<Step>, b: seq<Step>)
    ensures Run(env, s, a + b) == Run(env, Run(env, s, a), b)
    decreases a
  {
    if a == [] {
      AppendNothing(b);
    } else {
      assert (a + b)[1..] == a[1..] + b;
      RunConcat(env, After(env, s, a[0]), a[1..], b);
    }
  }

  /** An alias of a blocked name at place `n` or later. */
  ghost predicate CloakedFrom(blocks: string -> bool, answer: seq<RecordValue>, n: nat) {
    exists i :: n <= i < |answer| && Cloaks(blocks, answer[i])
  }

  /** The ruling on a response whose first records have passed. */
  ghost function Ruling(env: Env, s: State, got: Given, cloaked: bool, later: int): Service
    requires got.r.questions != []
  {
    if cloaked || Rebinds(env.cfg, Name(got.r), got.answer.answer) then Service(Sinkhole(env.cfg, got.r), s.cache, Some("blocked"))
    else Service(Final(got), AfterSet(env.limits, s.cache, got.r, Final(got), later), Some("forwarded"))
  }

  lemma FromStoring(env: Env, s: State, t: nat, got: Given, later: int) returns (steps: seq<Step>)
    requires Ready(s, t) && s.jobs[t].phase == Storing(got) && s.jobs[t].r == got.r
    ensures Completes(s, Run(env, s, steps), t, got.r,
                      Service(Final(got), AfterSet(env.limits, s.cache, got.r, Final(got), later), Some("forwarded")))
  {
    steps := [Advance(t, later, AllFailed(None))];
    RunOne(env, s, steps[0]);
    FinishCompletes(s, t, Final(got), FromResolver(got));
  }

  lemma FromGuarding(env: Env, s: State, t: nat, got: Given, later: int) returns (steps: seq<Step>)
    requires Ready(s, t) && s.jobs[t].phase == Guarding(got) && s.jobs[t].r == got.r
    ensures Completes(s, Run(env, s, steps), t, got.r, Ruling(env, s, got, false, later))
  {
    var step := Advance(t, later, AllFailed(None));
    if Rebinds(env.cfg, Name(got.r), got.answer.answer) {
      steps := [step];
      RunOne(env, s, step);
      FinishCompletes(s, t, Sinkhole(env.cfg, got.r), Sunk(Rebound(got)));
    } else {
      var next := Goto(s, t, Storing(got));
      var rest := FromStoring(env, next, t, got, later);
      steps := [step] + rest;
      RunCons(env, s, step, rest);
      GotoCompletes(s, t, Storing(got), Run(env, next, rest), got.r, Ruling(env, s, got, false, later));
    }
  }

  lemma CloakedFromNext(blocks: string -> bool, answer: seq<RecordValue>, n: nat)
    requires n <= |answer|
    ensures CloakedFrom(blocks, answer, n) <==> n < |answer| && (Cloaks(blocks, answer[n]) || CloakedFrom(blocks, answer, n + 1))
  {
  }

  /** Entering a phase is part of completing. */
  lemma GotoCompletes(s: State, t: nat, phase: Phase, s': State, r: MessageValue, service: Service)
    requires t in s.jobs && Completes(Goto(s, t, phase), s', t, r, service)
    ensures Completes(s, s', t, r, service)
  {
  }

  lemma {:induction false} FromScreening(env: Env, s: State, t: nat, got: Given, passed: nat, later: int) returns (steps: seq<Step>)
    requires Ready(s, t) && s.jobs[t].phase == Screening(got, passed) && s.jobs[t].r == got.r
    requires passed <= |got.answer.answer|
    ensures Completes(s, Run(env, s, steps), t, got.r,
                      Ruling(env, s, got, CloakedFrom(Current(env, s.tables), got.answer.answer, passed), later))
    decreases |got.answer.answer| - passed
  {
    var answer := got.answer.answer;
    var step := Advance(t, later, AllFailed(None));
    ScreenNextCases(env, s, t, got, passed);
    CloakedFromNext(Current(env, s.tables), answer, passed);
    if passed < |answer| && Cloaks(Current(env, s.tables), answer[passed]) {
      steps := [step];
      RunOne(env, s, step);
      FinishCompletes(s, t, Sinkhole(env.cfg, got.r), Sunk(CloakedBy(got, passed)));
    } else {
      var phase := if passed == |answer| then Guarding(got) else Screening(got, passed + 1);
      var next := Goto(s, t, phase);
      var rest;
      if passed == |answer| {
        rest := FromGuarding(env, next, t, got, later);
      } else {
        rest := FromScreening(env, next, t, got, passed + 1, later);
      }
      steps := [step] + rest;
      RunCons(env, s, step, rest);
      GotoCompletes(s, t, phase, Run(env, next, rest), got.r,
                    Ruling(env, s, got, CloakedFrom(Current(env, s.tables), answer, passed), later));
    }
  }

  lemma FromAsking(env: Env, s: State, t: nat, later: int, upstream: ForwardResult<MessageValue>) returns (steps: seq<Step>)
    requires Ready(s, t) && s.jobs[t].phase == Asking
    ensures Completes(s, Run(env, s, steps), t, s.jobs[t].r,
                      Conclude(env.cfg, Current(env, s.tables), env.limits, s.cache, s.jobs[t].r, later, upstream))
  {
    var r := s.jobs[t].r;
    var step := Advance(t, later, upstream);
    match upstream
    case AllFailed(_) =>
      steps := [step];
      RunOne(env, s, step);
      FinishCompletes(s, t, BareReply(r, RCODE_SERVER_FAILURE), Failure);
    case Response(answer) =>
      var got := Given(r, answer, |s.tables| - 1);
      var s' := s.(given := s.given + {got});
      var rest;
      if env.cfg.cnameUncloaking {
        rest := FromScreening(env, Goto(s', t, Screening(got, 0)), t, got, 0, later);
      } else {
        rest := FromGuarding(env, Goto(s', t, Guarding(got)), t, got, later);
      }
      steps := [step] + rest;
      RunCons(env, s, step, rest);
  }

  lemma FromLooking(env: Env, s: State, t: nat, now: int, later: int, upstream: ForwardResult<MessageValue>) returns (steps: seq<Step>)
    requires Ready(s, t) && s.jobs[t].phase == Looking
    ensures Completes(s, Run(env, s, steps), t, s.jobs[t].r,
                      Resolve(env.cfg, Current(env, s.tables), env.limits, s.cache, s.jobs[t].r, now, later, upstream))
  {
    var r := s.jobs[t].r;
    var step := Advance(t, now, upstream);
    var s' := s.(cache := AfterGet(env.limits, s.cache, r, now));
    match Lookup(env.limits, s.cache, r, now)
    case Some(hit) =>
      steps := [step];
      RunOne(env, s, step);
      FinishCompletes(s', t, hit, FromCache(VettingOf(s.vetted, r)));
    case None =>
      var rest := FromAsking(env, Goto(s', t, Asking), t, later, upstream);
      steps := [step] + rest;
      RunCons(env, s, step, rest);
  }

  lemma FromNaming(env: Env, s: State, t: nat, now: int, later: int, upstream: ForwardResult<MessageValue>) returns (steps: seq<Step>)
    requires Ready(s, t) && s.jobs[t].phase == Naming
    ensures Completes(s, Run(env, s, steps), t, s.jobs[t].r,
                      Serve(env.cfg, Current(env, s.tables), env.limits, s.cache, s.jobs[t].r, now, later, upstream))
  {
    var r := s.jobs[t].r;
    var step := Advance(t, now, upstream);
    if Current(env, s.tables)(Name(r)) {
      steps := [step];
      RunOne(env, s, step);
      FinishCompletes(s, t, Sinkhole(env.cfg, r), Sunk(Listed));
    } else {
      var rest := FromLooking(env, Goto(s, t, Looking), t, now, later, upstream);
      steps := [step] + rest;
      RunCons(env, s, step, rest);
    }
  }

  /** From any state of the machine, an uninterrupted request gets the reply, leaves the cache and logs the
      status that the handler's specification says. */
  lemma ServeIsRun(env: Env, s: State, t: nat, r: MessageValue, now: int, later: int, upstream: ForwardResult<MessageValue>)
    returns (steps: seq<Step>)
    requires t !in s.jobs && s.tables != []
    ensures Completes(s, Run(env, s, steps), t, r,
                      Serve(env.cfg, Current(env, s.tables), env.limits, s.cache, r, now, later, upstream))
  {
    var arrive := Arrive(t, r);
    if r.questions == [] {
      steps := [arrive];
      RunOne(env, s, arrive);
      MalformedCompletes(s, t, r);
    } else {
      var s' := Arrival(s, t, r);
      var rest := FromNaming(env, s', t, now, later, upstream);
      steps := [arrive] + rest;
      RunCons(env, s, arrive, rest);
    }
  }

  lemma MalformedCompletes(s: State, t: nat, r: MessageValue)
    requires t !in s.jobs && s.tables != [] && r.questions == []
    ensures Completes(s, Arrival(s, t, r), t, r, Service(BareReply(r, RCODE_FORMAT_ERROR), s.cache, None))
  {
    FrontOfAppend(s.sent, Last(Arrival(s, t, r).sent));
    assert s.jobs - {t} == s.jobs;
  }

  ghost function FilterEnv(cfg: HandlerConfig, limits: Limits, enabled: bool, lib: RegexLibrary): Env {
    Env(cfg, limits, (table: RuleTable) => Verdict(Filter(enabled, lib, table)))
  }

  /** What `Handlers.Handler.ServeDNS` promises is a run of the machine, with the filter's own verdict. */
  lemma HandlerIsRun(cfg: HandlerConfig, limits: Limits, f: Filter, s: State, t: nat, r: MessageValue,
                     now: int, later: int, upstream: ForwardResult<MessageValue>)
    returns (steps: seq<Step>)
    requires t !in s.jobs && s.tables != [] && Last(s.tables) == f.table
    ensures Completes(s, Run(FilterEnv(cfg, limits, f.enabled, f.lib), s, steps), t, r,
                      Serve(cfg, Verdict(f), limits, s.cache, r, now, later, upstream))
  {
    steps := ServeIsRun(FilterEnv(cfg, limits, f.enabled, f.lib), s, t, r, now, later, upstream);
  }
}

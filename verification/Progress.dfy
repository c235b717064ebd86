/** Requests are neither lost nor answered twice, and each advance brings one nearer to its reply. */
module Progress {
  import opened Text
  import opened Messages
  import opened CacheModel
  import opened Forwarders
  import opened HandlerModel
  import opened Pipeline

  // ---------------------------------------------------------------- one reply for each request

  /** The requests that the steps bring in: those that arrive under a free job number. */
  function Accepted(env: Env, s: State, steps: seq<Step>): nat
    decreases steps
  {
    if steps == [] then 0
    else
      (if steps[0].Arrive? && steps[0].job !in s.jobs && s.tables != [] then 1 else 0) +
      Accepted(env, After(env, s, steps[0]), steps[1..])
  }

  lemma AfterCounts(env: Env, s: State, step: Step)
    ensures var s' := After(env, s, step);
            |s'.jobs| + |s'.sent| == |s.jobs| + |s.sent| + if step.Arrive? && step.job !in s.jobs && s.tables != [] then 1 else 0
  {
    match step
    case Arrive(t, r) => if t !in s.jobs { JobAdded(s.jobs, t, Job(r, if s.tables == [] then 0 else |s.tables| - 1, Naming)); }
    case Reload(_) =>
    case Advance(t, now, upstream) =>
      if Ready(s, t) {
        AdvanceProgresses(env, s, t, now, upstream);
        AdvanceCounts(s, Proceed(env, s, t, now, upstream), t);
      }
  }

  lemma AdvanceCounts(s: State, s': State, t: nat)
    requires Moved(s, s', t) || Ended(s, s', t)
    ensures |s'.jobs| + |s'.sent| == |s.jobs| + |s.sent|
  {
    if Ended(s, s', t) {
      JobRemoved(s.jobs, t);
    } else {
      assert s'.jobs.Keys == s.jobs.Keys;
      assert |s'.jobs| == |s'.jobs.Keys| && |s.jobs| == |s.jobs.Keys|;
    }
  }

  lemma JobAdded(jobs: map<nat, Job>, t: nat, j: Job)
    requires t !in jobs
    ensures |jobs[t := j]| == |jobs| + 1
  {
    assert jobs[t := j].Keys == jobs.Keys + {t};
    assert |jobs| == |jobs.Keys| && |jobs[t := j]| == |jobs[t := j].Keys|;
  }

  lemma JobRemoved(jobs: map<nat, Job>, t: nat)
    requires t in jobs
    ensures |jobs - {t}| == |jobs| - 1
  {
    assert (jobs - {t}).Keys == jobs.Keys - {t};
    assert |jobs.Keys - {t}| == |jobs.Keys| - 1;
    assert |jobs| == |jobs.Keys| && |jobs - {t}| == |(jobs - {t}).Keys|;
  }

  /** Every accepted request is in progress or has been replied to once. */
  lemma {:induction false} RequestsAreConserved(env: Env, s: State, steps: seq<Step>)
    ensures var s' := Run(env, s, steps); |s'.jobs| + |s'.sent| == |s.jobs| + |s.sent| + Accepted(env, s, steps)
    decreases steps
  {
    if steps != [] {
      AfterCounts(env, s, steps[0]);
      RequestsAreConserved(env, After(env, s, steps[0]), steps[1..]);
    }
  }

  /** How far a phase is from the reply. */
  function Rank(phase: Phase): nat {
    match phase
    case Naming => 5
    case Looking => 4
    case Asking => 3
    case Screening(_, _) => 2
    case Guarding(_) => 1
    case Storing(_) => 0
  }

  /** The records still to be screened. */
  function Unscreened(phase: Phase): nat {
    match phase
    case Screening(got, passed) => if passed <= |got.answer.answer| then |got.answer.answer| - passed else 0
    case _ => 0
  }

  predicate Nearer(phase: Phase, phase': Phase) {
    Rank(phase') < Rank(phase) || (Rank(phase') == Rank(phase) && Unscreened(phase') < Unscreened(phase))
  }

  /** The job has come nearer to its reply. */
  predicate Moved(s: State, s': State, t: nat) {
    && t in s.jobs && t in s'.jobs && s'.jobs == s.jobs[t := s'.jobs[t]] && s'.sent == s.sent
    && s'.jobs[t].r == s.jobs[t].r && Nearer(s.jobs[t].phase, s'.jobs[t].phase)
  }

  /** The job has ended with one reply to its request. */
  predicate Ended(s: State, s': State, t: nat) {
    && t in s.jobs && s'.jobs == s.jobs - {t}
    && s'.sent != [] && Front(s'.sent) == s.sent && Last(s'.sent).r == s.jobs[t].r
  }

  lemma GotoMoves(s: State, t: nat, phase: Phase)
    requires t in s.jobs && Nearer(s.jobs[t].phase, phase)
    ensures Moved(s, Goto(s, t, phase), t)
  {
  }

  lemma FinishEnds(s: State, t: nat, reply: MessageValue, source: Source)
    requires t in s.jobs && s.tables != []
    ensures Ended(s, Finish(s, t, reply, source), t)
  {
    FrontOfAppend(s.sent, Sent(s.jobs[t].r, reply, Since(s, t), source));
  }

  lemma LookUpProgresses(env: Env, s: State, t: nat, now: int)
    requires Ready(s, t) && s.jobs[t].phase.Looking?
    ensures Moved(s, LookUp(env, s, t, now), t) || Ended(s, LookUp(env, s, t, now), t)
  {
    var r := s.jobs[t].r;
    var s' := s.(cache := AfterGet(env.limits, s.cache, r, now));
    match Lookup(env.limits, s.cache, r, now)
    case Some(hit) => FinishEnds(s', t, hit, FromCache(VettingOf(s.vetted, r)));
    case None => GotoMoves(s', t, Asking);
  }

  lemma TakeResponseProgresses(env: Env, s: State, t: nat, upstream: ForwardResult<MessageValue>)
    requires Ready(s, t) && s.jobs[t].phase.Asking?
    ensures var s' := TakeResponse(env, s, t, upstream); Moved(s, s', t) || Ended(s, s', t)
  {
    TakeResponseCases(env, s, t, upstream);
    match upstream
    case AllFailed(_) => FinishEnds(s, t, BareReply(s.jobs[t].r, RCODE_SERVER_FAILURE), Failure);
    case Response(answer) =>
      var got := Given(s.jobs[t].r, answer, |s.tables| - 1);
      GotoMoves(s.(given := s.given + {got}), t, if env.cfg.cnameUncloaking then Screening(got, 0) else Guarding(got));
  }

  lemma StoreProgresses(env: Env, s: State, t: nat, got: Given, now: int)
    requires Ready(s, t) && s.jobs[t].phase == Storing(got)
    ensures Ended(s, Store(env, s, t, got, now), t)
  {
    FinishEnds(s, t, Final(got), FromResolver(got));
  }

  /** Each advance of a job replies to its request or brings the job nearer to that, and leaves other jobs
      alone; so a job that keeps advancing ends with its reply. */
  lemma AdvanceProgresses(env: Env, s: State, t: nat, now: int, upstream: ForwardResult<MessageValue>)
    requires Ready(s, t)
    ensures var s' := After(env, s, Advance(t, now, upstream)); Moved(s, s', t) || Ended(s, s', t)
  {
    var r := s.jobs[t].r;
    match s.jobs[t].phase
    case Naming =>
      GotoMoves(s, t, Looking);
      FinishEnds(s, t, Sinkhole(env.cfg, r), Sunk(Listed));
    case Looking => LookUpProgresses(env, s, t, now);
    case Asking => TakeResponseProgresses(env, s, t, upstream);
    case Screening(got, passed) =>
      ScreenNextCases(env, s, t, got, passed);
      GotoMoves(s, t, Guarding(got));
      if passed < |got.answer.answer| { GotoMoves(s, t, Screening(got, passed + 1)); }
      FinishEnds(s, t, Sinkhole(env.cfg, r), Sunk(CloakedBy(got, passed)));
    case Guarding(got) =>
      GotoMoves(s, t, Storing(got));
      FinishEnds(s, t, Sinkhole(env.cfg, r), Sunk(Rebound(got)));
    case Storing(got) => StoreProgresses(env, s, t, got, now);
  }
}

/** Every entry of the cache, and so every reply from it, was forwarded to a client before. */
module Provenance {
  import opened Messages
  import opened CacheModel
  import opened Forwarders
  import opened HandlerModel
  import opened Pipeline

  /** A reply with this response was forwarded when it was vetted so. */
  ghost predicate Forwarded(sent: seq<Sent>, v: Vetting) {
    exists x :: x in sent && x.source == FromResolver(v.got) && x.window == Window(v.since, v.stored)
  }

  ghost predicate Backed(s: State) {
    && (forall k :: k in s.vetted ==> Forwarded(s.sent, s.vetted[k]))
    && (forall x :: x in s.sent && x.source.FromCache? ==> Forwarded(s.sent, x.source.vetting))
  }

  lemma ForwardedStays(sent: seq<Sent>, x: Sent, v: Vetting)
    requires Forwarded(sent, v)
    ensures Forwarded(sent + [x], v)
  {
    var y :| y in sent && y.source == FromResolver(v.got) && y.window == Window(v.since, v.stored);
    assert y in sent + [x];
  }

  /** Appending a reply, with what it forwards newly vetted or not. */
  lemma BackedAppend(s: State, s': State, x: Sent)
    requires Backed(s) && s'.sent == s.sent + [x]
    requires forall k :: k in s'.vetted ==>
      (k in s.vetted && s'.vetted[k] == s.vetted[k]) ||
      (x.source == FromResolver(s'.vetted[k].got) && x.window == Window(s'.vetted[k].since, s'.vetted[k].stored))
    requires x.source.FromCache? ==> Forwarded(s.sent, x.source.vetting)
    ensures Backed(s')
  {
    forall k | k in s'.vetted ensures Forwarded(s'.sent, s'.vetted[k]) {
      if k in s.vetted && s'.vetted[k] == s.vetted[k] {
        ForwardedStays(s.sent, x, s.vetted[k]);
      } else {
        assert x in s'.sent;
      }
    }
    forall y | y in s'.sent && y.source.FromCache? ensures Forwarded(s'.sent, y.source.vetting) {
      ForwardedStays(s.sent, x, y.source.vetting);
    }
  }

  lemma BackedFinish(s: State, t: nat, reply: MessageValue, source: Source)
    requires Backed(s) && t in s.jobs && s.tables != []
    requires source.FromCache? ==> Forwarded(s.sent, source.vetting)
    ensures Backed(Finish(s, t, reply, source))
  {
    BackedAppend(s, Finish(s, t, reply, source), Sent(s.jobs[t].r, reply, Since(s, t), source));
  }

  lemma BackedLookUp(env: Env, s: State, t: nat, now: int)
    requires Inv(env, s) && Backed(s) && Ready(s, t)
    ensures Backed(LookUp(env, s, t, now))
  {
    var r := s.jobs[t].r;
    var s' := s.(cache := AfterGet(env.limits, s.cache, r, now));
    match Lookup(env.limits, s.cache, r, now)
    case Some(hit) =>
      var e := s.cache[Find(s.cache, MakeKey(r.questions[0]))];
      assert e in s.cache && EntryOk(env, Past(s), s.vetted, e);
      BackedFinish(s', t, hit, FromCache(VettingOf(s.vetted, r)));
    case None =>
  }

  lemma BackedTakeResponse(env: Env, s: State, t: nat, upstream: ForwardResult<MessageValue>)
    requires Backed(s) && Ready(s, t)
    ensures Backed(TakeResponse(env, s, t, upstream))
  {
    TakeResponseCases(env, s, t, upstream);
    if upstream.AllFailed? {
      BackedFinish(s, t, BareReply(s.jobs[t].r, RCODE_SERVER_FAILURE), Failure);
    }
  }

  lemma BackedStore(env: Env, s: State, t: nat, got: Given, now: int)
    requires Backed(s) && Ready(s, t)
    ensures Backed(Store(env, s, t, got, now))
  {
    BackedAppend(s, Store(env, s, t, got, now), Sent(s.jobs[t].r, Final(got), Since(s, t), FromResolver(got)));
  }

  lemma BackedProceed(env: Env, s: State, t: nat, now: int, upstream: ForwardResult<MessageValue>)
    requires Inv(env, s) && Backed(s) && Ready(s, t)
    ensures Backed(Proceed(env, s, t, now, upstream))
  {
    var r := s.jobs[t].r;
    match s.jobs[t].phase
    case Naming => BackedFinish(s, t, Sinkhole(env.cfg, r), Sunk(Listed));
    case Looking => BackedLookUp(env, s, t, now);
    case Asking => BackedTakeResponse(env, s, t, upstream);
    case Screening(got, passed) =>
      ScreenNextCases(env, s, t, got, passed);
      BackedFinish(s, t, Sinkhole(env.cfg, r), Sunk(CloakedBy(got, passed)));
    case Guarding(got) => BackedFinish(s, t, Sinkhole(env.cfg, r), Sunk(Rebound(got)));
    case Storing(got) => BackedStore(env, s, t, got, now);
  }

  lemma BackedStep(env: Env, s: State, step: Step)
    requires Inv(env, s) && Backed(s)
    ensures Backed(After(env, s, step))
  {
    match step
    case Reload(_) =>
    case Arrive(t, r) =>
      if t !in s.jobs && r.questions == [] {
        var now := |s.tables| - 1;
        BackedAppend(s, Arrival(s, t, r), Sent(r, BareReply(r, RCODE_FORMAT_ERROR), Window(now, now), Malformed));
      }
    case Advance(t, now, upstream) => if Ready(s, t) { BackedProceed(env, s, t, now, upstream); }
  }

  lemma {:induction false} BackedRun(env: Env, s: State, steps: seq<Step>)
    requires Inv(env, s) && Backed(s)
    ensures Backed(Run(env, s, steps))
    decreases steps
  {
    if steps != [] {
      AfterKeeps(env, s, steps[0]);
      BackedStep(env, s, steps[0]);
      BackedRun(env, After(env, s, steps[0]), steps[1..]);
    }
  }

  /** In every run a reply from the cache repeats the response of a forwarded one, and was vetted exactly
      when that was: between its arrival and its sending. */
  lemma HitWasForwarded(env: Env, s: State, x: Sent)
    requires Reachable(env, s) && x in s.sent && x.source.FromCache?
    ensures Forwarded(s.sent, x.source.vetting)
  {
    var steps :| s == Run(env, INITIAL, steps);
    BackedRun(env, INITIAL, steps);
  }
}

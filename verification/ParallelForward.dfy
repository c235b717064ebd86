/** The concurrent fan-out as a step system: one worker per resolver, a channel buffered for all of
    them, and a receiver that may return early. */
module ParallelForward {
  import opened Text
  import opened Forwarders

  datatype Receiver<R> = Receiving | Returned(result: ForwardResult<R>)

  /** Workers still exchanging, results buffered in the channel, results received. */
  datatype State<R> = State(running: set<nat>, channel: seq<nat>, consumed: seq<nat>, receiver: Receiver<R>)

  datatype Step = Send(worker: nat) | Receive

  ghost predicate Init<R>(s: State<R>, n: nat) {
    s == State(Workers(n), [], [], Receiving)
  }

  /** A send needs room in the channel; a receive needs something in it. */
  predicate Enabled<R>(s: State<R>, step: Step, n: nat) {
    match step
    case Send(w) => w in s.running && |s.channel| < n
    case Receive => s.receiver.Receiving? && s.channel != []
  }

  function AfterStep<R>(s: State<R>, step: Step, outcomes: seq<Outcome<R>>): State<R>
    requires Enabled(s, step, |outcomes|)
  {
    match step
    case Send(w) => s.(running := s.running - {w}, channel := s.channel + [w])
    case Receive =>
      var w := s.channel[0];
      var consumed := s.consumed + [w];
      s.(channel := s.channel[1..], consumed := consumed,
         receiver :=
           if w < |outcomes| && outcomes[w].Answered? then Returned(Response(outcomes[w].resp))
           else if |consumed| >= |outcomes| then Returned(AllFailed(if w < |outcomes| then ErrorOf(outcomes[w]) else None))
           else Receiving)
  }

  ghost predicate Next<R>(s: State<R>, step: Step, s': State<R>, outcomes: seq<Outcome<R>>) {
    Enabled(s, step, |outcomes|) && s' == AfterStep(s, step, outcomes)
  }

  ghost predicate Reaches<R(!new)>(steps: seq<Step>, s: State<R>, outcomes: seq<Outcome<R>>) {
    if steps == [] then Init(s, |outcomes|)
    else exists before :: Reaches(Front(steps), before, outcomes) && Next(before, Last(steps), s, outcomes)
  }

  // ---------------------------------------------------------------- the invariant

  /** Every worker's result is somewhere, and the three places hold one result per resolver. */
  ghost predicate Conserved<R>(s: State<R>, n: nat) {
    && |s.running| + |s.channel| + |s.consumed| == n
    && (forall w :: w in Workers(n) ==> w in s.running || w in s.channel || w in s.consumed)
    && s.running <= Workers(n)
    && (forall i :: 0 <= i < |s.channel| ==> s.channel[i] < n)
  }

  ghost predicate ReceiverOk<R(!new)>(s: State<R>, outcomes: seq<Outcome<R>>) {
    match s.receiver
    case Receiving => |s.consumed| < |outcomes| && AllRefused(s.consumed, outcomes)
    case Returned(Response(resp)) => exists w :: 0 <= w < |outcomes| && outcomes[w] == Answered(resp)
    case Returned(AllFailed(e)) =>
      |s.consumed| == |outcomes| && AllRefused(s.consumed, outcomes) && SomeError(outcomes, e)
  }

  ghost predicate AllRefused<R>(consumed: seq<nat>, outcomes: seq<Outcome<R>>) {
    forall w :: w in consumed ==> w < |outcomes| && !outcomes[w].Answered?
  }

  lemma ConservedStep<R>(s: State<R>, step: Step, outcomes: seq<Outcome<R>>)
    requires Conserved(s, |outcomes|) && Enabled(s, step, |outcomes|)
    ensures Conserved(AfterStep(s, step, outcomes), |outcomes|)
  {
    if step.Receive? {
      assert s.channel == [s.channel[0]] + s.channel[1..];
    }
  }

  lemma ReceiverStep<R(!new)>(s: State<R>, step: Step, outcomes: seq<Outcome<R>>)
    requires Conserved(s, |outcomes|) && ReceiverOk(s, outcomes) && Enabled(s, step, |outcomes|)
    ensures ReceiverOk(AfterStep(s, step, outcomes), outcomes)
  {
  }

  lemma {:induction false} Invariant<R(!new)>(steps: seq<Step>, s: State<R>, outcomes: seq<Outcome<R>>)
    requires outcomes != [] && Reaches(steps, s, outcomes)
    ensures Conserved(s, |outcomes|) && ReceiverOk(s, outcomes)
  {
    if steps != [] {
      var before :| Reaches(Front(steps), before, outcomes) && Next(before, Last(steps), s, outcomes);
      Invariant(Front(steps), before, outcomes);
      ConservedStep(before, Last(steps), outcomes);
      ReceiverStep(before, Last(steps), outcomes);
    }
  }

  // ---------------------------------------------------------------- the results

  /** No worker ever blocks on its send, not even after the receiver has returned early. */
  lemma SendNeverBlocks<R(!new)>(steps: seq<Step>, s: State<R>, outcomes: seq<Outcome<R>>, w: nat)
    requires outcomes != [] && Reaches(steps, s, outcomes) && w in s.running
    ensures Enabled(s, Send(w), |outcomes|)
  {
    Invariant(steps, s, outcomes);
    assert s.running != {};
  }

  /** The receiver never waits with nothing to come. */
  lemma ReceiveNeverStarves<R(!new)>(steps: seq<Step>, s: State<R>, outcomes: seq<Outcome<R>>)
    requires outcomes != [] && Reaches(steps, s, outcomes) && s.receiver.Receiving?
    ensures s.channel != [] || s.running != {}
  {
    Invariant(steps, s, outcomes);
  }

  /** What the receiver returns: a response of some resolver, or a failure when all have failed. */
  lemma ReturnedIsRight<R(!new)>(steps: seq<Step>, s: State<R>, outcomes: seq<Outcome<R>>)
    requires outcomes != [] && Reaches(steps, s, outcomes) && s.receiver.Returned?
    ensures SomeResponse(outcomes, s.receiver.result)
  {
    Invariant(steps, s, outcomes);
    if s.receiver.result.AllFailed? {
      assert s.running == {} && s.channel == [];
      assert forall w :: 0 <= w < |outcomes| ==> w in s.consumed;
    }
  }

  /** Every step uses up work, so runs are finite: at most two steps per resolver. */
  lemma {:induction false} RunsAreShort<R(!new)>(steps: seq<Step>, s: State<R>, outcomes: seq<Outcome<R>>)
    requires outcomes != [] && Reaches(steps, s, outcomes)
    ensures |steps| + 2 * |s.running| + |s.channel| == 2 * |outcomes|
  {
    if steps != [] {
      var before :| Reaches(Front(steps), before, outcomes) && Next(before, Last(steps), s, outcomes);
      RunsAreShort(Front(steps), before, outcomes);
    }
  }

  /** When no step is possible any more, every worker has finished and the receiver has returned. */
  lemma StuckIsDone<R(!new)>(steps: seq<Step>, s: State<R>, outcomes: seq<Outcome<R>>)
    requires outcomes != [] && Reaches(steps, s, outcomes)
    requires forall step :: !Enabled(s, step, |outcomes|)
    ensures s.running == {} && s.receiver.Returned? && SomeResponse(outcomes, s.receiver.result)
  {
    if w :| w in s.running { SendNeverBlocks(steps, s, outcomes, w); }
    assert !Enabled(s, Receive, |outcomes|);
    if s.receiver.Receiving? {
      ReceiveNeverStarves(steps, s, outcomes);
    } else {
      ReturnedIsRight(steps, s, outcomes);
    }
  }
}

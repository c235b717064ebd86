/** Reloads interleaved with queries. Snapshots live in a growing store; a reload fills a fresh one in
    place, batch by batch, and publishes it with one pointer store; a query starts, loads the pointer once
    and answers later from what it loaded. */
module SnapshotSwap {
  import opened Text
  import opened FilterRules

  /** What a snapshot is loaded from: its whitelist, blacklist and compiled expressions. */
  datatype Source = Source(white: seq<Pattern>, black: seq<Pattern>, regexes: seq<string>)

  /** A reload in progress: the slot it fills and the fetched batches not yet merged. */
  datatype Reload = Idle | Filling(slot: nat, pending: seq<seq<Pattern>>)

  /** A query, with the times at which it started and loaded the pointer. */
  datatype Reader =
    | Asked(domain: string, start: nat)
    | Loaded(domain: string, start: nat, slot: nat, at: nat)

  datatype Answer = Answer(reader: nat, domain: string, slot: nat, blocked: bool, start: nat, at: nat, end: nat)

  ghost predicate Complete(t: RuleTable, src: Source) {
    Represents(t, src.white, src.black, src.regexes)
  }

  /** `time` counts the steps taken. */
  datatype State = State(
    time: nat,
    store: seq<RuleTable>,
    sources: seq<Source>,
    published: nat,
    reload: Reload,
    readers: map<nat, Reader>,
    answers: seq<Answer>)

  const EMPTY_SOURCE := Source([], [], [])

  ghost predicate Init(s: State) {
    s == State(0, [EMPTY_TABLE], [EMPTY_SOURCE], 0, Idle, map[], [])
  }

  datatype Step =
    | Begin(white: seq<Pattern>, local: seq<Pattern>, batches: seq<seq<Pattern>>, regexes: seq<string>)
    | Merge(i: nat)
    | Publish
    | Start(reader: nat, domain: string)
    | Load(reader: nat)
    | Reply(reader: nat)

  function MergeInto(t: RuleTable, batch: seq<Pattern>): RuleTable {
    t.(blackExact := t.blackExact + NamesOf(batch), blackRules := t.blackRules + RulesOf(batch))
  }

  function Counted(t: RuleTable): RuleTable {
    t.(totalRules := |t.blackExact| + |t.blackRules| + |t.regexes|)
  }

  ghost predicate Next(s: State, step: Step, s': State, lib: RegexLibrary) {
    match step
    case Begin(white, local, batches, regexes) =>
      && s.reload == Idle   // the reload mutex
      && s' == s.(
           time := s.time + 1,
           store := s.store + [RuleTable(NamesOf(white), RulesOf(white), NamesOf(local), RulesOf(local), regexes, 0)],
           sources := s.sources + [Source(white, local + Flatten(batches), regexes)],
           reload := Filling(|s.store|, batches))
    case Merge(i) =>
      && s.reload.Filling? && i < |s.reload.pending| && s.reload.slot < |s.store|
      && s' == s.(
           time := s.time + 1,
           store := s.store[s.reload.slot := MergeInto(s.store[s.reload.slot], s.reload.pending[i])],
           reload := Filling(s.reload.slot, Drop(s.reload.pending, i)))
    case Publish =>
      && s.reload.Filling? && s.reload.pending == [] && s.reload.slot < |s.store|
      && s' == s.(
           time := s.time + 1,
           store := s.store[s.reload.slot := Counted(s.store[s.reload.slot])],
           published := s.reload.slot,
           reload := Idle)
    case Start(reader, domain) =>
      && reader !in s.readers
      && s' == s.(time := s.time + 1, readers := s.readers[reader := Asked(domain, s.time)])
    case Load(reader) =>
      && reader in s.readers && s.readers[reader].Asked?
      && var r := s.readers[reader];
      && s' == s.(time := s.time + 1, readers := s.readers[reader := Loaded(r.domain, r.start, s.published, s.time)])
    case Reply(reader) =>
      && reader in s.readers && s.readers[reader].Loaded? && s.readers[reader].slot < |s.store|
      && s' == s.(
           time := s.time + 1,
           readers := s.readers - {reader},
           answers := s.answers + [AnswerOf(s, reader, lib)])
  }

  ghost function AnswerOf(s: State, reader: nat, lib: RegexLibrary): Answer
    requires reader in s.readers && s.readers[reader].Loaded? && s.readers[reader].slot < |s.store|
  {
    var r := s.readers[reader];
    Answer(reader, r.domain, r.slot, TableBlocks(s.store[r.slot], lib, r.domain), r.start, r.at, s.time)
  }

  // ---------------------------------------------------------------- the invariant

  /** The slot being filled holds what has been merged so far: with the pending batches it amounts to
      its source. */
  ghost predicate Partial(t: RuleTable, src: Source, pending: seq<seq<Pattern>>) {
    && t.whiteExact == NamesOf(src.white) && multiset(t.whiteRules) == multiset(RulesOf(src.white))
    && t.blackExact + NamesOf(Flatten(pending)) == NamesOf(src.black)
    && multiset(t.blackRules) + multiset(RulesOf(Flatten(pending))) == multiset(RulesOf(src.black))
    && t.regexes == src.regexes
  }

  /** The slot exists and is not the one that a reload is writing to. */
  predicate Frozen(k: nat, size: nat, reload: Reload) {
    k < size && (reload.Filling? ==> k != reload.slot)
  }

  ghost predicate StoreOk(store: seq<RuleTable>, sources: seq<Source>, reload: Reload) {
    && |sources| == |store|
    && (forall k: nat :: Frozen(k, |store|, reload) ==> Complete(store[k], sources[k]))
    && (reload.Filling? ==> reload.slot < |store| && Partial(store[reload.slot], sources[reload.slot], reload.pending))
  }

  ghost predicate LoadedOk(published: nat, readers: map<nat, Reader>, size: nat, reload: Reload) {
    && Frozen(published, size, reload)
    && forall r :: r in readers && readers[r].Loaded? ==> Frozen(readers[r].slot, size, reload)
  }

  /** The answer is that of one complete snapshot. */
  ghost predicate Faithful(a: Answer, sources: seq<Source>, lib: RegexLibrary) {
    && a.slot < |sources|
    && var src := sources[a.slot];
    && (a.blocked <==> FlatBlocked(src.white, src.black, src.regexes, lib, a.domain))
  }

  ghost predicate AnswersOk(answers: seq<Answer>, sources: seq<Source>, lib: RegexLibrary) {
    forall i :: 0 <= i < |answers| ==> Faithful(answers[i], sources, lib)
  }

  ghost predicate Inv(s: State, lib: RegexLibrary) {
    && StoreOk(s.store, s.sources, s.reload)
    && LoadedOk(s.published, s.readers, |s.store|, s.reload)
    && AnswersOk(s.answers, s.sources, lib)
  }

  lemma InitInv(s: State, lib: RegexLibrary)
    requires Init(s)
    ensures Inv(s, lib)
  {
    PartsOfNothing();
  }

  lemma BeginPartial(white: seq<Pattern>, local: seq<Pattern>, batches: seq<seq<Pattern>>, regexes: seq<string>)
    ensures Partial(RuleTable(NamesOf(white), RulesOf(white), NamesOf(local), RulesOf(local), regexes, 0),
                    Source(white, local + Flatten(batches), regexes), batches)
  {
    PartsConcat(local, Flatten(batches));
  }

  lemma MergePartial(t: RuleTable, src: Source, pending: seq<seq<Pattern>>, i: nat)
    requires i < |pending| && Partial(t, src, pending)
    ensures Partial(MergeInto(t, pending[i]), src, Drop(pending, i))
  {
    FlattenRemove(pending, i);
    PartsConcat(pending[i], Flatten(Drop(pending, i)));
  }

  lemma PublishComplete(t: RuleTable, src: Source)
    requires Partial(t, src, [])
    ensures Complete(Counted(t), src)
  {
    PartsOfNothing();
    assert |multiset(t.blackRules)| == |multiset(RulesOf(src.black))|;
  }

  lemma BeginStore(store: seq<RuleTable>, sources: seq<Source>, t: RuleTable, src: Source, batches: seq<seq<Pattern>>)
    requires StoreOk(store, sources, Idle) && Partial(t, src, batches)
    ensures StoreOk(store + [t], sources + [src], Filling(|store|, batches))
  {
    var after, reload := store + [t], Filling(|store|, batches);
    forall k: nat | Frozen(k, |after|, reload) ensures Complete(after[k], (sources + [src])[k]) {
      assert Frozen(k, |store|, Idle);
    }
  }

  lemma WriteStore(store: seq<RuleTable>, sources: seq<Source>, reload: Reload, t: RuleTable, reload': Reload)
    requires StoreOk(store, sources, reload) && reload.Filling?
    requires if reload'.Filling? then reload'.slot == reload.slot && Partial(t, sources[reload.slot], reload'.pending)
             else Complete(t, sources[reload.slot])
    ensures StoreOk(store[reload.slot := t], sources, reload')
  {
    var after := store[reload.slot := t];
    forall k: nat | Frozen(k, |after|, reload') ensures Complete(after[k], sources[k]) {
      if k != reload.slot { assert Frozen(k, |store|, reload); }
    }
  }

  lemma GrowAnswers(answers: seq<Answer>, sources: seq<Source>, src: Source, lib: RegexLibrary)
    requires AnswersOk(answers, sources, lib)
    ensures AnswersOk(answers, sources + [src], lib)
  {
    forall i | 0 <= i < |answers| ensures Faithful(answers[i], sources + [src], lib) {
      assert Faithful(answers[i], sources, lib);
      assert (sources + [src])[answers[i].slot] == sources[answers[i].slot];
    }
  }

  lemma NewAnswer(s: State, reader: nat, lib: RegexLibrary)
    requires Inv(s, lib) && reader in s.readers && s.readers[reader].Loaded?
    ensures s.readers[reader].slot < |s.store| && Faithful(AnswerOf(s, reader, lib), s.sources, lib)
  {
    var r := s.readers[reader];
    assert Frozen(r.slot, |s.store|, s.reload);
    var src := s.sources[r.slot];
    RepresentsMeaning(s.store[r.slot], src.white, src.black, src.regexes, lib, r.domain);
  }

  lemma NextInv(s: State, step: Step, s': State, lib: RegexLibrary)
    requires Inv(s, lib) && Next(s, step, s', lib)
    ensures Inv(s', lib)
  {
    match step
    case Begin(white, local, batches, regexes) =>
      var t, src := Last(s'.store), Last(s'.sources);
      BeginPartial(white, local, batches, regexes);
      BeginStore(s.store, s.sources, t, src, batches);
      GrowAnswers(s.answers, s.sources, src, lib);
    case Merge(i) =>
      var slot := s.reload.slot;
      MergePartial(s.store[slot], s.sources[slot], s.reload.pending, i);
      WriteStore(s.store, s.sources, s.reload, MergeInto(s.store[slot], s.reload.pending[i]), s'.reload);
    case Publish =>
      var slot := s.reload.slot;
      PublishComplete(s.store[slot], s.sources[slot]);
      WriteStore(s.store, s.sources, s.reload, Counted(s.store[slot]), Idle);
    case Start(_, _) =>
    case Load(_) =>
    case Reply(reader) => NewAnswer(s, reader, lib);
  }

  // ---------------------------------------------------------------- runs

  /** The steps lead from the initial state to `s`. */
  ghost predicate Reaches(steps: seq<Step>, s: State, lib: RegexLibrary) {
    if steps == [] then Init(s)
    else exists before :: Reaches(Front(steps), before, lib) && Next(before, Last(steps), s, lib)
  }

  lemma {:induction false} ReachesInv(steps: seq<Step>, s: State, lib: RegexLibrary)
    requires Reaches(steps, s, lib)
    ensures Inv(s, lib)
  {
    if steps == [] {
      InitInv(s, lib);
    } else {
      var before :| Reaches(Front(steps), before, lib) && Next(before, Last(steps), s, lib);
      ReachesInv(Front(steps), before, lib);
      NextInv(before, Last(steps), s, lib);
    }
  }

  // ---------------------------------------------------------------- which snapshot is in force

  /** What the reload in progress is given, read off the steps. */
  function Begun(steps: seq<Step>): Option<Source> {
    if steps == [] then None
    else
      match Last(steps)
      case Begin(white, local, batches, regexes) => Some(Source(white, local + Flatten(batches), regexes))
      case Publish => None
      case _ => Begun(Front(steps))
  }

  /** What the most recent completed reload was given, read off the steps. */
  function InForce(steps: seq<Step>): Source {
    if steps == [] then EMPTY_SOURCE
    else
      match Last(steps)
      case Publish => if Begun(Front(steps)).Some? then Begun(Front(steps)).value else InForce(Front(steps))
      case _ => InForce(Front(steps))
  }

  /** The source in force when the `at`-th step was about to be taken. */
  ghost predicate InForceAt(steps: seq<Step>, at: nat, slot: nat, sources: seq<Source>) {
    at < |steps| && slot < |sources| && sources[slot] == InForce(steps[..at])
  }

  ghost predicate ReaderTimed(steps: seq<Step>, id: nat, r: Reader, sources: seq<Source>) {
    && r.start < |steps| && steps[r.start] == Start(id, r.domain)
    && (r.Loaded? ==> r.start < r.at && InForceAt(steps, r.at, r.slot, sources))
  }

  ghost predicate AnswerTimed(steps: seq<Step>, a: Answer, sources: seq<Source>) {
    && a.start < a.at < a.end < |steps|
    && steps[a.start] == Start(a.reader, a.domain) && steps[a.end] == Reply(a.reader)
    && InForceAt(steps, a.at, a.slot, sources)
  }

  ghost predicate PublishedTimed(steps: seq<Step>, s: State) {
    && s.time == |steps|
    && s.published < |s.sources| && s.sources[s.published] == InForce(steps)
    && (s.reload.Filling? ==> s.reload.slot < |s.sources| && Begun(steps) == Some(s.sources[s.reload.slot]))
  }

  ghost predicate ReadersTimed(steps: seq<Step>, readers: map<nat, Reader>, sources: seq<Source>) {
    forall id :: id in readers ==> ReaderTimed(steps, id, readers[id], sources)
  }

  ghost predicate AnswersTimed(steps: seq<Step>, answers: seq<Answer>, sources: seq<Source>) {
    forall i :: 0 <= i < |answers| ==> AnswerTimed(steps, answers[i], sources)
  }

  /** Time goes on and sources are only added. */
  lemma InForceStays(steps: seq<Step>, at: nat, slot: nat, sources: seq<Source>, sources': seq<Source>)
    requires steps != [] && sources <= sources' && InForceAt(Front(steps), at, slot, sources)
    ensures InForceAt(steps, at, slot, sources')
  {
    assert Front(steps)[..at] == steps[..at];
  }

  lemma ReadersStay(steps: seq<Step>, readers: map<nat, Reader>, sources: seq<Source>, sources': seq<Source>)
    requires steps != [] && sources <= sources' && ReadersTimed(Front(steps), readers, sources)
    ensures ReadersTimed(steps, readers, sources')
  {
    forall id | id in readers ensures ReaderTimed(steps, id, readers[id], sources') {
      var r := readers[id];
      assert ReaderTimed(Front(steps), id, r, sources);
      if r.Loaded? { InForceStays(steps, r.at, r.slot, sources, sources'); }
    }
  }

  lemma AnswersStay(steps: seq<Step>, answers: seq<Answer>, sources: seq<Source>, sources': seq<Source>)
    requires steps != [] && sources <= sources' && AnswersTimed(Front(steps), answers, sources)
    ensures AnswersTimed(steps, answers, sources')
  {
    forall i | 0 <= i < |answers| ensures AnswerTimed(steps, answers[i], sources') {
      var a := answers[i];
      assert AnswerTimed(Front(steps), a, sources);
      InForceStays(steps, a.at, a.slot, sources, sources');
    }
  }

  lemma ReadersStep(steps: seq<Step>, s: State, s': State, lib: RegexLibrary)
    requires steps != [] && Next(s, Last(steps), s', lib)
    requires PublishedTimed(Front(steps), s) && ReadersTimed(Front(steps), s.readers, s.sources)
    ensures ReadersTimed(steps, s'.readers, s'.sources)
  {
    ReadersStay(steps, s.readers, s.sources, s'.sources);
    if Last(steps).Load? {
      var r := s'.readers[Last(steps).reader];
      assert ReaderTimed(steps, Last(steps).reader, s.readers[Last(steps).reader], s.sources);
      assert steps[..r.at] == Front(steps);
    }
  }

  lemma AnswersStep(steps: seq<Step>, s: State, s': State, lib: RegexLibrary)
    requires steps != [] && Next(s, Last(steps), s', lib) && s.time == |steps| - 1
    requires ReadersTimed(Front(steps), s.readers, s.sources) && AnswersTimed(Front(steps), s.answers, s.sources)
    ensures AnswersTimed(steps, s'.answers, s'.sources)
  {
    ReadersStay(steps, s.readers, s.sources, s'.sources);
    AnswersStay(steps, s.answers, s.sources, s'.sources);
    if Last(steps).Reply? {
      var id := Last(steps).reader;
      assert ReaderTimed(Front(steps), id, s.readers[id], s.sources) && ReaderTimed(steps, id, s.readers[id], s.sources);
    }
  }

  lemma {:induction false} ReachesTimed(steps: seq<Step>, s: State, lib: RegexLibrary)
    requires Reaches(steps, s, lib)
    ensures PublishedTimed(steps, s) && ReadersTimed(steps, s.readers, s.sources) && AnswersTimed(steps, s.answers, s.sources)
  {
    if steps != [] {
      var before :| Reaches(Front(steps), before, lib) && Next(before, Last(steps), s, lib);
      ReachesTimed(Front(steps), before, lib);
      ReachesInv(Front(steps), before, lib);
      ReadersStep(steps, before, s, lib);
      AnswersStep(steps, before, s, lib);
    }
  }

  /** A reload takes effect when it publishes: what is published is, at any moment, a complete snapshot of
      what the most recent completed reload was given. */
  lemma PublishedIsInForce(steps: seq<Step>, s: State, lib: RegexLibrary)
    requires Reaches(steps, s, lib)
    ensures s.published < |s.store| && Complete(s.store[s.published], InForce(steps))
  {
    ReachesTimed(steps, s, lib);
    ReachesInv(steps, s, lib);
    assert Frozen(s.published, |s.store|, s.reload);
  }

  /** In every interleaving of reloads and queries, each answer is the flat verdict of the source that was
      in force at one moment between the start of its query and its reply. */
  lemma AnswersAreAtomic(steps: seq<Step>, s: State, lib: RegexLibrary, i: nat)
    requires Reaches(steps, s, lib) && i < |s.answers|
    ensures var a := s.answers[i];
            && a.start < a.at < a.end < |steps|
            && steps[a.start] == Start(a.reader, a.domain) && steps[a.end] == Reply(a.reader)
            && var src := InForce(steps[..a.at]);
            && (a.blocked <==> FlatBlocked(src.white, src.black, src.regexes, lib, a.domain))
  {
    ReachesInv(steps, s, lib);
    ReachesTimed(steps, s, lib);
    assert Faithful(s.answers[i], s.sources, lib);
    assert AnswerTimed(steps, s.answers[i], s.sources);
  }

  /** What a query has loaded, and what is published, is never written again. */
  lemma LoadedNeverChanges(steps: seq<Step>, s: State, step: Step, s': State, lib: RegexLibrary)
    requires Reaches(steps, s, lib) && Next(s, step, s', lib)
    ensures s.published < |s.store| && s'.store[s.published] == s.store[s.published]
    ensures forall r :: r in s.readers && s.readers[r].Loaded? ==>
      s.readers[r].slot < |s.store| && s'.store[s.readers[r].slot] == s.store[s.readers[r].slot]
  {
    ReachesInv(steps, s, lib);
    assert forall r :: r in s.readers && s.readers[r].Loaded? ==> Frozen(s.readers[r].slot, |s.store|, s.reload);
  }
}

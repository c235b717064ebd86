/** Which client's spelling of a name a reply carries. */
module Spelling {
  import opened Text
  import opened Messages
  import opened FilterRules
  import opened CacheModel
  import opened Forwarders
  import opened HandlerModel
  import opened Pipeline
  import opened SequentialRuns

  function Ask(name: string): MessageValue {
    MessageValue(0, Header(false, 0, false, false, true, false, false, false, RCODE_SUCCESS),
                 [Question(name, TYPE_A, CLASS_INET)], [], [], [])
  }

  function Tell(name: string): MessageValue {
    MessageValue(0, Header(true, 0, false, false, true, true, false, false, RCODE_SUCCESS),
                 [Question(name, TYPE_A, CLASS_INET)], [RecordValue(name, CLASS_INET, 60, Other([]))], [], [])
  }

  lemma Stored(l: Limits, name: string)
    requires WellFormed(l) && l.enabled
    ensures AfterSet(l, [], Ask(name), Tell(name), 0) == [EntryFor(l, Ask(name), Tell(name), 0)]
  {
    var rr := RecordValue(name, CLASS_INET, 60, Other([]));
    assert AllRecords(Tell(name)) == [rr];
    assert Front([rr]) == [] && Last([rr]) == rr;
    assert LeastTTL([rr]) == Some(60);
  }

  lemma Found(l: Limits, first: string, second: string, e: Entry)
    requires l.enabled && e == EntryFor(l, Ask(first), Tell(first), 0) && CanonicalName(first) == CanonicalName(second)
    ensures Hits(l, [e], Ask(second), 0)
    ensures Lookup(l, [e], Ask(second), 0).value.questions == [Question(first, TYPE_A, CLASS_INET)]
  {
    assert Find([e], e.key) == 0;
  }

  /** Two clients ask in turn, spelling a name differently: the second is answered from the cache in the
      first one's spelling. */
  lemma SpeltByFirst(env: Env, first: string, second: string) returns (steps: seq<Step>, x: Sent)
    requires WellFormed(env.limits) && env.limits.enabled && ToLower(first) == ToLower(second)
    requires !env.verdict(EMPTY_TABLE)(CanonicalName(first))
    ensures x in Run(env, INITIAL, steps).sent && x.source.FromCache? && x.r == Ask(second)
    ensures x.reply.questions == [Question(first, TYPE_A, CLASS_INET)]
  {
    CanonicalIgnoresCase(first, second);
    var one := ServeIsRun(env, INITIAL, 0, Ask(first), 0, 0, Response(Tell(first)));
    var s := Run(env, INITIAL, one);
    assert Restored(Tell(first), Ask(first)).(id := 0) == Tell(first);
    assert !Refused(env.cfg, Current(env, INITIAL.tables), CanonicalName(first), Tell(first).answer);
    Stored(env.limits, first);
    Found(env.limits, first, second, s.cache[0]);
    var two := ServeIsRun(env, s, 0, Ask(second), 0, 0, AllFailed(None));
    steps := one + two;
    RunConcat(env, INITIAL, one, two);
    x := Last(Run(env, s, two).sent);
  }

  /** For instance, whatever the configuration, as long as the cache is on. */
  lemma SpeltInCapitals(cfg: HandlerConfig, limits: Limits, enabled: bool, lib: RegexLibrary) returns (steps: seq<Step>, x: Sent)
    requires WellFormed(limits) && limits.enabled
    ensures var env := FilterEnv(cfg, limits, enabled, lib);
            && x in Run(env, INITIAL, steps).sent && Relayed(x) && x.reply.questions != [] && x.r.questions != []
            && x.reply.questions[0].name == "EXAMPLE.ORG." && x.r.questions[0].name == "example.org."
  {
    var first, second := "EXAMPLE.ORG.", "example.org.";
    var env := FilterEnv(cfg, limits, enabled, lib);
    SameElements(ToLower(first), ToLower(second));
    EmptyBlocksNothing(enabled, lib, CanonicalName(first));
    assert !env.verdict(EMPTY_TABLE)(CanonicalName(first));
    steps, x := SpeltByFirst(env, first, second);
  }

  lemma EmptyBlocksNothing(enabled: bool, lib: RegexLibrary, domain: string)
    ensures !Blocks(Filter(enabled, lib, EMPTY_TABLE), domain)
  {
  }
}

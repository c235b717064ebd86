/** Properties of the cache over every run of lookups and stores. */
module CacheRuns {
  import opened Text
  import opened Messages
  import opened CacheModel

  function RunOps(l: Limits, ops: seq<Op>): seq<Entry> {
    if ops == [] then [] else AfterOp(l, RunOps(l, Front(ops)), Last(ops))
  }

  // ---------------------------------------------------------------- order by last touch

  /** Index of the last operation that touched `k`, or -1. */
  function LastTouch(l: Limits, ops: seq<Op>, k: CacheKey): (t: int)
    ensures -1 <= t < |ops|
  {
    if ops == [] then -1
    else if Touched(l, RunOps(l, Front(ops)), Last(ops)) == Some(k) then |ops| - 1
    else LastTouch(l, Front(ops), k)
  }

  ghost predicate KeptOf(s: seq<Entry>, kept: seq<Entry>, gone: int) {
    -1 <= gone < |s| && kept == if gone < 0 then s else Remove(s, gone)
  }

  /** The list after the operation is the touched entry, if any, in front of what is kept. */
  ghost predicate Shape(l: Limits, s: seq<Entry>, op: Op, top: Entry, kept: seq<Entry>) {
    var t := Touched(l, s, op);
    if t.None? then AfterOp(l, s, op) == kept
    else
      && AfterOp(l, s, op) == [top] + kept && top.key == t.value && |kept| < l.maxSize
      && forall i :: 0 <= i < |kept| ==> kept[i].key != t.value
  }

  /** An operation drops at most one entry other than the touched one: a store into a full cache drops
      the last, a lookup drops the entry that it finds expired. */
  ghost predicate FairlyGone(l: Limits, s: seq<Entry>, op: Op, gone: int)
    requires gone < |s|
  {
    gone >= 0 && Touched(l, s, op) != Some(s[gone].key) ==>
      (op.Set? && Touched(l, s, op).Some? && gone == |s| - 1 && |s| == l.maxSize) || FindsExpired(l, s, op, s[gone].key)
  }

  lemma RemovedKey(s: seq<Entry>, i: nat)
    requires DistinctKeys(s) && i < |s|
    ensures forall j :: 0 <= j < |s| - 1 ==> Remove(s, i)[j].key != s[i].key
  {
    assert forall j :: 0 <= j < |s| - 1 ==> Remove(s, i)[j] == s[if j < i then j else j + 1];
  }

  lemma GetShape(l: Limits, s: seq<Entry>, op: Op) returns (top: Entry, kept: seq<Entry>, gone: int)
    requires DistinctKeys(s) && |s| <= l.maxSize && op.Get?
    ensures KeptOf(s, kept, gone) && Shape(l, s, op, top, kept) && FairlyGone(l, s, op, gone)
  {
    top, kept, gone := *, s, -1;
    if l.enabled && op.req.questions != [] {
      var i := Find(s, MakeKey(op.req.questions[0]));
      if i >= 0 {
        top, kept, gone := s[i], Remove(s, i), i;
        RemovedKey(s, i);
      }
    }
  }

  lemma SetShape(l: Limits, s: seq<Entry>, op: Op) returns (top: Entry, kept: seq<Entry>, gone: int)
    requires WellFormed(l) && DistinctKeys(s) && |s| <= l.maxSize && op.Set?
    ensures KeptOf(s, kept, gone) && Shape(l, s, op, top, kept) && FairlyGone(l, s, op, gone)
  {
    top, kept, gone := *, s, -1;
    if Accepts(l, op.req, op.resp) {
      var i := Find(s, MakeKey(op.req.questions[0]));
      top := EntryFor(l, op.req, op.resp, op.now);
      if i >= 0 {
        kept, gone := Remove(s, i), i;
        RemovedKey(s, i);
      } else if |s| >= l.maxSize {
        kept, gone := Remove(s, |s| - 1), |s| - 1;
        assert forall j :: 0 <= j < |s| - 1 ==> kept[j] == s[j];
      }
    }
  }

  lemma AfterShape(l: Limits, s: seq<Entry>, op: Op) returns (top: Entry, kept: seq<Entry>, gone: int)
    requires WellFormed(l) && DistinctKeys(s) && |s| <= l.maxSize
    ensures KeptOf(s, kept, gone) && Shape(l, s, op, top, kept) && FairlyGone(l, s, op, gone)
  {
    match op
    case Get(_, _) => top, kept, gone := GetShape(l, s, op);
    case Set(_, _, _) => top, kept, gone := SetShape(l, s, op);
  }

  ghost predicate OrderedByTouch(l: Limits, ops: seq<Op>, s: seq<Entry>) {
    && (forall i :: 0 <= i < |s| ==> LastTouch(l, ops, s[i].key) >= 0)
    && (forall i, j :: 0 <= i < j < |s| ==> LastTouch(l, ops, s[i].key) > LastTouch(l, ops, s[j].key))
  }

  /** In every run the list has distinct keys, at most `maxSize` of them, strictly ordered by last
      touch; so its last entry, the one a store evicts, is the least recently touched. */
  lemma {:induction false} RunOrdered(l: Limits, ops: seq<Op>)
    requires WellFormed(l)
    ensures DistinctKeys(RunOps(l, ops)) && |RunOps(l, ops)| <= l.maxSize
    ensures OrderedByTouch(l, ops, RunOps(l, ops))
  {
    if ops != [] {
      var s, op := RunOps(l, Front(ops)), Last(ops);
      RunOrdered(l, Front(ops));
      var top, kept, gone := AfterShape(l, s, op);
      OrderKept(l, Front(ops), s, kept, gone);
      if Touched(l, s, op).None? {
        Untouched(l, ops, kept);
      } else {
        OrderPushed(l, ops, top, kept);
      }
    }
  }

  lemma Untouched(l: Limits, ops: seq<Op>, kept: seq<Entry>)
    requires ops != [] && OrderedByTouch(l, Front(ops), kept)
    requires Touched(l, RunOps(l, Front(ops)), Last(ops)).None?
    ensures OrderedByTouch(l, ops, kept)
  {
    assert forall k :: LastTouch(l, ops, k) == LastTouch(l, Front(ops), k);
  }

  lemma OrderPushed(l: Limits, ops: seq<Op>, top: Entry, kept: seq<Entry>)
    requires ops != [] && DistinctKeys(kept) && OrderedByTouch(l, Front(ops), kept)
    requires Touched(l, RunOps(l, Front(ops)), Last(ops)) == Some(top.key)
    requires forall i :: 0 <= i < |kept| ==> kept[i].key != top.key
    ensures DistinctKeys([top] + kept) && OrderedByTouch(l, ops, [top] + kept)
  {
    assert LastTouch(l, ops, top.key) == |ops| - 1;
    assert forall i :: 0 <= i < |kept| ==> LastTouch(l, ops, kept[i].key) == LastTouch(l, Front(ops), kept[i].key);
    assert forall i :: 0 < i <= |kept| ==> ([top] + kept)[i] == kept[i - 1];
  }

  /** A store of a new key into a full cache evicts the entry touched longest ago, and only that one. */
  lemma VictimIsLeastRecent(l: Limits, ops: seq<Op>, req: MessageValue, resp: MessageValue, now: int)
    requires WellFormed(l) && Accepts(l, req, resp) && |RunOps(l, ops)| == l.maxSize
    requires Find(RunOps(l, ops), MakeKey(req.questions[0])) < 0
    ensures var s := RunOps(l, ops);
            && RunOps(l, ops + [Set(req, resp, now)]) == [EntryFor(l, req, resp, now)] + Front(s)
            && forall i :: 0 <= i < |s| - 1 ==> LastTouch(l, ops, s[i].key) > LastTouch(l, ops, Last(s).key)
  {
    var s := RunOps(l, ops);
    RunOrdered(l, ops);
    assert Front(ops + [Set(req, resp, now)]) == ops;
    assert Remove(s, |s| - 1) == Front(s);
  }

  lemma OrderKept(l: Limits, ops: seq<Op>, s: seq<Entry>, kept: seq<Entry>, gone: int)
    requires DistinctKeys(s) && OrderedByTouch(l, ops, s) && KeptOf(s, kept, gone)
    ensures DistinctKeys(kept) && OrderedByTouch(l, ops, kept)
  {
    if gone >= 0 {
      assert forall i :: 0 <= i < |kept| ==> kept[i] == s[if i < gone then i else i + 1];
    }
  }

  // ---------------------------------------------------------------- survival

  /** Keys other than `k` that the operations after the first `from` touch. */
  function OthersTouched(l: Limits, ops: seq<Op>, from: nat, k: CacheKey): set<CacheKey>
    requires from <= |ops|
  {
    if |ops| == from then {}
    else
      var t := Touched(l, RunOps(l, Front(ops)), Last(ops));
      AddOther(OthersTouched(l, Front(ops), from, k), t, k)
  }

  /** Some lookup after the first `from` operations finds `k` expired. */
  predicate ExpiresAfter(l: Limits, ops: seq<Op>, from: nat, k: CacheKey)
    requires from <= |ops|
  {
    |ops| > from && (ExpiresAfter(l, Front(ops), from, k) || FindsExpired(l, RunOps(l, Front(ops)), Last(ops), k))
  }

  predicate FindsExpired(l: Limits, s: seq<Entry>, op: Op, k: CacheKey) {
    && op.Get? && op.req.questions != [] && MakeKey(op.req.questions[0]) == k
    && var i := Find(s, k);
    && i >= 0 && op.now > s[i].expireAt
  }

  /** Distinct keys drawn from a set are no more than it has. */
  lemma {:induction false} DistinctKeysFit(s: seq<Entry>, p: nat, keys: set<CacheKey>)
    requires DistinctKeys(s) && p <= |s| && forall i :: 0 <= i < p ==> s[i].key in keys
    ensures p <= |keys|
  {
    if p > 0 {
      DistinctKeysFit(s, p - 1, keys - {s[p - 1].key});
    }
  }

  /** `k` sits at position `p`, with only keys of `others` in front of it. */
  ghost predicate InPlace(s: seq<Entry>, k: CacheKey, others: set<CacheKey>, p: nat) {
    p < |s| && s[p].key == k && forall i :: 0 <= i < p ==> s[i].key in others
  }

  function AddOther(others: set<CacheKey>, t: Option<CacheKey>, k: CacheKey): set<CacheKey> {
    others + if t.Some? && t.value != k then {t.value} else {}
  }

  /** The keys in front of position `p` and a new one are that many distinct other keys. */
  lemma CountOthers(s: seq<Entry>, others: set<CacheKey>, p: nat, t: CacheKey)
    requires DistinctKeys(s) && p <= |s|
    requires forall i :: 0 <= i < p ==> s[i].key in others && s[i].key != t
    ensures p + 1 <= |others + {t}|
  {
    DistinctKeysFit(s, p, others + {t} - {t});
  }

  lemma KeptAt(s: seq<Entry>, kept: seq<Entry>, gone: int, k: CacheKey, others: set<CacheKey>, p: nat) returns (q: nat)
    requires KeptOf(s, kept, gone) && InPlace(s, k, others, p) && gone != p
    ensures InPlace(kept, k, others, q)
  {
    q := if 0 <= gone < p then p - 1 else p;
    assert forall i :: 0 <= i <= q ==> kept[i] == s[if 0 <= gone <= i then i + 1 else i];
  }

  lemma PushedAt(top: Entry, kept: seq<Entry>, k: CacheKey, others: set<CacheKey>, q: nat)
    requires InPlace(kept, k, others, q) && top.key != k
    ensures InPlace([top] + kept, k, others + {top.key}, q + 1)
  {
    assert forall i :: 0 < i <= q + 1 ==> ([top] + kept)[i] == kept[i - 1];
  }

  /** Only a full store evicts, and by then `maxSize` other keys would have been touched. */
  lemma NotTheVictim(l: Limits, s: seq<Entry>, op: Op, k: CacheKey, others: set<CacheKey>, p: nat, kept: seq<Entry>, gone: int)
    requires DistinctKeys(s) && InPlace(s, k, others, p) && KeptOf(s, kept, gone)
    requires FairlyGone(l, s, op, gone) && !FindsExpired(l, s, op, k)
    requires var t := Touched(l, s, op); t != Some(k) && |AddOther(others, t, k)| < l.maxSize
    requires Touched(l, s, op).Some? ==> forall i :: 0 <= i < |kept| ==> kept[i].key != Touched(l, s, op).value
    ensures gone != p
  {
    if gone == p {
      assert forall i :: 0 <= i < p ==> s[i] == kept[i];
      CountOthers(s, others, p, Touched(l, s, op).value);
    }
  }

  lemma ShapedAt(after: seq<Entry>, t: Option<CacheKey>, top: Entry, kept: seq<Entry>,
                 k: CacheKey, others: set<CacheKey>, q: nat) returns (p: nat)
    requires InPlace(kept, k, others, q) && t != Some(k)
    requires after == if t.None? then kept else [top] + kept
    requires t.Some? ==> top.key == t.value
    ensures InPlace(after, k, AddOther(others, t, k), p)
  {
    p := q;
    if t.Some? {
      PushedAt(top, kept, k, others, q);
      p := q + 1;
    }
  }

  lemma TouchedIsFirst(l: Limits, s: seq<Entry>, op: Op, k: CacheKey)
    requires WellFormed(l) && DistinctKeys(s) && |s| <= l.maxSize && Touched(l, s, op) == Some(k)
    ensures InPlace(AfterOp(l, s, op), k, {}, 0)
  {
    var top, kept, gone := AfterShape(l, s, op);
  }

  lemma SurviveStep(l: Limits, s: seq<Entry>, op: Op, k: CacheKey, others: set<CacheKey>, p: nat) returns (p': nat)
    requires WellFormed(l) && DistinctKeys(s) && |s| <= l.maxSize
    requires InPlace(s, k, others, p) && !FindsExpired(l, s, op, k)
    requires |AddOther(others, Touched(l, s, op), k)| < l.maxSize
    ensures InPlace(AfterOp(l, s, op), k, AddOther(others, Touched(l, s, op), k), p')
  {
    if Touched(l, s, op) == Some(k) {
      TouchedIsFirst(l, s, op, k);
      p' := 0;
    } else {
      var top, kept, gone := AfterShape(l, s, op);
      NotTheVictim(l, s, op, k, others, p, kept, gone);
      p' := KeptAt(s, kept, gone, k, others, p);
      p' := ShapedAt(AfterOp(l, s, op), Touched(l, s, op), top, kept, k, others, p');
    }
  }

  lemma SubsetCount<T>(a: set<T>, b: set<T>)
    requires a <= b
    ensures |a| <= |b|
  {
    assert b == a + (b - a);
  }

  lemma {:induction false} SurvivesAt(l: Limits, ops: seq<Op>, from: nat, k: CacheKey) returns (p: nat)
    requires WellFormed(l) && 0 < from <= |ops|
    requires Touched(l, RunOps(l, ops[..from - 1]), ops[from - 1]) == Some(k)
    requires |OthersTouched(l, ops, from, k)| < l.maxSize && !ExpiresAfter(l, ops, from, k)
    ensures InPlace(RunOps(l, ops), k, OthersTouched(l, ops, from, k), p)
    decreases |ops|
  {
    var before := Front(ops);
    RunOrdered(l, before);
    if |ops| == from {
      assert before == ops[..from - 1];
      assert Last(ops) == ops[from - 1];
      TouchedIsFirst(l, RunOps(l, before), Last(ops), k);
      p := 0;
    } else {
      assert before[..from - 1] == ops[..from - 1];
      SubsetCount(OthersTouched(l, before, from, k), OthersTouched(l, ops, from, k));
      p := SurvivesAt(l, before, from, k);
      p := SurviveStep(l, RunOps(l, before), Last(ops), k, OthersTouched(l, before, from, k), p);
    }
  }

  /** A key that was touched stays cached while fewer than `maxSize` distinct other keys are touched
      after it and no lookup finds it expired. */
  lemma KeySurvives(l: Limits, ops: seq<Op>, from: nat, k: CacheKey)
    requires WellFormed(l) && 0 < from <= |ops|
    requires Touched(l, RunOps(l, ops[..from - 1]), ops[from - 1]) == Some(k)
    requires |OthersTouched(l, ops, from, k)| < l.maxSize && !ExpiresAfter(l, ops, from, k)
    ensures Find(RunOps(l, ops), k) >= 0
  {
    var p := SurvivesAt(l, ops, from, k);
  }

  // ---------------------------------------------------------------- hits return the last accepted store

  /** The entry of the most recent accepted store under `k`. */
  function LastStore(l: Limits, ops: seq<Op>, k: CacheKey): Option<Entry> {
    if ops == [] then None
    else
      match Last(ops)
      case Set(req, resp, now) =>
        if Accepts(l, req, resp) && MakeKey(req.questions[0]) == k then Some(EntryFor(l, req, resp, now))
        else LastStore(l, Front(ops), k)
      case Get(_, _) => LastStore(l, Front(ops), k)
  }

  lemma LastStoreOfTop(l: Limits, ops: seq<Op>, top: Entry, kept: seq<Entry>)
    requires ops != [] && DistinctKeys(RunOps(l, Front(ops)))
    requires Shape(l, RunOps(l, Front(ops)), Last(ops), top, kept) && Touched(l, RunOps(l, Front(ops)), Last(ops)).Some?
    requires forall e :: e in RunOps(l, Front(ops)) ==> LastStore(l, Front(ops), e.key) == Some(e)
    ensures LastStore(l, ops, top.key) == Some(top)
  {
    var s := RunOps(l, Front(ops));
    assert AfterOp(l, s, Last(ops))[0] == top;
    match Last(ops)
    case Get(req, _) => assert s[Find(s, MakeKey(req.questions[0]))] in s;
    case Set(_, _, _) =>
  }

  /** The operation does not store under the key of an entry that it keeps. */
  lemma KeptStores(l: Limits, ops: seq<Op>, s: seq<Entry>, top: Entry, kept: seq<Entry>, gone: int)
    requires ops != [] && KeptOf(s, kept, gone) && Shape(l, s, Last(ops), top, kept)
    requires forall e :: e in s ==> LastStore(l, Front(ops), e.key) == Some(e)
    ensures forall i :: 0 <= i < |kept| ==> LastStore(l, ops, kept[i].key) == Some(kept[i])
  {
    forall i | 0 <= i < |kept| ensures LastStore(l, ops, kept[i].key) == Some(kept[i]) {
      assert kept[i] in s;
    }
  }

  lemma {:induction false} EntriesAreLastStores(l: Limits, ops: seq<Op>)
    requires WellFormed(l)
    ensures forall e :: e in RunOps(l, ops) ==> LastStore(l, ops, e.key) == Some(e)
  {
    if ops != [] {
      var s, op := RunOps(l, Front(ops)), Last(ops);
      EntriesAreLastStores(l, Front(ops));
      RunOrdered(l, Front(ops));
      var top, kept, gone := AfterShape(l, s, op);
      KeptStores(l, ops, s, top, kept, gone);
      if Touched(l, s, op).Some? {
        LastStoreOfTop(l, ops, top, kept);
      }
    }
  }

  /** A hit serves the most recent accepted store of its key, changed only in id and non-OPT times. */
  lemma HitServesLastStore(l: Limits, ops: seq<Op>, req: MessageValue, now: int)
    requires WellFormed(l) && Hits(l, RunOps(l, ops), req, now)
    ensures var stored := LastStore(l, ops, MakeKey(req.questions[0]));
            && stored.Some? && now <= stored.value.expireAt
            && Lookup(l, RunOps(l, ops), req, now) == Some(Served(stored.value, req.id, now))
  {
    EntriesAreLastStores(l, ops);
    var s := RunOps(l, ops);
    assert s[Find(s, MakeKey(req.questions[0]))] in s;
  }

  // ---------------------------------------------------------------- served times to live

  ghost predicate Clocked(ops: seq<Op>) {
    forall i, j :: 0 <= i < j < |ops| ==> ops[i].now <= ops[j].now
  }

  /** Times to live in stored messages are unsigned 32-bit numbers. */
  ghost predicate WireTTLs(ops: seq<Op>) {
    forall i, j :: 0 <= i < |ops| && ops[i].Set? && 0 <= j < |AllRecords(ops[i].resp)| ==> AllRecords(ops[i].resp)[j].ttl < UINT32
  }

  lemma {:induction false} LastStoreTimes(l: Limits, ops: seq<Op>, k: CacheKey, now: int)
    requires WellFormed(l) && WireTTLs(ops) && Clocked(ops)
    requires ops != [] ==> Last(ops).now <= now
    requires LastStore(l, ops, k).Some?
    ensures var e := LastStore(l, ops, k).value;
            1 <= e.initialTTL < UINT32 && e.expireAt - e.initialTTL * SECOND <= now
  {
    assert Last(ops) == ops[|ops| - 1];
    match Last(ops)
    case Set(req, resp, at) =>
      if Accepts(l, req, resp) && MakeKey(req.questions[0]) == k {
        LeastTTLBounds(AllRecords(resp));
        ClampedBounds(MessageTTL(resp), l);
      } else {
        PrefixTimes(ops);
        LastStoreTimes(l, Front(ops), k, now);
      }
    case Get(_, _) =>
      PrefixTimes(ops);
      LastStoreTimes(l, Front(ops), k, now);
  }

  lemma PrefixTimes(ops: seq<Op>)
    requires ops != [] && WireTTLs(ops) && Clocked(ops)
    ensures WireTTLs(Front(ops)) && Clocked(Front(ops))
    ensures Front(ops) != [] ==> Last(Front(ops)).now <= Last(ops).now
  {
    assert forall i :: 0 <= i < |ops| - 1 ==> Front(ops)[i] == ops[i];
  }

  lemma RemainingBounds(e: Entry, now: int)
    requires 1 <= e.initialTTL < UINT32 && e.expireAt - e.initialTTL * SECOND <= now <= e.expireAt
    ensures 1 <= RemainingTTL(e.expireAt, now) <= e.initialTTL
    ensures now + RemainingTTL(e.expireAt, now) * SECOND <= e.expireAt + SECOND
    ensures e.expireAt < now + (RemainingTTL(e.expireAt, now) + 1) * SECOND
    ensures RemainingTTL(e.expireAt, now) == if e.expireAt - now < SECOND then 1 else (e.expireAt - now) / SECOND
  {
    var d := e.expireAt - now;
    assert d / SECOND <= e.initialTTL;
  }

  /** Every record but OPT has this time to live. */
  ghost predicate EveryTTL(rrs: seq<RecordValue>, ttl: nat) {
    forall i :: 0 <= i < |rrs| ==> rrs[i].rdata.Opt? || rrs[i].ttl == ttl
  }

  lemma RetimedTTLs(rrs: seq<RecordValue>, ttl: nat)
    ensures EveryTTL(RetimedAll(rrs, ttl), ttl)
  {
  }

  /** With a nondecreasing clock a hit serves, on every record but OPT, one time to live between 1 and
      the stored one that reaches at most one second past the entry's expiry, and within one second of it. */
  lemma HitTTL(l: Limits, ops: seq<Op>, req: MessageValue, now: int)
    requires WellFormed(l) && WireTTLs(ops) && Clocked(ops) && (ops != [] ==> Last(ops).now <= now)
    requires Hits(l, RunOps(l, ops), req, now)
    ensures LastStore(l, ops, MakeKey(req.questions[0])).Some?
    ensures var e := LastStore(l, ops, MakeKey(req.questions[0])).value;
            now <= e.expireAt
    ensures var e := LastStore(l, ops, MakeKey(req.questions[0])).value;
            var ttl := RemainingTTL(e.expireAt, now);
            var reply := Lookup(l, RunOps(l, ops), req, now).value;
            && 1 <= ttl <= e.initialTTL
            && now + ttl * SECOND <= e.expireAt + SECOND && e.expireAt < now + (ttl + 1) * SECOND
            && EveryTTL(reply.answer, ttl) && EveryTTL(reply.ns, ttl) && EveryTTL(reply.extra, ttl)
  {
    HitServesLastStore(l, ops, req, now);
    var k := MakeKey(req.questions[0]);
    var e := LastStore(l, ops, k).value;
    LastStoreTimes(l, ops, k, now);
    RemainingBounds(e, now);
    RetimedTTLs(e.msg.answer, RemainingTTL(e.expireAt, now));
    RetimedTTLs(e.msg.ns, RemainingTTL(e.expireAt, now));
    RetimedTTLs(e.msg.extra, RemainingTTL(e.expireAt, now));
  }

  /** No accepted store under `k` among the operations after the first `from`. */
  ghost predicate NotStoredAfter(l: Limits, ops: seq<Op>, from: nat, k: CacheKey) {
    forall i :: from <= i < |ops| && ops[i].Set? && Accepts(l, ops[i].req, ops[i].resp) ==> MakeKey(ops[i].req.questions[0]) != k
  }

  lemma {:induction false} LastStoreStays(l: Limits, ops: seq<Op>, from: nat, k: CacheKey)
    requires from <= |ops| && NotStoredAfter(l, ops, from, k)
    ensures LastStore(l, ops, k) == LastStore(l, ops[..from], k)
    decreases |ops|
  {
    if |ops| == from {
      assert ops[..from] == ops;
    } else {
      assert Last(ops) == ops[|ops| - 1];
      assert forall i :: 0 <= i < |ops| - 1 ==> Front(ops)[i] == ops[i];
      assert Front(ops)[..from] == ops[..from];
      LastStoreStays(l, Front(ops), from, k);
    }
  }

  /** Two hits on one stored entry, the second later: the served time to live does not increase. */
  lemma HitsNeverIncrease(l: Limits, ops: seq<Op>, from: nat, first: MessageValue, at: int, second: MessageValue, later: int)
    requires WellFormed(l) && WireTTLs(ops) && Clocked(ops) && from <= |ops|
    requires first.questions != [] && second.questions != [] && MakeKey(first.questions[0]) == MakeKey(second.questions[0])
    requires Hits(l, RunOps(l, ops[..from]), first, at) && Hits(l, RunOps(l, ops), second, later)
    requires (from > 0 ==> ops[from - 1].now <= at) && (ops != [] ==> Last(ops).now <= later) && at <= later
    requires NotStoredAfter(l, ops, from, MakeKey(first.questions[0]))
    ensures LastStore(l, ops, MakeKey(first.questions[0])).Some?
    ensures var e := LastStore(l, ops, MakeKey(first.questions[0])).value;
            && later <= e.expireAt
            && Lookup(l, RunOps(l, ops[..from]), first, at) == Some(Served(e, first.id, at))
            && Lookup(l, RunOps(l, ops), second, later) == Some(Served(e, second.id, later))
            && RemainingTTL(e.expireAt, later) <= RemainingTTL(e.expireAt, at)
  {
    var k := MakeKey(first.questions[0]);
    LastStoreStays(l, ops, from, k);
    HitServesLastStore(l, ops[..from], first, at);
    HitServesLastStore(l, ops, second, later);
    var e := LastStore(l, ops, k).value;
    assert Clocked(ops[..from]) && WireTTLs(ops[..from]);
    LastStoreTimes(l, ops[..from], k, at);
    RemainingBounds(e, at);
    RemainingBounds(e, later);
    DivisionMonotone(e.expireAt - later, e.expireAt - at);
  }

  lemma DivisionMonotone(a: nat, b: nat)
    requires a <= b
    ensures a / SECOND <= b / SECOND
  {
  }
}

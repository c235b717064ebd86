/** Which responses are cached, for how long, and when they are served, in terms of their records. */
module CacheTimes {
  import opened Text
  import opened Messages
  import opened CacheModel
  import opened CacheRuns

  // ---------------------------------------------------------------- clamping

  lemma WholeSecondsOf(k: nat, rest: nat)
    requires k < UINT32 && rest < SECOND
    ensures WholeSeconds(k * SECOND + rest) == k
  {
  }

  /** The time for which a response with this least time is kept, in whole seconds: as it is inside the
      limits, else the nearer limit; a ceiling below the floor wins. */
  ghost predicate KeptFor(l: Limits, ttl: nat, stored: nat) {
    var minSec, maxSec := WholeSeconds(l.minTTL), WholeSeconds(l.maxTTL);
    && (minSec <= ttl && (maxSec == 0 || ttl <= maxSec) ==> stored == ttl)
    && (ttl < minSec && (maxSec == 0 || minSec <= maxSec) ==> stored == minSec)
    && (maxSec > 0 && (ttl > maxSec || minSec > maxSec) ==> stored == maxSec)
  }

  lemma ClampedExactly(ttl: nat, l: Limits)
    ensures forall stored: nat :: KeptFor(l, ttl, stored) <==> stored == Clamped(ttl, l)
    ensures var minSec, maxSec := WholeSeconds(l.minTTL), WholeSeconds(l.maxTTL);
            0 < maxSec && minSec <= maxSec ==> (Clamped(ttl, l) == ttl <==> minSec <= ttl <= maxSec)
  {
  }

  // ---------------------------------------------------------------- what is stored

  /** The record counts towards the time to live: any but OPT. */
  predicate Counts(rr: RecordValue) { !rr.rdata.Opt? }

  /** The least time of the records, or 60 seconds when there is none to count. */
  ghost predicate LeastTime(m: MessageValue, ttl: nat) {
    var rrs := m.answer + m.ns + m.extra;
    && (forall i :: 0 <= i < |rrs| && Counts(rrs[i]) ==> ttl <= rrs[i].ttl)
    && if exists i :: 0 <= i < |rrs| && Counts(rrs[i]) then exists i :: 0 <= i < |rrs| && Counts(rrs[i]) && rrs[i].ttl == ttl
       else ttl == 60
  }

  lemma MessageTTLIsLeast(m: MessageValue)
    ensures LeastTime(m, MessageTTL(m))
  {
    LeastTTLBounds(AllRecords(m));
  }

  /** A response is accepted exactly when it is a success or a denial, complete, and no record that counts
      has no time left. */
  lemma AcceptsExactly(l: Limits, req: MessageValue, resp: MessageValue)
    ensures Accepts(l, req, resp) <==>
            && l.enabled && req.questions != []
            && (resp.header.rcode == 0 || resp.header.rcode == 3) && !resp.header.truncated
            && var rrs := resp.answer + resp.ns + resp.extra; forall i :: 0 <= i < |rrs| && Counts(rrs[i]) ==> rrs[i].ttl != 0
  {
    LeastTTLBounds(AllRecords(resp));
  }

  lemma {:induction false} StoreOf(l: Limits, ops: seq<Op>, k: CacheKey) returns (i: nat)
    requires LastStore(l, ops, k).Some?
    ensures i < |ops| && ops[i].Set? && Accepts(l, ops[i].req, ops[i].resp) && MakeKey(ops[i].req.questions[0]) == k
    ensures LastStore(l, ops, k) == Some(EntryFor(l, ops[i].req, ops[i].resp, ops[i].now))
    ensures NotStoredAfter(l, ops, i + 1, k)
  {
    var last := Last(ops);
    if last.Set? && Accepts(l, last.req, last.resp) && MakeKey(last.req.questions[0]) == k {
      i := |ops| - 1;
    } else {
      i := StoreOf(l, Front(ops), k);
      StillNotStored(l, ops, i + 1, k);
    }
  }

  lemma StillNotStored(l: Limits, ops: seq<Op>, from: nat, k: CacheKey)
    requires ops != [] && NotStoredAfter(l, Front(ops), from, k)
    requires var op := Last(ops); op.Set? && Accepts(l, op.req, op.resp) ==> MakeKey(op.req.questions[0]) != k
    ensures NotStoredAfter(l, ops, from, k)
  {
    forall i | from <= i < |ops| && ops[i].Set? && Accepts(l, ops[i].req, ops[i].resp) ensures MakeKey(ops[i].req.questions[0]) != k {
      assert i < |ops| - 1 ==> ops[i] == Front(ops)[i];
    }
  }

  /** In every run an entry of the cache holds the response of the last accepted store under its key, and
      expires when that response's least time has passed since, unless the floor raised or the ceiling
      lowered it. */
  lemma StoredFor(l: Limits, ops: seq<Op>, e: Entry) returns (i: nat, ttl: nat, stored: nat)
    requires WellFormed(l) && e in RunOps(l, ops)
    ensures i < |ops| && ops[i].Set? && NotStoredAfter(l, ops, i + 1, e.key)
    ensures e.msg == ops[i].resp && ops[i].req.questions != [] && e.key == MakeKey(ops[i].req.questions[0])
    ensures LeastTime(e.msg, ttl) && KeptFor(l, ttl, stored) && e.expireAt == ops[i].now + stored * SECOND
    ensures stored > ttl ==> ttl < WholeSeconds(l.minTTL) && stored <= WholeSeconds(l.minTTL)
    ensures stored < ttl ==> stored == WholeSeconds(l.maxTTL) > 0
  {
    EntriesAreLastStores(l, ops);
    i := StoreOf(l, ops, e.key);
    ttl := MessageTTL(e.msg);
    stored := Clamped(ttl, l);
    MessageTTLIsLeast(e.msg);
    ClampedExactly(ttl, l);
  }

  // ---------------------------------------------------------------- when it is served

  /** A lookup hits exactly when there is an entry under the key and its time has not passed. */
  lemma HitsExactly(l: Limits, ops: seq<Op>, req: MessageValue, now: int)
    requires WellFormed(l)
    ensures Hits(l, RunOps(l, ops), req, now) <==>
            && l.enabled && req.questions != []
            && exists e :: e in RunOps(l, ops) && e.key == MakeKey(req.questions[0]) && now <= e.expireAt
  {
    RunOrdered(l, ops);
    if req.questions != [] {
      FreshFound(RunOps(l, ops), MakeKey(req.questions[0]), now);
    }
  }

  lemma FreshFound(s: seq<Entry>, k: CacheKey, now: int)
    requires DistinctKeys(s)
    ensures var i := Find(s, k);
            (i >= 0 && now <= s[i].expireAt) <==> exists e :: e in s && e.key == k && now <= e.expireAt
  {
    var i := Find(s, k);
    if i >= 0 && now <= s[i].expireAt {
      assert s[i] in s;
    }
    if e :| e in s && e.key == k && now <= e.expireAt {
      var j :| 0 <= j < |s| && s[j] == e;
    }
  }

  /** A response once stored is served until it expires, while fewer other keys than the limit are touched, it
      is not stored over, and no lookup comes too late. */
  lemma StoredIsServed(l: Limits, ops: seq<Op>, from: nat, req: MessageValue, now: int)
    requires WellFormed(l) && 0 < from <= |ops| && ops[from - 1].Set? && Accepts(l, ops[from - 1].req, ops[from - 1].resp)
    requires req.questions != [] && MakeKey(req.questions[0]) == MakeKey(ops[from - 1].req.questions[0])
    requires var k := MakeKey(req.questions[0]);
             && |OthersTouched(l, ops, from, k)| < l.maxSize && !ExpiresAfter(l, ops, from, k) && NotStoredAfter(l, ops, from, k)
    requires now <= EntryFor(l, ops[from - 1].req, ops[from - 1].resp, ops[from - 1].now).expireAt
    ensures var e := EntryFor(l, ops[from - 1].req, ops[from - 1].resp, ops[from - 1].now);
            && Hits(l, RunOps(l, ops), req, now)
            && Lookup(l, RunOps(l, ops), req, now) == Some(Served(e, req.id, now))
  {
    var k := MakeKey(req.questions[0]);
    KeySurvives(l, ops, from, k);
    LastStoreStays(l, ops, from, k);
    assert Last(ops[..from]) == ops[from - 1];
    EntriesAreLastStores(l, ops);
    var s := RunOps(l, ops);
    assert s[Find(s, k)] in s;
    HitServesLastStore(l, ops, req, now);
  }
}

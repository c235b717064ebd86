/** The response cache as one association list, most recently touched entry first. */
module CacheModel {
  import opened Text
  import opened Messages

  const SECOND := 1_000_000_000
  const UINT32 := 0x1_0000_0000

  datatype CacheKey = CacheKey(name: string, qtype: nat, qclass: nat)

  function MakeKey(q: Question): CacheKey {
    CacheKey(CanonicalName(q.name), q.qtype, q.qclass)
  }

  datatype CacheConfig = CacheConfig(enabled: bool, size: int, minTTL: int, maxTTL: int)

  /** Limits in force; durations in nanoseconds. */
  datatype Limits = Limits(enabled: bool, maxSize: nat, minTTL: nat, maxTTL: nat)

  ghost predicate WellFormed(l: Limits) {
    l.enabled ==> l.maxSize > 0 && l.minTTL > 0 && l.maxTTL > 0
  }

  datatype Entry = Entry(key: CacheKey, msg: MessageValue, expireAt: int, initialTTL: nat)

  // ---------------------------------------------------------------- time to live

  /** `uint32(d.Seconds())` for a non-negative duration. */
  function WholeSeconds(d: nat): nat {
    d / SECOND % UINT32
  }

  function Clamped(ttl: nat, l: Limits): nat {
    var minSec, maxSec := WholeSeconds(l.minTTL), WholeSeconds(l.maxTTL);
    var raised := if ttl < minSec then minSec else ttl;
    if maxSec > 0 && raised > maxSec then maxSec else raised
  }

  function RemainingTTL(expireAt: int, now: int): nat
    requires now <= expireAt
  {
    if WholeSeconds(expireAt - now) == 0 then 1 else WholeSeconds(expireAt - now)
  }

  /** A stored time to live is positive, never above a positive ceiling, at the floor or above it
      exactly when the floor does not exceed a positive ceiling, and its nanoseconds fit in int64. */
  lemma ClampedBounds(ttl: nat, l: Limits)
    requires 0 < ttl < UINT32
    ensures var minSec, maxSec, stored := WholeSeconds(l.minTTL), WholeSeconds(l.maxTTL), Clamped(ttl, l);
            && 1 <= stored < UINT32
            && (maxSec > 0 ==> stored <= maxSec)
            && (minSec <= stored <==> maxSec == 0 || minSec <= maxSec)
            && stored * SECOND < 0x8000_0000_0000_0000
  {
  }

  /** A ceiling of 50 seconds wins over a floor of 100. */
  lemma CeilingWins(ttl: nat)
    ensures var l := Limits(true, 1, 100 * SECOND, 50 * SECOND); WholeSeconds(l.minTTL) == 100 && Clamped(ttl, l) == 50
  {
  }

  /** The least time to live of the records other than OPT. */
  function LeastTTL(rrs: seq<RecordValue>): Option<nat> {
    if rrs == [] then None
    else
      var rest := LeastTTL(Front(rrs));
      var rr := Last(rrs);
      if rr.rdata.Opt? then rest
      else if rest.None? || rr.ttl < rest.value then Some(rr.ttl)
      else rest
  }

  function AllRecords(m: MessageValue): seq<RecordValue> {
    m.answer + m.ns + m.extra
  }

  function MessageTTL(m: MessageValue): nat {
    var least := LeastTTL(AllRecords(m));
    if least.None? then 60 else least.value
  }

  lemma {:induction false} LeastTTLBounds(rrs: seq<RecordValue>)
    ensures LeastTTL(rrs).None? <==> forall i :: 0 <= i < |rrs| ==> rrs[i].rdata.Opt?
    ensures LeastTTL(rrs).Some? ==> exists i :: 0 <= i < |rrs| && !rrs[i].rdata.Opt? && rrs[i].ttl == LeastTTL(rrs).value
    ensures LeastTTL(rrs).Some? ==> forall i :: 0 <= i < |rrs| && !rrs[i].rdata.Opt? ==> LeastTTL(rrs).value <= rrs[i].ttl
  {
    if rrs != [] {
      var rest := Front(rrs);
      LeastTTLBounds(rest);
      assert forall i :: 0 <= i < |rest| ==> rest[i] == rrs[i];
      assert Last(rrs) == rrs[|rrs| - 1];
      if LeastTTL(rest).Some? && LeastTTL(rrs) == LeastTTL(rest) {
        var i :| 0 <= i < |rest| && !rest[i].rdata.Opt? && rest[i].ttl == LeastTTL(rest).value;
        assert rrs[i] == rest[i];
      }
    }
  }

  // ---------------------------------------------------------------- the two operations

  /** Only successful and non-existence answers, complete, with a positive time to live are stored. */
  predicate Cacheable(resp: MessageValue) {
    && (resp.header.rcode == RCODE_SUCCESS || resp.header.rcode == RCODE_NAME_ERROR)
    && !resp.header.truncated
    && MessageTTL(resp) != 0
  }

  predicate Accepts(l: Limits, req: MessageValue, resp: MessageValue) {
    l.enabled && req.questions != [] && Cacheable(resp)
  }

  function EntryFor(l: Limits, req: MessageValue, resp: MessageValue, now: int): Entry
    requires req.questions != []
  {
    var ttl := Clamped(MessageTTL(resp), l);
    Entry(MakeKey(req.questions[0]), resp, now + ttl * SECOND, ttl)
  }

  /** What a hit returns: the stored message under the new id, its records retimed. */
  function Served(e: Entry, id: nat, now: int): MessageValue
    requires now <= e.expireAt
  {
    RetimedMessage(e.msg, RemainingTTL(e.expireAt, now)).(id := id)
  }

  function Find(s: seq<Entry>, k: CacheKey): (i: int)
    ensures -1 <= i < |s|
    ensures i >= 0 ==> s[i].key == k
    ensures i < 0 ==> forall j :: 0 <= j < |s| ==> s[j].key != k
  {
    if s == [] then -1
    else if Last(s).key == k then |s| - 1
    else Find(Front(s), k)
  }

  function Remove<T>(s: seq<T>, i: nat): seq<T>
    requires i < |s|
  {
    s[..i] + s[i + 1..]
  }

  lemma RemoveElements<T>(s: seq<T>, i: nat)
    requires i < |s|
    ensures forall j :: 0 <= j < |s| - 1 ==> Remove(s, i)[j] == s[if j < i then j else j + 1]
    ensures forall x :: x in Remove(s, i) ==> x in s
    ensures forall x :: x in s && x != s[i] ==> x in Remove(s, i)
  {
    forall x | x in s && x != s[i] ensures x in Remove(s, i) {
      var j :| 0 <= j < |s| && s[j] == x;
      assert Remove(s, i)[if j < i then j else j - 1] == x;
    }
  }

  lemma ToFrontUpdated<T>(s: seq<T>, i: nat, x: T)
    requires i < |s|
    ensures ToFront(s, i)[0 := x] == [x] + Remove(s, i)
  {
  }

  function ToFront<T>(s: seq<T>, i: nat): seq<T>
    requires i < |s|
  {
    [s[i]] + Remove(s, i)
  }

  lemma ToFrontElements<T>(s: seq<T>, i: nat)
    requires i < |s|
    ensures forall j :: 0 <= j < |s| ==> ToFront(s, i)[j] == s[if j == 0 then i else if j <= i then j - 1 else j]
    ensures forall x :: x in ToFront(s, i) <==> x in s
  {
    RemoveElements(s, i);
  }

  datatype Op = Get(req: MessageValue, now: int) | Set(req: MessageValue, resp: MessageValue, now: int)

  /** The entry in front of the others, its old version or, in a full cache, the last entry dropped. */
  function Stored(s: seq<Entry>, e: Entry, maxSize: nat): seq<Entry> {
    var i := Find(s, e.key);
    [e] + if i >= 0 then Remove(s, i) else if |s| >= maxSize && s != [] then Remove(s, |s| - 1) else s
  }

  function AfterGet(l: Limits, s: seq<Entry>, req: MessageValue, now: int): seq<Entry> {
    if !l.enabled || req.questions == [] then s
    else
      var i := Find(s, MakeKey(req.questions[0]));
      if i < 0 then s
      else if now > s[i].expireAt then Remove(s, i)
      else ToFront(s, i)
  }

  function AfterSet(l: Limits, s: seq<Entry>, req: MessageValue, resp: MessageValue, now: int): seq<Entry> {
    if Accepts(l, req, resp) then Stored(s, EntryFor(l, req, resp, now), l.maxSize) else s
  }

  function AfterOp(l: Limits, s: seq<Entry>, op: Op): seq<Entry> {
    match op
    case Get(req, now) => AfterGet(l, s, req, now)
    case Set(req, resp, now) => AfterSet(l, s, req, resp, now)
  }

  predicate Hits(l: Limits, s: seq<Entry>, req: MessageValue, now: int) {
    && l.enabled && req.questions != []
    && var i := Find(s, MakeKey(req.questions[0]));
    && i >= 0 && now <= s[i].expireAt
  }

  function Lookup(l: Limits, s: seq<Entry>, req: MessageValue, now: int): Option<MessageValue> {
    if Hits(l, s, req, now) then Some(Served(s[Find(s, MakeKey(req.questions[0]))], req.id, now)) else None
  }

  /** The key that the operation touches, if any. */
  function Touched(l: Limits, s: seq<Entry>, op: Op): Option<CacheKey> {
    match op
    case Get(req, now) => if Hits(l, s, req, now) then Some(MakeKey(req.questions[0])) else None
    case Set(req, resp, _) => if Accepts(l, req, resp) then Some(MakeKey(req.questions[0])) else None
  }

  ghost predicate DistinctKeys(s: seq<Entry>) {
    forall i, j :: 0 <= i < j < |s| ==> s[i].key != s[j].key
  }
}

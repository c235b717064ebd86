/** Deep copies isolate the cache: callers may do what they like to the messages they pass and get. */
module CacheIsolation {
  import opened Messages
  import opened CacheModel
  import opened Caches

  /** Arbitrary changes to a message and its records: nothing is promised about the outcome. */
  method Scribble(m: Msg, id: nat, ttl: nat, rdata: RData)
    modifies m, m.answer, m.ns, m.extra
  {
    var answer := m.answer;
    for i := 0 to |answer| {
      answer[i].ttl, answer[i].rdata := ttl, rdata;
    }
    m.id, m.questions, m.answer := id, [], answer + m.ns;
  }

  /** Messages that the cache does not own have no bearing on it. */
  method ScribbleApart(c: Cache, m: Msg, id: nat, ttl: nat, rdata: RData, ghost theirs: set<Record>)
    requires c.Valid() && m !in c.messages && m.Within(theirs) && theirs !! c.records
    modifies m, theirs
    ensures c.Valid() && c.Contents() == old(c.Contents())
  {
    Scribble(m, id, ttl, rdata);
  }

  /** Whatever the caller does to a message after storing it, the cache holds what was stored. */
  method StoreThenScribble(c: Cache, req: Msg, resp: Msg, now: int, id: nat, ttl: nat, rdata: RData, ghost theirs: set<Record>)
    requires c.Valid() && resp !in c.messages && resp.Within(theirs) && theirs !! c.records
    modifies c, c.evict, resp, theirs
    ensures c.Valid()
    ensures c.Contents() == AfterSet(c.limits, old(c.Contents()), old(req.Value()), old(resp.Value()), now)
  {
    c.Set(req, resp, now);
    ScribbleApart(c, resp, id, ttl, rdata, theirs);
  }

  /** Whatever the caller does to a served message, the cache holds what it held. */
  method HitThenScribble(c: Cache, req: Msg, now: int, id: nat, ttl: nat, rdata: RData)
    requires c.Valid()
    modifies c
    ensures c.Valid()
    ensures c.Contents() == AfterGet(c.limits, old(c.Contents()), old(req.Value()), now)
  {
    var hit, own := c.Get(req, now);
    if hit != null {
      ScribbleApart(c, hit, id, ttl, rdata, own);
    }
  }
}

/** The LRU cache object: a map and a recency list over entry objects, refining one association list. */
module Caches {
  import opened Text
  import opened Messages
  import opened CacheModel

  /** An entry together with its element of the recency list. */
  class CacheEntry {
    const key: CacheKey
    var msg: Msg
    var expireAt: int
    var initialTTL: nat
    ghost var value: Entry   // what the entry stands for

    constructor (key: CacheKey, msg: Msg, expireAt: int, initialTTL: nat)
      ensures this.key == key && this.msg == msg && this.expireAt == expireAt && this.initialTTL == initialTTL
      ensures value == Entry(key, msg.Value(), expireAt, initialTTL)
    {
      this.key, this.msg, this.expireAt, this.initialTTL := key, msg, expireAt, initialTTL;
      value := Entry(key, msg.Value(), expireAt, initialTTL);
    }
  }

  /** `calculateMinTTL`: the least time to live of the records other than OPT, 60 if there is none. */
  method CalculateMinTTL(msg: Msg) returns (ttl: nat)
    ensures ttl == MessageTTL(msg.Value())
  {
    AppendNothing(Values(msg.answer));
    var least := ScanTTLs(msg.answer, [], None);
    least := ScanTTLs(msg.ns, Values(msg.answer), least);
    least := ScanTTLs(msg.extra, Values(msg.answer) + Values(msg.ns), least);
    ttl := if least.None? then 60 else least.value;
  }

  method ScanTTLs(rrs: seq<Record>, ghost done: seq<RecordValue>, before: Option<nat>) returns (least: Option<nat>)
    requires before == LeastTTL(done)
    ensures least == LeastTTL(done + Values(rrs))
  {
    ghost var values := Values(rrs);
    least := before;
    AppendNothing(done);
    TakeAll(values);
    for i := 0 to |rrs|
      invariant least == LeastTTL(done + values[..i])
    {
      TakeStep(values, i);
      AppendAssociates(done, values[..i], [values[i]]);
      SnocLeast(done + values[..i], values[i]);
      if !rrs[i].rdata.Opt? && (least.None? || rrs[i].ttl < least.value) {
        least := Some(rrs[i].ttl);
      }
    }
  }

  lemma SnocLeast(rrs: seq<RecordValue>, rr: RecordValue)
    ensures var rest := LeastTTL(rrs);
            LeastTTL(rrs + [rr]) == if !rr.rdata.Opt? && (rest.None? || rr.ttl < rest.value) then Some(rr.ttl) else rest
  {
    SameElements(Front(rrs + [rr]), rrs);
  }

  class Cache {
    const limits: Limits
    var items: map<CacheKey, CacheEntry>
    var evict: seq<CacheEntry>             // most recently touched first
    ghost var messages: set<Msg>           // messages owned by the cache
    ghost var records: set<Record>         // and their records

    static ghost predicate Apart(list: seq<CacheEntry>, i: nat, j: nat)
      requires i < |list| && j < |list|
    {
      list[i].key != list[j].key
    }

    /** Map and list hold the same entries, under distinct keys. */
    static ghost predicate Linked(list: seq<CacheEntry>, items: map<CacheKey, CacheEntry>) {
      && (forall i, j :: 0 <= i < j < |list| ==> Apart(list, i, j))
      && (forall e :: e in list ==> e.key in items && items[e.key] == e)
      && (forall k :: k in items ==> items[k] in list && items[k].key == k)
    }

    static lemma LinkedToFront(list: seq<CacheEntry>, items: map<CacheKey, CacheEntry>, i: nat)
      requires Linked(list, items) && i < |list|
      ensures Linked(ToFront(list, i), items)
    {
      ToFrontElements(list, i);
      var front := ToFront(list, i);
      forall a, b | 0 <= a < b < |front| ensures Apart(front, a, b) {
        var p, q := if a == 0 then i else if a <= i then a - 1 else a, if b <= i then b - 1 else b;
        assert if p < q then Apart(list, p, q) else Apart(list, q, p);
      }
    }

    static lemma LinkedRemove(list: seq<CacheEntry>, items: map<CacheKey, CacheEntry>, i: nat)
      requires Linked(list, items) && i < |list|
      ensures Linked(Remove(list, i), items - {list[i].key})
    {
      RemoveElements(list, i);
      var rest := Remove(list, i);
      forall a, b | 0 <= a < b < |rest| ensures Apart(rest, a, b) {
        assert Apart(list, if a < i then a else a + 1, if b < i then b else b + 1);
      }
      forall e | e in rest ensures e.key != list[i].key {
        var a :| 0 <= a < |rest| && rest[a] == e;
        assert if a < i then Apart(list, a, i) else Apart(list, i, a + 1);
      }
    }

    static lemma LinkedPush(list: seq<CacheEntry>, items: map<CacheKey, CacheEntry>, e: CacheEntry)
      requires Linked(list, items) && e.key !in items
      ensures Linked([e] + list, items[e.key := e])
    {
      var pushed := [e] + list;
      forall a, b | 0 <= a < b < |pushed| ensures Apart(pushed, a, b) {
        assert pushed[b] == list[b - 1] && list[b - 1] in list;
        assert a > 0 ==> Apart(list, a - 1, b - 1);
      }
    }

    /** The entry's message and records belong to the cache and have the recorded value. */
    static ghost predicate Holds(e: CacheEntry, messages: set<Msg>, records: set<Record>)
      reads e, messages, records
    {
      && e.msg in messages
      && e.msg.Within(records)
      && e.value == Entry(e.key, e.msg.Value(), e.expireAt, e.initialTTL)
    }

    ghost predicate Valid()
      reads this, evict, messages, records
    {
      && WellFormed(limits)
      && |evict| <= limits.maxSize && Linked(evict, items)
      && forall e {:trigger Holds(e, messages, records)} :: e in evict ==> Holds(e, messages, records)
    }

    /** What a list of entry objects stands for. */
    static ghost function ValuesOf(list: seq<CacheEntry>): (s: seq<Entry>)
      reads list
      ensures |s| == |list|
      ensures forall i :: 0 <= i < |s| ==> s[i] == list[i].value
    {
      seq(|list|, i requires 0 <= i < |list| reads list => list[i].value)
    }

    /** The association list that the cache stands for. */
    ghost function Contents(): seq<Entry>
      reads this, evict
    {
      ValuesOf(evict)
    }

    static lemma ValuesToFront(list: seq<CacheEntry>, i: nat)
      requires i < |list|
      ensures ValuesOf(ToFront(list, i)) == ToFront(ValuesOf(list), i)
    {
      ToFrontElements(list, i);
      ToFrontElements(ValuesOf(list), i);
      SameElements(ValuesOf(ToFront(list, i)), ToFront(ValuesOf(list), i));
    }

    static lemma ValuesRemove(list: seq<CacheEntry>, i: nat)
      requires i < |list|
      ensures ValuesOf(Remove(list, i)) == Remove(ValuesOf(list), i)
    {
      RemoveElements(list, i);
      RemoveElements(ValuesOf(list), i);
      SameElements(ValuesOf(Remove(list, i)), Remove(ValuesOf(list), i));
    }

    static lemma ValuesPush(list: seq<CacheEntry>, e: CacheEntry)
      ensures ValuesOf([e] + list) == [e.value] + ValuesOf(list)
    {
      SameElements(ValuesOf([e] + list), [e.value] + ValuesOf(list));
    }

    lemma KeysOfContents()
      requires Valid()
      ensures forall i :: 0 <= i < |evict| ==> Contents()[i].key == evict[i].key
      ensures DistinctKeys(Contents())
    {
      forall i | 0 <= i < |evict| ensures Contents()[i].key == evict[i].key {
        assert evict[i] in evict && Holds(evict[i], messages, records);
      }
      forall i, j | 0 <= i < j < |evict| ensures Contents()[i].key != Contents()[j].key {
        assert Apart(evict, i, j);
      }
    }

    /** The map finds what the association list finds. */
    lemma MapFinds(key: CacheKey)
      requires Valid()
      ensures key in items <==> Find(Contents(), key) >= 0
      ensures key in items ==> evict[Find(Contents(), key)] == items[key]
    {
      KeysOfContents();
      var i := Find(Contents(), key);
      if i >= 0 {
        assert evict[i] in evict;
      }
      if key in items {
        assert items[key] in evict;
        var j :| 0 <= j < |evict| && evict[j] == items[key];
        assert Contents()[j].key == key;
      }
    }

    constructor (cfg: CacheConfig)
      ensures Valid() && Contents() == []
      ensures limits.enabled <==> cfg.enabled && cfg.size > 0
      ensures limits.enabled ==>
        && limits.maxSize == cfg.size
        && limits.minTTL == (if cfg.minTTL <= 0 then 60 * SECOND else cfg.minTTL)
        && limits.maxTTL == (if cfg.maxTTL <= 0 then 86400 * SECOND else cfg.maxTTL)
    {
      if !cfg.enabled || cfg.size <= 0 {
        limits := Limits(false, 0, 0, 0);
      } else {
        var minTTL := if cfg.minTTL <= 0 then 60 * SECOND else cfg.minTTL;
        var maxTTL := if cfg.maxTTL <= 0 then 86400 * SECOND else cfg.maxTTL;
        limits := Limits(true, cfg.size, minTTL, maxTTL);
      }
      items, evict := map[], [];
      messages, records := {}, {};
    }

    /** Looks an entry object up in the recency list. */
    method Locate(e: CacheEntry) returns (i: nat)
      requires Valid() && e.key in items && items[e.key] == e
      ensures i < |evict| && evict[i] == e
      ensures i == Find(Contents(), e.key)
    {
      MapFinds(e.key);
      ghost var p := Find(Contents(), e.key);
      i := 0;
      while evict[i] != e
        invariant i <= p
        decreases p - i
      {
        i := i + 1;
      }
      assert i < p ==> Apart(evict, i, p);
    }

    method Get(req: Msg, now: int) returns (resp: Msg?, ghost own: set<Record>)
      requires Valid()
      modifies this
      ensures Valid() && messages == old(messages) && records == old(records)
      ensures Contents() == AfterGet(limits, old(Contents()), req.Value(), now)
      ensures resp != null <==> Hits(limits, old(Contents()), req.Value(), now)
      ensures fresh(own) && (resp != null ==> fresh(resp) && resp.Within(own))
      ensures resp != null ==> Lookup(limits, old(Contents()), req.Value(), now) == Some(resp.Value())
      ensures forall i :: 0 <= i < |evict| ==> evict[i] in old(evict)
    {
      if !limits.enabled || |req.questions| == 0 { return null, {}; }
      resp, own := GetKey(MakeKey(req.questions[0]), req.id, now);
    }

    method GetKey(key: CacheKey, id: nat, now: int) returns (resp: Msg?, ghost own: set<Record>)
      requires Valid()
      modifies this
      ensures Valid() && messages == old(messages) && records == old(records)
      ensures var s := old(Contents());
              var i := Find(s, key);
              if i < 0 then resp == null && Contents() == s
              else if now > s[i].expireAt then resp == null && Contents() == Remove(s, i)
              else resp != null && Contents() == ToFront(s, i) && resp.Value() == Served(s[i], id, now)
      ensures forall i :: 0 <= i < |evict| ==> evict[i] in old(evict)
      ensures fresh(own) && (resp != null ==> fresh(resp) && resp.Within(own))
    {
      MapFinds(key);
      if key !in items { return null, {}; }
      var i := Locate(items[key]);
      ExpiryOf(i);
      if now > evict[i].expireAt {
        Unlink(i);
        return null, {};
      }
      resp, own := Hit(i, id, now);
    }

    lemma ExpiryOf(i: nat)
      requires Valid() && i < |evict|
      ensures Contents()[i].expireAt == evict[i].expireAt
    {
      assert Holds(evict[i], messages, records);
    }

    /** Serves the i-th entry and makes it the most recent. */
    method Hit(i: nat, id: nat, now: int) returns (resp: Msg, ghost own: set<Record>)
      requires Valid() && i < |evict| && now <= evict[i].expireAt
      modifies this
      ensures Valid() && messages == old(messages) && records == old(records)
      ensures Contents() == ToFront(old(Contents()), i)
      ensures fresh(resp) && fresh(own) && resp.Within(own)
      ensures forall i :: 0 <= i < |evict| ==> evict[i] in old(evict)
      ensures now <= old(Contents())[i].expireAt && resp.Value() == Served(old(Contents())[i], id, now)
    {
      ghost var e := evict[i].value;
      assert evict[i] in evict && Holds(evict[i], messages, records);
      resp, own := Serve(evict[i], id, now);
      assert resp.Value() == Served(e, id, now);
      MoveToFront(i);
    }

    /** A deep copy of the stored message under the new id, with adjusted times. */
    method Serve(entry: CacheEntry, id: nat, now: int) returns (resp: Msg, ghost own: set<Record>)
      requires Holds(entry, messages, records) && now <= entry.expireAt
      ensures fresh(resp) && fresh(own) && resp.Within(own)
      ensures resp.Value() == Served(entry.value, id, now)
    {
      var remaining := RemainingTTL(entry.expireAt, now);
      resp, own := CopyAs(entry.msg, id);
      resp.Retime(remaining);
    }

    /** A deep copy under another id. */
    method CopyAs(m: Msg, id: nat) returns (copy: Msg, ghost own: set<Record>)
      ensures fresh(copy) && fresh(own) && copy.Within(own)
      ensures copy.Value() == m.Value().(id := id)
    {
      copy, own := m.Copy();
      copy.id := id;
    }

    /** Removes the i-th entry from the list and the map. */
    method Unlink(i: nat)
      requires Valid() && i < |evict|
      modifies this
      ensures Valid() && messages == old(messages) && records == old(records)
      ensures evict == Remove(old(evict), i) && items == old(items) - {old(evict[i].key)}
      ensures forall i :: 0 <= i < |evict| ==> evict[i] in old(evict)
      ensures Contents() == Remove(old(Contents()), i)
    {
      assert Linked(Remove(evict, i), items - {evict[i].key}) by { LinkedRemove(evict, items, i); }
      assert forall e :: e in Remove(evict, i) ==> e in evict by { RemoveElements(evict, i); }
      ValuesRemove(evict, i);
      items := items - {evict[i].key};
      evict := Remove(evict, i);
    }

    method MoveToFront(i: nat)
      requires Valid() && i < |evict|
      modifies this
      ensures Valid() && messages == old(messages) && records == old(records)
      ensures evict == ToFront(old(evict), i) && items == old(items)
      ensures forall i :: 0 <= i < |evict| ==> evict[i] in old(evict)
      ensures Contents() == ToFront(old(Contents()), i)
    {
      assert Linked(ToFront(evict, i), items) by { LinkedToFront(evict, items, i); }
      assert forall e :: e in ToFront(evict, i) ==> e in evict by { ToFrontElements(evict, i); }
      ValuesToFront(evict, i);
      evict := ToFront(evict, i);
    }

    method Set(req: Msg, resp: Msg, now: int)
      requires Valid()
      modifies this, evict
      ensures Valid() && fresh(messages - old(messages)) && fresh(records - old(records))
      ensures Contents() == AfterSet(limits, old(Contents()), old(req.Value()), old(resp.Value()), now)
      ensures resp.Value() == old(resp.Value())
    {
      if !limits.enabled || |req.questions| == 0 { return; }
      var accepted, ttl := TTLToStore(resp);
      if accepted {
        ghost var e := EntryFor(limits, req.Value(), resp.Value(), now);
        Store(MakeKey(req.questions[0]), resp, now + ttl * SECOND, ttl, e);
      }
    }

    /** Whether the response may be stored, and for how many seconds. */
    method TTLToStore(resp: Msg) returns (accepted: bool, ttl: nat)
      ensures accepted <==> Cacheable(resp.Value())
      ensures accepted ==> ttl == Clamped(MessageTTL(resp.Value()), limits)
    {
      if resp.header.rcode != RCODE_SUCCESS && resp.header.rcode != RCODE_NAME_ERROR { return false, 0; }
      if resp.header.truncated { return false, 0; }
      ttl := CalculateMinTTL(resp);
      if ttl == 0 { return false, 0; }
      var minSec, maxSec := WholeSeconds(limits.minTTL), WholeSeconds(limits.maxTTL);
      if ttl < minSec { ttl := minSec; }
      if maxSec > 0 && ttl > maxSec { ttl := maxSec; }
      accepted := true;
    }

    method Store(key: CacheKey, resp: Msg, expireAt: int, ttl: nat, ghost e: Entry)
      requires Valid() && limits.enabled
      requires e == Entry(key, resp.Value(), expireAt, ttl)
      modifies this, evict
      ensures Valid() && fresh(messages - old(messages)) && fresh(records - old(records))
      ensures Contents() == Stored(old(Contents()), e, limits.maxSize)
    {
      MapFinds(key);
      if key in items {
        StoreKnown(key, resp, expireAt, ttl, e);
      } else {
        ghost var s := Contents();
        StoreNew(key, resp, expireAt, ttl);
        assert Contents() == Stored(s, e, limits.maxSize);
      }
    }

    /** Stores under a key that is there. */
    method StoreKnown(key: CacheKey, resp: Msg, expireAt: int, ttl: nat, ghost e: Entry)
      requires Valid() && key in items
      requires e == Entry(key, resp.Value(), expireAt, ttl)
      modifies this, evict
      ensures Valid() && fresh(messages - old(messages)) && fresh(records - old(records))
      ensures Contents() == Stored(old(Contents()), e, limits.maxSize)
    {
      ghost var s := Contents();
      MapFinds(key);
      var i := Locate(items[key]);
      Replace(i, resp, expireAt, ttl);
      assert Contents() == Stored(s, e, limits.maxSize);
    }

    /** Stores under a new key, evicting the oldest entry of a full cache. */
    method StoreNew(key: CacheKey, resp: Msg, expireAt: int, ttl: nat)
      requires Valid() && limits.enabled && key !in items
      modifies this
      ensures Valid() && fresh(messages - old(messages)) && fresh(records - old(records))
      ensures var s, e := old(Contents()), Entry(key, old(resp.Value()), expireAt, ttl);
              Contents() == [e] + if |s| >= limits.maxSize && s != [] then Remove(s, |s| - 1) else s
    {
      if |evict| >= limits.maxSize {
        Unlink(|evict| - 1);
      }
      Push(key, resp, expireAt, ttl);
    }

    /** Makes the i-th entry the most recent and gives it a copy of `resp`. */
    method Replace(i: nat, resp: Msg, expireAt: int, ttl: nat)
      requires Valid() && i < |evict|
      modifies this, evict[i]
      ensures Valid() && fresh(messages - old(messages)) && fresh(records - old(records))
      ensures Contents() == [Entry(old(evict[i].key), old(resp.Value()), expireAt, ttl)] + Remove(old(Contents()), i)
    {
      ghost var before, e := Contents(), Entry(evict[i].key, resp.Value(), expireAt, ttl);
      MoveToFront(i);
      Overwrite(resp, expireAt, ttl, e);
      ToFrontUpdated(before, i, e);
    }

    /** Gives the most recent entry a copy of `resp`. */
    method Overwrite(resp: Msg, expireAt: int, ttl: nat, ghost e: Entry)
      requires Valid() && evict != [] && e == Entry(evict[0].key, resp.Value(), expireAt, ttl)
      modifies this, evict[0]
      ensures Valid() && fresh(messages - old(messages)) && fresh(records - old(records))
      ensures Contents() == old(Contents())[0 := e]
    {
      var copy := CopyIn(resp);
      Assign(copy, expireAt, ttl);
    }

    method Assign(copy: Msg, expireAt: int, ttl: nat)
      requires Valid() && evict != [] && copy in messages && copy.Within(records)
      modifies evict[0]
      ensures Valid()
      ensures Contents() == old(Contents())[0 := Entry(evict[0].key, copy.Value(), expireAt, ttl)]
    {
      ghost var before, e := Contents(), Entry(evict[0].key, copy.Value(), expireAt, ttl);
      var entry := evict[0];
      entry.msg, entry.expireAt, entry.initialTTL := copy, expireAt, ttl;
      entry.value := e;
      forall j | 0 < j < |evict| ensures evict[j] != entry {
        assert Apart(evict, 0, j);
      }
      SameElements(Contents(), before[0 := e]);
    }

    /** A deep copy that the cache owns. */
    method CopyIn(resp: Msg) returns (copy: Msg)
      requires Valid()
      modifies this`messages, this`records
      ensures Valid() && fresh(messages - old(messages)) && fresh(records - old(records))
      ensures copy in messages && copy.Within(records)
      ensures copy.Value() == old(resp.Value())
    {
      ghost var own;
      copy, own := resp.Copy();
      Adopt(copy, own);
    }

    ghost method Adopt(copy: Msg, own: set<Record>)
      requires Valid() && copy.Within(own)
      modifies this`messages, this`records
      ensures Valid() && messages == old(messages) + {copy} && records == old(records) + own && copy.Within(records)
    {
      messages := messages + {copy};
      records := records + own;
      forall e | e in evict ensures Holds(e, messages, records) {
        assert Holds(e, old(messages), old(records));
      }
    }

    method Push(key: CacheKey, resp: Msg, expireAt: int, ttl: nat)
      requires Valid() && key !in items && |evict| < limits.maxSize
      modifies this
      ensures Valid() && fresh(messages - old(messages)) && fresh(records - old(records))
      ensures Contents() == [Entry(key, old(resp.Value()), expireAt, ttl)] + old(Contents())
    {
      var copy := CopyIn(resp);
      var entry := new CacheEntry(key, copy, expireAt, ttl);
      Link(entry);
    }

    method Link(entry: CacheEntry)
      requires Valid() && entry.key !in items && |evict| < limits.maxSize && Holds(entry, messages, records)
      modifies this
      ensures Valid() && messages == old(messages) && records == old(records)
      ensures Contents() == [entry.value] + old(Contents())
    {
      assert Linked([entry] + evict, items[entry.key := entry]) by { LinkedPush(evict, items, entry); }
      ValuesPush(evict, entry);
      evict := [entry] + evict;
      items := items[entry.key := entry];
    }
  }
}

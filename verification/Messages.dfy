/** DNS messages: their values, and the heap objects that hold them. */
module Messages {
  import opened Text

  // ---------------------------------------------------------------- values

  datatype Question = Question(name: string, qtype: nat, qclass: nat)

  const TYPE_A := 1
  const TYPE_AAAA := 28
  const CLASS_INET := 1

  const OPTION_CLIENT_SUBNET := 8
  const OPTION_PADDING := 12

  datatype EdnsOption = EdnsOption(code: nat, data: seq<nat>)

  datatype RData =
    | A(ip: seq<nat>)
    | AAAA(ip: seq<nat>)
    | CNAME(target: string)
    | Opt(udpSize: nat, dnssecOk: bool, options: seq<EdnsOption>)
    | Other(octets: seq<nat>)

  datatype RecordValue = RecordValue(name: string, rclass: nat, ttl: nat, rdata: RData)

  const RCODE_SUCCESS := 0
  const RCODE_FORMAT_ERROR := 1
  const RCODE_SERVER_FAILURE := 2
  const RCODE_NAME_ERROR := 3

  datatype Header = Header(
    response: bool,
    opcode: nat,
    authoritative: bool,
    truncated: bool,
    recursionDesired: bool,
    recursionAvailable: bool,
    authenticatedData: bool,
    checkingDisabled: bool,
    rcode: nat)

  datatype MessageValue = MessageValue(
    id: nat,
    header: Header,
    questions: seq<Question>,
    answer: seq<RecordValue>,
    ns: seq<RecordValue>,
    extra: seq<RecordValue>)

  /** Every record but the OPT pseudo-record takes the new time to live. */
  function Retimed(rr: RecordValue, ttl: nat): RecordValue {
    if rr.rdata.Opt? then rr else rr.(ttl := ttl)
  }

  function RetimedAll(rrs: seq<RecordValue>, ttl: nat): seq<RecordValue> {
    seq(|rrs|, i requires 0 <= i < |rrs| => Retimed(rrs[i], ttl))
  }

  function RetimedMessage(m: MessageValue, ttl: nat): MessageValue {
    m.(answer := RetimedAll(m.answer, ttl), ns := RetimedAll(m.ns, ttl), extra := RetimedAll(m.extra, ttl))
  }

  // ---------------------------------------------------------------- heap objects

  class Record {
    const name: string
    const rclass: nat
    var ttl: nat
    var rdata: RData

    constructor (v: RecordValue)
      ensures Value() == v
    {
      name, rclass, ttl, rdata := v.name, v.rclass, v.ttl, v.rdata;
    }

    function Value(): RecordValue
      reads this
    {
      RecordValue(name, rclass, ttl, rdata)
    }
  }

  function Values(rrs: seq<Record>): (vs: seq<RecordValue>)
    reads rrs
    ensures |vs| == |rrs|
    ensures forall i :: 0 <= i < |rrs| ==> vs[i] == rrs[i].Value()
  {
    seq(|rrs|, i requires 0 <= i < |rrs| reads rrs => rrs[i].Value())
  }

  class Msg {
    var id: nat
    var header: Header
    var questions: seq<Question>
    var answer: seq<Record>
    var ns: seq<Record>
    var extra: seq<Record>

    /** All records of the message are in `rs`. */
    ghost predicate Within(rs: set<Record>)
      reads this
    {
      && (forall i :: 0 <= i < |answer| ==> answer[i] in rs)
      && (forall i :: 0 <= i < |ns| ==> ns[i] in rs)
      && (forall i :: 0 <= i < |extra| ==> extra[i] in rs)
    }

    /** The i-th additional record occurs nowhere else in the message. */
    ghost predicate SoleAt(i: nat)
      reads this
      requires i < |extra|
    {
      && extra[i] !in answer && extra[i] !in ns
      && forall j :: 0 <= j < |extra| && j != i ==> extra[j] != extra[i]
    }

    ghost predicate Unaliased()
      reads this
    {
      forall i :: 0 <= i < |extra| ==> SoleAt(i)
    }

    /** Replaces the data of the i-th additional record in place. */
    method EditExtra(i: nat, rdata: RData)
      requires i < |extra| && Unaliased()
      modifies extra[i]
      ensures var v := old(Value());
              Value() == v.(extra := v.extra[i := v.extra[i].(rdata := rdata)])
    {
      ghost var v := Value();
      assert SoleAt(i);
      extra[i].rdata := rdata;
      SameElements(Values(answer), v.answer);
      SameElements(Values(ns), v.ns);
      SameElements(Values(extra), v.extra[i := v.extra[i].(rdata := rdata)]);
    }

    /** Appends a record. */
    method AddExtra(v: RecordValue)
      requires Unaliased()
      modifies this
      ensures |extra| == |old(extra)| + 1 && extra[..|old(extra)|] == old(extra) && fresh(extra[|old(extra)|])
      ensures Unaliased()
      ensures Value() == old(Value()).(extra := old(Value()).extra + [v])
      ensures answer == old(answer) && ns == old(ns)
    {
      ghost var before := Value();
      var rr := new Record(v);
      extra := extra + [rr];
      forall i | 0 <= i < |extra| ensures SoleAt(i) {
        if i < |old(extra)| { assert old(SoleAt(i)); }
      }
      SameElements(Values(extra), before.extra + [v]);
    }

    function Value(): MessageValue
      reads this, answer, ns, extra
    {
      MessageValue(id, header, questions, Values(answer), Values(ns), Values(extra))
    }

    constructor (id: nat, header: Header, questions: seq<Question>, answer: seq<Record>, ns: seq<Record>, extra: seq<Record>)
      ensures this.id == id && this.header == header && this.questions == questions
      ensures this.answer == answer && this.ns == ns && this.extra == extra
    {
      this.id, this.header, this.questions := id, header, questions;
      this.answer, this.ns, this.extra := answer, ns, extra;
    }

    /** Adjusts the times of all three sections. */
    method Retime(ttl: nat)
      modifies answer, ns, extra
      ensures Value() == RetimedMessage(old(Value()), ttl)
    {
      ghost var v := Value();
      UpdateRecordTTLs(answer, ttl);
      UpdateRecordTTLs(ns, ttl);
      UpdateRecordTTLs(extra, ttl);
      SameElements(Values(answer), RetimedAll(v.answer, ttl));
      SameElements(Values(ns), RetimedAll(v.ns, ttl));
      SameElements(Values(extra), RetimedAll(v.extra, ttl));
    }

    /** `dns.Msg.Copy`: a deep copy that shares no object with the original. */
    method Copy() returns (copy: Msg, ghost own: set<Record>)
      ensures fresh(copy) && fresh(own) && copy.Within(own) && copy.Unaliased()
      ensures copy.Value() == Value()
    {
      copy, own := Allocate(Value());
    }
  }

  method AllocateRecords(vs: seq<RecordValue>) returns (rrs: seq<Record>, ghost own: set<Record>)
    ensures fresh(own) && forall i :: 0 <= i < |rrs| ==> rrs[i] in own
    ensures forall i, j :: 0 <= i < j < |rrs| ==> rrs[i] != rrs[j]
    ensures Values(rrs) == vs
  {
    rrs, own := [], {};
    for i := 0 to |vs|
      invariant |rrs| == i && fresh(own)
      invariant forall k :: 0 <= k < i ==> rrs[k] in own && rrs[k].Value() == vs[k]
      invariant forall j, k :: 0 <= j < k < i ==> rrs[j] != rrs[k]
    {
      var rr := new Record(vs[i]);
      rrs, own := rrs + [rr], own + {rr};
    }
    SameElements(Values(rrs), vs);
  }

  /** A new message object with the given value, as decoding produces it. */
  method Allocate(v: MessageValue) returns (m: Msg, ghost own: set<Record>)
    ensures fresh(m) && fresh(own) && m.Within(own) && m.Unaliased()
    ensures m.Value() == v
  {
    var answer, own1 := AllocateRecords(v.answer);
    var ns, own2 := AllocateRecords(v.ns);
    var extra, own3 := AllocateRecords(v.extra);
    own := own1 + own2 + own3;
    m := new Msg(v.id, v.header, v.questions, answer, ns, extra);
  }

  /** Overwrites the time to live of every record but the OPT pseudo-record. */
  method UpdateRecordTTLs(rrs: seq<Record>, ttl: nat)
    modifies rrs
    ensures forall i :: 0 <= i < |rrs| ==> rrs[i].Value() == Retimed(old(rrs[i].Value()), ttl)
  {
    for i := 0 to |rrs|
      invariant forall k :: 0 <= k < |rrs| ==> rrs[k].rdata == old(rrs[k].rdata)
      invariant forall k :: 0 <= k < |rrs| ==> rrs[k].ttl == old(rrs[k].ttl) || (rrs[k].ttl == ttl && !rrs[k].rdata.Opt?)
      invariant forall k :: 0 <= k < i && !rrs[k].rdata.Opt? ==> rrs[k].ttl == ttl
    {
      if !rrs[i].rdata.Opt? {
        rrs[i].ttl := ttl;
      }
    }
  }
}

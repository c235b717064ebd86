/** EDNS(0) privacy transforms: padding (RFC 7830, RFC 8467), client-subnet stripping (RFC 7871) and the
    DNSSEC OK bit, on values and in place on messages. */
module Edns {
  import opened Text
  import opened Messages

  // ---------------------------------------------------------------- lengths

  function NameLength(name: string): nat {
    if name == "." then 1 else |name| + 1
  }

  function OptionsLength(options: seq<EdnsOption>): nat {
    if options == [] then 0 else OptionsLength(Front(options)) + 4 + |Last(options).data|
  }

  function DataLength(rdata: RData): nat {
    match rdata
    case A(_) => 4
    case AAAA(_) => 16
    case CNAME(target) => NameLength(target)
    case Opt(_, _, options) => OptionsLength(options)
    case Other(octets) => |octets|
  }

  function RecordsLength(rrs: seq<RecordValue>): nat {
    if rrs == [] then 0
    else RecordsLength(Front(rrs)) + NameLength(Last(rrs).name) + 10 + DataLength(Last(rrs).rdata)
  }

  function QuestionsLength(qs: seq<Question>): nat {
    if qs == [] then 0 else QuestionsLength(Front(qs)) + NameLength(Last(qs).name) + 4
  }

  /** `Msg.Len` without name compression. */
  function WireLength(m: MessageValue): nat {
    12 + QuestionsLength(m.questions) + RecordsLength(m.answer) + RecordsLength(m.ns) + RecordsLength(m.extra)
  }

  // ---------------------------------------------------------------- the OPT record

  /** Index of the last OPT record, or -1: the one that `IsEdns0` finds. */
  function OptIndex(extra: seq<RecordValue>): (i: int)
    ensures -1 <= i < |extra|
    ensures i >= 0 ==> extra[i].rdata.Opt?
    ensures forall k :: i < k < |extra| ==> !extra[k].rdata.Opt?
  {
    if extra == [] then -1
    else if Last(extra).rdata.Opt? then |extra| - 1
    else OptIndex(Front(extra))
  }

  predicate HasOpt(m: MessageValue) { OptIndex(m.extra) >= 0 }

  function OptOf(m: MessageValue): RData
    requires HasOpt(m)
  {
    m.extra[OptIndex(m.extra)].rdata
  }

  function WithOpt(m: MessageValue, opt: RData): MessageValue
    requires HasOpt(m)
  {
    var i := OptIndex(m.extra);
    m.(extra := m.extra[i := m.extra[i].(rdata := opt)])
  }

  function OptionsOf(m: MessageValue): seq<EdnsOption>
    requires HasOpt(m)
  {
    var opt := OptOf(m);
    opt.options
  }

  function WithOptions(m: MessageValue, options: seq<EdnsOption>): MessageValue
    requires HasOpt(m)
  {
    var opt := OptOf(m);
    WithOpt(m, opt.(options := options))
  }

  /** `SetEdns0`: appends an OPT record without options. */
  function AddOpt(m: MessageValue, udpSize: nat, dnssecOk: bool): MessageValue {
    m.(extra := m.extra + [RecordValue(".", 0, 0, Opt(udpSize, dnssecOk, []))])
  }

  function EnsureOpt(m: MessageValue): (w: MessageValue)
    ensures HasOpt(w)
  {
    AddOptLaws(m, 1232, false);
    if HasOpt(m) then m else AddOpt(m, 1232, false)
  }

  /** The options other than those with the code, in order. */
  function Dropping(options: seq<EdnsOption>, code: nat): seq<EdnsOption> {
    if options == [] then []
    else Dropping(Front(options), code) + if Last(options).code == code then [] else [Last(options)]
  }

  lemma {:induction false} OptIndexUpdated(extra: seq<RecordValue>, rr: RecordValue)
    requires OptIndex(extra) >= 0 && rr.rdata.Opt?
    ensures OptIndex(extra[OptIndex(extra) := rr]) == OptIndex(extra)
  {
    var i := OptIndex(extra);
    if i != |extra| - 1 {
      SameElements(Front(extra[i := rr]), Front(extra)[i := rr]);
      OptIndexUpdated(Front(extra), rr);
    }
  }

  /** Setting the OPT record's data is a field update: read back what was set, last write wins. */
  lemma WithOptLaws(m: MessageValue, a: RData, b: RData)
    requires HasOpt(m) && a.Opt? && b.Opt?
    ensures HasOpt(WithOpt(m, a)) && OptOf(WithOpt(m, a)) == a
    ensures OptIndex(WithOpt(m, a).extra) == OptIndex(m.extra)
    ensures WithOpt(WithOpt(m, a), b) == WithOpt(m, b)
    ensures WithOpt(m, OptOf(m)) == m
  {
    var i := OptIndex(m.extra);
    OptIndexUpdated(m.extra, m.extra[i].(rdata := a));
  }

  lemma AddOptLaws(m: MessageValue, udpSize: nat, dnssecOk: bool)
    ensures OptIndex(AddOpt(m, udpSize, dnssecOk).extra) == |m.extra|
    ensures OptOf(AddOpt(m, udpSize, dnssecOk)) == Opt(udpSize, dnssecOk, [])
  {
  }

  // ---------------------------------------------------------------- padding

  function BlockSize(blockSize: int): nat
    ensures BlockSize(blockSize) > 0
  {
    if blockSize <= 0 then 128 else blockSize
  }

  function Padding(length: nat): EdnsOption {
    EdnsOption(OPTION_PADDING, seq(length, _ => 0))
  }

  function WithPadding(m: MessageValue, length: nat): MessageValue
    requires HasOpt(m)
  {
    WithOptions(m, Dropping(OptionsOf(m), OPTION_PADDING) + [Padding(length)])
  }

  function PadLength(m: MessageValue, blockSize: int): nat
    requires HasOpt(m)
  {
    var rem := WireLength(WithPadding(m, 0)) % BlockSize(blockSize);
    if rem == 0 then 0 else BlockSize(blockSize) - rem
  }

  function Padded(m: MessageValue, blockSize: int): MessageValue {
    WithPadding(EnsureOpt(m), PadLength(EnsureOpt(m), blockSize))
  }

  // ---------------------------------------------------------------- in place

  method IsEdns0(m: Msg) returns (i: int)
    ensures i == OptIndex(m.Value().extra)
  {
    i := |m.extra| - 1;
    ghost var extra := m.Value().extra;
    TakeAll(extra);
    while i >= 0 && !m.extra[i].rdata.Opt?
      invariant -1 <= i < |m.extra|
      invariant OptIndex(extra) == OptIndex(extra[..i + 1])
    {
      TakeStep(extra, i);
      i := i - 1;
    }
    if i >= 0 { TakeStep(extra, i); }
  }

  method DropOptions(options: seq<EdnsOption>, code: nat) returns (clean: seq<EdnsOption>)
    ensures clean == Dropping(options, code)
  {
    clean := [];
    TakeAll(options);
    for i := 0 to |options|
      invariant clean == Dropping(options[..i], code)
    {
      TakeStep(options, i);
      AppendNothing(clean);
      if options[i].code != code {
        clean := clean + [options[i]];
      }
    }
  }

  method ApplyEDNS0Padding(req: Msg, blockSize: int)
    requires req.Unaliased()
    modifies req, req.extra
    ensures req.Value() == Padded(old(req.Value()), blockSize)
  {
    var i := FindOrAddOpt(req);
    PadOpt(req, i, if blockSize <= 0 then 128 else blockSize);
  }

  method FindOrAddOpt(req: Msg) returns (i: nat)
    requires req.Unaliased()
    modifies req
    ensures req.Unaliased() && i < |req.extra| && i == OptIndex(req.Value().extra)
    ensures req.Value() == EnsureOpt(old(req.Value()))
    ensures req.extra[i] in old(req.extra) || fresh(req.extra[i])
  {
    var found := IsEdns0(req);
    if found < 0 {
      req.AddExtra(RecordValue(".", 0, 0, Opt(1232, false, [])));
      found := IsEdns0(req);
    }
    i := found;
  }

  method PadOpt(req: Msg, i: nat, size: nat)
    requires req.Unaliased() && i < |req.extra| && i == OptIndex(req.Value().extra) && size > 0
    modifies req.extra[i]
    ensures HasOpt(old(req.Value())) && req.Value() == WithPadding(old(req.Value()), PadLength(old(req.Value()), size))
  {
    ghost var v := req.Value();
    var opt := req.extra[i].rdata;
    var clean := DropOptions(opt.options, OPTION_PADDING);
    var empty := opt.(options := clean + [Padding(0)]);
    req.EditExtra(i, empty);
    assert req.Value() == WithPadding(v, 0);
    var rem := WireLength(req.Value()) % size;
    if rem != 0 {
      var full := opt.(options := clean + [Padding(size - rem)]);
      req.EditExtra(i, full);
      assert req.Value() == WithOpt(v, full) by {
        WithOptLaws(v, empty, full);
      }
    }
  }
}

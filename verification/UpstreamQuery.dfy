/** The query sent upstream: case randomisation, client-subnet stripping, the DO bit and padding. */
module UpstreamQuery {
  import opened Text
  import opened Messages
  import opened CacheModel
  import opened Casing
  import opened Edns
  import opened PaddingLaws

  datatype PrivacyConfig = PrivacyConfig(dns0x20: bool, dnssec: bool, padding: bool, blockSize: int)

  /** The first question's name, recased by random bits. */
  function RandomizedName(name: string, random: nat -> bv8): string {
    seq(|name|, i requires 0 <= i < |name| => Recased(name[i], RandomBit(RandomBytes(name, random), i)))
  }

  function RandomBytes(name: string, random: nat -> bv8): (bytes: seq<bv8>)
    ensures |bytes| == (|name| + 7) / 8
  {
    seq((|name| + 7) / 8, i requires 0 <= i => random(i))
  }

  function Randomized(m: MessageValue, random: nat -> bv8): MessageValue {
    if m.questions == [] then m
    else m.(questions := m.questions[0 := m.questions[0].(name := RandomizedName(m.questions[0].name, random))])
  }

  function Stripped(m: MessageValue, dnssec: bool): MessageValue
    requires HasOpt(m)
  {
    var opt := OptOf(m);
    WithOpt(m, opt.(options := Dropping(opt.options, OPTION_CLIENT_SUBNET), dnssecOk := opt.dnssecOk || dnssec))
  }

  function Cased(m: MessageValue, cfg: PrivacyConfig, random: nat -> bv8): MessageValue {
    if cfg.dns0x20 then Randomized(m, random) else m
  }

  function Cleaned(m: MessageValue, cfg: PrivacyConfig): MessageValue {
    if HasOpt(m) then Stripped(m, cfg.dnssec)
    else if cfg.dnssec || cfg.padding then AddOpt(m, 1232, cfg.dnssec)
    else m
  }

  function Prepared(m: MessageValue, cfg: PrivacyConfig, random: nat -> bv8): MessageValue {
    var clean := Cleaned(Cased(m, cfg, random), cfg);
    if cfg.padding then Padded(clean, cfg.blockSize) else clean
  }

  // ---------------------------------------------------------------- in place, on a copy

  /** Works on a deep copy: with nothing in the frame, the client's message stays as it was. */
  method PrepareUpstreamQuery(r: Msg, cfg: PrivacyConfig, random: nat -> bv8) returns (req: Msg, ghost own: set<Record>)
    ensures fresh(req) && fresh(own)
    ensures req.Value() == Prepared(old(r.Value()), cfg, random)
  {
    req, own := CopyCased(r, cfg, random);
    Clean(req, cfg);
    if cfg.padding {
      ApplyEDNS0Padding(req, cfg.blockSize);
    }
  }

  method CopyCased(r: Msg, cfg: PrivacyConfig, random: nat -> bv8) returns (req: Msg, ghost own: set<Record>)
    ensures fresh(req) && fresh(own) && req.Within(own) && req.Unaliased()
    ensures req.Value() == Cased(r.Value(), cfg, random)
  {
    req, own := r.Copy();
    if cfg.dns0x20 && |req.questions| > 0 {
      RandomizeQuestion(req, random);
    }
  }

  /** Strips the client subnet and sets the DO bit, or adds an OPT record where one is needed. */
  method Clean(req: Msg, cfg: PrivacyConfig)
    requires req.Unaliased()
    modifies req, req.extra
    ensures req.Unaliased()
    ensures forall i :: 0 <= i < |req.extra| ==> req.extra[i] in old(req.extra) || fresh(req.extra[i])
    ensures req.Value() == Cleaned(old(req.Value()), cfg)
  {
    var i := IsEdns0(req);
    if i >= 0 {
      Strip(req, i, cfg.dnssec);
    } else if cfg.dnssec || cfg.padding {
      req.AddExtra(RecordValue(".", 0, 0, Opt(1232, cfg.dnssec, [])));
    }
  }

  method RandomizeQuestion(req: Msg, random: nat -> bv8)
    requires req.questions != [] && req.Unaliased()
    modifies req
    ensures req.answer == old(req.answer) && req.ns == old(req.ns) && req.extra == old(req.extra)
    ensures req.Unaliased()
    ensures req.Value() == Randomized(old(req.Value()), random)
  {
    var name := req.questions[0].name;
    var out := Randomize0x20(name, RandomBytes(name, random));
    SameElements(out, RandomizedName(name, random));
    req.questions := req.questions[0 := req.questions[0].(name := out)];
    forall i | 0 <= i < |req.extra| ensures req.SoleAt(i) {
      assert old(req.SoleAt(i));
    }
  }

  method Strip(req: Msg, i: nat, dnssec: bool)
    requires req.Unaliased() && i < |req.extra| && i == OptIndex(req.Value().extra)
    modifies req.extra[i]
    ensures HasOpt(old(req.Value())) && req.Value() == Stripped(old(req.Value()), dnssec)
  {
    var opt := req.extra[i].rdata;
    var clean := DropOptions(opt.options, OPTION_CLIENT_SUBNET);
    req.EditExtra(i, opt.(options := clean, dnssecOk := opt.dnssecOk || dnssec));
  }

  // ---------------------------------------------------------------- what the query discloses

  ghost predicate NoOption(rr: RecordValue, code: nat) {
    rr.rdata.Opt? ==> forall o :: o in rr.rdata.options ==> o.code != code
  }

  /** No record of the additional section carries a client subnet. */
  ghost predicate NoClientSubnet(m: MessageValue) {
    forall i :: 0 <= i < |m.extra| ==> NoOption(m.extra[i], OPTION_CLIENT_SUBNET)
  }

  /** No OPT record but the last carries a client subnet. In particular when there is at most one. */
  ghost predicate OnlyLastOptHasSubnet(m: MessageValue) {
    forall i :: 0 <= i < |m.extra| && i != OptIndex(m.extra) ==> NoOption(m.extra[i], OPTION_CLIENT_SUBNET)
  }

  /** The two messages agree on everything but the last OPT record, which the second has and the first
      may lack. */
  ghost predicate SameButOpt(m: MessageValue, q: MessageValue) {
    && q.id == m.id && q.header == m.header && q.answer == m.answer && q.ns == m.ns
    && if HasOpt(m) then
         && OptIndex(q.extra) == OptIndex(m.extra) && |q.extra| == |m.extra|
         && forall i :: 0 <= i < |m.extra| && i != OptIndex(m.extra) ==> q.extra[i] == m.extra[i]
       else
         q.extra == m.extra || (|q.extra| == |m.extra| + 1 && q.extra[..|m.extra|] == m.extra && Last(q.extra).rdata.Opt?)
  }

  ghost predicate SameQuestions(m: MessageValue, q: MessageValue) {
    && |q.questions| == |m.questions|
    && forall i :: 0 <= i < |m.questions| ==>
         && q.questions[i].qtype == m.questions[i].qtype && q.questions[i].qclass == m.questions[i].qclass
         && ToLower(q.questions[i].name) == ToLower(m.questions[i].name)
         && MakeKey(q.questions[i]) == MakeKey(m.questions[i])
  }

  function InitialOptions(m: MessageValue): seq<EdnsOption> {
    if HasOpt(m) then OptionsOf(m) else []
  }

  /** An OPT record that was there keeps its UDP size and all fields outside its data, and its DO bit
      unless DNSSEC sets it; a new one has the default size and the DO bit of the configuration. */
  ghost predicate OptKept(m: MessageValue, q: MessageValue, dnssec: bool)
    requires HasOpt(q)
  {
    && OptOf(q).Opt?
    && if HasOpt(m) then
         var i := OptIndex(m.extra);
         && OptIndex(q.extra) == i < |q.extra| && q.extra[i].(rdata := m.extra[i].rdata) == m.extra[i]
         && OptOf(m).Opt? && OptOf(q).udpSize == OptOf(m).udpSize
         && OptOf(q).dnssecOk == (OptOf(m).dnssecOk || dnssec)
       else OptOf(q).udpSize == 1232 && OptOf(q).dnssecOk == dnssec
  }

  /** Each letter takes the case of its random bit, and nothing else changes. */
  ghost predicate SpeltByBits(name: string, out: string, random: nat -> bv8) {
    && |out| == |name|
    && forall i :: 0 <= i < |name| ==>
         if IsLetter(name[i]) then IsUpper(out[i]) == (random(i / 8) & Mask(i % 8) != 0) && LowerChar(out[i]) == LowerChar(name[i])
         else out[i] == name[i]
  }

  /** With 0x20 casing on, the first name is spelt by random bits; all else is as it was. */
  ghost predicate CasedByBits(qs: seq<Question>, out: seq<Question>, random: nat -> bv8, on: bool) {
    && |out| == |qs|
    && (forall i :: 0 <= i < |qs| && (i > 0 || !on) ==> out[i] == qs[i])
    && (on && qs != [] ==> SpeltByBits(qs[0].name, out[0].name, random) && out[0].(name := qs[0].name) == qs[0])
  }

  lemma CasedBits(m: MessageValue, cfg: PrivacyConfig, random: nat -> bv8)
    ensures CasedByBits(m.questions, Cased(m, cfg, random).questions, random, cfg.dns0x20)
  {
    if cfg.dns0x20 && m.questions != [] {
      SpeltBits(m.questions[0].name, random);
    }
  }

  lemma SpeltBits(name: string, random: nat -> bv8)
    ensures SpeltByBits(name, RandomizedName(name, random), random)
  {
    forall i | 0 <= i < |name|
      ensures RandomizedName(name, random)[i] == Recased(name[i], random(i / 8) & Mask(i % 8) != 0)
    {
      assert RandomBytes(name, random)[i / 8] == random(i / 8);
    }
    forall i | 0 <= i < |name| { RecasedCase(name[i], random(i / 8) & Mask(i % 8) != 0); }
  }

  // ---------------------------------------------------------------- laws of the steps

  lemma CasedQuestions(m: MessageValue, cfg: PrivacyConfig, random: nat -> bv8)
    ensures SameQuestions(m, Cased(m, cfg, random))
    ensures Cased(m, cfg, random).(questions := m.questions) == m
  {
    if cfg.dns0x20 && m.questions != [] {
      var name := m.questions[0].name;
      var out := RandomizedName(name, random);
      forall i | 0 <= i < |name| ensures LowerChar(out[i]) == LowerChar(name[i]) {
        RecasedLower(name[i], RandomBit(RandomBytes(name, random), i));
      }
      SameElements(ToLower(out), ToLower(name));
      CanonicalIgnoresCase(out, name);
    }
  }

  /** Setting the OPT record's data touches that record only. */
  lemma OptOnly(m: MessageValue, opt: RData)
    requires HasOpt(m) && opt.Opt?
    ensures SameButOpt(m, WithOpt(m, opt)) && WithOpt(m, opt).questions == m.questions
    ensures HasOpt(WithOpt(m, opt)) && OptOf(WithOpt(m, opt)) == opt
  {
    WithOptLaws(m, opt, opt);
  }

  lemma SameButOptTransitive(m: MessageValue, n: MessageValue, q: MessageValue)
    requires SameButOpt(m, n) && SameButOpt(n, q) && HasOpt(n)
    ensures SameButOpt(m, q)
  {
    if !HasOpt(m) {
      assert OptIndex(n.extra) == |m.extra|;
      assert forall i :: 0 <= i < |m.extra| ==> q.extra[i] == n.extra[i] == n.extra[..|m.extra|][i];
      SameElements(q.extra[..|m.extra|], m.extra);
    }
  }

  lemma CleanedLaws(m: MessageValue, cfg: PrivacyConfig)
    ensures var c := Cleaned(m, cfg);
            && SameButOpt(m, c) && c.questions == m.questions
            && (HasOpt(c) <==> HasOpt(m) || cfg.dnssec || cfg.padding)
            && (HasOpt(c) ==> OptionsOf(c) == Dropping(InitialOptions(m), OPTION_CLIENT_SUBNET))
            && (HasOpt(c) ==> OptKept(m, c, cfg.dnssec))
  {
    if HasOpt(m) {
      var opt := OptOf(m);
      OptOnly(m, opt.(options := Dropping(opt.options, OPTION_CLIENT_SUBNET), dnssecOk := opt.dnssecOk || cfg.dnssec));
    } else {
      AddOptLaws(m, 1232, cfg.dnssec);
    }
  }

  lemma PaddedLaws(c: MessageValue, blockSize: int)
    requires HasOpt(c)
    ensures var p := Padded(c, blockSize);
            && SameButOpt(c, p) && p.questions == c.questions && HasOpt(p)
            && Dropping(OptionsOf(p), OPTION_PADDING) == Dropping(OptionsOf(c), OPTION_PADDING)
            && OptKept(c, p, false)
            && (forall o :: o in OptionsOf(p) ==> o.code == OPTION_PADDING || o in OptionsOf(c))
            && WireLength(p) % BlockSize(blockSize) == 0
  {
    var length := PadLength(c, blockSize);
    var opt := OptOf(c);
    OptOnly(c, opt.(options := Dropping(OptionsOf(c), OPTION_PADDING) + [Padding(length)]));
    DroppingPadding(OptionsOf(c), length);
    DroppingMembers(OptionsOf(c), OPTION_PADDING);
    PaddedIsAligned(c, blockSize);
  }

  // ---------------------------------------------------------------- the main results

  /** The prepared query: same question up to case, everything outside the OPT record as it was, the
      other options kept in order, with padding off the padding options too, the record's other fields as
      they were but for DO set with DNSSEC, and block-aligned with padding. */
  lemma PreparedLaws(m: MessageValue, cfg: PrivacyConfig, random: nat -> bv8)
    ensures var q := Prepared(m, cfg, random);
            && SameQuestions(m, q) && CasedByBits(m.questions, q.questions, random, cfg.dns0x20) && SameButOpt(m, q)
            && (HasOpt(q) <==> HasOpt(m) || cfg.dnssec || cfg.padding)
            && (HasOpt(q) ==>
                  Dropping(OptionsOf(q), OPTION_PADDING) == Dropping(Dropping(InitialOptions(m), OPTION_CLIENT_SUBNET), OPTION_PADDING))
            && (HasOpt(q) ==> NoOption(q.extra[OptIndex(q.extra)], OPTION_CLIENT_SUBNET))
            && (HasOpt(q) ==> OptKept(m, q, cfg.dnssec))
            && (HasOpt(q) && !cfg.padding ==> OptionsOf(q) == Dropping(InitialOptions(m), OPTION_CLIENT_SUBNET))
            && (cfg.padding ==> WireLength(q) % BlockSize(cfg.blockSize) == 0)
  {
    var cased := Cased(m, cfg, random);
    var c := Cleaned(cased, cfg);
    CasedQuestions(m, cfg, random);
    CasedBits(m, cfg, random);
    CleanedLaws(cased, cfg);
    DroppingMembers(InitialOptions(m), OPTION_CLIENT_SUBNET);
    assert SameButOpt(m, c);
    if cfg.padding {
      PaddedLaws(c, cfg.blockSize);
      SameButOptTransitive(m, c, Padded(c, cfg.blockSize));
    }
  }

  /** The query discloses no client subnet exactly when no OPT record other than the last had one;
      only the last is looked at. */
  lemma ClientSubnetStripped(m: MessageValue, cfg: PrivacyConfig, random: nat -> bv8)
    ensures NoClientSubnet(Prepared(m, cfg, random)) <==> OnlyLastOptHasSubnet(m)
  {
    var q := Prepared(m, cfg, random);
    PreparedLaws(m, cfg, random);
    SubnetElsewhere(m, q);
  }

  lemma SubnetElsewhere(m: MessageValue, q: MessageValue)
    requires SameButOpt(m, q)
    requires HasOpt(q) ==> NoOption(q.extra[OptIndex(q.extra)], OPTION_CLIENT_SUBNET)
    ensures NoClientSubnet(q) <==> OnlyLastOptHasSubnet(m)
  {
    if !HasOpt(m) {
      forall i | 0 <= i < |q.extra| ensures NoOption(q.extra[i], OPTION_CLIENT_SUBNET) {
        if i < |m.extra| {
          assert q.extra[i] == q.extra[..|m.extra|][i];
        }
      }
    }
  }

  /** With at most one OPT record, as RFC 6891 section 6.1.1 demands, no client subnet leaves. */
  lemma OneOptNoSubnet(m: MessageValue, cfg: PrivacyConfig, random: nat -> bv8)
    requires forall i, j :: 0 <= i < j < |m.extra| ==> !(m.extra[i].rdata.Opt? && m.extra[j].rdata.Opt?)
    ensures NoClientSubnet(Prepared(m, cfg, random))
  {
    ClientSubnetStripped(m, cfg, random);
  }

  /** A message with a client subnet in the first of two OPT records. */
  function TwoOpts(): MessageValue {
    var subnet := Opt(1232, false, [EdnsOption(OPTION_CLIENT_SUBNET, [])]);
    MessageValue(0, Header(false, 0, false, false, true, false, false, false, RCODE_SUCCESS), [], [], [],
                 [RecordValue(".", 0, 0, subnet), RecordValue(".", 0, 0, Opt(1232, false, []))])
  }

  /** With every configuration it goes out with that client subnet. */
  lemma TwoOptsDisclose(cfg: PrivacyConfig, random: nat -> bv8)
    ensures !NoClientSubnet(Prepared(TwoOpts(), cfg, random))
  {
    var m := TwoOpts();
    assert Last(m.extra).rdata.Opt?;
    var rdata := m.extra[0].rdata;
    assert rdata.options[0].code == OPTION_CLIENT_SUBNET;
    assert !NoOption(m.extra[0], OPTION_CLIENT_SUBNET);
    ClientSubnetStripped(m, cfg, random);
  }
}

/** What padding achieves, for every message and block size. */
module PaddingLaws {
  import opened Text
  import opened Messages
  import opened Edns
  import opened Arithmetic

  // ---------------------------------------------------------------- additive lengths

  lemma {:induction false} OptionsLengthConcat(a: seq<EdnsOption>, b: seq<EdnsOption>)
    ensures OptionsLength(a + b) == OptionsLength(a) + OptionsLength(b)
    decreases |b|
  {
    if b == [] {
      AppendNothing(a);
    } else {
      FrontOfConcat(a, b);
      OptionsLengthConcat(a, Front(b));
    }
  }

  lemma {:induction false} RecordsLengthUpdated(rrs: seq<RecordValue>, i: nat, rdata: RData)
    requires i < |rrs|
    ensures RecordsLength(rrs[i := rrs[i].(rdata := rdata)]) == RecordsLength(rrs) - DataLength(rrs[i].rdata) + DataLength(rdata)
  {
    var after := rrs[i := rrs[i].(rdata := rdata)];
    if i == |rrs| - 1 {
      assert Front(after) == Front(rrs);
    } else {
      assert Front(after) == Front(rrs)[i := Front(rrs)[i].(rdata := rdata)];
      RecordsLengthUpdated(Front(rrs), i, rdata);
    }
  }

  /** Padding bytes add to the length one for one. */
  lemma PaddingLength(m: MessageValue, length: nat)
    requires HasOpt(m)
    ensures WireLength(WithPadding(m, length)) == WireLength(WithPadding(m, 0)) + length
  {
    var kept := Dropping(OptionsOf(m), OPTION_PADDING);
    var i := OptIndex(m.extra);
    OptionsLengthConcat(kept, [Padding(length)]);
    OptionsLengthConcat(kept, [Padding(0)]);
    OnePadding(length);
    OnePadding(0);
    var opt := OptOf(m);
    RecordsLengthUpdated(m.extra, i, opt.(options := kept + [Padding(length)]));
    RecordsLengthUpdated(m.extra, i, opt.(options := kept + [Padding(0)]));
  }

  lemma OnePadding(length: nat)
    ensures OptionsLength([Padding(length)]) == 4 + length
  {
    assert Front([Padding(length)]) == [];
  }

  // ---------------------------------------------------------------- dropping options

  lemma {:induction false} DroppingConcat(a: seq<EdnsOption>, b: seq<EdnsOption>, code: nat)
    ensures Dropping(a + b, code) == Dropping(a, code) + Dropping(b, code)
    decreases |b|
  {
    if b == [] {
      AppendNothing(a);
    } else {
      FrontOfConcat(a, b);
      DroppingConcat(a, Front(b), code);
      AppendAssociates(Dropping(a, code), Dropping(Front(b), code), if Last(b).code == code then [] else [Last(b)]);
    }
  }

  lemma {:induction false} DroppingMembers(options: seq<EdnsOption>, code: nat)
    ensures forall o :: o in Dropping(options, code) <==> o in options && o.code != code
  {
    if options != [] {
      DroppingMembers(Front(options), code);
      FrontLast(options);
    }
  }

  lemma {:induction false} DroppingNothing(options: seq<EdnsOption>, code: nat)
    requires forall o :: o in options ==> o.code != code
    ensures Dropping(options, code) == options
  {
    if options != [] {
      FrontLast(options);
      assert Last(options) in options;
      DroppingNothing(Front(options), code);
    }
  }

  lemma DroppingTwice(options: seq<EdnsOption>, code: nat)
    ensures Dropping(Dropping(options, code), code) == Dropping(options, code)
  {
    DroppingMembers(options, code);
    DroppingNothing(Dropping(options, code), code);
  }

  lemma DroppingPadding(options: seq<EdnsOption>, length: nat)
    ensures Dropping(Dropping(options, OPTION_PADDING) + [Padding(length)], OPTION_PADDING) == Dropping(options, OPTION_PADDING)
  {
    var kept := Dropping(options, OPTION_PADDING);
    DroppingConcat(kept, [Padding(length)], OPTION_PADDING);
    DroppingTwice(options, OPTION_PADDING);
    assert Front([Padding(length)]) == [];
    AppendNothing(kept);
  }

  // ---------------------------------------------------------------- the laws

  /** Exactly one padding option, placed last after all other options in their order; and the least
      multiple of the block size that fits the message with an empty padding option. */
  lemma PaddedIsAligned(m: MessageValue, blockSize: int)
    ensures var w, p := EnsureOpt(m), Padded(m, blockSize);
            && HasOpt(p)
            && (exists length: nat :: OptionsOf(p) == Dropping(OptionsOf(w), OPTION_PADDING) + [Padding(length)])
            && (forall o :: o in Front(OptionsOf(p)) ==> o.code != OPTION_PADDING)
            && WireLength(p) % BlockSize(blockSize) == 0
            && WireLength(WithPadding(w, 0)) <= WireLength(p) < WireLength(WithPadding(w, 0)) + BlockSize(blockSize)
  {
    var w := EnsureOpt(m);
    var length, kept := PadLength(w, blockSize), Dropping(OptionsOf(w), OPTION_PADDING);
    PaddingLength(w, length);
    var opt := OptOf(w);
    WithOptLaws(w, opt.(options := kept + [Padding(length)]), opt);
    DroppingMembers(OptionsOf(w), OPTION_PADDING);
    assert Front(kept + [Padding(length)]) == kept;
    RoundUp(WireLength(WithPadding(w, 0)), BlockSize(blockSize));
  }

  lemma RoundUp(length: nat, size: nat)
    requires size > 0
    ensures (length + if length % size == 0 then 0 else size - length % size) % size == 0
  {
    if length % size != 0 {
      assert length + (size - length % size) == (length / size + 1) * size;
      MultipleMod(length / size + 1, size);
    }
  }

  /** The outcome depends only on the message without its padding. */
  lemma PaddingForgotten(m: MessageValue, other: MessageValue, blockSize: int)
    requires HasOpt(m) && HasOpt(other)
    requires WithOptions(m, []) == WithOptions(other, [])
    requires Dropping(OptionsOf(m), OPTION_PADDING) == Dropping(OptionsOf(other), OPTION_PADDING)
    ensures Padded(m, blockSize) == Padded(other, blockSize)
  {
    forall length: nat ensures WithPadding(m, length) == WithPadding(other, length) {
      var options := Dropping(OptionsOf(m), OPTION_PADDING) + [Padding(length)];
      Reset(m, options);
      Reset(other, options);
    }
  }

  lemma Reset(m: MessageValue, options: seq<EdnsOption>)
    requires HasOpt(m)
    ensures HasOpt(WithOptions(m, [])) && WithOptions(WithOptions(m, []), options) == WithOptions(m, options)
  {
    var opt := OptOf(m);
    WithOptLaws(m, opt.(options := []), opt.(options := options));
  }

  /** Padding a padded message changes nothing. */
  lemma PaddedIdempotent(m: MessageValue, blockSize: int)
    ensures Padded(Padded(m, blockSize), blockSize) == Padded(m, blockSize)
  {
    var w := EnsureOpt(m);
    var p := Padded(m, blockSize);
    var length := PadLength(w, blockSize);
    var opt := OptOf(w);
    var padded := opt.(options := Dropping(OptionsOf(w), OPTION_PADDING) + [Padding(length)]);
    WithOptLaws(w, padded, opt.(options := []));
    DroppingPadding(OptionsOf(w), length);
    PaddingForgotten(p, w, blockSize);
  }
}

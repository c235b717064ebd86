/** DNS 0x20 encoding: random letter case that carries extra entropy. */
module Casing {
  import opened Text

  /** Bit 0x20 of a character code. */
  predicate Bit20(c: char) { c as int / 0x20 % 2 == 1 }

  /** `c | 0x20` for ASCII. */
  function SetBit20(c: char): char
    requires c as int < 128
  {
    if Bit20(c) then c else (c as int + 0x20) as char
  }

  /** `c &^ 0x20`. */
  function ClearBit20(c: char): char {
    if Bit20(c) then (c as int - 0x20) as char else c
  }

  function Recased(c: char, upper: bool): char {
    if !IsLetter(c) then c else if upper then ClearBit20(c) else SetBit20(c)
  }

  /** `1 << k` for a byte. */
  function Mask(k: nat): bv8
    requires k < 8
  {
    if k == 0 then 1 else Mask(k - 1) << 1
  }

  /** The i-th bit of the random bytes, lowest bit of each byte first. */
  predicate RandomBit(random: seq<bv8>, i: nat)
    requires i / 8 < |random|
  {
    random[i / 8] & Mask(i % 8) != 0
  }

  /** Gives each letter the case of its random bit. */
  method RecaseInPlace(b: array<char>, random: seq<bv8>)
    requires |random| == (b.Length + 7) / 8
    modifies b
    ensures forall k :: 0 <= k < b.Length ==> b[k] == Recased(old(b[k]), RandomBit(random, k))
  {
    for i := 0 to b.Length
      invariant forall k :: 0 <= k < i ==> b[k] == Recased(old(b[k]), RandomBit(random, k))
      invariant forall k :: i <= k < b.Length ==> b[k] == old(b[k])
    {
      var c := b[i];
      if 'a' <= c <= 'z' || 'A' <= c <= 'Z' {
        var isUpper := random[i / 8] & Mask(i % 8) != 0;
        if isUpper {
          b[i] := ClearBit20(c);
        } else {
          b[i] := SetBit20(c);
        }
      }
    }
  }

  method Randomize0x20(name: string, random: seq<bv8>) returns (out: string)
    requires |random| == (|name| + 7) / 8
    ensures |out| == |name|
    ensures forall i :: 0 <= i < |name| ==> out[i] == Recased(name[i], RandomBit(random, i))
    ensures ToLower(out) == ToLower(name) && CanonicalName(out) == CanonicalName(name)
  {
    if name == "" {
      return name;
    }
    var b := new char[|name|](i requires 0 <= i < |name| => name[i]);
    assert b[..] == name;
    RecaseInPlace(b, random);
    out := b[..];
    RecasedAll(name, random, out);
  }

  lemma RecasedAll(name: string, random: seq<bv8>, out: string)
    requires |random| == (|name| + 7) / 8 && |out| == |name|
    requires forall i :: 0 <= i < |name| ==> out[i] == Recased(name[i], RandomBit(random, i))
    ensures ToLower(out) == ToLower(name) && CanonicalName(out) == CanonicalName(name)
  {
    forall i | 0 <= i < |name| ensures LowerChar(out[i]) == LowerChar(name[i]) {
      RecasedLower(name[i], RandomBit(random, i));
    }
    SameElements(ToLower(out), ToLower(name));
    CanonicalIgnoresCase(out, name);
  }

  lemma RecasedLower(c: char, upper: bool)
    ensures LowerChar(Recased(c, upper)) == LowerChar(c)
  {
  }

  lemma RecasedCase(c: char, upper: bool)
    ensures if IsLetter(c) then IsUpper(Recased(c, upper)) == upper && LowerChar(Recased(c, upper)) == LowerChar(c)
            else Recased(c, upper) == c
  {
  }

  // ---------------------------------------------------------------- every casing is reachable

  function Weight(bit: bool, mask: bv8): bv8 {
    if bit then mask else 0
  }

  function ByteOf(b: seq<bool>): bv8
    requires |b| == 8
  {
    Weight(b[0], 0x01) | Weight(b[1], 0x02) | Weight(b[2], 0x04) | Weight(b[3], 0x08) |
    Weight(b[4], 0x10) | Weight(b[5], 0x20) | Weight(b[6], 0x40) | Weight(b[7], 0x80)
  }

  lemma ByteOfBits(b: seq<bool>, k: nat)
    requires |b| == 8 && k < 8
    ensures ByteOf(b) & Mask(k) != 0 <==> b[k]
  {
    assert Mask(0) == 0x01 && Mask(1) == 0x02 && Mask(2) == 0x04 && Mask(3) == 0x08;
    assert Mask(4) == 0x10 && Mask(5) == 0x20 && Mask(6) == 0x40 && Mask(7) == 0x80;
    assert k == 0 || k == 1 || k == 2 || k == 3 || k == 4 || k == 5 || k == 6 || k == 7;
  }

  /** Random bytes whose i-th bit says whether the i-th letter of `target` is upper case. */
  function BytesFor(target: string): (random: seq<bv8>)
    ensures |random| == (|target| + 7) / 8
  {
    seq((|target| + 7) / 8, j requires 0 <= j => ByteOf(CasesFrom(target, 8 * j)))
  }

  function CasesFrom(target: string, from: nat): (b: seq<bool>)
    ensures |b| == 8 && forall k :: 0 <= k < 8 ==> (b[k] <==> from + k < |target| && IsUpper(target[from + k]))
  {
    seq(8, k requires 0 <= k => from + k < |target| && IsUpper(target[from + k]))
  }

  lemma BytesForBits(target: string, i: nat)
    requires i < |target|
    ensures RandomBit(BytesFor(target), i) <==> IsUpper(target[i])
  {
    var j, k := i / 8, i % 8;
    assert BytesFor(target)[j] == ByteOf(CasesFrom(target, 8 * j));
    ByteOfBits(CasesFrom(target, 8 * j), k);
  }

  lemma RecasedHits(c: char, target: char)
    requires LowerChar(c) == LowerChar(target)
    ensures Recased(c, IsUpper(target)) == target
  {
  }

  /** Every casing of a name comes out of some random bytes. */
  lemma EveryCasingReachable(name: string, target: string)
    requires ToLower(target) == ToLower(name)
    ensures |name| == |target|
    ensures forall i :: 0 <= i < |name| ==> Recased(name[i], RandomBit(BytesFor(target), i)) == target[i]
  {
    assert |name| == |ToLower(name)| == |target|;
    forall i | 0 <= i < |name| ensures Recased(name[i], RandomBit(BytesFor(target), i)) == target[i] {
      assert LowerChar(name[i]) == ToLower(name)[i] == LowerChar(target[i]);
      BytesForBits(target, i);
      RecasedHits(name[i], target[i]);
    }
  }
}

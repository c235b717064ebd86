/** The string operations of Go's `strings` package (and `dns.Fqdn`) that the resolver relies on,
    over ASCII text. */
module Text {

  datatype Option<+T> = None | Some(value: T)

  // ---------------------------------------------------------------- sequences

  lemma TakeStep<T>(s: seq<T>, i: nat)
    requires i < |s|
    ensures s[..i + 1] == s[..i] + [s[i]]
    ensures s[..i + 1][..i] == s[..i]
  {
  }

  lemma TakeDrop<T>(s: seq<T>, i: nat)
    requires i <= |s|
    ensures s == s[..i] + s[i..]
  {
  }

  function Front<T>(s: seq<T>): seq<T>
    requires s != []
  {
    s[..|s| - 1]
  }

  function Last<T>(s: seq<T>): T
    requires s != []
  {
    s[|s| - 1]
  }

  lemma FrontLast<T>(s: seq<T>)
    requires s != []
    ensures s == Front(s) + [Last(s)]
  {
  }

  lemma FrontOfConcat<T>(a: seq<T>, b: seq<T>)
    requires b != []
    ensures a + b != [] && Front(a + b) == a + Front(b) && Last(a + b) == Last(b)
  {
  }

  lemma FrontOfAppend<T>(s: seq<T>, x: T)
    ensures s + [x] != [] && Front(s + [x]) == s && Last(s + [x]) == x
  {
  }

  lemma InCons<T>(x: T, head: T, tail: seq<T>)
    ensures x in [head] + tail <==> x == head || x in tail
  {
  }

  lemma TakeAll<T>(s: seq<T>)
    ensures s[..0] == [] && s[..|s|] == s
  {
  }

  lemma AppendAssociates<T>(a: seq<T>, b: seq<T>, c: seq<T>)
    ensures (a + b) + c == a + (b + c)
  {
  }

  lemma SameElements<T>(a: seq<T>, b: seq<T>)
    requires |a| == |b| && forall i :: 0 <= i < |a| ==> a[i] == b[i]
    ensures a == b
  {
  }

  lemma AppendNothing<T>(a: seq<T>)
    ensures a + [] == a && [] + a == a
  {
  }

  // ---------------------------------------------------------------- letter case

  predicate IsUpper(c: char) { 'A' <= c <= 'Z' }

  predicate IsLetter(c: char) { 'A' <= c <= 'Z' || 'a' <= c <= 'z' }

  function LowerChar(c: char): char {
    if IsUpper(c) then (c as int + 32) as char else c
  }

  function ToLower(s: string): (r: string)
    ensures |r| == |s|
    ensures forall i :: 0 <= i < |s| ==> r[i] == LowerChar(s[i])
  {
    seq(|s|, i requires 0 <= i < |s| => LowerChar(s[i]))
  }

  // ---------------------------------------------------------------- prefixes and suffixes

  predicate HasPrefix(s: string, p: string) { p <= s }

  predicate HasSuffix(s: string, p: string) {
    |p| <= |s| && s[|s| - |p|..] == p
  }

  function TrimPrefix(s: string, p: string): string {
    if HasPrefix(s, p) then s[|p|..] else s
  }

  function TrimSuffix(s: string, p: string): string {
    if HasSuffix(s, p) then s[..|s| - |p|] else s
  }

  // ---------------------------------------------------------------- white space

  predicate IsSpace(c: char) {
    c == ' ' || '\t' <= c <= '\r'
  }

  function TrimLeft(s: string): string {
    if s != "" && IsSpace(s[0]) then TrimLeft(s[1..]) else s
  }

  function TrimRight(s: string): string {
    if s != "" && IsSpace(s[|s| - 1]) then TrimRight(s[..|s| - 1]) else s
  }

  function TrimSpace(s: string): string {
    TrimRight(TrimLeft(s))
  }

  /** Length of the leading run of non-space characters. */
  function WordLength(s: string): (n: nat)
    ensures n <= |s|
    ensures forall i :: 0 <= i < n ==> !IsSpace(s[i])
    ensures n < |s| ==> IsSpace(s[n])
  {
    if s == "" || IsSpace(s[0]) then 0 else 1 + WordLength(s[1..])
  }

  /** `strings.Fields`: the maximal runs of non-space characters, left to right. */
  function Fields(s: string): seq<string>
    decreases |s|
  {
    if s == "" then []
    else if IsSpace(s[0]) then Fields(s[1..])
    else [s[..WordLength(s)]] + Fields(s[WordLength(s)..])
  }

  ghost predicate NoSpace(s: string) {
    forall i :: 0 <= i < |s| ==> !IsSpace(s[i])
  }

  /** Every field is a non-empty word without white space. */
  lemma {:induction false} FieldsAreWords(s: string)
    ensures forall w :: w in Fields(s) ==> w != "" && NoSpace(w)
    decreases |s|
  {
    if s == "" {
    } else if IsSpace(s[0]) {
      FieldsAreWords(s[1..]);
    } else {
      FieldsAreWords(s[WordLength(s)..]);
    }
  }

  /** A single word is its own list of fields. */
  lemma FieldsOfWord(w: string)
    requires w != "" && NoSpace(w)
    ensures Fields(w) == [w]
  {
    assert WordLength(w) == |w|;
    assert w[..|w|] == w;
    assert Fields(w[|w|..]) == [];
  }

  lemma TrimSpaceOfWord(w: string)
    requires NoSpace(w)
    ensures TrimSpace(w) == w
  {
  }

  // ---------------------------------------------------------------- searching

  /** `strings.IndexByte`. */
  function IndexOf(s: string, c: char): (i: int)
    ensures -1 <= i < |s|
    ensures i >= 0 ==> s[i] == c
    ensures forall k :: 0 <= k < (if i < 0 then |s| else i) ==> s[k] != c
  {
    if s == "" then -1
    else if s[0] == c then 0
    else var r := IndexOf(s[1..], c); if r < 0 then -1 else r + 1
  }

  predicate ContainsAny(s: string, chars: string) {
    exists i :: 0 <= i < |s| && s[i] in chars
  }

  // ---------------------------------------------------------------- fully qualified names

  function TrailingBackslashes(s: string): nat {
    if s != "" && s[|s| - 1] == '\\' then 1 + TrailingBackslashes(s[..|s| - 1]) else 0
  }

  /** A final dot qualifies a name unless an odd run of backslashes escapes it. */
  predicate IsFqdn(s: string) {
    s != "" && s[|s| - 1] == '.' && TrailingBackslashes(s[..|s| - 1]) % 2 == 0
  }

  function Fqdn(s: string): string {
    if IsFqdn(s) then s else s + "."
  }

  /** The normal form under which a name is filtered, screened and cached. */
  function CanonicalName(name: string): string {
    ToLower(Fqdn(name))
  }

  lemma {:induction false} SameBackslashes(a: string, b: string)
    requires ToLower(a) == ToLower(b)
    ensures TrailingBackslashes(a) == TrailingBackslashes(b)
    decreases |a|
  {
    assert |a| == |ToLower(a)| == |b|;
    if a != "" {
      assert LowerChar(a[|a| - 1]) == ToLower(a)[|a| - 1] == LowerChar(b[|b| - 1]);
      assert ToLower(a[..|a| - 1]) == ToLower(a)[..|a| - 1] == ToLower(b[..|b| - 1]);
      SameBackslashes(a[..|a| - 1], b[..|b| - 1]);
    }
  }

  /** Names that differ only in letter case have one canonical form. */
  lemma CanonicalIgnoresCase(a: string, b: string)
    requires ToLower(a) == ToLower(b)
    ensures CanonicalName(a) == CanonicalName(b)
  {
    assert |a| == |ToLower(a)| == |b|;
    if a != "" {
      assert LowerChar(a[|a| - 1]) == ToLower(a)[|a| - 1] == LowerChar(b[|b| - 1]);
      assert ToLower(a[..|a| - 1]) == ToLower(a)[..|a| - 1] == ToLower(b[..|b| - 1]);
      SameBackslashes(a[..|a| - 1], b[..|b| - 1]);
    }
    assert IsFqdn(a) == IsFqdn(b);
    assert ToLower(a + ".") == ToLower(a) + "." == ToLower(b + ".");
  }

  lemma {:induction false} NoBackslashes(s: string)
    requires '\\' !in s
    ensures TrailingBackslashes(s) == 0
  {
  }

  /** A name without backslashes gets a final dot if it has none. */
  lemma CanonicalPlain(s: string)
    requires '\\' !in s
    ensures CanonicalName(s) == if s != "" && s[|s| - 1] == '.' then ToLower(s) else ToLower(s) + "."
  {
    if s != "" {
      NoBackslashes(s[..|s| - 1]);
    }
    SameElements(ToLower(s + "."), ToLower(s) + ".");
  }

  /** Two names share one canonical form exactly when, once both are fully qualified, they differ in letter
      case only. */
  lemma CanonicalExactly(a: string, b: string)
    ensures CanonicalName(a) == CanonicalName(b) <==>
            |Fqdn(a)| == |Fqdn(b)| && forall i :: 0 <= i < |Fqdn(a)| ==> LowerChar(Fqdn(a)[i]) == LowerChar(Fqdn(b)[i])
  {
    var x, y := Fqdn(a), Fqdn(b);
    if |x| == |y| && forall i :: 0 <= i < |x| ==> LowerChar(x[i]) == LowerChar(y[i]) {
      SameElements(ToLower(x), ToLower(y));
    }
    if ToLower(x) == ToLower(y) {
      assert |x| == |ToLower(x)| == |y|;
      assert forall i :: 0 <= i < |x| ==> LowerChar(x[i]) == ToLower(x)[i] == ToLower(y)[i] == LowerChar(y[i]);
    }
  }

  /** Letters differ in case only when they are the same letter. */
  lemma LowerCharExactly(a: char, b: char)
    ensures LowerChar(a) == LowerChar(b) <==>
            a == b || ('A' <= a <= 'Z' && b as int == a as int + 32) || ('A' <= b <= 'Z' && a as int == b as int + 32)
  {
  }
}

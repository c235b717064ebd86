/** Domain labels: the right-to-left scanner of the trie and its left-to-right reference. */
module Labels {
  import opened Text

  // ---------------------------------------------------------------- reference: split, filter, reverse

  /** `strings.Split(s, ".")`. */
  function Split(s: string): seq<string>
    decreases |s|
  {
    var i := IndexOf(s, '.');
    if i < 0 then [s] else [s[..i]] + Split(s[i + 1..])
  }

  function NonEmpty(parts: seq<string>): seq<string> {
    if parts == [] then []
    else (if parts[0] == "" then [] else [parts[0]]) + NonEmpty(parts[1..])
  }

  function Reverse(parts: seq<string>): seq<string> {
    if parts == [] then [] else Reverse(parts[1..]) + [parts[0]]
  }

  /** The non-empty labels of `s`, rightmost first. */
  function ReverseLabels(s: string): seq<string> {
    Reverse(NonEmpty(Split(s)))
  }

  /** A dot-free head is the first part. */
  lemma SplitHead(w: string, rest: string)
    requires '.' !in w
    ensures Split(w + "." + rest) == [w] + Split(rest)
  {
    var s := w + "." + rest;
    var i := IndexOf(s, '.');
    assert s[|w|] == '.';
    assert forall k :: 0 <= k < |w| ==> s[k] == w[k];
    assert i == |w|;
    assert s[..i] == w && s[i + 1..] == rest;
  }

  lemma {:induction false} SplitConcat(a: string, b: string)
    ensures Split(a + "." + b) == Split(a) + Split(b)
    decreases |a|
  {
    var j := IndexOf(a, '.');
    if j < 0 {
      SplitHead(a, b);
    } else {
      var tail := a[j + 1..];
      assert a + "." + b == a[..j] + "." + (tail + "." + b);
      SplitHead(a[..j], tail + "." + b);
      SplitConcat(tail, b);
      assert Split(a) == [a[..j]] + Split(tail);
    }
  }

  lemma {:induction false} NonEmptyConcat(p: seq<string>, q: seq<string>)
    ensures NonEmpty(p + q) == NonEmpty(p) + NonEmpty(q)
  {
    if p == [] {
      assert p + q == q;
    } else {
      var head := if p[0] == "" then [] else [p[0]];
      assert (p + q)[1..] == p[1..] + q;
      calc {
        NonEmpty(p + q);
        head + NonEmpty(p[1..] + q);
        { NonEmptyConcat(p[1..], q); }
        head + (NonEmpty(p[1..]) + NonEmpty(q));
        (head + NonEmpty(p[1..])) + NonEmpty(q);
        NonEmpty(p) + NonEmpty(q);
      }
    }
  }

  lemma {:induction false} ReverseConcat(p: seq<string>, q: seq<string>)
    ensures Reverse(p + q) == Reverse(q) + Reverse(p)
  {
    if p == [] {
      assert p + q == q;
    } else {
      ReverseConcat(p[1..], q);
      assert (p + q)[1..] == p[1..] + q;
    }
  }

  lemma ReverseLabelsConcat(a: string, b: string)
    ensures ReverseLabels(a + "." + b) == ReverseLabels(b) + ReverseLabels(a)
  {
    SplitConcat(a, b);
    NonEmptyConcat(Split(a), Split(b));
    ReverseConcat(NonEmpty(Split(a)), NonEmpty(Split(b)));
  }

  /** A dot-free string is one label, or none when it is empty. */
  lemma ReverseLabelsOfWord(w: string)
    requires '.' !in w
    ensures ReverseLabels(w) == if w == "" then [] else [w]
  {
    assert IndexOf(w, '.') < 0;
    assert Split(w) == [w];
    if w != "" {
      assert NonEmpty([w]) == [w] + NonEmpty([w][1..]);
      assert Reverse([w]) == Reverse([w][1..]) + [w];
    }
  }

  // ---------------------------------------------------------------- the scanner

  /** `strings.LastIndexByte(s[:end], '.')`. */
  method LastDot(s: string, end: nat) returns (i: int)
    requires end <= |s|
    ensures -1 <= i < end
    ensures i >= 0 ==> s[i] == '.'
    ensures forall k :: i < k < end ==> s[k] != '.'
  {
    i := end - 1;
    while i >= 0 && s[i] != '.'
      invariant -1 <= i < end
      invariant forall k :: i < k < end ==> s[k] != '.'
    {
      i := i - 1;
    }
  }

  /** One turn of the right-to-left scan: the label that ends at `end`, and where the scan goes on.
      Empty labels come out as "" and contribute nothing. */
  method PreviousLabel(s: string, end: nat) returns (part: string, rest: nat)
    requires 0 < end <= |s|
    ensures rest < end
    ensures ReverseLabels(s[..end]) == (if part == "" then [] else [part]) + ReverseLabels(s[..rest])
  {
    var i := LastDot(s, end);
    if i == -1 {
      part, rest := s[..end], 0;
      ReverseLabelsOfWord(part);
      ReverseLabelsOfWord("");
    } else {
      part, rest := s[i + 1..end], i;
      ReverseLabelsOfWord(part);
      ReverseLabelsConcat(s[..i], part);
      assert s[..end] == s[..i] + "." + part;
    }
  }
}

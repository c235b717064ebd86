/** Blocklist parsing: domain normalisation, validation and order-preserving deduplication. */
module Loader {
  import opened Text

  // ---------------------------------------------------------------- normalisation

  function Normalize(d: string): string {
    TrimSuffix(TrimSuffix(TrimPrefix(TrimPrefix(ToLower(TrimSpace(d)), "||"), "^"), "^"), ".")
  }

  /** What one pass of normalisation leaves alone. */
  predicate Settled(d: string) {
    && (forall i :: 0 <= i < |d| ==> !IsUpper(d[i]))
    && (d != "" ==> !IsSpace(d[0]) && !IsSpace(d[|d| - 1]))
    && !HasPrefix(d, "||") && !HasPrefix(d, "^")
    && !HasSuffix(d, "^") && !HasSuffix(d, ".")
  }

  lemma TrimSpaceShrinks(d: string)
    ensures |TrimSpace(d)| <= |d|
    ensures |TrimSpace(d)| == |d| <==> (d != "" ==> !IsSpace(d[0]) && !IsSpace(d[|d| - 1]))
    ensures |TrimSpace(d)| == |d| ==> TrimSpace(d) == d
  {
    TrimLeftShrinks(d);
    TrimRightShrinks(TrimLeft(d));
  }

  lemma {:induction false} TrimLeftShrinks(d: string)
    ensures |TrimLeft(d)| <= |d|
    ensures d != "" && IsSpace(d[0]) ==> |TrimLeft(d)| < |d|
  {
    if d != "" && IsSpace(d[0]) { TrimLeftShrinks(d[1..]); }
  }

  lemma {:induction false} TrimRightShrinks(d: string)
    ensures |TrimRight(d)| <= |d|
    ensures d != "" && IsSpace(d[|d| - 1]) ==> |TrimRight(d)| < |d|
  {
    if d != "" && IsSpace(d[|d| - 1]) { TrimRightShrinks(d[..|d| - 1]); }
  }

  lemma TrimmingShrinks(s: string, p: string)
    requires p != ""
    ensures |TrimPrefix(s, p)| <= |s| && |TrimSuffix(s, p)| <= |s|
    ensures |TrimPrefix(s, p)| == |s| <==> !HasPrefix(s, p)
    ensures |TrimSuffix(s, p)| == |s| <==> !HasSuffix(s, p)
    ensures |TrimPrefix(s, p)| == |s| ==> TrimPrefix(s, p) == s
    ensures |TrimSuffix(s, p)| == |s| ==> TrimSuffix(s, p) == s
  {
  }

  /** Normalisation is the identity exactly on the settled strings. It is not idempotent: one pass
      takes off a single prefix or suffix of each kind. */
  lemma NormalizeFixpoint(d: string)
    ensures Normalize(d) == d <==> Settled(d)
  {
    TrimSpaceShrinks(d);
    var s1 := ToLower(TrimSpace(d));
    var s2 := TrimPrefix(s1, "||");
    var s3 := TrimPrefix(s2, "^");
    var s4 := TrimSuffix(s3, "^");
    TrimmingShrinks(s1, "||");
    TrimmingShrinks(s2, "^");
    TrimmingShrinks(s3, "^");
    TrimmingShrinks(s4, ".");
    assert Normalize(d) == TrimSuffix(s4, ".");
    LowerFixpoint(d);
  }

  lemma LowerFixpoint(d: string)
    ensures ToLower(d) == d <==> forall i :: 0 <= i < |d| ==> !IsUpper(d[i])
  {
    assert ToLower(d) == d ==> forall i :: 0 <= i < |d| ==> d[i] == LowerChar(d[i]);
  }

  /** One pass takes off one trailing dot only, so two dots need two passes. */
  lemma NormalizeNotIdempotent(d: string)
    requires Settled(d) && d != ""
    ensures Normalize(d + ".") == d
    ensures Normalize(d + "..") == d + "." != Normalize(Normalize(d + ".."))
  {
    NormalizeDotted(d, ".");
    NormalizeDotted(d, "..");
  }

  lemma NormalizeDotted(d: string, dots: string)
    requires Settled(d) && d != "" && (dots == "." || dots == "..")
    ensures Normalize(d + dots) == d + dots[1..]
  {
    var s := d + dots;
    TrimSpaceShrinks(s);
    assert ToLower(s) == s;
    assert s[0] == d[0] && s[1] == (if |d| > 1 then d[1] else '.');
    assert !HasPrefix(s, "||") by { assert |d| > 1 && d[0] == '|' && d[1] == '|' ==> "||" <= d; }
    assert !HasPrefix(s, "^") by { assert d[0] == '^' ==> "^" <= d; }
    assert s[|s| - 1..] == ".";
    assert s[..|s| - 1] == d + dots[1..];
  }

  // ---------------------------------------------------------------- validity

  const IGNORED_HOSTS: set<string> := {
    "localhost", "localhost.localdomain", "local", "broadcasthost", "ip6-localhost", "ip6-loopback",
    "ip6-localnet", "ip6-mcastprefix", "ip6-allnodes", "ip6-allrouters", "ip6-allhosts", "0.0.0.0",
    "255.255.255.255"
  }

  const FORBIDDEN_CHARACTERS := " /\\:;*?\"<>|&$#@!%^()[]{}`~"

  predicate IsValidDomain(d: string) {
    if d == "" || |d| > 253 then false
    else if d in IGNORED_HOSTS then false
    else
      var clean := TrimPrefix(TrimPrefix(d, "*."), ".");
      clean != "" && !ContainsAny(clean, FORBIDDEN_CHARACTERS)
  }

  // ---------------------------------------------------------------- lines and tokens

  const LOOPBACK_ADDRESSES: set<string> := {"0.0.0.0", "127.0.0.1", "::1", "::"}

  function Uncommented(line: string): string {
    var i := IndexOf(line, '#');
    if i < 0 then line else line[..i]
  }

  /** The words of a line that may name domains: all words before a comment, but for the address
      that heads a hosts-file line. */
  function Candidates(line: string): seq<string> {
    var words := Fields(Uncommented(line));
    if words != [] && words[0] in LOOPBACK_ADDRESSES then words[1..] else words
  }

  /** The valid words, normalised, in order. */
  function ValidDomains(words: seq<string>): seq<string> {
    if words == [] then []
    else
      var clean := Normalize(words[|words| - 1]);
      ValidDomains(words[..|words| - 1]) + if IsValidDomain(clean) then [clean] else []
  }

  function Tokens(lines: seq<string>): seq<string> {
    if lines == [] then []
    else Tokens(lines[..|lines| - 1]) + ValidDomains(Candidates(lines[|lines| - 1]))
  }

  // ---------------------------------------------------------------- deduplication

  function FirstIndex(ts: seq<string>, x: string): (i: nat)
    requires x in ts
    ensures i < |ts| && ts[i] == x && x !in ts[..i]
  {
    if ts[0] == x then 0 else 1 + FirstIndex(ts[1..], x)
  }

  /** `r` lists the members of `ts` once each, in the order in which they first occur. */
  ghost predicate InFirstOccurrenceOrder(r: seq<string>, ts: seq<string>) {
    && (forall x :: x in r <==> x in ts)
    && (forall i, j :: 0 <= i < j < |r| ==> FirstIndex(ts, r[i]) < FirstIndex(ts, r[j]))
  }

  function Distinct(ts: seq<string>): seq<string> {
    if ts == [] then []
    else
      var r := Distinct(ts[..|ts| - 1]);
      if ts[|ts| - 1] in r then r else r + [ts[|ts| - 1]]
  }

  lemma FirstIndexExtends(ts: seq<string>, t: string, x: string)
    requires x in ts
    ensures FirstIndex(ts + [t], x) == FirstIndex(ts, x)
  {
    var i, j := FirstIndex(ts + [t], x), FirstIndex(ts, x);
    assert (ts + [t])[..|ts|] == ts;
    assert forall k :: 0 <= k < |ts| ==> (ts + [t])[k] == ts[k];
    assert (ts + [t])[j] == x;
    assert forall k :: 0 <= k < i ==> (ts + [t])[..i][k] == (ts + [t])[k];
    assert forall k :: 0 <= k < j ==> ts[..j][k] == ts[k];
  }

  lemma {:induction false} DistinctInOrder(ts: seq<string>)
    ensures InFirstOccurrenceOrder(Distinct(ts), ts)
  {
    if ts != [] {
      var init, t := ts[..|ts| - 1], ts[|ts| - 1];
      assert ts == init + [t];
      DistinctInOrder(init);
      var d, r := Distinct(init), Distinct(ts);
      forall x ensures x in r <==> x in ts {
        assert x in ts <==> x in init || x == t;
      }
      forall i, j | 0 <= i < j < |r| ensures FirstIndex(ts, r[i]) < FirstIndex(ts, r[j]) {
        assert r[i] == d[i];
        FirstIndexExtends(init, t, d[i]);
        if j < |d| {
          FirstIndexExtends(init, t, d[j]);
        } else {
          assert r[j] == t && t !in init;
          assert ts[FirstIndex(ts, t)] == t;
          assert FirstIndex(ts, t) == |init|;
        }
      }
    }
  }

  function Without(ts: seq<string>, known: seq<string>): seq<string> {
    if ts == [] then []
    else
      var r := Without(ts[..|ts| - 1], known);
      if ts[|ts| - 1] in known then r else r + [ts[|ts| - 1]]
  }

  lemma {:induction false} WithoutMembers(ts: seq<string>, known: seq<string>)
    ensures forall x :: x in Without(ts, known) <==> x in ts && x !in known
  {
    if ts != [] {
      WithoutMembers(ts[..|ts| - 1], known);
      assert ts == ts[..|ts| - 1] + [ts[|ts| - 1]];
    }
  }

  lemma DistinctSnoc(ts: seq<string>, t: string)
    ensures Distinct(ts + [t]) == if t in Distinct(ts) then Distinct(ts) else Distinct(ts) + [t]
  {
    FrontOfAppend(ts, t);
  }

  lemma WithoutSnoc(ts: seq<string>, t: string, known: seq<string>)
    ensures Without(ts + [t], known) == if t in known then Without(ts, known) else Without(ts, known) + [t]
  {
    FrontOfAppend(ts, t);
  }

  /** Deduplicating a concatenation appends the domains that are new. */
  lemma {:induction false} DistinctConcat(a: seq<string>, b: seq<string>)
    ensures Distinct(a + b) == Distinct(a) + Without(Distinct(b), Distinct(a))
    decreases |b|
  {
    if b == [] {
      AppendNothing(a);
      AppendNothing(Distinct(a));
    } else {
      var init, t := Front(b), Last(b);
      FrontLast(b);
      AppendAssociates(a, init, [t]);
      DistinctConcat(a, init);
      DistinctSnoc(a + init, t);
      DistinctSnoc(init, t);
      NewDomain(Distinct(a), Distinct(init), t);
    }
  }

  /** One more domain is appended when it is in neither list. */
  lemma NewDomain(da: seq<string>, di: seq<string>, t: string)
    ensures var n, d := Without(di, da), if t in di then di else di + [t];
            (if t in da + n then da + n else (da + n) + [t]) == da + Without(d, da)
  {
    var n := Without(di, da);
    WithoutMembers(di, da);
    WithoutSnoc(di, t, da);
    AppendAssociates(da, n, [t]);
    assert t in da + n <==> t in da || t in n;
  }

  lemma {:induction false} TokensConcat(a: seq<string>, b: seq<string>)
    ensures Tokens(a + b) == Tokens(a) + Tokens(b)
    decreases |b|
  {
    if b == [] {
      AppendNothing(a);
      AppendNothing(Tokens(a));
    } else {
      FrontOfConcat(a, b);
      TokensConcat(a, Front(b));
      AppendAssociates(Tokens(a), Tokens(Front(b)), ValidDomains(Candidates(Last(b))));
    }
  }

  // ---------------------------------------------------------------- the parser

  function Parsed(lines: seq<string>): seq<string> {
    Distinct(Tokens(lines))
  }

  /** Parsing one list after another appends only the domains that the first did not have. */
  lemma ParsedConcat(a: seq<string>, b: seq<string>)
    ensures Parsed(a + b) == Parsed(a) + Without(Parsed(b), Parsed(a))
  {
    TokensConcat(a, b);
    DistinctConcat(Tokens(a), Tokens(b));
  }

  lemma AddStep(earlier: seq<string>, words: seq<string>, i: nat, clean: string)
    requires i < |words| && clean == Normalize(words[i])
    ensures var before := Distinct(earlier + ValidDomains(words[..i]));
            Distinct(earlier + ValidDomains(words[..i + 1])) ==
            if IsValidDomain(clean) && clean !in before then before + [clean] else before
  {
    var done := ValidDomains(words[..i]);
    TakeStep(words, i);
    if IsValidDomain(clean) {
      DistinctSnoc(earlier + done, clean);
      AppendAssociates(earlier, done, [clean]);
    } else {
      AppendNothing(done);
    }
  }

  method AddDomains(words: seq<string>, known: seq<string>, seenBefore: set<string>, ghost earlier: seq<string>)
    returns (domains: seq<string>, seen: set<string>)
    requires known == Distinct(earlier)
    requires forall x :: x in seenBefore <==> x in known
    ensures domains == Distinct(earlier + ValidDomains(words))
    ensures forall x :: x in seen <==> x in domains
  {
    domains, seen := known, seenBefore;
    assert earlier + ValidDomains(words[..0]) == earlier;
    for i := 0 to |words|
      invariant domains == Distinct(earlier + ValidDomains(words[..i]))
      invariant forall x :: x in seen <==> x in domains
    {
      var clean := Normalize(words[i]);
      AddStep(earlier, words, i, clean);
      if IsValidDomain(clean) && clean !in seen {
        seen := seen + {clean};
        domains := domains + [clean];
      }
    }
    assert words[..|words|] == words;
  }

  /** The fields that the parser reads after trimming twice and cutting the comment. */
  lemma FieldsAsParsed(raw: string)
    ensures var line := TrimSpace(raw);
            Fields(if IndexOf(line, '#') < 0 then line else TrimSpace(line[..IndexOf(line, '#')])) == Fields(Uncommented(raw))
  {
    FieldsOfUncommentedTrim(raw);
    FieldsOfTrim(Uncommented(TrimSpace(raw)));
  }

  method ParseLine(raw: string) returns (words: seq<string>)
    ensures words == Candidates(raw)
  {
    FieldsAsParsed(raw);
    words := [];
    var line := TrimSpace(raw);
    if line == "" { return; }
    var hash := IndexOf(line, '#');
    if hash != -1 {
      line := TrimSpace(line[..hash]);
      if line == "" { return; }
    }
    var fields := Fields(line);
    if |fields| == 0 { return; }
    var first := fields[0];
    if first == "0.0.0.0" || first == "127.0.0.1" || first == "::1" || first == "::" {
      words := fields[1..];
    } else {
      words := fields;
    }
  }

  /** The valid normalised words of all lines, in order of first occurrence, without duplicates. */
  method ParseHosts(lines: seq<string>) returns (domains: seq<string>)
    ensures domains == Parsed(lines)
    ensures InFirstOccurrenceOrder(domains, Tokens(lines))
  {
    domains := [];
    var seen: set<string> := {};
    for i := 0 to |lines|
      invariant domains == Distinct(Tokens(lines[..i]))
      invariant forall x :: x in seen <==> x in domains
    {
      var words := ParseLine(lines[i]);
      assert lines[..i + 1][..i] == lines[..i];
      domains, seen := AddDomains(words, domains, seen, Tokens(lines[..i]));
    }
    assert lines[..|lines|] == lines;
    DistinctInOrder(Tokens(lines));
  }

  // ---------------------------------------------------------------- trimming does not change the fields

  lemma WordLengthDropLast(s: string)
    requires s != "" && IsSpace(s[|s| - 1])
    ensures WordLength(s[..|s| - 1]) == WordLength(s) < |s|
  {
    var t := s[..|s| - 1];
    assert forall k :: 0 <= k < |t| ==> t[k] == s[k];
    assert WordLength(s) <= |t|;
  }

  lemma {:induction false} FieldsDropLast(s: string)
    requires s != "" && IsSpace(s[|s| - 1])
    ensures Fields(s) == Fields(s[..|s| - 1])
    decreases |s|
  {
    var t := s[..|s| - 1];
    var n := WordLength(s);
    WordLengthDropLast(s);
    if |s| == 1 {
      assert s[1..] == "";
    } else if n == 0 {
      FieldsDropLast(s[1..]);
      assert s[1..][..|s| - 2] == t[1..];
      assert Fields(s) == Fields(s[1..]);
      assert Fields(t) == Fields(t[1..]);
    } else {
      FieldsDropLast(s[n..]);
      assert s[n..][..|s| - n - 1] == t[n..];
      assert s[..n] == t[..n];
      assert Fields(s) == [s[..n]] + Fields(s[n..]);
      assert Fields(t) == [t[..n]] + Fields(t[n..]);
    }
  }

  lemma {:induction false} FieldsOfTrimRight(s: string)
    ensures Fields(TrimRight(s)) == Fields(s)
  {
    if s != "" && IsSpace(s[|s| - 1]) {
      FieldsDropLast(s);
      FieldsOfTrimRight(s[..|s| - 1]);
    }
  }

  lemma {:induction false} FieldsOfTrimLeft(s: string)
    ensures Fields(TrimLeft(s)) == Fields(s)
  {
    if s != "" && IsSpace(s[0]) { FieldsOfTrimLeft(s[1..]); }
  }

  lemma FieldsOfTrim(s: string)
    ensures Fields(TrimSpace(s)) == Fields(s)
  {
    FieldsOfTrimLeft(s);
    FieldsOfTrimRight(TrimLeft(s));
  }

  lemma {:induction false} UncommentedTrimLeft(s: string)
    ensures Fields(Uncommented(TrimLeft(s))) == Fields(Uncommented(s))
  {
    if s != "" && IsSpace(s[0]) {
      UncommentedTrimLeft(s[1..]);
      var u := Uncommented(s);
      assert u != "" && u[0] == s[0] && u[1..] == Uncommented(s[1..]);
    }
  }

  lemma {:induction false} UncommentedTrimRight(s: string)
    ensures Fields(Uncommented(TrimRight(s))) == Fields(Uncommented(s))
  {
    if s != "" && IsSpace(s[|s| - 1]) {
      var t := s[..|s| - 1];
      UncommentedTrimRight(t);
      UncommentedDropLast(s);
    }
  }

  lemma UncommentedDropLast(s: string)
    requires s != "" && IsSpace(s[|s| - 1])
    ensures Fields(Uncommented(s)) == Fields(Uncommented(s[..|s| - 1]))
  {
    var t := s[..|s| - 1];
    assert forall k :: 0 <= k < |t| ==> t[k] == s[k];
    assert IndexOf(s, '#') == IndexOf(t, '#');
    if IndexOf(s, '#') < 0 {
      FieldsDropLast(s);
    } else {
      assert Uncommented(s) == Uncommented(t);
    }
  }

  lemma FieldsOfUncommentedTrim(s: string)
    ensures Fields(Uncommented(TrimSpace(s))) == Fields(Uncommented(s))
  {
    UncommentedTrimLeft(s);
    UncommentedTrimRight(TrimLeft(s));
  }
}

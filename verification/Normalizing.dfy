/** What normalisation takes off an entry: white space around it, letter case, and one prefix or suffix of
    each kind, as in `||ads.example^`. */
module Normalizing {
  import opened Text
  import opened Loader
  import opened LocalTrie

  ghost predicate Spaces(s: string) {
    forall i :: 0 <= i < |s| ==> IsSpace(s[i])
  }

  lemma {:induction false} TrimLeftSpaces(pre: string, s: string)
    requires Spaces(pre)
    ensures TrimLeft(pre + s) == TrimLeft(s)
  {
    if pre == "" {
      AppendNothing(s);
    } else {
      assert (pre + s)[1..] == pre[1..] + s;
      TrimLeftSpaces(pre[1..], s);
    }
  }

  lemma {:induction false} TrimRightSpaces(s: string, post: string)
    requires Spaces(post)
    ensures TrimRight(s + post) == TrimRight(s)
    decreases |post|
  {
    if post == "" {
      AppendNothing(s);
    } else {
      FrontOfConcat(s, post);
      TrimRightSpaces(s, Front(post));
    }
  }

  lemma TrimSpaceAround(pre: string, s: string, post: string)
    requires Spaces(pre) && Spaces(post)
    requires s != "" && !IsSpace(s[0]) && !IsSpace(s[|s| - 1])
    ensures TrimSpace(pre + (s + post)) == s
  {
    TrimLeftSpaces(pre, s + post);
    assert (s + post)[0] == s[0];
    TrimRightSpaces(s, post);
  }

  /** An optional piece of text. */
  function If(there: bool, s: string): string {
    if there then s else ""
  }

  lemma TakePrefix(there: bool, p: string, s: string)
    requires p != "" && !HasPrefix(s, p)
    ensures TrimPrefix(If(there, p) + s, p) == s
  {
    if there {
      assert (p + s)[..|p|] == p && (p + s)[|p|..] == s;
    } else {
      AppendNothing(s);
    }
  }

  lemma TakeSuffix(there: bool, s: string, p: string)
    requires p != "" && !HasSuffix(s, p)
    ensures TrimSuffix(s + If(there, p), p) == s
  {
    if there {
      assert (s + p)[|s|..] == p && (s + p)[..|s|] == s;
    } else {
      AppendNothing(s);
    }
  }

  /** The entry with some of the pieces around the name. */
  function Adorned(bars: bool, caret: bool, name: string, dot: bool, hat: bool): string {
    If(bars, "||") + (If(caret, "^") + ((name + If(dot, ".")) + If(hat, "^")))
  }

  lemma AdornedEnds(bars: bool, caret: bool, name: string, dot: bool, hat: bool)
    requires name != "" && !IsSpace(name[0]) && !IsSpace(name[|name| - 1])
    ensures var s := Adorned(bars, caret, name, dot, hat);
            s != "" && !IsSpace(s[0]) && !IsSpace(s[|s| - 1])
  {
    var s := Adorned(bars, caret, name, dot, hat);
    assert s[0] == if bars then '|' else if caret then '^' else name[0];
    assert s[|s| - 1] == if hat then '^' else if dot then '.' else name[|name| - 1];
  }

  lemma AdornedLower(bars: bool, caret: bool, name: string, dot: bool, hat: bool)
    ensures ToLower(Adorned(bars, caret, name, dot, hat)) == Adorned(bars, caret, ToLower(name), dot, hat)
  {
    SameElements(ToLower(Adorned(bars, caret, name, dot, hat)), Adorned(bars, caret, ToLower(name), dot, hat));
  }

  /** The pieces come off one after another. */
  lemma PiecesComeOff(bars: bool, caret: bool, n: string, dot: bool, hat: bool)
    requires n != "" && n[0] != '|' && n[0] != '^' && n[|n| - 1] != '^' && n[|n| - 1] != '.'
    ensures TrimSuffix(TrimSuffix(TrimPrefix(TrimPrefix(Adorned(bars, caret, n, dot, hat), "||"), "^"), "^"), ".") == n
  {
    var body := n + If(dot, ".");
    var tail := body + If(hat, "^");
    var head := If(caret, "^") + tail;
    NotAffix(head, "||");
    NotAffix(tail, "^");
    NotAffix(body, "^");
    NotAffix(n, ".");
    TakePrefix(bars, "||", head);
    TakePrefix(caret, "^", tail);
    TakeSuffix(hat, body, "^");
    TakeSuffix(dot, n, ".");
  }

  /** Whatever of this is there, the name in lower case is what is left. */
  lemma NormalizeAdorned(pre: string, bars: bool, caret: bool, name: string, dot: bool, hat: bool, post: string)
    requires Spaces(pre) && Spaces(post) && Settled(ToLower(name)) && name != ""
    requires name[0] != '|' && !IsSpace(name[0]) && !IsSpace(name[|name| - 1])
    ensures Normalize(pre + (Adorned(bars, caret, name, dot, hat) + post)) == ToLower(name)
  {
    var n := ToLower(name);
    AdornedEnds(bars, caret, name, dot, hat);
    TrimSpaceAround(pre, Adorned(bars, caret, name, dot, hat), post);
    AdornedLower(bars, caret, name, dot, hat);
    SettledEnds(n);
    PiecesComeOff(bars, caret, n, dot, hat);
  }

  lemma SettledEnds(n: string)
    requires Settled(n) && n != ""
    ensures n[0] != '^' && n[|n| - 1] != '^' && n[|n| - 1] != '.'
  {
    assert n[..1] == [n[0]] && n[|n| - 1..] == [n[|n| - 1]];
  }

  /** For instance. */
  lemma NormalizeAdblock()
    ensures Normalize(" " + ("||" + ("Ads" + "^"))) == "ads"
  {
    var name := "Ads";
    SameElements(ToLower(name), "ads");
    NotAffix("ads", "||");
    NotAffix("ads", "^");
    NotAffix("ads", ".");
    NormalizeAdorned(" ", true, false, name, false, true, "");
    assert Adorned(true, false, name, false, true) == "||" + (name + "^");
    AppendNothing(Adorned(true, false, name, false, true));
  }
}

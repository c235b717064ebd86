/** The heap-allocated reverse-label trie, refining a flat list of rules. */
module Tries {
  import opened Text
  import opened Labels
  import opened Loader

  // ---------------------------------------------------------------- the flat specification

  /** A rule over labels, rightmost label first. */
  datatype Rule = Rule(labels: seq<string>, wildcard: bool)

  predicate Covers(r: Rule, labels: seq<string>) {
    if r.wildcard then r.labels <= labels else r.labels == labels
  }

  /** The rule, if any, that inserting `domain` adds. */
  function AcceptedRules(domain: string, wildcard: bool): seq<Rule> {
    var d := Normalize(domain);
    var stripped := HasPrefix(d, "*.") || HasPrefix(d, ".");
    var labels := ReverseLabels(TrimPrefix(d, if HasPrefix(d, "*.") then "*." else "."));
    if labels == [] then [] else [Rule(labels, wildcard || stripped)]
  }

  /** Some rule hits the labels of the normalised domain. */
  ghost predicate MatchesSome(rules: seq<Rule>, domain: string) {
    exists r :: r in rules && Covers(r, ReverseLabels(Normalize(domain)))
  }

  // ---------------------------------------------------------------- the heap structure

  function Child(path: seq<string>, part: string): seq<string> { path + [part] }

  function Parent(path: seq<string>): seq<string>
    requires path != []
  {
    path[..|path| - 1]
  }

  class TrieNode {
    var children: map<string, TrieNode>
    var isExact: bool
    var isWildcard: bool
    ghost const path: seq<string>   // the labels that lead here from the root

    constructor (ghost path: seq<string>)
      ensures children == map[] && !isExact && !isWildcard && this.path == path
    {
      children, isExact, isWildcard := map[], false, false;
      this.path := path;
    }
  }

  class DomainTrie {
    const root: TrieNode
    var count: nat

    ghost var rules: seq<Rule>                    // accepted rules, oldest first
    ghost var nodes: map<seq<string>, TrieNode>   // the node at each label path
    ghost var Repr: set<TrieNode>

    /** The nodes form a tree: one node per path, paths closed under prefixes,
        and children exactly the one-label extensions. */
    ghost predicate IsTree()
      reads this, Repr
    {
      && [] in nodes && nodes[[]] == root
      && (forall p {:trigger nodes[p]} :: p in nodes ==> nodes[p] in Repr && nodes[p].path == p)
      && (forall p {:trigger Parent(p)} :: p in nodes && p != [] ==> Parent(p) in nodes)
      && (forall p, x {:trigger Child(p, x)} :: p in nodes ==> (Child(p, x) in nodes <==> x in nodes[p].children))
      && (forall p, x {:trigger Child(p, x)} :: p in nodes && x in nodes[p].children ==>
            nodes[p].children[x] == nodes[Child(p, x)])
    }

    /** The flags record the accepted rules. */
    ghost predicate RecordsRules()
      reads this, Repr
      requires IsTree()
    {
      && count == |rules|
      && (forall r :: r in rules ==> r.labels != [] && r.labels in nodes)
      && (forall p {:trigger nodes[p].isExact} :: p in nodes ==> (nodes[p].isExact <==> Rule(p, false) in rules))
      && (forall p {:trigger nodes[p].isWildcard} :: p in nodes ==> (nodes[p].isWildcard <==> Rule(p, true) in rules))
    }

    ghost predicate Valid()
      reads this, Repr
      ensures Valid() ==> root in Repr && !root.isExact && !root.isWildcard
      ensures Valid() ==> (count == 0 <==> rules == [])
    {
      && IsTree()
      && RecordsRules()
      && root in Repr && !root.isExact && !root.isWildcard
    }

    constructor ()
      ensures Valid() && fresh(Repr)
      ensures rules == []
    {
      root := new TrieNode([]);
      count := 0;
      rules := [];
      new;
      nodes := map[[] := root];
      Repr := {root};
    }

    method HasRules() returns (b: bool)
      requires Valid()
      ensures b <==> rules != []
    {
      b := count > 0;
    }

    /** Steps to the child `part` of the node at `path`, adding it if it is missing. */
    method Descend(curr: TrieNode, part: string, ghost path: seq<string>) returns (next: TrieNode)
      requires Valid() && path in nodes && nodes[path] == curr
      modifies this, Repr
      ensures Valid() && fresh(Repr - old(Repr))
      ensures rules == old(rules)
      ensures Child(path, part) in nodes && nodes[Child(path, part)] == next
    {
      if part in curr.children {
        next := curr.children[part];
      } else {
        next := new TrieNode(Child(path, part));
        Attach(curr, part, next, path);
      }
    }

    method Attach(curr: TrieNode, part: string, next: TrieNode, ghost path: seq<string>)
      requires Valid() && path in nodes && nodes[path] == curr
      requires part !in curr.children
      requires next !in Repr && next.path == Child(path, part)
      requires next.children == map[] && !next.isExact && !next.isWildcard
      modifies this, curr
      ensures Valid() && Repr == old(Repr) + {next}
      ensures rules == old(rules)
      ensures Child(path, part) in nodes && nodes[Child(path, part)] == next
    {
      ghost var q := Child(path, part);
      assert Parent(q) == path;
      curr.children := curr.children[part := next];
      nodes := nodes[q := next];
      Repr := Repr + {next};
      forall p, x | p in nodes
        ensures Child(p, x) in nodes <==> x in nodes[p].children
        ensures x in nodes[p].children ==> nodes[p].children[x] == nodes[Child(p, x)]
      {
        assert Parent(Child(p, x)) == p && Child(p, x)[|p|] == x;
      }
    }

    /** Appends the accepted rule, if the pattern has any label. */
    method Insert(domain: string, isWildcard: bool)
      requires Valid()
      modifies this, Repr
      ensures Valid() && fresh(Repr - old(Repr))
      ensures rules == old(rules) + AcceptedRules(domain, isWildcard)
    {
      var d := Normalize(domain);
      if d == "" {
        ReverseLabelsOfWord("");
        return;
      }
      if HasPrefix(d, "*.") {
        InsertLabels(TrimPrefix(d, "*."), true);
      } else if HasPrefix(d, ".") {
        InsertLabels(TrimPrefix(d, "."), true);
      } else {
        InsertLabels(d, isWildcard);
      }
    }

    method InsertLabels(d: string, wildcard: bool)
      requires Valid()
      modifies this, Repr
      ensures Valid() && fresh(Repr - old(Repr))
      ensures rules == old(rules) + if ReverseLabels(d) == [] then [] else [Rule(ReverseLabels(d), wildcard)]
    {
      var curr, hasLabels := Walk(d);
      if hasLabels {
        Flag(curr, wildcard, ReverseLabels(d));
      }
    }

    /** Goes down the labels of `d` from the root, growing the tree where it ends. */
    method Walk(d: string) returns (curr: TrieNode, hasLabels: bool)
      requires Valid()
      modifies this, Repr
      ensures Valid() && fresh(Repr - old(Repr))
      ensures rules == old(rules)
      ensures ReverseLabels(d) in nodes && nodes[ReverseLabels(d)] == curr
      ensures hasLabels <==> ReverseLabels(d) != []
    {
      ghost var path, todo := [], ReverseLabels(d);
      curr := root;
      hasLabels := false;
      var end: nat := |d|;
      assert d[..end] == d;
      while end > 0
        invariant end <= |d| && todo == ReverseLabels(d[..end]) && ReverseLabels(d) == path + todo
        invariant Valid() && fresh(Repr - old(Repr)) && rules == old(rules)
        invariant path in nodes && nodes[path] == curr
        invariant hasLabels <==> path != []
      {
        var part, rest := PreviousLabel(d, end);
        if part != "" {
          hasLabels := true;
          MoveLabel(path, part, ReverseLabels(d[..rest]));
          curr := Descend(curr, part, path);
          path := Child(path, part);
        }
        end, todo := rest, ReverseLabels(d[..rest]);
      }
      ReverseLabelsOfWord("");
      assert path + todo == path;
    }

    lemma MoveLabel(path: seq<string>, part: string, todo: seq<string>)
      ensures path + ([part] + todo) == Child(path, part) + todo
    {
    }

    /** Marks the node at `path` and counts the rule. */
    method Flag(curr: TrieNode, wildcard: bool, ghost path: seq<string>)
      requires Valid() && path in nodes && nodes[path] == curr && path != []
      modifies this, curr
      ensures Valid() && Repr == old(Repr)
      ensures rules == old(rules) + [Rule(path, wildcard)]
    {
      ghost var added := Rule(path, wildcard);
      if wildcard {
        curr.isWildcard := true;
      } else {
        curr.isExact := true;
      }
      count := count + 1;
      rules := rules + [added];
      forall p | p in nodes
        ensures nodes[p].isExact <==> Rule(p, false) in rules
        ensures nodes[p].isWildcard <==> Rule(p, true) in rules
      {
        assert nodes[p] == curr <==> p == path;
      }
    }

    /** Exactly when some accepted rule hits the labels of the normalised domain. */
    method Matches(domain: string) returns (b: bool)
      requires Valid()
      ensures b <==> MatchesSome(rules, domain)
    {
      if count == 0 { return false; }
      var d := Normalize(domain);
      if d == "" {
        ReverseLabelsOfWord("");
        return false;
      }
      b := MatchesLabels(d);
    }

    method MatchesLabels(d: string) returns (b: bool)
      requires Valid()
      ensures b <==> exists r :: r in rules && Covers(r, ReverseLabels(d))
    {
      ghost var all := ReverseLabels(d);
      ghost var path := [];
      var curr := root;
      var allLabelsConsumed := true;
      var end: nat := |d|;
      assert d[..end] == d;
      var stop := false;
      while end > 0 && !stop
        invariant end <= |d|
        invariant path in nodes && nodes[path] == curr
        invariant path <= all
        invariant !stop ==> allLabelsConsumed && all == path + ReverseLabels(d[..end])
        invariant !stop ==> NoWildcardAbove(path)
        invariant stop && allLabelsConsumed ==> curr.isWildcard
        invariant stop && !allLabelsConsumed ==> !curr.isWildcard && forall r :: r in rules ==> !Covers(r, all)
      {
        var part, rest := PreviousLabel(d, end);
        if part != "" {
          assert path + ([part] + ReverseLabels(d[..rest])) == Child(path, part) + ReverseLabels(d[..rest]);
          if part in curr.children {
            curr := curr.children[part];
            if curr.isWildcard {
              stop := true;
            } else {
              ExtendsNoWildcard(path, part);
            }
            path := Child(path, part);
          } else {
            NoDeeperRule(path, part, all);
            allLabelsConsumed, stop := false, true;
          }
        }
        end := rest;
      }
      ReverseLabelsOfWord("");
      if curr.isWildcard {
        assert Covers(Rule(path, true), all);
        return true;
      }
      b := allLabelsConsumed && curr.isExact;
      if b {
        assert Covers(Rule(path, false), all);
      } else if allLabelsConsumed {
        NoRuleAt(path);
      }
    }

    /** No wildcard rule sits at the path or at a prefix of it. */
    ghost predicate NoWildcardAbove(path: seq<string>)
      reads this
    {
      forall r :: r in rules && r.wildcard ==> !(r.labels <= path)
    }

    lemma ExtendsNoWildcard(path: seq<string>, part: string)
      requires NoWildcardAbove(path) && Rule(Child(path, part), true) !in rules
      ensures NoWildcardAbove(Child(path, part))
    {
      forall r | r in rules && r.wildcard ensures !(r.labels <= Child(path, part)) {
        assert r == Rule(r.labels, true);
        assert r.labels <= Child(path, part) ==> r.labels <= path || r.labels == Child(path, part);
      }
    }

    lemma NoRuleAt(path: seq<string>)
      requires NoWildcardAbove(path) && Rule(path, false) !in rules
      ensures forall r :: r in rules ==> !Covers(r, path)
    {
      forall r | r in rules ensures !Covers(r, path) {
        assert r == Rule(r.labels, r.wildcard);
      }
    }

    /** With the next child missing and no wildcard above, nothing hits. */
    lemma NoDeeperRule(path: seq<string>, part: string, all: seq<string>)
      requires Valid() && path in nodes && part !in nodes[path].children
      requires Child(path, part) <= all
      requires NoWildcardAbove(path)
      ensures forall r :: r in rules ==> !Covers(r, all)
    {
      assert Child(path, part) !in nodes;
      forall r | r in rules && r.labels <= all ensures !Covers(r, all) {
        if |r.labels| <= |path| {
          assert r.labels <= path;
        } else {
          assert r.labels[..|path| + 1] == Child(path, part);
          PrefixClosed(r.labels, |path| + 1);
        }
      }
    }

    lemma {:induction false} PrefixClosed(p: seq<string>, k: nat)
      requires Valid() && p in nodes && k <= |p|
      ensures p[..k] in nodes
      decreases |p|
    {
      if k < |p| {
        PrefixClosed(Parent(p), k);
        assert Parent(p)[..k] == p[..k];
      } else {
        assert p[..k] == p;
      }
    }
  }
}

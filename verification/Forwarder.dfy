/** The upstream forwarder: three strategies over the outcomes of the same resolvers. */
module Forwarders {
  import opened Text
  import opened Arithmetic

  /** What an exchange with one resolver comes to: a response, neither response nor error, or an error. */
  datatype Outcome<R> = Answered(resp: R) | NoAnswer | Failed(error: string)

  datatype ForwardResult<R> = Response(resp: R) | AllFailed(lastError: Option<string>)

  function ErrorOf<R>(o: Outcome<R>): Option<string> {
    match o
    case Failed(e) => Some(e)
    case _ => None
  }

  // ---------------------------------------------------------------- specifications

  /** Trying resolvers in order: the first response, or else the last error. */
  function InOrder<R>(order: seq<Outcome<R>>): ForwardResult<R> {
    if order == [] then AllFailed(None)
    else if order[0].Answered? then Response(order[0].resp)
    else if |order| == 1 then AllFailed(ErrorOf(order[0]))
    else InOrder(order[1..])
  }

  function Rotated<R>(outcomes: seq<Outcome<R>>, first: nat): seq<Outcome<R>>
    requires first <= |outcomes|
  {
    outcomes[first..] + outcomes[..first]
  }

  /** The workers of a fan-out, one for each of `n` resolvers. */
  function Workers(n: nat): (s: set<nat>)
    ensures |s| == n
    ensures forall w: nat :: w in s <==> w < n
  {
    if n == 0 then {} else Workers(n - 1) + {n - 1}
  }

  ghost predicate SomeAnswered<R(!new)>(outcomes: seq<Outcome<R>>) {
    exists i :: 0 <= i < |outcomes| && outcomes[i].Answered?
  }

  /** A response of some resolver when there is one, otherwise a failure with what some resolver said. */
  ghost predicate SomeResponse<R(!new)>(outcomes: seq<Outcome<R>>, result: ForwardResult<R>) {
    match result
    case Response(resp) => exists i :: 0 <= i < |outcomes| && outcomes[i] == Answered(resp)
    case AllFailed(e) => !SomeAnswered(outcomes) && (outcomes != [] ==> SomeError(outcomes, e))
  }

  ghost predicate SomeError<R(!new)>(outcomes: seq<Outcome<R>>, e: Option<string>) {
    exists i :: 0 <= i < |outcomes| && e == ErrorOf(outcomes[i])
  }

  /** The first response in order, with nothing but failures before it. */
  lemma {:induction false} SettledIsFirst<R(!new)>(order: seq<Outcome<R>>)
    ensures SomeResponse(order, InOrder(order))
    ensures InOrder(order).Response? ==>
      exists k :: 0 <= k < |order| && order[k] == Answered(InOrder(order).resp) && forall j :: 0 <= j < k ==> !order[j].Answered?
    ensures InOrder(order).AllFailed? && order != [] ==> InOrder(order).lastError == ErrorOf(order[|order| - 1])
  {
    if order != [] && !order[0].Answered? && |order| > 1 {
      var rest := order[1..];
      SettledIsFirst(rest);
      if InOrder(rest).Response? {
        var k :| 0 <= k < |rest| && rest[k] == Answered(InOrder(rest).resp) && forall j :: 0 <= j < k ==> !rest[j].Answered?;
        assert order[k + 1] == rest[k];
        assert forall j :: 1 <= j < k + 1 ==> order[j] == rest[j - 1];
      } else {
        assert forall j :: 1 <= j < |order| ==> order[j] == rest[j - 1];
      }
    } else if order != [] && order[0].Answered? {
      assert order[0] == Answered(InOrder(order).resp);
    }
  }

  lemma RotatedAt<R>(outcomes: seq<Outcome<R>>, first: nat, k: nat)
    requires first < |outcomes| && k < |outcomes|
    ensures Rotated(outcomes, first)[k] == outcomes[(first + k) % |outcomes|]
  {
    var n := |outcomes|;
    if first + k >= n {
      AddSize(first + k - n, n);
      ModSmall(first + k - n, n);
    } else {
      ModSmall(first + k, n);
    }
  }

  lemma RotatedAnswers<R>(outcomes: seq<Outcome<R>>, first: nat)
    requires first <= |outcomes|
    ensures forall o :: o in Rotated(outcomes, first) <==> o in outcomes
  {
    assert outcomes == outcomes[..first] + outcomes[first..];
  }

  /** The results that a strategy may give, `turn` being the counter after this call's increment. */
  ghost predicate Allowed<R(!new)>(strategy: string, turn: nat, outcomes: seq<Outcome<R>>, result: ForwardResult<R>)
    requires outcomes != []
  {
    if strategy == "parallel" then SomeResponse(outcomes, result)
    else if strategy == "failover" then result == InOrder(outcomes)
    else result == InOrder(Rotated(outcomes, turn % |outcomes|))
  }

  /** Every strategy gives a response of some resolver exactly when one has a response. */
  lemma StrategiesAgree<R(!new)>(strategy: string, turn: nat, outcomes: seq<Outcome<R>>, result: ForwardResult<R>)
    requires outcomes != [] && Allowed(strategy, turn, outcomes, result)
    ensures SomeResponse(outcomes, result)
    ensures result.Response? <==> SomeAnswered(outcomes)
  {
    var order := Rotated(outcomes, turn % |outcomes|);
    SettledIsFirst(outcomes);
    SettledIsFirst(order);
    RotatedAnswers(outcomes, turn % |outcomes|);
    SameAnswers(order, outcomes, InOrder(order));
  }

  lemma SameAnswers<R(!new)>(a: seq<Outcome<R>>, b: seq<Outcome<R>>, result: ForwardResult<R>)
    requires forall o :: o in a <==> o in b
    requires SomeResponse(a, result)
    ensures SomeResponse(b, result)
  {
    match result
    case Response(resp) =>
      var i :| 0 <= i < |a| && a[i] == Answered(resp);
      assert a[i] in b;
    case AllFailed(e) =>
      forall i | 0 <= i < |b| ensures !b[i].Answered? {
        assert b[i] in a;
      }
      if b != [] {
        assert b[0] in a;
        var i :| 0 <= i < |a| && e == ErrorOf(a[i]);
        assert a[i] in b;
      }
  }

  // ---------------------------------------------------------------- the forwarder object

  class Forwarder {
    const resolvers: nat       // size of the pool
    const strategy: string     // in lower case
    var counter: nat           // an unsigned 64-bit counter

    ghost predicate Valid()
      reads this
    {
      resolvers > 0 && counter < UINT64
    }

    constructor (resolvers: nat, strategy: string)
      requires resolvers > 0
      ensures Valid() && this.resolvers == resolvers && counter == 0
      ensures this.strategy == if strategy == "" then "round_robin" else ToLower(strategy)
    {
      this.resolvers := resolvers;
      this.strategy := if ToLower(strategy) == "" then "round_robin" else ToLower(strategy);
      counter := 0;
    }

    /** Starts at the next resolver in turn and goes on round the pool; each is tried at most once. */
    method ForwardRoundRobin<R(!new)>(outcomes: seq<Outcome<R>>) returns (result: ForwardResult<R>, tried: seq<nat>)
      requires Valid() && |outcomes| == resolvers
      modifies this
      ensures Valid() && counter == (old(counter) + 1) % UINT64
      ensures result == InOrder(Rotated(outcomes, counter % resolvers))
      ensures 0 < |tried| <= resolvers
      ensures forall k :: 0 <= k < |tried| ==> tried[k] == (counter % resolvers + k) % resolvers
      ensures forall k :: 0 <= k < |tried| - 1 ==> !outcomes[tried[k]].Answered?
      ensures if result.Response? then outcomes[Last(tried)] == Answered(result.resp) else |tried| == resolvers
    {
      counter := (counter + 1) % UINT64;
      result, tried := TryFrom(outcomes, counter % resolvers);
    }

    method TryFrom<R(!new)>(outcomes: seq<Outcome<R>>, idx: nat) returns (result: ForwardResult<R>, tried: seq<nat>)
      requires Valid() && |outcomes| == resolvers && idx < resolvers
      ensures result == InOrder(Rotated(outcomes, idx))
      ensures 0 < |tried| <= resolvers
      ensures forall k :: 0 <= k < |tried| ==> tried[k] == (idx + k) % resolvers
      ensures forall k :: 0 <= k < |tried| - 1 ==> !outcomes[tried[k]].Answered?
      ensures if result.Response? then outcomes[Last(tried)] == Answered(result.resp) else |tried| == resolvers
    {
      var n := resolvers;
      ghost var order := Rotated(outcomes, idx);
      var lastErr: Option<string> := None;
      tried := [];
      TakeAll(order);
      for i := 0 to n
        invariant |tried| == i
        invariant forall k :: 0 <= k < i ==> tried[k] == (idx + k) % n && !outcomes[tried[k]].Answered?
        invariant InOrder(order) == if i == n then AllFailed(lastErr) else InOrder(order[i..])
      {
        var target := (idx + i) % n;
        RotatedAt(outcomes, idx, i);
        assert order[i..][1..] == order[i + 1..];
        tried := tried + [target];
        if outcomes[target].Answered? {
          return Response(outcomes[target].resp), tried;
        }
        lastErr := ErrorOf(outcomes[target]);
      }
      result := AllFailed(lastErr);
    }

    /** Always in the defined order. */
    method ForwardFailover<R>(outcomes: seq<Outcome<R>>) returns (result: ForwardResult<R>)
      requires Valid() && |outcomes| == resolvers
      ensures result == InOrder(outcomes)
    {
      var lastErr: Option<string> := None;
      TakeAll(outcomes);
      for i := 0 to resolvers
        invariant InOrder(outcomes) == if i == resolvers then AllFailed(lastErr) else InOrder(outcomes[i..])
      {
        assert outcomes[i..][1..] == outcomes[i + 1..];
        if outcomes[i].Answered? {
          return Response(outcomes[i].resp);
        }
        lastErr := ErrorOf(outcomes[i]);
      }
      result := AllFailed(lastErr);
    }

    /** The receiver of the fan-out: results arrive in an arbitrary order, the first response wins. */
    method ForwardParallel<R(!new)>(outcomes: seq<Outcome<R>>) returns (result: ForwardResult<R>)
      requires Valid() && |outcomes| == resolvers
      ensures SomeResponse(outcomes, result)
    {
      var lastErr: Option<string> := None;
      var pending := Workers(resolvers);
      while pending != {}
        invariant pending <= Workers(resolvers)
        invariant forall w :: 0 <= w < |outcomes| && w !in pending ==> !outcomes[w].Answered?
        invariant pending == Workers(resolvers) || SomeError(outcomes, lastErr)
      {
        var w :| w in pending;
        pending := pending - {w};
        if outcomes[w].Answered? {
          return Response(outcomes[w].resp);
        }
        lastErr := ErrorOf(outcomes[w]);
      }
      result := AllFailed(lastErr);
    }

    method Forward<R(!new)>(outcomes: seq<Outcome<R>>) returns (result: ForwardResult<R>)
      requires Valid() && |outcomes| == resolvers
      modifies this
      ensures Valid()
      ensures Allowed(strategy, counter, outcomes, result) && SomeResponse(outcomes, result)
      ensures strategy == "failover" ==> result == InOrder(outcomes)
      ensures strategy != "failover" && strategy != "parallel" ==> result == InOrder(Rotated(outcomes, counter % resolvers))
      ensures counter == if strategy == "parallel" || strategy == "failover" then old(counter) else (old(counter) + 1) % UINT64
    {
      if strategy == "parallel" {
        result := ForwardParallel(outcomes);
      } else if strategy == "failover" {
        result := ForwardFailover(outcomes);
      } else {
        var tried;
        result, tried := ForwardRoundRobin(outcomes);
      }
      StrategiesAgree(strategy, counter, outcomes, result);
    }
  }

  // ---------------------------------------------------------------- fairness of round robin

  /** The counter, of the given modulus, after `k` more calls. */
  function CounterAfter(counter: nat, k: nat, modulus: nat): nat
    requires modulus > 0
  {
    if k == 0 then counter else (CounterAfter(counter, k - 1, modulus) + 1) % modulus
  }

  /** The resolver that the k-th next call starts at. */
  function Start(counter: nat, k: nat, n: nat, modulus: nat): nat
    requires n > 0 && modulus > 0
  {
    CounterAfter(counter, k + 1, modulus) % n
  }

  lemma {:induction false} CounterCounts(counter: nat, k: nat, modulus: nat)
    requires counter < modulus
    ensures CounterAfter(counter, k, modulus) == (counter + k) % modulus
  {
    if k == 0 {
      ModSmall(counter, modulus);
    } else {
      CounterCounts(counter, k - 1, modulus);
      ModSuccessor(CounterAfter(counter, k - 1, modulus), counter + k - 1, modulus);
    }
  }

  /** `n` calls start at `n` different resolvers. */
  ghost predicate Fair(counter: nat, n: nat, modulus: nat)
    requires n > 0 && modulus > 0
  {
    forall i, j {:trigger Start(counter, i, n, modulus), Start(counter, j, n, modulus)} ::
      0 <= i < j < n ==> Start(counter, i, n, modulus) != Start(counter, j, n, modulus)
  }

  /** Without a wrap strictly inside the window, the calls count up. */
  lemma StartWithoutWrap(counter: nat, k: nat, n: nat, modulus: nat)
    requires 0 < n && k < n && counter < modulus && (counter + n < modulus || counter + 1 == modulus) && n <= modulus
    ensures Start(counter, k, n, modulus) == if counter + 1 == modulus then k else (counter + 1 + k) % n
  {
    CounterCounts(counter, k + 1, modulus);
    if counter + 1 == modulus {
      AddSize(k, modulus);
      ModSmall(k, modulus);
      ModSmall(k, n);
    } else {
      ModSmall(counter + 1 + k, modulus);
    }
  }

  /** When the window straddles the wrap and the pool size does not divide the modulus, two calls
      start at one resolver. */
  lemma StraddlingCollides(counter: nat, n: nat, modulus: nat) returns (i: nat, j: nat)
    requires 0 < n <= modulus && counter + 1 < modulus <= counter + n && modulus % n != 0
    ensures i < j < n && Start(counter, i, n, modulus) == Start(counter, j, n, modulus)
  {
    var r, before: nat := modulus % n, modulus - 1 - counter;   // `before` calls come before the wrap
    if before + r <= n {
      i, j := before - 1, before + r - 1;
      BeforeWrap(counter, before - 1, n, modulus, 1);
      AfterWrap(counter, j, n, modulus);
    } else {
      var back: nat := before + r + 1 - n;
      i, j := before - back, n - 1;
      BeforeWrap(counter, i, n, modulus, back);
      AfterWrap(counter, j, n, modulus);
    }
  }

  /** The call that starts `back` numbers before the wrap. */
  lemma BeforeWrap(counter: nat, i: nat, n: nat, modulus: nat, back: nat)
    requires n > 0 && counter < modulus && counter + 1 + i == modulus - back && 0 < back <= modulus % n <= modulus
    ensures Start(counter, i, n, modulus) == modulus % n - back
  {
    CounterCounts(counter, i + 1, modulus);
    ModSmall(modulus - back, modulus);
    assert modulus == modulus / n * n + modulus % n;
    DivModUnique(modulus - back, n, modulus / n, modulus % n - back);
  }

  /** A call after the wrap. */
  lemma AfterWrap(counter: nat, j: nat, n: nat, modulus: nat)
    requires counter < modulus && 0 < n <= modulus <= counter + 1 + j < modulus + n
    ensures Start(counter, j, n, modulus) == counter + 1 + j - modulus
  {
    var rest: nat := counter + 1 + j - modulus;
    CounterCounts(counter, j + 1, modulus);
    AddSize(rest, modulus);
    ModSmall(rest, modulus);
    ModSmall(rest, n);
  }

  /** Any `n` consecutive calls start at `n` different resolvers exactly when the counter does not wrap
      inside the window or the pool size divides its modulus. */
  lemma FairWindows(counter: nat, n: nat, modulus: nat)
    requires 0 < n <= modulus && counter < modulus
    ensures Fair(counter, n, modulus) <==> counter + n < modulus || counter + 1 == modulus || modulus % n == 0
  {
    if counter + n < modulus || counter + 1 == modulus {
      forall i, j | 0 <= i < j < n ensures Start(counter, i, n, modulus) != Start(counter, j, n, modulus) {
        StartWithoutWrap(counter, i, n, modulus);
        StartWithoutWrap(counter, j, n, modulus);
        if (counter + 1 + i) % n == (counter + 1 + j) % n { CongruentWithin(counter + 1 + i, counter + 1 + j, n); }
      }
    } else if modulus % n == 0 {
      assert modulus == modulus / n * n;
      forall i, j | 0 <= i < j < n ensures Start(counter, i, n, modulus) != Start(counter, j, n, modulus) {
        CounterCounts(counter, i + 1, modulus);
        CounterCounts(counter, j + 1, modulus);
        ModMod(counter + 1 + i, n, modulus / n);
        ModMod(counter + 1 + j, n, modulus / n);
        if (counter + 1 + i) % n == (counter + 1 + j) % n { CongruentWithin(counter + 1 + i, counter + 1 + j, n); }
      }
    } else {
      var i, j := StraddlingCollides(counter, n, modulus);
    }
  }
}

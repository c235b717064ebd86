/** The ring under concurrent pushes: reserving a ticket and storing the entry are two atomic steps. */
module RingSteps {
  import opened Text
  import opened Arithmetic
  import opened RingBuffers

  /** Slots hold the ticket of the entry stored there; pending tickets are reserved, not yet stored. */
  datatype Ring = Ring(cursor: nat, slots: seq<Option<nat>>, pending: set<nat>)

  datatype Step = Reserve | Store(ticket: nat)

  ghost predicate Init(r: Ring, size: nat) {
    size > 0 && r == Ring(0, seq(size, _ => None), {})
  }

  ghost predicate Next(r: Ring, step: Step, r': Ring) {
    match step
    case Reserve => r' == r.(cursor := r.cursor + 1, pending := r.pending + {r.cursor + 1})
    case Store(t) =>
      && t in r.pending && r.slots != []
      && r' == r.(slots := r.slots[Slot(t, |r.slots|) := Some(t)], pending := r.pending - {t})
  }

  ghost predicate Reaches(steps: seq<Step>, r: Ring, size: nat) {
    if steps == [] then Init(r, size)
    else exists before :: Reaches(Front(steps), before, size) && Next(before, Last(steps), r)
  }

  // ---------------------------------------------------------------- in every interleaving

  ghost predicate Inv(r: Ring, size: nat) {
    && |r.slots| == size > 0
    && (forall t :: t in r.pending ==> 1 <= t <= r.cursor)
    && (forall s :: 0 <= s < size && r.slots[s].Some? ==>
          var t := r.slots[s].value; 1 <= t <= r.cursor && Slot(t, size) == s && t !in r.pending)
  }

  /** Every non-empty slot holds a reserved and stored ticket that belongs there. */
  lemma {:induction false} SlotsCongruent(steps: seq<Step>, r: Ring, size: nat)
    requires Reaches(steps, r, size)
    ensures Inv(r, size)
  {
    if steps != [] {
      var before :| Reaches(Front(steps), before, size) && Next(before, Last(steps), r);
      SlotsCongruent(Front(steps), before, size);
    }
  }

  /** The counter has not wrapped, or a wrap does not show. */
  predicate Plain(t: nat, size: nat)
    requires size > 0
  {
    t < UINT64 || UINT64 % size == 0
  }

  /** A slot is then the ticket modulo the size. */
  lemma PlainSlot(t: nat, size: nat)
    requires size > 0 && Plain(t, size)
    ensures Slot(t, size) == t % size
  {
    if t < UINT64 {
      ModSmall(t, UINT64);
    } else {
      HarmlessWrap(t, size);
    }
  }

  // ---------------------------------------------------------------- what a slot holds

  predicate Into(step: Step, s: nat, size: nat)
    requires size > 0
  {
    step.Store? && Slot(step.ticket, size) == s
  }

  /** The place of the last store into the slot, -1 if there is none. */
  function LastInto(steps: seq<Step>, s: nat, size: nat): (i: int)
    requires size > 0
    ensures -1 <= i < |steps|
    ensures i >= 0 ==> Into(steps[i], s, size)
    ensures forall j :: i < j < |steps| ==> !Into(steps[j], s, size)
  {
    if steps == [] then -1
    else if Into(Last(steps), s, size) then |steps| - 1
    else LastInto(Front(steps), s, size)
  }

  ghost predicate HoldsLastInto(steps: seq<Step>, r: Ring, s: nat, size: nat)
    requires 0 < size == |r.slots| && s < size
  {
    var i := LastInto(steps, s, size);
    r.slots[s] == if i < 0 then None else Some(steps[i].ticket)
  }

  lemma {:induction false} SlotHoldsLastStore(steps: seq<Step>, r: Ring, size: nat)
    requires Reaches(steps, r, size)
    ensures |r.slots| == size > 0 && forall s :: 0 <= s < size ==> HoldsLastInto(steps, r, s, size)
  {
    if steps != [] {
      var before :| Reaches(Front(steps), before, size) && Next(before, Last(steps), r);
      SlotHoldsLastStore(Front(steps), before, size);
      forall s | 0 <= s < size ensures HoldsLastInto(steps, r, s, size) {
        assert HoldsLastInto(Front(steps), before, s, size);
      }
    }
  }

  /** The ticket is stored by the i-th step. */
  predicate StoredAt(steps: seq<Step>, i: nat, t: nat) {
    i < |steps| && steps[i] == Store(t)
  }

  /** A ticket is stored at most once, and exactly once when it is reserved and no longer pending. */
  lemma {:induction false} StoresOnce(steps: seq<Step>, r: Ring, size: nat)
    requires Reaches(steps, r, size)
    ensures forall t :: t in r.pending ==> 1 <= t <= r.cursor
    ensures forall i: nat, t: nat :: StoredAt(steps, i, t) ==> 1 <= t <= r.cursor && t !in r.pending
    ensures forall i: nat, j: nat, t: nat :: StoredAt(steps, i, t) && StoredAt(steps, j, t) ==> i == j
    ensures forall t: nat :: 1 <= t <= r.cursor && t !in r.pending ==> exists i: nat :: StoredAt(steps, i, t)
  {
    if steps != [] {
      var init, n := Front(steps), |steps| - 1;
      var before :| Reaches(init, before, size) && Next(before, Last(steps), r);
      StoresOnce(init, before, size);
      forall i: nat, t: nat | StoredAt(steps, i, t) ensures i < n ==> StoredAt(init, i, t) {}
      forall t: nat | 1 <= t <= r.cursor && t !in r.pending ensures exists i: nat :: StoredAt(steps, i, t) {
        if Last(steps) == Store(t) {
          assert StoredAt(steps, n, t);
        } else {
          var i: nat :| StoredAt(init, i, t);
          assert StoredAt(steps, i, t);
        }
      }
    }
  }

  // ---------------------------------------------------------------- exactly when nothing recent is lost

  /** One of the last `size` tickets. */
  predicate Recent(t: nat, cursor: nat, size: nat) {
    1 <= t <= cursor < t + size
  }

  /** The ring holds exactly the last `size` tickets, or all of them if there are fewer. */
  ghost predicate HoldsLast(r: Ring) {
    && r.slots != []
    && (forall t: nat :: Recent(t, r.cursor, |r.slots|) ==> r.slots[Slot(t, |r.slots|)] == Some(t))
    && (forall s :: 0 <= s < |r.slots| && r.slots[s].Some? ==> Recent(r.slots[s].value, r.cursor, |r.slots|))
  }

  /** The store of the ticket is followed by another store into its slot. */
  ghost predicate Spoiled(steps: seq<Step>, t: nat, size: nat)
    requires size > 0
  {
    exists i: nat, j: nat :: StoredAt(steps, i, t) && i < j < |steps| && Into(steps[j], Slot(t, size), size)
  }

  /** For every run and every quiescent state, wraps of the counter included: the ring holds exactly the last
      `size` tickets if and only if no store of one of them is followed by another store into its slot. */
  lemma HoldsLastExactly(steps: seq<Step>, r: Ring, size: nat)
    requires Reaches(steps, r, size) && r.pending == {}
    ensures HoldsLast(r) <==> forall t: nat :: Recent(t, r.cursor, size) ==> !Spoiled(steps, t, size)
  {
    SlotHoldsLastStore(steps, r, size);
    forall t: nat | Recent(t, r.cursor, size) ensures r.slots[Slot(t, size)] == Some(t) <==> !Spoiled(steps, t, size) {
      HeldUnlessSpoiled(steps, r, size, t);
    }
    if forall t: nat :: Recent(t, r.cursor, size) ==> !Spoiled(steps, t, size) {
      SlotsCongruent(steps, r, size);
      forall s | 0 <= s < size && r.slots[s].Some? ensures Recent(r.slots[s].value, r.cursor, size) {
        if r.cursor >= size {
          var t := SomeRecentAt(r, size, s);
        }
      }
    }
  }

  lemma HeldUnlessSpoiled(steps: seq<Step>, r: Ring, size: nat, t: nat)
    requires Reaches(steps, r, size) && r.pending == {} && |r.slots| == size > 0 && Recent(t, r.cursor, size)
    ensures r.slots[Slot(t, size)] == Some(t) <==> !Spoiled(steps, t, size)
  {
    SlotHoldsLastStore(steps, r, size);
    StoresOnce(steps, r, size);
    var s := Slot(t, size);
    assert HoldsLastInto(steps, r, s, size);
    var last := LastInto(steps, s, size);
    assert t !in r.pending;
    var i: nat :| StoredAt(steps, i, t);
    assert Into(steps[i], s, size);
    if last != i {
      assert StoredAt(steps, last, steps[last].ticket);
    }
  }

  // ---------------------------------------------------------------- the last tickets fill all slots

  /** The slots of the last `n` tickets up to `cursor`. */
  function SlotsOf(cursor: nat, n: nat, size: nat): set<nat>
    requires size > 0 && n <= cursor
  {
    if n == 0 then {} else SlotsOf(cursor, n - 1, size) + {Slot(cursor - (n - 1), size)}
  }

  lemma {:induction false} SlotsOfMembers(cursor: nat, n: nat, size: nat)
    requires size > 0 && n <= cursor
    ensures forall s :: s in SlotsOf(cursor, n, size) ==> s < size && exists t: nat :: cursor - n < t <= cursor && Slot(t, size) == s
  {
    if n > 0 {
      SlotsOfMembers(cursor, n - 1, size);
      assert Slot(cursor - (n - 1), size) < size;
    }
  }

  lemma {:induction false} SlotsOfCount(r: Ring, n: nat, size: nat)
    requires |r.slots| == size > 0 && n <= r.cursor && n <= size
    requires forall t: nat :: Recent(t, r.cursor, size) ==> r.slots[Slot(t, size)] == Some(t)
    ensures |SlotsOf(r.cursor, n, size)| == n
  {
    if n > 0 {
      SlotsOfCount(r, n - 1, size);
      SlotsOfMembers(r.cursor, n - 1, size);
      var t := r.cursor - (n - 1);
      assert Recent(t, r.cursor, size);
      if Slot(t, size) in SlotsOf(r.cursor, n - 1, size) {
        var u: nat :| r.cursor - (n - 1) < u <= r.cursor && Slot(u, size) == Slot(t, size);
        assert Recent(u, r.cursor, size);
      }
    }
  }

  function Below(n: nat): (s: set<nat>)
    ensures |s| == n && forall x: nat :: x in s <==> x < n
  {
    if n == 0 then {} else Below(n - 1) + {n - 1}
  }

  lemma SubsetOfSameSize(a: set<nat>, b: set<nat>)
    requires a <= b && |a| == |b|
    ensures a == b
  {
    assert b == a + (b - a);
  }

  /** When each of the last `size` tickets is in its slot, every slot has one of them. */
  lemma SomeRecentAt(r: Ring, size: nat, s: nat) returns (t: nat)
    requires |r.slots| == size > 0 && size <= r.cursor && s < size
    requires forall t: nat :: Recent(t, r.cursor, size) ==> r.slots[Slot(t, size)] == Some(t)
    ensures Recent(t, r.cursor, size) && r.slots[s] == Some(t)
  {
    SlotsOfCount(r, size, size);
    SlotsOfMembers(r.cursor, size, size);
    var slots, all := SlotsOf(r.cursor, size, size), Below(size);
    assert slots <= all && |slots| == |all|;
    SubsetOfSameSize(slots, all);
    assert s in slots;
    t :| r.cursor - size < t <= r.cursor && Slot(t, size) == s;
    assert Recent(t, r.cursor, size);
  }

  // ---------------------------------------------------------------- without a visible wrap

  /** The store of the ticket is followed by that of an older ticket congruent to it. */
  ghost predicate SpoiledByOlder(steps: seq<Step>, t: nat, size: nat)
    requires size > 0
  {
    exists i: nat, j: nat, u: nat :: StoredAt(steps, i, t) && StoredAt(steps, j, u) && i < j && u < t && u % size == t % size
  }

  /** Then only an older congruent ticket can spoil a recent one. */
  lemma HoldsLastUnwrapped(steps: seq<Step>, r: Ring, size: nat)
    requires Reaches(steps, r, size) && r.pending == {} && size > 0 && Plain(r.cursor, size)
    ensures HoldsLast(r) <==> forall t: nat :: Recent(t, r.cursor, size) ==> !SpoiledByOlder(steps, t, size)
  {
    HoldsLastExactly(steps, r, size);
    forall t: nat | Recent(t, r.cursor, size) ensures Spoiled(steps, t, size) <==> SpoiledByOlder(steps, t, size) {
      OnlyOlderSpoils(steps, r, size, t);
    }
  }

  lemma OnlyOlderSpoils(steps: seq<Step>, r: Ring, size: nat, t: nat)
    requires Reaches(steps, r, size) && size > 0 && Plain(r.cursor, size) && Recent(t, r.cursor, size)
    ensures Spoiled(steps, t, size) <==> SpoiledByOlder(steps, t, size)
  {
    StoresOnce(steps, r, size);
    PlainSlot(t, size);
    if Spoiled(steps, t, size) {
      var i: nat, j: nat :| StoredAt(steps, i, t) && i < j < |steps| && Into(steps[j], Slot(t, size), size);
      var u := steps[j].ticket;
      assert StoredAt(steps, j, u);
      PlainSlot(u, size);
      if u > t { CongruentWithin(t, u, size); }
    }
    if SpoiledByOlder(steps, t, size) {
      var i: nat, j: nat, u: nat :| StoredAt(steps, i, t) && StoredAt(steps, j, u) && i < j && u < t && u % size == t % size;
      PlainSlot(u, size);
      assert Into(steps[j], Slot(t, size), size);
    }
  }

  // ---------------------------------------------------------------- timely pushes

  /** A push overtaken by `size` or more later reservations. */
  predicate Overtaken(r: Ring, step: Step) {
    step.Store? && r.cursor >= step.ticket + |r.slots|
  }

  ghost predicate ReachesTimely(steps: seq<Step>, r: Ring, size: nat) {
    if steps == [] then Init(r, size)
    else exists before ::
           ReachesTimely(Front(steps), before, size) && Next(before, Last(steps), r) && !Overtaken(before, Last(steps))
  }

  /** Every store comes less than `size` reservations after its own, so an older congruent one never
      comes after. */
  lemma {:induction false} TimelyNotSpoiled(steps: seq<Step>, r: Ring, size: nat)
    requires ReachesTimely(steps, r, size)
    ensures Reaches(steps, r, size) && size > 0
    ensures forall t: nat :: !SpoiledByOlder(steps, t, size)
  {
    if steps != [] {
      var init, n := Front(steps), |steps| - 1;
      var before :| ReachesTimely(init, before, size) && Next(before, Last(steps), r) && !Overtaken(before, Last(steps));
      TimelyNotSpoiled(init, before, size);
      StoresOnce(init, before, size);
      SlotsCongruent(init, before, size);
      forall t: nat | SpoiledByOlder(steps, t, size) ensures false {
        var i: nat, j: nat, u: nat :| StoredAt(steps, i, t) && StoredAt(steps, j, u) && i < j && u < t && u % size == t % size;
        assert StoredAt(init, i, t);
        if j < n {
          assert StoredAt(init, j, u);
          assert SpoiledByOlder(init, t, size);
        } else {
          CongruentWithin(u, t, size);
        }
      }
    }
  }

  /** If no push is overtaken by `size` later reservations before it stores, then at quiescence the
      ring holds exactly the last `size` tickets. */
  lemma TimelyHoldsLast(steps: seq<Step>, r: Ring, size: nat)
    requires ReachesTimely(steps, r, size) && r.pending == {}
    ensures size > 0 && (Plain(r.cursor, size) ==> HoldsLast(r))
  {
    TimelyNotSpoiled(steps, r, size);
    if Plain(r.cursor, size) {
      HoldsLastUnwrapped(steps, r, size);
    }
  }

  // ---------------------------------------------------------------- harmful stores

  /** A store that replaces a later ticket's entry. */
  ghost predicate Harmful(r: Ring, step: Step) {
    step.Store? && r.slots != [] && var s := r.slots[Slot(step.ticket, |r.slots|)]; s.Some? && s.value > step.ticket
  }

  ghost predicate ReachesUnharmed(steps: seq<Step>, r: Ring, size: nat) {
    if steps == [] then Init(r, size)
    else exists before ::
           ReachesUnharmed(Front(steps), before, size) && Next(before, Last(steps), r) && !Harmful(before, Last(steps))
  }

  /** The slot of a ticket holds it or a later one. */
  ghost predicate Kept(r: Ring, t: nat) {
    r.slots != [] && var s := r.slots[Slot(t, |r.slots|)]; s.Some? && s.value >= t
  }

  lemma {:induction false} UnharmedKeeps(steps: seq<Step>, r: Ring, size: nat)
    requires ReachesUnharmed(steps, r, size)
    ensures Reaches(steps, r, size) && |r.slots| == size > 0
    ensures forall i: nat, t: nat :: StoredAt(steps, i, t) ==> Kept(r, t)
  {
    if steps != [] {
      var init := Front(steps);
      var before :| ReachesUnharmed(init, before, size) && Next(before, Last(steps), r) && !Harmful(before, Last(steps));
      UnharmedKeeps(init, before, size);
      forall i: nat, t: nat | StoredAt(steps, i, t) ensures Kept(r, t) {
        assert i < |init| ==> StoredAt(init, i, t);
      }
    }
  }

  lemma {:induction false} UnharmedNotSpoiled(steps: seq<Step>, r: Ring, size: nat)
    requires ReachesUnharmed(steps, r, size) && size > 0 && Plain(r.cursor, size)
    ensures forall t: nat :: !SpoiledByOlder(steps, t, size)
  {
    if steps != [] {
      var init, n := Front(steps), |steps| - 1;
      var before :| ReachesUnharmed(init, before, size) && Next(before, Last(steps), r) && !Harmful(before, Last(steps));
      UnharmedNotSpoiled(init, before, size);
      UnharmedKeeps(init, before, size);
      StoresOnce(init, before, size);
      forall t: nat | SpoiledByOlder(steps, t, size) ensures false {
        var i: nat, j: nat, u: nat :| StoredAt(steps, i, t) && StoredAt(steps, j, u) && i < j && u < t && u % size == t % size;
        assert StoredAt(init, i, t);
        PlainSlot(t, size);
        PlainSlot(u, size);
        assert j < n ==> StoredAt(init, j, u) && SpoiledByOlder(init, t, size);
      }
    }
  }

  /** If no store replaces a later ticket's entry, then with no push in flight the ring holds exactly
      the last `size` tickets. */
  lemma QuiescentHoldsLast(steps: seq<Step>, r: Ring, size: nat)
    requires ReachesUnharmed(steps, r, size) && r.pending == {}
    ensures size > 0 && (Plain(r.cursor, size) ==> HoldsLast(r))
  {
    UnharmedKeeps(steps, r, size);
    if Plain(r.cursor, size) {
      UnharmedNotSpoiled(steps, r, size);
      HoldsLastUnwrapped(steps, r, size);
    }
  }

  /** Right after a harmful store an entry is missing; only a still later ticket can make that good. */
  lemma HarmfulLastStoreLoses(steps: seq<Step>, r: Ring, size: nat, step: Step, r': Ring)
    requires Reaches(steps, r, size) && Next(r, step, r') && Harmful(r, step)
    ensures !HoldsLast(r')
  {
    SlotsCongruent(steps, r, size);
    assert r'.slots[Slot(step.ticket, size)] == Some(step.ticket);
  }

  // ---------------------------------------------------------------- a run that loses an entry

  /** Reserves `n` tickets and stores none. */
  lemma {:induction false} ReserveAll(n: nat, size: nat) returns (steps: seq<Step>, r: Ring)
    requires size > 0
    ensures Reaches(steps, r, size) && r.cursor == n && forall t :: t in r.pending <==> 1 <= t <= n
  {
    if n == 0 {
      steps, r := [], Ring(0, seq(size, _ => None), {});
    } else {
      var init, before := ReserveAll(n - 1, size);
      steps, r := Extend(init, before, size, Reserve);
    }
  }

  lemma Extend(steps: seq<Step>, r: Ring, size: nat, step: Step) returns (steps': seq<Step>, r': Ring)
    requires Reaches(steps, r, size) && (step.Store? ==> step.ticket in r.pending)
    ensures steps' == steps + [step] && Next(r, step, r') && Reaches(steps', r', size)
  {
    SlotsCongruent(steps, r, size);
    steps' := steps + [step];
    r' := match step
          case Reserve => r.(cursor := r.cursor + 1, pending := r.pending + {r.cursor + 1})
          case Store(t) => r.(slots := r.slots[Slot(t, |r.slots|) := Some(t)], pending := r.pending - {t});
    FrontOfAppend(steps, step);
  }

  /** Stores what is still pending, in any order. */
  lemma {:induction false} StoreAll(steps: seq<Step>, r: Ring, size: nat) returns (steps': seq<Step>, r': Ring)
    requires Reaches(steps, r, size)
    ensures steps <= steps' && Reaches(steps', r', size) && r'.pending == {} && r'.cursor == r.cursor
    decreases |r.pending|
  {
    if r.pending == {} {
      steps', r' := steps, r;
    } else {
      var t :| t in r.pending;
      steps', r' := Extend(steps, r, size, Store(t));
      steps', r' := StoreAll(steps', r', size);
    }
  }

  /** Whatever the size: with one more push than slots, the last ticket stored first and then the first
      ticket, the ring ends up without its newest entry. */
  lemma LosingRun(size: nat) returns (steps: seq<Step>, r: Ring)
    requires 0 < size < UINT64 - 1
    ensures Reaches(steps, r, size) && r.pending == {} && r.cursor == size + 1
    ensures |r.slots| == size && r.slots[Slot(r.cursor, size)] != Some(r.cursor) && !HoldsLast(r)
  {
    var n := size + 1;
    steps, r := ReserveAll(n, size);
    var k := |steps|;
    steps, r := Extend(steps, r, size, Store(n));
    steps, r := Extend(steps, r, size, Store(1));
    var early := steps;
    steps, r := StoreAll(steps, r, size);
    assert steps[k] == early[k] && steps[k + 1] == early[k + 1];
    assert StoredAt(steps, k, n) && StoredAt(steps, k + 1, 1);
    PlainSlot(1, size);
    PlainSlot(n, size);
    AddSize(1, size);
    assert Into(steps[k + 1], Slot(n, size), size);
    SlotHoldsLastStore(steps, r, size);
    HeldUnlessSpoiled(steps, r, size, n);
  }
}

/** The in-memory query log: a ring addressed by a 64-bit ticket counter. */
module RingBuffers {
  import opened Text
  import opened Arithmetic

  datatype LogEntry = LogEntry(timestamp: int, domain: string, qtype: nat, status: string, rtt: int)

  /** The last `k` entries of a log, newest first. */
  function NewestFirst(log: seq<LogEntry>, k: nat): seq<LogEntry> {
    seq(if k < |log| then k else |log|, i requires 0 <= i < |log| => log[|log| - 1 - i])
  }

  /** The slot of a ticket, counted from 1: the counter wraps before it is reduced to the size. */
  function Slot(ticket: nat, size: nat): (s: nat)
    requires size > 0
    ensures s < size
  {
    ticket % UINT64 % size
  }

  /** Where the backward walk reads, `i` places from the cursor. */
  function ReadSlot(cursor: nat, size: nat, i: nat): (s: nat)
    requires i < size
    ensures s < size
  {
    (cursor + size - i) % UINT64 % size
  }

  /** What the walk gathers in its first `k` places. */
  function Gathered(slots: seq<Option<LogEntry>>, cursor: nat, k: nat): seq<LogEntry>
    requires k <= |slots|
  {
    if k == 0 then []
    else
      var slot := slots[ReadSlot(cursor, |slots|, k - 1)];
      Gathered(slots, cursor, k - 1) + if slot.Some? then [slot.value] else []
  }

  /** `owner` tells, slot by slot, the last ticket stored there, 0 for none. */
  ghost predicate Ringed(slots: seq<Option<LogEntry>>, owner: seq<nat>, log: seq<LogEntry>) {
    && |owner| == |slots| && 0 < |slots| < INT64
    && (forall s :: 0 <= s < |slots| ==> OwnedBy(slots, s, owner[s], log))
    && (forall t {:trigger Slot(t, |slots|)} :: 1 <= t <= |log| ==> owner[Slot(t, |slots|)] >= t)
  }

  ghost predicate OwnedBy(slots: seq<Option<LogEntry>>, s: nat, t: nat, log: seq<LogEntry>)
    requires s < |slots|
  {
    && t <= |log|
    && slots[s] == (if t == 0 then None else Some(log[t - 1]))
    && (t > 0 ==> Slot(t, |slots|) == s)
  }

  class RingBuffer {
    const buffer: array<Option<LogEntry>>
    const size: nat
    var cursor: nat               // an unsigned 64-bit counter
    ghost var log: seq<LogEntry>  // everything pushed so far
    ghost var owner: seq<nat>

    ghost predicate Valid()
      reads this, buffer
    {
      && size == buffer.Length
      && cursor == |log| % UINT64
      && Ringed(buffer[..], owner, log)
    }

    constructor (requested: int64)
      ensures Valid() && log == [] && fresh(buffer)
      ensures size == if requested <= 0 then 1000 else requested
    {
      size := if requested <= 0 then 1000 else requested;
      buffer := new Option<LogEntry>[if requested <= 0 then 1000 else requested](_ => None);
      cursor := 0;
      log, owner := [], seq(if requested <= 0 then 1000 else requested, _ => 0);
    }

    method Push(entry: LogEntry)
      requires Valid()
      modifies this, buffer
      ensures Valid() && log == old(log) + [entry]
    {
      ghost var n := |log| + 1;
      ghost var slots := buffer[..];
      ModSuccessor(cursor, |log|, UINT64);
      cursor := (cursor + 1) % UINT64;
      buffer[cursor % size] := Some(entry);
      PushRings(slots, owner, log, entry);
      log, owner := log + [entry], owner[Slot(n, size) := n];
      assert buffer[..] == slots[Slot(n, size) := Some(entry)];
    }

    /** The last entries, newest first, also before the buffer has filled up and, for most positions of the
        counter, after it has wrapped. When all entries differ these are exactly the cases. */
    method GetRecent(limit: int) returns (entries: seq<LogEntry>)
      requires Valid()
      ensures limit <= 0 ==> entries == []
      ensures var k := if limit < size then limit else size;
              limit > 0 ==>
                && (Readable(|log|, size, k) ==> entries == NewestFirst(log, k))
                && (AllDiffer(log) ==> (entries == NewestFirst(log, k) <==> Readable(|log|, size, k)))
    {
      if limit <= 0 { return []; }
      var count: nat := if limit > size then size else limit;
      var currentCursor := cursor;
      entries := [];
      for i := 0 to count
        invariant entries == Gathered(buffer[..], currentCursor, i)
      {
        var idx := (currentCursor + size - i) % UINT64 % size;
        var ptr := buffer[idx];
        if ptr.Some? {
          entries := entries + [ptr.value];
        }
      }
      GatheredExactly(buffer[..], owner, log, count);
    }
  }

  lemma PushRings(slots: seq<Option<LogEntry>>, owner: seq<nat>, log: seq<LogEntry>, entry: LogEntry)
    requires Ringed(slots, owner, log)
    ensures var n := |log| + 1; var s := Slot(n, |slots|);
            Ringed(slots[s := Some(entry)], owner[s := n], log + [entry])
  {
    var n := |log| + 1;
    var s := Slot(n, |slots|);
    var slots', owner', log' := slots[s := Some(entry)], owner[s := n], log + [entry];
    forall q | 0 <= q < |slots| ensures OwnedBy(slots', q, owner'[q], log') {
      assert OwnedBy(slots, q, owner[q], log);
    }
    forall t {:trigger Slot(t, |slots|)} | 1 <= t <= n ensures owner'[Slot(t, |slots|)] >= t {
      assert t < n ==> owner[Slot(t, |slots|)] >= t;
    }
  }

  // ---------------------------------------------------------------- what the walk finds

  ghost predicate AllDiffer(log: seq<LogEntry>) {
    forall i, j :: 0 <= i < j < |log| ==> log[i] != log[j]
  }

  /** After `n` pushes the first `k` places of the walk are the slots of the last `k` tickets: always when
      the size divides 2^64, else while neither the walk's sum nor the tickets it is after cross a wrap of
      the counter. */
  predicate Readable(n: nat, size: nat, k: nat)
    requires size > 0
  {
    UINT64 % size == 0 || (n % UINT64 + size < UINT64 && (n < UINT64 || k <= n % UINT64 + 1))
  }

  lemma ReadIsSlot(n: nat, size: nat, i: nat)
    requires i < size && i < n && Readable(n, size, i + 1)
    ensures ReadSlot(n % UINT64, size, i) == Slot(n - i, size)
  {
    var c := n % UINT64;
    if UINT64 % size == 0 {
      ReadByDivision(n, size, i);
    } else {
      assert n == n / UINT64 * UINT64 + c;
      DivModUnique(n - i, UINT64, n / UINT64, c - i);
      ModSmall(c + size - i, UINT64);
      AddSize(c - i, size);
    }
  }

  lemma ReadByDivision(n: nat, size: nat, i: nat)
    requires 0 < size && UINT64 % size == 0 && i < size && i < n
    ensures ReadSlot(n % UINT64, size, i) == Slot(n - i, size)
  {
    var c, x, y: nat := n % UINT64, size - i, n - i;
    ModAdd(n, x, UINT64);
    assert ReadSlot(c, size, i) == (n + x) % UINT64 % size;
    HarmlessWrap(n + x, size);
    HarmlessWrap(y, size);
    assert n + x == y + size;
    AddSize(y, size);
  }

  /** When the size divides 2^64 the wrap of the counter does not show. */
  lemma HarmlessWrap(t: nat, size: nat)
    requires 0 < size && UINT64 % size == 0
    ensures Slot(t, size) == t % size
  {
    var q := UINT64 / size;
    assert UINT64 == q * size;
    ModMod(t, size, q);
  }

  /** No later ticket shares the slot of one that the walk is after. */
  lemma SlotsApart(n: nat, size: nat, i: nat, u: nat)
    requires i < size && i < n && Readable(n, size, i + 1) && n - i < u <= n
    ensures Slot(u, size) != Slot(n - i, size)
  {
    var t := n - i;
    if UINT64 % size == 0 {
      HarmlessWrap(u, size);
      HarmlessWrap(t, size);
      if u % size == t % size { CongruentWithin(t, u, size); }
    } else {
      var q, c := n / UINT64, n % UINT64;
      assert n == q * UINT64 + c;
      DivModUnique(u, UINT64, q, c - (n - u));
      DivModUnique(t, UINT64, q, c - i);
      if (c - (n - u)) % size == (c - i) % size { CongruentWithin(c - i, c - (n - u), size); }
    }
  }

  /** A slot that the walk reads beyond the first ticket has never been stored to. */
  lemma ReadBeyond(n: nat, size: nat, i: nat, t: nat)
    requires n <= i < size < UINT64 && Readable(n, size, i + 1) && 1 <= t <= n
    ensures Slot(t, size) != ReadSlot(n % UINT64, size, i)
  {
    ModSmall(n, UINT64);
    ModSmall(t, UINT64);
    ModSmall(t, size);
    if i == n {
      ModSmall(size, UINT64);
      AddSize(0, size);
      ModSmall(0, size);
    } else {
      ModSmall(n + size - i, UINT64);
      ModSmall(n + size - i, size);
    }
  }

  lemma NewestSnoc(log: seq<LogEntry>, i: nat)
    ensures i < |log| ==> NewestFirst(log, i + 1) == NewestFirst(log, i) + [log[|log| - 1 - i]]
    ensures i >= |log| ==> NewestFirst(log, i + 1) == NewestFirst(log, i)
  {
    if i < |log| {
      SameElements(NewestFirst(log, i + 1), NewestFirst(log, i) + [log[|log| - 1 - i]]);
    }
  }

  lemma {:induction false} GatheredRecent(slots: seq<Option<LogEntry>>, owner: seq<nat>, log: seq<LogEntry>, k: nat)
    requires Ringed(slots, owner, log) && k <= |slots| && Readable(|log|, |slots|, k)
    ensures Gathered(slots, |log| % UINT64, k) == NewestFirst(log, k)
  {
    if k > 0 {
      var n, size, i := |log|, |slots|, k - 1;
      GatheredRecent(slots, owner, log, i);
      NewestSnoc(log, i);
      var s := ReadSlot(n % UINT64, size, i);
      assert OwnedBy(slots, s, owner[s], log);
      if i < n {
        ReadIsSlot(n, size, i);
        if owner[s] > n - i { SlotsApart(n, size, i, owner[s]); }
      } else if owner[s] > 0 {
        ReadBeyond(n, size, i, owner[s]);
      }
    }
  }

  // ---------------------------------------------------------------- where the walk goes wrong

  lemma AllFilled(slots: seq<Option<LogEntry>>, owner: seq<nat>, log: seq<LogEntry>, s: nat)
    requires Ringed(slots, owner, log) && |log| >= |slots| && s < |slots|
    ensures 1 <= owner[s] <= |log| && Slot(owner[s], |slots|) == s && slots[s] == Some(log[owner[s] - 1])
  {
    var t := if s == 0 then |slots| else s;
    ModSmall(t, UINT64);
    AddSize(0, |slots|);
    ModSmall(s, |slots|);
    assert Slot(t, |slots|) == s;
    assert OwnedBy(slots, s, owner[s], log);
  }

  lemma {:induction false} GatheredFull(slots: seq<Option<LogEntry>>, owner: seq<nat>, log: seq<LogEntry>, k: nat)
    requires Ringed(slots, owner, log) && |log| >= |slots| && k <= |slots|
    ensures var g := Gathered(slots, |log| % UINT64, k);
            |g| == k && forall i :: 0 <= i < k ==> Some(g[i]) == slots[ReadSlot(|log| % UINT64, |slots|, i)]
  {
    if k > 0 {
      GatheredFull(slots, owner, log, k - 1);
      AllFilled(slots, owner, log, ReadSlot(|log| % UINT64, |slots|, k - 1));
    }
  }

  /** Some place of the walk is not the slot of the ticket that it is after. */
  lemma Misread(n: nat, size: nat, k: nat) returns (i: nat)
    requires 0 < k <= size < INT64 && !Readable(n, size, k)
    ensures i < k && i < n && ReadSlot(n % UINT64, size, i) != Slot(n - i, size)
  {
    var c := n % UINT64;
    if c + size >= UINT64 {
      i := 0;
      ModSmall(c + size - UINT64, UINT64);
      AddSize(c + size - UINT64, UINT64);
      ModSmall(c + size - UINT64, size);
      if c % size == c + size - UINT64 { Divides(c, size, UINT64); }
    } else {
      i := c + 1;
      ModSmall(size - 1, UINT64);
      ModSmall(size - 1, size);
      var q := n / UINT64;
      assert n == q * UINT64 + c;
      Distributes(q - 1, 1, UINT64);
      DivModUnique(n - i, UINT64, q - 1, UINT64 - 1);
      if (UINT64 - 1) % size == size - 1 { DivisibleSuccessor(UINT64 - 1, size); }
    }
  }

  lemma Divides(c: nat, size: nat, modulus: nat)
    requires 0 < size && c + size >= modulus && c % size == c + size - modulus
    ensures modulus % size == 0
  {
    assert c == c / size * size + c % size;
    Distributes(c / size, 1, size);
    MultipleMod(c / size + 1, size);
  }

  lemma DivisibleSuccessor(n: nat, size: nat)
    requires 0 < size && n % size == size - 1
    ensures (n + 1) % size == 0
  {
    assert n == n / size * size + n % size;
    Distributes(n / size, 1, size);
    MultipleMod(n / size + 1, size);
  }

  /** The walk gathers the last entries where it is readable, and of all-different entries only there. */
  lemma GatheredExactly(slots: seq<Option<LogEntry>>, owner: seq<nat>, log: seq<LogEntry>, k: nat)
    requires Ringed(slots, owner, log) && 0 < k <= |slots|
    ensures Readable(|log|, |slots|, k) ==> Gathered(slots, |log| % UINT64, k) == NewestFirst(log, k)
    ensures AllDiffer(log) && Gathered(slots, |log| % UINT64, k) == NewestFirst(log, k) ==> Readable(|log|, |slots|, k)
  {
    if Readable(|log|, |slots|, k) {
      GatheredRecent(slots, owner, log, k);
    } else if AllDiffer(log) {
      GatheredWrong(slots, owner, log, k);
    }
  }

  lemma GatheredWrong(slots: seq<Option<LogEntry>>, owner: seq<nat>, log: seq<LogEntry>, k: nat)
    requires Ringed(slots, owner, log) && 0 < k <= |slots| && !Readable(|log|, |slots|, k) && AllDiffer(log)
    ensures Gathered(slots, |log| % UINT64, k) != NewestFirst(log, k)
  {
    var n, size := |log|, |slots|;
    var i := Misread(n, size, k);
    GatheredFull(slots, owner, log, k);
    var s := ReadSlot(n % UINT64, size, i);
    AllFilled(slots, owner, log, s);
    NewestAt(log, k, i);
    DifferAt(log, owner[s] - 1, n - 1 - i);
  }

  lemma NewestAt(log: seq<LogEntry>, k: nat, i: nat)
    requires i < k && i < |log|
    ensures i < |NewestFirst(log, k)| && NewestFirst(log, k)[i] == log[|log| - 1 - i]
  {
  }

  lemma DifferAt(log: seq<LogEntry>, i: nat, j: nat)
    requires AllDiffer(log) && i < |log| && j < |log| && i != j
    ensures log[i] != log[j]
  {
  }
}

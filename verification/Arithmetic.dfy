/** Facts about quotients and remainders. */
module Arithmetic {
  const UINT64 := 0x1_0000_0000_0000_0000
  const INT64 := 0x8000_0000_0000_0000

  /** The signed machine integer. */
  type int64 = x: int | -INT64 <= x < INT64

  lemma {:induction false} MultipleMod(k: nat, size: nat)
    requires size > 0
    ensures (k * size) % size == 0
  {
    if k > 0 {
      MultipleMod(k - 1, size);
      assert k * size == (k - 1) * size + size;
      AddSize((k - 1) * size, size);
    }
  }

  lemma AddSize(n: nat, size: nat)
    requires size > 0
    ensures (n + size) % size == n % size
  {
    var q, r := n / size, n % size;
    assert n == q * size + r;
    assert n + size == (q + 1) * size + r;
    DivModUnique(n + size, size, q + 1, r);
  }

  lemma DivModUnique(n: nat, size: nat, q: nat, r: nat)
    requires size > 0 && r < size && n == q * size + r
    ensures n % size == r && n / size == q
  {
    var q', r' := n / size, n % size;
    assert n == q' * size + r';
    MultiplyMonotone(q' + 1, q, size);
    MultiplyMonotone(q + 1, q', size);
  }

  lemma ModSmall(n: nat, size: nat)
    requires n < size
    ensures n % size == n
  {
    DivModUnique(n, size, 0, n);
  }

  lemma ModSuccessor(r: nat, n: nat, size: nat)
    requires size > 0 && r == n % size
    ensures (r + 1) % size == (n + 1) % size
  {
    var q := n / size;
    if r + 1 == size {
      AddSize(0, size);
      ModSmall(0, size);
      Distributes(q, 1, size);
      DivModUnique(n + 1, size, q + 1, 0);
    } else {
      ModSmall(r + 1, size);
      DivModUnique(n + 1, size, q, r + 1);
    }
  }

  lemma {:induction false} ModAdd(n: nat, x: nat, size: nat)
    requires size > 0
    ensures (n % size + x) % size == (n + x) % size
  {
    if x == 0 {
      ModSmall(n % size, size);
    } else {
      ModAdd(n, x - 1, size);
      ModSuccessor((n + x - 1) % size, n + x - 1, size);
      ModSuccessor((n % size + x - 1) % size, n % size + x - 1, size);
    }
  }

  lemma Associates(a: nat, b: nat, c: nat)
    ensures a * (b * c) == (a * b) * c
  {
  }

  lemma Distributes(a: nat, b: nat, c: nat)
    ensures (a + b) * c == a * c + b * c
  {
  }

  /** Reducing by a multiple first changes nothing. */
  lemma ModMod(a: nat, n: nat, q: nat)
    requires n > 0 && q > 0 && q * n > 0
    ensures a % (q * n) % n == a % n
  {
    var m := q * n;
    var x, r := a / m, a % m;
    var y, s := r / n, r % n;
    ModModUnique(a, n, q, x, y, s);
    assert r == y * n + s;
    assert a == x * m + r;
  }

  lemma ModModUnique(a: nat, n: nat, q: nat, x: nat, y: nat, s: nat)
    requires s < n
    ensures a == x * (q * n) + (y * n + s) ==> a % n == s
  {
    Associates(x, q, n);
    Distributes(x * q, y, n);
    if a == x * (q * n) + (y * n + s) {
      DivModUnique(a, n, x * q + y, s);
    }
  }

  lemma MultiplyMonotone(a: nat, b: nat, size: nat)
    ensures a <= b ==> a * size <= b * size
  {
  }

  /** Numbers less than `size` apart with one remainder are equal. */
  lemma CongruentWithin(a: nat, b: nat, size: nat)
    requires size > 0 && a <= b < a + size && a % size == b % size
    ensures a == b
  {
    assert a == a / size * size + a % size && b == b / size * size + b % size;
    MultiplyMonotone(b / size, a / size, size);
    MultiplyMonotone(a / size + 1, b / size, size);
  }
}

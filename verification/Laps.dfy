/** Positions that grow without bound, placed in a ring of fixed capacity lap by lap. */
module Laps {
  function Index(p: nat, capacity: nat): (i: nat)
    requires capacity > 0
    ensures i < capacity
  {
    p % capacity
  }

  function One(b: bool): nat {
    if b then 1 else 0
  }

  lemma MultipleBounds(d: int, n: nat)
    ensures d >= 1 ==> d * n >= n
    ensures d <= -1 ==> d * n <= 0 - n
  {
  }

  lemma IndexInjective(p: nat, q: nat, n: nat)
    requires n > 0 && p < q < p + n
    ensures Index(p, n) != Index(q, n)
  {
    if p % n == q % n {
      MultipleBounds(q / n - p / n, n);
      assert false;
    }
  }

  lemma DivisionIsUnique(a: nat, n: nat, q: nat, r: nat)
    requires n > 0 && a == q * n + r && r < n
    ensures a % n == r
  {
    MultipleBounds(a / n - q, n);
    assert (a / n - q) * n == r - a % n;
  }

  lemma IndexNextLap(p: nat, n: nat)
    requires n > 0
    ensures Index(p + n, n) == Index(p, n)
  {
    assert p + n == (p / n + 1) * n + p % n;
    DivisionIsUnique(p + n, n, p / n + 1, p % n);
  }

  lemma DistinctPositions(p: nat, q: nat, n: nat)
    requires n > 0 && p != q && p < q + n && q < p + n
    ensures Index(p, n) != Index(q, n)
  {
    if p < q {
      IndexInjective(p, q, n);
    } else {
      IndexInjective(q, p, n);
    }
  }
}

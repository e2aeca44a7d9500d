/** 32-bit counters, and the few facts about products and remainders that the proofs need. */
module Arith {

  const UINT32: nat := 0x1_0000_0000

  function Bit(b: bool): nat { if b then 1 else 0 }

  function Min(a: nat, b: nat): nat { if a < b then a else b }

  lemma {:induction false} Distribute(a: int, b: int, n: int)
    ensures (a + b) * n == a * n + b * n
    ensures (a - b) * n == a * n - b * n
  {
  }

  lemma {:induction false} Monotone(a: int, b: int, n: int)
    requires n > 0
    ensures a <= b <==> a * n <= b * n
  {
    Distribute(a, b, n);
    if a <= b {
      assert (b - a) * n >= 0;
      Distribute(b, a, n);
    } else {
      assert (a - b) * n > 0;
    }
  }

  /** Quotient and remainder are unique. */
  lemma {:induction false} Division(x: int, n: int, q: int, r: int)
    requires n > 0 && x == q * n + r && 0 <= r < n
    ensures x / n == q && x % n == r
  {
    var p := x / n;
    assert x == p * n + x % n;
    Distribute(q, 1, n);
    Distribute(p, 1, n);
    if q < p {
      Monotone(q + 1, p, n);
    } else if p < q {
      Monotone(p + 1, q, n);
    }
  }

  /** The remainder of a counter that moves on by one. */
  lemma {:induction false} NextIndex(i: nat, n: nat)
    requires n > 0
    ensures (i + 1) % n == if i % n + 1 == n then 0 else i % n + 1
  {
    var q := i / n;
    assert i == q * n + i % n;
    if i % n + 1 == n {
      Distribute(q, 1, n);
      Division(i + 1, n, q + 1, 0);
    } else {
      Division(i + 1, n, q, i % n + 1);
    }
  }

  /** The least `x` with `x * h >= d`. */
  function Ceil(d: int, h: int): int
    requires h > 0
  {
    -((-d) / h)
  }

  lemma {:induction false} CeilIsLeast(d: int, h: int, x: int)
    requires h > 0
    ensures x >= Ceil(d, h) <==> x * h >= d
  {
    var q, r := (-d) / h, (-d) % h;
    assert -d == q * h + r;
    Distribute(0, q, h);
    Distribute(-q, 1, h);
    Monotone(-q, x, h);
    Monotone(x, -q - 1, h);
  }

  /** The time of the `tick`-th step of length `h`. */
  function At(h: int, tick: int): int { tick * h }

  lemma {:induction false} AtDistributes(h: int, a: int, b: int)
    ensures At(h, a + b) == At(h, a) + At(h, b) && At(h, 0) == 0
  {
    Distribute(a, b, h);
  }

  lemma {:induction false} AtNext(h: int, tick: int)
    ensures At(h, tick + 1) == At(h, tick) + h && At(h, 0) == 0
  {
    Distribute(tick, 1, h);
  }

  lemma {:induction false} AtMonotone(h: int, a: int, b: int)
    requires h > 0
    ensures a <= b <==> At(h, a) <= At(h, b)
  {
    Monotone(a, b, h);
  }

  lemma {:induction false} AtDivides(h: int, tick: int)
    requires h > 0
    ensures At(h, tick) % h == 0
    ensures tick > 0 ==> At(h, tick) / tick == h
  {
    Division(At(h, tick), h, tick, 0);
    if tick > 0 {
      Division(At(h, tick), tick, h, 0);
    }
  }
}

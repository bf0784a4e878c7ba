/**
 Integer arithmetic behind every price: an amount times a ratio n/d, rounded down
 (`operator*`) or rounded up (`multiply_and_round_up`). The two rounding connections
 at the end carry the whole market engine: after rounding one way and back the other
 way, nothing more moves.
 */
module Amounts {

  const MAX_SHARE_SUPPLY: nat := 1_000_000_000_000_000

  function Min(x: nat, y: nat): nat {
    if x < y then x else y
  }

  function MulDown(a: nat, n: nat, d: nat): (r: nat)
    requires d > 0
  {
    a * n / d
  }

  function MulUp(a: nat, n: nat, d: nat): (r: nat)
    requires d > 0
  {
    (a * n + d - 1) / d
  }

  /** Quotient of naturals, characterised by multiplication. */
  lemma DivBounds(a: nat, d: nat)
    requires d > 0
    ensures a / d * d <= a < (a / d + 1) * d
  {
    assert a == a / d * d + a % d;
  }

  lemma DivUnique(a: nat, d: nat, q: nat)
    requires d > 0
    requires q * d <= a < (q + 1) * d
    ensures a / d == q
  {
    DivBounds(a, d);
    if a / d < q {
      MulMono(a / d + 1, q, d);
    } else if a / d > q {
      MulMono(q + 1, a / d, d);
    }
  }

  lemma MulMono(x: int, y: int, z: nat)
    requires x <= y
    ensures x * z <= y * z
  {
    if z > 0 {
      MulMono(x, y, z - 1);
      assert x * z == x * (z - 1) + x;
      assert y * z == y * (z - 1) + y;
    }
  }

  /** A product comparison decides the factors. */
  lemma MulCancelLe(x: int, y: int, z: nat)
    requires z > 0
    requires x * z <= y * z
    ensures x <= y
  {
    if x > y {
      MulMono(y + 1, x, z);
    }
  }

  lemma MulCancelLt(x: int, y: int, z: nat)
    requires x * z < y * z
    ensures x < y
  {
    if x >= y {
      MulMono(y, x, z);
    }
  }

  lemma Rearranged(x: int, y: int, z: int)
    ensures (x * y) * z == (x * z) * y
  {
  }

  lemma Distributes(x: int, y: int, z: int)
    ensures (x + y) * z == x * z + y * z
    ensures (x - y) * z == x * z - y * z
  {
  }

  lemma DownBounds(a: nat, n: nat, d: nat)
    requires d > 0
    ensures MulDown(a, n, d) * d <= a * n < (MulDown(a, n, d) + 1) * d
  {
    DivBounds(a * n, d);
  }

  lemma UpBounds(a: nat, n: nat, d: nat)
    requires d > 0
    ensures (MulUp(a, n, d) - 1) * d < a * n <= MulUp(a, n, d) * d
  {
    var q := MulUp(a, n, d);
    DivBounds(a * n + d - 1, d);
    assert (q + 1) * d == q * d + d;
    assert (q - 1) * d == q * d - d;
  }

  /** Rounding down is the largest amount that still fits, rounding up the smallest that covers. */
  lemma DownIsLargest(a: nat, n: nat, d: nat, q: nat)
    requires d > 0
    ensures q <= MulDown(a, n, d) <==> q * d <= a * n
  {
    DownBounds(a, n, d);
    var r := MulDown(a, n, d);
    if q <= r {
      MulMono(q, r, d);
    } else {
      MulMono(r + 1, q, d);
    }
  }

  lemma UpIsSmallest(a: nat, n: nat, d: nat, q: nat)
    requires d > 0
    ensures MulUp(a, n, d) <= q <==> a * n <= q * d
  {
    UpBounds(a, n, d);
    var r := MulUp(a, n, d);
    if r <= q {
      MulMono(r, q, d);
    } else {
      MulMono(q, r - 1, d);
    }
  }

  lemma DownMonotone(a: nat, b: nat, n: nat, d: nat)
    requires d > 0 && a <= b
    ensures MulDown(a, n, d) <= MulDown(b, n, d)
  {
    DownBounds(a, n, d);
    MulMono(a, b, n);
    DownIsLargest(b, n, d, MulDown(a, n, d));
  }

  lemma UpMonotone(a: nat, b: nat, n: nat, d: nat)
    requires d > 0 && a <= b
    ensures MulUp(a, n, d) <= MulUp(b, n, d)
  {
    UpBounds(b, n, d);
    MulMono(a, b, n);
    UpIsSmallest(a, n, d, MulUp(b, n, d));
  }

  lemma DownLeUp(a: nat, n: nat, d: nat)
    requires d > 0
    ensures MulDown(a, n, d) <= MulUp(a, n, d)
  {
    DownBounds(a, n, d);
    UpBounds(a, n, d);
    MulCancelLe(MulDown(a, n, d), MulUp(a, n, d), d);
  }

  /** A ratio that is worth at least as much never yields less. */
  lemma DownBetterRatio(a: nat, n: nat, d: nat, n': nat, d': nat)
    requires d > 0 && d' > 0
    requires n * d' <= n' * d
    ensures MulDown(a, n, d) <= MulDown(a, n', d')
  {
    var q := MulDown(a, n, d);
    DownBounds(a, n, d);
    MulMono(q * d, a * n, d');
    MulMono(n * d', n' * d, a);
    assert (q * d') * d == (q * d) * d' <= (a * n) * d' == (n * d') * a <= (n' * d) * a == (a * n') * d;
    MulCancelLe(q * d', a * n', d);
    DownIsLargest(a, n', d', q);
  }

  /**
   Round down, then convert back rounding up: the amount given up shrinks or stays, and
   it still buys exactly the same.
   */
  lemma RoundDownThenUp(x: nat, n: nat, d: nat)
    requires n > 0 && d > 0
    ensures var y := MulDown(x, n, d);
            var x' := MulUp(y, d, n);
            x' <= x && MulDown(x', n, d) == y
  {
    var y := MulDown(x, n, d);
    var x' := MulUp(y, d, n);
    DownBounds(x, n, d);
    UpIsSmallest(y, d, n, x);
    UpBounds(y, d, n);
    DownIsLargest(x', n, d, y);
    DownMonotone(x', x, n, d);
  }

  /** Round up, then convert back rounding down: more may be bought, at the same cost. */
  lemma RoundUpThenDown(x: nat, n: nat, d: nat)
    requires n > 0 && d > 0
    ensures var y := MulUp(x, n, d);
            var x' := MulDown(y, d, n);
            x' >= x && MulUp(x', n, d) == y
  {
    var y := MulUp(x, n, d);
    var x' := MulDown(y, d, n);
    UpBounds(x, n, d);
    DownIsLargest(y, d, n, x);
    DownBounds(y, d, n);
    UpIsSmallest(x', n, d, y);
    UpMonotone(x, x', n, d);
  }

  /** What rounding leaves behind is worth nothing at the same ratio. */
  lemma LeftoverIsDust(x: nat, n: nat, d: nat)
    requires n > 0 && d > 0
    ensures var x' := MulUp(MulDown(x, n, d), d, n);
            x' <= x && MulDown(x - x', n, d) == 0
  {
    var y := MulDown(x, n, d);
    var x' := MulUp(y, d, n);
    RoundDownThenUp(x, n, d);
    DownBounds(x, n, d);
    UpBounds(y, d, n);
    assert (x - x') * n == x * n - x' * n;
    assert (y + 1) * d == y * d + d;
    assert (x - x') * n < d;
    DivUnique((x - x') * n, d, 0);
  }
}

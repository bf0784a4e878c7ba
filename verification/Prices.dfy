/**
 Assets, prices, and the three price-scaling routines of the protocol: price times
 ratio, call price, and maximum short squeeze price. Each scaling loop is a method
 proved equal to a function, and the lemmas say what the scaled price promises.
 */
module Prices {
  import opened Amounts
  import opened Options

  type AssetId = nat

  datatype Asset = Asset(amount: nat, id: AssetId)

  datatype Price = Price(base: Asset, quote: Asset) {

    predicate Valid() {
      base.amount > 0 && quote.amount > 0 && base.id != quote.id
    }

    function Inverse(): Price {
      Price(quote, base)
    }
  }

  const COLLATERAL_RATIO_DENOM: nat := 1000

  // --- Comparison and multiplication ----------------------------------------------------

  /** Prices order first by the two asset ids, then by base / quote. */
  predicate Less(a: Price, b: Price) {
    if a.base.id != b.base.id then a.base.id < b.base.id
    else if a.quote.id != b.quote.id then a.quote.id < b.quote.id
    else b.quote.amount * a.base.amount < a.quote.amount * b.base.amount
  }

  /** Amount at a price, rounded down; None when the source's assertions throw. */
  function Times(a: Asset, p: Price): (r: Option<Asset>) {
    if a.id == p.base.id then
      if p.base.amount == 0 then None
      else Checked(MulDown(a.amount, p.quote.amount, p.base.amount), p.quote.id)
    else if a.id == p.quote.id then
      if p.quote.amount == 0 then None
      else Checked(MulDown(a.amount, p.base.amount, p.quote.amount), p.base.id)
    else None
  }

  /** Amount at a price, rounded up; None when the source's assertions throw. */
  function TimesUp(a: Asset, p: Price): (r: Option<Asset>) {
    if a.id == p.base.id then
      if p.base.amount == 0 then None
      else Checked(MulUp(a.amount, p.quote.amount, p.base.amount), p.quote.id)
    else if a.id == p.quote.id then
      if p.quote.amount == 0 then None
      else Checked(MulUp(a.amount, p.base.amount, p.quote.amount), p.base.id)
    else None
  }

  function Checked(amount: nat, id: AssetId): Option<Asset> {
    if amount <= MAX_SHARE_SUPPLY then Some(Asset(amount, id)) else None
  }

  /**
   The rounding connection on assets: whatever is bought by rounding down can be paid for
   by rounding the price up, never costs more than was offered, and still buys the same.
   */
  lemma TimesThenTimesUp(x: Asset, p: Price)
    requires p.Valid()
    requires x.amount <= MAX_SHARE_SUPPLY
    requires Times(x, p).Some?
    ensures var y := Times(x, p).value;
            && TimesUp(y, p).Some?
            && var x' := TimesUp(y, p).value;
               x'.id == x.id && x'.amount <= x.amount && Times(x', p) == Some(y)
  {
    if x.id == p.base.id {
      RoundDownThenUp(x.amount, p.quote.amount, p.base.amount);
    } else {
      RoundDownThenUp(x.amount, p.base.amount, p.quote.amount);
    }
  }

  // --- Rationals in lowest terms --------------------------------------------------------

  function Gcd(a: nat, b: nat): nat
    decreases b
  {
    if b == 0 then a else Gcd(b, a % b)
  }

  lemma {:induction false} GcdDivides(a: nat, b: nat)
    requires a > 0 || b > 0
    ensures var g := Gcd(a, b);
            g > 0 && a == a / g * g && b == b / g * g
    decreases b
  {
    if b == 0 {
      DivUnique(a, a, 1);
    } else {
      GcdDivides(b, a % b);
      DividesSum(a, b, Gcd(a, b));
    }
  }

  lemma DividesSum(a: nat, b: nat, g: nat)
    requires b > 0 && g > 0 && b == b / g * g && a % b == a % b / g * g
    ensures a == a / g * g
  {
    var q, k, m := a / b, b / g, a % b / g;
    assert a == q * b + a % b;
    MulAssociative(q, k, g);
    assert a == (q * k + m) * g;
    DivUnique(a, g, q * k + m);
  }

  lemma MulAssociative(x: int, y: int, z: int)
    ensures x * (y * z) == (x * y) * z
  {
  }

  datatype Ratio = Ratio(num: nat, den: nat)

  predicate Positive(r: Ratio) {
    r.num > 0 && r.den > 0
  }

  predicate SameValue(a: Ratio, b: Ratio) {
    a.num * b.den == b.num * a.den
  }

  /** Construction of a rational: both parts divided by their greatest common divisor. */
  function Reduce(n: nat, d: nat): (r: Ratio)
    requires d > 0
    ensures r.den > 0 && (n > 0 ==> r.num > 0)
    ensures r.num <= n && r.den <= d
    ensures SameValue(r, Ratio(n, d))
  {
    GcdDivides(n, d);
    var g := Gcd(n, d);
    ReduceFacts(n, d, g);
    Ratio(n / g, d / g)
  }

  lemma ReduceFacts(n: nat, d: nat, g: nat)
    requires d > 0 && g > 0 && n == n / g * g && d == d / g * g
    ensures d / g > 0 && (n > 0 ==> n / g > 0) && n / g <= n && d / g <= d
    ensures n / g * d == n * (d / g)
  {
    var a, b := n / g, d / g;
    MulMono(1, g, a);
    MulMono(1, g, b);
    assert a * (b * g) == (a * g) * b;
  }

  lemma MulStrict(x: nat, y: nat, z: nat)
    requires x < y && z > 0
    ensures x * z < y * z
  {
    MulMono(x + 1, y, z);
    assert (x + 1) * z == x * z + z;
  }

  predicate Fits(r: Ratio) {
    r.num <= MAX_SHARE_SUPPLY && r.den <= MAX_SHARE_SUPPLY
  }

  // --- Price times ratio ----------------------------------------------------------------

  /** The value a price times num / den should have. */
  function ExactScaled(p: Price, num: nat, den: nat): (r: Ratio)
    requires p.Valid() && num > 0 && den > 0
    ensures Positive(r)
    ensures SameValue(r, Ratio(p.base.amount * num, p.quote.amount * den))
  {
    MulMono(1, num, p.base.amount);
    MulMono(1, den, p.quote.amount);
    Reduce(p.base.amount * num, p.quote.amount * den)
  }

  /** Halve both parts until they fit, giving up at the ends of the representable range. */
  function Halved(r: Ratio): (h: Ratio)
    requires Positive(r)
    ensures Positive(h) && Fits(h)
    ensures Fits(r) ==> h == r
    decreases r.num + r.den
  {
    if Fits(r) then r
    else if r.num == 1 then Ratio(1, MAX_SHARE_SUPPLY)
    else if r.den == 1 then Ratio(MAX_SHARE_SUPPLY, 1)
    else Halved(Reduce(r.num / 2, r.den / 2))
  }

  /** The nearest ratio of the form n/1 or 1/d below the exact value's own magnitude. */
  function UnitRatio(r: Ratio): (u: Ratio)
    requires Positive(r)
    ensures Positive(u) && Fits(u)
  {
    if r.num > r.den then
      DivBounds(r.num, r.den);
      assert r.num / r.den > 0;
      Ratio(if r.num / r.den > MAX_SHARE_SUPPLY then MAX_SHARE_SUPPLY else r.num / r.den, 1)
    else
      DivBounds(r.den, r.num);
      assert r.den / r.num > 0;
      Ratio(1, if r.den / r.num > MAX_SHARE_SUPPLY then MAX_SHARE_SUPPLY else r.den / r.num)
  }

  /** Distance to the exact value, scaled by the (common) denominators. */
  function Distance(c: Ratio, exact: Ratio): nat {
    var d := c.num * exact.den - exact.num * c.den;
    if d < 0 then -d else d
  }

  predicate StrictlyCloser(a: Ratio, b: Ratio, exact: Ratio) {
    Distance(a, exact) * b.den < Distance(b, exact) * a.den
  }

  predicate OnEdge(u: Ratio) {
    u.num == MAX_SHARE_SUPPLY || u.den == MAX_SHARE_SUPPLY
  }

  /** What the scaling settles on before the final check against p itself. */
  function Candidate(exact: Ratio): (c: Ratio)
    requires Positive(exact)
    ensures Positive(c) && Fits(c)
  {
    var h, u := Halved(exact), UnitRatio(exact);
    if Fits(exact) || exact.num == 1 || exact.den == 1 then h
    else if OnEdge(u) || StrictlyCloser(u, h, exact) then u
    else h
  }

  function WithAmounts(p: Price, r: Ratio): Price {
    Price(Asset(r.num, p.base.id), Asset(r.den, p.quote.id))
  }

  /** The price that `p * ratio` yields for a valid price and a positive ratio. */
  function ScaledPrice(p: Price, num: nat, den: nat): (r: Price)
    requires p.Valid() && num > 0 && den > 0
  {
    if num == den then p
    else
      var exact := ExactScaled(p, num, den);
      var np := WithAmounts(p, Candidate(exact));
      if !Fits(exact) && ((num > den && Less(np, p)) || (num < den && Less(p, np))) then p else np
  }

  method ScalePrice(p: Price, num: int, den: int) returns (r: Option<Price>)
    ensures r == if p.Valid() && num > 0 && den > 0 then Some(ScaledPrice(p, num, den)) else None
  {
    if !p.Valid() || num <= 0 || den <= 0 {
      return None;
    }
    if num == den {
      return Some(p);
    }
    var exact := ExactScaled(p, num, den);
    var cp := exact;
    var shrinked, usingMax := false, false;
    while !Fits(cp)
      invariant Positive(cp)
      invariant !usingMax && Halved(cp) == Halved(exact)
      invariant !shrinked ==> cp == exact
      invariant shrinked ==> !Fits(exact) && exact.num != 1 && exact.den != 1
      decreases cp.num + cp.den
    {
      if cp.num == 1 {
        cp, usingMax := Ratio(1, MAX_SHARE_SUPPLY), true;
        break;
      } else if cp.den == 1 {
        cp, usingMax := Ratio(MAX_SHARE_SUPPLY, 1), true;
        break;
      } else {
        cp, shrinked := Reduce(cp.num / 2, cp.den / 2), true;
      }
    }
    assert cp == Halved(exact);
    if shrinked {
      var ncp := UnitRatio(exact);
      if OnEdge(ncp) || StrictlyCloser(ncp, cp, exact) {
        cp := ncp;
      }
    }
    var np := WithAmounts(p, cp);
    if shrinked || usingMax {
      if (num > den && Less(np, p)) || (num < den && Less(p, np)) {
        np := p;
      }
    }
    r := Some(np);
  }

  /** Both amounts stay representable, unless p is handed back unchanged. */
  lemma ScaledInRange(p: Price, num: nat, den: nat)
    requires p.Valid() && num > 0 && den > 0
    ensures var r := ScaledPrice(p, num, den);
            && r.Valid()
            && (r == p || (r.base.amount <= MAX_SHARE_SUPPLY && r.quote.amount <= MAX_SHARE_SUPPLY))
  {
  }

  /** Nothing is lost whenever the reduced product is representable. */
  lemma ScaledExact(p: Price, num: nat, den: nat)
    requires p.Valid() && num > 0 && den > 0
    requires num == den || Fits(ExactScaled(p, num, den))
    ensures var r := ScaledPrice(p, num, den);
            r.base.amount * (p.quote.amount * den) == p.base.amount * num * r.quote.amount
  {
    if num == den {
      assert p.base.amount * (p.quote.amount * den) == p.base.amount * num * p.quote.amount;
    }
  }

  /** Scaling up never lowers a price and scaling down never raises it. */
  lemma ScaledOnRightSide(p: Price, num: nat, den: nat)
    requires p.Valid() && num > 0 && den > 0
    ensures num >= den ==> !Less(ScaledPrice(p, num, den), p)
    ensures num <= den ==> !Less(p, ScaledPrice(p, num, den))
  {
    var exact := ExactScaled(p, num, den);
    if num != den && Fits(exact) {
      ScaledExact(p, num, den);
      var b, q := p.base.amount, p.quote.amount;
      assert exact.num * q * den == b * exact.den * num by {
        assert exact.num * (q * den) == (exact.num * q) * den;
        assert b * num * exact.den == (b * exact.den) * num;
      }
      if num > den {
        if exact.num * q < b * exact.den {
          MulStrict(exact.num * q, b * exact.den, den);
          MulMono(den, num, b * exact.den);
        }
      } else {
        if b * exact.den < exact.num * q {
          MulStrict(b * exact.den, exact.num * q, num);
          MulMono(num, den, exact.num * q);
        }
      }
    }
  }

  /** Off by less than one in the unit of the larger amount. */
  predicate WithinOne(got: Ratio, exact: Ratio)
    requires Positive(exact)
  {
    if exact.num > exact.den then Distance(got, exact) < got.den * exact.den
    else Distance(got, exact) * (exact.den / exact.num) < exact.num * got.den
  }

  /** When amounts had to be dropped, the result is p itself, sits on the edge of the range, or is off by less than one. */
  lemma ScaledIsClose(p: Price, num: nat, den: nat)
    requires p.Valid() && num > 0 && den > 0
    ensures var r, exact := ScaledPrice(p, num, den), ExactScaled(p, num, den);
            var got := Ratio(r.base.amount, r.quote.amount);
            r == p || OnEdge(got) || WithinOne(got, exact)
  {
    var exact := ExactScaled(p, num, den);
    var got := Candidate(exact);
    if Fits(exact) {
      assert got == exact && Distance(exact, exact) == 0;
      ExactWithinOne(exact);
    } else if exact.num != 1 && exact.den != 1 && !OnEdge(UnitRatio(exact)) {
      CloseToUnit(got, exact);
    }
  }

  lemma ExactWithinOne(exact: Ratio)
    requires Positive(exact)
    ensures WithinOne(exact, exact)
  {
    MulMono(1, exact.num, exact.den);
    MulMono(1, exact.den, exact.den);
  }

  /** What is no farther than the unit ratio is off by less than one. */
  lemma CloseToUnit(got: Ratio, exact: Ratio)
    requires Positive(exact) && Positive(got)
    requires !OnEdge(UnitRatio(exact)) && !StrictlyCloser(UnitRatio(exact), got, exact)
    ensures WithinOne(got, exact)
  {
    var u := UnitRatio(exact);
    if exact.num > exact.den {
      DivBounds(exact.num, exact.den);
      assert Distance(u, exact) < exact.den;
      MulStrict(Distance(u, exact), exact.den, got.den);
      assert Distance(got, exact) * 1 <= Distance(u, exact) * got.den;
    } else {
      DivBounds(exact.den, exact.num);
      assert Distance(u, exact) < exact.num;
      MulStrict(Distance(u, exact), exact.num, got.den);
    }
  }

  // --- Call price and maximum short squeeze price ---------------------------------------

  /** Halve both parts, adding one to each, until they fit. */
  function HalvedPlusOne(r: Ratio): (h: Ratio)
    requires r.den > 0
    ensures h.den > 0 && (r.num > 0 ==> h.num > 0) && Fits(h)
    ensures Fits(r) ==> h == r
    decreases r.num + r.den
  {
    if Fits(r) then r else HalvedPlusOne(Reduce(r.num / 2 + 1, r.den / 2 + 1))
  }

  /**
   The price, collateral per debt, at which a position is called: debt / collateral times
   the collateral ratio. A position without collateral makes the rational throw.
   */
  function CallPrice(debt: Asset, collateral: Asset, collateralRatio: nat): (r: Option<Price>)
  {
    if collateral.amount == 0 then None
    else
      var h := HalvedPlusOne(Reduce(debt.amount * collateralRatio, collateral.amount * COLLATERAL_RATIO_DENOM));
      Some(Price(Asset(h.den, collateral.id), Asset(h.num, debt.id)))
  }

  method ComputeCallPrice(debt: Asset, collateral: Asset, collateralRatio: nat) returns (r: Option<Price>)
    ensures r == CallPrice(debt, collateral, collateralRatio)
  {
    if collateral.amount == 0 {
      return None;
    }
    var cp := Reduce(debt.amount * collateralRatio, collateral.amount * COLLATERAL_RATIO_DENOM);
    ghost var start := cp;
    while !Fits(cp)
      invariant cp.den > 0
      invariant HalvedPlusOne(cp) == HalvedPlusOne(start)
      decreases cp.num + cp.den
    {
      cp := Reduce(cp.num / 2 + 1, cp.den / 2 + 1);
    }
    return Some(Price(Asset(cp.den, collateral.id), Asset(cp.num, debt.id)));
  }

  /** A call price is representable, positive, and exact when nothing had to be dropped. */
  lemma CallPriceInRange(debt: Asset, collateral: Asset, collateralRatio: nat)
    requires debt.amount > 0 && collateral.amount > 0 && collateralRatio > 0
    ensures var r := CallPrice(debt, collateral, collateralRatio);
            && r.Some?
            && 0 < r.value.base.amount <= MAX_SHARE_SUPPLY
            && 0 < r.value.quote.amount <= MAX_SHARE_SUPPLY
            && (Fits(Reduce(debt.amount * collateralRatio, collateral.amount * COLLATERAL_RATIO_DENOM)) ==>
                r.value.quote.amount * (collateral.amount * COLLATERAL_RATIO_DENOM)
                == debt.amount * collateralRatio * r.value.base.amount)
  {
    MulMono(1, collateralRatio, debt.amount);
  }

  /** value(r) <= n/d, for comparing ratios without dividing. */
  predicate AtMost(r: Ratio, n: nat, d: nat) {
    r.num * d <= n * r.den
  }

  predicate AtLeast(r: Ratio, n: nat, d: nat) {
    n * r.den <= r.num * d
  }

  /**
   However many halvings it takes, the lossy step only pulls the ratio towards the band
   from one half to two: it never leaves a bound outside that band.
   */
  lemma {:induction false} HalvedPlusOneTowardsOne(r: Ratio, n: nat, d: nat)
    requires r.den > 0 && d > 0
    ensures n >= 2 * d && AtMost(r, n, d) ==> AtMost(HalvedPlusOne(r), n, d)
    ensures 2 * n <= d && AtLeast(r, n, d) ==> AtLeast(HalvedPlusOne(r), n, d)
    decreases r.num + r.den
  {
    if !Fits(r) {
      StepTowardsOne(r, n, d);
      HalvedPlusOneTowardsOne(Reduce(r.num / 2 + 1, r.den / 2 + 1), n, d);
    }
  }

  lemma StepTowardsOne(r: Ratio, n: nat, d: nat)
    requires r.den > 0 && d > 0
    ensures var next := Reduce(r.num / 2 + 1, r.den / 2 + 1);
            && (n >= 2 * d && AtMost(r, n, d) ==> AtMost(next, n, d))
            && (2 * n <= d && AtLeast(r, n, d) ==> AtLeast(next, n, d))
  {
    var a, b := r.num / 2 + 1, r.den / 2 + 1;
    if n >= 2 * d && AtMost(r, n, d) {
      HalfStep(r.num, r.den, n, d);
      assert AtMost(Ratio(a, b), n, d);
    }
    if 2 * n <= d && AtLeast(r, n, d) {
      HalfStep(r.den, r.num, d, n);
      assert AtLeast(Ratio(a, b), n, d);
    }
    ReduceKeepsBounds(a, b, n, d);
  }

  lemma HalfStep(x: nat, y: nat, n: nat, d: nat)
    requires n >= 2 * d && x * d <= n * y
    ensures (x / 2 + 1) * d <= n * (y / 2 + 1)
  {
    var s, t := x / 2 + 1, y / 2 + 1;
    assert 2 * s <= x + 2 && y + 1 <= 2 * t;
    MulMono(2 * s, x + 2, d);
    MulMono(y + 1, 2 * t, n);
    assert (x + 2) * d == x * d + 2 * d;
    assert (y + 1) * n == n * y + n;
    assert 2 * (s * d) <= 2 * (n * t) by {
      assert (2 * s) * d == 2 * (s * d);
      assert (2 * t) * n == 2 * (n * t);
    }
  }

  lemma ReduceKeepsBounds(a: nat, b: nat, n: nat, d: nat)
    requires b > 0
    ensures AtMost(Reduce(a, b), n, d) <==> AtMost(Ratio(a, b), n, d)
    ensures AtLeast(Reduce(a, b), n, d) <==> AtLeast(Ratio(a, b), n, d)
  {
    var r := Reduce(a, b);
    assert r.num * b == a * r.den;
    Rearranged(r.num, d, b);
    Rearranged(a, d, r.den);
    Rearranged(n, r.den, b);
    CompareScaled(r.num * d, n * r.den, b, a * d, n * b, r.den);
  }

  lemma CompareScaled(x: nat, y: nat, k: nat, x': nat, y': nat, k': nat)
    requires k > 0 && k' > 0
    requires x * k == x' * k' && y * k == y' * k'
    ensures x <= y <==> x' <= y'
    ensures y <= x <==> y' <= x'
  {
    if x < y { MulStrict(x, y, k); } else if y < x { MulStrict(y, x, k); }
    if x' < y' { MulStrict(x', y', k'); } else if y' < x' { MulStrict(y', x', k'); }
  }

  /** Halve both parts, rounding up, until they fit. */
  function HalvedUp(r: Ratio): (h: Ratio)
    requires Positive(r)
    ensures Positive(h) && Fits(h)
    ensures Fits(r) ==> h == r
    decreases r.num + r.den
  {
    if Fits(r) then r else HalvedUp(Reduce(r.num / 2 + r.num % 2, r.den / 2 + r.den % 2))
  }

  /** The feed price lowered by the maximum short squeeze ratio. */
  function MaxShortSqueezePrice(settlement: Price, squeezeRatio: nat): (r: Price)
    requires settlement.Valid() && squeezeRatio > 0
  {
    WithAmounts(settlement, HalvedUp(ExactScaled(settlement, COLLATERAL_RATIO_DENOM, squeezeRatio)))
  }

  method ComputeMaxShortSqueezePrice(settlement: Price, squeezeRatio: nat) returns (r: Price)
    requires settlement.Valid() && squeezeRatio > 0
    ensures r == MaxShortSqueezePrice(settlement, squeezeRatio)
  {
    var cp := ExactScaled(settlement, COLLATERAL_RATIO_DENOM, squeezeRatio);
    ghost var start := cp;
    while !Fits(cp)
      invariant Positive(cp)
      invariant HalvedUp(cp) == HalvedUp(start)
      decreases cp.num + cp.den
    {
      cp := Reduce(cp.num / 2 + cp.num % 2, cp.den / 2 + cp.den % 2);
    }
    return WithAmounts(settlement, cp);
  }

  /** The squeeze price is representable, and exact when nothing had to be dropped. */
  lemma MaxShortSqueezeInRange(settlement: Price, squeezeRatio: nat)
    requires settlement.Valid() && squeezeRatio > 0
    ensures var r := MaxShortSqueezePrice(settlement, squeezeRatio);
            && r.Valid()
            && r.base.amount <= MAX_SHARE_SUPPLY && r.quote.amount <= MAX_SHARE_SUPPLY
            && (Fits(ExactScaled(settlement, COLLATERAL_RATIO_DENOM, squeezeRatio)) ==>
                r.base.amount * (settlement.quote.amount * squeezeRatio)
                == settlement.base.amount * COLLATERAL_RATIO_DENOM * r.quote.amount)
  {
  }
}

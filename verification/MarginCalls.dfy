/**
 How much debt a margin call should cover (`call_order_object::get_max_debt_to_cover`):
 a closed form that rounding makes only approximate, a binary search between a lower and
 an upper estimate, and a forward search with Fibonacci steps.
 */
module MarginCalls {
  import opened Amounts
  import opened Options
  import opened Prices

  datatype CallOrder = CallOrder(collateral: nat, debt: nat, callPrice: Price, targetRatio: Option<nat>) {

    predicate Valid() {
      && 0 < debt <= MAX_SHARE_SUPPLY
      && 0 < collateral <= MAX_SHARE_SUPPLY
      && callPrice.base.id != callPrice.quote.id
    }

    function Debt(): Asset {
      Asset(debt, callPrice.quote.id)
    }

    function Collateral(): Asset {
      Asset(collateral, callPrice.base.id)
    }
  }

  /** A position and the prices it is called at, both in collateral per debt. */
  datatype Terms = Terms(debt: Asset, collateral: Asset, trade: Price, feed: Price, ratio: nat) {

    predicate Valid() {
      && 0 < debt.amount <= MAX_SHARE_SUPPLY
      && 0 < collateral.amount <= MAX_SHARE_SUPPLY
      && trade.Valid() && feed.Valid()
      && trade.base.id == feed.base.id == collateral.id
      && trade.quote.id == feed.quote.id == debt.id
      && ratio > 0
    }

    /** Debt bought by paying that much collateral. */
    function Cover(pay: nat): nat
      requires Valid()
    {
      MulDown(pay, trade.quote.amount, trade.base.amount)
    }

    /** Collateral that matching the call will take for that much debt. */
    function Pay(cover: nat): nat
      requires Valid()
    {
      MulUp(cover, trade.base.amount, trade.quote.amount)
    }

    /** Covering brings the position's call price above the feed, as the target ratio asks. */
    predicate Good(cover: nat) {
      Valid() && cover < debt.amount && Pay(cover) < collateral.amount &&
      MeetsTarget(cover, Pay(cover))
    }

    predicate MeetsTarget(cover: nat, pay: nat)
      requires cover < debt.amount && pay < collateral.amount
    {
      Less(feed, CallPrice(Asset(debt.amount - cover, debt.id), Asset(collateral.amount - pay, collateral.id), ratio).value)
    }

    /** Cover and payment determine each other: rounding moves neither. */
    predicate Stable(cover: nat, pay: nat)
      requires Valid()
    {
      Pay(cover) == pay && Cover(pay) == cover
    }

    /** The amounts the routine multiplies out stay within the share supply. */
    predicate ProductsFit()
      requires Valid()
    {
      Pay(debt.amount) <= MAX_SHARE_SUPPLY && Cover(collateral.amount) <= MAX_SHARE_SUPPLY
    }

    /** Numerator and denominator of the closed form, without the rounding fraction. */
    function Numerator(): int {
      feed.base.amount * trade.quote.amount * debt.amount * ratio
      - feed.quote.amount * trade.quote.amount * collateral.amount * COLLATERAL_RATIO_DENOM
    }

    function Denominator(): int {
      feed.base.amount * trade.quote.amount * ratio
      - feed.quote.amount * trade.base.amount * COLLATERAL_RATIO_DENOM
    }

    /** The closed form, made stable by rounding down, down, and up. */
    function LowerCover(): nat
      requires Valid() && Numerator() >= 0 && Denominator() > 0
    {
      Cover(MulDown(Numerator() / Denominator(), trade.base.amount, trade.quote.amount))
    }

    /** The closed form with a whole unit for the fraction, capped at the whole debt. */
    function UpperRaw(): nat
      requires Valid() && Numerator() >= 0 && Denominator() > 0
    {
      var raw := (Numerator() + feed.base.amount * trade.quote.amount * ratio) / Denominator() + 1;
      if raw >= debt.amount then debt.amount else raw
    }

    function UpperPay(): nat
      requires Valid() && Numerator() >= 0 && Denominator() > 0
    {
      if UpperRaw() == debt.amount || Pay(UpperRaw()) > collateral.amount then collateral.amount else Pay(UpperRaw())
    }

    /** The upper estimate leaves the position open. */
    predicate UpperIsPartial()
      requires Valid() && Numerator() >= 0 && Denominator() > 0
    {
      UpperPay() < collateral.amount && Cover(UpperPay()) < debt.amount
    }

    /** One step less, in the asset whose step is finer, would miss the target. */
    predicate Tight(cover: nat)
      requires Valid()
    {
      if trade.base.amount < trade.quote.amount then
        Pay(cover) > 0 && !Good(Cover(Pay(cover) - 1))
      else
        cover > 0 && !Good(cover - 1)
    }
  }

  // --- Steps of the finer asset are never lost to rounding ------------------------------

  lemma CoverIsStrict(t: Terms, p: nat, p': nat)
    requires t.Valid() && p < p'
    requires t.trade.base.amount <= t.trade.quote.amount
    ensures t.Cover(p) < t.Cover(p')
  {
    var b, q := t.trade.base.amount, t.trade.quote.amount;
    DownBounds(p, q, b);
    DownMonotone(p + 1, p', q, b);
    assert (p + 1) * q == p * q + q;
    assert (t.Cover(p) + 1) * b == t.Cover(p) * b + b;
    DownIsLargest(p + 1, q, b, t.Cover(p) + 1);
  }

  lemma PayIsStrict(t: Terms, c: nat, c': nat)
    requires t.Valid() && c < c'
    requires t.trade.quote.amount <= t.trade.base.amount
    ensures t.Pay(c) < t.Pay(c')
  {
    var b, q := t.trade.base.amount, t.trade.quote.amount;
    UpBounds(c + 1, b, q);
    UpMonotone(c + 1, c', b, q);
    assert (c + 1) * b == c * b + b;
    assert (t.Pay(c + 1) - 1) * q == t.Pay(c + 1) * q - q;
    if t.Pay(c + 1) >= 1 {
      UpIsSmallest(c, b, q, t.Pay(c + 1) - 1);
    }
  }

  lemma PayThenCover(t: Terms, cover: nat)
    requires t.Valid()
    ensures t.Cover(t.Pay(cover)) >= cover
    ensures t.Stable(t.Cover(t.Pay(cover)), t.Pay(cover))
  {
    RoundUpThenDown(cover, t.trade.base.amount, t.trade.quote.amount);
  }

  lemma CoverThenPay(t: Terms, pay: nat)
    requires t.Valid()
    ensures t.Pay(t.Cover(pay)) <= pay
    ensures t.Stable(t.Cover(pay), t.Pay(t.Cover(pay)))
  {
    RoundDownThenUp(pay, t.trade.quote.amount, t.trade.base.amount);
  }

  /** Where collateral steps are finer every payment is stable. */
  lemma FinePayIsStable(t: Terms, pay: nat)
    requires t.Valid() && t.trade.base.amount <= t.trade.quote.amount
    ensures t.Stable(t.Cover(pay), pay)
  {
    CoverThenPay(t, pay);
    if t.Pay(t.Cover(pay)) < pay {
      CoverIsStrict(t, t.Pay(t.Cover(pay)), pay);
    }
  }

  /** Where debt steps are finer every cover is stable. */
  lemma FineCoverIsStable(t: Terms, cover: nat)
    requires t.Valid() && t.trade.quote.amount <= t.trade.base.amount
    ensures t.Stable(cover, t.Pay(cover))
  {
    PayThenCover(t, cover);
    if cover < t.Cover(t.Pay(cover)) {
      PayIsStrict(t, cover, t.Cover(t.Pay(cover)));
    }
  }

  lemma ProductsBelowFit(t: Terms, cover: nat, pay: nat)
    requires t.Valid() && t.ProductsFit()
    ensures cover <= t.debt.amount ==> t.Pay(cover) <= MAX_SHARE_SUPPLY
    ensures pay <= t.collateral.amount ==> t.Cover(pay) <= MAX_SHARE_SUPPLY
  {
    if cover <= t.debt.amount {
      UpMonotone(cover, t.debt.amount, t.trade.base.amount, t.trade.quote.amount);
    }
    if pay <= t.collateral.amount {
      DownMonotone(pay, t.collateral.amount, t.trade.quote.amount, t.trade.base.amount);
    }
  }

  // --- Binary search --------------------------------------------------------------------

  /** Thrown: a product overflowed. Exhausted: even the upper bound misses the target. */
  datatype Search = Found(cover: nat) | Exhausted | Thrown

  predicate Bounds(t: Terms, minCover: nat, minPay: nat, maxCover: nat, maxPay: nat)
    requires t.Valid()
  {
    && minPay < maxPay && minCover < maxCover
    && t.Stable(minCover, minPay)
    && (|| (maxPay == t.collateral.amount && maxCover == t.debt.amount)
        || (maxPay < t.collateral.amount && maxCover < t.debt.amount && t.Stable(maxCover, maxPay)))
  }

  /** The mean the search tries next; the maxima when there is nothing in between. */
  method Mean(t: Terms, minCover: nat, minPay: nat, maxCover: nat, maxPay: nat)
    returns (ok: bool, cover: nat, pay: nat)
    requires t.Valid() && Bounds(t, minCover, minPay, maxCover, maxPay)
    ensures !ok ==> !t.ProductsFit()
    ensures ok ==> || (minCover < cover < maxCover && minPay < pay < maxPay && t.Stable(cover, pay))
                   || (cover == maxCover && pay == maxPay)
    ensures ok && cover == maxCover && maxPay < t.collateral.amount && !t.Good(minCover) ==> t.Tight(maxCover)
  {
    if t.trade.base.amount < t.trade.quote.amount {
      pay := (minPay + maxPay + 1) / 2;
      if pay == maxPay {
        cover := maxCover;
      } else {
        cover := t.Cover(pay);
        if cover > MAX_SHARE_SUPPLY {
          ProductsOverflow(t, pay);
          return false, cover, pay;
        }
        FinePayIsStable(t, pay);
        if cover >= maxCover {
          cover, pay := maxCover, maxPay;
          if maxPay < t.collateral.amount {
            CoverIsStrict(t, (minPay + maxPay + 1) / 2, maxPay);
          }
        } else {
          pay := t.Pay(cover);
          CoverIsStrict(t, minPay, pay);
        }
      }
    } else {
      cover := (minCover + maxCover) / 2;
      pay := t.Pay(cover);
      if pay > MAX_SHARE_SUPPLY {
        ProductsOverflowUp(t, cover);
        return false, cover, pay;
      }
      FineCoverIsStable(t, cover);
      if minCover < cover {
        PayIsStrict(t, minCover, cover);
      }
      if pay >= maxPay {
        if maxPay < t.collateral.amount {
          PayIsStrict(t, cover, maxCover);
        }
        cover, pay := maxCover, maxPay;
      } else {
        cover := t.Cover(pay);
        if cover > MAX_SHARE_SUPPLY {
          ProductsOverflow(t, pay);
          return false, cover, pay;
        }
        if cover >= maxCover {
          cover, pay := maxCover, maxPay;
        }
      }
    }
    if pay <= minPay || cover <= minCover || pay > maxPay || cover > maxCover {
      cover, pay := maxCover, maxPay;
    }
    ok := true;
  }

  lemma ProductsOverflow(t: Terms, pay: nat)
    requires t.Valid() && pay <= t.collateral.amount && t.Cover(pay) > MAX_SHARE_SUPPLY
    ensures !t.ProductsFit()
  {
    if t.ProductsFit() {
      ProductsBelowFit(t, 0, pay);
    }
  }

  lemma ProductsOverflowUp(t: Terms, cover: nat)
    requires t.Valid() && cover <= t.debt.amount && t.Pay(cover) > MAX_SHARE_SUPPLY
    ensures !t.ProductsFit()
  {
    if t.ProductsFit() {
      ProductsBelowFit(t, cover, 0);
    }
  }

  method BinarySearch(t: Terms, lowCover: nat, lowPay: nat, highCover: nat, highPay: nat) returns (r: Search)
    requires t.Valid() && Bounds(t, lowCover, lowPay, highCover, highPay)
    requires !t.Good(lowCover)
    ensures r.Thrown? ==> !t.ProductsFit()
    ensures r.Exhausted? ==> highPay < t.collateral.amount && !t.Good(highCover)
    ensures r.Found? && r.cover == t.debt.amount ==> highPay == t.collateral.amount
    ensures r.Found? && r.cover != t.debt.amount ==>
              lowCover < r.cover <= highCover && t.Good(r.cover) && t.Tight(r.cover)
  {
    var minCover: nat, minPay: nat, maxCover: nat, maxPay: nat := lowCover, lowPay, highCover, highPay;
    var maxIsOk := false;
    while true
      invariant Bounds(t, minCover, minPay, maxCover, maxPay)
      invariant lowCover <= minCover && maxCover <= highCover
      invariant !t.Good(minCover)
      invariant if maxIsOk then t.Good(maxCover) else maxCover == highCover && maxPay == highPay
      decreases maxPay - minPay
    {
      var ok, cover, pay := Mean(t, minCover, minPay, maxCover, maxPay);
      if !ok {
        return Thrown;
      }
      if pay == maxPay && (maxIsOk || pay == t.collateral.amount) {
        return Found(cover);
      }
      assert pay < t.collateral.amount && cover < t.debt.amount;
      if t.MeetsTarget(cover, pay) {
        if pay == maxPay {
          return Found(cover);
        }
        maxCover, maxPay, maxIsOk := cover, pay, true;
      } else {
        if pay == maxPay {
          return Exhausted;
        }
        minCover, minPay := cover, pay;
      }
    }
  }

  // --- Forward search -------------------------------------------------------------------

  /** Search upwards from a cover that misses the target, in steps 1, 1, 2, 3, 5, ... */
  method ForwardSearch(t: Terms, startCover: nat, startPay: nat) returns (r: Search)
    requires t.Valid() && t.Stable(startCover, startPay) && !t.Good(startCover)
    requires startCover < t.debt.amount && startPay < t.collateral.amount
    ensures !r.Exhausted?
    ensures r.Thrown? ==> !t.ProductsFit()
    ensures r.Found? ==> r.cover == t.debt.amount || (startCover < r.cover && t.Good(r.cover))
  {
    var cover: nat, pay: nat := startCover, startPay;
    var d1: nat, d2: nat, d3: nat := 0, 1, 1;
    while true
      invariant t.Stable(cover, pay) && !t.Good(cover)
      invariant startCover <= cover < t.debt.amount && pay < t.collateral.amount
      invariant d1 <= d2 && 1 <= d2 && d3 == d1 + d2
      invariant d2 < 2 * (t.debt.amount + t.collateral.amount)
      decreases 4 * (t.debt.amount + t.collateral.amount) - d3
    {
      ghost var was := cover;
      if t.trade.base.amount > t.trade.quote.amount {
        pay := pay + d2;
        if pay >= t.collateral.amount {
          return Found(t.debt.amount);
        }
        DownMonotone(pay - d2, pay, t.trade.quote.amount, t.trade.base.amount);
        cover := t.Cover(pay);
        if cover > MAX_SHARE_SUPPLY {
          ProductsOverflow(t, pay);
          return Thrown;
        }
        if cover >= t.debt.amount {
          return Found(t.debt.amount);
        }
        CoverThenPay(t, pay);
        pay := t.Pay(cover);
        if pay >= t.collateral.amount {
          return Found(t.debt.amount);
        }
      } else {
        cover := cover + d2;
        if cover >= t.debt.amount {
          return Found(t.debt.amount);
        }
        PayThenCover(t, cover);
        pay := t.Pay(cover);
        if pay > MAX_SHARE_SUPPLY {
          ProductsOverflowUp(t, cover);
          return Thrown;
        }
        if pay >= t.collateral.amount {
          return Found(t.debt.amount);
        }
        cover := t.Cover(pay);
        if cover > MAX_SHARE_SUPPLY {
          ProductsOverflow(t, pay);
          return Thrown;
        }
        if cover >= t.debt.amount {
          return Found(t.debt.amount);
        }
      }
      if t.MeetsTarget(cover, pay) {
        assert t.Good(cover) && cover != was;
        return Found(cover);
      }
      d1, d2, d3 := d2, d3, d2 + d3;
    }
  }

  // --- The whole routine ----------------------------------------------------------------

  function Oriented(p: Price, base: AssetId): Price {
    if p.base.id != base then p.Inverse() else p
  }

  /** The terms on which an order with a target ratio is called. */
  function TermsOf(order: CallOrder, trade: Price, feed: Price, maintenanceRatio: nat): Terms
    requires order.targetRatio.Some?
  {
    var target := order.targetRatio.value;
    Terms(order.Debt(), order.Collateral(),
          Oriented(trade, order.callPrice.base.id), Oriented(feed, order.callPrice.base.id),
          if target > maintenanceRatio then target else maintenanceRatio)
  }

  predicate SameMarket(order: CallOrder, p: Price) {
    var o := Oriented(p, order.callPrice.base.id);
    o.base.id == order.callPrice.base.id && o.quote.id == order.callPrice.quote.id
  }

  /** What an answer short of the whole debt promises. */
  predicate Acceptable(t: Terms, x: nat)
    requires t.Valid() && t.Numerator() >= 0 && t.Denominator() > 0
  {
    && t.Good(x)
    && (x == t.LowerCover() || (!t.Good(t.LowerCover()) && Refined(t, x)))
  }

  /** An answer found by searching: a local minimum, or beyond an upper estimate that is not enough. */
  predicate Refined(t: Terms, x: nat)
    requires t.Valid() && t.Numerator() >= 0 && t.Denominator() > 0
  {
    && x > t.LowerCover()
    && (t.Tight(x) || (t.UpperIsPartial() && x > t.Cover(t.UpperPay()) && !t.Good(t.Cover(t.UpperPay()))))
  }

  /** The lower estimate is used as soon as it is good, the upper estimate bounds the search. */
  predicate UsesEstimates(t: Terms, x: nat)
    requires t.Valid() && t.Numerator() >= 0 && t.Denominator() > 0
  {
    t.Numerator() / t.Denominator() < t.debt.amount ==>
      && (t.Good(t.LowerCover()) ==> x == t.LowerCover())
      && (t.UpperIsPartial() && t.LowerCover() < t.Cover(t.UpperPay()) && t.Good(t.Cover(t.UpperPay()))
          ==> x <= t.Cover(t.UpperPay()))
  }

  /** The contract of the routine behind its early exits. */
  predicate Answers(t: Terms, r: Option<nat>)
    requires t.Valid()
  {
    if t.Numerator() < 0 then r == Some(0)
    else if t.Denominator() <= 0 then r == Some(t.debt.amount)
    else if r.None? then !t.ProductsFit()
    else (r.value == t.debt.amount || Acceptable(t, r.value)) && UsesEstimates(t, r.value)
  }

  method MaxDebtToCover(order: CallOrder, trade: Price, feed: Price, maintenanceRatio: nat)
    returns (r: Option<nat>)
    requires order.Valid() && trade.Valid() && feed.Valid() && maintenanceRatio > 0
    ensures !SameMarket(order, feed) ==> r.None?
    ensures SameMarket(order, feed) && Less(Oriented(feed, order.callPrice.base.id), order.callPrice) ==> r == Some(0)
    ensures SameMarket(order, feed) && !Less(Oriented(feed, order.callPrice.base.id), order.callPrice) ==>
              && (order.targetRatio.None? ==> r == Some(order.debt))
              && (order.targetRatio.Some? && !SameMarket(order, trade) ==> r.None?)
              && (order.targetRatio.Some? && SameMarket(order, trade) ==>
                  Answers(TermsOf(order, trade, feed, maintenanceRatio), r))
  {
    var collateralId, debtId := order.callPrice.base.id, order.callPrice.quote.id;
    var feedPrice := if feed.base.id != collateralId then feed.Inverse() else feed;
    if feedPrice.base.id != collateralId || feedPrice.quote.id != debtId {
      return None;
    }
    if Less(feedPrice, order.callPrice) {
      return Some(0);
    }
    if order.targetRatio.None? {
      return Some(order.debt);
    }
    var tcr := if order.targetRatio.value > maintenanceRatio then order.targetRatio.value else maintenanceRatio;
    var matchPrice := if trade.base.id != collateralId then trade.Inverse() else trade;
    if matchPrice.base.id != collateralId || matchPrice.quote.id != debtId {
      return None;
    }
    var t := Terms(order.Debt(), order.Collateral(), matchPrice, feedPrice, tcr);
    assert t == TermsOf(order, trade, feed, maintenanceRatio);
    r := Estimate(t);
  }

  /** The closed form, and the search only where rounding spoils it. */
  method Estimate(t: Terms) returns (r: Option<nat>)
    requires t.Valid()
    ensures Answers(t, r)
  {
    var debt, collateral := t.debt.amount, t.collateral.amount;
    var numerator, denominator := t.Numerator(), t.Denominator();
    if numerator < 0 {
      return Some(0);
    }
    if denominator <= 0 {
      return Some(debt);
    }
    var raw: nat := numerator / denominator;
    if raw >= debt {
      return Some(debt);
    }
    var payDown: nat := MulDown(raw, t.trade.base.amount, t.trade.quote.amount);
    if payDown > MAX_SHARE_SUPPLY {
      LowerOverflow(t, raw);
      return None;
    }
    var cover: nat := t.Cover(payDown);
    var pay: nat := t.Pay(cover);
    assert cover == t.LowerCover();
    if cover >= debt || pay >= collateral {
      DebtAnswers(t);
      return Some(debt);
    }
    if t.MeetsTarget(cover, pay) {
      assert t.Good(cover);
      return Some(cover);
    }
    LowerIsStable(t);
    r := Refine(t, cover, pay);
  }

  method Refine(t: Terms, cover: nat, pay: nat) returns (r: Option<nat>)
    requires t.Valid() && t.Numerator() >= 0 && t.Denominator() > 0
    requires cover == t.LowerCover() && cover < t.debt.amount && pay < t.collateral.amount
    requires t.Stable(cover, pay) && !t.Good(cover)
    ensures r.None? ==> !t.ProductsFit()
    ensures r.Some? ==> r.value == t.debt.amount || (t.Good(r.value) && Refined(t, r.value))
    ensures r.Some? && t.UpperIsPartial() && cover < t.Cover(t.UpperPay()) && t.Good(t.Cover(t.UpperPay())) ==>
              r.value <= t.Cover(t.UpperPay())
  {
    var debt, collateral := t.debt.amount, t.collateral.amount;
    var upper: nat := t.UpperRaw();
    if upper != debt && t.Pay(upper) > MAX_SHARE_SUPPLY {
      ProductsOverflowUp(t, upper);
      return None;
    }
    var maxPay: nat := t.UpperPay();
    if maxPay != collateral && t.Cover(maxPay) > MAX_SHARE_SUPPLY {
      ProductsOverflow(t, maxPay);
      return None;
    }
    var maxCover: nat := if maxPay == collateral then debt else t.Cover(maxPay);
    if maxCover >= debt {
      maxPay, maxCover := collateral, debt;
    }
    UpperIsStable(t);
    if maxPay <= pay || maxCover <= cover {
      if maxCover != debt {
        CoverOrderFollowsPay(t, cover, pay, maxCover, maxPay);
      }
      return Some(debt);
    }
    var found := BinarySearch(t, cover, pay, maxCover, maxPay);
    if found.Exhausted? {
      found := ForwardSearch(t, maxCover, maxPay);
    }
    match found
    case Found(x) => return Some(x);
    case Thrown => return None;
  }

  lemma UpperIsStable(t: Terms)
    requires t.Valid() && t.Numerator() >= 0 && t.Denominator() > 0
    ensures t.UpperPay() < t.collateral.amount ==> t.Stable(t.Cover(t.UpperPay()), t.UpperPay())
  {
    PayThenCover(t, t.UpperRaw());
  }

  lemma CoverOrderFollowsPay(t: Terms, c: nat, p: nat, c': nat, p': nat)
    requires t.Valid() && t.Stable(c, p) && t.Stable(c', p')
    ensures p' <= p ==> c' <= c
    ensures c' <= c ==> p' <= p
  {
    if p' <= p {
      DownMonotone(p', p, t.trade.quote.amount, t.trade.base.amount);
    }
    if c' <= c {
      UpMonotone(c', c, t.trade.base.amount, t.trade.quote.amount);
    }
  }

  lemma LowerOverflow(t: Terms, raw: nat)
    requires t.Valid() && raw <= t.debt.amount
    requires MulDown(raw, t.trade.base.amount, t.trade.quote.amount) > MAX_SHARE_SUPPLY
    ensures !t.ProductsFit()
  {
    DownLeUp(raw, t.trade.base.amount, t.trade.quote.amount);
    ProductsOverflowUp(t, raw);
  }

  /** When the lower estimate already takes everything, no good upper estimate lies above it. */
  lemma DebtAnswers(t: Terms)
    requires t.Valid() && t.Numerator() >= 0 && t.Denominator() > 0
    requires t.LowerCover() >= t.debt.amount || t.Pay(t.LowerCover()) >= t.collateral.amount
    ensures Answers(t, Some(t.debt.amount))
  {
    var lower, upper := t.LowerCover(), t.Cover(t.UpperPay());
    if lower < upper {
      UpMonotone(lower, upper, t.trade.base.amount, t.trade.quote.amount);
    }
  }

  /** Rounding down twice leaves a stable pair once paid up again. */
  lemma LowerIsStable(t: Terms)
    requires t.Valid() && t.Numerator() >= 0 && t.Denominator() > 0
    ensures t.Stable(t.LowerCover(), t.Pay(t.LowerCover()))
  {
    CoverThenPay(t, MulDown(t.Numerator() / t.Denominator(), t.trade.base.amount, t.trade.quote.amount));
  }
}

/**
 Limit orders: when two of them cross, in which order the index visits them, and what a
 match moves between a new order (the taker) and a resting one (the maker).
 */
module LimitOrders {
  import opened Amounts
  import opened Options
  import opened Positions
  import opened Prices

  type OrderId = nat

  datatype LimitOrder = LimitOrder(seller: AccountId, forSale: nat, sellPrice: Price,
                                   deferredFee: nat, deferredPaidFee: Asset) {

    /** An order is created selling exactly its price's base, and only ever shrinks. */
    predicate Valid() {
      && sellPrice.Valid()
      && 0 < forSale <= sellPrice.base.amount <= MAX_SHARE_SUPPLY
    }

    function ToSell(): Asset {
      Asset(forSale, sellPrice.base.id)
    }

    function ToReceive(): Option<Asset> {
      Times(ToSell(), sellPrice)
    }

    /** What is left would be sold for nothing. */
    predicate Dust() {
      sellPrice.base.amount > 0 && MulDown(forSale, sellPrice.quote.amount, sellPrice.base.amount) == 0
    }
  }

  // --- Prices facing each other -----------------------------------------------------------

  predicate SameMarket(p: Price, q: Price) {
    p.base.id == q.base.id && p.quote.id == q.quote.id
  }

  predicate Opposite(p: Price, q: Price) {
    SameMarket(p, q.Inverse())
  }

  /** Two orders cross when one offers at least what the other asks. */
  predicate Crosses(p: Price, q: Price) {
    Opposite(p, q) && p.quote.amount * q.quote.amount <= p.base.amount * q.base.amount
  }

  const HIGHEST: nat := MAX_SHARE_SUPPLY

  function HighestPrice(p: Price): Price {
    Price(Asset(HIGHEST, p.base.id), Asset(1, p.quote.id))
  }

  /** The stretch of the index the matching loop walks: from the highest price down to the asked one. */
  predicate InMatchingRange(maker: Price, taker: Price) {
    var asked := taker.Inverse();
    !Less(HighestPrice(asked), maker) && !Less(maker, asked)
  }

  /** That stretch holds exactly the crossing orders. */
  lemma RangeIsCrossing(maker: Price, taker: Price)
    requires maker.Valid() && taker.Valid() && maker.base.amount <= MAX_SHARE_SUPPLY
    ensures InMatchingRange(maker, taker) <==> Crosses(taker, maker)
  {
    MulMono(1, maker.quote.amount, HIGHEST);
    MulMono(maker.base.amount, HIGHEST, 1);
  }

  // --- Order of the index -----------------------------------------------------------------

  lemma CompareTransitive(a: nat, b: nat, c: nat, a': nat, b': nat, c': nat)
    requires a' > 0 && b' > 0 && c' > 0
    requires a * b' <= b * a' && b * c' <= c * b'
    ensures a * c' <= c * a'
    ensures a * b' < b * a' || b * c' < c * b' ==> a * c' < c * a'
  {
    var ab, ba, bc, cb, ac, ca := a * b', b * a', b * c', c * b', a * c', c * a';
    Rearranged(a, b', c');
    Rearranged(b, a', c');
    Rearranged(c, b', a');
    MulMono(ab, ba, c');
    MulMono(bc, cb, a');
    MulCancelLe(ac, ca, b');
    if ab < ba {
      MulStrict(ab, ba, c');
      MulCancelLt(ac, ca, b');
    }
    if bc < cb {
      MulStrict(bc, cb, a');
      MulCancelLt(ac, ca, b');
    }
  }

  /** Prices are weakly ordered: not being less is transitive too. */
  lemma LessTransitive(p: Price, q: Price, r: Price)
    requires p.Valid() && q.Valid() && r.Valid()
    ensures !Less(q, p) && !Less(r, q) ==> !Less(r, p)
    ensures Less(p, q) && !Less(r, q) ==> Less(p, r)
    ensures !Less(q, p) && Less(q, r) ==> Less(p, r)
  {
    if SameMarket(p, q) && SameMarket(q, r) && !Less(q, p) && !Less(r, q) {
      CompareTransitive(p.base.amount, q.base.amount, r.base.amount,
                        p.quote.amount, q.quote.amount, r.quote.amount);
    }
  }

  /** The index runs from the highest price down, and by age among equal prices. */
  predicate Before(p: Price, i: OrderId, q: Price, j: OrderId) {
    Less(q, p) || (!Less(p, q) && i < j)
  }

  lemma BeforeTransitive(p: Price, i: OrderId, q: Price, j: OrderId, r: Price, k: OrderId)
    requires p.Valid() && q.Valid() && r.Valid()
    requires Before(p, i, q, j) && Before(q, j, r, k)
    ensures Before(p, i, r, k)
  {
    LessTransitive(r, q, p);
  }

  /** An order that asks more than a same-side order crosses nothing that order does not cross. */
  lemma WorsePriceCrossesLess(better: Price, worse: Price, other: Price)
    requires better.Valid() && worse.Valid() && other.Valid()
    requires SameMarket(better, worse) && !Less(better, worse)
    requires Crosses(worse, other)
    ensures Crosses(better, other)
  {
    var asked := other.Inverse();
    CompareTransitive(other.quote.amount, worse.base.amount, better.base.amount,
                      other.base.amount, worse.quote.amount, better.quote.amount);
  }

  // --- Matching two limit orders -----------------------------------------------------------

  /** Either nothing is traded because the taker would get nothing, or the two amounts change hands. */
  datatype Trade = Nothing | Trade(pays: Asset, receives: Asset, cullTaker: bool)

  /** What the taker pays and receives at the maker's price; None when an assertion throws. */
  function MatchAmounts(taker: LimitOrder, maker: LimitOrder): Option<Trade> {
    var price := maker.sellPrice;
    var wanted :- Times(maker.ToSell(), price);
    if taker.forSale <= wanted.amount then
      var receives :- Times(taker.ToSell(), price);
      if receives.amount == 0 then Some(Nothing)
      else
        var pays :- TimesUp(receives, price);
        Some(Trade(pays, receives, true))
    else
      var receives :- TimesUp(wanted, price);
      Some(Trade(wanted, receives, false))
  }

  predicate Matchable(taker: LimitOrder, maker: LimitOrder) {
    taker.Valid() && maker.Valid() && Crosses(taker.sellPrice, maker.sellPrice)
  }

  /** The amounts in plain arithmetic; matching throws exactly when the maker asks for more than can exist. */
  lemma MatchIs(taker: LimitOrder, maker: LimitOrder)
    requires Matchable(taker, maker)
    ensures var b, q := maker.sellPrice.base, maker.sellPrice.quote;
            var wanted := MulDown(maker.forSale, q.amount, b.amount);
            var bought := MulDown(taker.forSale, b.amount, q.amount);
            && (MatchAmounts(taker, maker).Some? <==> wanted <= MAX_SHARE_SUPPLY)
            && (wanted <= MAX_SHARE_SUPPLY ==>
                  MatchAmounts(taker, maker).value ==
                    if taker.forSale > wanted then
                      Trade(Asset(wanted, q.id), Asset(MulUp(wanted, b.amount, q.amount), b.id), false)
                    else if bought == 0 then Nothing
                    else Trade(Asset(MulUp(bought, q.amount, b.amount), q.id), Asset(bought, b.id), true))
            && MulUp(wanted, b.amount, q.amount) <= maker.forSale
            && MulUp(bought, q.amount, b.amount) <= taker.forSale
            && (taker.forSale <= wanted ==> bought <= maker.forSale)
  {
    var b, q := maker.sellPrice.base.amount, maker.sellPrice.quote.amount;
    var wanted := MulDown(maker.forSale, q, b);
    RoundDownThenUp(maker.forSale, q, b);
    RoundDownThenUp(taker.forSale, b, q);
    if taker.forSale <= wanted {
      DownIsLargest(maker.forSale, q, b, taker.forSale);
      DownBounds(taker.forSale, b, q);
      MulCancelLe(MulDown(taker.forSale, b, q), maker.forSale, q);
    }
  }

  /** Converted at the maker's price, an amount is worth at least what the taker's own price says. */
  lemma MakerPriceIsBetter(taker: LimitOrder, maker: LimitOrder, amount: nat)
    requires Matchable(taker, maker)
    ensures MulDown(amount, taker.sellPrice.quote.amount, taker.sellPrice.base.amount)
            <= MulDown(amount, maker.sellPrice.base.amount, maker.sellPrice.quote.amount)
  {
    DownBetterRatio(amount, taker.sellPrice.quote.amount, taker.sellPrice.base.amount,
                    maker.sellPrice.base.amount, maker.sellPrice.quote.amount);
  }

  function Worth(amount: nat, p: Price): nat
    requires p.Valid()
  {
    MulDown(amount, p.quote.amount, p.base.amount)
  }

  /** Neither side pays more than it has for sale, and each gets at least its own price. */
  lemma MatchIsFair(taker: LimitOrder, maker: LimitOrder)
    requires Matchable(taker, maker) && !maker.Dust()
    requires MatchAmounts(taker, maker).Some? && MatchAmounts(taker, maker).value.Trade?
    ensures var t := MatchAmounts(taker, maker).value;
            && t.pays.id == taker.sellPrice.base.id && t.receives.id == maker.sellPrice.base.id
            && 0 < t.pays.amount <= taker.forSale && 0 < t.receives.amount <= maker.forSale
            && Worth(t.pays.amount, taker.sellPrice) <= t.receives.amount
            && Worth(t.receives.amount, maker.sellPrice) <= t.pays.amount
  {
    MatchIs(taker, maker);
    var t := MatchAmounts(taker, maker).value;
    var b, q := maker.sellPrice.base.amount, maker.sellPrice.quote.amount;
    MakerPriceIsBetter(taker, maker, t.pays.amount);
    if t.cullTaker {
      RoundDownThenUp(taker.forSale, b, q);
      UpPositive(t.receives.amount, q, b);
      DownLeUp(t.receives.amount, q, b);
    } else {
      RoundDownThenUp(maker.forSale, q, b);
      UpPositive(t.pays.amount, b, q);
      DownLeUp(t.pays.amount, b, q);
    }
  }

  lemma UpPositive(a: nat, n: nat, d: nat)
    requires a > 0 && n > 0 && d > 0
    ensures MulUp(a, n, d) > 0
  {
    UpBounds(a, n, d);
    MulMono(1, a, n);
    MulCancelLt(0, MulUp(a, n, d), d);
  }

  function Remaining(o: LimitOrder, pays: nat): LimitOrder
    requires pays <= o.forSale
  {
    o.(forSale := o.forSale - pays, deferredFee := 0, deferredPaidFee := o.deferredPaidFee.(amount := 0))
  }

  /** At least one side is done: it is filled, or what it has left is worth nothing at its own price. */
  lemma OneSideIsDone(taker: LimitOrder, maker: LimitOrder)
    requires Matchable(taker, maker) && !maker.Dust()
    requires MatchAmounts(taker, maker).Some? && MatchAmounts(taker, maker).value.Trade?
    ensures var t := MatchAmounts(taker, maker).value;
            && t.pays.amount <= taker.forSale && t.receives.amount <= maker.forSale
            && (t.cullTaker ==> Remaining(taker, t.pays.amount).Dust())
            && (!t.cullTaker ==> t.pays.amount < taker.forSale && Remaining(maker, t.receives.amount).Dust())
  {
    MatchIsFair(taker, maker);
    MatchIs(taker, maker);
    var t := MatchAmounts(taker, maker).value;
    var b, q := maker.sellPrice.base.amount, maker.sellPrice.quote.amount;
    if t.cullTaker {
      LeftoverIsDust(taker.forSale, b, q);
      MakerPriceIsBetter(taker, maker, taker.forSale - t.pays.amount);
    } else {
      LeftoverIsDust(maker.forSale, q, b);
    }
  }

  /** A taker that would get nothing at the maker's price asks for nothing at its own. */
  lemma NothingMeansDust(taker: LimitOrder, maker: LimitOrder)
    requires Matchable(taker, maker) && MatchAmounts(taker, maker) == Some(Nothing)
    ensures taker.Dust()
  {
    MatchIs(taker, maker);
    MakerPriceIsBetter(taker, maker, taker.forSale);
  }
}

/**
 What the answer of `get_max_debt_to_cover` comes to when the match is carried out: the
 position pays exactly what the routine reckoned with, and its call price passes the feed.
 */
module MarginMatches {
  import opened Amounts
  import opened Ledgers
  import opened LimitOrders
  import opened MarginCalls
  import opened Options
  import opened Positions
  import opened Prices

  /** The terms describe the position, and the limit order sells what it owes. */
  predicate Called(b: Books, id: OrderId, c: CallId, t: Terms) {
    && t.Valid() && id in b.limitOrders && c in b.calls
    && t.debt == Asset(b.calls[c].debt, c.1)
    && t.collateral == Asset(b.calls[c].collateral, b.rules.CollateralAsset(c.1))
    && b.limitOrders[id].sellPrice.base.id == c.1 && b.limitOrders[id].forSale <= MAX_SHARE_SUPPLY
  }

  /** The call price of what is left of a position, at a ratio. */
  function CallPriceLeft(p: Position, t: Terms): Option<Price> {
    CallPrice(Asset(p.debt, t.debt.id), Asset(p.collateral, t.collateral.id), t.ratio)
  }

  /** Matching for at most the whole debt: it throws just when the payment exceeds the collateral. */
  lemma CoverIsMatched(b: Books, id: OrderId, c: CallId, t: Terms, x: nat)
    requires Called(b, id, c, t) && x <= b.limitOrders[id].forSale && x <= b.calls[c].debt
    ensures var (r, p) := (b.MatchCall(id, c, x, t.trade), b.calls[c]);
            && (r.Some? <==> t.Pay(x) <= p.collateral)
            && (r.Some? ==>
                  var b' := r.value.0;
                  if x == p.debt then c !in b'.calls
                  else c in b'.calls && b'.calls[c] == Position(c.0, p.collateral - t.Pay(x), p.debt - x))
  {
    var o := b.limitOrders[id];
    if t.Pay(x) <= MAX_SHARE_SUPPLY {
      assert TimesUp(Asset(x, t.trade.quote.id), t.trade) == Some(Asset(t.Pay(x), t.trade.base.id));
    }
  }

  /** A cover the routine calls good, when the order has that much, leaves the position above the feed. */
  lemma GoodCoverIsMatched(b: Books, id: OrderId, c: CallId, t: Terms, x: nat)
    requires Called(b, id, c, t) && x <= b.limitOrders[id].forSale && t.Good(x)
    ensures var r := b.MatchCall(id, c, x, t.trade);
            && r.Some? && c in r.value.0.calls
            && r.value.0.calls[c] == Position(c.0, b.calls[c].collateral - t.Pay(x), b.calls[c].debt - x)
            && var left := CallPriceLeft(r.value.0.calls[c], t);
               left.Some? && Less(t.feed, left.value)
  {
    CoverIsMatched(b, id, c, t, x);
  }

  /**
   Any answer of the routine for a position in margin call territory, matched in full,
   closes the position or lifts its call price above the feed; it throws only when the
   answer is the whole debt and the collateral cannot pay for it.
   */
  lemma AnswerIsMatched(b: Books, id: OrderId, c: CallId, t: Terms, x: nat)
    requires Called(b, id, c, t) && x <= b.limitOrders[id].forSale
    requires t.Numerator() >= 0 && Answers(t, Some(x))
    ensures var r := b.MatchCall(id, c, x, t.trade);
            && (r.None? <==> x == b.calls[c].debt && t.Pay(x) > b.calls[c].collateral)
            && (r.Some? && c in r.value.0.calls ==>
                  var left := CallPriceLeft(r.value.0.calls[c], t);
                  left.Some? && Less(t.feed, left.value))
  {
    CoverIsMatched(b, id, c, t, x);
    if x < b.calls[c].debt {
      GoodCoverIsMatched(b, id, c, t, x);
    }
  }
}

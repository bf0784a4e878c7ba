/**
 Working a new order into a book while margin positions are called: first the limit orders
 that offer more than a called position, then the called positions, then the other limit orders.
 */
module CalledOrders {
  import opened Amounts
  import opened Conservation
  import opened Ledgers
  import opened LimitOrders
  import opened Options
  import opened OrderBooks
  import opened Positions
  import opened Prices

  /**
   How positions are called: the price they trade at, in collateral per debt, which of them is
   next, if any, and how much debt a position covers; None when computing that throws.
   */
  datatype Calling = Calling(price: Price, next: Books -> Option<CallId>, cover: Position -> Option<nat>)

  /** No position covers more than it owes. */
  ghost predicate CoversDebt(calling: Calling) {
    forall p :: calling.cover(p).Some? ==> calling.cover(p).value <= p.debt
  }

  ghost predicate Sensible(calling: Option<Calling>) {
    calling.Some? ==> CoversDebt(calling.value)
  }

  /** The order buys the collateral at the called positions' price or a better one. */
  predicate Callable(o: LimitOrder, price: Price) {
    && price.Valid() && Opposite(price, o.sellPrice)
    && !Less(price, o.sellPrice.Inverse())
  }

  /** A position that owes what is sold against what is bought. */
  predicate Faces(b: Books, c: CallId, price: Price) {
    c in b.calls && c.1 == price.quote.id && b.rules.CollateralAsset(c.1) == price.base.id
  }

  // --- Limit orders with a better price -----------------------------------------------------------

  /** The first loop: limit orders above a price. The flag says that the new order is finished. */
  ghost function WorkedAbove(b: Books, id: OrderId, price: Price): Option<(Books, bool)>
    requires BookBut(b.limitOrders, id)
    decreases |b.limitOrders.Keys|
  {
    if id !in b.limitOrders || Crossing(b.limitOrders, id) == {} then Some((b, false))
    else
      BookButIsValid(b.limitOrders, id);
      var maker := First(b.limitOrders, Crossing(b.limitOrders, id));
      CrossingIsMatchable(b.limitOrders, id, maker);
      if !Less(price, b.limitOrders[maker].sellPrice) then Some((b, false))
      else
        var r :- b.Match(id, maker);
        MatchKeepsBook(b, id, maker);
        if r.1 != 2 then Some((r.0, true)) else WorkedAbove(r.0, id, price)
  }

  /** Nothing is left that the new order could buy for less than the price. */
  ghost predicate NoneAbove(orders: Orders, id: OrderId, price: Price)
    requires id in orders
  {
    forall i :: i in Crossing(orders, id) ==> !Less(price, orders[i].sellPrice)
  }

  /** A finished order is gone or dust; one that goes on is as it was but for its amount, and nothing better is left. */
  ghost predicate Goes(b: Books, id: OrderId, b': Books, finished: bool) {
    && BookBut(b'.limitOrders, id) && SameTotals(b, b') && b'.rules == b.rules
    && if finished then id in b'.limitOrders ==> b'.limitOrders[id].Dust()
       else id in b.limitOrders && id in b'.limitOrders && LessOf(b'.limitOrders[id], b.limitOrders[id])
  }

  lemma {:induction false} AboveOutcome(b: Books, id: OrderId, price: Price)
    requires BookBut(b.limitOrders, id) && id in b.limitOrders && price.Valid() && WorkedAbove(b, id, price).Some?
    ensures var (b', finished) := WorkedAbove(b, id, price).value;
            Goes(b, id, b', finished) && (!finished ==> NoneAbove(b'.limitOrders, id, price))
    decreases |b.limitOrders.Keys|
  {
    if Crossing(b.limitOrders, id) != {} {
      BookButIsValid(b.limitOrders, id);
      var maker := First(b.limitOrders, Crossing(b.limitOrders, id));
      CrossingIsMatchable(b.limitOrders, id, maker);
      if !Less(price, b.limitOrders[maker].sellPrice) {
        NoneAboveFirst(b.limitOrders, id, price);
      } else {
        MatchGoes(b, id, maker);
        var r := b.Match(id, maker).value;
        if r.1 == 2 {
          AboveOutcome(r.0, id, price);
          SameTotalsTransitive(b, r.0, WorkedAbove(r.0, id, price).value.0);
        }
      }
    }
  }

  lemma MatchGoes(b: Books, id: OrderId, maker: OrderId)
    requires BookBut(b.limitOrders, id) && id in b.limitOrders && maker in b.limitOrders && maker != id
    requires Rests(b.limitOrders[maker]) && Matchable(b.limitOrders[id], b.limitOrders[maker])
    requires b.Match(id, maker).Some?
    ensures var (b', result) := b.Match(id, maker).value;
            Goes(b, id, b', result != 2)
            && (result == 2 ==> |b'.limitOrders.Keys| < |b.limitOrders.Keys|)
  {
    MatchOutcome(b, id, maker);
    MatchKeepsBook(b, id, maker);
    MatchConserves(b, id, maker);
    MatchKeepsRules(b, id, maker);
  }

  lemma MatchKeepsRules(b: Books, taker: OrderId, maker: OrderId)
    requires taker in b.limitOrders && maker in b.limitOrders && taker != maker
    requires Matchable(b.limitOrders[taker], b.limitOrders[maker]) && b.Match(taker, maker).Some?
    ensures b.Match(taker, maker).value.0.rules == b.rules
  {
    MatchIs(b.limitOrders[taker], b.limitOrders[maker]);
    var t := LimitOrders.MatchAmounts(b.limitOrders[taker], b.limitOrders[maker]).value;
    if t.Trade? {
      b.FillLeavesOthers(taker, t.pays, t.receives, t.cullTaker);
      assert b.limitOrders[maker] == (b.limitOrders - {taker})[maker];
      FillKeepsRules(b, taker, t.pays, t.receives, t.cullTaker);
      FillKeepsRules(b.Fill(taker, t.pays, t.receives, t.cullTaker).value, maker, t.receives, t.pays, true);
    }
  }

  lemma FillKeepsRules(b: Books, id: OrderId, pays: Asset, receives: Asset, cull: bool)
    requires id in b.limitOrders && pays.amount <= b.limitOrders[id].forSale
    ensures var r := b.Fill(id, pays, receives, cull);
            r.Some? ==> r.value.rules == b.rules && r.value.calls == b.calls
  {
  }

  lemma NoneAboveFirst(orders: Orders, id: OrderId, price: Price)
    requires AllValid(orders) && id in orders && Crossing(orders, id) != {} && price.Valid()
    requires !Less(price, orders[First(orders, Crossing(orders, id))].sellPrice)
    ensures NoneAbove(orders, id, price)
  {
    var maker := First(orders, Crossing(orders, id));
    forall i | i in Crossing(orders, id)
      ensures !Less(price, orders[i].sellPrice)
    {
      LessTransitive(orders[i].sellPrice, orders[maker].sellPrice, price);
    }
  }

  // --- Called positions ---------------------------------------------------------------------------

  /** At the called positions' price an amount is worth at least what the order's own price says. */
  lemma CallPriceIsBetter(o: LimitOrder, price: Price, amount: nat)
    requires o.Valid() && Callable(o, price)
    ensures MulDown(amount, o.sellPrice.quote.amount, o.sellPrice.base.amount)
            <= MulDown(amount, price.base.amount, price.quote.amount)
  {
    DownBetterRatio(amount, o.sellPrice.quote.amount, o.sellPrice.base.amount, price.base.amount, price.quote.amount);
  }

  /** An order that sells all it can to a position, or would get nothing, has only dust left. */
  lemma SoldOutIsDust(o: LimitOrder, price: Price)
    requires o.Valid() && Callable(o, price) && Times(o.ToSell(), price).Some?
    ensures var receives := Times(o.ToSell(), price).value;
            var pays := TimesUp(receives, price);
            && (receives.amount == 0 ==> o.Dust())
            && pays.Some? && pays.value.amount <= o.forSale && Remaining(o, pays.value.amount).Dust()
  {
    var n, d := price.base.amount, price.quote.amount;
    TimesThenTimesUp(o.ToSell(), price);
    LeftoverIsDust(o.forSale, n, d);
    CallPriceIsBetter(o, price, o.forSale);
    CallPriceIsBetter(o, price, o.forSale - MulUp(MulDown(o.forSale, n, d), d, n));
  }

  /** What both fills of such a match do to the book. */
  lemma CallForOutcome(b: Books, id: OrderId, c: CallId, pays: Asset, receives: Asset, cull: bool)
    requires BookBut(b.limitOrders, id) && id in b.limitOrders && c in b.calls
    requires 0 < pays.amount <= b.limitOrders[id].forSale && pays.amount <= b.calls[c].debt
    requires cull ==> Remaining(b.limitOrders[id], pays.amount).Dust()
    requires b.MatchCallFor(id, c, pays, receives, cull).Some?
    ensures var (b', result) := b.MatchCallFor(id, c, pays, receives, cull).value;
            && b'.limitOrders == After(b.limitOrders, id, pays.amount, cull) && b'.rules == b.rules
            && result <= 3 && (result % 2 == 1 <==> id !in b'.limitOrders)
            && (id in b'.limitOrders ==> b'.limitOrders[id] == Remaining(b.limitOrders[id], pays.amount))
  {
    FillOutcome(b, id, pays, receives, cull);
    FillKeepsRules(b, id, pays, receives, cull);
  }

  /** A match with a position changes only the new order and the position; the order goes on with less, or is finished. */
  lemma CallOutcome(b: Books, id: OrderId, c: CallId, toCover: nat, price: Price)
    requires BookBut(b.limitOrders, id) && id in b.limitOrders && Callable(b.limitOrders[id], price)
    requires Faces(b, c, price) && 0 < toCover <= b.calls[c].debt && b.MatchCall(id, c, toCover, price).Some?
    ensures var (b', result) := b.MatchCall(id, c, toCover, price).value;
            && result <= 3 && Goes(b, id, b', result % 2 == 1) && b'.limitOrders - {id} == b.limitOrders - {id}
            && (result % 2 == 0 ==> b'.limitOrders[id].forSale < b.limitOrders[id].forSale)
  {
    var o := b.limitOrders[id];
    MatchOfCallConserves(b, id, c, toCover, price);
    if toCover > o.forSale {
      SoldOutIsDust(o, price);
      var receives := Times(o.ToSell(), price).value;
      if receives.amount > 0 {
        var pays := TimesUp(receives, price).value;
        UpPositive(receives.amount, price.quote.amount, price.base.amount);
        CallForOutcome(b, id, c, pays, receives, true);
        SoldKeepsBook(b.limitOrders, id, pays.amount, true);
      }
    } else {
      var receives := TimesUp(Asset(toCover, price.quote.id), price).value;
      CallForOutcome(b, id, c, Asset(toCover, price.quote.id), receives, false);
      SoldKeepsBook(b.limitOrders, id, toCover, false);
    }
  }

  lemma SoldKeepsBook(orders: Orders, id: OrderId, pays: nat, cull: bool)
    requires BookBut(orders, id) && id in orders && pays <= orders[id].forSale
    ensures After(orders, id, pays, cull) - {id} == orders - {id} && BookBut(After(orders, id, pays, cull), id)
  {
    assert After(orders, id, pays, cull) - {id} == orders - {id};
  }

  /**
   The second loop: called positions one after the other. A position that covers nothing would
   be matched for ever; that is None as well.
   */
  ghost function Called(b: Books, id: OrderId, calling: Calling): Option<(Books, bool)>
    requires BookBut(b.limitOrders, id) && id in b.limitOrders && Callable(b.limitOrders[id], calling.price)
    requires CoversDebt(calling)
    decreases b.limitOrders[id].forSale
  {
    var c := calling.next(b);
    if c.None? || !Faces(b, c.value, calling.price) then Some((b, false))
    else
      var toCover :- calling.cover(b.calls[c.value]);
      if toCover == 0 then None
      else
        var r :- b.MatchCall(id, c.value, toCover, calling.price);
        CallOutcome(b, id, c.value, toCover, calling.price);
        if r.1 % 2 == 1 then Some((r.0, true)) else Called(r.0, id, calling)
  }

  /** The new order is finished, or no position it could be matched with is called any more. */
  lemma {:induction false} CalledOutcome(b: Books, id: OrderId, calling: Calling)
    requires BookBut(b.limitOrders, id) && id in b.limitOrders && Callable(b.limitOrders[id], calling.price)
    requires CoversDebt(calling) && Called(b, id, calling).Some?
    ensures var (b', finished) := Called(b, id, calling).value;
            && Goes(b, id, b', finished) && b'.limitOrders - {id} == b.limitOrders - {id}
            && (!finished ==> calling.next(b').None? || !Faces(b', calling.next(b').value, calling.price))
    decreases b.limitOrders[id].forSale
  {
    var c := calling.next(b);
    if c.Some? && Faces(b, c.value, calling.price) {
      var toCover := calling.cover(b.calls[c.value]).value;
      CallOutcome(b, id, c.value, toCover, calling.price);
      var r := b.MatchCall(id, c.value, toCover, calling.price).value;
      if r.1 % 2 == 0 {
        CalledOutcome(r.0, id, calling);
        SameTotalsTransitive(b, r.0, Called(r.0, id, calling).value.0);
      }
    }
  }

  // --- The whole routine --------------------------------------------------------------------------

  /** The three loops one after the other. */
  ghost function WorkedWith(b: Books, id: OrderId, calling: Calling): Option<Books>
    requires BookBut(b.limitOrders, id) && id in b.limitOrders && CoversDebt(calling)
  {
    if !Callable(b.limitOrders[id], calling.price) then Worked(b, id)
    else
      var (above, finished) :- WorkedAbove(b, id, calling.price);
      AboveOutcome(b, id, calling.price);
      if finished then Some(above)
      else
        var (called, sold) :- Called(above, id, calling);
        CalledOutcome(above, id, calling);
        if sold then Some(called) else Worked(called, id)
  }

  /** Afterwards the new order is gone, has only dust left, or crosses nothing; all totals are kept. */
  lemma WorkedWithOutcome(b: Books, id: OrderId, calling: Calling)
    requires BookBut(b.limitOrders, id) && id in b.limitOrders && CoversDebt(calling) && WorkedWith(b, id, calling).Some?
    ensures var b' := WorkedWith(b, id, calling).value;
            && BookBut(b'.limitOrders, id) && SameTotals(b, b')
            && (id in b'.limitOrders ==> b'.limitOrders[id].Dust() || Crossing(b'.limitOrders, id) == {})
  {
    if !Callable(b.limitOrders[id], calling.price) {
      WorkedOutcome(b, id);
    } else {
      AboveOutcome(b, id, calling.price);
      var (above, finished) := WorkedAbove(b, id, calling.price).value;
      if !finished {
        CalledOutcome(above, id, calling);
        var (called, sold) := Called(above, id, calling).value;
        SameTotalsTransitive(b, above, called);
        if !sold {
          WorkedOutcome(called, id);
          SameTotalsTransitive(b, called, Worked(called, id).value);
        }
      }
    }
  }

  /** What is left of the new order rests, unless it asks for nothing. */
  function Rested(worked: Books, id: OrderId): Option<(Books, bool)> {
    if id !in worked.limitOrders then Some((worked, true))
    else
      var culled :- worked.MaybeCull(id);
      Some((culled, id !in culled.limitOrders))
  }

  /** A new order applied, with positions called if the asset it sells has any that can be. */
  ghost function AppliedWith(b: Books, id: OrderId, calling: Option<Calling>): Option<(Books, bool)>
    requires BookBut(b.limitOrders, id) && id in b.limitOrders && Sensible(calling)
  {
    BookButIsValid(b.limitOrders, id);
    if calling.None? then Applied(b, id)
    else if Behind(b.limitOrders, id) then Some((b, false))
    else
      var worked :- WorkedWith(b, id, calling.value);
      Rested(worked, id)
  }

  /** Whatever positions are called, applying a new order restores the book invariant and keeps every total. */
  lemma AppliedWithKeepsBook(b: Books, id: OrderId, calling: Option<Calling>)
    requires BookBut(b.limitOrders, id) && id in b.limitOrders && Rests(b.limitOrders[id])
    requires Sensible(calling) && AppliedWith(b, id, calling).Some?
    ensures var (b', gone) := AppliedWith(b, id, calling).value;
            BookOk(b'.limitOrders) && SameTotals(b, b') && (gone <==> id !in b'.limitOrders)
  {
    BookButIsValid(b.limitOrders, id);
    if calling.None? {
      AppliedKeepsBook(b, id);
    } else if Behind(b.limitOrders, id) {
      BehindCrossesNothing(b.limitOrders, id);
    } else {
      WorkedWithOutcome(b, id, calling.value);
      RestedKeepsBook(b, WorkedWith(b, id, calling.value).value, id);
    }
  }

  lemma RestedKeepsBook(b: Books, worked: Books, id: OrderId)
    requires BookBut(worked.limitOrders, id) && SameTotals(b, worked) && Rested(worked, id).Some?
    requires id in worked.limitOrders ==> worked.limitOrders[id].Dust() || Crossing(worked.limitOrders, id) == {}
    ensures var (b', gone) := Rested(worked, id).value;
            BookOk(b'.limitOrders) && SameTotals(b, b') && (gone <==> id !in b'.limitOrders)
  {
    if id in worked.limitOrders {
      CullConserves(worked, id);
      SameTotalsTransitive(b, worked, worked.MaybeCull(id).value);
      CulledKeepsBook(worked, id);
    } else {
      assert worked.limitOrders - {id} == worked.limitOrders;
    }
  }

  // --- Price priority -----------------------------------------------------------------------------

  /** The first loop is the beginning of matching limit orders alone. */
  lemma {:induction false} AboveThenWorked(b: Books, id: OrderId, price: Price)
    requires BookBut(b.limitOrders, id) && id in b.limitOrders && price.Valid()
    ensures var above := WorkedAbove(b, id, price);
            if above.None? then Worked(b, id).None?
            else BookBut(above.value.0.limitOrders, id)
                 && Worked(b, id) == if above.value.1 then Some(above.value.0) else Worked(above.value.0, id)
    decreases |b.limitOrders.Keys|
  {
    if Crossing(b.limitOrders, id) != {} {
      BookButIsValid(b.limitOrders, id);
      var maker := First(b.limitOrders, Crossing(b.limitOrders, id));
      CrossingIsMatchable(b.limitOrders, id, maker);
      if Less(price, b.limitOrders[maker].sellPrice) && b.Match(id, maker).Some? {
        MatchGoes(b, id, maker);
        if b.Match(id, maker).value.1 == 2 {
          AboveThenWorked(b.Match(id, maker).value.0, id, price);
        }
      }
    }
  }

  /** When no position is called, the three loops come to the one over limit orders. */
  lemma NoneCalled(b: Books, id: OrderId, calling: Calling)
    requires BookBut(b.limitOrders, id) && id in b.limitOrders && CoversDebt(calling)
    requires forall x :: calling.next(x).None?
    ensures WorkedWith(b, id, calling) == Worked(b, id)
    ensures AppliedWith(b, id, Some(calling)) == Applied(b, id)
  {
    if Callable(b.limitOrders[id], calling.price) {
      AboveThenWorked(b, id, calling.price);
      if WorkedAbove(b, id, calling.price).Some? {
        AboveOutcome(b, id, calling.price);
      }
    }
  }
}

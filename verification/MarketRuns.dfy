/**
 Whole runs of the market: orders are created, cancelled and filled, positions change and
 are called, settle orders come and go. An operation that throws leaves the books as they were.
 */
module MarketRuns {
  import opened Amounts
  import opened CalledOrders
  import opened Conservation
  import opened Ledgers
  import opened LimitOrders
  import opened Options
  import opened OrderBooks
  import opened Positions
  import opened Prices
  import opened SettleMatching

  // --- Creating a limit order -------------------------------------------------------------------

  /** An offer to sell one asset for another; the fee is worth `coreFee` in CORE. */
  datatype Offer = Offer(seller: AccountId, sell: Asset, receive: Asset, fee: Asset, coreFee: nat, fillOrKill: bool) {

    /** No account can own more than the maximum share supply. */
    predicate Valid() {
      && sell.id != receive.id && 0 < sell.amount <= MAX_SHARE_SUPPLY && 0 < receive.amount
      && (fee.id == CORE ==> coreFee == fee.amount)
    }

    /** The fee is deferred: it stays with the order until it is filled or cancelled. */
    function Order(): LimitOrder {
      LimitOrder(seller, sell.amount, Price(sell, receive), coreFee, if fee.id == CORE then Asset(0, CORE) else fee)
    }
  }

  /** The order is in the book and paid for, except for its fee. */
  function Placed(b: Books, id: OrderId, o: Offer): Option<Books> {
    if o.fee.id != CORE && o.coreFee > Of(b.accounts, FeePool(o.fee.id)) then None
    else
      var pool := if o.fee.id == CORE then b.accounts else Add(b.accounts, FeePool(o.fee.id), -(o.coreFee as int));
      var m :- Adjust(Earmark(pool, o.seller, o.sell.id, o.sell.amount), o.seller, o.sell.id, -(o.sell.amount as int));
      Some(b.(accounts := m, limitOrders := b.limitOrders[id := o.Order()]))
  }

  lemma PlacedBook(b: Books, id: OrderId, o: Offer)
    requires BookOk(b.limitOrders) && id !in b.limitOrders && o.Valid() && Placed(b, id, o).Some?
    ensures var orders := Placed(b, id, o).value.limitOrders;
            BookBut(orders, id) && id in orders && Rests(orders[id])
  {
    var orders := Placed(b, id, o).value.limitOrders;
    assert orders - {id} == b.limitOrders;
    DownIsLargest(o.sell.amount, o.receive.amount, o.sell.amount, 1);
    MulMono(1, o.receive.amount, o.sell.amount);
  }

  /** What the books hold now includes the fee, which the seller has not paid yet. */
  lemma PlacedTotals(b: Books, id: OrderId, o: Offer)
    requires id !in b.limitOrders && o.Valid() && Placed(b, id, o).Some?
    ensures forall a :: Surplus(Placed(b, id, o).value, a) == Surplus(b, a) + Part(o.fee, a)
    ensures forall who :: Untracked(Placed(b, id, o).value, who) == Untracked(b, who)
  {
    var b' := Placed(b, id, o).value;
    forall a ensures Surplus(b', a) == Surplus(b, a) + Part(o.fee, a) {
      PlacedHeld(b, id, o, a);
      Sums.SumUpdate(b.limitOrders, id, o.Order(), OrderIn(a));
    }
    forall who ensures Untracked(b', who) == Untracked(b, who) {
      PlacedStatistic(b, id, o, who);
      Sums.SumUpdate(b.limitOrders, id, o.Order(), CoreSoldBy(who));
    }
  }

  lemma PlacedHeld(b: Books, id: OrderId, o: Offer, a: AssetId)
    requires Placed(b, id, o).Some?
    ensures Held(Placed(b, id, o).value.accounts, a)
            == Held(b.accounts, a) - Part(o.sell, a) - (if o.fee.id != CORE then Part(Asset(o.coreFee, CORE), a) else 0)
  {
    var m := b.accounts;
    var m1 := if o.fee.id == CORE then m else Add(m, FeePool(o.fee.id), -(o.coreFee as int));
    var m2 := Earmark(m1, o.seller, o.sell.id, o.sell.amount);
    AddHeld(m, FeePool(o.fee.id), -(o.coreFee as int), a);
    AddHeld(m1, CoreInOrders(o.seller), o.sell.amount, a);
    AddHeld(m2, Balance(o.seller, o.sell.id), -(o.sell.amount as int), a);
  }

  lemma PlacedStatistic(b: Books, id: OrderId, o: Offer, who: AccountId)
    requires Placed(b, id, o).Some?
    ensures Of(Placed(b, id, o).value.accounts, CoreInOrders(who))
            == Of(b.accounts, CoreInOrders(who)) + (if who == o.seller then Part(o.sell, CORE) else 0)
  {
    var m := b.accounts;
    var m1 := if o.fee.id == CORE then m else Add(m, FeePool(o.fee.id), -(o.coreFee as int));
    assert Of(m1, CoreInOrders(who)) == Of(m, CoreInOrders(who));
  }

  /** The seller pays the fee last, out of what the matching may have brought in. */
  function FeePaid(worked: Books, o: Offer, gone: bool): Option<(Books, bool)> {
    if o.fillOrKill && !gone then None
    else
      var m :- Adjust(worked.accounts, o.seller, o.fee.id, -(o.fee.amount as int));
      Some((worked.(accounts := m), gone))
  }

  /** A new order, with the positions that are called while it is worked in. */
  ghost function Created(b: Books, id: OrderId, o: Offer, calling: Option<Calling>): Option<(Books, bool)>
    requires BookOk(b.limitOrders) && id !in b.limitOrders && Sensible(calling)
  {
    if !o.Valid() then None
    else
      var placed :- Placed(b, id, o);
      PlacedBook(b, id, o);
      var r :- AppliedWith(placed, id, calling);
      FeePaid(r.0, o, r.1)
  }

  /** A created order keeps the book and all totals; one to fill or kill is gone when it succeeds. */
  lemma CreatedKeeps(b: Books, id: OrderId, o: Offer, calling: Option<Calling>)
    requires BookOk(b.limitOrders) && id !in b.limitOrders && Sensible(calling) && Created(b, id, o, calling).Some?
    ensures var (b', gone) := Created(b, id, o, calling).value;
            && BookOk(b'.limitOrders) && SameTotals(b, b')
            && (gone <==> id !in b'.limitOrders) && (o.fillOrKill ==> gone)
  {
    var placed := Placed(b, id, o).value;
    PlacedBook(b, id, o);
    AppliedWithKeepsBook(placed, id, calling);
    FeePaidKeeps(b, placed, AppliedWith(placed, id, calling).value, id, o);
  }

  lemma FeePaidKeeps(b: Books, placed: Books, r: (Books, bool), id: OrderId, o: Offer)
    requires id !in b.limitOrders && o.Valid() && Placed(b, id, o) == Some(placed)
    requires BookOk(r.0.limitOrders) && SameTotals(placed, r.0) && (r.1 <==> id !in r.0.limitOrders)
    ensures FeePaid(r.0, o, r.1).Some? ==>
              var (b', gone) := FeePaid(r.0, o, r.1).value;
              && BookOk(b'.limitOrders) && SameTotals(b, b')
              && (gone <==> id !in b'.limitOrders) && (o.fillOrKill ==> gone)
  {
    FeeBalances(b, placed, r.0, id, o);
  }

  /** The fee, still missing while the order is worked in, is made up for at the end. */
  lemma FeeBalances(b: Books, placed: Books, worked: Books, id: OrderId, o: Offer)
    requires id !in b.limitOrders && o.Valid() && Placed(b, id, o) == Some(placed) && SameTotals(placed, worked)
    ensures SameTotals(b, worked.(accounts := Add(worked.accounts, Balance(o.seller, o.fee.id), -(o.fee.amount as int))))
  {
    PlacedTotals(b, id, o);
    var b' := worked.(accounts := Add(worked.accounts, Balance(o.seller, o.fee.id), -(o.fee.amount as int)));
    forall a ensures Surplus(b', a) == Surplus(b, a) {
      assert Surplus(placed, a) == Surplus(b, a) + Part(o.fee, a);
      assert Surplus(worked, a) == Surplus(placed, a);
      AddHeld(worked.accounts, Balance(o.seller, o.fee.id), -(o.fee.amount as int), a);
    }
    forall who ensures Untracked(b', who) == Untracked(b, who) {
      assert Untracked(placed, who) == Untracked(b, who);
      assert Untracked(worked, who) == Untracked(placed, who);
    }
  }

  // --- Runs ---------------------------------------------------------------------------------------

  datatype Step =
    | CreateOrder(id: OrderId, offer: Offer, calling: Option<Calling>)
    | CancelOrder(id: OrderId)
    | ExpireOrder(id: OrderId)
    | UpdatePosition(c: CallId, deltaDebt: int, deltaCollateral: int)
    | CallPosition(id: OrderId, c: CallId, pays: Asset, receives: Asset)
    | RequestSettlement(s: nat, who: AccountId, amount: Asset, date: nat)
    | CancelSettlement(s: nat)
    | Settle(c: CallId, s: nat, max: nat, price: Price)
    | PayFee(payer: AccountId, fee: Asset, coreFee: nat)

  /** One operation, or None when one of its assertions throws. */
  ghost function Attempt(b: Books, step: Step): Option<Books>
    requires BookOk(b.limitOrders)
  {
    match step
    case CreateOrder(id, offer, calling) =>
      if id in b.limitOrders || !Sensible(calling) then None
      else
        var r :- Created(b, id, offer, calling);
        Some(r.0)
    case CancelOrder(id) => if id in b.limitOrders then Some(b.Cancel(id, 0)) else None
    case ExpireOrder(id) => if id in b.limitOrders then Some(b.Cancel(id, b.rules.cancelFee)) else None
    case UpdatePosition(c, deltaDebt, deltaCollateral) => b.UpdateCall(c, deltaDebt, deltaCollateral)
    case CallPosition(id, c, pays, receives) =>
      if CanCall(b, id, c, pays, receives) then
        var r :- b.MatchCallFor(id, c, pays, receives, true);
        Some(r.0)
      else None
    case RequestSettlement(s, who, amount, date) =>
      if s in b.settles then None else b.RequestSettle(s, who, amount, date)
    case CancelSettlement(s) => if s in b.settles then Some(b.CancelSettle(s)) else None
    case Settle(c, s, max, price) =>
      if CanSettle(b, c, s, price) then b.MatchSettle(c, s, max, price) else None
    case PayFee(payer, fee, coreFee) => b.ChargeFee(payer, fee, coreFee)
  }

  /** A margin call fills a position against a limit order that sells its debt for its collateral. */
  predicate CanCall(b: Books, id: OrderId, c: CallId, pays: Asset, receives: Asset) {
    && id in b.limitOrders && c in b.calls
    && pays.amount <= b.limitOrders[id].forSale && pays.amount <= b.calls[c].debt
    && pays.id == b.limitOrders[id].sellPrice.base.id == c.1 && receives.id == b.rules.CollateralAsset(c.1)
  }

  predicate CanSettle(b: Books, c: CallId, s: nat, price: Price) {
    && c in b.calls && s in b.settles && price.Valid()
    && b.settles[s].asset == c.1 && b.settles[s].balance <= MAX_SHARE_SUPPLY
  }

  lemma AttemptKeeps(b: Books, step: Step)
    requires BookOk(b.limitOrders) && Attempt(b, step).Some?
    ensures BookOk(Attempt(b, step).value.limitOrders) && SameTotals(b, Attempt(b, step).value)
  {
    match step
    case CreateOrder(id, offer, calling) => CreatedKeeps(b, id, offer, calling);
    case CancelOrder(id) => CancelConserves(b, id, 0);
    case ExpireOrder(id) => CancelConserves(b, id, b.rules.cancelFee);
    case UpdatePosition(c, deltaDebt, deltaCollateral) => UpdateCallConserves(b, c, deltaDebt, deltaCollateral);
    case CallPosition(id, c, pays, receives) =>
      MatchCallConserves(b, id, c, pays, receives, true);
      CallKeepsBook(b, id, c, pays, receives);
    case RequestSettlement(s, who, amount, date) => RequestSettleConserves(b, s, who, amount, date);
    case CancelSettlement(s) => CancelSettleConserves(b, s);
    case Settle(c, s, max, price) =>
      MatchSettleConserves(b, c, s, max, price);
      SettleKeepsOrders(b, c, s, max, price);
    case PayFee(payer, fee, coreFee) => ChargeFeeConserves(b, payer, fee, coreFee);
  }

  lemma CallKeepsBook(b: Books, id: OrderId, c: CallId, pays: Asset, receives: Asset)
    requires BookOk(b.limitOrders) && CanCall(b, id, c, pays, receives)
    requires b.MatchCallFor(id, c, pays, receives, true).Some?
    ensures BookOk(b.MatchCallFor(id, c, pays, receives, true).value.0.limitOrders)
  {
    FillOutcome(b, id, pays, receives, true);
    var filled := b.Fill(id, pays, receives, true).value;
    assert filled.FillCall(c, receives.amount, pays.amount).value.limitOrders == filled.limitOrders;
    AfterKeepsBook(b.limitOrders, id, pays.amount);
  }

  lemma AfterKeepsBook(orders: Orders, id: OrderId, pays: nat)
    requires BookOk(orders) && id in orders && pays <= orders[id].forSale
    ensures BookOk(OrderBooks.After(orders, id, pays, true))
  {
  }

  lemma SettleKeepsOrders(b: Books, c: CallId, s: nat, max: nat, price: Price)
    requires CanSettle(b, c, s, price) && b.MatchSettle(c, s, max, price).Some?
    ensures b.MatchSettle(c, s, max, price).value.limitOrders == b.limitOrders
  {
  }

  /** A step that throws is undone. */
  ghost function Next(b: Books, step: Step): (b': Books)
    requires BookOk(b.limitOrders)
    ensures BookOk(b'.limitOrders) && SameTotals(b, b')
  {
    if Attempt(b, step).None? then b
    else
      AttemptKeeps(b, step);
      Attempt(b, step).value
  }

  ghost function Run(b: Books, steps: seq<Step>): Books
    requires BookOk(b.limitOrders)
    decreases |steps|
  {
    if steps == [] then b else Run(Next(b, steps[0]), steps[1..])
  }

  /**
   Over every run the book never crosses, every resting order asks for something, no asset
   is created or lost, and the CORE-in-orders statistics stay exact.
   */
  lemma {:induction false} RunKeeps(b: Books, steps: seq<Step>)
    requires BookOk(b.limitOrders)
    ensures BookOk(Run(b, steps).limitOrders) && SameTotals(b, Run(b, steps))
    decreases |steps|
  {
    if steps != [] {
      RunKeeps(Next(b, steps[0]), steps[1..]);
      SameTotalsTransitive(b, Next(b, steps[0]), Run(b, steps));
    }
  }
}

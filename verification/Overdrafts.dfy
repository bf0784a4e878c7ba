/** No balance, fee account or fee pool is ever overdrawn, over any run of the market. */
module Overdrafts {
  import opened Amounts
  import opened CalledOrders
  import opened Conservation
  import opened Ledgers
  import opened LimitOrders
  import opened MarketRuns
  import opened Options
  import opened OrderBooks
  import opened Positions
  import opened Prices
  import opened SettleMatching

  predicate MayNotSink(e: Entry) {
    e.Balance? || e.PendingFees? || e.AccumulatedFees? || e.FeePool?
  }

  ghost predicate NoOverdraft(m: Accounts) {
    forall e :: e in m && MayNotSink(e) ==> m[e] >= 0
  }

  ghost predicate RulesOk(r: Rules) {
    forall a :: a in r.marketFees ==> r.marketFees[a].Valid()
  }

  lemma FeeWithin(r: Rules, x: Asset)
    requires RulesOk(r)
    ensures r.FeeOn(x) <= x.amount
  {
    if x.id in r.marketFees {
      r.marketFees[x.id].WithinAmount(x.amount);
    }
  }

  lemma AddNoOverdraft(m: Accounts, e: Entry, d: int)
    requires NoOverdraft(m) && (MayNotSink(e) ==> Of(m, e) + d >= 0)
    ensures NoOverdraft(Add(m, e, d))
  {
  }

  lemma Gains(m: Accounts, e: Entry, d: int)
    requires NoOverdraft(m) && d >= 0
    ensures NoOverdraft(Add(m, e, d))
  {
    AddNoOverdraft(m, e, d);
  }

  lemma FeesKeptNoOverdraft(m: Accounts, o: LimitOrder, fee: nat, part: nat)
    requires NoOverdraft(m)
    ensures NoOverdraft(FeesKept(m, o, fee, part))
  {
    Gains(m, PendingFees(o.seller), fee);
    Gains(Add(m, PendingFees(o.seller), fee), AccumulatedFees(o.deferredPaidFee.id), part);
  }

  lemma FundsReturnedNoOverdraft(m: Accounts, o: LimitOrder)
    requires NoOverdraft(m)
    ensures NoOverdraft(FundsReturned(m, o))
  {
    AddNoOverdraft(m, CoreInOrders(o.seller), -(o.forSale as int));
    Gains(Earmark(m, o.seller, o.sellPrice.base.id, -(o.forSale as int)), Balance(o.seller, o.sellPrice.base.id), o.forSale);
  }

  lemma FeeReturnedNoOverdraft(m: Accounts, o: LimitOrder, fee: nat, part: nat)
    requires NoOverdraft(m) && fee <= o.deferredFee && part <= o.deferredPaidFee.amount
    ensures NoOverdraft(FeeReturned(m, o, fee, part))
  {
    if o.deferredPaidFee.amount == 0 {
      Gains(m, Balance(o.seller, CORE), o.deferredFee - fee);
    } else {
      var m1 := Add(m, Balance(o.seller, o.deferredPaidFee.id), o.deferredPaidFee.amount - part);
      Gains(m, Balance(o.seller, o.deferredPaidFee.id), o.deferredPaidFee.amount - part);
      Gains(m1, FeePool(o.deferredPaidFee.id), o.deferredFee - fee);
    }
  }

  lemma RefundedNoOverdraft(m: Accounts, o: LimitOrder, scheduled: nat)
    requires NoOverdraft(m)
    ensures NoOverdraft(Refunded(m, o, scheduled))
  {
    var fee := CancelFee(o, scheduled);
    var part := PaidPart(o, fee);
    PaidPartWithin(o, fee);
    FeesKeptNoOverdraft(m, o, fee, part);
    FundsReturnedNoOverdraft(FeesKept(m, o, fee, part), o);
    FeeReturnedNoOverdraft(FundsReturned(FeesKept(m, o, fee, part), o), o, fee, part);
  }

  lemma PaidOutNoOverdraft(m: Accounts, o: LimitOrder, pays: Asset, receives: Asset, marketFee: nat)
    requires NoOverdraft(m) && marketFee <= receives.amount
    ensures NoOverdraft(PaidOut(m, o, pays, receives, marketFee))
  {
    var m1 := Add(m, AccumulatedFees(receives.id), marketFee);
    Gains(m, AccumulatedFees(receives.id), marketFee);
    AddNoOverdraft(m1, CoreInOrders(o.seller), -(pays.amount as int));
    Gains(Earmark(m1, o.seller, pays.id, -(pays.amount as int)), Balance(o.seller, receives.id), receives.amount - marketFee);
    FeesKeptNoOverdraft(Traded(m, o.seller, pays, receives, marketFee), o, o.deferredFee, o.deferredPaidFee.amount);
  }

  lemma FillNoOverdraft(b: Books, id: OrderId, pays: Asset, receives: Asset, cull: bool)
    requires NoOverdraft(b.accounts) && RulesOk(b.rules)
    requires id in b.limitOrders && pays.amount <= b.limitOrders[id].forSale && b.Fill(id, pays, receives, cull).Some?
    ensures NoOverdraft(b.Fill(id, pays, receives, cull).value.accounts)
    ensures b.Fill(id, pays, receives, cull).value.rules == b.rules
  {
    var o := b.limitOrders[id];
    FeeWithin(b.rules, receives);
    PaidOutNoOverdraft(b.accounts, o, pays, receives, b.rules.FeeOn(receives));
    RefundedNoOverdraft(PaidOut(b.accounts, o, pays, receives, b.rules.FeeOn(receives)), Remaining(o, pays.amount), b.rules.cancelFee);
  }

  lemma MatchNoOverdraft(b: Books, taker: OrderId, maker: OrderId)
    requires NoOverdraft(b.accounts) && RulesOk(b.rules)
    requires taker in b.limitOrders && maker in b.limitOrders && taker != maker
    requires Matchable(b.limitOrders[taker], b.limitOrders[maker]) && b.Match(taker, maker).Some?
    ensures NoOverdraft(b.Match(taker, maker).value.0.accounts) && b.Match(taker, maker).value.0.rules == b.rules
  {
    MatchIs(b.limitOrders[taker], b.limitOrders[maker]);
    var t := LimitOrders.MatchAmounts(b.limitOrders[taker], b.limitOrders[maker]).value;
    if t.Trade? {
      b.FillLeavesOthers(taker, t.pays, t.receives, t.cullTaker);
      assert b.limitOrders[maker] == (b.limitOrders - {taker})[maker];
      FillNoOverdraft(b, taker, t.pays, t.receives, t.cullTaker);
      FillNoOverdraft(b.Fill(taker, t.pays, t.receives, t.cullTaker).value, maker, t.receives, t.pays, true);
    }
  }

  lemma {:induction false} WorkedNoOverdraft(b: Books, id: OrderId)
    requires NoOverdraft(b.accounts) && RulesOk(b.rules)
    requires BookBut(b.limitOrders, id) && Worked(b, id).Some?
    ensures NoOverdraft(Worked(b, id).value.accounts) && Worked(b, id).value.rules == b.rules
    decreases |b.limitOrders.Keys|
  {
    if id in b.limitOrders && Crossing(b.limitOrders, id) != {} {
      BookButIsValid(b.limitOrders, id);
      var maker := First(b.limitOrders, Crossing(b.limitOrders, id));
      CrossingIsMatchable(b.limitOrders, id, maker);
      MatchKeepsBook(b, id, maker);
      MatchNoOverdraft(b, id, maker);
      var r := b.Match(id, maker).value;
      if r.1 == 2 {
        WorkedNoOverdraft(r.0, id);
      }
    }
  }

  lemma AppliedNoOverdraft(b: Books, id: OrderId)
    requires NoOverdraft(b.accounts) && RulesOk(b.rules)
    requires BookBut(b.limitOrders, id) && id in b.limitOrders && Applied(b, id).Some?
    ensures NoOverdraft(Applied(b, id).value.0.accounts) && Applied(b, id).value.0.rules == b.rules
  {
    BookButIsValid(b.limitOrders, id);
    if !Behind(b.limitOrders, id) {
      WorkedNoOverdraft(b, id);
      var worked := Worked(b, id).value;
      if id in worked.limitOrders {
        RefundedNoOverdraft(worked.accounts, worked.limitOrders[id], b.rules.cancelFee);
      }
    }
  }

  lemma PlacedNoOverdraft(b: Books, id: OrderId, o: Offer)
    requires NoOverdraft(b.accounts) && Placed(b, id, o).Some?
    ensures NoOverdraft(Placed(b, id, o).value.accounts) && Placed(b, id, o).value.rules == b.rules
  {
    var m := b.accounts;
    var m1 := if o.fee.id == CORE then m else Add(m, FeePool(o.fee.id), -(o.coreFee as int));
    if o.fee.id != CORE {
      AddNoOverdraft(m, FeePool(o.fee.id), -(o.coreFee as int));
    }
    var m2 := Earmark(m1, o.seller, o.sell.id, o.sell.amount);
    Gains(m1, CoreInOrders(o.seller), o.sell.amount);
    AddNoOverdraft(m2, Balance(o.seller, o.sell.id), -(o.sell.amount as int));
  }

  lemma FeePaidNoOverdraft(r: (Books, bool), o: Offer)
    requires NoOverdraft(r.0.accounts) && FeePaid(r.0, o, r.1).Some?
    ensures NoOverdraft(FeePaid(r.0, o, r.1).value.0.accounts) && FeePaid(r.0, o, r.1).value.0.rules == r.0.rules
  {
    AddNoOverdraft(r.0.accounts, Balance(o.seller, o.fee.id), -(o.fee.amount as int));
  }

  lemma FillCallNoOverdraft(b: Books, c: CallId, pays: nat, receives: nat)
    requires NoOverdraft(b.accounts)
    requires c in b.calls && receives <= b.calls[c].debt && b.FillCall(c, pays, receives).Some?
    ensures NoOverdraft(b.FillCall(c, pays, receives).value.accounts) && b.FillCall(c, pays, receives).value.rules == b.rules
  {
    var asset := b.rules.CollateralAsset(c.1);
    var freed: nat := if receives == b.calls[c].debt then b.calls[c].collateral - pays else 0;
    var m1 := Add(b.accounts, Supply(c.1), -(receives as int));
    AddNoOverdraft(b.accounts, Supply(c.1), -(receives as int));
    Gains(m1, Balance(c.0, asset), freed);
    AddNoOverdraft(Add(m1, Balance(c.0, asset), freed), CoreInOrders(c.0), -(pays as int) - freed);
  }

  lemma CallNoOverdraft(b: Books, id: OrderId, c: CallId, toCover: nat, price: Price)
    requires NoOverdraft(b.accounts) && RulesOk(b.rules)
    requires BookBut(b.limitOrders, id) && id in b.limitOrders && Callable(b.limitOrders[id], price)
    requires Faces(b, c, price) && 0 < toCover <= b.calls[c].debt && b.MatchCall(id, c, toCover, price).Some?
    ensures var b' := b.MatchCall(id, c, toCover, price).value.0;
            NoOverdraft(b'.accounts) && b'.rules == b.rules
  {
    var o := b.limitOrders[id];
    if toCover > o.forSale {
      SoldOutIsDust(o, price);
      var receives := Times(o.ToSell(), price).value;
      if receives.amount > 0 {
        CallForNoOverdraft(b, id, c, TimesUp(receives, price).value, receives, true);
      }
    } else {
      var pays := Asset(toCover, price.quote.id);
      CallForNoOverdraft(b, id, c, pays, TimesUp(pays, price).value, false);
    }
  }

  lemma CallForNoOverdraft(b: Books, id: OrderId, c: CallId, pays: Asset, receives: Asset, cull: bool)
    requires NoOverdraft(b.accounts) && RulesOk(b.rules) && id in b.limitOrders && c in b.calls
    requires pays.amount <= b.limitOrders[id].forSale && pays.amount <= b.calls[c].debt
    requires b.MatchCallFor(id, c, pays, receives, cull).Some?
    ensures var b' := b.MatchCallFor(id, c, pays, receives, cull).value.0;
            NoOverdraft(b'.accounts) && b'.rules == b.rules
  {
    FillNoOverdraft(b, id, pays, receives, cull);
    FillCallNoOverdraft(b.Fill(id, pays, receives, cull).value, c, receives.amount, pays.amount);
  }

  lemma {:induction false} AboveNoOverdraft(b: Books, id: OrderId, price: Price)
    requires NoOverdraft(b.accounts) && RulesOk(b.rules)
    requires BookBut(b.limitOrders, id) && WorkedAbove(b, id, price).Some?
    ensures var b' := WorkedAbove(b, id, price).value.0;
            NoOverdraft(b'.accounts) && b'.rules == b.rules
    decreases |b.limitOrders.Keys|
  {
    if id in b.limitOrders && Crossing(b.limitOrders, id) != {} {
      BookButIsValid(b.limitOrders, id);
      var maker := First(b.limitOrders, Crossing(b.limitOrders, id));
      CrossingIsMatchable(b.limitOrders, id, maker);
      if Less(price, b.limitOrders[maker].sellPrice) {
        MatchKeepsBook(b, id, maker);
        MatchNoOverdraft(b, id, maker);
        if b.Match(id, maker).value.1 == 2 {
          AboveNoOverdraft(b.Match(id, maker).value.0, id, price);
        }
      }
    }
  }

  lemma {:induction false} CalledNoOverdraft(b: Books, id: OrderId, calling: Calling)
    requires NoOverdraft(b.accounts) && RulesOk(b.rules)
    requires BookBut(b.limitOrders, id) && id in b.limitOrders && Callable(b.limitOrders[id], calling.price)
    requires CoversDebt(calling) && Called(b, id, calling).Some?
    ensures var b' := Called(b, id, calling).value.0;
            NoOverdraft(b'.accounts) && b'.rules == b.rules
    decreases b.limitOrders[id].forSale
  {
    var c := calling.next(b);
    if c.Some? && Faces(b, c.value, calling.price) {
      var toCover := calling.cover(b.calls[c.value]).value;
      CallOutcome(b, id, c.value, toCover, calling.price);
      CallNoOverdraft(b, id, c.value, toCover, calling.price);
      var r := b.MatchCall(id, c.value, toCover, calling.price).value;
      if r.1 % 2 == 0 {
        CalledNoOverdraft(r.0, id, calling);
      }
    }
  }

  lemma WorkedWithNoOverdraft(b: Books, id: OrderId, calling: Calling)
    requires NoOverdraft(b.accounts) && RulesOk(b.rules)
    requires BookBut(b.limitOrders, id) && id in b.limitOrders && CoversDebt(calling) && WorkedWith(b, id, calling).Some?
    ensures var b' := WorkedWith(b, id, calling).value;
            NoOverdraft(b'.accounts) && b'.rules == b.rules
  {
    if !Callable(b.limitOrders[id], calling.price) {
      WorkedNoOverdraft(b, id);
    } else {
      AboveOutcome(b, id, calling.price);
      AboveNoOverdraft(b, id, calling.price);
      var (above, finished) := WorkedAbove(b, id, calling.price).value;
      if !finished {
        CalledOutcome(above, id, calling);
        CalledNoOverdraft(above, id, calling);
        var (called, sold) := Called(above, id, calling).value;
        if !sold {
          WorkedNoOverdraft(called, id);
        }
      }
    }
  }

  /** Working in an order overdraws nothing, whatever positions are called. */
  lemma AppliedWithNoOverdraft(b: Books, id: OrderId, calling: Option<Calling>)
    requires NoOverdraft(b.accounts) && RulesOk(b.rules)
    requires BookBut(b.limitOrders, id) && id in b.limitOrders && Sensible(calling) && AppliedWith(b, id, calling).Some?
    ensures var b' := AppliedWith(b, id, calling).value.0;
            NoOverdraft(b'.accounts) && b'.rules == b.rules
  {
    BookButIsValid(b.limitOrders, id);
    if calling.None? {
      AppliedNoOverdraft(b, id);
    } else if !Behind(b.limitOrders, id) {
      WorkedWithNoOverdraft(b, id, calling.value);
      var worked := WorkedWith(b, id, calling.value).value;
      if id in worked.limitOrders {
        RefundedNoOverdraft(worked.accounts, worked.limitOrders[id], worked.rules.cancelFee);
      }
    }
  }

  lemma CreatedNoOverdraft(b: Books, id: OrderId, o: Offer, calling: Option<Calling>)
    requires NoOverdraft(b.accounts) && RulesOk(b.rules)
    requires BookOk(b.limitOrders) && id !in b.limitOrders && Sensible(calling) && Created(b, id, o, calling).Some?
    ensures var b' := Created(b, id, o, calling).value.0;
            NoOverdraft(b'.accounts) && b'.rules == b.rules
  {
    var placed := Placed(b, id, o).value;
    PlacedBook(b, id, o);
    PlacedNoOverdraft(b, id, o);
    AppliedWithNoOverdraft(placed, id, calling);
    FeePaidNoOverdraft(AppliedWith(placed, id, calling).value, o);
  }

  lemma SettlePaidNoOverdraft(m: Accounts, who: AccountId, receives: Asset, marketFee: nat)
    requires NoOverdraft(m) && marketFee <= receives.amount
    ensures NoOverdraft(SettlePaid(m, who, receives, marketFee))
  {
    Gains(m, AccumulatedFees(receives.id), marketFee);
    Gains(Add(m, AccumulatedFees(receives.id), marketFee), Balance(who, receives.id), receives.amount - marketFee);
  }

  lemma BorrowedNoOverdraft(m: Accounts, who: AccountId, debtAsset: AssetId, asset: AssetId, deltaDebt: int, deltaCollateral: int)
    requires NoOverdraft(m) && Borrowed(m, who, debtAsset, asset, deltaDebt, deltaCollateral).Some?
    ensures NoOverdraft(Borrowed(m, who, debtAsset, asset, deltaDebt, deltaCollateral).value)
  {
    var m1 := Add(m, Balance(who, debtAsset), deltaDebt);
    AddNoOverdraft(m, Balance(who, debtAsset), deltaDebt);
    var m2 := Add(m1, Supply(debtAsset), deltaDebt);
    AddNoOverdraft(m1, Supply(debtAsset), deltaDebt);
    AddNoOverdraft(m2, Balance(who, asset), -deltaCollateral);
    AddNoOverdraft(Add(m2, Balance(who, asset), -deltaCollateral), CoreInOrders(who), deltaCollateral);
  }

  lemma FeeChargedNoOverdraft(m: Accounts, payer: AccountId, fee: Asset, coreFee: nat)
    requires NoOverdraft(m) && FeeCharged(m, payer, fee, coreFee).Some?
    ensures NoOverdraft(FeeCharged(m, payer, fee, coreFee).value)
  {
    var m1 := Add(m, Balance(payer, fee.id), -(fee.amount as int));
    AddNoOverdraft(m, Balance(payer, fee.id), -(fee.amount as int));
    Gains(m1, PendingFees(payer), coreFee);
    var m2 := Add(m1, AccumulatedFees(fee.id), fee.amount);
    Gains(m1, AccumulatedFees(fee.id), fee.amount);
    if fee.id != CORE {
      assert Of(m2, FeePool(fee.id)) == Of(m, FeePool(fee.id));
      AddNoOverdraft(m2, FeePool(fee.id), -(coreFee as int));
      Gains(Add(m2, FeePool(fee.id), -(coreFee as int)), PendingFees(payer), coreFee);
    }
  }

  lemma MatchSettleNoOverdraft(b: Books, c: CallId, s: nat, max: nat, price: Price)
    requires NoOverdraft(b.accounts) && RulesOk(b.rules)
    requires CanSettle(b, c, s, price) && b.MatchSettle(c, s, max, price).Some?
    ensures NoOverdraft(b.MatchSettle(c, s, max, price).value.accounts) && b.MatchSettle(c, s, max, price).value.rules == b.rules
  {
    var m := SettleMatching.MatchAmounts(b.calls[c], b.settles[s].balance, max, price).value;
    MatchWithinOffer(b.calls[c], b.settles[s].balance, max, price);
    var b1 := b.SettleFor(c, s, m.callPays, m.callReceives).value;
    if m.callReceives > 0 {
      FillCallNoOverdraft(b, c, m.callPays, m.callReceives);
      var filled := b.FillCall(c, m.callPays, m.callReceives).value;
      var paid := Asset(m.callPays, b.rules.CollateralAsset(c.1));
      FeeWithin(b.rules, paid);
      SettlePaidNoOverdraft(filled.accounts, b.settles[s].owner, paid, b.rules.FeeOn(paid));
    }
    if m.cull && s in b1.settles {
      Gains(b1.accounts, Balance(b1.settles[s].owner, b1.settles[s].asset), b1.settles[s].balance);
    }
  }

  lemma AttemptNoOverdraft(b: Books, step: Step)
    requires NoOverdraft(b.accounts) && RulesOk(b.rules)
    requires BookOk(b.limitOrders) && Attempt(b, step).Some?
    ensures NoOverdraft(Attempt(b, step).value.accounts) && Attempt(b, step).value.rules == b.rules
  {
    match step
    case CreateOrder(id, offer, calling) => CreatedNoOverdraft(b, id, offer, calling);
    case CancelOrder(id) => RefundedNoOverdraft(b.accounts, b.limitOrders[id], 0);
    case ExpireOrder(id) => RefundedNoOverdraft(b.accounts, b.limitOrders[id], b.rules.cancelFee);
    case UpdatePosition(c, deltaDebt, deltaCollateral) =>
      BorrowedNoOverdraft(b.accounts, c.0, c.1, b.rules.CollateralAsset(c.1), deltaDebt, deltaCollateral);
    case CallPosition(id, c, pays, receives) =>
      CallForNoOverdraft(b, id, c, pays, receives, true);
    case RequestSettlement(s, who, amount, date) =>
      AddNoOverdraft(b.accounts, Balance(who, amount.id), -(amount.amount as int));
    case CancelSettlement(s) =>
      Gains(b.accounts, Balance(b.settles[s].owner, b.settles[s].asset), b.settles[s].balance);
    case Settle(c, s, max, price) => MatchSettleNoOverdraft(b, c, s, max, price);
    case PayFee(payer, fee, coreFee) => FeeChargedNoOverdraft(b.accounts, payer, fee, coreFee);
  }

  /** Over every run nothing that is stored as owned by someone becomes negative. */
  lemma {:induction false} RunNeverOverdraws(b: Books, steps: seq<Step>)
    requires BookOk(b.limitOrders) && NoOverdraft(b.accounts) && RulesOk(b.rules)
    ensures NoOverdraft(Run(b, steps).accounts)
    decreases |steps|
  {
    if steps != [] {
      if Attempt(b, steps[0]).Some? {
        AttemptNoOverdraft(b, steps[0]);
      }
      RunNeverOverdraws(Next(b, steps[0]), steps[1..]);
    }
  }
}

/**
 What margin positions owe is issued supply: over any run of the market the supply of an
 asset changes by exactly as much as the debts in it.
 */
module Debts {
  import opened Amounts
  import opened CalledOrders
  import opened Conservation
  import opened Ledgers
  import opened LimitOrders
  import opened MarketRuns
  import opened Options
  import opened OrderBooks
  import opened Positions
  import opened Prices
  import opened SettleMatching
  import opened Sums

  function OwedIn(a: AssetId): (CallId, Position) -> int {
    (c: CallId, p: Position) => if c.1 == a then p.debt else 0
  }

  /** The supply of an asset that no position owes. */
  ghost function Unowed(b: Books, a: AssetId): int {
    Of(b.accounts, Supply(a)) - SumBy(b.calls, OwedIn(a))
  }

  ghost predicate SameUnowed(b: Books, b': Books) {
    forall a :: Unowed(b', a) == Unowed(b, a)
  }

  ghost predicate SameSupply(m: Accounts, m': Accounts) {
    forall a :: Of(m', Supply(a)) == Of(m, Supply(a))
  }

  /** Nothing is issued, burnt or owed by it. */
  ghost predicate LeavesDebts(b: Books, b': Books) {
    b'.calls == b.calls && SameSupply(b.accounts, b'.accounts)
  }

  // --- Steps on the accounts ------------------------------------------------------------------

  lemma RefundedSupply(m: Accounts, o: LimitOrder, scheduled: nat)
    ensures SameSupply(m, Refunded(m, o, scheduled))
  {
    var fee := CancelFee(o, scheduled);
    var part := PaidPart(o, fee);
    var m2 := FeesKept(m, o, fee, part);
    var m4 := FundsReturned(m2, o);
    PaidPartWithin(o, fee);
    assert SameSupply(m, m2);
    assert SameSupply(m2, m4);
    assert SameSupply(m4, FeeReturned(m4, o, fee, part));
  }

  lemma PaidOutSupply(m: Accounts, o: LimitOrder, pays: Asset, receives: Asset, marketFee: nat)
    ensures SameSupply(m, PaidOut(m, o, pays, receives, marketFee))
  {
    var m1 := Traded(m, o.seller, pays, receives, marketFee);
    assert SameSupply(m, m1);
    assert SameSupply(m1, FeesKept(m1, o, o.deferredFee, o.deferredPaidFee.amount));
  }

  lemma CoveredSupply(m: Accounts, debtAsset: AssetId, asset: AssetId, who: AccountId,
                      pays: nat, receives: nat, freed: nat, a: AssetId)
    ensures Of(Covered(m, debtAsset, asset, who, pays, receives, freed), Supply(a))
            == Of(m, Supply(a)) - (if a == debtAsset then receives else 0)
  {
    var m1 := Add(m, Supply(debtAsset), -(receives as int));
    assert SameSupply(m1, Add(m1, Balance(who, asset), freed));
  }

  lemma BorrowedSupply(m: Accounts, who: AccountId, debtAsset: AssetId, asset: AssetId,
                       deltaDebt: int, deltaCollateral: int, a: AssetId)
    requires Borrowed(m, who, debtAsset, asset, deltaDebt, deltaCollateral).Some?
    ensures Of(Borrowed(m, who, debtAsset, asset, deltaDebt, deltaCollateral).value, Supply(a))
            == Of(m, Supply(a)) + (if a == debtAsset then deltaDebt else 0)
  {
    var m1 := Add(m, Balance(who, debtAsset), deltaDebt);
    var m2 := Add(m1, Supply(debtAsset), deltaDebt);
    assert SameSupply(m, m1);
    assert SameSupply(m2, Add(m2, Balance(who, asset), -deltaCollateral));
  }

  lemma FeeChargedSupply(m: Accounts, payer: AccountId, fee: Asset, coreFee: nat)
    requires FeeCharged(m, payer, fee, coreFee).Some?
    ensures SameSupply(m, FeeCharged(m, payer, fee, coreFee).value)
  {
    var m1 := Add(m, Balance(payer, fee.id), -(fee.amount as int));
    assert SameSupply(m, m1);
    assert SameSupply(m1, Add(m1, PendingFees(payer), coreFee));
    var m2 := Add(m1, AccumulatedFees(fee.id), fee.amount);
    assert SameSupply(m1, m2);
    var m3 := Add(m2, FeePool(fee.id), -(coreFee as int));
    assert SameSupply(m2, m3);
    assert SameSupply(m3, Add(m3, PendingFees(payer), coreFee));
  }

  // --- Operations that leave all debts --------------------------------------------------------

  lemma FillLeavesDebts(b: Books, id: OrderId, pays: Asset, receives: Asset, cull: bool)
    requires id in b.limitOrders && pays.amount <= b.limitOrders[id].forSale && b.Fill(id, pays, receives, cull).Some?
    ensures LeavesDebts(b, b.Fill(id, pays, receives, cull).value)
  {
    var o := b.limitOrders[id];
    var paid := PaidOut(b.accounts, o, pays, receives, b.rules.FeeOn(receives));
    PaidOutSupply(b.accounts, o, pays, receives, b.rules.FeeOn(receives));
    RefundedSupply(paid, Remaining(o, pays.amount), b.rules.cancelFee);
  }

  lemma MatchLeavesDebts(b: Books, taker: OrderId, maker: OrderId)
    requires taker in b.limitOrders && maker in b.limitOrders && taker != maker
    requires Matchable(b.limitOrders[taker], b.limitOrders[maker]) && b.Match(taker, maker).Some?
    ensures LeavesDebts(b, b.Match(taker, maker).value.0)
  {
    MatchIs(b.limitOrders[taker], b.limitOrders[maker]);
    var t := LimitOrders.MatchAmounts(b.limitOrders[taker], b.limitOrders[maker]).value;
    if t.Trade? {
      b.FillLeavesOthers(taker, t.pays, t.receives, t.cullTaker);
      assert b.limitOrders[maker] == (b.limitOrders - {taker})[maker];
      FillLeavesDebts(b, taker, t.pays, t.receives, t.cullTaker);
      FillLeavesDebts(b.Fill(taker, t.pays, t.receives, t.cullTaker).value, maker, t.receives, t.pays, true);
    }
  }

  lemma {:induction false} WorkedLeavesDebts(b: Books, id: OrderId)
    requires BookBut(b.limitOrders, id) && Worked(b, id).Some?
    ensures LeavesDebts(b, Worked(b, id).value)
    decreases |b.limitOrders.Keys|
  {
    if id in b.limitOrders && Crossing(b.limitOrders, id) != {} {
      BookButIsValid(b.limitOrders, id);
      var maker := First(b.limitOrders, Crossing(b.limitOrders, id));
      CrossingIsMatchable(b.limitOrders, id, maker);
      MatchKeepsBook(b, id, maker);
      MatchLeavesDebts(b, id, maker);
      var r := b.Match(id, maker).value;
      if r.1 == 2 {
        WorkedLeavesDebts(r.0, id);
      }
    }
  }

  lemma AppliedLeavesDebts(b: Books, id: OrderId)
    requires BookBut(b.limitOrders, id) && id in b.limitOrders && Applied(b, id).Some?
    ensures LeavesDebts(b, Applied(b, id).value.0)
  {
    BookButIsValid(b.limitOrders, id);
    if !Behind(b.limitOrders, id) {
      WorkedLeavesDebts(b, id);
      var worked := Worked(b, id).value;
      if id in worked.limitOrders {
        RefundedSupply(worked.accounts, worked.limitOrders[id], b.rules.cancelFee);
        RefundedSupply(worked.accounts, worked.limitOrders[id], worked.rules.cancelFee);
      }
    }
  }

  lemma PlacedLeavesDebts(b: Books, id: OrderId, o: Offer)
    requires Placed(b, id, o).Some?
    ensures LeavesDebts(b, Placed(b, id, o).value)
  {
    var m1 := if o.fee.id == CORE then b.accounts else Add(b.accounts, FeePool(o.fee.id), -(o.coreFee as int));
    var m2 := Earmark(m1, o.seller, o.sell.id, o.sell.amount);
    assert SameSupply(b.accounts, m1);
    assert SameSupply(m1, m2);
    assert SameSupply(m2, Add(m2, Balance(o.seller, o.sell.id), -(o.sell.amount as int)));
  }

  // --- Operations on positions ----------------------------------------------------------------

  /** Collateral buys back what the position owed, and that much supply ceases to exist. */
  lemma FillCallKeepsUnowed(b: Books, c: CallId, pays: nat, receives: nat)
    requires c in b.calls && receives <= b.calls[c].debt && b.FillCall(c, pays, receives).Some?
    ensures SameUnowed(b, b.FillCall(c, pays, receives).value)
  {
    var b' := b.FillCall(c, pays, receives).value;
    var freed := if receives == b.calls[c].debt then b.calls[c].collateral - pays else 0;
    forall a ensures Unowed(b', a) == Unowed(b, a) {
      CoveredSupply(b.accounts, c.1, b.rules.CollateralAsset(c.1), c.0, pays, receives, freed, a);
      CallsAfterFill(b, c, pays, receives, OwedIn(a));
    }
  }

  /** New debt is new supply. */
  lemma UpdateCallKeepsUnowed(b: Books, c: CallId, deltaDebt: int, deltaCollateral: int)
    requires b.UpdateCall(c, deltaDebt, deltaCollateral).Some?
    ensures SameUnowed(b, b.UpdateCall(c, deltaDebt, deltaCollateral).value)
  {
    var b' := b.UpdateCall(c, deltaDebt, deltaCollateral).value;
    forall a ensures Unowed(b', a) == Unowed(b, a) {
      BorrowedSupply(b.accounts, c.0, c.1, b.rules.CollateralAsset(c.1), deltaDebt, deltaCollateral, a);
      if c in b'.calls {
        SumUpdate(b.calls, c, b'.calls[c], OwedIn(a));
      } else {
        SumDrop(b.calls, c, OwedIn(a));
      }
    }
  }

  lemma MatchSettleKeepsUnowed(b: Books, c: CallId, s: nat, max: nat, price: Price)
    requires CanSettle(b, c, s, price) && b.MatchSettle(c, s, max, price).Some?
    ensures SameUnowed(b, b.MatchSettle(c, s, max, price).value)
  {
    var m := SettleMatching.MatchAmounts(b.calls[c], b.settles[s].balance, max, price).value;
    MatchWithinOffer(b.calls[c], b.settles[s].balance, max, price);
    var b1 := b.SettleFor(c, s, m.callPays, m.callReceives).value;
    if m.callReceives > 0 {
      FillCallKeepsUnowed(b, c, m.callPays, m.callReceives);
      var filled := b.FillCall(c, m.callPays, m.callReceives).value;
      FillSettleLeavesDebts(filled, s, m.callReceives, Asset(m.callPays, b.rules.CollateralAsset(c.1)));
    }
    assert SameSupply(b1.accounts, b.MatchSettle(c, s, max, price).value.accounts);
    assert b.MatchSettle(c, s, max, price).value.calls == b1.calls;
    forall a ensures Unowed(b.MatchSettle(c, s, max, price).value, a) == Unowed(b, a) {
      assert Unowed(b1, a) == Unowed(b, a);
    }
  }

  lemma FillSettleLeavesDebts(b: Books, s: nat, pays: nat, receives: Asset)
    requires s in b.settles && pays <= b.settles[s].balance
    ensures LeavesDebts(b, b.FillSettle(s, pays, receives))
  {
    var m1 := Add(b.accounts, AccumulatedFees(receives.id), b.rules.FeeOn(receives));
    assert SameSupply(b.accounts, m1);
  }

  // --- Creating an order while positions are called -------------------------------------------

  lemma Leaving(b: Books, b': Books)
    requires LeavesDebts(b, b')
    ensures SameUnowed(b, b')
  {
  }

  lemma UnowedTransitive(b: Books, b': Books, b'': Books)
    requires SameUnowed(b, b') && SameUnowed(b', b'')
    ensures SameUnowed(b, b'')
  {
    forall a ensures Unowed(b'', a) == Unowed(b, a) {
      assert Unowed(b', a) == Unowed(b, a);
    }
  }

  lemma CallForKeepsUnowed(b: Books, id: OrderId, c: CallId, pays: Asset, receives: Asset, cull: bool)
    requires id in b.limitOrders && c in b.calls
    requires pays.amount <= b.limitOrders[id].forSale && pays.amount <= b.calls[c].debt
    requires b.MatchCallFor(id, c, pays, receives, cull).Some?
    ensures SameUnowed(b, b.MatchCallFor(id, c, pays, receives, cull).value.0)
  {
    var filled := b.Fill(id, pays, receives, cull).value;
    FillLeavesDebts(b, id, pays, receives, cull);
    FillCallKeepsUnowed(filled, c, receives.amount, pays.amount);
    Leaving(b, filled);
    UnowedTransitive(b, filled, filled.FillCall(c, receives.amount, pays.amount).value);
  }

  lemma CallKeepsUnowed(b: Books, id: OrderId, c: CallId, toCover: nat, price: Price)
    requires BookBut(b.limitOrders, id) && id in b.limitOrders && Callable(b.limitOrders[id], price)
    requires Faces(b, c, price) && 0 < toCover <= b.calls[c].debt && b.MatchCall(id, c, toCover, price).Some?
    ensures SameUnowed(b, b.MatchCall(id, c, toCover, price).value.0)
  {
    var o := b.limitOrders[id];
    if toCover > o.forSale {
      SoldOutIsDust(o, price);
      var receives := Times(o.ToSell(), price).value;
      if receives.amount > 0 {
        CallForKeepsUnowed(b, id, c, TimesUp(receives, price).value, receives, true);
      }
    } else {
      var pays := Asset(toCover, price.quote.id);
      CallForKeepsUnowed(b, id, c, pays, TimesUp(pays, price).value, false);
    }
  }

  lemma {:induction false} AboveLeavesDebts(b: Books, id: OrderId, price: Price)
    requires BookBut(b.limitOrders, id) && WorkedAbove(b, id, price).Some?
    ensures LeavesDebts(b, WorkedAbove(b, id, price).value.0)
    decreases |b.limitOrders.Keys|
  {
    if id in b.limitOrders && Crossing(b.limitOrders, id) != {} {
      BookButIsValid(b.limitOrders, id);
      var maker := First(b.limitOrders, Crossing(b.limitOrders, id));
      CrossingIsMatchable(b.limitOrders, id, maker);
      if Less(price, b.limitOrders[maker].sellPrice) {
        MatchKeepsBook(b, id, maker);
        MatchLeavesDebts(b, id, maker);
        if b.Match(id, maker).value.1 == 2 {
          AboveLeavesDebts(b.Match(id, maker).value.0, id, price);
        }
      }
    }
  }

  lemma {:induction false} CalledKeepsUnowed(b: Books, id: OrderId, calling: Calling)
    requires BookBut(b.limitOrders, id) && id in b.limitOrders && Callable(b.limitOrders[id], calling.price)
    requires CoversDebt(calling) && Called(b, id, calling).Some?
    ensures SameUnowed(b, Called(b, id, calling).value.0)
    decreases b.limitOrders[id].forSale
  {
    var c := calling.next(b);
    if c.Some? && Faces(b, c.value, calling.price) {
      var toCover := calling.cover(b.calls[c.value]).value;
      CallOutcome(b, id, c.value, toCover, calling.price);
      CallKeepsUnowed(b, id, c.value, toCover, calling.price);
      var r := b.MatchCall(id, c.value, toCover, calling.price).value;
      if r.1 % 2 == 0 {
        CalledKeepsUnowed(r.0, id, calling);
        UnowedTransitive(b, r.0, Called(r.0, id, calling).value.0);
      }
    }
  }

  lemma WorkedWithKeepsUnowed(b: Books, id: OrderId, calling: Calling)
    requires BookBut(b.limitOrders, id) && id in b.limitOrders && CoversDebt(calling) && WorkedWith(b, id, calling).Some?
    ensures SameUnowed(b, WorkedWith(b, id, calling).value)
  {
    if !Callable(b.limitOrders[id], calling.price) {
      WorkedLeavesDebts(b, id);
    } else {
      var (above, finished) := WorkedAbove(b, id, calling.price).value;
      AboveOutcome(b, id, calling.price);
      AboveLeavesDebts(b, id, calling.price);
      Leaving(b, above);
      if !finished {
        var (called, sold) := Called(above, id, calling).value;
        CalledOutcome(above, id, calling);
        CalledKeepsUnowed(above, id, calling);
        UnowedTransitive(b, above, called);
        if !sold {
          WorkedLeavesDebts(called, id);
          Leaving(called, Worked(called, id).value);
          UnowedTransitive(b, called, Worked(called, id).value);
        }
      }
    }
  }

  lemma AppliedWithKeepsUnowed(b: Books, id: OrderId, calling: Option<Calling>)
    requires BookBut(b.limitOrders, id) && id in b.limitOrders && Sensible(calling) && AppliedWith(b, id, calling).Some?
    ensures SameUnowed(b, AppliedWith(b, id, calling).value.0)
  {
    BookButIsValid(b.limitOrders, id);
    if calling.None? {
      AppliedLeavesDebts(b, id);
    } else if !Behind(b.limitOrders, id) {
      var worked := WorkedWith(b, id, calling.value).value;
      WorkedWithKeepsUnowed(b, id, calling.value);
      RestedLeavesDebts(worked, id);
      Leaving(worked, Rested(worked, id).value.0);
      UnowedTransitive(b, worked, Rested(worked, id).value.0);
    }
  }

  lemma RestedLeavesDebts(b: Books, id: OrderId)
    requires Rested(b, id).Some?
    ensures LeavesDebts(b, Rested(b, id).value.0)
  {
    if id in b.limitOrders {
      RefundedSupply(b.accounts, b.limitOrders[id], b.rules.cancelFee);
    }
  }

  /** The debt that called positions cover while an order is created ceases to exist. */
  lemma CreatedKeepsUnowed(b: Books, id: OrderId, o: Offer, calling: Option<Calling>)
    requires BookOk(b.limitOrders) && id !in b.limitOrders && Sensible(calling) && Created(b, id, o, calling).Some?
    ensures SameUnowed(b, Created(b, id, o, calling).value.0)
  {
    var placed := Placed(b, id, o).value;
    PlacedBook(b, id, o);
    PlacedLeavesDebts(b, id, o);
    Leaving(b, placed);
    var worked := AppliedWith(placed, id, calling).value.0;
    AppliedWithKeepsUnowed(placed, id, calling);
    UnowedTransitive(b, placed, worked);
    var paid := worked.(accounts := Add(worked.accounts, Balance(o.seller, o.fee.id), -(o.fee.amount as int)));
    assert SameSupply(worked.accounts, paid.accounts);
    Leaving(worked, paid);
    UnowedTransitive(b, worked, paid);
  }

  // --- Runs -----------------------------------------------------------------------------------

  lemma AttemptKeepsUnowed(b: Books, step: Step)
    requires BookOk(b.limitOrders) && Attempt(b, step).Some?
    ensures SameUnowed(b, Attempt(b, step).value)
  {
    match step
    case CreateOrder(id, offer, calling) => CreatedKeepsUnowed(b, id, offer, calling);
    case CancelOrder(id) => RefundedSupply(b.accounts, b.limitOrders[id], 0);
    case ExpireOrder(id) => RefundedSupply(b.accounts, b.limitOrders[id], b.rules.cancelFee);
    case UpdatePosition(c, deltaDebt, deltaCollateral) => UpdateCallKeepsUnowed(b, c, deltaDebt, deltaCollateral);
    case CallPosition(id, c, pays, receives) => CallForKeepsUnowed(b, id, c, pays, receives, true);
    case RequestSettlement(s, who, amount, date) =>
    case CancelSettlement(s) =>
    case Settle(c, s, max, price) => MatchSettleKeepsUnowed(b, c, s, max, price);
    case PayFee(payer, fee, coreFee) => FeeChargedSupply(b.accounts, payer, fee, coreFee);
  }

  /** Over every run the supply of each asset moves with the debts in it. */
  lemma {:induction false} RunKeepsUnowed(b: Books, steps: seq<Step>)
    requires BookOk(b.limitOrders)
    ensures SameUnowed(b, Run(b, steps))
    decreases |steps|
  {
    if steps != [] {
      if Attempt(b, steps[0]).Some? {
        AttemptKeepsUnowed(b, steps[0]);
      }
      RunKeepsUnowed(Next(b, steps[0]), steps[1..]);
      forall a ensures Unowed(Run(b, steps), a) == Unowed(b, a) {
        assert Unowed(Next(b, steps[0]), a) == Unowed(b, a);
      }
    }
  }

  /**
   An asset whose supply was all owed stays so: whatever the run, the positions in it owe
   its whole supply, no more and no less.
   */
  lemma SupplyStaysOwed(b: Books, steps: seq<Step>, a: AssetId)
    requires BookOk(b.limitOrders) && Of(b.accounts, Supply(a)) == SumBy(b.calls, OwedIn(a))
    ensures var b' := Run(b, steps);
            && Of(b'.accounts, Supply(a)) == SumBy(b'.calls, OwedIn(a)) >= 0
            && forall c :: c in b'.calls && c.1 == a ==> b'.calls[c].debt <= Of(b'.accounts, Supply(a))
  {
    var b' := Run(b, steps);
    RunKeepsUnowed(b, steps);
    assert Unowed(b', a) == Unowed(b, a);
    var calls: map<CallId, Position> := b'.calls;
    forall c | c in calls ensures OwedIn(a)(c, calls[c]) >= 0 {
      var p: Position := calls[c];
      assert p.debt >= 0;
    }
    SumNonNegative(calls, OwedIn(a));
    forall c | c in b'.calls && c.1 == a ensures b'.calls[c].debt <= Of(b'.accounts, Supply(a)) {
      EntryWithinSum(calls, c, OwedIn(a));
    }
  }
}

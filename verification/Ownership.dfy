/**
 Who gets what: what an account owns is its balance and what it has in orders, and every
 operation changes it only for its parties, by what they pay, receive and are charged.
 */
module Ownership {
  import opened Amounts
  import opened Conservation
  import opened Ledgers
  import opened LimitOrders
  import opened Options
  import opened Positions
  import opened Prices
  import opened SettleMatching
  import opened Sums

  function SoldBy(who: AccountId, a: AssetId): (OrderId, LimitOrder) -> int {
    (_, o: LimitOrder) => if o.seller == who then Part(o.ToSell(), a) else 0
  }

  function PledgedBy(rules: Rules, who: AccountId, a: AssetId): (CallId, Position) -> int {
    (c: CallId, p: Position) => if c.0 == who && rules.CollateralAsset(c.1) == a then p.collateral else 0
  }

  function QueuedBy(who: AccountId, a: AssetId): (nat, SettleOrder) -> int {
    (_, o: SettleOrder) => if o.owner == who && o.asset == a then o.balance else 0
  }

  ghost function Owned(b: Books, who: AccountId, a: AssetId): int {
    Of(b.accounts, Balance(who, a)) + SumBy(b.limitOrders, SoldBy(who, a))
    + SumBy(b.calls, PledgedBy(b.rules, who, a)) + SumBy(b.settles, QueuedBy(who, a))
  }

  // --- Accounts ---------------------------------------------------------------------------------

  lemma AddBalance(m: Accounts, e: Entry, d: int, who: AccountId, a: AssetId)
    ensures Of(Add(m, e, d), Balance(who, a)) == Of(m, Balance(who, a)) + (if e == Balance(who, a) then d else 0)
  {
  }

  /** What is left of a deferred fee goes back in the asset it was paid in. */
  function FeeBack(o: LimitOrder, scheduled: nat, a: AssetId): int {
    var fee := CancelFee(o, scheduled);
    if o.deferredPaidFee.amount == 0 then if a == CORE then o.deferredFee - fee else 0
    else if a == o.deferredPaidFee.id then o.deferredPaidFee.amount - PaidPart(o, fee)
    else 0
  }

  lemma RefundedBalance(m: Accounts, o: LimitOrder, scheduled: nat, who: AccountId, a: AssetId)
    ensures Of(Refunded(m, o, scheduled), Balance(who, a))
            == Of(m, Balance(who, a)) + (if who == o.seller then Part(o.ToSell(), a) + FeeBack(o, scheduled, a) else 0)
  {
    var fee := CancelFee(o, scheduled);
    var part := PaidPart(o, fee);
    var m2 := FeesKept(m, o, fee, part);
    var m4 := FundsReturned(m2, o);
    assert Of(m2, Balance(who, a)) == Of(m, Balance(who, a));
    assert Of(m4, Balance(who, a)) == Of(m2, Balance(who, a)) + (if who == o.seller then Part(o.ToSell(), a) else 0);
    FeeReturnedBalance(m4, o, fee, part, who, a);
  }

  lemma FeeReturnedBalance(m: Accounts, o: LimitOrder, fee: nat, part: nat, who: AccountId, a: AssetId)
    ensures Of(FeeReturned(m, o, fee, part), Balance(who, a))
            == Of(m, Balance(who, a))
               + (if who != o.seller then 0
                  else if o.deferredPaidFee.amount == 0 then if a == CORE then o.deferredFee - fee else 0
                  else if a == o.deferredPaidFee.id then o.deferredPaidFee.amount - part else 0)
  {
  }

  lemma PaidOutBalance(m: Accounts, o: LimitOrder, pays: Asset, receives: Asset, marketFee: nat, who: AccountId, a: AssetId)
    ensures Of(PaidOut(m, o, pays, receives, marketFee), Balance(who, a))
            == Of(m, Balance(who, a)) + (if who == o.seller && a == receives.id then receives.amount - marketFee else 0)
  {
    var traded := Traded(m, o.seller, pays, receives, marketFee);
    assert Of(FeesKept(traded, o, o.deferredFee, o.deferredPaidFee.amount), Balance(who, a)) == Of(traded, Balance(who, a));
    var m2 := Earmark(Add(m, AccumulatedFees(receives.id), marketFee), o.seller, pays.id, -(pays.amount as int));
    assert Of(m2, Balance(who, a)) == Of(m, Balance(who, a));
  }

  lemma CoveredBalance(m: Accounts, debtAsset: AssetId, asset: AssetId, borrower: AccountId, pays: nat, receives: nat, freed: nat,
                       who: AccountId, a: AssetId)
    ensures Of(Covered(m, debtAsset, asset, borrower, pays, receives, freed), Balance(who, a))
            == Of(m, Balance(who, a)) + (if who == borrower && a == asset then freed else 0)
  {
    var m1 := Add(m, Supply(debtAsset), -(receives as int));
    assert Of(m1, Balance(who, a)) == Of(m, Balance(who, a));
  }

  // --- Operations -------------------------------------------------------------------------------

  /** Cancelling gives the seller back what its order held, and nothing to anyone else. */
  lemma CancelOwned(b: Books, id: OrderId, scheduled: nat, who: AccountId, a: AssetId)
    requires id in b.limitOrders
    ensures var o := b.limitOrders[id];
            Owned(b.Cancel(id, scheduled), who, a) == Owned(b, who, a) + (if who == o.seller then FeeBack(o, scheduled, a) else 0)
  {
    RefundedBalance(b.accounts, b.limitOrders[id], scheduled, who, a);
    SumDrop(b.limitOrders, id, SoldBy(who, a));
  }

  /** What a fill takes from and gives to its seller. */
  function Gain(rules: Rules, pays: Asset, receives: Asset, a: AssetId): int {
    Part(receives, a) - Part(Asset(rules.FeeOn(receives), receives.id), a) - Part(pays, a)
  }

  lemma FillOwned(b: Books, id: OrderId, pays: Asset, receives: Asset, cull: bool, who: AccountId, a: AssetId)
    requires id in b.limitOrders && pays.amount <= b.limitOrders[id].forSale
    requires pays.id == b.limitOrders[id].sellPrice.base.id && b.Fill(id, pays, receives, cull).Some?
    ensures var b' := b.Fill(id, pays, receives, cull).value;
            b'.rules == b.rules
            && Owned(b', who, a)
               == Owned(b, who, a) + (if who == b.limitOrders[id].seller then Gain(b.rules, pays, receives, a) else 0)
  {
    var o := b.limitOrders[id];
    var b' := b.Fill(id, pays, receives, false).value;
    PaidOutBalance(b.accounts, o, pays, receives, b.rules.FeeOn(receives), who, a);
    OrdersAfterFill(b, id, pays, receives, SoldBy(who, a));
    if cull && pays.amount < o.forSale {
      CancelOwned(b', id, b.rules.cancelFee, who, a);
      NoFeeBack(Remaining(o, pays.amount), b.rules.cancelFee, a);
    }
  }

  lemma NoFeeBack(o: LimitOrder, scheduled: nat, a: AssetId)
    requires o.deferredFee == 0 && o.deferredPaidFee.amount == 0
    ensures FeeBack(o, scheduled, a) == 0
  {
  }

  /**
   In a match the taker pays the maker and the maker pays the taker, each less the market fee
   on what it receives; no other account's property changes.
   */
  lemma MatchOwned(b: Books, taker: OrderId, maker: OrderId, who: AccountId, a: AssetId)
    requires taker in b.limitOrders && maker in b.limitOrders && taker != maker
    requires Matchable(b.limitOrders[taker], b.limitOrders[maker]) && b.Match(taker, maker).Some?
    ensures var t := LimitOrders.MatchAmounts(b.limitOrders[taker], b.limitOrders[maker]).value;
            Owned(b.Match(taker, maker).value.0, who, a)
            == Owned(b, who, a)
               + (if t.Trade? && who == b.limitOrders[taker].seller then Gain(b.rules, t.pays, t.receives, a) else 0)
               + (if t.Trade? && who == b.limitOrders[maker].seller then Gain(b.rules, t.receives, t.pays, a) else 0)
  {
    MatchIs(b.limitOrders[taker], b.limitOrders[maker]);
    var t := LimitOrders.MatchAmounts(b.limitOrders[taker], b.limitOrders[maker]).value;
    if t.Trade? {
      b.FillLeavesOthers(taker, t.pays, t.receives, t.cullTaker);
      assert b.limitOrders[maker] == (b.limitOrders - {taker})[maker];
      var filled := b.Fill(taker, t.pays, t.receives, t.cullTaker).value;
      FillOwned(b, taker, t.pays, t.receives, t.cullTaker, who, a);
      FillOwned(filled, maker, t.receives, t.pays, true, who, a);
    }
  }

  /** A filled position loses what it pays; freed collateral stays with the borrower. */
  lemma FillCallOwned(b: Books, c: CallId, pays: nat, receives: nat, who: AccountId, a: AssetId)
    requires c in b.calls && receives <= b.calls[c].debt && b.FillCall(c, pays, receives).Some?
    ensures var b' := b.FillCall(c, pays, receives).value;
            b'.rules == b.rules
            && Owned(b', who, a) == Owned(b, who, a) - (if who == c.0 then Part(Asset(pays, b.rules.CollateralAsset(c.1)), a) else 0)
  {
    var asset := b.rules.CollateralAsset(c.1);
    var freed := if receives == b.calls[c].debt then b.calls[c].collateral - pays else 0;
    CoveredBalance(b.accounts, c.1, asset, c.0, pays, receives, freed, who, a);
    CallsAfterFill(b, c, pays, receives, PledgedBy(b.rules, who, a));
  }

  /** A filled settle order loses what it pays, and its owner gains what it receives less the fee. */
  lemma FillSettleOwned(b: Books, s: nat, pays: nat, receives: Asset, who: AccountId, a: AssetId)
    requires s in b.settles && pays <= b.settles[s].balance
    ensures var o := b.settles[s];
            Owned(b.FillSettle(s, pays, receives), who, a)
            == Owned(b, who, a) + (if who == o.owner then Gain(b.rules, Asset(pays, o.asset), receives, a) else 0)
  {
    var o := b.settles[s];
    var fee := b.rules.FeeOn(receives);
    AddBalance(Add(b.accounts, AccumulatedFees(receives.id), fee), Balance(o.owner, receives.id), receives.amount - fee, who, a);
    if pays < o.balance {
      SumUpdate(b.settles, s, o.(balance := o.balance - pays), QueuedBy(who, a));
    } else {
      SumDrop(b.settles, s, QueuedBy(who, a));
    }
  }

  lemma CancelSettleOwned(b: Books, s: nat, who: AccountId, a: AssetId)
    requires s in b.settles
    ensures Owned(b.CancelSettle(s), who, a) == Owned(b, who, a)
  {
    SumDrop(b.settles, s, QueuedBy(who, a));
  }

  /** A settle order's owner and a borrower trade with each other; nobody else is touched. */
  lemma MatchSettleOwned(b: Books, c: CallId, s: nat, max: nat, price: Price, who: AccountId, a: AssetId)
    requires c in b.calls && s in b.settles && price.Valid()
    requires b.settles[s].asset == c.1 && b.settles[s].balance <= MAX_SHARE_SUPPLY
    requires b.MatchSettle(c, s, max, price).Some?
    ensures var m := SettleMatching.MatchAmounts(b.calls[c], b.settles[s].balance, max, price).value;
            var paid := Asset(m.callPays, b.rules.CollateralAsset(c.1));
            Owned(b.MatchSettle(c, s, max, price).value, who, a)
            == Owned(b, who, a)
               + (if m.callReceives > 0 && who == c.0 then -Part(paid, a) else 0)
               + (if m.callReceives > 0 && who == b.settles[s].owner then Gain(b.rules, Asset(m.callReceives, c.1), paid, a) else 0)
  {
    var m := SettleMatching.MatchAmounts(b.calls[c], b.settles[s].balance, max, price).value;
    MatchWithinOffer(b.calls[c], b.settles[s].balance, max, price);
    var b1 := b.SettleFor(c, s, m.callPays, m.callReceives).value;
    if m.callReceives > 0 {
      FillCallOwned(b, c, m.callPays, m.callReceives, who, a);
      FillSettleOwned(b.FillCall(c, m.callPays, m.callReceives).value, s, m.callReceives,
                      Asset(m.callPays, b.rules.CollateralAsset(c.1)), who, a);
    }
    if m.cull && s in b1.settles {
      CancelSettleOwned(b1, s, who, a);
    }
  }

  /** Borrowing gives the borrower exactly the debt; collateral stays its own. */
  lemma UpdateCallOwned(b: Books, c: CallId, deltaDebt: int, deltaCollateral: int, who: AccountId, a: AssetId)
    requires b.UpdateCall(c, deltaDebt, deltaCollateral).Some?
    ensures Owned(b.UpdateCall(c, deltaDebt, deltaCollateral).value, who, a)
            == Owned(b, who, a) + (if who == c.0 && a == c.1 then deltaDebt else 0)
  {
    var asset := b.rules.CollateralAsset(c.1);
    var m := Borrowed(b.accounts, c.0, c.1, asset, deltaDebt, deltaCollateral).value;
    BorrowedBalance(b.accounts, c.0, c.1, asset, deltaDebt, deltaCollateral, who, a);
    RepositionSums(b.(accounts := m), c, deltaDebt, deltaCollateral, PledgedBy(b.rules, who, a), who == c.0 && asset == a);
  }

  lemma BorrowedBalance(m: Accounts, borrower: AccountId, debtAsset: AssetId, asset: AssetId, deltaDebt: int, deltaCollateral: int,
                        who: AccountId, a: AssetId)
    requires Borrowed(m, borrower, debtAsset, asset, deltaDebt, deltaCollateral).Some?
    ensures Of(Borrowed(m, borrower, debtAsset, asset, deltaDebt, deltaCollateral).value, Balance(who, a))
            == Of(m, Balance(who, a)) + (if who == borrower && a == debtAsset then deltaDebt else 0)
               - (if who == borrower && a == asset then deltaCollateral else 0)
  {
    var m1 := Add(m, Balance(borrower, debtAsset), deltaDebt);
    var m2 := Add(m1, Supply(debtAsset), deltaDebt);
    var m3 := Add(m2, Balance(borrower, asset), -deltaCollateral);
    AddBalance(m, Balance(borrower, debtAsset), deltaDebt, who, a);
    AddBalance(m1, Supply(debtAsset), deltaDebt, who, a);
    AddBalance(m2, Balance(borrower, asset), -deltaCollateral, who, a);
    AddBalance(m3, CoreInOrders(borrower), deltaCollateral, who, a);
  }
}

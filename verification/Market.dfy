/** The market as the database changes it in place, one stored object at a time. */
module Markets {
  import opened Amounts
  import opened CalledOrders
  import opened Conservation
  import opened Ledgers
  import opened LimitOrders
  import opened MarketRuns
  import opened Options
  import opened OrderBooks
  import opened Positions
  import opened Prices
  import opened SettleMatching

  class Market {
    var accounts: Accounts
    var limitOrders: Orders
    var calls: map<CallId, Position>
    var settles: map<nat, SettleOrder>
    const rules: Rules

    ghost function View(): Books
      reads this
    {
      Books(accounts, limitOrders, calls, settles, rules)
    }

    constructor (rules: Rules)
      ensures View() == Books(map[], map[], map[], map[], rules)
    {
      accounts, limitOrders, calls, settles := map[], map[], map[], map[];
      this.rules := rules;
    }

    // --- Accounts -------------------------------------------------------------------------------

    method AddTo(e: Entry, d: int)
      modifies `accounts
      ensures accounts == Add(old(accounts), e, d)
    {
      if d != 0 {
        accounts := accounts[e := Of(accounts, e) + d];
      }
    }

    method AdjustBalance(who: AccountId, asset: AssetId, delta: int) returns (ok: bool)
      modifies `accounts
      ensures ok <==> Adjust(old(accounts), who, asset, delta).Some?
      ensures accounts == if ok then Adjust(old(accounts), who, asset, delta).value else old(accounts)
    {
      if delta < 0 && Of(accounts, Balance(who, asset)) < -delta {
        return false;
      }
      AddTo(Balance(who, asset), delta);
      return true;
    }

    method AdjustCoreInOrders(who: AccountId, asset: AssetId, delta: int)
      modifies `accounts
      ensures accounts == Earmark(old(accounts), who, asset, delta)
    {
      if asset == CORE {
        AddTo(CoreInOrders(who), delta);
      }
    }

    method PayMarketFees(receives: Asset) returns (fee: nat)
      modifies `accounts
      ensures fee == rules.FeeOn(receives)
      ensures accounts == Add(old(accounts), AccumulatedFees(receives.id), fee)
    {
      fee := 0;
      if receives.id in rules.marketFees {
        var option := rules.marketFees[receives.id];
        fee := receives.amount * option.percent / FULL_PERCENT;
        if fee > option.max {
          fee := option.max;
        }
      }
      AddTo(AccumulatedFees(receives.id), fee);
    }

    // --- Limit orders ---------------------------------------------------------------------------

    method CancelLimitOrder(id: OrderId, createVirtualOp: bool)
      requires id in limitOrders
      modifies `accounts, `limitOrders
      ensures View() == old(View()).Cancel(id, if createVirtualOp then rules.cancelFee else 0)
    {
      var order := limitOrders[id];
      var fee: nat, part: nat := 0, 0;
      if createVirtualOp && order.deferredFee > 0 {
        fee, part := DeductCancelFee(order);
      }
      ReturnFunds(order);
      ReturnFee(order, order.deferredFee - fee, order.deferredPaidFee.amount - part);
      limitOrders := limitOrders - {id};
    }

    /** The fee is capped by what was deferred, and taken in the asset it was paid in. */
    method DeductCancelFee(order: LimitOrder) returns (fee: nat, part: nat)
      requires order.deferredFee > 0
      modifies `accounts
      ensures fee == CancelFee(order, rules.cancelFee) <= order.deferredFee
      ensures part == PaidPart(order, fee) <= order.deferredPaidFee.amount
      ensures accounts == FeesKept(old(accounts), order, fee, part)
    {
      fee, part := rules.cancelFee, 0;
      if fee > order.deferredFee {
        fee := order.deferredFee;
      }
      PaidPartWithin(order, fee);
      if fee > 0 {
        AddTo(PendingFees(order.seller), fee);
        if order.deferredPaidFee.amount > 0 {
          part := (order.deferredPaidFee.amount * fee + order.deferredFee - 1) / order.deferredFee;
          AddTo(AccumulatedFees(order.deferredPaidFee.id), part);
        }
      }
    }

    method ReturnFee(order: LimitOrder, deferredFee: nat, paidFee: nat)
      requires deferredFee <= order.deferredFee && paidFee <= order.deferredPaidFee.amount
      modifies `accounts
      ensures accounts == FeeReturned(old(accounts), order, order.deferredFee - deferredFee, order.deferredPaidFee.amount - paidFee)
    {
      if order.deferredPaidFee.amount == 0 {
        AddTo(Balance(order.seller, CORE), deferredFee);
      } else {
        AddTo(Balance(order.seller, order.deferredPaidFee.id), paidFee);
        AddTo(FeePool(order.deferredPaidFee.id), deferredFee);
      }
    }

    method ReturnFunds(order: LimitOrder)
      modifies `accounts
      ensures accounts == FundsReturned(old(accounts), order)
    {
      var refunded := order.ToSell();
      AdjustCoreInOrders(order.seller, refunded.id, -(refunded.amount as int));
      AddTo(Balance(order.seller, refunded.id), refunded.amount);
    }

    /** None when looking at the order's worth throws. */
    method MaybeCullSmallOrder(id: OrderId) returns (culled: Option<bool>)
      requires id in limitOrders
      modifies `accounts, `limitOrders
      ensures culled.Some? <==> old(View()).MaybeCull(id).Some?
      ensures culled.Some? ==> View() == old(View()).MaybeCull(id).value && culled.value == (id !in limitOrders)
    {
      var worth := limitOrders[id].ToReceive();
      if worth.None? {
        return None;
      }
      if worth.value.amount == 0 {
        CancelLimitOrder(id, true);
        return Some(true);
      }
      return Some(false);
    }

    method PayOrder(order: LimitOrder, pays: Asset, receives: Asset)
      modifies `accounts
      ensures accounts == PaidOut(old(accounts), order, pays, receives, rules.FeeOn(receives))
    {
      var fee := PayMarketFees(receives);
      AdjustCoreInOrders(order.seller, pays.id, -(pays.amount as int));
      AddTo(Balance(order.seller, receives.id), receives.amount - fee);
      AddTo(PendingFees(order.seller), order.deferredFee);
      AddTo(AccumulatedFees(order.deferredPaidFee.id), order.deferredPaidFee.amount);
    }

    method FillLimitOrder(id: OrderId, pays: Asset, receives: Asset, cullIfSmall: bool) returns (filled: Option<bool>)
      requires id in limitOrders && pays.amount <= limitOrders[id].forSale
      modifies `accounts, `limitOrders
      ensures filled.Some? <==> old(View()).Fill(id, pays, receives, cullIfSmall).Some?
      ensures filled.Some? ==> View() == old(View()).Fill(id, pays, receives, cullIfSmall).value
      ensures filled.Some? ==> filled.value == (id !in limitOrders)
    {
      var order := limitOrders[id];
      PayOrder(order, pays, receives);
      if pays.amount == order.forSale {
        limitOrders := limitOrders - {id};
        return Some(true);
      }
      limitOrders := limitOrders[id := Remaining(order, pays.amount)];
      if cullIfSmall {
        filled := MaybeCullSmallOrder(id);
      } else {
        filled := Some(false);
      }
    }

    /** Bit 1: the taker is filled; bit 2: the maker is filled. */
    method MatchLimitOrders(taker: OrderId, maker: OrderId) returns (result: Option<nat>)
      requires taker in limitOrders && maker in limitOrders && taker != maker
      requires Matchable(limitOrders[taker], limitOrders[maker])
      modifies `accounts, `limitOrders
      ensures result.Some? <==> old(View()).Match(taker, maker).Some?
      ensures result.Some? ==> old(View()).Match(taker, maker) == Some((View(), result.value))
    {
      MatchIs(limitOrders[taker], limitOrders[maker]);
      var trade := LimitOrders.MatchAmounts(limitOrders[taker], limitOrders[maker]);
      if trade.None? {
        return None;
      }
      if trade.value.Nothing? {
        return Some(1);
      }
      result := FillBothOrders(taker, maker, trade.value.pays, trade.value.receives, trade.value.cullTaker);
    }

    method FillBothOrders(taker: OrderId, maker: OrderId, pays: Asset, receives: Asset, cullTaker: bool)
      returns (result: Option<nat>)
      requires taker in limitOrders && maker in limitOrders && taker != maker
      requires pays.amount <= limitOrders[taker].forSale && receives.amount <= limitOrders[maker].forSale
      modifies `accounts, `limitOrders
      ensures result.Some? <==> old(View()).FillBoth(taker, maker, pays, receives, cullTaker).Some?
      ensures result.Some? ==> old(View()).FillBoth(taker, maker, pays, receives, cullTaker) == Some((View(), result.value))
    {
      View().FillLeavesOthers(taker, pays, receives, cullTaker);
      assert limitOrders[maker] == (limitOrders - {taker})[maker];
      var takerFilled := FillLimitOrder(taker, pays, receives, cullTaker);
      if takerFilled.None? {
        return None;
      }
      var makerFilled := FillLimitOrder(maker, receives, pays, true);
      if makerFilled.None? || (!takerFilled.value && !makerFilled.value) {
        return None;
      }
      result := Some((if takerFilled.value then 1 else 0) + (if makerFilled.value then 2 else 0));
    }

    // --- Margin positions against limit orders ----------------------------------------------------

    /** True when the position is closed; None when it lacks the collateral. */
    method FillCallOrder(c: CallId, pays: nat, receives: nat) returns (closed: Option<bool>)
      requires c in calls && receives <= calls[c].debt
      modifies `accounts, `calls
      ensures closed.Some? <==> old(View()).FillCall(c, pays, receives).Some?
      ensures closed.Some? ==> View() == old(View()).FillCall(c, pays, receives).value
      ensures closed.Some? ==> closed.value == (c !in calls)
    {
      var p := calls[c];
      var asset := rules.CollateralAsset(c.1);
      if p.collateral < pays {
        return None;
      }
      var freed: nat := if receives == p.debt then p.collateral - pays else 0;
      AddTo(Supply(c.1), -(receives as int));
      AddTo(Balance(c.0, asset), freed);
      AdjustCoreInOrders(c.0, asset, -(pays as int) - freed);
      assert accounts == Covered(old(accounts), c.1, asset, c.0, pays, receives, freed);
      if receives == p.debt {
        calls := calls - {c};
        return Some(true);
      }
      calls := calls[c := Position(c.0, p.collateral - pays, p.debt - receives)];
      return Some(false);
    }

    /** The taker is a limit order; `toCover` is the most the position has to cover. */
    method MatchCallOrder(id: OrderId, c: CallId, toCover: nat, price: Price) returns (result: Option<nat>)
      requires id in limitOrders && c in calls && toCover <= calls[c].debt
      requires price.Valid() && price.quote.id == limitOrders[id].sellPrice.base.id
      requires limitOrders[id].forSale <= MAX_SHARE_SUPPLY
      modifies `accounts, `limitOrders, `calls
      ensures result.Some? <==> old(View()).MatchCall(id, c, toCover, price).Some?
      ensures result.Some? ==> old(View()).MatchCall(id, c, toCover, price) == Some((View(), result.value))
    {
      var forSale := limitOrders[id].ToSell();
      var pays, receives, cullTaker := Asset(toCover, price.quote.id), TimesUp(Asset(toCover, price.quote.id), price), false;
      if toCover > forSale.amount {
        receives, cullTaker := Times(forSale, price), true;
        if receives.None? {
          return None;
        }
        if receives.value.amount == 0 {
          return Some(1);
        }
        TimesThenTimesUp(forSale, price);
        pays := TimesUp(receives.value, price).value;
      }
      if receives.None? {
        return None;
      }
      var filled := FillLimitOrder(id, pays, receives.value, cullTaker);
      if filled.None? {
        return None;
      }
      var closed := FillCallOrder(c, receives.value.amount, pays.amount);
      if closed.None? {
        return None;
      }
      result := Some((if filled.value then 1 else 0) + (if closed.value then 2 else 0));
    }

    // --- Working a new order into the book --------------------------------------------------------

    method FirstOf(s: set<OrderId>) returns (first: OrderId)
      requires AllValid(limitOrders) && s <= limitOrders.Keys && s != {}
      ensures first == First(limitOrders, s)
    {
      var rest := s;
      first :| first in rest;
      rest := rest - {first};
      while rest != {}
        invariant rest <= s && first in s && IsFirst(limitOrders, s - rest, first)
        decreases |rest|
      {
        var next :| next in rest;
        FirstOfMore(limitOrders, s - rest, first, next);
        assert s - (rest - {next}) == s - rest + {next};
        if Before(limitOrders[next].sellPrice, next, limitOrders[first].sellPrice, first) {
          first := next;
        }
        rest := rest - {next};
      }
      assert s - rest == s;
      EndsAreUnique(limitOrders, s, first);
    }

    method LastOf(s: set<OrderId>) returns (last: OrderId)
      requires AllValid(limitOrders) && s <= limitOrders.Keys && s != {}
      ensures last == Last(limitOrders, s)
    {
      var rest := s;
      last :| last in rest;
      rest := rest - {last};
      while rest != {}
        invariant rest <= s && last in s && IsLast(limitOrders, s - rest, last)
        decreases |rest|
      {
        var next :| next in rest;
        LastOfMore(limitOrders, s - rest, last, next);
        assert s - (rest - {next}) == s - rest + {next};
        if Before(limitOrders[last].sellPrice, last, limitOrders[next].sellPrice, next) {
          last := next;
        }
        rest := rest - {next};
      }
      assert s - rest == s;
      EndsAreUnique(limitOrders, s, last);
    }

    method IsBehind(id: OrderId) returns (behind: bool)
      requires AllValid(limitOrders) && id in limitOrders
      ensures behind == Behind(limitOrders, id)
    {
      var ahead := Ahead(limitOrders, id);
      if ahead == {} {
        return false;
      }
      var last := LastOf(ahead);
      return SameMarket(limitOrders[last].sellPrice, limitOrders[id].sellPrice);
    }

    /** The orders that cross, best first, until the new order is finished or nothing crosses. */
    method MatchAll(id: OrderId) returns (ok: bool)
      requires BookBut(limitOrders, id) && id in limitOrders
      modifies `accounts, `limitOrders
      ensures ok <==> Worked(old(View()), id).Some?
      ensures ok ==> Worked(old(View()), id) == Some(View())
    {
      ghost var start := View();
      var finished := false;
      while !finished && Crossing(limitOrders, id) != {}
        invariant !finished ==> BookBut(limitOrders, id) && id in limitOrders
        invariant Worked(start, id) == if finished then Some(View()) else Worked(View(), id)
        decreases !finished, |limitOrders.Keys|
      {
        BookButIsValid(limitOrders, id);
        var maker := FirstOf(Crossing(limitOrders, id));
        CrossingIsMatchable(limitOrders, id, maker);
        ghost var before := View();
        var result := MatchLimitOrders(id, maker);
        if result.None? {
          return false;
        }
        MatchKeepsBook(before, id, maker);
        finished := result.value != 2;
      }
      return true;
    }

    /** As long as they offer more than a price; None when an assertion throws. */
    method MatchAbove(id: OrderId, price: Price) returns (finished: Option<bool>)
      requires BookBut(limitOrders, id) && id in limitOrders
      modifies `accounts, `limitOrders
      ensures finished.Some? <==> WorkedAbove(old(View()), id, price).Some?
      ensures finished.Some? ==> WorkedAbove(old(View()), id, price) == Some((View(), finished.value))
    {
      ghost var start := View();
      while Crossing(limitOrders, id) != {}
        invariant BookBut(limitOrders, id) && id in limitOrders
        invariant WorkedAbove(start, id, price) == WorkedAbove(View(), id, price)
        decreases |limitOrders.Keys|
      {
        BookButIsValid(limitOrders, id);
        var maker := FirstOf(Crossing(limitOrders, id));
        if !Less(price, limitOrders[maker].sellPrice) {
          break;
        }
        CrossingIsMatchable(limitOrders, id, maker);
        ghost var before := View();
        var result := MatchLimitOrders(id, maker);
        if result.None? {
          return None;
        }
        MatchKeepsBook(before, id, maker);
        if result.value != 2 {
          return Some(true);
        }
      }
      return Some(false);
    }

    /** The called positions one after the other. */
    method MatchCalled(id: OrderId, calling: Calling) returns (finished: Option<bool>)
      requires BookBut(limitOrders, id) && id in limitOrders && Callable(limitOrders[id], calling.price)
      requires CoversDebt(calling)
      modifies `accounts, `limitOrders, `calls
      ensures finished.Some? <==> Called(old(View()), id, calling).Some?
      ensures finished.Some? ==> Called(old(View()), id, calling) == Some((View(), finished.value))
    {
      ghost var start := View();
      var c := calling.next(Books(accounts, limitOrders, calls, settles, rules));
      while c.Some? && c.value in calls && c.value.1 == calling.price.quote.id
            && rules.CollateralAsset(c.value.1) == calling.price.base.id
        invariant BookBut(limitOrders, id) && id in limitOrders && Callable(limitOrders[id], calling.price)
        invariant c == calling.next(View()) && Called(start, id, calling) == Called(View(), id, calling)
        decreases limitOrders[id].forSale
      {
        var toCover := calling.cover(calls[c.value]);
        if toCover.None? || toCover.value == 0 {
          return None;
        }
        ghost var before := View();
        var result := MatchCallOrder(id, c.value, toCover.value, calling.price);
        if result.None? {
          return None;
        }
        CallOutcome(before, id, c.value, toCover.value, calling.price);
        if result.value % 2 == 1 {
          return Some(true);
        }
        c := calling.next(Books(accounts, limitOrders, calls, settles, rules));
      }
      return Some(false);
    }

    method MatchWithCalls(id: OrderId, calling: Calling) returns (ok: bool)
      requires BookBut(limitOrders, id) && id in limitOrders && CoversDebt(calling)
      modifies `accounts, `limitOrders, `calls
      ensures ok <==> WorkedWith(old(View()), id, calling).Some?
      ensures ok ==> WorkedWith(old(View()), id, calling) == Some(View())
    {
      ghost var start := View();
      if Callable(limitOrders[id], calling.price) {
        var finished := MatchAbove(id, calling.price);
        if finished.None? {
          return false;
        }
        AboveOutcome(start, id, calling.price);
        if !finished.value {
          ghost var above := View();
          finished := MatchCalled(id, calling);
          if finished.None? {
            return false;
          }
          CalledOutcome(above, id, calling);
        }
        if finished.value {
          return true;
        }
      }
      ok := MatchAll(id);
    }

    /** True when the new order is gone; None when an assertion throws on the way. */
    method ApplyOrder(id: OrderId, calling: Option<Calling>) returns (filled: Option<bool>)
      requires BookBut(limitOrders, id) && id in limitOrders && Sensible(calling)
      modifies `accounts, `limitOrders, `calls
      ensures filled.Some? <==> AppliedWith(old(View()), id, calling).Some?
      ensures filled.Some? ==> AppliedWith(old(View()), id, calling) == Some((View(), filled.value))
    {
      BookButIsValid(limitOrders, id);
      var behind := IsBehind(id);
      if behind {
        return Some(false);
      }
      var ok;
      if calling.Some? {
        ok := MatchWithCalls(id, calling.value);
      } else {
        ok := MatchAll(id);
      }
      if !ok {
        return None;
      }
      if id !in limitOrders {
        return Some(true);
      }
      filled := MaybeCullSmallOrder(id);
    }

    /** The whole operation; when it throws, the session it runs in is undone. */
    method CreateLimitOrder(id: OrderId, offer: Offer, calling: Option<Calling>) returns (filled: Option<bool>)
      requires BookOk(limitOrders) && id !in limitOrders && Sensible(calling)
      modifies `accounts, `limitOrders, `calls
      ensures filled.Some? <==> Created(old(View()), id, offer, calling).Some?
      ensures filled.Some? ==> Created(old(View()), id, offer, calling) == Some((View(), filled.value))
      ensures filled.None? ==> View() == old(View())
      ensures BookOk(limitOrders) && SameTotals(old(View()), View())
    {
      ghost var start := View();
      var oldAccounts, oldOrders, oldCalls := accounts, limitOrders, calls;
      filled := TryCreate(id, offer, calling);
      if filled.None? {
        accounts, limitOrders, calls := oldAccounts, oldOrders, oldCalls;
      } else {
        CreatedKeeps(start, id, offer, calling);
      }
    }

    method TryCreate(id: OrderId, offer: Offer, calling: Option<Calling>) returns (filled: Option<bool>)
      requires BookOk(limitOrders) && id !in limitOrders && Sensible(calling)
      modifies `accounts, `limitOrders, `calls
      ensures filled.Some? <==> Created(old(View()), id, offer, calling).Some?
      ensures filled.Some? ==> Created(old(View()), id, offer, calling) == Some((View(), filled.value))
    {
      if !offer.Valid() {
        return None;
      }
      ghost var start := View();
      var placed := Place(id, offer);
      if !placed {
        return None;
      }
      PlacedBook(start, id, offer);
      filled := ApplyOrder(id, calling);
      if filled.Some? {
        var paid := PayFee(offer, filled.value);
        if !paid {
          filled := None;
        }
      }
    }

    /** An order to fill or kill has to be gone, and the fee is paid last. */
    method PayFee(offer: Offer, gone: bool) returns (ok: bool)
      modifies `accounts
      ensures ok <==> FeePaid(old(View()), offer, gone).Some?
      ensures ok ==> FeePaid(old(View()), offer, gone) == Some((View(), gone))
    {
      if offer.fillOrKill && !gone {
        return false;
      }
      ok := AdjustBalance(offer.seller, offer.fee.id, -(offer.fee.amount as int));
    }

    method Place(id: OrderId, offer: Offer) returns (ok: bool)
      requires id !in limitOrders
      modifies `accounts, `limitOrders
      ensures ok <==> Placed(old(View()), id, offer).Some?
      ensures ok ==> View() == Placed(old(View()), id, offer).value
    {
      if offer.fee.id != CORE {
        if offer.coreFee > Of(accounts, FeePool(offer.fee.id)) {
          return false;
        }
        AddTo(FeePool(offer.fee.id), -(offer.coreFee as int));
      }
      AdjustCoreInOrders(offer.seller, offer.sell.id, offer.sell.amount);
      ok := AdjustBalance(offer.seller, offer.sell.id, -(offer.sell.amount as int));
      if ok {
        limitOrders := limitOrders[id := offer.Order()];
      }
    }

    // --- Positions and settle orders -------------------------------------------------------

    method UpdateCallOrder(c: CallId, deltaDebt: int, deltaCollateral: int) returns (ok: bool)
      modifies `accounts, `calls
      ensures ok <==> old(View()).UpdateCall(c, deltaDebt, deltaCollateral).Some?
      ensures View() == if ok then old(View()).UpdateCall(c, deltaDebt, deltaCollateral).value else old(View())
      ensures SameTotals(old(View()), View())
    {
      ghost var start := View();
      var oldAccounts := accounts;
      ok := c.1 in rules.backing;
      if ok {
        ok := Borrow(c, deltaDebt, deltaCollateral);
      }
      if ok {
        ok := Reposition(c, deltaDebt, deltaCollateral);
      }
      if ok {
        UpdateCallConserves(start, c, deltaDebt, deltaCollateral);
      } else {
        accounts := oldAccounts;
      }
    }

    method Borrow(c: CallId, deltaDebt: int, deltaCollateral: int) returns (ok: bool)
      modifies `accounts
      ensures var r := Borrowed(old(accounts), c.0, c.1, rules.CollateralAsset(c.1), deltaDebt, deltaCollateral);
              ok == r.Some? && (ok ==> accounts == r.value)
    {
      var asset := rules.CollateralAsset(c.1);
      ok := AdjustBalance(c.0, c.1, deltaDebt);
      if !ok {
        return;
      }
      AddTo(Supply(c.1), deltaDebt);
      if Of(accounts, Supply(c.1)) < 0 {
        return false;
      }
      ok := AdjustBalance(c.0, asset, -deltaCollateral);
      if ok {
        AdjustCoreInOrders(c.0, asset, deltaCollateral);
      }
    }

    method Reposition(c: CallId, deltaDebt: int, deltaCollateral: int) returns (ok: bool)
      modifies `calls
      ensures ok <==> old(View()).Reposition(c, deltaDebt, deltaCollateral).Some?
      ensures View() == if ok then old(View()).Reposition(c, deltaDebt, deltaCollateral).value else old(View())
    {
      if c !in calls {
        ok := deltaCollateral > 0 && deltaDebt > 0;
        if ok {
          calls := calls[c := Position(c.0, deltaCollateral, deltaDebt)];
        }
        return;
      }
      var collateral := calls[c].collateral + deltaCollateral;
      var debt := calls[c].debt + deltaDebt;
      if debt == 0 {
        ok := collateral == 0;
        if ok {
          calls := calls - {c};
        }
        return;
      }
      ok := collateral > 0 && debt > 0;
      if ok {
        calls := calls[c := Position(c.0, collateral, debt)];
      }
    }

    method RequestSettlement(s: nat, who: AccountId, amount: Asset, date: nat) returns (ok: bool)
      requires s !in settles
      modifies `accounts, `settles
      ensures ok <==> old(View()).RequestSettle(s, who, amount, date).Some?
      ensures View() == if ok then old(View()).RequestSettle(s, who, amount, date).value else old(View())
    {
      ok := AdjustBalance(who, amount.id, -(amount.amount as int));
      if ok {
        settles := settles[s := SettleOrder(s, who, amount.id, amount.amount, date)];
      }
    }

    method CancelSettleOrder(s: nat)
      requires s in settles
      modifies `accounts, `settles
      ensures View() == old(View()).CancelSettle(s)
    {
      AddTo(Balance(settles[s].owner, settles[s].asset), settles[s].balance);
      settles := settles - {s};
    }

    method FillSettleOrder(s: nat, pays: nat, receives: Asset)
      requires s in settles && pays <= settles[s].balance
      modifies `accounts, `settles
      ensures View() == old(View()).FillSettle(s, pays, receives)
    {
      var o := settles[s];
      var fee := PayMarketFees(receives);
      AddTo(Balance(o.owner, receives.id), receives.amount - fee);
      if pays < o.balance {
        settles := settles[s := o.(balance := o.balance - pays)];
      } else {
        settles := settles - {s};
      }
    }

    method MatchSettleOrder(c: CallId, s: nat, max: nat, price: Price) returns (ok: bool)
      requires c in calls && s in settles && price.Valid()
      requires settles[s].asset == c.1 && settles[s].balance <= MAX_SHARE_SUPPLY
      modifies `accounts, `calls, `settles
      ensures ok <==> old(View()).MatchSettle(c, s, max, price).Some?
      ensures ok ==> View() == old(View()).MatchSettle(c, s, max, price).value
    {
      var matched := SettleMatching.MatchAmounts(calls[c], settles[s].balance, max, price);
      if matched.None? {
        return false;
      }
      MatchWithinOffer(calls[c], settles[s].balance, max, price);
      var pays, receives := matched.value.callPays, matched.value.callReceives;
      if receives > 0 {
        var closed := FillCallOrder(c, pays, receives);
        if closed.None? {
          return false;
        }
        FillSettleOrder(s, receives, Asset(pays, rules.CollateralAsset(c.1)));
      }
      if matched.value.cull && s in settles {
        CancelSettleOrder(s);
      }
      return true;
    }
  }
}

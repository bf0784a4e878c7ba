/**
 Nothing is created or lost: for every asset, what the books hold minus its supply never
 changes, and every account's CORE-in-orders statistic is what its open orders hold.
 */
module Conservation {
  import opened Amounts
  import opened Ledgers
  import opened LimitOrders
  import opened Options
  import opened Positions
  import opened Prices
  import opened SettleMatching
  import opened Sums

  // --- What counts for an asset ---------------------------------------------------------------

  /** How an entry counts for an asset: pending fees and fee pools hold CORE, supply counts against. */
  function Counts(e: Entry, n: int, a: AssetId): int {
    match e
    case Balance(_, x) => if x == a then n else 0
    case CoreInOrders(_) => 0
    case PendingFees(_) => if a == CORE then n else 0
    case Supply(x) => if x == a then -n else 0
    case AccumulatedFees(x) => if x == a then n else 0
    case FeePool(_) => if a == CORE then n else 0
  }

  function EntryIn(a: AssetId): (Entry, int) -> int {
    (e: Entry, n: int) => Counts(e, n, a)
  }

  function Part(x: Asset, a: AssetId): int {
    if x.id == a then x.amount else 0
  }

  function FundsOf(o: LimitOrder, a: AssetId): int {
    Part(o.ToSell(), a) + Part(o.deferredPaidFee, a) + (if a == CORE then o.deferredFee else 0)
  }

  function OrderIn(a: AssetId): (OrderId, LimitOrder) -> int {
    (_, o: LimitOrder) => FundsOf(o, a)
  }

  function CallIn(rules: Rules, a: AssetId): (CallId, Position) -> int {
    (c: CallId, p: Position) => if rules.CollateralAsset(c.1) == a then p.collateral else 0
  }

  function SettleIn(a: AssetId): (nat, SettleOrder) -> int {
    (_, o: SettleOrder) => if o.asset == a then o.balance else 0
  }

  ghost function Held(m: Accounts, a: AssetId): int {
    SumBy(m, EntryIn(a))
  }

  /** Balances, fees, pools and everything in orders, less the supply. */
  ghost function Surplus(b: Books, a: AssetId): int {
    Held(b.accounts, a) + SumBy(b.limitOrders, OrderIn(a)) + SumBy(b.calls, CallIn(b.rules, a)) + SumBy(b.settles, SettleIn(a))
  }

  function CoreSoldBy(who: AccountId): (OrderId, LimitOrder) -> int {
    (_, o: LimitOrder) => if o.seller == who then Part(o.ToSell(), CORE) else 0
  }

  function CorePledgedBy(rules: Rules, who: AccountId): (CallId, Position) -> int {
    (c: CallId, p: Position) => if c.0 == who && rules.CollateralAsset(c.1) == CORE then p.collateral else 0
  }

  /** The statistic of an account less the CORE its open limit and call orders really hold. */
  ghost function Untracked(b: Books, who: AccountId): int {
    Of(b.accounts, CoreInOrders(who)) - SumBy(b.limitOrders, CoreSoldBy(who)) - SumBy(b.calls, CorePledgedBy(b.rules, who))
  }

  /** Two books agree on every asset's surplus and every account's statistic. */
  ghost predicate SameTotals(b: Books, b': Books) {
    && (forall a :: Surplus(b', a) == Surplus(b, a))
    && (forall who :: Untracked(b', who) == Untracked(b, who))
  }

  // --- Single steps ---------------------------------------------------------------------------

  lemma AddHeld(m: Accounts, e: Entry, d: int, a: AssetId)
    ensures Held(Add(m, e, d), a) == Held(m, a) + Counts(e, d, a)
  {
    if d != 0 {
      SumUpdate(m, e, Of(m, e) + d, EntryIn(a));
    }
  }

  lemma SumDrop<K, V>(m: map<K, V>, k: K, f: (K, V) -> int)
    requires k in m
    ensures SumBy(m - {k}, f) == SumBy(m, f) - f(k, m[k])
  {
    SumWithout(m, k, f);
  }

  lemma PaidPartWithin(o: LimitOrder, coreFee: nat)
    requires coreFee <= o.deferredFee
    ensures PaidPart(o, coreFee) <= o.deferredPaidFee.amount
  {
    if coreFee > 0 {
      MulMono(coreFee, o.deferredFee, o.deferredPaidFee.amount);
      UpIsSmallest(o.deferredPaidFee.amount, coreFee, o.deferredFee, o.deferredPaidFee.amount);
    }
  }

  /** A refund hands out exactly what the order held. */
  lemma RefundedHeld(m: Accounts, o: LimitOrder, scheduled: nat, a: AssetId)
    ensures Held(Refunded(m, o, scheduled), a) == Held(m, a) + FundsOf(o, a)
  {
    var fee := CancelFee(o, scheduled);
    var part := PaidPart(o, fee);
    PaidPartWithin(o, fee);
    var m2 := FeesKept(m, o, fee, part);
    var m4 := FundsReturned(m2, o);
    FeesKeptHeld(m, o, fee, part, a);
    FundsReturnedHeld(m2, o, a);
    FeeReturnedHeld(m4, o, fee, part, a);
  }

  lemma FeesKeptHeld(m: Accounts, o: LimitOrder, fee: nat, part: nat, a: AssetId)
    ensures Held(FeesKept(m, o, fee, part), a)
            == Held(m, a) + Part(Asset(fee, CORE), a) + Part(Asset(part, o.deferredPaidFee.id), a)
  {
    AddHeld(m, PendingFees(o.seller), fee, a);
    AddHeld(Add(m, PendingFees(o.seller), fee), AccumulatedFees(o.deferredPaidFee.id), part, a);
  }

  lemma FundsReturnedHeld(m: Accounts, o: LimitOrder, a: AssetId)
    ensures Held(FundsReturned(m, o), a) == Held(m, a) + Part(o.ToSell(), a)
  {
    AddHeld(m, CoreInOrders(o.seller), -(o.forSale as int), a);
    AddHeld(Earmark(m, o.seller, o.sellPrice.base.id, -(o.forSale as int)), Balance(o.seller, o.sellPrice.base.id), o.forSale, a);
  }

  lemma FeeReturnedHeld(m: Accounts, o: LimitOrder, fee: nat, part: nat, a: AssetId)
    requires fee <= o.deferredFee && part <= o.deferredPaidFee.amount
    ensures Held(FeeReturned(m, o, fee, part), a)
            == Held(m, a) + Part(Asset(o.deferredFee - fee, CORE), a) + Part(Asset(o.deferredPaidFee.amount - part, o.deferredPaidFee.id), a)
  {
    if o.deferredPaidFee.amount == 0 {
      AddHeld(m, Balance(o.seller, CORE), o.deferredFee - fee, a);
    } else {
      var m1 := Add(m, Balance(o.seller, o.deferredPaidFee.id), o.deferredPaidFee.amount - part);
      AddHeld(m, Balance(o.seller, o.deferredPaidFee.id), o.deferredPaidFee.amount - part, a);
      AddHeld(m1, FeePool(o.deferredPaidFee.id), o.deferredFee - fee, a);
    }
  }

  lemma RefundedStatistic(m: Accounts, o: LimitOrder, scheduled: nat, who: AccountId)
    ensures Of(Refunded(m, o, scheduled), CoreInOrders(who))
            == Of(m, CoreInOrders(who)) - (if who == o.seller then Part(o.ToSell(), CORE) else 0)
  {
    var fee := CancelFee(o, scheduled);
    var part := PaidPart(o, fee);
    var m2 := FeesKept(m, o, fee, part);
    var m4 := FundsReturned(m2, o);
    assert Of(m2, CoreInOrders(who)) == Of(m, CoreInOrders(who));
    assert Of(FeeReturned(m4, o, fee, part), CoreInOrders(who)) == Of(m4, CoreInOrders(who));
  }

  lemma PaidOutHeld(m: Accounts, o: LimitOrder, pays: Asset, receives: Asset, marketFee: nat, a: AssetId)
    ensures Held(PaidOut(m, o, pays, receives, marketFee), a)
            == Held(m, a) + Part(receives, a) + Part(o.deferredPaidFee, a) + Part(Asset(o.deferredFee, CORE), a)
  {
    TradedHeld(m, o.seller, pays, receives, marketFee, a);
    FeesKeptHeld(Traded(m, o.seller, pays, receives, marketFee), o, o.deferredFee, o.deferredPaidFee.amount, a);
  }

  lemma TradedHeld(m: Accounts, who: AccountId, pays: Asset, receives: Asset, marketFee: nat, a: AssetId)
    ensures Held(Traded(m, who, pays, receives, marketFee), a) == Held(m, a) + Part(receives, a)
  {
    var m1 := Add(m, AccumulatedFees(receives.id), marketFee);
    var m2 := Earmark(m1, who, pays.id, -(pays.amount as int));
    AddHeld(m, AccumulatedFees(receives.id), marketFee, a);
    AddHeld(m1, CoreInOrders(who), -(pays.amount as int), a);
    AddHeld(m2, Balance(who, receives.id), receives.amount - marketFee, a);
  }

  lemma CoveredHeld(m: Accounts, debtAsset: AssetId, asset: AssetId, who: AccountId, pays: nat, receives: nat, freed: nat, a: AssetId)
    ensures Held(Covered(m, debtAsset, asset, who, pays, receives, freed), a)
            == Held(m, a) + Part(Asset(receives, debtAsset), a) + Part(Asset(freed, asset), a)
  {
    var m1 := Add(m, Supply(debtAsset), -(receives as int));
    var m2 := Add(m1, Balance(who, asset), freed);
    AddHeld(m, Supply(debtAsset), -(receives as int), a);
    AddHeld(m1, Balance(who, asset), freed, a);
    AddHeld(m2, CoreInOrders(who), -(pays as int) - freed, a);
  }

  lemma SettlePaidHeld(m: Accounts, who: AccountId, receives: Asset, marketFee: nat, a: AssetId)
    ensures Held(SettlePaid(m, who, receives, marketFee), a) == Held(m, a) + Part(receives, a)
  {
    AddHeld(m, AccumulatedFees(receives.id), marketFee, a);
    AddHeld(Add(m, AccumulatedFees(receives.id), marketFee), Balance(who, receives.id), receives.amount - marketFee, a);
  }

  // --- Operations -------------------------------------------------------------------------------

  lemma CancelConserves(b: Books, id: OrderId, scheduled: nat)
    requires id in b.limitOrders
    ensures SameTotals(b, b.Cancel(id, scheduled))
  {
    forall a ensures Surplus(b.Cancel(id, scheduled), a) == Surplus(b, a) {
      RefundedHeld(b.accounts, b.limitOrders[id], scheduled, a);
      SumDrop(b.limitOrders, id, OrderIn(a));
    }
    forall who ensures Untracked(b.Cancel(id, scheduled), who) == Untracked(b, who) {
      RefundedStatistic(b.accounts, b.limitOrders[id], scheduled, who);
      SumDrop(b.limitOrders, id, CoreSoldBy(who));
    }
  }

  lemma CullConserves(b: Books, id: OrderId)
    requires id in b.limitOrders && b.MaybeCull(id).Some?
    ensures SameTotals(b, b.MaybeCull(id).value)
  {
    CancelConserves(b, id, b.rules.cancelFee);
  }

  /** A filled order takes out what it pays and brings in what it receives. */
  ghost predicate Moves(b: Books, b': Books, out: Asset, into: Asset) {
    && (forall a :: Surplus(b', a) == Surplus(b, a) - Part(out, a) + Part(into, a))
    && (forall who :: Untracked(b', who) == Untracked(b, who))
  }

  lemma FillMoves(b: Books, id: OrderId, pays: Asset, receives: Asset, cull: bool)
    requires id in b.limitOrders && pays.amount <= b.limitOrders[id].forSale
    requires pays.id == b.limitOrders[id].sellPrice.base.id
    requires b.Fill(id, pays, receives, cull).Some?
    ensures Moves(b, b.Fill(id, pays, receives, cull).value, pays, receives)
  {
    var b' := b.Fill(id, pays, receives, false).value;
    FillKeepingMoves(b, id, pays, receives);
    if cull && pays.amount < b.limitOrders[id].forSale {
      CullConserves(b', id);
    }
  }

  lemma FillKeepingMoves(b: Books, id: OrderId, pays: Asset, receives: Asset)
    requires id in b.limitOrders && pays.amount <= b.limitOrders[id].forSale
    requires pays.id == b.limitOrders[id].sellPrice.base.id
    ensures Moves(b, b.Fill(id, pays, receives, false).value, pays, receives)
  {
    var b' := b.Fill(id, pays, receives, false).value;
    var o := b.limitOrders[id];
    forall a ensures Surplus(b', a) == Surplus(b, a) - Part(pays, a) + Part(receives, a) {
      PaidOutHeld(b.accounts, o, pays, receives, b.rules.FeeOn(receives), a);
      OrdersAfterFill(b, id, pays, receives, OrderIn(a));
    }
    forall who ensures Untracked(b', who) == Untracked(b, who) {
      PaidOutStatistic(b.accounts, o, pays, receives, b.rules.FeeOn(receives), who);
      OrdersAfterFill(b, id, pays, receives, CoreSoldBy(who));
    }
  }

  /** A filled order's contribution is replaced by that of what remains, or dropped. */
  lemma OrdersAfterFill(b: Books, id: OrderId, pays: Asset, receives: Asset, f: (OrderId, LimitOrder) -> int)
    requires id in b.limitOrders && pays.amount <= b.limitOrders[id].forSale
    ensures var o := b.limitOrders[id];
            SumBy(b.Fill(id, pays, receives, false).value.limitOrders, f)
            == SumBy(b.limitOrders, f) - f(id, o) + (if pays.amount == o.forSale then 0 else f(id, Remaining(o, pays.amount)))
  {
    if pays.amount == b.limitOrders[id].forSale {
      SumDrop(b.limitOrders, id, f);
    } else {
      SumUpdate(b.limitOrders, id, Remaining(b.limitOrders[id], pays.amount), f);
    }
  }

  lemma PaidOutStatistic(m: Accounts, o: LimitOrder, pays: Asset, receives: Asset, marketFee: nat, who: AccountId)
    ensures Of(PaidOut(m, o, pays, receives, marketFee), CoreInOrders(who))
            == Of(m, CoreInOrders(who)) - (if who == o.seller then Part(pays, CORE) else 0)
  {
    var m1 := Add(m, AccumulatedFees(receives.id), marketFee);
    assert Of(m1, CoreInOrders(who)) == Of(m, CoreInOrders(who));
  }

  lemma CoveredStatistic(m: Accounts, debtAsset: AssetId, asset: AssetId, who: AccountId, pays: nat, receives: nat, freed: nat, w: AccountId)
    ensures Of(Covered(m, debtAsset, asset, who, pays, receives, freed), CoreInOrders(w))
            == Of(m, CoreInOrders(w)) - (if w == who && asset == CORE then pays + freed else 0)
  {
    var m2 := Add(Add(m, Supply(debtAsset), -(receives as int)), Balance(who, asset), freed);
    assert Of(m2, CoreInOrders(w)) == Of(m, CoreInOrders(w));
  }

  lemma FillCallMoves(b: Books, c: CallId, pays: nat, receives: nat)
    requires c in b.calls && receives <= b.calls[c].debt
    requires b.FillCall(c, pays, receives).Some?
    ensures Moves(b, b.FillCall(c, pays, receives).value, Asset(pays, b.rules.CollateralAsset(c.1)), Asset(receives, c.1))
  {
    var b' := b.FillCall(c, pays, receives).value;
    var asset := b.rules.CollateralAsset(c.1);
    var freed := if receives == b.calls[c].debt then b.calls[c].collateral - pays else 0;
    forall a ensures Surplus(b', a) == Surplus(b, a) - Part(Asset(pays, asset), a) + Part(Asset(receives, c.1), a) {
      CoveredHeld(b.accounts, c.1, asset, c.0, pays, receives, freed, a);
      CallsAfterFill(b, c, pays, receives, CallIn(b.rules, a));
    }
    forall who ensures Untracked(b', who) == Untracked(b, who) {
      CoveredStatistic(b.accounts, c.1, asset, c.0, pays, receives, freed, who);
      CallsAfterFill(b, c, pays, receives, CorePledgedBy(b.rules, who));
    }
  }

  lemma CallsAfterFill(b: Books, c: CallId, pays: nat, receives: nat, f: (CallId, Position) -> int)
    requires c in b.calls && receives <= b.calls[c].debt
    requires b.FillCall(c, pays, receives).Some?
    ensures pays <= b.calls[c].collateral
    ensures var p := b.calls[c];
            SumBy(b.FillCall(c, pays, receives).value.calls, f)
            == SumBy(b.calls, f) - f(c, p) + (if receives == p.debt then 0 else f(c, Position(c.0, p.collateral - pays, p.debt - receives)))
  {
    if receives == b.calls[c].debt {
      SumDrop(b.calls, c, f);
    } else {
      SumUpdate(b.calls, c, Position(c.0, b.calls[c].collateral - pays, b.calls[c].debt - receives), f);
    }
  }

  lemma FillSettleMoves(b: Books, s: nat, pays: nat, receives: Asset)
    requires s in b.settles && pays <= b.settles[s].balance
    ensures Moves(b, b.FillSettle(s, pays, receives), Asset(pays, b.settles[s].asset), receives)
  {
    var b' := b.FillSettle(s, pays, receives);
    var o := b.settles[s];
    if pays < o.balance {
      var rest := o.(balance := o.balance - pays);
      forall a ensures Surplus(b', a) == Surplus(b, a) - Part(Asset(pays, o.asset), a) + Part(receives, a) {
        SettlePaidHeld(b.accounts, o.owner, receives, b.rules.FeeOn(receives), a);
        SumUpdate(b.settles, s, rest, SettleIn(a));
      }
    } else {
      forall a ensures Surplus(b', a) == Surplus(b, a) - Part(Asset(pays, o.asset), a) + Part(receives, a) {
        SettlePaidHeld(b.accounts, o.owner, receives, b.rules.FeeOn(receives), a);
        SumDrop(b.settles, s, SettleIn(a));
      }
    }
  }

  /** Two limit orders pay each other. */
  lemma MatchConserves(b: Books, taker: OrderId, maker: OrderId)
    requires taker in b.limitOrders && maker in b.limitOrders && taker != maker
    requires Matchable(b.limitOrders[taker], b.limitOrders[maker])
    requires b.Match(taker, maker).Some?
    ensures SameTotals(b, b.Match(taker, maker).value.0)
  {
    MatchIs(b.limitOrders[taker], b.limitOrders[maker]);
    var t := LimitOrders.MatchAmounts(b.limitOrders[taker], b.limitOrders[maker]).value;
    if t.Trade? {
      FillBothConserves(b, taker, maker, t.pays, t.receives, t.cullTaker);
    }
  }

  lemma FillBothConserves(b: Books, taker: OrderId, maker: OrderId, pays: Asset, receives: Asset, cullTaker: bool)
    requires taker in b.limitOrders && maker in b.limitOrders && taker != maker
    requires pays.amount <= b.limitOrders[taker].forSale && receives.amount <= b.limitOrders[maker].forSale
    requires pays.id == b.limitOrders[taker].sellPrice.base.id && receives.id == b.limitOrders[maker].sellPrice.base.id
    requires b.FillBoth(taker, maker, pays, receives, cullTaker).Some?
    ensures SameTotals(b, b.FillBoth(taker, maker, pays, receives, cullTaker).value.0)
  {
    var filled := b.Fill(taker, pays, receives, cullTaker).value;
    b.FillLeavesOthers(taker, pays, receives, cullTaker);
    assert b.limitOrders[maker] == (b.limitOrders - {taker})[maker];
    FillMoves(b, taker, pays, receives, cullTaker);
    FillMoves(filled, maker, receives, pays, true);
  }

  /** A limit order and a margin position pay each other. */
  lemma MatchCallConserves(b: Books, id: OrderId, c: CallId, pays: Asset, receives: Asset, cull: bool)
    requires id in b.limitOrders && c in b.calls
    requires pays.amount <= b.limitOrders[id].forSale && pays.amount <= b.calls[c].debt
    requires pays.id == b.limitOrders[id].sellPrice.base.id == c.1 && receives.id == b.rules.CollateralAsset(c.1)
    requires b.MatchCallFor(id, c, pays, receives, cull).Some?
    ensures SameTotals(b, b.MatchCallFor(id, c, pays, receives, cull).value.0)
  {
    var filled := b.Fill(id, pays, receives, cull).value;
    FillMoves(b, id, pays, receives, cull);
    FillCallMoves(filled, c, receives.amount, pays.amount);
  }

  lemma MatchOfCallConserves(b: Books, id: OrderId, c: CallId, toCover: nat, price: Price)
    requires id in b.limitOrders && c in b.calls && toCover <= b.calls[c].debt
    requires price.Valid() && price.quote.id == b.limitOrders[id].sellPrice.base.id
    requires b.limitOrders[id].forSale <= MAX_SHARE_SUPPLY
    requires price.quote.id == c.1 && price.base.id == b.rules.CollateralAsset(c.1)
    requires b.MatchCall(id, c, toCover, price).Some?
    ensures SameTotals(b, b.MatchCall(id, c, toCover, price).value.0)
  {
    var o := b.limitOrders[id];
    if toCover > o.forSale {
      var receives := Times(o.ToSell(), price).value;
      if receives.amount > 0 {
        TimesThenTimesUp(o.ToSell(), price);
        MatchCallConserves(b, id, c, TimesUp(receives, price).value, receives, true);
      }
    } else {
      MatchCallConserves(b, id, c, Asset(toCover, price.quote.id), TimesUp(Asset(toCover, price.quote.id), price).value, false);
    }
  }

  lemma CancelSettleConserves(b: Books, s: nat)
    requires s in b.settles
    ensures SameTotals(b, b.CancelSettle(s))
  {
    var o := b.settles[s];
    forall a ensures Surplus(b.CancelSettle(s), a) == Surplus(b, a) {
      AddHeld(b.accounts, Balance(o.owner, o.asset), o.balance, a);
      SumDrop(b.settles, s, SettleIn(a));
    }
  }

  /** A settle order and a margin position pay each other. */
  lemma MatchSettleConserves(b: Books, c: CallId, s: nat, max: nat, price: Price)
    requires c in b.calls && s in b.settles && price.Valid()
    requires b.settles[s].asset == c.1 && b.settles[s].balance <= MAX_SHARE_SUPPLY
    requires b.MatchSettle(c, s, max, price).Some?
    ensures SameTotals(b, b.MatchSettle(c, s, max, price).value)
  {
    var m := SettleMatching.MatchAmounts(b.calls[c], b.settles[s].balance, max, price).value;
    MatchWithinOffer(b.calls[c], b.settles[s].balance, max, price);
    var b1 := b.SettleFor(c, s, m.callPays, m.callReceives).value;
    if m.callReceives > 0 {
      var filled := b.FillCall(c, m.callPays, m.callReceives).value;
      FillCallMoves(b, c, m.callPays, m.callReceives);
      FillSettleMoves(filled, s, m.callReceives, Asset(m.callPays, b.rules.CollateralAsset(c.1)));
    }
    if m.cull && s in b1.settles {
      CancelSettleConserves(b1, s);
    }
  }

  lemma RequestSettleConserves(b: Books, s: nat, who: AccountId, x: Asset, date: nat)
    requires s !in b.settles && b.RequestSettle(s, who, x, date).Some?
    ensures SameTotals(b, b.RequestSettle(s, who, x, date).value)
  {
    forall a ensures Surplus(b.RequestSettle(s, who, x, date).value, a) == Surplus(b, a) {
      AddHeld(b.accounts, Balance(who, x.id), -(x.amount as int), a);
      SumUpdate(b.settles, s, SettleOrder(s, who, x.id, x.amount, date), SettleIn(a));
    }
  }

  lemma ChargeFeeConserves(b: Books, payer: AccountId, fee: Asset, coreFee: nat)
    requires b.ChargeFee(payer, fee, coreFee).Some?
    ensures SameTotals(b, b.ChargeFee(payer, fee, coreFee).value)
  {
    forall a {
      FeeChargedHeld(b.accounts, payer, fee, coreFee, a);
    }
  }

  lemma FeeChargedHeld(m: Accounts, payer: AccountId, fee: Asset, coreFee: nat, a: AssetId)
    requires FeeCharged(m, payer, fee, coreFee).Some?
    ensures Held(FeeCharged(m, payer, fee, coreFee).value, a) == Held(m, a)
  {
    var m1 := Add(m, Balance(payer, fee.id), -(fee.amount as int));
    AddHeld(m, Balance(payer, fee.id), -(fee.amount as int), a);
    if fee.id == CORE {
      AddHeld(m1, PendingFees(payer), coreFee, a);
    } else {
      var m2 := Add(m1, AccumulatedFees(fee.id), fee.amount);
      var m3 := Add(m2, FeePool(fee.id), -(coreFee as int));
      AddHeld(m1, AccumulatedFees(fee.id), fee.amount, a);
      AddHeld(m2, FeePool(fee.id), -(coreFee as int), a);
      AddHeld(m3, PendingFees(payer), coreFee, a);
    }
  }

  lemma BorrowedHeld(m: Accounts, who: AccountId, debtAsset: AssetId, asset: AssetId, deltaDebt: int, deltaCollateral: int, a: AssetId)
    requires Borrowed(m, who, debtAsset, asset, deltaDebt, deltaCollateral).Some?
    ensures Held(Borrowed(m, who, debtAsset, asset, deltaDebt, deltaCollateral).value, a)
            == Held(m, a) - (if asset == a then deltaCollateral else 0)
  {
    var m1 := Add(m, Balance(who, debtAsset), deltaDebt);
    var m2 := Add(m1, Supply(debtAsset), deltaDebt);
    var m3 := Add(m2, Balance(who, asset), -deltaCollateral);
    AddHeld(m, Balance(who, debtAsset), deltaDebt, a);
    AddHeld(m1, Supply(debtAsset), deltaDebt, a);
    AddHeld(m2, Balance(who, asset), -deltaCollateral, a);
    AddHeld(m3, CoreInOrders(who), deltaCollateral, a);
  }

  lemma BorrowedStatistic(m: Accounts, who: AccountId, debtAsset: AssetId, asset: AssetId, deltaDebt: int, deltaCollateral: int, w: AccountId)
    requires Borrowed(m, who, debtAsset, asset, deltaDebt, deltaCollateral).Some?
    ensures Of(Borrowed(m, who, debtAsset, asset, deltaDebt, deltaCollateral).value, CoreInOrders(w))
            == Of(m, CoreInOrders(w)) + (if w == who && asset == CORE then deltaCollateral else 0)
  {
    var m1 := Add(m, Balance(who, debtAsset), deltaDebt);
    var m3 := Add(Add(m1, Supply(debtAsset), deltaDebt), Balance(who, asset), -deltaCollateral);
    assert Of(m1, CoreInOrders(w)) == Of(m, CoreInOrders(w));
    assert Of(m3, CoreInOrders(w)) == Of(m1, CoreInOrders(w));
  }

  lemma UpdateCallConserves(b: Books, c: CallId, deltaDebt: int, deltaCollateral: int)
    requires b.UpdateCall(c, deltaDebt, deltaCollateral).Some?
    ensures SameTotals(b, b.UpdateCall(c, deltaDebt, deltaCollateral).value)
  {
    forall a {
      UpdateCallSurplus(b, c, deltaDebt, deltaCollateral, a);
    }
    forall who {
      UpdateCallStatistic(b, c, deltaDebt, deltaCollateral, who);
    }
  }

  lemma UpdateCallSurplus(b: Books, c: CallId, deltaDebt: int, deltaCollateral: int, a: AssetId)
    requires b.UpdateCall(c, deltaDebt, deltaCollateral).Some?
    ensures Surplus(b.UpdateCall(c, deltaDebt, deltaCollateral).value, a) == Surplus(b, a)
  {
    var asset := b.rules.CollateralAsset(c.1);
    var m := Borrowed(b.accounts, c.0, c.1, asset, deltaDebt, deltaCollateral).value;
    BorrowedHeld(b.accounts, c.0, c.1, asset, deltaDebt, deltaCollateral, a);
    RepositionSums(b.(accounts := m), c, deltaDebt, deltaCollateral, CallIn(b.rules, a), asset == a);
  }

  lemma UpdateCallStatistic(b: Books, c: CallId, deltaDebt: int, deltaCollateral: int, who: AccountId)
    requires b.UpdateCall(c, deltaDebt, deltaCollateral).Some?
    ensures Untracked(b.UpdateCall(c, deltaDebt, deltaCollateral).value, who) == Untracked(b, who)
  {
    var asset := b.rules.CollateralAsset(c.1);
    var m := Borrowed(b.accounts, c.0, c.1, asset, deltaDebt, deltaCollateral).value;
    BorrowedStatistic(b.accounts, c.0, c.1, asset, deltaDebt, deltaCollateral, who);
    RepositionSums(b.(accounts := m), c, deltaDebt, deltaCollateral, CorePledgedBy(b.rules, who), who == c.0 && asset == CORE);
  }

  /** However a position changes, what it counts changes with its collateral. */
  lemma RepositionSums(b: Books, c: CallId, deltaDebt: int, deltaCollateral: int, f: (CallId, Position) -> int, counted: bool)
    requires b.Reposition(c, deltaDebt, deltaCollateral).Some?
    requires forall p: Position :: f(c, p) == if counted then p.collateral else 0
    ensures var b' := b.Reposition(c, deltaDebt, deltaCollateral).value;
            SumBy(b'.calls, f) == SumBy(b.calls, f) + (if counted then deltaCollateral else 0)
  {
    var b' := b.Reposition(c, deltaDebt, deltaCollateral).value;
    if c in b'.calls {
      SumUpdate(b.calls, c, b'.calls[c], f);
    } else {
      SumDrop(b.calls, c, f);
    }
  }
}

/**
 The books behind the market: every stored amount, the open orders, and what each market
 operation does to them. An operation that throws gives None.
 */
module Ledgers {
  import opened Amounts
  import opened LimitOrders
  import opened Options
  import opened Positions
  import opened Prices
  import opened SettleMatching

  const CORE: AssetId := 0

  /** Where an amount is stored: on an account, or in an asset's dynamic data. */
  datatype Entry =
    | Balance(who: AccountId, asset: AssetId)
    | CoreInOrders(who: AccountId)
    | PendingFees(who: AccountId)
    | Supply(asset: AssetId)
    | AccumulatedFees(asset: AssetId)
    | FeePool(asset: AssetId)

  type Accounts = map<Entry, int>

  function Of(m: Accounts, e: Entry): int {
    if e in m then m[e] else 0
  }

  function Add(m: Accounts, e: Entry, d: int): Accounts {
    if d == 0 then m else m[e := Of(m, e) + d]
  }

  /** A balance may not be overdrawn. */
  function Adjust(m: Accounts, who: AccountId, asset: AssetId, delta: int): Option<Accounts> {
    if delta < 0 && Of(m, Balance(who, asset)) < -delta then None
    else Some(Add(m, Balance(who, asset), delta))
  }

  function Earmark(m: Accounts, who: AccountId, asset: AssetId, delta: int): Accounts {
    if asset == CORE then Add(m, CoreInOrders(who), delta) else m
  }

  /** Share of what a trade pays out that goes to the asset's issuer. */
  datatype MarketFee = MarketFee(percent: nat, max: nat) {

    predicate Valid() {
      percent <= FULL_PERCENT
    }

    function On(amount: nat): nat {
      Min(amount * percent / FULL_PERCENT, max)
    }

    /** The issuer never takes more than there is. */
    lemma WithinAmount(amount: nat)
      requires Valid()
      ensures On(amount) <= amount
    {
      MulMono(percent, FULL_PERCENT, amount);
      DivBounds(amount * percent, FULL_PERCENT);
      MulCancelLe(amount * percent / FULL_PERCENT, amount, FULL_PERCENT);
    }
  }

  /** Options of the assets and the fee schedule, which no market operation changes. */
  datatype Rules = Rules(marketFees: map<AssetId, MarketFee>, backing: map<AssetId, AssetId>, cancelFee: nat) {

    function FeeOn(x: Asset): nat {
      if x.id in marketFees then marketFees[x.id].On(x.amount) else 0
    }

    function CollateralAsset(debtAsset: AssetId): AssetId {
      if debtAsset in backing then backing[debtAsset] else CORE
    }
  }

  // --- What leaves and enters the accounts --------------------------------------------------

  /** CORE fee kept when an order is cancelled without its owner asking: capped by what was deferred. */
  function CancelFee(o: LimitOrder, scheduled: nat): nat {
    Min(scheduled, o.deferredFee)
  }

  /** The same part of a fee paid in another asset, rounded up. */
  function PaidPart(o: LimitOrder, coreFee: nat): nat {
    if coreFee == 0 || o.deferredFee == 0 then 0
    else MulUp(o.deferredPaidFee.amount, coreFee, o.deferredFee)
  }

  /** The kept part of the fee falls due, in CORE and in the asset it was paid in. */
  function FeesKept(m: Accounts, o: LimitOrder, fee: nat, part: nat): Accounts {
    Add(Add(m, PendingFees(o.seller), fee), AccumulatedFees(o.deferredPaidFee.id), part)
  }

  /** What was for sale goes back. */
  function FundsReturned(m: Accounts, o: LimitOrder): Accounts {
    Add(Earmark(m, o.seller, o.sellPrice.base.id, -(o.forSale as int)), Balance(o.seller, o.sellPrice.base.id), o.forSale)
  }

  /** The rest of the fee goes back: in CORE, or in the asset it was paid in with the CORE returned to the pool. */
  function FeeReturned(m: Accounts, o: LimitOrder, fee: nat, part: nat): Accounts {
    if o.deferredPaidFee.amount == 0 then Add(m, Balance(o.seller, CORE), o.deferredFee - fee)
    else
      Add(Add(m, Balance(o.seller, o.deferredPaidFee.id), o.deferredPaidFee.amount - part),
          FeePool(o.deferredPaidFee.id), o.deferredFee - fee)
  }

  /** A cancelled order's books; `scheduled` is the cancellation fee, 0 when the owner cancels. */
  function Refunded(m: Accounts, o: LimitOrder, scheduled: nat): Accounts {
    var fee := CancelFee(o, scheduled);
    var part := PaidPart(o, fee);
    FeeReturned(FundsReturned(FeesKept(m, o, fee, part), o), o, fee, part)
  }

  /** The seller is paid less the market fee. */
  function Traded(m: Accounts, who: AccountId, pays: Asset, receives: Asset, marketFee: nat): Accounts {
    Add(Earmark(Add(m, AccumulatedFees(receives.id), marketFee), who, pays.id, -(pays.amount as int)),
        Balance(who, receives.id), receives.amount - marketFee)
  }

  /** One side of a trade; with the first fill the deferred fee falls due in full. */
  function PaidOut(m: Accounts, o: LimitOrder, pays: Asset, receives: Asset, marketFee: nat): Accounts {
    FeesKept(Traded(m, o.seller, pays, receives, marketFee), o, o.deferredFee, o.deferredPaidFee.amount)
  }

  /** A position pays collateral for debt that ceases to exist; a closed one gets the rest back. */
  function Covered(m: Accounts, debtAsset: AssetId, asset: AssetId, who: AccountId, pays: nat, receives: nat, freed: nat): Accounts {
    var m1 := Add(m, Supply(debtAsset), -(receives as int));
    var m2 := Add(m1, Balance(who, asset), freed);
    Earmark(m2, who, asset, -(pays as int) - freed)
  }

  /** A settle order is paid less the market fee. */
  function SettlePaid(m: Accounts, who: AccountId, receives: Asset, marketFee: nat): Accounts {
    Add(Add(m, AccumulatedFees(receives.id), marketFee), Balance(who, receives.id), receives.amount - marketFee)
  }

  /** An operation's fee, taken in any asset and paid on in CORE out of that asset's pool. */
  function FeeCharged(m: Accounts, payer: AccountId, fee: Asset, coreFee: nat): Option<Accounts> {
    var m1 :- Adjust(m, payer, fee.id, -(fee.amount as int));
    if fee.id == CORE then if coreFee == fee.amount then Some(Add(m1, PendingFees(payer), coreFee)) else None
    else if coreFee > Of(m, FeePool(fee.id)) then None
    else Some(Add(Add(Add(m1, AccumulatedFees(fee.id), fee.amount), FeePool(fee.id), -(coreFee as int)), PendingFees(payer), coreFee))
  }

  /** Debt is issued to the borrower and collateral taken from it; negative amounts go the other way. */
  function Borrowed(m: Accounts, who: AccountId, debtAsset: AssetId, asset: AssetId,
                    deltaDebt: int, deltaCollateral: int): Option<Accounts>
  {
    var m1 :- Adjust(m, who, debtAsset, deltaDebt);
    var m2 := Add(m1, Supply(debtAsset), deltaDebt);
    if Of(m2, Supply(debtAsset)) < 0 then None
    else
      var m3 :- Adjust(m2, who, asset, -deltaCollateral);
      Some(Earmark(m3, who, asset, deltaCollateral))
  }

  // --- The books and the operations on them -------------------------------------------------

  /** A margin position is found by its borrower and the asset it owes. */
  type CallId = (AccountId, AssetId)

  datatype Books = Books(
    accounts: Accounts,
    limitOrders: map<OrderId, LimitOrder>,
    calls: map<CallId, Position>,
    settles: map<nat, SettleOrder>,
    rules: Rules) {

    function Cancel(id: OrderId, scheduled: nat): Books
      requires id in limitOrders
    {
      this.(accounts := Refunded(accounts, limitOrders[id], scheduled), limitOrders := limitOrders - {id})
    }

    function MaybeCull(id: OrderId): Option<Books>
      requires id in limitOrders
    {
      var worth :- limitOrders[id].ToReceive();
      Some(if worth.amount == 0 then Cancel(id, rules.cancelFee) else this)
    }

    function Fill(id: OrderId, pays: Asset, receives: Asset, cull: bool): Option<Books>
      requires id in limitOrders && pays.amount <= limitOrders[id].forSale
    {
      var o := limitOrders[id];
      var paid := PaidOut(accounts, o, pays, receives, rules.FeeOn(receives));
      if pays.amount == o.forSale then Some(this.(accounts := paid, limitOrders := limitOrders - {id}))
      else
        var rest := this.(accounts := paid, limitOrders := limitOrders[id := Remaining(o, pays.amount)]);
        if cull then rest.MaybeCull(id) else Some(rest)
    }

    lemma FillLeavesOthers(id: OrderId, pays: Asset, receives: Asset, cull: bool)
      requires id in limitOrders && pays.amount <= limitOrders[id].forSale
      ensures var r := Fill(id, pays, receives, cull);
              r.Some? ==> r.value.limitOrders - {id} == limitOrders - {id}
    {
    }

    /** The new books and which sides are gone: 1 the taker, 2 the maker, 3 both. */
    function Match(taker: OrderId, maker: OrderId): Option<(Books, nat)>
      requires taker in limitOrders && maker in limitOrders && taker != maker
      requires Matchable(limitOrders[taker], limitOrders[maker])
    {
      MatchIs(limitOrders[taker], limitOrders[maker]);
      var t :- LimitOrders.MatchAmounts(limitOrders[taker], limitOrders[maker]);
      if t.Nothing? then Some((this, 1)) else FillBoth(taker, maker, t.pays, t.receives, t.cullTaker)
    }

    function FillBoth(taker: OrderId, maker: OrderId, pays: Asset, receives: Asset, cullTaker: bool): Option<(Books, nat)>
      requires taker in limitOrders && maker in limitOrders && taker != maker
      requires pays.amount <= limitOrders[taker].forSale && receives.amount <= limitOrders[maker].forSale
    {
      FillLeavesOthers(taker, pays, receives, cullTaker);
      assert limitOrders[maker] == (limitOrders - {taker})[maker];
      var filled :- Fill(taker, pays, receives, cullTaker);
      var both :- filled.Fill(maker, receives, pays, true);
      var result := (if taker in filled.limitOrders then 0 else 1) + (if maker in both.limitOrders then 0 else 2);
      if result == 0 then None else Some((both, result))
    }

    function FillCall(c: CallId, pays: nat, receives: nat): Option<Books>
      requires c in calls && receives <= calls[c].debt
    {
      var p := calls[c];
      var asset := rules.CollateralAsset(c.1);
      if pays > p.collateral then None
      else if receives == p.debt then
        var freed := p.collateral - pays;
        Some(this.(accounts := Covered(accounts, c.1, asset, c.0, pays, receives, freed), calls := calls - {c}))
      else
        var rest := Position(c.0, p.collateral - pays, p.debt - receives);
        Some(this.(accounts := Covered(accounts, c.1, asset, c.0, pays, receives, 0), calls := calls[c := rest]))
    }

    /** A limit order sells the debt asset to a position that covers at most `toCover`. */
    function MatchCall(id: OrderId, c: CallId, toCover: nat, price: Price): Option<(Books, nat)>
      requires id in limitOrders && c in calls && toCover <= calls[c].debt
      requires price.Valid() && price.quote.id == limitOrders[id].sellPrice.base.id
      requires limitOrders[id].forSale <= MAX_SHARE_SUPPLY
    {
      var o := limitOrders[id];
      if toCover > o.forSale then
        var receives :- Times(o.ToSell(), price);
        if receives.amount == 0 then Some((this, 1))
        else
          TimesThenTimesUp(o.ToSell(), price);
          var pays :- TimesUp(receives, price);
          MatchCallFor(id, c, pays, receives, true)
      else
        var receives :- TimesUp(Asset(toCover, price.quote.id), price);
        MatchCallFor(id, c, Asset(toCover, price.quote.id), receives, false)
    }

    function MatchCallFor(id: OrderId, c: CallId, pays: Asset, receives: Asset, cull: bool): Option<(Books, nat)>
      requires id in limitOrders && c in calls
      requires pays.amount <= limitOrders[id].forSale && pays.amount <= calls[c].debt
    {
      var filled :- Fill(id, pays, receives, cull);
      var both :- filled.FillCall(c, receives.amount, pays.amount);
      Some((both, (if id in both.limitOrders then 0 else 1) + (if c in both.calls then 0 else 2)))
    }

    /** Borrow, cover or move collateral; the position is opened, changed or closed. */
    function UpdateCall(c: CallId, deltaDebt: int, deltaCollateral: int): Option<Books> {
      if c.1 !in rules.backing then None
      else
        var m :- Borrowed(accounts, c.0, c.1, rules.CollateralAsset(c.1), deltaDebt, deltaCollateral);
        this.(accounts := m).Reposition(c, deltaDebt, deltaCollateral)
    }

    function Reposition(c: CallId, deltaDebt: int, deltaCollateral: int): Option<Books> {
      var p := if c in calls then calls[c] else Position(c.0, 0, 0);
      var debt := p.debt + deltaDebt;
      var collateral := p.collateral + deltaCollateral;
      if c in calls && debt == 0 then
        if collateral == 0 then Some(this.(calls := calls - {c})) else None
      else if debt > 0 && collateral > 0 then Some(this.(calls := calls[c := Position(c.0, collateral, debt)]))
      else None
    }

    function RequestSettle(s: nat, who: AccountId, x: Asset, date: nat): Option<Books> {
      var m :- Adjust(accounts, who, x.id, -(x.amount as int));
      Some(this.(accounts := m, settles := settles[s := SettleOrder(s, who, x.id, x.amount, date)]))
    }

    function CancelSettle(s: nat): Books
      requires s in settles
    {
      var o := settles[s];
      this.(accounts := Add(accounts, Balance(o.owner, o.asset), o.balance), settles := settles - {s})
    }

    function FillSettle(s: nat, pays: nat, receives: Asset): Books
      requires s in settles && pays <= settles[s].balance
    {
      var o := settles[s];
      var paid := SettlePaid(accounts, o.owner, receives, rules.FeeOn(receives));
      if pays < o.balance then this.(accounts := paid, settles := settles[s := o.(balance := o.balance - pays)])
      else this.(accounts := paid, settles := settles - {s})
    }

    /** A settle order is matched against a position at a price, for at most `max`. */
    function MatchSettle(c: CallId, s: nat, max: nat, price: Price): Option<Books>
      requires c in calls && s in settles && price.Valid()
      requires settles[s].asset == c.1 && settles[s].balance <= MAX_SHARE_SUPPLY
    {
      var m :- SettleMatching.MatchAmounts(calls[c], settles[s].balance, max, price);
      MatchWithinOffer(calls[c], settles[s].balance, max, price);
      var b :- SettleFor(c, s, m.callPays, m.callReceives);
      Some(if m.cull && s in b.settles then b.CancelSettle(s) else b)
    }

    function SettleFor(c: CallId, s: nat, pays: nat, receives: nat): Option<Books>
      requires c in calls && s in settles && receives <= calls[c].debt && receives <= settles[s].balance
    {
      if receives == 0 then Some(this)
      else
        var b :- FillCall(c, pays, receives);
        Some(b.FillSettle(s, receives, Asset(pays, rules.CollateralAsset(c.1))))
    }

    function ChargeFee(payer: AccountId, fee: Asset, coreFee: nat): Option<Books> {
      var m :- FeeCharged(accounts, payer, fee, coreFee);
      Some(this.(accounts := m))
    }
  }

  lemma MatchWithinOffer(p: Position, balance: nat, max: nat, price: Price)
    requires price.Valid() && balance <= MAX_SHARE_SUPPLY
    ensures var r := SettleMatching.MatchAmounts(p, balance, max, price);
            r.Some? ==> r.value.callReceives <= p.debt && r.value.callReceives <= balance
  {
    var offered := Asset(Min(Min(balance, max), p.debt), price.base.id);
    if Times(offered, price).Some? {
      TimesThenTimesUp(offered, price);
    }
  }
}

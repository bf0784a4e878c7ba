/**
 A market-issued asset after a black swan: the fund gathered from its positions, redemption
 from that fund, and the bids that take the debt over and bring the asset back.
 */
module SettlementFunds {
  import opened Amounts
  import opened Options
  import opened Positions
  import opened Prices

  datatype Bid = Bid(bidder: AccountId, collateral: nat, debt: nat)

  /** A globally settled asset: what is left of its supply and fund, and the settlement price. */
  datatype Pool = Pool(supply: nat, fund: nat, price: Price) {

    /** Supply and fund at the moment of settlement are the two sides of the price. */
    predicate Valid() {
      && price.base.id != price.quote.id
      && 0 < price.base.amount <= MAX_SHARE_SUPPLY && price.quote.amount <= MAX_SHARE_SUPPLY
      && supply <= price.base.amount
    }

    /** Every unit still around is backed at the settlement price, and nothing is left over. */
    predicate Solvent() {
      && Valid()
      && supply * price.quote.amount <= fund * price.base.amount
      && (supply == 0 ==> fund == 0)
    }
  }

  // --- Redemption -----------------------------------------------------------------------

  datatype Redemption = Redemption(pays: nat, receives: nat, pool: Pool)

  /** Settling an amount of a settled asset; None when an assertion of the source throws. */
  function Redeem(p: Pool, amount: nat, predictionMarket: bool): Option<Redemption>
    requires p.Valid()
  {
    var atPrice :- Times(Asset(amount, p.price.base.id), p.price);
    var whole := amount == p.supply;
    var receives := if whole then p.fund else atPrice.amount;
    if receives > p.fund then None
    else if receives == 0 && !predictionMarket then None
    else
      var pays :- if whole || receives == 0 then Some(Asset(amount, p.price.base.id))
                  else TimesUp(Asset(receives, p.price.quote.id), p.price);
      if pays.amount > p.supply then None
      else Some(Redemption(pays.amount, receives, p.(supply := p.supply - pays.amount, fund := p.fund - receives)))
  }

  lemma ShareFits(p: Pool, amount: nat)
    requires p.Solvent() && amount <= p.supply
    ensures var share := MulDown(amount, p.price.quote.amount, p.price.base.amount);
            && share <= p.price.quote.amount && share <= p.fund
            && (amount < p.supply && p.price.quote.amount > 0 ==> share < p.fund)
            && Times(Asset(amount, p.price.base.id), p.price) == Some(Asset(share, p.price.quote.id))
  {
    var s0, f0 := p.price.base.amount, p.price.quote.amount;
    var share := MulDown(amount, f0, s0);
    DownBounds(amount, f0, s0);
    MulMono(amount, p.supply, f0);
    MulCancelLe(share, p.fund, s0);
    MulMono(amount, s0, f0);
    MulCancelLe(share, f0, s0);
    if amount < p.supply && f0 > 0 {
      MulMono(amount + 1, p.supply, f0);
      assert (amount + 1) * f0 == amount * f0 + f0;
      MulCancelLt(share, p.fund, s0);
    }
  }

  /**
   In every solvent pool the assertion "settled is within the fund" holds, and redeeming
   fails only for an amount worth nothing, outside prediction markets.
   */
  lemma RedeemSucceeds(p: Pool, amount: nat, predictionMarket: bool)
    requires p.Solvent() && amount <= p.supply
    ensures var share := MulDown(amount, p.price.quote.amount, p.price.base.amount);
            var worthless := if amount == p.supply then p.fund == 0 else share == 0;
            Redeem(p, amount, predictionMarket).None? <==> worthless && !predictionMarket
  {
    ShareFits(p, amount);
    var share := MulDown(amount, p.price.quote.amount, p.price.base.amount);
    if share > 0 {
      assert p.price.quote.amount > 0 by {
        DownBounds(amount, p.price.quote.amount, p.price.base.amount);
      }
      RoundDownThenUp(amount, p.price.quote.amount, p.price.base.amount);
    }
  }

  /**
   Redeeming keeps the pool solvent. A part never costs more than offered and buys exactly
   its worth at the settlement price; the last unit takes the whole fund.
   */
  lemma RedeemKeepsSolvent(p: Pool, amount: nat, predictionMarket: bool)
    requires p.Solvent() && amount <= p.supply
    requires Redeem(p, amount, predictionMarket).Some?
    ensures var r := Redeem(p, amount, predictionMarket).value;
            && r.pool.Solvent() && r.pool.price == p.price
            && r.pool.supply + r.pays == p.supply && r.pool.fund + r.receives == p.fund
            && r.pays <= amount
            && (amount == p.supply ==> r.pays == amount && r.receives == p.fund)
            && (amount < p.supply ==>
                && r.receives == MulDown(amount, p.price.quote.amount, p.price.base.amount)
                && r.receives == MulDown(r.pays, p.price.quote.amount, p.price.base.amount)
                && r.pool.supply > 0)
  {
    ShareFits(p, amount);
    var s0, f0 := p.price.base.amount, p.price.quote.amount;
    var r := Redeem(p, amount, predictionMarket).value;
    if amount < p.supply {
      PartCost(amount, r.pays, r.receives, f0, s0);
      PartLeavesBacked(p.supply, p.fund, r.pays, r.receives, f0, s0);
    }
  }

  /** The price of a part: enough for what is received, no more than offered. */
  lemma PartCost(amount: nat, pays: nat, receives: nat, f0: nat, s0: nat)
    requires s0 > 0 && receives == MulDown(amount, f0, s0)
    requires if receives == 0 then pays == amount else f0 > 0 && pays == MulUp(receives, s0, f0)
    ensures pays <= amount && receives * s0 <= pays * f0 && receives == MulDown(pays, f0, s0)
  {
    if receives > 0 {
      RoundDownThenUp(amount, f0, s0);
      UpBounds(receives, s0, f0);
    }
  }

  /** Taking a part at no less than its worth leaves the rest backed. */
  lemma PartLeavesBacked(supply: nat, fund: nat, pays: nat, receives: nat, f0: nat, s0: nat)
    requires supply * f0 <= fund * s0 && receives * s0 <= pays * f0
    ensures (supply - pays) * f0 <= (fund - receives) * s0
  {
    Distributes(supply, pays, f0);
    Distributes(fund, receives, s0);
  }

  /** A run of redemptions; one that throws changes nothing. */
  function RedeemAll(p: Pool, amounts: seq<nat>, predictionMarket: bool): Pool
    requires p.Valid()
    decreases |amounts|
  {
    if amounts == [] then p
    else
      var r := if amounts[0] <= p.supply then Redeem(p, amounts[0], predictionMarket) else None;
      RedeemAll(if r.Some? then r.value.pool else p, amounts[1..], predictionMarket)
  }

  /** Over every run the fund backs the supply, and an exhausted supply leaves no fund. */
  lemma {:induction false} RedeemAllStaysSolvent(p: Pool, amounts: seq<nat>, predictionMarket: bool)
    requires p.Solvent()
    ensures var end := RedeemAll(p, amounts, predictionMarket);
            && end.Solvent() && end.price == p.price
            && end.supply * p.price.quote.amount <= end.fund * p.price.base.amount
            && (end.supply == 0 ==> end.fund == 0)
            && end.supply <= p.supply && end.fund <= p.fund
    decreases |amounts|
  {
    if amounts != [] {
      var r := if amounts[0] <= p.supply then Redeem(p, amounts[0], predictionMarket) else None;
      if r.Some? {
        RedeemKeepsSolvent(p, amounts[0], predictionMarket);
        RedeemAllStaysSolvent(r.value.pool, amounts[1..], predictionMarket);
      } else {
        RedeemAllStaysSolvent(p, amounts[1..], predictionMarket);
      }
    }
  }

  // --- Settling -------------------------------------------------------------------------

  function TotalDebt(calls: seq<Position>): nat {
    if calls == [] then 0 else TotalDebt(calls[..|calls| - 1]) + calls[|calls| - 1].debt
  }

  function TotalCollateral(calls: seq<Position>): nat {
    if calls == [] then 0 else TotalCollateral(calls[..|calls| - 1]) + calls[|calls| - 1].collateral
  }

  function TotalBid(bids: seq<Bid>): nat {
    if bids == [] then 0 else TotalBid(bids[..|bids| - 1]) + bids[|bids| - 1].collateral
  }

  /** What a position pays into the fund: its debt at the price, rounded up, as far as it can. */
  function SettlePay(c: Position, debtId: AssetId, price: Price): Option<nat> {
    var pays :- TimesUp(Asset(c.debt, debtId), price);
    Some(if pays.amount > c.collateral then c.collateral else pays.amount)
  }

  function Gathered(calls: seq<Position>, debtId: AssetId, price: Price): Option<nat> {
    if calls == [] then Some(0)
    else
      var before :- Gathered(calls[..|calls| - 1], debtId, price);
      var pays :- SettlePay(calls[|calls| - 1], debtId, price);
      Some(before + pays)
  }

  lemma {:induction false} GatheredFails(calls: seq<Position>, debtId: AssetId, price: Price, i: nat)
    requires i <= |calls| && Gathered(calls[..i], debtId, price).None?
    ensures Gathered(calls, debtId, price).None?
    decreases |calls|
  {
    if i < |calls| {
      assert calls[..|calls| - 1][..i] == calls[..i];
      GatheredFails(calls[..|calls| - 1], debtId, price, i);
    } else {
      assert calls[..i] == calls;
    }
  }

  lemma {:induction false} GatheredWithinCollateral(calls: seq<Position>, debtId: AssetId, price: Price)
    requires Gathered(calls, debtId, price).Some?
    ensures Gathered(calls, debtId, price).value <= TotalCollateral(calls)
  {
    if calls != [] {
      GatheredWithinCollateral(calls[..|calls| - 1], debtId, price);
    }
  }

  // --- Bids -----------------------------------------------------------------------------

  function Capped(bid: Bid, supply: nat): nat {
    if bid.debt > supply then supply else bid.debt
  }

  lemma {:induction false} CoveredMonotone(bids: seq<Bid>, supply: nat, i: nat, j: nat)
    requires i <= j <= |bids|
    ensures Covered(bids[..i], supply) <= Covered(bids[..j], supply)
    decreases j
  {
    if i < j {
      assert bids[..j][..j - 1] == bids[..j - 1];
      CoveredMonotone(bids, supply, i, j - 1);
    }
  }

  /** A bid's proportional part of the fund. */
  function Share(debt: nat, price: Price): nat
    requires price.base.amount > 0
  {
    MulDown(debt, price.quote.amount, price.base.amount)
  }

  /** A bid qualifies when, with its part of the fund, its call price keeps clear of the feed. */
  predicate Qualifies(p: Pool, bid: Bid, feed: Price, maintenanceRatio: nat)
    requires p.Valid()
  {
    var debt := Capped(bid, p.supply);
    var callPrice := CallPrice(Asset(debt, p.price.base.id),
                               Asset(Share(debt, p.price) + bid.collateral, p.price.quote.id), maintenanceRatio);
    callPrice.Some? && Less(callPrice.value.Inverse(), feed)
  }

  function Covered(bids: seq<Bid>, supply: nat): nat {
    if bids == [] then 0 else Covered(bids[..|bids| - 1], supply) + Capped(bids[|bids| - 1], supply)
  }

  /** A prefix the first loop walks through: every bid qualifies and was still needed. */
  ghost predicate Walked(p: Pool, bids: seq<Bid>, feed: Price, maintenanceRatio: nat, k: nat)
    requires p.Valid()
  {
    && k <= |bids|
    && (forall i :: 0 <= i < k ==> Qualifies(p, bids[i], feed, maintenanceRatio))
    && Needed(p, bids, k)
  }

  ghost predicate Needed(p: Pool, bids: seq<Bid>, k: nat) {
    k <= |bids| && forall i :: 0 <= i < k ==> Covered(bids[..i], p.supply) < p.supply
  }

  /** The bids that are taken: the shortest qualifying prefix that covers the supply. */
  ghost predicate Taken(p: Pool, bids: seq<Bid>, feed: Price, maintenanceRatio: nat, k: nat)
    requires p.Valid()
  {
    Walked(p, bids, feed, maintenanceRatio, k) && Covered(bids[..k], p.supply) >= p.supply
  }

  lemma WalkOne(p: Pool, bids: seq<Bid>, feed: Price, maintenanceRatio: nat, k: nat)
    requires p.Valid() && Walked(p, bids, feed, maintenanceRatio, k) && k < |bids|
    requires Qualifies(p, bids[k], feed, maintenanceRatio) && Covered(bids[..k], p.supply) < p.supply
    ensures Walked(p, bids, feed, maintenanceRatio, k + 1)
    ensures Covered(bids[..k + 1], p.supply) == Covered(bids[..k], p.supply) + Capped(bids[k], p.supply)
  {
    assert bids[..k + 1][..k] == bids[..k];
  }

  /** One step of the second loop: only the last bid reaches what is left to cover. */
  lemma ExecuteStep(p: Pool, bids: seq<Bid>, k: nat, i: nat)
    requires p.Solvent() && Needed(p, bids, k) && Covered(bids[..k], p.supply) >= p.supply && i < k
    ensures var debt := Capped(bids[i], p.supply);
            && Covered(bids[..i], p.supply) < p.supply && SharesBefore(p, bids[..i]) <= p.fund
            && TotalBid(bids[..i + 1]) == TotalBid(bids[..i]) + bids[i].collateral
            && Covered(bids[..i + 1], p.supply) == Covered(bids[..i], p.supply) + debt
            && SharesBefore(p, bids[..i + 1]) == SharesBefore(p, bids[..i]) + Share(debt, p.price)
            && (i + 1 < k ==> Covered(bids[..i + 1], p.supply) < p.supply && SharesBefore(p, bids[..i + 1]) <= p.fund)
            && (i + 1 == k ==> Covered(bids[..i + 1], p.supply) >= p.supply)
  {
    assert bids[..i + 1][..i] == bids[..i];
    RestIsBacked(p, bids[..i]);
    if i + 1 < k {
      RestIsBacked(p, bids[..i + 1]);
    }
  }

  /** A prefix that falls short and cannot be extended rules every taking out. */
  lemma NoneTaken(p: Pool, bids: seq<Bid>, feed: Price, maintenanceRatio: nat, k: nat)
    requires p.Valid() && k <= |bids| && Covered(bids[..k], p.supply) < p.supply
    requires k < |bids| ==> !Qualifies(p, bids[k], feed, maintenanceRatio)
    ensures forall j: nat :: !Taken(p, bids, feed, maintenanceRatio, j)
  {
    forall j: nat | j <= k
      ensures !Taken(p, bids, feed, maintenanceRatio, j)
    {
      CoveredMonotone(bids, p.supply, j, k);
    }
  }

  /** The positions handed out so far are the ones the first taken bids should receive. */
  ghost predicate Executed(p: Pool, bids: seq<Bid>, k: nat, calls: seq<Position>)
    requires p.Valid()
  {
    && |calls| <= k <= |bids|
    && forall i :: 0 <= i < |calls| ==>
         && Covered(bids[..i], p.supply) <= p.supply && SharesBefore(p, bids[..i]) <= p.fund
         && calls[i] == PositionFor(p, bids, k, i)
  }

  lemma ExecuteOne(p: Pool, bids: seq<Bid>, k: nat, calls: seq<Position>, c: Position)
    requires p.Valid() && Executed(p, bids, k, calls) && |calls| < k
    requires Covered(bids[..|calls|], p.supply) <= p.supply && SharesBefore(p, bids[..|calls|]) <= p.fund
    requires c == PositionFor(p, bids, k, |calls|)
    ensures Executed(p, bids, k, calls + [c])
  {
  }

  /** The second loop at bid i: what is handed out and what is left add up, and at the end nothing is left. */
  ghost predicate Executing(p: Pool, bids: seq<Bid>, k: nat, i: nat, toCover: nat, remaining: nat, calls: seq<Position>)
    requires p.Valid()
  {
    && i <= k <= |bids| && |calls| == i && Executed(p, bids, k, calls)
    && (i < k ==> toCover == p.supply - Covered(bids[..i], p.supply) && remaining == p.fund - SharesBefore(p, bids[..i]))
    && (i == k ==> toCover == 0 && remaining == 0)
    && TotalDebt(calls) == p.supply - toCover
    && TotalCollateral(calls) == p.fund - remaining + TotalBid(bids[..i])
  }

  lemma ExecutedOne(p: Pool, bids: seq<Bid>, k: nat, i: nat, toCover: nat, remaining: nat, calls: seq<Position>,
                    debt: nat, collateral: nat)
    requires p.Solvent() && Needed(p, bids, k) && Covered(bids[..k], p.supply) >= p.supply && i < k
    requires Executing(p, bids, k, i, toCover, remaining, calls)
    requires var own := Capped(bids[i], p.supply);
             if own >= toCover then debt == toCover && collateral == remaining
             else debt == own && collateral == Share(own, p.price)
    ensures debt <= toCover && collateral <= remaining
    ensures Executing(p, bids, k, i + 1, toCover - debt, remaining - collateral,
                      calls + [Position(bids[i].bidder, bids[i].collateral + collateral, debt)])
  {
    ExecuteStep(p, bids, k, i);
    var call := Position(bids[i].bidder, bids[i].collateral + collateral, debt);
    assert (calls + [call])[..|calls|] == calls;
    ExecuteOne(p, bids, k, calls, call);
  }

  /** The position a taken bid receives; the last one takes what is left on both sides. */
  function PositionFor(p: Pool, bids: seq<Bid>, k: nat, i: nat): (c: Position)
    requires p.Valid() && i < k <= |bids| && Covered(bids[..i], p.supply) <= p.supply
    requires i == k - 1 ==> SharesBefore(p, bids[..i]) <= p.fund
  {
    if i < k - 1 then
      Position(bids[i].bidder, bids[i].collateral + Share(Capped(bids[i], p.supply), p.price), Capped(bids[i], p.supply))
    else
      Position(bids[i].bidder, bids[i].collateral + (p.fund - SharesBefore(p, bids[..i])),
               p.supply - Covered(bids[..i], p.supply))
  }

  lemma {:induction false} TotalBidSplit(bids: seq<Bid>, k: nat)
    requires k <= |bids|
    ensures TotalBid(bids) == TotalBid(bids[..k]) + TotalBid(bids[k..])
    decreases |bids|
  {
    if k < |bids| {
      assert bids[..|bids| - 1][..k] == bids[..k];
      assert bids[..|bids| - 1][k..] == bids[k..][..|bids| - k - 1];
      TotalBidSplit(bids[..|bids| - 1], k);
    } else {
      assert bids[..k] == bids;
    }
  }

  function SharesBefore(p: Pool, bids: seq<Bid>): nat
    requires p.Valid()
  {
    if bids == [] then 0
    else SharesBefore(p, bids[..|bids| - 1]) + Share(Capped(bids[|bids| - 1], p.supply), p.price)
  }

  /** Proportional parts together never exceed the proportional part of what they cover. */
  lemma {:induction false} SharesWithinProportion(p: Pool, bids: seq<Bid>)
    requires p.Valid()
    ensures SharesBefore(p, bids) * p.price.base.amount <= Covered(bids, p.supply) * p.price.quote.amount
  {
    if bids != [] {
      var last := Capped(bids[|bids| - 1], p.supply);
      SharesWithinProportion(p, bids[..|bids| - 1]);
      DownBounds(last, p.price.quote.amount, p.price.base.amount);
      Distributes(SharesBefore(p, bids[..|bids| - 1]), Share(last, p.price), p.price.base.amount);
      Distributes(Covered(bids[..|bids| - 1], p.supply), last, p.price.quote.amount);
    }
  }

  /** What is left of the fund always covers the proportional part of what is left of the debt. */
  lemma RestIsBacked(p: Pool, bids: seq<Bid>)
    requires p.Solvent() && Covered(bids, p.supply) <= p.supply
    ensures SharesBefore(p, bids) <= p.fund
    ensures (p.supply - Covered(bids, p.supply)) * p.price.quote.amount
            <= (p.fund - SharesBefore(p, bids)) * p.price.base.amount
  {
    SharesWithinProportion(p, bids);
    var f0, s0 := p.price.quote.amount, p.price.base.amount;
    var covered, shares := Covered(bids, p.supply), SharesBefore(p, bids);
    MulMono(covered, p.supply, f0);
    MulCancelLe(shares, p.fund, s0);
    PartLeavesBacked(p.supply, p.fund, covered, shares, f0, s0);
  }

  /** Nobody who takes over debt gets less than the proportional part of the fund. */
  lemma TakenGetTheirShare(p: Pool, bids: seq<Bid>, feed: Price, maintenanceRatio: nat, k: nat, i: nat)
    requires p.Solvent() && Taken(p, bids, feed, maintenanceRatio, k) && i < k
    ensures SharesBefore(p, bids[..i]) <= p.fund
    ensures var c := PositionFor(p, bids, k, i);
            c.collateral >= bids[i].collateral + Share(c.debt, p.price)
  {
    RestIsBacked(p, bids[..i]);
    var debt := p.supply - Covered(bids[..i], p.supply);
    DownBounds(debt, p.price.quote.amount, p.price.base.amount);
    MulCancelLe(Share(debt, p.price), p.fund - SharesBefore(p, bids[..i]), p.price.base.amount);
  }
}

module SettledAssets {
  import opened Amounts
  import opened Options
  import opened Positions
  import opened Prices
  import opened SettlementFunds
  import opened Sums

  function Holding(): (AccountId, nat) -> int {
    (account, amount) => amount
  }

  class MarketIssuedAsset {
    const id: AssetId
    const backing: AssetId
    const predictionMarket: bool
    var supply: nat
    var fund: nat
    var settlement: Option<Price>
    /** In order of call price, least collateralised first. */
    var calls: seq<Position>
    /** In order of price, best first. */
    var bids: seq<Bid>
    /** Account balances in the asset itself and in its backing asset. */
    var held: map<AccountId, nat>
    var backingHeld: map<AccountId, nat>

    ghost predicate Valid()
      reads this
    {
      && id != backing && HeldTotal() <= supply
      && (settlement.None? ==> fund == 0)
      && (settlement.Some? ==>
          && calls == [] && Pool(supply, fund, settlement.value).Solvent()
          && settlement.value.base.id == id && settlement.value.quote.id == backing)
    }

    /** All of the backing asset that the asset's holders, positions, bids and fund account for. */
    ghost function BackingTotal(): int
      reads this
    {
      SumBy(backingHeld, Holding()) + TotalCollateral(calls) + TotalBid(bids) + fund
    }

    ghost function HeldTotal(): int
      reads this`held
    {
      SumBy(held, Holding())
    }

    constructor (id: AssetId, backing: AssetId, predictionMarket: bool)
      requires id != backing
      ensures Valid() && supply == 0 && settlement == None && calls == [] && bids == []
      ensures this.id == id && this.backing == backing && this.predictionMarket == predictionMarket
    {
      this.id, this.backing, this.predictionMarket := id, backing, predictionMarket;
      supply, fund, settlement, calls, bids, held, backingHeld := 0, 0, None, [], [], map[], map[];
    }

    method CreditBacking(account: AccountId, amount: nat)
      modifies this`backingHeld
      ensures SumBy(backingHeld, Holding()) == old(SumBy(backingHeld, Holding())) + amount
      ensures forall a :: a in backingHeld <==> a in old(backingHeld) || (a == account && amount > 0)
      ensures forall a :: a in backingHeld ==>
                backingHeld[a] == (if a in old(backingHeld) then old(backingHeld)[a] else 0)
                                  + (if a == account then amount else 0)
    {
      if amount == 0 {
        return;
      }
      var now: nat := (if account in backingHeld then backingHeld[account] else 0) + amount;
      SumUpdate(backingHeld, account, now, Holding());
      backingHeld := backingHeld[account := now];
    }

    /**
     Closes every position at the given price into the fund. False stands for a thrown
     exception: the asset was settled before, or a product overflows.
     */
    method GloballySettle(price: Price) returns (ok: bool)
      requires Valid() && price.Valid() && price.base.id == id && price.quote.id == backing
      requires 0 < supply <= MAX_SHARE_SUPPLY && TotalCollateral(calls) <= MAX_SHARE_SUPPLY
      modifies this`fund, this`settlement, this`calls, this`backingHeld
      ensures ok == (old(settlement).None? && Gathered(old(calls), id, price).Some?)
      ensures ok ==>
                && Valid() && calls == []
                && fund == Gathered(old(calls), id, price).value
                && settlement == Some(Price(Asset(supply, id), Asset(fund, backing)))
                && BackingTotal() == old(BackingTotal())
    {
      if settlement.Some? {
        return false;
      }
      var gathered, i := 0, 0;
      while i < |calls|
        invariant i <= |calls| && calls == old(calls) && settlement == old(settlement) && fund == 0
        invariant Gathered(calls[..i], id, price) == Some(gathered)
        invariant SumBy(backingHeld, Holding()) + gathered
                  == old(SumBy(backingHeld, Holding())) + TotalCollateral(calls[..i])
      {
        assert calls[..i + 1][..i] == calls[..i];
        var call := calls[i];
        var pays := TimesUp(Asset(call.debt, id), price);
        if pays.None? {
          GatheredFails(calls, id, price, i + 1);
          return false;
        }
        var paid := if pays.value.amount > call.collateral then call.collateral else pays.value.amount;
        gathered := gathered + paid;
        CreditBacking(call.borrower, call.collateral - paid);
        i := i + 1;
      }
      assert calls[..i] == calls && HeldTotal() <= supply;
      GatheredWithinCollateral(calls, id, price);
      calls := [];
      settlement := Some(Price(Asset(supply, id), Asset(gathered, backing)));
      fund := gathered;
      ok := true;
    }

    /** Redeems an amount a holder has; None stands for a thrown exception. */
    method Redeem(account: AccountId, amount: nat) returns (r: Option<Redemption>)
      requires Valid() && settlement.Some?
      requires account in held && amount <= held[account]
      modifies this`supply, this`fund, this`held, this`backingHeld
      ensures Valid()
      ensures r == SettlementFunds.Redeem(Pool(old(supply), old(fund), settlement.value), amount, predictionMarket)
      ensures r.None? ==> supply == old(supply) && fund == old(fund) && held == old(held) && backingHeld == old(backingHeld)
      ensures r.Some? ==>
                && r.value.pays <= amount
                && supply == old(supply) - r.value.pays && fund == old(fund) - r.value.receives
                && held == old(held)[account := old(held)[account] - r.value.pays]
                && HeldTotal() == old(HeldTotal()) - r.value.pays
                && BackingTotal() == old(BackingTotal())
    {
      EntryWithinSum(held, account, Holding());
      r := Quote(amount);
      if r.None? {
        return;
      }
      RedeemKeepsSolvent(Pool(supply, fund, settlement.value), amount, predictionMarket);
      PayOut(account, r.value.pays, r.value.receives);
    }

    /** The holder's amount leaves the supply, and its part of the fund goes to the holder. */
    method PayOut(account: AccountId, pays: nat, receives: nat)
      requires account in held && pays <= held[account] && pays <= supply && receives <= fund
      modifies this`supply, this`fund, this`held, this`backingHeld
      ensures supply == old(supply) - pays && fund == old(fund) - receives
      ensures held == old(held)[account := old(held)[account] - pays]
      ensures HeldTotal() == old(HeldTotal()) - pays && BackingTotal() == old(BackingTotal())
    {
      var left: nat := held[account] - pays;
      SumUpdate(held, account, left, Holding());
      held := held[account := left];
      fund := fund - receives;
      CreditBacking(account, receives);
      supply := supply - pays;
    }

    /** What an amount redeems for; the assertion inside holds for every amount in supply. */
    method Quote(amount: nat) returns (r: Option<Redemption>)
      requires Valid() && settlement.Some? && amount <= supply
      ensures r == SettlementFunds.Redeem(Pool(supply, fund, settlement.value), amount, predictionMarket)
    {
      ghost var pool := Pool(supply, fund, settlement.value);
      RedeemSucceeds(pool, amount, predictionMarket);
      var settled := FundShare(amount);
      ShareFits(pool, amount);
      if amount == supply {
        settled := fund;
      } else {
        assert settled <= fund;
      }
      if settled == 0 && !predictionMarket {
        return None;
      }
      RedeemKeepsSolvent(pool, amount, predictionMarket);
      var pays := amount;
      if amount != supply && settled != 0 {
        pays := TimesUp(Asset(settled, backing), settlement.value).value.amount;
      }
      return Some(Redemption(pays, settled, Pool(supply - pays, fund - settled, settlement.value)));
    }

    /** Refunds the bids that were not taken and ends the settlement. */
    method CancelBidsAndRevive()
      requires settlement.Some? && id != backing && fund == 0
      modifies this`bids, this`settlement, this`backingHeld
      ensures bids == [] && settlement == None
      ensures SumBy(backingHeld, Holding()) == old(SumBy(backingHeld, Holding())) + TotalBid(old(bids))
    {
      var i := 0;
      while i < |bids|
        invariant i <= |bids| && bids == old(bids)
        invariant SumBy(backingHeld, Holding()) == old(SumBy(backingHeld, Holding())) + TotalBid(bids[..i])
      {
        assert bids[..i + 1][..i] == bids[..i];
        CreditBacking(bids[i].bidder, bids[i].collateral);
        i := i + 1;
      }
      assert bids[..i] == bids;
      bids, settlement := [], None;
    }

    /** An amount of debt at the settlement price; the product never overflows. */
    method FundShare(debt: nat) returns (collateral: nat)
      requires settlement.Some? && settlement.value.base.id == id
      requires Pool(supply, fund, settlement.value).Solvent() && debt <= supply
      ensures collateral == Share(debt, settlement.value)
    {
      ShareFits(Pool(supply, fund, settlement.value), debt);
      collateral := Times(Asset(debt, id), settlement.value).value.amount;
    }

    method CheckBid(bid: Bid, feed: Price, maintenanceRatio: nat) returns (qualifies: bool)
      requires Valid() && settlement.Some?
      ensures qualifies == Qualifies(Pool(supply, fund, settlement.value), bid, feed, maintenanceRatio)
    {
      var debtInBid := Capped(bid, supply);
      var share := FundShare(debtInBid);
      var callPrice := CallPrice(Asset(debtInBid, id), Asset(share + bid.collateral, backing), maintenanceRatio);
      qualifies := callPrice.Some? && Less(callPrice.value.Inverse(), feed);
    }

    /** The number of bids to take, or None when those that qualify do not cover the supply. */
    method FindTaken(feed: Price, maintenanceRatio: nat) returns (r: Option<nat>)
      requires Valid() && settlement.Some?
      ensures r.Some? ==> Taken(Pool(supply, fund, settlement.value), bids, feed, maintenanceRatio, r.value)
      ensures r.None? ==> forall k :: !Taken(Pool(supply, fund, settlement.value), bids, feed, maintenanceRatio, k)
    {
      ghost var pool := Pool(supply, fund, settlement.value);
      var covered: nat, k: nat := 0, 0;
      while covered < supply && k < |bids|
        invariant k <= |bids| && covered == Covered(bids[..k], supply)
        invariant Walked(pool, bids, feed, maintenanceRatio, k)
      {
        var qualifies := CheckBid(bids[k], feed, maintenanceRatio);
        if !qualifies {
          break;
        }
        WalkOne(pool, bids, feed, maintenanceRatio, k);
        covered := covered + Capped(bids[k], supply);
        k := k + 1;
      }
      if covered < supply {
        NoneTaken(pool, bids, feed, maintenanceRatio, k);
        return None;
      }
      return Some(k);
    }

    /** One bid becomes a position; a bid that reaches what is left to cover takes all that is left. */
    method ExecuteBid(ghost pool: Pool, k: nat, i: nat, toCover: nat, remaining: nat) returns (toCover': nat, remaining': nat)
      requires settlement.Some? && settlement.value.base.id == id && pool == Pool(supply, fund, settlement.value)
      requires pool.Solvent() && Needed(pool, bids, k) && Covered(bids[..k], supply) >= supply && i < k
      requires Executing(pool, bids, k, i, toCover, remaining, calls)
      modifies this`calls
      ensures Executing(pool, bids, k, i + 1, toCover', remaining', calls)
    {
      var bid := bids[i];
      var debt := Capped(bid, supply);
      var collateral := FundShare(debt);
      if debt >= toCover {
        debt, collateral := toCover, remaining;
      }
      ExecutedOne(pool, bids, k, i, toCover, remaining, calls, debt, collateral);
      toCover', remaining' := toCover - debt, remaining - collateral;
      calls := calls + [Position(bid.bidder, bid.collateral + collateral, debt)];
    }

    /** The second loop: hands out the fund and the debt, everything that is left to the last bid. */
    method ExecuteBids(k: nat)
      requires Valid() && settlement.Some?
      requires Needed(Pool(supply, fund, settlement.value), bids, k) && Covered(bids[..k], supply) >= supply
      modifies this`fund, this`calls
      ensures fund == 0 && |calls| == k
      ensures TotalDebt(calls) == supply && TotalCollateral(calls) == old(fund) + TotalBid(bids[..k])
      ensures Executed(Pool(supply, old(fund), settlement.value), bids, k, calls)
    {
      ghost var pool := Pool(supply, fund, settlement.value);
      var toCover: nat, remaining: nat, i: nat := supply, fund, 0;
      assert pool.Solvent();
      while i < k
        invariant i <= k && fund == pool.fund
        invariant Executing(pool, bids, k, i, toCover, remaining, calls)
      {
        toCover, remaining := ExecuteBid(pool, k, i, toCover, remaining);
        i := i + 1;
      }
      assert remaining == 0;
      assert toCover == 0;
      fund := 0;
    }

    /**
     Lets the best bids take the whole debt over, if enough of them qualify. The two closing
     assertions of the source are the two assertions after the second loop here.
     */
    method ProcessBids(feed: Option<Price>, maintenanceRatio: nat) returns (revived: bool)
      requires Valid() && settlement.Some?
      modifies this`fund, this`settlement, this`calls, this`bids, this`backingHeld
      ensures Valid() && BackingTotal() == old(BackingTotal())
      ensures predictionMarket || feed.None? ==> !revived
      ensures !revived ==> fund == old(fund) && settlement == old(settlement) && calls == [] && bids == old(bids)
      ensures !revived && !predictionMarket && feed.Some? ==>
                forall k :: !Taken(Pool(supply, old(fund), old(settlement).value), old(bids), feed.value, maintenanceRatio, k)
      ensures revived ==>
                && settlement == None && fund == 0 && bids == [] && |calls| <= |old(bids)|
                && TotalDebt(calls) == supply
                && TotalCollateral(calls) == old(fund) + TotalBid(old(bids)[..|calls|])
      ensures revived ==>
                var pool := Pool(supply, old(fund), old(settlement).value);
                && Taken(pool, old(bids), feed.value, maintenanceRatio, |calls|)
                && Executed(pool, old(bids), |calls|, calls)
    {
      if predictionMarket || feed.None? {
        return false;
      }
      var k := FindTaken(feed.value, maintenanceRatio);
      if k.None? {
        return false;
      }
      TakeBids(k.value);
      revived := true;
    }

    /** Turns the first bids into positions, refunds the others and revives the asset. */
    method TakeBids(k: nat)
      requires Valid() && settlement.Some?
      requires Needed(Pool(supply, fund, settlement.value), bids, k) && Covered(bids[..k], supply) >= supply
      modifies this`fund, this`settlement, this`calls, this`bids, this`backingHeld
      ensures Valid() && BackingTotal() == old(BackingTotal())
      ensures settlement == None && fund == 0 && bids == [] && |calls| == k
      ensures TotalDebt(calls) == supply && TotalCollateral(calls) == old(fund) + TotalBid(old(bids)[..k])
      ensures Executed(Pool(supply, old(fund), old(settlement).value), old(bids), k, calls)
    {
      TotalBidSplit(bids, k);
      ExecuteBids(k);
      bids := bids[k..];
      CancelBidsAndRevive();
    }
  }
}

/**
 Force settlement: matching a settle order against the least collateralised position, and
 the loop that works off the due settle orders of every asset within its volume limit.
 */
module SettleMatching {
  import opened Amounts
  import opened Options
  import opened Positions
  import opened Prices

  datatype SettleOrder = SettleOrder(id: nat, owner: AccountId, asset: AssetId, balance: nat, date: nat)

  const FULL_PERCENT: nat := 10_000

  /** The settlement side of a market-issued asset. */
  datatype BitAsset = BitAsset(
    backing: AssetId, hasSettlement: bool, feed: Option<Price>,
    offsetPercent: nat, maxVolumePercent: nat, settledVolume: nat) {

    function MaxVolume(supply: int): int {
      if maxVolumePercent == 0 then 0
      else if maxVolumePercent == FULL_PERCENT then supply + settledVolume
      else (supply + settledVolume) * maxVolumePercent / FULL_PERCENT
    }

    predicate FillPriceIs(price: Price) {
      feed.Some? && feed.value.Valid() && FillPrice() == Some(price)
    }

    /** The feed lowered by the offset; None when the division by the ratio throws. */
    function FillPrice(): Option<Price>
      requires feed.Some? && feed.value.Valid()
    {
      if offsetPercent < FULL_PERCENT
      then Some(ScaledPrice(feed.value, FULL_PERCENT, FULL_PERCENT - offsetPercent)) else None
    }
  }

  /** A position that could pay its whole debt at the price. */
  predicate Enough(c: Position, price: Price) {
    && 0 < c.debt && c.collateral <= MAX_SHARE_SUPPLY
    && c.debt * price.quote.amount <= c.collateral * price.base.amount
  }

  /** Matched amounts, and whether what is left of the settle order is handed back. */
  datatype Matched = Matched(callPays: nat, callReceives: nat, cull: bool)

  /** The amounts of a match, in the price's base (debt) and quote (collateral) asset. */
  function MatchAmounts(c: Position, balance: nat, maxSettlement: nat, price: Price): (r: Option<Matched>)
    requires price.Valid()
  {
    var offered := Min(Min(balance, maxSettlement), c.debt);
    var pays :- Times(Asset(offered, price.base.id), price);
    if pays.amount == 0 then
      if offered == c.debt then Some(Matched(1, offered, false))
      else Some(Matched(0, 0, offered == balance))
    else if offered == c.debt then
      var up :- TimesUp(Asset(offered, price.base.id), price);
      Some(Matched(up.amount, offered, false))
    else
      var receives :- TimesUp(pays, price);
      Some(Matched(pays.amount, receives.amount, offered == balance && receives.amount != balance))
  }

  function After(c: Position, m: Matched): Position
    requires m.callPays <= c.collateral && m.callReceives <= c.debt
  {
    c.(collateral := c.collateral - m.callPays, debt := c.debt - m.callReceives)
  }

  /** The same amounts with the price as the ratio n / d, when no product overflows. */
  function MatchAt(offered: nat, debt: nat, balance: nat, n: nat, d: nat): Matched
    requires n > 0 && d > 0
  {
    var pays := MulDown(offered, n, d);
    if pays == 0 then
      if offered == debt then Matched(1, offered, false) else Matched(0, 0, offered == balance)
    else if offered == debt then Matched(MulUp(offered, n, d), offered, false)
    else
      var receives := MulUp(pays, d, n);
      Matched(pays, receives, offered == balance && receives != balance)
  }

  function Offered(c: Position, balance: nat, maxSettlement: nat): nat {
    Min(Min(balance, maxSettlement), c.debt)
  }

  /** Nothing overflows in a match of a position that could pay its whole debt. */
  lemma MatchIsMatchAt(c: Position, balance: nat, maxSettlement: nat, price: Price)
    requires price.Valid() && Enough(c, price) && balance <= MAX_SHARE_SUPPLY
    ensures MatchAmounts(c, balance, maxSettlement, price)
            == Some(MatchAt(Offered(c, balance, maxSettlement), c.debt, balance, price.quote.amount, price.base.amount))
    ensures c.collateral > 0
  {
    var n, d := price.quote.amount, price.base.amount;
    var offered := Offered(c, balance, maxSettlement);
    MulMono(offered, c.debt, n);
    UpIsSmallest(offered, n, d, c.collateral);
    DownLeUp(offered, n, d);
    MulMono(1, c.debt, n);
    MulCancelLt(0, c.collateral, d);
    RoundDownThenUp(offered, n, d);
  }

  /** A match takes no more than offered, pays the price, and leaves enough collateral. */
  lemma MatchAtFacts(c: Position, balance: nat, offered: nat, n: nat, d: nat)
    requires n > 0 && d > 0 && 0 < c.debt && c.debt * n <= c.collateral * d && offered <= c.debt
    ensures var m := MatchAt(offered, c.debt, balance, n, d);
            && m.callReceives <= offered && m.callPays <= c.collateral
            && (c.debt - m.callReceives) * n <= (c.collateral - m.callPays) * d
            && (m.callReceives < c.debt ==> m.callPays == MulDown(m.callReceives, n, d))
            && (m.callReceives == c.debt ==> m.callPays == MulUp(m.callReceives, n, d))
  {
    MulMono(offered, c.debt, n);
    UpIsSmallest(offered, n, d, c.collateral);
    DownLeUp(offered, n, d);
    assert MulDown(0, n, d) == 0;
    if offered == c.debt {
      if MulDown(offered, n, d) == 0 {
        DustRoundsUpToOne(offered, n, d);
      }
      WholeKeepsEnough(c, MulUp(offered, n, d), n, d);
    } else if MulDown(offered, n, d) > 0 {
      RoundDownThenUp(offered, n, d);
      PartKeepsEnough(c, MulDown(offered, n, d), MulUp(MulDown(offered, n, d), d, n), n, d);
    }
  }

  lemma WholeKeepsEnough(c: Position, pays: nat, n: nat, d: nat)
    requires pays <= c.collateral
    ensures (c.debt - c.debt) * n <= (c.collateral - pays) * d
  {
    MulMono(0, c.collateral - pays, d);
  }

  lemma DustRoundsUpToOne(a: nat, n: nat, d: nat)
    requires a > 0 && n > 0 && d > 0 && MulDown(a, n, d) == 0
    ensures MulUp(a, n, d) == 1
  {
    MulMono(1, a, n);
    DownBounds(a, n, d);
    UpIsSmallest(a, n, d, 0);
    UpIsSmallest(a, n, d, 1);
  }

  lemma PartKeepsEnough(c: Position, pays: nat, receives: nat, n: nat, d: nat)
    requires n > 0 && d > 0 && receives == MulUp(pays, d, n)
    requires c.debt * n <= c.collateral * d
    ensures (c.debt - receives) * n <= (c.collateral - pays) * d
  {
    UpBounds(pays, d, n);
    Distributes(c.debt, receives, n);
    Distributes(c.collateral, pays, d);
  }

  /**
   A position that could pay its whole debt at the price can pay every match at it, and can
   still pay all it owes afterwards; no assertion of the source fires. Each side pays the
   other the price: rounded down in part, rounded up when the position closes.
   */
  lemma MatchKeepsEnough(c: Position, balance: nat, maxSettlement: nat, price: Price)
    requires price.Valid() && Enough(c, price) && balance <= MAX_SHARE_SUPPLY
    ensures var r := MatchAmounts(c, balance, maxSettlement, price);
            && r.Some?
            && r.value.callPays <= c.collateral
            && r.value.callReceives <= Offered(c, balance, maxSettlement)
            && (r.value.callReceives < c.debt ==>
                && Enough(After(c, r.value), price)
                && r.value.callPays == MulDown(r.value.callReceives, price.quote.amount, price.base.amount))
            && (r.value.callReceives == c.debt ==>
                r.value.callPays == MulUp(r.value.callReceives, price.quote.amount, price.base.amount))
  {
    MatchIsMatchAt(c, balance, maxSettlement, price);
    MatchAtFacts(c, balance, Offered(c, balance, maxSettlement), price.quote.amount, price.base.amount);
  }

  /** A match that moves something closes the position or the order, or only dust of the volume is left. */
  lemma MatchCloses(c: Position, balance: nat, maxSettlement: nat, price: Price)
    requires price.Valid() && Enough(c, price) && balance <= MAX_SHARE_SUPPLY
    ensures var r := MatchAmounts(c, balance, maxSettlement, price);
            && r.Some? && r.value.callPays <= c.collateral && r.value.callReceives <= c.debt
            && (0 < r.value.callReceives < c.debt && r.value.callReceives < balance && !r.value.cull ==>
                && maxSettlement < balance && maxSettlement < c.debt && r.value.callReceives <= maxSettlement
                && MatchAmounts(After(c, r.value), balance - r.value.callReceives,
                                maxSettlement - r.value.callReceives, price) == Some(Matched(0, 0, false)))
  {
    var n, d, offered := price.quote.amount, price.base.amount, Offered(c, balance, maxSettlement);
    MatchIsMatchAt(c, balance, maxSettlement, price);
    MatchAtFacts(c, balance, offered, n, d);
    LeftoverIsDust(offered, n, d);
  }
}

module SettleQueues {
  import opened Amounts
  import Ledgers
  import opened Options
  import opened Positions
  import opened Prices
  import opened SettleMatching
  import opened Sums

  function DebtOf(): Position -> int {
    (c: Position) => c.debt
  }

  function CollateralOf(): Position -> int {
    (c: Position) => c.collateral
  }

  function OwedIn(a: AssetId): SettleOrder -> int {
    (o: SettleOrder) => if o.asset == a then o.balance else 0
  }

  function HeldIn(a: AssetId): ((AccountId, AssetId), nat) -> int {
    (k: (AccountId, AssetId), amount: nat) => if k.1 == a then amount else 0
  }

  ghost function PledgedIn(backing: map<AssetId, AssetId>, x: AssetId): (AssetId, seq<Position>) -> int {
    (a: AssetId, cs: seq<Position>) => if a in backing && backing[a] == x then SumSeq(cs, CollateralOf()) else 0
  }

  function SupplyOf(supply: map<AssetId, int>, a: AssetId): int {
    if a in supply then supply[a] else 0
  }

  ghost predicate AllEnough(cs: seq<Position>, price: Price) {
    forall k :: 0 <= k < |cs| ==> Enough(cs[k], price)
  }

  /** The positions with one relieved, or closed when its debt is gone. */
  function Filled(cs: seq<Position>, k: nat, pays: nat, receives: nat): seq<Position>
    requires k < |cs| && pays <= cs[k].collateral && receives <= cs[k].debt
  {
    if receives == cs[k].debt then cs[..k] + cs[k + 1..]
    else cs[k := cs[k].(collateral := cs[k].collateral - pays, debt := cs[k].debt - receives)]
  }

  /** Collateral a closed position gets back. */
  function Freed(c: Position, pays: nat, receives: nat): nat
    requires pays <= c.collateral
  {
    if receives == c.debt then c.collateral - pays else 0
  }

  lemma FilledSums(cs: seq<Position>, k: nat, pays: nat, receives: nat)
    requires k < |cs| && pays <= cs[k].collateral && receives <= cs[k].debt
    ensures var filled := Filled(cs, k, pays, receives);
            && SumSeq(filled, DebtOf()) == SumSeq(cs, DebtOf()) - receives
            && SumSeq(filled, CollateralOf()) == SumSeq(cs, CollateralOf()) - pays - Freed(cs[k], pays, receives)
  {
    var left := cs[k].(collateral := cs[k].collateral - pays, debt := cs[k].debt - receives);
    SumSeqChanges(cs, k, left, DebtOf());
    SumSeqChanges(cs, k, left, CollateralOf());
  }

  lemma ReceivesWithinOffer(c: Position, balance: nat, max: nat, price: Price)
    requires price.Valid() && balance <= MAX_SHARE_SUPPLY && MatchAmounts(c, balance, max, price).Some?
    ensures MatchAmounts(c, balance, max, price).value.callReceives <= Offered(c, balance, max)
  {
    RoundDownThenUp(Offered(c, balance, max), price.quote.amount, price.base.amount);
  }

  lemma MatchKeepsAllEnough(cs: seq<Position>, k: nat, balance: nat, max: nat, price: Price)
    requires price.Valid() && k < |cs| && AllEnough(cs, price) && balance <= MAX_SHARE_SUPPLY
    ensures var m := MatchAmounts(cs[k], balance, max, price);
            && m.Some? && m.value.callPays <= cs[k].collateral && m.value.callReceives <= cs[k].debt
            && AllEnough(Filled(cs, k, m.value.callPays, m.value.callReceives), price)
  {
    MatchKeepsEnough(cs[k], balance, max, price);
    var m := MatchAmounts(cs[k], balance, max, price).value;
    var filled := Filled(cs, k, m.callPays, m.callReceives);
    if m.callReceives == cs[k].debt {
      assert forall j :: 0 <= j < |filled| ==> filled[j] == if j < k then cs[j] else cs[j + 1];
    }
  }

  ghost predicate CoveredAsset(b: BitAsset, cs: seq<Position>)
    requires b.feed.Some? ==> b.feed.value.Valid()
  {
    !b.hasSettlement && b.feed.Some? ==> b.FillPrice().Some? && AllEnough(cs, b.FillPrice().value)
  }

  /** Every asset's positions could pay their whole debt at its fill price. */
  ghost predicate AllCovered(assets: map<AssetId, BitAsset>, calls: map<AssetId, seq<Position>>) {
    forall a :: a in assets ==>
      a in calls && (assets[a].feed.Some? ==> assets[a].feed.value.Valid()) && CoveredAsset(assets[a], calls[a])
  }

  /** The settled volume grew within its limit, and the supply shrank by as much. */
  ghost predicate Accounted(b: BitAsset, supply: int, b': BitAsset, supply': int) {
    && b' == b.(settledVolume := b'.settledVolume)
    && b.settledVolume <= b'.settledVolume
    && (b'.settledVolume <= b.settledVolume || b'.settledVolume <= b.MaxVolume(supply))
    && supply' == supply - (b'.settledVolume - b.settledVolume)
  }

  /** An order that stays in the queue: its asset is not settled, and with no feed it is not due. */
  ghost predicate MayStay(o: SettleOrder, assets: map<AssetId, BitAsset>, now: nat) {
    o.asset in assets && !assets[o.asset].hasSettlement && (assets[o.asset].feed.None? ==> o.date > now)
  }

  ghost predicate NotDue(o: SettleOrder, assets: map<AssetId, BitAsset>, now: nat) {
    o.asset in assets && !assets[o.asset].hasSettlement && o.date > now
  }

  /** The orders that are not due, in their order. */
  ghost function Waiting(orders: seq<SettleOrder>, assets: map<AssetId, BitAsset>, now: nat): seq<SettleOrder> {
    if orders == [] then []
    else (if NotDue(orders[0], assets, now) then [orders[0]] else []) + Waiting(orders[1..], assets, now)
  }

  lemma {:induction false} WaitingConcat(s: seq<SettleOrder>, t: seq<SettleOrder>, assets: map<AssetId, BitAsset>, now: nat)
    ensures Waiting(s + t, assets, now) == Waiting(s, assets, now) + Waiting(t, assets, now)
  {
    if s == [] {
      assert s + t == t;
    } else {
      assert (s + t)[1..] == s[1..] + t;
      WaitingConcat(s[1..], t, assets, now);
    }
  }

  /** Changing an order that is due leaves the waiting ones as they are. */
  lemma WaitingStays(before: seq<SettleOrder>, after: seq<SettleOrder>, i: nat, present: bool,
                     assets: map<AssetId, BitAsset>, now: nat)
    requires i < |before| && ReducedOrGone(before, after, i, present) && !NotDue(before[i], assets, now)
    ensures Waiting(after, assets, now) == Waiting(before, assets, now)
  {
    if present {
      WaitingReplaced(before, i, after[i], assets, now);
    } else {
      WaitingWithout(before, i, assets, now);
    }
  }

  lemma WaitingWithout(s: seq<SettleOrder>, i: nat, assets: map<AssetId, BitAsset>, now: nat)
    requires i < |s| && !NotDue(s[i], assets, now)
    ensures Waiting(s[..i] + s[i + 1..], assets, now) == Waiting(s, assets, now)
  {
    WaitingSplit(s, i, assets, now);
    WaitingConcat(s[..i], s[i + 1..], assets, now);
  }

  lemma WaitingReplaced(s: seq<SettleOrder>, i: nat, o: SettleOrder, assets: map<AssetId, BitAsset>, now: nat)
    requires i < |s| && !NotDue(s[i], assets, now) && !NotDue(o, assets, now)
    ensures Waiting(s[i := o], assets, now) == Waiting(s, assets, now)
  {
    WaitingSplit(s, i, assets, now);
    WaitingSplit(s[i := o], i, assets, now);
    assert s[i := o][..i] == s[..i] && s[i := o][i + 1..] == s[i + 1..];
  }

  lemma WaitingSplit(s: seq<SettleOrder>, i: nat, assets: map<AssetId, BitAsset>, now: nat)
    requires i < |s|
    ensures Waiting(s, assets, now)
            == Waiting(s[..i], assets, now) + (if NotDue(s[i], assets, now) then [s[i]] else []) + Waiting(s[i + 1..], assets, now)
  {
    assert s == s[..i] + s[i..];
    WaitingConcat(s[..i], s[i..], assets, now);
    assert s[i..][1..] == s[i + 1..];
  }

  ghost predicate AllAccounted(assets: map<AssetId, BitAsset>, supply: map<AssetId, int>,
                               assets': map<AssetId, BitAsset>, supply': map<AssetId, int>) {
    && assets'.Keys == assets.Keys
    && forall a :: a in assets ==> Accounted(assets[a], SupplyOf(supply, a), assets'[a], SupplyOf(supply', a))
  }

  /** What the clearing loop remembers: its asset, a failed attempt, and one asset's volume limit. */
  datatype Cursor = Cursor(current: AssetId, finished: bool, limitFor: Option<AssetId>, limit: int)

  /** The queue as the clearing loop found it, and the time it runs at. */
  datatype Start = Start(orders: seq<SettleOrder>, assets: map<AssetId, BitAsset>, supply: map<AssetId, int>, now: nat)

  /** Nothing but settling has happened since the start. */
  ghost predicate Tracked(start: Start, orders: seq<SettleOrder>, assets: map<AssetId, BitAsset>, supply: map<AssetId, int>) {
    && AllAccounted(start.assets, start.supply, assets, supply)
    && Waiting(orders, start.assets, start.now) == Waiting(start.orders, start.assets, start.now)
  }

  ghost predicate Finished(start: Start, orders: seq<SettleOrder>, assets: map<AssetId, BitAsset>, supply: map<AssetId, int>) {
    && Tracked(start, orders, assets, supply)
    && forall j :: 0 <= j < |orders| ==> MayStay(orders[j], start.assets, start.now)
  }

  /** Volume limits are taken before anything of their asset is settled. */
  ghost predicate CursorOk(start: Start, assets: map<AssetId, BitAsset>, supply: map<AssetId, int>, c: Cursor) {
    && (forall a :: a in assets && (a > c.current || (a == c.current && c.limitFor != Some(a))) ==>
          a in start.assets && assets[a] == start.assets[a] && SupplyOf(supply, a) == SupplyOf(start.supply, a))
    && (c.limitFor.Some? ==>
          && c.limitFor.value <= c.current && c.limitFor.value in start.assets
          && c.limit == start.assets[c.limitFor.value].MaxVolume(SupplyOf(start.supply, c.limitFor.value)))
  }

  /** The last n orders are those from the current asset on; everything before them may stay. */
  ghost predicate SplitAt(start: Start, orders: seq<SettleOrder>, c: Cursor, n: nat) {
    && n <= |orders|
    && (forall j :: 0 <= j < |orders| ==> (orders[j].asset < c.current <==> j < |orders| - n))
    && (forall j :: 0 <= j < |orders| - n ==> MayStay(orders[j], start.assets, start.now))
  }

  /** The loop is underway; untried is false once the current order can only be skipped. */
  ghost predicate Underway(start: Start, orders: seq<SettleOrder>, assets: map<AssetId, BitAsset>,
                           supply: map<AssetId, int>, c: Cursor, n: nat, untried: bool) {
    && Tracked(start, orders, assets, supply) && Sorted(orders)
    && (forall j :: 0 <= j < |orders| ==> orders[j].asset in assets)
    && CursorOk(start, assets, supply, c) && SplitAt(start, orders, c, n)
    && (!untried ==>
          && n > 0 && orders[|orders| - n].asset == c.current && c.current in assets
          && (c.finished || (c.limitFor == Some(c.current) && assets[c.current].settledVolume >= c.limit)))
  }

  /** A round ends the loop, or the loop is underway again and nearer to its end. */
  ghost predicate Progress(start: Start, orders: seq<SettleOrder>, assets: map<AssetId, BitAsset>,
                           supply: map<AssetId, int>, next: Option<Cursor>, n': nat, untried': bool, n: nat, untried: bool) {
    match next
    case None => Finished(start, orders, assets, supply)
    case Some(c) =>
      && Underway(start, orders, assets, supply, c, n', untried')
      && (n' < n || (n' == n && untried && !untried'))
  }

  /** The first order from the current asset on is where the loop stands; without one it has finished. */
  lemma AdvanceStaysUnderway(start: Start, orders: seq<SettleOrder>, assets: map<AssetId, BitAsset>,
                             supply: map<AssetId, int>, c: Cursor, n: nat, untried: bool, i: nat)
    requires Underway(start, orders, assets, supply, c, n, untried) && i <= |orders|
    requires forall j :: 0 <= j < |orders| ==> (j < i <==> orders[j].asset < c.current)
    ensures i == |orders| ==> Finished(start, orders, assets, supply)
    ensures i < |orders| ==>
              && i == |orders| - n
              && Underway(start, orders, assets, supply, c.(current := orders[i].asset), n, untried)
  {
    if i < |orders| {
      assert forall j :: i < j < |orders| ==> Before(orders[i], orders[j]);
    }
  }

  /** The cursor with its asset's volume limit, which is taken once. */
  function Limited(c: Cursor, b: BitAsset, supply: int): Cursor {
    if c.limitFor == Some(c.current) then c else c.(limitFor := Some(c.current), limit := b.MaxVolume(supply))
  }

  lemma LimitStaysUnderway(start: Start, orders: seq<SettleOrder>, assets: map<AssetId, BitAsset>,
                           supply: map<AssetId, int>, c: Cursor, n: nat, untried: bool)
    requires Underway(start, orders, assets, supply, c, n, untried) && c.current in assets
    ensures Underway(start, orders, assets, supply, Limited(c, assets[c.current], SupplyOf(supply, c.current)), n, untried)
  {
  }

  lemma CancelStaysUnderway(start: Start, orders: seq<SettleOrder>, assets: map<AssetId, BitAsset>,
                            supply: map<AssetId, int>, c: Cursor, n: nat, untried: bool)
    requires Underway(start, orders, assets, supply, c, n, untried)
    requires n > 0 && orders[|orders| - n].asset == c.current && !NotDue(orders[|orders| - n], assets, start.now)
    ensures var i := |orders| - n;
            Progress(start, orders[..i] + orders[i + 1..], assets, supply, Some(c), n - 1, true, n, untried)
  {
    var i := |orders| - n;
    var orders' := orders[..i] + orders[i + 1..];
    SortedWithout(orders, i);
    TrackedWithout(start, orders, assets, supply, i);
    SplitStays(start, orders, orders', c, n, false);
  }

  lemma SortedWithout(orders: seq<SettleOrder>, i: nat)
    requires Sorted(orders) && i < |orders|
    ensures Sorted(orders[..i] + orders[i + 1..])
    ensures forall j :: 0 <= j < |orders| - 1 ==>
              (orders[..i] + orders[i + 1..])[j] == if j < i then orders[j] else orders[j + 1]
  {
  }

  lemma TrackedWithout(start: Start, orders: seq<SettleOrder>, assets: map<AssetId, BitAsset>,
                       supply: map<AssetId, int>, i: nat)
    requires Tracked(start, orders, assets, supply) && i < |orders| && orders[i].asset in assets
    requires !NotDue(orders[i], assets, start.now)
    ensures Tracked(start, orders[..i] + orders[i + 1..], assets, supply)
  {
    var a := orders[i].asset;
    assert Accounted(start.assets[a], SupplyOf(start.supply, a), assets[a], SupplyOf(supply, a));
    WaitingStays(orders, orders[..i] + orders[i + 1..], i, false, start.assets, start.now);
  }

  lemma SettleStaysUnderway(start: Start, orders: seq<SettleOrder>, assets: map<AssetId, BitAsset>,
                            supply: map<AssetId, int>, orders': seq<SettleOrder>, assets': map<AssetId, BitAsset>,
                            supply': map<AssetId, int>, c: Cursor, n: nat, present: bool, unable: bool)
    requires Underway(start, orders, assets, supply, c, n, true)
    requires n > 0 && orders[|orders| - n].asset == c.current && c.limitFor == Some(c.current)
    requires orders[|orders| - n].date <= start.now && Sorted(orders') && c.current in supply
    requires c.current in assets' && assets' == assets[c.current := assets'[c.current]]
    requires assets'[c.current] == assets[c.current].(settledVolume := assets'[c.current].settledVolume)
    requires assets[c.current].settledVolume <= assets'[c.current].settledVolume <= c.limit
    requires supply' == supply[c.current := supply[c.current]
                                            - (assets'[c.current].settledVolume - assets[c.current].settledVolume)]
    requires present ==> assets'[c.current].settledVolume >= c.limit || unable
    requires ReducedOrGone(orders, orders', |orders| - n, present)
    ensures present ==> Underway(start, orders', assets', supply', c.(finished := c.finished || unable), n, false)
    ensures !present ==> Underway(start, orders', assets', supply', c, n - 1, true)
  {
    var i := |orders| - n;
    WaitingStays(orders, orders', i, present, start.assets, start.now);
    VolumeStaysTracked(start, assets, supply, assets', supply', c);
    SplitStays(start, orders, orders', c, n, present);
    assert Tracked(start, orders', assets', supply');
  }

  /** The cursor after an order was settled, or was found to be unable to. */
  function Moved(c: Cursor, n: nat, present: bool, unable: bool): (Cursor, int) {
    if present then (c.(finished := c.finished || unable), n) else (c, n - 1)
  }

  lemma SettledStaysUnderway(start: Start, before: Books, assets: map<AssetId, BitAsset>, now: Books,
                             assets': map<AssetId, BitAsset>, c: Cursor, n: nat, present: bool, unable: bool)
    requires Underway(start, before.orders, assets, before.supply, c, n, true)
    requires 0 < n <= |before.orders| && before.orders[|before.orders| - n].asset == c.current && c.limitFor == Some(c.current)
    requires before.orders[|before.orders| - n].date <= start.now && Sorted(now.orders)
    requires SettledBy(before, assets, now, assets', |before.orders| - n, c.limit, present, unable)
    ensures var (c', n') := Moved(c, n, present, unable);
            n' >= 0 && Progress(start, now.orders, assets', now.supply, Some(c'), n', !present, n, true)
  {
    SettleStaysUnderway(start, before.orders, assets, before.supply, now.orders, assets', now.supply, c, n, present, unable);
  }

  lemma SplitStays(start: Start, orders: seq<SettleOrder>, orders': seq<SettleOrder>, c: Cursor, n: nat, present: bool)
    requires SplitAt(start, orders, c, n) && n > 0 && ReducedOrGone(orders, orders', |orders| - n, present)
    ensures SplitAt(start, orders', c, if present then n else n - 1)
  {
    var i := |orders| - n;
    if !present {
      assert forall j :: 0 <= j < |orders'| ==> orders'[j] == if j < i then orders[j] else orders[j + 1];
    }
  }

  lemma VolumeStaysTracked(start: Start, assets: map<AssetId, BitAsset>, supply: map<AssetId, int>,
                           assets': map<AssetId, BitAsset>, supply': map<AssetId, int>, c: Cursor)
    requires AllAccounted(start.assets, start.supply, assets, supply) && CursorOk(start, assets, supply, c)
    requires c.current in assets && c.current in supply && c.limitFor == Some(c.current)
    requires c.current in assets' && assets' == assets[c.current := assets'[c.current]]
    requires assets'[c.current] == assets[c.current].(settledVolume := assets'[c.current].settledVolume)
    requires assets[c.current].settledVolume <= assets'[c.current].settledVolume <= c.limit
    requires supply' == supply[c.current := supply[c.current]
                                            - (assets'[c.current].settledVolume - assets[c.current].settledVolume)]
    ensures AllAccounted(start.assets, start.supply, assets', supply')
    ensures CursorOk(start, assets', supply', c)
  {
    assert Accounted(start.assets[c.current], SupplyOf(start.supply, c.current), assets[c.current], SupplyOf(supply, c.current));
  }

  lemma SkipStaysUnderway(start: Start, orders: seq<SettleOrder>, assets: map<AssetId, BitAsset>,
                          supply: map<AssetId, int>, c: Cursor, n: nat, untried: bool, u: nat)
    requires Underway(start, orders, assets, supply, c, n, untried)
    requires n > 0 && orders[|orders| - n].asset == c.current && MayStay(orders[|orders| - n], assets, start.now)
    requires u <= |orders| && forall j :: 0 <= j < |orders| ==> (j < u <==> orders[j].asset <= c.current)
    ensures forall j :: 0 <= j < u ==> MayStay(orders[j], start.assets, start.now)
    ensures u < |orders| ==>
              && |orders| - u < n
              && Underway(start, orders, assets, supply, c.(current := orders[u].asset, finished := false), |orders| - u, true)
  {
    var i := |orders| - n;
    assert Accounted(start.assets[c.current], SupplyOf(start.supply, c.current), assets[c.current], SupplyOf(supply, c.current));
    assert forall j :: i < j < |orders| ==> Before(orders[i], orders[j]);
    assert u < |orders| ==> forall j :: u < j < |orders| ==> Before(orders[u], orders[j]);
  }

  /** The first position has no more collateral per debt than the second. */
  predicate NotBetter(c: Position, d: Position) {
    c.collateral * d.debt <= d.collateral * c.debt
  }

  lemma NotBetterTransitive(b: Position, c: Position, d: Position)
    requires b.debt > 0 && c.debt > 0 && d.debt > 0
    requires NotBetter(b, c) && NotBetter(c, d)
    ensures NotBetter(b, d)
  {
    MulMono(b.collateral * c.debt, c.collateral * b.debt, d.debt);
    MulMono(c.collateral * d.debt, d.collateral * c.debt, b.debt);
    assert (b.collateral * d.debt) * c.debt == (b.collateral * c.debt) * d.debt;
    assert (c.collateral * b.debt) * d.debt == (c.collateral * d.debt) * b.debt;
    assert (d.collateral * c.debt) * b.debt == (d.collateral * b.debt) * c.debt;
    MulCancelLe(b.collateral * d.debt, d.collateral * b.debt, c.debt);
  }

  /** Only the order at i changed: it lost some of its balance, or it is gone. */
  ghost predicate ReducedOrGone(before: seq<SettleOrder>, now: seq<SettleOrder>, i: nat, present: bool)
    requires i < |before|
  {
    if present then
      && |now| == |before| && now[i].balance <= before[i].balance
      && now == before[i := before[i].(balance := now[i].balance)]
    else
      now == before[..i] + before[i + 1..]
  }

  /** Reducing or removing a reduced order is reducing or removing the original. */
  lemma ReducedTwice(before: seq<SettleOrder>, mid: seq<SettleOrder>, now: seq<SettleOrder>, i: nat, present: bool)
    requires i < |before| && ReducedOrGone(before, mid, i, true) && ReducedOrGone(mid, now, i, present)
    ensures ReducedOrGone(before, now, i, present)
  {
  }

  /** Settle orders are kept by asset, then date, then id. */
  predicate Before(o: SettleOrder, p: SettleOrder) {
    o.asset < p.asset || (o.asset == p.asset && (o.date < p.date || (o.date == p.date && o.id < p.id)))
  }

  ghost predicate Sorted(orders: seq<SettleOrder>) {
    forall i, j :: 0 <= i < j < |orders| ==> Before(orders[i], orders[j])
  }

  ghost predicate QueueOk(backing: map<AssetId, AssetId>, orders: seq<SettleOrder>, assets: map<AssetId, BitAsset>,
                          calls: map<AssetId, seq<Position>>, supply: map<AssetId, int>) {
    && Sorted(orders)
    && (forall i :: 0 <= i < |orders| ==> orders[i].asset in assets && orders[i].balance <= MAX_SHARE_SUPPLY)
    && (forall a :: a in assets ==> AssetOk(a, backing, orders, assets[a], calls, supply))
  }

  /** The supply is what the positions owe, and covers the orders waiting to be settled. */
  ghost predicate AssetOk(a: AssetId, backing: map<AssetId, AssetId>, orders: seq<SettleOrder>, b: BitAsset,
                          calls: map<AssetId, seq<Position>>, supply: map<AssetId, int>) {
    && a in calls && a in backing && a in supply
    && (b.feed.Some? ==>
          b.feed.value.Valid() && b.feed.value.base.id == a && b.feed.value.quote.id == backing[a])
    && (forall k :: 0 <= k < |calls[a]| ==> calls[a][k].debt > 0)
    && (!b.hasSettlement ==>
          SumSeq(calls[a], DebtOf()) == supply[a] && SumSeq(orders, OwedIn(a)) <= supply[a])
  }

  /** The queue with one order reduced or removed. */
  function Reduced(orders: seq<SettleOrder>, i: nat, pays: nat): seq<SettleOrder>
    requires i < |orders| && pays <= orders[i].balance
  {
    if pays == orders[i].balance then orders[..i] + orders[i + 1..]
    else orders[i := orders[i].(balance := orders[i].balance - pays)]
  }

  /** After both sides of a match are filled the queue is in order again. */
  lemma FilledStaysOk(backing: map<AssetId, AssetId>, orders: seq<SettleOrder>, assets: map<AssetId, BitAsset>,
                      calls: map<AssetId, seq<Position>>, supply: map<AssetId, int>,
                      a: AssetId, k: nat, i: nat, pays: nat, receives: nat)
    requires QueueOk(backing, orders, assets, calls, supply)
    requires i < |orders| && orders[i].asset == a && receives <= orders[i].balance
    requires k < |calls[a]| && pays <= calls[a][k].collateral && receives <= calls[a][k].debt
    ensures QueueOk(backing, Reduced(orders, i, receives), assets, calls[a := Filled(calls[a], k, pays, receives)],
                    supply[a := supply[a] - receives])
  {
    var orders', calls' := Reduced(orders, i, receives), calls[a := Filled(calls[a], k, pays, receives)];
    ReducedStaysSorted(orders, i, receives);
    FilledSums(calls[a], k, pays, receives);
    forall b | b in assets
      ensures AssetOk(b, backing, orders', assets[b], calls', supply[a := supply[a] - receives])
    {
      assert AssetOk(b, backing, orders, assets[b], calls, supply);
      SumSeqChanges(orders, i, orders[i].(balance := orders[i].balance - receives), OwedIn(b));
    }
  }

  lemma ReducedStaysSorted(orders: seq<SettleOrder>, i: nat, pays: nat)
    requires Sorted(orders) && i < |orders| && pays <= orders[i].balance
    ensures Sorted(Reduced(orders, i, pays))
    ensures forall o :: o in Reduced(orders, i, pays) ==>
              exists j :: 0 <= j < |orders| && orders[j].asset == o.asset && o.balance <= orders[j].balance
  {
    var r := Reduced(orders, i, pays);
    forall j | 0 <= j < |r|
      ensures ReducedFrom(orders, i, pays, j) < |orders| && SameSlot(r[j], orders[ReducedFrom(orders, i, pays, j)])
    {
    }
    forall j, k | 0 <= j < k < |r|
      ensures Before(r[j], r[k])
    {
      assert SameSlot(r[j], orders[ReducedFrom(orders, i, pays, j)]);
      assert SameSlot(r[k], orders[ReducedFrom(orders, i, pays, k)]);
    }
    forall o | o in r
      ensures exists j :: 0 <= j < |orders| && orders[j].asset == o.asset && o.balance <= orders[j].balance
    {
      var j :| 0 <= j < |r| && r[j] == o;
      assert SameSlot(o, orders[ReducedFrom(orders, i, pays, j)]);
    }
  }

  /** Where an order of the reduced queue stood before. */
  function ReducedFrom(orders: seq<SettleOrder>, i: nat, pays: nat, j: nat): nat
    requires i < |orders|
  {
    if pays == orders[i].balance && j >= i then j + 1 else j
  }

  predicate SameSlot(o: SettleOrder, before: SettleOrder) {
    o.id == before.id && o.asset == before.asset && o.date == before.date && o.balance <= before.balance
  }

  /** No asset takes more than the whole of a payment as its market fee. */
  ghost predicate FeesOk(marketFees: map<AssetId, Ledgers.MarketFee>) {
    forall a :: a in marketFees ==> marketFees[a].Valid()
  }

  function FeeOn(marketFees: map<AssetId, Ledgers.MarketFee>, a: AssetId, amount: nat): nat {
    if a in marketFees then marketFees[a].On(amount) else 0
  }

  lemma FeeWithin(marketFees: map<AssetId, Ledgers.MarketFee>, a: AssetId, amount: nat)
    requires FeesOk(marketFees)
    ensures FeeOn(marketFees, a, amount) <= amount
  {
    if a in marketFees {
      marketFees[a].WithinAmount(amount);
    }
  }

  /** What working an order off changes. */
  datatype Books = Books(orders: seq<SettleOrder>, calls: map<AssetId, seq<Position>>, supply: map<AssetId, int>)

  /** A match of order i with position k of its asset relieves both of what was settled. */
  ghost predicate MatchedBy(before: Books, now: Books, a: AssetId, k: nat, i: nat, price: Price, max: nat,
                            got: nat, present: bool) {
    && i < |before.orders| && price.Valid()
    && a in before.calls && a in before.supply && k < |before.calls[a]|
    && var m := MatchAmounts(before.calls[a][k], before.orders[i].balance, max, price);
       && m.Some? && got == m.value.callReceives && got <= max && got <= before.orders[i].balance
       && got <= before.calls[a][k].debt && m.value.callPays <= before.calls[a][k].collateral
       && present == (!m.value.cull && got < before.orders[i].balance)
       && now.calls == (if got == 0 then before.calls
                        else before.calls[a := Filled(before.calls[a], k, m.value.callPays, got)])
       && now.supply == before.supply[a := before.supply[a] - got]
       && now.orders == if present then Reduced(before.orders, i, got)
                        else before.orders[..i] + before.orders[i + 1..]
  }

  /** One order is reduced or gone, only its asset's positions and supply change, and they stay covered. */
  ghost predicate WorkedBy(before: Books, now: Books, i: nat, settled: int, present: bool, price: Price) {
    && i < |before.orders|
    && var a := before.orders[i].asset;
       && a in before.calls && a in before.supply && a in now.calls
       && now.supply == before.supply[a := before.supply[a] - settled]
       && now.calls == before.calls[a := now.calls[a]]
       && (AllEnough(before.calls[a], price) ==> AllEnough(now.calls[a], price))
       && ReducedOrGone(before.orders, now.orders, i, present)
  }

  /** A match that moves nothing leaves the position, and hands the order back or leaves it too. */
  lemma NothingMatched(before: Books, now: Books, a: AssetId, k: nat, i: nat, price: Price, max: nat)
    requires i < |before.orders| && price.Valid() && a in before.calls && a in before.supply && k < |before.calls[a]|
    requires var m := MatchAmounts(before.calls[a][k], before.orders[i].balance, max, price);
             && m.Some? && m.value.callReceives == 0
             && now == before.(orders := if m.value.cull then before.orders[..i] + before.orders[i + 1..]
                                         else before.orders)
             && before.orders[i].balance > 0 && before.calls[a][k].debt > 0
    ensures var cull := MatchAmounts(before.calls[a][k], before.orders[i].balance, max, price).value.cull;
            MatchedBy(before, now, a, k, i, price, max, 0, !cull)
  {
    assert before.orders == before.orders[i := before.orders[i].(balance := before.orders[i].balance - 0)];
    assert before.supply == before.supply[a := before.supply[a] - 0];
  }

  /** The amounts of a match that moves something, filled on both sides. */
  lemma SomethingMatched(before: Books, now: Books, a: AssetId, k: nat, i: nat, price: Price, max: nat)
    requires i < |before.orders| && price.Valid() && before.orders[i].balance <= MAX_SHARE_SUPPLY
    requires a in before.calls && a in before.supply && k < |before.calls[a]|
    requires var (c, balance) := (before.calls[a][k], before.orders[i].balance);
             var m := MatchAmounts(c, balance, max, price);
             && m.Some? && m.value.callPays <= c.collateral && 0 < m.value.callReceives <= Min(c.debt, balance)
             && now.calls == before.calls[a := Filled(before.calls[a], k, m.value.callPays, m.value.callReceives)]
             && now.supply == before.supply[a := before.supply[a] - m.value.callReceives]
             && now.orders == if !m.value.cull && m.value.callReceives < balance
                              then Reduced(before.orders, i, m.value.callReceives)
                              else before.orders[..i] + before.orders[i + 1..]
    ensures var m := MatchAmounts(before.calls[a][k], before.orders[i].balance, max, price).value;
            MatchedBy(before, now, a, k, i, price, max, m.callReceives,
                      !m.cull && m.callReceives < before.orders[i].balance)
  {
    ReceivesWithinOffer(before.calls[a][k], before.orders[i].balance, max, price);
  }

  lemma MatchedIsWorked(before: Books, now: Books, a: AssetId, k: nat, i: nat, price: Price, max: nat,
                        got: nat, present: bool)
    requires MatchedBy(before, now, a, k, i, price, max, got, present)
    requires before.orders[i].asset == a && before.orders[i].balance <= MAX_SHARE_SUPPLY
    ensures WorkedBy(before, now, i, got, present, price)
  {
    if AllEnough(before.calls[a], price) {
      MatchKeepsAllEnough(before.calls[a], k, before.orders[i].balance, max, price);
    }
  }

  lemma WorkedTwice(before: Books, mid: Books, now: Books, i: nat, first: int, second: int, present: bool, price: Price)
    requires WorkedBy(before, mid, i, first, true, price) && WorkedBy(mid, now, i, second, present, price)
    ensures WorkedBy(before, now, i, first + second, present, price)
  {
    ReducedTwice(before.orders, mid.orders, now.orders, i, present);
  }

  /** Working an order off, with the settled volume recorded. */
  ghost predicate SettledBy(before: Books, assets: map<AssetId, BitAsset>, now: Books, assets': map<AssetId, BitAsset>,
                            i: nat, maxVolume: int, present: bool, unable: bool) {
    && i < |before.orders|
    && var a := before.orders[i].asset;
       && a in assets && a in assets' && a in before.supply
       && assets' == assets[a := assets[a].(settledVolume := assets'[a].settledVolume)]
       && assets[a].settledVolume <= assets'[a].settledVolume <= maxVolume
       && now.supply == before.supply[a := before.supply[a] - (assets'[a].settledVolume - assets[a].settledVolume)]
       && (present ==> assets'[a].settledVolume >= maxVolume || unable)
       && ReducedOrGone(before.orders, now.orders, i, present)
  }

  lemma WorkedIsSettled(before: Books, now: Books, assets: map<AssetId, BitAsset>, i: nat, settled: int, maxVolume: int,
                        present: bool, unable: bool, price: Price)
    requires i < |before.orders| && before.orders[i].asset in assets
    requires var a := before.orders[i].asset;
             && WorkedBy(before, now, i, settled - assets[a].settledVolume, present, price)
             && 0 <= assets[a].settledVolume <= settled <= maxVolume && (present ==> settled >= maxVolume || unable)
    ensures var a := before.orders[i].asset;
            var assets' := assets[a := assets[a].(settledVolume := settled)];
            && SettledBy(before, assets, now, assets', i, maxVolume, present, unable)
            && (AllCovered(assets, before.calls) && assets[a].FillPriceIs(price) ==> AllCovered(assets', now.calls))
  {
  }

  lemma VolumeStaysOk(backing: map<AssetId, AssetId>, orders: seq<SettleOrder>, assets: map<AssetId, BitAsset>,
                      calls: map<AssetId, seq<Position>>, supply: map<AssetId, int>, a: AssetId, volume: nat)
    requires QueueOk(backing, orders, assets, calls, supply) && a in assets
    ensures QueueOk(backing, orders, assets[a := assets[a].(settledVolume := volume)], calls, supply)
  {
    var assets' := assets[a := assets[a].(settledVolume := volume)];
    forall b | b in assets'
      ensures AssetOk(b, backing, orders, assets'[b], calls, supply)
    {
      assert AssetOk(b, backing, orders, assets[b], calls, supply);
    }
  }

  /** Balances and accumulated fees. */
  ghost function HeldOf(balances: map<(AccountId, AssetId), nat>, fees: map<AssetId, int>, x: AssetId): int {
    SumBy(balances, HeldIn(x)) + SupplyOf(fees, x)
  }

  /** Everything of an asset held, pledged or waiting, less what is in supply. */
  ghost function TotalOf(backing: map<AssetId, AssetId>, orders: seq<SettleOrder>, calls: map<AssetId, seq<Position>>,
                         supply: map<AssetId, int>, balances: map<(AccountId, AssetId), nat>, fees: map<AssetId, int>,
                         x: AssetId): int {
    HeldOf(balances, fees, x) + SumSeq(orders, OwedIn(x)) + SumBy(calls, PledgedIn(backing, x)) - SupplyOf(supply, x)
  }

  function BalanceOf(balances: map<(AccountId, AssetId), nat>, account: AccountId, a: AssetId): nat {
    if (account, a) in balances then balances[(account, a)] else 0
  }

  function Credited(balances: map<(AccountId, AssetId), nat>, account: AccountId, a: AssetId, amount: nat):
      map<(AccountId, AssetId), nat>
  {
    if amount == 0 then balances else balances[(account, a) := BalanceOf(balances, account, a) + amount]
  }

  function FeeAdded(fees: map<AssetId, int>, a: AssetId, fee: nat): map<AssetId, int> {
    if fee == 0 then fees else fees[a := SupplyOf(fees, a) + fee]
  }

  /** All that settling changes, and what the three elementary steps do to it. */
  datatype Queue = Queue(orders: seq<SettleOrder>, calls: map<AssetId, seq<Position>>, supply: map<AssetId, int>,
                         balances: map<(AccountId, AssetId), nat>, fees: map<AssetId, int>) {

    /** The order at i is handed back. */
    function Cancelled(i: nat): Queue
      requires i < |orders|
    {
      var o := orders[i];
      this.(orders := orders[..i] + orders[i + 1..], balances := Credited(balances, o.owner, o.asset, o.balance))
    }

    /** Position k of an asset pays in the backing asset; what a closed one has left goes to its borrower. */
    function CallFilled(backing: AssetId, a: AssetId, k: nat, pays: nat, receives: nat): Queue
      requires a in calls && a in supply && k < |calls[a]|
      requires pays <= calls[a][k].collateral && receives <= calls[a][k].debt
    {
      var c := calls[a][k];
      this.(calls := calls[a := Filled(calls[a], k, pays, receives)], supply := supply[a := supply[a] - receives],
            balances := Credited(balances, c.borrower, backing, Freed(c, pays, receives)))
    }

    /** The order at i pays, and its owner receives another asset less the market fee. */
    function SettleFilled(i: nat, pays: nat, received: AssetId, receives: nat, fee: nat): Queue
      requires i < |orders| && pays <= orders[i].balance && fee <= receives
    {
      this.(orders := Reduced(orders, i, pays), fees := FeeAdded(fees, received, fee),
            balances := Credited(balances, orders[i].owner, received, receives - fee))
    }
  }

  lemma CreditedHeld(balances: map<(AccountId, AssetId), nat>, fees: map<AssetId, int>, account: AccountId, a: AssetId,
                     amount: nat, x: AssetId)
    ensures HeldOf(Credited(balances, account, a, amount), fees, x)
            == HeldOf(balances, fees, x) + (if x == a then amount else 0)
  {
    var now: nat := BalanceOf(balances, account, a) + amount;
    SumUpdate(balances, (account, a), now, HeldIn(x));
  }

  /** What filling a position moves out in the backing asset, and takes out of the supply. */
  lemma CallFilledTotal(backing: map<AssetId, AssetId>, q: Queue, a: AssetId, k: nat, pays: nat, receives: nat, x: AssetId)
    requires a in backing && a in q.calls && a in q.supply && k < |q.calls[a]|
    requires pays <= q.calls[a][k].collateral && receives <= q.calls[a][k].debt
    ensures var q' := q.CallFilled(backing[a], a, k, pays, receives);
            TotalOf(backing, q'.orders, q'.calls, q'.supply, q'.balances, q'.fees, x)
            == TotalOf(backing, q.orders, q.calls, q.supply, q.balances, q.fees, x)
               - (if x == backing[a] then pays else 0) + (if x == a then receives else 0)
  {
    var c := q.calls[a][k];
    FilledSums(q.calls[a], k, pays, receives);
    SumUpdate(q.calls, a, Filled(q.calls[a], k, pays, receives), PledgedIn(backing, x));
    CreditedHeld(q.balances, q.fees, c.borrower, backing[a], Freed(c, pays, receives), x);
    assert SupplyOf(q.supply[a := q.supply[a] - receives], x) == SupplyOf(q.supply, x) - (if x == a then receives else 0);
  }

  /** Filling a settle order moves its payment out and the whole of what it receives in, fee or not. */
  lemma SettleFilledTotal(backing: map<AssetId, AssetId>, q: Queue, i: nat, pays: nat, received: AssetId, receives: nat,
                          fee: nat, x: AssetId)
    requires i < |q.orders| && pays <= q.orders[i].balance && fee <= receives
    ensures var q' := q.SettleFilled(i, pays, received, receives, fee);
            TotalOf(backing, q'.orders, q'.calls, q'.supply, q'.balances, q'.fees, x)
            == TotalOf(backing, q.orders, q.calls, q.supply, q.balances, q.fees, x)
               + (if x == received then receives else 0) - (if x == q.orders[i].asset then pays else 0)
  {
    var o := q.orders[i];
    SumSeqChanges(q.orders, i, o.(balance := o.balance - pays), OwedIn(x));
    CreditedHeld(q.balances, FeeAdded(q.fees, received, fee), o.owner, received, receives - fee, x);
  }

  /** Handing an order back moves nothing. */
  lemma CancelledTotal(backing: map<AssetId, AssetId>, q: Queue, i: nat, x: AssetId)
    requires i < |q.orders|
    ensures var q' := q.Cancelled(i);
            TotalOf(backing, q'.orders, q'.calls, q'.supply, q'.balances, q'.fees, x)
            == TotalOf(backing, q.orders, q.calls, q.supply, q.balances, q.fees, x)
  {
    var o := q.orders[i];
    SumSeqChanges(q.orders, i, o, OwedIn(x));
    CreditedHeld(q.balances, q.fees, o.owner, o.asset, o.balance, x);
  }

  lemma CancelledStaysOk(backing: map<AssetId, AssetId>, orders: seq<SettleOrder>, assets: map<AssetId, BitAsset>,
                         calls: map<AssetId, seq<Position>>, supply: map<AssetId, int>, i: nat)
    requires QueueOk(backing, orders, assets, calls, supply) && i < |orders|
    ensures QueueOk(backing, orders[..i] + orders[i + 1..], assets, calls, supply)
  {
    var orders' := orders[..i] + orders[i + 1..];
    SortedWithout(orders, i);
    forall b | b in assets
      ensures AssetOk(b, backing, orders', assets[b], calls, supply)
    {
      assert AssetOk(b, backing, orders, assets[b], calls, supply);
      SumSeqChanges(orders, i, orders[i], OwedIn(b));
    }
  }

  class SettleQueue {
    const backing: map<AssetId, AssetId>
    var orders: seq<SettleOrder>
    var assets: map<AssetId, BitAsset>
    var calls: map<AssetId, seq<Position>>
    var supply: map<AssetId, int>
    var balances: map<(AccountId, AssetId), nat>
    /** Market fees the assets have accumulated, and what they charge. */
    var fees: map<AssetId, int>
    const marketFees: map<AssetId, Ledgers.MarketFee>

    ghost predicate Valid()
      reads this`orders, this`assets, this`calls, this`supply
    {
      QueueOk(backing, orders, assets, calls, supply) && FeesOk(marketFees)
    }

    /** Every position of a settleable asset could pay its whole debt at the fill price. */
    ghost predicate Covered()
      reads this`assets, this`calls
    {
      AllCovered(assets, calls)
    }

    ghost function Total(x: AssetId): int
      reads this`balances, this`fees, this`orders, this`calls, this`supply
    {
      TotalOf(backing, orders, calls, supply, balances, fees, x)
    }

    ghost function View(): Queue
      reads this`orders, this`calls, this`supply, this`balances, this`fees
    {
      Queue(orders, calls, supply, balances, fees)
    }

    constructor (backing: map<AssetId, AssetId>, marketFees: map<AssetId, Ledgers.MarketFee>)
      requires FeesOk(marketFees)
      ensures Valid() && this.backing == backing && this.marketFees == marketFees && orders == [] && assets == map[]
    {
      this.backing, this.marketFees := backing, marketFees;
      orders, assets, calls, supply, balances, fees := [], map[], map[], map[], map[], map[];
    }

    method Credit(account: AccountId, a: AssetId, amount: nat)
      modifies this`balances
      ensures balances == Credited(old(balances), account, a, amount)
    {
      if amount != 0 {
        balances := balances[(account, a) := BalanceOf(balances, account, a) + amount];
      }
    }

    /** Refunds and removes the order at a position. */
    method CancelAt(i: nat)
      requires Valid() && i < |orders|
      modifies this`orders, this`balances
      ensures Valid() && orders == old(orders)[..i] + old(orders)[i + 1..]
      ensures View() == old(View()).Cancelled(i)
      ensures forall x :: Total(x) == old(Total(x))
    {
      CancelledStaysOk(backing, orders, assets, calls, supply, i);
      forall x {
        CancelledTotal(backing, View(), i, x);
      }
      var order := orders[i];
      Credit(order.owner, order.asset, order.balance);
      orders := orders[..i] + orders[i + 1..];
    }

    /** Position k pays and is relieved; a closed position frees the rest of its collateral. */
    method FillCall(a: AssetId, k: nat, pays: nat, receives: nat)
      requires a in calls && a in backing && a in supply && k < |calls[a]|
      requires pays <= calls[a][k].collateral && receives <= calls[a][k].debt
      modifies this`calls, this`supply, this`balances, this`fees
      ensures calls == old(calls)[a := Filled(old(calls)[a], k, pays, receives)]
      ensures supply == old(supply)[a := old(supply)[a] - receives]
      ensures View() == old(View()).CallFilled(backing[a], a, k, pays, receives)
      ensures SumSeq(calls[a], DebtOf()) == SumSeq(old(calls)[a], DebtOf()) - receives
      ensures forall x :: Total(x) == old(Total(x)) - (if x == backing[a] then pays else 0) + (if x == a then receives else 0)
    {
      var c := calls[a][k];
      FilledSums(calls[a], k, pays, receives);
      forall x {
        CallFilledTotal(backing, View(), a, k, pays, receives, x);
      }
      Credit(c.borrower, backing[a], Freed(c, pays, receives));
      calls := calls[a := Filled(calls[a], k, pays, receives)];
      supply := supply[a := supply[a] - receives];
    }

    /** The asset's market fee on a payment goes to its accumulated fees. */
    method PayMarketFee(a: AssetId, amount: nat) returns (fee: nat)
      requires FeesOk(marketFees)
      modifies this`fees
      ensures fee == FeeOn(marketFees, a, amount) <= amount
      ensures fees == FeeAdded(old(fees), a, fee)
    {
      FeeWithin(marketFees, a, amount);
      fee := FeeOn(marketFees, a, amount);
      if fee > 0 {
        fees := fees[a := SupplyOf(fees, a) + fee];
      }
    }

    /** An account receives an amount less the market fee. */
    method PayOwner(account: AccountId, a: AssetId, amount: nat)
      requires FeesOk(marketFees)
      modifies this`balances, this`fees
      ensures var fee := FeeOn(marketFees, a, amount);
              && fee <= amount && fees == FeeAdded(old(fees), a, fee)
              && balances == Credited(old(balances), account, a, amount - fee)
    {
      var fee := PayMarketFee(a, amount);
      Credit(account, a, amount - fee);
    }

    /** The settle order pays; its owner is credited less the market fee, and a fully paid order is removed. */
    method FillSettle(i: nat, pays: nat, received: AssetId, receives: nat) returns (filled: bool)
      requires i < |orders| && pays <= orders[i].balance && FeesOk(marketFees)
      modifies this`orders, this`balances, this`fees
      ensures filled == (pays == old(orders)[i].balance)
      ensures orders == Reduced(old(orders), i, pays)
      ensures var fee := FeeOn(marketFees, received, receives);
              fee <= receives && View() == old(View()).SettleFilled(i, pays, received, receives, fee)
      ensures forall x :: Total(x) == old(Total(x)) + (if x == received then receives else 0)
                                      - (if x == old(orders)[i].asset then pays else 0)
    {
      FeeWithin(marketFees, received, receives);
      forall x {
        SettleFilledTotal(backing, View(), i, pays, received, receives, FeeOn(marketFees, received, receives), x);
      }
      var order := orders[i];
      PayOwner(order.owner, received, receives);
      filled := !(pays < order.balance);
      if filled {
        orders := orders[..i] + orders[i + 1..];
      } else {
        orders := orders[i := order.(balance := order.balance - pays)];
      }
    }

    /** One match; false stands for a thrown exception. */
    method MatchOrder(a: AssetId, k: nat, i: nat, price: Price, max: nat) returns (ok: bool, got: nat, present: bool)
      requires Valid() && i < |orders| && orders[i].asset == a && !assets[a].hasSettlement
      requires k < |calls[a]| && orders[i].balance > 0
      requires price.Valid() && price.base.id == a && price.quote.id == backing[a]
      modifies this`orders, this`calls, this`supply, this`balances, this`fees
      ensures Enough(old(calls)[a][k], price) ==> ok
      ensures ok ==> Valid() && forall x :: Total(x) == old(Total(x))
      ensures ok ==> MatchedBy(Books(old(orders), old(calls), old(supply)), Books(orders, calls, supply),
                               a, k, i, price, max, got, present)
    {
      var c, order := calls[a][k], orders[i];
      var r := MatchAmounts(c, order.balance, max, price);
      if Enough(c, price) {
        MatchKeepsEnough(c, order.balance, max, price);
      }
      if r.None? {
        return false, 0, true;
      }
      var m := r.value;
      ghost var before := Books(orders, calls, supply);
      ReceivesWithinOffer(c, order.balance, max, price);
      if m.callReceives == 0 {
        if m.cull {
          CancelAt(i);
        }
        NothingMatched(before, Books(orders, calls, supply), a, k, i, price, max);
        return true, 0, !m.cull;
      }
      if m.callPays > c.collateral {
        return false, 0, true;
      }
      present := ApplyMatch(a, k, i, m);
      SomethingMatched(before, Books(orders, calls, supply), a, k, i, price, max);
      return true, m.callReceives, present;
    }

    method ApplyMatch(a: AssetId, k: nat, i: nat, m: Matched) returns (present: bool)
      requires Valid() && i < |orders| && orders[i].asset == a && !assets[a].hasSettlement
      requires k < |calls[a]| && m.callPays <= calls[a][k].collateral && a != backing[a]
      requires 0 < m.callReceives <= calls[a][k].debt && m.callReceives <= orders[i].balance
      requires m.cull ==> m.callReceives < orders[i].balance
      modifies this`orders, this`calls, this`supply, this`balances, this`fees
      ensures Valid() && forall x :: Total(x) == old(Total(x))
      ensures present == (!m.cull && m.callReceives < old(orders)[i].balance)
      ensures calls == old(calls)[a := Filled(old(calls)[a], k, m.callPays, m.callReceives)]
      ensures supply == old(supply)[a := old(supply)[a] - m.callReceives]
      ensures orders == if present then Reduced(old(orders), i, m.callReceives)
                        else old(orders)[..i] + old(orders)[i + 1..]
    {
      present := !m.cull && m.callReceives < orders[i].balance;
      assert AssetOk(a, backing, orders, assets[a], calls, supply);
      FilledStaysOk(backing, orders, assets, calls, supply, a, k, i, m.callPays, m.callReceives);
      FillBoth(a, k, i, m);
      if m.cull {
        CancelAt(i);
      }
    }

    method FillBoth(a: AssetId, k: nat, i: nat, m: Matched)
      requires FeesOk(marketFees) && a in calls && a in backing && a in supply && i < |orders| && orders[i].asset == a
      requires k < |calls[a]| && m.callPays <= calls[a][k].collateral
      requires m.callReceives <= calls[a][k].debt && m.callReceives <= orders[i].balance
      modifies this`orders, this`calls, this`supply, this`balances, this`fees
      ensures forall x :: Total(x) == old(Total(x))
      ensures calls == old(calls)[a := Filled(old(calls)[a], k, m.callPays, m.callReceives)]
      ensures supply == old(supply)[a := old(supply)[a] - m.callReceives]
      ensures orders == Reduced(old(orders), i, m.callReceives)
    {
      FillCall(a, k, m.callPays, m.callReceives);
      var filled := FillSettle(i, m.callReceives, backing[a], m.callPays);
    }

    /** The position that would be called first: least collateral per debt. */
    method LeastCollateralised(a: AssetId) returns (k: nat)
      requires a in calls && calls[a] != []
      requires forall j :: 0 <= j < |calls[a]| ==> calls[a][j].debt > 0
      ensures k < |calls[a]| && forall j :: 0 <= j < |calls[a]| ==> NotBetter(calls[a][k], calls[a][j])
    {
      var cs := calls[a];
      k := 0;
      var j := 1;
      while j < |cs|
        invariant k < j <= |cs|
        invariant forall l :: 0 <= l < j ==> NotBetter(cs[k], cs[l])
      {
        if cs[j].collateral * cs[k].debt < cs[k].collateral * cs[j].debt {
          forall l | 0 <= l < j
            ensures NotBetter(cs[j], cs[l])
          {
            NotBetterTransitive(cs[j], cs[k], cs[l]);
          }
          k := j;
        }
        j := j + 1;
      }
    }

    /** There is always a position to match an order with. */
    lemma SomePositionOwes(i: nat)
      requires Valid() && i < |orders| && !assets[orders[i].asset].hasSettlement && orders[i].balance > 0
      ensures calls[orders[i].asset] != []
    {
      var a := orders[i].asset;
      assert AssetOk(a, backing, orders, assets[a], calls, supply);
      ElementWithinSum(orders, i, OwedIn(a));
    }

    /** One match of an order with the least collateralised position. */
    method WorkOnce(i: nat, room: nat, price: Price) returns (ok: bool, got: nat, present: bool)
      requires Valid() && i < |orders| && !assets[orders[i].asset].hasSettlement && orders[i].balance > 0
      requires price.Valid() && price.base.id == orders[i].asset && price.quote.id == backing[orders[i].asset]
      modifies this`orders, this`calls, this`supply, this`balances, this`fees
      ensures AllEnough(old(calls)[old(orders)[i].asset], price) ==> ok
      ensures ok ==>
                && Valid() && (forall x :: Total(x) == old(Total(x))) && got <= room
                && WorkedBy(Books(old(orders), old(calls), old(supply)), Books(orders, calls, supply), i,
                            got, present, price)
    {
      var a := orders[i].asset;
      SomePositionOwes(i);
      assert AssetOk(a, backing, orders, assets[a], calls, supply);
      var k := LeastCollateralised(a);
      assert unchanged(this);
      ghost var before := Books(orders, calls, supply);
      ok, got, present := MatchOrder(a, k, i, price, room);
      if ok {
        MatchedIsWorked(before, Books(orders, calls, supply), a, k, i, price, room, got, present);
      }
    }

    /** An order that owes nothing is cancelled instead. */
    method WorkOrCancel(i: nat, room: nat, price: Price) returns (ok: bool, got: nat, present: bool)
      requires Valid() && i < |orders| && !assets[orders[i].asset].hasSettlement
      requires price.Valid() && price.base.id == orders[i].asset && price.quote.id == backing[orders[i].asset]
      modifies this`orders, this`calls, this`supply, this`balances, this`fees
      ensures AllEnough(old(calls)[old(orders)[i].asset], price) ==> ok
      ensures ok ==>
                && Valid() && (forall x :: Total(x) == old(Total(x))) && got <= room
                && WorkedBy(Books(old(orders), old(calls), old(supply)), Books(orders, calls, supply), i,
                            got, present, price)
    {
      if orders[i].balance == 0 {
        assert AssetOk(orders[i].asset, backing, orders, assets[orders[i].asset], calls, supply);
        CancelAt(i);
        return true, 0, false;
      }
      ok, got, present := WorkOnce(i, room, price);
    }

    /**
     Works one order off until it is gone, the volume is reached, or a match moves nothing.
     False stands for a thrown exception.
     */
    method WorkOff(i: nat, maxVolume: int, price: Price) returns (ok: bool, settled: int, present: bool, unable: bool)
      requires Valid() && i < |orders| && !assets[orders[i].asset].hasSettlement
      requires price.Valid() && price.base.id == orders[i].asset && price.quote.id == backing[orders[i].asset]
      requires assets[orders[i].asset].settledVolume < maxVolume
      modifies this`orders, this`calls, this`supply, this`balances, this`fees
      ensures AllEnough(old(calls)[old(orders)[i].asset], price) ==> ok
      ensures ok ==>
                var before := assets[old(orders)[i].asset].settledVolume;
                && Valid() && (forall x :: Total(x) == old(Total(x)))
                && before <= settled <= maxVolume
                && WorkedBy(Books(old(orders), old(calls), old(supply)), Books(orders, calls, supply), i,
                            settled - before, present, price)
                && (present ==> settled >= maxVolume || unable)
    {
      var a := orders[i].asset;
      settled, present, unable := assets[a].settledVolume, true, false;
      ghost var volume, start := settled, Books(orders, calls, supply);
      assert AssetOk(a, backing, orders, assets[a], calls, supply);
      while settled < maxVolume && present
        invariant Valid() && forall x :: Total(x) == old(Total(x))
        invariant volume <= settled <= maxVolume && !unable
        invariant WorkedBy(Books(old(orders), old(calls), old(supply)), Books(orders, calls, supply), i,
                           settled - assets[a].settledVolume, present, price)
        decreases maxVolume - settled, present
      {
        ghost var mid := Books(orders, calls, supply);
        var got;
        ok, got, present := WorkOrCancel(i, maxVolume - settled, price);
        if !ok {
          return;
        }
        WorkedTwice(start, mid, Books(orders, calls, supply), i, settled - volume, got, present, price);
        settled := settled + got;
        if got == 0 {
          unable := present;
          break;
        }
      }
      ok := true;
    }

    /** Works one due order off and records the volume. */
    method SettleDue(i: nat, maxVolume: int) returns (ok: bool, present: bool, unable: bool)
      requires Valid() && i < |orders| && !assets[orders[i].asset].hasSettlement && assets[orders[i].asset].feed.Some?
      requires assets[orders[i].asset].settledVolume < maxVolume
      modifies this`orders, this`assets, this`calls, this`supply, this`balances, this`fees
      ensures old(Covered()) ==> ok && Covered()
      ensures ok ==> Valid() && forall x :: Total(x) == old(Total(x))
      ensures ok ==> SettledBy(Books(old(orders), old(calls), old(supply)), old(assets), Books(orders, calls, supply),
                               assets, i, maxVolume, present, unable)
    {
      var a := orders[i].asset;
      var price := PriceFor(a);
      assert unchanged(this);
      if price.None? {
        return false, true, false;
      }
      ghost var before := Books(orders, calls, supply);
      var settled;
      ok, settled, present, unable := WorkOff(i, maxVolume, price.value);
      if ok {
        label Worked:
        Record(a, settled);
        assert forall x :: Total(x) == old@Worked(Total(x));
        WorkedIsSettled(before, Books(orders, calls, supply), old(assets), i, settled, maxVolume,
                        present, unable, price.value);
      }
    }

    /** The price settle orders of an asset are filled at; None when it cannot be computed. */
    method PriceFor(a: AssetId) returns (price: Option<Price>)
      requires Valid() && a in assets && assets[a].feed.Some?
      ensures price == assets[a].FillPrice()
      ensures price.Some? ==> price.value.Valid() && price.value.base.id == a && price.value.quote.id == backing[a]
      ensures a in calls && a in backing
      ensures Covered() && !assets[a].hasSettlement ==> price.Some? && AllEnough(calls[a], price.value)
    {
      assert AssetOk(a, backing, orders, assets[a], calls, supply);
      price := assets[a].FillPrice();
      if price.Some? {
        ScaledInRange(assets[a].feed.value, FULL_PERCENT, FULL_PERCENT - assets[a].offsetPercent);
      }
    }

    /** Records the volume of an asset settled so far. */
    method Record(a: AssetId, volume: nat)
      requires Valid() && a in assets
      modifies this`assets
      ensures Valid() && assets == old(assets)[a := old(assets)[a].(settledVolume := volume)]
    {
      VolumeStaysOk(backing, orders, assets, calls, supply, a, volume);
      assets := assets[a := assets[a].(settledVolume := volume)];
    }

    /** The first order whose asset is at least, or beyond, the given one. */
    method Bound(a: AssetId, beyond: bool) returns (i: nat)
      requires Sorted(orders)
      ensures i <= |orders|
      ensures forall j :: 0 <= j < |orders| ==> (j < i <==> orders[j].asset < a || (beyond && orders[j].asset == a))
    {
      i := 0;
      while i < |orders| && (orders[i].asset < a || (beyond && orders[i].asset == a))
        invariant i <= |orders|
        invariant forall j :: 0 <= j < i ==> orders[j].asset < a || (beyond && orders[j].asset == a)
      {
        i := i + 1;
      }
    }

    /**
     Works off the due settle orders of every asset: each round the current order is consumed,
     or is tried once more, or the next asset is turned to. False stands for a thrown exception.
     */
    method ClearExpired(now: nat) returns (ok: bool)
      requires Valid()
      modifies this`orders, this`assets, this`calls, this`supply, this`balances, this`fees
      ensures old(Covered()) ==> ok
      ensures ok ==> Valid() && (old(Covered()) ==> Covered())
      ensures ok ==> forall x :: Total(x) == old(Total(x))
      ensures ok ==> Finished(Start(old(orders), old(assets), old(supply), now), orders, assets, supply)
    {
      if orders == [] {
        return true;
      }
      var next := Some(Cursor(orders[0].asset, false, None, 0));
      ghost var start := Start(orders, assets, supply, now);
      ghost var n: nat := |orders|;
      ghost var untried := true;
      while next.Some?
        invariant Valid() && (old(Covered()) ==> Covered())
        invariant forall x :: Total(x) == old(Total(x))
        invariant if next.None? then Finished(start, orders, assets, supply)
                  else Underway(start, orders, assets, supply, next.value, n, untried)
        decreases next.Some?, n, untried
      {
        ok, next, n, untried := Round(start, now, next.value, n, untried);
        if !ok {
          return;
        }
      }
      ok := true;
    }

    /** One round of the loop: an order is consumed or tried, or the loop turns to the next asset. */
    method Round(ghost start: Start, now: nat, c: Cursor, ghost n: nat, ghost untried: bool)
      returns (ok: bool, next: Option<Cursor>, ghost n': nat, ghost untried': bool)
      requires Valid() && now == start.now && Underway(start, orders, assets, supply, c, n, untried)
      modifies this`orders, this`assets, this`calls, this`supply, this`balances, this`fees
      ensures old(Covered()) ==> ok && Valid() && Covered()
      ensures ok ==> Valid() && forall x :: Total(x) == old(Total(x))
      ensures ok ==> Progress(start, orders, assets, supply, next, n', untried', n, untried)
    {
      var i := Bound(c.current, false);
      assert unchanged(this);
      AdvanceStaysUnderway(start, orders, assets, supply, c, n, untried, i);
      if i == |orders| {
        return true, None, n, untried;
      }
      var there := c.(current := orders[i].asset);
      ok, next, n', untried' := Handle(start, now, i, there, n, untried);
    }

    method Handle(ghost start: Start, now: nat, i: nat, c: Cursor, ghost n: nat, ghost untried: bool)
      returns (ok: bool, next: Option<Cursor>, ghost n': nat, ghost untried': bool)
      requires Valid() && now == start.now && Underway(start, orders, assets, supply, c, n, untried)
      requires n > 0 && i == |orders| - n && orders[i].asset == c.current
      modifies this`orders, this`assets, this`calls, this`supply, this`balances, this`fees
      ensures old(Covered()) ==> ok && Valid() && Covered()
      ensures ok ==> Valid() && forall x :: Total(x) == old(Total(x))
      ensures ok ==> Progress(start, orders, assets, supply, next, n', untried', n, untried)
    {
      var b := assets[c.current];
      if b.hasSettlement || (orders[i].date <= now && b.feed.None?) {
        CancelRound(start, i, c, n, untried);
        return true, Some(c), n - 1, true;
      }
      ok, next, n', untried' := HandleLive(start, now, i, c, n, untried);
    }

    /** An order of an asset that can be settled: skipped before it is due, else tried within the asset's limit. */
    method HandleLive(ghost start: Start, now: nat, i: nat, c: Cursor, ghost n: nat, ghost untried: bool)
      returns (ok: bool, next: Option<Cursor>, ghost n': nat, ghost untried': bool)
      requires Valid() && now == start.now && Underway(start, orders, assets, supply, c, n, untried)
      requires n > 0 && i == |orders| - n && orders[i].asset == c.current
      requires !assets[c.current].hasSettlement && (assets[c.current].feed.None? ==> orders[i].date > now)
      modifies this`orders, this`assets, this`calls, this`supply, this`balances, this`fees
      ensures old(Covered()) ==> ok && Valid() && Covered()
      ensures ok ==> Valid() && forall x :: Total(x) == old(Total(x))
      ensures ok ==> Progress(start, orders, assets, supply, next, n', untried', n, untried)
    {
      if orders[i].date > now {
        ok, untried' := true, true;
        next, n' := SkipAsset(start, i, c, n, untried);
        return;
      }
      LimitStaysUnderway(start, orders, assets, supply, c, n, untried);
      var limited := Limited(c, assets[c.current], SupplyOf(supply, c.current));
      ok, next, n', untried' := TryOrSkip(start, i, limited, n, untried);
    }

    method CancelRound(ghost start: Start, i: nat, c: Cursor, ghost n: nat, ghost untried: bool)
      requires Valid() && Underway(start, orders, assets, supply, c, n, untried)
      requires n > 0 && i == |orders| - n && orders[i].asset == c.current && !NotDue(orders[i], assets, start.now)
      modifies this`orders, this`balances
      ensures Valid() && (old(Covered()) ==> Covered()) && forall x :: Total(x) == old(Total(x))
      ensures Progress(start, orders, assets, supply, Some(c), n - 1, true, n, untried)
    {
      CancelAt(i);
      CancelStaysUnderway(start, old(orders), assets, supply, c, n, untried);
    }

    method TryOrSkip(ghost start: Start, i: nat, c: Cursor, ghost n: nat, ghost untried: bool)
      returns (ok: bool, next: Option<Cursor>, ghost n': nat, ghost untried': bool)
      requires Valid() && Underway(start, orders, assets, supply, c, n, untried)
      requires n > 0 && i == |orders| - n && orders[i].asset == c.current && orders[i].date <= start.now
      requires !assets[c.current].hasSettlement && assets[c.current].feed.Some? && c.limitFor == Some(c.current)
      modifies this`orders, this`assets, this`calls, this`supply, this`balances, this`fees
      ensures old(Covered()) ==> ok && Valid() && Covered()
      ensures ok ==> Valid() && forall x :: Total(x) == old(Total(x))
      ensures ok ==> Progress(start, orders, assets, supply, next, n', untried', n, untried)
    {
      if assets[c.current].settledVolume >= c.limit || c.finished {
        ok, untried' := true, true;
        next, n' := SkipAsset(start, i, c, n, untried);
        return;
      }
      ok, next, n', untried' := Settle(start, i, c, n, untried);
    }

    method Settle(ghost start: Start, i: nat, c: Cursor, ghost n: nat, ghost untried: bool)
      returns (ok: bool, next: Option<Cursor>, ghost n': nat, ghost untried': bool)
      requires Valid() && Underway(start, orders, assets, supply, c, n, untried) && untried
      requires n > 0 && i == |orders| - n && orders[i].asset == c.current && orders[i].date <= start.now
      requires !assets[c.current].hasSettlement && assets[c.current].feed.Some?
      requires c.limitFor == Some(c.current) && assets[c.current].settledVolume < c.limit
      modifies this`orders, this`assets, this`calls, this`supply, this`balances, this`fees
      ensures old(Covered()) ==> ok && Valid() && Covered()
      ensures ok ==> Valid() && forall x :: Total(x) == old(Total(x))
      ensures ok ==> Progress(start, orders, assets, supply, next, n', untried', n, untried)
    {
      ghost var before, assets' := Books(orders, calls, supply), assets;
      var present, unable;
      ok, present, unable := SettleDue(i, c.limit);
      if !ok {
        return ok, Some(c), n, untried;
      }
      SettledStaysUnderway(start, before, assets', Books(orders, calls, supply), assets, c, n, present, unable);
      if present {
        return ok, Some(c.(finished := c.finished || unable)), n, false;
      }
      return ok, Some(c), n - 1, true;
    }

    /** Turns to the next asset, if there is one. */
    method SkipAsset(ghost start: Start, i: nat, c: Cursor, ghost n: nat, ghost untried: bool)
      returns (next: Option<Cursor>, ghost n': nat)
      requires Sorted(orders) && Underway(start, orders, assets, supply, c, n, untried)
      requires n > 0 && i == |orders| - n && orders[i].asset == c.current
      requires !assets[c.current].hasSettlement && (assets[c.current].feed.None? ==> orders[i].date > start.now)
      ensures Progress(start, orders, assets, supply, next, n', true, n, untried)
    {
      var u := Bound(c.current, true);
      assert MayStay(orders[i], assets, start.now);
      SkipStaysUnderway(start, orders, assets, supply, c, n, untried, u);
      if u == |orders| {
        return None, n;
      }
      return Some(c.(current := orders[u].asset, finished := false)), |orders| - u;
    }
  }
}

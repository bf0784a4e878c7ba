/**
 Orders that ask for more than the maximum share supply: when they make a new order fail,
 and how one comes to rest in the book.
 */
module OverAsking {
  import opened Amounts
  import opened CalledOrders
  import opened Conservation
  import opened Ledgers
  import opened LimitOrders
  import opened MarketRuns
  import opened Options
  import opened OrderBooks
  import opened Positions
  import opened Prices
  import opened Sums

  // --- When a new order fails ---------------------------------------------------------------------

  predicate AsksTooMuch(o: LimitOrder) {
    o.ToReceive().None?
  }

  /** What an order asks for all it has left, rounded down. */
  function Wanted(o: LimitOrder): nat {
    if o.sellPrice.base.amount == 0 then 0 else MulDown(o.forSale, o.sellPrice.quote.amount, o.sellPrice.base.amount)
  }

  /** The crossing orders that ask too much. */
  function Blocking(orders: Orders, id: OrderId): set<OrderId>
    requires id in orders
  {
    set i | i in Crossing(orders, id) && AsksTooMuch(orders[i])
  }

  /** The crossing orders before the first one that asks too much; all of them if there is none. */
  function Reachable(orders: Orders, id: OrderId): set<OrderId>
    requires id in orders
  {
    set i | i in Crossing(orders, id) && forall j :: j in Blocking(orders, id) ==> Precedes(orders, i, j)
  }

  function Restricted(orders: Orders, s: set<OrderId>): Orders {
    map i | i in orders && i in s :: orders[i]
  }

  function WantedBy(): (OrderId, LimitOrder) -> int {
    (_, o: LimitOrder) => Wanted(o)
  }

  /** What the new order has for sale beyond what the reachable orders want of it. */
  ghost function Left(orders: Orders, id: OrderId): int
    requires id in orders
  {
    orders[id].forSale - SumBy(Restricted(orders, Reachable(orders, id)), WantedBy())
  }

  lemma NotOwnRange(orders: Orders, id: OrderId)
    requires id in orders && orders[id].Valid()
    ensures id !in Crossing(orders, id)
  {
  }

  /** The taker goes on exactly when it has more than the maker wants, and then with just that much less. */
  lemma MatchLeaves(b: Books, id: OrderId, maker: OrderId)
    requires id in b.limitOrders && maker in b.limitOrders && maker != id && Rests(b.limitOrders[maker])
    requires Matchable(b.limitOrders[id], b.limitOrders[maker]) && b.Match(id, maker).Some?
    ensures var (b', result) := b.Match(id, maker).value;
            var (taker, wanted) := (b.limitOrders[id], Wanted(b.limitOrders[maker]));
            && (result == 2 <==> taker.forSale > wanted)
            && (result == 2 ==> id in b'.limitOrders && b'.limitOrders[id] == Remaining(taker, wanted))
  {
    var taker, rest := b.limitOrders[id], b.limitOrders[maker];
    MatchIs(taker, rest);
    var t := LimitOrders.MatchAmounts(taker, rest).value;
    if t.Trade? {
      TradeIsCullable(taker, rest, t);
      OneSideIsDone(taker, rest);
      FillBothOutcome(b, id, maker, t.pays, t.receives, t.cullTaker);
    }
  }

  /** The book one match later, when only the maker is gone. */
  ghost predicate OnlyGone(orders: Orders, id: OrderId, maker: OrderId, orders': Orders) {
    && id in orders && id in orders' && maker in orders && maker != id && orders'.Keys == orders.Keys - {maker}
    && orders'[id].sellPrice == orders[id].sellPrice && orders'[id].forSale == orders[id].forSale - Wanted(orders[maker])
    && (forall i :: i in orders' && i != id ==> orders'[i] == orders[i])
  }

  lemma OnlyMakerGone(b: Books, id: OrderId, maker: OrderId)
    requires BookBut(b.limitOrders, id) && id in b.limitOrders && maker in b.limitOrders && maker != id
    requires Rests(b.limitOrders[maker]) && Matchable(b.limitOrders[id], b.limitOrders[maker])
    requires b.Match(id, maker).Some? && b.Match(id, maker).value.1 == 2
    ensures OnlyGone(b.limitOrders, id, maker, b.Match(id, maker).value.0.limitOrders)
  {
    MatchOutcome(b, id, maker);
    MatchKeepsBook(b, id, maker);
    MatchLeaves(b, id, maker);
    var orders: Orders, orders': Orders := b.limitOrders, b.Match(id, maker).value.0.limitOrders;
    forall i | i in orders' && i != id
      ensures orders'[i] == orders[i]
    {
      assert i in orders' - {id} - {maker};
      assert (orders - {id} - {maker})[i] == orders[i];
    }
  }

  /** The first crossing order is reachable unless it asks too much itself, and then none is. */
  lemma FirstIsReachable(orders: Orders, id: OrderId)
    requires AllValid(orders) && id in orders && Crossing(orders, id) != {}
    ensures var maker := First(orders, Crossing(orders, id));
            if AsksTooMuch(orders[maker]) then maker in Blocking(orders, id) && Reachable(orders, id) == {}
            else maker in Reachable(orders, id) && maker !in Blocking(orders, id)
  {
    var maker := First(orders, Crossing(orders, id));
    if AsksTooMuch(orders[maker]) {
      forall i | i in Crossing(orders, id)
        ensures !Precedes(orders, i, maker)
      {
        if i != maker {
          assert Precedes(orders, maker, i);
          LessTransitive(orders[i].sellPrice, orders[maker].sellPrice, orders[i].sellPrice);
        }
      }
    }
  }

  /** The crossing orders after a match that takes one of them away. */
  lemma CrossingLess(orders: Orders, id: OrderId, maker: OrderId, orders': Orders)
    requires OnlyGone(orders, id, maker, orders') && orders[id].Valid() && orders'[id].Valid()
    ensures Crossing(orders', id) == Crossing(orders, id) - {maker}
    ensures Blocking(orders', id) == Blocking(orders, id) - {maker}
  {
    NotOwnRange(orders, id);
    NotOwnRange(orders', id);
  }

  lemma ReachableLess(orders: Orders, id: OrderId, maker: OrderId, orders': Orders)
    requires OnlyGone(orders, id, maker, orders') && orders[id].Valid() && orders'[id].Valid()
    requires maker in Reachable(orders, id) && maker !in Blocking(orders, id)
    ensures Reachable(orders', id) == Reachable(orders, id) - {maker}
    ensures id !in Reachable(orders, id)
  {
    NotOwnRange(orders, id);
    CrossingLess(orders, id, maker, orders');
    forall i | i in Crossing(orders', id)
      ensures i in Reachable(orders', id) <==> i in Reachable(orders, id)
    {
      assert forall j :: j in Blocking(orders, id) ==> (Precedes(orders', i, j) <==> Precedes(orders, i, j));
    }
  }

  /** A match that takes a reachable order away leaves the same orders blocking, and as much beyond the others. */
  lemma LeftStays(orders: Orders, id: OrderId, maker: OrderId, orders': Orders)
    requires OnlyGone(orders, id, maker, orders') && orders[id].Valid() && orders'[id].Valid()
    requires maker in Reachable(orders, id) && maker !in Blocking(orders, id)
    ensures Blocking(orders', id) == Blocking(orders, id) && Left(orders', id) == Left(orders, id)
  {
    CrossingLess(orders, id, maker, orders');
    ReachableLess(orders, id, maker, orders');
    SumWithout(Restricted(orders, Reachable(orders, id)), maker, WantedBy());
    RestrictedLess(orders, Reachable(orders, id), maker, orders');
  }

  lemma RestrictedLess(orders: Orders, s: set<OrderId>, gone: OrderId, orders': Orders)
    requires forall i :: i in orders && i in s && i != gone ==> i in orders' && orders'[i] == orders[i]
    requires orders'.Keys <= orders.Keys
    ensures Restricted(orders', s - {gone}) == Restricted(orders, s) - {gone}
  {
  }

  lemma LeftAtMost(orders: Orders, id: OrderId, maker: OrderId)
    requires id in orders && maker in Reachable(orders, id)
    ensures Left(orders, id) <= orders[id].forSale - Wanted(orders[maker])
  {
    EntryWithinSum(Restricted(orders, Reachable(orders, id)), maker, WantedBy());
  }

  /** What the loop leaves of the new order: all that nobody reachable wants, or only dust. */
  ghost predicate Leaves(orders: Orders, id: OrderId, orders': Orders, left: int) {
    && (id in orders' ==> id in orders && orders'[id].sellPrice == orders[id].sellPrice && orders'[id].Valid())
    && (left > 0 ==> id in orders' && orders'[id].forSale == left)
    && (left <= 0 && id in orders' ==> orders'[id].Dust())
  }

  /** One round of the loop that does not throw. */
  lemma RoundLeaves(b: Books, id: OrderId, maker: OrderId)
    requires BookBut(b.limitOrders, id) && id in b.limitOrders && maker in Reachable(b.limitOrders, id)
    requires maker != id && maker !in Blocking(b.limitOrders, id) && Rests(b.limitOrders[maker])
    requires Matchable(b.limitOrders[id], b.limitOrders[maker]) && b.Match(id, maker).Some?
    ensures var (b', result) := b.Match(id, maker).value;
            && BookBut(b'.limitOrders, id)
            && (result == 2 ==>
                  && id in b'.limitOrders && b'.limitOrders[id].sellPrice == b.limitOrders[id].sellPrice
                  && |b'.limitOrders.Keys| < |b.limitOrders.Keys|
                  && Blocking(b'.limitOrders, id) == Blocking(b.limitOrders, id)
                  && Left(b'.limitOrders, id) == Left(b.limitOrders, id))
            && (result != 2 ==> Left(b.limitOrders, id) <= 0
                                && Leaves(b.limitOrders, id, b'.limitOrders, Left(b.limitOrders, id)))
  {
    MatchKeepsBook(b, id, maker);
    MatchLeaves(b, id, maker);
    LeftAtMost(b.limitOrders, id, maker);
    if b.Match(id, maker).value.1 == 2 {
      OnlyMakerGone(b, id, maker);
      LeftStays(b.limitOrders, id, maker, b.Match(id, maker).value.0.limitOrders);
    }
  }

  /** The loop goes round once more when only the maker is gone. */
  lemma WorkedStep(b: Books, id: OrderId)
    requires BookBut(b.limitOrders, id) && id in b.limitOrders && Crossing(b.limitOrders, id) != {}
    ensures AllValid(b.limitOrders)
    ensures var maker := First(b.limitOrders, Crossing(b.limitOrders, id));
            && maker != id && Rests(b.limitOrders[maker]) && Matchable(b.limitOrders[id], b.limitOrders[maker])
            && var r := b.Match(id, maker);
               && (r.None? <==> AsksTooMuch(b.limitOrders[maker]))
               && (r.Some? ==> BookBut(r.value.0.limitOrders, id))
               && Worked(b, id) == if r.Some? && r.value.1 == 2 then Worked(r.value.0, id)
                                   else if r.Some? then Some(r.value.0) else None
  {
    BookButIsValid(b.limitOrders, id);
    var maker := First(b.limitOrders, Crossing(b.limitOrders, id));
    CrossingIsMatchable(b.limitOrders, id, maker);
    MatchOutcome(b, id, maker);
    if b.Match(id, maker).Some? {
      MatchKeepsBook(b, id, maker);
    }
  }

  lemma NoneReachable(orders: Orders, id: OrderId)
    requires id in orders && Reachable(orders, id) == {}
    ensures Left(orders, id) == orders[id].forSale
  {
    assert Restricted(orders, {}) == map[];
  }

  /**
   Matching throws if and only if some crossing order asks for more than can exist, and the
   new order has more for sale than the crossing orders before the first such one want.
   */
  lemma {:induction false} WorkedThrows(b: Books, id: OrderId)
    requires BookBut(b.limitOrders, id) && id in b.limitOrders
    ensures var (blocking, left) := (Blocking(b.limitOrders, id), Left(b.limitOrders, id));
            && (Worked(b, id).None? <==> blocking != {} && left > 0)
            && (Worked(b, id).Some? ==> Leaves(b.limitOrders, id, Worked(b, id).value.limitOrders, left))
    decreases |b.limitOrders.Keys|
  {
    if Crossing(b.limitOrders, id) == {} {
      NoneReachable(b.limitOrders, id);
    } else {
      WorkedStep(b, id);
      var maker := First(b.limitOrders, Crossing(b.limitOrders, id));
      FirstIsReachable(b.limitOrders, id);
      if AsksTooMuch(b.limitOrders[maker]) {
        NoneReachable(b.limitOrders, id);
      } else {
        RoundLeaves(b, id, maker);
        var r := b.Match(id, maker).value;
        if r.1 == 2 {
          WorkedThrows(r.0, id);
        }
      }
    }
  }

  /** With no crossing order asking too much, no match throws, whatever other orders ask. */
  lemma NoneBlocking(b: Books, id: OrderId)
    requires BookBut(b.limitOrders, id)
    requires id in b.limitOrders ==> Blocking(b.limitOrders, id) == {}
    ensures Worked(b, id).Some?
  {
    if id in b.limitOrders {
      WorkedThrows(b, id);
    }
  }

  /**
   Working in a new order throws if and only if no better order of its side is ahead, it has
   more for sale than the reachable orders want, and either some crossing order asks too much
   or it asks too much itself for what it has beyond.
   */
  lemma AppliedThrows(b: Books, id: OrderId)
    requires BookBut(b.limitOrders, id) && id in b.limitOrders
    ensures AllValid(b.limitOrders)
    ensures var (price, left) := (b.limitOrders[id].sellPrice, Left(b.limitOrders, id));
            Applied(b, id).None?
            <==> && !Behind(b.limitOrders, id) && left > 0
                 && (|| Blocking(b.limitOrders, id) != {}
                     || MulDown(left, price.quote.amount, price.base.amount) > MAX_SHARE_SUPPLY)
  {
    BookButIsValid(b.limitOrders, id);
    WorkedThrows(b, id);
  }

  // --- How such an order comes to rest --------------------------------------------------------------

  const SHARES: AssetId := 1
  const COINS: AssetId := 2

  /** Sells two shares for one coin. */
  const BETTER := Offer(7, Asset(2, SHARES), Asset(1, COINS), Asset(0, CORE), 0, false)

  /** Sells two shares for more coins than can exist. */
  const GREEDY := Offer(7, Asset(2, SHARES), Asset(MAX_SHARE_SUPPLY + 1, COINS), Asset(0, CORE), 0, false)

  /** Buys one share for all coins. */
  const BUYER := Offer(8, Asset(MAX_SHARE_SUPPLY, COINS), Asset(1, SHARES), Asset(0, CORE), 0, false)

  function Start(): Books {
    Books(map[Balance(7, SHARES) := 4, Balance(8, COINS) := MAX_SHARE_SUPPLY], map[], map[], map[], Rules(map[], map[], 0))
  }

  lemma Alone(b: Books, id: OrderId)
    requires b.limitOrders.Keys == {id} && b.limitOrders[id].Valid()
    ensures BookBut(b.limitOrders, id) && AllValid(b.limitOrders)
    ensures !Behind(b.limitOrders, id) && Worked(b, id) == Some(b)
  {
    NotOwnRange(b.limitOrders, id);
    assert Ahead(b.limitOrders, id) == {};
  }

  /** The better order meets nobody and rests. */
  lemma BetterRests()
    ensures BookOk(Start().limitOrders)
    ensures var r := Created(Start(), 0, BETTER, None);
            r.Some? && r.value.0.limitOrders == map[0 := BETTER.Order()] && r.value.0.rules == Start().rules
            && Of(r.value.0.accounts, Balance(7, SHARES)) == 2 && Of(r.value.0.accounts, Balance(8, COINS)) == MAX_SHARE_SUPPLY
  {
    var placed := Placed(Start(), 0, BETTER).value;
    PlacedBook(Start(), 0, BETTER);
    Alone(placed, 0);
    assert placed.limitOrders == map[0 := BETTER.Order()];
  }

  /** The better and the greedy order rest, and the buyer still has its coins. */
  ghost predicate BothRest(b: Books) {
    && b.limitOrders == map[0 := BETTER.Order(), 1 := GREEDY.Order()] && BookOk(b.limitOrders)
    && Of(b.accounts, Balance(8, COINS)) == MAX_SHARE_SUPPLY
  }

  /** Behind it, the greedy one rests although it asks for more than can exist. */
  lemma GreedyRests(b: Books)
    requires b.limitOrders == map[0 := BETTER.Order()] && BookOk(b.limitOrders)
    requires Of(b.accounts, Balance(7, SHARES)) == 2 && Of(b.accounts, Balance(8, COINS)) == MAX_SHARE_SUPPLY
    ensures var r := Created(b, 1, GREEDY, None);
            r.Some? && BothRest(r.value.0)
  {
    var placed := Placed(b, 1, GREEDY).value;
    PlacedBook(b, 1, GREEDY);
    BookButIsValid(placed.limitOrders, 1);
    assert placed.limitOrders == map[0 := BETTER.Order(), 1 := GREEDY.Order()];
    assert Ahead(placed.limitOrders, 1) == {0};
    assert Created(b, 1, GREEDY, None).Some?;
    CreatedKeeps(b, 1, GREEDY, None);
  }

  /** Once the better order is gone, a taker that would buy from the greedy one fails. */
  lemma BuyerFails(b: Books)
    requires b.limitOrders == map[1 := GREEDY.Order()] && BookOk(b.limitOrders)
    requires Of(b.accounts, Balance(8, COINS)) == MAX_SHARE_SUPPLY
    ensures AsksTooMuch(GREEDY.Order()) && Created(b, 2, BUYER, None).None?
  {
    var placed := Placed(b, 2, BUYER).value;
    PlacedBook(b, 2, BUYER);
    BookButIsValid(placed.limitOrders, 2);
    assert placed.limitOrders == map[1 := GREEDY.Order(), 2 := BUYER.Order()];
    assert Ahead(placed.limitOrders, 2) == {};
    assert 1 in Crossing(placed.limitOrders, 2) by {
      RangeIsCrossing(GREEDY.Order().sellPrice, BUYER.Order().sellPrice);
    }
    NotOwnRange(placed.limitOrders, 2);
    assert Crossing(placed.limitOrders, 2) == {1};
    FirstIsReachable(placed.limitOrders, 2);
    NoneReachable(placed.limitOrders, 2);
    AppliedThrows(placed, 2);
  }

  /** Cancelling touches only the seller's balances. */
  lemma CancelledBalance(b: Books, id: OrderId, who: AccountId, a: AssetId)
    requires id in b.limitOrders && who != b.limitOrders[id].seller
    ensures Of(b.Cancel(id, 0).accounts, Balance(who, a)) == Of(b.accounts, Balance(who, a))
  {
  }

  lemma BetterCancelled(b: Books)
    requires BothRest(b)
    ensures b.limitOrders.Keys == {0, 1}
    ensures var left := b.Cancel(0, 0);
            && left.limitOrders == map[1 := GREEDY.Order()] && BookOk(left.limitOrders)
            && Of(left.accounts, Balance(8, COINS)) == MAX_SHARE_SUPPLY
  {
    CancelledBalance(b, 0, 8, COINS);
    OneCancelled(b.limitOrders, BETTER.Order(), GREEDY.Order());
  }

  lemma OneCancelled(orders: Orders, x: LimitOrder, y: LimitOrder)
    requires orders == map[0 := x, 1 := y] && BookOk(orders)
    ensures orders - {0} == map[1 := y] && BookOk(orders - {0})
  {
  }

  /** The better order is cancelled, and the greedy one alone is left. */
  lemma GreedyIsLeft(b: Books)
    requires BothRest(b)
    ensures b.limitOrders.Keys == {0, 1}
    ensures var left := b.Cancel(0, 0);
            BookOk(left.limitOrders) && left.limitOrders.Keys == {1} && Created(left, 2, BUYER, None).None?
  {
    BetterCancelled(b);
    BuyerFails(b.Cancel(0, 0));
  }

  /** From the start: two orders, the better one cancelled, and a crossing order that cannot be created. */
  lemma GreedyBlocksBuyer()
    ensures BookOk(Start().limitOrders)
    ensures var first := Created(Start(), 0, BETTER, None);
            && first.Some? && BookOk(first.value.0.limitOrders) && first.value.0.limitOrders.Keys == {0}
            && var second := Created(first.value.0, 1, GREEDY, None);
               && second.Some? && second.value.0.limitOrders.Keys == {0, 1}
               && var left := second.value.0.Cancel(0, 0);
                  && BookOk(left.limitOrders) && left.limitOrders.Keys == {1}
                  && Created(left, 2, BUYER, None).None?
  {
    BetterRests();
    CreatedKeeps(Start(), 0, BETTER, None);
    var first := Created(Start(), 0, BETTER, None).value.0;
    GreedyRests(first);
    GreedyIsLeft(Created(first, 1, GREEDY, None).value.0);
  }
}

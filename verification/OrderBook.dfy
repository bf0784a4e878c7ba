/**
 The limit order book: a new order is matched against the best opposite orders until
 nothing crosses any more, and the book invariant holds over every run.
 */
module OrderBooks {
  import opened Amounts
  import opened Conservation
  import opened Ledgers
  import opened LimitOrders
  import opened Options
  import opened Positions
  import opened Prices

  type Orders = map<OrderId, LimitOrder>

  // --- Queries on the index -------------------------------------------------------------------

  ghost predicate AllValid(orders: Orders) {
    forall i :: i in orders ==> orders[i].Valid()
  }

  predicate Precedes(orders: Orders, i: OrderId, j: OrderId)
    requires i in orders && j in orders
  {
    Before(orders[i].sellPrice, i, orders[j].sellPrice, j)
  }

  /** Orders the index visits before an order. */
  function Ahead(orders: Orders, id: OrderId): set<OrderId>
    requires id in orders
  {
    set i | i in orders && Precedes(orders, i, id)
  }

  /** Orders on the opposite side at the asked price or better. */
  function Crossing(orders: Orders, id: OrderId): set<OrderId>
    requires id in orders
  {
    set i | i in orders && InMatchingRange(orders[i].sellPrice, orders[id].sellPrice)
  }

  ghost predicate IsFirst(orders: Orders, s: set<OrderId>, i: OrderId)
    requires s <= orders.Keys
  {
    i in s && forall j :: j in s ==> j == i || Precedes(orders, i, j)
  }

  ghost predicate IsLast(orders: Orders, s: set<OrderId>, i: OrderId)
    requires s <= orders.Keys
  {
    i in s && forall j :: j in s ==> j == i || Precedes(orders, j, i)
  }

  lemma {:induction false} EndsExist(orders: Orders, s: set<OrderId>)
    requires AllValid(orders) && s <= orders.Keys && s != {}
    ensures exists i :: IsFirst(orders, s, i)
    ensures exists i :: IsLast(orders, s, i)
  {
    var x :| x in s;
    var rest := s - {x};
    if rest == {} {
      assert s == {x};
      assert IsFirst(orders, s, x) && IsLast(orders, s, x);
    } else {
      EndsExist(orders, rest);
      var f :| IsFirst(orders, rest, f);
      var l :| IsLast(orders, rest, l);
      FirstOfMore(orders, rest, f, x);
      LastOfMore(orders, rest, l, x);
      assert s == rest + {x};
    }
  }

  lemma FirstOfMore(orders: Orders, s: set<OrderId>, f: OrderId, x: OrderId)
    requires AllValid(orders) && s <= orders.Keys && x in orders && x !in s && IsFirst(orders, s, f)
    ensures IsFirst(orders, s + {x}, if Precedes(orders, x, f) then x else f)
  {
    if Precedes(orders, x, f) {
      forall j | j in s && j != f ensures Precedes(orders, x, j) {
        BeforeTransitive(orders[x].sellPrice, x, orders[f].sellPrice, f, orders[j].sellPrice, j);
      }
    }
  }

  lemma LastOfMore(orders: Orders, s: set<OrderId>, l: OrderId, x: OrderId)
    requires AllValid(orders) && s <= orders.Keys && x in orders && x !in s && IsLast(orders, s, l)
    ensures IsLast(orders, s + {x}, if Precedes(orders, l, x) then x else l)
  {
    if Precedes(orders, l, x) {
      forall j | j in s && j != l ensures Precedes(orders, j, x) {
        BeforeTransitive(orders[j].sellPrice, j, orders[l].sellPrice, l, orders[x].sellPrice, x);
      }
    }
  }

  /** First in the index: the best price, and the oldest order at that price. */
  ghost function First(orders: Orders, s: set<OrderId>): (i: OrderId)
    requires AllValid(orders) && s <= orders.Keys && s != {}
    ensures IsFirst(orders, s, i)
    ensures forall j :: j in s ==> !Less(orders[i].sellPrice, orders[j].sellPrice)
  {
    EndsExist(orders, s);
    var i :| IsFirst(orders, s, i);
    forall j | j in s ensures !Less(orders[i].sellPrice, orders[j].sellPrice) {
      LessTransitive(orders[i].sellPrice, orders[j].sellPrice, orders[i].sellPrice);
    }
    i
  }

  ghost function Last(orders: Orders, s: set<OrderId>): (i: OrderId)
    requires AllValid(orders) && s <= orders.Keys && s != {}
    ensures IsLast(orders, s, i)
  {
    EndsExist(orders, s);
    var i :| IsLast(orders, s, i);
    i
  }

  lemma EndsAreUnique(orders: Orders, s: set<OrderId>, i: OrderId)
    requires AllValid(orders) && s <= orders.Keys && s != {}
    ensures IsFirst(orders, s, i) ==> i == First(orders, s)
    ensures IsLast(orders, s, i) ==> i == Last(orders, s)
  {
  }

  // --- The book invariant ---------------------------------------------------------------------

  predicate Rests(o: LimitOrder) {
    o.Valid() && !o.Dust()
  }

  /** Every resting order asks for something, and no two of them cross. */
  ghost predicate BookOk(orders: Orders) {
    && (forall i :: i in orders ==> Rests(orders[i]))
    && (forall i, j :: i in orders && j in orders ==> !Crosses(orders[i].sellPrice, orders[j].sellPrice))
  }

  /** All but one order form such a book. */
  ghost predicate BookBut(orders: Orders, id: OrderId) {
    BookOk(orders - {id}) && (id in orders ==> orders[id].Valid())
  }

  lemma BookButIsValid(orders: Orders, id: OrderId)
    requires BookBut(orders, id)
    ensures AllValid(orders)
  {
    forall i | i in orders ensures orders[i].Valid() {
      if i != id {
        assert (orders - {id})[i] == orders[i];
      }
    }
  }

  /** A crossing order is another one, it rests, and the two can be matched. */
  lemma CrossingIsMatchable(orders: Orders, id: OrderId, i: OrderId)
    requires BookBut(orders, id) && id in orders && i in Crossing(orders, id)
    ensures i != id && Rests(orders[i]) && Matchable(orders[id], orders[i])
  {
    BookButIsValid(orders, id);
    RangeIsCrossing(orders[i].sellPrice, orders[id].sellPrice);
    assert (orders - {id})[i] == orders[i];
  }

  // --- One match --------------------------------------------------------------------------------

  /** A fill leaves the order at its price with less to sell, or takes it out. */
  function After(orders: Orders, id: OrderId, pays: nat, cull: bool): Orders
    requires id in orders && pays <= orders[id].forSale
  {
    if pays == orders[id].forSale || (cull && Remaining(orders[id], pays).Dust()) then orders - {id}
    else orders[id := Remaining(orders[id], pays)]
  }

  /** Culling throws only when it has to look at an order that asks for more than can exist. */
  predicate Cullable(o: LimitOrder, pays: nat)
    requires pays <= o.forSale
  {
    pays == o.forSale || Remaining(o, pays).ToReceive().Some?
  }

  lemma FillOutcome(b: Books, id: OrderId, pays: Asset, receives: Asset, cull: bool)
    requires id in b.limitOrders && pays.amount <= b.limitOrders[id].forSale && b.limitOrders[id].Valid()
    ensures var r := b.Fill(id, pays, receives, cull);
            && (r.Some? <==> (cull ==> Cullable(b.limitOrders[id], pays.amount)))
            && (r.Some? ==> r.value.limitOrders == After(b.limitOrders, id, pays.amount, cull))
  {
  }

  /** What remains of an order asks for no more than the order did; dust asks for nothing. */
  lemma RemainingAsksLess(o: LimitOrder, pays: nat)
    requires o.Valid() && pays <= o.forSale && (o.ToReceive().Some? || Remaining(o, pays).Dust())
    ensures Cullable(o, pays)
  {
    DownMonotone(o.forSale - pays, o.forSale, o.sellPrice.quote.amount, o.sellPrice.base.amount);
  }

  lemma FillBothOutcome(b: Books, taker: OrderId, maker: OrderId, pays: Asset, receives: Asset, cullTaker: bool)
    requires taker in b.limitOrders && maker in b.limitOrders && taker != maker
    requires b.limitOrders[taker].Valid() && b.limitOrders[maker].Valid()
    requires pays.amount <= b.limitOrders[taker].forSale && receives.amount <= b.limitOrders[maker].forSale
    requires cullTaker ==> Cullable(b.limitOrders[taker], pays.amount)
    requires Cullable(b.limitOrders[maker], receives.amount)
    ensures var one := After(b.limitOrders, taker, pays.amount, cullTaker);
            && maker in one && one[maker] == b.limitOrders[maker]
            && var two := After(one, maker, receives.amount, true);
               var r := b.FillBoth(taker, maker, pays, receives, cullTaker);
               && (r.Some? <==> taker !in one || maker !in two)
               && (r.Some? ==> r.value.0.limitOrders == two)
               && (r.Some? ==> r.value.1 == (if taker in one then 0 else 1) + (if maker in two then 0 else 2))
  {
    FillOutcome(b, taker, pays, receives, cullTaker);
    var filled := b.Fill(taker, pays, receives, cullTaker).value;
    FillOutcome(filled, maker, receives, pays, true);
  }

  predicate LessOf(o: LimitOrder, before: LimitOrder) {
    o.sellPrice == before.sellPrice && o.forSale <= before.forSale
  }

  /**
   What a match of a taker with a resting order does to the book. At least one side is
   gone or done, and when only the maker is gone the taker goes on with what it has left.
   */
  ghost predicate Outcome(orders: Orders, taker: OrderId, maker: OrderId, orders': Orders, result: nat)
    requires taker in orders && maker in orders
  {
    && 1 <= result <= 3
    && orders' - {taker} - {maker} == orders - {taker} - {maker}
    && (maker in orders' ==> Rests(orders'[maker]) && LessOf(orders'[maker], orders[maker]))
    && (taker in orders' ==> orders'[taker].Valid() && LessOf(orders'[taker], orders[taker]))
    && (result == 2 ==> taker in orders' && maker !in orders')
    && (result != 2 && taker in orders' ==> orders'[taker].Dust() && orders' == orders)
  }

  lemma AfterOutcome(orders: Orders, taker: OrderId, maker: OrderId, t: Trade)
    requires taker in orders && maker in orders && taker != maker
    requires Matchable(orders[taker], orders[maker]) && Rests(orders[maker])
    requires LimitOrders.MatchAmounts(orders[taker], orders[maker]) == Some(t) && t.Trade?
    ensures t.pays.amount <= orders[taker].forSale && t.receives.amount <= orders[maker].forSale
    ensures var one := After(orders, taker, t.pays.amount, t.cullTaker);
            && maker in one && one[maker] == orders[maker]
            && var two := After(one, maker, t.receives.amount, true);
               var result := (if taker in one then 0 else 1) + (if maker in two then 0 else 2);
               Outcome(orders, taker, maker, two, result)
  {
    MatchIsFair(orders[taker], orders[maker]);
    OneSideIsDone(orders[taker], orders[maker]);
    var one: Orders := After(orders, taker, t.pays.amount, t.cullTaker);
    assert one - {taker} == orders - {taker};
    assert one[maker] == (orders - {taker})[maker];
    var two: Orders := After(one, maker, t.receives.amount, true);
    assert two - {maker} == one - {maker};
  }

  lemma MatchOutcome(b: Books, taker: OrderId, maker: OrderId)
    requires taker in b.limitOrders && maker in b.limitOrders && taker != maker
    requires Matchable(b.limitOrders[taker], b.limitOrders[maker]) && Rests(b.limitOrders[maker])
    ensures b.Match(taker, maker).Some? <==> b.limitOrders[maker].ToReceive().Some?
    ensures b.Match(taker, maker).Some? ==>
              Outcome(b.limitOrders, taker, maker, b.Match(taker, maker).value.0.limitOrders, b.Match(taker, maker).value.1)
  {
    var t0, m0 := b.limitOrders[taker], b.limitOrders[maker];
    MatchIs(t0, m0);
    if LimitOrders.MatchAmounts(t0, m0).Some? {
      var t := LimitOrders.MatchAmounts(t0, m0).value;
      if t.Nothing? {
        NothingMeansDust(t0, m0);
      } else {
        TradeIsCullable(t0, m0, t);
        AfterOutcome(b.limitOrders, taker, maker, t);
        FillBothOutcome(b, taker, maker, t.pays, t.receives, t.cullTaker);
      }
    }
  }

  lemma TradeIsCullable(taker: LimitOrder, maker: LimitOrder, t: Trade)
    requires Matchable(taker, maker) && Rests(maker)
    requires LimitOrders.MatchAmounts(taker, maker) == Some(t) && t.Trade?
    ensures t.pays.amount <= taker.forSale && t.receives.amount <= maker.forSale
    ensures t.cullTaker ==> Cullable(taker, t.pays.amount)
    ensures Cullable(maker, t.receives.amount)
  {
    OneSideIsDone(taker, maker);
    MatchIs(taker, maker);
    RemainingAsksLess(maker, t.receives.amount);
    if t.cullTaker {
      RemainingAsksLess(taker, t.pays.amount);
    }
  }

  // --- Working a new order into the book --------------------------------------------------------

  lemma MatchKeepsBook(b: Books, id: OrderId, maker: OrderId)
    requires BookBut(b.limitOrders, id) && id in b.limitOrders && maker in b.limitOrders && maker != id
    requires Rests(b.limitOrders[maker]) && Matchable(b.limitOrders[id], b.limitOrders[maker])
    requires b.Match(id, maker).Some?
    ensures var (b', result) := b.Match(id, maker).value;
            && BookBut(b'.limitOrders, id)
            && (result == 2 ==> id in b'.limitOrders && b'.limitOrders.Keys == b.limitOrders.Keys - {maker})
            && (result != 2 && id in b'.limitOrders ==> b'.limitOrders[id].Dust() && b'.limitOrders == b.limitOrders)
  {
    MatchOutcome(b, id, maker);
    var orders: Orders, orders': Orders := b.limitOrders, b.Match(id, maker).value.0.limitOrders;
    forall i | i in orders' - {id}
      ensures i in orders - {id} && Rests(orders'[i]) && orders'[i].sellPrice == (orders - {id})[i].sellPrice
    {
      if i != maker {
        assert i in orders' - {id} - {maker};
        assert (orders - {id} - {maker})[i] == orders[i];
      }
    }
    if b.Match(id, maker).value.1 == 2 {
      forall i ensures i in orders' <==> i in orders && i != maker {
        assert i in orders' - {id} - {maker} <==> i in orders - {id} - {maker};
      }
    }
  }

  /** The matching loop: the best opposite order first, until the new order is done or nothing crosses. */
  ghost function Worked(b: Books, id: OrderId): Option<Books>
    requires BookBut(b.limitOrders, id)
    decreases |b.limitOrders.Keys|
  {
    if id !in b.limitOrders || Crossing(b.limitOrders, id) == {} then Some(b)
    else
      BookButIsValid(b.limitOrders, id);
      var maker := First(b.limitOrders, Crossing(b.limitOrders, id));
      CrossingIsMatchable(b.limitOrders, id, maker);
      var r :- b.Match(id, maker);
      MatchKeepsBook(b, id, maker);
      if r.1 != 2 then Some(r.0) else Worked(r.0, id)
  }

  lemma SameTotalsTransitive(b: Books, b': Books, b'': Books)
    requires SameTotals(b, b') && SameTotals(b', b'')
    ensures SameTotals(b, b'')
  {
    forall a ensures Surplus(b'', a) == Surplus(b, a) {
      assert Surplus(b', a) == Surplus(b, a);
    }
    forall who ensures Untracked(b'', who) == Untracked(b, who) {
      assert Untracked(b', who) == Untracked(b, who);
    }
  }

  /** After the loop the new order is gone, has only dust left, or crosses nothing. */
  lemma {:induction false} WorkedOutcome(b: Books, id: OrderId)
    requires BookBut(b.limitOrders, id) && Worked(b, id).Some?
    ensures var b' := Worked(b, id).value;
            && BookBut(b'.limitOrders, id) && SameTotals(b, b')
            && (id in b'.limitOrders ==> b'.limitOrders[id].Dust() || Crossing(b'.limitOrders, id) == {})
    decreases |b.limitOrders.Keys|
  {
    if id in b.limitOrders && Crossing(b.limitOrders, id) != {} {
      BookButIsValid(b.limitOrders, id);
      var maker := First(b.limitOrders, Crossing(b.limitOrders, id));
      CrossingIsMatchable(b.limitOrders, id, maker);
      MatchKeepsBook(b, id, maker);
      MatchConserves(b, id, maker);
      var r := b.Match(id, maker).value;
      if r.1 == 2 {
        WorkedOutcome(r.0, id);
        SameTotalsTransitive(b, r.0, Worked(r.0, id).value);
      }
    }
  }

  /** A better order of the same market is visited just before the new one. */
  ghost predicate Behind(orders: Orders, id: OrderId)
    requires AllValid(orders) && id in orders
  {
    && Ahead(orders, id) != {}
    && SameMarket(orders[Last(orders, Ahead(orders, id))].sellPrice, orders[id].sellPrice)
  }

  /** The books with a new order worked in, and whether the order is gone already. */
  ghost function Applied(b: Books, id: OrderId): Option<(Books, bool)>
    requires BookBut(b.limitOrders, id) && id in b.limitOrders
  {
    BookButIsValid(b.limitOrders, id);
    if Behind(b.limitOrders, id) then Some((b, false))
    else
      var worked :- Worked(b, id);
      if id !in worked.limitOrders then Some((worked, true))
      else
        var culled :- worked.MaybeCull(id);
        Some((culled, id !in culled.limitOrders))
  }

  /** An order behind a better one of its own side crosses nothing, or the better one would too. */
  lemma BehindCrossesNothing(orders: Orders, id: OrderId)
    requires AllValid(orders) && BookBut(orders, id) && id in orders && Rests(orders[id]) && Behind(orders, id)
    ensures BookOk(orders)
  {
    var ahead := Last(orders, Ahead(orders, id));
    var others := orders - {id};
    LessTransitive(orders[ahead].sellPrice, orders[id].sellPrice, orders[ahead].sellPrice);
    assert others[ahead] == orders[ahead];
    forall i | i in others ensures !Crosses(orders[id].sellPrice, orders[i].sellPrice) {
      assert others[i] == orders[i];
      assert !Crosses(others[ahead].sellPrice, others[i].sellPrice);
      if Crosses(orders[id].sellPrice, orders[i].sellPrice) {
        WorsePriceCrossesLess(orders[ahead].sellPrice, orders[id].sellPrice, orders[i].sellPrice);
      }
    }
    BookWith(orders, id);
  }

  /** Crossing looks the same from both sides, and no price crosses itself. */
  lemma BookWith(orders: Orders, id: OrderId)
    requires BookBut(orders, id) && id in orders && Rests(orders[id])
    requires forall i :: i in orders - {id} ==> !Crosses(orders[id].sellPrice, orders[i].sellPrice)
    ensures BookOk(orders)
  {
    var others := orders - {id};
    forall i, j | i in orders && j in orders ensures !Crosses(orders[i].sellPrice, orders[j].sellPrice) {
      if i != id && j != id {
        assert others[i] == orders[i] && others[j] == orders[j];
      } else if i == id && j != id {
        assert j in others;
      } else if i != id {
        assert i in others;
      }
    }
    forall i | i in orders ensures Rests(orders[i]) {
      assert i != id ==> others[i] == orders[i];
    }
  }

  /** Working in a new order restores the book invariant and keeps every total. */
  lemma AppliedKeepsBook(b: Books, id: OrderId)
    requires BookBut(b.limitOrders, id) && id in b.limitOrders && Rests(b.limitOrders[id])
    requires Applied(b, id).Some?
    ensures var (b', gone) := Applied(b, id).value;
            BookOk(b'.limitOrders) && SameTotals(b, b') && (gone <==> id !in b'.limitOrders)
  {
    BookButIsValid(b.limitOrders, id);
    if Behind(b.limitOrders, id) {
      BehindCrossesNothing(b.limitOrders, id);
    } else {
      WorkedOutcome(b, id);
      var worked := Worked(b, id).value;
      if id in worked.limitOrders {
        CullConserves(worked, id);
        SameTotalsTransitive(b, worked, worked.MaybeCull(id).value);
        CulledKeepsBook(worked, id);
      } else {
        assert worked.limitOrders - {id} == worked.limitOrders;
      }
    }
  }

  lemma CulledKeepsBook(b: Books, id: OrderId)
    requires BookBut(b.limitOrders, id) && id in b.limitOrders && b.MaybeCull(id).Some?
    requires b.limitOrders[id].Dust() || Crossing(b.limitOrders, id) == {}
    ensures BookOk(b.MaybeCull(id).value.limitOrders)
  {
    var orders := b.limitOrders;
    BookButIsValid(orders, id);
    if !orders[id].Dust() {
      forall i | i in orders - {id} ensures !Crosses(orders[id].sellPrice, orders[i].sellPrice) {
        RangeIsCrossing(orders[i].sellPrice, orders[id].sellPrice);
        assert i !in Crossing(orders, id);
      }
      BookWith(orders, id);
    }
  }

  /** No order asks for more than can exist. */
  ghost predicate AllAskPossible(orders: Orders) {
    forall i :: i in orders ==> orders[i].ToReceive().Some?
  }

  lemma LessAsksPossible(o: LimitOrder, before: LimitOrder)
    requires o.Valid() && before.Valid() && LessOf(o, before) && before.ToReceive().Some?
    ensures o.ToReceive().Some?
  {
    DownMonotone(o.forSale, before.forSale, o.sellPrice.quote.amount, o.sellPrice.base.amount);
  }

  /** As long as no order asks for more than can exist, no match throws. */
  lemma {:induction false} WorkedSucceeds(b: Books, id: OrderId)
    requires BookBut(b.limitOrders, id) && AllAskPossible(b.limitOrders)
    ensures Worked(b, id).Some? && AllAskPossible(Worked(b, id).value.limitOrders)
    decreases |b.limitOrders.Keys|
  {
    if id in b.limitOrders && Crossing(b.limitOrders, id) != {} {
      BookButIsValid(b.limitOrders, id);
      var maker := First(b.limitOrders, Crossing(b.limitOrders, id));
      CrossingIsMatchable(b.limitOrders, id, maker);
      MatchOutcome(b, id, maker);
      MatchKeepsBook(b, id, maker);
      var r := b.Match(id, maker).value;
      MatchKeepsAsks(b.limitOrders, id, maker, r.0.limitOrders, r.1);
      if r.1 == 2 {
        WorkedSucceeds(r.0, id);
      }
    }
  }

  lemma MatchKeepsAsks(orders: Orders, taker: OrderId, maker: OrderId, orders': Orders, result: nat)
    requires AllValid(orders) && AllAskPossible(orders)
    requires taker in orders && maker in orders && Outcome(orders, taker, maker, orders', result)
    ensures AllAskPossible(orders')
  {
    forall i | i in orders' ensures orders'[i].ToReceive().Some? {
      if i == taker || i == maker {
        LessAsksPossible(orders'[i], orders[i]);
      } else {
        assert i in orders' - {taker} - {maker};
        assert (orders - {taker} - {maker})[i] == orders[i];
      }
    }
  }

  lemma AppliedSucceeds(b: Books, id: OrderId)
    requires BookBut(b.limitOrders, id) && id in b.limitOrders && AllAskPossible(b.limitOrders)
    ensures Applied(b, id).Some?
  {
    BookButIsValid(b.limitOrders, id);
    WorkedSucceeds(b, id);
  }
}

/**
 The settlement queue keeps its orders and positions in sequences, the ledger in maps by id.
 Each elementary step does the same to both.
 */
module SettleLedgers {
  import opened Amounts
  import opened Ledgers
  import opened Options
  import opened Positions
  import opened Prices
  import opened SettleMatching
  import opened SettleQueues

  ghost predicate Listed(orders: seq<SettleOrder>, s: nat) {
    exists i :: 0 <= i < |orders| && orders[i].id == s
  }

  ghost predicate Owes(cs: seq<Position>, who: AccountId) {
    exists k :: 0 <= k < |cs| && cs[k].borrower == who
  }

  ghost predicate SettlesMatch(settles: map<nat, SettleOrder>, orders: seq<SettleOrder>) {
    && (forall i :: 0 <= i < |orders| ==> orders[i].id in settles && settles[orders[i].id] == orders[i])
    && (forall s :: s in settles ==> Listed(orders, s))
    && (forall i, j :: 0 <= i < j < |orders| ==> orders[i].id != orders[j].id)
  }

  /** The positions of one asset, each under its borrower. */
  ghost predicate AssetMatches(byId: map<CallId, Position>, a: AssetId, cs: seq<Position>) {
    && (forall k :: 0 <= k < |cs| ==> (cs[k].borrower, a) in byId && byId[(cs[k].borrower, a)] == cs[k])
    && (forall c :: c in byId && c.1 == a ==> Owes(cs, c.0))
    && (forall j, k :: 0 <= j < k < |cs| ==> cs[j].borrower != cs[k].borrower)
  }

  ghost predicate CallsMatch(byId: map<CallId, Position>, calls: map<AssetId, seq<Position>>) {
    && (forall a :: a in calls ==> AssetMatches(byId, a, calls[a]))
    && (forall c :: c in byId ==> c.1 in calls)
  }

  ghost predicate AccountsMatch(m: Accounts, q: Queue) {
    && (forall who, a :: Of(m, Balance(who, a)) == BalanceOf(q.balances, who, a))
    && (forall a :: Of(m, Supply(a)) == SupplyOf(q.supply, a))
    && (forall a :: Of(m, AccumulatedFees(a)) == SupplyOf(q.fees, a))
  }

  /** The ledger's books say the same as the queue. */
  ghost predicate Represents(b: Ledgers.Books, q: Queue) {
    SettlesMatch(b.settles, q.orders) && CallsMatch(b.calls, q.calls) && AccountsMatch(b.accounts, q)
  }

  lemma CreditMatches(m: Accounts, q: Queue, who: AccountId, a: AssetId, amount: nat)
    requires AccountsMatch(m, q)
    ensures AccountsMatch(Add(m, Balance(who, a), amount), q.(balances := Credited(q.balances, who, a, amount)))
  {
  }

  lemma FeeMatches(m: Accounts, q: Queue, a: AssetId, fee: nat)
    requires AccountsMatch(m, q)
    ensures AccountsMatch(Add(m, AccumulatedFees(a), fee), q.(fees := FeeAdded(q.fees, a, fee)))
  {
  }

  /** Where an element of a sequence was before another one was taken out, and where it is now. */
  lemma WasAt<T>(s: seq<T>, i: nat, rest: seq<T>, j: nat)
    requires i < |s| && |rest| == |s| - 1 && rest[..i] == s[..i] && rest[i..] == s[i + 1..] && j < |rest|
    ensures rest[j] == s[if j < i then j else j + 1]
  {
    assert j < i ==> rest[j] == rest[..i][j];
    assert j >= i ==> rest[j] == rest[i..][j - i];
  }

  lemma NowAt<T>(s: seq<T>, i: nat, rest: seq<T>, j: nat)
    requires i < |s| && |rest| == |s| - 1 && rest[..i] == s[..i] && rest[i..] == s[i + 1..] && j < |s| && j != i
    ensures rest[if j < i then j else j - 1] == s[j]
  {
    WasAt(s, i, rest, if j < i then j else j - 1);
  }

  lemma WithoutMatches(settles: map<nat, SettleOrder>, orders: seq<SettleOrder>, i: nat)
    requires SettlesMatch(settles, orders) && i < |orders|
    ensures SettlesMatch(settles - {orders[i].id}, orders[..i] + orders[i + 1..])
  {
    var rest := orders[..i] + orders[i + 1..];
    assert rest[..i] == orders[..i] && rest[i..] == orders[i + 1..];
    FewerMatches(settles, orders, i, rest);
  }

  lemma FewerMatches(settles: map<nat, SettleOrder>, orders: seq<SettleOrder>, i: nat, rest: seq<SettleOrder>)
    requires SettlesMatch(settles, orders) && i < |orders| && |rest| == |orders| - 1
    requires rest[..i] == orders[..i] && rest[i..] == orders[i + 1..]
    ensures SettlesMatch(settles - {orders[i].id}, rest)
  {
    forall s | s in settles && s != orders[i].id
      ensures Listed(rest, s)
    {
      assert Listed(orders, s);
      var j :| 0 <= j < |orders| && orders[j].id == s;
      NowAt(orders, i, rest, j);
    }
    forall j, k | 0 <= j < k < |rest|
      ensures rest[j].id != rest[k].id
    {
      WasAt(orders, i, rest, j);
      WasAt(orders, i, rest, k);
    }
    forall j | 0 <= j < |rest|
      ensures rest[j].id in settles && rest[j].id != orders[i].id && settles[rest[j].id] == rest[j]
    {
      WasAt(orders, i, rest, j);
    }
  }

  lemma ReplacedMatches(settles: map<nat, SettleOrder>, orders: seq<SettleOrder>, i: nat, o: SettleOrder)
    requires SettlesMatch(settles, orders) && i < |orders| && o.id == orders[i].id
    ensures SettlesMatch(settles[o.id := o], orders[i := o])
  {
    var orders' := orders[i := o];
    forall s: nat | Listed(orders, s)
      ensures Listed(orders', s)
    {
      var j :| 0 <= j < |orders| && orders[j].id == s;
      assert orders'[j].id == s;
    }
  }

  /** The map of settle orders after one has paid. */
  function ReducedById(settles: map<nat, SettleOrder>, o: SettleOrder, pays: nat): map<nat, SettleOrder>
    requires pays <= o.balance
  {
    if pays < o.balance then settles[o.id := o.(balance := o.balance - pays)] else settles - {o.id}
  }

  lemma ReducedMatches(settles: map<nat, SettleOrder>, orders: seq<SettleOrder>, i: nat, pays: nat)
    requires SettlesMatch(settles, orders) && i < |orders| && pays <= orders[i].balance
    ensures SettlesMatch(ReducedById(settles, orders[i], pays), Reduced(orders, i, pays))
  {
    if pays < orders[i].balance {
      ReplacedMatches(settles, orders, i, orders[i].(balance := orders[i].balance - pays));
    } else {
      WithoutMatches(settles, orders, i);
    }
  }

  lemma LedgerPays(b: Ledgers.Books, s: nat, pays: nat, receives: Asset)
    requires s in b.settles && pays <= b.settles[s].balance && b.settles[s].id == s
    ensures var o := b.settles[s];
            b.FillSettle(s, pays, receives)
            == b.(accounts := SettlePaid(b.accounts, o.owner, receives, FeeOn(b.rules.marketFees, receives.id, receives.amount)),
                  settles := ReducedById(b.settles, o, pays))
  {
  }

  lemma PaidMatches(m: Accounts, q: Queue, who: AccountId, receives: Asset, fee: nat)
    requires AccountsMatch(m, q) && fee <= receives.amount
    ensures AccountsMatch(SettlePaid(m, who, receives, fee),
                          q.(fees := FeeAdded(q.fees, receives.id, fee),
                             balances := Credited(q.balances, who, receives.id, receives.amount - fee)))
  {
    FeeMatches(m, q, receives.id, fee);
    CreditMatches(Add(m, AccumulatedFees(receives.id), fee), q.(fees := FeeAdded(q.fees, receives.id, fee)),
                  who, receives.id, receives.amount - fee);
  }

  /** Handing an order back is the same in both. */
  lemma CancelSimulates(b: Ledgers.Books, q: Queue, i: nat)
    requires Represents(b, q) && i < |q.orders|
    ensures q.orders[i].id in b.settles && Represents(b.CancelSettle(q.orders[i].id), q.Cancelled(i))
  {
    var o := q.orders[i];
    WithoutMatches(b.settles, q.orders, i);
    CreditMatches(b.accounts, q, o.owner, o.asset, o.balance);
  }

  /** Filling an order is the same in both: what is left of it, the fee, and who is paid what. */
  lemma FillSettleSimulates(b: Ledgers.Books, q: Queue, i: nat, pays: nat, received: AssetId, receives: nat)
    requires Represents(b, q) && i < |q.orders| && pays <= q.orders[i].balance && FeesOk(b.rules.marketFees)
    ensures var fee := FeeOn(b.rules.marketFees, received, receives);
            && fee <= receives && q.orders[i].id in b.settles
            && Represents(b.FillSettle(q.orders[i].id, pays, Asset(receives, received)),
                          q.SettleFilled(i, pays, received, receives, fee))
  {
    var o := q.orders[i];
    var fee := FeeOn(b.rules.marketFees, received, receives);
    FeeWithin(b.rules.marketFees, received, receives);
    PaidMatches(b.accounts, q, o.owner, Asset(receives, received), fee);
    ReducedMatches(b.settles, q.orders, i, pays);
    LedgerPays(b, o.id, pays, Asset(receives, received));
  }

  // --- Positions --------------------------------------------------------------------------------

  /** The map of positions after one was filled. */
  function FilledById(byId: map<CallId, Position>, c: CallId, p: Position, pays: nat, receives: nat): map<CallId, Position>
    requires pays <= p.collateral && receives <= p.debt
  {
    if receives == p.debt then byId - {c} else byId[c := Position(c.0, p.collateral - pays, p.debt - receives)]
  }

  lemma ClosedMatches(byId: map<CallId, Position>, a: AssetId, cs: seq<Position>, k: nat, rest: seq<Position>)
    requires AssetMatches(byId, a, cs) && k < |cs| && |rest| == |cs| - 1
    requires rest[..k] == cs[..k] && rest[k..] == cs[k + 1..]
    ensures AssetMatches(byId - {(cs[k].borrower, a)}, a, rest)
  {
    forall c: CallId | c in byId && c.1 == a && c.0 != cs[k].borrower
      ensures Owes(rest, c.0)
    {
      assert Owes(cs, c.0);
      var j :| 0 <= j < |cs| && cs[j].borrower == c.0;
      NowAt(cs, k, rest, j);
    }
    forall i, j | 0 <= i < j < |rest|
      ensures rest[i].borrower != rest[j].borrower
    {
      WasAt(cs, k, rest, i);
      WasAt(cs, k, rest, j);
    }
    forall j | 0 <= j < |rest|
      ensures rest[j].borrower != cs[k].borrower
      ensures (rest[j].borrower, a) in byId && byId[(rest[j].borrower, a)] == rest[j]
    {
      WasAt(cs, k, rest, j);
    }
  }

  lemma FilledMatches(byId: map<CallId, Position>, a: AssetId, cs: seq<Position>, k: nat, pays: nat, receives: nat)
    requires AssetMatches(byId, a, cs) && k < |cs| && pays <= cs[k].collateral && receives <= cs[k].debt
    ensures var c := cs[k];
            AssetMatches(FilledById(byId, (c.borrower, a), c, pays, receives), a, Filled(cs, k, pays, receives))
  {
    var c, filled := cs[k], Filled(cs, k, pays, receives);
    if receives == c.debt {
      assert filled[..k] == cs[..k] && filled[k..] == cs[k + 1..];
      ClosedMatches(byId, a, cs, k, filled);
    } else {
      forall who | Owes(cs, who)
        ensures Owes(filled, who)
      {
        var j :| 0 <= j < |cs| && cs[j].borrower == who;
        assert filled[j].borrower == who;
      }
    }
  }

  lemma OtherAssetMatches(byId: map<CallId, Position>, byId': map<CallId, Position>, a: AssetId, x: AssetId, cs: seq<Position>)
    requires AssetMatches(byId, x, cs) && x != a
    requires forall c: CallId :: c.1 != a ==> (c in byId' <==> c in byId) && (c in byId ==> byId'[c] == byId[c])
    ensures AssetMatches(byId', x, cs)
  {
    forall c | c in byId' && c.1 == x
      ensures Owes(cs, c.0)
    {
      assert c in byId;
    }
  }

  lemma CoveredMatches(m: Accounts, q: Queue, a: AssetId, backing: AssetId, who: AccountId, pays: nat, receives: nat, freed: nat)
    requires AccountsMatch(m, q) && a in q.supply
    ensures AccountsMatch(Covered(m, a, backing, who, pays, receives, freed),
                          q.(supply := q.supply[a := q.supply[a] - receives],
                             balances := Credited(q.balances, who, backing, freed)))
  {
    var m1 := Add(m, Supply(a), -(receives as int));
    var q1 := q.(supply := q.supply[a := q.supply[a] - receives]);
    assert AccountsMatch(m1, q1);
    CreditMatches(m1, q1, who, backing, freed);
  }

  lemma CallsStayMatched(byId: map<CallId, Position>, calls: map<AssetId, seq<Position>>, a: AssetId, k: nat,
                         pays: nat, receives: nat)
    requires CallsMatch(byId, calls) && a in calls && k < |calls[a]|
    requires pays <= calls[a][k].collateral && receives <= calls[a][k].debt
    ensures var p := calls[a][k];
            CallsMatch(FilledById(byId, (p.borrower, a), p, pays, receives), calls[a := Filled(calls[a], k, pays, receives)])
  {
    var p := calls[a][k];
    var byId', calls' := FilledById(byId, (p.borrower, a), p, pays, receives), calls[a := Filled(calls[a], k, pays, receives)];
    assert AssetMatches(byId, a, calls[a]);
    FilledMatches(byId, a, calls[a], k, pays, receives);
    forall x | x in calls'
      ensures AssetMatches(byId', x, calls'[x])
    {
      if x != a {
        OtherAssetMatches(byId, byId', a, x, calls[x]);
      }
    }
  }

  lemma LedgerFills(b: Ledgers.Books, c: CallId, pays: nat, receives: nat)
    requires c in b.calls && pays <= b.calls[c].collateral && receives <= b.calls[c].debt
    ensures var p := b.calls[c];
            var m := Covered(b.accounts, c.1, b.rules.CollateralAsset(c.1), c.0, pays, receives, Freed(p, pays, receives));
            b.FillCall(c, pays, receives) == Some(b.(accounts := m, calls := FilledById(b.calls, c, p, pays, receives)))
  {
  }

  /** Filling a position is the same in both, and the ledger never refuses it. */
  lemma FillCallSimulates(b: Ledgers.Books, q: Queue, a: AssetId, k: nat, pays: nat, receives: nat)
    requires Represents(b, q) && a in q.calls && a in q.supply && k < |q.calls[a]|
    requires pays <= q.calls[a][k].collateral && receives <= q.calls[a][k].debt
    ensures var c := (q.calls[a][k].borrower, a);
            && c in b.calls && b.calls[c] == q.calls[a][k] && b.FillCall(c, pays, receives).Some?
            && Represents(b.FillCall(c, pays, receives).value,
                          q.CallFilled(b.rules.CollateralAsset(a), a, k, pays, receives))
  {
    assert AssetMatches(b.calls, a, q.calls[a]);
    var p := q.calls[a][k];
    CoveredMatches(b.accounts, q, a, b.rules.CollateralAsset(a), p.borrower, pays, receives, Freed(p, pays, receives));
    CallsStayMatched(b.calls, q.calls, a, k, pays, receives);
    LedgerFills(b, (p.borrower, a), pays, receives);
  }
}

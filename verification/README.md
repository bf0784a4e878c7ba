# The chain engine, modelled and proved in Dafny

This project models the parts of the chain engine that carry its guarantees and proves what
they promise. Every hardfork counts as active, so only the newest branch of each function is
modelled. `dafny verify dfyconfig.toml` checks the whole project.

| file | what it models |
|---|---|
| `Amounts.dfy`, `Prices.dfy` | integer amounts at a price, rounded down or up, and the three price-scaling routines |
| `MarginCalls.dfy`, `MarginMatches.dfy` | how much debt a called position has to cover: closed form, binary search, Fibonacci search; what matching then does with the answer |
| `LimitOrders.dfy`, `OrderBook.dfy`, `CalledOrders.dfy`, `OverAsking.dfy` | matching two limit orders; working a new order into a book that never crosses, also while positions are called; exactly when that throws |
| `Ledger.dfy`, `Conservation.dfy`, `Ownership.dfy`, `Overdrafts.dfy`, `Debts.dfy`, `MarketRuns.dfy`, `Market.dfy` | balances, fees, supply and funds in orders; what every market operation keeps, over every run; who gains and loses in each; the operations in place |
| `GlobalSettlement.dfy` | settlement fund, redemption, and the bids that revive an asset |
| `ForceSettlement.dfy`, `SettleLedger.dfy` | matching settle orders and the loop that clears the due ones; its steps are the ledger's |
| `UndoDatabase.dfy` | nested undo sessions as diffs, refined by a stack of full snapshots |
| `ForkDatabase.dfy`, `BlockChain.dfy` | the block tree, and switching to a longer branch or back |
| `Budget.dfy` | the maintenance budget and the payment of workers |
| `VestingBalance.dfy` | coin-days vesting |
| `MerkleRoot.dfy` | the in-place Merkle root |
| `AmountStrings.dfy`, `MisplacedSigns.dfy` | printing and parsing decimal amounts; what a sign behind a digit or the point is read as |
| `Options.dfy`, `Positions.dfy`, `Sums.dfy` | shared types, and sums over maps and sequences |

Where the original changes objects in place there is a class whose methods change the same
fields. Each method is tied to a function of the state before it, and the theorems are about
those functions. An exception thrown by the original is `None` or `false`; the session it
runs in is undone, which the undo model covers.

The results that reach furthest:

- Rounding: what is bought by rounding down and paid for by rounding up costs no more than
  was offered and still buys the same. Matching, settling and margin calls rest on it.
- A margin call's answer is 0, the whole debt, or an amount below it for which the payment
  leaves collateral over and a call price above the feed. It is given for all inputs whose
  products fit, and no assertion on the way fires. Matched in full, the answer costs exactly
  that payment, and the position ends closed or with its call price above the feed.
- The book never crosses and holds no dust, no asset is created or lost, nothing is
  overdrawn, the CORE-in-orders statistic is exact, and supply moves with what positions owe,
  over every run. In a fill, match, cancellation or position update only the parties gain or
  lose, by exactly what they pay, receive and are charged.
- The diffs kept by the undo database mean full snapshots, over any interleaving of nested
  sessions; merging two sessions is composition.
- A fork switch ends on the new branch, replayed from the state where the branches meet, or
  leaves head and objects as they were, provided enough is retained (`Replays.EnoughFor`): an
  undo state for every block to pop, on either branch, and as many ancestors of the old head
  in the fork database.
- A settlement fund backs its supply over every run of redemptions, so that its assertion
  never fails, and reviving hands out exactly the supply and the fund.

Where the code falls short of what it seems to promise, the model keeps the code and says
exactly when:

- An order that asks for more than the maximum share supply can rest behind a better one, and
  a match with it throws. `OverAsking.GreedyBlocksBuyer` is such a run: once the better order
  is cancelled, an order that crosses the greedy one cannot be created. `OrderBooks.MatchOutcome`
  says that a match throws in no other case. With no position called, working in a new order
  throws exactly when it has more for sale than the crossing orders ahead of the first greedy
  one want (`OverAsking.WorkedThrows`), or asks too much itself for what nobody wants
  (`OverAsking.AppliedThrows`).
- A vested deposit multiplies in 64 bits. `CoinDays.VestedDepositIsWithdrawable` gives the
  exact condition under which it can be withdrawn at once, and
  `CoinDays.VestedDepositMayStayLocked` an amount for which it cannot. A product that wraps
  below zero leaves more coin seconds than the cap: `CoinDays.VestedDepositKeepsSound` says
  when, `CoinDays.VestedDepositMayExceedCap` is one. Such a balance is released in full at first
  and locks itself again when its count passes zero, unless it is updated before:
  `CoinDays.CreatedLocksAgain` is one, `CoinDays.CreatedIsReleased` and
  `CoinDays.AccrualComposes` say exactly when.
- `amount_from_string` accepts a sign behind a digit or the point. `AmountStrings.PlainIsRead`
  covers every string whose sign comes first, `MisplacedSigns.SignInsideIsRead` every other:
  "12-3" is read as -2, "1-2.5" as 1.5, and an amount behind a digit and a sign escapes the
  upper bound. A negative amount without integer digits (`-.5`) is refused although `.5` is not.
- The Merkle root determines the transactions if and only if no transaction hashes like the
  tree of several others (`MerkleRoots.RootDetermines`, `MerkleRoots.LookalikeSharesRoot`).

## Model

| member | source | states |
|---|---|---|
| `Amounts.DownIsLargest` | bcx/libbcx/chain/protocol/asset.cpp:56-73 | an amount at a price is the largest whole amount the exact product covers |
| `Amounts.UpIsSmallest` | bcx/libbcx/chain/protocol/asset.cpp:75-93 | rounded up it is the smallest whole amount that covers the exact product |
| `Amounts.RoundDownThenUp` | bcx/libbcx/chain/db_market.cpp:530-566 | converting down and back up never costs more, and the reduced amount still converts to the same |
| `Amounts.RoundUpThenDown` | bcx/libbcx/chain/market_object.cpp:175-183 | converting up and back down may grow the amount, at the same cost |
| `Amounts.LeftoverIsDust` | bcx/libbcx/chain/db_market.cpp:541-549 | what such a conversion leaves unspent is worth nothing at the same price |
| `Prices.TimesThenTimesUp` | bcx/libbcx/chain/protocol/asset.cpp:56-93 | the same for assets at a valid price; the second conversion never throws |
| `Prices.Reduce` | bcx/libbcx/chain/protocol/asset.cpp:112-138 | a rational in lowest terms has the same value and no larger parts |
| `Prices.ScalePrice` | bcx/libbcx/chain/protocol/asset.cpp:104-184 | price times ratio terminates and throws only for an invalid price or ratio |
| `Prices.ScaledInRange` | bcx/libbcx/chain/protocol/asset.cpp:104-184 | the scaled price has both amounts between 1 and the maximum supply, or is the given price unchanged |
| `Prices.ScaledExact` | bcx/libbcx/chain/protocol/asset.cpp:112-139 | it is exact whenever the reduced product can be represented |
| `Prices.ScaledOnRightSide` | bcx/libbcx/chain/protocol/asset.cpp:171-183 | a ratio of at least one never lowers a price, one of at most one never raises it |
| `Prices.ScaledIsClose` | bcx/libbcx/chain/protocol/asset.cpp:140-169 | a price that had to be shortened is off by less than one in the unit of its larger amount, unless it is the given price or sits on the edge of the range |
| `Prices.ComputeCallPrice` | bcx/libbcx/chain/protocol/asset.cpp:207-219 | the shrinking loop terminates and yields the specified call price |
| `Prices.CallPriceInRange` | bcx/libbcx/chain/protocol/asset.cpp:207-219 | a call price is positive and representable, and exact when nothing had to shrink |
| `Prices.HalvedPlusOneTowardsOne` | bcx/libbcx/chain/protocol/asset.cpp:212-216 | shrinking moves a ratio only towards one: a bound at two or more, or a half or less, survives it |
| `Prices.ComputeMaxShortSqueezePrice` | bcx/libbcx/chain/protocol/asset.cpp:261-272 | the shrinking loop terminates and yields the specified squeeze price |
| `Prices.MaxShortSqueezeInRange` | bcx/libbcx/chain/protocol/asset.cpp:261-272 | a squeeze price is positive and representable, and exact when nothing had to shrink |
| `MarginCalls.MaxDebtToCover` | bcx/libbcx/chain/market_object.cpp:57-266 | 0 when feed protected, the whole debt without a target ratio, otherwise the answer `Answers` describes; it throws only for foreign prices or when a product does not fit |
| `MarginCalls.Estimate` | bcx/libbcx/chain/market_object.cpp:90-119 | the answer is 0, the whole debt, or below it with payment below collateral and call price above the feed; a good lower estimate is taken at once |
| `MarginCalls.Refine` | bcx/libbcx/chain/market_object.cpp:121-264 | a searched answer is the whole debt or meets the target, is locally minimal or lies beyond an upper estimate that is not enough, and stays within a good upper estimate |
| `MarginCalls.Mean` | bcx/libbcx/chain/market_object.cpp:153-205 | the next candidate is stable and strictly between the bounds, or the upper bound itself, in which case nothing lies between |
| `MarginCalls.BinarySearch` | bcx/libbcx/chain/market_object.cpp:147-228 | terminates, and finds a good and tight cover unless the upper bound misses the target |
| `MarginCalls.ForwardSearch` | bcx/libbcx/chain/market_object.cpp:230-264 | terminates, and finds the whole debt or a good cover beyond its start; no assertion fires |
| `MarginCalls.CoverIsStrict` | bcx/libbcx/chain/market_object.cpp:154-168 | where collateral steps are finer a larger payment covers strictly more |
| `MarginCalls.PayIsStrict` | bcx/libbcx/chain/market_object.cpp:174-196 | where debt steps are finer a larger cover costs strictly more |
| `MarginCalls.FinePayIsStable` | bcx/libbcx/chain/market_object.cpp:161-170 | rounding back and forth does not move a payment where collateral steps are finer |
| `MarginCalls.FineCoverIsStable` | bcx/libbcx/chain/market_object.cpp:181-195 | nor a cover where debt steps are finer |
| `MarginMatches.CoverIsMatched` | bcx/libbcx/chain/db_market.cpp:582-658 | matching for an amount takes exactly the payment the routine reckons with, and throws just when that exceeds the collateral |
| `MarginMatches.GoodCoverIsMatched` | bcx/libbcx/chain/db_market.cpp:582-658 | a good cover, matched, leaves the position with its call price above the feed |
| `MarginMatches.AnswerIsMatched` | bcx/libbcx/chain/market_object.cpp:90-266 | any answer matched in full closes the position or lifts its call price above the feed; it throws only for the whole debt when the collateral cannot pay for it |
| `LimitOrders.RangeIsCrossing` | bcx/libbcx/chain/db_market.cpp:394-397 | the stretch of the index the matching loop walks holds exactly the crossing orders |
| `LimitOrders.LessTransitive` | bcx/libbcx/chain/protocol/asset.cpp:43-54 | comparing prices across products is a weak order |
| `LimitOrders.WorsePriceCrossesLess` | bcx/libbcx/chain/db_market.cpp:384-392 | an order asking more than another of its side crosses nothing the other does not |
| `LimitOrders.MatchIs` | bcx/libbcx/chain/db_market.cpp:515-566 | the amounts of a match, and that it throws exactly when the maker asks for more than the maximum supply |
| `LimitOrders.MatchIsFair` | bcx/libbcx/chain/db_market.cpp:515-575 | neither side pays more than it sells, both pay something, and each receives at least what its own price says |
| `LimitOrders.OneSideIsDone` | bcx/libbcx/chain/db_market.cpp:541-578 | one side is filled or left with dust at its own price, so the closing assertion holds |
| `LimitOrders.NothingMeansDust` | bcx/libbcx/chain/db_market.cpp:532-537 | a taker that would get nothing asks for nothing at its own price either |
| `OrderBooks.First` | bcx/libbcx/chain/db_market.cpp:394-397 | the order matched next has the best price of all crossing orders, and is the oldest at it |
| `OrderBooks.MatchOutcome` | bcx/libbcx/chain/db_market.cpp:515-580 | a match fails exactly when the maker asks too much; otherwise it touches only the two orders, and a taker that is not done has consumed the maker |
| `OrderBooks.MatchKeepsBook` | bcx/libbcx/chain/db_market.cpp:486-493 | a match keeps everything but the taker a book without crossing orders or dust |
| `OrderBooks.WorkedOutcome` | bcx/libbcx/chain/db_market.cpp:486-493 | after the loop the new order is gone, is dust, or crosses nothing; all totals are unchanged |
| `OrderBooks.WorkedSucceeds` | bcx/libbcx/chain/db_market.cpp:486-493 | while no order asks for more than can exist, no match throws |
| `OrderBooks.BehindCrossesNothing` | bcx/libbcx/chain/db_market.cpp:384-392 | an order behind a better one of its side crosses nothing, so returning early is right |
| `OrderBooks.AppliedKeepsBook` | bcx/libbcx/chain/db_market.cpp:486-503 | with no position called, working in a new order restores the book invariant and keeps all totals; it reports "gone" exactly when the order is |
| `OrderBooks.AppliedSucceeds` | bcx/libbcx/chain/db_market.cpp:486-503 | with no position called, and while no order asks for more than can exist, working in an order never throws |
| `CalledOrders.AboveOutcome` | bcx/libbcx/chain/db_market.cpp:451-458 | after the first loop the new order is finished, or no crossing order offers more than the called positions |
| `CalledOrders.CallOutcome` | bcx/libbcx/chain/db_market.cpp:582-658 | a match with a called position leaves all other orders and all totals alone; the new order goes on with less, or is gone or dust |
| `CalledOrders.CalledOutcome` | bcx/libbcx/chain/db_market.cpp:460-483 | the second loop terminates with the new order finished or no position it faces called any more |
| `CalledOrders.WorkedWithOutcome` | bcx/libbcx/chain/db_market.cpp:449-493 | after the three loops the new order is gone, is dust, or crosses nothing, and all totals are kept |
| `CalledOrders.AppliedWithKeepsBook` | bcx/libbcx/chain/db_market.cpp:378-503 | whichever positions are called and however much they cover, working in a new order restores the book invariant and keeps all totals; it reports "gone" exactly when the order is |
| `CalledOrders.AboveThenWorked` | bcx/libbcx/chain/db_market.cpp:451-458 | the first loop followed by the third is the third alone |
| `CalledOrders.NoneCalled` | bcx/libbcx/chain/db_market.cpp:449-493 | when no position is called the three loops come to matching limit orders only |
| `OverAsking.MatchLeaves` | bcx/libbcx/chain/db_market.cpp:515-580 | the taker goes on exactly when it has more than the maker wants, rounded down, and then with just that much less |
| `OverAsking.WorkedThrows` | bcx/libbcx/chain/db_market.cpp:486-493 | the loop throws exactly when some crossing order asks for more than can exist and the new order has more for sale than the crossing orders before the first such one want; otherwise it leaves just what nobody wants, or dust |
| `OverAsking.NoneBlocking` | bcx/libbcx/chain/db_market.cpp:486-493 | without such an order among those it crosses the loop never throws |
| `OverAsking.AppliedThrows` | bcx/libbcx/chain/db_market.cpp:486-503 | working in throws exactly when no better order is ahead, the order has more for sale than the crossing orders it reaches want, and one behind them asks too much or the order itself does for what is left |
| `OverAsking.GreedyBlocksBuyer` | bcx/libbcx/chain/market_evaluator.cpp:93-123 | a run from an empty book after which an order that crosses the resting one cannot be created |
| `OrderBooks.CulledKeepsBook` | bcx/libbcx/chain/db_market.cpp:301-325 | the deferred cull at the end leaves a proper book |
| `Ledgers.MarketFee.WithinAmount` | bcx/libbcx/chain/db_market.cpp:1103-1127 | a market fee never exceeds the amount it is taken from |
| `Ledgers.Books.FillLeavesOthers` | bcx/libbcx/chain/db_market.cpp:767-817 | filling an order leaves all other orders alone |
| `Conservation.PaidPartWithin` | bcx/libbcx/chain/db_market.cpp:241-257 | the cancellation fee in the paid asset is no more than the deferred paid fee |
| `Conservation.RefundedHeld` | bcx/libbcx/chain/db_market.cpp:205-299 | cancelling hands out exactly the order's funds and deferred fees |
| `Conservation.CancelConserves` | bcx/libbcx/chain/db_market.cpp:205-299 | cancelling keeps every asset's surplus over supply and every CORE-in-orders statistic |
| `Conservation.FillMoves` | bcx/libbcx/chain/db_market.cpp:767-817 | a fill moves exactly what is paid out and what is received in, fees included |
| `Conservation.FillCallMoves` | bcx/libbcx/chain/db_market.cpp:820-872 | filling a position moves its payment out and retires the debt received |
| `Conservation.FillSettleMoves` | bcx/libbcx/chain/db_market.cpp:875-908 | filling a settle order moves its payment out and its proceeds in |
| `Conservation.MatchConserves` | bcx/libbcx/chain/db_market.cpp:515-580 | matching two limit orders creates and loses nothing |
| `Conservation.MatchOfCallConserves` | bcx/libbcx/chain/db_market.cpp:582-658 | nor does matching a limit order with a position |
| `Conservation.MatchSettleConserves` | bcx/libbcx/chain/db_market.cpp:661-765 | nor does matching a settle order with a position, dust included |
| `Conservation.UpdateCallConserves` | bcx/libbcx/chain/market_evaluator.cpp:192-270 | opening, changing and closing a position keep all totals |
| `Conservation.RequestSettleConserves` | bcx/libbcx/chain/asset_evaluator.cpp:899-907 | requesting a settlement moves a balance into the queue |
| `Conservation.CancelSettleConserves` | bcx/libbcx/chain/db_market.cpp:190-203 | cancelling a settle order moves it back |
| `Conservation.ChargeFeeConserves` | bcx/libbcx/chain/evaluator.cpp:53-107 | paying a fee through an asset's pool keeps all totals |
| `Ownership.CancelOwned` | bcx/libbcx/chain/db_market.cpp:262-294 | cancelling returns an order's funds and the rest of its fee to its seller and gives nobody else anything |
| `Ownership.FillOwned` | bcx/libbcx/chain/db_market.cpp:767-817 | a fill changes only what its seller owns: it pays, and receives less the market fee, culling included |
| `Ownership.MatchOwned` | bcx/libbcx/chain/db_market.cpp:515-580 | taker and maker pay each other, each less the market fee on what it receives; nobody else is touched |
| `Ownership.FillCallOwned` | bcx/libbcx/chain/db_market.cpp:820-872 | a borrower loses what its position pays and keeps all freed collateral |
| `Ownership.FillSettleOwned` | bcx/libbcx/chain/db_market.cpp:875-908 | a settling owner loses what the order pays and gains its proceeds less the fee |
| `Ownership.MatchSettleOwned` | bcx/libbcx/chain/db_market.cpp:661-765 | a settle match moves property only between the borrower and the settling owner |
| `Ownership.UpdateCallOwned` | bcx/libbcx/chain/market_evaluator.cpp:192-270 | borrowing gives the borrower exactly the new debt; collateral stays its own |
| `MarketRuns.PlacedTotals` | bcx/libbcx/chain/market_evaluator.cpp:65-115 | placing an order accounts for its deferred fee before the seller has paid it |
| `MarketRuns.CreatedKeeps` | bcx/libbcx/chain/market_evaluator.cpp:65-123 | creating an order keeps the book and all totals, whichever positions are called by it; fill-or-kill succeeds only when the order is gone |
| `MarketRuns.AttemptKeeps` | bcx/libbcx/chain/db_debug.cpp:40-101 | every operation keeps the book invariant and all totals |
| `MarketRuns.RunKeeps` | bcx/libbcx/chain/db_debug.cpp:40-101 | so does every run: (balances, order funds, collateral, fees and pools) less supply never changes for any asset |
| `Debts.FillCallKeepsUnowed` | bcx/libbcx/chain/db_market.cpp:820-872 | what a position no longer owes ceases to exist |
| `Debts.UpdateCallKeepsUnowed` | bcx/libbcx/chain/market_evaluator.cpp:192-270 | new debt is new supply, and a covered debt is burnt |
| `Debts.WorkedLeavesDebts` | bcx/libbcx/chain/db_market.cpp:486-493 | however many matches an order goes through, no supply and no debt changes |
| `Debts.CreatedKeepsUnowed` | bcx/libbcx/chain/market_evaluator.cpp:65-123 | the debt that called positions cover while an order is created ceases to exist as supply, and nothing else does |
| `Debts.RunKeepsUnowed` | bcx/libbcx/chain/db_debug.cpp:74-88 | over every run the supply of each asset less the debt in it never changes |
| `Debts.SupplyStaysOwed` | bcx/libbcx/chain/db_debug.cpp:74-88 | an asset whose whole supply is owed stays so: its positions always owe exactly its supply, and none owes more |
| `Overdrafts.RefundedNoOverdraft` | bcx/libbcx/chain/db_market.cpp:205-299 | a refund overdraws nothing |
| `Overdrafts.AppliedNoOverdraft` | bcx/libbcx/chain/db_market.cpp:486-503 | with no position called, working in an order overdraws nothing |
| `Overdrafts.AppliedWithNoOverdraft` | bcx/libbcx/chain/db_market.cpp:378-503 | working in an order overdraws nothing, whichever positions are called |
| `Overdrafts.RunNeverOverdraws` | bcx/libbcx/chain/db_balance.cpp:52-81 | over every run no balance, fee account or fee pool becomes negative |
| `Markets.Market.AdjustBalance` | bcx/libbcx/chain/db_balance.cpp:52-81 | a balance is adjusted, or nothing changes when it would be overdrawn |
| `Markets.Market.PayMarketFees` | bcx/libbcx/chain/db_market.cpp:1103-1139 | the fee goes to the asset's accumulated fees |
| `Markets.Market.DeductCancelFee` | bcx/libbcx/chain/db_market.cpp:221-259 | the fee is capped by the deferred fee and taken in the asset it was paid in |
| `Markets.Market.CancelLimitOrder` | bcx/libbcx/chain/db_market.cpp:205-299 | the books become the cancelled books of the specification |
| `Markets.Market.MaybeCullSmallOrder` | bcx/libbcx/chain/db_market.cpp:301-325 | an order is cancelled exactly when it asks for nothing |
| `Markets.Market.FillLimitOrder` | bcx/libbcx/chain/db_market.cpp:767-817 | the books become the filled books, and the result says whether the order is gone |
| `Markets.Market.MatchLimitOrders` | bcx/libbcx/chain/db_market.cpp:515-580 | the books and the bit field are those of the specified match |
| `Markets.Market.FirstOf` | bcx/libbcx/chain/db_market.cpp:394-397 | scanning finds the first order of a set in index order |
| `Markets.Market.IsBehind` | bcx/libbcx/chain/db_market.cpp:384-392 | whether the index holds a same-market order just before the new one |
| `Markets.Market.MatchAll` | bcx/libbcx/chain/db_market.cpp:486-493 | the loop terminates in the specified books |
| `Markets.Market.MatchAbove` | bcx/libbcx/chain/db_market.cpp:451-458 | the loop over limit orders above a price terminates in the specified books |
| `Markets.Market.MatchCalled` | bcx/libbcx/chain/db_market.cpp:460-483 | so does the loop over called positions |
| `Markets.Market.ApplyOrder` | bcx/libbcx/chain/db_market.cpp:378-503 | the new order is worked in as specified, called positions included |
| `Markets.Market.CreateLimitOrder` | bcx/libbcx/chain/market_evaluator.cpp:41-123 | the order is created as specified or nothing changes; the book invariant and all totals are kept either way |
| `Markets.Market.FillCallOrder` | bcx/libbcx/chain/db_market.cpp:820-872 | a position pays, is relieved, and is closed when its debt is gone |
| `Markets.Market.MatchCallOrder` | bcx/libbcx/chain/db_market.cpp:582-658 | the books and the bit field are those of the specified match |
| `Markets.Market.UpdateCallOrder` | bcx/libbcx/chain/market_evaluator.cpp:192-270 | the position is updated as specified or nothing changes; all totals are kept |
| `Markets.Market.MatchSettleOrder` | bcx/libbcx/chain/db_market.cpp:661-765 | the books are those of the specified match |
| `Markets.Market.FillSettleOrder` | bcx/libbcx/chain/db_market.cpp:875-908 | the order is reduced or removed and its owner paid less the market fee |
| `SettlementFunds.RedeemSucceeds` | bcx/libbcx/chain/asset_evaluator.cpp:856-875 | in a solvent pool the fund always suffices; redeeming fails exactly for a worthless amount outside prediction markets |
| `SettlementFunds.RedeemKeepsSolvent` | bcx/libbcx/chain/asset_evaluator.cpp:856-895 | redeeming keeps the rest backed, costs no more than offered, pays its exact worth, and the last unit takes the whole fund |
| `SettlementFunds.RedeemAllStaysSolvent` | bcx/libbcx/chain/asset_evaluator.cpp:856-895 | over every run the fund backs the supply at the settlement price, and no supply leaves no fund |
| `SettlementFunds.GatheredWithinCollateral` | bcx/libbcx/chain/db_market.cpp:60-90 | the fund never takes more than the positions pledged |
| `SettlementFunds.RestIsBacked` | bcx/libbcx/chain/db_maint.cpp:830-849 | handing bids their part never overdraws the fund and leaves the uncovered debt backed |
| `SettlementFunds.TakenGetTheirShare` | bcx/libbcx/chain/db_maint.cpp:830-849 | nobody taking over debt gets less than the proportional part of the fund |
| `SettlementFunds.NoneTaken` | bcx/libbcx/chain/db_maint.cpp:812-827 | when the qualifying bids fall short, no prefix of bids could have been taken |
| `SettlementFunds.ExecutedOne` | bcx/libbcx/chain/db_maint.cpp:832-849 | one round of the second loop: neither side goes negative, and only the last bid takes the rest |
| `SettledAssets.MarketIssuedAsset.GloballySettle` | bcx/libbcx/chain/db_market.cpp:43-100 | all positions are closed into the fund and the asset is solvent at the price it settles at; no backing is lost |
| `SettledAssets.MarketIssuedAsset.Quote` | bcx/libbcx/chain/asset_evaluator.cpp:860-882 | the amounts of a redemption; the assertion inside holds |
| `SettledAssets.MarketIssuedAsset.Redeem` | bcx/libbcx/chain/asset_evaluator.cpp:856-898 | supply, fund and the holder change by the specified redemption, or nothing does; no backing is lost |
| `SettledAssets.MarketIssuedAsset.FindTaken` | bcx/libbcx/chain/db_maint.cpp:812-827 | the first loop finds the shortest qualifying prefix of bids that covers the supply, or says there is none |
| `SettledAssets.MarketIssuedAsset.ExecuteBids` | bcx/libbcx/chain/db_maint.cpp:829-851 | exactly the supply is handed out as debt and the whole fund as collateral; both closing assertions hold |
| `SettledAssets.MarketIssuedAsset.CancelBidsAndRevive` | bcx/libbcx/chain/db_market.cpp:126-164 | the other bids are refunded and the settlement ends |
| `SettledAssets.MarketIssuedAsset.ProcessBids` | bcx/libbcx/chain/db_maint.cpp:800-854 | an asset is revived exactly when enough bids qualify, with every taken bid's position as promised; no backing is lost |
| `SettleMatching.MatchKeepsEnough` | bcx/libbcx/chain/db_market.cpp:661-765 | a position that could pay all it owes can pay any match, stays able to, and each side pays the price |
| `SettleMatching.MatchCloses` | bcx/libbcx/chain/db_market.cpp:676-733 | a match closes the position or the order, or leaves only dust of the volume, on which the next match stalls |
| `SettleQueues.SettleQueue.CancelAt` | bcx/libbcx/chain/db_market.cpp:190-203 | the order goes back to its owner and is removed; nothing is lost |
| `SettleQueues.SettleQueue.FillCall` | bcx/libbcx/chain/db_market.cpp:820-872 | a position pays and is relieved, and what a closed one has left goes to its borrower; the total changes by exactly what is paid and retired |
| `SettleQueues.SettleQueue.FillSettle` | bcx/libbcx/chain/db_market.cpp:875-908 | the order is reduced or removed and its owner paid less the market fee; the total changes by exactly what is paid in and out |
| `SettleQueues.SettleQueue.PayMarketFee` | bcx/libbcx/chain/db_market.cpp:1103-1139 | the fee, never more than the payment, goes to the asset's accumulated fees |
| `SettleQueues.SettleQueue.MatchOrder` | bcx/libbcx/chain/db_market.cpp:661-765 | a match never throws for a position with enough collateral, and changes exactly the two sides |
| `SettleQueues.SettleQueue.LeastCollateralised` | bcx/libbcx/chain/db_update.cpp:405-413 | no position has less collateral per debt than the one chosen |
| `SettleQueues.SettleQueue.WorkOff` | bcx/libbcx/chain/db_update.cpp:405-448 | terminates with the order gone, the volume reached, or a match that moves nothing; supply falls by what was settled |
| `SettleQueues.SettleQueue.SettleDue` | bcx/libbcx/chain/db_update.cpp:387-454 | the recorded volume rises by what was settled and stays within its limit |
| `SettleQueues.SettleQueue.ClearExpired` | bcx/libbcx/chain/db_update.cpp:256-457 | terminates and never throws when positions have enough collateral; the volume stays within the larger of its old value and its limit, orders not due stay in order, and nothing is lost |
| `SettleLedgers.CancelSimulates` | bcx/libbcx/chain/db_market.cpp:190-203 | handing an order back does the same to the queue and to the ledger's books |
| `SettleLedgers.FillCallSimulates` | bcx/libbcx/chain/db_market.cpp:820-872 | so does filling a position, which the ledger never refuses there |
| `SettleLedgers.FillSettleSimulates` | bcx/libbcx/chain/db_market.cpp:875-908 | so does filling a settle order, its fee included |
| `SettleQueues.NotBetterTransitive` | bcx/libbcx/chain/db_update.cpp:405-413 | comparing collateral per debt across products is transitive |
| `UndoStates.CreateIsUndone` | bcx/libbcx/db/undo_database.cpp:47-58 | recording a creation changes nothing about what undoing restores |
| `UndoStates.ModifyIsUndone` | bcx/libbcx/db/undo_database.cpp:60-71 | nor does recording a change |
| `UndoStates.RemoveIsUndone` | bcx/libbcx/db/undo_database.cpp:73-93 | nor does recording a removal, of a created, changed or untouched object |
| `UndoStates.ImpossibleCells` | bcx/libbcx/db/undo_database.cpp:138-241 | the cells of the merge table marked as not applicable cannot occur for any history |
| `UndoStates.MergeIsComposition` | bcx/libbcx/db/undo_database.cpp:125-244 | undoing the merged diff is undoing the later and then the earlier one, and its sets stay disjoint |
| `UndoStates.DropOldest` | bcx/libbcx/db/undo_database.cpp:40-41 | forgetting the oldest diff forgets the oldest snapshot and nothing else |
| `UndoMachines.StepRefines` | bcx/libbcx/db/undo_database.cpp:33-287 | every operation does to the diffs what it does to full snapshots |
| `UndoMachines.RunRefines` | bcx/libbcx/db/undo_database.cpp:33-287 | so does every interleaving of operations |
| `UndoMachines.OlderSnapshotsStay` | bcx/libbcx/db/undo_database.cpp:33-287 | what happens above a retained state does not touch it |
| `UndoMachines.UndoneSessionRestores` | bcx/libbcx/db/undo_database.cpp:95-123 | an undone session leaves no trace, whatever nested sessions it held |
| `UndoDatabases.UndoDatabase.StartUndoSession` | bcx/libbcx/db/undo_database.cpp:33-46 | a session starts unless disabled, with the oldest states trimmed |
| `UndoDatabases.UndoDatabase.Create` | bcx/libbcx/db/undo_database.cpp:47-58 | the store and the snapshots change as specified |
| `UndoDatabases.UndoDatabase.Modify` | bcx/libbcx/db/undo_database.cpp:60-71 | the store and the snapshots change as specified |
| `UndoDatabases.UndoDatabase.Remove` | bcx/libbcx/db/undo_database.cpp:73-93 | the store and the snapshots change as specified |
| `UndoDatabases.UndoDatabase.Restore` | bcx/libbcx/db/undo_database.cpp:100-117 | walking the newest diff restores the store, every object looked up being there |
| `UndoDatabases.UndoDatabase.UndoNewest` | bcx/libbcx/db/undo_database.cpp:95-123 | the newest snapshot is the store again |
| `UndoDatabases.UndoDatabase.Merge` | bcx/libbcx/db/undo_database.cpp:125-244 | the newest snapshot is forgotten and all others stay |
| `UndoDatabases.UndoDatabase.MergeInto` | bcx/libbcx/db/undo_database.cpp:178-241 | the in-place merge yields the composed diff |
| `UndoDatabases.UndoDatabase.Commit` | bcx/libbcx/db/undo_database.cpp:245-249 | a session ends with its state retained |
| `UndoDatabases.UndoDatabase.PopCommit` | bcx/libbcx/db/undo_database.cpp:251-287 | the newest retained state is restored once no session is active |
| `ForkTrees.BranchesMeet` | bcx/libbcx/chain/fork_database.cpp:196-238 | the two branches are linked chains from the given tips whose ends have equal number and parent, with no earlier pair sharing one |
| `ForkTrees.BranchesExist` | bcx/libbcx/chain/fork_database.cpp:196-238 | they are found whenever the tree retains chains that meet |
| `ForkTrees.PushedIsValid` | bcx/libbcx/chain/fork_database.cpp:72-110 | pushing keeps the tree well formed |
| `ForkDatabases.ForkDatabase.StartBlock` | bcx/libbcx/chain/fork_database.cpp:45-54 | the block becomes the head, with no live parent |
| `ForkDatabases.ForkDatabase.PushBlock` | bcx/libbcx/chain/fork_database.cpp:56-110 | a block is accepted exactly when recent enough and linkable; tree and head change as specified |
| `ForkDatabases.ForkDatabase.PopBlock` | bcx/libbcx/chain/fork_database.cpp:37-43 | the head moves to its parent if that is still there |
| `ForkDatabases.ForkDatabase.SetMaxSize` | bcx/libbcx/chain/fork_database.cpp:126-155 | exactly the blocks too far below the head are erased |
| `ForkDatabases.ForkDatabase.FetchBranchFrom` | bcx/libbcx/chain/fork_database.cpp:196-238 | the loops terminate with the specified branches |
| `ForkDatabases.ForkDatabase.Remove` | bcx/libbcx/chain/fork_database.cpp:245-260 | the block is erased and its children lose their parent |
| `Replays.BranchStepsDown` | bcx/libbcx/chain/db_block.cpp:147-152 | popping a whole branch leads to the state its oldest block was applied on |
| `Replays.FailedStepsDown` | bcx/libbcx/chain/db_block.cpp:178-183 | from wherever the new branch failed, popping leads back to its base |
| `Replays.DroppedAreNotAncestors` | bcx/libbcx/chain/db_block.cpp:169-176 | the blocks dropped after a failure are never ancestors of the old head |
| `Replays.SwitchAllOrNothing` | bcx/libbcx/chain/db_block.cpp:128-219 | a completed switch ends on the new head, any other outcome leaves the state |
| `Replays.SwitchIsReplay` | bcx/libbcx/chain/db_block.cpp:142-199 | the state after a completed switch is the new branch replayed on the retained state whose head is the common parent of both branches |
| `Replays.PushIsReplay` | bcx/libbcx/chain/db_block.cpp:128-219 | so it is for a pushed block that makes its branch the higher one, in the tree the push leaves |
| `Replays.AllOrNothing` | bcx/libbcx/chain/db_block.cpp:128-219 | unless a pushed block extends the chain or wins a higher branch, the state is the one before, whichever block fails |
| `BlockChains.Database.PopBlock` | bcx/libbcx/chain/db_block.cpp:465-477 | the previous state is back and the fork head moves to its parent |
| `BlockChains.Database.ApplyInSession` | bcx/libbcx/chain/db_block.cpp:204-209 | a block that throws leaves no trace |
| `BlockChains.Database.ApplyBranch` | bcx/libbcx/chain/db_block.cpp:154-167 | the new branch is replayed up to the first block that fails |
| `BlockChains.Database.SwitchFork` | bcx/libbcx/chain/db_block.cpp:142-199 | the state is the replayed new branch or the one before; nothing else with enough history |
| `BlockChains.Database.RollBack` | bcx/libbcx/chain/db_block.cpp:166-196 | after a failure the old branch is back |
| `BlockChains.Database.PushBlock` | bcx/libbcx/chain/db_block.cpp:128-219 | with enough history the outcome and the state are exactly the expected ones |
| `Budgets.PayrollIsSorted` | bcx/libbcx/chain/db_maint.cpp:156-175 | exactly the active workers with votes are paid, by votes and then by id |
| `Budgets.PaidFromTakes` | bcx/libbcx/chain/db_maint.cpp:181-199 | pay and leftover are the budget, and what is paid is what supply and holdings change by |
| `Budgets.ShortPayEndsPayroll` | bcx/libbcx/chain/db_maint.cpp:181-199 | a worker that gets less than it asks leaves nothing to anyone after it |
| `Budgets.TotalBudgetWithinReserve` | bcx/libbcx/chain/db_maint.cpp:404-449 | the budget stays within the reserve, and is positive exactly when there is a reserve and time has passed |
| `Budgets.ProcessedKeeps` | bcx/libbcx/chain/db_maint.cpp:454-547 | supply stays within its maximum, and supply less holdings, fees and witness budget is unchanged |
| `Budgets.RunKeeps` | bcx/libbcx/chain/db_maint.cpp:454-547 | the same over every run with any workers and parameters |
| `BudgetProcessing.Chain.PayWorker` | bcx/libbcx/chain/worker_evaluator.cpp:106-126 | the three kinds of pay change exactly supply, vesting balance or burnt account |
| `BudgetProcessing.Chain.PayWorkers` | bcx/libbcx/chain/db_maint.cpp:152-199 | the loop pays the specified amounts and returns what is left |
| `BudgetProcessing.Chain.TotalBudget` | bcx/libbcx/chain/db_maint.cpp:404-449 | the specified budget, with its rounding up and its cap |
| `BudgetProcessing.Chain.ProcessBudget` | bcx/libbcx/chain/db_maint.cpp:454-547 | the treasury changes as specified; no money is created or lost |
| `CoinDays.Vesting.WithdrawalIsEarned` | bcx/libbcx/chain/vesting_balance_object.cpp:111-142 | in every state an allowed withdrawal is covered by balance and coin seconds, so neither assertion fires |
| `CoinDays.AccrualComposes` | bcx/libbcx/chain/vesting_balance_object.cpp:90-109 | accruing to one time and then another is accruing straight to the later if and only if the sum does not wrap between the two or still reaches the cap |
| `CoinDays.SoundAccrualComposes` | bcx/libbcx/chain/vesting_balance_object.cpp:90-109 | within the cap nothing wraps, and accruing always composes |
| `CoinDays.DepositKeepsSound` | bcx/libbcx/chain/vesting_balance_object.cpp:121-124 | a deposit keeps coin seconds within balance times period |
| `CoinDays.VestedDepositKeepsSound` | bcx/libbcx/chain/vesting_balance_object.cpp:126-130 | a vested deposit does so if and only if the sum with its wrapped product is not negative; a product that fits is added exactly |
| `CoinDays.VestedDepositMayExceedCap` | bcx/libbcx/chain/vesting_balance_object.cpp:126-130 | a deposit whose product wraps below zero and leaves more coin seconds than the cap |
| `CoinDays.AllowedAfterVested` | bcx/libbcx/chain/vesting_balance_object.cpp:126-130 | what can be withdrawn after a vested deposit, wrapped product included |
| `CoinDays.VestedDepositIsWithdrawable` | bcx/libbcx/chain/vesting_balance_object.cpp:126-130 | a vested deposit can be withdrawn at once if and only if its product fits, or the sum wraps below zero and all was vested already |
| `CoinDays.VestedDepositMayStayLocked` | bcx/libbcx/chain/vesting_balance_object.cpp:126-130 | an amount of which only a part is released at once |
| `CoinDays.CreatedIsWithdrawable` | bcx/libbcx/chain/db_balance.cpp:116-129 | when a balance created by a vested deposit is fully released at that moment, if and only if |
| `CoinDays.CreatedIsReleased` | bcx/libbcx/chain/vesting_balance_object.cpp:90-103 | the same at any later time: its count has reached the cap, or is below zero |
| `CoinDays.CreatedLocksAgain` | bcx/libbcx/chain/vesting_balance_object.cpp:90-109 | a balance above the cap that is free at first, almost locked later, and free throughout when updated in between |
| `CoinDays.AfterSoundness` | bcx/libbcx/chain/vesting_balance_object.cpp:207-232 | which single events leave coin seconds within the cap, whatever they were before |
| `CoinDays.RunKeepsSound` | bcx/libbcx/chain/vesting_balance_object.cpp:207-232 | over a whole run coin seconds stay within their cap if and only if they start so and no vested deposit takes the sum below zero |
| `CoinDays.RunBalances` | bcx/libbcx/chain/vesting_balance_object.cpp:207-232 | over every run, wrapped deposits included, the balance is what was put in less what was withdrawn |
| `VestingBalances.VestingBalance.constructor` | bcx/libbcx/chain/db_balance.cpp:116-129 | the state a first deposit creates |
| `VestingBalances.VestingBalance.Deposit` | bcx/libbcx/chain/vesting_balance_object.cpp:207-212 | the specified deposit |
| `VestingBalances.VestingBalance.DepositVested` | bcx/libbcx/chain/vesting_balance_object.cpp:214-219 | the specified vested deposit |
| `VestingBalances.VestingBalance.Withdraw` | bcx/libbcx/chain/vesting_balance_object.cpp:226-232 | a withdrawal happens exactly when it is allowed; the assertion inside holds |
| `MerkleRoots.HashPairs` | bcx/libbcx/chain/protocol/block.cpp:77-87 | one level is reduced in place without reading a slot that was overwritten |
| `MerkleRoots.CalculateMerkleRoot` | bcx/libbcx/chain/protocol/block.cpp:65-90 | the root of the specified reduction, empty block included |
| `MerkleRoots.TopIsTree` | bcx/libbcx/chain/protocol/block.cpp:74-88 | reducing level by level is the tree that splits at the largest power of two |
| `MerkleRoots.RootDetermines` | bcx/libbcx/chain/protocol/block.cpp:65-90 | without collisions of the hash functions, roots determine the transactions if and only if no transaction hashes like the tree of two or more |
| `MerkleRoots.TreeDetermines` | bcx/libbcx/chain/protocol/block.cpp:74-88 | without lookalikes a tree has only one sequence of leaves, whatever its size |
| `MerkleRoots.LookalikeSharesRoot` | bcx/libbcx/chain/protocol/block.cpp:81-82 | a transaction that hashes like the tree of others has their root |
| `AmountStrings.AmountToString` | bcx/libbcx/chain/asset_object.cpp:162-175 | the printed form, with the sign kept for amounts below one unit |
| `AmountStrings.Scan` | bcx/libbcx/chain/asset_object.cpp:109-130 | exactly digits, one sign and one point pass |
| `AmountStrings.AmountFromString` | bcx/libbcx/chain/asset_object.cpp:107-160 | the specified amount, or an exception |
| `AmountStrings.PaddedFraction` | bcx/libbcx/chain/asset_object.cpp:172 | the printed fraction has exactly as many digits as the precision and the right value |
| `AmountStrings.PlainIsRead` | bcx/libbcx/chain/asset_object.cpp:107-160 | a plain decimal is read as its value, and refused exactly when too precise, too large, or without digits between sign and point |
| `AmountStrings.SignFirstIsPlain` | bcx/libbcx/chain/asset_object.cpp:109-130 | every string that passes the scan with its sign in front is such a decimal |
| `AmountStrings.RoundTrip` | bcx/libbcx/chain/asset_object.cpp:107-175 | reading back a printed amount gives the amount, for every amount within the maximum supply and every precision up to 12 |
| `MisplacedSigns.SignInsideIsRead` | bcx/libbcx/chain/asset_object.cpp:107-160 | every string that passes the scan with its sign behind a digit or the point is read, or refused, exactly as specified |
| `MisplacedSigns.MisplacedSignIsRead` | bcx/libbcx/chain/asset_object.cpp:133-156 | behind a single digit an amount is read as positive and escapes the upper bound |
| `MisplacedSigns.TwelveMinusThree` | bcx/libbcx/chain/asset_object.cpp:133-156 | "12-3" is read as -2 |
| `MisplacedSigns.OneMinusTwoAndAHalf` | bcx/libbcx/chain/asset_object.cpp:133-156 | "1-2.5" is read as 1.5 |

## Left out

- Branches for hardforks that are in the past, and `apply_order_before_hardfork_625`.
- `check_call_orders`, the margin calls a new price feed triggers: its single matches are steps of `MarketRuns.RunKeeps`.
- CalledOrders.AppliedWithKeepsBook: which position is called next, by call price and feed, and how much it covers are parameters of a run, so that the results hold for every choice; whether an asset has callable positions at all is one too. A called position that covers nothing would be matched for ever; the model throws there.
- Replays.AllOrNothing: for a completed switch it states a higher head only; `Replays.PushIsReplay` states the rest.
- OrderBooks.AppliedKeepsBook: no position is called; `CalledOrders.AppliedWithKeepsBook` is the whole routine.
- OrderBooks.WorkedSucceeds: one direction; `OverAsking.WorkedThrows` gives the exact condition.
- OrderBooks.AppliedSucceeds: one direction; `OverAsking.AppliedThrows` gives the exact condition.
- OverAsking.AppliedThrows: no position is called; a called position can make an order throw as well, when its collateral cannot pay.
- Overdrafts.AppliedNoOverdraft: no position is called; `Overdrafts.AppliedWithNoOverdraft` is the whole routine.
- Markets.Market.CreateLimitOrder: expiration, authorisation of account and assets, and market lists are not checked.
- Markets.Market.FillCallOrder: does not store the recomputed call price.
- Markets.Market.UpdateCallOrder: stores no call price and no target ratio, and leaves out the margin-call test that closes the original.
- Markets.Market.MatchCallOrder: the amount to cover is a parameter; `MarginMatches.AnswerIsMatched` connects it with what the routine answers.
- Termination of `check_call_orders` for positions with a target ratio, which the code does not establish.
- MarginCalls.MaxDebtToCover: the closing bound is the one the code gives, a local minimum of the search, not the smallest sufficient cover, because the code does not look for that.
- Conservation.FillCallMoves: does not model the stored call price of a position, which is recomputed from debt and collateral and holds no money.
- MarketRuns.CreatedKeeps: expiration, authorisation and market lists are left out; amounts for sale are taken to be within the maximum share supply, as every balance is; 64-bit overflow of sums of balances is not modelled.
- Expiration times of orders, authorisation of assets and accounts, white and black lists, and the cashback split of fees (both kinds of pending fee are one entry).
- Collateral bids as stored objects in `Ledger.dfy`; they are part of `GlobalSettlement.dfy`.
- `revive_bitasset` for an asset without supply, and placing bids.
- Prices.ScalePrice: 128-bit overflow in the closeness comparison is not modelled.
- Secondary indices of the object database: an intermediate clash of unique keys while undoing could throw.
- UndoDatabases.UndoDatabase.UndoNewest: undoing with open sessions but an empty stack is undefined in the original and excluded by the precondition.
- Session objects and their destructors, and ending a session that was started on a disabled database.
- ForkDatabases.ForkDatabase.Remove: references to parents are a flag on the child, set while the parent is in the tree; shared ownership of blocks is not modelled.
- BlockChains.Database.PushBlock: applying a block is an arbitrary partial function of the state; skip flags, pending transactions, checkpoints and the block files are not part of this model, and ids determine blocks. The fork database's own head may differ from the state's after a failed switch, as in the original.
- BudgetProcessing.Chain.ProcessBudget: needs supply within its maximum, as the original does; the vesting of worker pay is in `VestingBalance.dfy`.
- Linear vesting, and the 32-bit wrap of the number of transactions in a block.
- Hash functions and serialisation are arbitrary functions.
- The client SDK, network code, cryptography, proposals, voting, witness scheduling, genesis and file storage.

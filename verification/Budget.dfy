/**
 The maintenance budget: how much of the reserve may be spent, how it is split between
 witnesses and workers, and how the workers are paid by votes until the money runs out.
 */
module Budgets {
  import opened Amounts
  import opened Sums

  const CYCLE_RATE: nat := 17
  const CYCLE_UNIT: nat := 0x1_0000_0000
  const SECONDS_PER_DAY: nat := 86_400
  const MICROS: nat := 1_000_000

  // --- Workers ----------------------------------------------------------------------------------

  /** What a worker's pay turns into. */
  datatype Kind = Refund | VestingPay(balance: nat) | Burn

  datatype Worker = Worker(id: nat, dailyPay: nat, begin: nat, end: nat, stake: int, kind: Kind) {

    predicate Paid(now: nat) {
      begin <= now <= end && stake > 0
    }

    /** More votes first, lower id first among equals. */
    predicate Before(w: Worker) {
      stake > w.stake || (stake == w.stake && id < w.id)
    }

    function Requested(passed: nat): nat {
      MulDown(dailyPay, passed, SECONDS_PER_DAY * MICROS)
    }
  }

  ghost predicate Sorted(ws: seq<Worker>) {
    forall i, j :: 0 <= i < j < |ws| ==> !ws[j].Before(ws[i])
  }

  function Insert(w: Worker, ws: seq<Worker>): (r: seq<Worker>)
    ensures multiset(r) == multiset(ws) + multiset{w}
  {
    if ws == [] || w.Before(ws[0]) then [w] + ws
    else
      assert ws == [ws[0]] + ws[1..];
      [ws[0]] + Insert(w, ws[1..])
  }

  lemma {:induction false} InsertKeepsSorted(w: Worker, ws: seq<Worker>)
    requires Sorted(ws)
    ensures Sorted(Insert(w, ws))
  {
    if ws != [] && !w.Before(ws[0]) {
      InsertKeepsSorted(w, ws[1..]);
      var rest := Insert(w, ws[1..]);
      forall j | 0 <= j < |rest| ensures !rest[j].Before(ws[0]) {
        assert rest[j] in multiset(rest);
        if rest[j] != w {
          assert rest[j] in multiset(ws[1..]);
          var k :| 0 <= k < |ws[1..]| && ws[1..][k] == rest[j];
          assert ws[k + 1] == rest[j];
        }
      }
    }
  }

  function Payroll(ws: seq<Worker>, now: nat): seq<Worker> {
    if ws == [] then []
    else if ws[0].Paid(now) then Insert(ws[0], Payroll(ws[1..], now)) else Payroll(ws[1..], now)
  }

  /** The payroll holds exactly the active workers with votes, in order of preference. */
  lemma {:induction false} PayrollIsSorted(ws: seq<Worker>, now: nat)
    ensures Sorted(Payroll(ws, now))
    ensures forall w: Worker :: multiset(Payroll(ws, now))[w] == if w.Paid(now) then multiset(ws)[w] else 0
  {
    if ws != [] {
      assert ws == [ws[0]] + ws[1..];
      PayrollIsSorted(ws[1..], now);
      if ws[0].Paid(now) {
        InsertKeepsSorted(ws[0], Payroll(ws[1..], now));
      }
    }
  }

  // --- Paying -----------------------------------------------------------------------------------

  /** The money that pay moves: supply, vesting balances, the burnt account, and what workers burnt. */
  datatype Funds = Funds(supply: int, vesting: map<nat, int>, nullBalance: int, burnt: map<nat, int>) {

    function Pay(w: Worker, amount: nat): Funds {
      match w.kind
      case Refund => this.(supply := supply - amount, burnt := Raised(burnt, w.id, amount))
      case VestingPay(b) => this.(vesting := Raised(vesting, b, amount))
      case Burn => this.(nullBalance := nullBalance + amount, burnt := Raised(burnt, w.id, amount))
    }

    /** Supply less what is held: a refund takes from the supply, other pay adds to what is held. */
    ghost function Unheld(): int {
      supply - SumBy(vesting, Value()) - nullBalance
    }
  }

  function Value(): (nat, int) -> int {
    (_, n) => n
  }

  function Raised(m: map<nat, int>, k: nat, d: nat): map<nat, int> {
    m[k := (if k in m then m[k] else 0) + d]
  }

  /** What is left when worker k's turn comes. */
  function Left(ws: seq<Worker>, k: nat, budget: nat, passed: nat): nat
    requires k <= |ws|
  {
    if k == 0 then budget
    else
      var before := Left(ws, k - 1, budget, passed);
      before - Min(before, ws[k - 1].Requested(passed))
  }

  /** Each worker is paid what it asks for, or what is left. */
  function PayOf(ws: seq<Worker>, k: nat, budget: nat, passed: nat): nat
    requires k < |ws|
  {
    Min(Left(ws, k, budget, passed), ws[k].Requested(passed))
  }

  /** The funds once the workers from i on are paid; nobody is visited when nothing is left. */
  function PaidFrom(f: Funds, ws: seq<Worker>, i: nat, budget: nat, passed: nat): Funds
    requires i <= |ws|
    decreases |ws| - i
  {
    if i == |ws| || Left(ws, i, budget, passed) == 0 then f
    else PaidFrom(f.Pay(ws[i], PayOf(ws, i, budget, passed)), ws, i + 1, budget, passed)
  }

  lemma PayTakes(f: Funds, w: Worker, amount: nat)
    ensures f.Pay(w, amount).Unheld() == f.Unheld() - amount
  {
    if w.kind.VestingPay? {
      var old_ := if w.kind.balance in f.vesting then f.vesting[w.kind.balance] else 0;
      SumUpdate(f.vesting, w.kind.balance, old_ + amount, Value());
    }
  }

  /** Pay plus leftover is the budget, and what was paid is exactly what went into the funds. */
  lemma {:induction false} PaidFromTakes(f: Funds, ws: seq<Worker>, i: nat, budget: nat, passed: nat)
    requires i <= |ws|
    ensures var f' := PaidFrom(f, ws, i, budget, passed);
            var pay := Left(ws, i, budget, passed) - Left(ws, |ws|, budget, passed);
            pay >= 0 && f'.Unheld() == f.Unheld() - pay && f'.supply <= f.supply
    decreases |ws| - i
  {
    if i < |ws| {
      if Left(ws, i, budget, passed) == 0 {
        NothingLeftLater(ws, i, |ws|, budget, passed);
      } else {
        var pay := PayOf(ws, i, budget, passed);
        PayTakes(f, ws[i], pay);
        PaidFromTakes(f.Pay(ws[i], pay), ws, i + 1, budget, passed);
      }
    }
  }

  lemma {:induction false} NothingLeftLater(ws: seq<Worker>, i: nat, j: nat, budget: nat, passed: nat)
    requires i <= j <= |ws| && Left(ws, i, budget, passed) == 0
    ensures Left(ws, j, budget, passed) == 0
  {
    if i < j {
      NothingLeftLater(ws, i, j - 1, budget, passed);
    }
  }

  /** Votes decide: a worker that gets less than it asks leaves nothing for anyone after it. */
  lemma ShortPayEndsPayroll(ws: seq<Worker>, i: nat, j: nat, budget: nat, passed: nat)
    requires i < j < |ws| && PayOf(ws, i, budget, passed) < ws[i].Requested(passed)
    ensures PayOf(ws, j, budget, passed) == 0
  {
    NothingLeftLater(ws, i + 1, j, budget, passed);
  }

  // --- The budget -------------------------------------------------------------------------------

  datatype Parameters = Parameters(blockInterval: nat, witnessPayPerBlock: nat, workerBudgetPerDay: nat)

  /** Core asset data and global properties, as far as the budget needs them. */
  datatype Treasury = Treasury(funds: Funds, accumulatedFees: nat, witnessBudget: nat, lastBudgetTime: nat, maxSupply: nat) {

    predicate Sound() {
      funds.supply <= maxSupply
    }

    /** What is not in circulation, with accumulated fees and the unused witness budget counted back in. */
    function Reserve(): nat
      requires Sound()
    {
      maxSupply - funds.supply + accumulatedFees + witnessBudget
    }

    function TotalBudget(now: nat): nat
      requires Sound()
    {
      if lastBudgetTime == 0 || now <= lastBudgetTime then 0
      else Min(Reserve(), MulUp(Reserve(), (now - lastBudgetTime) * CYCLE_RATE, CYCLE_UNIT))
    }

    /** Supply less everything held, stored as fees, or set aside for witnesses. */
    ghost function Difference(): int {
      funds.Unheld() - accumulatedFees - witnessBudget
    }
  }

  function WitnessBudget(p: Parameters, timeToMaint: nat, available: nat): nat
    requires p.blockInterval > 0
  {
    Min(p.witnessPayPerBlock * ((timeToMaint + p.blockInterval - 1) / p.blockInterval), available)
  }

  function WorkerBudget(p: Parameters, timeToMaint: nat, available: nat): nat {
    Min(MulDown(p.workerBudgetPerDay, timeToMaint, SECONDS_PER_DAY), available)
  }

  function Passed(t: Treasury, now: nat): nat {
    if now <= t.lastBudgetTime then 0 else (now - t.lastBudgetTime) * MICROS
  }

  function Processed(t: Treasury, p: Parameters, ws: seq<Worker>, now: nat, timeToMaint: nat): Treasury
    requires p.blockInterval > 0 && t.Sound()
  {
    var total := t.TotalBudget(now);
    var forWitnesses := WitnessBudget(p, timeToMaint, total);
    var forWorkers := WorkerBudget(p, timeToMaint, total - forWitnesses);
    var payroll := Payroll(ws, now);
    var funds := PaidFrom(t.funds, payroll, 0, forWorkers, Passed(t, now));
    var leftover := Left(payroll, |payroll|, forWorkers, Passed(t, now));
    var delta := forWitnesses + forWorkers - leftover - t.accumulatedFees - t.witnessBudget;
    Treasury(funds.(supply := funds.supply + delta), 0, forWitnesses, now, t.maxSupply)
  }

  /** The budget never exceeds the reserve, and as long as there is a reserve some of it can be spent. */
  lemma TotalBudgetWithinReserve(t: Treasury, now: nat)
    requires t.Sound()
    ensures t.TotalBudget(now) <= t.Reserve()
    ensures t.TotalBudget(now) > 0 <==> 0 < t.lastBudgetTime < now && t.Reserve() > 0
  {
    if 0 < t.lastBudgetTime < now && t.Reserve() > 0 {
      var rate := (now - t.lastBudgetTime) * CYCLE_RATE;
      UpBounds(t.Reserve(), rate, CYCLE_UNIT);
      MulMono(1, t.Reserve(), rate);
      MulCancelLt(0, MulUp(t.Reserve(), rate, CYCLE_UNIT), CYCLE_UNIT);
    }
  }

  /** Processing the budget neither creates nor loses money, and never issues more than the maximum supply. */
  lemma ProcessedKeeps(t: Treasury, p: Parameters, ws: seq<Worker>, now: nat, timeToMaint: nat)
    requires p.blockInterval > 0 && t.Sound()
    ensures var t' := Processed(t, p, ws, now, timeToMaint);
            t'.Sound() && t'.maxSupply == t.maxSupply && t'.Difference() == t.Difference()
  {
    var total := t.TotalBudget(now);
    var forWitnesses := WitnessBudget(p, timeToMaint, total);
    var forWorkers := WorkerBudget(p, timeToMaint, total - forWitnesses);
    TotalBudgetWithinReserve(t, now);
    PaidFromTakes(t.funds, Payroll(ws, now), 0, forWorkers, Passed(t, now));
  }

  /** One maintenance: the workers and parameters may differ every time. */
  datatype Maintenance = Maintenance(parameters: Parameters, workers: seq<Worker>, now: nat, timeToMaint: nat)

  function After(t: Treasury, m: Maintenance): (t': Treasury)
    requires t.Sound()
    ensures t'.Sound()
  {
    if m.parameters.blockInterval == 0 then t
    else
      ProcessedKeeps(t, m.parameters, m.workers, m.now, m.timeToMaint);
      Processed(t, m.parameters, m.workers, m.now, m.timeToMaint)
  }

  function Run(t: Treasury, ms: seq<Maintenance>): Treasury
    requires t.Sound()
    decreases |ms|
  {
    if ms == [] then t else Run(After(t, ms[0]), ms[1..])
  }

  lemma {:induction false} RunKeeps(t: Treasury, ms: seq<Maintenance>)
    requires t.Sound()
    ensures Run(t, ms).Difference() == t.Difference() && Run(t, ms).funds.supply <= t.maxSupply
    decreases |ms|
  {
    if ms != [] {
      if ms[0].parameters.blockInterval > 0 {
        ProcessedKeeps(t, ms[0].parameters, ms[0].workers, ms[0].now, ms[0].timeToMaint);
      }
      RunKeeps(After(t, ms[0]), ms[1..]);
    }
  }
}

/** Budget processing as the database performs it, in place. */
module BudgetProcessing {
  import opened Amounts
  import opened Budgets

  class Chain {
    var supply: int
    var vesting: map<nat, int>
    var nullBalance: int
    var burnt: map<nat, int>
    var accumulatedFees: nat
    var witnessBudget: nat
    var lastBudgetTime: nat
    const maxSupply: nat

    constructor (supply: int, maxSupply: nat)
      ensures View() == Treasury(Funds(supply, map[], 0, map[]), 0, 0, 0, maxSupply)
    {
      this.supply, this.maxSupply := supply, maxSupply;
      vesting, nullBalance, burnt := map[], 0, map[];
      accumulatedFees, witnessBudget, lastBudgetTime := 0, 0, 0;
    }

    ghost function Money(): Funds
      reads this
    {
      Funds(supply, vesting, nullBalance, burnt)
    }

    ghost function View(): Treasury
      reads this
    {
      Treasury(Money(), accumulatedFees, witnessBudget, lastBudgetTime, maxSupply)
    }

    method PayWorker(w: Worker, amount: nat)
      modifies `supply, `vesting, `nullBalance, `burnt
      ensures Money() == old(Money()).Pay(w, amount)
    {
      match w.kind
      case Refund =>
        burnt := Raised(burnt, w.id, amount);
        supply := supply - amount;
      case VestingPay(balance) =>
        vesting := Raised(vesting, balance, amount);
      case Burn =>
        burnt := Raised(burnt, w.id, amount);
        nullBalance := nullBalance + amount;
    }

    method PayWorkers(workers: seq<Worker>, now: nat, budget: nat) returns (leftover: nat)
      modifies `supply, `vesting, `nullBalance, `burnt
      ensures var payroll, passed := Payroll(workers, now), Passed(View(), now);
              && Money() == PaidFrom(old(Money()), payroll, 0, budget, passed)
              && leftover == Left(payroll, |payroll|, budget, passed)
    {
      var active := Payroll(workers, now);
      ghost var start := Money();
      ghost var passed := Passed(View(), now);
      leftover := budget;
      var i: nat := 0;
      while i < |active| && leftover > 0
        invariant i <= |active| && leftover == Left(active, i, budget, passed)
        invariant PaidFrom(start, active, 0, budget, passed) == PaidFrom(Money(), active, i, budget, passed)
      {
        var time: nat := if now <= lastBudgetTime then 0 else (now - lastBudgetTime) * MICROS;
        var pay := Min(leftover, active[i].Requested(time));
        PayWorker(active[i], pay);
        leftover := leftover - pay;
        i := i + 1;
      }
      if i < |active| {
        NothingLeftLater(active, i, |active|, budget, passed);
      }
    }

    method TotalBudget(now: nat) returns (total: nat)
      requires View().Sound()
      ensures total == View().TotalBudget(now)
    {
      if lastBudgetTime == 0 || now <= lastBudgetTime {
        return 0;
      }
      var reserve := maxSupply - supply + accumulatedFees + witnessBudget;
      total := (reserve * ((now - lastBudgetTime) * CYCLE_RATE) + CYCLE_UNIT - 1) / CYCLE_UNIT;
      if total >= reserve {
        total := reserve;
      }
    }

    method ProcessBudget(p: Parameters, workers: seq<Worker>, now: nat, timeToMaint: nat)
      requires p.blockInterval > 0 && View().Sound()
      modifies this
      ensures View() == Processed(old(View()), p, workers, now, timeToMaint)
      ensures View().Sound() && View().Difference() == old(View().Difference())
    {
      ProcessedKeeps(View(), p, workers, now, timeToMaint);
      var available := TotalBudget(now);
      var forWitnesses := WitnessBudget(p, timeToMaint, available);
      available := available - forWitnesses;
      var forWorkers := WorkerBudget(p, timeToMaint, available);
      var leftover := PayWorkers(workers, now, forWorkers);
      supply := supply + forWitnesses + forWorkers - leftover - accumulatedFees - witnessBudget;
      accumulatedFees := 0;
      witnessBudget := forWitnesses;
      lastBudgetTime := now;
    }
  }
}

/**
 Coin-days vesting: a balance earns coin seconds while it is held, and coin seconds are
 spent to withdraw. The arithmetic is that of the original: 128-bit coin seconds, but a
 64-bit product for deposits that vest at once.
 */
module CoinDays {
  import opened Amounts

  const TWO_63: int := 0x8000_0000_0000_0000
  const TWO_64: int := 0x1_0000_0000_0000_0000
  const TWO_128: int := 0x1_0000_0000_0000_0000_0000_0000_0000_0000
  const TWO_32: int := 0x1_0000_0000

  /** A signed 64-bit product as it is added to a 128-bit sum. */
  function Wrapped(x: nat): (w: int)
    ensures -TWO_63 <= w < TWO_63
    ensures x < TWO_63 ==> w == x
    ensures x >= TWO_63 ==> w + TWO_64 <= x
  {
    (x + TWO_63) % TWO_64 - TWO_63
  }

  function Plus128(a: nat, d: int): (r: nat)
    ensures r < TWO_128
    ensures 0 <= a + d < TWO_128 ==> r == a + d
    ensures -TWO_128 <= a + d < 0 ==> r == a + d + TWO_128
    ensures TWO_128 <= a + d < 2 * TWO_128 ==> r == a + d - TWO_128
  {
    (a + d) % TWO_128
  }

  function CoinSeconds(shares: nat, seconds: nat): nat {
    shares * seconds
  }

  /** Whole shares released by coin seconds. */
  function Shares(coinSeconds: nat, rate: nat): nat
    requires rate > 0
  {
    coinSeconds / rate
  }

  datatype Vesting = Vesting(balance: nat, vestingSeconds: nat, earned: nat, lastUpdate: nat, startClaim: nat) {

    predicate Valid() {
      balance <= MAX_SHARE_SUPPLY && vestingSeconds < TWO_32 && earned < TWO_128
    }

    /** Coin seconds that release one share. */
    function Rate(): (r: nat)
      ensures r >= 1
      ensures vestingSeconds < TWO_32 ==> r < TWO_32
    {
      if vestingSeconds > 1 then vestingSeconds else 1
    }

    function Cap(): nat {
      CoinSeconds(balance, Rate())
    }

    function Earned(now: nat): nat
      requires lastUpdate <= now
    {
      Min(Plus128(earned, CoinSeconds(balance, now - lastUpdate)), Cap())
    }

    function Allowed(now: nat): nat
      requires lastUpdate <= now
    {
      if now <= startClaim then 0 else Shares(Earned(now), Rate())
    }

    function Updated(now: nat): Vesting
      requires lastUpdate <= now
    {
      this.(earned := Earned(now), lastUpdate := now)
    }

    function Deposited(now: nat, amount: nat): Vesting
      requires lastUpdate <= now
    {
      Updated(now).(balance := balance + amount)
    }

    function DepositedVested(now: nat, amount: nat): Vesting
      requires lastUpdate <= now
    {
      this.(earned := Plus128(Earned(now), Wrapped(CoinSeconds(amount, Rate()))), lastUpdate := now, balance := balance + amount)
    }

    function Withdrawn(now: nat, amount: nat): Vesting
      requires lastUpdate <= now && amount <= Allowed(now)
    {
      WithdrawalIsEarned(now, amount);
      this.(earned := Earned(now) - CoinSeconds(amount, Rate()), lastUpdate := now, balance := balance - amount)
    }

    /** An allowed withdrawal is covered by the balance and by the coin seconds, in every state. */
    lemma WithdrawalIsEarned(now: nat, amount: nat)
      requires lastUpdate <= now && amount <= Allowed(now)
      ensures Allowed(now) <= balance
      ensures amount <= balance && CoinSeconds(amount, Rate()) <= Earned(now)
    {
      SharesCovered(Earned(now), Rate(), amount);
      SharesWithin(Earned(now), Rate(), balance);
    }

    /** The stored coin seconds never exceed what the balance could have earned. */
    predicate Sound() {
      Valid() && earned <= Cap()
    }
  }

  lemma SharesCovered(coinSeconds: nat, rate: nat, amount: nat)
    requires rate > 0
    ensures amount <= Shares(coinSeconds, rate) ==> CoinSeconds(amount, rate) <= coinSeconds
  {
    DivBounds(coinSeconds, rate);
    if amount <= Shares(coinSeconds, rate) {
      MulMono(amount, Shares(coinSeconds, rate), rate);
    }
  }

  lemma SharesWithin(coinSeconds: nat, rate: nat, shares: nat)
    requires rate > 0 && coinSeconds <= CoinSeconds(shares, rate)
    ensures Shares(coinSeconds, rate) <= shares
    ensures coinSeconds == CoinSeconds(shares, rate) ==> Shares(coinSeconds, rate) == shares
  {
    DivBounds(coinSeconds, rate);
    MulCancelLe(Shares(coinSeconds, rate), shares, rate);
    if coinSeconds == CoinSeconds(shares, rate) {
      MulCancelLt(shares, Shares(coinSeconds, rate) + 1, rate);
    }
  }

  lemma SharesAdd(coinSeconds: nat, amount: nat, rate: nat)
    requires rate > 0
    ensures Shares(coinSeconds + CoinSeconds(amount, rate), rate) == Shares(coinSeconds, rate) + amount
  {
    var q := Shares(coinSeconds, rate);
    DivBounds(coinSeconds, rate);
    Distributes(q, amount, rate);
    Distributes(q + 1, amount, rate);
    DivUnique(coinSeconds + CoinSeconds(amount, rate), rate, q + amount);
  }

  /** Fewer by at least one share's worth of coin seconds is fewer shares. */
  lemma SharesStrict(x: nat, y: nat, rate: nat)
    requires rate > 0 && x + rate <= y
    ensures Shares(x, rate) < Shares(y, rate)
  {
    SharesAdd(x, 1, rate);
    assert CoinSeconds(1, rate) == rate;
    DivBounds(x + rate, rate);
    DivBounds(y, rate);
    MulCancelLt(Shares(x + rate, rate), Shares(y, rate) + 1, rate);
  }

  lemma CapBound(balance: nat, rate: nat)
    requires balance <= MAX_SHARE_SUPPLY && rate < TWO_32
    ensures CoinSeconds(balance, rate) <= MAX_SHARE_SUPPLY * TWO_32
  {
    MulMono(balance, MAX_SHARE_SUPPLY, rate);
    MulMono(rate, TWO_32, MAX_SHARE_SUPPLY);
  }

  lemma CoinSecondsAdd(x: nat, y: nat, seconds: nat)
    ensures CoinSeconds(x + y, seconds) == CoinSeconds(x, seconds) + CoinSeconds(y, seconds)
    ensures CoinSeconds(seconds, x + y) == CoinSeconds(seconds, x) + CoinSeconds(seconds, y)
  {
  }

  // --- Accrual ----------------------------------------------------------------------------------

  /** Coin seconds stored and accrued by a time, before the 128-bit sum wraps and the cap applies. */
  function Accrued(v: Vesting, now: nat): nat
    requires v.lastUpdate <= now
  {
    v.earned + CoinSeconds(v.balance, now - v.lastUpdate)
  }

  /** In every state the sum wraps at most once, and then the cap applies. */
  lemma EarnedIs(v: Vesting, now: nat)
    requires v.Valid() && v.lastUpdate <= now < TWO_32
    ensures v.Earned(now) == Min(if Accrued(v, now) < TWO_128 then Accrued(v, now) else Accrued(v, now) - TWO_128, v.Cap())
    ensures v.Cap() <= MAX_SHARE_SUPPLY * TWO_32
    ensures v.Sound() ==> Accrued(v, now) < TWO_128 && v.Updated(now).Sound()
    ensures v.Updated(now).Valid()
  {
    CapBound(v.balance, v.Rate());
    CapBound(v.balance, now - v.lastUpdate);
  }

  /**
   Accruing up to t1 and then up to t2 is accruing straight to t2, exactly unless the sum
   wraps between the two times and what is left of it is short of the cap.
   */
  lemma AccrualComposes(v: Vesting, t1: nat, t2: nat)
    requires v.Valid() && v.lastUpdate <= t1 <= t2 < TWO_32
    ensures v.Updated(t1).Updated(t2) == v.Updated(t2)
            <==> || Accrued(v, t2) < TWO_128 || Accrued(v, t1) >= TWO_128
                 || Accrued(v, t2) - TWO_128 >= v.Cap()
    ensures v.Updated(t1).Updated(t2) == v.Updated(t2) ==> v.Updated(t1).Allowed(t2) == v.Allowed(t2)
  {
    EarnedIs(v, t1);
    EarnedIs(v, t2);
    EarnedIs(v.Updated(t1), t2);
    CoinSecondsAdd(t1 - v.lastUpdate, t2 - t1, v.balance);
    CapBound(v.balance, t2 - v.lastUpdate);
  }

  /** In a sound state nothing wraps, and accrual always composes. */
  lemma SoundAccrualComposes(v: Vesting, t1: nat, t2: nat)
    requires v.Sound() && v.lastUpdate <= t1 <= t2 < TWO_32
    ensures v.Updated(t1).Sound() && v.Updated(t1).Updated(t2) == v.Updated(t2)
    ensures v.Updated(t1).Allowed(t2) == v.Allowed(t2)
  {
    EarnedIs(v, t1);
    EarnedIs(v, t2);
    AccrualComposes(v, t1, t2);
  }

  // --- Deposits ---------------------------------------------------------------------------------

  /** A deposit leaves the stored coin seconds within the cap, whatever they were before. */
  lemma DepositKeepsSound(v: Vesting, now: nat, amount: nat)
    requires v.Valid() && v.lastUpdate <= now && v.balance + amount <= MAX_SHARE_SUPPLY
    ensures v.Deposited(now, amount).Sound()
  {
    CapBound(v.balance, v.Rate());
    CoinSecondsAdd(v.balance, amount, v.Rate());
  }

  /** The product of a vested deposit still fits 64 bits. */
  predicate Fits(v: Vesting, amount: nat) {
    CoinSeconds(amount, v.Rate()) < TWO_63
  }

  /** What the stored coin seconds come to with a vested deposit. */
  function SumWith(v: Vesting, now: nat, amount: nat): int
    requires v.lastUpdate <= now
  {
    v.Earned(now) + Wrapped(CoinSeconds(amount, v.Rate()))
  }

  /**
   A vested deposit leaves the stored coin seconds within the cap if and only if the sum with
   its product does not fall below zero; when the product fits, the sum is the exact one.
   */
  lemma VestedDepositKeepsSound(v: Vesting, now: nat, amount: nat)
    requires v.Valid() && v.lastUpdate <= now && v.balance + amount <= MAX_SHARE_SUPPLY
    ensures v.DepositedVested(now, amount).Sound() <==> SumWith(v, now, amount) >= 0
    ensures Fits(v, amount) ==> v.DepositedVested(now, amount).earned == v.Earned(now) + CoinSeconds(amount, v.Rate())
  {
    CapBound(v.balance, v.Rate());
    CapBound(v.balance + amount, v.Rate());
    CoinSecondsAdd(v.balance, amount, v.Rate());
  }

  /** A deposit that takes the sum below zero, and so the stored coin seconds above the cap. */
  lemma VestedDepositMayExceedCap()
    ensures var v := Vesting(0, 7_776_000, 0, 100, 0);
            v.Sound() && SumWith(v, 100, 2_000_000_000_000) < 0 && !v.DepositedVested(100, 2_000_000_000_000).Sound()
  {
    var v := Vesting(0, 7_776_000, 0, 100, 0);
    assert Wrapped(CoinSeconds(2_000_000_000_000, v.Rate())) == 15_552_000_000_000_000_000 - TWO_64;
    VestedDepositKeepsSound(v, 100, 2_000_000_000_000);
  }

  /** What can be withdrawn right after a vested deposit. */
  lemma AllowedAfterVested(v: Vesting, now: nat, amount: nat)
    requires v.Valid() && v.lastUpdate <= now && v.balance + amount <= MAX_SHARE_SUPPLY && v.startClaim < now
    ensures var v' := v.DepositedVested(now, amount);
            v'.Allowed(now) == if SumWith(v, now, amount) < 0 then v'.balance else Shares(SumWith(v, now, amount), v.Rate())
  {
    var v' := v.DepositedVested(now, amount);
    var sum := SumWith(v, now, amount);
    CoinSecondsAdd(v.balance, amount, v.Rate());
    CapBound(v'.balance, v.Rate());
    assert sum <= v'.Cap();
    assert CoinSeconds(v'.balance, now - v'.lastUpdate) == 0;
    assert v'.Earned(now) == if sum < 0 then v'.Cap() else sum;
    SharesWithin(v'.Cap(), v.Rate(), v'.balance);
  }

  /**
   A vested deposit can be withdrawn at once exactly when its product fits 64 bits, or when a
   negative product makes the sum wrap and nothing was left unvested before. Whenever the sum
   wraps, the whole balance is released.
   */
  lemma VestedDepositIsWithdrawable(v: Vesting, now: nat, amount: nat)
    requires v.Valid() && v.lastUpdate <= now && v.balance + amount <= MAX_SHARE_SUPPLY && v.startClaim < now
    ensures var v' := v.DepositedVested(now, amount);
            && (v'.Allowed(now) == v.Allowed(now) + amount
                <==> Fits(v, amount) || (SumWith(v, now, amount) < 0 && v.Allowed(now) == v.balance))
            && (SumWith(v, now, amount) < 0 ==> v'.Allowed(now) == v'.balance)
  {
    AllowedAfterVested(v, now, amount);
    SharesAdd(v.Earned(now), amount, v.Rate());
    if !Fits(v, amount) && SumWith(v, now, amount) >= 0 {
      SharesStrict(SumWith(v, now, amount), v.Earned(now) + CoinSeconds(amount, v.Rate()), v.Rate());
    }
  }

  /** A deposit that does not fit: of 25 million CORE, vesting over 90 days, only about 5 percent are released. */
  lemma VestedDepositMayStayLocked()
    ensures var v := Vesting(0, 7_776_000, 0, 100, 0);
            v.Sound() && !Fits(v, 2_500_000_000_000) && v.DepositedVested(100, 2_500_000_000_000).Allowed(100) == 127_733_529_615
  {
    var v := Vesting(0, 7_776_000, 0, 100, 0);
    AllowedAfterVested(v, 100, 2_500_000_000_000);
    assert Wrapped(CoinSeconds(2_500_000_000_000, v.Rate())) == 993_255_926_290_448_384;
  }

  // --- A balance created by its first deposit ----------------------------------------------------

  function Created(now: nat, amount: nat, vestingSeconds: nat, requireVesting: bool): Vesting {
    Vesting(amount, vestingSeconds, Plus128(0, if requireVesting then 0 else Wrapped(CoinSeconds(amount, vestingSeconds))), now, 0)
  }

  /** Coin seconds counted for a balance created by a vested deposit, its product wrapped as it was stored. */
  function CreatedCount(now: nat, amount: nat, vestingSeconds: nat, t: nat): int
    requires now <= t
  {
    Wrapped(CoinSeconds(amount, vestingSeconds)) + CoinSeconds(amount, t - now)
  }

  /**
   At any later time the balance is released in full if and only if the count has reached the
   cap or is below zero: one that starts below zero locks again when it rises to zero.
   */
  lemma CreatedIsReleased(now: nat, amount: nat, vestingSeconds: nat, t: nat)
    requires 0 < amount <= MAX_SHARE_SUPPLY && vestingSeconds < TWO_32 && 0 < now <= t < TWO_32
    ensures var v := Created(now, amount, vestingSeconds, false);
            var count := CreatedCount(now, amount, vestingSeconds, t);
            && (v.Allowed(t) == amount <==> count >= v.Cap() || count < 0)
            && (0 <= count < v.Cap() ==> v.Allowed(t) == Shares(count, v.Rate()))
  {
    var v := Created(now, amount, vestingSeconds, false);
    var count := CreatedCount(now, amount, vestingSeconds, t);
    EarnedIs(v, t);
    CapBound(amount, t - now);
    SharesWithin(v.Cap(), v.Rate(), amount);
    if 0 <= count < v.Cap() {
      assert v.Earned(t) == count;
      SharesCovered(count, v.Rate(), amount);
    }
  }

  /** At the moment of creation: unless the period is zero or the product wraps to a positive number. */
  lemma CreatedIsWithdrawable(now: nat, amount: nat, vestingSeconds: nat)
    requires 0 < amount <= MAX_SHARE_SUPPLY && vestingSeconds < TWO_32 && 0 < now < TWO_32
    ensures var product := CoinSeconds(amount, vestingSeconds);
            Created(now, amount, vestingSeconds, false).Allowed(now) == amount
            <==> vestingSeconds > 0 && (product < TWO_63 || Wrapped(product) < 0)
  {
    CreatedIsReleased(now, amount, vestingSeconds, now);
    assert CoinSeconds(amount, 0) == 0;
    if vestingSeconds == 0 {
      assert CoinSeconds(amount, 0) == 0 && CoinSeconds(amount, 1) == amount;
    }
  }

  /**
   A balance that is released in full at first and almost locked again later, unless it was
   updated in between: 20 million CORE vesting over 90 days.
   */
  lemma CreatedLocksAgain()
    ensures var v := Created(100, 2_000_000_000_000, 7_776_000, false);
            && !v.Sound()
            && v.Allowed(101) == 2_000_000_000_000
            && v.Allowed(1_500_100) < 20_000_000_000
            && v.Updated(101).Allowed(1_500_100) == 2_000_000_000_000
  {
    var amount: nat := 2_000_000_000_000;
    var v := Created(100, amount, 7_776_000, false);
    assert Wrapped(CoinSeconds(amount, 7_776_000)) == 15_552_000_000_000_000_000 - TWO_64;
    CreatedIsReleased(100, amount, 7_776_000, 101);
    CreatedIsReleased(100, amount, 7_776_000, 1_500_100);
    var w := v.Updated(101);
    EarnedIs(v, 101);
    EarnedIs(w, 1_500_100);
    SharesWithin(w.Cap(), w.Rate(), amount);
  }

  // --- Runs -------------------------------------------------------------------------------------

  datatype Event = Deposit(time: nat, amount: nat) | VestedDeposit(time: nat, amount: nat) | Withdrawal(time: nat, amount: nat)

  /** Time does not run back, the total stays within the supply, and only what is allowed is withdrawn. */
  predicate Possible(v: Vesting, e: Event) {
    && v.lastUpdate <= e.time < TWO_32
    && match e
       case Deposit(_, amount) => v.balance + amount <= MAX_SHARE_SUPPLY
       case VestedDeposit(_, amount) => v.balance + amount <= MAX_SHARE_SUPPLY
       case Withdrawal(time, amount) => amount <= v.Allowed(time)
  }

  /** A vested deposit does not take the sum of coin seconds below zero. */
  predicate StaysPositive(v: Vesting, e: Event)
    requires Possible(v, e)
  {
    e.VestedDeposit? ==> SumWith(v, e.time, e.amount) >= 0
  }

  function After(v: Vesting, e: Event): Vesting
    requires Possible(v, e)
  {
    match e
    case Deposit(time, amount) => v.Deposited(time, amount)
    case VestedDeposit(time, amount) => v.DepositedVested(time, amount)
    case Withdrawal(time, amount) => v.Withdrawn(time, amount)
  }

  ghost predicate PossibleRun(v: Vesting, es: seq<Event>)
    decreases |es|
  {
    es != [] ==> Possible(v, es[0]) && PossibleRun(After(v, es[0]), es[1..])
  }

  ghost function Run(v: Vesting, es: seq<Event>): Vesting
    requires PossibleRun(v, es)
    decreases |es|
  {
    if es == [] then v else Run(After(v, es[0]), es[1..])
  }

  /** Every state the run goes through is sound. */
  ghost predicate SoundThroughout(v: Vesting, es: seq<Event>)
    requires PossibleRun(v, es)
    decreases |es|
  {
    v.Sound() && (es != [] ==> SoundThroughout(After(v, es[0]), es[1..]))
  }

  ghost predicate PositiveThroughout(v: Vesting, es: seq<Event>)
    requires PossibleRun(v, es)
    decreases |es|
  {
    es != [] ==> StaysPositive(v, es[0]) && PositiveThroughout(After(v, es[0]), es[1..])
  }

  /** Every step leaves a sound state, except a vested deposit that takes the sum below zero. */
  lemma AfterSoundness(v: Vesting, e: Event)
    requires v.Valid() && Possible(v, e)
    ensures After(v, e).Sound() <==> StaysPositive(v, e)
  {
    match e
    case Deposit(time, amount) => DepositKeepsSound(v, time, amount);
    case VestedDeposit(time, amount) => VestedDepositKeepsSound(v, time, amount);
    case Withdrawal(time, amount) =>
      v.WithdrawalIsEarned(time, amount);
      CapBound(v.balance, v.Rate());
      CoinSecondsAdd(v.balance - amount, amount, v.Rate());
  }

  /** Coin seconds stay within their cap throughout a run if and only if no vested deposit takes their sum below zero. */
  lemma {:induction false} RunKeepsSound(v: Vesting, es: seq<Event>)
    requires v.Valid() && PossibleRun(v, es)
    ensures SoundThroughout(v, es) <==> v.Sound() && PositiveThroughout(v, es)
    decreases |es|
  {
    if es != [] && v.Sound() {
      AfterSoundness(v, es[0]);
      if StaysPositive(v, es[0]) {
        RunKeepsSound(After(v, es[0]), es[1..]);
      }
    }
  }

  function Deposits(es: seq<Event>): nat {
    if es == [] then 0 else (if es[0].Withdrawal? then 0 else es[0].amount) + Deposits(es[1..])
  }

  function Withdrawals(es: seq<Event>): nat {
    if es == [] then 0 else (if es[0].Withdrawal? then es[0].amount else 0) + Withdrawals(es[1..])
  }

  /** Over every run, wrapped sums included, what is put in is what is withdrawn and what is left. */
  lemma {:induction false} RunBalances(v: Vesting, es: seq<Event>)
    requires PossibleRun(v, es)
    ensures Run(v, es).balance + Withdrawals(es) == v.balance + Deposits(es)
    decreases |es|
  {
    if es != [] {
      if es[0].Withdrawal? {
        v.WithdrawalIsEarned(es[0].time, es[0].amount);
      }
      RunBalances(After(v, es[0]), es[1..]);
    }
  }
}

/** The stored vesting balance, changed in place. */
module VestingBalances {
  import opened Amounts
  import opened CoinDays

  class VestingBalance {
    var balance: nat
    var earned: nat
    var lastUpdate: nat
    const vestingSeconds: nat
    const startClaim: nat

    function View(): Vesting
      reads this
    {
      Vesting(balance, vestingSeconds, earned, lastUpdate, startClaim)
    }

    /** A first deposit made where no suitable balance exists yet. */
    constructor (now: nat, amount: nat, vestingSeconds: nat, requireVesting: bool)
      ensures View() == Created(now, amount, vestingSeconds, requireVesting)
    {
      this.vestingSeconds, startClaim := vestingSeconds, 0;
      balance, lastUpdate := amount, now;
      earned := Plus128(0, if requireVesting then 0 else Wrapped(CoinSeconds(amount, vestingSeconds)));
    }

    method UpdateCoinSecondsEarned(now: nat)
      requires lastUpdate <= now
      modifies this
      ensures View() == old(View()).Updated(now)
    {
      var delta := CoinSeconds(balance, now - lastUpdate);
      earned := Min(Plus128(earned, delta), View().Cap());
      lastUpdate := now;
    }

    method Deposit(now: nat, amount: nat)
      requires lastUpdate <= now
      modifies this
      ensures View() == old(View()).Deposited(now, amount)
    {
      UpdateCoinSecondsEarned(now);
      balance := balance + amount;
    }

    method DepositVested(now: nat, amount: nat)
      requires lastUpdate <= now
      modifies this
      ensures View() == old(View()).DepositedVested(now, amount)
    {
      UpdateCoinSecondsEarned(now);
      earned := Plus128(earned, Wrapped(CoinSeconds(amount, View().Rate())));
      balance := balance + amount;
    }

    /** A withdrawal that is not allowed is refused; an allowed one never trips the assertion. */
    method Withdraw(now: nat, amount: nat) returns (ok: bool)
      requires lastUpdate <= now
      modifies this
      ensures ok <==> amount <= old(View()).Allowed(now)
      ensures View() == if ok then old(View()).Withdrawn(now, amount) else old(View())
    {
      if amount > View().Allowed(now) {
        return false;
      }
      View().WithdrawalIsEarned(now, amount);
      UpdateCoinSecondsEarned(now);
      var needed := CoinSeconds(amount, View().Rate());
      assert needed <= earned;
      earned := earned - needed;
      balance := balance - amount;
      return true;
    }
  }
}

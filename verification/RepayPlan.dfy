/** How much of a loan the keeper repays: the arithmetic of `util.rs` and `pick_repay_amount`. */
module RepayPlan {
  import opened Prelude
  import opened LittleEndian

  /** Program sentinel: a maximum of zero means the whole live outstanding. */
  const REPAY_FULL: u64 := 0

  /** The loan fields the choice depends on. */
  datatype Debt = Debt(p2pool: bool, outstanding: u64, principal: u64)

  /** SPL token account `amount` field, at bytes 64..72. */
  function SplTokenAmount(data: seq<byte>): Option<u64> {
    if |data| >= 72 then Some(U64FromLE(data[64..72])) else None
  }

  function P2PoolFullRepayStagedAtoms(repay: u64): u64 {
    SaturatingAdd(SaturatingAdd(repay, repay / 50), 64)
  }

  function MinPartialRepayAtoms(outstanding: u64): u64 {
    Max(outstanding / 100, 1000)
  }

  function OutstandingEstimate(d: Debt): u64 {
    if d.p2pool then Max(d.outstanding, d.principal) else d.outstanding
  }

  function FullRequired(d: Debt): u64 {
    var est := OutstandingEstimate(d);
    if d.p2pool then P2PoolFullRepayStagedAtoms(est) else est
  }

  /** `pick_repay_amount` once the balance is known. */
  function Pick(d: Debt, balance: u64): Option<u64> {
    var est := OutstandingEstimate(d);
    if balance >= FullRequired(d) then Some(REPAY_FULL)
    else if balance < MinPartialRepayAtoms(est) then None
    else Some(Min(balance, if est >= 1 then est - 1 else 0))
  }

  /** `pick_repay_amount` on what the node returned for the keeper's token account. */
  function PickRepayAmount<E>(d: Debt, account: Option<seq<byte>>, tooSmall: E): Result<Option<u64>, E> {
    match account
    case None => Ok(None)
    case Some(data) =>
      match SplTokenAmount(data)
      case None => Err(tooSmall)
      case Some(balance) => Ok(Pick(d, balance))
  }

  // ---- One call ----

  /** The exact over-stage, before it saturates. */
  function ExactRequirement(d: Debt): nat {
    var est := OutstandingEstimate(d);
    if d.p2pool then est + est / 50 + 64 else est
  }

  /** Saturation is exactly a cap of the exact requirement at the largest `u64`. */
  lemma FullRequiredIsCapped(d: Debt)
    ensures FullRequired(d) == Min(ExactRequirement(d), U64_LIMIT - 1)
  {
  }

  /**
  Full repayment is chosen exactly when the balance covers the requirement, or when both sit at
  the top of the range: the saturated requirement is then met by a balance below the exact one.
  */
  lemma FullExactlyWhenCovered(d: Debt, balance: u64)
    ensures Pick(d, balance) == Some(REPAY_FULL)
            <==> balance >= ExactRequirement(d) || balance == U64_LIMIT - 1
  {
    FullRequiredIsCapped(d);
    if balance < FullRequired(d) && balance >= MinPartialRepayAtoms(OutstandingEstimate(d)) {
      PartialIsBelowEstimate(d, balance);
    }
  }

  lemma PartialIsBelowEstimate(d: Debt, balance: u64)
    requires MinPartialRepayAtoms(OutstandingEstimate(d)) <= balance < FullRequired(d)
    ensures OutstandingEstimate(d) >= 919 && (!d.p2pool ==> OutstandingEstimate(d) > balance)
  {
  }

  /** An amount the balance funds and that leaves something outstanding. */
  predicate FundablePart(est: u64, balance: u64, w: int) {
    0 < w < est && w <= balance
  }

  /** A partial amount is the largest fundable one that leaves something outstanding, so it is never the sentinel. */
  lemma PartialIsLargest(d: Debt, balance: u64, v: u64)
    requires Pick(d, balance) == Some(v) && balance < FullRequired(d)
    ensures var est := OutstandingEstimate(d);
            FundablePart(est, balance, v) && forall w :: FundablePart(est, balance, w) ==> w <= v
  {
    PartialIsBelowEstimate(d, balance);
  }

  /** Only small pool loans get a partial amount below the program's floor. */
  lemma PartialMeetsFloorExcept(d: Debt, balance: u64, v: u64)
    requires Pick(d, balance) == Some(v) && balance < FullRequired(d)
    ensures var est := OutstandingEstimate(d);
            && (v < MinPartialRepayAtoms(est) <==> d.p2pool && 919 <= est <= 1000)
            && (v < MinPartialRepayAtoms(est) ==> v == est - 1)
  {
    PartialIsBelowEstimate(d, balance);
  }

  /** The family is not empty: every such estimate meets the exception for some balance. */
  lemma FloorExceptionOccurs(est: u64)
    requires 919 <= est <= 1000
    ensures Pick(Debt(true, est, 0), 1000) == Some(est - 1)
    ensures est - 1 < MinPartialRepayAtoms(est)
  {
    assert est / 50 >= 18;
  }

  /** Atoms repaid by a choice, against the estimate. */
  function EffectiveRepay(d: Debt, balance: u64): u64 {
    match Pick(d, balance)
    case None => 0
    case Some(v) => if v == REPAY_FULL then OutstandingEstimate(d) else v
  }

  /** A richer keeper never repays less. */
  lemma RepayIsMonotone(d: Debt, poorer: u64, richer: u64)
    requires poorer <= richer
    ensures EffectiveRepay(d, poorer) <= EffectiveRepay(d, richer) <= OutstandingEstimate(d)
  {
    if Pick(d, richer).Some? && richer < FullRequired(d) {
      PartialIsLargest(d, richer, Pick(d, richer).value);
    }
    if Pick(d, poorer).Some? && poorer < FullRequired(d) {
      PartialIsLargest(d, poorer, Pick(d, poorer).value);
    }
  }

  // ---- The same, by the fields of the loan and the bytes of the account ----

  /** The account's bytes 64..72 are the balance, least significant byte first. */
  predicate HoldsBalance(data: seq<byte>, balance: u64) {
    |data| >= 72 && data[64..72] == ToLE(balance, 8)
  }

  lemma BalanceIsRead(data: seq<byte>, balance: u64)
    ensures SplTokenAmount(data) == Some(balance) <==> HoldsBalance(data, balance)
  {
    if |data| >= 72 {
      PowersOf256();
      FromTo(balance, 8);
      ToFrom(data[64..72]);
    }
  }

  /** What the keeper needs for a full repayment: a pool loan is over-staged by two percent and 64 atoms. */
  predicate Covers(p2pool: bool, outstanding: u64, principal: u64, balance: u64) {
    if p2pool then
      (balance >= outstanding + outstanding / 50 + 64 && balance >= principal + principal / 50 + 64) || balance == U64_LIMIT - 1
    else balance >= outstanding
  }

  /** A positive amount that the balance funds and that leaves something outstanding. */
  predicate LeavesSome(p2pool: bool, outstanding: u64, principal: u64, balance: u64, w: int) {
    0 < w <= balance && (w < outstanding || (p2pool && w < principal))
  }

  /** Zero, for everything, exactly if the balance covers it; else the largest amount that leaves something. */
  ghost predicate RightAmount(p2pool: bool, outstanding: u64, principal: u64, balance: u64, v: u64) {
    if Covers(p2pool, outstanding, principal, balance) then v == 0
    else
      && LeavesSome(p2pool, outstanding, principal, balance, v)
      && forall w :: LeavesSome(p2pool, outstanding, principal, balance, w) ==> w <= v
  }

  /** Too little for anything: not covering, and below a thousand atoms or one whole percent. */
  predicate TooPoor(p2pool: bool, outstanding: u64, principal: u64, balance: u64) {
    && !Covers(p2pool, outstanding, principal, balance)
    && (balance < 1000 || 100 * balance + 100 <= outstanding || (p2pool && 100 * balance + 100 <= principal))
  }

  lemma OverStageIsMonotone(a: nat, b: nat)
    requires a <= b
    ensures a + a / 50 + 64 <= b + b / 50 + 64
  {
  }

  lemma CoversExactly(d: Debt, balance: u64)
    ensures Covers(d.p2pool, d.outstanding, d.principal, balance) <==> balance >= FullRequired(d)
  {
    FullRequiredIsCapped(d);
    OverStageIsMonotone(Min(d.outstanding, d.principal), Max(d.outstanding, d.principal));
  }

  /** A plan is right: it declines exactly when the balance is too poor, and else names the right amount. */
  lemma PlanIsRight(d: Debt, balance: u64)
    ensures Pick(d, balance).None? <==> TooPoor(d.p2pool, d.outstanding, d.principal, balance)
    ensures Pick(d, balance).Some? ==> RightAmount(d.p2pool, d.outstanding, d.principal, balance, Pick(d, balance).value)
  {
    CoversExactly(d, balance);
    if balance < FullRequired(d) && Pick(d, balance).Some? {
      PartialIsLargest(d, balance, Pick(d, balance).value);
      forall w | LeavesSome(d.p2pool, d.outstanding, d.principal, balance, w)
        ensures w <= Pick(d, balance).value
      {
        assert FundablePart(OutstandingEstimate(d), balance, w);
      }
    }
  }

  /** An account that is missing declines, one that is cut short is an error, any other is planned for by its balance. */
  lemma PlannedFromBytes<E>(d: Debt, account: Option<seq<byte>>, tooSmall: E, balance: u64)
    ensures account.None? ==> PickRepayAmount(d, account, tooSmall) == Ok(None)
    ensures account.Some? && |account.value| < 72 ==> PickRepayAmount(d, account, tooSmall) == Err(tooSmall)
    ensures account.Some? && HoldsBalance(account.value, balance) ==>
              PickRepayAmount(d, account, tooSmall) == Ok(Pick(d, balance))
  {
    if account.Some? && HoldsBalance(account.value, balance) {
      BalanceIsRead(account.value, balance);
    }
  }

  // ---- Runs of repayments of a Fixed loan ----

  /** What a tick leaves outstanding: no accrual, and the amount chosen is the amount retired. */
  function AfterTick(outstanding: u64, balance: u64): u64
  {
    var d := Debt(false, outstanding, 0);
    RepayIsMonotone(d, balance, balance);
    outstanding - EffectiveRepay(d, balance)
  }

  /** Outstanding after a tick for each balance; a closed loan is not picked up again. */
  function AfterTicks(outstanding: u64, balances: seq<u64>): u64 {
    if balances == [] || outstanding == 0 then outstanding
    else AfterTicks(AfterTick(outstanding, balances[0]), balances[1..])
  }

  function TotalPaid(outstanding: u64, balances: seq<u64>): nat {
    if balances == [] || outstanding == 0 then 0
    else
      EffectiveRepay(Debt(false, outstanding, 0), balances[0])
      + TotalPaid(AfterTick(outstanding, balances[0]), balances[1..])
  }

  /** The balance meets the floor of what is then outstanding, on every tick. */
  predicate FundedThroughout(outstanding: u64, balances: seq<u64>) {
    balances == [] || outstanding == 0
    || (balances[0] >= MinPartialRepayAtoms(outstanding)
        && FundedThroughout(AfterTick(outstanding, balances[0]), balances[1..]))
  }

  lemma {:induction false} PaidPlusOutstanding(outstanding: u64, balances: seq<u64>)
    ensures TotalPaid(outstanding, balances) + AfterTicks(outstanding, balances) == outstanding
  {
    if balances != [] && outstanding != 0 {
      PaidPlusOutstanding(AfterTick(outstanding, balances[0]), balances[1..]);
    }
  }

  /** A funded tick closes the loan or retires at least 1000 atoms and one percent of it. */
  lemma FundedTick(outstanding: u64, balance: u64)
    requires outstanding > 0 && balance >= MinPartialRepayAtoms(outstanding)
    ensures var after := AfterTick(outstanding, balance);
            && (after == 0 <==> balance >= outstanding)
            && (after > 0 ==> after <= outstanding - 1000 && 100 * after <= 99 * outstanding + 99)
  {
    var d := Debt(false, outstanding, 0);
    if balance < outstanding {
      PartialIsLargest(d, balance, Pick(d, balance).value);
      PartialMeetsFloorExcept(d, balance, Pick(d, balance).value);
    }
  }

  /** A loan funded on every tick closes within one tick per 1000 atoms, rounded up. */
  lemma {:induction false} FundedRunCloses(outstanding: u64, balances: seq<u64>)
    requires FundedThroughout(outstanding, balances)
    requires outstanding > 0 ==> |balances| >= (outstanding - 1) / 1000 + 1
    ensures AfterTicks(outstanding, balances) == 0
  {
    if outstanding > 0 {
      FundedTick(outstanding, balances[0]);
      FundedRunCloses(AfterTick(outstanding, balances[0]), balances[1..]);
    }
  }

  function Pow(base: nat, n: nat): nat {
    if n == 0 then 1 else base * Pow(base, n - 1)
  }

  /** Large loans shrink geometrically: after k funded ticks at most (99/100)^k of the excess over 99 is left. */
  lemma {:induction false} FundedRunShrinks(outstanding: u64, balances: seq<u64>)
    requires FundedThroughout(outstanding, balances) && outstanding >= 99
    ensures Pow(100, |balances|) * (AfterTicks(outstanding, balances) - 99) <= Pow(99, |balances|) * (outstanding - 99)
  {
    if balances != [] {
      var n := |balances| - 1;
      var p, q := Pow(100, n), Pow(99, n);
      var after: int := AfterTick(outstanding, balances[0]);
      var left: int := AfterTicks(outstanding, balances);
      PowPositive(100, n);
      PowPositive(99, n);
      FundedTick(outstanding, balances[0]);
      assert (100 * p) * (left - 99) <= (99 * q) * (outstanding - 99) by {
        if after < 99 {
          PaidPlusOutstanding(after, balances[1..]);
          ShrinkPast(p, q, left - 99, outstanding - 99);
        } else {
          FundedRunShrinks(after, balances[1..]);
          ShrinkOnce(p, q, left - 99, after - 99, outstanding - 99);
        }
      }
    }
  }

  lemma {:induction false} PowPositive(base: nat, n: nat)
    requires base > 0
    ensures Pow(base, n) > 0
  {
    if n > 0 {
      PowPositive(base, n - 1);
    }
  }

  lemma ShrinkPast(p: int, q: int, left: int, before: int)
    requires p > 0 && q > 0 && left <= 0 <= before
    ensures (100 * p) * left <= 0 <= (99 * q) * before
  {
  }

  lemma ShrinkOnce(p: int, q: int, left: int, after: int, before: int)
    requires p * left <= q * after && 100 * after <= 99 * before && q > 0
    ensures (100 * p) * left <= (99 * q) * before
  {
    assert q * (100 * after) <= q * (99 * before);
    assert (100 * p) * left == 100 * (p * left);
    assert q * (100 * after) == 100 * (q * after);
    assert q * (99 * before) == (99 * q) * before;
  }

  /** The bound of FundedRunCloses is reached: with 1000 atoms a tick, one tick fewer leaves the loan open. */
  lemma {:induction false} TickBoundIsTight(outstanding: u64, balances: seq<u64>)
    requires 0 < outstanding <= 100_000
    requires forall i | 0 <= i < |balances| :: balances[i] == 1000
    requires |balances| <= (outstanding - 1) / 1000
    ensures FundedThroughout(outstanding, balances) && AfterTicks(outstanding, balances) > 0
  {
    if balances != [] {
      FundedTick(outstanding, balances[0]);
      TickBoundIsTight(AfterTick(outstanding, balances[0]), balances[1..]);
    }
  }
}

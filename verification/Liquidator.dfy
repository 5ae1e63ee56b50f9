/** The liquidator: per-loan cascade and per-market scan of `liquidator.rs`. */
module Liquidator {
  import opened Prelude
  import opened Network
  import opened RetryMachine
  import opened RpcClient
  import opened SimGate
  import Landings
  import RepayPlan

  datatype Market = Market(
    address: Pubkey, debtMint: Pubkey, collateralMint: Pubkey, gracePeriodSeconds: u32, keeperBps: u16)

  datatype Loan = Loan(
    address: Pubkey, active: bool, p2pool: bool, outstanding: u64, principal: u64, maturesAt: i64,
    sequence: u64, lenderVault: Pubkey)

  /**
  What a tick takes from configuration and foreign code. `banks` and `update` are the registry
  snapshot and the oracle bundle (empty when there is none) that an attempt takes for itself; an
  attempt is named by its loan and by whether it settles. `prefilter` is the floating-point LTV
  prefilter of Fixed loans, left uninterpreted; `debtAccount` derives the keeper's token account.
  */
  datatype Context = Context(
    feePayer: Pubkey,
    banks: (Pubkey, bool) -> set<Pubkey>,
    update: (Pubkey, bool) -> Bundle,
    debtAccount: Pubkey -> Pubkey,
    prefilter: (u64, u64) -> bool,
    minProfit: u64,
    extraBufferSeconds: u64)

  /** Grace plus buffer: the buffer is cast to `i64`, and the sum wraps. */
  function EffectiveGrace(ctx: Context, market: Market): i64 {
    WrapSigned(market.gracePeriodSeconds + WrapSigned(ctx.extraBufferSeconds))
  }

  predicate Matured(ctx: Context, market: Market, loan: Loan, now: i64) {
    now >= SaturatingAddSigned(loan.maturesAt, EffectiveGrace(ctx, market))
  }

  predicate MaybeBreached(ctx: Context, loan: Loan) {
    loan.p2pool || ctx.prefilter(loan.outstanding, loan.principal)
  }

  predicate Considered(ctx: Context, market: Market, loan: Loan, now: i64) {
    loan.active && loan.outstanding != 0 && (Matured(ctx, market, loan, now) || MaybeBreached(ctx, loan))
  }

  /**
  While grace and buffer fit together in the signed range, a loan is matured exactly when maturity
  plus grace plus buffer is past, or when the clock stands at the last instant and the saturated
  sum meets it there.
  */
  lemma MaturedExactly(ctx: Context, market: Market, loan: Loan, now: i64)
    requires market.gracePeriodSeconds + ctx.extraBufferSeconds < I64_LIMIT
    ensures Matured(ctx, market, loan, now)
            <==> now >= loan.maturesAt + market.gracePeriodSeconds + ctx.extraBufferSeconds || now == I64_LIMIT - 1
  {
    assert WrapSigned(ctx.extraBufferSeconds) == ctx.extraBufferSeconds;
  }

  /** At any instant the clock reads, but the last one, no loan is taken as matured before its grace period is over. */
  ghost predicate GraceIsKept(ctx: Context, market: Market) {
    forall loan, now: i64 | 0 <= now < I64_LIMIT - 1 && Matured(ctx, market, loan, now) ::
      now >= loan.maturesAt + market.gracePeriodSeconds
  }

  /** A loan of this market that differs from others in its maturity only. */
  function LoanMaturingAt(market: Market, maturesAt: i64): Loan {
    Loan(market.address, true, false, 1, 1, maturesAt, 0, market.address)
  }

  /**
  Larger buffers break the grace period: the cast, or the sum, wraps to a negative number. That
  happens exactly when grace and buffer do not fit together in the signed range.
  */
  lemma GraceIsKeptExactly(ctx: Context, market: Market)
    ensures GraceIsKept(ctx, market) <==> market.gracePeriodSeconds + ctx.extraBufferSeconds < I64_LIMIT
  {
    if market.gracePeriodSeconds + ctx.extraBufferSeconds < I64_LIMIT {
      forall loan, now: i64 | 0 <= now < I64_LIMIT - 1 && Matured(ctx, market, loan, now)
        ensures now >= loan.maturesAt + market.gracePeriodSeconds
      {
        MaturedExactly(ctx, market, loan, now);
      }
    } else {
      var grace := EffectiveGrace(ctx, market);
      WrapsBelow(market.gracePeriodSeconds, ctx.extraBufferSeconds);
      var maturesAt: i64 := if grace >= 0 then 0 else if grace == -I64_LIMIT then I64_LIMIT - 1 else -grace;
      assert Matured(ctx, market, LoanMaturingAt(market, maturesAt), Max(grace, 0));
    }
  }

  lemma WrapsBelow(grace: u32, buffer: u64)
    requires grace + buffer >= I64_LIMIT
    ensures WrapSigned(grace + WrapSigned(buffer)) < grace
  {
    if buffer < I64_LIMIT {
      assert WrapSigned(grace + buffer) == grace + buffer - U64_LIMIT;
    } else {
      assert WrapSigned(buffer) == buffer - U64_LIMIT;
    }
  }

  // ---- What an event of a scan is about ----

  datatype Subject = Subject(market: Pubkey, sequence: u64, settling: bool)

  function SubjectOf(ix: Instruction): Option<Subject> {
    match ix
    case CheckLtv(market, sequence) => Some(Subject(market, sequence, false))
    case LiquidateLoan(market, sequence, _, _) => Some(Subject(market, sequence, false))
    case CheckMaturity(market, sequence) => Some(Subject(market, sequence, true))
    case SettleMaturedLoan(market, sequence, _, _) => Some(Subject(market, sequence, true))
    case _ => None
  }

  predicate HasBundle(e: Event) {
    e.Simulated? || e.Submitted? || e.Counted?
  }

  predicate EndsWith(bundle: Bundle, ix: Instruction) {
    bundle.ixs != [] && bundle.ixs[|bundle.ixs| - 1] == ix
  }

  /** The last instruction of the bundle says which loan, and which of the two ways, it is for. */
  predicate IsAbout(e: Event, subject: Subject) {
    HasBundle(e) && e.bundle.ixs != [] && SubjectOf(e.bundle.ixs[|e.bundle.ixs| - 1]) == Some(subject)
  }

  ghost predicate AllAbout(tr: seq<Event>, subject: Subject) {
    forall e <- tr :: HasBundle(e) ==> IsAbout(e, subject)
  }

  /** One of the two ways: the eligibility check and the real instruction for an amount. */
  function CheckIx(market: Market, loan: Loan, settling: bool): Instruction {
    if settling then CheckMaturity(market.address, loan.sequence) else CheckLtv(market.address, loan.sequence)
  }

  function RealIx(market: Market, loan: Loan, settling: bool, repayMax: u64): Instruction {
    var vault := if loan.p2pool then None else Some(loan.lenderVault);
    if settling then SettleMaturedLoan(market.address, loan.sequence, repayMax, vault)
    else LiquidateLoan(market.address, loan.sequence, repayMax, vault)
  }

  function DebtOf(loan: Loan): RepayPlan.Debt {
    RepayPlan.Debt(loan.p2pool, loan.outstanding, loan.principal)
  }

  /** The profit gate of `try_liquidate_ltv`. */
  predicate Profitable(ctx: Context, market: Market, loan: Loan) {
    (if market.keeperBps > 0 then loan.outstanding * market.keeperBps / 10_000 else loan.outstanding) >= ctx.minProfit
  }

  /** What `pick_repay_amount` makes of an account read. */
  function Planned(loan: Loan, data: Option<seq<byte>>): Result<Option<u64>, Fault> {
    RepayPlan.PickRepayAmount(DebtOf(loan), data, AccountTooSmall)
  }

  /** Every submission is the real instruction for the amount planned from the keeper's balance read in this attempt. */
  ghost predicate SubmitsPlanned(ctx: Context, market: Market, loan: Loan, settling: bool, tr: seq<Event>) {
    forall e <- tr :: e.Submitted? ==>
      exists data, v ::
        && AccountRead(ctx.debtAccount(market.debtMint), data) in tr && Planned(loan, data) == Ok(Some(v))
        && EndsWith(e.bundle, RealIx(market, loan, settling, v))
  }

  /** The check of this way was simulated and passed. */
  ghost predicate CheckPassed(market: Market, loan: Loan, settling: bool, tr: seq<Event>) {
    exists e <- tr :: e.Simulated? && e.ok && EndsWith(e.bundle, CheckIx(market, loan, settling))
  }

  /** Why one way declines: a failed simulation, no profit, or a balance that funds nothing. */
  ghost predicate DeclinedFor(ctx: Context, market: Market, loan: Loan, settling: bool, tr: seq<Event>) {
    || (exists e <- tr :: e.Simulated? && !e.ok)
    || (!settling && !Profitable(ctx, market, loan))
    || (exists data :: AccountRead(ctx.debtAccount(market.debtMint), data) in tr && Planned(loan, data) == Ok(None))
  }

  /** `bank_pair` finds both banks in the snapshot of this attempt. */
  predicate BothBanksKnown(ctx: Context, market: Market, loan: Loan, settling: bool) {
    market.debtMint in ctx.banks(loan.address, settling) && market.collateralMint in ctx.banks(loan.address, settling)
  }

  /** Why one way fails: a bank is missing, the node failed, or the token account is malformed. */
  ghost predicate FailedFor(ctx: Context, market: Market, loan: Loan, settling: bool, tr: seq<Event>, fault: Fault) {
    || (fault.MissingBank? && !BothBanksKnown(ctx, market, loan, settling))
    || NodeFailed(tr)
    || (exists data :: AccountRead(ctx.debtAccount(market.debtMint), data) in tr && Planned(loan, data) == Err(fault))
  }

  ghost predicate WayTrace(
    preamble: seq<Instruction>, ctx: Context, market: Market, loan: Loan, settling: bool,
    tr: seq<Event>, verdict: Result<bool, Fault>)
  {
    && Attempt(preamble, tr, verdict)
    && AllAbout(tr, Subject(market.address, loan.sequence, settling))
    && SubmitsPlanned(ctx, market, loan, settling, tr)
    && (Quiet(tr) || CheckPassed(market, loan, settling, tr))
    && (verdict.Ok? ==> exists e <- tr :: e.Simulated?)
    && (verdict == Ok(false) ==> DeclinedFor(ctx, market, loan, settling, tr))
    && (verdict.Err? ==> FailedFor(ctx, market, loan, settling, tr, verdict.error))
    && (!settling && !Profitable(ctx, market, loan) ==> Quiet(tr))
  }

  lemma LastOfConcat(front: seq<Instruction>, mid: seq<Instruction>, ix: Instruction)
    ensures var all := front + (mid + [ix]); all != [] && all[|all| - 1] == ix
  {
  }

  /** Before event `j`, the liquidation of the loan was checked and never submitted. */
  ghost predicate LiquidationDeclined(tr: seq<Event>, j: nat, market: Pubkey, sequence: u64) {
    && j <= |tr|
    && (exists i | 0 <= i < j :: tr[i].Simulated? && IsAbout(tr[i], Subject(market, sequence, false)))
    && (forall i | 0 <= i < j :: !(tr[i].Submitted? && IsAbout(tr[i], Subject(market, sequence, false))))
  }

  /** Every event is for the loan, settling only if matured, liquidating only if breach is possible. */
  ghost predicate WaysAllowed(market: Market, loan: Loan, matured: bool, breached: bool, tr: seq<Event>) {
    forall e <- tr :: HasBundle(e) ==>
      || (matured && IsAbout(e, Subject(market.address, loan.sequence, true)))
      || (breached && IsAbout(e, Subject(market.address, loan.sequence, false)))
  }

  ghost predicate SettlesAfterDecline(market: Market, loan: Loan, tr: seq<Event>) {
    forall j | 0 <= j < |tr| && IsAbout(tr[j], Subject(market.address, loan.sequence, true)) ::
      LiquidationDeclined(tr, j, market.address, loan.sequence)
  }

  /** The cascade of a loan that may be breached: `a` tries to liquidate, `b` settles if that declined. */
  ghost predicate LiquidateFirst(
    preamble: seq<Instruction>, ctx: Context, market: Market, loan: Loan, matured: bool,
    a: seq<Event>, first: Result<bool, Fault>, b: seq<Event>, verdict: Result<bool, Fault>)
  {
    && WayTrace(preamble, ctx, market, loan, false, a, first)
    && if first == Ok(false) && matured then WayTrace(preamble, ctx, market, loan, true, b, verdict)
       else b == [] && verdict == first
  }

  /** The trace of one loan's cascade. */
  ghost predicate Cascade(
    preamble: seq<Instruction>, ctx: Context, market: Market, loan: Loan, matured: bool, breached: bool,
    tr: seq<Event>, verdict: Result<bool, Fault>)
  {
    if breached then
      exists a, first, b :: tr == a + b && LiquidateFirst(preamble, ctx, market, loan, matured, a, first, b, verdict)
    else if matured then WayTrace(preamble, ctx, market, loan, true, tr, verdict)
    else tr == [] && verdict == Ok(false)
  }

  lemma DeclineThenSettle(
    preamble: seq<Instruction>, ctx: Context, market: Market, loan: Loan,
    a: seq<Event>, b: seq<Event>, verdict: Result<bool, Fault>)
    requires WayTrace(preamble, ctx, market, loan, false, a, Ok(false))
    requires WayTrace(preamble, ctx, market, loan, true, b, verdict)
    ensures Attempt(preamble, a + b, verdict)
    ensures WaysAllowed(market, loan, true, true, a + b) && SettlesAfterDecline(market, loan, a + b)
  {
    QuietThenAttempt(preamble, a, b, verdict);
    var tr := a + b;
    var checked :| checked in a && checked.Simulated?;
    var c :| 0 <= c < |a| && a[c] == checked;
    assert forall j | 0 <= j < |a| :: a[j] in a;
    forall j | 0 <= j < |tr| && IsAbout(tr[j], Subject(market.address, loan.sequence, true))
      ensures LiquidationDeclined(tr, j, market.address, loan.sequence)
    {
      assert tr[c].Simulated? && IsAbout(tr[c], Subject(market.address, loan.sequence, false));
      forall i | 0 <= i < j
        ensures !(tr[i].Submitted? && IsAbout(tr[i], Subject(market.address, loan.sequence, false)))
      {
        if i >= |a| {
          assert b[i - |a|] in b;
        }
      }
    }
  }

  lemma OneWayOnly(
    preamble: seq<Instruction>, ctx: Context, market: Market, loan: Loan, settling: bool,
    tr: seq<Event>, verdict: Result<bool, Fault>)
    requires WayTrace(preamble, ctx, market, loan, settling, tr, verdict)
    ensures WaysAllowed(market, loan, settling, !settling, tr)
    ensures !settling ==> SettlesAfterDecline(market, loan, tr)
  {
    assert forall j | 0 <= j < |tr| :: tr[j] in tr;
  }

  /**
  Over one loan: at most one submission succeeds, and exactly when the verdict says so; settling
  happens only for a matured loan, and after the liquidation declined where a breach was possible.
  */
  lemma CascadeSafety(
    preamble: seq<Instruction>, ctx: Context, market: Market, loan: Loan, matured: bool, breached: bool,
    tr: seq<Event>, verdict: Result<bool, Fault>)
    requires Cascade(preamble, ctx, market, loan, matured, breached, tr, verdict)
    ensures Attempt(preamble, tr, verdict)
    ensures WaysAllowed(market, loan, matured, breached, tr)
    ensures breached ==> SettlesAfterDecline(market, loan, tr)
  {
    if breached {
      var a, first, b :| tr == a + b && LiquidateFirst(preamble, ctx, market, loan, matured, a, first, b, verdict);
      if first == Ok(false) && matured {
        DeclineThenSettle(preamble, ctx, market, loan, a, b, verdict);
      } else {
        assert tr == a;
        OneWayOnly(preamble, ctx, market, loan, false, tr, verdict);
      }
    } else if matured {
      OneWayOnly(preamble, ctx, market, loan, true, tr, verdict);
    } else {
      QuietIsGated(preamble, tr);
    }
  }

  /** One loan's part of a scan: the cascade if the loan was taken up, nothing otherwise. */
  ghost predicate LoanSegment(
    preamble: seq<Instruction>, ctx: Context, market: Market, loan: Loan, now: i64, busy: set<Pubkey>, tr: seq<Event>)
  {
    if Considered(ctx, market, loan, now) && loan.address !in busy then
      exists verdict ::
        Cascade(preamble, ctx, market, loan, Matured(ctx, market, loan, now), MaybeBreached(ctx, loan), tr, verdict)
    else tr == []
  }

  ghost predicate Scanned(
    preamble: seq<Instruction>, ctx: Context, market: Market, loans: seq<Loan>, now: i64, busy: set<Pubkey>,
    segments: seq<seq<Event>>)
  {
    && |segments| == |loans|
    && forall k | 0 <= k < |loans| :: LoanSegment(preamble, ctx, market, loans[k], now, busy, segments[k])
  }

  lemma ScanGoesOn(
    preamble: seq<Instruction>, ctx: Context, market: Market, loans: seq<Loan>, loan: Loan, now: i64, busy: set<Pubkey>,
    segments: seq<seq<Event>>, segment: seq<Event>)
    requires Scanned(preamble, ctx, market, loans, now, busy, segments)
    requires LoanSegment(preamble, ctx, market, loan, now, busy, segment)
    ensures Scanned(preamble, ctx, market, loans + [loan], now, busy, segments + [segment])
  {
    forall k | 0 <= k <= |loans|
      ensures LoanSegment(preamble, ctx, market, (loans + [loan])[k], now, busy, (segments + [segment])[k])
    {
      if k < |loans| {
        assert LoanSegment(preamble, ctx, market, loans[k], now, busy, segments[k]);
      }
    }
  }

  class LiquidatorHandler {
    var inflight: set<Pubkey>

    constructor ()
      ensures inflight == {}
    {
      inflight := {};
    }

    method ClaimInflight(loan: Pubkey) returns (claimed: bool)
      modifies this`inflight
      ensures claimed == (loan !in old(inflight)) && inflight == old(inflight) + {loan}
    {
      claimed := loan !in inflight;
      inflight := inflight + {loan};
    }

    method ReleaseInflight(loan: Pubkey)
      modifies this`inflight
      ensures inflight == old(inflight) - {loan}
    {
      inflight := inflight - {loan};
    }

    /** `pick_repay_amount` */
    method PickRepayAmount(rpc: Rpc, account: Pubkey, loan: Loan)
      returns (result: Result<Option<u64>, Fault>, ghost tr: seq<Event>)
      modifies rpc`stop
      ensures forall e <- tr :: !HasBundle(e)
      ensures if Unanswered in tr then result == Err(Unreachable)
              else exists data :: AccountRead(account, data) in tr && result == Planned(loan, data)
    {
      var data;
      data, tr := rpc.GetAccountData(account);
      assert tr == tr[..|tr| - 1] + [tr[|tr| - 1]];
      if data.Err? {
        return Err(data.error), tr;
      }
      result := RepayPlan.PickRepayAmount(DebtOf(loan), data.value, AccountTooSmall);
    }

    /** Check simulation, (for a liquidation) profit gate, and amount; `Ok(None)` declines. */
    method CheckAndPick(ctx: Context, rpc: Rpc, market: Market, loan: Loan, settling: bool, update: Bundle)
      returns (amount: Result<Option<u64>, Fault>, ghost tr: seq<Event>)
      modifies rpc`stop
      ensures Quiet(tr) && AllAbout(tr, Subject(market.address, loan.sequence, settling))
      ensures amount.Ok? ==> exists e <- tr :: e.Simulated?
      ensures amount == Ok(None) ==> DeclinedFor(ctx, market, loan, settling, tr)
      ensures amount.Err? ==> FailedFor(ctx, market, loan, settling, tr, amount.error)
      ensures amount.Ok? && amount.value.Some? ==>
                && (settling || Profitable(ctx, market, loan))
                && CheckPassed(market, loan, settling, tr)
                && exists data :: AccountRead(ctx.debtAccount(market.debtMint), data) in tr && amount == Planned(loan, data)
    {
      var ixs := update.ixs + [CheckIx(market, loan, settling)];
      var sim;
      sim, tr := rpc.SimulateV0(ixs, update.luts);
      SimIsQuiet(Bundle(ixs, update.luts), tr, sim);
      if sim.Err? {
        return Err(sim.error), tr;
      }
      if !sim.value.ok {
        return Ok(None), tr;
      }
      if !settling && !Profitable(ctx, market, loan) {
        return Ok(None), tr;
      }
      assert CheckPassed(market, loan, settling, tr) by {
        assert EndsWith(Bundle(ixs, update.luts), CheckIx(market, loan, settling));
      }
      ghost var t;
      amount, t := PickRepayAmount(rpc, ctx.debtAccount(market.debtMint), loan);
      tr := tr + t;
    }

    /** Confirmatory simulation of the real bundle, then the send. */
    method ConfirmAndSend(ctx: Context, rpc: Rpc, market: Market, loan: Loan, settling: bool, update: Bundle, repayMax: u64)
      returns (verdict: Result<bool, Fault>, ghost tr: seq<Event>)
      modifies rpc`stop
      ensures Attempt(rpc.PriorityFeePreamble(V0_COMPUTE_UNIT_LIMIT), tr, verdict)
      ensures AllAbout(tr, Subject(market.address, loan.sequence, settling))
      ensures forall e <- tr :: e.Submitted? ==> EndsWith(e.bundle, RealIx(market, loan, settling, repayMax))
      ensures verdict.Ok? ==> exists e <- tr :: e.Simulated? && (verdict.value || !e.ok)
      ensures verdict.Err? ==> NodeFailed(tr)
    {
      ghost var preamble := rpc.PriorityFeePreamble(V0_COMPUTE_UNIT_LIMIT);
      var ixs := update.ixs + [RealIx(market, loan, settling, repayMax)];
      var confirm;
      confirm, tr := rpc.SimulateV0(ixs, update.luts);
      SimIsQuiet(Bundle(ixs, update.luts), tr, confirm);
      QuietIsGated(preamble, tr);
      if confirm.Err? {
        return Err(confirm.error), tr;
      }
      if !confirm.value.ok {
        return Ok(false), tr;
      }
      var tag := if settling then "settle_matured_loan" else "liquidate_loan";
      ghost var t;
      verdict, t := SubmitV0(rpc, tag, ixs, update.luts, ctx.feePayer, tr, confirm.value.logs);
      LastOfConcat(preamble, update.ixs, RealIx(market, loan, settling, repayMax));
      tr := tr + t;
    }

    /** `try_settle_matured` and `try_liquidate_ltv`. */
    method TryOneWay(ctx: Context, rpc: Rpc, market: Market, loan: Loan, settling: bool)
      returns (verdict: Result<bool, Fault>, ghost tr: seq<Event>)
      modifies rpc`stop
      ensures WayTrace(rpc.PriorityFeePreamble(V0_COMPUTE_UNIT_LIMIT), ctx, market, loan, settling, tr, verdict)
      ensures market.debtMint !in ctx.banks(loan.address, settling) || market.collateralMint !in ctx.banks(loan.address, settling)
              <==> tr == []
      ensures tr == [] ==> verdict == Err(MissingBank)
    {
      ghost var preamble := rpc.PriorityFeePreamble(V0_COMPUTE_UNIT_LIMIT);
      if !BothBanksKnown(ctx, market, loan, settling) {
        QuietIsGated(preamble, []);
        return Err(MissingBank), [];
      }
      var update := ctx.update(loan.address, settling);
      var amount;
      amount, tr := CheckAndPick(ctx, rpc, market, loan, settling, update);
      QuietIsGated(preamble, tr);
      if amount.Err? {
        return Err(amount.error), tr;
      }
      if amount.value.None? {
        return Ok(false), tr;
      }
      ghost var t;
      verdict, t := ConfirmAndSend(ctx, rpc, market, loan, settling, update, amount.value.value);
      QuietThenAttempt(preamble, tr, t, verdict);
      tr := tr + t;
    }

    /** The cascade: liquidate first where a breach is possible, settle when that declined or does not apply. */
    method TrySettleOrLiquidate(
      ctx: Context, rpc: Rpc, market: Market, loan: Loan, matured: bool, breached: bool)
      returns (verdict: Result<bool, Fault>, ghost tr: seq<Event>)
      modifies rpc`stop
      ensures Cascade(rpc.PriorityFeePreamble(V0_COMPUTE_UNIT_LIMIT), ctx, market, loan, matured, breached, tr, verdict)
    {
      ghost var preamble := rpc.PriorityFeePreamble(V0_COMPUTE_UNIT_LIMIT);
      if breached {
        ghost var a;
        var first;
        first, a := TryOneWay(ctx, rpc, market, loan, false);
        if first == Ok(false) && matured {
          ghost var b;
          verdict, b := TryOneWay(ctx, rpc, market, loan, true);
          assert LiquidateFirst(preamble, ctx, market, loan, matured, a, first, b, verdict);
          return verdict, a + b;
        }
        assert LiquidateFirst(preamble, ctx, market, loan, matured, a, first, [], first);
        return first, a + [];
      }
      if matured {
        verdict, tr := TryOneWay(ctx, rpc, market, loan, true);
        return;
      }
      return Ok(false), [];
    }

    /** The loop body of `scan_market`: take up one loan unless it is not due or already in flight. */
    method ScanLoan(ctx: Context, rpc: Rpc, market: Market, loan: Loan, now: i64)
      returns (done: bool, ghost segment: seq<Event>)
      modifies this`inflight, rpc`stop
      ensures LoanSegment(rpc.PriorityFeePreamble(V0_COMPUTE_UNIT_LIMIT), ctx, market, loan, now, old(inflight), segment)
      ensures Successes(segment) == if done then 1 else 0
      ensures inflight == old(inflight)
    {
      if !Considered(ctx, market, loan, now) {
        return false, [];
      }
      var claimed := ClaimInflight(loan.address);
      if !claimed {
        return false, [];
      }
      var matured, breached := Matured(ctx, market, loan, now), MaybeBreached(ctx, loan);
      var verdict;
      verdict, segment := TrySettleOrLiquidate(ctx, rpc, market, loan, matured, breached);
      CascadeSafety(rpc.PriorityFeePreamble(V0_COMPUTE_UNIT_LIMIT), ctx, market, loan, matured, breached, segment, verdict);
      ReleaseInflight(loan.address);
      done := verdict == Ok(true);
    }

    /** `scan_market`. `segments` splits the trace by loan, in list order. */
    method ScanMarket(
      ctx: Context, rpc: Rpc, market: Market, loans: Result<seq<Loan>, Fault>, now: i64)
      returns (result: Result<nat, Fault>, ghost segments: seq<seq<Event>>)
      modifies this`inflight, rpc`stop
      ensures loans.Err? ==> result == Err(loans.error) && segments == []
      ensures loans.Ok? ==>
                && Scanned(rpc.PriorityFeePreamble(V0_COMPUTE_UNIT_LIMIT), ctx, market, loans.value, now, old(inflight), segments)
                && result == Ok(Successes(Flatten(segments)))
      ensures inflight == old(inflight)
    {
      if loans.Err? {
        return Err(loans.error), [];
      }
      var list := loans.value;
      var count: nat := 0;
      ghost var preamble := rpc.PriorityFeePreamble(V0_COMPUTE_UNIT_LIMIT);
      segments := [];
      for k := 0 to |list|
        invariant Scanned(preamble, ctx, market, list[..k], now, old(inflight), segments)
        invariant count == Successes(Flatten(segments))
        invariant inflight == old(inflight)
      {
        assert list[..k + 1] == list[..k] + [list[k]];
        ghost var segment;
        var done;
        done, segment := ScanLoan(ctx, rpc, market, list[k], now);
        if done {
          count := count + 1;
        }
        FlattenAppend(segments, segment);
        SuccessesConcat(Flatten(segments), segment);
        ScanGoesOn(preamble, ctx, market, list[..k], list[k], now, old(inflight), segments, segment);
        segments := segments + [segment];
      }
      assert list[..|list|] == list;
      result := Ok(count);
    }
  }

  // ---- Safety of a whole scan ----

  predicate EventFor(e: Event, market: Pubkey, sequence: u64) {
    IsAbout(e, Subject(market, sequence, true)) || IsAbout(e, Subject(market, sequence, false))
  }

  /** The outcome of a send call for the loan. */
  predicate SendFor(e: Event, market: Pubkey, sequence: u64) {
    e.Counted? && EventFor(e, market, sequence)
  }

  /** Send calls for one loan of the market, and those of them that succeeded. */
  function SendsFor(tr: seq<Event>, market: Pubkey, sequence: u64): nat {
    if tr == [] then 0
    else
      var n := |tr| - 1;
      SendsFor(tr[..n], market, sequence) + if SendFor(tr[n], market, sequence) then 1 else 0
  }

  function SuccessesFor(tr: seq<Event>, market: Pubkey, sequence: u64): nat {
    if tr == [] then 0
    else
      var n := |tr| - 1;
      SuccessesFor(tr[..n], market, sequence) + if SendFor(tr[n], market, sequence) && tr[n].ok then 1 else 0
  }

  lemma {:induction false} SuccessesAreSends(tr: seq<Event>, market: Pubkey, sequence: u64)
    ensures SuccessesFor(tr, market, sequence) <= SendsFor(tr, market, sequence)
  {
    if tr != [] {
      SuccessesAreSends(tr[..|tr| - 1], market, sequence);
    }
  }

  lemma {:induction false} SendsForConcat(a: seq<Event>, b: seq<Event>, market: Pubkey, sequence: u64)
    ensures SendsFor(a + b, market, sequence) == SendsFor(a, market, sequence) + SendsFor(b, market, sequence)
  {
    if b == [] {
      assert a + b == a;
    } else {
      var n := |b| - 1;
      SendsForConcat(a, b[..n], market, sequence);
      assert (a + b)[..|a + b| - 1] == a + b[..n];
    }
  }

  lemma {:induction false} NoSendsFor(tr: seq<Event>, market: Pubkey, sequence: u64)
    requires forall e <- tr :: !SendFor(e, market, sequence)
    ensures SendsFor(tr, market, sequence) == 0
  {
    if tr != [] {
      var n := |tr| - 1;
      assert tr[n] in tr;
      NoSendsFor(tr[..n], market, sequence);
    }
  }

  /** A segment has at most one send call, and only of its own loan. */
  lemma SegmentSends(market: Market, loan: Loan, matured: bool, breached: bool, tr: seq<Event>, sequence: u64)
    requires OneSend(tr) && WaysAllowed(market, loan, matured, breached, tr)
    ensures SendsFor(tr, market.address, sequence) <= if sequence == loan.sequence then 1 else 0
  {
    if Quiet(tr) || sequence != loan.sequence {
      NoSendsFor(tr, market.address, sequence);
    } else {
      var quiet, send, own, counted := PartsOfOneSend(tr);
      RunHasOwnEvents(Start(send.bundle, send.before), own);
      assert tr[..|tr| - 1] == quiet + own;
      NoSendsFor(quiet + own, market.address, sequence);
    }
  }

  /** Loans of one market have distinct sequence numbers. */
  predicate Distinct(loans: seq<Loan>) {
    forall i, j | 0 <= i < j < |loans| :: loans[i].sequence != loans[j].sequence
  }

  lemma SegmentFacts(
    preamble: seq<Instruction>, ctx: Context, market: Market, loan: Loan, now: i64, busy: set<Pubkey>, tr: seq<Event>)
    requires LoanSegment(preamble, ctx, market, loan, now, busy, tr)
    ensures Gated(preamble, tr) && OneSend(tr)
    ensures WaysAllowed(market, loan, Matured(ctx, market, loan, now), MaybeBreached(ctx, loan), tr)
    ensures MaybeBreached(ctx, loan) ==> SettlesAfterDecline(market, loan, tr)
  {
    if Considered(ctx, market, loan, now) && loan.address !in busy {
      var verdict :| Cascade(
          preamble, ctx, market, loan, Matured(ctx, market, loan, now), MaybeBreached(ctx, loan), tr, verdict);
      CascadeSafety(preamble, ctx, market, loan, Matured(ctx, market, loan, now), MaybeBreached(ctx, loan), tr, verdict);
    }
  }

  /**
  In a scan there is at most one send call for each loan, successful or not, and none for other
  sequences; so each loan is liquidated or settled successfully at most once.
  */
  lemma {:induction false} AtMostOneSendPerLoan(
    preamble: seq<Instruction>, ctx: Context, market: Market, loans: seq<Loan>, now: i64, busy: set<Pubkey>,
    segments: seq<seq<Event>>, sequence: u64)
    requires Scanned(preamble, ctx, market, loans, now, busy, segments) && Distinct(loans)
    ensures SuccessesFor(Flatten(segments), market.address, sequence)
            <= SendsFor(Flatten(segments), market.address, sequence) <= 1
    ensures (forall k | 0 <= k < |loans| :: loans[k].sequence != sequence) ==>
              SendsFor(Flatten(segments), market.address, sequence) == 0
  {
    if loans != [] {
      var n := |loans| - 1;
      AtMostOneSendPerLoan(preamble, ctx, market, loans[..n], now, busy, segments[..n], sequence);
      SegmentFacts(preamble, ctx, market, loans[n], now, busy, segments[n]);
      SegmentSends(market, loans[n], Matured(ctx, market, loans[n], now), MaybeBreached(ctx, loans[n]), segments[n], sequence);
      SendsForConcat(Flatten(segments[..n]), segments[n], market.address, sequence);
      SuccessesAreSends(Flatten(segments), market.address, sequence);
    }
  }

  lemma {:induction false} EachSendCounts(tr: seq<Event>, market: Pubkey, sequence: u64, i: nat)
    requires i < |tr| && SendFor(tr[i], market, sequence)
    ensures SendsFor(tr, market, sequence) >= 1
  {
    if i < |tr| - 1 {
      EachSendCounts(tr[..|tr| - 1], market, sequence, i);
    }
  }

  lemma {:induction false} TwoSendsCount(tr: seq<Event>, market: Pubkey, sequence: u64, i: nat, j: nat)
    requires i < j < |tr| && SendFor(tr[i], market, sequence) && SendFor(tr[j], market, sequence)
    ensures SendsFor(tr, market, sequence) >= 2
  {
    if j < |tr| - 1 {
      TwoSendsCount(tr[..|tr| - 1], market, sequence, i, j);
    } else {
      EachSendCounts(tr[..|tr| - 1], market, sequence, i);
    }
  }

  /** In a scan no two send calls have outcomes for the same loan. */
  lemma NoSecondSend(
    preamble: seq<Instruction>, ctx: Context, market: Market, loans: seq<Loan>, now: i64, busy: set<Pubkey>,
    segments: seq<seq<Event>>, sequence: u64, i: nat, j: nat)
    requires Scanned(preamble, ctx, market, loans, now, busy, segments) && Distinct(loans)
    requires i < |Flatten(segments)| && j < |Flatten(segments)|
    requires var tr := Flatten(segments);
             && tr[i].Counted? && EventFor(tr[i], market.address, sequence)
             && tr[j].Counted? && EventFor(tr[j], market.address, sequence)
    ensures i == j
  {
    AtMostOneSendPerLoan(preamble, ctx, market, loans, now, busy, segments, sequence);
    if i < j {
      TwoSendsCount(Flatten(segments), market.address, sequence, i, j);
    } else if j < i {
      TwoSendsCount(Flatten(segments), market.address, sequence, j, i);
    }
  }

  /** A transaction with this signature was submitted in the segment. */
  ghost predicate SubmittedFor(segment: seq<Event>, sig: Signature) {
    exists e <- segment :: e.Submitted? && e.sig == sig
  }

  /** Each segment is about its own loan, with one send call at most. */
  ghost predicate Separated(market: Market, loans: seq<Loan>, segments: seq<seq<Event>>) {
    && |segments| == |loans|
    && (forall k | 0 <= k < |loans| :: OneSend(segments[k]))
    && (forall k, e | 0 <= k < |loans| && e in segments[k] && e.Submitted? :: EventFor(e, market.address, loans[k].sequence))
  }

  lemma ScanIsSeparated(
    preamble: seq<Instruction>, ctx: Context, market: Market, loans: seq<Loan>, now: i64, busy: set<Pubkey>,
    segments: seq<seq<Event>>)
    requires Scanned(preamble, ctx, market, loans, now, busy, segments)
    ensures Separated(market, loans, segments)
  {
    forall k | 0 <= k < |loans|
      ensures OneSend(segments[k])
      ensures forall e <- segments[k] :: e.Submitted? ==> EventFor(e, market.address, loans[k].sequence)
    {
      SegmentFacts(preamble, ctx, market, loans[k], now, busy, segments[k]);
    }
  }

  /** The events after a segment submit under none of its signatures. */
  lemma LaterSegmentsSignOther(market: Market, loans: seq<Loan>, segments: seq<seq<Event>>, k: nat, e: Event, f: Event)
    requires Separated(market, loans, segments) && Distinct(loans) && Landings.SignaturesIdentify(Flatten(segments))
    requires k < |loans| && e in segments[k] && f in Flatten(segments[k + 1..]) && e.Submitted? && f.Submitted?
    ensures e.sig != f.sig
  {
    var i := SegmentOf(segments[k + 1..], f);
    var j := k + 1 + i;
    assert segments[j] == segments[k + 1..][i];
    assert EventFor(e, market.address, loans[k].sequence) && EventFor(f, market.address, loans[j].sequence);
    FlattenAround(segments, k);
    assert e in Flatten(segments) && f in Flatten(segments);
  }

  lemma AfterwardsSignOther(
    market: Market, loans: seq<Loan>, segments: seq<seq<Event>>, k: nat, start: Machine, own: seq<Event>, after: seq<Event>)
    requires Separated(market, loans, segments) && Distinct(loans) && Landings.SignaturesIdentify(Flatten(segments))
    requires k < |loans| && forall e <- own :: e in segments[k]
    requires Run(start, own).Some? && start.submitted == []
    requires forall f <- after :: f.Submitted? ==> f in Flatten(segments[k + 1..])
    ensures forall f <- after :: f.Submitted? ==> f.sig !in Run(start, own).value.submitted
  {
    forall f | f in after && f.Submitted?
      ensures f.sig !in Run(start, own).value.submitted
    {
      if f.sig in Run(start, own).value.submitted {
        Landings.SubmissionOf(start, own, f.sig);
        LaterSegmentsSignOther(market, loans, segments, k, Submitted(f.sig, start.bundle), f);
      }
    }
  }

  /** The trace of a scan, and what comes after it, around the send call of one segment. */
  lemma AroundSend(
    segments: seq<seq<Event>>, k: nat, quiet: seq<Event>, own: seq<Event>, counted: Event, later: seq<Event>)
    returns (before: seq<Event>, after: seq<Event>)
    requires k < |segments| && segments[k] == quiet + own + [counted]
    requires counted.Counted? && AllFromEnvironment(later)
    ensures Flatten(segments) + later == before + own + after
    ensures forall f <- after :: f.Submitted? ==> f in Flatten(segments[k + 1..])
    ensures forall e <- own :: e in segments[k]
  {
    before := Flatten(segments[..k]) + quiet;
    after := [counted] + Flatten(segments[k + 1..]) + later;
    FlattenAround(segments, k);
  }

  lemma OneLandingPerSegment(
    market: Market, loans: seq<Loan>, segments: seq<seq<Event>>, k: nat, later: seq<Event>, s: Signature, t: Signature)
    requires Separated(market, loans, segments) && Distinct(loans) && k < |loans|
    requires AllFromEnvironment(later) && Landings.Truthful(Flatten(segments) + later)
    requires Landings.SignaturesIdentify(Flatten(segments))
    requires SubmittedFor(segments[k], s) && SubmittedFor(segments[k], t)
    requires s in Landings.LandedIn(Flatten(segments) + later) && t in Landings.LandedIn(Flatten(segments) + later)
    ensures s == t
  {
    var quiet, send, own, counted := PartsOfOneSend(segments[k]);
    var start := Start(send.bundle, send.before);
    var before, after := AroundSend(segments, k, quiet, own, counted, later);
    Landings.CallSubmits(start, own, quiet, counted, s);
    Landings.CallSubmits(start, own, quiet, counted, t);
    AfterwardsSignOther(market, loans, segments, k, start, own, after);
    Landings.OneLanding(send.bundle, send.before, before, own, after, s, t);
  }

  /**
  However long one waits after a scan, at most one of the transactions it submitted for a loan
  lands, if the node answers truthfully and what it did not report present does not land.
  */
  lemma OneLandingPerLoan(
    preamble: seq<Instruction>, ctx: Context, market: Market, loans: seq<Loan>, now: i64, busy: set<Pubkey>,
    segments: seq<seq<Event>>, k: nat, later: seq<Event>, s: Signature, t: Signature)
    requires Scanned(preamble, ctx, market, loans, now, busy, segments) && Distinct(loans) && k < |loans|
    requires AllFromEnvironment(later) && Landings.Truthful(Flatten(segments) + later)
    requires Landings.SignaturesIdentify(Flatten(segments))
    requires SubmittedFor(segments[k], s) && SubmittedFor(segments[k], t)
    requires s in Landings.LandedIn(Flatten(segments) + later) && t in Landings.LandedIn(Flatten(segments) + later)
    ensures s == t
  {
    ScanIsSeparated(preamble, ctx, market, loans, now, busy, segments);
    OneLandingPerSegment(market, loans, segments, k, later, s, t);
  }

  /** Every submission of a scan was simulated first, in the same segment. */
  lemma {:induction false} ScanIsGated(
    preamble: seq<Instruction>, ctx: Context, market: Market, loans: seq<Loan>, now: i64, busy: set<Pubkey>,
    segments: seq<seq<Event>>)
    requires Scanned(preamble, ctx, market, loans, now, busy, segments)
    ensures Gated(preamble, Flatten(segments))
  {
    if loans != [] {
      var n := |loans| - 1;
      ScanIsGated(preamble, ctx, market, loans[..n], now, busy, segments[..n]);
      SegmentFacts(preamble, ctx, market, loans[n], now, busy, segments[n]);
      GatedConcat(preamble, Flatten(segments[..n]), segments[n]);
    }
  }

  /** Event `j` settles: its loan is listed and matured, and any possible breach was declined first. */
  ghost predicate SettleIsDue(ctx: Context, market: Market, loans: seq<Loan>, now: i64, tr: seq<Event>, j: nat, sequence: u64) {
    exists k | 0 <= k < |loans| ::
      && loans[k].sequence == sequence
      && Matured(ctx, market, loans[k], now)
      && (MaybeBreached(ctx, loans[k]) ==> LiquidationDeclined(tr, j, market.address, sequence))
  }

  ghost predicate SettlesAreDue(ctx: Context, market: Market, loans: seq<Loan>, now: i64, tr: seq<Event>) {
    forall j, sequence | 0 <= j < |tr| && IsAbout(tr[j], Subject(market.address, sequence, true)) ::
      SettleIsDue(ctx, market, loans, now, tr, j, sequence)
  }

  /** No event of the scan so far is for the sequence. */
  ghost predicate Untouched(market: Pubkey, sequence: u64, tr: seq<Event>) {
    forall i, settling | 0 <= i < |tr| :: !IsAbout(tr[i], Subject(market, sequence, settling))
  }

  lemma {:induction false} NewLoanIsUntouched(
    preamble: seq<Instruction>, ctx: Context, market: Market, loans: seq<Loan>, now: i64, busy: set<Pubkey>,
    segments: seq<seq<Event>>, sequence: u64)
    requires Scanned(preamble, ctx, market, loans, now, busy, segments)
    requires forall k | 0 <= k < |loans| :: loans[k].sequence != sequence
    ensures Untouched(market.address, sequence, Flatten(segments))
  {
    if loans != [] {
      var n := |loans| - 1;
      NewLoanIsUntouched(preamble, ctx, market, loans[..n], now, busy, segments[..n], sequence);
      SegmentFacts(preamble, ctx, market, loans[n], now, busy, segments[n]);
      assert forall i | 0 <= i < |segments[n]| :: segments[n][i] in segments[n];
    }
  }

  /** An event keeps its place and its past when a later segment is appended. */
  lemma LaterSegment(
    ctx: Context, market: Market, loans: seq<Loan>, more: Loan, now: i64, tr: seq<Event>, segment: seq<Event>,
    j: nat, sequence: u64)
    requires j <= |tr| && SettleIsDue(ctx, market, loans, now, tr, j, sequence)
    ensures SettleIsDue(ctx, market, loans + [more], now, tr + segment, j, sequence)
  {
    var k :| 0 <= k < |loans| && loans[k].sequence == sequence && Matured(ctx, market, loans[k], now)
             && (MaybeBreached(ctx, loans[k]) ==> LiquidationDeclined(tr, j, market.address, sequence));
    assert (loans + [more])[k] == loans[k];
    assert forall i | 0 <= i < j :: (tr + segment)[i] == tr[i];
  }

  /** A settling event of the segment of a loan not touched before. */
  lemma OwnSegment(ctx: Context, market: Market, loans: seq<Loan>, loan: Loan, now: i64, tr: seq<Event>, segment: seq<Event>, j: nat)
    requires WaysAllowed(market, loan, Matured(ctx, market, loan, now), MaybeBreached(ctx, loan), segment)
    requires MaybeBreached(ctx, loan) ==> SettlesAfterDecline(market, loan, segment)
    requires Untouched(market.address, loan.sequence, tr)
    requires j < |segment| && IsAbout(segment[j], Subject(market.address, loan.sequence, true))
    ensures SettleIsDue(ctx, market, loans + [loan], now, tr + segment, |tr| + j, loan.sequence)
  {
    var all := tr + segment;
    assert segment[j] in segment && Matured(ctx, market, loan, now);
    assert (loans + [loan])[|loans|] == loan;
    if MaybeBreached(ctx, loan) {
      assert LiquidationDeclined(segment, j, market.address, loan.sequence);
      var i :| 0 <= i < j && segment[i].Simulated? && IsAbout(segment[i], Subject(market.address, loan.sequence, false));
      assert all[|tr| + i] == segment[i];
      forall i | 0 <= i < |tr| + j
        ensures !(all[i].Submitted? && IsAbout(all[i], Subject(market.address, loan.sequence, false)))
      {
        if i < |tr| {
          assert all[i] == tr[i];
        } else {
          assert all[i] == segment[i - |tr|];
        }
      }
      assert LiquidationDeclined(all, |tr| + j, market.address, loan.sequence);
    }
  }

  /** A settle is tried only for matured loans, and for possible breaches only after the liquidation declined. */
  lemma {:induction false} ScanSettlesOnlyDue(
    preamble: seq<Instruction>, ctx: Context, market: Market, loans: seq<Loan>, now: i64, busy: set<Pubkey>,
    segments: seq<seq<Event>>)
    requires Scanned(preamble, ctx, market, loans, now, busy, segments) && Distinct(loans)
    ensures SettlesAreDue(ctx, market, loans, now, Flatten(segments))
  {
    if loans != [] {
      var n := |loans| - 1;
      var before, segment, loan := Flatten(segments[..n]), segments[n], loans[n];
      ScanSettlesOnlyDue(preamble, ctx, market, loans[..n], now, busy, segments[..n]);
      NewLoanIsUntouched(preamble, ctx, market, loans[..n], now, busy, segments[..n], loan.sequence);
      SegmentFacts(preamble, ctx, market, loan, now, busy, segment);
      SettlesStayDue(ctx, market, loans[..n], loan, now, before, segment);
      assert loans == loans[..n] + [loan];
    }
  }

  /** Adding the segment of a loan not touched before keeps every settle due. */
  lemma SettlesStayDue(
    ctx: Context, market: Market, loans: seq<Loan>, loan: Loan, now: i64, before: seq<Event>, segment: seq<Event>)
    requires SettlesAreDue(ctx, market, loans, now, before) && Untouched(market.address, loan.sequence, before)
    requires WaysAllowed(market, loan, Matured(ctx, market, loan, now), MaybeBreached(ctx, loan), segment)
    requires MaybeBreached(ctx, loan) ==> SettlesAfterDecline(market, loan, segment)
    ensures SettlesAreDue(ctx, market, loans + [loan], now, before + segment)
  {
    var tr := before + segment;
    forall j, sequence | 0 <= j < |tr| && IsAbout(tr[j], Subject(market.address, sequence, true))
      ensures SettleIsDue(ctx, market, loans + [loan], now, tr, j, sequence)
    {
      if j < |before| {
        assert tr[j] == before[j];
        LaterSegment(ctx, market, loans, loan, now, before, segment, j, sequence);
      } else {
        assert tr[j] == segment[j - |before|] && segment[j - |before|] in segment;
        OwnSegment(ctx, market, loans, loan, now, before, segment, j - |before|);
      }
    }
  }

  // ---- What a scan does, by the fields of the loan and the bytes read ----

  /** The keeper's debt token account was read, and held this balance. */
  ghost predicate BalanceRead(ctx: Context, market: Market, tr: seq<Event>, balance: u64) {
    exists data :: AccountRead(ctx.debtAccount(market.debtMint), Some(data)) in tr && RepayPlan.HoldsBalance(data, balance)
  }

  /** The list ends with the liquidation, or the settlement, of this very loan for that amount. */
  predicate IsRepayment(bundle: Bundle, market: Market, loan: Loan, settling: bool, v: u64) {
    bundle.ixs != [] &&
    var last := bundle.ixs[|bundle.ixs| - 1];
    var vault := if loan.p2pool then None else Some(loan.lenderVault);
    if settling then last == SettleMaturedLoan(market.address, loan.sequence, v, vault)
    else last == LiquidateLoan(market.address, loan.sequence, v, vault)
  }

  /** The program's check for this loan was simulated, and passed. */
  ghost predicate EligibilityShown(market: Market, loan: Loan, settling: bool, tr: seq<Event>) {
    exists e <- tr ::
      && e.Simulated? && e.ok && e.bundle.ixs != []
      && var last := e.bundle.ixs[|e.bundle.ixs| - 1];
      if settling then last == CheckMaturity(market.address, loan.sequence)
      else last == CheckLtv(market.address, loan.sequence)
  }

  /** The keeper's share of the debt is worth the threshold; without a share, the debt itself. */
  predicate WorthIt(ctx: Context, market: Market, loan: Loan) {
    if market.keeperBps > 0 then loan.outstanding * market.keeperBps >= ctx.minProfit * 10_000
    else loan.outstanding >= ctx.minProfit
  }

  /** A submission is a repayment of the loan in the right amount for the balance read, after its check passed. */
  ghost predicate RightRepayment(ctx: Context, market: Market, loan: Loan, settling: bool, tr: seq<Event>, bundle: Bundle) {
    && (exists balance, v ::
          && BalanceRead(ctx, market, tr, balance)
          && RepayPlan.RightAmount(loan.p2pool, loan.outstanding, loan.principal, balance, v)
          && !RepayPlan.TooPoor(loan.p2pool, loan.outstanding, loan.principal, balance)
          && IsRepayment(bundle, market, loan, settling, v))
    && EligibilityShown(market, loan, settling, tr)
    && (settling || WorthIt(ctx, market, loan))
  }

  /** What the plan says of an account read, by its bytes. */
  lemma PlannedFromRead(loan: Loan, data: Option<seq<byte>>) returns (balance: u64)
    ensures data.None? ==> Planned(loan, data) == Ok(None)
    ensures data.Some? && |data.value| < 72 ==> Planned(loan, data) == Err(AccountTooSmall)
    ensures data.Some? && |data.value| >= 72 ==>
              && RepayPlan.HoldsBalance(data.value, balance)
              && Planned(loan, data) == Ok(RepayPlan.Pick(DebtOf(loan), balance))
  {
    balance := 0;
    if data.Some? && |data.value| >= 72 {
      balance := RepayPlan.SplTokenAmount(data.value).value;
      RepayPlan.BalanceIsRead(data.value, balance);
    }
    RepayPlan.PlannedFromBytes(DebtOf(loan), data, AccountTooSmall, balance);
  }

  lemma ProfitableExactly(ctx: Context, market: Market, loan: Loan)
    ensures Profitable(ctx, market, loan) <==> WorthIt(ctx, market, loan)
  {
  }

  /** The amount of a planned submission is right. */
  lemma PlannedIsRight(
    ctx: Context, market: Market, loan: Loan, settling: bool, tr: seq<Event>, bundle: Bundle, data: Option<seq<byte>>, v: u64)
    requires AccountRead(ctx.debtAccount(market.debtMint), data) in tr && Planned(loan, data) == Ok(Some(v))
    requires EndsWith(bundle, RealIx(market, loan, settling, v))
    ensures exists balance ::
              && BalanceRead(ctx, market, tr, balance)
              && RepayPlan.RightAmount(loan.p2pool, loan.outstanding, loan.principal, balance, v)
              && !RepayPlan.TooPoor(loan.p2pool, loan.outstanding, loan.principal, balance)
    ensures IsRepayment(bundle, market, loan, settling, v)
  {
    var balance := PlannedFromRead(loan, data);
    RepayPlan.PlanIsRight(DebtOf(loan), balance);
    assert BalanceRead(ctx, market, tr, balance);
  }

  lemma CheckIsShown(market: Market, loan: Loan, settling: bool, tr: seq<Event>)
    requires CheckPassed(market, loan, settling, tr)
    ensures EligibilityShown(market, loan, settling, tr)
  {
  }

  /** Every submission of one way is a right repayment. */
  lemma WaySubmitsRightly(
    preamble: seq<Instruction>, ctx: Context, market: Market, loan: Loan, settling: bool,
    tr: seq<Event>, verdict: Result<bool, Fault>, e: Event)
    requires WayTrace(preamble, ctx, market, loan, settling, tr, verdict) && e in tr && e.Submitted?
    ensures RightRepayment(ctx, market, loan, settling, tr, e.bundle)
  {
    var data, v :| AccountRead(ctx.debtAccount(market.debtMint), data) in tr && Planned(loan, data) == Ok(Some(v))
                   && EndsWith(e.bundle, RealIx(market, loan, settling, v));
    PlannedIsRight(ctx, market, loan, settling, tr, e.bundle, data, v);
    ProfitableExactly(ctx, market, loan);
    CheckIsShown(market, loan, settling, tr);
  }

  /** One way that declines had a simulation fail, was not worth it, or found the keeper's account missing or too poor. */
  lemma WayDeclinesRightly(
    preamble: seq<Instruction>, ctx: Context, market: Market, loan: Loan, settling: bool, tr: seq<Event>)
    requires WayTrace(preamble, ctx, market, loan, settling, tr, Ok(false))
    ensures || (exists e <- tr :: e.Simulated? && !e.ok)
            || (!settling && !WorthIt(ctx, market, loan))
            || AccountRead(ctx.debtAccount(market.debtMint), None) in tr
            || exists balance ::
                 BalanceRead(ctx, market, tr, balance)
                 && RepayPlan.TooPoor(loan.p2pool, loan.outstanding, loan.principal, balance)
  {
    ProfitableExactly(ctx, market, loan);
    if data :| AccountRead(ctx.debtAccount(market.debtMint), data) in tr && Planned(loan, data) == Ok(None) {
      var balance := PlannedFromRead(loan, data);
      RepayPlan.PlanIsRight(DebtOf(loan), balance);
      assert data.Some? ==> BalanceRead(ctx, market, tr, balance);
    }
  }

  /** The loan is worth a look: active, with a debt, and due, in a pool, or past the prefilter. */
  predicate Due(ctx: Context, market: Market, loan: Loan, now: i64) {
    && loan.active && loan.outstanding > 0
    && (|| loan.p2pool
        || ctx.prefilter(loan.outstanding, loan.principal)
        || now >= loan.maturesAt + EffectiveGrace(ctx, market)
        || now == I64_LIMIT - 1)
  }

  lemma DueExactly(ctx: Context, market: Market, loan: Loan, now: i64)
    ensures Considered(ctx, market, loan, now) <==> Due(ctx, market, loan, now)
  {
  }

  predicate BothWaysKnown(ctx: Context, market: Market, loan: Loan) {
    BothBanksKnown(ctx, market, loan, true) && BothBanksKnown(ctx, market, loan, false)
  }

  lemma MoreIsRead(ctx: Context, market: Market, loan: Loan, settling: bool, a: seq<Event>, b: seq<Event>, bundle: Bundle)
    requires RightRepayment(ctx, market, loan, settling, a, bundle) || RightRepayment(ctx, market, loan, settling, b, bundle)
    ensures RightRepayment(ctx, market, loan, settling, a + b, bundle)
  {
    assert forall balance :: BalanceRead(ctx, market, a, balance) || BalanceRead(ctx, market, b, balance) ==>
        BalanceRead(ctx, market, a + b, balance);
  }

  /** One loan of a scan: its submissions are right repayments, settlements only if matured, and nothing happens unless it is due. */
  lemma SegmentIsRight(
    preamble: seq<Instruction>, ctx: Context, market: Market, loan: Loan, now: i64, busy: set<Pubkey>, tr: seq<Event>)
    requires LoanSegment(preamble, ctx, market, loan, now, busy, tr)
    ensures forall e <- tr :: e.Submitted? ==>
              RightRepayment(ctx, market, loan, true, tr, e.bundle) || RightRepayment(ctx, market, loan, false, tr, e.bundle)
    ensures !Due(ctx, market, loan, now) || loan.address in busy ==> tr == []
    ensures Due(ctx, market, loan, now) && loan.address !in busy && BothWaysKnown(ctx, market, loan) ==> tr != []
  {
    DueExactly(ctx, market, loan, now);
    var matured, breached := Matured(ctx, market, loan, now), MaybeBreached(ctx, loan);
    if Considered(ctx, market, loan, now) && loan.address !in busy {
      var verdict :| Cascade(preamble, ctx, market, loan, matured, breached, tr, verdict);
      CascadeIsRight(preamble, ctx, market, loan, matured, breached, tr, verdict);
    }
  }

  lemma WayMakesRequest(
    preamble: seq<Instruction>, ctx: Context, market: Market, loan: Loan, settling: bool,
    tr: seq<Event>, verdict: Result<bool, Fault>)
    requires WayTrace(preamble, ctx, market, loan, settling, tr, verdict) && BothBanksKnown(ctx, market, loan, settling)
    ensures tr != []
  {
  }

  lemma CascadeIsRight(
    preamble: seq<Instruction>, ctx: Context, market: Market, loan: Loan, matured: bool, breached: bool,
    tr: seq<Event>, verdict: Result<bool, Fault>)
    requires Cascade(preamble, ctx, market, loan, matured, breached, tr, verdict) && (matured || breached)
    ensures forall e <- tr :: e.Submitted? ==>
              RightRepayment(ctx, market, loan, true, tr, e.bundle) || RightRepayment(ctx, market, loan, false, tr, e.bundle)
    ensures BothWaysKnown(ctx, market, loan) ==> tr != []
  {
    if breached {
      var a, first, b :| tr == a + b && LiquidateFirst(preamble, ctx, market, loan, matured, a, first, b, verdict);
      forall e | e in tr && e.Submitted?
        ensures RightRepayment(ctx, market, loan, true, tr, e.bundle) || RightRepayment(ctx, market, loan, false, tr, e.bundle)
      {
        if e in a {
          WaySubmitsRightly(preamble, ctx, market, loan, false, a, first, e);
          MoreIsRead(ctx, market, loan, false, a, b, e.bundle);
        } else {
          WaySubmitsRightly(preamble, ctx, market, loan, true, b, verdict, e);
          MoreIsRead(ctx, market, loan, true, a, b, e.bundle);
        }
      }
      if BothBanksKnown(ctx, market, loan, false) {
        WayMakesRequest(preamble, ctx, market, loan, false, a, first);
      }
    } else {
      forall e | e in tr && e.Submitted?
        ensures RightRepayment(ctx, market, loan, true, tr, e.bundle)
      {
        WaySubmitsRightly(preamble, ctx, market, loan, true, tr, verdict, e);
      }
      if BothBanksKnown(ctx, market, loan, true) {
        WayMakesRequest(preamble, ctx, market, loan, true, tr, verdict);
      }
    }
  }

  /**
  Over a whole scan, whatever is submitted repays a listed loan that is due, by the right amount for
  the keeper's balance as read for that loan.
  */
  lemma ScanRepaysRightly(
    preamble: seq<Instruction>, ctx: Context, market: Market, loans: seq<Loan>, now: i64, busy: set<Pubkey>,
    segments: seq<seq<Event>>, e: Event)
    returns (k: nat, settling: bool)
    requires Scanned(preamble, ctx, market, loans, now, busy, segments)
    requires e in Flatten(segments) && e.Submitted?
    ensures k < |loans| && e in segments[k] && loans[k].address !in busy && Due(ctx, market, loans[k], now)
    ensures RightRepayment(ctx, market, loans[k], settling, segments[k], e.bundle)
  {
    k := SegmentOf(segments, e);
    SegmentIsRight(preamble, ctx, market, loans[k], now, busy, segments[k]);
    settling := RightRepayment(ctx, market, loans[k], true, segments[k], e.bundle);
  }
}

/** The attempts of the promoter, the claimer and the match cranker. */
module Cranks {
  import opened Prelude
  import opened Network
  import opened RetryMachine
  import opened RpcClient
  import opened SimGate
  import MatchCrankLog

  /** An attempt declines exactly when its simulation failed, and errs exactly when the node did. */
  ghost predicate Verdict(bundle: Bundle, tr: seq<Event>, verdict: Result<bool, Fault>) {
    && (verdict == Ok(false) <==> exists logs :: Simulated(bundle, false, logs) in tr)
    && (verdict.Err? <==> NodeFailed(tr))
  }

  /** Promoter and claimer share this shape: simulate the exact instruction, then send it on the legacy path. */
  method SimulateThenSend(rpc: Rpc, tag: string, ix: Instruction, feePayer: Pubkey)
    returns (verdict: Result<bool, Fault>, ghost tr: seq<Event>)
    modifies rpc`stop
    ensures Attempt([], tr, verdict) && SubmitsOnly(tr, rpc.LegacyBundle([ix]))
    ensures Verdict(rpc.LegacyBundle([ix]), tr, verdict)
    ensures tr != [] && forall e <- tr :: !e.AccountRead?
  {
    var bundle := rpc.LegacyBundle([ix]);
    var sim;
    sim, tr := rpc.Simulate([ix]);
    SimIsQuiet(bundle, tr, sim);
    QuietIsGated([], tr);
    if sim.Err? {
      return Err(sim.error), tr;
    }
    if !sim.value.ok {
      return Ok(false), tr;
    }
    ghost var before, s := tr, rpc.stop;
    ghost var send;
    var sent;
    sent, send := rpc.SendSignedLabeled(tag, [ix], [feePayer]);
    SendIsGated([], before, bundle, sim.value.logs, tag, bundle, s, send, sent, rpc.stop);
    tr := before + send;
    verdict := VerdictOf(sent);
  }

  // ---- Promoter ----

  /** What the promoter needs to know of a queue entry. */
  datatype QueueEntry = QueueEntry(market: Pubkey, sequence: u64, p2pool: bool, presettled: bool, vaultLender: bool)

  /** The lender's seat in the market account. */
  datatype Seat = Seat(owner: Pubkey, subVaultOwned: bool)

  /** The vault accounts can only be needed for a Fixed, not presettled match of a vault lender. */
  predicate NeedsSeat(entry: QueueEntry) {
    !entry.p2pool && !entry.presettled && entry.vaultLender
  }

  /**
  The vault to settle with, by what the read of the market account gave: none if the seat turns out
  not to be a sub-vault's. `seatIn` finds the seat in the account's bytes; `expectedVault` is derived
  from the debt bank.
  */
  function VaultFrom(seatIn: seq<byte> -> Result<Seat, Fault>, expectedVault: Pubkey, data: Option<seq<byte>>): Result<Option<Pubkey>, Fault> {
    if data.None? then Err(Disappeared)
    else
      match seatIn(data.value)
      case Err(fault) => Err(fault)
      case Ok(seat) =>
        if !seat.subVaultOwned then Ok(None)
        else if seat.owner != expectedVault then Err(VaultMismatch)
        else Ok(Some(seat.owner))
  }

  /** The one request made before the simulation, with its outcome: a read of the market account exactly when the seat is needed. */
  ghost predicate SeatRead(
    entry: QueueEntry, seatIn: seq<byte> -> Result<Seat, Fault>, expectedVault: Pubkey,
    read: seq<Event>, vault: Result<Option<Pubkey>, Fault>)
  {
    if NeedsSeat(entry) then
      || (Emits(read, Unanswered) && vault == Err(Unreachable))
      || exists data :: Emits(read, AccountRead(entry.market, data)) && vault == VaultFrom(seatIn, expectedVault, data)
    else read == [] && vault == Ok(None)
  }

  lemma SeatReadIsQuiet(
    entry: QueueEntry, seatIn: seq<byte> -> Result<Seat, Fault>, expectedVault: Pubkey,
    read: seq<Event>, vault: Result<Option<Pubkey>, Fault>)
    requires SeatRead(entry, seatIn, expectedVault, read, vault)
    ensures Quiet(read) && (NeedsSeat(entry) <==> read != [])
    ensures vault.Err? ==> Attempt([], read, Err(vault.error))
  {
    if read != [] {
      assert read == read[..|read| - 1] + [read[|read| - 1]];
    }
    QuietIsGated([], read);
  }

  /** `assemble_vault_settle` */
  method AssembleVaultSettle(rpc: Rpc, entry: QueueEntry, seatIn: seq<byte> -> Result<Seat, Fault>, expectedVault: Pubkey)
    returns (vault: Result<Option<Pubkey>, Fault>, ghost read: seq<Event>)
    modifies rpc`stop
    ensures SeatRead(entry, seatIn, expectedVault, read, vault)
    ensures vault.Ok? && vault.value.Some? ==>
              && !entry.p2pool && !entry.presettled && entry.vaultLender && vault.value.value == expectedVault
              && exists data ::
                   AccountRead(entry.market, Some(data)) in read && seatIn(data) == Ok(Seat(expectedVault, true))
    ensures vault == Ok(None) ==>
              || entry.p2pool || entry.presettled || !entry.vaultLender
              || exists data ::
                   AccountRead(entry.market, Some(data)) in read && seatIn(data).Ok? && !seatIn(data).value.subVaultOwned
    ensures vault.Err? ==>
              || (vault.error.Unreachable? && Unanswered in read)
              || (vault.error.Disappeared? && AccountRead(entry.market, None) in read)
              || exists data ::
                   && AccountRead(entry.market, Some(data)) in read
                   && (|| seatIn(data) == Err(vault.error)
                       || (vault.error.VaultMismatch? && seatIn(data).Ok? && seatIn(data).value.subVaultOwned
                           && seatIn(data).value.owner != expectedVault))
  {
    if entry.p2pool || entry.presettled || !entry.vaultLender {
      return Ok(None), [];
    }
    var data;
    data, read := rpc.GetAccountData(entry.market);
    if data.Err? {
      return Err(data.error), read;
    }
    if data.value.None? {
      return Err(Disappeared), read;
    }
    var seat := seatIn(data.value.value);
    if seat.Err? {
      return Err(seat.error), read;
    }
    if !seat.value.subVaultOwned {
      return Ok(None), read;
    }
    if seat.value.owner != expectedVault {
      return Err(VaultMismatch), read;
    }
    return Ok(Some(seat.value.owner)), read;
  }

  function PromotionOf(entry: QueueEntry, vault: Option<Pubkey>): Instruction {
    ProcessMatchedLoan(entry.market, entry.sequence, vault)
  }

  /**
  `promote_one`. The trace is the read of the seat, if one is needed, and then the gated attempt, if
  the read did not fail; only a missing bank makes no request.
  */
  method PromoteOne(
    rpc: Rpc, feePayer: Pubkey, bankKnown: bool, entry: QueueEntry, seatIn: seq<byte> -> Result<Seat, Fault>, expectedVault: Pubkey)
    returns (verdict: Result<bool, Fault>, ghost read: seq<Event>, ghost vault: Result<Option<Pubkey>, Fault>, ghost sent: seq<Event>)
    modifies rpc`stop
    ensures Attempt([], read + sent, verdict)
    ensures read + sent == [] <==> !bankKnown
    ensures !bankKnown ==> verdict == Err(MissingBank)
    ensures bankKnown ==> SeatRead(entry, seatIn, expectedVault, read, vault)
    ensures bankKnown && vault.Err? ==> verdict == Err(vault.error) && sent == [] && Quiet(read)
    ensures bankKnown && vault.Ok? ==>
              var bundle := rpc.LegacyBundle([PromotionOf(entry, vault.value)]);
              SubmitsOnly(sent, bundle) && Verdict(bundle, sent, verdict) && forall e <- sent :: !e.AccountRead?
    ensures bankKnown && vault.Ok? ==>
              forall e <- sent :: e.Submitted? ==>
                && e.bundle.ixs != []
                && e.bundle.ixs[|e.bundle.ixs| - 1] == ProcessMatchedLoan(entry.market, entry.sequence, vault.value)
  {
    if !bankKnown {
      QuietIsGated([], []);
      return Err(MissingBank), [], Ok(None), [];
    }
    var settle;
    settle, read := AssembleVaultSettle(rpc, entry, seatIn, expectedVault);
    vault, sent := settle, [];
    SeatReadIsQuiet(entry, seatIn, expectedVault, read, vault);
    if settle.Err? {
      assert read + sent == read;
      return Err(settle.error), read, vault, sent;
    }
    verdict, sent := SimulateThenSend(rpc, "process_matched_loan", PromotionOf(entry, settle.value), feePayer);
    QuietThenAttempt([], read, sent, verdict);
  }

  // ---- Claimer ----

  /** `sweep_one` */
  method SweepOne(rpc: Rpc, feePayer: Pubkey, bankKnown: bool, market: Pubkey, vault: Pubkey, subVault: u16)
    returns (verdict: Result<bool, Fault>, ghost tr: seq<Event>)
    modifies rpc`stop
    ensures Attempt([], tr, verdict)
    ensures if bankKnown then
              var bundle := rpc.LegacyBundle([ClaimRepayment(market, vault, subVault)]);
              SubmitsOnly(tr, bundle) && Verdict(bundle, tr, verdict)
            else verdict == Err(MissingBank) && tr == []
  {
    if !bankKnown {
      QuietIsGated([], []);
      return Err(MissingBank), [];
    }
    verdict, tr := SimulateThenSend(rpc, "claim_repayment_for_sub_vault", ClaimRepayment(market, vault, subVault), feePayer);
  }

  // ---- Match cranker ----

  /** The simulation logs let the crank through: anything but a record of zero fills. */
  predicate Productive(disc: MatchCrankLog.Discriminant, logs: seq<string>) {
    MatchCrankLog.ParseFills(disc, logs) != Some(0)
  }

  /** The logs hold a crank back exactly if a line reads zero fills and no line before it reads anything. */
  lemma HeldBackExactly(disc: MatchCrankLog.Discriminant, logs: seq<string>)
    ensures !Productive(disc, logs) <==> exists k :: MatchCrankLog.ReadsFirst(disc, logs, k, 0)
  {
    MatchCrankLog.ParsesFirst(disc, logs, 0);
  }

  /** A submission of the cranker: its simulation succeeded, and did not report zero fills. */
  ghost predicate ProductiveOnly(disc: MatchCrankLog.Discriminant, bundle: Bundle, tr: seq<Event>) {
    forall e <- tr :: e.Submitted? ==>
      exists logs :: Simulated(bundle, true, logs) in tr && Productive(disc, logs)
  }

  /** `crank_one`, with the oracle update the gateway returned. */
  method CrankOne(
    rpc: Rpc, feePayer: Pubkey, banksKnown: bool, market: Pubkey, maxFills: u32, disc: MatchCrankLog.Discriminant,
    update: Bundle)
    returns (verdict: Result<bool, Fault>, ghost tr: seq<Event>)
    modifies rpc`stop
    ensures Attempt(rpc.PriorityFeePreamble(V0_COMPUTE_UNIT_LIMIT), tr, verdict)
    ensures if banksKnown then verdict.Err? <==> NodeFailed(tr) else verdict == Err(MissingBank) && tr == []
    ensures var sim := Bundle(update.ixs + [MatchCrank(market, maxFills)], update.luts);
            && ProductiveOnly(disc, sim, tr)
            && SubmitsOnly(tr, rpc.V0Bundle(sim.ixs, sim.luts))
            && (verdict == Ok(false) <==>
                  exists ok, logs :: Simulated(sim, ok, logs) in tr && !(ok && Productive(disc, logs)))
  {
    ghost var preamble := rpc.PriorityFeePreamble(V0_COMPUTE_UNIT_LIMIT);
    if !banksKnown {
      QuietIsGated(preamble, []);
      return Err(MissingBank), [];
    }
    var ixs := update.ixs + [MatchCrank(market, maxFills)];
    var sim;
    sim, tr := rpc.SimulateV0(ixs, update.luts);
    SimIsQuiet(Bundle(ixs, update.luts), tr, sim);
    QuietIsGated(preamble, tr);
    if sim.Err? {
      return Err(sim.error), tr;
    }
    if !sim.value.ok {
      return Ok(false), tr;
    }
    match MatchCrankLog.ParseFills(disc, sim.value.logs) {
      case Some(fills) =>
        if fills == 0 {
          return Ok(false), tr;
        }
      case None =>
    }
    ghost var send;
    verdict, send := SubmitV0(rpc, "match_crank", ixs, update.luts, feePayer, tr, sim.value.logs);
    tr := tr + send;
    assert Simulated(Bundle(ixs, update.luts), true, sim.value.logs) in tr;
  }
}

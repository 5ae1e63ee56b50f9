# Verification of the keeper bot

Dafny models of the parts of the bot where a mistake costs money: the retry-and-send protocol, the
sim-gated handlers, the repay arithmetic, the concurrent account fetch, the two caches, and the binary
and text codecs. `dafny verify dfyconfig.toml` checks everything.

The RPC node, the chain, the clock and the scheduler are adversaries. They answer anything, in any order.
A claim about a run holds for every run.

## How it is laid out

| file | what it models |
|---|---|
| `Prelude.dfy`, `Network.dfy` | machine integers, keys; instructions, errors, and one event per interaction with the node |
| `RetryMachine.dfy` | one send call as a step machine, and the theorems over all of its runs |
| `Rpc.dfy` | the client class; both retry loops, proved to be runs of that one machine |
| `SimGate.dfy`, `Cranks.dfy`, `Claimer.dfy`, `Liquidator.dfy` | traces of attempts, and the handlers that produce them |
| `Landings.dfy` | which transactions land, over traces longer than one call |
| `Supervisor.dfy` | many handler tasks that share the stop flag and the low-balance flag |
| `Inflight.dfy` | many overlapping ticks that share an in-flight set |
| `RepayPlan.dfy` | how much of a loan is repaid, for one call and over runs |
| `BatchFetch.dfy` | chunked fetch into a shared buffer, and the token-balance loop that reads it |
| `MarketCache.dfy`, `BankRegistry.dfy`, `KeyOrder.dfy` | the TTL snapshot, the mint-to-bank registry, the order of keys |
| `LittleEndian.dfy`, `BankAccount.dfy`, `Base64.dfy`, `MatchCrankLog.dfy` | codecs with their inverses; base64 is that of section 4 of RFC 4648 |

Methods that talk to the node return a ghost trace of events beside their result. Traces of a call are
runs of `RetryMachine`; traces of handlers are cut into one segment per loan or row. A method whose loop
serves an adversary uses a nondeterministic choice (`:= *`, `:|`, `if case`), so one proof covers every
answer and every schedule.

## What the model takes as given

- `send_and_confirm_transaction` returns the signature of the transaction it was given, and
  `getMultipleAccounts` returns one entry per key, in order.
- `main.rs` always attaches the stop signal (`src/main.rs:37-42`), so a client without one is not modelled.
- Two attempts of one call may carry the same signature (same blockhash). `passedOver` drops a signature
  when it is submitted again.
- What a lemma says of a loan, an account or a market it says by its own fields and bytes, not through the
  functions that the model computes with.
- `At most once` needs an honest node: status queries answer truthfully, a confirmation is of a landed
  transaction, and a transaction found absent does not land later. `AssumptionIsNeeded` gives a run for each
  of the two ways this can fail in which two signatures land. Over a scan it also needs that a signature
  signs one instruction list.
- An attempt takes its own bank snapshot and oracle bundle; they may differ from one attempt to the next.
- The grace sum at `src/handlers/liquidator.rs:82-83` casts a `u64` and adds; the model wraps, as a release
  build does. `GraceIsKeptExactly` shows that very large buffers then mature loans early, and says exactly
  which buffers do.
- Where the repository's documents and code differ, the model follows the code. The table in its README
  gives the promoter and the claimer no sim gate (`README.md:76`, `README.md:78`) and the match cranker no
  fill detection (`README.md:79`). In the code the first two simulate before they send, and
  `src/handlers/match_cranker.rs:170-185` refuses to submit on zero fills. A comment in
  `src/marginfi_bank.rs:138` says that trailing zero oracle entries are dropped, while the loop drops every
  zero entry; `EncodeDecode` says when that difference shows. A comment in
  `src/handlers/liquidator.rs:442` speaks of the largest amount the token account can fund, while a partial
  amount is also kept below the estimate; `PartialIsLargest` states what holds.
- `try_settle_matured` and `try_liquidate_ltv` are one method here, with a flag: they differ in the check,
  the real instruction, the tag, and the profit gate.
- Each instruction is kept as the values the source builds it from that the properties mention.

## Model

| member | source | states |
|---|---|---|
| Network.ContainsFinds | src/rpc.rs:427 | the message test that makes a preflight error transient finds the text exactly when it occurs somewhere |
| RetryMachine.BoundedAndNeverFallsThrough | src/rpc.rs:187-241 | for any environment: at most 3 sends and 2 status queries, the end of the loop is never reached, and `Ok(s)` is one of the submitted signatures |
| RetryMachine.ErrorsAreEarned | src/rpc.rs:188-236 | a shutdown error means the flag is up; a send error was of a submission, and if it was transient, of the third |
| RetryMachine.EveryResultIsEarned | src/rpc.rs:187-240 | for any environment a call returns exactly what its last interaction says: shutdown, no blockhash, a failed signing, that very send error, or the confirmed or present signature |
| RetryMachine.GivesUpOnlyOnDefinitive | src/rpc.rs:423-433 | over every run, a send error returned before the third send is no i/o or transport error, none of the codes -32099..-32000, and no message with "Blockhash not found" in it |
| RetryMachine.SendsAgainOnlyOnTransient | src/rpc.rs:423-433 | the dual: every submission after the first follows, in its place, an error of exactly those kinds |
| RetryMachine.StopBoundsSubmissions | src/rpc.rs:188-190 | once the flag is up a call submits at most once more, and only if it is past its check |
| RetryMachine.StoppedCallEnds | src/rpc.rs:187-241 | once the flag is up a call returns within six steps of its own |
| RetryMachine.AtMostOnce | src/rpc.rs:185-241 | with an honest node, under any error pattern and stop timing, at most one signature of the call lands and an `Ok` returns it |
| RetryMachine.SecondLandingWasPassedOver | src/rpc.rs:192-210 | without any assumption on replies, of two landed signatures one was passed over by a status check |
| RetryMachine.AssumptionIsNeeded | src/rpc.rs:192-210 | two clauses of the honesty assumption are each needed: a run that keeps all the others, in which two submitted signatures land after a failed status query, and one in which they do after a truthful "absent" |
| RetryMachine.EverySubmissionIsEarned | src/rpc.rs:187-240 | for any environment: every later submission comes right after a transient failure and a status query that did not report the previous signature; `Ok(s)` comes right after `s` was confirmed or reported present |
| RetryMachine.RunHasOwnEvents | src/rpc.rs:179-242 | a call submits its own instruction list and nothing else |
| RpcClient.Rpc.SendWithRetry | src/rpc.rs:179-242 | the legacy loop is a complete run of the retry machine, without the failures only the v0 loop has |
| RpcClient.Rpc.SendV0WithRetry | src/rpc.rs:340-387 | the v0 loop is a complete run of the same machine |
| RpcClient.NeverRunsOut | src/rpc.rs:241 | no trace leads past the third attempt, so `unreachable!()` is unreachable |
| RpcClient.Rpc.SendSignedLabeled | src/rpc.rs:144-177 | no signers: an error and no event; else a run, then its outcome counted; what goes out is the limit, the price if there is one, and the caller's own instructions |
| RpcClient.Rpc.SendSignedV0Labeled | src/rpc.rs:302-335 | the same over the v0 loop, with the fixed v0 compute limit |
| RpcClient.Rpc.Simulate | src/rpc.rs:244-259 | what is simulated is exactly what the legacy path sends, preamble included |
| RpcClient.Rpc.SimulateV0 | src/rpc.rs:266-297 | what is simulated is the bare instruction list, or the request went unanswered |
| RpcClient.Rpc.GetAccountData | src/rpc.rs:122-134 | a read is recorded with what it gave, and an empty account reads as nothing |
| SimGate.SendIsGated | src/rpc.rs:155-159 | a send right after a successful simulation of the same list is a gated attempt with that one send call, a success exactly when it returns `Ok` |
| SimGate.SubmitV0 | src/handlers/match_cranker.rs:187-194 | the same for the v0 end of an attempt, where the sent list is preamble plus the simulated one |
| SimGate.SendParts | src/rpc.rs:144-177 | a send touches one instruction list only and counts its outcome once |
| SimGate.SimIsQuiet | src/rpc.rs:244-297 | a simulation submits nothing, and its answer is the recorded one |
| Cranks.SimulateThenSend | src/handlers/promoter.rs:148-162 | nothing is submitted unless the identical list, preamble included, was simulated successfully; it declines exactly when the simulation failed and errs exactly when the node did |
| Cranks.AssembleVaultSettle | src/handlers/promoter.rs:178-226 | the market account is read, once, exactly for a Fixed, not presettled entry of a vault lender; what the read gives decides the vault: unanswered, disappeared and mismatched are errors, a seat of another kind needs none |
| Cranks.PromoteOne | src/handlers/promoter.rs:109-172 | that read, then one gated attempt at the promotion it calls for, with the entry's own market and sequence and that vault last in the list; a failed read or a wrong vault ends it without a simulation or a send; it makes no request exactly when the bank is missing |
| Cranks.SweepOne | src/handlers/claimer.rs:135-200 | the same for the claim of one row |
| Cranks.CrankOne | src/handlers/match_cranker.rs:116-195 | what is sent is preamble plus the simulated list; only a simulation that did not report zero fills lets it through, and only a failed or zero-fill one declines |
| Cranks.HeldBackExactly | src/handlers/match_cranker.rs:170-185 | logs hold a crank back if and only if a line reads zero fills and no line before it reads anything; logs without a readable record let it through |
| Claimer.Claimable | src/handlers/claimer.rs:60-67 | the first gate holds exactly the keys of the sub-vaults with atoms waiting |
| Claimer.MarketRows | src/chain_reader.rs:459-499 | a row is listed exactly for a seat that a sub-vault owns and that has shares, in an unpaused market that could be read |
| Claimer.RowCount | src/chain_reader.rs:481-496 | each row is listed once for every seat that a sub-vault owns, has shares left, and has its owner and sub-vault, over the unpaused markets read |
| Claimer.KeptCounts | src/handlers/claimer.rs:82 | the join keeps a row as often as it is listed, or not at all |
| Claimer.ListPendingVaultClaims | src/chain_reader.rs:459-499 | the listing is that of the reads made, in market order; it fails exactly when a read went unanswered, and submits nothing |
| Claimer.KeptIsToSweep | src/handlers/claimer.rs:77-83 | the swept rows are exactly those that pass both gates, each as often as there are seats for it |
| Claimer.ClaimerHandler.Tick | src/handlers/claimer.rs:47-121 | a tick sweeps exactly the rows that pass both gates, each in one gated attempt; the count is the number of successes; without atoms waiting it makes no request; the in-flight set is as before |
| Claimer.ClaimerHandler.SweepAll | src/handlers/claimer.rs:94-116 | one segment per row, empty for a row in flight or without a bank, else one gated attempt |
| Claimer.SubmissionsPassBothGates | src/handlers/claimer.rs:94-116 | every submission of a tick ends with the claim for a pending row's market, vault and sub-vault, not in flight, with a known bank |
| Liquidator.MaturedExactly | src/handlers/liquidator.rs:82-91 | matured means past maturity plus grace plus buffer, but for the last instant of the clock, where the saturated sum is met |
| Liquidator.GraceIsKeptExactly | src/handlers/liquidator.rs:82-91 | at instants the clock reads, no loan matures before its grace is over if and only if grace and buffer fit together in the signed range; a larger buffer wraps |
| Liquidator.LiquidatorHandler.PickRepayAmount | src/handlers/liquidator.rs:445-494 | the amount is the plan for the balance read from the keeper's account; an unanswered read is an error |
| Liquidator.PlannedFromRead | src/handlers/liquidator.rs:451-459 | a missing account declines, one shorter than 72 bytes is an error, and any other is planned for by the balance its bytes 64..72 hold |
| Liquidator.LiquidatorHandler.TryOneWay | src/handlers/liquidator.rs:195-440 | one way of handling a loan: gated, one send call at most, about that loan and way only, submitting only after its check simulation passed and only the amount planned from the keeper's own debt token account as read in this attempt; every decline and error has one of the source's reasons; an unprofitable liquidation submits nothing |
| Liquidator.WaySubmitsRightly | src/handlers/liquidator.rs:195-440 | by field and by byte: a submission repays this loan, zero for all of it exactly if the balance read covers the requirement, else the largest part that leaves something, never for a balance too poor; after the program's check passed, and for a liquidation only if the bonus is worth the threshold |
| Liquidator.WayDeclinesRightly | src/handlers/liquidator.rs:231-243 | a way declines only for a failed simulation, a bonus below the threshold, a missing account, or a balance below a thousand atoms or one whole percent that does not cover everything |
| Liquidator.LiquidatorHandler.TrySettleOrLiquidate | src/handlers/liquidator.rs:172-193 | liquidate first where a breach is possible; settle only if that declined or does not apply; each way takes its own oracle bundle and bank snapshot |
| Liquidator.CascadeSafety | src/handlers/liquidator.rs:172-193 | over one loan at most one submission succeeds, exactly when the verdict says so; a settle needs a matured loan and comes after the declined liquidation |
| Liquidator.LiquidatorHandler.ScanLoan | src/handlers/liquidator.rs:86-118 | a loan that is due and not in flight gets one cascade, any other nothing; the in-flight set is as before, errors included |
| Liquidator.LiquidatorHandler.ScanMarket | src/handlers/liquidator.rs:77-120 | one segment per loan in list order, and the count returned is the number of successful submissions |
| Liquidator.AtMostOneSendPerLoan | src/handlers/liquidator.rs:77-120 | over a whole scan of distinct loans each gets at most one send call, so at most one successful liquidate or settle, and no other loan gets any |
| Liquidator.NoSecondSend | src/handlers/liquidator.rs:77-120 | in the trace of a scan no two send outcomes are for the same loan |
| Liquidator.OneLandingPerLoan | src/handlers/liquidator.rs:77-120 | over a whole scan and however long after it, at most one of the transactions submitted for a loan lands, retries included, if the node is truthful |
| Landings.OneLanding | src/rpc.rs:185-241 | wherever in a longer trace a call is made, at most one of its signatures ever lands, with a truthful node and no one else submitting under them |
| Landings.CallLandsOnce | src/rpc.rs:192-210 | inside any truthful trace, a signature of the call that landed was not passed over |
| Liquidator.ScanIsGated | src/handlers/liquidator.rs:284-300 | every submission of a scan was simulated first, as preamble plus the simulated list |
| Liquidator.ScanSettlesOnlyDue | src/handlers/liquidator.rs:91-101 | over a whole scan a settle is tried only for a listed matured loan, and where a breach was possible only after its liquidation was checked and not submitted |
| Liquidator.SegmentIsRight | src/handlers/liquidator.rs:86-105 | a loan is taken up exactly if it is active, in debt, not in flight, and of a pool, past the prefilter, or past maturity; else nothing happens for it |
| Liquidator.ScanRepaysRightly | src/handlers/liquidator.rs:77-120 | over a whole scan every submission repays a due, listed loan by the right amount for the balance read for it |
| RepayPlan.FullExactlyWhenCovered | src/handlers/liquidator.rs:463-477 | full repayment is chosen exactly when the balance covers the over-staged requirement, or is the largest `u64` |
| RepayPlan.PartialIsLargest | src/handlers/liquidator.rs:479-493 | a partial amount is the largest positive one below the estimate that the balance funds, so it is never the sentinel |
| RepayPlan.PartialMeetsFloorExcept | src/handlers/util.rs:27-31 | a partial amount is below the floor exactly for pool loans with an estimate in 919..1000, and is then the estimate less one |
| RepayPlan.FloorExceptionOccurs | src/handlers/liquidator.rs:479-493 | a balance that meets the exception, for each such estimate |
| RepayPlan.RepayIsMonotone | src/handlers/liquidator.rs:463-493 | a richer keeper never repays less, through saturation and for both loan kinds |
| RepayPlan.FullRequiredIsCapped | src/handlers/util.rs:21-25 | the two saturating additions are one cap of the exact over-stage |
| RepayPlan.PlanIsRight | src/handlers/liquidator.rs:463-493 | by the loan's fields: it declines exactly for a balance that does not cover and is below a thousand atoms or one whole percent, and else plans zero or the largest part, as the balance covers or not |
| RepayPlan.BalanceIsRead | src/handlers/util.rs:12-15 | the amount read is the one whose eight bytes, least significant first, stand at 64..72 |
| RepayPlan.PaidPlusOutstanding | src/handlers/liquidator.rs:445-494 | over any run of repayments of a Fixed loan, paid plus outstanding is the original amount |
| RepayPlan.FundedTick | src/handlers/util.rs:27-31 | a tick that meets the floor closes the loan, or retires at least 1000 atoms and leaves `100*out' <= 99*out + 99` |
| RepayPlan.FundedRunCloses | src/handlers/liquidator.rs:445-494 | a run funded on every tick closes within `(out0-1)/1000 + 1` ticks |
| RepayPlan.FundedRunShrinks | src/handlers/util.rs:27-31 | after k funded ticks at most `(99/100)^k` of the excess over 99 is left |
| RepayPlan.TickBoundIsTight | src/handlers/util.rs:27-31 | with 1000 atoms a tick the bound is reached, wherever that balance meets the floor |
| Supervisor.AfterStopSet | src/handlers/mod.rs:60-126 | once the flag is up, in every interleaving: one more submission, of a call between its check and its submission, or one more tick of a task past its loop check, never both |
| Supervisor.LateCallIsRefused | src/rpc.rs:188-190 | a call begun after the flag went up returns the shutdown error and has submitted nothing |
| Supervisor.ExitsBeforeAnotherTick | src/handlers/mod.rs:115-125 | a task outside a tick exits within two steps of its own, for good |
| Supervisor.PausedTaskIsSilent | src/handlers/mod.rs:65-73 | after a gate that paused it a task submits nothing until a gate lets it through |
| Supervisor.TicksAreLetIn | src/handlers/mod.rs:65-75 | in every run a handler that is in a tick was let in by its last gate, and if it needs the fee payer the flag was down at that very move |
| Supervisor.SubmissionsAreLetIn | src/handlers/mod.rs:65-75 | so no submission of any run follows a gate that found the fee payer low |
| Supervisor.GatesFollowTheFlag | src/handlers/mod.rs:65-68 | in every run a gate pauses its task if and only if the task needs the fee payer and the flag is up at that move |
| Supervisor.HandlersCanMove | src/handlers/mod.rs:60-126 | in every run a handler that has not exited can act, inside calls too; at a gate it is let in unless it needs a low fee payer |
| Supervisor.HealthyTasksTick | src/handlers/mod.rs:60-126 | with the stop flag down and no low balance that matters, a task goes through gate, tick and sleep back to the top |
| Supervisor.LiftRun | src/handlers/mod.rs:75 | what a call does inside a task is what the retry machine does |
| Supervisor.SlicedSleep | src/handlers/mod.rs:114-125 | the flag is read before every slice, no slice is over a second, slices never add up to more than the interval, and a sleep that is not stopped lasts it |
| Supervisor.Supervise | src/handlers/mod.rs:60-126 | the loop, for any number of rounds, is a run of the supervisor machine with exactly one gate a round, and returns by finding the flag up |
| Inflight.MutualExclusion | src/handlers/liquidator.rs:103-110 | for any number of interleaved ticks a key is in the set exactly when one tick, and one only, holds it, from its claim to the release after its work returned; the set is empty whenever none holds one |
| Inflight.ReleasesOnlyItsOwn | src/handlers/claimer.rs:95-101 | a tick that releases never removes another tick's key |
| Inflight.EveryKeyIsWorked | src/handlers/promoter.rs:66-71 | skipping loses nothing: a listed key is worked by some tick once all are through |
| Inflight.AllRunsEnd | src/handlers/match_cranker.rs:101-105 | every interleaving is at most three moves per listed key long |
| BatchFetch.BatchGetMultipleAccounts | src/rpc.rs:76-120 | for every schedule: success exactly if no chunk fails, each slot then holds what the ledger held for its own key as its chunk was answered, each slot is written once, and with a semaphore of 16 permits at most 16 chunks are past it; an error names a failed chunk |
| BatchFetch.Join | src/rpc.rs:111-118 | joining a chunk fills exactly its own slots, or fails and writes nothing |
| BatchFetch.RefreshAtaBalances | src/metrics.rs:160-198 | each mint is mapped to the balance that stands in the bytes of its own token account, or to zero if that is missing or short, in whatever order the registry iterates; a failed fetch leaves the map as it was |
| MarketCache.NeverWiped | src/chain_reader.rs:206-237 | in every interleaving a stored snapshot is never lost or replaced by an empty one |
| MarketCache.ListedMarkets | src/chain_reader.rs:209-227 | a list returned was produced by some fetch, and is not empty if the call began after a store and the lock is healthy |
| MarketCache.HitIsFresh | src/chain_reader.rs:239-246 | in every run a look hits if and only if the lock is healthy and the latest store is under 30 s old, and gives that store |
| MarketCache.FallsBackOnLatest | src/chain_reader.rs:214-223 | an empty fetch is answered with the latest store, or with nothing |
| MarketCache.ReturnedIsStored | src/chain_reader.rs:225-237 | with a healthy lock, whatever non-empty list a call returned was stored |
| MarketCache.MachineEvolves | src/chain_reader.rs:254-261 | other calls can only add or replace a non-empty snapshot, which is all the methods assume of them |
| MarketCache.ChainReader.MarketsCacheGet | src/chain_reader.rs:239-247 | the TTL test is on the stored snapshot; a broken lock is a miss |
| MarketCache.ChainReader.ListMarkets | src/chain_reader.rs:209-227 | every result and new state by case of hit, failed, empty and non-empty fetch; never empty after an earlier store |
| MarketCache.ChainReader.RefreshMarkets | src/chain_reader.rs:231-237 | the fetch is returned as it is, and stored only if it is not empty |
| BankRegistry.BindBanks | src/bank_registry.rs:103-127 | the loop that inserts before it compares accepts exactly the lists whose debt and collateral pairs form a function; its map is that function; an error names the first market that disagrees |
| BankRegistry.MarketIsBound | src/bank_registry.rs:105-116 | each market's debt mint is bound to its debt bank and its collateral mint to its collateral bank |
| BankRegistry.BoundOfMarket | src/bank_registry.rs:103-127 | every bound mint is of some market |
| BankRegistry.OrderDoesNotMatter | src/bank_registry.rs:103-127 | acceptance and map do not depend on the order of markets |
| BankRegistry.ResolveFromChain | src/bank_registry.rs:137-238 | it succeeds exactly when every bound bank and mint resolves; the registry then has exactly those mints; an error names a mint that does not resolve, and why |
| BankRegistry.ResolvesExactly | src/bank_registry.rs:160-223 | a pair resolves if and only if there is an entry with the account's own fields for it: owner, mint, vault, derived authority, oracles, token program |
| BankRegistry.ResolvedByField | src/bank_registry.rs:224-235 | field by field, every entry of a resolved registry comes from its own bank and mint accounts |
| BankRegistry.DiscoverFromMarkets | src/bank_registry.rs:86-135 | success exactly when the markets agree and every bound pair resolves; the registry has exactly the mints of the markets, each what its bound bank resolves to; errors tell the failing stage |
| BankRegistry.DiscoveredByField | src/bank_registry.rs:86-135 | in a discovered registry each market's two mints are entered, each with the fields of its own bank |
| BankRegistry.EnteredByMarket | src/bank_registry.rs:86-135 | and no other mint is |
| BankRegistry.BankDecoderKeepsFilledSlots | src/bank_registry.rs:218 | the bank decoder never yields more than five oracles, nor a zero one, as resolution needs |
| BankRegistry.BankRegistry.MergeFrom | src/bank_registry.rs:277-281 | the merge is the left-biased union |
| BankRegistry.EntriesAreForever | src/config.rs:221-237 | over any run of refreshes an entry never changes, and a new mint keeps the entry of the first discovery that found it |
| BankRegistry.StaysWellFormed | src/config.rs:221-237 | over any run the keys only grow, and entries keep their own mint and one to five non-zero oracles |
| BankRegistry.Config.constructor | src/config.rs:204-217 | the registry starts empty and decodes with the bank decoder, which keeps the oracle bounds |
| BankRegistry.Config.RefreshBanks | src/config.rs:221-237 | a refresh merges what was discovered, and fails exactly when nothing could be, or when there is something to merge and the lock is broken; a failed or empty one changes nothing |
| BankRegistry.Config.DiscoverBanksFromMarkets | src/config.rs:204-217 | at boot the registry is replaced by what was discovered, and kept on failure, a broken lock included |
| BankRegistry.Config.BanksSnapshot | src/config.rs:239-244 | a snapshot is the registry, or empty under a broken lock |
| BankRegistry.BankRegistry.SwitchboardPullOracles | src/bank_registry.rs:252-262 | the list is strictly increasing and holds exactly the primary oracles of the pull banks |
| BankRegistry.PullListIsUnique | src/bank_registry.rs:252-262 | there is one such list, whatever the iteration order of the map |
| BankRegistry.PullListIsUseful | src/bank_registry.rs:246-262 | it is non-empty exactly when there is a pull bank, names no zero key, and holds exactly the first oracles of the banks with setup 4 |
| KeyOrder.SortDedup | src/bank_registry.rs:259-260 | sorting and dropping equal neighbours gives a strictly increasing list of the same keys |
| KeyOrder.IncreasingIsUnique | src/bank_registry.rs:259-261 | a strictly increasing list is determined by its keys |
| KeyOrder.LessAtFirstDifference | src/bank_registry.rs:148 | the order of keys is that of the first byte in which they differ |
| BankAccount.TryFromAccountData | src/marginfi_bank.rs:143-208 | the loops that fill the points and push the oracles compute the decoder that the lemmas are about |
| BankAccount.FillPoints | src/marginfi_bank.rs:173-178 | the loop over the curve points fills every one of them from its own eight bytes |
| BankAccount.PushOracles | src/marginfi_bank.rs:181-187 | the loop over the oracle slots pushes exactly the non-zero ones, in order |
| BankAccount.DecodeEncode | src/marginfi_bank.rs:158-206 | encoding any view with at most five non-zero oracles into any bytes and decoding gives the view back, signed values included |
| BankAccount.EncodeDecode | src/marginfi_bank.rs:181-187 | encoding a decoded view back changes nothing if and only if no zero oracle slot precedes a filled one |
| BankAccount.DecodeAccount | src/marginfi_bank.rs:144-156 | the discriminator and any trailing bytes frame the body |
| BankAccount.OnlyNamedBytesMatter | src/marginfi_bank.rs:66-93 | bodies that agree on the named ranges decode alike |
| BankAccount.NamedIsWritten | src/marginfi_bank.rs:66-93 | the named ranges are exactly the bytes the encoder writes |
| BankAccount.DecodesTheStruct | src/marginfi_bank.rs:30-65 | the account as the struct it is, part after part by width: the view has each key, amount, rate and byte from its own part |
| BankAccount.StructSlots | src/marginfi_bank.rs:173-187 | and each point and oracle slot from its own place in its part |
| BankAccount.OraclesAreKeptSlots | src/marginfi_bank.rs:181-187 | the oracles are the non-zero slots, in slot order |
| BankAccount.OracleCountCheck | src/bank_registry.rs:218-223 | the "1-5 oracle keys" check can fail only on an account without any |
| LittleEndian.SignedFromTo | src/marginfi_bank.rs:216-219 | every `i128` survives sixteen little-endian bytes |
| LittleEndian.SignedToFrom | src/marginfi_bank.rs:216-219 | and every sixteen bytes survive the `i128` |
| LittleEndian.FromTo | src/marginfi_bank.rs:221-224 | unsigned round trip for any width |
| LittleEndian.DigitAt | src/marginfi_bank.rs:221-224 | byte `k` is the digit of weight 256 to the `k` |
| LittleEndian.SignedIsTwosComplement | src/marginfi_bank.rs:216-219 | the signed value is the unsigned one, less 2^128 exactly if the top bit is set |
| Base64.DecodesExactlyEncodings | src/handlers/match_cranker.rs:252-254 | the decoder accepts exactly the encoder's outputs and undoes them |
| Base64.UsesAlphabet | src/handlers/match_cranker.rs:252 | the 64 characters of table 1 of RFC 4648 |
| Base64.GroupsInOrder | src/handlers/match_cranker.rs:252 | three bytes at a time, in order |
| Base64.TestVectors | src/handlers/match_cranker.rs:252 | test vectors of section 10 of RFC 4648 |
| MatchCrankLog.ParseFindsFirst | src/handlers/match_cranker.rs:243-261 | `None` exactly when no line qualifies, otherwise the first qualifying line decides |
| MatchCrankLog.LineRoundTrip | src/handlers/match_cranker.rs:269-280 | the emitted line of any record, with any keys and fill count, reads back its fill count |
| MatchCrankLog.LogRoundTrip | src/handlers/match_cranker.rs:243-261 | the same inside any log whose earlier lines carry no record |
| MatchCrankLog.MoreChunksDoNotMatter | src/handlers/match_cranker.rs:249-251 | further space-separated chunks on the line change nothing |
| MatchCrankLog.OtherRecordsAreIgnored | src/handlers/match_cranker.rs:255-257 | a record of another event, or one cut short, is never read as a fill count |

## Left out

- The on-chain program, marginfi and Switchboard code, tree iteration and instruction builders: foreign code; trees are given sequences, instructions opaque values.
- Transaction signing, address derivation, keypairs, the Switchboard gateway: their results are parameters or arbitrary choices.
- The floating-point LTV prefilter (`src/handlers/liquidator.rs:514-520`): an uninterpreted predicate of outstanding and principal.
- The tick loops of the promoter and the match cranker: the guard-and-count loop of the claimer again, with a pause test and, for the cranker, a rate test in front.
- The curator fee claimer: no sim gate, and the same in-flight guard.
- The tick loop of the liquidator over markets: a pause test and a sum around `ScanMarket`.
- The fields of the vault-settle account list: derived addresses; only the vault itself and the decision to pass it are kept.
- The balance loop that flips the low-balance flag: the flag is moved by the environment at any moment.
- Health server, metrics names, logging, environment parsing, panics.
- Supervisor.Supervise: the endless loop is cut after any given number of rounds; the supervisor machine beside it has no such bound.
- Supervisor.SlicedSleep: time is in whole milliseconds, and a sleep lasts at least as long as asked for.
- RpcClient.Rpc.SendWithRetry: the half-second pause between attempts has no event; the environment may move there anyway.
- MarketCache.ChainReader.ListMarkets: one call against an environment that may do what the interleaved machine allows; the machine is where several calls run side by side.
- Liquidator.LiquidatorHandler.ScanMarket: other ticks that share the in-flight set are not interleaved here; the supervisor awaits each tick before the next (`src/handlers/mod.rs:75`), and `Inflight.dfy` is where ticks overlap.
- Claimer.ClaimerHandler.Tick: the same.

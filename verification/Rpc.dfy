/** The client of `rpc.rs`: simulate, and send with retries. Each method also returns, as a ghost, the events it caused. */
module RpcClient {
  import opened Prelude
  import opened Network
  import opened RetryMachine

  /** Compute-unit limit of the v0 path. */
  const V0_COMPUTE_UNIT_LIMIT: u32 := 1_400_000

  datatype Simulation = Simulation(ok: bool, logs: seq<string>)

  /** `tr` is `e`, after environment moves. */
  ghost predicate Emits(tr: seq<Event>, e: Event) {
    tr != [] && tr[|tr| - 1] == e && AllFromEnvironment(tr[..|tr| - 1]) && !e.FromEnvironment()
  }

  /** Exit reasons only the v0 loop has. */
  predicate V0Only(e: Event) {
    e == TxSigned(Err(NotCompiled)) || e == TxSigned(Err(NotSigned))
  }

  ghost predicate LegacyTrace(tr: seq<Event>) {
    forall e <- tr :: !V0Only(e)
  }

  /** A call under way: its trace so far and the flag; `v0` says which of the two loops runs it. */
  datatype Call = Call(bundle: Bundle, before: bool, tr: seq<Event>, stop: bool, v0: bool) {
    function Then(more: seq<Event>, after: bool): Call {
      this.(tr := tr + more, stop := after)
    }
  }

  /** The trace takes the call to `stage` with `last_sig` as `last`, and has no event of the other loop. */
  ghost predicate At(call: Call, stage: Stage, last: Option<Signature>) {
    var end := Run(Start(call.bundle, call.before), call.tr);
    && end.Some? && end.value.stage == stage && end.value.last == last && end.value.stop == call.stop
    && (call.v0 || LegacyTrace(call.tr))
  }

  /** `more` is `e` after environment moves that leave the flag at `after`. */
  ghost predicate Adds(call: Call, more: seq<Event>, e: Event, after: bool) {
    Emits(more, e) && after == (call.stop || StopRaised in more)
  }

  /** Taking up one emitted event: the environment moves first, then the call does. */
  lemma Follow(call: Call, stage: Stage, last: Option<Signature>, more: seq<Event>, e: Event, after: bool)
    requires At(call, stage, last) && Adds(call, more, e, after) && (call.v0 || !V0Only(e))
    requires Advance(Control(stage, last), call.bundle, after, e).Some?
    ensures var next := Advance(Control(stage, last), call.bundle, after, e).value;
            At(call.Then(more, after), next.stage, next.last)
  {
    var start := Start(call.bundle, call.before);
    var moves := more[..|more| - 1];
    RunHasOwnEvents(start, call.tr);
    RunEnvironment(Run(start, call.tr).value, moves);
    assert more == moves + [e];
    RunConcat(start, call.tr, more);
  }

  lemma FollowStop(call: Call, a: nat, last: Option<Signature>, more: seq<Event>, after: bool)
    requires At(call, Top(a), last) && Adds(call, more, StopRead(after), after)
    ensures At(call.Then(more, after),
               if after then Finished(Err(Shutdown)) else if last.Some? then Querying(a) else Fetching(a), last)
  {
    Follow(call, Top(a), last, more, StopRead(after), after);
  }

  lemma FollowStatus(call: Call, a: nat, sig: Signature, reply: StatusReply, more: seq<Event>, after: bool)
    requires At(call, Querying(a), Some(sig)) && Adds(call, more, StatusQueried(sig, reply), after)
    ensures At(call.Then(more, after), if reply.Present? then Finished(Ok(sig)) else Fetching(a), Some(sig))
  {
    Follow(call, Querying(a), Some(sig), more, StatusQueried(sig, reply), after);
  }

  lemma FollowBlockhash(call: Call, a: nat, last: Option<Signature>, ok: bool, more: seq<Event>, after: bool)
    requires At(call, Fetching(a), last) && Adds(call, more, BlockhashFetched(ok), after)
    ensures At(call.Then(more, after), if ok then Signing(a) else Finished(Err(BlockhashUnavailable)), last)
  {
    Follow(call, Fetching(a), last, more, BlockhashFetched(ok), after);
  }

  lemma FollowSigning(
    call: Call, a: nat, last: Option<Signature>, outcome: Result<Signature, Fault>, more: seq<Event>, after: bool)
    requires At(call, Signing(a), last) && Adds(call, more, TxSigned(outcome), after)
    requires (call.v0 || !V0Only(TxSigned(outcome))) && (outcome.Err? ==> SigningFault(outcome.error))
    ensures At(call.Then(more, after), AfterSigning(a, outcome), last)
  {
    Follow(call, Signing(a), last, more, TxSigned(outcome), after);
  }

  lemma FollowSubmit(call: Call, a: nat, last: Option<Signature>, sig: Signature, more: seq<Event>, after: bool)
    requires At(call, Ready(a, sig), last) && Adds(call, more, Submitted(sig, call.bundle), after)
    ensures At(call.Then(more, after), Awaiting(a, sig), last)
  {
    Follow(call, Ready(a, sig), last, more, Submitted(sig, call.bundle), after);
  }

  lemma FollowAnswer(
    call: Call, a: nat, last: Option<Signature>, sig: Signature, answer: SendReply, more: seq<Event>, after: bool)
    requires At(call, Awaiting(a, sig), last) && Adds(call, more, SendReturned(answer), after)
    ensures At(call.Then(more, after), AfterSend(a, sig, answer).stage, AfterSend(a, sig, answer).last)
  {
    Follow(call, Awaiting(a, sig), last, more, SendReturned(answer), after);
  }

  /** `tr` is a complete run of the retry machine for `bundle`, ending in `result`. */
  ghost predicate CompleteRun(
    bundle: Bundle, stopBefore: bool, tr: seq<Event>, result: Result<Signature, Fault>, stopAfter: bool)
  {
    var end := Run(Start(bundle, stopBefore), tr);
    end.Some? && end.value.stage == Finished(result) && end.value.stop == stopAfter
  }

  lemma Begin(bundle: Bundle, stop: bool, v0: bool) returns (call: Call)
    ensures call == Call(bundle, stop, [], stop, v0) && At(call, Top(0), None)
  {
    call := Call(bundle, stop, [], stop, v0);
  }

  lemma Complete(call: Call, result: Result<Signature, Fault>, last: Option<Signature>)
    requires At(call, Finished(result), last)
    ensures CompleteRun(call.bundle, call.before, call.tr, result, call.stop) && (call.v0 || LegacyTrace(call.tr))
  {
  }

  /** The loop never runs out: `unreachable!()` is unreachable. */
  lemma NeverRunsOut(call: Call, last: Option<Signature>)
    ensures !At(call, Top(MAX_ATTEMPTS), last)
  {
    var start := Start(call.bundle, call.before);
    if Run(start, call.tr).Some? {
      RunKeepsInv(start, call.tr);
    }
  }

  /** A send: a complete run of the retry machine, then its outcome counted. */
  ghost predicate SendTrace(
    tag: string, bundle: Bundle, stopBefore: bool, tr: seq<Event>, result: Result<Signature, Fault>, stopAfter: bool)
  {
    && tr != [] && tr[|tr| - 1] == Counted(tag, bundle, result.Ok?)
    && CompleteRun(bundle, stopBefore, tr[..|tr| - 1], result, stopAfter)
  }

  /** A simulation: answered or not. */
  ghost predicate SimTrace(bundle: Bundle, tr: seq<Event>, result: Result<Simulation, Fault>) {
    match result
    case Ok(sim) => Emits(tr, Simulated(bundle, sim.ok, sim.logs))
    case Err(fault) => fault.Unreachable? && Emits(tr, Unanswered)
  }

  class Rpc {
    const priorityFee: u64
    const computeUnitLimit: u32
    /** The shutdown flag; other tasks raise it. */
    var stop: bool

    constructor (priorityFee: u64, computeUnitLimit: u32)
      ensures this.priorityFee == priorityFee && this.computeUnitLimit == computeUnitLimit && !stop
    {
      this.priorityFee := priorityFee;
      this.computeUnitLimit := computeUnitLimit;
      stop := false;
    }

    function PriorityFeePreamble(cuLimit: u32): seq<Instruction> {
      [SetComputeUnitLimit(cuLimit)] + if priorityFee > 0 then [SetComputeUnitPrice(priorityFee)] else []
    }

    function LegacyBundle(ixs: seq<Instruction>): Bundle {
      Bundle(PriorityFeePreamble(computeUnitLimit) + ixs, [])
    }

    function V0Bundle(ixs: seq<Instruction>, luts: seq<Pubkey>): Bundle {
      Bundle(PriorityFeePreamble(V0_COMPUTE_UNIT_LIMIT) + ixs, luts)
    }

    /** Any number of moves of the rest of the world. */
    method Interfere() returns (ghost tr: seq<Event>)
      modifies this`stop
      ensures AllFromEnvironment(tr)
      ensures stop == (old(stop) || StopRaised in tr)
    {
      ghost var moves: seq<Event> := *;
      tr := if AllFromEnvironment(moves) && StopRaised !in moves then moves else [];
      var raised: bool := *;
      if raised {
        stop := true;
        tr := tr + [StopRaised];
      }
    }

    method Stopped() returns (stopped: bool, ghost tr: seq<Event>)
      modifies this`stop
      ensures stopped == stop == (old(stop) || StopRaised in tr)
      ensures Emits(tr, StopRead(stopped))
    {
      tr := Interfere();
      stopped := stop;
      tr := tr + [StopRead(stopped)];
    }

    method GetSignatureStatus(sig: Signature) returns (reply: StatusReply, ghost tr: seq<Event>)
      modifies this`stop
      ensures stop == (old(stop) || StopRaised in tr)
      ensures Emits(tr, StatusQueried(sig, reply))
    {
      tr := Interfere();
      reply := *;
      tr := tr + [StatusQueried(sig, reply)];
    }

    method GetLatestBlockhash() returns (ok: bool, ghost tr: seq<Event>)
      modifies this`stop
      ensures stop == (old(stop) || StopRaised in tr)
      ensures Emits(tr, BlockhashFetched(ok))
    {
      tr := Interfere();
      ok := *;
      tr := tr + [BlockhashFetched(ok)];
    }

    /** `Transaction::new_signed_with_payer`: compiling and signing return no error. */
    method SignLegacy() returns (outcome: Result<Signature, Fault>, ghost tr: seq<Event>)
      modifies this`stop
      ensures stop == (old(stop) || StopRaised in tr)
      ensures Emits(tr, TxSigned(outcome)) && (outcome.Err? ==> outcome.error.Unsigned?)
    {
      tr := Interfere();
      var sig: Option<Signature> := *;
      outcome := if sig.Some? then Ok(sig.value) else Err(Unsigned);
      tr := tr + [TxSigned(outcome)];
    }

    /** `try_compile`, `try_new` and the first signature, each of which can fail. */
    method CompileAndSign() returns (outcome: Result<Signature, Fault>, ghost tr: seq<Event>)
      modifies this`stop
      ensures stop == (old(stop) || StopRaised in tr)
      ensures Emits(tr, TxSigned(outcome)) && (outcome.Err? ==> SigningFault(outcome.error))
    {
      tr := Interfere();
      outcome := *;
      if outcome.Err? && !SigningFault(outcome.error) {
        outcome := Err(Unsigned);
      }
      tr := tr + [TxSigned(outcome)];
    }

    method Submit(sig: Signature, bundle: Bundle) returns (ghost tr: seq<Event>)
      modifies this`stop
      ensures stop == (old(stop) || StopRaised in tr)
      ensures Emits(tr, Submitted(sig, bundle))
    {
      tr := Interfere();
      tr := tr + [Submitted(sig, bundle)];
    }

    method Confirm(sig: Signature) returns (reply: SendReply, ghost tr: seq<Event>)
      modifies this`stop
      ensures stop == (old(stop) || StopRaised in tr)
      ensures Emits(tr, SendReturned(reply))
    {
      tr := Interfere();
      reply := *;
      tr := tr + [SendReturned(reply)];
    }

    /** The top of both loops: the stop flag, then the status of the previous signature. */
    method CheckFirst(ghost call: Call, ghost attempt: nat, last: Option<Signature>)
      returns (verdict: Option<Result<Signature, Fault>>, ghost after: Call)
      requires At(call, Top(attempt), last) && call.stop == stop
      modifies this`stop
      ensures after == call.(tr := after.tr, stop := stop)
      ensures At(after, if verdict.Some? then Finished(verdict.value) else Fetching(attempt), last)
    {
      ghost var t;
      var stopped;
      stopped, t := Stopped();
      FollowStop(call, attempt, last, t, stop);
      after := call.Then(t, stop);
      if stopped {
        return Some(Err(Shutdown)), after;
      }
      if last.Some? {
        var status;
        status, t := GetSignatureStatus(last.value);
        FollowStatus(after, attempt, last.value, status, t, stop);
        after := after.Then(t, stop);
        if status.Present? {
          return Some(Ok(last.value)), after;
        }
      }
      return None, after;
    }

    method FetchBlockhash(ghost call: Call, ghost attempt: nat, ghost last: Option<Signature>)
      returns (ok: bool, ghost after: Call)
      requires At(call, Fetching(attempt), last) && call.stop == stop
      modifies this`stop
      ensures after == call.(tr := after.tr, stop := stop)
      ensures At(after, if ok then Signing(attempt) else Finished(Err(BlockhashUnavailable)), last)
    {
      ghost var t;
      ok, t := GetLatestBlockhash();
      FollowBlockhash(call, attempt, last, ok, t, stop);
      after := call.Then(t, stop);
    }

    /** `send_and_confirm_transaction`: the transaction goes out, and some time later the call returns. */
    method SendAndConfirm(ghost call: Call, ghost attempt: nat, ghost last: Option<Signature>, sig: Signature, bundle: Bundle)
      returns (answer: SendReply, ghost after: Call)
      requires At(call, Ready(attempt, sig), last) && call.stop == stop && call.bundle == bundle
      modifies this`stop
      ensures after == call.(tr := after.tr, stop := stop)
      ensures var next := AfterSend(attempt, sig, answer); At(after, next.stage, next.last)
    {
      ghost var t := Submit(sig, bundle);
      FollowSubmit(call, attempt, last, sig, t, stop);
      after := call.Then(t, stop);
      answer, t := Confirm(sig);
      FollowAnswer(after, attempt, last, sig, answer, t, stop);
      after := after.Then(t, stop);
    }

    method SendWithRetry(bundle: Bundle) returns (result: Result<Signature, Fault>, ghost tr: seq<Event>)
      modifies this`stop
      ensures CompleteRun(bundle, old(stop), tr, result, stop)
      ensures LegacyTrace(tr)
    {
      ghost var call := Begin(bundle, stop, false);
      var last: Option<Signature> := None;
      for attempt := 0 to MAX_ATTEMPTS
        invariant At(call, Top(attempt), last)
        invariant call.bundle == bundle && call.before == old(stop) && call.stop == stop && call.v0 == false
      {
        var verdict;
        verdict, call := CheckFirst(call, attempt, last);
        if verdict.Some? {
          Complete(call, verdict.value, last);
          return verdict.value, call.tr;
        }
        var ok;
        ok, call := FetchBlockhash(call, attempt, last);
        if !ok {
          Complete(call, Err(BlockhashUnavailable), last);
          return Err(BlockhashUnavailable), call.tr;
        }
        ghost var t;
        var outcome;
        outcome, t := SignLegacy();
        FollowSigning(call, attempt, last, outcome, t, stop);
        call := call.Then(t, stop);
        if outcome.Err? {
          Complete(call, outcome, last);
          return outcome, call.tr;
        }
        var sig := outcome.value;
        var answer;
        answer, call := SendAndConfirm(call, attempt, last, sig, bundle);
        if answer.Confirmed? {
          Complete(call, Ok(sig), None);
          return Ok(sig), call.tr;
        }
        last := Some(sig);
        if !IsTransient(answer.error) || attempt == MAX_ATTEMPTS - 1 {
          Complete(call, Err(Rejected(answer.error)), last);
          return Err(Rejected(answer.error)), call.tr;
        }
      }
      NeverRunsOut(call, last);
      assert false;
    }

    /** The v0 sibling: the same loop, but compiling and signing can fail. */
    method SendV0WithRetry(bundle: Bundle) returns (result: Result<Signature, Fault>, ghost tr: seq<Event>)
      modifies this`stop
      ensures CompleteRun(bundle, old(stop), tr, result, stop)
    {
      ghost var call := Begin(bundle, stop, true);
      var last: Option<Signature> := None;
      for attempt := 0 to MAX_ATTEMPTS
        invariant At(call, Top(attempt), last)
        invariant call.bundle == bundle && call.before == old(stop) && call.stop == stop && call.v0 == true
      {
        var verdict;
        verdict, call := CheckFirst(call, attempt, last);
        if verdict.Some? {
          Complete(call, verdict.value, last);
          return verdict.value, call.tr;
        }
        var ok;
        ok, call := FetchBlockhash(call, attempt, last);
        if !ok {
          Complete(call, Err(BlockhashUnavailable), last);
          return Err(BlockhashUnavailable), call.tr;
        }
        ghost var t;
        var outcome;
        outcome, t := CompileAndSign();
        FollowSigning(call, attempt, last, outcome, t, stop);
        call := call.Then(t, stop);
        if outcome.Err? {
          Complete(call, outcome, last);
          return outcome, call.tr;
        }
        var sig := outcome.value;
        var answer;
        answer, call := SendAndConfirm(call, attempt, last, sig, bundle);
        if answer.Confirmed? {
          Complete(call, Ok(sig), None);
          return Ok(sig), call.tr;
        }
        last := Some(sig);
        if !IsTransient(answer.error) || attempt == MAX_ATTEMPTS - 1 {
          Complete(call, Err(Rejected(answer.error)), last);
          return Err(Rejected(answer.error)), call.tr;
        }
      }
      NeverRunsOut(call, last);
      assert false;
    }

    /** A list as it goes out: the compute-unit limit, the price if there is one, and then the caller's own instructions. */
    predicate GoesOutAs(sent: seq<Instruction>, limit: u32, ixs: seq<Instruction>) {
      && |sent| == |ixs| + (if priorityFee > 0 then 2 else 1)
      && sent[0] == SetComputeUnitLimit(limit)
      && (priorityFee > 0 ==> sent[1] == SetComputeUnitPrice(priorityFee))
      && sent[|sent| - |ixs|..] == ixs
    }

    /** `send_signed_labeled`: preamble, retries, then the submission counter. */
    method SendSignedLabeled(tag: string, ixs: seq<Instruction>, signers: seq<Pubkey>)
      returns (result: Result<Signature, Fault>, ghost tr: seq<Event>)
      modifies this`stop
      ensures if signers == [] then result == Err(NoSigners) && tr == []
              else SendTrace(tag, LegacyBundle(ixs), old(stop), tr, result, stop)
      ensures forall e <- tr :: e.Submitted? ==> GoesOutAs(e.bundle.ixs, computeUnitLimit, ixs) && e.bundle.luts == []
    {
      if signers == [] {
        return Err(NoSigners), [];
      }
      var bundle := LegacyBundle(ixs);
      ghost var before := stop;
      result, tr := SendWithRetry(bundle);
      RunHasOwnEvents(Start(bundle, before), tr);
      tr := tr + [Counted(tag, bundle, result.Ok?)];
      assert tr[..|tr| - 1] + [tr[|tr| - 1]] == tr;
    }

    /** `send_signed_v0_labeled`: the same over the v0 loop, with the fixed v0 limit. */
    method SendSignedV0Labeled(tag: string, ixs: seq<Instruction>, luts: seq<Pubkey>, signers: seq<Pubkey>)
      returns (result: Result<Signature, Fault>, ghost tr: seq<Event>)
      modifies this`stop
      ensures if signers == [] then result == Err(NoSigners) && tr == []
              else SendTrace(tag, V0Bundle(ixs, luts), old(stop), tr, result, stop)
      ensures forall e <- tr :: e.Submitted? ==> GoesOutAs(e.bundle.ixs, 1_400_000, ixs) && e.bundle.luts == luts
    {
      if signers == [] {
        return Err(NoSigners), [];
      }
      var bundle := V0Bundle(ixs, luts);
      ghost var before := stop;
      result, tr := SendV0WithRetry(bundle);
      RunHasOwnEvents(Start(bundle, before), tr);
      tr := tr + [Counted(tag, bundle, result.Ok?)];
      assert tr[..|tr| - 1] + [tr[|tr| - 1]] == tr;
    }

    /** `simulate_v0`: the instructions as given. */
    method SimulateV0(ixs: seq<Instruction>, luts: seq<Pubkey>)
      returns (result: Result<Simulation, Fault>, ghost tr: seq<Event>)
      modifies this`stop
      ensures SimTrace(Bundle(ixs, luts), tr, result)
    {
      tr := Interfere();
      var answered: bool, sim: Simulation := *, *;
      if !answered {
        return Err(Unreachable), tr + [Unanswered];
      }
      return Ok(sim), tr + [Simulated(Bundle(ixs, luts), sim.ok, sim.logs)];
    }

    /** `simulate`: with the preamble of the legacy send path in front. */
    method Simulate(ixs: seq<Instruction>) returns (result: Result<Simulation, Fault>, ghost tr: seq<Event>)
      modifies this`stop
      ensures SimTrace(LegacyBundle(ixs), tr, result)
      ensures forall e <- tr :: e.Simulated? ==> GoesOutAs(e.bundle.ixs, computeUnitLimit, ixs) && e.bundle.luts == []
    {
      result, tr := SimulateV0(PriorityFeePreamble(computeUnitLimit) + ixs, []);
      assert tr == tr[..|tr| - 1] + [tr[|tr| - 1]];
    }

    /** `get_account_data`: a missing account and an empty one both read as nothing. */
    method GetAccountData(key: Pubkey) returns (result: Result<Option<seq<byte>>, Fault>, ghost tr: seq<Event>)
      modifies this`stop
      ensures result.Ok? ==> Emits(tr, AccountRead(key, result.value)) && result.value != Some([])
      ensures result.Err? ==> result.error.Unreachable? && Emits(tr, Unanswered)
    {
      tr := Interfere();
      var answered: bool, data: Option<seq<byte>> := *, *;
      if !answered {
        return Err(Unreachable), tr + [Unanswered];
      }
      var held := if data == Some([]) then None else data;
      return Ok(held), tr + [AccountRead(key, held)];
    }
  }
}

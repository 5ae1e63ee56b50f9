/** Traces of sim-gated submission: nothing is submitted that was not simulated first. */
module SimGate {
  import opened Prelude
  import opened Network
  import opened RetryMachine
  import opened RpcClient

  /** Event `i` is a successful simulation of what event `j` submits; the submission adds `preamble` in front. */
  ghost predicate Clears(preamble: seq<Instruction>, tr: seq<Event>, i: nat, j: nat) {
    && i < j < |tr|
    && tr[i].Simulated? && tr[i].ok && tr[j].Submitted?
    && tr[j].bundle == Bundle(preamble + tr[i].bundle.ixs, tr[i].bundle.luts)
  }

  ghost predicate Gated(preamble: seq<Instruction>, tr: seq<Event>) {
    forall j | 0 <= j < |tr| && tr[j].Submitted? :: exists i :: Clears(preamble, tr, i, j)
  }

  /** Neither a submission nor a counted outcome. */
  ghost predicate Quiet(tr: seq<Event>) {
    forall e <- tr :: !e.Submitted? && !e.Counted?
  }

  /** Submissions counted as successful. */
  function Successes(tr: seq<Event>): nat {
    if tr == [] then 0
    else
      var n := |tr| - 1;
      Successes(tr[..n]) + if tr[n].Counted? && tr[n].ok then 1 else 0
  }

  lemma GatedConcat(preamble: seq<Instruction>, a: seq<Event>, b: seq<Event>)
    requires Gated(preamble, a) && Gated(preamble, b)
    ensures Gated(preamble, a + b)
  {
    var tr := a + b;
    forall j | 0 <= j < |tr| && tr[j].Submitted?
      ensures exists i :: Clears(preamble, tr, i, j)
    {
      if j < |a| {
        var i :| Clears(preamble, a, i, j);
        assert Clears(preamble, tr, i, j);
      } else {
        var i :| Clears(preamble, b, i, j - |a|);
        assert Clears(preamble, tr, |a| + i, j);
      }
    }
  }

  lemma {:induction false} SuccessesConcat(a: seq<Event>, b: seq<Event>)
    ensures Successes(a + b) == Successes(a) + Successes(b)
  {
    if b == [] {
      assert a + b == a;
    } else {
      var n := |b| - 1;
      SuccessesConcat(a, b[..n]);
      assert (a + b)[..|a + b| - 1] == a + b[..n];
    }
  }

  lemma {:induction false} NoSuccesses(tr: seq<Event>)
    requires forall e <- tr :: !e.Counted?
    ensures Successes(tr) == 0
  {
    if tr != [] {
      var n := |tr| - 1;
      assert tr[n] in tr;
      NoSuccesses(tr[..n]);
    }
  }

  lemma SimIsQuiet(bundle: Bundle, tr: seq<Event>, result: Result<Simulation, Fault>)
    requires SimTrace(bundle, tr, result)
    ensures Quiet(tr) && forall e <- tr :: !e.AccountRead?
    ensures forall e <- tr :: e.Simulated? ==> result.Ok? && e == Simulated(bundle, result.value.ok, result.value.logs)
    ensures result.Ok? ==> Simulated(bundle, result.value.ok, result.value.logs) in tr
    ensures Unanswered in tr <==> result.Err?
  {
    assert tr == tr[..|tr| - 1] + [tr[|tr| - 1]];
  }

  lemma SendParts(tag: string, bundle: Bundle, s: bool, tr: seq<Event>, result: Result<Signature, Fault>, t: bool)
    requires SendTrace(tag, bundle, s, tr, result, t)
    ensures forall e <- tr :: (e.Submitted? || e.Counted? ==> e.bundle == bundle)
    ensures forall e <- tr :: !e.Simulated? && !e.AccountRead? && !e.Unanswered?
    ensures Successes(tr) == if result.Ok? then 1 else 0
    ensures Counted(tag, bundle, result.Ok?) in tr
    ensures forall e <- tr :: e.Counted? ==> e.ok == result.Ok?
  {
    var own := tr[..|tr| - 1];
    RunHasOwnEvents(Start(bundle, s), own);
    NoSuccesses(own);
    assert tr == own + [tr[|tr| - 1]];
  }

  lemma QuietIsGated(preamble: seq<Instruction>, tr: seq<Event>)
    requires Quiet(tr)
    ensures Gated(preamble, tr) && Successes(tr) == 0 && OneSend(tr)
  {
    NoSuccesses(tr);
    forall j | 0 <= j < |tr|
      ensures !tr[j].Submitted?
    {
      assert tr[j] in tr;
    }
  }

  /** One send call: what it sent, the flag before and after, and its result. */
  datatype Send = Send(tag: string, bundle: Bundle, before: bool, result: Result<Signature, Fault>, after: bool)

  /** From `cut` on the trace is that send call, a complete run of the retry machine; before it, it is quiet. */
  ghost predicate SendsAt(tr: seq<Event>, cut: nat, send: Send) {
    cut <= |tr| && Quiet(tr[..cut]) && SendTrace(send.tag, send.bundle, send.before, tr[cut..], send.result, send.after)
  }

  /** No send call, or one and nothing after it. */
  ghost predicate OneSend(tr: seq<Event>) {
    Quiet(tr) || exists cut: nat, send :: SendsAt(tr, cut, send)
  }

  lemma QuietThenOneSend(a: seq<Event>, b: seq<Event>)
    requires Quiet(a) && OneSend(b)
    ensures OneSend(a + b)
  {
    if !Quiet(b) {
      var cut: nat, send :| SendsAt(b, cut, send);
      assert (a + b)[..|a| + cut] == a + b[..cut] && (a + b)[|a| + cut..] == b[cut..];
      assert SendsAt(a + b, |a| + cut, send);
    }
  }

  /** The parts of a trace with a send call. */
  lemma PartsOfOneSend(tr: seq<Event>) returns (quiet: seq<Event>, send: Send, own: seq<Event>, counted: Event)
    requires OneSend(tr) && !Quiet(tr)
    ensures tr == quiet + own + [counted] && Quiet(quiet) && counted.Counted?
    ensures Run(Start(send.bundle, send.before), own).Some?
  {
    var cut: nat;
    cut, send :| SendsAt(tr, cut, send);
    quiet, own, counted := tr[..cut], tr[cut..][..|tr| - cut - 1], tr[|tr| - 1];
  }

  /**
  One attempt of a handler: gated, with at most one send call; its verdict `Ok(true)` is exactly one
  successful send, and `Ok(false)` submitted nothing.
  */
  ghost predicate Attempt(preamble: seq<Instruction>, tr: seq<Event>, verdict: Result<bool, Fault>) {
    && Gated(preamble, tr)
    && OneSend(tr)
    && Successes(tr) == (if verdict == Ok(true) then 1 else 0)
    && (verdict == Ok(false) ==> Quiet(tr))
  }

  lemma QuietThenAttempt(preamble: seq<Instruction>, quiet: seq<Event>, tr: seq<Event>, verdict: Result<bool, Fault>)
    requires Quiet(quiet) && Attempt(preamble, tr, verdict)
    ensures Attempt(preamble, quiet + tr, verdict)
  {
    QuietIsGated(preamble, quiet);
    GatedConcat(preamble, quiet, tr);
    SuccessesConcat(quiet, tr);
    QuietThenOneSend(quiet, tr);
  }

  function VerdictOf(result: Result<Signature, Fault>): Result<bool, Fault> {
    if result.Ok? then Ok(true) else Err(result.error)
  }

  /** The events of a send call, as far as the layers above look at them. */
  ghost predicate IsSend(send: seq<Event>, bundle: Bundle, verdict: Result<bool, Fault>) {
    && (forall e <- send :: e.Submitted? || e.Counted? ==> e.bundle == bundle)
    && (forall e <- send :: !e.Simulated? && !e.AccountRead? && !e.Unanswered?)
    && (forall e <- send :: e.Counted? ==> e.ok == verdict.Ok?)
    && exists e <- send :: e.Counted?
  }

  /** A send after a quiet stretch that simulated the same instructions successfully. */
  lemma SendIsGated(
    preamble: seq<Instruction>, before: seq<Event>, sim: Bundle, logs: seq<string>,
    tag: string, bundle: Bundle, s: bool, send: seq<Event>, result: Result<Signature, Fault>, t: bool)
    requires Quiet(before) && Simulated(sim, true, logs) in before
    requires bundle == Bundle(preamble + sim.ixs, sim.luts)
    requires SendTrace(tag, bundle, s, send, result, t)
    ensures Attempt(preamble, before + send, VerdictOf(result))
    ensures IsSend(send, bundle, VerdictOf(result))
  {
    assert (before + send)[..|before|] == before && (before + send)[|before|..] == send;
    assert SendsAt(before + send, |before|, Send(tag, bundle, s, result, t));
    SendParts(tag, bundle, s, send, result, t);
    NoSuccesses(before);
    SuccessesConcat(before, send);
    var tr := before + send;
    var i :| 0 <= i < |before| && before[i] == Simulated(sim, true, logs);
    assert forall j | 0 <= j < |before| :: before[j] in before;
    forall j | 0 <= j < |tr| && tr[j].Submitted?
      ensures exists i :: Clears(preamble, tr, i, j)
    {
      assert |before| <= j && send[j - |before|] in send;
      assert Clears(preamble, tr, i, j);
    }
  }

  /** The end of a v0 attempt: the list that `before` simulated successfully is sent. */
  method SubmitV0(
    rpc: Rpc, tag: string, ixs: seq<Instruction>, luts: seq<Pubkey>, feePayer: Pubkey,
    ghost before: seq<Event>, ghost logs: seq<string>)
    returns (verdict: Result<bool, Fault>, ghost send: seq<Event>)
    requires Quiet(before) && Simulated(Bundle(ixs, luts), true, logs) in before
    modifies rpc`stop
    ensures verdict != Ok(false) && IsSend(send, rpc.V0Bundle(ixs, luts), verdict)
    ensures Attempt(rpc.PriorityFeePreamble(V0_COMPUTE_UNIT_LIMIT), before + send, verdict)
  {
    ghost var s := rpc.stop;
    var sent;
    sent, send := rpc.SendSignedV0Labeled(tag, ixs, luts, [feePayer]);
    SendIsGated(
      rpc.PriorityFeePreamble(V0_COMPUTE_UNIT_LIMIT), before, Bundle(ixs, luts), logs,
      tag, rpc.V0Bundle(ixs, luts), s, send, sent, rpc.stop);
    verdict := VerdictOf(sent);
  }

  /** A request went unanswered, or a send failed. */
  ghost predicate NodeFailed(tr: seq<Event>) {
    Unanswered in tr || exists e <- tr :: e.Counted? && !e.ok
  }

  /** Everything an attempt submits is one bundle. */
  ghost predicate SubmitsOnly(tr: seq<Event>, bundle: Bundle) {
    forall e <- tr :: e.Submitted? ==> e.bundle == bundle
  }

  /** A trace cut into one segment per item worked. */
  function Flatten(segments: seq<seq<Event>>): seq<Event> {
    if segments == [] then [] else Flatten(segments[..|segments| - 1]) + segments[|segments| - 1]
  }

  lemma FlattenAppend(segments: seq<seq<Event>>, segment: seq<Event>)
    ensures Flatten(segments + [segment]) == Flatten(segments) + segment
  {
    assert (segments + [segment])[..|segments|] == segments;
  }

  /** A cut trace around its segment `k`. */
  lemma {:induction false} FlattenAround(segments: seq<seq<Event>>, k: nat)
    requires k < |segments|
    ensures Flatten(segments) == Flatten(segments[..k]) + segments[k] + Flatten(segments[k + 1..])
  {
    var n := |segments| - 1;
    if k == n {
      assert segments[k + 1..] == [];
    } else {
      FlattenAround(segments[..n], k);
      assert segments[..n][..k] == segments[..k];
      assert segments[k + 1..][..n - k - 1] == segments[..n][k + 1..];
    }
  }

  /** An event of a cut trace is of one of its segments. */
  lemma {:induction false} SegmentOf(segments: seq<seq<Event>>, e: Event) returns (k: nat)
    requires e in Flatten(segments)
    ensures k < |segments| && e in segments[k]
  {
    var n := |segments| - 1;
    if e in segments[n] {
      k := n;
    } else {
      k := SegmentOf(segments[..n], e);
    }
  }
}

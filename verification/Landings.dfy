/**
Which transactions land, over traces longer than one call: what the node and the chain promise is
stated of the trace, and a call inside it keeps its promise of one landing for good.
*/
module Landings {
  import opened Prelude
  import opened Network
  import opened RetryMachine

  function LandedIn(tr: seq<Event>): set<Signature> {
    if tr == [] then {}
    else
      var n := |tr| - 1;
      if tr[n].Landed? then LandedIn(tr[..n]) + {tr[n].sig} else LandedIn(tr[..n])
  }

  /** Signatures whose status check did not report them present, and that were not submitted again since. */
  function PassedOver(tr: seq<Event>): set<Signature> {
    if tr == [] then {}
    else
      var n := |tr| - 1;
      match tr[n]
      case StatusQueried(sig, reply) => if reply.Present? then PassedOver(tr[..n]) else PassedOver(tr[..n]) + {sig}
      case Submitted(sig, _) => PassedOver(tr[..n]) - {sig}
      case _ => PassedOver(tr[..n])
  }

  /** Status queries are answered truthfully, and what was passed over does not land unless submitted again. */
  ghost predicate Truthful(tr: seq<Event>) {
    tr != [] ==>
      var n := |tr| - 1;
      && Truthful(tr[..n])
      && (tr[n].Landed? ==> tr[n].sig !in PassedOver(tr[..n]))
      && (tr[n].StatusQueried? ==> tr[n].reply == if tr[n].sig in LandedIn(tr[..n]) then Present else Absent)
  }

  /** A signature signs one instruction list. */
  ghost predicate SignaturesIdentify(tr: seq<Event>) {
    forall e, f | e in tr && f in tr && e.Submitted? && f.Submitted? && e.sig == f.sig :: e.bundle == f.bundle
  }

  lemma TruthfulPrefix(a: seq<Event>, b: seq<Event>)
    requires Truthful(a + b)
    ensures Truthful(a)
    decreases |b|
  {
    if b == [] {
      assert a + b == a;
    } else {
      var n := |b| - 1;
      assert (a + b)[..|a + b| - 1] == a + b[..n];
      TruthfulPrefix(a, b[..n]);
    }
  }

  lemma Grow(tr: seq<Event>, e: Event)
    ensures (tr + [e])[..|tr + [e]| - 1] == tr && (tr + [e])[|tr + [e]| - 1] == e
  {
  }

  // ---- A call inside a trace ----

  /** The call's state with the landings and the checks of the whole trace so far. */
  function Within(m: Machine, tr: seq<Event>): Machine {
    m.(landed := LandedIn(tr), passedOver := PassedOver(tr))
  }

  lemma StepWithin(m: Machine, tr: seq<Event>, e: Event)
    requires Step(m, e).Some?
    ensures Step(Within(m, tr), e) == Some(Within(Step(m, e).value, tr + [e]))
  {
    Grow(tr, e);
  }

  /** Wherever in a truthful trace a call is made, its landed signatures are not passed over. */
  lemma {:induction false} CallLandsOnce(bundle: Bundle, stop: bool, before: seq<Event>, own: seq<Event>)
    requires Run(Start(bundle, stop), own).Some? && Truthful(before + own)
    ensures LandedOnce(Within(Run(Start(bundle, stop), own).value, before + own))
  {
    if own != [] {
      var n := |own| - 1;
      assert before + own == (before + own[..n]) + [own[n]];
      TruthfulPrefix(before + own[..n], [own[n]]);
      CallLandsOnce(bundle, stop, before, own[..n]);
      var m := Run(Start(bundle, stop), own[..n]).value;
      Grow(before + own[..n], own[n]);
      StepWithin(m, before + own[..n], own[n]);
      StepKeepsLandedOnce(Within(m, before + own[..n]), own[n]);
    }
  }

  /** Of the submitted signatures, those that landed were not passed over, and all but the last were. */
  ghost predicate Settled(submitted: seq<Signature>, tr: seq<Event>) {
    forall sig <- submitted ::
      && (sig in LandedIn(tr) ==> sig !in PassedOver(tr))
      && (sig in PassedOver(tr) || sig == submitted[|submitted| - 1])
  }

  lemma {:induction false} StaysSettled(submitted: seq<Signature>, tr: seq<Event>, after: seq<Event>)
    requires Settled(submitted, tr) && Truthful(tr + after)
    requires forall e <- after :: e.Submitted? ==> e.sig !in submitted
    ensures Settled(submitted, tr + after)
  {
    if after == [] {
      assert tr + after == tr;
    } else {
      var n := |after| - 1;
      assert tr + after == (tr + after[..n]) + [after[n]];
      TruthfulPrefix(tr + after[..n], [after[n]]);
      StaysSettled(submitted, tr, after[..n]);
      Grow(tr + after[..n], after[n]);
      assert after[n] in after;
    }
  }

  lemma {:induction false} SubmittedByCall(m: Machine, own: seq<Event>, e: Event)
    requires Run(m, own).Some? && e in own && e.Submitted?
    ensures e.sig in Run(m, own).value.submitted
  {
    var n := |own| - 1;
    if e != own[n] {
      SubmittedByCall(m, own[..n], e);
    }
  }

  /** Around a call nothing else is submitted, so what its surroundings submit is the call's. */
  lemma CallSubmits(start: Machine, own: seq<Event>, quiet: seq<Event>, counted: Event, sig: Signature)
    requires Run(start, own).Some? && counted.Counted? && forall e <- quiet :: !e.Submitted?
    requires exists e <- quiet + own + [counted] :: e.Submitted? && e.sig == sig
    ensures sig in Run(start, own).value.submitted
  {
    var e :| e in quiet + own + [counted] && e.Submitted? && e.sig == sig;
    SubmittedByCall(start, own, e);
  }

  lemma {:induction false} SubmissionOf(m: Machine, own: seq<Event>, sig: Signature)
    requires Run(m, own).Some? && sig in Run(m, own).value.submitted && sig !in m.submitted
    ensures Submitted(sig, m.bundle) in own
  {
    if own != [] {
      var n := |own| - 1;
      var before := Run(m, own[..n]).value;
      RunHasOwnEvents(m, own);
      if sig in before.submitted {
        SubmissionOf(m, own[..n], sig);
      } else {
        assert own[n] == Submitted(sig, m.bundle);
      }
    }
  }

  /**
  At most one signature of a call ever lands, whatever lands before it, and however long one waits
  after it, provided no one else submits under its signatures.
  */
  lemma OneLanding(
    bundle: Bundle, stop: bool, before: seq<Event>, own: seq<Event>, after: seq<Event>, s: Signature, t: Signature)
    requires Run(Start(bundle, stop), own).Some? && Truthful(before + own + after)
    requires forall e <- after :: e.Submitted? ==> e.sig !in Run(Start(bundle, stop), own).value.submitted
    requires var m := Run(Start(bundle, stop), own).value; s in m.submitted && t in m.submitted
    requires s in LandedIn(before + own + after) && t in LandedIn(before + own + after)
    ensures s == t
  {
    var m := Run(Start(bundle, stop), own).value;
    TruthfulPrefix(before + own, after);
    CallLandsOnce(bundle, stop, before, own);
    StaysSettled(m.submitted, before + own, after);
  }
}

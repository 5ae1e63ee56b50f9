/**
The send-with-retry protocol of `rpc.rs` as a step machine.

A run interleaves the steps of one call with moves of the environment: a submitted
transaction may land, and the stop flag may be raised, between any two steps. Every
reply of the node is arbitrary.
*/
module RetryMachine {
  import opened Prelude
  import opened Network

  const MAX_ATTEMPTS := 3

  /** Where the call stands; `FellThrough` is the `unreachable!()` after the loop. */
  datatype Stage =
    | Top(attempt: nat)
    | Querying(attempt: nat)
    | Fetching(attempt: nat)
    | Signing(attempt: nat)
    | Ready(attempt: nat, sig: Signature)
    | Awaiting(attempt: nat, sig: Signature)
    | Finished(result: Result<Signature, Fault>)
    | FellThrough

  /**
  `stop` and `landed` belong to the environment. `passedOver` holds the signatures whose
  status check did not report them present and that were not submitted again since.
  */
  datatype Machine = Machine(
    bundle: Bundle,
    stage: Stage,
    last: Option<Signature>,
    submitted: seq<Signature>,
    queries: nat,
    passedOver: set<Signature>,
    landed: set<Signature>,
    stop: bool)

  function Start(bundle: Bundle, stop: bool): Machine {
    Machine(bundle, Top(0), None, [], 0, {}, {}, stop)
  }

  /** The two variables of the loop: where it stands, and `last_sig`. */
  datatype Control = Control(stage: Stage, last: Option<Signature>)

  predicate SigningFault(fault: Fault) {
    fault.NotCompiled? || fault.NotSigned? || fault.Unsigned?
  }

  function AfterSigning(attempt: nat, outcome: Result<Signature, Fault>): Stage {
    match outcome
    case Ok(sig) => Ready(attempt, sig)
    case Err(fault) => Finished(Err(fault))
  }

  function AfterSend(attempt: nat, sig: Signature, answer: SendReply): Control {
    match answer
    case Confirmed => Control(Finished(Ok(sig)), None)
    case Failed(error) =>
      Control(
        if !IsTransient(error) || attempt == MAX_ATTEMPTS - 1 then Finished(Err(Rejected(error)))
        else if attempt + 1 < MAX_ATTEMPTS then Top(attempt + 1)
        else FellThrough,
        Some(sig))
  }

  /** The call's own move on one of its events; `None` when it is not the event the call waits for. */
  function Advance(c: Control, bundle: Bundle, stop: bool, e: Event): Option<Control> {
    match (c.stage, e)
    case (Top(a), StopRead(stopped)) =>
      if stopped != stop then None
      else if stopped then Some(c.(stage := Finished(Err(Shutdown))))
      else if c.last.Some? then Some(c.(stage := Querying(a)))
      else Some(c.(stage := Fetching(a)))
    case (Querying(a), StatusQueried(sig, reply)) =>
      if c.last != Some(sig) then None
      else if reply.Present? then Some(c.(stage := Finished(Ok(sig))))
      else Some(c.(stage := Fetching(a)))
    case (Fetching(a), BlockhashFetched(ok)) =>
      Some(c.(stage := if ok then Signing(a) else Finished(Err(BlockhashUnavailable))))
    case (Signing(a), TxSigned(outcome)) =>
      if outcome.Err? && !SigningFault(outcome.error) then None else Some(c.(stage := AfterSigning(a, outcome)))
    case (Ready(a, sig), Submitted(sent, sentBundle)) =>
      if sent == sig && sentBundle == bundle then Some(c.(stage := Awaiting(a, sig))) else None
    case (Awaiting(a, sig), SendReturned(answer)) => Some(AfterSend(a, sig, answer))
    case _ => None
  }

  /** What a move adds to the history the machine keeps. */
  function Record(m: Machine, e: Event): Machine {
    match e
    case StatusQueried(sig, reply) =>
      m.(queries := m.queries + 1, passedOver := if reply.Present? then m.passedOver else m.passedOver + {sig})
    case Submitted(sig, _) => m.(submitted := m.submitted + [sig], passedOver := m.passedOver - {sig})
    case _ => m
  }

  /** One event; `None` when the machine cannot take it. */
  function Step(m: Machine, e: Event): Option<Machine> {
    match e
    case Landed(sig) => Some(m.(landed := m.landed + {sig}))
    case StopRaised => Some(m.(stop := true))
    case _ =>
      match Advance(Control(m.stage, m.last), m.bundle, m.stop, e)
      case None => None
      case Some(next) => Some(Record(m, e).(stage := next.stage, last := next.last))
  }

  function Run(m: Machine, events: seq<Event>): Option<Machine> {
    if events == [] then Some(m)
    else
      match Run(m, events[..|events| - 1])
      case None => None
      case Some(before) => Step(before, events[|events| - 1])
  }

  lemma {:induction false} RunConcat(m: Machine, a: seq<Event>, b: seq<Event>)
    requires Run(m, a).Some?
    ensures Run(m, a + b) == Run(Run(m, a).value, b)
  {
    if b == [] {
      assert a + b == a;
    } else {
      var n := |b| - 1;
      assert (a + b)[..|a + b| - 1] == a + b[..n];
      RunConcat(m, a, b[..n]);
    }
  }

  /** Environment moves never touch what the call itself tracks. */
  lemma {:induction false} RunEnvironment(m: Machine, events: seq<Event>)
    requires AllFromEnvironment(events)
    ensures Run(m, events).Some?
    ensures var after := Run(m, events).value;
            after == m.(landed := after.landed, stop := after.stop)
            && after.stop == (m.stop || StopRaised in events)
  {
    if events != [] {
      var n := |events| - 1;
      RunEnvironment(m, events[..n]);
      assert events == events[..n] + [events[n]];
      assert events[n].FromEnvironment();
    }
  }

  // ---- What every run keeps, for any environment ----

  ghost predicate Counts(m: Machine, attempt: nat, sends: nat, queries: nat) {
    attempt < MAX_ATTEMPTS && |m.submitted| == sends && m.queries == queries
    && (attempt > 0 <==> m.last.Some?)
  }

  ghost predicate LastIsPassedOver(m: Machine, attempt: nat) {
    attempt > 0 ==> m.submitted != [] && m.submitted[|m.submitted| - 1] in m.passedOver
  }

  ghost predicate StageInv(m: Machine) {
    match m.stage
    case Top(a) => Counts(m, a, a, if a == 0 then 0 else a - 1)
    case Querying(a) => a > 0 && Counts(m, a, a, a - 1)
    case Fetching(a) => Counts(m, a, a, a) && LastIsPassedOver(m, a)
    case Signing(a) => Counts(m, a, a, a) && LastIsPassedOver(m, a)
    case Ready(a, _) => Counts(m, a, a, a) && LastIsPassedOver(m, a)
    case Awaiting(a, sig) => Counts(m, a, a + 1, a) && m.submitted[a] == sig
    case Finished(r) =>
      |m.submitted| <= MAX_ATTEMPTS && m.queries <= MAX_ATTEMPTS - 1
      && (r.Ok? ==> m.submitted != [] && m.submitted[|m.submitted| - 1] == r.value)
      && (r.Err? ==> Earned(m, r.error))
    case FellThrough => false
  }

  /**
  `Shutdown` is only returned with the flag up, and a rejection only of a submission; if the error
  was transient, of the third.
  */
  ghost predicate Earned(m: Machine, fault: Fault) {
    match fault
    case Shutdown => m.stop
    case Rejected(error) => m.submitted != [] && (IsTransient(error) ==> |m.submitted| == MAX_ATTEMPTS)
    case BlockhashUnavailable => true
    case _ => SigningFault(fault)
  }

  ghost predicate Inv(m: Machine) {
    && StageInv(m)
    && (m.stage.Top? || m.stage.Querying? || m.stage.Fetching? || m.stage.Signing? || m.stage.Ready? ==>
          (m.last.Some? ==> m.submitted != [] && m.submitted[|m.submitted| - 1] == m.last.value))
    && forall sig <- m.submitted ::
         sig in m.passedOver || sig == m.submitted[|m.submitted| - 1]
  }

  lemma StepKeepsInv(m: Machine, e: Event)
    requires Inv(m) && Step(m, e).Some?
    ensures Inv(Step(m, e).value)
  {
    match e
    case Submitted(sig, _) => SubmitKeepsInv(m, e);
    case StatusQueried(sig, _) => StatusKeepsInv(m, e);
    case SendReturned(_) => AnswerKeepsInv(m, e);
    case _ =>
  }

  lemma StatusKeepsInv(m: Machine, e: Event)
    requires Inv(m) && e.StatusQueried? && Step(m, e).Some?
    ensures Inv(Step(m, e).value)
  {
    assert m.submitted[m.stage.attempt - 1] == e.sig;
  }

  lemma AnswerKeepsInv(m: Machine, e: Event)
    requires Inv(m) && e.SendReturned? && Step(m, e).Some?
    ensures Inv(Step(m, e).value)
  {
  }

  lemma SubmitKeepsInv(m: Machine, e: Event)
    requires Inv(m) && e.Submitted? && Step(m, e).Some?
    ensures Inv(Step(m, e).value)
  {
    var after := Step(m, e).value;
    var n := |m.submitted|;
    assert after.submitted[n] == e.sig && after.submitted[..n] == m.submitted;
    forall k | 0 <= k <= n
      ensures after.submitted[k] in after.passedOver || after.submitted[k] == e.sig
    {
      if k < n {
        assert after.submitted[k] == m.submitted[k];
      }
    }
  }

  lemma {:induction false} RunKeepsInv(m: Machine, events: seq<Event>)
    requires Inv(m) && Run(m, events).Some?
    ensures Inv(Run(m, events).value)
  {
    if events != [] {
      var n := |events| - 1;
      RunKeepsInv(m, events[..n]);
      StepKeepsInv(Run(m, events[..n]).value, events[n]);
    }
  }

  /** At most three sends and two status queries, and `unreachable!()` is unreachable. */
  lemma BoundedAndNeverFallsThrough(bundle: Bundle, stop: bool, events: seq<Event>)
    requires Run(Start(bundle, stop), events).Some?
    ensures var m := Run(Start(bundle, stop), events).value;
            |m.submitted| <= 3 && m.queries <= 2 && !m.stage.FellThrough?
            && (m.stage.Finished? && m.stage.result.Ok? ==> m.stage.result.value in m.submitted)
  {
    RunKeepsInv(Start(bundle, stop), events);
  }

  /** What an error of the call means for every run. */
  lemma ErrorsAreEarned(bundle: Bundle, stop: bool, events: seq<Event>, fault: Fault)
    requires Run(Start(bundle, stop), events).Some?
    requires Run(Start(bundle, stop), events).value.stage == Finished(Err(fault))
    ensures Earned(Run(Start(bundle, stop), events).value, fault)
  {
    RunKeepsInv(Start(bundle, stop), events);
  }

  /** A call past its stop check and before its next submission may still submit once. */
  function MaySubmit(m: Machine): nat {
    if m.stage.Querying? || m.stage.Fetching? || m.stage.Signing? || m.stage.Ready? then 1 else 0
  }

  lemma StoppedStep(m: Machine, e: Event)
    requires m.stop && Step(m, e).Some?
    ensures var after := Step(m, e).value;
            after.stop && |after.submitted| + MaySubmit(after) <= |m.submitted| + MaySubmit(m)
  {
  }

  /** Once the flag is up a call submits at most once more, and only if it is past its check. */
  lemma {:induction false} StopBoundsSubmissions(m: Machine, events: seq<Event>)
    requires m.stop && Run(m, events).Some?
    ensures var after := Run(m, events).value;
            after.stop && |after.submitted| + MaySubmit(after) <= |m.submitted| + MaySubmit(m)
  {
    if events != [] {
      var n := |events| - 1;
      StopBoundsSubmissions(m, events[..n]);
      StoppedStep(Run(m, events[..n]).value, events[n]);
    }
  }

  /** Steps of its own that a call has left once the flag is up. */
  function StepsLeft(stage: Stage): nat {
    match stage
    case Querying(_) => 6
    case Fetching(_) => 5
    case Signing(_) => 4
    case Ready(_, _) => 3
    case Awaiting(_, _) => 2
    case Top(_) => 1
    case _ => 0
  }

  /** Once the flag is up a call returns within six steps of its own. */
  lemma {:induction false} StoppedCallEnds(m: Machine, events: seq<Event>)
    requires m.stop && Run(m, events).Some?
    ensures var after := Run(m, events).value;
            after.stop && |Program(events)| + StepsLeft(after.stage) <= StepsLeft(m.stage) <= 6
  {
    if events != [] {
      var n := |events| - 1;
      StoppedCallEnds(m, events[..n]);
      StoppedStep(Run(m, events[..n]).value, events[n]);
    }
  }

  /** A run submits the call's own bundle and nothing else, and contains no event of the layers above. */
  ghost predicate OwnEvents(bundle: Bundle, events: seq<Event>) {
    forall e <- events :: (e.Submitted? ==> e.bundle == bundle) && !e.Simulated? && !e.Counted? && !e.AccountRead? && !e.Unanswered?
  }

  lemma StepHasOwnEvents(m: Machine, e: Event)
    requires Step(m, e).Some?
    ensures OwnEvents(m.bundle, [e]) && Step(m, e).value.bundle == m.bundle
  {
  }

  lemma {:induction false} RunHasOwnEvents(m: Machine, events: seq<Event>)
    requires Run(m, events).Some?
    ensures OwnEvents(m.bundle, events) && Run(m, events).value.bundle == m.bundle
  {
    if events != [] {
      var n := |events| - 1;
      RunHasOwnEvents(m, events[..n]);
      StepHasOwnEvents(Run(m, events[..n]).value, events[n]);
      assert events[n] in [events[n]];
      assert events == events[..n] + [events[n]];
    }
  }

  // ---- At most one signature lands ----

  /** Only transactions the call submitted can land under its signatures. */
  predicate LandsOnlySubmitted(m: Machine, e: Event) {
    e.Landed? ==> e.sig in m.submitted
  }

  /** A transaction that was passed over does not land unless it is submitted again. */
  predicate NoLateLanding(m: Machine, e: Event) {
    e.Landed? ==> e.sig !in m.passedOver
  }

  predicate TruthfulStatus(m: Machine, e: Event) {
    e.StatusQueried? ==> e.reply == if e.sig in m.landed then Present else Absent
  }

  predicate TruthfulConfirmation(m: Machine, e: Event) {
    e == SendReturned(Confirmed) && m.stage.Awaiting? ==> m.stage.sig in m.landed
  }

  /** What the promise of at most one landing takes from the node and the chain. */
  predicate Honest(m: Machine, e: Event) {
    LandsOnlySubmitted(m, e) && NoLateLanding(m, e) && TruthfulStatus(m, e) && TruthfulConfirmation(m, e)
  }

  ghost predicate Always(m: Machine, events: seq<Event>, p: (Machine, Event) -> bool) {
    events != [] ==>
      var n := |events| - 1;
      Always(m, events[..n], p) && (Run(m, events[..n]).Some? ==> p(Run(m, events[..n]).value, events[n]))
  }

  /** Of the signatures submitted, those that landed were not passed over, so at most the last one landed. */
  ghost predicate LandedOnce(m: Machine) {
    Inv(m) && forall sig <- m.landed :: sig in m.submitted ==> sig !in m.passedOver
  }

  lemma StepKeepsLandedOnce(m: Machine, e: Event)
    requires LandedOnce(m) && NoLateLanding(m, e) && TruthfulStatus(m, e) && Step(m, e).Some?
    ensures LandedOnce(Step(m, e).value)
  {
    StepKeepsInv(m, e);
  }

  ghost predicate HonestInv(m: Machine) {
    && LandedOnce(m)
    && (forall sig <- m.landed :: sig in m.submitted)
    && (m.stage.Finished? && m.stage.result.Ok? ==> m.stage.result.value in m.landed)
  }

  lemma HonestStep(m: Machine, e: Event)
    requires HonestInv(m) && Honest(m, e) && Step(m, e).Some?
    ensures HonestInv(Step(m, e).value)
  {
    StepKeepsLandedOnce(m, e);
    assert forall sig <- m.submitted :: sig in Step(m, e).value.submitted;
  }

  lemma {:induction false} HonestRun(m: Machine, events: seq<Event>)
    requires HonestInv(m) && Run(m, events).Some? && Always(m, events, Honest)
    ensures HonestInv(Run(m, events).value)
  {
    if events != [] {
      var n := |events| - 1;
      HonestRun(m, events[..n]);
      HonestStep(Run(m, events[..n]).value, events[n]);
    }
  }

  /**
  Whatever errors the sends return and whenever the stop flag is raised, at most one signature
  of the call lands, and the one returned by `Ok` is it.
  */
  lemma AtMostOnce(bundle: Bundle, stop: bool, events: seq<Event>)
    requires Run(Start(bundle, stop), events).Some?
    requires Always(Start(bundle, stop), events, Honest)
    ensures var m := Run(Start(bundle, stop), events).value;
            && (forall s, t :: s in m.landed && t in m.landed ==> s == t)
            && (m.stage.Finished? && m.stage.result.Ok? ==> m.landed == {m.stage.result.value})
  {
    HonestRun(Start(bundle, stop), events);
  }

  ghost predicate LandedInv(m: Machine) {
    Inv(m) && forall sig <- m.landed :: sig in m.submitted
  }

  lemma LandedStep(m: Machine, e: Event)
    requires LandedInv(m) && LandsOnlySubmitted(m, e) && Step(m, e).Some?
    ensures LandedInv(Step(m, e).value)
  {
    StepKeepsInv(m, e);
    assert forall sig <- m.submitted :: sig in Step(m, e).value.submitted;
  }

  lemma {:induction false} LandedRun(m: Machine, events: seq<Event>)
    requires LandedInv(m) && Run(m, events).Some? && Always(m, events, LandsOnlySubmitted)
    ensures LandedInv(Run(m, events).value)
  {
    if events != [] {
      var n := |events| - 1;
      LandedRun(m, events[..n]);
      LandedStep(Run(m, events[..n]).value, events[n]);
    }
  }

  /**
  Without any assumption on replies: a second landing is always of a signature the call went
  past, because its status query failed or did not report it.
  */
  lemma SecondLandingWasPassedOver(bundle: Bundle, stop: bool, events: seq<Event>, s: Signature, t: Signature)
    requires Run(Start(bundle, stop), events).Some?
    requires Always(Start(bundle, stop), events, LandsOnlySubmitted)
    requires s in Run(Start(bundle, stop), events).value.landed
    requires t in Run(Start(bundle, stop), events).value.landed && s != t
    ensures var m := Run(Start(bundle, stop), events).value;
            s in m.passedOver || t in m.passedOver
  {
    LandedRun(Start(bundle, stop), events);
  }

  /** One attempt up to its reply, from the top of the loop to a transport error. */
  function LostAttempt(sig: Signature, bundle: Bundle): seq<Event> {
    [BlockhashFetched(true), TxSigned(Ok(sig)), Submitted(sig, bundle), SendReturned(Failed(Io))]
  }

  function LandingAndCheck(s: Signature, early: bool): seq<Event> {
    if early then [Landed(s), StopRead(false), StatusQueried(s, QueryFailed)]
    else [StopRead(false), StatusQueried(s, Absent), Landed(s)]
  }

  function DoubleLanding(s: Signature, t: Signature, bundle: Bundle, early: bool): seq<Event> {
    [StopRead(false)] + LostAttempt(s, bundle) + LandingAndCheck(s, early) + LostAttempt(t, bundle) + [Landed(t)]
  }

  /** The events lead from one state to another, and `p` holds of each of them. */
  ghost predicate Leads(m: Machine, events: seq<Event>, end: Machine, p: (Machine, Event) -> bool) {
    Run(m, events) == Some(end) && Always(m, events, p)
  }

  lemma {:induction false} Extend(m: Machine, a: seq<Event>, b: seq<Event>, mid: Machine, end: Machine, p: (Machine, Event) -> bool)
    requires Leads(m, a, mid, p) && Leads(mid, b, end, p)
    ensures Leads(m, a + b, end, p)
  {
    RunConcat(m, a, b);
    if b == [] {
      assert a + b == a;
    } else {
      var n := |b| - 1;
      assert (a + b)[..|a + b| - 1] == a + b[..n];
      Extend(m, a, b[..n], mid, Run(mid, b[..n]).value, p);
    }
  }

  lemma LeadsOne(m: Machine, e: Event, p: (Machine, Event) -> bool)
    requires Step(m, e).Some? && p(m, e)
    ensures Leads(m, [e], Step(m, e).value, p)
  {
    assert [e][..0] == [];
  }

  lemma LeadsTwo(m: Machine, e: Event, f: Event, mid: Machine, p: (Machine, Event) -> bool)
    requires Step(m, e) == Some(mid) && Step(mid, f).Some? && p(m, e) && p(mid, f)
    ensures Leads(m, [e, f], Step(mid, f).value, p)
  {
    LeadsOne(m, e, p);
    LeadsOne(mid, f, p);
    Extend(m, [e], [f], mid, Step(mid, f).value, p);
    assert [e] + [f] == [e, f];
  }

  /** Everything `Honest` asks but one clause: with `early` truthful status replies, else no late landing. */
  function AllBut(early: bool): (Machine, Event) -> bool {
    (m, e) =>
      LandsOnlySubmitted(m, e) && TruthfulConfirmation(m, e)
      && if early then NoLateLanding(m, e) else TruthfulStatus(m, e)
  }

  function AfterLostSend(m: Machine, attempt: nat, sig: Signature): Machine {
    m.(stage := Top(attempt + 1), last := Some(sig), submitted := m.submitted + [sig], passedOver := m.passedOver - {sig})
  }

  lemma LeadsLostAttempt(m: Machine, sig: Signature, early: bool)
    requires m.stage.Fetching? && m.stage.attempt < MAX_ATTEMPTS - 1
    ensures Leads(m, LostAttempt(sig, m.bundle), AfterLostSend(m, m.stage.attempt, sig), AllBut(early))
  {
    var tries := LostAttempt(sig, m.bundle);
    var ready := m.(stage := Ready(m.stage.attempt, sig));
    LeadsTwo(m, tries[0], tries[1], m.(stage := Signing(m.stage.attempt)), AllBut(early));
    LeadsLostSend(ready, sig, early);
    Extend(m, [tries[0], tries[1]], [tries[2], tries[3]], ready, AfterLostSend(m, m.stage.attempt, sig), AllBut(early));
    assert tries == [tries[0], tries[1]] + [tries[2], tries[3]];
  }

  lemma StepSubmit(m: Machine, sig: Signature)
    requires m.stage.Ready? && m.stage.sig == sig
    ensures Step(m, Submitted(sig, m.bundle)) == Some(m.(
        stage := Awaiting(m.stage.attempt, sig), submitted := m.submitted + [sig], passedOver := m.passedOver - {sig}))
  {
  }

  lemma StepLost(m: Machine)
    requires m.stage.Awaiting? && m.stage.attempt < MAX_ATTEMPTS - 1
    ensures Step(m, SendReturned(Failed(Io))) == Some(m.(stage := Top(m.stage.attempt + 1), last := Some(m.stage.sig)))
  {
  }

  lemma LeadsLostSend(m: Machine, sig: Signature, early: bool)
    requires m.stage.Ready? && m.stage.attempt < MAX_ATTEMPTS - 1 && m.stage.sig == sig
    ensures Leads(
              m, [Submitted(sig, m.bundle), SendReturned(Failed(Io))], AfterLostSend(m, m.stage.attempt, sig), AllBut(early))
  {
    StepSubmit(m, sig);
    var sent := Step(m, Submitted(sig, m.bundle)).value;
    StepLost(sent);
    LeadsTwo(m, Submitted(sig, m.bundle), SendReturned(Failed(Io)), sent, AllBut(early));
  }

  /** The second attempt's check of `s`, which lands just before it or just after. */
  lemma LeadsCheck(m: Machine, s: Signature, early: bool)
    requires m.stage == Top(1) && m.last == Some(s) && !m.stop
    requires s in m.submitted && s !in m.passedOver && s !in m.landed
    ensures Leads(
              m, LandingAndCheck(s, early),
              m.(stage := Fetching(1), queries := m.queries + 1, passedOver := m.passedOver + {s}, landed := m.landed + {s}),
              AllBut(early))
  {
    var p := AllBut(early);
    var reply := if early then QueryFailed else Absent;
    var landed := m.(landed := m.landed + {s});
    var start := if early then landed else m;
    var checked := start.(stage := Fetching(1), queries := m.queries + 1, passedOver := m.passedOver + {s});
    LeadsTwo(start, StopRead(false), StatusQueried(s, reply), start.(stage := Querying(1)), p);
    if early {
      LeadsOne(m, Landed(s), p);
      Extend(m, [Landed(s)], [StopRead(false), StatusQueried(s, reply)], landed, checked, p);
      assert LandingAndCheck(s, early) == [Landed(s)] + [StopRead(false), StatusQueried(s, reply)];
    } else {
      LeadsOne(checked, Landed(s), p);
      Extend(m, [StopRead(false), StatusQueried(s, reply)], [Landed(s)], checked, Step(checked, Landed(s)).value, p);
      assert LandingAndCheck(s, early) == [StopRead(false), StatusQueried(s, reply)] + [Landed(s)];
    }
  }

  /**
  Two clauses of `Honest` are needed, each alone: a run that breaks one and keeps the rest, and in
  which two signatures land. With `early`, the first lands before a status query that fails;
  otherwise it lands after a truthful "absent".
  */
  lemma AssumptionIsNeeded(bundle: Bundle, s: Signature, t: Signature, early: bool)
    requires s != t
    ensures var run, start := DoubleLanding(s, t, bundle, early), Start(bundle, false);
            && Run(start, run).Some? && Run(start, run).value.landed == {s, t}
            && Always(start, run, AllBut(early)) && !Always(start, run, Honest)
  {
    var p := AllBut(early);
    var m0 := Start(bundle, false);
    var m1 := m0.(stage := Fetching(0));
    LeadsOne(m0, StopRead(false), p);
    LeadsLostAttempt(m1, s, early);
    var m2 := AfterLostSend(m1, 0, s);
    var one := [StopRead(false)] + LostAttempt(s, bundle);
    Extend(m0, [StopRead(false)], LostAttempt(s, bundle), m1, m2, p);
    LeadsCheck(m2, s, early);
    var m3 := Run(m2, LandingAndCheck(s, early)).value;
    var two := one + LandingAndCheck(s, early);
    Extend(m0, one, LandingAndCheck(s, early), m2, m3, p);
    LeadsLostAttempt(m3, t, early);
    var m4 := AfterLostSend(m3, 1, t);
    Extend(m0, two, LostAttempt(t, bundle), m3, m4, p);
    LeadsOne(m4, Landed(t), p);
    var m5 := m4.(landed := m4.landed + {t});
    Extend(m0, two + LostAttempt(t, bundle), [Landed(t)], m4, m5, p);
    assert s in m5.landed && t in m5.landed;
    if Always(m0, DoubleLanding(s, t, bundle, early), Honest) {
      AtMostOnce(bundle, false, DoubleLanding(s, t, bundle, early));
    }
  }

  // ---- The order of the call's own interactions ----

  /** The call's own events, without the environment's. */
  function Program(events: seq<Event>): seq<Event> {
    if events == [] then []
    else
      var n := |events| - 1;
      if events[n].FromEnvironment() then Program(events[..n]) else Program(events[..n]) + [events[n]]
  }

  /** `p[..n]` ends with a submission of `sig` and its transient failure. */
  ghost predicate EndsInLostSend(p: seq<Event>, n: nat, sig: Signature) {
    && 2 <= n <= |p|
    && p[n - 2].Submitted? && p[n - 2].sig == sig
    && p[n - 1].SendReturned? && p[n - 1].answer.Failed? && IsTransient(p[n - 1].answer.error)
  }

  /** `p[..n]` ends with a lost send of `sig` and a status query that did not report it present. */
  ghost predicate EndsInPassingOver(p: seq<Event>, n: nat, sig: Signature) {
    && 4 <= n <= |p|
    && p[n - 1].StatusQueried? && p[n - 1].sig == sig && !p[n - 1].reply.Present?
    && p[n - 2] == StopRead(false)
    && EndsInLostSend(p, n - 2, sig)
  }

  ghost predicate Resubmission(p: seq<Event>, j: nat) {
    && 6 <= j < |p|
    && p[j].Submitted? && p[j - 1] == TxSigned(Ok(p[j].sig)) && p[j - 2] == BlockhashFetched(true)
    && p[j - 6].Submitted? && EndsInPassingOver(p, j - 2, p[j - 6].sig)
  }

  ghost predicate FirstSubmission(p: seq<Event>, j: nat) {
    j < |p| && p[j].Submitted? && forall i | 0 <= i < j :: !p[i].Submitted?
  }

  /** `sig` was submitted and then confirmed, or submitted and then reported present. */
  ghost predicate Justified(p: seq<Event>, sig: Signature) {
    var n := |p|;
    && n >= 2
    && ((p[n - 1] == SendReturned(Confirmed) && p[n - 2].Submitted? && p[n - 2].sig == sig)
        || (p[n - 1] == StatusQueried(sig, Present) && p[n - 2] == StopRead(false) && EndsInLostSend(p, n - 2, sig)))
  }

  /** The last interaction of a call decides its result. */
  ghost predicate Ending(p: seq<Event>, result: Result<Signature, Fault>) {
    p != [] &&
    var e := p[|p| - 1];
    match result
    case Ok(sig) => Justified(p, sig)
    case Err(Shutdown) => e == StopRead(true)
    case Err(BlockhashUnavailable) => e == BlockhashFetched(false)
    case Err(Rejected(error)) => e == SendReturned(Failed(error))
    case Err(fault) => e == TxSigned(Err(fault))
  }

  ghost predicate NoneSubmitted(p: seq<Event>) {
    forall i | 0 <= i < |p| :: !p[i].Submitted?
  }

  ghost predicate Tail(m: Machine, p: seq<Event>) {
    var n := |p|;
    match m.stage
    case Top(a) => if a == 0 then p == [] else m.last.Some? && EndsInLostSend(p, n, m.last.value)
    case Querying(_) => m.last.Some? && n > 0 && p[n - 1] == StopRead(false) && EndsInLostSend(p, n - 1, m.last.value)
    case Fetching(a) => if a == 0 then NoneSubmitted(p) else m.last.Some? && EndsInPassingOver(p, n, m.last.value)
    case Signing(a) =>
      n > 0 && p[n - 1] == BlockhashFetched(true)
      && if a == 0 then NoneSubmitted(p) else m.last.Some? && EndsInPassingOver(p, n - 1, m.last.value)
    case Ready(a, sig) =>
      n > 1 && p[n - 1] == TxSigned(Ok(sig)) && p[n - 2] == BlockhashFetched(true)
      && if a == 0 then NoneSubmitted(p) else m.last.Some? && EndsInPassingOver(p, n - 2, m.last.value)
    case Awaiting(_, sig) => n > 0 && p[n - 1].Submitted? && p[n - 1].sig == sig
    case Finished(r) => Ending(p, r)
    case FellThrough => false
  }

  ghost predicate Ordered(p: seq<Event>) {
    forall j | 0 <= j < |p| && p[j].Submitted? :: FirstSubmission(p, j) || Resubmission(p, j)
  }

  lemma OrderedPrefix(p: seq<Event>, e: Event)
    requires Ordered(p)
    requires e.Submitted? ==> FirstSubmission(p + [e], |p|) || Resubmission(p + [e], |p|)
    ensures Ordered(p + [e])
  {
    var q := p + [e];
    forall j | 0 <= j < |q| && q[j].Submitted?
      ensures FirstSubmission(q, j) || Resubmission(q, j)
    {
      if j < |p| {
        assert q[j] == p[j];
      }
    }
  }

  lemma SubmitKeepsTail(m: Machine, p: seq<Event>, e: Event)
    requires Inv(m) && Tail(m, p) && e.Submitted? && Step(m, e).Some?
    ensures Tail(Step(m, e).value, p + [e])
    ensures FirstSubmission(p + [e], |p|) || Resubmission(p + [e], |p|)
  {
    var q := p + [e];
    assert forall i | 0 <= i < |p| :: q[i] == p[i];
    if m.stage.attempt == 0 {
      assert FirstSubmission(q, |p|);
    } else {
      assert Resubmission(q, |p|);
    }
  }

  lemma AnswerKeepsTail(m: Machine, p: seq<Event>, e: Event)
    requires Inv(m) && Tail(m, p) && e.SendReturned? && Step(m, e).Some?
    ensures Tail(Step(m, e).value, p + [e])
  {
    StepKeepsInv(m, e);
    var q := p + [e];
    assert forall i | 0 <= i < |p| :: q[i] == p[i];
  }

  lemma StatusKeepsTail(m: Machine, p: seq<Event>, e: Event)
    requires Inv(m) && Tail(m, p) && (e.StatusQueried? || e.StopRead?) && Step(m, e).Some?
    ensures Tail(Step(m, e).value, p + [e])
  {
    var q := p + [e];
    assert forall i | 0 <= i < |p| :: q[i] == p[i];
  }

  lemma StepKeepsTail(m: Machine, p: seq<Event>, e: Event)
    requires Inv(m) && Tail(m, p) && Step(m, e).Some? && !e.FromEnvironment()
    ensures Tail(Step(m, e).value, p + [e])
    ensures e.Submitted? ==> FirstSubmission(p + [e], |p|) || Resubmission(p + [e], |p|)
  {
    if e.Submitted? {
      SubmitKeepsTail(m, p, e);
    } else if e.SendReturned? {
      AnswerKeepsTail(m, p, e);
    } else if e.StatusQueried? || e.StopRead? {
      StatusKeepsTail(m, p, e);
    } else {
      BuildKeepsTail(m, p, e);
    }
  }

  lemma BuildKeepsTail(m: Machine, p: seq<Event>, e: Event)
    requires Inv(m) && Tail(m, p) && (e.BlockhashFetched? || e.TxSigned?) && Step(m, e).Some?
    ensures Tail(Step(m, e).value, p + [e])
  {
    var q := p + [e];
    assert forall i | 0 <= i < |p| :: q[i] == p[i];
  }

  lemma {:induction false} RunKeepsTail(m: Machine, events: seq<Event>)
    requires Inv(m) && m.stage == Top(0) && Run(m, events).Some?
    ensures Tail(Run(m, events).value, Program(events)) && Ordered(Program(events))
  {
    if events != [] {
      var n := |events| - 1;
      RunKeepsTail(m, events[..n]);
      RunKeepsInv(m, events[..n]);
      if !events[n].FromEnvironment() {
        StepKeepsTail(Run(m, events[..n]).value, Program(events[..n]), events[n]);
        OrderedPrefix(Program(events[..n]), events[n]);
      }
    }
  }

  /**
  For any environment: every submission but the first comes right after a transient failure of
  the preceding one and a status query that did not report it present; and `Ok(sig)` comes right
  after `sig` was confirmed or reported present.
  */
  lemma EverySubmissionIsEarned(bundle: Bundle, stop: bool, events: seq<Event>)
    requires Run(Start(bundle, stop), events).Some?
    ensures Ordered(Program(events))
    ensures var m := Run(Start(bundle, stop), events).value;
            m.stage.Finished? && m.stage.result.Ok? ==> Justified(Program(events), m.stage.result.value)
  {
    RunKeepsTail(Start(bundle, stop), events);
  }

  /**
  Every call returns what its last interaction says: shutdown for a raised flag, no blockhash, a
  failed signing, a failed send, or the signature that was confirmed or reported present.
  */
  lemma EveryResultIsEarned(bundle: Bundle, stop: bool, events: seq<Event>, result: Result<Signature, Fault>)
    requires Run(Start(bundle, stop), events).Some?
    requires Run(Start(bundle, stop), events).value.stage == Finished(result)
    ensures Ending(Program(events), result)
  {
    RunKeepsTail(Start(bundle, stop), events);
  }

  // ---- Which errors are sent again ----

  lemma TransientExactly(error: ClientError)
    ensures IsTransient(error) <==>
              || error.Io?
              || error.Reqwest?
              || (exists code :: error == RpcError(RpcResponseError(code)) && -32099 <= code <= -32000)
              || (exists message, i :: error == RpcError(ForUser(message)) && OccursAt(message, "Blockhash not found", i))
  {
    if error.RpcError? && error.failure.ForUser? {
      ContainsFinds(error.failure.message, "Blockhash not found");
    } else if error.RpcError? && error.failure.RpcResponseError? {
      assert error == RpcError(RpcResponseError(error.failure.code));
    }
  }

  /**
  A call that gives up on a send before the third was told something definitive: no transport
  error, none of the node's own codes, and no expired blockhash.
  */
  lemma GivesUpOnlyOnDefinitive(bundle: Bundle, stop: bool, events: seq<Event>, error: ClientError)
    requires Run(Start(bundle, stop), events).Some?
    requires var m := Run(Start(bundle, stop), events).value;
             m.stage == Finished(Err(Rejected(error))) && |m.submitted| < 3
    ensures !error.Io? && !error.Reqwest?
    ensures forall code :: error == RpcError(RpcResponseError(code)) ==> !(-32099 <= code <= -32000)
    ensures forall message, i :: error == RpcError(ForUser(message)) ==> !OccursAt(message, "Blockhash not found", i)
  {
    ErrorsAreEarned(bundle, stop, events, Rejected(error));
    TransientExactly(error);
  }

  /** The dual: whatever is submitted after the first was preceded, five interactions before, by one of exactly those errors. */
  lemma SendsAgainOnlyOnTransient(bundle: Bundle, stop: bool, events: seq<Event>, i: nat, j: nat)
    requires Run(Start(bundle, stop), events).Some?
    requires i < j < |Program(events)| && Program(events)[i].Submitted? && Program(events)[j].Submitted?
    ensures j >= 6 && Program(events)[j - 5].SendReturned? && Program(events)[j - 5].answer.Failed?
    ensures var error := Program(events)[j - 5].answer.error;
            || error.Io?
            || error.Reqwest?
            || (exists code :: error == RpcError(RpcResponseError(code)) && -32099 <= code <= -32000)
            || (exists message, at :: error == RpcError(ForUser(message)) && OccursAt(message, "Blockhash not found", at))
  {
    EverySubmissionIsEarned(bundle, stop, events);
    assert Resubmission(Program(events), j);
    TransientExactly(Program(events)[j - 5].answer.error);
  }
}

/**
The supervisor of `handlers/mod.rs`: any number of handler tasks share the stop flag and the
low-balance flag, and every send inside a tick is a run of the retry machine.
*/
module Supervisor {
  import opened Prelude
  import opened Network
  import opened RetryMachine
  import opened RpcClient

  /**
  Where a task stands. `Gate` is past the stop check at the loop top; `Resting` is past the one
  of the sliced sleep. A call is `late` when the flag was already up as it began.
  */
  datatype Place =
    | LoopTop
    | Gate
    | Ticking
    | Calling(call: Machine, late: bool)
    | Sleeping
    | Resting
    | Exited

  datatype Task = Task(needsFeePayer: bool, place: Place)

  datatype Action =
    | StopChecked(stopped: bool)
    | Gated(paused: bool)
    | CallBegins(bundle: Bundle)
    | InCall(event: Event)
    | CallEnds(result: Result<Signature, Fault>)
    | TickEnds
    | Slept
    | DeadlineReached

  datatype Move = Acts(task: nat, action: Action) | StopSet | LowSet(low: bool)

  datatype System = System(tasks: seq<Task>, stop: bool, low: bool)

  function TaskStep(t: Task, stop: bool, low: bool, a: Action): Option<Place> {
    match (t.place, a)
    case (LoopTop, StopChecked(stopped)) =>
      if stopped != stop then None else Some(if stopped then Exited else Gate)
    case (Gate, Gated(paused)) =>
      if paused != (t.needsFeePayer && low) then None else Some(if paused then Sleeping else Ticking)
    case (Ticking, CallBegins(bundle)) => Some(Calling(Start(bundle, stop), stop))
    case (Ticking, TickEnds) => Some(Sleeping)
    case (Calling(call, late), InCall(event)) =>
      var next := RetryMachine.Step(call, event);
      if event.StopRaised? || next.None? then None else Some(Calling(next.value, late))
    case (Calling(call, _), CallEnds(result)) =>
      if call.stage == Finished(result) then Some(Ticking) else None
    case (Sleeping, StopChecked(stopped)) =>
      if stopped != stop then None else Some(if stopped then Exited else Resting)
    case (Resting, Slept) => Some(Sleeping)
    case (Resting, DeadlineReached) => Some(LoopTop)
    case _ => None
  }

  function SeeStop(t: Task): Task {
    if t.place.Calling? then t.(place := t.place.(call := t.place.call.(stop := true))) else t
  }

  function Step(s: System, move: Move): Option<System> {
    match move
    case StopSet => Some(s.(stop := true, tasks := seq(|s.tasks|, i requires 0 <= i < |s.tasks| => SeeStop(s.tasks[i]))))
    case LowSet(low) => Some(s.(low := low))
    case Acts(i, action) =>
      if i >= |s.tasks| then None
      else
        var place := TaskStep(s.tasks[i], s.stop, s.low, action);
        if place.None? then None else Some(s.(tasks := s.tasks[i := s.tasks[i].(place := place.value)]))
  }

  function Run(s: System, moves: seq<Move>): Option<System> {
    if moves == [] then Some(s)
    else
      match Run(s, moves[..|moves| - 1])
      case None => None
      case Some(before) => Step(before, moves[|moves| - 1])
  }

  /** Every task at the top of its loop. */
  predicate Booted(s: System) {
    forall t <- s.tasks :: t.place == LoopTop
  }

  // ---- What every run keeps ----

  /** A late call has submitted nothing: it is before its stop check, or was turned away by it. */
  ghost predicate TurnedAway(m: Machine) {
    m.submitted == [] && (m.stage == Top(0) || m.stage == Finished(Err(Shutdown)))
  }

  ghost predicate TaskInv(t: Task, stop: bool) {
    t.place.Calling? ==>
      && RetryMachine.Inv(t.place.call) && t.place.call.stop == stop
      && (t.place.late ==> stop && TurnedAway(t.place.call))
  }

  ghost predicate SystemInv(s: System) {
    forall i | 0 <= i < |s.tasks| :: TaskInv(s.tasks[i], s.stop)
  }

  lemma TaskKeepsInv(t: Task, stop: bool, low: bool, a: Action)
    requires TaskInv(t, stop) && TaskStep(t, stop, low, a).Some?
    ensures TaskInv(t.(place := TaskStep(t, stop, low, a).value), stop)
  {
    if t.place.Calling? && a.InCall? {
      StepKeepsInv(t.place.call, a.event);
    }
  }

  lemma StepKeepsSystemInv(s: System, move: Move)
    requires SystemInv(s) && Step(s, move).Some?
    ensures SystemInv(Step(s, move).value)
  {
    var after := Step(s, move).value;
    if move.Acts? {
      TaskKeepsInv(s.tasks[move.task], s.stop, s.low, move.action);
    }
    forall i | 0 <= i < |after.tasks|
      ensures TaskInv(after.tasks[i], after.stop)
    {
      assert TaskInv(s.tasks[i], s.stop);
    }
  }

  lemma {:induction false} RunKeepsSystemInv(s: System, moves: seq<Move>)
    requires SystemInv(s) && Run(s, moves).Some?
    ensures SystemInv(Run(s, moves).value)
  {
    if moves != [] {
      var n := |moves| - 1;
      RunKeepsSystemInv(s, moves[..n]);
      StepKeepsSystemInv(Run(s, moves[..n]).value, moves[n]);
    }
  }

  // ---- Shutdown ----

  predicate SendsIn(move: Move, i: nat) {
    move.Acts? && move.task == i && move.action.InCall? && move.action.event.Submitted?
  }

  predicate TicksIn(move: Move, i: nat) {
    move == Acts(i, Gated(false))
  }

  predicate ActsIn(move: Move, i: nat) {
    move.Acts? && move.task == i
  }

  /** How many of the moves satisfy `p` for task `i`. */
  function Count(moves: seq<Move>, i: nat, p: (Move, nat) -> bool): nat {
    if moves == [] then 0
    else Count(moves[..|moves| - 1], i, p) + if p(moves[|moves| - 1], i) then 1 else 0
  }

  /** Only a call past its stop check may still submit, and only a task past the one of its loop may still tick. */
  function MaySend(place: Place): nat {
    if place.Calling? then MaySubmit(place.call) else 0
  }

  function MayTick(place: Place): nat {
    if place.Gate? then 1 else 0
  }

  lemma StoppedTask(t: Task, low: bool, i: nat, a: Action)
    requires TaskInv(t, true) && TaskStep(t, true, low, a).Some?
    ensures var after := TaskStep(t, true, low, a).value;
            && MaySend(after) + (if SendsIn(Acts(i, a), i) then 1 else 0) <= MaySend(t.place)
            && MayTick(after) + (if TicksIn(Acts(i, a), i) then 1 else 0) <= MayTick(t.place)
  {
    if t.place.Calling? && a.InCall? {
      StoppedStep(t.place.call, a.event);
    }
  }

  /** Moves of others leave a task alone, but for the flag its call sees. */
  lemma OthersLeaveTask(s: System, i: nat, move: Move)
    requires SystemInv(s) && s.stop && i < |s.tasks| && !ActsIn(move, i) && Step(s, move).Some?
    ensures var after := Step(s, move).value; i < |after.tasks| && after.stop && after.tasks[i] == s.tasks[i]
  {
  }

  lemma {:induction false} StoppedRun(s: System, moves: seq<Move>, i: nat)
    requires SystemInv(s) && s.stop && i < |s.tasks| && Run(s, moves).Some?
    ensures var after := Run(s, moves).value;
            && i < |after.tasks| && after.stop
            && MaySend(after.tasks[i].place) + Count(moves, i, SendsIn) <= MaySend(s.tasks[i].place)
            && MayTick(after.tasks[i].place) + Count(moves, i, TicksIn) <= MayTick(s.tasks[i].place)
  {
    if moves != [] {
      var n := |moves| - 1;
      StoppedRun(s, moves[..n], i);
      RunKeepsSystemInv(s, moves[..n]);
      var before, move := Run(s, moves[..n]).value, moves[n];
      if ActsIn(move, i) {
        StoppedTask(before.tasks[i], before.low, i, move.action);
      } else {
        OthersLeaveTask(before, i, move);
      }
    }
  }

  /** Between the stop check of an attempt and its submission. */
  predicate PastCheck(stage: Stage) {
    stage.Querying? || stage.Fetching? || stage.Signing? || stage.Ready?
  }

  /**
  Once the flag is up, whatever the interleaving: a task submits at most once more, and only in a
  call that was past its check; it begins at most one more tick, and only if it was past the check
  at the loop top; and never both.
  */
  lemma AfterStopSet(boot: System, before: seq<Move>, after: seq<Move>, i: nat)
    requires Booted(boot) && Run(boot, before).Some? && Run(boot, before).value.stop
    requires i < |Run(boot, before).value.tasks| && Run(Run(boot, before).value, after).Some?
    ensures Count(after, i, SendsIn) + Count(after, i, TicksIn) <= 1
    ensures var place := Run(boot, before).value.tasks[i].place;
            && (Count(after, i, SendsIn) == 1 ==> place.Calling? && !place.late && PastCheck(place.call.stage))
            && (Count(after, i, TicksIn) == 1 ==> place.Gate?)
  {
    assert forall k | 0 <= k < |boot.tasks| :: boot.tasks[k] in boot.tasks;
    RunKeepsSystemInv(boot, before);
    StoppedRun(Run(boot, before).value, after, i);
  }

  /** A call begun after the flag went up returns `Err(Shutdown)` and has submitted nothing. */
  lemma LateCallIsRefused(boot: System, moves: seq<Move>, i: nat, result: Result<Signature, Fault>)
    requires Booted(boot) && Run(boot, moves).Some?
    requires var s := Run(boot, moves).value;
             && i < |s.tasks| && s.tasks[i].place.Calling? && s.tasks[i].place.late
             && Step(s, Acts(i, CallEnds(result))).Some?
    ensures result == Err(Shutdown) && Run(boot, moves).value.tasks[i].place.call.submitted == []
  {
    assert forall k | 0 <= k < |boot.tasks| :: boot.tasks[k] in boot.tasks;
    RunKeepsSystemInv(boot, moves);
  }

  /** Steps a task outside a tick has left once the flag is up. */
  function StepsToExit(place: Place): Option<nat> {
    match place
    case Exited => Some(0)
    case LoopTop => Some(1)
    case Sleeping => Some(1)
    case Resting => Some(2)
    case _ => None
  }

  /** A task outside a tick exits within two steps of its own, and exits for good. */
  lemma {:induction false} ExitsBeforeAnotherTick(s: System, moves: seq<Move>, i: nat)
    requires SystemInv(s) && s.stop && i < |s.tasks| && StepsToExit(s.tasks[i].place).Some? && Run(s, moves).Some?
    ensures var after := Run(s, moves).value;
            && i < |after.tasks| && after.stop && StepsToExit(after.tasks[i].place).Some?
            && Count(moves, i, ActsIn) + StepsToExit(after.tasks[i].place).value <= StepsToExit(s.tasks[i].place).value <= 2
            && (Count(moves, i, ActsIn) == 2 ==> after.tasks[i].place == Exited)
  {
    if moves != [] {
      var n := |moves| - 1;
      ExitsBeforeAnotherTick(s, moves[..n], i);
      RunKeepsSystemInv(s, moves[..n]);
      if !ActsIn(moves[n], i) {
        OthersLeaveTask(Run(s, moves[..n]).value, i, moves[n]);
      }
    }
  }

  // ---- Low balance ----

  /** The last verdict of a task's gate, and its submissions since. */
  datatype Window = Window(paused: bool, sends: nat)

  function SinceGate(moves: seq<Move>, i: nat): Window {
    if moves == [] then Window(true, 0)
    else
      var w := SinceGate(moves[..|moves| - 1], i);
      var move := moves[|moves| - 1];
      if ActsIn(move, i) && move.action.Gated? then Window(move.action.paused, 0)
      else if SendsIn(move, i) then w.(sends := w.sends + 1)
      else w
  }

  /** A task is in a tick only if its last gate let it through; before that, and while paused, it submits nothing. */
  lemma {:induction false} PausedTaskIsSilent(boot: System, moves: seq<Move>, i: nat)
    requires Booted(boot) && i < |boot.tasks| && Run(boot, moves).Some?
    ensures var after := Run(boot, moves).value;
            && |after.tasks| == |boot.tasks| && after.tasks[i].needsFeePayer == boot.tasks[i].needsFeePayer
            && (SinceGate(moves, i).paused ==>
                  SinceGate(moves, i).sends == 0 && !after.tasks[i].place.Ticking? && !after.tasks[i].place.Calling?)
  {
    if moves == [] {
      assert boot.tasks[i] in boot.tasks;
    } else {
      PausedTaskIsSilent(boot, moves[..|moves| - 1], i);
    }
  }

  /** The low-balance flag after the moves. */
  function FlagAfter(low: bool, moves: seq<Move>): bool {
    if moves == [] then low
    else
      var move := moves[|moves| - 1];
      if move.LowSet? then move.low else FlagAfter(low, moves[..|moves| - 1])
  }

  predicate GateIn(move: Move, i: nat) {
    ActsIn(move, i) && move.action.Gated?
  }

  /**
  The task's last gate is move `g`; it let the task through, and unless the task does not need the
  fee payer, the flag was down at that very move.
  */
  ghost predicate OpenedBy(boot: System, moves: seq<Move>, i: nat, g: nat)
    requires i < |boot.tasks|
  {
    && g < |moves| && moves[g] == Acts(i, Gated(false))
    && (boot.tasks[i].needsFeePayer ==> !FlagAfter(boot.low, moves[..g]))
    && forall h | g < h < |moves| :: !GateIn(moves[h], i)
  }

  lemma {:induction false} FlagIsTracked(s: System, moves: seq<Move>)
    requires Run(s, moves).Some?
    ensures Run(s, moves).value.low == FlagAfter(s.low, moves)
  {
    if moves != [] {
      FlagIsTracked(s, moves[..|moves| - 1]);
    }
  }

  predicate InTick(place: Place) {
    place.Ticking? || place.Calling?
  }

  lemma IntoTick(t: Task, stop: bool, low: bool, a: Action)
    requires TaskStep(t, stop, low, a).Some? && InTick(TaskStep(t, stop, low, a).value)
    ensures if a.Gated? then a == Gated(false) && !(t.needsFeePayer && low) else InTick(t.place)
  {
  }

  lemma StaysOpened(boot: System, moves: seq<Move>, i: nat, g: nat)
    requires i < |boot.tasks| && moves != [] && OpenedBy(boot, moves[..|moves| - 1], i, g)
    requires !GateIn(moves[|moves| - 1], i)
    ensures OpenedBy(boot, moves, i, g)
  {
    assert moves[..|moves| - 1][..g] == moves[..g];
  }

  lemma OtherMovesKeepTick(s: System, i: nat, move: Move)
    requires i < |s.tasks| && !ActsIn(move, i) && Step(s, move).Some?
    ensures var after := Step(s, move).value; i < |after.tasks| && InTick(after.tasks[i].place) == InTick(s.tasks[i].place)
  {
  }

  /** In every run, a task that is in a tick was let in by its last gate, which did not find the balance low. */
  lemma {:induction false} TicksAreLetIn(boot: System, moves: seq<Move>, i: nat)
    requires Booted(boot) && i < |boot.tasks| && Run(boot, moves).Some?
    requires i < |Run(boot, moves).value.tasks| && InTick(Run(boot, moves).value.tasks[i].place)
    ensures exists g: nat :: OpenedBy(boot, moves, i, g)
  {
    assert forall k | 0 <= k < |boot.tasks| :: boot.tasks[k] in boot.tasks;
    if moves != [] {
      var n := |moves| - 1;
      var before := Run(boot, moves[..n]).value;
      PausedTaskIsSilent(boot, moves[..n], i);
      FlagIsTracked(boot, moves[..n]);
      if ActsIn(moves[n], i) {
        IntoTick(before.tasks[i], before.stop, before.low, moves[n].action);
      } else {
        OtherMovesKeepTick(before, i, moves[n]);
      }
      if GateIn(moves[n], i) {
        assert OpenedBy(boot, moves, i, n);
      } else {
        TicksAreLetIn(boot, moves[..n], i);
        var g: nat :| OpenedBy(boot, moves[..n], i, g);
        StaysOpened(boot, moves, i, g);
      }
    }
  }

  /** So no submission of any run is made on a gate that found the fee payer low. */
  lemma SubmissionsAreLetIn(boot: System, moves: seq<Move>, k: nat, i: nat)
    requires Booted(boot) && i < |boot.tasks| && k < |moves| && Run(boot, moves[..k]).Some?
    requires Step(Run(boot, moves[..k]).value, moves[k]).Some? && SendsIn(moves[k], i)
    ensures exists g: nat :: OpenedBy(boot, moves[..k], i, g)
  {
    TicksAreLetIn(boot, moves[..k], i);
  }

  lemma PrefixRuns(s: System, moves: seq<Move>, n: nat)
    requires Run(s, moves).Some? && n <= |moves|
    ensures Run(s, moves[..n]).Some?
    decreases |moves|
  {
    if n == |moves| {
      assert moves[..n] == moves;
    } else {
      PrefixRuns(s, moves[..|moves| - 1], n);
      assert moves[..|moves| - 1][..n] == moves[..n];
    }
  }

  /** In every run, a gate pauses its task exactly if the task needs the fee payer and the flag is up at that move. */
  lemma GatesFollowTheFlag(boot: System, moves: seq<Move>, g: nat, i: nat, paused: bool)
    requires Booted(boot) && i < |boot.tasks| && Run(boot, moves).Some?
    requires g < |moves| && moves[g] == Acts(i, Gated(paused))
    ensures paused <==> boot.tasks[i].needsFeePayer && FlagAfter(boot.low, moves[..g])
  {
    PrefixRuns(boot, moves, g + 1);
    PrefixRuns(boot, moves, g);
    assert moves[..g + 1][..g] == moves[..g];
    FlagIsTracked(boot, moves[..g]);
    PausedTaskIsSilent(boot, moves[..g], i);
  }

  // ---- No handler gets stuck ----

  /** A call of the retry machine can always go on, whatever it is waiting for. */
  lemma CallCanMove(m: Machine) returns (e: Event)
    requires RetryMachine.Inv(m) && !m.stage.Finished?
    ensures RetryMachine.Step(m, e).Some? && !e.FromEnvironment()
  {
    match m.stage
    case Top(_) => e := StopRead(m.stop);
    case Querying(_) => e := StatusQueried(m.last.value, Absent);
    case Fetching(_) => e := BlockhashFetched(true);
    case Signing(_) => e := TxSigned(Ok(Signature(0)));
    case Ready(_, sig) => e := Submitted(sig, m.bundle);
    case Awaiting(_, _) => e := SendReturned(Confirmed);
    case _ =>
  }

  /** In every run, a handler that has not exited can act; at a gate it is let in unless it needs a low fee payer. */
  lemma HandlersCanMove(boot: System, moves: seq<Move>, i: nat) returns (a: Action)
    requires Booted(boot) && i < |boot.tasks| && Run(boot, moves).Some?
    requires i < |Run(boot, moves).value.tasks| && !Run(boot, moves).value.tasks[i].place.Exited?
    ensures Step(Run(boot, moves).value, Acts(i, a)).Some?
    ensures Run(boot, moves).value.tasks[i].place.Gate? ==>
              a == Gated(boot.tasks[i].needsFeePayer && FlagAfter(boot.low, moves))
  {
    assert forall k | 0 <= k < |boot.tasks| :: boot.tasks[k] in boot.tasks;
    var s := Run(boot, moves).value;
    RunKeepsSystemInv(boot, moves);
    FlagIsTracked(boot, moves);
    PausedTaskIsSilent(boot, moves, i);
    match s.tasks[i].place
    case LoopTop => a := StopChecked(s.stop);
    case Gate => a := Gated(s.tasks[i].needsFeePayer && s.low);
    case Ticking => a := TickEnds;
    case Calling(call, _) =>
      if call.stage.Finished? {
        a := CallEnds(call.stage.result);
      } else {
        var e := CallCanMove(call);
        a := InCall(e);
      }
    case Sleeping => a := StopChecked(s.stop);
    case Resting => a := DeadlineReached;
  }

  /** One undisturbed round of a task: let in, tick, sleep through, and back at the loop top. */
  function Round(i: nat): seq<Move> {
    [Acts(i, StopChecked(false)), Acts(i, Gated(false)), Acts(i, TickEnds), Acts(i, StopChecked(false)), Acts(i, DeadlineReached)]
  }

  function Placed(s: System, i: nat, place: Place): System
    requires i < |s.tasks|
  {
    s.(tasks := s.tasks[i := s.tasks[i].(place := place)])
  }

  lemma StepPlaced(s: System, i: nat, place: Place, a: Action, next: Place)
    requires i < |s.tasks| && TaskStep(Task(s.tasks[i].needsFeePayer, place), s.stop, s.low, a) == Some(next)
    ensures Step(Placed(s, i, place), Acts(i, a)) == Some(Placed(s, i, next))
  {
    var before := Placed(s, i, place);
    assert before.tasks[i] == Task(s.tasks[i].needsFeePayer, place);
    assert before.tasks[i := before.tasks[i].(place := next)] == s.tasks[i := s.tasks[i].(place := next)];
  }

  lemma ThenAct(s: System, moves: seq<Move>, i: nat, place: Place, a: Action, next: Place)
    requires i < |s.tasks| && Run(s, moves) == Some(Placed(s, i, place))
    requires TaskStep(Task(s.tasks[i].needsFeePayer, place), s.stop, s.low, a) == Some(next)
    ensures Run(s, moves + [Acts(i, a)]) == Some(Placed(s, i, next))
  {
    Then(s, moves, Acts(i, a));
    StepPlaced(s, i, place, a, next);
  }

  /** With the stop flag down and a balance that does not matter or is not low, every task goes round and round. */
  lemma {:induction false} HealthyTasksTick(s: System, i: nat)
    requires i < |s.tasks| && s.tasks[i].place == LoopTop && !s.stop && (s.tasks[i].needsFeePayer ==> !s.low)
    ensures Run(s, Round(i)) == Some(s)
  {
    var one := [] + [Acts(i, StopChecked(false))];
    var two := one + [Acts(i, Gated(false))];
    var three := two + [Acts(i, TickEnds)];
    var four := three + [Acts(i, StopChecked(false))];
    assert Placed(s, i, LoopTop) == s by {
      assert s.tasks[i := s.tasks[i].(place := LoopTop)] == s.tasks;
    }
    ThenAct(s, [], i, LoopTop, StopChecked(false), Gate);
    ThenAct(s, one, i, Gate, Gated(false), Ticking);
    ThenAct(s, two, i, Ticking, TickEnds, Sleeping);
    ThenAct(s, three, i, Sleeping, StopChecked(false), Resting);
    ThenAct(s, four, i, Resting, DeadlineReached, LoopTop);
    assert Round(i) == four + [Acts(i, DeadlineReached)];
  }

  // ---- The loop itself ----

  lemma {:induction false} RunConcat(s: System, a: seq<Move>, b: seq<Move>)
    requires Run(s, a).Some?
    ensures Run(s, a + b) == Run(Run(s, a).value, b)
  {
    if b == [] {
      assert a + b == a;
    } else {
      var n := |b| - 1;
      assert (a + b)[..|a + b| - 1] == a + b[..n];
      RunConcat(s, a, b[..n]);
    }
  }

  /** A system of one task that is not in a call. */
  function Alone(needsFeePayer: bool, place: Place, stop: bool, low: bool): System {
    System([Task(needsFeePayer, place)], stop, low)
  }

  lemma Then(s: System, moves: seq<Move>, move: Move)
    requires Run(s, moves).Some?
    ensures Run(s, moves + [move]) == Step(Run(s, moves).value, move)
  {
    assert (moves + [move])[..|moves|] == moves;
  }

  lemma ThenAfter(s: System, moves: seq<Move>, more: seq<Move>, move: Move)
    requires Run(s, moves + more).Some?
    ensures Run(s, moves + (more + [move])) == Step(Run(s, moves + more).value, move)
  {
    Then(s, moves + more, move);
    assert moves + (more + [move]) == moves + more + [move];
  }

  lemma StopAlone(t: Task, stop: bool, low: bool)
    ensures Step(System([t], stop, low), StopSet) == Some(System([SeeStop(t)], true, low))
  {
    assert Step(System([t], stop, low), StopSet).value.tasks == [SeeStop(t)];
  }

  function MaybeStop(raised: bool): seq<Move> {
    if raised then [StopSet] else []
  }

  lemma ThenMaybeStop(s: System, moves: seq<Move>, needsFeePayer: bool, place: Place, stop: bool, low: bool, raised: bool)
    requires Run(s, moves) == Some(Alone(needsFeePayer, place, stop, low)) && !place.Calling?
    ensures Run(s, moves + MaybeStop(raised)) == Some(Alone(needsFeePayer, place, stop || raised, low))
  {
    if raised {
      Then(s, moves, StopSet);
      StopAlone(Task(needsFeePayer, place), stop, low);
    } else {
      assert moves + [] == moves;
    }
  }

  /** The events of a call as moves of the handler task that makes it. */
  function Lift(tr: seq<Event>): seq<Move> {
    if tr == [] then []
    else
      var n := |tr| - 1;
      Lift(tr[..n]) + [if tr[n].StopRaised? then StopSet else Acts(0, InCall(tr[n]))]
  }

  lemma LiftStep(needsFeePayer: bool, m: Machine, late: bool, low: bool, e: Event)
    requires RetryMachine.Step(m, e).Some?
    ensures var next := RetryMachine.Step(m, e).value;
            Step(Alone(needsFeePayer, Calling(m, late), m.stop, low), if e.StopRaised? then StopSet else Acts(0, InCall(e)))
            == Some(Alone(needsFeePayer, Calling(next, late), next.stop, low))
  {
    var next := RetryMachine.Step(m, e).value;
    var tasks := [Task(needsFeePayer, Calling(m, late))];
    if e.StopRaised? {
      StopAlone(tasks[0], m.stop, low);
    } else {
      assert next.stop == m.stop;
      assert tasks[0 := Task(needsFeePayer, Calling(next, late))] == [Task(needsFeePayer, Calling(next, late))];
    }
  }

  lemma {:induction false} LiftRun(needsFeePayer: bool, m: Machine, late: bool, low: bool, tr: seq<Event>)
    requires RetryMachine.Run(m, tr).Some?
    ensures var end := RetryMachine.Run(m, tr).value;
            Run(Alone(needsFeePayer, Calling(m, late), m.stop, low), Lift(tr))
            == Some(Alone(needsFeePayer, Calling(end, late), end.stop, low))
  {
    if tr != [] {
      var n := |tr| - 1;
      LiftRun(needsFeePayer, m, late, low, tr[..n]);
      var mid := RetryMachine.Run(m, tr[..n]).value;
      LiftStep(needsFeePayer, mid, late, low, tr[n]);
      Then(Alone(needsFeePayer, Calling(m, late), m.stop, low), Lift(tr[..n]),
           if tr[n].StopRaised? then StopSet else Acts(0, InCall(tr[n])));
    }
  }

  /** A task under way and the moves so far; `stop` and `low` are the flags now. */
  datatype Life = Life(boot: System, moves: seq<Move>, place: Place, stop: bool, low: bool) {
    function Then(more: seq<Move>, place: Place, stop: bool): Life {
      this.(moves := moves + more, place := place, stop := stop)
    }
  }

  ghost predicate Lived(life: Life, needsFeePayer: bool) {
    Run(life.boot, life.moves) == Some(Alone(needsFeePayer, life.place, life.stop, life.low))
  }

  /** The life so far went on, past so many gates. */
  ghost predicate Continues(life: Life, after: Life, needsFeePayer: bool, stop: bool, gates: nat) {
    Lived(after, needsFeePayer) && after.stop == stop && after.boot == life.boot
    && Count(after.moves, 0, GateIn) == Count(life.moves, 0, GateIn) + gates
  }

  lemma {:induction false} GatesConcat(a: seq<Move>, b: seq<Move>)
    ensures Count(a + b, 0, GateIn) == Count(a, 0, GateIn) + Count(b, 0, GateIn)
  {
    if b == [] {
      assert a + b == a;
    } else {
      var n := |b| - 1;
      assert (a + b)[..|a + b| - 1] == a + b[..n];
      GatesConcat(a, b[..n]);
    }
  }

  lemma {:induction false} NoGates(moves: seq<Move>)
    requires forall move <- moves :: !GateIn(move, 0)
    ensures Count(moves, 0, GateIn) == 0
  {
    if moves != [] {
      var n := |moves| - 1;
      assert moves[n] in moves;
      NoGates(moves[..n]);
    }
  }

  lemma {:induction false} LiftHasNoGates(tr: seq<Event>)
    ensures forall move <- Lift(tr) :: !GateIn(move, 0)
  {
    if tr != [] {
      LiftHasNoGates(tr[..|tr| - 1]);
    }
  }

  lemma CallHasNoGates(moves: seq<Move>, begins: Move, tr: seq<Event>, ends: Move)
    requires !GateIn(begins, 0) && !GateIn(ends, 0)
    ensures Count(moves + [begins] + (Lift(tr) + [ends]), 0, GateIn) == Count(moves, 0, GateIn)
  {
    LiftHasNoGates(tr);
    NoGates([begins]);
    NoGates(Lift(tr) + [ends]);
    GatesConcat(moves, [begins]);
    GatesConcat(moves + [begins], Lift(tr) + [ends]);
  }

  lemma GatesOfAction(raised: bool, a: Action)
    ensures Count(MaybeStop(raised) + [Acts(0, a)], 0, GateIn) == if a.Gated? then 1 else 0
  {
    NoGates(MaybeStop(raised));
    assert (MaybeStop(raised) + [Acts(0, a)])[..|MaybeStop(raised)|] == MaybeStop(raised);
  }

  lemma StepAlone(needsFeePayer: bool, place: Place, stop: bool, low: bool, a: Action, next: Place)
    requires TaskStep(Task(needsFeePayer, place), stop, low, a) == Some(next)
    ensures Step(Alone(needsFeePayer, place, stop, low), Acts(0, a)) == Some(Alone(needsFeePayer, next, stop, low))
  {
    var s := Alone(needsFeePayer, place, stop, low);
    assert s.tasks[0 := s.tasks[0].(place := next)] == [Task(needsFeePayer, next)];
  }

  lemma ActedAlone(life: Life, needsFeePayer: bool, raised: bool, a: Action, next: Place)
    requires Lived(life, needsFeePayer) && !life.place.Calling?
    requires TaskStep(Task(needsFeePayer, life.place), life.stop || raised, life.low, a) == Some(next)
    ensures Run(life.boot, life.moves + (MaybeStop(raised) + [Acts(0, a)]))
            == Some(Alone(needsFeePayer, next, life.stop || raised, life.low))
  {
    ThenMaybeStop(life.boot, life.moves, needsFeePayer, life.place, life.stop, life.low, raised);
    StepAlone(needsFeePayer, life.place, life.stop || raised, life.low, a, next);
    ThenAfter(life.boot, life.moves, MaybeStop(raised), Acts(0, a));
  }

  /** One action, perhaps after the flag went up; `more` is what it adds to the moves. */
  lemma Acted(life: Life, needsFeePayer: bool, raised: bool, a: Action, next: Place) returns (more: seq<Move>)
    requires Lived(life, needsFeePayer) && !life.place.Calling?
    requires TaskStep(Task(needsFeePayer, life.place), life.stop || raised, life.low, a) == Some(next)
    ensures Run(life.boot, life.moves + more) == Some(Alone(needsFeePayer, next, life.stop || raised, life.low))
    ensures Count(more, 0, GateIn) == if a.Gated? then 1 else 0
  {
    ActedAlone(life, needsFeePayer, raised, a, next);
    GatesOfAction(raised, a);
    more := MaybeStop(raised) + [Acts(0, a)];
  }

  /** As `Acted`, with the gates counted. */
  lemma ActedPastGates(life: Life, needsFeePayer: bool, raised: bool, a: Action, next: Place) returns (after: Life)
    requires Lived(life, needsFeePayer) && !life.place.Calling?
    requires TaskStep(Task(needsFeePayer, life.place), life.stop || raised, life.low, a) == Some(next)
    ensures Continues(life, after, needsFeePayer, life.stop || raised, if a.Gated? then 1 else 0)
    ensures after.place == next && after.low == life.low
  {
    var more := Acted(life, needsFeePayer, raised, a, next);
    GatesConcat(life.moves, more);
    after := life.Then(more, next, life.stop || raised);
  }

  lemma Act(life: Life, needsFeePayer: bool, a: Action, next: Place) returns (after: Life)
    requires Lived(life, needsFeePayer) && !life.place.Calling?
    requires TaskStep(Task(needsFeePayer, life.place), life.stop, life.low, a) == Some(next)
    ensures Continues(life, after, needsFeePayer, life.stop, if a.Gated? then 1 else 0)
    ensures after.place == next && after.low == life.low
  {
    after := ActedPastGates(life, needsFeePayer, false, a, next);
  }

  lemma CallIsRun(needsFeePayer: bool, low: bool, before: bool, bundle: Bundle, tr: seq<Event>, result: Result<Signature, Fault>, stop: bool)
    requires CompleteRun(bundle, before, tr, result, stop)
    ensures Run(Alone(needsFeePayer, Calling(Start(bundle, before), before), before, low), Lift(tr) + [Acts(0, CallEnds(result))])
            == Some(Alone(needsFeePayer, Ticking, stop, low))
  {
    var begun := Alone(needsFeePayer, Calling(Start(bundle, before), before), before, low);
    var end := RetryMachine.Run(Start(bundle, before), tr).value;
    LiftRun(needsFeePayer, Start(bundle, before), before, low, tr);
    StepAlone(needsFeePayer, Calling(end, before), stop, low, CallEnds(result), Ticking);
    Then(begun, Lift(tr), Acts(0, CallEnds(result)));
  }

  /** A whole call: it begins, runs as the retry machine, and ends. */
  lemma Called(life: Life, needsFeePayer: bool, bundle: Bundle, tr: seq<Event>, result: Result<Signature, Fault>, stop: bool)
    returns (after: Life)
    requires Lived(life, needsFeePayer) && life.place == Ticking
    requires CompleteRun(bundle, life.stop, tr, result, stop)
    ensures Continues(life, after, needsFeePayer, stop, 0) && after.place == Ticking
  {
    var begins := Acts(0, CallBegins(bundle));
    StepAlone(needsFeePayer, Ticking, life.stop, life.low, CallBegins(bundle), Calling(Start(bundle, life.stop), life.stop));
    Then(life.boot, life.moves, begins);
    CallIsRun(needsFeePayer, life.low, life.stop, bundle, tr, result, stop);
    RunConcat(life.boot, life.moves + [begins], Lift(tr) + [Acts(0, CallEnds(result))]);
    CallHasNoGates(life.moves, begins, tr, Acts(0, CallEnds(result)));
    after := life.(moves := life.moves + [begins] + (Lift(tr) + [Acts(0, CallEnds(result))]), stop := stop);
  }

  /** The stop check, at the loop top or in the sleep. */
  method CheckStop(rpc: Rpc, needsFeePayer: bool, ghost life: Life) returns (stopped: bool, ghost after: Life)
    requires Lived(life, needsFeePayer) && life.stop == rpc.stop && (life.place.LoopTop? || life.place.Sleeping?)
    modifies rpc`stop
    ensures Continues(life, after, needsFeePayer, rpc.stop, 0)
    ensures after.place == if stopped then Exited else if life.place.LoopTop? then Gate else Resting
    ensures stopped ==> rpc.stop
  {
    ghost var t;
    stopped, t := rpc.Stopped();
    ghost var a, next := StopChecked(stopped), if stopped then Exited else if life.place.LoopTop? then Gate else Resting;
    after := ActedPastGates(life, needsFeePayer, StopRaised in t, a, next);
  }

  function Sum(naps: seq<nat>): nat {
    if naps == [] then 0 else Sum(naps[..|naps| - 1]) + naps[|naps| - 1]
  }

  lemma {:induction false} SumOfParts(a: seq<nat>, b: seq<nat>)
    ensures Sum(a + b) == Sum(a) + Sum(b)
    ensures |a| == 1 ==> Sum(a) == a[0]
  {
    if b == [] {
      assert a + b == a;
    } else {
      var n := |b| - 1;
      assert (a + b)[..|a + b| - 1] == a + b[..n];
      SumOfParts(a, b[..n]);
    }
  }

  /**
  The sliced sleep, in milliseconds: it reads the flag before every slice, no slice is over a
  second, and the slices asked for never exceed the interval.
  */
  method SlicedSleep(rpc: Rpc, needsFeePayer: bool, interval: nat, ghost life: Life)
    returns (stopped: bool, elapsed: nat, ghost naps: seq<nat>, ghost after: Life)
    requires Lived(life, needsFeePayer) && life.stop == rpc.stop && life.place.Sleeping?
    modifies rpc`stop
    ensures Continues(life, after, needsFeePayer, rpc.stop, 0)
    ensures after.place == if stopped then Exited else LoopTop
    ensures stopped ==> rpc.stop
    ensures (forall nap <- naps :: 0 < nap <= 1000) && Sum(naps) <= Min(interval, elapsed)
    ensures !stopped ==> elapsed >= interval
  {
    elapsed, naps, after := 0, [], life;
    while true
      invariant Continues(life, after, needsFeePayer, rpc.stop, 0) && after.place.Sleeping?
      invariant (forall nap <- naps :: 0 < nap <= 1000) && Sum(naps) <= Min(interval, elapsed)
      decreases Max(interval - elapsed, 0)
    {
      stopped, after := CheckStop(rpc, needsFeePayer, after);
      if stopped {
        return;
      }
      var passed: nat :| passed >= 0;
      elapsed := elapsed + passed;
      if elapsed >= interval {
        after := Act(after, needsFeePayer, DeadlineReached, LoopTop);
        return;
      }
      var nap: nat := Min(interval - elapsed, 1000);
      var overslept: nat :| overslept >= 0;
      elapsed := elapsed + nap + overslept;
      assert (naps + [nap])[..|naps|] == naps;
      naps := naps + [nap];
      after := Act(after, needsFeePayer, Slept, Sleeping);
    }
  }

  /** A tick of any handler: any number of sends, on either path, with whatever it builds. */
  method Tick(rpc: Rpc, needsFeePayer: bool, ghost life: Life) returns (ghost after: Life)
    requires Lived(life, needsFeePayer) && life.stop == rpc.stop && life.place.Ticking?
    modifies rpc`stop
    ensures Continues(life, after, needsFeePayer, rpc.stop, 0) && after.place.Sleeping?
  {
    after := life;
    var sends: nat :| sends >= 0;
    for k := 0 to sends
      invariant Continues(life, after, needsFeePayer, rpc.stop, 0) && after.place.Ticking?
    {
      var bundle: Bundle, v0: bool := *, *;
      ghost var tr;
      var result;
      if v0 {
        result, tr := rpc.SendV0WithRetry(bundle);
      } else {
        result, tr := rpc.SendWithRetry(bundle);
      }
      after := Called(after, needsFeePayer, bundle, tr, result, rpc.stop);
    }
    after := Act(after, needsFeePayer, TickEnds, Sleeping);
  }

  /** Refresh of the low-balance flag by the balance loop. */
  lemma SetLow(life: Life, needsFeePayer: bool, low: bool) returns (after: Life)
    requires Lived(life, needsFeePayer)
    ensures Continues(life, after, needsFeePayer, life.stop, 0) && after.place == life.place && after.low == low
  {
    assert (life.moves + [LowSet(low)])[..|life.moves|] == life.moves;
    Then(life.boot, life.moves, LowSet(low));
    after := life.(moves := life.moves + [LowSet(low)], low := low);
  }

  /**
  The loop of `spawn`, for any number of rounds: what it does is a run of this machine, with one gate
  in every round, and it returns exactly by finding the flag up.
  */
  method Supervise(rpc: Rpc, needsFeePayer: bool, interval: nat, rounds: nat) returns (exited: bool, ghost life: Life)
    modifies rpc`stop
    ensures Lived(life, needsFeePayer) && life.stop == rpc.stop
    ensures life.boot == Alone(needsFeePayer, LoopTop, old(rpc.stop), life.boot.low)
    ensures life.place == if exited then Exited else LoopTop
    ensures exited ==> rpc.stop
    ensures if exited then Count(life.moves, 0, GateIn) <= rounds else Count(life.moves, 0, GateIn) == rounds
  {
    var low: bool := *;
    exited, life := false, Life(Alone(needsFeePayer, LoopTop, rpc.stop, low), [], LoopTop, rpc.stop, low);
    ghost var boot := life;
    for round := 0 to rounds
      invariant Continues(boot, life, needsFeePayer, rpc.stop, round) && life.place == LoopTop
    {
      exited, life := CheckStop(rpc, needsFeePayer, life);
      if exited {
        return;
      }
      low := *;
      life := SetLow(life, needsFeePayer, low);
      var paused := needsFeePayer && low;
      life := Act(life, needsFeePayer, Gated(paused), if paused then Sleeping else Ticking);
      if !paused {
        life := Tick(rpc, needsFeePayer, life);
      }
      var elapsed;
      ghost var naps;
      exited, elapsed, naps, life := SlicedSleep(rpc, needsFeePayer, interval, life);
      if exited {
        return;
      }
    }
  }
}

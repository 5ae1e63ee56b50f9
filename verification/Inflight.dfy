/**
The in-flight guard every handler repeats: insert the key or skip the item, work, remove the key.
Any number of overlapping ticks of one handler share the set; their steps interleave freely.
*/
module Inflight {
  import opened Prelude

  /** A tick: the keys it has still to take up, the one it holds, if any, and what the work on it returned. */
  datatype Tick<Key> = Tick(todo: seq<Key>, inside: Option<Key>, returned: Option<bool>)

  /** `begun` is history: the keys in the order their guarded sections began. */
  datatype System<Key> = System(inflight: set<Key>, ticks: seq<Tick<Key>>, begun: seq<Key>)

  /**
  `Take`: claim the next key or skip it. `Return`: the work on the key is over, well or not.
  `Release`: the key is given back, before the result is looked at.
  */
  datatype Move = Take(tick: nat) | Return(tick: nat, ok: bool) | Release(tick: nat)

  function Step<Key(!new)>(s: System<Key>, move: Move): Option<System<Key>> {
    var i := move.tick;
    if i >= |s.ticks| then None
    else
      var t := s.ticks[i];
      match move
      case Take(_) =>
        if t.inside.Some? || t.todo == [] then None
        else if t.todo[0] in s.inflight then Some(s.(ticks := s.ticks[i := t.(todo := t.todo[1..])]))
        else
          Some(System(
            s.inflight + {t.todo[0]},
            s.ticks[i := Tick(t.todo[1..], Some(t.todo[0]), None)],
            s.begun + [t.todo[0]]))
      case Return(_, ok) =>
        if t.inside.None? || t.returned.Some? then None
        else Some(s.(ticks := s.ticks[i := t.(returned := Some(ok))]))
      case Release(_) =>
        if t.inside.None? || t.returned.None? then None
        else
          Some(s.(inflight := s.inflight - {t.inside.value}, ticks := s.ticks[i := t.(inside := None, returned := None)]))
  }

  function Run<Key(!new)>(s: System<Key>, moves: seq<Move>): Option<System<Key>> {
    if moves == [] then Some(s)
    else
      var before := Run(s, moves[..|moves| - 1]);
      if before.None? then None else Step(before.value, moves[|moves| - 1])
  }

  function Boot<Key(!new)>(todos: seq<seq<Key>>): System<Key> {
    System({}, seq(|todos|, i requires 0 <= i < |todos| => Tick(todos[i], None, None)), [])
  }

  ghost predicate Works<Key(!new)>(s: System<Key>, i: nat, key: Key) {
    i < |s.ticks| && s.ticks[i].inside == Some(key)
  }

  /** A key is in the set exactly when one tick, and one only, is inside its guarded section. */
  ghost predicate Exclusive<Key(!new)>(s: System<Key>) {
    && (forall key :: key in s.inflight <==> exists i :: Works(s, i, key))
    && (forall i, j, key | Works(s, i, key) && Works(s, j, key) :: i == j)
  }

  lemma TakeKeepsExclusive<Key(!new)>(s: System<Key>, i: nat)
    requires Exclusive(s) && Step(s, Take(i)).Some?
    ensures Exclusive(Step(s, Take(i)).value)
  {
    var after := Step(s, Take(i)).value;
    forall key
      ensures key in after.inflight <==> exists j :: Works(after, j, key)
    {
      if j :| Works(s, j, key) {
        assert Works(after, j, key);
      }
      if Works(after, i, key) {
        assert key in after.inflight;
      }
      if j :| Works(after, j, key) && j != i {
        assert Works(s, j, key);
      }
      if key in after.inflight && key !in s.inflight {
        assert Works(after, i, key);
      }
    }
    forall j, k, key | Works(after, j, key) && Works(after, k, key)
      ensures j == k
    {
      assert j != i ==> Works(s, j, key);
      assert k != i ==> Works(s, k, key);
    }
  }

  lemma ReleaseKeepsExclusive<Key(!new)>(s: System<Key>, i: nat)
    requires Exclusive(s) && Step(s, Release(i)).Some?
    ensures Exclusive(Step(s, Release(i)).value)
  {
    var after := Step(s, Release(i)).value;
    assert forall j, key :: Works(after, j, key) <==> Works(s, j, key) && j != i;
    assert Works(s, i, s.ticks[i].inside.value);
  }

  lemma ReturnKeepsExclusive<Key(!new)>(s: System<Key>, i: nat, ok: bool)
    requires Exclusive(s) && Step(s, Return(i, ok)).Some?
    ensures Exclusive(Step(s, Return(i, ok)).value)
  {
    assert forall j, key :: Works(Step(s, Return(i, ok)).value, j, key) <==> Works(s, j, key);
  }

  lemma {:induction false} AlwaysExclusive<Key(!new)>(s: System<Key>, moves: seq<Move>)
    requires Exclusive(s) && Run(s, moves).Some?
    ensures Exclusive(Run(s, moves).value)
  {
    if moves != [] {
      var n := |moves| - 1;
      AlwaysExclusive(s, moves[..n]);
      match moves[n]
      case Take(i) => TakeKeepsExclusive(Run(s, moves[..n]).value, i);
      case Return(i, ok) => ReturnKeepsExclusive(Run(s, moves[..n]).value, i, ok);
      case Release(i) => ReleaseKeepsExclusive(Run(s, moves[..n]).value, i);
    }
  }

  /** In every interleaving: mutual exclusion by key, and an empty set whenever no tick is inside. */
  lemma MutualExclusion<Key(!new)>(todos: seq<seq<Key>>, moves: seq<Move>)
    requires Run(Boot(todos), moves).Some?
    ensures var s := Run(Boot(todos), moves).value;
            && Exclusive(s)
            && ((forall i | 0 <= i < |s.ticks| :: s.ticks[i].inside.None?) ==> s.inflight == {})
  {
    assert Exclusive(Boot(todos)) by {
      assert forall i, key :: !Works(Boot(todos), i, key);
    }
    AlwaysExclusive(Boot(todos), moves);
  }

  /** A tick releases only its own key: every other tick's key stays in the set. */
  lemma ReleasesOnlyItsOwn<Key(!new)>(todos: seq<seq<Key>>, moves: seq<Move>, i: nat, j: nat, key: Key)
    requires Run(Boot(todos), moves).Some? && Step(Run(Boot(todos), moves).value, Release(i)).Some?
    requires j != i && Works(Run(Boot(todos), moves).value, j, key)
    ensures var after := Step(Run(Boot(todos), moves).value, Release(i)).value;
            key in after.inflight && Works(after, j, key) && !Works(after, i, key)
  {
    MutualExclusion(todos, moves);
    var s := Run(Boot(todos), moves).value;
    assert Works(s, i, s.ticks[i].inside.value);
    ReleaseKeepsExclusive(s, i);
    assert Works(Step(s, Release(i)).value, j, key);
  }

  // ---- Nothing listed is lost ----

  /** Every key of the lists is begun or still to be taken up. */
  ghost predicate Covered<Key(!new)>(todos: seq<seq<Key>>, s: System<Key>) {
    && |s.ticks| == |todos|
    && (forall key <- s.inflight :: key in s.begun)
    && forall i | 0 <= i < |todos| :: forall key <- todos[i] :: key in s.begun || key in s.ticks[i].todo
  }

  lemma StepKeepsCovered<Key(!new)>(todos: seq<seq<Key>>, s: System<Key>, move: Move)
    requires Covered(todos, s) && Step(s, move).Some?
    ensures Covered(todos, Step(s, move).value)
  {
    var after, i := Step(s, move).value, move.tick;
    assert forall key <- s.begun :: key in after.begun;
    if move.Take? {
      var todo := s.ticks[i].todo;
      assert todo == [todo[0]] + todo[1..];
      assert todo[0] in after.begun;
    }
  }

  lemma {:induction false} RunKeepsCovered<Key(!new)>(todos: seq<seq<Key>>, moves: seq<Move>)
    requires Run(Boot(todos), moves).Some?
    ensures Covered(todos, Run(Boot(todos), moves).value)
  {
    if moves != [] {
      var n := |moves| - 1;
      RunKeepsCovered(todos, moves[..n]);
      StepKeepsCovered(todos, Run(Boot(todos), moves[..n]).value, moves[n]);
    }
  }

  /** Skipping loses nothing: once every tick is through its list, each listed key was worked by some tick. */
  lemma EveryKeyIsWorked<Key(!new)>(todos: seq<seq<Key>>, moves: seq<Move>, i: nat, key: Key)
    requires Run(Boot(todos), moves).Some? && i < |todos| && key in todos[i]
    requires forall t <- Run(Boot(todos), moves).value.ticks :: t.todo == []
    ensures key in Run(Boot(todos), moves).value.begun
  {
    RunKeepsCovered(todos, moves);
    var s := Run(Boot(todos), moves).value;
    assert s.ticks[i] in s.ticks;
  }

  // ---- Every interleaving ends ----

  function LeftOf<Key(!new)>(t: Tick<Key>): nat {
    3 * |t.todo| + if t.inside.None? then 0 else if t.returned.None? then 2 else 1
  }

  function Left<Key(!new)>(ticks: seq<Tick<Key>>): nat {
    if ticks == [] then 0
    else
      var t := ticks[|ticks| - 1];
      Left(ticks[..|ticks| - 1]) + LeftOf(t)
  }

  lemma {:induction false} LeftOfUpdate<Key(!new)>(ticks: seq<Tick<Key>>, i: nat, t: Tick<Key>)
    requires i < |ticks|
    ensures Left(ticks[i := t]) == Left(ticks) + LeftOf(t) - LeftOf(ticks[i])
  {
    var n := |ticks| - 1;
    if i < n {
      LeftOfUpdate(ticks[..n], i, t);
      assert ticks[i := t][..n] == ticks[..n][i := t];
    } else {
      assert ticks[i := t][..n] == ticks[..n];
    }
  }

  /** Each move uses up at least one of three per listed key. */
  lemma {:induction false} RunsEnd<Key(!new)>(s: System<Key>, moves: seq<Move>)
    requires Run(s, moves).Some?
    ensures |moves| + Left(Run(s, moves).value.ticks) <= Left(s.ticks)
  {
    if moves != [] {
      var n := |moves| - 1;
      RunsEnd(s, moves[..n]);
      var before, after, i := Run(s, moves[..n]).value, Run(s, moves).value, moves[n].tick;
      LeftOfUpdate(before.ticks, i, after.ticks[i]);
    }
  }

  function Listed<Key(!new)>(todos: seq<seq<Key>>): nat {
    if todos == [] then 0 else Listed(todos[..|todos| - 1]) + |todos[|todos| - 1]|
  }

  lemma {:induction false} LeftAtBoot<Key(!new)>(todos: seq<seq<Key>>)
    ensures Left(Boot(todos).ticks) == 3 * Listed(todos)
  {
    if todos != [] {
      var n := |todos| - 1;
      LeftAtBoot(todos[..n]);
      assert Boot(todos).ticks[..n] == Boot(todos[..n]).ticks;
    }
  }

  /** From boot, every interleaving is at most three moves per listed key long. */
  lemma AllRunsEnd<Key(!new)>(todos: seq<seq<Key>>, moves: seq<Move>)
    requires Run(Boot(todos), moves).Some?
    ensures |moves| <= 3 * Listed(todos)
  {
    LeftAtBoot(todos);
    RunsEnd(Boot(todos), moves);
  }
}

/** The life of one agent: its state machine, its error and its bounded history. */
module AgentLifecycle {
  import opened Basics

  datatype AgentState = Created | Running | Paused | Suspended | Migrating | Error | Terminated

  /** The transition table. */
  predicate CanTransition(a: AgentState, b: AgentState) {
    match a
    case Created => b == Running || b == Terminated
    case Running => b == Paused || b == Suspended || b == Migrating || b == Error || b == Terminated
    case Paused => b == Running || b == Suspended || b == Migrating || b == Terminated
    case Suspended => b == Running || b == Paused || b == Migrating || b == Error || b == Terminated
    case Migrating => b == Running || b == Error || b == Terminated
    case Error => b == Running || b == Suspended || b == Terminated
    case Terminated => false
  }

  datatype AgentError = AgentError(fatal: bool, recoveryAttempts: nat)

  datatype Result = Success | InvalidTransition | Blocked

  const MAX_STATE_HISTORY: nat := 10

  datatype Agent = Agent(state: AgentState, error: Option<AgentError>, history: seq<AgentState>)

  const NEW_AGENT: Agent := Agent(Created, None, [Created])

  datatype Op =
    | TransitionTo(target: AgentState)
    | SetError(error: AgentError)
    | AttemptRecovery
    | SetState(target: AgentState)

  /** The history with one more state, the oldest dropped beyond ten. */
  function Remember(history: seq<AgentState>, s: AgentState): (h: seq<AgentState>) {
    var longer := history + [s];
    if |longer| > MAX_STATE_HISTORY then longer[1..] else longer
  }

  function Moved(a: Agent, target: AgentState): (r: (Agent, Result)) {
    if !CanTransition(a.state, target) then (a, InvalidTransition)
    else (Agent(target, if a.state == Error && target != Error then None else a.error,
                Remember(a.history, a.state)), Success)
  }

  function Step(a: Agent, op: Op): (r: (Agent, Result)) {
    match op
    case TransitionTo(target) => Moved(a, target)
    case SetError(e) =>
      if !CanTransition(a.state, Error) then (a, InvalidTransition)
      else (Agent(Error, Some(e), Remember(a.history, a.state)), Success)
    case AttemptRecovery =>
      if a.state != Error then (a, InvalidTransition)
      else if a.error.Some? && a.error.value.fatal then (a, Blocked)
      else
        var e := if a.error.Some? then Some(a.error.value.(recoveryAttempts := a.error.value.recoveryAttempts + 1)) else None;
        Moved(a.(error := e), Running)
    case SetState(target) => (a.(state := target, history := Remember(a.history, a.state)), Success)
  }

  function Run(ops: seq<Op>): (a: Agent) {
    if ops == [] then NEW_AGENT else Step(Run(ops[..|ops| - 1]), ops[|ops| - 1]).0
  }

  /** The states left so far, in order. */
  function Left(ops: seq<Op>): (states: seq<AgentState>) {
    if ops == [] then []
    else
      var k := |ops| - 1;
      Left(ops[..k]) + if Step(Run(ops[..k]), ops[k]).1 == Success then [Run(ops[..k]).state] else []
  }

  predicate Validated(ops: seq<Op>) { forall i :: 0 <= i < |ops| ==> !ops[i].SetState? }

  // ---------------------------------------------------------------- invariants

  /** Each state leads to the next by the table. */
  predicate Path(states: seq<AgentState>) {
    forall i :: 0 < i < |states| ==> CanTransition(states[i - 1], states[i])
  }

  lemma RememberIsLastTen(states: seq<AgentState>, s: AgentState)
    ensures Remember(Last(states, MAX_STATE_HISTORY), s) == Last(states + [s], MAX_STATE_HISTORY)
  {
  }

  lemma StepIsTransition(a: Agent, op: Op)
    requires !op.SetState? && (a.error.Some? ==> a.state == Error)
    ensures var (a', r) := Step(a, op);
            && (r == Success ==> CanTransition(a.state, a'.state) && a'.history == Remember(a.history, a.state))
            && (r != Success ==> a' == a)
            && (a'.error.Some? ==> a'.state == Error)
  {
  }

  // ---------------------------------------------------------------- main results

  /** In every run without the unchecked setter: the history is the last ten of Created followed by
      the states left so far, those states and the present one are a legal path, and an error is
      stored only in the Error state. */
  lemma {:induction false} HistoryIsThePath(ops: seq<Op>)
    requires Validated(ops)
    ensures Run(ops).history == Last([Created] + Left(ops), MAX_STATE_HISTORY)
    ensures Path(Left(ops) + [Run(ops).state]) && (Left(ops) + [Run(ops).state])[0] == Created
    ensures Run(ops).error.Some? ==> Run(ops).state == Error
  {
    if ops != [] {
      var k := |ops| - 1;
      var a, left := Run(ops[..k]), Left(ops[..k]);
      HistoryIsThePath(ops[..k]);
      StepIsTransition(a, ops[k]);
      var (a', r) := Step(a, ops[k]);
      if r == Success {
        assert Left(ops) == left + [a.state];
        RememberIsLastTen([Created] + left, a.state);
        assert [Created] + left + [a.state] == [Created] + (left + [a.state]);
        PathExtends(left + [a.state], a'.state);
      } else {
        assert Left(ops) == left;
      }
    }
  }

  lemma PathExtends(states: seq<AgentState>, s: AgentState)
    requires states != [] && Path(states) && CanTransition(states[|states| - 1], s)
    ensures Path(states + [s]) && (states + [s])[0] == states[0]
  {
    var longer := states + [s];
    forall i | 0 < i < |longer| ensures CanTransition(longer[i - 1], longer[i]) {
      if i < |states| {
        assert longer[i - 1] == states[i - 1] && longer[i] == states[i];
      }
    }
  }

  /** The one way out of Terminated. */
  predicate Revives(op: Op) { op.SetState? && op.target != Terminated }

  lemma {:induction false} StaysTerminated(ops: seq<Op>, more: seq<Op>)
    requires Run(ops).state == Terminated && forall i :: 0 <= i < |more| ==> !Revives(more[i])
    ensures Run(ops + more).state == Terminated
    decreases |more|
  {
    if more == [] {
      assert ops + more == ops;
    } else {
      StaysTerminated(ops, more[..|more| - 1]);
      OneMore(ops, more, |more| - 1);
      assert more[..|more|] == more;
    }
  }

  lemma OneMore(ops: seq<Op>, more: seq<Op>, i: nat)
    requires i < |more|
    ensures Run(ops + more[..i + 1]) == Step(Run(ops + more[..i]), more[i]).0
  {
    assert (ops + more[..i + 1])[..|ops| + i] == ops + more[..i];
  }

  /** Over every further run Terminated is left exactly by the unchecked setter with another state: no
      transition, error or recovery gets out of it. */
  lemma TerminatedIsFinal(ops: seq<Op>, more: seq<Op>)
    requires Run(ops).state == Terminated
    ensures (forall k :: 0 <= k <= |more| ==> Run(ops + more[..k]).state == Terminated) <==>
            (forall i :: 0 <= i < |more| ==> !Revives(more[i]))
  {
    if forall i :: 0 <= i < |more| ==> !Revives(more[i]) {
      forall k | 0 <= k <= |more| ensures Run(ops + more[..k]).state == Terminated {
        StaysTerminated(ops, more[..k]);
      }
    } else {
      var i :| 0 <= i < |more| && Revives(more[i]);
      OneMore(ops, more, i);
      assert Run(ops + more[..i + 1]).state != Terminated;
    }
  }

  predicate ErrorInPlace(a: Agent) { a.error.Some? ==> a.state == Error }

  /** The unchecked setter with a state other than Error, called while an error is stored. */
  predicate StraysFrom(a: Agent, op: Op) { op.SetState? && op.target != Error && a.error.Some? }

  /** The stored error leaves the Error state exactly by such a call. */
  lemma ErrorLeavesExactlyWhen(a: Agent, op: Op)
    requires ErrorInPlace(a)
    ensures ErrorInPlace(Step(a, op).0) <==> !StraysFrom(a, op)
  {
  }

  lemma {:induction false} ErrorStaysInPlace(ops: seq<Op>, n: nat)
    requires n <= |ops| && forall i :: 0 <= i < n ==> !StraysFrom(Run(ops[..i]), ops[i])
    ensures ErrorInPlace(Run(ops[..n]))
  {
    if n > 0 {
      ErrorStaysInPlace(ops, n - 1);
      ErrorLeavesExactlyWhen(Run(ops[..n - 1]), ops[n - 1]);
      assert ops[..n][..n - 1] == ops[..n - 1];
    }
  }

  /** In every run an error is stored only in the Error state, all along, if and only if the setter is never
      called with another state while one is stored. */
  lemma ErrorStaysInPlaceExactlyWhen(ops: seq<Op>)
    ensures (forall k :: 0 <= k <= |ops| ==> ErrorInPlace(Run(ops[..k]))) <==>
            (forall i :: 0 <= i < |ops| ==> !StraysFrom(Run(ops[..i]), ops[i]))
  {
    if forall i :: 0 <= i < |ops| ==> !StraysFrom(Run(ops[..i]), ops[i]) {
      forall k | 0 <= k <= |ops| ensures ErrorInPlace(Run(ops[..k])) {
        ErrorStaysInPlace(ops, k);
      }
    } else {
      var i :| 0 <= i < |ops| && StraysFrom(Run(ops[..i]), ops[i]);
      assert ops[..i + 1][..i] == ops[..i];
      assert !ErrorInPlace(Run(ops[..i + 1]));
    }
  }

  /** An ordinary transition that the table allows out of Error, or the unchecked setter. */
  predicate Escapes(op: Op) { op.SetState? || (op.TransitionTo? && CanTransition(Error, op.target)) }

  predicate FatallyFailed(a: Agent) { a.state == Error && a.error.Some? && a.error.value.fatal }

  lemma StepOnFatal(a: Agent, op: Op)
    requires FatallyFailed(a)
    ensures Step(a, op).1 == Success <==> Escapes(op)
    ensures Escapes(op) ==> Step(a, op).0.state == op.target
    ensures Escapes(op) && !op.SetState? ==> Step(a, op).0.error.None?
    ensures !Escapes(op) ==> Step(a, op).0 == a
    ensures op.AttemptRecovery? ==> Step(a, op).1 == Blocked
  {
  }

  lemma LeftOneMore(ops: seq<Op>, op: Op)
    ensures |Left(ops + [op])| == |Left(ops)| + if Step(Run(ops), op).1 == Success then 1 else 0
    ensures Run(ops + [op]) == Step(Run(ops), op).0
  {
    assert (ops + [op])[..|ops|] == ops;
  }

  /** Over every further run, an agent with a fatal error stays exactly as it is if and only if neither the
      setter nor an ordinary transition out of Error is asked for: recovery attempts and new errors never get
      it out, and any transition the table allows does, forgetting the error. */
  lemma {:induction false} FatalErrorBlocksOnlyRecovery(ops: seq<Op>, more: seq<Op>)
    requires FatallyFailed(Run(ops))
    ensures |Left(ops)| <= |Left(ops + more)|
    ensures |Left(ops + more)| == |Left(ops)| <==> forall i :: 0 <= i < |more| ==> !Escapes(more[i])
    ensures |Left(ops + more)| == |Left(ops)| ==> Run(ops + more) == Run(ops)
    decreases |more|
  {
    if more == [] {
      assert ops + more == ops;
    } else {
      var k := |more| - 1;
      var before := ops + more[..k];
      assert ops + more == before + [more[k]];
      FatalErrorBlocksOnlyRecovery(ops, more[..k]);
      LeftOneMore(before, more[k]);
      if |Left(before)| == |Left(ops)| {
        StepOnFatal(Run(ops), more[k]);
      }
      assert forall i :: 0 <= i < |more| ==> i == k || more[i] == more[..k][i];
    }
  }

  // ---------------------------------------------------------------- reachable states

  /** A legal path of at least one transition leads from one state to the other. */
  ghost predicate Reachable(a: AgentState, b: AgentState) {
    exists path: seq<AgentState> :: |path| >= 2 && path[0] == a && path[|path| - 1] == b && Path(path)
  }

  lemma PathEnds(path: seq<AgentState>)
    requires |path| >= 2 && Path(path)
    ensures path[0] != Terminated && path[|path| - 1] != Created
  {
    var first, last := 1, |path| - 1;
    assert CanTransition(path[first - 1], path[first]) && CanTransition(path[last - 1], path[last]);
  }

  function ShortPath(a: AgentState, b: AgentState): (path: seq<AgentState>)
    ensures 2 <= |path| <= 3 && path[0] == a && path[|path| - 1] == b
  {
    if CanTransition(a, b) then [a, b] else [a, if a == Running then Paused else Running, b]
  }

  lemma ShortPathIsLegal(a: AgentState, b: AgentState)
    requires a != Terminated && b != Created
    ensures Path(ShortPath(a, b))
  {
    if !CanTransition(a, b) {
      var mid := if a == Running then Paused else Running;
      assert CanTransition(a, mid) && CanTransition(mid, b);
    }
  }

  /** Every state but Created can be reached from every state but Terminated, and nothing else can; two
      transitions are enough. */
  lemma ReachableExactlyWhen(a: AgentState, b: AgentState) returns (path: seq<AgentState>)
    ensures Reachable(a, b) <==> a != Terminated && b != Created
    ensures Reachable(a, b) ==> 2 <= |path| <= 3 && path[0] == a && path[|path| - 1] == b && Path(path)
  {
    path := ShortPath(a, b);
    if Reachable(a, b) {
      var p: seq<AgentState> :| |p| >= 2 && p[0] == a && p[|p| - 1] == b && Path(p);
      PathEnds(p);
    }
    if a != Terminated && b != Created {
      ShortPathIsLegal(a, b);
    }
  }

  /** The unchecked setter can leave Terminated and can keep an error outside the Error state. */
  lemma SetterBreaksBoth(e: AgentError)
    ensures var ops := [TransitionTo(Running), SetError(e), SetState(Terminated), SetState(Running)];
            && Run(ops[..3]).state == Terminated
            && Run(ops).state == Running && Run(ops).error == Some(e)
  {
    var o0, o1, o2, o3 := TransitionTo(Running), SetError(e), SetState(Terminated), SetState(Running);
    var ops := [o0, o1, o2, o3];
    assert ops[..3] == [o0, o1, o2] && [o0, o1, o2][..2] == [o0, o1] && [o0, o1][..1] == [o0] && [o0][..0] == [];
    assert Run([o0]) == Agent(Running, None, [Created, Created]);
    assert Run([o0, o1]) == Agent(Error, Some(e), [Created, Created, Running]);
    assert Run([o0, o1, o2]).state == Terminated && Run([o0, o1, o2]).error == Some(e);
  }

  // ---------------------------------------------------------------- the object

  class LiveAgent {
    var state: AgentState
    var error: Option<AgentError>
    var history: seq<AgentState>
    ghost var ops: seq<Op>

    ghost function View(): Agent
      reads this
    {
      Agent(state, error, history)
    }

    ghost predicate Valid()
      reads this
    {
      View() == Run(ops)
    }

    constructor ()
      ensures Valid() && ops == [] && state == Created
    {
      state, error, history, ops := Created, None, [Created], [];
    }

    method Push()
      modifies this`history
      ensures history == Remember(old(history), state)
    {
      history := history + [state];
      if |history| > MAX_STATE_HISTORY {
        history := history[1..];
      }
    }

    method ChangeTo(target: AgentState) returns (r: Result)
      modifies this`state, this`error, this`history
      ensures (View(), r) == Moved(old(View()), target)
    {
      if !CanTransition(state, target) {
        return InvalidTransition;
      }
      Push();
      if state == Error && target != Error {
        error := None;
      }
      state := target;
      return Success;
    }

    method TransitionTo(target: AgentState) returns (r: Result)
      requires Valid()
      modifies this
      ensures Valid() && ops == old(ops) + [Op.TransitionTo(target)]
      ensures r == Success <==> CanTransition(old(state), target)
      ensures state == if r == Success then target else old(state)
    {
      assert (ops + [Op.TransitionTo(target)])[..|ops|] == ops;
      r := ChangeTo(target);
      ops := ops + [Op.TransitionTo(target)];
    }

    method SetError(e: AgentError) returns (r: Result)
      requires Valid()
      modifies this
      ensures Valid() && ops == old(ops) + [Op.SetError(e)]
      ensures r == Success <==> CanTransition(old(state), Error)
    {
      assert (ops + [Op.SetError(e)])[..|ops|] == ops;
      ops := ops + [Op.SetError(e)];
      if !CanTransition(state, Error) {
        return InvalidTransition;
      }
      Push();
      error := Some(e);
      state := Error;
      return Success;
    }

    method AttemptRecovery() returns (r: Result)
      requires Valid()
      modifies this
      ensures Valid() && ops == old(ops) + [Op.AttemptRecovery]
      ensures r == Blocked <==> old(state) == Error && old(error).Some? && old(error).value.fatal
      ensures r == Success ==> state == Running && error.None?
    {
      assert (ops + [Op.AttemptRecovery])[..|ops|] == ops;
      ops := ops + [Op.AttemptRecovery];
      if state != Error {
        return InvalidTransition;
      }
      if error.Some? {
        if error.value.fatal {
          return Blocked;
        }
        error := Some(error.value.(recoveryAttempts := error.value.recoveryAttempts + 1));
      }
      r := ChangeTo(Running);
    }

    method SetState(target: AgentState)
      requires Valid()
      modifies this
      ensures Valid() && ops == old(ops) + [Op.SetState(target)]
    {
      assert (ops + [Op.SetState(target)])[..|ops|] == ops;
      ops := ops + [Op.SetState(target)];
      Push();
      state := target;
    }
  }
}

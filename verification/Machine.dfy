/** A finite-state actor whose deferred messages are replayed on every phase change. */
module Machine {
  import opened Base

  datatype Move<+P> = Stay | Goto(phase: P) | Defer | Halt

  /** The phase function: the new state is kept even when it fails, until the turn is discarded. */
  type Handler<!S, !M, !P, !E> = (P, S, M) -> (S, Result<Move<P>, E>)

  datatype Core<+S, +M, +P> = Core(state: S, phase: P, held: seq<M>)

  datatype Outcome = Continue | PhaseChanged | Stop

  /** One verdict of the phase function: on which message, in which phase. */
  datatype Entry<+M, +P> = Entry(message: M, phase: P, move: Move<P>)

  datatype Advanced<+S, +M, +P, +E> =
    | Went(core: Core<S, M, P>, outcome: Outcome, entry: Entry<M, P>)
    | Failed(core: Core<S, M, P>, error: E)

  function Advance<S, M, P(==), E>(on: Handler<S, M, P, E>, c: Core<S, M, P>, m: M): Advanced<S, M, P, E> {
    var (state, answer) := on(c.phase, c.state, m);
    match answer
    case Err(error) => Failed(c.(state := state), error)
    case Ok(move) =>
      var entry := Entry(m, c.phase, move);
      match move
      case Stay => Went(c.(state := state), Continue, entry)
      case Defer => Went(Core(state, c.phase, c.held + [m]), Continue, entry)
      case Halt => Went(c.(state := state), Stop, entry)
      case Goto(next) => Went(Core(state, next, c.held), if next != c.phase then PhaseChanged else Continue, entry)
  }

  datatype Ending<+E> = Running | Stopped | Errored(error: E)

  datatype Drained<+S, +M, +P, +E> = Drained(
    core: Core<S, M, P>,
    result: Ending<E>,
    trace: seq<Entry<M, P>>,         // the verdicts given, in order
    untried: seq<M>)                 // messages left when a stop or an error cut the drain short

  /** Replay a batch; a phase change puts everything deferred meanwhile behind the rest of it. */
  function Drain<S, M, P(==), E>(on: Handler<S, M, P, E>, c: Core<S, M, P>, batch: seq<M>): Drained<S, M, P, E>
    decreases |batch| + |c.held|, |batch|
  {
    if batch == [] then Drained(c, Running, [], [])
    else
      match Advance(on, c, batch[0])
      case Failed(next, error) => Drained(next.(held := next.held + batch[1..]), Errored(error), [], batch[1..])
      case Went(next, Continue, entry) => Logged(entry, Drain(on, next, batch[1..]))
      case Went(next, PhaseChanged, entry) =>
        Logged(entry, Drain(on, next.(held := []), batch[1..] + next.held))
      case Went(next, Stop, entry) =>
        Drained(next.(held := next.held + batch[1..]), Stopped, [entry], batch[1..])
  }

  function Logged<S, M, P, E>(entry: Entry<M, P>, d: Drained<S, M, P, E>): Drained<S, M, P, E> {
    d.(trace := [entry] + d.trace)
  }

  /** One turn. An error, even deep in the drain, leaves the machine as it was. */
  function Turn<S, M, P(==), E>(on: Handler<S, M, P, E>, c: Core<S, M, P>, m: M): Drained<S, M, P, E> {
    match Advance(on, c, m)
    case Failed(_, error) => Drained(c, Errored(error), [], [])
    case Went(next, Continue, entry) => Drained(next, Running, [entry], [])
    case Went(next, Stop, entry) => Drained(next, Stopped, [entry], [])
    case Went(next, PhaseChanged, entry) =>
      var d := Drain(on, next.(held := []), next.held);
      if d.result.Errored? then Drained(c, d.result, [], []) else Logged(entry, d)
  }

  class MachineActor<S, M, P(==), E> {
    const on: Handler<S, M, P, E>
    var state: S
    var phase: P
    var held: seq<M>

    function Value(): Core<S, M, P> reads this { Core(state, phase, held) }

    constructor (core: Core<S, M, P>, on: Handler<S, M, P, E>)
      ensures Value() == core && this.on == on
    {
      this.on := on;
      state, phase, held := core.state, core.phase, core.held;
    }

    method AdvanceBy(message: M) returns (r: Result<Outcome, E>)
      modifies this
      ensures Value() == Advance(on, old(Value()), message).core
      ensures r == match Advance(on, old(Value()), message)
                   case Failed(_, error) => Err(error)
                   case Went(_, outcome, _) => Ok(outcome)
    {
      var (next, answer) := on(phase, state, message);
      state := next;
      match answer
      case Err(error) =>
        r := Err(error);
      case Ok(Stay) =>
        r := Ok(Continue);
      case Ok(Defer) =>
        held := held + [message];
        r := Ok(Continue);
      case Ok(Halt) =>
        r := Ok(Stop);
      case Ok(Goto(target)) =>
        var changed := target != phase;
        phase := target;
        r := Ok(if changed then PhaseChanged else Continue);
    }

    method DrainHeld() returns (r: Ending<E>)
      modifies this
      ensures var d := Drain(on, old(Value()).(held := []), old(held)); Value() == d.core && r == d.result
    {
      var batch := held;
      held := [];
      ghost var whole := Drain(on, Value(), batch);
      while batch != []
        invariant var d := Drain(on, Value(), batch); d.core == whole.core && d.result == whole.result
        decreases |batch| + |held|, |batch|
      {
        var message := batch[0];
        var outcome := AdvanceBy(message);
        batch := batch[1..];
        match outcome {
          case Err(error) =>
            held := held + batch;
            return Errored(error);
          case Ok(Continue) =>
          case Ok(PhaseChanged) =>
            batch := batch + held;
            held := [];
          case Ok(Stop) =>
            held := held + batch;
            return Stopped;
        }
      }
      r := Running;
    }

    /** Work on a copy and commit it only when the whole turn succeeds. */
    method Transition(message: M) returns (r: Result<bool, (M, E)>)
      modifies this
      ensures var turn := Turn(on, old(Value()), message);
              && Value() == turn.core
              && r == match turn.result
                      case Running => Ok(false)
                      case Stopped => Ok(true)
                      case Errored(cause) => Err((message, cause))
    {
      var staged := new MachineActor(Value(), on);
      var outcome := staged.AdvanceBy(message);
      var stops := false;
      match outcome {
        case Err(cause) =>
          return Err((message, cause));
        case Ok(Stop) =>
          stops := true;
        case Ok(PhaseChanged) =>
          var drained := staged.DrainHeld();
          if drained.Errored? {
            return Err((message, drained.error));
          }
          stops := drained.Stopped?;
        case Ok(Continue) =>
      }
      state, phase, held := staged.state, staged.phase, staged.held;
      r := Ok(stops);
    }
  }

  // ---------------------------------------------------------------------
  // Conservation: each message is consumed once or still held.

  function Spent<M, P>(e: Entry<M, P>): multiset<M> {
    if e.move.Defer? then multiset{} else multiset{e.message}
  }

  /** Messages whose verdict was not Defer. */
  function Consumed<M, P>(trace: seq<Entry<M, P>>): multiset<M> {
    if trace == [] then multiset{} else Spent(trace[0]) + Consumed(trace[1..])
  }

  lemma {:induction false} ConsumedLogged<M, P>(entry: Entry<M, P>, trace: seq<Entry<M, P>>)
    ensures Consumed([entry] + trace) == Spent(entry) + Consumed(trace)
    ensures Consumed([entry]) == Spent(entry)
  {
    assert ([entry] + trace)[1..] == trace;
    assert [entry][1..] == [];
  }

  /** One verdict spends its message or adds it to those held. */
  lemma {:induction false} AdvanceConserves<S, M, P, E>(on: Handler<S, M, P, E>, c: Core<S, M, P>, m: M)
    ensures var a := Advance(on, c, m);
            && (a.Went? ==> multiset(a.core.held) + Spent(a.entry) == multiset(c.held) + multiset{m})
            && (a.Went? && a.outcome != Continue ==> a.core.held == c.held)
            && |a.core.held| <= |c.held| + 1
  {}

  lemma {:induction false} Regroup<M>(
    held: multiset<M>, m: multiset<M>, rest: multiset<M>, next: multiset<M>, spent: multiset<M>,
    after: multiset<M>, consumed: multiset<M>)
    requires next + spent == held + m
    requires next + rest == after + consumed
    ensures held + (m + rest) == after + (spent + consumed)
  {
    calc {
      held + (m + rest);
      (held + m) + rest;
      (next + spent) + rest;
      (next + rest) + spent;
      (after + consumed) + spent;
      after + (spent + consumed);
    }
  }

  lemma {:induction false} DrainConserves<S, M, P, E>(on: Handler<S, M, P, E>, c: Core<S, M, P>, batch: seq<M>)
    ensures var d := Drain(on, c, batch);
            !d.result.Errored? ==> multiset(c.held) + multiset(batch) == multiset(d.core.held) + Consumed(d.trace)
    decreases |batch| + |c.held|, |batch|
  {
    if batch != [] {
      var d, m, rest := Drain(on, c, batch), batch[0], batch[1..];
      AdvanceConserves(on, c, m);
      assert multiset(batch) == multiset{m} + multiset(rest) by { assert batch == [m] + rest; }
      match Advance(on, c, m)
      case Failed(_, _) =>
      case Went(next, Continue, entry) =>
        var later := Drain(on, next, rest);
        DrainConserves(on, next, rest);
        ConsumedLogged(entry, later.trace);
        if !d.result.Errored? {
          Regroup(multiset(c.held), multiset{m}, multiset(rest), multiset(next.held), Spent(entry),
                  multiset(d.core.held), Consumed(later.trace));
        }
      case Went(next, PhaseChanged, entry) =>
        var later := Drain(on, next.(held := []), rest + next.held);
        DrainConserves(on, next.(held := []), rest + next.held);
        ConsumedLogged(entry, later.trace);
        if !d.result.Errored? {
          Regroup(multiset(c.held), multiset{m}, multiset(rest), multiset(next.held), Spent(entry),
                  multiset(d.core.held), Consumed(later.trace));
        }
      case Went(next, Stop, entry) =>
        ConsumedLogged(entry, []);
        Regroup(multiset(c.held), multiset{m}, multiset(rest), multiset(next.held), Spent(entry),
                multiset(d.core.held), multiset{});
    }
  }

  /** A successful turn consumes each message exactly once or still holds it; an error changes nothing. */
  lemma {:induction false} TurnConserves<S, M, P, E>(on: Handler<S, M, P, E>, c: Core<S, M, P>, m: M)
    ensures var turn := Turn(on, c, m);
            if !turn.result.Errored?
            then multiset(c.held) + multiset{m} == multiset(turn.core.held) + Consumed(turn.trace)
            else turn.core == c
  {
    AdvanceConserves(on, c, m);
    match Advance(on, c, m)
    case Failed(_, _) =>
    case Went(next, PhaseChanged, entry) =>
      var d := Drain(on, next.(held := []), next.held);
      DrainConserves(on, next.(held := []), next.held);
      ConsumedLogged(entry, d.trace);
      if !d.result.Errored? {
        Regroup(multiset(c.held), multiset{m}, multiset{}, multiset(next.held), Spent(entry),
                multiset(d.core.held), Consumed(d.trace));
      }
    case Went(next, _, entry) =>
      ConsumedLogged(entry, []);
  }

  // ---------------------------------------------------------------------
  // What is held, over whole runs.

  predicate Changes<M, P(==)>(e: Entry<M, P>) { e.move.Goto? && e.move.phase != e.phase }

  /** The verdicts given since the last change of phase. */
  function Recent<M, P(==)>(trace: seq<Entry<M, P>>): seq<Entry<M, P>> {
    if trace == [] || Changes(trace[|trace| - 1]) then []
    else Recent(trace[..|trace| - 1]) + [trace[|trace| - 1]]
  }

  function Deferred<M, P>(trace: seq<Entry<M, P>>): seq<M> {
    if trace == [] then []
    else Deferred(trace[..|trace| - 1]) + if trace[|trace| - 1].move.Defer? then [trace[|trace| - 1].message] else []
  }

  /** The machine holds the messages deferred in the current phase, in order, and then `untried`. */
  ghost predicate Explained<S, M, P>(c: Core<S, M, P>, trace: seq<Entry<M, P>>, untried: seq<M>) {
    && c.held == Deferred(Recent(trace)) + untried
    && forall i :: 0 <= i < |Recent(trace)| ==> Recent(trace)[i].phase == c.phase
  }

  lemma {:induction false} RecentLast<M, P>(trace: seq<Entry<M, P>>, entry: Entry<M, P>)
    ensures Recent(trace + [entry]) == if Changes(entry) then [] else Recent(trace) + [entry]
    ensures var added := if entry.move.Defer? then [entry.message] else [];
            !Changes(entry) ==> Deferred(Recent(trace + [entry])) == Deferred(Recent(trace)) + added
  {
    assert (trace + [entry])[..|trace|] == trace;
    var recent := Recent(trace);
    assert (recent + [entry])[..|recent|] == recent;
  }

  lemma {:induction false} ExplainedStay<S, M, P>(
    c: Core<S, M, P>, next: Core<S, M, P>, trace: seq<Entry<M, P>>, entry: Entry<M, P>)
    requires Explained(c, trace, []) && !Changes(entry)
    requires entry.phase == c.phase == next.phase
    requires next.held == c.held + if entry.move.Defer? then [entry.message] else []
    ensures Explained(next, trace + [entry], [])
  {
    RecentLast(trace, entry);
    assert c.held == Deferred(Recent(trace));
    assert next.held == next.held + [];
  }

  lemma {:induction false} ExplainedChange<S, M, P>(c: Core<S, M, P>, trace: seq<Entry<M, P>>, entry: Entry<M, P>)
    requires Changes(entry)
    ensures Explained(c.(held := []), trace + [entry], [])
  {
    RecentLast(trace, entry);
    assert Deferred<M, P>([]) + [] == [];
  }

  /** After one verdict: a change of phase empties the explanation, anything else extends it. */
  lemma {:induction false} ExplainedAdvance<S, M, P, E>(
    on: Handler<S, M, P, E>, c: Core<S, M, P>, trace: seq<Entry<M, P>>, m: M)
    requires Explained(c, trace, [])
    ensures match Advance(on, c, m)
            case Failed(_, _) => true
            case Went(next, PhaseChanged, entry) =>
              Explained(next.(held := []), trace + [entry], []) && next.held == c.held
            case Went(next, _, entry) => Explained(next, trace + [entry], [])
  {
    match Advance(on, c, m)
    case Failed(_, _) =>
    case Went(next, PhaseChanged, entry) => ExplainedChange(next, trace, entry);
    case Went(next, _, entry) =>
      assert c.held + [] == c.held;
      ExplainedStay(c, next, trace, entry);
  }

  /** How a drain that did not fail leaves the machine, after the verdicts in `trace` and its own. */
  ghost predicate ExplainedEnd<S, M, P, E>(d: Drained<S, M, P, E>, trace: seq<Entry<M, P>>) {
    && (d.result == Running ==> d.untried == [])
    && (!d.result.Errored? ==> Explained(d.core, trace + d.trace, d.untried))
  }

  lemma {:induction false} ExplainedLogged<S, M, P, E>(
    d: Drained<S, M, P, E>, trace: seq<Entry<M, P>>, entry: Entry<M, P>)
    requires ExplainedEnd(d, trace + [entry])
    ensures ExplainedEnd(Logged(entry, d), trace)
  {
    assert trace + ([entry] + d.trace) == trace + [entry] + d.trace;
  }

  lemma {:induction false} ExplainedDrain<S, M, P, E>(
    on: Handler<S, M, P, E>, c: Core<S, M, P>, trace: seq<Entry<M, P>>, batch: seq<M>)
    requires Explained(c, trace, [])
    ensures ExplainedEnd(Drain(on, c, batch), trace)
    decreases |batch| + |c.held|, |batch|
  {
    if batch == [] {
      assert trace + [] == trace;
    } else {
      ExplainedAdvance(on, c, trace, batch[0]);
      match Advance(on, c, batch[0])
      case Failed(_, _) =>
      case Went(next, Continue, entry) =>
        ExplainedDrain(on, next, trace + [entry], batch[1..]);
        ExplainedLogged(Drain(on, next, batch[1..]), trace, entry);
      case Went(next, PhaseChanged, entry) =>
        ExplainedDrain(on, next.(held := []), trace + [entry], batch[1..] + next.held);
        ExplainedLogged(Drain(on, next.(held := []), batch[1..] + next.held), trace, entry);
      case Went(next, Stop, entry) =>
        var deferred := Deferred(Recent(trace + [entry]));
        assert deferred + [] == deferred;
    }
  }

  datatype Session<+S, +M, +P> = Session(core: Core<S, M, P>, trace: seq<Entry<M, P>>, stopped: bool, untried: seq<M>)

  /** Turns until the machine stops; a failed turn commits no verdict. */
  function Play<S, M, P(==), E>(on: Handler<S, M, P, E>, start: Core<S, M, P>, messages: seq<M>): Session<S, M, P> {
    if messages == [] then Session(start, [], false, [])
    else
      var before := Play(on, start, messages[..|messages| - 1]);
      if before.stopped then before
      else
        var turn := Turn(on, before.core, messages[|messages| - 1]);
        Session(turn.core, before.trace + turn.trace, turn.result == Stopped, turn.untried)
  }

  lemma {:induction false} ExplainedTurn<S, M, P, E>(
    on: Handler<S, M, P, E>, c: Core<S, M, P>, trace: seq<Entry<M, P>>, m: M)
    requires Explained(c, trace, [])
    ensures var turn := Turn(on, c, m);
            && Explained(turn.core, trace + turn.trace, turn.untried)
            && (turn.result != Stopped ==> turn.untried == [])
  {
    ExplainedAdvance(on, c, trace, m);
    assert trace + [] == trace;
    match Advance(on, c, m)
    case Went(next, PhaseChanged, entry) =>
      var d := Drain(on, next.(held := []), next.held);
      ExplainedDrain(on, next.(held := []), trace + [entry], next.held);
      ExplainedLogged(d, trace, entry);
    case _ =>
  }

  /**
   * In every reachable state the held messages are exactly those whose last verdict was Defer,
   * given in the current phase, in order; only after a stop inside a drain are they followed by
   * the messages the drain had not tried.
   */
  lemma {:induction false} HeldWasDeferred<S, M, P, E>(
    on: Handler<S, M, P, E>, state: S, phase: P, messages: seq<M>)
    ensures var s := Play(on, Core(state, phase, []), messages);
            && Explained(s.core, s.trace, s.untried)
            && (!s.stopped ==> s.untried == [])
  {
    if messages != [] {
      var n := |messages| - 1;
      HeldWasDeferred(on, state, phase, messages[..n]);
      var before := Play(on, Core(state, phase, []), messages[..n]);
      if !before.stopped {
        ExplainedTurn(on, before.core, before.trace, messages[n]);
      }
    }
  }
}

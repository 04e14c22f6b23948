/** What a machine did, checked against its phase function and its messages alone. */
module MachineReplay {
  import opened Base
  import opened Machine

  function Later<P>(phase: P, move: Move<P>): P {
    if move.Goto? then move.phase else phase
  }

  /**
   * Ask the phase function again, verdict by verdict, handing phase and state from one to the next: the phase
   * and state this ends in, if every verdict is the recorded one.
   */
  ghost function Replay<S, M, P, E>(
    on: Handler<S, M, P, E>, phase: P, state: S, trace: seq<Entry<M, P>>): Option<(P, S)>
  {
    if trace == [] then Some((phase, state))
    else
      var e, (next, answer) := trace[0], on(phase, state, trace[0].message);
      if e.phase == phase && answer == Ok(e.move) then Replay(on, Later(phase, e.move), next, trace[1..]) else None
  }

  /** The messages still to try, and those deferred in this phase. */
  datatype Work<+M> = Work(queue: seq<M>, deferred: seq<M>)

  /** Take the messages in the order of the queue; a change of phase puts the deferred ones behind the rest. */
  ghost function Follow<M, P>(w: Work<M>, trace: seq<Entry<M, P>>): Option<Work<M>>
    decreases |trace|
  {
    if trace == [] then Some(w)
    else if w.queue == [] || w.queue[0] != trace[0].message then None
    else
      var deferred := if trace[0].move.Defer? then w.deferred + [w.queue[0]] else w.deferred;
      var next := if Changes(trace[0]) then Work(w.queue[1..] + deferred, []) else Work(w.queue[1..], deferred);
      Follow(next, trace[1..])
  }

  /** Only the last verdict may be Halt. */
  ghost predicate HaltsLast<M, P>(trace: seq<Entry<M, P>>, halts: bool) {
    && (halts ==> trace != [])
    && (forall i :: 0 <= i < |trace| ==> (trace[i].move.Halt? <==> halts && i == |trace| - 1))
  }

  /**
   * A drain accounted for by the phase function and the messages: it ends in the replayed phase and state,
   * holding what the order of work leaves; it stops exactly at a Halt, and fails exactly where the phase
   * function fails on the next message.
   */
  ghost predicate Vouched<S, M, P, E>(
    on: Handler<S, M, P, E>, c: Core<S, M, P>, batch: seq<M>, d: Drained<S, M, P, E>)
  {
    var end, work := Replay(on, c.phase, c.state, d.trace), Follow(Work(batch, c.held), d.trace);
    && end.Some? && work.Some? && HaltsLast(d.trace, d.result == Stopped)
    && match d.result
       case Running => d.core == Core(end.value.1, end.value.0, work.value.deferred) && work.value.queue == []
       case Stopped =>
         && d.core == Core(end.value.1, end.value.0, work.value.deferred + work.value.queue)
         && d.untried == work.value.queue
       case Errored(error) =>
         && work.value.queue != []
         && on(end.value.0, end.value.1, work.value.queue[0]).1 == Err(error)
  }

  /** One verdict in front of a vouched drain. */
  lemma {:induction false} VouchedLogged<S, M, P, E>(
    on: Handler<S, M, P, E>, c: Core<S, M, P>, batch: seq<M>, entry: Entry<M, P>,
    next: Core<S, M, P>, rest: seq<M>, d: Drained<S, M, P, E>)
    requires batch != [] && entry.message == batch[0] && entry.phase == c.phase && !entry.move.Halt?
    requires on(c.phase, c.state, batch[0]) == (next.state, Ok(entry.move)) && next.phase == Later(c.phase, entry.move)
    requires var deferred := if entry.move.Defer? then c.held + [batch[0]] else c.held;
             Work(rest, next.held)
             == if Changes(entry) then Work(batch[1..] + deferred, []) else Work(batch[1..], deferred)
    requires Vouched(on, next, rest, d)
    ensures Vouched(on, c, batch, Logged(entry, d))
  {
    var trace := [entry] + d.trace;
    assert trace[0] == entry && trace[1..] == d.trace;
    assert HaltsLast(trace, d.result == Stopped) by {
      forall i | 0 <= i < |trace| ensures trace[i].move.Halt? <==> d.result == Stopped && i == |trace| - 1 {
        if i > 0 { assert trace[i] == d.trace[i - 1]; }
      }
    }
  }

  lemma {:induction false} VouchedHalt<S, M, P, E>(on: Handler<S, M, P, E>, c: Core<S, M, P>, batch: seq<M>)
    requires batch != [] && Advance(on, c, batch[0]).Went? && Advance(on, c, batch[0]).outcome == Stop
    ensures Vouched(on, c, batch, Drain(on, c, batch))
  {
    var entry := Advance(on, c, batch[0]).entry;
    assert [entry][1..] == [];
  }

  lemma {:induction false} VouchedFailure<S, M, P, E>(on: Handler<S, M, P, E>, c: Core<S, M, P>, batch: seq<M>)
    requires batch != [] && Advance(on, c, batch[0]).Failed?
    ensures Vouched(on, c, batch, Drain(on, c, batch))
  {}

  /** Every drain is vouched for, for every phase function, core and batch. */
  lemma {:induction false} DrainVouched<S, M, P, E>(on: Handler<S, M, P, E>, c: Core<S, M, P>, batch: seq<M>)
    ensures Vouched(on, c, batch, Drain(on, c, batch))
    decreases |batch| + |c.held|, |batch|
  {
    if batch != [] {
      match Advance(on, c, batch[0])
      case Failed(_, _) => VouchedFailure(on, c, batch);
      case Went(next, Continue, entry) =>
        DrainVouched(on, next, batch[1..]);
        VouchedLogged(on, c, batch, entry, next, batch[1..], Drain(on, next, batch[1..]));
      case Went(next, PhaseChanged, entry) =>
        var again := batch[1..] + next.held;
        DrainVouched(on, next.(held := []), again);
        VouchedLogged(on, c, batch, entry, next.(held := []), again, Drain(on, next.(held := []), again));
      case Went(_, Stop, _) => VouchedHalt(on, c, batch);
    }
  }

  /** A turn is a drain of the one message; a failed one leaves the machine as it was. */
  lemma {:induction false} TurnIsDrain<S, M, P, E>(on: Handler<S, M, P, E>, c: Core<S, M, P>, m: M)
    ensures var d := Drain(on, c, [m]);
            Turn(on, c, m) == if d.result.Errored? then Drained(c, d.result, [], []) else d
  {
    assert [m][0] == m && [m][1..] == [];
    match Advance(on, c, m)
    case Went(next, PhaseChanged, entry) => assert [] + next.held == next.held;
    case Went(next, Continue, entry) => assert [entry] + [] == [entry];
    case Went(next, Stop, entry) => assert next.held + [] == next.held;
    case _ =>
  }

  /**
   * Every turn, for every phase function: what it commits is what the phase function, asked again, says of the
   * recorded verdicts, on messages taken in the order of work; it fails exactly when the phase function does.
   */
  lemma {:induction false} TurnVouched<S, M, P, E>(on: Handler<S, M, P, E>, c: Core<S, M, P>, m: M)
    ensures var turn := Turn(on, c, m);
            if turn.result.Errored? then turn.core == c && turn.trace == [] && turn.result == Drain(on, c, [m]).result
            else Vouched(on, c, [m], turn)
    ensures Vouched(on, c, [m], Drain(on, c, [m]))
  {
    TurnIsDrain(on, c, m);
    DrainVouched(on, c, [m]);
  }

  lemma {:induction false} ReplayConcat<S, M, P, E>(
    on: Handler<S, M, P, E>, phase: P, state: S, a: seq<Entry<M, P>>, b: seq<Entry<M, P>>)
    requires Replay(on, phase, state, a).Some?
    ensures var (p, s) := Replay(on, phase, state, a).value;
            Replay(on, phase, state, a + b) == Replay(on, p, s, b)
  {
    if a == [] {
      assert a + b == b;
    } else {
      assert (a + b)[0] == a[0] && (a + b)[1..] == a[1..] + b;
      var next := on(phase, state, a[0].message).0;
      ReplayConcat(on, Later(phase, a[0].move), next, a[1..], b);
    }
  }

  /** Over every run: replaying all committed verdicts ends in the machine's phase and state. */
  lemma {:induction false} RunReplays<S, M, P, E>(
    on: Handler<S, M, P, E>, start: Core<S, M, P>, messages: seq<M>)
    ensures var s := Play(on, start, messages);
            Replay(on, start.phase, start.state, s.trace) == Some((s.core.phase, s.core.state))
  {
    if messages != [] {
      var n := |messages| - 1;
      var before := Play(on, start, messages[..n]);
      RunReplays(on, start, messages[..n]);
      if !before.stopped {
        TurnVouched(on, before.core, messages[n]);
        ReplayConcat(on, start.phase, start.state, before.trace, Turn(on, before.core, messages[n]).trace);
      }
    }
  }
}

/** When a machine replays its deferred messages in arrival order. */
module MachineOrder {
  import opened Base
  import opened Machine

  /** Messages carry the number of their arrival. */
  type Arrival<!M> = M -> int

  ghost predicate Ascending<M>(at: Arrival<M>, s: seq<M>) {
    forall i, j :: 0 <= i < j < |s| ==> at(s[i]) < at(s[j])
  }

  ghost predicate Before<M>(at: Arrival<M>, s: seq<M>, t: int) {
    forall i :: 0 <= i < |s| ==> at(s[i]) < t
  }

  /** Every batch the drain works on, the first and each one a change of phase makes, is in arrival order. */
  ghost predicate InOrder<S, M, P, E>(on: Handler<S, M, P, E>, at: Arrival<M>, c: Core<S, M, P>, batch: seq<M>)
    decreases |batch| + |c.held|, |batch|
  {
    && Ascending(at, batch)
    && (batch == [] ||
        match Advance(on, c, batch[0])
        case Went(next, Continue, _) => InOrder(on, at, next, batch[1..])
        case Went(next, PhaseChanged, _) => InOrder(on, at, next.(held := []), batch[1..] + next.held)
        case _ => true)
  }

  /** No change of phase finds both deferred messages and a rest of the batch. */
  ghost predicate Undisturbed<S, M, P, E>(on: Handler<S, M, P, E>, c: Core<S, M, P>, batch: seq<M>)
    decreases |batch| + |c.held|, |batch|
  {
    batch == [] ||
    match Advance(on, c, batch[0])
    case Went(next, Continue, _) => Undisturbed(on, next, batch[1..])
    case Went(next, PhaseChanged, _) =>
      (next.held == [] || batch[1..] == []) && Undisturbed(on, next.(held := []), batch[1..] + next.held)
    case _ => true
  }

  /** Putting the deferred messages behind the rest keeps arrival order exactly when one of them is empty. */
  lemma {:induction false} Rotated<M>(at: Arrival<M>, held: seq<M>, rest: seq<M>)
    requires Ascending(at, held + rest)
    ensures Ascending(at, rest + held) <==> held == [] || rest == []
  {
    if held == [] || rest == [] {
      assert rest + held == held + rest;
    } else {
      var turned := rest + held;
      assert (held + rest)[0] == held[0] && (held + rest)[|held|] == rest[0];
      assert turned[0] == rest[0] && turned[|rest|] == held[0];
    }
  }

  lemma {:induction false} AscendingParts<M>(at: Arrival<M>, a: seq<M>, b: seq<M>)
    requires Ascending(at, a + b)
    ensures Ascending(at, a) && Ascending(at, b)
  {
    var all := a + b;
    forall i, j | 0 <= i < j < |b| ensures at(b[i]) < at(b[j]) {
      assert all[|a| + i] == b[i] && all[|a| + j] == b[j];
    }
    forall i, j | 0 <= i < j < |a| ensures at(a[i]) < at(a[j]) {
      assert all[i] == a[i] && all[j] == a[j];
    }
  }

  lemma {:induction false} AscendingWithout<M>(at: Arrival<M>, a: seq<M>, m: M, b: seq<M>)
    requires Ascending(at, a + ([m] + b))
    ensures Ascending(at, a + b)
  {
    var all, fewer := a + ([m] + b), a + b;
    forall i, j | 0 <= i < j < |fewer| ensures at(fewer[i]) < at(fewer[j]) {
      assert fewer[i] == all[if i < |a| then i else i + 1] && fewer[j] == all[if j < |a| then j else j + 1];
    }
  }

  /** One verdict leaves what is held and what remains in arrival order. */
  lemma {:induction false} AdvanceKeepsOrder<S, M, P, E>(
    on: Handler<S, M, P, E>, at: Arrival<M>, c: Core<S, M, P>, batch: seq<M>)
    requires batch != [] && Ascending(at, c.held + batch)
    ensures Advance(on, c, batch[0]).Went? ==> Ascending(at, Advance(on, c, batch[0]).core.held + batch[1..])
  {
    assert batch == [batch[0]] + batch[1..];
    AscendingWithout(at, c.held, batch[0], batch[1..]);
    assert (c.held + [batch[0]]) + batch[1..] == c.held + batch;
  }

  /**
   * Everything a drain replays is in arrival order exactly when no change of phase meets deferred
   * messages while part of the batch is still to come.
   */
  lemma {:induction false} DrainInOrderExactly<S, M, P, E>(
    on: Handler<S, M, P, E>, at: Arrival<M>, c: Core<S, M, P>, batch: seq<M>)
    requires Ascending(at, c.held + batch)
    ensures InOrder(on, at, c, batch) <==> Undisturbed(on, c, batch)
    decreases |batch| + |c.held|, |batch|
  {
    AscendingParts(at, c.held, batch);
    if batch != [] {
      AdvanceKeepsOrder(on, at, c, batch);
      match Advance(on, c, batch[0])
      case Went(next, Continue, _) => DrainInOrderExactly(on, at, next, batch[1..]);
      case Went(next, PhaseChanged, _) =>
        Rotated(at, next.held, batch[1..]);
        var again := batch[1..] + next.held;
        assert [] + again == again;
        if Ascending(at, again) {
          DrainInOrderExactly(on, at, next.(held := []), again);
        }
      case _ =>
    }
  }

  lemma {:induction false} DrainKeepsOrder<S, M, P, E>(
    on: Handler<S, M, P, E>, at: Arrival<M>, c: Core<S, M, P>, batch: seq<M>)
    requires Ascending(at, c.held + batch) && Undisturbed(on, c, batch)
    ensures var d := Drain(on, c, batch); !d.result.Errored? ==> Ascending(at, d.core.held)
    decreases |batch| + |c.held|, |batch|
  {
    if batch == [] {
      assert c.held + batch == c.held;
    } else {
      AdvanceKeepsOrder(on, at, c, batch);
      match Advance(on, c, batch[0])
      case Went(next, Continue, _) => DrainKeepsOrder(on, at, next, batch[1..]);
      case Went(next, PhaseChanged, _) =>
        Rotated(at, next.held, batch[1..]);
        var again := batch[1..] + next.held;
        assert [] + again == again;
        DrainKeepsOrder(on, at, next.(held := []), again);
      case _ =>
    }
  }

  lemma {:induction false} DrainStaysBefore<S, M, P, E>(
    on: Handler<S, M, P, E>, at: Arrival<M>, c: Core<S, M, P>, batch: seq<M>, t: int)
    requires Before(at, c.held, t) && Before(at, batch, t)
    ensures Before(at, Drain(on, c, batch).core.held, t)
    decreases |batch| + |c.held|, |batch|
  {
    if batch != [] {
      match Advance(on, c, batch[0])
      case Went(next, Continue, _) => DrainStaysBefore(on, at, next, batch[1..], t);
      case Went(next, PhaseChanged, _) => DrainStaysBefore(on, at, next.(held := []), batch[1..] + next.held, t);
      case _ =>
    }
  }

  // ---------------------------------------------------------------------
  // Turns and whole runs.

  ghost predicate TurnInOrder<S, M, P, E>(on: Handler<S, M, P, E>, at: Arrival<M>, c: Core<S, M, P>, m: M) {
    match Advance(on, c, m)
    case Went(next, PhaseChanged, _) => InOrder(on, at, next.(held := []), next.held)
    case _ => true
  }

  ghost predicate TurnUndisturbed<S, M, P, E>(on: Handler<S, M, P, E>, c: Core<S, M, P>, m: M) {
    match Advance(on, c, m)
    case Went(next, PhaseChanged, _) => Undisturbed(on, next.(held := []), next.held)
    case _ => true
  }

  lemma {:induction false} TurnInOrderExactly<S, M, P, E>(
    on: Handler<S, M, P, E>, at: Arrival<M>, c: Core<S, M, P>, m: M)
    requires Ascending(at, c.held)
    ensures TurnInOrder(on, at, c, m) <==> TurnUndisturbed(on, c, m)
  {
    match Advance(on, c, m)
    case Went(next, PhaseChanged, _) =>
      assert [] + next.held == next.held == c.held;
      DrainInOrderExactly(on, at, next.(held := []), next.held);
    case _ =>
  }

  lemma {:induction false} FreshDrainKeepsOrder<S, M, P, E>(
    on: Handler<S, M, P, E>, at: Arrival<M>, c: Core<S, M, P>, batch: seq<M>, t: int)
    requires c.held == [] && Ascending(at, batch) && Before(at, batch, t) && Undisturbed(on, c, batch)
    ensures var d := Drain(on, c, batch);
            Before(at, d.core.held, t) && (!d.result.Errored? ==> Ascending(at, d.core.held))
  {
    assert c.held + batch == batch;
    DrainKeepsOrder(on, at, c, batch);
    DrainStaysBefore(on, at, c, batch, t);
  }

  lemma {:induction false} TurnKeepsOrder<S, M, P, E>(on: Handler<S, M, P, E>, at: Arrival<M>, c: Core<S, M, P>, m: M)
    requires Ascending(at, c.held) && Before(at, c.held, at(m)) && TurnUndisturbed(on, c, m)
    ensures Ascending(at, Turn(on, c, m).core.held) && Before(at, Turn(on, c, m).core.held, at(m) + 1)
  {
    match Advance(on, c, m)
    case Went(next, PhaseChanged, _) =>
      assert next.held == c.held;
      FreshDrainKeepsOrder(on, at, next.(held := []), next.held, at(m) + 1);
    case _ =>
  }

  /** Every turn of the run, until it stops, replays in arrival order. */
  ghost predicate RunInOrder<S, M, P, E>(
    on: Handler<S, M, P, E>, at: Arrival<M>, start: Core<S, M, P>, messages: seq<M>)
  {
    messages == [] ||
    (var earlier := messages[..|messages| - 1];
     var before := Play(on, start, earlier);
     RunInOrder(on, at, start, earlier)
     && (before.stopped || TurnInOrder(on, at, before.core, messages[|messages| - 1])))
  }

  ghost predicate RunUndisturbed<S, M, P, E>(on: Handler<S, M, P, E>, start: Core<S, M, P>, messages: seq<M>) {
    messages == [] ||
    (var earlier := messages[..|messages| - 1];
     var before := Play(on, start, earlier);
     RunUndisturbed(on, start, earlier)
     && (before.stopped || TurnUndisturbed(on, before.core, messages[|messages| - 1])))
  }

  lemma {:induction false} RunKeepsOrder<S, M, P, E>(
    on: Handler<S, M, P, E>, at: Arrival<M>, start: Core<S, M, P>, messages: seq<M>, t: int)
    requires start.held == [] && Ascending(at, messages) && Before(at, messages, t)
    requires RunUndisturbed(on, start, messages)
    ensures var s := Play(on, start, messages); !s.stopped ==> Ascending(at, s.core.held) && Before(at, s.core.held, t)
  {
    if messages != [] {
      var n := |messages| - 1;
      var before := Play(on, start, messages[..n]);
      RunKeepsOrder(on, at, start, messages[..n], at(messages[n]));
      if !before.stopped {
        TurnKeepsOrder(on, at, before.core, messages[n]);
      }
    }
  }

  /**
   * Over every run of messages numbered by arrival: everything ever replayed is replayed in arrival
   * order exactly when no drain of the run changes phase with messages deferred and a rest to come.
   */
  lemma {:induction false} RunInOrderExactly<S, M, P, E>(
    on: Handler<S, M, P, E>, at: Arrival<M>, start: Core<S, M, P>, messages: seq<M>)
    requires start.held == [] && Ascending(at, messages)
    ensures RunInOrder(on, at, start, messages) <==> RunUndisturbed(on, start, messages)
  {
    if messages != [] {
      var n := |messages| - 1;
      var before := Play(on, start, messages[..n]);
      RunInOrderExactly(on, at, start, messages[..n]);
      if RunUndisturbed(on, start, messages[..n]) && !before.stopped {
        RunKeepsOrder(on, at, start, messages[..n], at(messages[n]));
        TurnInOrderExactly(on, at, before.core, messages[n]);
      }
    }
  }

  // ---------------------------------------------------------------------
  // An input that breaks arrival order.

  /** Defers everything, except that message 2 ends phase 1. */
  function Rotating(phase: int, state: int, message: int): (int, Result<Move<int>, int>) {
    (state, Ok(if phase == 1 && message == 2 then Goto(2) else Defer))
  }

  /** Message 1 is deferred before the change of phase that message 2 makes, and ends up behind message 3. */
  lemma {:induction false} LaterMessageOvertakes()
    ensures Drain(Rotating, Core(0, 1, []), [1, 2, 3]).core.held == [3, 1]
    ensures !InOrder(Rotating, (m: int) => m, Core(0, 1, []), [1, 2, 3])
  {
    var on: Handler<int, int, int, int> := Rotating;
    var start: Core<int, int, int> := Core(0, 1, []);
    assert [1, 2, 3][1..] == [2, 3] && [2, 3][1..] == [3] && [3, 1][1..] == [1] && [1][1..] == [];
    assert Advance(on, start, 1).core == Core(0, 1, [1]);
    assert Advance(on, Core(0, 1, [1]), 2).core == Core(0, 2, [1]);
    assert [3] + [1] == [3, 1];
    assert Advance(on, Core(0, 2, []), 3).core == Core(0, 2, [3]);
    assert Advance(on, Core(0, 2, [3]), 1).core == Core(0, 2, [3, 1]);
    assert Drain(on, Core(0, 2, []), [3, 1]).core.held == [3, 1];
    assert !Undisturbed(on, Core(0, 1, [1]), [2, 3]);
    assert !Undisturbed(on, start, [1, 2, 3]);
    DrainInOrderExactly(on, (m: int) => m, start, [1, 2, 3]);
  }
}

/** The phased shutdown coordinator over one child protocol, and its runs. */
module ShutdownCoordinator {
  import opened Base
  import opened ShutdownTopology

  type CreationId = nat

  datatype Rejection = NotEstablished | AlreadyStopping

  datatype State<+T> =
    | AwaitingPlan
    | AwaitingPlanAfterShutdown
    | Ready(plan: seq<seq<T>>)
    | Stopping(plan: seq<seq<T>>, phase: nat, awaiting: seq<CreationId>)
    | Completed

  datatype Move<+T> = NoMove | StartPhase(plan: seq<seq<T>>, phase: nat) | StopMove

  /** What a delegated turn of the wrapped behavior did. */
  datatype InnerTurn = InnerActed(stops: bool) | InnerFailed

  datatype Event<+T> =
    | Plan(plan: seq<seq<T>>)
    | Requested
    | ChildStopped(child: CreationId, exit: int)
    | ChildRejected(child: CreationId, reason: Rejection)
    | Delegated(inner: InnerTurn)

  datatype Verdict = Continue | Stop | InnerVerdict(stops: bool)

  datatype CoordinatorError<+T> =
    | BehaviorError
    | ChildRefused(child: CreationId, reason: Rejection)
    | UnexpectedChildStopped(child: CreationId, exit: int)
    | UnexpectedChildRejection(child: CreationId, reason: Rejection)
    | PlanAlreadyInstalled(plan: seq<seq<T>>)

  datatype Reaction<+T> = Acted(requests: seq<T>, verdict: Verdict) | Refused(error: CoordinatorError<T>)

  function Started(plan: seq<seq<CreationId>>): (State<CreationId>, Move<CreationId>) {
    if plan == [] then (Completed, StopMove) else (Stopping(plan, 0, plan[0]), StartPhase(plan, 0))
  }

  function Installed(s: State<CreationId>, plan: seq<seq<CreationId>>)
    : Result<(State<CreationId>, Move<CreationId>), seq<seq<CreationId>>>
  {
    match s
    case AwaitingPlan => Ok((Ready(plan), NoMove))
    case AwaitingPlanAfterShutdown => Ok(Started(plan))
    case _ => Err(plan)
  }

  function ShutdownAsked(s: State<CreationId>): (State<CreationId>, Move<CreationId>) {
    match s
    case AwaitingPlan => (AwaitingPlanAfterShutdown, NoMove)
    case Ready(plan) => Started(plan)
    case _ => (s, NoMove)
  }

  predicate Awaits<T>(s: State<T>, child: CreationId) {
    s.Stopping? && child in s.awaiting
  }

  function StopTaken(s: State<CreationId>, child: CreationId): (State<CreationId>, Move<CreationId>) {
    if !Awaits(s, child) then (s, NoMove)
    else
      var rest := RemoveFirst(s.awaiting, child);
      if rest != [] then (s.(awaiting := rest), NoMove)
      else if s.phase + 1 < |s.plan| then
        (Stopping(s.plan, s.phase + 1, s.plan[s.phase + 1]), StartPhase(s.plan, s.phase + 1))
      else (Completed, StopMove)
  }

  function MoveActions<T>(move: Move<T>): Reaction<T> {
    match move
    case NoMove => Acted([], Continue)
    case StopMove => Acted([], Stop)
    case StartPhase(plan, phase) => Acted(if phase < |plan| then plan[phase] else [], Continue)
  }

  function Step(s: State<CreationId>, e: Event<CreationId>): (State<CreationId>, Reaction<CreationId>) {
    match e
    case Plan(plan) =>
      (match Installed(s, plan)
       case Ok(next) => (next.0, MoveActions(next.1))
       case Err(returned) => (s, Refused(PlanAlreadyInstalled(returned))))
    case Requested => var next := ShutdownAsked(s); (next.0, MoveActions(next.1))
    case ChildStopped(child, exit) =>
      if Awaits(s, child) then var next := StopTaken(s, child); (next.0, MoveActions(next.1))
      else (s, Refused(UnexpectedChildStopped(child, exit)))
    case ChildRejected(child, reason) =>
      (s, Refused(if Awaits(s, child) then ChildRefused(child, reason) else UnexpectedChildRejection(child, reason)))
    case Delegated(InnerActed(stops)) => (s, Acted([], InnerVerdict(stops)))
    case Delegated(InnerFailed) => (s, Refused(BehaviorError))
  }

  /** The coordinator object: one field, overwritten by each turn. */
  class Coordinator {
    var state: State<CreationId>

    /** Plans reach the coordinator only through the validating constructor. */
    ghost predicate Valid() reads this { WellFormed(state) }

    constructor WithPlan(plan: seq<seq<CreationId>>)
      requires ValidPlan(plan)
      ensures Valid() && state == Ready(plan)
    {
      state := Ready(plan);
    }

    constructor AwaitPlan()
      ensures Valid() && state == AwaitingPlan
    {
      state := AwaitingPlan;
    }

    method StartPlan(plan: seq<seq<CreationId>>) returns (move: Move<CreationId>)
      modifies this
      ensures (state, move) == Started(plan)
    {
      if |plan| == 0 {
        state := Completed;
        return StopMove;
      }
      state := Stopping(plan, 0, plan[0]);
      move := StartPhase(plan, 0);
    }

    method InstallPlan(plan: seq<seq<CreationId>>) returns (r: Result<Move<CreationId>, seq<seq<CreationId>>>)
      modifies this
      ensures match Installed(old(state), plan)
              case Ok(next) => state == next.0 && r == Ok(next.1)
              case Err(returned) => state == old(state) && r == Err(returned)
    {
      match state
      case AwaitingPlan =>
        state := Ready(plan);
        r := Ok(NoMove);
      case AwaitingPlanAfterShutdown =>
        var move := StartPlan(plan);
        r := Ok(move);
      case _ =>
        r := Err(plan);
    }

    method RequestShutdown() returns (move: Move<CreationId>)
      modifies this
      ensures (state, move) == ShutdownAsked(old(state))
    {
      match state
      case AwaitingPlan =>
        state := AwaitingPlanAfterShutdown;
        move := NoMove;
      case Ready(plan) =>
        move := StartPlan(plan);
      case _ =>
        move := NoMove;
    }

    method TakeStop(child: CreationId) returns (move: Move<CreationId>)
      requires Valid()
      modifies this
      ensures (state, move) == StopTaken(old(state), child)
    {
      if !state.Stopping? || child !in state.awaiting {
        return NoMove;
      }
      state := state.(awaiting := RemoveFirst(state.awaiting, child));
      if state.awaiting != [] {
        return NoMove;
      }
      var next := state.phase + 1;
      if next == |state.plan| {
        state := Completed;
        return StopMove;
      }
      move := StartPhase(state.plan, next);
      state := Stopping(state.plan, next, state.plan[next]);
    }

    method Transition(event: Event<CreationId>) returns (reaction: Reaction<CreationId>)
      requires Valid() && WellFormedEvent(event)
      modifies this
      ensures (state, reaction) == Step(old(state), event)
      ensures Valid()
    {
      StepWellFormed(state, event);
      match event
      case Plan(plan) =>
        var r := InstallPlan(plan);
        reaction := match r
          case Ok(move) => MoveActions(move)
          case Err(returned) => Refused(PlanAlreadyInstalled(returned));
      case Requested =>
        var move := RequestShutdown();
        reaction := MoveActions(move);
      case ChildStopped(child, exit) =>
        if !Awaits(state, child) {
          return Refused(UnexpectedChildStopped(child, exit));
        }
        var move := TakeStop(child);
        reaction := MoveActions(move);
      case ChildRejected(child, reason) =>
        if Awaits(state, child) {
          reaction := Refused(ChildRefused(child, reason));
        } else {
          reaction := Refused(UnexpectedChildRejection(child, reason));
        }
      case Delegated(inner) =>
        reaction := match inner
          case InnerActed(stops) => Acted([], InnerVerdict(stops))
          case InnerFailed => Refused(BehaviorError);
    }
  }

  // ---------------------------------------------------------------------
  // Runs: every sequence of events, from a coordinator that has not started.

  ghost predicate WellFormed(s: State<CreationId>) {
    match s
    case Ready(plan) => ValidPlan(plan)
    case Stopping(plan, phase, awaiting) =>
      ValidPlan(plan) && phase < |plan| && awaiting != [] && multiset(awaiting) <= multiset(plan[phase])
    case _ => true
  }

  ghost predicate WellFormedEvent(e: Event<CreationId>) {
    e.Plan? ==> ValidPlan(e.plan)
  }

  ghost predicate WellFormedRun(es: seq<Event<CreationId>>) {
    forall i :: 0 <= i < |es| ==> WellFormedEvent(es[i])
  }

  lemma {:induction false} StepWellFormed(s: State<CreationId>, e: Event<CreationId>)
    requires WellFormed(s) && WellFormedEvent(e)
    ensures WellFormed(Step(s, e).0)
  {
    if e.ChildStopped? && Awaits(s, e.child) {
      StopWellFormed(s, e.child);
    }
  }

  lemma {:induction false} StopWellFormed(s: State<CreationId>, child: CreationId)
    requires WellFormed(s) && Awaits(s, child)
    ensures WellFormed(StopTaken(s, child).0)
  {
    assert multiset(RemoveFirst(s.awaiting, child)) <= multiset(s.awaiting);
  }

  ghost predicate Unstarted(s: State<CreationId>) {
    s.AwaitingPlan? || (s.Ready? && ValidPlan(s.plan))
  }

  /** A state together with what the run that reached it has done. */
  datatype Run = Run(
    state: State<CreationId>,
    requested: seq<CreationId>,              // every shutdown request emitted, in order
    stopped: seq<CreationId>,                // every child whose stop was accepted, in order
    stops: nat,                              // stop verdicts given by the coordinator's own lanes
    plan: Option<seq<seq<CreationId>>>)      // the plan the run works on, once it has one

  function Begin(s: State<CreationId>): Run {
    Run(s, [], [], 0, if s.Ready? then Some(s.plan) else None)
  }

  function Advance(run: Run, e: Event<CreationId>): Run {
    var (next, reaction) := Step(run.state, e);
    match reaction
    case Refused(_) => run.(state := next)
    case Acted(requests, verdict) =>
      Run(next,
          run.requested + requests,
          if e.ChildStopped? then run.stopped + [e.child] else run.stopped,
          if verdict == Stop then run.stops + 1 else run.stops,
          if e.Plan? then Some(e.plan) else run.plan)
  }

  function After(run: Run, es: seq<Event<CreationId>>): Run {
    if es == [] then run else Advance(After(run, es[..|es| - 1]), es[|es| - 1])
  }

  /** What relates a state to the history that led to it. */
  ghost predicate Accounted(run: Run) {
    match run.state
    case AwaitingPlan => run == Begin(run.state)
    case AwaitingPlanAfterShutdown => run == Begin(run.state)
    case Ready(p) => run == Begin(run.state) && ValidPlan(p)
    case Stopping(p, phase, awaiting) =>
      && ValidPlan(p) && phase < |p| && awaiting != [] && multiset(awaiting) <= multiset(p[phase])
      && run.plan == Some(p) && run.stops == 0
      && run.requested == Flatten(p[..phase + 1])
      && multiset(run.stopped) + multiset(awaiting) == multiset(run.requested)
    case Completed =>
      && run.plan.Some? && ValidPlan(run.plan.value) && run.stops == 1
      && run.requested == Flatten(run.plan.value)
      && multiset(run.stopped) == multiset(run.requested)
  }

  lemma {:induction false} AccountedStart(run: Run, e: Event<CreationId>, p: seq<seq<CreationId>>)
    requires Accounted(run) && ValidPlan(p)
    requires (e == Plan(p) && run.state.AwaitingPlanAfterShutdown?) || (e.Requested? && run.state == Ready(p))
    ensures Accounted(Advance(run, e))
  {
    assert [] + MoveActions(Started(p).1).requests == MoveActions(Started(p).1).requests;
    if p != [] {
      FlattenUpTo(p, 0);
      assert Flatten(p[..0]) + p[0] == p[0];
    }
  }

  lemma {:induction false} AccountedWithin(run: Run, child: CreationId, exit: int)
    requires Accounted(run) && Awaits(run.state, child) && RemoveFirst(run.state.awaiting, child) != []
    ensures Accounted(Advance(run, ChildStopped(child, exit)))
  {
    var next := Advance(run, ChildStopped(child, exit));
    assert next.requested == run.requested;
    assert multiset(next.stopped) == multiset(run.stopped) + multiset{child};
  }

  lemma {:induction false} AccountedNextPhase(run: Run, child: CreationId, exit: int)
    requires Accounted(run) && Awaits(run.state, child) && run.state.awaiting == [child]
    requires run.state.phase + 1 < |run.state.plan|
    ensures Accounted(Advance(run, ChildStopped(child, exit)))
  {
    var next, s := Advance(run, ChildStopped(child, exit)), run.state;
    var following := s.plan[s.phase + 1];
    FlattenUpTo(s.plan, s.phase + 1);
    assert next.state == Stopping(s.plan, s.phase + 1, following) && next.stops == 0 && next.plan == run.plan;
    assert next.requested == run.requested + following && next.stopped == run.stopped + [child];
    assert multiset(next.stopped) == multiset(run.stopped) + multiset{child} == multiset(run.requested);
    assert multiset(next.requested) == multiset(run.requested) + multiset(following);
  }

  lemma {:induction false} AccountedCompletion(run: Run, child: CreationId, exit: int)
    requires Accounted(run) && Awaits(run.state, child) && run.state.awaiting == [child]
    requires run.state.phase + 1 == |run.state.plan|
    ensures Accounted(Advance(run, ChildStopped(child, exit)))
  {
    var next, s := Advance(run, ChildStopped(child, exit)), run.state;
    assert s.plan[..s.phase + 1] == s.plan;
    assert next == Run(Completed, run.requested, run.stopped + [child], 1, run.plan);
    assert multiset(next.stopped) == multiset(run.stopped) + multiset{child} == multiset(run.requested);
  }

  lemma {:induction false} AccountedLast(run: Run, child: CreationId, exit: int)
    requires Accounted(run) && Awaits(run.state, child) && RemoveFirst(run.state.awaiting, child) == []
    ensures Accounted(Advance(run, ChildStopped(child, exit)))
  {
    assert run.state.awaiting == [child];
    if run.state.phase + 1 < |run.state.plan| {
      AccountedNextPhase(run, child, exit);
    } else {
      AccountedCompletion(run, child, exit);
    }
  }

  lemma {:induction false} AccountedPlan(run: Run, p: seq<seq<CreationId>>)
    requires Accounted(run) && ValidPlan(p)
    ensures Accounted(Advance(run, Plan(p)))
  {
    if run.state.AwaitingPlanAfterShutdown? {
      AccountedStart(run, Plan(p), p);
    } else {
      assert run.requested + [] == run.requested;
    }
  }

  lemma {:induction false} AccountedRequest(run: Run)
    requires Accounted(run)
    ensures Accounted(Advance(run, Requested))
  {
    if run.state.Ready? {
      AccountedStart(run, Requested, run.state.plan);
    } else {
      assert run.requested + [] == run.requested;
    }
  }

  lemma {:induction false} AccountedStopped(run: Run, child: CreationId, exit: int)
    requires Accounted(run)
    ensures Accounted(Advance(run, ChildStopped(child, exit)))
  {
    if Awaits(run.state, child) {
      if RemoveFirst(run.state.awaiting, child) == [] {
        AccountedLast(run, child, exit);
      } else {
        AccountedWithin(run, child, exit);
      }
    }
  }

  /** Every event keeps the accounting. */
  lemma {:induction false} AccountedStep(run: Run, e: Event<CreationId>)
    requires Accounted(run) && WellFormedEvent(e)
    ensures Accounted(Advance(run, e))
  {
    match e
    case Plan(p) => AccountedPlan(run, p);
    case Requested => AccountedRequest(run);
    case ChildStopped(child, exit) => AccountedStopped(run, child, exit);
    case _ =>
      assert run.requested + [] == run.requested;
      assert Advance(run, e) == run;
  }

  lemma {:induction false} RunAccounted(s: State<CreationId>, es: seq<Event<CreationId>>)
    requires Unstarted(s) && WellFormedRun(es)
    ensures Accounted(After(Begin(s), es))
  {
    if es != [] {
      RunAccounted(s, es[..|es| - 1]);
      AccountedStep(After(Begin(s), es[..|es| - 1]), es[|es| - 1]);
    }
  }

  /**
   * Safety of every run: children are requested in plan order and at most once, a stop is
   * accepted at most once and only for a requested child, and the coordinator's own stop verdict
   * comes at most once, exactly when it completes, after every child of the plan has stopped.
   */
  lemma {:induction false} PhasedShutdown(s: State<CreationId>, es: seq<Event<CreationId>>)
    requires Unstarted(s) && WellFormedRun(es)
    ensures var run := After(Begin(s), es);
            && (run.plan == None ==> run.requested == [])
            && (run.plan.Some? ==> run.requested <= Flatten(run.plan.value))
            && Distinct(run.requested)
            && multiset(run.stopped) <= multiset(run.requested)
            && run.stops <= 1
            && (run.stops == 1 <==> run.state == Completed)
            && (run.stops == 1 ==>
                  && run.plan.Some? && run.requested == Flatten(run.plan.value)
                  && multiset(run.stopped) == multiset(Flatten(run.plan.value)))
  {
    RunAccounted(s, es);
    var now := After(Begin(s), es).state;
    if now.Stopping? { FlattenPrefix(now.plan, now.phase + 1); }
  }

  lemma {:induction false} PhaseOf(plan: seq<seq<CreationId>>, x: CreationId) returns (i: nat)
    requires x in Flatten(plan)
    ensures i < |plan| && x in plan[i]
  {
    FlattenMember(plan, x);
    i :| 0 <= i < |plan| && x in plan[i];
  }

  // ---------------------------------------------------------------------
  // What the history alone says about the state and about every reaction.

  /** The plan the coordinator starts with, or the first one it is given. */
  function FirstPlan<T>(s: State<T>, es: seq<Event<T>>): Option<seq<seq<T>>> {
    if s.Ready? then Some(s.plan)
    else if es == [] then None
    else
      var earlier, e := FirstPlan(s, es[..|es| - 1]), es[|es| - 1];
      if earlier == None && e.Plan? then Some(e.plan) else earlier
  }

  predicate ShutdownRequested<T>(es: seq<Event<T>>) {
    exists i :: 0 <= i < |es| && es[i].Requested?
  }

  /** Which state a plan and a shutdown request, or their absence, lead to. */
  predicate Reached<T>(state: State<T>, planned: bool, asked: bool) {
    match state
    case AwaitingPlan => !planned && !asked
    case AwaitingPlanAfterShutdown => !planned && asked
    case Ready(_) => planned && !asked
    case Stopping(_, _, _) => planned && asked
    case Completed => planned && asked
  }

  lemma {:induction false} RequestedLast<T>(es: seq<Event<T>>)
    requires es != []
    ensures ShutdownRequested(es) <==> ShutdownRequested(es[..|es| - 1]) || es[|es| - 1].Requested?
  {
    var n := |es| - 1;
    if i :| 0 <= i < n && es[..n][i].Requested? { assert es[i].Requested?; }
    if i :| 0 <= i < |es| && es[i].Requested? { assert i < n ==> es[..n][i].Requested?; }
  }

  /** Over every run: the first plan stays, and plan and request alone decide how far the shutdown got. */
  lemma {:induction false} HistoryDecides(s: State<CreationId>, es: seq<Event<CreationId>>)
    requires s.AwaitingPlan? || s.Ready?
    ensures var run := After(Begin(s), es);
            run.plan == FirstPlan(s, es) && Reached(run.state, run.plan.Some?, ShutdownRequested(es))
  {
    if es != [] {
      var n := |es| - 1;
      HistoryDecides(s, es[..n]);
      RequestedLast(es);
      ReachedStep(After(Begin(s), es[..n]), es[n], ShutdownRequested(es[..n]));
    }
  }

  lemma {:induction false} ReachedStep(run: Run, e: Event<CreationId>, asked: bool)
    requires Reached(run.state, run.plan.Some?, asked)
    ensures var now := Advance(run, e);
            && now.plan == (if run.plan == None && e.Plan? then Some(e.plan) else run.plan)
            && Reached(now.state, now.plan.Some?, asked || e.Requested?)
  {}

  /** Asked to stop and not yet accepted as stopped. */
  predicate Owed(requested: seq<CreationId>, stopped: seq<CreationId>, child: CreationId) {
    child in requested && child !in stopped
  }

  lemma {:induction false} AwaitedIsOwed(run: Run, child: CreationId)
    requires Accounted(run) && Distinct(run.requested)
    ensures Awaits(run.state, child) <==> Owed(run.requested, run.stopped, child)
  {
    assert child in run.requested <==> child in multiset(run.requested);
    assert child in run.stopped <==> child in multiset(run.stopped);
    if run.state.Stopping? {
      assert child in run.state.awaiting <==> child in multiset(run.state.awaiting);
      DistinctCounts(run.requested, child);
    }
  }

  lemma {:induction false} DistinctCounts<T>(s: seq<T>, x: T)
    requires Distinct(s)
    ensures multiset(s)[x] <= 1
  {
    if s != [] {
      var n := |s| - 1;
      DistinctCounts(s[..n], x);
      assert s == s[..n] + [s[n]];
      assert x == s[n] ==> x !in s[..n];
    }
  }

  /** The reaction the history calls for; a turn that is acted on may carry any requests. */
  ghost predicate Fits<T>(
    r: Reaction<T>, e: Event<T>, planned: bool, requested: seq<CreationId>, stopped: seq<CreationId>)
  {
    match e
    case Plan(plan) => if planned then r == Refused(PlanAlreadyInstalled(plan)) else r.Acted?
    case Requested => r.Acted?
    case ChildStopped(child, exit) =>
      if Owed(requested, stopped, child) then r.Acted? else r == Refused(UnexpectedChildStopped(child, exit))
    case ChildRejected(child, reason) =>
      r == Refused(if Owed(requested, stopped, child) then ChildRefused(child, reason)
                   else UnexpectedChildRejection(child, reason))
    case Delegated(InnerActed(stops)) => r == Acted([], InnerVerdict(stops))
    case Delegated(InnerFailed) => r == Refused(BehaviorError)
  }

  /**
   * Over every run and for every event: a second plan is refused whole, a stop or a rejection is accepted as
   * expected exactly for a child that was asked to stop and has not, and a refusal changes nothing.
   */
  lemma {:induction false} ReactsExactly(s: State<CreationId>, es: seq<Event<CreationId>>, e: Event<CreationId>)
    requires Unstarted(s) && WellFormedRun(es)
    ensures var run := After(Begin(s), es);
            && Fits(Step(run.state, e).1, e, FirstPlan(s, es).Some?, run.requested, run.stopped)
            && (Step(run.state, e).1.Refused? ==> Step(run.state, e).0 == run.state && Advance(run, e) == run)
  {
    var run := After(Begin(s), es);
    HistoryDecides(s, es);
    RunAccounted(s, es);
    PhasedShutdown(s, es);
    if e.ChildStopped? || e.ChildRejected? {
      AwaitedIsOwed(run, e.child);
    }
    StepFits(run.state, e, run.requested, run.stopped);
    if Step(run.state, e).1.Refused? {
      assert Advance(run, e) == run;
    }
  }

  lemma {:induction false} StepFits(
    s: State<CreationId>, e: Event<CreationId>, requested: seq<CreationId>, stopped: seq<CreationId>)
    requires e.ChildStopped? || e.ChildRejected? ==> (Awaits(s, e.child) <==> Owed(requested, stopped, e.child))
    ensures Fits(Step(s, e).1, e, !s.AwaitingPlan? && !s.AwaitingPlanAfterShutdown?, requested, stopped)
    ensures Step(s, e).1.Refused? ==> Step(s, e).0 == s
  {}

  /** What a requested child depends on being stopped first lies in a phase before the current one. */
  lemma {:induction false} PlacedBefore(
    plan: seq<seq<CreationId>>, phase: nat, edges: seq<(CreationId, CreationId)>, d: CreationId, c: CreationId)
    requires phase < |plan| && Respects(plan, edges) && (d, c) in edges
    requires c in Flatten(plan[..phase + 1]) && d in Flatten(plan)
    ensures d in Flatten(plan[..phase])
  {
    var j := PhaseOf(plan[..phase + 1], c);
    var i := PhaseOf(plan, d);
    assert plan[..phase + 1][j] == plan[j];
    assert i < j;
    assert plan[..phase][i] == plan[i];
    FlattenMember(plan[..phase], d);
  }

  /** A dependency is asked to stop only after every dependent's stop was accepted. */
  lemma {:induction false} DependencyOrder(run: Run, edges: seq<(CreationId, CreationId)>, d: CreationId, c: CreationId)
    requires Accounted(run)
    requires run.plan.Some? ==> Respects(run.plan.value, edges) && d in Flatten(run.plan.value)
    requires (d, c) in edges && c in run.requested
    ensures d in run.stopped
  {
    if run.state.Stopping? {
      var phase, plan := run.state.phase, run.state.plan;
      PlacedBefore(plan, phase, edges, d, c);
      FlattenUpTo(plan, phase);
      assert multiset(run.requested) == multiset(Flatten(plan[..phase])) + multiset(plan[phase]);
      assert d in multiset(Flatten(plan[..phase]));
      assert multiset(run.requested)[d] == multiset(run.stopped)[d] + multiset(run.state.awaiting)[d];
    } else {
      assert d in multiset(run.requested);
    }
    assert d in multiset(run.stopped);
  }

  lemma {:induction false} PlanFrom(s: State<CreationId>, es: seq<Event<CreationId>>, good: iset<seq<seq<CreationId>>>)
    requires s.Ready? ==> s.plan in good
    requires forall i :: 0 <= i < |es| && es[i].Plan? ==> es[i].plan in good
    ensures After(Begin(s), es).plan.Some? ==> After(Begin(s), es).plan.value in good
  {
    if es != [] { PlanFrom(s, es[..|es| - 1], good); }
  }

  /**
   * End to end: take any topology, any plans compiled from it, and any events in any order. When
   * a child has been asked to stop, all its dependents have stopped; nobody is asked twice; the
   * coordinator stops at most once, and only when every node has stopped.
   */
  lemma {:induction false} CompiledShutdown(
    nodes: seq<CreationId>, edges: seq<(CreationId, CreationId)>, s: State<CreationId>, es: seq<Event<CreationId>>)
    requires Closed(nodes, edges)
    requires s.AwaitingPlan? || (s.Ready? && LayeredPlan(nodes, edges, s.plan))
    requires forall i :: 0 <= i < |es| && es[i].Plan? ==> LayeredPlan(nodes, edges, es[i].plan)
    ensures var run := After(Begin(s), es);
            && (forall d, c :: (d, c) in edges && c in run.requested ==> d in run.stopped)
            && Distinct(run.requested)
            && run.stops <= 1
            && (run.stops == 1 ==> forall x :: x in nodes ==> x in run.stopped)
  {
    PhasedShutdown(s, es);
    RunAccounted(s, es);
    PlanFrom(s, es, iset p | LayeredPlan(nodes, edges, p));
    var run := After(Begin(s), es);
    forall d, c | (d, c) in edges && c in run.requested ensures d in run.stopped {
      var i :| 0 <= i < |edges| && edges[i] == (d, c);
      assert edges[i].0 in nodes;
      DependencyOrder(run, edges, d, c);
    }
    if run.stops == 1 {
      forall x | x in nodes ensures x in run.stopped {
        assert x in multiset(Flatten(run.plan.value));
        assert x in multiset(run.stopped);
      }
    }
  }

  /** The reaction ends the actor, by the coordinator's own verdict or the wrapped behavior's. */
  predicate StopsActor<T>(r: Reaction<T>) {
    r.Acted? && (r.verdict == Stop || r.verdict == InnerVerdict(true))
  }

  /**
   * Over every run: the actor stops before its shutdown is complete exactly when a delegated turn stops
   * it; any other stop comes with the completion, after every child of the plan has stopped.
   */
  lemma {:induction false} StopsEarlyExactly(s: State<CreationId>, es: seq<Event<CreationId>>, e: Event<CreationId>)
    requires Unstarted(s) && WellFormedRun(es) && WellFormedEvent(e)
    ensures var run := After(Begin(s), es);
            var reaction, now := Step(run.state, e).1, Advance(run, e);
            && (StopsActor(reaction) && now.state != Completed
                <==> e == Delegated(InnerActed(true)) && run.state != Completed)
            && (now.state == Completed ==>
                  now.plan.Some? && multiset(now.stopped) == multiset(Flatten(now.plan.value)))
  {
    var run := After(Begin(s), es);
    RunAccounted(s, es);
    AccountedStep(run, e);
    StepStops(run.state, e);
    assert Advance(run, e).state == Step(run.state, e).0;
  }

  lemma {:induction false} StepStops(s: State<CreationId>, e: Event<CreationId>)
    ensures StopsActor(Step(s, e).1) && Step(s, e).0 != Completed
            <==> e == Delegated(InnerActed(true)) && s != Completed
  {}

  /** A wrapped behavior may stop the actor while children are still to be stopped. */
  lemma {:induction false} WrappedBehaviorStopsFirst()
    ensures var run := After(Begin(Ready([[1]])), [Requested, Delegated(InnerActed(true))]);
            run.state == Stopping([[1]], 0, [1]) && run.stopped == []
    ensures StopsActor(Step(Stopping([[1]], 0, [1]), Delegated(InnerActed(true))).1)
  {
    AfterTwo(Begin(Ready([[1]])), Requested, Delegated(InnerActed(true)));
  }

  /** The plan and the shutdown request commute: same state, same emissions, same verdicts. */
  lemma {:induction false} PlanAndRequestCommute(p: seq<seq<CreationId>>)
    ensures After(Begin(AwaitingPlan), [Plan(p), Requested]) == After(Begin(AwaitingPlan), [Requested, Plan(p)])
    ensures After(Begin(AwaitingPlan), [Plan(p), Requested]).state == Started(p).0
  {
    AfterTwo(Begin(AwaitingPlan), Plan(p), Requested);
    AfterTwo(Begin(AwaitingPlan), Requested, Plan(p));
    assert Advance(Begin(AwaitingPlan), Plan(p)) == Begin(Ready(p));
    assert Advance(Begin(AwaitingPlan), Requested) == Begin(AwaitingPlanAfterShutdown);
    assert Advance(Begin(Ready(p)), Requested) == Advance(Begin(AwaitingPlanAfterShutdown), Plan(p));
  }

  lemma {:induction false} AfterTwo(run: Run, e: Event<CreationId>, f: Event<CreationId>)
    ensures After(run, [e, f]) == Advance(Advance(run, e), f)
  {
    assert [e, f][..1] == [e] && [e][..0] == [];
    assert After(run, [e]) == Advance(After(run, []), e);
  }

  /** Children the plan still has to stop, in plan order. */
  function Outstanding(s: State<CreationId>): seq<CreationId> {
    if s.Stopping? && s.phase < |s.plan| then s.awaiting + Flatten(s.plan[s.phase + 1..]) else []
  }

  lemma {:induction false} FlattenFirst<T>(parts: seq<seq<T>>)
    requires parts != []
    ensures Flatten(parts) == parts[0] + Flatten(parts[1..])
  {
    var n := |parts| - 1;
    if n > 0 {
      FlattenFirst(parts[..n]);
      assert parts[..n][1..] == parts[1..][..n - 1];
    }
  }

  lemma {:induction false} OutstandingHead(s: State<CreationId>)
    requires s.Stopping? && s.phase < |s.plan| && s.awaiting != []
    ensures Outstanding(s) != [] && Outstanding(s)[0] == s.awaiting[0]
    ensures Outstanding(s)[1..] == s.awaiting[1..] + Flatten(s.plan[s.phase + 1..])
    ensures RemoveFirst(s.awaiting, s.awaiting[0]) == s.awaiting[1..]
  {}

  lemma {:induction false} OutstandingWithin(s: State<CreationId>)
    requires s.Stopping? && s.phase < |s.plan| && |s.awaiting| > 1
    ensures Outstanding(StopTaken(s, s.awaiting[0]).0) == Outstanding(s)[1..]
  {
    OutstandingHead(s);
  }

  lemma {:induction false} OutstandingOpens(plan: seq<seq<CreationId>>, phase: nat)
    requires phase < |plan|
    ensures Outstanding(Stopping(plan, phase, plan[phase])) == Flatten(plan[phase..])
  {
    FlattenFirst(plan[phase..]);
    assert plan[phase..][1..] == plan[phase + 1..];
  }

  lemma {:induction false} OutstandingLast(s: State<CreationId>)
    requires s.Stopping? && s.phase < |s.plan| && |s.awaiting| == 1
    ensures Outstanding(StopTaken(s, s.awaiting[0]).0) == Outstanding(s)[1..]
  {
    assert Outstanding(s)[1..] == Flatten(s.plan[s.phase + 1..]);
    if s.phase + 1 < |s.plan| {
      OutstandingOpens(s.plan, s.phase + 1);
    }
  }

  /** The state after each of these children, in turn, is reported stopped. */
  function AllStopped(s: State<CreationId>, children: seq<CreationId>): State<CreationId>
    decreases |children|
  {
    if children == [] then s else AllStopped(Step(s, ChildStopped(children[0], 0)).0, children[1..])
  }

  /** Progress: reports for the outstanding children, in plan order, complete the shutdown. */
  lemma {:induction false} StopsComplete(s: State<CreationId>)
    requires s.Stopping? && WellFormed(s)
    ensures AllStopped(s, Outstanding(s)) == Completed
    decreases |Outstanding(s)|
  {
    var next := Step(s, ChildStopped(s.awaiting[0], 0)).0;
    OutstandingStep(s);
    StepWellFormed(s, ChildStopped(s.awaiting[0], 0));
    if next.Stopping? { StopsComplete(next); }
  }

  /** The report of the first outstanding child takes it off the list. */
  lemma {:induction false} OutstandingStep(s: State<CreationId>)
    requires s.Stopping? && s.phase < |s.plan| && s.awaiting != []
    ensures Outstanding(s) != [] && Outstanding(s)[0] == s.awaiting[0]
    ensures Outstanding(Step(s, ChildStopped(s.awaiting[0], 0)).0) == Outstanding(s)[1..]
  {
    assert Step(s, ChildStopped(s.awaiting[0], 0)).0 == StopTaken(s, s.awaiting[0]).0;
    assert Outstanding(s)[0] == s.awaiting[0];
    if |s.awaiting| == 1 { OutstandingLast(s); } else { OutstandingWithin(s); }
  }
}

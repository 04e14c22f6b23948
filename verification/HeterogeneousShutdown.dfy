/** The coordinator over a closed sum of child protocols, and its erasure to creation IDs. */
module HeterogeneousShutdown {
  import opened Base
  import opened ShutdownTopology
  import opened ShutdownCoordinator

  /** `Child` selects the protocol at this position, `Other` one of the remaining ones. */
  datatype Target = Child(creation: CreationId) | Other(tail: Target)

  function Creation(t: Target): CreationId {
    match t
    case Child(creation) => creation
    case Other(tail) => Creation(tail)
  }

  /** The protocol position a target selects. */
  function Lane(t: Target): nat {
    match t
    case Child(_) => 0
    case Other(tail) => 1 + Lane(tail)
  }

  function TargetAt(position: nat, creation: CreationId): (t: Target)
    ensures Creation(t) == creation && Lane(t) == position
  {
    if position == 0 then Child(creation) else Other(TargetAt(position - 1, creation))
  }

  function Creations(targets: seq<Target>): (r: seq<CreationId>)
    ensures |r| == |targets|
    ensures forall i :: 0 <= i < |r| ==> r[i] == Creation(targets[i])
  {
    seq(|targets|, i requires 0 <= i < |targets| => Creation(targets[i]))
  }

  function ErasePlan(plan: seq<seq<Target>>): (r: seq<seq<CreationId>>)
    ensures |r| == |plan|
    ensures forall i :: 0 <= i < |r| ==> r[i] == Creations(plan[i])
  {
    seq(|plan|, i requires 0 <= i < |plan| => Creations(plan[i]))
  }

  /** Validation compares creation IDs across all protocol lanes: it is validation of the erased plan. */
  method NewHeterogeneousPlan(phases: seq<seq<Target>>) returns (r: Result<seq<seq<Target>>, PlanError<CreationId>>)
    ensures r.Ok? <==> ValidPlan(ErasePlan(phases))
    ensures r.Ok? ==> r.value == phases
    ensures r.Err? ==> FirstPlanDefect(ErasePlan(phases), r.error)
  {
    ghost var erased := ErasePlan(phases);
    var seen: seq<CreationId> := [];
    var p := 0;
    while p < |phases|
      invariant 0 <= p <= |phases|
      invariant seen == Flatten(erased[..p]) && ValidPlan(erased[..p])
    {
      if phases[p] == [] {
        r := Err(EmptyPhase(p));
        assert erased[p] == [];
        DefectInvalidates(erased, r.error);
        return;
      }
      ghost var before := seen;
      var j := 0;
      while j < |phases[p]|
        invariant 0 <= j <= |phases[p]|
        invariant seen == before + erased[p][..j] && Distinct(seen)
      {
        var creation := Creation(phases[p][j]);
        if creation in seen {
          r := Err(DuplicateChild(creation));
          assert erased[p][j] == creation;
          DefectInvalidates(erased, r.error);
          return;
        }
        seen := seen + [creation];
        j := j + 1;
      }
      assert erased[p][..j] == erased[p];
      FlattenUpTo(erased, p);
      p := p + 1;
    }
    assert erased[..p] == erased;
    r := Ok(phases);
  }

  function Begun(plan: seq<seq<Target>>): (State<Target>, Move<Target>) {
    if plan == [] then (Completed, StopMove) else (Stopping(plan, 0, Creations(plan[0])), StartPhase(plan, 0))
  }

  function PlanTaken(s: State<Target>, plan: seq<seq<Target>>)
    : Result<(State<Target>, Move<Target>), seq<seq<Target>>>
  {
    match s
    case AwaitingPlan => Ok((Ready(plan), NoMove))
    case AwaitingPlanAfterShutdown => Ok(Begun(plan))
    case _ => Err(plan)
  }

  function RequestTaken(s: State<Target>): (State<Target>, Move<Target>) {
    match s
    case AwaitingPlan => (AwaitingPlanAfterShutdown, NoMove)
    case Ready(plan) => Begun(plan)
    case _ => (s, NoMove)
  }

  function ReportTaken(s: State<Target>, child: CreationId): (State<Target>, Move<Target>) {
    if !Awaits(s, child) then (s, NoMove)
    else
      var rest := RemoveFirst(s.awaiting, child);
      if rest != [] then (s.(awaiting := rest), NoMove)
      else if s.phase + 1 < |s.plan| then
        (Stopping(s.plan, s.phase + 1, Creations(s.plan[s.phase + 1])), StartPhase(s.plan, s.phase + 1))
      else (Completed, StopMove)
  }

  function TargetStep(s: State<Target>, e: Event<Target>): (State<Target>, Reaction<Target>) {
    match e
    case Plan(plan) =>
      (match PlanTaken(s, plan)
       case Ok(next) => (next.0, MoveActions(next.1))
       case Err(returned) => (s, Refused(PlanAlreadyInstalled(returned))))
    case Requested => var next := RequestTaken(s); (next.0, MoveActions(next.1))
    case ChildStopped(child, exit) =>
      if Awaits(s, child) then var next := ReportTaken(s, child); (next.0, MoveActions(next.1))
      else (s, Refused(UnexpectedChildStopped(child, exit)))
    case ChildRejected(child, reason) =>
      (s, Refused(if Awaits(s, child) then ChildRefused(child, reason) else UnexpectedChildRejection(child, reason)))
    case Delegated(InnerActed(stops)) => (s, Acted([], InnerVerdict(stops)))
    case Delegated(InnerFailed) => (s, Refused(BehaviorError))
  }

  class HeterogeneousCoordinator {
    var state: State<Target>

    ghost predicate Valid() reads this { state.Stopping? ==> state.phase < |state.plan| }

    constructor WithPlan(plan: seq<seq<Target>>)
      ensures Valid() && state == Ready(plan)
    {
      state := Ready(plan);
    }

    constructor AwaitPlan()
      ensures Valid() && state == AwaitingPlan
    {
      state := AwaitingPlan;
    }

    method StartPlan(plan: seq<seq<Target>>) returns (move: Move<Target>)
      modifies this
      ensures (state, move) == Begun(plan) && Valid()
    {
      if |plan| == 0 {
        state := Completed;
        return StopMove;
      }
      state := Stopping(plan, 0, Creations(plan[0]));
      move := StartPhase(plan, 0);
    }

    method TakeStop(child: CreationId) returns (move: Move<Target>)
      requires Valid()
      modifies this
      ensures (state, move) == ReportTaken(old(state), child) && Valid()
    {
      if !state.Stopping? || child !in state.awaiting {
        return NoMove;
      }
      state := state.(awaiting := RemoveFirst(state.awaiting, child));
      if state.awaiting != [] {
        return NoMove;
      }
      var next := state.phase + 1;
      if next == |state.plan| {
        state := Completed;
        return StopMove;
      }
      move := StartPhase(state.plan, next);
      state := Stopping(state.plan, next, Creations(state.plan[next]));
    }

    method Transition(event: Event<Target>) returns (reaction: Reaction<Target>)
      requires Valid()
      modifies this
      ensures (state, reaction) == TargetStep(old(state), event)
      ensures Valid()
    {
      match event
      case Plan(plan) =>
        match state {
          case AwaitingPlan =>
            state := Ready(plan);
            reaction := MoveActions(NoMove);
          case AwaitingPlanAfterShutdown =>
            var move := StartPlan(plan);
            reaction := MoveActions(move);
          case _ =>
            reaction := Refused(PlanAlreadyInstalled(plan));
        }
      case Requested =>
        match state {
          case AwaitingPlan =>
            state := AwaitingPlanAfterShutdown;
            reaction := MoveActions(NoMove);
          case Ready(plan) =>
            var move := StartPlan(plan);
            reaction := MoveActions(move);
          case _ =>
            reaction := MoveActions(NoMove);
        }
      case ChildStopped(child, exit) =>
        if !Awaits(state, child) {
          return Refused(UnexpectedChildStopped(child, exit));
        }
        var move := TakeStop(child);
        reaction := MoveActions(move);
      case ChildRejected(child, reason) =>
        if Awaits(state, child) {
          reaction := Refused(ChildRefused(child, reason));
        } else {
          reaction := Refused(UnexpectedChildRejection(child, reason));
        }
      case Delegated(inner) =>
        reaction := match inner
          case InnerActed(stops) => Acted([], InnerVerdict(stops))
          case InnerFailed => Refused(BehaviorError);
    }
  }

  // ---------------------------------------------------------------------
  // Erasing targets to creation IDs.

  function EraseState(s: State<Target>): State<CreationId> {
    match s
    case AwaitingPlan => AwaitingPlan
    case AwaitingPlanAfterShutdown => AwaitingPlanAfterShutdown
    case Ready(plan) => Ready(ErasePlan(plan))
    case Stopping(plan, phase, awaiting) => Stopping(ErasePlan(plan), phase, awaiting)
    case Completed => Completed
  }

  function EraseEvent(e: Event<Target>): Event<CreationId> {
    match e
    case Plan(plan) => Plan(ErasePlan(plan))
    case Requested => Requested
    case ChildStopped(child, exit) => ChildStopped(child, exit)
    case ChildRejected(child, reason) => ChildRejected(child, reason)
    case Delegated(inner) => Delegated(inner)
  }

  function EraseReaction(r: Reaction<Target>): Reaction<CreationId> {
    match r
    case Acted(requests, verdict) => Acted(Creations(requests), verdict)
    case Refused(PlanAlreadyInstalled(plan)) => Refused(PlanAlreadyInstalled(ErasePlan(plan)))
    case Refused(BehaviorError) => Refused(BehaviorError)
    case Refused(ChildRefused(child, reason)) => Refused(ChildRefused(child, reason))
    case Refused(UnexpectedChildStopped(child, exit)) => Refused(UnexpectedChildStopped(child, exit))
    case Refused(UnexpectedChildRejection(child, reason)) => Refused(UnexpectedChildRejection(child, reason))
  }

  lemma {:induction false} EraseMove(move: Move<Target>)
    ensures EraseReaction(MoveActions(move)) == MoveActions(
                match move
                case NoMove => NoMove
                case StopMove => StopMove
                case StartPhase(plan, phase) => StartPhase(ErasePlan(plan), phase))
  {
    assert Creations([]) == [];
  }

  /** One turn of the heterogeneous coordinator, erased, is one turn of the homogeneous one. */
  lemma {:induction false} StepRefines(s: State<Target>, e: Event<Target>)
    ensures EraseState(TargetStep(s, e).0) == Step(EraseState(s), EraseEvent(e)).0
    ensures EraseReaction(TargetStep(s, e).1) == Step(EraseState(s), EraseEvent(e)).1
  {
    assert Creations([]) == [];
    match e
    case Plan(plan) => EraseMove(Begun(plan).1);
    case Requested =>
      if s.Ready? { EraseMove(Begun(s.plan).1); }
    case ChildStopped(child, exit) => StopRefines(s, child, exit);
    case _ =>
  }

  lemma {:induction false} StopRefines(s: State<Target>, child: CreationId, exit: int)
    ensures EraseState(TargetStep(s, ChildStopped(child, exit)).0) == Step(EraseState(s), ChildStopped(child, exit)).0
    ensures EraseReaction(TargetStep(s, ChildStopped(child, exit)).1)
            == Step(EraseState(s), ChildStopped(child, exit)).1
  {
    EraseMove(ReportTaken(s, child).1);
  }

  /** State and reactions of a whole run. */
  function TargetTrace(s: State<Target>, es: seq<Event<Target>>): (r: (State<Target>, seq<Reaction<Target>>))
    ensures |r.1| == |es|
  {
    if es == [] then (s, [])
    else
      var (before, reactions) := TargetTrace(s, es[..|es| - 1]);
      var (next, reaction) := TargetStep(before, es[|es| - 1]);
      (next, reactions + [reaction])
  }

  function Trace(s: State<CreationId>, es: seq<Event<CreationId>>): (r: (State<CreationId>, seq<Reaction<CreationId>>))
    ensures |r.1| == |es|
  {
    if es == [] then (s, [])
    else
      var (before, reactions) := Trace(s, es[..|es| - 1]);
      var (next, reaction) := Step(before, es[|es| - 1]);
      (next, reactions + [reaction])
  }

  function EraseEvents(es: seq<Event<Target>>): (r: seq<Event<CreationId>>)
    ensures |r| == |es|
    ensures forall i :: 0 <= i < |r| ==> r[i] == EraseEvent(es[i])
  {
    seq(|es|, i requires 0 <= i < |es| => EraseEvent(es[i]))
  }

  function EraseReactions(rs: seq<Reaction<Target>>): (r: seq<Reaction<CreationId>>)
    ensures |r| == |rs|
    ensures forall i :: 0 <= i < |r| ==> r[i] == EraseReaction(rs[i])
  {
    seq(|rs|, i requires 0 <= i < |rs| => EraseReaction(rs[i]))
  }

  /** Refinement: every run, with every request list, verdict and refusal, erases to the same run. */
  lemma {:induction false} RunRefines(s: State<Target>, es: seq<Event<Target>>)
    ensures EraseState(TargetTrace(s, es).0) == Trace(EraseState(s), EraseEvents(es)).0
    ensures EraseReactions(TargetTrace(s, es).1) == Trace(EraseState(s), EraseEvents(es)).1
  {
    if es != [] {
      var n := |es| - 1;
      RunRefines(s, es[..n]);
      assert EraseEvents(es)[..n] == EraseEvents(es[..n]);
      StepRefines(TargetTrace(s, es[..n]).0, es[n]);
      var before, last := TargetTrace(s, es[..n]).1, TargetStep(TargetTrace(s, es[..n]).0, es[n]).1;
      assert EraseReactions(before + [last]) == EraseReactions(before) + [EraseReaction(last)];
    }
  }

  // ---------------------------------------------------------------------
  // What a trace did: requests, accepted stops and the coordinator's own stop verdicts.

  function Requests<T>(reactions: seq<Reaction<T>>): seq<T> {
    if reactions == [] then []
    else
      var last := reactions[|reactions| - 1];
      Requests(reactions[..|reactions| - 1]) + if last.Acted? then last.requests else []
  }

  function AcceptedStops<T>(es: seq<Event<T>>, reactions: seq<Reaction<T>>): seq<CreationId>
    requires |es| == |reactions|
  {
    if es == [] then []
    else
      var n := |es| - 1;
      AcceptedStops(es[..n], reactions[..n]) + if es[n].ChildStopped? && reactions[n].Acted? then [es[n].child] else []
  }

  function StopVerdicts<T>(reactions: seq<Reaction<T>>): nat {
    if reactions == [] then 0
    else
      var last := reactions[|reactions| - 1];
      StopVerdicts(reactions[..|reactions| - 1]) + if last.Acted? && last.verdict == Stop then 1 else 0
  }

  /** The homogeneous trace is the run whose safety is proved. */
  lemma {:induction false} TraceIsRun(s: State<CreationId>, es: seq<Event<CreationId>>)
    ensures Trace(s, es).0 == After(Begin(s), es).state
    ensures Requests(Trace(s, es).1) == After(Begin(s), es).requested
    ensures AcceptedStops(es, Trace(s, es).1) == After(Begin(s), es).stopped
    ensures StopVerdicts(Trace(s, es).1) == After(Begin(s), es).stops
  {
    if es != [] {
      var n := |es| - 1;
      TraceIsRun(s, es[..n]);
      var reactions := Trace(s, es).1;
      assert reactions[..n] == Trace(s, es[..n]).1;
    }
  }

  lemma {:induction false} CreationsConcat(a: seq<Target>, b: seq<Target>)
    ensures Creations(a + b) == Creations(a) + Creations(b)
  {}

  lemma {:induction false} RequestsErase(rs: seq<Reaction<Target>>)
    ensures Requests(EraseReactions(rs)) == Creations(Requests(rs))
    ensures StopVerdicts(EraseReactions(rs)) == StopVerdicts(rs)
  {
    if rs != [] {
      var n := |rs| - 1;
      RequestsErase(rs[..n]);
      assert EraseReactions(rs)[..n] == EraseReactions(rs[..n]);
      var more := if rs[n].Acted? then rs[n].requests else [];
      CreationsConcat(Requests(rs[..n]), more);
      assert Creations([]) == [];
    }
  }

  lemma {:induction false} StopsErase(es: seq<Event<Target>>, rs: seq<Reaction<Target>>)
    requires |es| == |rs|
    ensures AcceptedStops(EraseEvents(es), EraseReactions(rs)) == AcceptedStops(es, rs)
  {
    if es != [] {
      var n := |es| - 1;
      StopsErase(es[..n], rs[..n]);
      assert EraseReactions(rs)[..n] == EraseReactions(rs[..n]);
      assert EraseEvents(es)[..n] == EraseEvents(es[..n]);
    }
  }

  /** A heterogeneous run is accounted for by the homogeneous run of its erasure: state, requests, stops, verdicts. */
  lemma {:induction false} TargetRunIsRun(s: State<Target>, es: seq<Event<Target>>)
    ensures var reactions := TargetTrace(s, es).1;
            var run := After(Begin(EraseState(s)), EraseEvents(es));
            && EraseState(TargetTrace(s, es).0) == run.state
            && Creations(Requests(reactions)) == run.requested
            && AcceptedStops(es, reactions) == run.stopped
            && StopVerdicts(reactions) == run.stops
  {
    RunRefines(s, es);
    TraceIsRun(EraseState(s), EraseEvents(es));
    RequestsErase(TargetTrace(s, es).1);
    StopsErase(es, TargetTrace(s, es).1);
  }

  // ---------------------------------------------------------------------
  // Lanes: requests are whole targets, not only creation IDs.

  /** State and requests, lanes included, against the installed plan. */
  ghost predicate OnPlan(state: State<Target>, requests: seq<Target>, plan: Option<seq<seq<Target>>>) {
    match state
    case AwaitingPlan => requests == [] && plan == None
    case AwaitingPlanAfterShutdown => requests == [] && plan == None
    case Ready(p) => requests == [] && plan == Some(p)
    case Stopping(p, phase, _) => plan == Some(p) && phase < |p| && requests == Flatten(p[..phase + 1])
    case Completed => plan.Some? && requests == Flatten(plan.value)
  }

  function Requesting(r: Reaction<Target>): seq<Target> {
    if r.Acted? then r.requests else []
  }

  lemma {:induction false} OnPlanBegun(plan: seq<seq<Target>>)
    ensures OnPlan(Begun(plan).0, Requesting(MoveActions(Begun(plan).1)), Some(plan))
  {
    if plan != [] {
      FlattenUpTo(plan, 0);
      assert Flatten(plan[..0]) + plan[0] == plan[0];
    }
  }

  lemma {:induction false} OnPlanStop(
    s: State<Target>, requests: seq<Target>, plan: Option<seq<seq<Target>>>, child: CreationId)
    requires OnPlan(s, requests, plan) && Awaits(s, child)
    ensures OnPlan(ReportTaken(s, child).0, requests + Requesting(MoveActions(ReportTaken(s, child).1)), plan)
  {
    assert requests + [] == requests;
    if s.phase + 1 < |s.plan| {
      FlattenUpTo(s.plan, s.phase + 1);
    } else {
      assert s.plan[..s.phase + 1] == s.plan;
    }
  }

  lemma {:induction false} OnPlanStep(
    s: State<Target>, requests: seq<Target>, plan: Option<seq<seq<Target>>>, e: Event<Target>)
    requires OnPlan(s, requests, plan)
    ensures OnPlan(TargetStep(s, e).0, requests + Requesting(TargetStep(s, e).1),
                   if plan == None && e.Plan? then Some(e.plan) else plan)
  {
    assert requests + [] == requests;
    match e
    case Plan(p) =>
      OnPlanBegun(p);
      assert [] + Requesting(MoveActions(Begun(p).1)) == Requesting(MoveActions(Begun(p).1));
    case Requested =>
      if s.Ready? {
        OnPlanBegun(s.plan);
        assert [] + Requesting(MoveActions(Begun(s.plan).1)) == Requesting(MoveActions(Begun(s.plan).1));
      }
    case ChildStopped(child, exit) =>
      if Awaits(s, child) { OnPlanStop(s, requests, plan, child); }
    case _ =>
  }

  lemma {:induction false} OnPlanAlways(s: State<Target>, es: seq<Event<Target>>)
    requires s.AwaitingPlan? || s.Ready?
    ensures OnPlan(TargetTrace(s, es).0, Requests(TargetTrace(s, es).1), FirstPlan(s, es))
  {
    if es != [] {
      var n := |es| - 1;
      OnPlanAlways(s, es[..n]);
      OnPlanStep(TargetTrace(s, es[..n]).0, Requests(TargetTrace(s, es[..n]).1), FirstPlan(s, es[..n]), es[n]);
      var reactions := TargetTrace(s, es).1;
      assert reactions[..n] == TargetTrace(s, es[..n]).1;
    }
  }

  lemma {:induction false} PlannedOnPlan(s: State<Target>, requests: seq<Target>, plan: Option<seq<seq<Target>>>)
    requires OnPlan(s, requests, plan)
    ensures plan.Some? <==> !s.AwaitingPlan? && !s.AwaitingPlanAfterShutdown?
  {}

  /**
   * Over every run, whatever the plan: the targets requested, lanes included, are a prefix of the first plan in
   * plan order, and all of it on completion.
   */
  lemma {:induction false} RequestsFollowPlan(s: State<Target>, es: seq<Event<Target>>)
    requires s.AwaitingPlan? || s.Ready?
    ensures var requests, plan := Requests(TargetTrace(s, es).1), FirstPlan(s, es);
            && (plan == None ==> requests == [])
            && (plan.Some? ==> requests <= Flatten(plan.value))
            && (TargetTrace(s, es).0 == Completed ==> plan.Some? && requests == Flatten(plan.value))
  {
    OnPlanAlways(s, es);
    var now := TargetTrace(s, es).0;
    if now.Stopping? { FlattenPrefix(now.plan, now.phase + 1); }
  }

  lemma {:induction false} FlattenErase(plan: seq<seq<Target>>)
    ensures Flatten(ErasePlan(plan)) == Creations(Flatten(plan))
  {
    if plan != [] {
      var n := |plan| - 1;
      FlattenErase(plan[..n]);
      assert ErasePlan(plan)[..n] == ErasePlan(plan[..n]);
      CreationsConcat(Flatten(plan[..n]), plan[n]);
    }
  }

  /** Each creation ID is requested on exactly the protocol lane its plan gives it. */
  lemma {:induction false} OwnLane(s: State<Target>, es: seq<Event<Target>>, t: Target, u: Target)
    requires s.AwaitingPlan? || s.Ready?
    requires FirstPlan(s, es).Some? && ValidPlan(ErasePlan(FirstPlan(s, es).value))
    requires t in Requests(TargetTrace(s, es).1) && u in Flatten(FirstPlan(s, es).value)
    requires Creation(t) == Creation(u)
    ensures t == u && Lane(t) == Lane(u)
  {
    RequestsFollowPlan(s, es);
    var all := Flatten(FirstPlan(s, es).value);
    FlattenErase(FirstPlan(s, es).value);
    var i :| 0 <= i < |all| && all[i] == t;
    var j :| 0 <= j < |all| && all[j] == u;
    assert Creations(all)[i] == Creations(all)[j];
  }

  /**
   * Over every heterogeneous run and for every event: a second plan is refused whole, lanes included, a stop
   * or a rejection is taken as expected exactly for a child that was asked to stop and has not, and a refusal
   * changes nothing.
   */
  lemma {:induction false} TargetReactsExactly(s: State<Target>, es: seq<Event<Target>>, e: Event<Target>)
    requires Unstarted(EraseState(s)) && WellFormedRun(EraseEvents(es))
    ensures var state, reactions := TargetTrace(s, es).0, TargetTrace(s, es).1;
            && Fits(TargetStep(state, e).1, e, FirstPlan(s, es).Some?,
                    Creations(Requests(reactions)), AcceptedStops(es, reactions))
            && (TargetStep(state, e).1.Refused? ==> TargetStep(state, e).0 == state)
  {
    var state := TargetTrace(s, es).0;
    var run := After(Begin(EraseState(s)), EraseEvents(es));
    TargetRunIsRun(s, es);
    OnPlanAlways(s, es);
    PlannedOnPlan(state, Requests(TargetTrace(s, es).1), FirstPlan(s, es));
    RunAccounted(EraseState(s), EraseEvents(es));
    assert Distinct(run.requested) by {
      PhasedShutdown(EraseState(s), EraseEvents(es));
    }
    if e.ChildStopped? || e.ChildRejected? {
      AwaitedIsOwed(run, e.child);
      assert Awaits(state, e.child) <==> Awaits(run.state, e.child);
    }
    TargetStepFits(state, e, run.requested, run.stopped);
  }

  lemma {:induction false} TargetStepFits(
    s: State<Target>, e: Event<Target>, requested: seq<CreationId>, stopped: seq<CreationId>)
    requires e.ChildStopped? || e.ChildRejected? ==> (Awaits(s, e.child) <==> Owed(requested, stopped, e.child))
    ensures Fits(TargetStep(s, e).1, e, !s.AwaitingPlan? && !s.AwaitingPlanAfterShutdown?, requested, stopped)
    ensures TargetStep(s, e).1.Refused? ==> TargetStep(s, e).0 == s
  {}

  /**
   * Safety of every heterogeneous run: no creation ID is asked to stop twice, in whatever protocol
   * lanes it occurs, only asked children are accepted as stopped, and the coordinator's own stop
   * verdict comes at most once, exactly when it completes, after every asked child has stopped.
   */
  lemma {:induction false} TargetRunAccounted(s: State<Target>, es: seq<Event<Target>>)
    requires Unstarted(EraseState(s)) && WellFormedRun(EraseEvents(es))
    ensures var reactions := TargetTrace(s, es).1;
            var requested, stopped := Creations(Requests(reactions)), AcceptedStops(es, reactions);
            && Distinct(requested) && multiset(stopped) <= multiset(requested)
            && StopVerdicts(reactions) <= 1
            && (StopVerdicts(reactions) == 1 <==> TargetTrace(s, es).0 == Completed)
            && (StopVerdicts(reactions) == 1 ==> multiset(stopped) == multiset(requested))
  {
    TargetRunIsRun(s, es);
    PhasedShutdown(EraseState(s), EraseEvents(es));
  }

  /**
   * End to end over protocol lanes: for every closed topology, compiled plan and event sequence, a
   * dependency is asked to stop only after its dependents stopped, no child is asked twice, and the
   * stop verdict comes at most once and after every node stopped.
   */
  lemma {:induction false} TargetCompiledShutdown(
    nodes: seq<CreationId>, edges: seq<(CreationId, CreationId)>, s: State<Target>, es: seq<Event<Target>>)
    requires Closed(nodes, edges)
    requires s.AwaitingPlan? || (s.Ready? && LayeredPlan(nodes, edges, ErasePlan(s.plan)))
    requires forall i :: 0 <= i < |es| && es[i].Plan? ==> LayeredPlan(nodes, edges, ErasePlan(es[i].plan))
    ensures var reactions := TargetTrace(s, es).1;
            var requested, stopped := Creations(Requests(reactions)), AcceptedStops(es, reactions);
            && (forall d, c :: (d, c) in edges && c in requested ==> d in stopped)
            && Distinct(requested)
            && StopVerdicts(reactions) <= 1
            && (StopVerdicts(reactions) == 1 ==> forall x :: x in nodes ==> x in stopped)
  {
    TargetRunIsRun(s, es);
    CompiledErased(nodes, edges, EraseState(s), es);
  }

  lemma {:induction false} CompiledErased(
    nodes: seq<CreationId>, edges: seq<(CreationId, CreationId)>, s: State<CreationId>, es: seq<Event<Target>>)
    requires Closed(nodes, edges)
    requires s.AwaitingPlan? || (s.Ready? && LayeredPlan(nodes, edges, s.plan))
    requires forall i :: 0 <= i < |es| && es[i].Plan? ==> LayeredPlan(nodes, edges, ErasePlan(es[i].plan))
    ensures var run := After(Begin(s), EraseEvents(es));
            && (forall d, c :: (d, c) in edges && c in run.requested ==> d in run.stopped)
            && Distinct(run.requested)
            && run.stops <= 1
            && (run.stops == 1 ==> forall x :: x in nodes ==> x in run.stopped)
  {
    var erased := EraseEvents(es);
    forall i | 0 <= i < |erased| && erased[i].Plan? ensures LayeredPlan(nodes, edges, erased[i].plan) {
      assert erased[i] == EraseEvent(es[i]);
    }
    CompiledShutdown(nodes, edges, s, erased);
  }

  lemma {:induction false} TraceLast(s: State<Target>, es: seq<Event<Target>>, e: Event<Target>)
    ensures var before := TargetTrace(s, es);
            && TargetTrace(s, es + [e]).0 == TargetStep(before.0, e).0
            && TargetTrace(s, es + [e]).1 == before.1 + [TargetStep(before.0, e).1]
  {
    assert (es + [e])[..|es|] == es;
  }

  /** Here too the plan and the shutdown request commute: same state and same reactions, one after the other. */
  lemma {:induction false} TargetPlanAndRequestCommute(plan: seq<seq<Target>>)
    ensures var planFirst := TargetTrace(AwaitingPlan, [Plan(plan), Requested]);
            var requestFirst := TargetTrace(AwaitingPlan, [Requested, Plan(plan)]);
            && planFirst.0 == requestFirst.0 == Begun(plan).0
            && planFirst.1 == requestFirst.1
  {
    var p, r: Event<Target> := Plan(plan), Requested;
    TraceLast(AwaitingPlan, [], p);
    TraceLast(AwaitingPlan, [p], r);
    TraceLast(AwaitingPlan, [], r);
    TraceLast(AwaitingPlan, [r], p);
    assert [] + [p] == [p] && [] + [r] == [r] && [p] + [r] == [p, r] && [r] + [p] == [r, p];
  }
}

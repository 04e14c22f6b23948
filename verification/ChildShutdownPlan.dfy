/** Deriving one shutdown plan from child creations that resolve in any order. */
module ChildShutdownPlan {
  import opened Base
  import opened ShutdownTopology
  import opened ShutdownCoordinator
  import opened HeterogeneousShutdown

  // ---------------------------------------------------------------------
  // Declaring phases: the availability product the builder consumes.

  datatype Children = NoChildren | Unassigned(tail: Children) | Assigned(tail: Children)

  function Available(n: nat): Children {
    if n == 0 then NoChildren else Unassigned(Available(n - 1))
  }

  function Size(c: Children): nat {
    if c.NoChildren? then 0 else 1 + Size(c.tail)
  }

  predicate Taken(c: Children, p: nat) {
    match c
    case NoChildren => false
    case Unassigned(tail) => p > 0 && Taken(tail, p - 1)
    case Assigned(tail) => p == 0 || Taken(tail, p - 1)
  }

  /** Consume the child at one position; an assigned or missing position has no result. */
  function AssignAt(c: Children, p: nat): (r: Option<Children>)
    ensures r.Some? <==> p < Size(c) && !Taken(c, p)
    ensures r.Some? ==> Size(r.value) == Size(c)
    ensures r.Some? ==> forall q: nat :: Taken(r.value, q) <==> q == p || Taken(c, q)
  {
    match c
    case NoChildren => None
    case Unassigned(tail) =>
      if p == 0 then Some(Assigned(tail))
      else (match AssignAt(tail, p - 1) case None => None case Some(rest) => Some(Unassigned(rest)))
    case Assigned(tail) =>
      if p == 0 then None
      else (match AssignAt(tail, p - 1) case None => None case Some(rest) => Some(Assigned(rest)))
  }

  predicate AllAssigned(c: Children) {
    c.NoChildren? || (c.Assigned? && AllAssigned(c.tail))
  }

  /** Declare the phases in order. */
  function Declare(c: Children, phases: seq<nat>): Option<Children> {
    if phases == [] then Some(c)
    else
      match Declare(c, phases[..|phases| - 1])
      case None => None
      case Some(earlier) => AssignAt(earlier, phases[|phases| - 1])
  }

  predicate InRange(phases: seq<nat>, n: nat) {
    forall i :: 0 <= i < |phases| ==> phases[i] < n
  }

  lemma {:induction false} DeclareTakes(n: nat, phases: seq<nat>)
    ensures Declare(Available(n), phases).Some? <==> Distinct(phases) && InRange(phases, n)
    ensures var r := Declare(Available(n), phases);
            r.Some? ==> Size(r.value) == n && forall p: nat :: Taken(r.value, p) <==> p in phases
  {
    if phases == [] {
      AvailableFresh(n);
    } else {
      var k := |phases| - 1;
      DeclareTakes(n, phases[..k]);
      assert phases == phases[..k] + [phases[k]];
      assert InRange(phases, n) <==> InRange(phases[..k], n) && phases[k] < n;
      assert Distinct(phases) <==> Distinct(phases[..k]) && phases[k] !in phases[..k];
    }
  }

  lemma {:induction false} AvailableFresh(n: nat)
    ensures Size(Available(n)) == n && forall p: nat :: !Taken(Available(n), p)
  {
    if n > 0 { AvailableFresh(n - 1); }
  }

  lemma {:induction false} AssignedTaken(c: Children, p: nat)
    requires AllAssigned(c) && p < Size(c)
    ensures Taken(c, p)
  {
    if p > 0 { AssignedTaken(c.tail, p - 1); }
  }

  lemma {:induction false} FirstUnassigned(c: Children) returns (p: nat)
    requires !AllAssigned(c)
    ensures p < Size(c) && !Taken(c, p)
  {
    if c.Unassigned? {
      p := 0;
    } else {
      var q := FirstUnassigned(c.tail);
      p := q + 1;
    }
  }

  /** Each role occurs in exactly one phase. */
  ghost predicate EveryRoleOnce(phases: seq<nat>, n: nat) {
    Distinct(phases) && InRange(phases, n) && forall p: nat :: p < n ==> p in phases
  }

  /** The builder finishes exactly when every role has been declared once. */
  lemma {:induction false} FinishedDeclaration(n: nat, phases: seq<nat>)
    ensures var r := Declare(Available(n), phases);
            (r.Some? && AllAssigned(r.value)) <==> EveryRoleOnce(phases, n)
  {
    DeclareTakes(n, phases);
    var r := Declare(Available(n), phases);
    if r.Some? {
      if AllAssigned(r.value) {
        forall p: nat | p < n ensures p in phases { AssignedTaken(r.value, p); }
      } else {
        var p := FirstUnassigned(r.value);
        assert p < n && p !in phases;
      }
    }
  }

  // ---------------------------------------------------------------------
  // Collecting creation results.

  datatype CreationKind = Birth | Replacement(previous: CreationId)

  datatype ChildStatus =
    | NotRequested
    | Awaiting(creation: CreationId, kind: CreationKind)
    | Established(creation: CreationId)

  datatype Planning = Collecting(children: seq<ChildStatus>) | Reported

  datatype Resolved = Resolved(creation: CreationId, kind: CreationKind, accepted: bool)

  datatype Expectation = PlanReported | UnknownPosition | Status(status: ChildStatus)

  datatype PlanningError =
    | DuplicateCreation(position: nat)
    | MissingCreation(position: nat)
    | ChildNotEstablished(position: nat)
    | InvalidPlan(defect: PlanError<CreationId>)
    | UnexpectedCreationResult(position: nat, expected: Expectation, observed: Resolved)
    | CreationRejected(position: nat, observed: Resolved)

  type Plan = seq<seq<Target>>

  /** One singleton phase per declared role, earlier declarations first. */
  function Build(phases: seq<nat>, children: seq<ChildStatus>): Result<Plan, PlanningError> {
    if phases == [] then Ok([])
    else
      var position := phases[|phases| - 1];
      match Build(phases[..|phases| - 1], children)
      case Err(error) => Err(error)
      case Ok(earlier) =>
        if position < |children| && children[position].Established?
        then Ok(earlier + [[TargetAt(position, children[position].creation)]])
        else Err(ChildNotEstablished(position))
  }

  predicate AllEstablished(children: seq<ChildStatus>) {
    forall i :: 0 <= i < |children| ==> children[i].Established?
  }

  /** The result that the collecting state is waiting for at this position. */
  predicate Matches(planning: Planning, position: nat, result: Resolved) {
    && planning.Collecting? && position < |planning.children|
    && planning.children[position] == Awaiting(result.creation, result.kind)
  }

  function Refusal(planning: Planning, position: nat, result: Resolved): PlanningError {
    if planning.Reported? then UnexpectedCreationResult(position, PlanReported, result)
    else if |planning.children| <= position then UnexpectedCreationResult(position, UnknownPosition, result)
    else if Matches(planning, position, result) then CreationRejected(position, result)
    else UnexpectedCreationResult(position, Status(planning.children[position]), result)
  }

  datatype Outcome =
    | Collected
    | PlanMade(plan: Plan)
    | NotBuilt(error: PlanningError)
    | BadPlan(plan: Plan)
    | Turned(error: PlanningError)

  ghost function Resolve(phases: seq<nat>, planning: Planning, position: nat, result: Resolved): (Planning, Outcome) {
    if !Matches(planning, position, result) || !result.accepted then
      (planning, Turned(Refusal(planning, position, result)))
    else
      var next := planning.children[position := Established(result.creation)];
      if !AllEstablished(next) then (Collecting(next), Collected)
      else
        match Build(phases, next)
        case Err(error) => (planning, NotBuilt(error))
        case Ok(plan) =>
          if ValidPlan(ErasePlan(plan)) then (Reported, PlanMade(plan)) else (planning, BadPlan(plan))
  }

  ghost predicate Named(requested: seq<(nat, CreationId, CreationKind)>, p: nat) {
    exists i :: 0 <= i < |requested| && requested[i].0 == p
  }

  /** In range and without repetition. */
  ghost predicate Requestable(requested: seq<(nat, CreationId, CreationKind)>, count: nat) {
    && (forall i :: 0 <= i < |requested| ==> requested[i].0 < count)
    && (forall i, j :: 0 <= i < j < |requested| ==> requested[i].0 != requested[j].0)
  }

  /** Every position is requested exactly once. */
  ghost predicate EachOnce(requested: seq<(nat, CreationId, CreationKind)>, count: nat) {
    Requestable(requested, count) && forall p: nat :: p < count ==> Named(requested, p)
  }

  /** The statuses await exactly these requests. */
  ghost predicate Awaited(requested: seq<(nat, CreationId, CreationKind)>, children: seq<ChildStatus>, count: nat)
    requires Requestable(requested, count)
  {
    && |children| == count
    && (forall i :: 0 <= i < |requested| ==> children[requested[i].0] == Awaiting(requested[i].1, requested[i].2))
    && (forall p :: 0 <= p < count && children[p] != NotRequested ==> Named(requested, p))
  }

  /** The first request out of range or repeated; with none, the first position without a request. */
  ghost predicate FirstRequestDefect(requested: seq<(nat, CreationId, CreationKind)>, count: nat, e: PlanningError) {
    match e
    case DuplicateCreation(position) =>
      exists i :: && 0 <= i < |requested| && Requestable(requested[..i], count) && requested[i].0 == position
                  && (position >= count || Named(requested[..i], position))
    case MissingCreation(position) =>
      && Requestable(requested, count) && position < count && !Named(requested, position)
      && forall p: nat :: p < position ==> Named(requested, p)
    case _ => false
  }

  lemma {:induction false} AwaitedMore(
    requested: seq<(nat, CreationId, CreationKind)>, i: nat, children: seq<ChildStatus>, count: nat)
    requires i < |requested| && Requestable(requested[..i], count) && Awaited(requested[..i], children, count)
    requires requested[i].0 < count && children[requested[i].0] == NotRequested
    ensures Requestable(requested[..i + 1], count)
    ensures Awaited(requested[..i + 1], children[requested[i].0 := Awaiting(requested[i].1, requested[i].2)], count)
  {
    var before, more := requested[..i], requested[..i + 1];
    assert more == before + [requested[i]];
    forall j | 0 <= j < i ensures more[j] == before[j] && more[j].0 != requested[i].0 {
      assert children[before[j].0] != NotRequested;
    }
    forall p | 0 <= p < count && (p == requested[i].0 || Named(before, p)) ensures Named(more, p) {
      if p == requested[i].0 {
        assert more[i].0 == p;
      } else {
        var j :| 0 <= j < i && before[j].0 == p;
        assert more[j].0 == p;
      }
    }
  }

  /** Mark each requested position as awaiting; stop at the first out of range or already marked. */
  method AwaitEach(requested: seq<(nat, CreationId, CreationKind)>, count: nat)
    returns (r: Result<seq<ChildStatus>, PlanningError>)
    ensures r.Ok? <==> Requestable(requested, count)
    ensures r.Ok? ==> Awaited(requested, r.value, count)
    ensures r.Err? ==> FirstRequestDefect(requested, count, r.error)
  {
    var next := seq(count, _ => NotRequested);
    for i := 0 to |requested|
      invariant Requestable(requested[..i], count) && Awaited(requested[..i], next, count)
    {
      var position := requested[i].0;
      if position >= count || next[position] != NotRequested {
        assert position < count ==> Named(requested[..i], position);
        RepeatedRequest(requested, i, count);
        return Err(DuplicateCreation(position));
      }
      AwaitedMore(requested, i, next, count);
      next := next[position := Awaiting(requested[i].1, requested[i].2)];
    }
    assert requested[..|requested|] == requested;
    return Ok(next);
  }

  lemma {:induction false} RepeatedRequest(requested: seq<(nat, CreationId, CreationKind)>, i: nat, count: nat)
    requires i < |requested| && (requested[i].0 >= count || Named(requested[..i], requested[i].0))
    ensures !Requestable(requested, count)
  {
    if requested[i].0 < count {
      var j :| 0 <= j < i && requested[..i][j].0 == requested[i].0;
      assert requested[j].0 == requested[i].0;
    }
  }

  method FirstUnrequested(children: seq<ChildStatus>) returns (p: nat)
    ensures p <= |children| && (p < |children| ==> children[p] == NotRequested)
    ensures forall q :: 0 <= q < p ==> children[q] != NotRequested
  {
    p := 0;
    while p < |children| && children[p] != NotRequested
      invariant 0 <= p <= |children|
      invariant forall q :: 0 <= q < p ==> children[q] != NotRequested
    {
      p := p + 1;
    }
  }

  lemma {:induction false} MissingIsUnnamed(
    requested: seq<(nat, CreationId, CreationKind)>, children: seq<ChildStatus>, count: nat, p: nat)
    requires Requestable(requested, count) && Awaited(requested, children, count)
    requires p <= count && (p < count ==> children[p] == NotRequested)
    requires forall q :: 0 <= q < p ==> children[q] != NotRequested
    ensures forall q: nat :: q < p ==> Named(requested, q)
    ensures p < count ==> !Named(requested, p) && FirstRequestDefect(requested, count, MissingCreation(p))
  {
    forall q: nat | q < p ensures Named(requested, q) {
      assert children[q] != NotRequested;
    }
  }

  /** Without children the earliest declared role has no creation. */
  lemma {:induction false} BuildWithout(phases: seq<nat>)
    ensures Build(phases, []) == if phases == [] then Ok([]) else Err(ChildNotEstablished(phases[0]))
  {
    if phases != [] {
      BuildWithout(phases[..|phases| - 1]);
    }
  }

  class PlanCollector {
    const count: nat
    const phases: seq<nat>
    var planning: Planning

    constructor (count: nat, phases: seq<nat>)
      ensures this.count == count && this.phases == phases && planning == Collecting([])
    {
      this.count := count;
      this.phases := phases;
      planning := Collecting([]);
    }

    /**
     * Take the initialization's creations. With no child the plan of no phases is reported at once;
     * otherwise every position must be requested exactly once, and the first defect is reported.
     */
    method WrapInitialization(requested: seq<(nat, CreationId, CreationKind)>)
      returns (r: Result<Option<Plan>, PlanningError>)
      modifies this
      ensures r.Err? ==> planning == old(planning)
      ensures count == 0 && phases == [] ==> r == Ok(Some([])) && planning == Reported
      ensures count == 0 && phases != [] ==> r == Err(ChildNotEstablished(phases[0]))
      ensures count > 0 ==> (r.Ok? <==> EachOnce(requested, count))
      ensures count > 0 && r.Ok? ==>
                r.value == None && planning.Collecting? && Awaited(requested, planning.children, count)
      ensures count > 0 && r.Err? ==> FirstRequestDefect(requested, count, r.error)
    {
      if count == 0 {
        BuildWithout(phases);
        var built := Build(phases, []);
        if built.Err? {
          return Err(built.error);
        }
        assert ErasePlan(built.value) == [];
        var plan := NewHeterogeneousPlan(built.value);
        assert plan.Ok?;  // a plan of no phases is valid
        planning := Reported;
        return Ok(Some(plan.value));
      }
      var awaiting := AwaitEach(requested, count);
      if awaiting.Err? {
        return Err(awaiting.error);
      }
      var missing := FirstUnrequested(awaiting.value);
      MissingIsUnnamed(requested, awaiting.value, count, missing);
      if missing < count {
        return Err(MissingCreation(missing));
      }
      planning := Collecting(awaiting.value);
      r := Ok(None);
    }

    /** One creation result, committed only when it is the awaited one and was accepted. */
    method CreationResolved(position: nat, result: Resolved) returns (r: Result<Option<Plan>, PlanningError>)
      modifies this
      ensures var (next, outcome) := Resolve(phases, old(planning), position, result);
              && planning == next
              && (match outcome
                  case Collected => r == Ok(None)
                  case PlanMade(plan) => r == Ok(Some(plan))
                  case NotBuilt(error) => r == Err(error)
                  case BadPlan(plan) =>
                    r.Err? && r.error.InvalidPlan? && FirstPlanDefect(ErasePlan(plan), r.error.defect)
                  case Turned(error) => r == Err(error))
    {
      if planning.Reported? {
        return Err(UnexpectedCreationResult(position, PlanReported, result));
      }
      var children := planning.children;
      if position >= |children| {
        return Err(UnexpectedCreationResult(position, UnknownPosition, result));
      }
      var status := children[position];
      if !status.Awaiting? || result.creation != status.creation || result.kind != status.kind {
        return Err(UnexpectedCreationResult(position, Status(status), result));
      }
      if !result.accepted {
        return Err(CreationRejected(position, result));
      }
      var next := children[position := Established(result.creation)];
      if !AllEstablished(next) {
        planning := Collecting(next);
        return Ok(None);
      }
      var built := Build(phases, next);
      if built.Err? {
        return Err(built.error);
      }
      var plan := NewHeterogeneousPlan(built.value);
      if plan.Err? {
        return Err(InvalidPlan(plan.error));
      }
      planning := Reported;
      r := Ok(Some(plan.value));
    }
  }

  // ---------------------------------------------------------------------
  // Every arrival order.

  datatype Request = Request(creation: CreationId, kind: CreationKind)

  datatype Collection = Collection(planning: Planning, reports: seq<Plan>)

  ghost function Deliver(phases: seq<nat>, c: Collection, position: nat, result: Resolved): Collection {
    var (planning, outcome) := Resolve(phases, c.planning, position, result);
    Collection(planning, if outcome.PlanMade? then c.reports + [outcome.plan] else c.reports)
  }

  function Waiting(requests: seq<Request>): seq<ChildStatus> {
    seq(|requests|, i requires 0 <= i < |requests| => Awaiting(requests[i].creation, requests[i].kind))
  }

  ghost function AfterResults(phases: seq<nat>, requests: seq<Request>, arrivals: seq<(nat, Resolved)>): Collection {
    if arrivals == [] then Collection(Collecting(Waiting(requests)), [])
    else
      var (position, result) := arrivals[|arrivals| - 1];
      Deliver(phases, AfterResults(phases, requests, arrivals[..|arrivals| - 1]), position, result)
  }

  /** The plan the declaration describes, whatever the arrival order. */
  function DeclaredPlan(phases: seq<nat>, requests: seq<Request>): Plan
    requires InRange(phases, |requests|)
  {
    seq(|phases|, i requires 0 <= i < |phases| => [TargetAt(phases[i], requests[phases[i]].creation)])
  }

  /** Positions whose awaited, accepted result has arrived. */
  ghost function Arrived(requests: seq<Request>, arrivals: seq<(nat, Resolved)>): set<nat> {
    set i | 0 <= i < |arrivals| && IsAwaited(requests, arrivals[i]) :: arrivals[i].0
  }

  ghost predicate IsAwaited(requests: seq<Request>, a: (nat, Resolved)) {
    a.0 < |requests| && a.1 == Resolved(requests[a.0].creation, requests[a.0].kind, true)
  }

  ghost predicate DistinctCreations(requests: seq<Request>) {
    forall i, j :: 0 <= i < j < |requests| ==> requests[i].creation != requests[j].creation
  }

  ghost function Positions(n: nat): (all: set<nat>)
    ensures forall p: nat :: p in all <==> p < n
  {
    if n == 0 then {} else Positions(n - 1) + {n - 1}
  }

  /** Which statuses correspond to a set of established positions. */
  ghost predicate HasEstablished(requests: seq<Request>, children: seq<ChildStatus>, done: set<nat>) {
    && |children| == |requests|
    && forall p :: 0 <= p < |requests| ==>
         children[p] == if p in done then Established(requests[p].creation)
                        else Awaiting(requests[p].creation, requests[p].kind)
  }

  /**
   * Either still collecting, with exactly the arrived positions established, or reported; or, when
   * two creations share an ID, stuck with one last position that can never be committed.
   */
  ghost predicate Tracks(phases: seq<nat>, requests: seq<Request>, c: Collection, arrived: set<nat>)
    requires InRange(phases, |requests|)
  {
    var everyone := Positions(|requests|);
    match c.planning
    case Reported =>
      arrived == everyone && DistinctCreations(requests) && c.reports == [DeclaredPlan(phases, requests)]
    case Collecting(children) =>
      && c.reports == []
      && exists done: set<nat> :: Behind(requests, done, arrived) && HasEstablished(requests, children, done)
  }

  lemma {:induction false} BuildDeclared(phases: seq<nat>, requests: seq<Request>, children: seq<ChildStatus>)
    requires |children| == |requests|
    requires InRange(phases, |requests|)
    requires forall p :: 0 <= p < |requests| ==> children[p] == Established(requests[p].creation)
    ensures Build(phases, children) == Ok(DeclaredPlan(phases, requests))
  {
    if phases != [] {
      var k := |phases| - 1;
      BuildDeclared(phases[..k], requests, children);
      assert phases[k] in phases;
      assert DeclaredPlan(phases, requests)
          == DeclaredPlan(phases[..k], requests) + [[TargetAt(phases[k], requests[phases[k]].creation)]];
    }
  }

  lemma {:induction false} FlattenDeclared(phases: seq<nat>, requests: seq<Request>)
    requires InRange(phases, |requests|)
    ensures var flat := Flatten(ErasePlan(DeclaredPlan(phases, requests)));
            && |flat| == |phases|
            && forall i :: 0 <= i < |phases| ==> flat[i] == requests[phases[i]].creation
  {
    if phases != [] {
      var k := |phases| - 1;
      FlattenDeclared(phases[..k], requests);
      var erased := ErasePlan(DeclaredPlan(phases, requests));
      assert erased[..k] == ErasePlan(DeclaredPlan(phases[..k], requests));
      assert phases[k] in phases;
      assert erased[k] == [requests[phases[k]].creation];
    }
  }

  /** Validation of the declared plan fails exactly when two creations share an ID. */
  lemma {:induction false} DeclaredValid(phases: seq<nat>, requests: seq<Request>)
    requires EveryRoleOnce(phases, |requests|)
    ensures ValidPlan(ErasePlan(DeclaredPlan(phases, requests))) <==> DistinctCreations(requests)
  {
    FlattenDeclared(phases, requests);
    var erased := ErasePlan(DeclaredPlan(phases, requests));
    var flat := Flatten(erased);
    assert forall k :: 0 <= k < |erased| ==> erased[k] != [];
    if DistinctCreations(requests) {
      forall i, j | 0 <= i < j < |flat| ensures flat[i] != flat[j] {
        assert phases[i] in phases && phases[j] in phases;
      }
    }
    if Distinct(flat) {
      forall p, q | 0 <= p < q < |requests| ensures requests[p].creation != requests[q].creation {
        assert p in phases && q in phases;
        var i :| 0 <= i < |phases| && phases[i] == p;
        var j :| 0 <= j < |phases| && phases[j] == q;
        assert flat[i] == requests[p].creation && flat[j] == requests[q].creation;
      }
    }
  }

  lemma {:induction false} ArrivedGrows(requests: seq<Request>, arrivals: seq<(nat, Resolved)>)
    requires arrivals != []
    ensures var last := arrivals[|arrivals| - 1];
            Arrived(requests, arrivals) == Arrived(requests, arrivals[..|arrivals| - 1])
                                           + if IsAwaited(requests, last) then {last.0} else {}
  {
    var n := |arrivals| - 1;
    var before := arrivals[..n];
    forall p | p in Arrived(requests, before) ensures p in Arrived(requests, arrivals) {
      var i :| 0 <= i < n && IsAwaited(requests, before[i]) && before[i].0 == p;
      assert arrivals[i] == before[i];
    }
    forall p | p in Arrived(requests, arrivals)
      ensures p in Arrived(requests, before) || (IsAwaited(requests, arrivals[n]) && p == arrivals[n].0)
    {
      var i :| 0 <= i < |arrivals| && IsAwaited(requests, arrivals[i]) && arrivals[i].0 == p;
      if i < n { assert before[i] == arrivals[i]; }
    }
  }

  /** The arrival that commits nothing: foreign, stale, repeated, or rejected. */
  lemma {:induction false} TracksIgnored(
    phases: seq<nat>, requests: seq<Request>, c: Collection, arrived: set<nat>, position: nat, result: Resolved)
    requires EveryRoleOnce(phases, |requests|) && Tracks(phases, requests, c, arrived)
    requires !Matches(c.planning, position, result) || !result.accepted
    ensures Deliver(phases, c, position, result) == c
    ensures IsAwaited(requests, (position, result)) ==> position in arrived
  {}

  lemma {:induction false} AllDone(requests: seq<Request>, children: seq<ChildStatus>, done: set<nat>)
    requires HasEstablished(requests, children, done) && done <= Positions(|requests|)
    ensures AllEstablished(children) <==> done == Positions(|requests|)
  {
    if AllEstablished(children) {
      forall p | p in Positions(|requests|) ensures p in done { assert children[p].Established?; }
    }
  }

  /** Which positions are established, given those that arrived: all of them, or all but one on a shared ID. */
  ghost predicate Behind(requests: seq<Request>, done: set<nat>, arrived: set<nat>) {
    var everyone := Positions(|requests|);
    && done <= arrived <= everyone && done != everyone
    && (done == arrived
        || (!DistinctCreations(requests) && arrived == everyone
            && exists last :: last in everyone && done == everyone - {last}))
  }

  lemma {:induction false} EstablishedMore(
    requests: seq<Request>, children: seq<ChildStatus>, done: set<nat>, position: nat)
    requires HasEstablished(requests, children, done) && position < |requests|
    ensures HasEstablished(requests, children[position := Established(requests[position].creation)], done + {position})
  {}

  /** An arrival that leaves another child outstanding. */
  lemma {:induction false} CommitsOneMore(
    phases: seq<nat>, requests: seq<Request>, c: Collection, done: set<nat>, arrived: set<nat>,
    position: nat, result: Resolved)
    requires c.planning.Collecting? && c.reports == [] && HasEstablished(requests, c.planning.children, done)
    requires Behind(requests, done, arrived) && Matches(c.planning, position, result) && result.accepted
    requires InRange(phases, |requests|) && done + {position} != Positions(|requests|)
    ensures Tracks(phases, requests, Deliver(phases, c, position, result), arrived + {position})
  {
    var next := c.planning.children[position := Established(result.creation)];
    EstablishedMore(requests, c.planning.children, done, position);
    AllDone(requests, next, done + {position});
    assert Deliver(phases, c, position, result) == Collection(Collecting(next), []);
    assert done == arrived && Behind(requests, done + {position}, arrived + {position});
  }

  /** The arrival of the last outstanding child. */
  lemma {:induction false} CommitsLast(
    phases: seq<nat>, requests: seq<Request>, c: Collection, done: set<nat>, arrived: set<nat>,
    position: nat, result: Resolved)
    requires c.planning.Collecting? && c.reports == [] && HasEstablished(requests, c.planning.children, done)
    requires Behind(requests, done, arrived) && Matches(c.planning, position, result) && result.accepted
    requires EveryRoleOnce(phases, |requests|) && done + {position} == Positions(|requests|)
    ensures Tracks(phases, requests, Deliver(phases, c, position, result), arrived + {position})
  {
    var everyone := Positions(|requests|);
    var next := c.planning.children[position := Established(result.creation)];
    EstablishedMore(requests, c.planning.children, done, position);
    AllDone(requests, next, done + {position});
    BuildDeclared(phases, requests, next);
    DeclaredValid(phases, requests);
    assert position !in done && done == everyone - {position};
    assert arrived + {position} == everyone;
    if !DistinctCreations(requests) {
      assert Behind(requests, done, everyone);
    }
  }

  /** An awaited, accepted arrival is committed, completes the plan, or meets the shared ID. */
  lemma {:induction false} TracksCommitted(
    phases: seq<nat>, requests: seq<Request>, c: Collection, arrived: set<nat>, position: nat, result: Resolved)
    requires EveryRoleOnce(phases, |requests|) && Tracks(phases, requests, c, arrived)
    requires Matches(c.planning, position, result) && result.accepted
    ensures IsAwaited(requests, (position, result))
    ensures Tracks(phases, requests, Deliver(phases, c, position, result), arrived + {position})
  {
    var done: set<nat> :| Behind(requests, done, arrived) && HasEstablished(requests, c.planning.children, done);
    if done + {position} == Positions(|requests|) {
      CommitsLast(phases, requests, c, done, arrived, position, result);
    } else {
      CommitsOneMore(phases, requests, c, done, arrived, position, result);
    }
  }

  lemma {:induction false} TracksAlways(phases: seq<nat>, requests: seq<Request>, arrivals: seq<(nat, Resolved)>)
    requires EveryRoleOnce(phases, |requests|) && requests != []
    ensures Tracks(phases, requests, AfterResults(phases, requests, arrivals), Arrived(requests, arrivals))
  {
    if arrivals == [] {
      assert HasEstablished(requests, Waiting(requests), {});
      assert 0 in Positions(|requests|);
      assert Behind(requests, {}, {});
    } else {
      var n := |arrivals| - 1;
      var before := AfterResults(phases, requests, arrivals[..n]);
      var (position, result) := arrivals[n];
      TracksAlways(phases, requests, arrivals[..n]);
      ArrivedGrows(requests, arrivals);
      if Matches(before.planning, position, result) && result.accepted {
        TracksCommitted(phases, requests, before, Arrived(requests, arrivals[..n]), position, result);
      } else {
        TracksIgnored(phases, requests, before, Arrived(requests, arrivals[..n]), position, result);
        assert Arrived(requests, arrivals) == Arrived(requests, arrivals[..n]);
      }
    }
  }

  /**
   * Whatever the arrival order and whatever else arrives in between, exactly one plan is reported,
   * as soon as every child has arrived, and it is the declared plan; unless two creations share an
   * ID, and then none is.
   */
  lemma {:induction false} ReportedOnce(phases: seq<nat>, requests: seq<Request>, arrivals: seq<(nat, Resolved)>)
    requires EveryRoleOnce(phases, |requests|) && requests != []
    ensures AfterResults(phases, requests, arrivals).reports
         == if Arrived(requests, arrivals) == Positions(|requests|) && DistinctCreations(requests)
            then [DeclaredPlan(phases, requests)] else []
    ensures DistinctCreations(requests) ==> ValidPlan(ErasePlan(DeclaredPlan(phases, requests)))
  {
    TracksAlways(phases, requests, arrivals);
    DeclaredValid(phases, requests);
  }

  // ---------------------------------------------------------------------
  // What the requests and the arrivals alone say about the collector and about every reaction.

  /** The positions committed so far: those whose awaited result arrived, unless the last would meet a shared ID. */
  ghost function Committed(requests: seq<Request>, arrivals: seq<(nat, Resolved)>): set<nat> {
    if arrivals == [] then {}
    else
      var before, a := Committed(requests, arrivals[..|arrivals| - 1]), arrivals[|arrivals| - 1];
      if IsAwaited(requests, a) && (before + {a.0} != Positions(|requests|) || DistinctCreations(requests))
      then before + {a.0} else before
  }

  /** Collecting with exactly these positions established, or reported when there is no other. */
  ghost predicate Stands(requests: seq<Request>, planning: Planning, done: set<nat>) {
    && done <= Positions(|requests|)
    && if done == Positions(|requests|) then planning == Reported
       else planning.Collecting? && HasEstablished(requests, planning.children, done)
  }

  /** The reaction to one more result, told by requests and committed positions. */
  ghost function Reaction(
    phases: seq<nat>, requests: seq<Request>, done: set<nat>, position: nat, result: Resolved): Outcome
    requires InRange(phases, |requests|)
  {
    var everyone := Positions(|requests|);
    if done == everyone then Turned(UnexpectedCreationResult(position, PlanReported, result))
    else if position >= |requests| then Turned(UnexpectedCreationResult(position, UnknownPosition, result))
    else
      var request := requests[position];
      if position in done then
        Turned(UnexpectedCreationResult(position, Status(Established(request.creation)), result))
      else if result.creation != request.creation || result.kind != request.kind then
        Turned(UnexpectedCreationResult(position, Status(Awaiting(request.creation, request.kind)), result))
      else if !result.accepted then Turned(CreationRejected(position, result))
      else if done + {position} != everyone then Collected
      else if DistinctCreations(requests) then PlanMade(DeclaredPlan(phases, requests))
      else BadPlan(DeclaredPlan(phases, requests))
  }

  lemma {:induction false} ResolveLast(
    phases: seq<nat>, requests: seq<Request>, planning: Planning, done: set<nat>, position: nat, result: Resolved)
    requires EveryRoleOnce(phases, |requests|) && Stands(requests, planning, done)
    requires Matches(planning, position, result) && result.accepted && done + {position} == Positions(|requests|)
    ensures Resolve(phases, planning, position, result)
            == if DistinctCreations(requests) then (Reported, PlanMade(DeclaredPlan(phases, requests)))
               else (planning, BadPlan(DeclaredPlan(phases, requests)))
  {
    var next := planning.children[position := Established(result.creation)];
    EstablishedMore(requests, planning.children, done, position);
    AllDone(requests, next, done + {position});
    BuildDeclared(phases, requests, next);
    DeclaredValid(phases, requests);
  }

  lemma {:induction false} ResolveMore(
    phases: seq<nat>, requests: seq<Request>, planning: Planning, done: set<nat>, position: nat, result: Resolved)
    requires Stands(requests, planning, done)
    requires Matches(planning, position, result) && result.accepted && done + {position} != Positions(|requests|)
    ensures Resolve(phases, planning, position, result).1 == Collected
    ensures Stands(requests, Resolve(phases, planning, position, result).0, done + {position})
  {
    var next := planning.children[position := Established(result.creation)];
    EstablishedMore(requests, planning.children, done, position);
    AllDone(requests, next, done + {position});
  }

  /** One result, from where the collector stands. */
  lemma {:induction false} ResolveFrom(
    phases: seq<nat>, requests: seq<Request>, planning: Planning, done: set<nat>, position: nat, result: Resolved)
    requires EveryRoleOnce(phases, |requests|) && Stands(requests, planning, done)
    ensures Resolve(phases, planning, position, result).1 == Reaction(phases, requests, done, position, result)
    ensures var next := Resolve(phases, planning, position, result).0;
            match Reaction(phases, requests, done, position, result)
            case Collected => Stands(requests, next, done + {position})
            case PlanMade(_) => Stands(requests, next, done + {position})
            case _ => next == planning
  {
    if Matches(planning, position, result) && result.accepted {
      if done + {position} == Positions(|requests|) {
        ResolveLast(phases, requests, planning, done, position, result);
      } else {
        ResolveMore(phases, requests, planning, done, position, result);
      }
    }
  }

  lemma {:induction false} CommittedNext(
    phases: seq<nat>, requests: seq<Request>, done: set<nat>, a: (nat, Resolved))
    requires InRange(phases, |requests|) && done <= Positions(|requests|)
    ensures var r := Reaction(phases, requests, done, a.0, a.1);
            (if r.Collected? || r.PlanMade? then done + {a.0} else done)
            == if IsAwaited(requests, a) && (done + {a.0} != Positions(|requests|) || DistinctCreations(requests))
               then done + {a.0} else done
  {
    if a.0 in done { assert done + {a.0} == done; }
  }

  lemma {:induction false} StandsAlways(phases: seq<nat>, requests: seq<Request>, arrivals: seq<(nat, Resolved)>)
    requires EveryRoleOnce(phases, |requests|) && requests != []
    ensures Stands(requests, AfterResults(phases, requests, arrivals).planning, Committed(requests, arrivals))
  {
    if arrivals == [] {
      assert 0 in Positions(|requests|);
    } else {
      var n := |arrivals| - 1;
      var before, done := AfterResults(phases, requests, arrivals[..n]).planning, Committed(requests, arrivals[..n]);
      StandsAlways(phases, requests, arrivals[..n]);
      ResolveFrom(phases, requests, before, done, arrivals[n].0, arrivals[n].1);
      CommittedNext(phases, requests, done, arrivals[n]);
    }
  }

  /**
   * For every arrival sequence and every further result: the reaction is the one requests and committed
   * positions call for, each refusal naming what was expected, and only a committed result changes the collector.
   */
  lemma {:induction false} ResolvesExactly(
    phases: seq<nat>, requests: seq<Request>, arrivals: seq<(nat, Resolved)>, position: nat, result: Resolved)
    requires EveryRoleOnce(phases, |requests|) && requests != []
    ensures var planning, done := AfterResults(phases, requests, arrivals).planning, Committed(requests, arrivals);
            var (next, outcome) := Resolve(phases, planning, position, result);
            && outcome == Reaction(phases, requests, done, position, result)
            && (!outcome.Collected? && !outcome.PlanMade? ==> next == planning)
  {
    StandsAlways(phases, requests, arrivals);
    var planning, done := AfterResults(phases, requests, arrivals).planning, Committed(requests, arrivals);
    ResolveFrom(phases, requests, planning, done, position, result);
  }

  /** In a run over the declared plan, a role's child is asked to stop only after those of earlier roles stopped. */
  lemma {:induction false} DeclarationOrder(
    phases: seq<nat>, requests: seq<Request>, run: Run, i: nat, j: nat)
    requires EveryRoleOnce(phases, |requests|) && DistinctCreations(requests)
    requires Accounted(run) && run.plan == Some(ErasePlan(DeclaredPlan(phases, requests)))
    requires i < j < |phases| && requests[phases[j]].creation in run.requested
    ensures requests[phases[i]].creation in run.stopped
  {
    var plan := ErasePlan(DeclaredPlan(phases, requests));
    assert phases[i] in phases && phases[j] in phases;
    var d, c := requests[phases[i]].creation, requests[phases[j]].creation;
    FlattenDeclared(phases, requests);
    assert Flatten(plan)[i] == d;
    assert Respects(plan, [(d, c)]) by {
      forall a, b, x, y | 0 <= a < |plan| && 0 <= b < |plan| && x in plan[a] && y in plan[b] && (x, y) in [(d, c)]
        ensures a < b
      {
        assert phases[a] in phases && phases[b] in phases;
        assert plan[a] == [requests[phases[a]].creation] && plan[b] == [requests[phases[b]].creation];
        assert a == i && b == j;
      }
    }
    DependencyOrder(run, [(d, c)], d, c);
  }

  /** Every plan given to the coordinator is one the collector has reported. */
  ghost predicate PlansReported(
    phases: seq<nat>, requests: seq<Request>, arrivals: seq<(nat, Resolved)>, es: seq<Event<Target>>)
  {
    forall k :: 0 <= k < |es| && es[k].Plan? ==> es[k].plan in AfterResults(phases, requests, arrivals).reports
  }

  lemma {:induction false} ReportedPlanRuns(
    phases: seq<nat>, requests: seq<Request>, arrivals: seq<(nat, Resolved)>, es: seq<Event<Target>>)
    requires EveryRoleOnce(phases, |requests|) && requests != [] && PlansReported(phases, requests, arrivals, es)
    ensures WellFormedRun(EraseEvents(es))
    ensures var run := After(Begin(AwaitingPlan), EraseEvents(es));
            run.plan.Some? ==>
              DistinctCreations(requests) && run.plan.value == ErasePlan(DeclaredPlan(phases, requests))
  {
    ReportedOnce(phases, requests, arrivals);
    var declared := ErasePlan(DeclaredPlan(phases, requests));
    forall k | 0 <= k < |es| && EraseEvents(es)[k].Plan?
      ensures EraseEvents(es)[k].plan == declared && DistinctCreations(requests)
    {
      assert es[k].plan in AfterResults(phases, requests, arrivals).reports;
    }
    var reported := if DistinctCreations(requests) then iset{declared} else iset{};
    PlanFrom(AwaitingPlan, EraseEvents(es), reported);
  }

  /**
   * The collector and the coordinator together: for every arrival order of creation results and
   * every event sequence whose plans are the collector's reports, a role's child is asked to stop
   * only after the children of all roles declared before it were accepted as stopped.
   */
  lemma {:induction false} RolesStopInDeclarationOrder(
    phases: seq<nat>, requests: seq<Request>, arrivals: seq<(nat, Resolved)>, es: seq<Event<Target>>, i: nat, j: nat)
    requires EveryRoleOnce(phases, |requests|) && requests != [] && PlansReported(phases, requests, arrivals, es)
    requires i < j < |phases|
    ensures var reactions := TargetTrace(AwaitingPlan, es).1;
            requests[phases[j]].creation in Creations(Requests(reactions)) ==>
              requests[phases[i]].creation in AcceptedStops(es, reactions)
  {
    ReportedPlanRuns(phases, requests, arrivals, es);
    TargetRunIsRun(AwaitingPlan, es);
    RunAccounted(AwaitingPlan, EraseEvents(es));
    var run := After(Begin(AwaitingPlan), EraseEvents(es));
    if requests[phases[j]].creation in run.requested {
      assert run.plan.Some? by {
        PhasedShutdown(AwaitingPlan, EraseEvents(es));
      }
      DeclarationOrder(phases, requests, run, i, j);
    }
  }

  lemma {:induction false} FlattenTargets(phases: seq<nat>, requests: seq<Request>, t: Target)
    requires InRange(phases, |requests|) && t in Flatten(DeclaredPlan(phases, requests))
    ensures Lane(t) < |requests| && Creation(t) == requests[Lane(t)].creation
  {
    var plan := DeclaredPlan(phases, requests);
    FlattenMember(plan, t);
    var k :| 0 <= k < |plan| && t in plan[k];
    assert plan[k] == [TargetAt(phases[k], requests[phases[k]].creation)];
  }

  lemma {:induction false} FirstPlanIsReported(
    phases: seq<nat>, requests: seq<Request>, arrivals: seq<(nat, Resolved)>, es: seq<Event<Target>>)
    requires PlansReported(phases, requests, arrivals, es)
    ensures FirstPlan(AwaitingPlan, es).Some? ==>
              FirstPlan(AwaitingPlan, es).value in AfterResults(phases, requests, arrivals).reports
  {
    if es != [] {
      FirstPlanIsReported(phases, requests, arrivals, es[..|es| - 1]);
    }
  }

  /** The collector and the coordinator together ask each role's child to stop on that role's own protocol lane. */
  lemma {:induction false} RolesOnOwnLanes(
    phases: seq<nat>, requests: seq<Request>, arrivals: seq<(nat, Resolved)>, es: seq<Event<Target>>, t: Target)
    requires EveryRoleOnce(phases, |requests|) && requests != [] && PlansReported(phases, requests, arrivals, es)
    requires t in Requests(TargetTrace(AwaitingPlan, es).1)
    ensures Lane(t) < |requests| && Creation(t) == requests[Lane(t)].creation
  {
    RequestsFollowPlan(AwaitingPlan, es);
    FirstPlanIsReported(phases, requests, arrivals, es);
    ReportedOnce(phases, requests, arrivals);
    FlattenTargets(phases, requests, t);
  }
}

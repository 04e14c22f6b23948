/** Exact-incarnation termination observation: the monitor, the host it talks to, and their races. */
module Observation {
  import opened Base

  /** The shared allocation behind a correlation; equality is identity of the allocation. */
  type Identity = nat

  datatype Request = Observe(identity: Identity, recipient: nat)

  /** A cancellation owns the one permission for its relationship. */
  datatype Cancel = Cancel(authority: Identity)

  datatype Rejection = IdAlreadyBound | NotObserved

  datatype Report =
    | Started(authority: Identity)
    | PeerStopped(relationship: Identity, outcome: int)
    | CancelDone(relationship: Identity)
    | ObserveRejected(request: Request, reason: Rejection)
    | CancelRejected(cancel: Cancel, reason: Rejection)

  datatype Monitor =
    | Unissued(request: Request)
    | Requested(correlation: Identity)
    | Observing(authority: Identity)
    | CancelPending(relationship: Identity)
    | CancelRejectedWaiting(cancel: Cancel)
    | StoppedAwaitingCancel(relationship: Identity)
    | StartRefused(request: Request)
    | Stopped
    | StoppedWithCancelRejected(cancel: Cancel)
    | Cancelled

  datatype Verdict = Quiet | Reacted(report: Report) | Returned(report: Report)

  function Issued(m: Monitor): (Monitor, Option<Request>) {
    if m.Unissued? then (Requested(m.request.identity), Some(m.request)) else (m, None)
  }

  function Withdrawn(m: Monitor): (Monitor, Option<Cancel>) {
    if m.Observing? then (CancelPending(m.authority), Some(Cancel(m.authority))) else (m, None)
  }

  /** The state a report leads to, when the monitor accepts it. */
  function Matched(m: Monitor, r: Report): Option<Monitor> {
    match (r, m)
    case (Started(authority), Requested(correlation)) =>
      if authority == correlation then Some(Observing(authority)) else None
    case (ObserveRejected(request, reason), Requested(correlation)) =>
      if reason == IdAlreadyBound && request.identity == correlation then Some(StartRefused(request)) else None
    case (CancelRejected(cancel, reason), CancelPending(expected)) =>
      if reason == NotObserved && expected == cancel.authority then Some(CancelRejectedWaiting(cancel)) else None
    case (CancelRejected(cancel, reason), StoppedAwaitingCancel(expected)) =>
      if reason == NotObserved && expected == cancel.authority then Some(StoppedWithCancelRejected(cancel)) else None
    case (CancelDone(relationship), CancelPending(expected)) =>
      if expected == relationship then Some(Cancelled) else None
    case (PeerStopped(relationship, _), Observing(authority)) =>
      if authority == relationship then Some(Stopped) else None
    case (PeerStopped(relationship, _), CancelPending(expected)) =>
      if expected == relationship then Some(StoppedAwaitingCancel(expected)) else None
    case (PeerStopped(relationship, _), CancelRejectedWaiting(cancel)) =>
      if cancel.authority == relationship then Some(StoppedWithCancelRejected(cancel)) else None
    case _ => None
  }

  function Accept(m: Monitor, r: Report): (Monitor, Verdict) {
    match Matched(m, r)
    case None => (m, Returned(r))
    case Some(next) => (next, if r.PeerStopped? then Reacted(r) else Quiet)
  }

  /** Recovering the whole rejected start consumes the target exactly in the rejected state. */
  function IntoRejectedObserve(m: Monitor): (r: Result<(Request, Rejection), Monitor>)
    ensures r.Ok? <==> m.StartRefused?
    ensures match r
            case Ok(recovered) => m == StartRefused(recovered.0) && recovered.1 == IdAlreadyBound
            case Err(whole) => whole == m
  {
    if m.StartRefused? then Ok((m.request, IdAlreadyBound)) else Err(m)
  }

  function IntoRejectedCancel(m: Monitor): (r: Result<(Cancel, Rejection), Monitor>)
    ensures r.Ok? <==> m.CancelRejectedWaiting? || m.StoppedWithCancelRejected?
    ensures match r
            case Ok(recovered) => m.cancel == recovered.0 && recovered.1 == NotObserved
            case Err(whole) => whole == m
  {
    if m.CancelRejectedWaiting? || m.StoppedWithCancelRejected? then Ok((m.cancel, NotObserved)) else Err(m)
  }

  class TerminationTarget {
    var observation: Monitor
    var reactions: nat      // how often the reaction callback ran

    constructor (request: Request)
      ensures observation == Unissued(request) && reactions == 0
    {
      observation, reactions := Unissued(request), 0;
    }

    method RequestOnce() returns (request: Option<Request>)
      modifies this`observation
      ensures (observation, request) == Issued(old(observation))
    {
      if !observation.Unissued? {
        return None;
      }
      request := Some(observation.request);
      observation := Requested(observation.request.identity);
    }

    method TakeCancellation() returns (cancel: Option<Cancel>)
      modifies this`observation
      ensures (observation, cancel) == Withdrawn(old(observation))
    {
      if !observation.Observing? {
        return None;
      }
      cancel := Some(Cancel(observation.authority));
      observation := CancelPending(observation.authority);
    }

    method AcceptReport(report: Report) returns (verdict: Verdict)
      modifies this
      ensures (observation, verdict) == Accept(old(observation), report)
      ensures reactions == old(reactions) + if verdict.Reacted? then 1 else 0
    {
      match report
      case Started(authority) =>
        if observation == Requested(authority) {
          observation := Observing(authority);
          return Quiet;
        }
        return Returned(report);
      case ObserveRejected(request, reason) =>
        if observation == Requested(request.identity) && reason == IdAlreadyBound {
          observation := StartRefused(request);
          return Quiet;
        }
        return Returned(report);
      case CancelRejected(cancel, reason) =>
        if observation == CancelPending(cancel.authority) && reason == NotObserved {
          observation := CancelRejectedWaiting(cancel);
          return Quiet;
        }
        if observation == StoppedAwaitingCancel(cancel.authority) && reason == NotObserved {
          observation := StoppedWithCancelRejected(cancel);
          return Quiet;
        }
        return Returned(report);
      case CancelDone(relationship) =>
        if observation == CancelPending(relationship) {
          observation := Cancelled;
          return Quiet;
        }
        return Returned(report);
      case PeerStopped(relationship, _) =>
        if observation == Observing(relationship) {
          observation := Stopped;
        } else if observation == CancelPending(relationship) {
          observation := StoppedAwaitingCancel(relationship);
        } else if observation.CancelRejectedWaiting? && observation.cancel.authority == relationship {
          observation := StoppedWithCancelRejected(observation.cancel);
        } else {
          return Returned(report);
        }
        reactions := reactions + 1;
        return Reacted(report);
    }
  }

  // ---------------------------------------------------------------------
  // Against any host whatsoever.

  datatype Input = AskRequest | AskCancel | Report(report: Report)

  /** What the monitor has handed out so far, and the reports its reaction ran for. */
  datatype Ledger = Ledger(monitor: Monitor, requests: seq<Request>, cancels: seq<Cancel>, reacted: seq<Report>)

  function Handed<T>(given: seq<T>, out: Option<T>): seq<T> {
    if out.Some? then given + [out.value] else given
  }

  function Apply(l: Ledger, i: Input): Ledger {
    match i
    case AskRequest =>
      var (m, out) := Issued(l.monitor);
      l.(monitor := m, requests := Handed(l.requests, out))
    case AskCancel =>
      var (m, out) := Withdrawn(l.monitor);
      l.(monitor := m, cancels := Handed(l.cancels, out))
    case Report(report) =>
      var (m, verdict) := Accept(l.monitor, report);
      l.(monitor := m, reacted := if verdict.Reacted? then l.reacted + [verdict.report] else l.reacted)
  }

  function ApplyAll(request: Request, inputs: seq<Input>): Ledger {
    if inputs == [] then Ledger(Unissued(request), [], [], [])
    else Apply(ApplyAll(request, inputs[..|inputs| - 1]), inputs[|inputs| - 1])
  }

  /** What was handed out, and how often the reaction ran, in each state. */
  ghost predicate Tallied(l: Ledger, request: Request) {
    && (l.monitor.Unissued? ==> l.monitor.request == request)
    && l.requests == (if l.monitor.Unissued? then [] else [request])
    && l.cancels == (if l.monitor.CancelPending? || l.monitor.CancelRejectedWaiting? || l.monitor.Cancelled?
                        || l.monitor.StoppedAwaitingCancel? || l.monitor.StoppedWithCancelRejected?
                     then [Cancel(request.identity)] else [])
    && |l.reacted| == (if HasStopped(l.monitor) then 1 else 0)
    && (forall k :: 0 <= k < |l.reacted| ==> l.reacted[k].PeerStopped? && IdentityOf(l.reacted[k]) == request.identity)
  }

  predicate HasStopped(m: Monitor) {
    m.Stopped? || m.StoppedAwaitingCancel? || m.StoppedWithCancelRejected?
  }

  /** The incarnation a report speaks of. */
  function IdentityOf(r: Report): Identity {
    match r
    case Started(authority) => authority
    case PeerStopped(relationship, _) => relationship
    case CancelDone(relationship) => relationship
    case ObserveRejected(request, _) => request.identity
    case CancelRejected(cancel, _) => cancel.authority
  }

  /** Whatever identity the monitor holds is this one. */
  predicate Carries(m: Monitor, id: Identity) {
    match m
    case Unissued(request) => request.identity == id
    case Requested(correlation) => correlation == id
    case Observing(authority) => authority == id
    case CancelPending(relationship) => relationship == id
    case CancelRejectedWaiting(cancel) => cancel.authority == id
    case StoppedAwaitingCancel(relationship) => relationship == id
    case StartRefused(request) => request.identity == id
    case StoppedWithCancelRejected(cancel) => cancel.authority == id
    case Stopped => true
    case Cancelled => true
  }

  /** The rejection is the one its operation can meet. */
  predicate ReasonFits(r: Report) {
    (r.ObserveRejected? ==> r.reason == IdAlreadyBound) && (r.CancelRejected? ==> r.reason == NotObserved)
  }

  /** The monitor is waiting for such a report. */
  predicate WaitsFor(m: Monitor, r: Report) {
    match r
    case Started(_) => m.Requested?
    case ObserveRejected(_, _) => m.Requested?
    case PeerStopped(_, _) => m.Observing? || m.CancelPending? || m.CancelRejectedWaiting?
    case CancelDone(_) => m.CancelPending?
    case CancelRejected(_, _) => m.CancelPending? || m.StoppedAwaitingCancel?
  }

  /** A report is accepted exactly when it is waited for, is of the held incarnation, and has the right reason. */
  lemma {:induction false} MatchedExactly(m: Monitor, id: Identity, r: Report)
    requires Carries(m, id)
    ensures Matched(m, r).Some? <==> IdentityOf(r) == id && ReasonFits(r) && WaitsFor(m, r)
    ensures Matched(m, r).Some? ==> Carries(Matched(m, r).value, id)
  {}

  /**
   * Whatever the host sends, forged or repeated: at most one request and one cancellation leave the
   * monitor, both its own, and the reaction runs at most once, for a stop of that very incarnation.
   */
  lemma {:induction false} AtMostOnce(request: Request, inputs: seq<Input>)
    ensures var l := ApplyAll(request, inputs);
            && Tallied(l, request) && Carries(l.monitor, request.identity)
            && |l.requests| <= 1 && |l.cancels| <= 1 && |l.reacted| <= 1
            && (|l.reacted| == 1 <==> HasStopped(l.monitor))
  {
    if inputs != [] {
      var n := |inputs| - 1;
      AtMostOnce(request, inputs[..n]);
      match inputs[n]
      case Report(r) => MatchedExactly(ApplyAll(request, inputs[..n]).monitor, request.identity, r);
      case _ =>
    }
  }

  /**
   * In every state any host can bring about: a report is taken exactly when the monitor waits for it, it
   * names the monitor's own incarnation, and its rejection is the fitting one. A stop that is taken runs
   * the reaction with that very report; anything not taken is returned whole and changes nothing.
   */
  lemma {:induction false} TakenExactly(request: Request, inputs: seq<Input>, r: Report)
    ensures var m := ApplyAll(request, inputs).monitor;
            if IdentityOf(r) == request.identity && ReasonFits(r) && WaitsFor(m, r)
            then Accept(m, r).1 == (if r.PeerStopped? then Reacted(r) else Quiet)
            else Accept(m, r) == (m, Returned(r))
  {
    AtMostOnce(request, inputs);
    MatchedExactly(ApplyAll(request, inputs).monitor, request.identity, r);
  }

  /**
   * In every state any host can bring about: asking for the request hands it out exactly when that has not been
   * done, asking to cancel hands out the permission exactly while observing, and otherwise nothing changes.
   */
  lemma {:induction false} HandsOutExactly(request: Request, inputs: seq<Input>)
    ensures var l := ApplyAll(request, inputs);
            var asked, withdrawn := Apply(l, AskRequest), Apply(l, AskCancel);
            && (if l.requests == [] then asked.requests == [request] && asked.monitor == Requested(request.identity)
                else asked == l)
            && (if l.monitor.Observing?
                then withdrawn.cancels == [Cancel(request.identity)]
                     && withdrawn.monitor == CancelPending(request.identity)
                else withdrawn == l)
  {
    AtMostOnce(request, inputs);
  }

  // ---------------------------------------------------------------------
  // Composed with the host the protocol describes: it accepts or rejects the request once, commits
  // membership before it publishes Started, delivers Started first, and answers a cancellation by
  // whether the exact relationship is registered then. Everything else may be reordered.

  datatype System = System(
    monitor: Monitor,
    asked: Option<Request>,        // the request, in flight to the host
    cancelling: Option<Cancel>,    // the cancellation, in flight to the host
    registered: Option<Identity>,  // the host's exact membership
    exit: int,                     // the peer's exit, once it has stopped
    reports: multiset<Report>,     // in flight to the monitor
    refused: nat,                  // reports the monitor returned
    reactions: nat)

  datatype Step =
    | Issue
    | HostAccepts
    | HostRejects
    | PeerStops(outcome: int)
    | Withdraw
    | HostAnswersCancel
    | Deliver(report: Report)

  function Start(request: Request): System {
    System(Unissued(request), None, None, None, 0, multiset{}, 0, 0)
  }

  predicate Enabled(s: System, step: Step) {
    match step
    case Issue => true
    case HostAccepts => s.asked.Some?
    case HostRejects => s.asked.Some?
    case PeerStops(_) => s.registered.Some?
    case Withdraw => true
    case HostAnswersCancel => s.cancelling.Some?
    case Deliver(r) => r in s.reports && (r.Started? || forall q :: q in s.reports ==> !q.Started?)
  }

  /** One step; a step that is not enabled changes nothing. */
  function Take(s: System, step: Step): System {
    if !Enabled(s, step) then s else
      match step
      case Issue =>
        var (m, out) := Issued(s.monitor);
        if out.Some? then s.(monitor := m, asked := out) else s
      case HostAccepts =>
        var id := s.asked.value.identity;
        s.(asked := None, registered := Some(id), reports := s.reports + multiset{Started(id)})
      case HostRejects =>
        s.(asked := None, reports := s.reports + multiset{ObserveRejected(s.asked.value, IdAlreadyBound)})
      case PeerStops(outcome) =>
        var id := s.registered.value;
        s.(registered := None, exit := outcome, reports := s.reports + multiset{PeerStopped(id, outcome)})
      case Withdraw =>
        var (m, out) := Withdrawn(s.monitor);
        if out.Some? then s.(monitor := m, cancelling := out) else s
      case HostAnswersCancel =>
        if s.registered == Some(s.cancelling.value.authority)
        then s.(cancelling := None, registered := None,
                reports := s.reports + multiset{CancelDone(s.cancelling.value.authority)})
        else s.(cancelling := None, reports := s.reports + multiset{CancelRejected(s.cancelling.value, NotObserved)})
      case Deliver(r) =>
        var (m, verdict) := Accept(s.monitor, r);
        s.(monitor := m, reports := s.reports - multiset{r},
           refused := s.refused + if verdict.Returned? then 1 else 0,
           reactions := s.reactions + if verdict.Reacted? then 1 else 0)
  }

  function After(request: Request, steps: seq<Step>): System {
    if steps == [] then Start(request) else Take(After(request, steps[..|steps| - 1]), steps[|steps| - 1])
  }

  /** The relationship is live, or the peer's stop is on its way. */
  ghost predicate LiveOrStopping(s: System, id: Identity, other: multiset<Report>) {
    if s.registered.Some? then s.registered == Some(id) && s.reports == other
    else s.reports == other + multiset{PeerStopped(id, s.exit)}
  }

  predicate Still(s: System) {
    s.asked == None && s.cancelling == None && s.registered == None && s.reports == multiset{}
  }

  function Refusal(id: Identity): Report { CancelRejected(Cancel(id), NotObserved) }

  ghost predicate WhileRequested(request: Request, s: System) {
    var id := request.identity;
    && s.cancelling == None
    && if s.asked.Some? then s.asked == Some(request) && s.registered == None && s.reports == multiset{}
       else || (s.registered == None && s.reports == multiset{ObserveRejected(request, IdAlreadyBound)})
            || LiveOrStopping(s, id, multiset{Started(id)})
  }

  ghost predicate WhileCancelling(s: System, id: Identity) {
    && s.asked == None
    && if s.cancelling.Some? then s.cancelling == Some(Cancel(id)) && LiveOrStopping(s, id, multiset{})
       else && s.registered == None
            && (s.reports == multiset{CancelDone(id)} || LiveOrStopping(s, id, multiset{Refusal(id)}))
  }

  ghost predicate Consistent(request: Request, s: System) {
    var id := request.identity;
    && s.refused == 0
    && s.reactions == (if HasStopped(s.monitor) then 1 else 0)
    && match s.monitor
       case Unissued(r) => r == request && Still(s)
       case Requested(c) => c == id && WhileRequested(request, s)
       case StartRefused(r) => r == request && Still(s)
       case Observing(a) => a == id && s.asked == None && s.cancelling == None && LiveOrStopping(s, id, multiset{})
       case CancelPending(r) => r == id && WhileCancelling(s, id)
       case CancelRejectedWaiting(c) =>
         && c == Cancel(id) && s.asked == None && s.cancelling == None
         && s.registered == None && LiveOrStopping(s, id, multiset{})
       case StoppedAwaitingCancel(r) =>
         && r == id && s.asked == None && s.registered == None
         && (if s.cancelling.Some? then s.cancelling == Some(Cancel(id)) && s.reports == multiset{}
             else s.reports == multiset{Refusal(id)})
       case StoppedWithCancelRejected(c) => c == Cancel(id) && Still(s)
       case Stopped => Still(s)
       case Cancelled => Still(s)
  }

  lemma {:induction false} RequestedHost(request: Request, s: System, step: Step)
    requires Consistent(request, s) && s.monitor.Requested? && Enabled(s, step) && !step.Deliver?
    ensures Consistent(request, Take(s, step))
  {
    var id := request.identity;
    var next := Take(s, step);
    match step
    case PeerStops(outcome) =>
      assert next.reports == multiset{Started(id)} + multiset{PeerStopped(id, outcome)};
    case _ =>
  }

  lemma {:induction false} RequestedDelivery(request: Request, s: System, r: Report)
    requires Consistent(request, s) && s.monitor.Requested? && Enabled(s, Deliver(r))
    ensures Matched(s.monitor, r).Some?
    ensures Consistent(request, Take(s, Deliver(r)))
  {
    var id := request.identity;
    assert s.asked == None;
    if s.reports == multiset{ObserveRejected(request, IdAlreadyBound)} {
      assert r == ObserveRejected(request, IdAlreadyBound);
      assert Take(s, Deliver(r)).reports == multiset{};
    } else {
      assert Started(id) in s.reports;
      assert r == Started(id);
      assert Take(s, Deliver(r)).reports == s.reports - multiset{Started(id)};
    }
  }

  lemma {:induction false} CancelPendingHost(request: Request, s: System, step: Step)
    requires Consistent(request, s) && s.monitor.CancelPending? && Enabled(s, step) && !step.Deliver?
    ensures Consistent(request, Take(s, step))
  {
    var id := request.identity;
    var next := Take(s, step);
    match step
    case PeerStops(outcome) =>
      assert next.reports == multiset{} + multiset{PeerStopped(id, outcome)};
    case HostAnswersCancel =>
      if s.registered == None {
        assert next.reports == multiset{Refusal(id)} + multiset{PeerStopped(id, s.exit)};
      } else {
        assert next.reports == multiset{CancelDone(id)};
      }
    case _ =>
  }

  lemma {:induction false} CancelPendingDelivery(request: Request, s: System, r: Report)
    requires Consistent(request, s) && s.monitor.CancelPending? && Enabled(s, Deliver(r))
    ensures Matched(s.monitor, r).Some?
    ensures Consistent(request, Take(s, Deliver(r)))
  {
    var id := request.identity;
    var next := Take(s, Deliver(r));
    if s.cancelling.Some? {
      assert r == PeerStopped(id, s.exit);
      assert next.reports == multiset{};
    } else if s.reports == multiset{CancelDone(id)} {
      assert r == CancelDone(id);
      assert next.reports == multiset{};
    } else if r == Refusal(id) {
      assert next.reports == multiset{} + multiset{PeerStopped(id, s.exit)};
    } else {
      assert r == PeerStopped(id, s.exit);
      assert next.reports == multiset{Refusal(id)};
    }
  }

  lemma {:induction false} ObservingStep(request: Request, s: System, step: Step)
    requires Consistent(request, s) && s.monitor.Observing? && Enabled(s, step)
    ensures Consistent(request, Take(s, step))
    ensures step.Deliver? ==> Matched(s.monitor, step.report).Some?
  {
    var id := request.identity;
    var next := Take(s, step);
    match step
    case PeerStops(outcome) =>
      assert next.reports == multiset{} + multiset{PeerStopped(id, outcome)};
    case Deliver(r) =>
      assert r == PeerStopped(id, s.exit);
      assert next.reports == multiset{};
    case _ =>
  }

  lemma {:induction false} LateStep(request: Request, s: System, step: Step)
    requires Consistent(request, s) && Enabled(s, step)
    requires s.monitor.CancelRejectedWaiting? || s.monitor.StoppedAwaitingCancel?
    ensures Consistent(request, Take(s, step))
    ensures step.Deliver? ==> Matched(s.monitor, step.report).Some?
  {
    var id := request.identity;
    var next := Take(s, step);
    match step
    case Deliver(r) =>
      assert r == if s.monitor.CancelRejectedWaiting? then PeerStopped(id, s.exit) else Refusal(id);
      assert next.reports == multiset{};
    case HostAnswersCancel =>
      assert next.reports == multiset{Refusal(id)};
    case _ =>
  }

  lemma {:induction false} StillStep(request: Request, s: System, step: Step)
    requires Consistent(request, s) && Enabled(s, step) && Still(s) && !s.monitor.Observing? && !s.monitor.Requested?
    ensures Consistent(request, Take(s, step)) && !step.Deliver?
  {}

  /** Every step keeps the system consistent, and no delivery is refused. */
  lemma {:induction false} ConsistentStep(request: Request, s: System, step: Step)
    requires Consistent(request, s)
    ensures Consistent(request, Take(s, step))
    ensures Enabled(s, step) && step.Deliver? ==> Matched(s.monitor, step.report).Some?
  {
    if Enabled(s, step) {
      if s.monitor.Requested? {
        if step.Deliver? { RequestedDelivery(request, s, step.report); } else { RequestedHost(request, s, step); }
      } else if s.monitor.CancelPending? {
        if step.Deliver? {
          CancelPendingDelivery(request, s, step.report);
        } else {
          CancelPendingHost(request, s, step);
        }
      } else if s.monitor.Observing? {
        ObservingStep(request, s, step);
      } else if s.monitor.CancelRejectedWaiting? || s.monitor.StoppedAwaitingCancel? {
        LateStep(request, s, step);
      } else {
        StillStep(request, s, step);
      }
    }
  }

  lemma {:induction false} ReachableConsistent(request: Request, steps: seq<Step>)
    ensures Consistent(request, After(request, steps))
  {
    if steps != [] {
      ReachableConsistent(request, steps[..|steps| - 1]);
      ConsistentStep(request, After(request, steps[..|steps| - 1]), steps[|steps| - 1]);
    }
  }

  /** In every interleaving no report is ever refused, and the reaction has run at most once. */
  lemma {:induction false} NoReportRefused(request: Request, steps: seq<Step>)
    ensures var s := After(request, steps);
            && s.refused == 0 && s.reactions <= 1
            && forall r :: Enabled(s, Deliver(r)) ==> Matched(s.monitor, r).Some?
  {
    ReachableConsistent(request, steps);
    var s := After(request, steps);
    forall r | Enabled(s, Deliver(r)) ensures Matched(s.monitor, r).Some? {
      ConsistentStep(request, s, Deliver(r));
    }
  }

  /** How many places hold the request or the permission it turned into. */
  function Holders(request: Request, s: System): nat {
    var id := request.identity;
    (if s.monitor.Unissued? || s.monitor.StartRefused? || s.monitor.Observing?
        || s.monitor.CancelRejectedWaiting? || s.monitor.StoppedWithCancelRejected? then 1 else 0)
    + (if s.asked.Some? then 1 else 0)
    + (if s.cancelling.Some? then 1 else 0)
    + s.reports[Started(id)]
    + s.reports[ObserveRejected(request, IdAlreadyBound)]
    + s.reports[CancelRejected(Cancel(id), NotObserved)]
  }

  /** The permission is in exactly one place until the stop or the cancellation discharges it. */
  lemma {:induction false} PermissionInOnePlace(request: Request, steps: seq<Step>)
    ensures var s := After(request, steps);
            Holders(request, s)
            == if s.monitor.Stopped? || s.monitor.Cancelled? || CancelDone(request.identity) in s.reports then 0 else 1
  {
    ReachableConsistent(request, steps);
  }

  /** When nothing is in flight the monitor is not left waiting for an answer. */
  lemma {:induction false} NeverStranded(request: Request, steps: seq<Step>)
    requires var s := After(request, steps); s.asked == None && s.cancelling == None && s.reports == multiset{}
    ensures var s := After(request, steps);
            || s.monitor.Unissued? || (s.monitor.Observing? && s.registered == Some(request.identity))
            || s.monitor.StartRefused? || s.monitor.Stopped? || s.monitor.StoppedWithCancelRejected?
            || s.monitor.Cancelled?
  {
    ReachableConsistent(request, steps);
  }
}

/** Every phase and every outcome of the breaker, told by the history of a run alone. */
module BreakerOutcomes {
  import opened Base
  import opened CircuitBreaker

  /** An attempt was handed out and its completion has not been accepted. */
  predicate InFlight<Route>(s: System<Route>) {
    |s.admitted| == |s.completed| + 1
  }

  /** No number is left: every attempt was handed out, or the last generation failed. */
  predicate RanOut<Route>(threshold: nat, s: System<Route>) {
    |s.admitted| == U64_MAX || Trailing(s.completed) == threshold + U64_MAX + 1
  }

  /** Exhaustion comes only when the numbers have run out, and generations stay 64-bit. */
  ghost predicate Spared<Route>(threshold: nat, s: System<Route>) {
    && (s.breaker.phase.Exhausted? ==> RanOut(threshold, s) && !InFlight(s))
    && (Probing(s.breaker.phase) ==> s.breaker.phase.generation <= U64_MAX)
  }

  /** The routes of the admitted attempts, in order. */
  ghost function Askers<Route>(threshold: nat, events: seq<Event<Route>>): seq<Route> {
    if events == [] then []
    else
      var before, e := events[..|events| - 1], events[|events| - 1];
      var earlier := Askers(threshold, before);
      var s := After(threshold, before);
      if e.Ask? && |Next(threshold, s, e).admitted| > |s.admitted| then earlier + [e.to] else earlier
  }

  /** The attempt in flight answers to the route that asked for it. */
  ghost predicate Answerable<Route>(s: System<Route>, askers: seq<Route>) {
    && |askers| == |s.admitted|
    && (s.breaker.phase.Awaiting? || s.breaker.phase.ProbeAwaiting? ==>
          askers != [] && s.breaker.phase.replyTo == askers[|askers| - 1])
  }

  lemma {:induction false} SparedReport<Route>(threshold: nat, s: System<Route>, c: Completion)
    requires 0 < threshold <= U32_MAX && Counted(threshold, s) && Spared(threshold, s)
    ensures Spared(threshold, Next(threshold, s, Report(c)))
  {
    CountedReport(threshold, s, c);
    if Owns(s.breaker.phase, c.attempt) {
      OwnedReport(threshold, s, c);
      assert (s.completed + [c])[..|s.completed|] == s.completed;
    }
  }

  lemma {:induction false} SparedAlways<Route>(threshold: nat, events: seq<Event<Route>>)
    requires 0 < threshold <= U32_MAX
    ensures Spared(threshold, After(threshold, events))
  {
    if events != [] {
      var before := After(threshold, events[..|events| - 1]);
      SparedAlways(threshold, events[..|events| - 1]);
      CountedAlways(threshold, events[..|events| - 1]);
      match events[|events| - 1]
      case Ask(to) => SparedAsk(threshold, before, to);
      case Report(c) => SparedReport(threshold, before, c);
      case _ =>
    }
  }

  lemma {:induction false} SparedAsk<Route>(threshold: nat, s: System<Route>, to: Route)
    requires Counted(threshold, s) && Spared(threshold, s)
    ensures Spared(threshold, Next(threshold, s, Ask(to)))
  {}

  lemma {:induction false} AnswerableAlways<Route>(threshold: nat, events: seq<Event<Route>>)
    ensures Answerable(After(threshold, events), Askers(threshold, events))
  {
    if events != [] {
      var before := events[..|events| - 1];
      AnswerableAlways(threshold, before);
      AnswerableStep(threshold, After(threshold, before), Askers(threshold, before), events[|events| - 1]);
    }
  }

  lemma {:induction false} AnswerableAsk<Route>(threshold: nat, s: System<Route>, askers: seq<Route>, to: Route)
    requires Answerable(s, askers)
    ensures var now := Next(threshold, s, Ask(to));
            Answerable(now, if |now.admitted| > |s.admitted| then askers + [to] else askers)
  {
    var b := Admit(s.breaker, to).0;
    assert (askers + [to])[|askers + [to]| - 1] == to;
    assert b == s.breaker || b.phase.Exhausted? || b.phase.replyTo == to;
  }

  lemma {:induction false} AnswerableReport<Route>(
    threshold: nat, s: System<Route>, askers: seq<Route>, c: Completion)
    requires Answerable(s, askers)
    ensures Answerable(Next(threshold, s, Report(c)), askers)
  {
    if Owns(s.breaker.phase, c.attempt) {
      OwnedReport(threshold, s, c);
    }
  }

  lemma {:induction false} AnswerableStep<Route>(
    threshold: nat, s: System<Route>, askers: seq<Route>, e: Event<Route>)
    requires Answerable(s, askers)
    ensures var now := Next(threshold, s, e);
            Answerable(now, if e.Ask? && |now.admitted| > |s.admitted| then askers + [e.to] else askers)
  {
    match e
    case Ask(to) => AnswerableAsk(threshold, s, askers, to);
    case Report(c) => AnswerableReport(threshold, s, askers, c);
    case _ =>
  }

  /** In flight is exactly waiting for a completion. */
  lemma {:induction false} InFlightPhase<Route>(threshold: nat, s: System<Route>)
    requires Counted(threshold, s)
    ensures InFlight(s) <==> s.breaker.phase.Awaiting? || s.breaker.phase.ProbeAwaiting?
    ensures InFlight(s) ==> s.breaker.phase.attempt == |s.completed|
  {}

  /** The phase, outcome and reset request after the in-flight attempt completes with `failures` in a row before it. */
  function Completed<Route>(threshold: nat, attempt: Attempt, success: bool, failures: nat)
    : (Phase<Route>, Outcome, Option<Generation>)
  {
    if success then (Idle(0), Succeeded(attempt), None)
    else if failures + 1 < threshold then (Idle(failures + 1), FailureRecorded(attempt, failures + 1), None)
    else
      var generation := failures + 1 - threshold;
      if generation <= U64_MAX then (Open(generation), Opened(attempt, generation), Some(generation))
      else (Exhausted, Rejected(NoneLeft), None)
  }

  /**
   * Over every run, for every completion: it is returned whole and changes nothing unless it is the attempt in
   * flight; then a success closes, and a failure is counted, opens with the number of failures beyond the
   * threshold as generation, or exhausts past the last one. The reply goes to the route that asked.
   */
  lemma {:induction false} CompletesExactly<Route>(threshold: nat, events: seq<Event<Route>>, c: Completion)
    requires 0 < threshold <= U32_MAX
    ensures CompletedAsTold(threshold, After(threshold, events), Askers(threshold, events), c)
  {
    CountedAlways(threshold, events);
    SparedAlways(threshold, events);
    AnswerableAlways(threshold, events);
    CompletesFrom(threshold, After(threshold, events), Askers(threshold, events), c);
  }

  ghost predicate CompletedAsTold<Route>(threshold: nat, s: System<Route>, askers: seq<Route>, c: Completion) {
    var r := Complete(threshold, s.breaker, c);
    if InFlight(s) && c.attempt == |s.completed| then
      var told := Completed<Route>(threshold, c.attempt, c.success, Trailing(s.completed));
      && r.0 == Breaker(|s.admitted|, told.0)
      && askers != [] && r.1 == Replied(askers[|askers| - 1], told.1, told.2)
    else r == (s.breaker, UnexpectedCompletion(c))
  }

  lemma {:induction false} CompletesFrom<Route>(threshold: nat, s: System<Route>, askers: seq<Route>, c: Completion)
    requires 0 < threshold <= U32_MAX && Counted(threshold, s) && Spared(threshold, s) && Answerable(s, askers)
    ensures CompletedAsTold(threshold, s, askers, c)
  {
    InFlightPhase(threshold, s);
  }

  /**
   * Over every run, for every request: while an attempt is in flight it is refused as busy, while open as open
   * until the current generation's timer; otherwise the next attempt is handed out, as a probe exactly when the
   * failures in a row have reached the threshold, unless the numbers have run out.
   */
  lemma {:induction false} AdmitsExactly<Route>(threshold: nat, events: seq<Event<Route>>, to: Route)
    requires 0 < threshold <= U32_MAX
    ensures AdmittedAsTold(threshold, After(threshold, events), to)
  {
    CountedAlways(threshold, events);
    SparedAlways(threshold, events);
    AdmitsFrom(threshold, After(threshold, events), to);
  }

  ghost predicate AdmittedAsTold<Route>(threshold: nat, s: System<Route>, to: Route) {
    var failures, attempt, r := Trailing(s.completed), |s.admitted|, Admit(s.breaker, to);
    if InFlight(s) then r == (s.breaker, Replied(to, Rejected(Busy), None))
    else if s.breaker.phase.Exhausted? then
      r == (s.breaker, Replied(to, Rejected(NoneLeft), None)) && RanOut(threshold, s)
    else if s.breaker.phase.Open? then
      threshold <= failures && r == (s.breaker, Replied(to, Rejected(OpenUntil(failures - threshold)), None))
    else if attempt == U64_MAX then r == (Breaker(attempt, Exhausted), Replied(to, Rejected(NoneLeft), None))
    else if failures < threshold then
      r == (Breaker(attempt + 1, Awaiting(failures, attempt, to)), Replied(to, Admitted(attempt), None))
    else
      r == (Breaker(attempt + 1, ProbeAwaiting(failures - threshold, attempt, to)),
            Replied(to, ProbeAdmitted(attempt), None))
  }

  lemma {:induction false} AdmitsFrom<Route>(threshold: nat, s: System<Route>, to: Route)
    requires Counted(threshold, s) && Spared(threshold, s)
    ensures AdmittedAsTold(threshold, s, to)
  {
    InFlightPhase(threshold, s);
  }
}

/** The single-flight circuit breaker, composed with a timer service. */
module CircuitBreaker {
  import opened Base

  type Attempt = nat
  type Generation = nat

  datatype Phase<+Route> =
    | Idle(failures: nat)
    | Awaiting(failures: nat, attempt: Attempt, replyTo: Route)
    | Open(generation: Generation)
    | ProbeAvailable(generation: Generation)
    | ProbeAwaiting(generation: Generation, attempt: Attempt, replyTo: Route)
    | Exhausted

  datatype Rejection = Busy | OpenUntil(generation: Generation) | NoneLeft

  datatype Outcome =
    | Admitted(attempt: Attempt)
    | ProbeAdmitted(attempt: Attempt)
    | Rejected(reason: Rejection)
    | Succeeded(attempt: Attempt)
    | FailureRecorded(attempt: Attempt, failures: nat)
    | Opened(attempt: Attempt, generation: Generation)

  datatype Completion = Completion(attempt: Attempt, success: bool)

  /** One reply, or the returned completion; and at most one reset request. */
  datatype Actions<+Route> =
    | Replied(to: Route, outcome: Outcome, schedule: Option<Generation>)
    | UnexpectedCompletion(completion: Completion)

  datatype Breaker<+Route> = Breaker(nextAttempt: nat, phase: Phase<Route>)

  function Admit<Route>(b: Breaker<Route>, to: Route): (Breaker<Route>, Actions<Route>) {
    var attempt := b.nextAttempt;
    match b.phase
    case Idle(failures) =>
      if attempt == U64_MAX then (b.(phase := Exhausted), Replied(to, Rejected(NoneLeft), None))
      else (Breaker(attempt + 1, Awaiting(failures, attempt, to)), Replied(to, Admitted(attempt), None))
    case ProbeAvailable(generation) =>
      if attempt == U64_MAX then (b.(phase := Exhausted), Replied(to, Rejected(NoneLeft), None))
      else (Breaker(attempt + 1, ProbeAwaiting(generation, attempt, to)), Replied(to, ProbeAdmitted(attempt), None))
    case Open(generation) => (b, Replied(to, Rejected(OpenUntil(generation)), None))
    case Exhausted => (b, Replied(to, Rejected(NoneLeft), None))
    case _ => (b, Replied(to, Rejected(Busy), None))
  }

  predicate Owns<Route>(p: Phase<Route>, attempt: Attempt) {
    (p.Awaiting? || p.ProbeAwaiting?) && p.attempt == attempt
  }

  function Complete<Route>(threshold: nat, b: Breaker<Route>, c: Completion): (Breaker<Route>, Actions<Route>) {
    var p := b.phase;
    if !Owns(p, c.attempt) then (b, UnexpectedCompletion(c))
    else if c.success then (b.(phase := Idle(0)), Replied(p.replyTo, Succeeded(c.attempt), None))
    else if p.Awaiting? then
      var failures := if p.failures < U32_MAX then p.failures + 1 else U32_MAX;
      if failures < threshold then
        (b.(phase := Idle(failures)), Replied(p.replyTo, FailureRecorded(c.attempt, failures), None))
      else (b.(phase := Open(0)), Replied(p.replyTo, Opened(c.attempt, 0), Some(0)))
    else if p.generation == U64_MAX then (b.(phase := Exhausted), Replied(p.replyTo, Rejected(NoneLeft), None))
    else (b.(phase := Open(p.generation + 1)),
          Replied(p.replyTo, Opened(c.attempt, p.generation + 1), Some(p.generation + 1)))
  }

  /** A timer fact; `mine` says whether it names this breaker's timer. */
  function Elapsed<Route>(b: Breaker<Route>, mine: bool, generation: Generation): Breaker<Route> {
    if b.phase.Open? && mine && b.phase.generation == generation then b.(phase := ProbeAvailable(generation)) else b
  }

  class BreakerActor<Route> {
    const threshold: nat
    const timer: nat
    var nextAttempt: nat
    var phase: Phase<Route>

    function Value(): Breaker<Route> reads this { Breaker(nextAttempt, phase) }

    constructor (threshold: nat, timer: nat)
      requires 0 < threshold <= U32_MAX
      ensures Value() == Breaker(0, Idle(0)) && this.threshold == threshold && this.timer == timer
    {
      this.threshold, this.timer := threshold, timer;
      nextAttempt, phase := 0, Idle(0);
    }

    method AdmitRequest(to: Route) returns (actions: Actions<Route>)
      modifies this
      ensures (Value(), actions) == Admit(old(Value()), to)
    {
      var attempt := nextAttempt;
      match phase
      case Idle(failures) =>
        if nextAttempt == U64_MAX {
          phase := Exhausted;
          return Replied(to, Rejected(NoneLeft), None);
        }
        nextAttempt := nextAttempt + 1;
        phase := Awaiting(failures, attempt, to);
        actions := Replied(to, Admitted(attempt), None);
      case ProbeAvailable(generation) =>
        if nextAttempt == U64_MAX {
          phase := Exhausted;
          return Replied(to, Rejected(NoneLeft), None);
        }
        nextAttempt := nextAttempt + 1;
        phase := ProbeAwaiting(generation, attempt, to);
        actions := Replied(to, ProbeAdmitted(attempt), None);
      case Open(generation) =>
        actions := Replied(to, Rejected(OpenUntil(generation)), None);
      case Exhausted =>
        actions := Replied(to, Rejected(NoneLeft), None);
      case _ =>
        actions := Replied(to, Rejected(Busy), None);
    }

    method CompleteAttempt(c: Completion) returns (actions: Actions<Route>)
      modifies this
      ensures (Value(), actions) == Complete(threshold, old(Value()), c)
    {
      if !Owns(phase, c.attempt) {
        return UnexpectedCompletion(c);
      }
      var to := phase.replyTo;
      if c.success {
        phase := Idle(0);
        return Replied(to, Succeeded(c.attempt), None);
      }
      var probe := if phase.ProbeAwaiting? then Some(phase.generation) else None;
      var failures := if phase.Awaiting? then phase.failures else 0;
      failures := if failures < U32_MAX then failures + 1 else U32_MAX;
      if probe == None && failures < threshold {
        phase := Idle(failures);
        return Replied(to, FailureRecorded(c.attempt, failures), None);
      }
      var next := match probe
                  case None => Some(0)
                  case Some(g) => if g == U64_MAX then None else Some(g + 1);
      if next == None {
        phase := Exhausted;
        return Replied(to, Rejected(NoneLeft), None);
      }
      phase := Open(next.value);
      actions := Replied(to, Opened(c.attempt, next.value), Some(next.value));
    }

    method TimerElapsed(id: nat, generation: Generation)
      modifies this
      ensures Value() == Elapsed(old(Value()), id == timer, generation)
    {
      if phase.Open? && id == timer && phase.generation == generation {
        phase := ProbeAvailable(generation);
      }
    }
  }

  // ---------------------------------------------------------------------
  // Runs with a timer service that fires or loses each reset request, and may also repeat facts.

  datatype Event<+Route> =
    | Ask(to: Route)
    | Report(completion: Completion)
    | Fire(timer: (Generation, nat))       // deliver one pending request
    | Lose(timer: (Generation, nat))       // or drop it
    | Foreign(generation: Generation)      // a timer fact for another timer
    | Copy(generation: Generation)         // any further fact for this timer: repeated, late or invented

  datatype System<+Route> = System(
    breaker: Breaker<Route>,
    pending: multiset<(Generation, nat)>,  // unfired reset requests, each with the opening that made it
    openings: nat,
    admitted: seq<Attempt>,
    completed: seq<Completion>)            // completions the breaker accepted

  function Start<Route>(): System<Route> { System(Breaker(0, Idle(0)), multiset{}, 0, [], []) }

  function Next<Route>(threshold: nat, s: System<Route>, e: Event<Route>): System<Route> {
    match e
    case Ask(to) =>
      var (b, actions) := Admit(s.breaker, to);
      var given := actions.outcome.Admitted? || actions.outcome.ProbeAdmitted?;
      s.(breaker := b, admitted := if given then s.admitted + [actions.outcome.attempt] else s.admitted)
    case Report(c) =>
      (match Complete(threshold, s.breaker, c)
       case (b, Replied(_, _, Some(g))) =>
         s.(breaker := b, completed := s.completed + [c], openings := s.openings + 1,
            pending := s.pending + multiset{(g, s.openings + 1)})
       case (b, Replied(_, _, None)) => s.(breaker := b, completed := s.completed + [c])
       case (b, _) => s.(breaker := b))
    case Fire(timer) =>
      if timer in s.pending
      then s.(breaker := Elapsed(s.breaker, true, timer.0), pending := s.pending - multiset{timer}) else s
    case Lose(timer) => s.(pending := s.pending - multiset{timer})
    case Foreign(generation) => s.(breaker := Elapsed(s.breaker, false, generation))
    case Copy(generation) => s.(breaker := Elapsed(s.breaker, true, generation))
  }

  function After<Route>(threshold: nat, events: seq<Event<Route>>): System<Route> {
    if events == [] then Start() else Next(threshold, After(threshold, events[..|events| - 1]), events[|events| - 1])
  }

  /** How many failures end the history. */
  function Trailing(completed: seq<Completion>): nat {
    if completed == [] || completed[|completed| - 1].success then 0 else 1 + Trailing(completed[..|completed| - 1])
  }

  /** The phases that carry a generation. */
  predicate Probing<Route>(p: Phase<Route>) {
    p.Open? || p.ProbeAvailable? || p.ProbeAwaiting?
  }

  /** What every run keeps, whatever timer facts arrive. */
  ghost predicate Counted<Route>(threshold: nat, s: System<Route>) {
    var b := s.breaker;
    && b.nextAttempt <= U64_MAX
    // attempts are handed out once each, in order
    && |s.admitted| == b.nextAttempt && (forall i :: 0 <= i < |s.admitted| ==> s.admitted[i] == i)
    // and completed once each, in order, before the next one is handed out
    && |s.completed| == b.nextAttempt - (if b.phase.Awaiting? || b.phase.ProbeAwaiting? then 1 else 0)
    && (forall i :: 0 <= i < |s.completed| ==> s.completed[i].attempt == i)
    && (b.phase.Awaiting? || b.phase.ProbeAwaiting? ==> b.phase.attempt + 1 == b.nextAttempt)
    // a closed breaker knows exactly the failures since the last success
    && (b.phase.Idle? || b.phase.Awaiting? ==> b.phase.failures == Trailing(s.completed) < threshold)
    // and a generation counts the failures in a row beyond the threshold
    && (Probing(b.phase) ==> Trailing(s.completed) == threshold + b.phase.generation)
  }

  /** An unfired timer exists only while open, and belongs to the current opening. */
  ghost predicate Current<Route>(s: System<Route>) {
    if s.breaker.phase.Open? then s.pending <= multiset{(s.breaker.phase.generation, s.openings)}
    else s.pending == multiset{}
  }

  lemma {:induction false} CountedAsk<Route>(threshold: nat, s: System<Route>, to: Route)
    requires Counted(threshold, s)
    ensures Counted(threshold, Next(threshold, s, Ask(to)))
  {}

  /** The owned attempt's completion is recorded; it opens the breaker exactly when a timer is asked for. */
  lemma {:induction false} OwnedReport<Route>(threshold: nat, s: System<Route>, c: Completion)
    requires Owns(s.breaker.phase, c.attempt)
    ensures var next := Next(threshold, s, Report(c));
            && next.completed == s.completed + [c] && next.admitted == s.admitted
            && next.breaker.nextAttempt == s.breaker.nextAttempt
            && !next.breaker.phase.Awaiting? && !next.breaker.phase.ProbeAwaiting?
            && next.pending == if next.breaker.phase.Open?
                               then s.pending + multiset{(next.breaker.phase.generation, next.openings)} else s.pending
  {}

  lemma {:induction false} OwnedFailures<Route>(threshold: nat, s: System<Route>, c: Completion)
    requires 0 < threshold <= U32_MAX && Owns(s.breaker.phase, c.attempt)
    requires s.breaker.phase.Awaiting? ==> s.breaker.phase.failures == Trailing(s.completed) < threshold
    requires s.breaker.phase.ProbeAwaiting? ==> Trailing(s.completed) == threshold + s.breaker.phase.generation
    ensures var phase := Next(threshold, s, Report(c)).breaker.phase;
            && (phase.Idle? ==> phase.failures == Trailing(s.completed + [c]) < threshold)
            && (Probing(phase) ==> Trailing(s.completed + [c]) == threshold + phase.generation)
  {
    assert (s.completed + [c])[..|s.completed|] == s.completed;
  }

  lemma {:induction false} CountedReport<Route>(threshold: nat, s: System<Route>, c: Completion)
    requires 0 < threshold <= U32_MAX && Counted(threshold, s)
    ensures Counted(threshold, Next(threshold, s, Report(c)))
  {
    if Owns(s.breaker.phase, c.attempt) {
      OwnedReport(threshold, s, c);
      OwnedFailures(threshold, s, c);
    }
  }

  lemma {:induction false} CountedAlways<Route>(threshold: nat, events: seq<Event<Route>>)
    requires 0 < threshold <= U32_MAX
    ensures Counted(threshold, After(threshold, events))
  {
    if events != [] {
      var before := After(threshold, events[..|events| - 1]);
      CountedAlways(threshold, events[..|events| - 1]);
      match events[|events| - 1]
      case Ask(to) => CountedAsk(threshold, before, to);
      case Report(c) => CountedReport(threshold, before, c);
      case _ =>
    }
  }

  // ---------------------------------------------------------------------
  // Timers, when each request is delivered at most once.

  ghost predicate AtMostOnce<Route>(events: seq<Event<Route>>) {
    forall i :: 0 <= i < |events| ==> !events[i].Copy?
  }

  lemma {:induction false} CurrentTimer<Route>(threshold: nat, s: System<Route>, timer: (Generation, nat))
    requires Current(s)
    ensures Current(Next(threshold, s, Fire(timer))) && Current(Next(threshold, s, Lose(timer)))
    ensures timer in s.pending ==>
              && s.breaker.phase == Open(timer.0) && timer.1 == s.openings
              && Next(threshold, s, Fire(timer)).breaker.phase == ProbeAvailable(timer.0)
  {
    if timer in s.pending {
      assert s.breaker.phase.Open?;
      var only := (s.breaker.phase.generation, s.openings);
      assert timer in multiset{only};
      assert s.pending - multiset{timer} == multiset{};
    } else {
      assert s.pending - multiset{timer} == s.pending;
    }
  }

  lemma {:induction false} CurrentAlways<Route>(threshold: nat, events: seq<Event<Route>>)
    requires AtMostOnce(events)
    ensures Current(After(threshold, events))
  {
    if events != [] {
      var before := After(threshold, events[..|events| - 1]);
      CurrentAlways(threshold, events[..|events| - 1]);
      match events[|events| - 1]
      case Report(c) =>
        if Owns(before.breaker.phase, c.attempt) { OwnedReport(threshold, before, c); }
      case Fire(timer) => CurrentTimer(threshold, before, timer);
      case Lose(timer) => CurrentTimer(threshold, before, timer);
      case _ =>
    }
  }

  /**
   * Every run, whatever timer facts arrive: attempts are handed out as 0, 1, 2, ...; each is completed
   * at most once, in that order, and at most one is outstanding; a closed breaker holds the exact
   * trailing failure count, and a generation is the number of failures in a row beyond the threshold.
   */
  lemma {:induction false} SingleFlight<Route>(threshold: nat, events: seq<Event<Route>>)
    requires 0 < threshold <= U32_MAX
    ensures var s := After(threshold, events);
            && (forall i, j :: 0 <= i < j < |s.admitted| ==> s.admitted[i] < s.admitted[j])
            && (forall i, j :: 0 <= i < j < |s.completed| ==> s.completed[i].attempt < s.completed[j].attempt)
            && |s.completed| <= |s.admitted| <= |s.completed| + 1
            && (forall i :: 0 <= i < |s.completed| ==> s.completed[i].attempt == s.admitted[i])
            && (s.breaker.phase.Idle? || s.breaker.phase.Awaiting? ==>
                  s.breaker.phase.failures == Trailing(s.completed) < threshold)
            && (Probing(s.breaker.phase) ==> Trailing(s.completed) == threshold + s.breaker.phase.generation)
  {
    CountedAlways(threshold, events);
  }

  /** Every timer fact the service can still deliver is the current opening's, and opens the probe. */
  lemma {:induction false} TimersAreCurrent<Route>(threshold: nat, events: seq<Event<Route>>, timer: (Generation, nat))
    requires AtMostOnce(events) && timer in After(threshold, events).pending
    ensures var s := After(threshold, events);
            && s.breaker.phase == Open(timer.0) && timer.1 == s.openings
            && Next(threshold, s, Fire(timer)).breaker.phase == ProbeAvailable(timer.0)
  {
    CurrentAlways(threshold, events);
    CurrentTimer(threshold, After(threshold, events), timer);
  }

  /**
   * Generations restart at zero whenever a closed breaker opens, so at-most-once delivery is
   * needed: a second copy of the first opening's timer fact ends the second opening.
   */
  lemma {:induction false} SecondCopyEndsLaterOpening()
    ensures var closed: Breaker<int> := Breaker(0, Idle(0));
            var firstOpen := Complete(1, Admit(closed, 7).0, Completion(0, false));
            var recovered := Complete(1, Admit(Elapsed(firstOpen.0, true, 0), 7).0, Completion(1, true)).0;
            var secondOpen := Complete(1, Admit(recovered, 7).0, Completion(2, false));
            && firstOpen.1.schedule == Some(0) && secondOpen.1.schedule == Some(0)
            && recovered.phase == Idle(0)
            && Elapsed(secondOpen.0, true, 0).phase == ProbeAvailable(0)
  {}

  /**
   * In every run, with any number of repeated, late or invented facts: a further fact of an opening,
   * arriving at any later moment, ends an opening exactly when the breaker is open then with as many
   * failures in a row as it had at that opening, and any other is inert.
   */
  lemma {:induction false} CopyEndsOpeningExactly<Route>(threshold: nat, events: seq<Event<Route>>, n: nat)
    requires 0 < threshold <= U32_MAX && n <= |events| && After(threshold, events[..n]).breaker.phase.Open?
    ensures var opening, now := After(threshold, events[..n]), After(threshold, events);
            var copied := Next(threshold, now, Copy(opening.breaker.phase.generation));
            if now.breaker.phase.Open? && Trailing(now.completed) == Trailing(opening.completed)
            then copied.breaker.phase == ProbeAvailable(now.breaker.phase.generation)
            else copied == now
  {
    CountedAlways(threshold, events[..n]);
    CountedAlways(threshold, events);
  }
}

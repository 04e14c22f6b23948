/** The bounded stable priority queue. */
module PriorityQueue {
  import opened Base

  datatype Entry<+T, +P> = Entry(value: T, priority: P, order: nat)

  /** "At most", for priorities. */
  type AtMost<!P> = (P, P) -> bool

  ghost predicate TotalOrder<P(!new)>(le: AtMost<P>) {
    && (forall a, b :: le(a, b) || le(b, a))
    && (forall a, b, c :: le(a, b) && le(b, c) ==> le(a, c))
  }

  /** The entry order: `a` is released before `b` when both are queued. */
  predicate Ahead<T, P>(le: AtMost<P>, a: Entry<T, P>, b: Entry<T, P>) {
    le(b.priority, a.priority) && (le(a.priority, b.priority) ==> a.order < b.order)
  }

  datatype Rejection = Full | SequenceExhausted

  datatype Outcome<+T, +P> =
    | Accepted(depth: nat)
    | Rejected(value: T, priority: P, reason: Rejection)
    | Released(remaining: nat)
    | Empty

  datatype Command<+T, +P> = Offer(value: T, priority: P) | Release

  /** The admission token, absent once spent, and the queued entries. */
  datatype State<+T, +P> = State(next: Option<nat>, queued: seq<Entry<T, P>>)

  /** The position of the greatest entry. */
  function Top<T, P>(le: AtMost<P>, queued: seq<Entry<T, P>>): (i: nat)
    requires queued != []
    ensures i < |queued|
  {
    var n := |queued| - 1;
    if n == 0 then 0
    else
      var top := Top(le, queued[..n]);
      if Ahead(le, queued[n], queued[top]) then n else top
  }

  function RemoveAt<X>(s: seq<X>, i: nat): (r: seq<X>)
    requires i < |s|
    ensures |r| == |s| - 1
  {
    s[..i] + s[i + 1..]
  }

  function Step<T, P>(capacity: nat, le: AtMost<P>, s: State<T, P>, c: Command<T, P>)
    : (State<T, P>, Option<Entry<T, P>>, Outcome<T, P>)
  {
    match c
    case Offer(value, priority) =>
      if |s.queued| == capacity then (s, None, Rejected(value, priority, Full))
      else if s.next == None then (s, None, Rejected(value, priority, SequenceExhausted))
      else
        var order := s.next.value;
        (State(if order < U64_MAX then Some(order + 1) else None, s.queued + [Entry(value, priority, order)]),
         None, Accepted(|s.queued| + 1))
    case Release =>
      if s.queued == [] then (s, None, Empty)
      else
        var top := Top(le, s.queued);
        (s.(queued := RemoveAt(s.queued, top)), Some(s.queued[top]), Released(|s.queued| - 1))
  }

  datatype ConfigError = ZeroCapacity

  class PriorityQueueActor<T, P> {
    const capacity: nat
    const le: AtMost<P>
    var next: Option<nat>
    var queued: seq<Entry<T, P>>

    constructor (capacity: nat, le: AtMost<P>)
      requires capacity > 0
      ensures this.capacity == capacity && this.le == le && Current() == State(Some(0), [])
    {
      this.capacity := capacity;
      this.le := le;
      next := Some(0);
      queued := [];
    }

    function Current(): State<T, P>
      reads this
    {
      State(next, queued)
    }

    method AdmitOffer(value: T, priority: P) returns (outcome: Outcome<T, P>)
      modifies this
      ensures (Current(), None, outcome) == Step(capacity, le, old(Current()), Offer(value, priority))
    {
      if |queued| == capacity {
        return Rejected(value, priority, Full);
      }
      if next == None {
        return Rejected(value, priority, SequenceExhausted);
      }
      var order := next.value;
      next := if order < U64_MAX then Some(order + 1) else None;
      queued := queued + [Entry(value, priority, order)];
      outcome := Accepted(|queued|);
    }

    method Transition(c: Command<T, P>) returns (delivered: Option<Entry<T, P>>, outcome: Outcome<T, P>)
      modifies this
      ensures (Current(), delivered, outcome) == Step(capacity, le, old(Current()), c)
    {
      match c
      case Offer(value, priority) =>
        outcome := AdmitOffer(value, priority);
        delivered := None;
      case Release =>
        if queued == [] {
          return None, Empty;
        }
        var top := Top(le, queued);
        delivered := Some(queued[top]);
        queued := RemoveAt(queued, top);
        outcome := Released(|queued|);
    }
  }

  method NewQueue<T, P>(capacity: nat, le: AtMost<P>) returns (r: Result<PriorityQueueActor<T, P>, ConfigError>)
    ensures r.Err? <==> capacity == 0
    ensures r.Ok? ==> fresh(r.value) && r.value.capacity == capacity && r.value.le == le
                      && r.value.Current() == State(Some(0), [])
  {
    if capacity == 0 {
      return Err(ZeroCapacity);
    }
    var actor := new PriorityQueueActor(capacity, le);
    return Ok(actor);
  }

  // ---------------------------------------------------------------------
  // The greatest entry.

  /** Tokens ascend along the sequence. */
  ghost predicate Ascending<T, P>(s: seq<Entry<T, P>>) {
    forall i, j :: 0 <= i < j < |s| ==> s[i].order < s[j].order
  }

  /** The entry removed is ahead of every other queued one. */
  lemma {:induction false} TopIsAhead<T, P(!new)>(le: AtMost<P>, s: seq<Entry<T, P>>, i: nat)
    requires TotalOrder(le) && Ascending(s) && i < |s| && i != Top(le, s)
    ensures Ahead(le, s[Top(le, s)], s[i])
  {
    var n := |s| - 1;
    var top := Top(le, s[..n]);
    if i < n && i != top {
      TopIsAhead(le, s[..n], i);
      assert Ahead(le, s[top], s[i]);
    }
  }

  lemma {:induction false} RemoveAtKeeps<X>(s: seq<X>, i: nat)
    requires i < |s|
    ensures multiset(s) == multiset(RemoveAt(s, i)) + multiset{s[i]}
  {
    assert s == s[..i] + [s[i]] + s[i + 1..];
  }

  // ---------------------------------------------------------------------
  // Every run.

  datatype Run<T, P> = Run(state: State<T, P>, accepted: seq<Entry<T, P>>, released: seq<Entry<T, P>>)

  function Advance<T, P>(capacity: nat, le: AtMost<P>, run: Run<T, P>, c: Command<T, P>): Run<T, P> {
    var (next, delivered, outcome) := Step(capacity, le, run.state, c);
    Run(next,
        if c.Offer? && outcome.Accepted? then run.accepted + [next.queued[|next.queued| - 1]] else run.accepted,
        if delivered.Some? then run.released + [delivered.value] else run.released)
  }

  function After<T, P>(capacity: nat, le: AtMost<P>, commands: seq<Command<T, P>>): Run<T, P> {
    if commands == [] then Run(State(Some(0), []), [], [])
    else Advance(capacity, le, After(capacity, le, commands[..|commands| - 1]), commands[|commands| - 1])
  }

  /** Tokens count acceptances from zero and end, without wrapping, after the last one. */
  ghost predicate Numbered<T, P>(run: Run<T, P>) {
    && |run.accepted| <= U64_MAX + 1
    && (forall i :: 0 <= i < |run.accepted| ==> run.accepted[i].order == i)
    && run.state.next == if |run.accepted| <= U64_MAX then Some(|run.accepted|) else None
  }

  /** Everything accepted is queued or released, once. */
  ghost predicate Conserved<T, P>(run: Run<T, P>) {
    multiset(run.accepted) == multiset(run.state.queued) + multiset(run.released)
  }

  /** Whatever was accepted before `e` with at least its priority is in `earlier`. */
  ghost predicate Preceded<T, P>(le: AtMost<P>, accepted: seq<Entry<T, P>>, earlier: seq<Entry<T, P>>, e: Entry<T, P>) {
    forall i :: 0 <= i < |accepted| && i < e.order && le(e.priority, accepted[i].priority) ==> accepted[i] in earlier
  }

  ghost predicate Stable<T, P>(le: AtMost<P>, accepted: seq<Entry<T, P>>, released: seq<Entry<T, P>>) {
    forall k :: 0 <= k < |released| ==>
      released[k].order < |accepted| && Preceded(le, accepted, released[..k], released[k])
  }

  ghost predicate Kept<T, P>(capacity: nat, le: AtMost<P>, run: Run<T, P>) {
    && |run.state.queued| <= capacity && Ascending(run.state.queued)
    && Numbered(run) && Conserved(run) && Stable(le, run.accepted, run.released)
  }

  lemma {:induction false} QueuedWasAccepted<T, P>(run: Run<T, P>, e: Entry<T, P>)
    requires Numbered(run) && Conserved(run) && (e in run.state.queued || e in run.released)
    ensures e.order < |run.accepted| && run.accepted[e.order] == e
  {
    assert e in multiset(run.accepted);
    assert e in run.accepted;
  }

  lemma {:induction false} StableAccept<T, P>(
    le: AtMost<P>, accepted: seq<Entry<T, P>>, released: seq<Entry<T, P>>, e: Entry<T, P>)
    requires Stable(le, accepted, released)
    ensures Stable(le, accepted + [e], released)
  {
    forall k | 0 <= k < |released|
      ensures released[k].order < |accepted + [e]| && Preceded(le, accepted + [e], released[..k], released[k])
    {
      assert Preceded(le, accepted, released[..k], released[k]);
    }
  }

  lemma {:induction false} StableRelease<T, P>(
    le: AtMost<P>, accepted: seq<Entry<T, P>>, released: seq<Entry<T, P>>, e: Entry<T, P>)
    requires Stable(le, accepted, released) && e.order < |accepted| && Preceded(le, accepted, released, e)
    ensures Stable(le, accepted, released + [e])
  {
    var now := released + [e];
    forall k | 0 <= k < |now| ensures now[k].order < |accepted| && Preceded(le, accepted, now[..k], now[k]) {
      if k < |released| {
        assert now[..k] == released[..k] && now[k] == released[k];
      } else {
        assert now[..k] == released;
      }
    }
  }

  lemma {:induction false} AscendingOffer<T, P>(run: Run<T, P>, e: Entry<T, P>)
    requires Ascending(run.state.queued) && Numbered(run) && Conserved(run) && e.order == |run.accepted|
    ensures Ascending(run.state.queued + [e])
  {
    forall i | 0 <= i < |run.state.queued| ensures run.state.queued[i].order < e.order {
      QueuedWasAccepted(run, run.state.queued[i]);
    }
  }

  lemma {:induction false} ConservedOffer<T, P>(run: Run<T, P>, next: State<T, P>, e: Entry<T, P>)
    requires Conserved(run) && next.queued == run.state.queued + [e]
    ensures Conserved(Run(next, run.accepted + [e], run.released))
  {
    assert multiset(run.accepted + [e]) == multiset(run.accepted) + multiset{e};
  }

  lemma {:induction false} KeptOffer<T, P>(capacity: nat, le: AtMost<P>, run: Run<T, P>, value: T, priority: P)
    requires Kept(capacity, le, run)
    ensures Kept(capacity, le, Advance(capacity, le, run, Offer(value, priority)))
  {
    var now := Advance(capacity, le, run, Offer(value, priority));
    if now.accepted != run.accepted {
      var e := Entry(value, priority, run.state.next.value);
      assert now.accepted == run.accepted + [e] && now.state.queued == run.state.queued + [e];
      AscendingOffer(run, e);
      StableAccept(le, run.accepted, run.released, e);
      ConservedOffer(run, now.state, e);
    }
  }

  lemma {:induction false} TopIsPreceded<T, P(!new)>(capacity: nat, le: AtMost<P>, run: Run<T, P>)
    requires TotalOrder(le) && Kept(capacity, le, run) && run.state.queued != []
    ensures Preceded(le, run.accepted, run.released, run.state.queued[Top(le, run.state.queued)])
  {
    var top := Top(le, run.state.queued);
    var e := run.state.queued[top];
    forall i | 0 <= i < |run.accepted| && i < e.order && le(e.priority, run.accepted[i].priority)
      ensures run.accepted[i] in run.released
    {
      var x := run.accepted[i];
      assert x in multiset(run.accepted);
      if x !in run.released {
        assert x in multiset(run.state.queued);
        var j :| 0 <= j < |run.state.queued| && run.state.queued[j] == x;
        TopIsAhead(le, run.state.queued, j);
      }
    }
  }

  lemma {:induction false} ConservedRelease<T, P>(run: Run<T, P>, next: State<T, P>, top: nat)
    requires Conserved(run) && top < |run.state.queued| && next.queued == RemoveAt(run.state.queued, top)
    ensures Conserved(Run(next, run.accepted, run.released + [run.state.queued[top]]))
  {
    RemoveAtKeeps(run.state.queued, top);
  }

  lemma {:induction false} KeptRelease<T, P(!new)>(capacity: nat, le: AtMost<P>, run: Run<T, P>)
    requires TotalOrder(le) && Kept(capacity, le, run)
    ensures Kept(capacity, le, Advance(capacity, le, run, Release))
  {
    if run.state.queued != [] {
      var now := Advance(capacity, le, run, Release);
      var top := Top(le, run.state.queued);
      var e := run.state.queued[top];
      QueuedWasAccepted(run, e);
      TopIsPreceded(capacity, le, run);
      StableRelease(le, run.accepted, run.released, e);
      ConservedRelease(run, now.state, top);
    }
  }

  lemma {:induction false} KeptAlways<T, P(!new)>(capacity: nat, le: AtMost<P>, commands: seq<Command<T, P>>)
    requires TotalOrder(le)
    ensures Kept(capacity, le, After(capacity, le, commands))
  {
    if commands != [] {
      var before := After(capacity, le, commands[..|commands| - 1]);
      KeptAlways(capacity, le, commands[..|commands| - 1]);
      match commands[|commands| - 1]
      case Offer(value, priority) => KeptOffer(capacity, le, before, value, priority);
      case Release => KeptRelease(capacity, le, before);
    }
  }

  /**
   * Every run: nothing is lost or duplicated, tokens are distinct through exhaustion, and an entry
   * accepted earlier with at least the priority of a released one was released before it.
   */
  lemma {:induction false} StableOverRuns<T, P(!new)>(
    capacity: nat, le: AtMost<P>, commands: seq<Command<T, P>>, i: nat, j: nat, k: nat)
    requires TotalOrder(le)
    ensures var run := After(capacity, le, commands);
            && multiset(run.accepted) == multiset(run.state.queued) + multiset(run.released)
            && (i < j < |run.accepted| ==> run.accepted[i].order < run.accepted[j].order <= U64_MAX)
            && (i < j < |run.accepted| && k < |run.released| && run.released[k] == run.accepted[j] ==>
                  le(run.accepted[j].priority, run.accepted[i].priority) ==> run.accepted[i] in run.released[..k])
  {
    KeptAlways(capacity, le, commands);
    var run := After(capacity, le, commands);
    if i < j < |run.accepted| && k < |run.released| && run.released[k] == run.accepted[j] {
      assert Preceded(le, run.accepted, run.released[..k], run.released[k]);
    }
  }

  lemma {:induction false} DepthIsOwed<T, P>(run: Run<T, P>)
    requires Conserved(run)
    ensures |run.state.queued| == |run.accepted| - |run.released|
  {
    assert |multiset(run.accepted)| == |multiset(run.state.queued)| + |multiset(run.released)|;
  }

  /**
   * Over every run, for every offer: it is returned as Full exactly when as many values are owed as fit, else as
   * exhausted exactly when every token was spent, and is otherwise accepted with the next token.
   */
  lemma {:induction false} OffersExactly<T, P(!new)>(
    capacity: nat, le: AtMost<P>, commands: seq<Command<T, P>>, value: T, priority: P)
    requires TotalOrder(le)
    ensures var run := After(capacity, le, commands);
            var depth, tokens := |run.accepted| - |run.released|, |run.accepted|;
            var r := Step(capacity, le, run.state, Offer(value, priority));
            var now := Advance(capacity, le, run, Offer(value, priority));
            if depth == capacity then r == (run.state, None, Rejected(value, priority, Full)) && now == run
            else if tokens > U64_MAX then
              r == (run.state, None, Rejected(value, priority, SequenceExhausted)) && now == run
            else
              && depth >= 0 && r.1 == None && r.2 == Accepted(depth + 1)
              && now.accepted == run.accepted + [Entry(value, priority, tokens)] && now.released == run.released
  {
    KeptAlways(capacity, le, commands);
    DepthIsOwed(After(capacity, le, commands));
  }

  /** Accepted and not yet released. */
  ghost predicate Waiting<T, P>(run: Run<T, P>, e: Entry<T, P>) {
    e in run.accepted && e !in run.released
  }

  lemma {:induction false} QueuedIsWaiting<T, P>(run: Run<T, P>, e: Entry<T, P>)
    requires Numbered(run) && Conserved(run)
    ensures e in run.state.queued <==> Waiting(run, e)
  {
    assert e in run.accepted <==> e in multiset(run.accepted);
    assert e in run.released <==> e in multiset(run.released);
    assert e in run.state.queued <==> e in multiset(run.state.queued);
    if e in run.accepted {
      OnceAccepted(run.accepted, e);
    }
  }

  lemma {:induction false} OnceAccepted<T, P>(accepted: seq<Entry<T, P>>, e: Entry<T, P>)
    requires forall i, j :: 0 <= i < j < |accepted| ==> accepted[i].order < accepted[j].order
    ensures multiset(accepted)[e] <= 1
  {
    if accepted != [] {
      var n := |accepted| - 1;
      OnceAccepted(accepted[..n], e);
      assert accepted == accepted[..n] + [accepted[n]];
      assert accepted[n] !in accepted[..n];
    }
  }

  /**
   * Over every run, for every release: with nothing waiting it answers Empty; otherwise it delivers the waiting
   * entry that is ahead of every other waiting one, and says how many remain.
   */
  lemma {:induction false} ReleasesExactly<T, P(!new)>(capacity: nat, le: AtMost<P>, commands: seq<Command<T, P>>)
    requires TotalOrder(le)
    ensures var run := After(capacity, le, commands);
            var depth, r := |run.accepted| - |run.released|, Step(capacity, le, run.state, Release);
            if depth == 0 then r == (run.state, None, Empty)
            else
              && depth > 0 && r.2 == Released(depth - 1) && r.1.Some? && Waiting(run, r.1.value)
              && (forall x :: Waiting(run, x) && x != r.1.value ==> Ahead(le, r.1.value, x))
              && Advance(capacity, le, run, Release).released == run.released + [r.1.value]
  {
    KeptAlways(capacity, le, commands);
    var run := After(capacity, le, commands);
    DepthIsOwed(run);
    if run.state.queued != [] {
      var top := Top(le, run.state.queued);
      var e := run.state.queued[top];
      QueuedIsWaiting(run, e);
      forall x | Waiting(run, x) && x != e ensures Ahead(le, e, x) {
        QueuedIsWaiting(run, x);
        var j :| 0 <= j < |run.state.queued| && run.state.queued[j] == x;
        TopIsAhead(le, run.state.queued, j);
      }
    }
  }

  // ---------------------------------------------------------------------
  // Draining.

  /** What releasing until the queue is empty delivers. */
  function Drain<T, P>(le: AtMost<P>, queued: seq<Entry<T, P>>): seq<Entry<T, P>>
    decreases |queued|
  {
    if queued == [] then []
    else [queued[Top(le, queued)]] + Drain(le, RemoveAt(queued, Top(le, queued)))
  }

  /** Behind everything of at least its priority, before everything of less: tokens play no part. */
  function InsertStable<T, P>(le: AtMost<P>, sorted: seq<Entry<T, P>>, e: Entry<T, P>): seq<Entry<T, P>> {
    if sorted == [] then [e]
    else if le(e.priority, sorted[0].priority) then [sorted[0]] + InsertStable(le, sorted[1..], e)
    else [e] + sorted
  }

  function StableSort<T, P>(le: AtMost<P>, s: seq<Entry<T, P>>): seq<Entry<T, P>> {
    if s == [] then [] else InsertStable(le, StableSort(le, s[..|s| - 1]), s[|s| - 1])
  }

  ghost predicate Sorted<T, P>(le: AtMost<P>, s: seq<Entry<T, P>>) {
    forall i, j :: 0 <= i < j < |s| ==> Ahead(le, s[i], s[j])
  }

  lemma {:induction false} RestIsBehind<T, P(!new)>(le: AtMost<P>, s: seq<Entry<T, P>>, e: Entry<T, P>)
    requires TotalOrder(le) && Ascending(s) && s != [] && e in RemoveAt(s, Top(le, s))
    ensures Ahead(le, s[Top(le, s)], e)
  {
    var top := Top(le, s);
    var j :| 0 <= j < |s| - 1 && RemoveAt(s, top)[j] == e;
    TopIsAhead(le, s, if j < top then j else j + 1);
  }

  lemma {:induction false} SortedCons<T, P>(le: AtMost<P>, e: Entry<T, P>, s: seq<Entry<T, P>>)
    requires Sorted(le, s) && forall i :: 0 <= i < |s| ==> Ahead(le, e, s[i])
    ensures Sorted(le, [e] + s)
  {}

  lemma {:induction false} DrainSorted<T, P(!new)>(le: AtMost<P>, s: seq<Entry<T, P>>)
    requires TotalOrder(le) && Ascending(s)
    ensures Sorted(le, Drain(le, s)) && multiset(Drain(le, s)) == multiset(s)
    decreases |s|
  {
    if s != [] {
      var top := Top(le, s);
      var rest := RemoveAt(s, top);
      DrainSorted(le, rest);
      RemoveAtKeeps(s, top);
      var later := Drain(le, rest);
      forall i | 0 <= i < |later| ensures Ahead(le, s[top], later[i]) {
        assert later[i] in multiset(rest);
        RestIsBehind(le, s, later[i]);
      }
      SortedCons(le, s[top], later);
    }
  }

  lemma {:induction false} InsertKeeps<T, P>(le: AtMost<P>, sorted: seq<Entry<T, P>>, e: Entry<T, P>)
    ensures multiset(InsertStable(le, sorted, e)) == multiset(sorted) + multiset{e}
  {
    if sorted != [] {
      assert sorted == [sorted[0]] + sorted[1..];
      InsertKeeps(le, sorted[1..], e);
    }
  }

  lemma {:induction false} InsertSorted<T, P(!new)>(le: AtMost<P>, sorted: seq<Entry<T, P>>, e: Entry<T, P>)
    requires TotalOrder(le) && Sorted(le, sorted) && forall i :: 0 <= i < |sorted| ==> sorted[i].order < e.order
    ensures Sorted(le, InsertStable(le, sorted, e))
  {
    if sorted != [] {
      var head, tail := sorted[0], sorted[1..];
      if le(e.priority, head.priority) {
        InsertSorted(le, tail, e);
        InsertKeeps(le, tail, e);
        var inserted := InsertStable(le, tail, e);
        forall i | 0 <= i < |inserted| ensures Ahead(le, head, inserted[i]) {
          assert inserted[i] in multiset(tail) + multiset{e};
          assert inserted[i] in tail || inserted[i] == e;
        }
        SortedCons(le, head, inserted);
      } else {
        forall i | 0 <= i < |sorted| ensures Ahead(le, e, sorted[i]) {
          assert i > 0 ==> Ahead(le, head, sorted[i]);
        }
        SortedCons(le, e, sorted);
      }
    }
  }

  lemma {:induction false} StableSortSorted<T, P(!new)>(le: AtMost<P>, s: seq<Entry<T, P>>)
    requires TotalOrder(le) && Ascending(s)
    ensures Sorted(le, StableSort(le, s)) && multiset(StableSort(le, s)) == multiset(s)
  {
    if s != [] {
      var n := |s| - 1;
      assert s == s[..n] + [s[n]];
      StableSortSorted(le, s[..n]);
      var sorted := StableSort(le, s[..n]);
      forall i | 0 <= i < |sorted| ensures sorted[i].order < s[n].order {
        assert sorted[i] in multiset(s[..n]);
        assert sorted[i] in s[..n];
      }
      InsertSorted(le, sorted, s[n]);
      InsertKeeps(le, sorted, s[n]);
    }
  }

  lemma {:induction false} HeadIsFirst<T, P>(le: AtMost<P>, s: seq<Entry<T, P>>, e: Entry<T, P>)
    requires Sorted(le, s) && e in multiset(s)
    ensures s != [] && (e == s[0] || Ahead(le, s[0], e))
  {
    var i :| 0 <= i < |s| && s[i] == e;
  }

  lemma {:induction false} TailOf<X>(s: seq<X>)
    requires s != []
    ensures multiset(s[1..]) == multiset(s) - multiset{s[0]}
  {
    assert s == [s[0]] + s[1..];
  }

  /** Two sorted arrangements of the same entries are equal. */
  lemma {:induction false} SortedUnique<T, P>(le: AtMost<P>, a: seq<Entry<T, P>>, b: seq<Entry<T, P>>)
    requires Sorted(le, a) && Sorted(le, b) && multiset(a) == multiset(b)
    ensures a == b
  {
    assert |a| == |multiset(a)| == |multiset(b)| == |b|;
    if a != [] {
      assert a[0] in multiset(a) && b[0] in multiset(b);
      HeadIsFirst(le, a, b[0]);
      HeadIsFirst(le, b, a[0]);
      TailOf(a);
      TailOf(b);
      SortedUnique(le, a[1..], b[1..]);
    }
  }

  /** From every reachable state, draining yields the stable sort, by descending priority, of what is queued. */
  lemma {:induction false} DrainIsStableSort<T, P(!new)>(capacity: nat, le: AtMost<P>, commands: seq<Command<T, P>>)
    requires TotalOrder(le)
    ensures var queued := After(capacity, le, commands).state.queued;
            Drain(le, queued) == StableSort(le, queued)
  {
    KeptAlways(capacity, le, commands);
    var queued := After(capacity, le, commands).state.queued;
    DrainSorted(le, queued);
    StableSortSorted(le, queued);
    SortedUnique(le, Drain(le, queued), StableSort(le, queued));
  }

  /** `n` release commands. */
  function Releases<T, P>(n: nat): (c: seq<Command<T, P>>)
    ensures |c| == n
  {
    if n == 0 then [] else Releases(n - 1) + [Release]
  }

  lemma {:induction false} ReleaseDrains<T, P>(capacity: nat, le: AtMost<P>, run: Run<T, P>)
    requires run.state.queued != []
    ensures var now := Advance(capacity, le, run, Release);
            && |now.state.queued| == |run.state.queued| - 1
            && now.released + Drain(le, now.state.queued) == run.released + Drain(le, run.state.queued)
  {
    var now := Advance(capacity, le, run, Release);
    var e := run.state.queued[Top(le, run.state.queued)];
    assert now.released == run.released + [e];
    assert Drain(le, run.state.queued) == [e] + Drain(le, now.state.queued);
  }

  lemma {:induction false} AfterOne<T, P>(capacity: nat, le: AtMost<P>, commands: seq<Command<T, P>>, c: Command<T, P>)
    ensures After(capacity, le, commands + [c]) == Advance(capacity, le, After(capacity, le, commands), c)
  {
    assert (commands + [c])[..|commands|] == commands;
  }

  lemma {:induction false} ReleasesDrain<T, P>(capacity: nat, le: AtMost<P>, commands: seq<Command<T, P>>, n: nat)
    requires n <= |After(capacity, le, commands).state.queued|
    ensures var before, now := After(capacity, le, commands), After(capacity, le, commands + Releases(n));
            && |now.state.queued| == |before.state.queued| - n
            && now.released + Drain(le, now.state.queued) == before.released + Drain(le, before.state.queued)
  {
    if n == 0 {
      assert commands + Releases(0) == commands;
    } else {
      ReleasesDrain(capacity, le, commands, n - 1);
      AfterOne(capacity, le, commands + Releases(n - 1), Release);
      assert commands + Releases(n) == commands + Releases(n - 1) + [Release];
      ReleaseDrains(capacity, le, After(capacity, le, commands + Releases(n - 1)));
    }
  }

  /**
   * After any run, releasing as often as values are queued empties the queue and delivers, behind
   * what was released before, the stable sort of the queue by descending priority.
   */
  lemma {:induction false} DrainingDeliversStableSort<T, P(!new)>(
    capacity: nat, le: AtMost<P>, commands: seq<Command<T, P>>)
    requires TotalOrder(le)
    ensures var before := After(capacity, le, commands);
            var now := After(capacity, le, commands + Releases(|before.state.queued|));
            now.state.queued == [] && now.released == before.released + StableSort(le, before.state.queued)
  {
    var n := |After(capacity, le, commands).state.queued|;
    ReleasesDrain(capacity, le, commands, n);
    DrainIsStableSort(capacity, le, commands);
    assert Drain(le, After(capacity, le, commands + Releases(n)).state.queued) == [];
  }
}

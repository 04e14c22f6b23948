/** Gap-buffered ordered delivery. */
module Sequencer {
  import opened Base

  /** A 64-bit sequence position. */
  type Position = p: int | 0 <= p <= U64_MAX

  datatype Pending<+T, +Route> = Pending(value: T, to: Route)

  datatype Offer<+T, +Route> = Offer(sequence: Position, pending: Pending<T, Route>)

  datatype Outcome<+T> =
    | Accepted(released: nat, buffered: nat)
    | Stale(sequence: Position, value: T, expected: Position)
    | Duplicate(sequence: Position, value: T)
    | Exhausted(sequence: Position, value: T)

  datatype State<T, Route> = State(expected: Option<Position>, pending: map<Position, Pending<T, Route>>)

  /** The position `n`, unless it lies beyond the last one. */
  function At(n: nat): (e: Option<Position>)
    ensures e.Some? <==> n <= U64_MAX
    ensures e.Some? ==> e.value == n
  {
    if n <= U64_MAX then Some(n) else None
  }

  /** Release the contiguous run that begins at the cursor. */
  function Release<T, Route>(pending: map<Position, Pending<T, Route>>, cursor: Position)
    : (State<T, Route>, seq<Pending<T, Route>>)
    decreases U64_MAX - cursor
  {
    if cursor !in pending then (State(Some(cursor), pending), [])
    else if cursor == U64_MAX then (State(None, pending - {cursor}), [pending[cursor]])
    else
      var (rest, later) := Release(pending - {cursor}, cursor + 1);
      (rest, [pending[cursor]] + later)
  }

  function Step<T, Route>(s: State<T, Route>, o: Offer<T, Route>)
    : (State<T, Route>, seq<Pending<T, Route>>, Outcome<T>)
  {
    if s.expected == None then (s, [], Exhausted(o.sequence, o.pending.value))
    else if o.sequence < s.expected.value then (s, [], Stale(o.sequence, o.pending.value, s.expected.value))
    else if o.sequence in s.pending then (s, [], Duplicate(o.sequence, o.pending.value))
    else
      var (next, delivered) := Release(s.pending[o.sequence := o.pending], s.expected.value);
      (next, delivered, Accepted(|delivered|, |next.pending|))
  }

  lemma {:induction false} ReleaseOne<T, Route>(
    pending: map<Position, Pending<T, Route>>, cursor: Position, done: seq<Pending<T, Route>>)
    requires cursor in pending
    ensures cursor == U64_MAX ==>
              && Release(pending, cursor).0 == State(None, pending - {cursor})
              && done + Release(pending, cursor).1 == done + [pending[cursor]]
    ensures cursor < U64_MAX ==>
              && Release(pending, cursor).0 == Release(pending - {cursor}, cursor + 1).0
              && done + Release(pending, cursor).1
                 == done + [pending[cursor]] + Release(pending - {cursor}, cursor + 1).1
  {}

  class SequencerActor<T, Route> {
    var expected: Option<Position>
    var pending: map<Position, Pending<T, Route>>

    constructor (first: Position)
      ensures Current() == State(Some(first), map[])
    {
      expected := Some(first);
      pending := map[];
    }

    function Current(): State<T, Route>
      reads this
    {
      State(expected, pending)
    }

    /** The release loop: deliver from the expected position while there is no gap. */
    method ReleaseContiguous() returns (deliveries: seq<Pending<T, Route>>)
      requires expected.Some?
      modifies this
      ensures Current() == Release(old(pending), old(expected).value).0
      ensures deliveries == Release(old(pending), old(expected).value).1
    {
      deliveries := [];
      var cursor := expected.value;
      ghost var (end, all) := Release(pending, cursor);
      while cursor in pending
        invariant expected == Some(cursor)
        invariant end == Release(pending, cursor).0 && all == deliveries + Release(pending, cursor).1
        decreases U64_MAX - cursor
      {
        ReleaseOne(pending, cursor, deliveries);
        deliveries := deliveries + [pending[cursor]];
        pending := pending - {cursor};
        if cursor == U64_MAX {
          expected := None;
          break;
        }
        cursor := cursor + 1;
        expected := Some(cursor);
      }
    }

    method Transition(o: Offer<T, Route>) returns (deliveries: seq<Pending<T, Route>>, outcome: Outcome<T>)
      modifies this
      ensures (Current(), deliveries, outcome) == Step(old(Current()), o)
    {
      if expected == None {
        return [], Exhausted(o.sequence, o.pending.value);
      }
      if o.sequence < expected.value {
        return [], Stale(o.sequence, o.pending.value, expected.value);
      }
      if o.sequence in pending {
        return [], Duplicate(o.sequence, o.pending.value);
      }
      pending := pending[o.sequence := o.pending];
      deliveries := ReleaseContiguous();
      outcome := Accepted(|deliveries|, |pending|);
    }
  }

  // ---------------------------------------------------------------------
  // Every run.

  datatype Run<T, Route> = Run(state: State<T, Route>, delivered: seq<Pending<T, Route>>)

  function After<T, Route>(first: Position, offers: seq<Offer<T, Route>>): Run<T, Route> {
    if offers == [] then Run(State(Some(first), map[]), [])
    else
      var before := After(first, offers[..|offers| - 1]);
      var (next, delivered, _) := Step(before.state, offers[|offers| - 1]);
      Run(next, before.delivered + delivered)
  }

  /** The first offer at each position that is not before `first`. */
  function FirstOffers<T, Route>(first: Position, offers: seq<Offer<T, Route>>): (m: map<Position, Pending<T, Route>>)
  {
    if offers == [] then map[]
    else
      var earlier := FirstOffers(first, offers[..|offers| - 1]);
      var o := offers[|offers| - 1];
      if o.sequence < first || o.sequence in earlier then earlier else earlier[o.sequence := o.pending]
  }

  /** The values at `p`, `p + 1`, and so on, up to the first gap. */
  function Stream<T, Route>(m: map<Position, Pending<T, Route>>, p: nat): (s: seq<Pending<T, Route>>)
    ensures p <= U64_MAX + 1 ==> p + |s| <= U64_MAX + 1
    decreases U64_MAX + 1 - p
  {
    if p <= U64_MAX && p in m then [m[p]] + Stream(m, p + 1) else []
  }

  /** The stream at `p` holds exactly the values at `p ..`, and a gap or the end follows it. */
  lemma {:induction false} StreamContents<T, Route>(m: map<Position, Pending<T, Route>>, p: nat)
    requires p <= U64_MAX + 1
    ensures forall q :: p <= q < p + |Stream(m, p)| ==> q in m && Stream(m, p)[q - p] == m[q]
    ensures p + |Stream(m, p)| <= U64_MAX ==> p + |Stream(m, p)| !in m
    decreases U64_MAX + 1 - p
  {
    if p <= U64_MAX && p in m {
      StreamContents(m, p + 1);
    }
  }

  function Beyond<T, Route>(m: map<Position, Pending<T, Route>>, p: nat): map<Position, Pending<T, Route>> {
    map q | q in m && p <= q :: m[q]
  }

  /** What the sequencer looks like once exactly the offers in `m` were accepted. */
  function Image<T, Route>(first: Position, m: map<Position, Pending<T, Route>>): Run<T, Route> {
    var stream := Stream(m, first);
    Run(State(At(first + |stream|), Beyond(m, first + |stream|)), stream)
  }

  lemma {:induction false} ReleaseStreams<T, Route>(m: map<Position, Pending<T, Route>>, p: Position)
    ensures Release(Beyond(m, p), p) == (State(At(p + |Stream(m, p)|), Beyond(m, p + |Stream(m, p)|)), Stream(m, p))
    decreases U64_MAX - p
  {
    if p in m {
      assert Beyond(m, p) - {p} == Beyond(m, p + 1);
      if p < U64_MAX {
        ReleaseStreams(m, p + 1);
      } else {
        assert Stream(m, p + 1) == [] && Stream(m, p) == [m[p]];
        assert Release(Beyond(m, p), p).1 == [m[p]];
      }
    }
  }

  ghost predicate Extends<T, Route>(m: map<Position, Pending<T, Route>>, grown: map<Position, Pending<T, Route>>) {
    forall p :: p in m ==> p in grown && grown[p] == m[p]
  }

  /** Accepting more continues the stream from the gap. */
  lemma {:induction false} StreamContinues<T, Route>(
    m: map<Position, Pending<T, Route>>, grown: map<Position, Pending<T, Route>>, p: nat)
    requires p <= U64_MAX + 1 && Extends(m, grown)
    ensures Stream(grown, p) == Stream(m, p) + Stream(grown, p + |Stream(m, p)|)
    decreases U64_MAX + 1 - p
  {
    if p <= U64_MAX && p in m {
      StreamContinues(m, grown, p + 1);
      var later := Stream(m, p + 1);
      var tail := Stream(grown, p + 1 + |later|);
      calc {
        Stream(grown, p);
        [m[p]] + Stream(grown, p + 1);
        [m[p]] + (later + tail);
        ([m[p]] + later) + tail;
        Stream(m, p) + tail;
      }
    } else {
      assert Stream(m, p) == [];
    }
  }

  /** An offer at a position that was accepted before, or precedes `first`, changes nothing. */
  lemma {:induction false} RefusedStep<T, Route>(
    first: Position, m: map<Position, Pending<T, Route>>, o: Offer<T, Route>)
    requires o.sequence < first || o.sequence in m
    ensures var (next, delivered, outcome) := Step(Image(first, m).state, o);
            !outcome.Accepted? && delivered == [] && next == Image(first, m).state
  {
    StreamContents(m, first);
  }

  lemma {:induction false} StepAtGap<T, Route>(
    m: map<Position, Pending<T, Route>>, grown: map<Position, Pending<T, Route>>, gap: Position, o: Offer<T, Route>)
    requires gap <= o.sequence && o.sequence !in m && grown == m[o.sequence := o.pending]
    ensures Step(State(Some(gap), Beyond(m, gap)), o).2.Accepted?
    ensures Step(State(Some(gap), Beyond(m, gap)), o).1 == Stream(grown, gap)
    ensures Step(State(Some(gap), Beyond(m, gap)), o).0
            == State(At(gap + |Stream(grown, gap)|), Beyond(grown, gap + |Stream(grown, gap)|))
  {
    assert Beyond(m, gap)[o.sequence := o.pending] == Beyond(grown, gap);
    ReleaseStreams(grown, gap);
  }

  lemma {:induction false} ImageAtGap<T, Route>(
    first: Position, m: map<Position, Pending<T, Route>>, q: Position)
    returns (gap: Position)
    requires first <= q && q !in m
    ensures first <= gap == first + |Stream(m, first)| <= q
    ensures Image(first, m) == Run(State(Some(gap), Beyond(m, gap)), Stream(m, first))
  {
    StreamContents(m, first);
    gap := first + |Stream(m, first)|;
  }

  lemma {:induction false} ImageContinues<T, Route>(
    first: Position, m: map<Position, Pending<T, Route>>, grown: map<Position, Pending<T, Route>>, gap: Position)
    requires gap == first + |Stream(m, first)| && Extends(m, grown)
    ensures var n := gap + |Stream(grown, gap)|;
            Image(first, grown) == Run(State(At(n), Beyond(grown, n)), Stream(m, first) + Stream(grown, gap))
  {
    StreamContinues(m, grown, first);
  }

  lemma {:induction false} AcceptedStep<T, Route>(
    first: Position, m: map<Position, Pending<T, Route>>, o: Offer<T, Route>)
    requires first <= o.sequence && o.sequence !in m
    ensures Step(Image(first, m).state, o).2.Accepted?
    ensures Step(Image(first, m).state, o).0 == Image(first, m[o.sequence := o.pending]).state
    ensures Image(first, m).delivered + Step(Image(first, m).state, o).1
            == Image(first, m[o.sequence := o.pending]).delivered
  {
    var gap := ImageAtGap(first, m, o.sequence);
    ImageContinues(first, m, m[o.sequence := o.pending], gap);
    StepAtGap(m, m[o.sequence := o.pending], gap, o);
  }

  /**
   * Every run: whatever was offered, in whatever order, the values delivered so far are exactly the
   * first offers at `first`, `first + 1`, ... up to the first gap; everything else accepted is
   * buffered beyond the gap, and the gap is the expected position.
   */
  lemma {:induction false} DeliversFirstOffers<T, Route>(first: Position, offers: seq<Offer<T, Route>>)
    ensures After(first, offers) == Image(first, FirstOffers(first, offers))
  {
    if offers == [] {
      var none: map<Position, Pending<T, Route>> := map[];
      assert Stream(none, first) == [] && Beyond(none, first) == none;
    } else {
      DeliversFirstOffers(first, offers[..|offers| - 1]);
      var m, o := FirstOffers(first, offers[..|offers| - 1]), offers[|offers| - 1];
      if first <= o.sequence && o.sequence !in m {
        AcceptedStep(first, m, o);
      } else {
        RefusedStep(first, m, o);
      }
    }
  }

  /** An offer is accepted exactly when it is the first at a position not before `first`. */
  lemma {:induction false} AcceptedOncePerPosition<T, Route>(
    first: Position, offers: seq<Offer<T, Route>>, o: Offer<T, Route>)
    ensures Step(After(first, offers).state, o).2.Accepted? <==>
            first <= o.sequence && forall i :: 0 <= i < |offers| ==> offers[i].sequence != o.sequence
  {
    DeliversFirstOffers(first, offers);
    FirstOffersDomain(first, offers, o.sequence);
    if first <= o.sequence && o.sequence !in FirstOffers(first, offers) {
      AcceptedStep(first, FirstOffers(first, offers), o);
    } else {
      RefusedStep(first, FirstOffers(first, offers), o);
    }
  }

  lemma {:induction false} FirstOffersDomain<T, Route>(first: Position, offers: seq<Offer<T, Route>>, p: Position)
    ensures p in FirstOffers(first, offers) <==> first <= p && exists i :: 0 <= i < |offers| && offers[i].sequence == p
  {
    if offers != [] {
      var n := |offers| - 1;
      FirstOffersDomain(first, offers[..n], p);
      if i: int :| 0 <= i < n && offers[..n][i].sequence == p {
        assert offers[i].sequence == p;
      }
      if i: int :| 0 <= i < |offers| && offers[i].sequence == p {
        assert i < n ==> offers[..n][i].sequence == p;
      }
    }
  }

  /** The buffer in every reachable state: beyond the expected position, and empty once exhausted. */
  lemma {:induction false} BufferBeyondExpected<T, Route>(first: Position, offers: seq<Offer<T, Route>>)
    ensures var s := After(first, offers).state;
            && (s.expected.Some? ==>
                  s.expected.value !in s.pending && forall p :: p in s.pending ==> s.expected.value < p)
            && (s.expected == None ==> s.pending == map[])
            && (s.expected == None <==> |After(first, offers).delivered| == U64_MAX + 1 - first)
  {
    DeliversFirstOffers(first, offers);
    ImageBuffer(first, FirstOffers(first, offers));
  }

  lemma {:induction false} ImageBuffer<T, Route>(first: Position, m: map<Position, Pending<T, Route>>)
    ensures var s := Image(first, m).state;
            && (s.expected.Some? ==>
                  s.expected.value !in s.pending && forall p :: p in s.pending ==> s.expected.value < p)
            && (s.expected == None ==> s.pending == map[])
            && (s.expected == None <==> |Image(first, m).delivered| == U64_MAX + 1 - first)
  {
    StreamContents(m, first);
  }

  /** The outcome of one more offer, told by what was delivered and what was offered before. */
  ghost predicate OutcomeTold<T, Route>(
    first: Position, before: seq<Offer<T, Route>>, o: Offer<T, Route>, delivered: nat, outcome: Outcome<T>)
  {
    var gap := first + delivered;
    if gap > U64_MAX then outcome == Exhausted(o.sequence, o.pending.value)
    else if o.sequence < gap then outcome == Stale(o.sequence, o.pending.value, gap)
    else if exists i :: 0 <= i < |before| && before[i].sequence == o.sequence then
      outcome == Duplicate(o.sequence, o.pending.value)
    else
      var now := After(first, before + [o]);
      && outcome.Accepted? && outcome.released == |now.delivered| - delivered
      && outcome.buffered == |FirstOffers(first, before + [o])| - |now.delivered|
  }

  lemma {:induction false} BeyondOne<T, Route>(m: map<Position, Pending<T, Route>>, p: Position)
    requires p in m
    ensures |Beyond(m, p)| == 1 + |Beyond(m, p + 1)|
  {
    assert Beyond(m, p).Keys == Beyond(m, p + 1).Keys + {p};
    assert |Beyond(m, p)| == |Beyond(m, p).Keys| && |Beyond(m, p + 1)| == |Beyond(m, p + 1).Keys|;
  }

  /** What lies beyond a position is the stream there and what lies beyond the stream. */
  lemma {:induction false} StreamCount<T, Route>(m: map<Position, Pending<T, Route>>, p: nat)
    requires p <= U64_MAX + 1
    ensures |Beyond(m, p)| == |Stream(m, p)| + |Beyond(m, p + |Stream(m, p)|)|
    decreases U64_MAX + 1 - p
  {
    if p <= U64_MAX && p in m {
      StreamCount(m, p + 1);
      BeyondOne(m, p);
      assert |Stream(m, p)| == 1 + |Stream(m, p + 1)|;
    }
  }

  lemma {:induction false} FirstOffersStart<T, Route>(first: Position, offers: seq<Offer<T, Route>>)
    ensures forall p :: p in FirstOffers(first, offers) ==> first <= p
  {
    if offers != [] {
      FirstOffersStart(first, offers[..|offers| - 1]);
    }
  }

  lemma {:induction false} AfterOne<T, Route>(first: Position, offers: seq<Offer<T, Route>>, o: Offer<T, Route>)
    ensures var r := Step(After(first, offers).state, o);
            After(first, offers + [o]) == Run(r.0, After(first, offers).delivered + r.1)
  {
    assert (offers + [o])[..|offers|] == offers;
  }

  /** What is buffered is what was accepted and not delivered. */
  lemma {:induction false} ImageCounts<T, Route>(first: Position, m: map<Position, Pending<T, Route>>)
    requires forall p :: p in m ==> first <= p
    ensures |Image(first, m).state.pending| == |m| - |Image(first, m).delivered|
  {
    StreamCount(m, first);
    assert Beyond(m, first) == m;
  }

  lemma {:induction false} StepCounts<T, Route>(s: State<T, Route>, o: Offer<T, Route>)
    requires Step(s, o).2.Accepted?
    ensures Step(s, o).2.released == |Step(s, o).1| && Step(s, o).2.buffered == |Step(s, o).0.pending|
  {}

  /** The counts of an accepted offer are those of the run it makes. */
  lemma {:induction false} AcceptedCounts<T, Route>(first: Position, offers: seq<Offer<T, Route>>, o: Offer<T, Route>)
    requires Step(After(first, offers).state, o).2.Accepted?
    ensures var now := After(first, offers + [o]);
            var outcome := Step(After(first, offers).state, o).2;
            && outcome.released == |now.delivered| - |After(first, offers).delivered|
            && outcome.buffered == |FirstOffers(first, offers + [o])| - |now.delivered|
  {
    var m := FirstOffers(first, offers + [o]);
    AfterOne(first, offers, o);
    StepCounts(After(first, offers).state, o);
    DeliversFirstOffers(first, offers + [o]);
    FirstOffersStart(first, offers + [o]);
    ImageCounts(first, m);
  }

  /**
   * Over every run, for every further offer: which outcome it gets, with which counts and positions. A refused
   * offer returns its value.
   */
  lemma {:induction false} OutcomesExactly<T, Route>(first: Position, offers: seq<Offer<T, Route>>, o: Offer<T, Route>)
    ensures var run := After(first, offers);
            OutcomeTold(first, offers, o, |run.delivered|, Step(run.state, o).2)
  {
    var m := FirstOffers(first, offers);
    DeliversFirstOffers(first, offers);
    FirstOffersDomain(first, offers, o.sequence);
    ImageOutcome(first, m, o);
    if Step(Image(first, m).state, o).2.Accepted? {
      AcceptedCounts(first, offers, o);
    }
  }

  /** The kind of outcome, from where the stream stands. */
  lemma {:induction false} ImageOutcome<T, Route>(first: Position, m: map<Position, Pending<T, Route>>, o: Offer<T, Route>)
    ensures var gap := first + |Stream(m, first)|;
            var outcome := Step(Image(first, m).state, o).2;
            if gap > U64_MAX then outcome == Exhausted(o.sequence, o.pending.value)
            else if o.sequence < gap then outcome == Stale(o.sequence, o.pending.value, gap)
            else if o.sequence in m then outcome == Duplicate(o.sequence, o.pending.value)
            else outcome.Accepted?
  {}

  // ---------------------------------------------------------------------
  // Confluence.

  ghost predicate DistinctPositions<T, Route>(offers: seq<Offer<T, Route>>) {
    forall i, j :: 0 <= i < j < |offers| ==> offers[i].sequence != offers[j].sequence
  }

  lemma {:induction false} EveryOfferIsFirst<T, Route>(first: Position, offers: seq<Offer<T, Route>>, i: nat)
    requires DistinctPositions(offers) && i < |offers| && first <= offers[i].sequence
    ensures offers[i].sequence in FirstOffers(first, offers)
    ensures FirstOffers(first, offers)[offers[i].sequence] == offers[i].pending
  {
    var n := |offers| - 1;
    FirstOffersDomain(first, offers[..n], offers[i].sequence);
    if i < n {
      EveryOfferIsFirst(first, offers[..n], i);
    }
  }

  /** Offers with distinct positions may arrive in any order: same stream, same expected position, same buffer. */
  lemma {:induction false} OrderDoesNotMatter<T, Route>(
    first: Position, left: seq<Offer<T, Route>>, right: seq<Offer<T, Route>>)
    requires DistinctPositions(left) && multiset(left) == multiset(right)
    ensures After(first, left) == After(first, right)
  {
    DistinctBothWays(left, right);
    var a, b := FirstOffers(first, left), FirstOffers(first, right);
    forall p: Position
      ensures p in a <==> p in b
      ensures p in a && p in b ==> a[p] == b[p]
    {
      FirstOffersDomain(first, left, p);
      FirstOffersDomain(first, right, p);
      SameOffer(first, left, right, p);
      SameOffer(first, right, left, p);
    }
    assert a == b;
    DeliversFirstOffers(first, left);
    DeliversFirstOffers(first, right);
  }

  lemma {:induction false} SameOffer<T, Route>(
    first: Position, left: seq<Offer<T, Route>>, right: seq<Offer<T, Route>>, p: Position)
    requires DistinctPositions(left) && DistinctPositions(right) && multiset(left) == multiset(right)
    ensures p in FirstOffers(first, left) ==>
              p in FirstOffers(first, right) && FirstOffers(first, left)[p] == FirstOffers(first, right)[p]
  {
    FirstOffersDomain(first, left, p);
    if p in FirstOffers(first, left) {
      var i :| 0 <= i < |left| && left[i].sequence == p;
      assert left[i] in multiset(right);
      var j :| 0 <= j < |right| && right[j] == left[i];
      EveryOfferIsFirst(first, left, i);
      EveryOfferIsFirst(first, right, j);
    }
  }


  /** A permutation of offers with distinct positions has distinct positions. */
  lemma {:induction false} DistinctBothWays<T, Route>(left: seq<Offer<T, Route>>, right: seq<Offer<T, Route>>)
    requires DistinctPositions(left) && multiset(left) == multiset(right)
    ensures DistinctPositions(right)
  {
    forall i, j | 0 <= i < j < |right| ensures right[i].sequence != right[j].sequence {
      assert right[i] in multiset(left) && right[j] in multiset(left);
      var k :| 0 <= k < |left| && left[k] == right[i];
      var l :| 0 <= l < |left| && left[l] == right[j];
      if k == l {
        TwiceInMultiset(right, i, j);
        OnceInDistinct(left, k);
      }
    }
  }

  lemma {:induction false} TwiceInMultiset<X>(s: seq<X>, i: nat, j: nat)
    requires i < j < |s| && s[i] == s[j]
    ensures multiset(s)[s[i]] >= 2
  {
    assert s == s[..j] + s[j..];
    assert s[..j][i] == s[i] && s[j..][0] == s[i];
    assert s[i] in multiset(s[..j]) && s[i] in multiset(s[j..]);
  }

  lemma {:induction false} OnceInDistinct<T, Route>(s: seq<Offer<T, Route>>, k: nat)
    requires DistinctPositions(s) && k < |s|
    ensures multiset(s)[s[k]] == 1
  {
    assert s == s[..k] + [s[k]] + s[k + 1..];
    assert s[k] !in s[..k] && s[k] !in s[k + 1..];
  }
}

/** Exactly when an announcement is committed, refused or idempotent, and exactly what each timer fact expires. */
module PresenceOutcomes {
  import opened Base
  import opened Presence

  /** The record at `i` is live on this key with this generation. */
  ghost predicate LiveAt<K, Route>(records: seq<Record<K, Route>>, i: nat, timer: TimerId, generation: Generation) {
    && i < |records| && records[i].timer == timer
    && records[i].phase.Present? && records[i].phase.generation == generation
  }

  /** What is left of a record whose expiry has come: the same evidence, tombstoned, and its route. */
  function Tombstone<K, Route>(r: Record<K, Route>): Record<K, Route> {
    Record(r.participant, r.timer, Expired(r.phase.version, r.phase.generation), r.notify)
  }

  lemma {:induction false} DueIsLive<K, Route>(
    records: seq<Record<K, Route>>, i: nat, timer: TimerId, generation: Generation)
    requires OneLive(records) && LiveAt(records, i, timer, generation)
    ensures Elapse(records, timer, generation) == (records[i := Tombstone(records[i])], Some(Tombstone(records[i])))
  {
    var due := Due(records, timer, generation);
    assert due <= i && LiveAt(records, due, timer, generation);
    assert due == i;
  }

  /**
   * Over every run: a timer fact expires a record exactly when one is live on its key with its generation. That
   * one becomes a tombstone and its Expired fact goes to its route, nothing else changes; any other fact is inert.
   */
  lemma {:induction false} ExpiresExactly<K, Route>(
    timerOf: K -> TimerId, events: seq<Event<K, Route>>, timer: TimerId, generation: Generation)
    ensures var t := After(timerOf, events);
            var now, gone := Next(timerOf, t, Tick(timer, generation)), Elapse(t.records, timer, generation).1;
            && (forall i: nat :: LiveAt(t.records, i, timer, generation) ==>
                  && gone == Some(Tombstone(t.records[i]))
                  && now.records == t.records[i := Tombstone(t.records[i])] && now.scheduled == t.scheduled
                  && now.expired == t.expired + [FactOf(t.records[i])])
            && ((forall i: nat :: !LiveAt(t.records, i, timer, generation)) ==> gone == None && now == t)
  {
    KeptAlways(timerOf, events);
    var t := After(timerOf, events);
    forall i: nat | LiveAt(t.records, i, timer, generation)
      ensures Elapse(t.records, timer, generation).1 == Some(Tombstone(t.records[i]))
      ensures Next(timerOf, t, Tick(timer, generation))
              == Table(t.records[i := Tombstone(t.records[i])], t.scheduled, t.expired + [FactOf(t.records[i])])
    {
      TickExpires(timerOf, t, i, timer, generation);
    }
    if forall i: nat :: !LiveAt(t.records, i, timer, generation) {
      TickIsInert(timerOf, t, timer, generation);
    }
  }

  lemma {:induction false} TickExpires<K, Route>(
    timerOf: K -> TimerId, t: Table<K, Route>, i: nat, timer: TimerId, generation: Generation)
    requires OneLive(t.records) && LiveAt(t.records, i, timer, generation)
    ensures Elapse(t.records, timer, generation).1 == Some(Tombstone(t.records[i]))
    ensures Next(timerOf, t, Tick(timer, generation))
            == Table(t.records[i := Tombstone(t.records[i])], t.scheduled, t.expired + [FactOf(t.records[i])])
  {
    DueIsLive(t.records, i, timer, generation);
  }

  lemma {:induction false} TickIsInert<K, Route>(
    timerOf: K -> TimerId, t: Table<K, Route>, timer: TimerId, generation: Generation)
    requires forall i: nat :: !LiveAt(t.records, i, timer, generation)
    ensures Elapse(t.records, timer, generation).1 == None && Next(timerOf, t, Tick(timer, generation)) == t
  {
    assert !LiveAt(t.records, Due(t.records, timer, generation), timer, generation);
  }

  // ---------------------------------------------------------------------
  // Announcements.

  /** Another participant is live on the key. */
  ghost predicate Blocks<K, Route>(records: seq<Record<K, Route>>, j: nat, participant: K, timer: TimerId) {
    && j < |records| && records[j].participant != participant
    && records[j].timer == timer && records[j].phase.Present?
  }

  ghost predicate Own<K, Route>(records: seq<Record<K, Route>>, i: nat, participant: K) {
    i < |records| && records[i].participant == participant
  }

  /** Some record has spent the last generation of the key. */
  ghost predicate Spent<K, Route>(records: seq<Record<K, Route>>, timer: TimerId) {
    exists j :: 0 <= j < |records| && records[j].timer == timer && records[j].phase.generation >= U64_MAX
  }

  /** One beyond every generation on the key, or the first one. */
  ghost predicate Successor<K, Route>(records: seq<Record<K, Route>>, timer: TimerId, g: Generation) {
    && (forall j :: 0 <= j < |records| && records[j].timer == timer ==> records[j].phase.generation < g)
    && (g == 0 || exists j :: 0 <= j < |records| && records[j].timer == timer && records[j].phase.generation + 1 == g)
  }

  lemma {:induction false} NextIsSuccessor<K, Route>(records: seq<Record<K, Route>>, timer: TimerId)
    ensures NextGeneration(records, timer) == None <==> Spent(records, timer)
    ensures NextGeneration(records, timer).Some? ==> Successor(records, timer, NextGeneration(records, timer).value)
  {
    var latest := Latest(records, timer);
    if latest.Some? {
      var j :| 0 <= j < |records| && records[j].timer == timer && records[j].phase.generation == latest.value;
    }
  }

  lemma {:induction false} SuccessorUnique<K, Route>(
    records: seq<Record<K, Route>>, timer: TimerId, g: Generation, h: Generation)
    requires Successor(records, timer, g) && Successor(records, timer, h)
    ensures g == h
  {}

  type Reaction<!K, !Route> = (seq<Record<K, Route>>, Outcome<K>, Option<Generation>)

  function Turned<K, Route>(records: seq<Record<K, Route>>, why: Refusal<K>): Reaction<K, Route> {
    (records, Refused(why), None)
  }

  lemma {:induction false} BlockedOutcome<K, Route>(
    timer: TimerId, records: seq<Record<K, Route>>, a: Announcement<K, Route>, j: nat)
    requires OneLive(records) && Blocks(records, j, a.participant, timer)
    ensures Announce(timer, records, a)
            == Turned(records, TimerCollision(a.participant, records[j].participant, timer, a.version, a.lifetime))
  {
    var blocker := Collision(records, a.participant, timer);
    assert blocker <= j && Blocks(records, blocker, a.participant, timer);
    assert blocker == j;
  }

  /** What a participant's own record says to a new announcement on a key nobody else holds. */
  ghost predicate OwnOutcome<K, Route>(
    timer: TimerId, records: seq<Record<K, Route>>, a: Announcement<K, Route>, i: nat, r: Reaction<K, Route>)
    requires i < |records|
  {
    var phase := records[i].phase;
    if a.version < phase.version then r == Turned(records, Stale(a.participant, a.version, phase.version, a.lifetime))
    else if a.version == phase.version then
      if phase.Present? && phase.lifetime == a.lifetime
      then r == (records, Unchanged(a.participant, a.version, phase.generation), None)
      else r == Turned(records, ConflictingVersion(a.participant, a.version, a.lifetime))
    else if Spent(records, timer) then r == Turned(records, GenerationExhausted(a.participant, a.version, a.lifetime))
    else
      && r.2.Some? && Successor(records, timer, r.2.value)
      && r.1 == Refreshed(a.participant, a.version, r.2.value)
      && r.0 == records[i := Record(a.participant, timer, Present(a.version, r.2.value, a.lifetime), a.replyTo)]
  }

  /** What the table says to a participant it does not know. */
  ghost predicate NewOutcome<K, Route>(
    timer: TimerId, records: seq<Record<K, Route>>, a: Announcement<K, Route>, r: Reaction<K, Route>)
  {
    if Spent(records, timer) then r == Turned(records, GenerationExhausted(a.participant, a.version, a.lifetime))
    else
      && r.2.Some? && Successor(records, timer, r.2.value)
      && r.1 == Announced(a.participant, a.version, r.2.value)
      && r.0 == records + [Record(a.participant, timer, Present(a.version, r.2.value, a.lifetime), a.replyTo)]
  }

  lemma {:induction false} FreeOutcome<K, Route>(
    timer: TimerId, records: seq<Record<K, Route>>, a: Announcement<K, Route>)
    requires forall j: nat :: !Blocks(records, j, a.participant, timer)
    requires forall i, j :: 0 <= i < j < |records| ==> records[i].participant != records[j].participant
    requires forall i: nat :: Own(records, i, a.participant) ==> records[i].timer == timer
    ensures forall i: nat :: Own(records, i, a.participant) ==>
              OwnOutcome(timer, records, a, i, Announce(timer, records, a))
    ensures (forall i: nat :: !Own(records, i, a.participant)) ==>
              NewOutcome(timer, records, a, Announce(timer, records, a))
  {
    var blocker, i := Collision(records, a.participant, timer), Known(records, a.participant);
    assert !Blocks(records, blocker, a.participant, timer);
    NextIsSuccessor(records, timer);
    assert i < |records| ==> Own(records, i, a.participant);
    forall k: nat | Own(records, k, a.participant) ensures k == i {}
  }

  /**
   * Over every run: an announcement is refused with the live participant that holds its key, if another one
   * does; else its own record decides whether it is stale, idempotent or conflicting; else it is committed with
   * the successor of every generation on its key, unless none is left.
   */
  lemma {:induction false} AnnouncesExactly<K, Route>(
    timerOf: K -> TimerId, events: seq<Event<K, Route>>, a: Announcement<K, Route>)
    ensures var timer, records := timerOf(a.participant), After(timerOf, events).records;
            var r := Announce(timer, records, a);
            && (forall j: nat :: Blocks(records, j, a.participant, timer) ==>
                  var existing := records[j].participant;
                  r == Turned(records, TimerCollision(a.participant, existing, timer, a.version, a.lifetime)))
            && ((forall j: nat :: !Blocks(records, j, a.participant, timer)) ==>
                  && (forall i: nat :: Own(records, i, a.participant) ==> OwnOutcome(timer, records, a, i, r))
                  && ((forall i: nat :: !Own(records, i, a.participant)) ==> NewOutcome(timer, records, a, r)))
  {
    KeptAlways(timerOf, events);
    var timer, records := timerOf(a.participant), After(timerOf, events).records;
    forall j: nat | Blocks(records, j, a.participant, timer)
      ensures Announce(timer, records, a)
              == Turned(records, TimerCollision(a.participant, records[j].participant, timer, a.version, a.lifetime))
    {
      BlockedOutcome(timer, records, a, j);
    }
    if forall j: nat :: !Blocks(records, j, a.participant, timer) {
      FreeOutcome(timer, records, a);
    }
  }

  // ---------------------------------------------------------------------
  // A record is its participant's last committed announcement.

  ghost function LastCommitted<K, Route>(
    timerOf: K -> TimerId, events: seq<Event<K, Route>>, participant: K): Option<Announcement<K, Route>>
  {
    if events == [] then None
    else
      var before, e := events[..|events| - 1], events[|events| - 1];
      if e.Hear? && e.announcement.participant == participant
         && Announce(timerOf(participant), After(timerOf, before).records, e.announcement).2.Some?
      then Some(e.announcement)
      else LastCommitted(timerOf, before, participant)
  }

  /** The record repeats this announcement: version, route and, while live, lifetime. */
  ghost predicate Repeats<K, Route>(r: Record<K, Route>, a: Option<Announcement<K, Route>>) {
    && a.Some? && a.value.participant == r.participant && a.value.version == r.phase.version
    && a.value.replyTo == r.notify && (r.phase.Present? ==> r.phase.lifetime == a.value.lifetime)
  }

  lemma {:induction false} HearWrites<K, Route>(timerOf: K -> TimerId, t: Table<K, Route>, a: Announcement<K, Route>)
    requires Keyed(timerOf, t)
    ensures var schedule := Announce(timerOf(a.participant), t.records, a).2;
            var now := Next(timerOf, t, Hear(a)).records;
            if schedule == None then now == t.records
            else
              var phase := Present(a.version, schedule.value, a.lifetime);
              var r := Record(a.participant, timerOf(a.participant), phase, a.replyTo);
              now == Put(t.records, Known(t.records, a.participant), r)
  {}

  lemma {:induction false} RepeatsAfterHear<K, Route>(
    timerOf: K -> TimerId, events: seq<Event<K, Route>>, a: Announcement<K, Route>, i: nat)
    requires i < |Next(timerOf, After(timerOf, events), Hear(a)).records|
    requires var t := After(timerOf, events);
             i < |t.records| ==> Repeats(t.records[i], LastCommitted(timerOf, events, t.records[i].participant))
    ensures var r := Next(timerOf, After(timerOf, events), Hear(a)).records[i];
            Repeats(r, LastCommitted(timerOf, events + [Hear(a)], r.participant))
  {
    var t := After(timerOf, events);
    assert Keyed(timerOf, t) by {
      KeptAlways(timerOf, events);
    }
    HearWrites(timerOf, t, a);
    LastCommittedNext(timerOf, events, a, Next(timerOf, t, Hear(a)).records[i].participant);
  }

  lemma {:induction false} LastCommittedNext<K, Route>(
    timerOf: K -> TimerId, events: seq<Event<K, Route>>, a: Announcement<K, Route>, p: K)
    ensures var committed := Announce(timerOf(a.participant), After(timerOf, events).records, a).2.Some?;
            LastCommitted(timerOf, events + [Hear(a)], p)
            == if a.participant == p && committed then Some(a) else LastCommitted(timerOf, events, p)
  {
    assert (events + [Hear(a)])[..|events|] == events;
  }

  /** Over every run each record is what its participant last committed, on the route that announcement gave. */
  lemma {:induction false} RecordsAreLastCommitted<K, Route>(
    timerOf: K -> TimerId, events: seq<Event<K, Route>>, i: nat)
    requires i < |After(timerOf, events).records|
    ensures var r := After(timerOf, events).records[i]; Repeats(r, LastCommitted(timerOf, events, r.participant))
  {
    var n := |events| - 1;
    var before, e := events[..n], events[n];
    assert events == before + [e];
    var t := After(timerOf, before);
    if i < |t.records| {
      RecordsAreLastCommitted(timerOf, before, i);
    }
    match e
    case Hear(a) => RepeatsAfterHear(timerOf, before, a, i);
    case Tick(timer, generation) =>
  }
}

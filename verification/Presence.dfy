/** Versioned presence evidence with generation-safe expiry. */
module Presence {
  import opened Base

  type TimerId = nat
  type Generation = nat

  datatype Phase =
    | Present(version: nat, generation: Generation, lifetime: nat)
    | Expired(version: nat, generation: Generation)

  datatype Record<+K, +Route> = Record(participant: K, timer: TimerId, phase: Phase, notify: Route)

  /** A refusal returns the whole announcement that was refused. */
  datatype Refusal<+K> =
    | Stale(participant: K, observed: nat, current: nat, lifetime: nat)
    | ConflictingVersion(participant: K, version: nat, lifetime: nat)
    | TimerCollision(participant: K, existing: K, timer: TimerId, version: nat, lifetime: nat)
    | GenerationExhausted(participant: K, version: nat, lifetime: nat)

  datatype Outcome<+K> =
    | Announced(participant: K, version: nat, generation: Generation)
    | Refreshed(participant: K, version: nat, generation: Generation)
    | Unchanged(participant: K, version: nat, generation: Generation)
    | Refused(reason: Refusal<K>)

  /** The first record of a participant, or the number of records. */
  function Known<K(==), Route>(records: seq<Record<K, Route>>, p: K): (i: nat)
    ensures i <= |records| && (i < |records| ==> records[i].participant == p)
    ensures forall j :: 0 <= j < i ==> records[j].participant != p
  {
    if records == [] || records[0].participant == p then 0 else 1 + Known(records[1..], p)
  }

  /** The first other participant that is live on this timer key. */
  function Collision<K(==), Route>(records: seq<Record<K, Route>>, p: K, timer: TimerId): (i: nat)
    ensures i <= |records|
    ensures i < |records| ==> records[i].participant != p && records[i].timer == timer && records[i].phase.Present?
    ensures forall j :: 0 <= j < i ==>
              !(records[j].participant != p && records[j].timer == timer && records[j].phase.Present?)
  {
    if records == [] then 0
    else if records[0].participant != p && records[0].timer == timer && records[0].phase.Present? then 0
    else 1 + Collision(records[1..], p, timer)
  }

  /** The first record live on this timer key with this generation. */
  function Due<K, Route>(records: seq<Record<K, Route>>, timer: TimerId, generation: Generation): (i: nat)
    ensures i <= |records|
    ensures i < |records| ==>
              records[i].timer == timer && records[i].phase.Present? && records[i].phase.generation == generation
    ensures forall j :: 0 <= j < i ==>
              !(records[j].timer == timer && records[j].phase.Present? && records[j].phase.generation == generation)
  {
    if records == [] then 0
    else if records[0].timer == timer && records[0].phase.Present? && records[0].phase.generation == generation then 0
    else 1 + Due(records[1..], timer, generation)
  }

  /** The greatest generation any record, live or tombstone, has on this timer key. */
  function Latest<K, Route>(records: seq<Record<K, Route>>, timer: TimerId): (g: Option<Generation>)
    ensures g == None <==> forall j :: 0 <= j < |records| ==> records[j].timer != timer
    ensures g.Some? ==>
              forall j :: 0 <= j < |records| && records[j].timer == timer ==> records[j].phase.generation <= g.value
    ensures g.Some? ==>
              exists j :: 0 <= j < |records| && records[j].timer == timer && records[j].phase.generation == g.value
  {
    if records == [] then None
    else
      var last := |records| - 1;
      var earlier := Latest(records[..last], timer);
      if records[last].timer != timer then
        earlier
      else if earlier == None || earlier.value <= records[last].phase.generation then
        Some(records[last].phase.generation)
      else earlier
  }

  function NextGeneration<K, Route>(records: seq<Record<K, Route>>, timer: TimerId): Option<Generation> {
    match Latest(records, timer)
    case None => Some(0)
    case Some(g) => if g < U64_MAX then Some(g + 1) else None
  }

  datatype Announcement<+K, +Route> = Announcement(participant: K, version: nat, lifetime: nat, replyTo: Route)

  /** The new table, the outcome, and the generation scheduled for expiry, if any. */
  function Announce<K(==), Route>(timer: TimerId, records: seq<Record<K, Route>>, a: Announcement<K, Route>)
    : (seq<Record<K, Route>>, Outcome<K>, Option<Generation>)
  {
    var blocker := Collision(records, a.participant, timer);
    if blocker < |records| then
      var existing := records[blocker].participant;
      (records, Refused(TimerCollision(a.participant, existing, timer, a.version, a.lifetime)), None)
    else
      var i := Known(records, a.participant);
      if i == |records| then
        match NextGeneration(records, timer)
        case None => (records, Refused(GenerationExhausted(a.participant, a.version, a.lifetime)), None)
        case Some(g) =>
          (records + [Record(a.participant, timer, Present(a.version, g, a.lifetime), a.replyTo)],
           Announced(a.participant, a.version, g), Some(g))
      else
        var phase := records[i].phase;
        if a.version < phase.version then
          (records, Refused(Stale(a.participant, a.version, phase.version, a.lifetime)), None)
        else if a.version == phase.version then
          if phase.Present? && phase.lifetime == a.lifetime then
            (records, Unchanged(a.participant, a.version, phase.generation), None)
          else (records, Refused(ConflictingVersion(a.participant, a.version, a.lifetime)), None)
        else
          match NextGeneration(records, timer)
          case None => (records, Refused(GenerationExhausted(a.participant, a.version, a.lifetime)), None)
          case Some(g) =>
            (records[i := records[i].(phase := Present(a.version, g, a.lifetime), notify := a.replyTo)],
             Refreshed(a.participant, a.version, g), Some(g))
  }

  /** Matching timer evidence turns the live record into a tombstone; any other is inert. */
  function Elapse<K, Route>(records: seq<Record<K, Route>>, timer: TimerId, generation: Generation)
    : (seq<Record<K, Route>>, Option<Record<K, Route>>)
  {
    var i := Due(records, timer, generation);
    if i == |records| then (records, None)
    else
      var gone := records[i].(phase := Expired(records[i].phase.version, generation));
      (records[i := gone], Some(gone))
  }

  class PresenceTable<K(==), Route> {
    const timerOf: K -> TimerId
    var records: seq<Record<K, Route>>

    constructor (timerOf: K -> TimerId)
      ensures this.timerOf == timerOf && records == []
    {
      this.timerOf := timerOf;
      records := [];
    }

    method Introduce(
      a: Announcement<K, Route>, timer: TimerId)
      returns (outcome: Outcome<K>, schedule: Option<Generation>)
      requires Collision(records, a.participant, timer) == |records| == Known(records, a.participant)
      modifies this
      ensures (records, outcome, schedule) == Announce(timer, old(records), a)
    {
      var next := NextGeneration(records, timer);
      if next == None {
        return Refused(GenerationExhausted(a.participant, a.version, a.lifetime)), None;
      }
      records := records + [Record(a.participant, timer, Present(a.version, next.value, a.lifetime), a.replyTo)];
      return Announced(a.participant, a.version, next.value), next;
    }

    method Refresh(
      i: nat, a: Announcement<K, Route>, timer: TimerId)
      returns (outcome: Outcome<K>, schedule: Option<Generation>)
      requires Collision(records, a.participant, timer) == |records| && i == Known(records, a.participant) < |records|
      modifies this
      ensures (records, outcome, schedule) == Announce(timer, old(records), a)
    {
      var current := records[i].phase.version;
      if a.version < current {
        return Refused(Stale(a.participant, a.version, current, a.lifetime)), None;
      }
      if a.version == current {
        if records[i].phase.Present? && records[i].phase.lifetime == a.lifetime {
          return Unchanged(a.participant, a.version, records[i].phase.generation), None;
        }
        return Refused(ConflictingVersion(a.participant, a.version, a.lifetime)), None;
      }
      var next := NextGeneration(records, timer);
      if next == None {
        return Refused(GenerationExhausted(a.participant, a.version, a.lifetime)), None;
      }
      records := records[i := records[i].(phase := Present(a.version, next.value, a.lifetime), notify := a.replyTo)];
      return Refreshed(a.participant, a.version, next.value), next;
    }

    method AnnouncePresence(a: Announcement<K, Route>) returns (outcome: Outcome<K>, schedule: Option<Generation>)
      modifies this
      ensures (records, outcome, schedule) == Announce(timerOf(a.participant), old(records), a)
    {
      var timer := timerOf(a.participant);
      var blocker := Collision(records, a.participant, timer);
      if blocker < |records| {
        return Refused(TimerCollision(a.participant, records[blocker].participant, timer, a.version, a.lifetime)), None;
      }
      var i := Known(records, a.participant);
      if i < |records| {
        outcome, schedule := Refresh(i, a, timer);
      } else {
        outcome, schedule := Introduce(a, timer);
      }
    }

    method TimerElapsed(timer: TimerId, generation: Generation) returns (expired: Option<Record<K, Route>>)
      modifies this
      ensures (records, expired) == Elapse(old(records), timer, generation)
    {
      var i := Due(records, timer, generation);
      if i == |records| {
        return None;
      }
      var gone := records[i].(phase := Expired(records[i].phase.version, generation));
      records := records[i := gone];
      return Some(gone);
    }
  }

  // ---------------------------------------------------------------------
  // Every run, with timer facts delayed, duplicated, reordered or invented.

  datatype Event<+K, +Route> = Hear(announcement: Announcement<K, Route>) | Tick(timer: TimerId, generation: Generation)

  /** One scheduled expiry, or one Expired fact: whose, on which key, for which evidence. */
  datatype Fact<+K> = Fact(participant: K, timer: TimerId, version: nat, generation: Generation)

  datatype Table<+K, +Route> = Table(records: seq<Record<K, Route>>, scheduled: seq<Fact<K>>, expired: seq<Fact<K>>)

  function FactOf<K, Route>(r: Record<K, Route>): Fact<K> {
    Fact(r.participant, r.timer, r.phase.version, r.phase.generation)
  }

  function Next<K(==), Route>(timerOf: K -> TimerId, t: Table<K, Route>, e: Event<K, Route>): Table<K, Route> {
    match e
    case Hear(a) =>
      var timer := timerOf(a.participant);
      var (records, _, schedule) := Announce(timer, t.records, a);
      (match schedule
       case None => t.(records := records)
       case Some(g) => t.(records := records, scheduled := t.scheduled + [Fact(a.participant, timer, a.version, g)]))
    case Tick(timer, generation) =>
      var (records, gone) := Elapse(t.records, timer, generation);
      (match gone
       case None => t.(records := records)
       case Some(r) => t.(records := records, expired := t.expired + [FactOf(r)]))
  }

  function After<K(==), Route>(timerOf: K -> TimerId, events: seq<Event<K, Route>>): Table<K, Route> {
    if events == [] then Table([], [], [])
    else Next(timerOf, After(timerOf, events[..|events| - 1]), events[|events| - 1])
  }

  ghost predicate Keyed<K, Route>(timerOf: K -> TimerId, t: Table<K, Route>) {
    && (forall i :: 0 <= i < |t.records| ==> t.records[i].timer == timerOf(t.records[i].participant))
    && (forall i, j :: 0 <= i < j < |t.records| ==> t.records[i].participant != t.records[j].participant)
  }

  /** At most one participant is live on a timer key. */
  ghost predicate OneLive<K, Route>(records: seq<Record<K, Route>>) {
    forall i, j :: 0 <= i < j < |records| && records[i].phase.Present? && records[j].phase.Present? ==>
      records[i].timer != records[j].timer
  }

  /** Scheduled generations strictly increase per timer key. */
  ghost predicate Increasing<K>(facts: seq<Fact<K>>) {
    forall i, j :: 0 <= i < j < |facts| && facts[i].timer == facts[j].timer ==>
      facts[i].generation < facts[j].generation
  }

  /** Some record on this timer key has reached this generation. */
  ghost predicate Covered<K, Route>(records: seq<Record<K, Route>>, timer: TimerId, generation: Generation) {
    exists j :: 0 <= j < |records| && records[j].timer == timer && generation <= records[j].phase.generation
  }

  /** No scheduled generation is beyond the greatest one in the table. */
  ghost predicate Bounded<K, Route>(t: Table<K, Route>) {
    forall i :: 0 <= i < |t.scheduled| ==> Covered(t.records, t.scheduled[i].timer, t.scheduled[i].generation)
  }

  /** What each record says was scheduled. */
  ghost predicate Backed<K, Route>(t: Table<K, Route>) {
    forall j :: 0 <= j < |t.records| ==> FactOf(t.records[j]) in t.scheduled
  }

  /** Each Expired fact was scheduled. */
  ghost predicate ExpiredScheduled<K, Route>(t: Table<K, Route>) {
    forall i :: 0 <= i < |t.expired| ==> t.expired[i] in t.scheduled
  }

  /** No two Expired facts answer one timer request. */
  ghost predicate ExpiredOnce<K>(expired: seq<Fact<K>>) {
    forall i, j :: 0 <= i < j < |expired| ==>
      expired[i].timer != expired[j].timer || expired[i].generation != expired[j].generation
  }

  /** No live record carries this generation. */
  ghost predicate Gone<K, Route>(records: seq<Record<K, Route>>, timer: TimerId, generation: Generation) {
    forall j :: 0 <= j < |records| && records[j].phase.Present? && records[j].timer == timer ==>
      records[j].phase.generation != generation
  }

  ghost predicate ExpiredGone<K, Route>(t: Table<K, Route>) {
    forall i :: 0 <= i < |t.expired| ==> Gone(t.records, t.expired[i].timer, t.expired[i].generation)
  }

  ghost predicate Kept<K, Route>(timerOf: K -> TimerId, t: Table<K, Route>) {
    && Keyed(timerOf, t) && OneLive(t.records)
    && Increasing(t.scheduled) && Bounded(t) && Backed(t)
    && ExpiredScheduled(t) && ExpiredOnce(t.expired) && ExpiredGone(t)
  }

  /** Records stay in first-observation order on their keys; versions and generations never decrease. */
  ghost predicate Grown<K, Route>(before: seq<Record<K, Route>>, now: seq<Record<K, Route>>) {
    && |before| <= |now|
    && forall i :: 0 <= i < |before| ==>
         && now[i].participant == before[i].participant && now[i].timer == before[i].timer
         && before[i].phase.version <= now[i].phase.version
         && before[i].phase.generation <= now[i].phase.generation
  }

  lemma {:induction false} BoundedGrown<K, Route>(t: Table<K, Route>, records: seq<Record<K, Route>>)
    requires Bounded(t) && Grown(t.records, records)
    ensures Bounded(t.(records := records))
  {
    forall i | 0 <= i < |t.scheduled| ensures Covered(records, t.scheduled[i].timer, t.scheduled[i].generation) {
      var fact := t.scheduled[i];
      assert Covered(t.records, fact.timer, fact.generation);
      var j :| && 0 <= j < |t.records| && t.records[j].timer == fact.timer
               && fact.generation <= t.records[j].phase.generation;
      assert records[j].timer == fact.timer && fact.generation <= records[j].phase.generation;
    }
  }

  function Put<T>(s: seq<T>, i: nat, x: T): (r: seq<T>)
    requires i <= |s|
    ensures i < |r| && r[i] == x && |s| <= |r|
    ensures forall j :: 0 <= j < |s| && j != i ==> r[j] == s[j]
  {
    if i == |s| then s + [x] else s[i := x]
  }

  /** Every generation on this key is below `generation`. */
  ghost predicate Below<K, Route>(records: seq<Record<K, Route>>, timer: TimerId, generation: Generation) {
    forall j :: 0 <= j < |records| && records[j].timer == timer ==> records[j].phase.generation < generation
  }

  /** No other record is live on this key. */
  ghost predicate Vacant<K, Route>(records: seq<Record<K, Route>>, i: nat, timer: TimerId) {
    forall j :: 0 <= j < |records| && j != i && records[j].timer == timer ==> !records[j].phase.Present?
  }

  /** `r` may be written at `i`: its participant's place, a newer version, a generation beyond the whole table. */
  ghost predicate Writes<K, Route>(timerOf: K -> TimerId, records: seq<Record<K, Route>>, i: nat, r: Record<K, Route>) {
    && i <= |records| && r.phase.Present? && r.timer == timerOf(r.participant)
    && (forall j :: 0 <= j < |records| && j != i ==> records[j].participant != r.participant)
    && (i < |records| ==> records[i].participant == r.participant && records[i].phase.version < r.phase.version)
    && Below(records, r.timer, r.phase.generation) && Vacant(records, i, r.timer)
  }

  function Commit<K, Route>(t: Table<K, Route>, i: nat, r: Record<K, Route>): Table<K, Route>
    requires i <= |t.records|
  {
    Table(Put(t.records, i, r), t.scheduled + [FactOf(r)], t.expired)
  }

  /** An announcement either changes nothing or commits one such record and its schedule. */
  lemma {:induction false} AnnounceCommits<K, Route>(
    timerOf: K -> TimerId, t: Table<K, Route>, a: Announcement<K, Route>)
    returns (i: nat, r: Record<K, Route>)
    requires Keyed(timerOf, t)
    ensures Next(timerOf, t, Hear(a)) == t
            || (Writes(timerOf, t.records, i, r) && Next(timerOf, t, Hear(a)) == Commit(t, i, r))
  {
    var timer := timerOf(a.participant);
    i := Known(t.records, a.participant);
    var g := NextGeneration(t.records, timer);
    r := Record(a.participant, timer, Present(a.version, if g.Some? then g.value else 0, a.lifetime), a.replyTo);
    if g.Some? && Next(timerOf, t, Hear(a)) != t {
      assert Below(t.records, timer, g.value);
      assert Vacant(t.records, i, timer);
    }
  }

  lemma {:induction false} CommitKeyed<K, Route>(timerOf: K -> TimerId, t: Table<K, Route>, i: nat, r: Record<K, Route>)
    requires Keyed(timerOf, t) && Writes(timerOf, t.records, i, r)
    ensures Keyed(timerOf, Commit(t, i, r)) && Grown(t.records, Commit(t, i, r).records)
  {}

  lemma {:induction false} CommitOneLive<K, Route>(
    timerOf: K -> TimerId, t: Table<K, Route>, i: nat, r: Record<K, Route>)
    requires OneLive(t.records) && Writes(timerOf, t.records, i, r)
    ensures OneLive(Commit(t, i, r).records)
  {}

  lemma {:induction false} CommitIncreasing<K, Route>(t: Table<K, Route>, r: Record<K, Route>)
    requires Increasing(t.scheduled) && Bounded(t) && Below(t.records, r.timer, r.phase.generation)
    ensures Increasing(t.scheduled + [FactOf(r)])
  {
    forall k | 0 <= k < |t.scheduled| && t.scheduled[k].timer == r.timer
      ensures t.scheduled[k].generation < r.phase.generation
    {
      assert Covered(t.records, t.scheduled[k].timer, t.scheduled[k].generation);
    }
  }

  lemma {:induction false} CommitBounded<K, Route>(t: Table<K, Route>, i: nat, r: Record<K, Route>)
    requires i <= |t.records| && Bounded(t) && Grown(t.records, Commit(t, i, r).records)
    ensures Bounded(Commit(t, i, r))
  {
    var records := Commit(t, i, r).records;
    BoundedGrown(t, records);
    assert Covered(records, r.timer, r.phase.generation) by {
      assert records[i] == r;
    }
  }

  lemma {:induction false} CommitBacked<K, Route>(t: Table<K, Route>, i: nat, r: Record<K, Route>)
    requires i <= |t.records| && Backed(t)
    ensures Backed(Commit(t, i, r))
  {
    var u := Commit(t, i, r);
    forall j | 0 <= j < |u.records| ensures FactOf(u.records[j]) in u.scheduled {
      if j == i { assert u.scheduled[|t.scheduled|] == FactOf(r); } else { assert u.records[j] == t.records[j]; }
    }
  }

  lemma {:induction false} CommitGone<K, Route>(t: Table<K, Route>, i: nat, r: Record<K, Route>)
    requires i <= |t.records| && Below(t.records, r.timer, r.phase.generation)
    requires Bounded(t) && ExpiredScheduled(t) && ExpiredGone(t)
    ensures ExpiredGone(Commit(t, i, r))
  {
    var u := Commit(t, i, r);
    forall k | 0 <= k < |t.expired| ensures Gone(u.records, t.expired[k].timer, t.expired[k].generation) {
      assert Gone(t.records, t.expired[k].timer, t.expired[k].generation);
      var s :| 0 <= s < |t.scheduled| && t.scheduled[s] == t.expired[k];
      assert Covered(t.records, t.scheduled[s].timer, t.scheduled[s].generation);
    }
  }

  lemma {:induction false} KeptHear<K, Route>(timerOf: K -> TimerId, t: Table<K, Route>, a: Announcement<K, Route>)
    requires Kept(timerOf, t)
    ensures Kept(timerOf, Next(timerOf, t, Hear(a))) && Grown(t.records, Next(timerOf, t, Hear(a)).records)
  {
    var i, r := AnnounceCommits(timerOf, t, a);
    if Next(timerOf, t, Hear(a)) != t {
      KeptCommit(timerOf, t, i, r);
    }
  }

  lemma {:induction false} KeptCommit<K, Route>(timerOf: K -> TimerId, t: Table<K, Route>, i: nat, r: Record<K, Route>)
    requires Kept(timerOf, t) && Writes(timerOf, t.records, i, r)
    ensures Kept(timerOf, Commit(t, i, r)) && Grown(t.records, Commit(t, i, r).records)
  {
    CommitKeyed(timerOf, t, i, r);
    CommitOneLive(timerOf, t, i, r);
    CommitIncreasing(t, r);
    CommitBounded(t, i, r);
    CommitBacked(t, i, r);
    CommitGone(t, i, r);
  }

  /** The table after the live record at `i` expired. */
  function Expire<K, Route>(t: Table<K, Route>, i: nat): Table<K, Route>
    requires i < |t.records| && t.records[i].phase.Present?
  {
    var r := t.records[i].(phase := Expired(t.records[i].phase.version, t.records[i].phase.generation));
    t.(records := t.records[i := r], expired := t.expired + [FactOf(r)])
  }

  lemma {:induction false} ExpireGrown<K, Route>(timerOf: K -> TimerId, t: Table<K, Route>, i: nat)
    requires Keyed(timerOf, t) && OneLive(t.records) && i < |t.records| && t.records[i].phase.Present?
    ensures var u := Expire(t, i); Keyed(timerOf, u) && OneLive(u.records) && Grown(t.records, u.records)
  {}

  lemma {:induction false} ExpireBacked<K, Route>(t: Table<K, Route>, i: nat)
    requires Backed(t) && ExpiredScheduled(t) && i < |t.records| && t.records[i].phase.Present?
    ensures Backed(Expire(t, i)) && ExpiredScheduled(Expire(t, i))
  {
    var u := Expire(t, i);
    forall j | 0 <= j < |u.records| ensures FactOf(u.records[j]) in u.scheduled {
      assert FactOf(u.records[j]) == FactOf(t.records[j]);
    }
  }

  lemma {:induction false} ExpireOnce<K, Route>(t: Table<K, Route>, i: nat)
    requires OneLive(t.records) && ExpiredOnce(t.expired) && ExpiredGone(t)
    requires i < |t.records| && t.records[i].phase.Present?
    ensures ExpiredOnce(Expire(t, i).expired) && ExpiredGone(Expire(t, i))
  {
    var u, r := Expire(t, i), t.records[i];
    forall k | 0 <= k < |t.expired|
      ensures Gone(u.records, t.expired[k].timer, t.expired[k].generation)
      ensures t.expired[k].timer != r.timer || t.expired[k].generation != r.phase.generation
    {
      assert Gone(t.records, t.expired[k].timer, t.expired[k].generation);
    }
    assert Gone(u.records, r.timer, r.phase.generation);
  }

  lemma {:induction false} KeptExpire<K, Route>(timerOf: K -> TimerId, t: Table<K, Route>, i: nat)
    requires Kept(timerOf, t) && i < |t.records| && t.records[i].phase.Present?
    ensures Kept(timerOf, Expire(t, i)) && Grown(t.records, Expire(t, i).records)
  {
    ExpireGrown(timerOf, t, i);
    BoundedGrown(t, Expire(t, i).records);
    ExpireBacked(t, i);
    ExpireOnce(t, i);
  }

  lemma {:induction false} KeptTick<K, Route>(
    timerOf: K -> TimerId, t: Table<K, Route>, timer: TimerId, generation: Generation)
    requires Kept(timerOf, t)
    ensures var u := Next(timerOf, t, Tick(timer, generation)); Kept(timerOf, u) && Grown(t.records, u.records)
  {
    var i := Due(t.records, timer, generation);
    if i < |t.records| {
      KeptExpire(timerOf, t, i);
    }
  }

  lemma {:induction false} KeptNext<K, Route>(timerOf: K -> TimerId, t: Table<K, Route>, e: Event<K, Route>)
    requires Kept(timerOf, t)
    ensures Kept(timerOf, Next(timerOf, t, e)) && Grown(t.records, Next(timerOf, t, e).records)
  {
    match e
    case Hear(a) => KeptHear(timerOf, t, a);
    case Tick(timer, generation) => KeptTick(timerOf, t, timer, generation);
  }

  lemma {:induction false} KeptAlways<K, Route>(timerOf: K -> TimerId, events: seq<Event<K, Route>>)
    ensures Kept(timerOf, After(timerOf, events))
  {
    if events != [] {
      KeptAlways(timerOf, events[..|events| - 1]);
      KeptNext(timerOf, After(timerOf, events[..|events| - 1]), events[|events| - 1]);
    }
  }

  /**
   * Every run: generations scheduled on one timer key strictly increase, across participants and
   * tombstones; one participant is live per key; every Expired fact is exactly one scheduled
   * expiry, of the participant and evidence that scheduled it, and no expiry is reported twice.
   */
  lemma {:induction false} GenerationSafety<K, Route>(timerOf: K -> TimerId, events: seq<Event<K, Route>>)
    ensures var t := After(timerOf, events);
            && Increasing(t.scheduled) && OneLive(t.records)
            && (forall k :: 0 <= k < |t.expired| ==> t.expired[k] in t.scheduled)
            && (forall k, l :: 0 <= k < l < |t.expired| ==> t.expired[k] != t.expired[l])
            && (forall k, s :: 0 <= k < |t.expired| && 0 <= s < |t.scheduled|
                  && t.scheduled[s].timer == t.expired[k].timer && t.scheduled[s].generation == t.expired[k].generation
                  ==> t.scheduled[s] == t.expired[k])
  {
    KeptAlways(timerOf, events);
    var t := After(timerOf, events);
    forall k, s | 0 <= k < |t.expired| && 0 <= s < |t.scheduled|
                  && t.scheduled[s].timer == t.expired[k].timer && t.scheduled[s].generation == t.expired[k].generation
      ensures t.scheduled[s] == t.expired[k]
    {
      var r :| 0 <= r < |t.scheduled| && t.scheduled[r] == t.expired[k];
      assert r == s;
    }
  }

  /** Between any two moments of a run no record disappears, moves, or falls back in version or generation. */
  lemma {:induction false} VersionsNeverDecrease<K, Route>(timerOf: K -> TimerId, events: seq<Event<K, Route>>, n: nat)
    requires n <= |events|
    ensures Grown(After(timerOf, events[..n]).records, After(timerOf, events).records)
  {
    if n == |events| {
      assert events[..n] == events;
    } else {
      var m := |events| - 1;
      VersionsNeverDecrease(timerOf, events[..m], n);
      assert events[..m][..n] == events[..n];
      KeptAlways(timerOf, events[..m]);
      KeptNext(timerOf, After(timerOf, events[..m]), events[m]);
    }
  }
}

/** The verdict on a mutation campaign: tallies, the emitted baseline, and the check against it. */
module MutationGate {
  import opened Base
  import opened OrderedKeys

  datatype Summary = Success | CaughtMutant | MissedMutant | Unviable | Timeout | Failure

  datatype Mutant = Mutant(name: string, file: string, inFunction: Option<string>)

  datatype Scenario = Unmutated | Mutated(mutant: Mutant)

  /** What looking up an outcome's log finds. */
  datatype Log = NoPath | InvalidPath | Unreadable | Lines(timedOut: bool, failed: bool)

  datatype Outcome = Outcome(summary: Summary, scenario: Scenario, log: Log)

  datatype Tally = Tally(total: nat, viable: nat, missed: nat, timeout: nat)

  datatype Baseline = Baseline(floors: map<string, nat>, knownZero: seq<string>)

  datatype Finding =
    | DuplicateKnownZero
    | Conflicting(key: string)
    | StaleKnownZero(key: string)
    | ZeroFloor(key: string)
    | StaleFloor(key: string)
    | Survivors(key: string, count: nat)
    | Timeouts(key: string, count: nat)
    | Collapsed(key: string, viable: nat, floor: nat)
    | Unaccounted(key: string)

  datatype Error =
    | NoCleanBaseline
    | NoMutants
    | DuplicateCandidate(name: string)
    | UnknownOutcome(name: string)
    | IdentityMismatch(name: string)
    | DuplicateOutcome(name: string)
    | MissingOutcome(name: string)
    | InvalidOutcome(name: string)
    | CaughtBaseline
    | MissingLog(name: string)
    | InvalidLogPath(name: string)
    | UnreadableLog(name: string)
    | TestTimedOut(name: string)
    | NoFailingTest(name: string)
    | Failing(findings: seq<Finding>)

  function Key(m: Mutant): string {
    m.file + "::" + if m.inFunction.Some? then m.inFunction.value else "<module>"
  }

  /** The function a mutant is in, or the whole module. */
  function Label(m: Mutant): string {
    if m.inFunction.Some? then m.inFunction.value else "<module>"
  }

  lemma {:induction false} KeySplits(m: Mutant)
    ensures |Key(m)| == |m.file| + 2 + |Label(m)| && Key(m)[..|m.file|] == m.file && Key(m)[|m.file| + 2..] == Label(m)
    ensures Key(m)[|m.file|] == ':' && Key(m)[|m.file| + 1] == ':'
  {}

  /** Where file names hold no colon, mutants share a key exactly when they share file and function. */
  lemma {:induction false} KeySeparates(m: Mutant, n: Mutant)
    requires ':' !in m.file && ':' !in n.file
    ensures Key(m) == Key(n) <==> m.file == n.file && Label(m) == Label(n)
  {
    KeySplits(m);
    KeySplits(n);
    forall i | 0 <= i < |m.file| ensures Key(m)[i] != ':' {
      assert Key(m)[..|m.file|][i] == m.file[i];
    }
    forall i | 0 <= i < |n.file| ensures Key(n)[i] != ':' {
      assert Key(n)[..|n.file|][i] == n.file[i];
    }
  }

  /** A file name with a colon pair can collide with another file's function. */
  lemma {:induction false} KeysCanCollide()
    ensures Key(Mutant("x", "a::b", Some("c"))) == Key(Mutant("y", "a", Some("b::c")))
  {
    assert Key(Mutant("x", "a::b", Some("c"))) == "a::b::c" == Key(Mutant("y", "a", Some("b::c")));
  }

  // ---------------------------------------------------------------------
  // Tallies.

  datatype Measure = Total | Viable | Missed | TimedOut

  predicate Counts(m: Measure, o: Outcome) {
    && o.scenario.Mutated?
    && match m
       case Total => true
       case Viable => o.summary.CaughtMutant? || o.summary.MissedMutant? || o.summary.Timeout?
       case Missed => o.summary.MissedMutant?
       case TimedOut => o.summary.Timeout?
  }

  /** How many mutant outcomes with a key in `keys` the measure counts. */
  function Count(outcomes: seq<Outcome>, m: Measure, keys: set<string>): nat {
    if outcomes == [] then 0
    else
      var o := outcomes[|outcomes| - 1];
      Count(outcomes[..|outcomes| - 1], m, keys) + if Counts(m, o) && Key(o.scenario.mutant) in keys then 1 else 0
  }

  function TallyOf(outcomes: seq<Outcome>, key: string): Tally {
    Tally(Count(outcomes, Total, {key}), Count(outcomes, Viable, {key}),
          Count(outcomes, Missed, {key}), Count(outcomes, TimedOut, {key}))
  }

  predicate Invalid(o: Outcome) {
    o.scenario.Mutated? && (o.summary.Success? || o.summary.Failure?)
  }

  ghost predicate AllValid(outcomes: seq<Outcome>) {
    forall i :: 0 <= i < |outcomes| ==> !Invalid(outcomes[i])
  }

  /** What a mutant is called and where it is counted. */
  datatype Identity = Identity(name: string, key: string)

  function IdentityOf(m: Mutant): Identity {
    Identity(m.name, Key(m))
  }

  /** The mutants of the outcomes, in order. */
  function MutantsOf(outcomes: seq<Outcome>): (ids: seq<Identity>) {
    if outcomes == [] then []
    else
      var o := outcomes[|outcomes| - 1];
      var earlier := MutantsOf(outcomes[..|outcomes| - 1]);
      if o.scenario.Mutated? then earlier + [IdentityOf(o.scenario.mutant)] else earlier
  }

  function CandidatesOf(candidates: seq<Mutant>): (ids: seq<Identity>)
    ensures |ids| == |candidates|
    ensures forall i :: 0 <= i < |ids| ==> ids[i] == IdentityOf(candidates[i])
  {
    if candidates == [] then []
    else CandidatesOf(candidates[..|candidates| - 1]) + [IdentityOf(candidates[|candidates| - 1])]
  }

  function KeysOf(ids: seq<Identity>): (keys: set<string>)
    ensures forall i :: 0 <= i < |ids| ==> ids[i].key in keys
    ensures forall k :: k in keys ==> exists i :: 0 <= i < |ids| && ids[i].key == k
  {
    set i | 0 <= i < |ids| :: ids[i].key
  }

  function NamesOf(ids: seq<Identity>): (names: set<string>)
    ensures forall i :: 0 <= i < |ids| ==> ids[i].name in names
    ensures forall n :: n in names ==> exists i :: 0 <= i < |ids| && ids[i].name == n
  {
    set i | 0 <= i < |ids| :: ids[i].name
  }

  ghost predicate DistinctNames(ids: seq<Identity>) {
    forall i, j :: 0 <= i < j < |ids| ==> ids[i].name != ids[j].name
  }

  function Tallies(outcomes: seq<Outcome>): map<string, Tally> {
    map k | k in KeysOf(MutantsOf(outcomes)) :: TallyOf(outcomes, k)
  }

  /** What one more valid mutant outcome adds to its key's tally. */
  function Add(t: Tally, s: Summary): Tally {
    match s
    case CaughtMutant => t.(total := t.total + 1, viable := t.viable + 1)
    case MissedMutant => t.(total := t.total + 1, viable := t.viable + 1, missed := t.missed + 1)
    case Timeout => t.(total := t.total + 1, viable := t.viable + 1, timeout := t.timeout + 1)
    case _ => t.(total := t.total + 1)
  }

  lemma {:induction false} KeysOfAppend(ids: seq<Identity>, id: Identity)
    ensures KeysOf(ids + [id]) == KeysOf(ids) + {id.key}
  {
    forall k ensures k in KeysOf(ids + [id]) <==> k in KeysOf(ids) + {id.key} {
      if i :| 0 <= i < |ids| && ids[i].key == k { assert (ids + [id])[i].key == k; }
      assert (ids + [id])[|ids|].key == id.key;
    }
  }

  lemma {:induction false} NamesOfAppend(ids: seq<Identity>, id: Identity)
    ensures NamesOf(ids + [id]) == NamesOf(ids) + {id.name}
  {
    forall k ensures k in NamesOf(ids + [id]) <==> k in NamesOf(ids) + {id.name} {
      if i :| 0 <= i < |ids| && ids[i].name == k { assert (ids + [id])[i].name == k; }
      assert (ids + [id])[|ids|].name == id.name;
    }
  }

  lemma {:induction false} AbsentCountsZero(outcomes: seq<Outcome>, m: Measure, key: string)
    requires key !in KeysOf(MutantsOf(outcomes))
    ensures Count(outcomes, m, {key}) == 0
  {
    if outcomes != [] {
      var n := |outcomes| - 1;
      if outcomes[n].scenario.Mutated? {
        KeysOfAppend(MutantsOf(outcomes[..n]), IdentityOf(outcomes[n].scenario.mutant));
      }
      AbsentCountsZero(outcomes[..n], m, key);
    }
  }

  lemma {:induction false} TallyAppend(outcomes: seq<Outcome>, o: Outcome, key: string)
    requires !Invalid(o)
    ensures TallyOf(outcomes + [o], key)
            == if o.scenario.Mutated? && Key(o.scenario.mutant) == key then Add(TallyOf(outcomes, key), o.summary)
               else TallyOf(outcomes, key)
  {
    assert (outcomes + [o])[..|outcomes|] == outcomes;
  }

  lemma {:induction false} TallyAbsent(outcomes: seq<Outcome>, key: string)
    requires key !in KeysOf(MutantsOf(outcomes))
    ensures TallyOf(outcomes, key) == Tally(0, 0, 0, 0)
  {
    AbsentCountsZero(outcomes, Total, key);
    AbsentCountsZero(outcomes, Viable, key);
    AbsentCountsZero(outcomes, Missed, key);
    AbsentCountsZero(outcomes, TimedOut, key);
  }

  lemma {:induction false} MutantsAppend(outcomes: seq<Outcome>, o: Outcome)
    ensures MutantsOf(outcomes + [o])
            == if o.scenario.Mutated? then MutantsOf(outcomes) + [IdentityOf(o.scenario.mutant)]
               else MutantsOf(outcomes)
  {
    assert (outcomes + [o])[..|outcomes|] == outcomes;
  }

  lemma {:induction false} AddKeys(outcomes: seq<Outcome>, o: Outcome)
    requires o.scenario.Mutated?
    ensures KeysOf(MutantsOf(outcomes + [o])) == KeysOf(MutantsOf(outcomes)) + {Key(o.scenario.mutant)}
  {
    MutantsAppend(outcomes, o);
    KeysOfAppend(MutantsOf(outcomes), IdentityOf(o.scenario.mutant));
  }

  lemma {:induction false} AddTallies(outcomes: seq<Outcome>, o: Outcome)
    requires o.scenario.Mutated? && !Invalid(o)
    ensures Tallies(outcomes + [o])
            == Tallies(outcomes)[Key(o.scenario.mutant) := Add(TallyOf(outcomes, Key(o.scenario.mutant)), o.summary)]
  {
    var key, more := Key(o.scenario.mutant), Tallies(outcomes + [o]);
    var added := Tallies(outcomes)[key := Add(TallyOf(outcomes, key), o.summary)];
    AddKeys(outcomes, o);
    assert more.Keys == added.Keys;
    forall k | k in more ensures more[k] == added[k] {
      TallyAppend(outcomes, o, k);
    }
  }

  lemma {:induction false} SkipTallies(outcomes: seq<Outcome>, o: Outcome)
    requires o.scenario.Unmutated?
    ensures Tallies(outcomes + [o]) == Tallies(outcomes)
  {
    MutantsAppend(outcomes, o);
    forall k ensures TallyOf(outcomes + [o], k) == TallyOf(outcomes, k) {
      TallyAppend(outcomes, o, k);
    }
  }

  /** Tallies every mutant outcome under its key, unless one has an impossible summary. */
  method ComputeTallies(outcomes: seq<Outcome>) returns (r: Result<map<string, Tally>, Error>)
    ensures r.Ok? <==> AllValid(outcomes)
    ensures r.Ok? ==> r.value == Tallies(outcomes)
    ensures r.Err? ==> r.error.InvalidOutcome? && exists i :: FirstInvalid(outcomes, i, r.error.name)
  {
    var result: map<string, Tally> := map[];
    for i := 0 to |outcomes|
      invariant AllValid(outcomes[..i])
      invariant result == Tallies(outcomes[..i])
    {
      var o := outcomes[i];
      assert outcomes[..i + 1] == outcomes[..i] + [o];
      if o.scenario.Unmutated? {
        SkipTallies(outcomes[..i], o);
      } else if o.summary.Success? || o.summary.Failure? {
        assert FirstInvalid(outcomes, i, o.scenario.mutant.name);
        return Err(InvalidOutcome(o.scenario.mutant.name));
      } else {
        AddTallies(outcomes[..i], o);
        var key := Key(o.scenario.mutant);
        if key !in result {
          TallyAbsent(outcomes[..i], key);
        }
        var tally := if key in result then result[key] else Tally(0, 0, 0, 0);
        result := result[key := Add(tally, o.summary)];
      }
    }
    assert outcomes[..|outcomes|] == outcomes;
    return Ok(result);
  }

  // ---------------------------------------------------------------------
  // A campaign whose outcomes answer its candidates.

  function Baselines(outcomes: seq<Outcome>): seq<Outcome> {
    if outcomes == [] then []
    else
      var earlier := Baselines(outcomes[..|outcomes| - 1]);
      var o := outcomes[|outcomes| - 1];
      if o.scenario.Unmutated? then earlier + [o] else earlier
  }

  predicate CleanBaseline(outcomes: seq<Outcome>) {
    var baselines := Baselines(outcomes);
    |baselines| == 1 && baselines[0].summary == Success
  }

  /** The outcome at `i` is the only unmutated one, and it succeeded. */
  ghost predicate OnlyBaseline(outcomes: seq<Outcome>, i: nat) {
    && i < |outcomes| && outcomes[i].scenario.Unmutated? && outcomes[i].summary == Success
    && forall j :: 0 <= j < |outcomes| && j != i ==> outcomes[j].scenario.Mutated?
  }

  lemma {:induction false} NoBaselines(outcomes: seq<Outcome>)
    ensures Baselines(outcomes) == [] <==> forall j :: 0 <= j < |outcomes| ==> outcomes[j].scenario.Mutated?
  {
    if outcomes != [] {
      NoBaselines(outcomes[..|outcomes| - 1]);
    }
  }

  /** The baseline is clean exactly when one outcome is unmutated and that one succeeded. */
  lemma {:induction false} CleanExactly(outcomes: seq<Outcome>)
    ensures CleanBaseline(outcomes) <==> exists i: nat :: OnlyBaseline(outcomes, i)
  {
    if outcomes != [] {
      var n := |outcomes| - 1;
      var earlier := outcomes[..n];
      CleanExactly(earlier);
      NoBaselines(earlier);
      if outcomes[n].scenario.Unmutated? {
        if CleanBaseline(outcomes) { assert OnlyBaseline(outcomes, n); }
        if i: nat :| OnlyBaseline(outcomes, i) {
          assert i == n;
          assert forall j :: 0 <= j < n ==> earlier[j] == outcomes[j];
        }
      } else {
        if i: nat :| OnlyBaseline(earlier, i) { assert OnlyBaseline(outcomes, i); }
        if i: nat :| OnlyBaseline(outcomes, i) { assert OnlyBaseline(earlier, i); }
      }
    }
  }

  /** Exactly one clean baseline, and outcomes that answer the candidates one for one. */
  ghost predicate Campaign(outcomes: seq<Outcome>, candidates: seq<Mutant>) {
    var mutants, ids := MutantsOf(outcomes), CandidatesOf(candidates);
    && CleanBaseline(outcomes) && candidates != []
    && DistinctNames(ids) && DistinctNames(mutants)
    && (forall m :: m in mutants ==> m in ids)
    && (forall n :: n in NamesOf(ids) ==> n in NamesOf(mutants))
    && AllValid(outcomes)
  }

  /** So far: distinct names, all recorded, each mutant one of the candidates. */
  ghost predicate Answers(mutants: seq<Identity>, ids: seq<Identity>, observed: set<string>) {
    DistinctNames(mutants) && observed == NamesOf(mutants) && forall m :: m in mutants ==> m in ids
  }

  /** What is wrong with one more mutant outcome after those in `before`, if anything. */
  function OutcomeDefect(ids: seq<Identity>, before: seq<Identity>, id: Identity): Option<Error> {
    if id.name !in NamesOf(ids) then Some(UnknownOutcome(id.name))
    else if id !in ids then Some(IdentityMismatch(id.name))
    else if id.name in NamesOf(before) then Some(DuplicateOutcome(id.name))
    else None
  }

  /** The candidate at `i` is the first to repeat a name. */
  ghost predicate FirstRepeat(ids: seq<Identity>, i: nat, name: string) {
    i < |ids| && DistinctNames(ids[..i]) && ids[i].name == name && name in NamesOf(ids[..i])
  }

  /** The outcome at `i` is the first that does not answer a candidate, and this is why. */
  ghost predicate FirstBad(outcomes: seq<Outcome>, ids: seq<Identity>, i: nat, e: Error) {
    && i < |outcomes| && outcomes[i].scenario.Mutated?
    && var before := MutantsOf(outcomes[..i]);
       && Answers(before, ids, NamesOf(before))
       && OutcomeDefect(ids, before, IdentityOf(outcomes[i].scenario.mutant)) == Some(e)
  }

  /** The least candidate name, in key order, without an outcome. */
  ghost predicate FirstMissing(ids: seq<Identity>, mutants: seq<Identity>, name: string) {
    && name in NamesOf(ids) && name !in NamesOf(mutants)
    && forall n :: n in NamesOf(ids) && Less(n, name) ==> n in NamesOf(mutants)
  }

  ghost predicate FirstInvalid(outcomes: seq<Outcome>, i: nat, name: string) {
    i < |outcomes| && Invalid(outcomes[i]) && AllValid(outcomes[..i]) && outcomes[i].scenario.mutant.name == name
  }

  /** The error is the first defect met: baseline, candidates, each outcome in turn, coverage, then summaries. */
  ghost predicate FirstDefect(outcomes: seq<Outcome>, candidates: seq<Mutant>, e: Error) {
    var mutants, ids := MutantsOf(outcomes), CandidatesOf(candidates);
    var answered := Answers(mutants, ids, NamesOf(mutants));
    match e
    case NoCleanBaseline => !CleanBaseline(outcomes)
    case NoMutants => CleanBaseline(outcomes) && candidates == []
    case DuplicateCandidate(name) => CleanBaseline(outcomes) && exists i :: FirstRepeat(ids, i, name)
    case UnknownOutcome(_) | IdentityMismatch(_) | DuplicateOutcome(_) =>
      CleanBaseline(outcomes) && DistinctNames(ids) && exists i :: FirstBad(outcomes, ids, i, e)
    case MissingOutcome(name) =>
      CleanBaseline(outcomes) && DistinctNames(ids) && answered && FirstMissing(ids, mutants, name)
    case InvalidOutcome(name) =>
      && CleanBaseline(outcomes) && DistinctNames(ids) && answered && NamesOf(ids) <= NamesOf(mutants)
      && exists i :: FirstInvalid(outcomes, i, name)
    case _ => false
  }

  lemma {:induction false} BadIsNoCampaign(outcomes: seq<Outcome>, candidates: seq<Mutant>, i: nat, e: Error)
    requires FirstBad(outcomes, CandidatesOf(candidates), i, e)
    ensures !Campaign(outcomes, candidates)
  {
    var id := IdentityOf(outcomes[i].scenario.mutant);
    var before, all, ids := MutantsOf(outcomes[..i]), MutantsOf(outcomes), CandidatesOf(candidates);
    MutantsPrefix(outcomes, i);
    if id in ids {
      var k :| 0 <= k < |ids| && ids[k] == id;
      assert id.name in NamesOf(ids);
      var j :| 0 <= j < |before| && before[j].name == id.name;
      assert all[j] == (before + [id])[j] && all[|before|] == (before + [id])[|before|];
    }
  }

  /** A reported defect rules a campaign out. */
  lemma {:induction false} DefectRefutesCampaign(outcomes: seq<Outcome>, candidates: seq<Mutant>, e: Error)
    requires FirstDefect(outcomes, candidates, e)
    ensures !Campaign(outcomes, candidates)
  {
    var ids := CandidatesOf(candidates);
    if e.DuplicateCandidate? {
      var i: nat :| FirstRepeat(ids, i, e.name);
      var j :| 0 <= j < i && ids[..i][j].name == e.name;
      assert ids[j].name == ids[i].name;
    } else if e.UnknownOutcome? || e.IdentityMismatch? || e.DuplicateOutcome? {
      var i :| FirstBad(outcomes, ids, i, e);
      BadIsNoCampaign(outcomes, candidates, i, e);
    }
  }

  /** `table` maps exactly these names, each to its key. */
  ghost predicate Indexes(table: map<string, string>, ids: seq<Identity>) {
    && (forall i :: 0 <= i < |ids| ==> ids[i].name in table && table[ids[i].name] == ids[i].key)
    && (forall n :: n in table ==> Identity(n, table[n]) in ids)
  }

  lemma {:induction false} IndexOneMore(table: map<string, string>, ids: seq<Identity>, id: Identity)
    requires DistinctNames(ids) && Indexes(table, ids) && id.name !in table
    ensures DistinctNames(ids + [id]) && Indexes(table[id.name := id.key], ids + [id])
  {
    var more := ids + [id];
    forall n | n in table ensures Identity(n, table[n]) in more {
      assert Identity(n, table[n]) in ids;
    }
    assert more[|ids|] == id;
  }

  lemma {:induction false} IndexedNames(table: map<string, string>, ids: seq<Identity>, name: string)
    requires Indexes(table, ids)
    ensures name in table <==> name in NamesOf(ids)
  {
    if name in table {
      var k :| 0 <= k < |ids| && ids[k] == Identity(name, table[name]);
      assert ids[k].name in NamesOf(ids);
    }
  }

  method IndexCandidates(candidates: seq<Mutant>) returns (r: Result<map<string, string>, Error>)
    ensures r.Ok? ==> DistinctNames(CandidatesOf(candidates)) && Indexes(r.value, CandidatesOf(candidates))
    ensures r.Err? ==> r.error.DuplicateCandidate? && exists i :: FirstRepeat(CandidatesOf(candidates), i, r.error.name)
  {
    ghost var ids := CandidatesOf(candidates);
    var expected: map<string, string> := map[];
    for i := 0 to |candidates|
      invariant DistinctNames(ids[..i]) && Indexes(expected, ids[..i])
    {
      var name := candidates[i].name;
      if name in expected {
        IndexedNames(expected, ids[..i], name);
        assert FirstRepeat(ids, i, name);
        return Err(DuplicateCandidate(name));
      }
      IndexOneMore(expected, ids[..i], ids[i]);
      assert ids[..i + 1] == ids[..i] + [ids[i]];
      expected := expected[name := Key(candidates[i])];
    }
    assert ids[..|candidates|] == ids;
    return Ok(expected);
  }

  lemma {:induction false} AnswersOneMore(
    mutants: seq<Identity>, ids: seq<Identity>, observed: set<string>, id: Identity)
    requires Answers(mutants, ids, observed) && id in ids && id.name !in observed
    ensures Answers(mutants + [id], ids, observed + {id.name})
  {
    NamesOfAppend(mutants, id);
  }

  /** Looking a mutant up in the table decides what is wrong with it. */
  lemma {:induction false} TableDecides(
    ids: seq<Identity>, before: seq<Identity>, table: map<string, string>, id: Identity)
    requires DistinctNames(ids) && Indexes(table, ids)
    ensures OutcomeDefect(ids, before, id)
            == if id.name !in table then Some(UnknownOutcome(id.name))
               else if table[id.name] != id.key then Some(IdentityMismatch(id.name))
               else if id.name in NamesOf(before) then Some(DuplicateOutcome(id.name))
               else None
  {
    IndexedNames(table, ids, id.name);
    if id.name in table {
      assert Identity(id.name, table[id.name]) in ids;
    }
  }

  method MatchOutcomes(outcomes: seq<Outcome>, candidates: seq<Mutant>, expected: map<string, string>)
    returns (r: Result<set<string>, Error>)
    requires DistinctNames(CandidatesOf(candidates)) && Indexes(expected, CandidatesOf(candidates))
    ensures r.Ok? ==> Answers(MutantsOf(outcomes), CandidatesOf(candidates), r.value)
    ensures r.Err? ==> r.error.UnknownOutcome? || r.error.IdentityMismatch? || r.error.DuplicateOutcome?
    ensures r.Err? ==> exists i :: FirstBad(outcomes, CandidatesOf(candidates), i, r.error)
  {
    ghost var ids := CandidatesOf(candidates);
    var observed: set<string> := {};
    for i := 0 to |outcomes|
      invariant Answers(MutantsOf(outcomes[..i]), ids, observed)
    {
      ghost var before := MutantsOf(outcomes[..i]);
      assert outcomes[..i + 1] == outcomes[..i] + [outcomes[i]];
      MutantsAppend(outcomes[..i], outcomes[i]);
      if outcomes[i].scenario.Mutated? {
        var mutant := outcomes[i].scenario.mutant;
        TableDecides(ids, before, expected, IdentityOf(mutant));
        if mutant.name !in expected {
          assert FirstBad(outcomes, ids, i, UnknownOutcome(mutant.name));
          return Err(UnknownOutcome(mutant.name));
        }
        if expected[mutant.name] != Key(mutant) {
          assert FirstBad(outcomes, ids, i, IdentityMismatch(mutant.name));
          return Err(IdentityMismatch(mutant.name));
        }
        if mutant.name in observed {
          assert FirstBad(outcomes, ids, i, DuplicateOutcome(mutant.name));
          return Err(DuplicateOutcome(mutant.name));
        }
        AnswersOneMore(before, ids, observed, IdentityOf(mutant));
        observed := observed + {mutant.name};
      }
    }
    assert outcomes[..|outcomes|] == outcomes;
    return Ok(observed);
  }

  /** The mutants up to and including position `i` start the list of all mutants. */
  lemma {:induction false} MutantsPrefix(outcomes: seq<Outcome>, i: nat)
    requires i < |outcomes| && outcomes[i].scenario.Mutated?
    ensures MutantsOf(outcomes[..i]) + [IdentityOf(outcomes[i].scenario.mutant)] <= MutantsOf(outcomes)
    ensures IdentityOf(outcomes[i].scenario.mutant) in MutantsOf(outcomes)
  {
    var n := |outcomes| - 1;
    if i < n {
      assert outcomes[..n][..i] == outcomes[..i];
      MutantsPrefix(outcomes[..n], i);
    }
  }

  /** The least name that was expected and not observed, if any. */
  method FindMissing(expected: map<string, string>, observed: set<string>) returns (missing: Option<string>)
    ensures missing == None ==> expected.Keys <= observed
    ensures missing.Some? ==>
              && missing.value in expected && missing.value !in observed
              && forall n :: n in expected && Less(n, missing.value) ==> n in observed
  {
    var names := InOrder(expected.Keys);
    for i := 0 to |names|
      invariant forall j :: 0 <= j < i ==> names[j] in observed
    {
      if names[i] !in observed {
        SmallerComeFirst(names, expected.Keys, i);
        return Some(names[i]);
      }
    }
    forall n | n in expected.Keys ensures n in observed {
      assert n in names;
    }
    return None;
  }

  lemma {:induction false} SmallerComeFirst(ks: seq<string>, keys: set<string>, i: nat)
    requires Lists(ks, keys) && i < |ks|
    ensures forall n :: n in keys && Less(n, ks[i]) ==> n in ks[..i]
  {
    forall n | n in keys && Less(n, ks[i]) ensures n in ks[..i] {
      assert n in ks;
      var j :| 0 <= j < |ks| && ks[j] == n;
      LessIrreflexive(ks[i]);
      if j > i { LessTransitive(ks[i], ks[j], ks[i]); }
      assert ks[..i][j] == n;
    }
  }

  lemma {:induction false} MissingIsFirst(
    expected: map<string, string>, ids: seq<Identity>, mutants: seq<Identity>, missing: Option<string>)
    requires Indexes(expected, ids)
    requires missing == None ==> expected.Keys <= NamesOf(mutants)
    requires missing.Some? ==>
               && missing.value in expected && missing.value !in NamesOf(mutants)
               && forall n :: n in expected && Less(n, missing.value) ==> n in NamesOf(mutants)
    ensures missing == None ==> NamesOf(ids) <= NamesOf(mutants)
    ensures missing.Some? ==> FirstMissing(ids, mutants, missing.value)
  {
    forall n ensures n in expected <==> n in NamesOf(ids) {
      IndexedNames(expected, ids, n);
    }
  }

  /** The last stages: every candidate has an outcome, and every outcome a possible summary. */
  method CoveredTallies(
    outcomes: seq<Outcome>, candidates: seq<Mutant>, expected: map<string, string>, observed: set<string>)
    returns (r: Result<map<string, Tally>, Error>)
    requires CleanBaseline(outcomes) && candidates != []
    requires DistinctNames(CandidatesOf(candidates)) && Indexes(expected, CandidatesOf(candidates))
    requires Answers(MutantsOf(outcomes), CandidatesOf(candidates), observed)
    ensures r.Ok? <==> Campaign(outcomes, candidates)
    ensures r.Ok? ==> r.value == Tallies(outcomes)
    ensures r.Err? ==> FirstDefect(outcomes, candidates, r.error)
  {
    var missing := FindMissing(expected, observed);
    MissingIsFirst(expected, CandidatesOf(candidates), MutantsOf(outcomes), missing);
    if missing.Some? {
      return Err(MissingOutcome(missing.value));
    }
    r := ComputeTallies(outcomes);
  }

  method CampaignTallies(outcomes: seq<Outcome>, candidates: seq<Mutant>) returns (r: Result<map<string, Tally>, Error>)
    ensures r.Ok? <==> Campaign(outcomes, candidates)
    ensures r.Ok? ==> r.value == Tallies(outcomes)
    ensures r.Err? ==> FirstDefect(outcomes, candidates, r.error)
  {
    var baselines := Baselines(outcomes);
    if |baselines| != 1 || baselines[0].summary != Success {
      return Err(NoCleanBaseline);
    }
    if candidates == [] {
      return Err(NoMutants);
    }
    var index := IndexCandidates(candidates);
    if index.Err? {
      DefectRefutesCampaign(outcomes, candidates, index.error);
      return Err(index.error);
    }
    var matched := MatchOutcomes(outcomes, candidates, index.value);
    if matched.Err? {
      DefectRefutesCampaign(outcomes, candidates, matched.error);
      return Err(matched.error);
    }
    r := CoveredTallies(outcomes, candidates, index.value, matched.value);
  }
}

/** Seeding a baseline from a campaign, and checking a campaign against one. */
module MutationCheck {
  import opened Base
  import opened OrderedKeys
  import opened MutationGate

  // ---------------------------------------------------------------------
  // Outcomes and candidates are in bijection.

  function CountKey(ids: seq<Identity>, key: string): nat {
    if ids == [] then 0
    else CountKey(ids[..|ids| - 1], key) + if ids[|ids| - 1].key == key then 1 else 0
  }

  lemma {:induction false} TotalCountsMutants(outcomes: seq<Outcome>, key: string)
    ensures Count(outcomes, Total, {key}) == CountKey(MutantsOf(outcomes), key)
  {
    if outcomes != [] {
      var n := |outcomes| - 1;
      TotalCountsMutants(outcomes[..n], key);
      if outcomes[n].scenario.Mutated? {
        var ids := MutantsOf(outcomes);
        assert ids[..|ids| - 1] == MutantsOf(outcomes[..n]);
      }
    }
  }

  lemma {:induction false} CountKeyConcat(a: seq<Identity>, b: seq<Identity>, key: string)
    ensures CountKey(a + b, key) == CountKey(a, key) + CountKey(b, key)
  {
    if b == [] {
      assert a + b == a;
    } else {
      var n := |b| - 1;
      assert (a + b)[..|a| + n] == a + b[..n];
      CountKeyConcat(a, b[..n], key);
    }
  }

  lemma {:induction false} TakenOut(s: seq<Identity>, j: nat)
    requires j < |s|
    ensures multiset(s) == multiset(s[..j] + s[j + 1..]) + multiset{s[j]}
  {
    assert s == s[..j] + [s[j]] + s[j + 1..];
  }

  lemma {:induction false} Cancelled(a: multiset<Identity>, b: multiset<Identity>, x: Identity)
    requires a + multiset{x} == b + multiset{x}
    ensures a == b
  {
    assert a == (a + multiset{x}) - multiset{x};
    assert b == (b + multiset{x}) - multiset{x};
  }

  lemma {:induction false} DropOne(a: seq<Identity>, b: seq<Identity>, j: nat)
    requires a != [] && j < |b| && b[j] == a[|a| - 1] && multiset(a) == multiset(b)
    ensures multiset(a[..|a| - 1]) == multiset(b[..j] + b[j + 1..])
  {
    var n := |a| - 1;
    TakenOut(a, n);
    assert a[..n] + a[n + 1..] == a[..n];
    TakenOut(b, j);
    Cancelled(multiset(a[..n]), multiset(b[..j] + b[j + 1..]), a[n]);
  }

  /** Counting by key depends on the elements alone. */
  lemma {:induction false} CountKeyPermuted(a: seq<Identity>, b: seq<Identity>, key: string)
    requires multiset(a) == multiset(b)
    ensures CountKey(a, key) == CountKey(b, key)
  {
    assert |a| == |multiset(a)| == |multiset(b)| == |b|;
    if a != [] {
      var n := |a| - 1;
      assert a[n] in multiset(a);
      var j :| 0 <= j < |b| && b[j] == a[n];
      assert b == b[..j] + [b[j]] + b[j + 1..];
      DropOne(a, b, j);
      CountKeyPermuted(a[..n], b[..j] + b[j + 1..], key);
      CountKeyConcat(b[..j], b[j + 1..], key);
      CountKeyConcat(b[..j] + [b[j]], b[j + 1..], key);
      CountKeyConcat(b[..j], [b[j]], key);
    }
  }

  lemma {:induction false} CountedOnce(ids: seq<Identity>, id: Identity)
    requires DistinctNames(ids)
    ensures multiset(ids)[id] == if id in ids then 1 else 0
  {
    if ids != [] {
      var n := |ids| - 1;
      assert ids == ids[..n] + [ids[n]];
      CountedOnce(ids[..n], id);
    }
  }

  lemma {:induction false} CandidateAnswered(outcomes: seq<Outcome>, candidates: seq<Mutant>, c: Identity)
    requires Campaign(outcomes, candidates) && c in CandidatesOf(candidates)
    ensures c in MutantsOf(outcomes)
  {
    var mutants, ids := MutantsOf(outcomes), CandidatesOf(candidates);
    var k :| 0 <= k < |ids| && ids[k] == c;
    assert c.name in NamesOf(ids);
    var i :| 0 <= i < |mutants| && mutants[i].name == c.name;
    assert mutants[i] in ids;
  }

  /** The outcomes of a campaign are its candidates, each exactly once. */
  lemma {:induction false} OutcomesAreCandidates(outcomes: seq<Outcome>, candidates: seq<Mutant>)
    requires Campaign(outcomes, candidates)
    ensures multiset(MutantsOf(outcomes)) == multiset(CandidatesOf(candidates))
  {
    var mutants, ids := MutantsOf(outcomes), CandidatesOf(candidates);
    forall id ensures multiset(mutants)[id] == multiset(ids)[id] {
      CountedOnce(mutants, id);
      CountedOnce(ids, id);
      if id in ids {
        CandidateAnswered(outcomes, candidates, id);
      }
    }
  }

  lemma {:induction false} SameKeys(outcomes: seq<Outcome>, candidates: seq<Mutant>)
    requires Campaign(outcomes, candidates)
    ensures KeysOf(MutantsOf(outcomes)) == KeysOf(CandidatesOf(candidates))
  {
    var mutants, ids := MutantsOf(outcomes), CandidatesOf(candidates);
    OutcomesAreCandidates(outcomes, candidates);
    forall k ensures k in KeysOf(mutants) <==> k in KeysOf(ids) {
      if i :| 0 <= i < |mutants| && mutants[i].key == k { assert mutants[i] in multiset(ids) && mutants[i] in ids; }
      if i :| 0 <= i < |ids| && ids[i].key == k { assert ids[i] in multiset(mutants) && ids[i] in mutants; }
    }
  }

  /** Each key's total is the number of candidates at that key. */
  lemma {:induction false} TotalsAreCandidateCounts(outcomes: seq<Outcome>, candidates: seq<Mutant>, key: string)
    requires Campaign(outcomes, candidates)
    ensures TallyOf(outcomes, key).total == CountKey(CandidatesOf(candidates), key)
  {
    OutcomesAreCandidates(outcomes, candidates);
    TotalCountsMutants(outcomes, key);
    CountKeyPermuted(MutantsOf(outcomes), CandidatesOf(candidates), key);
  }

  // ---------------------------------------------------------------------
  // Logs, and the emitted baseline.

  /** Why the log of one outcome does not certify it, if it does not; only caught outcomes need a log. */
  function LogDefect(o: Outcome): Option<Error> {
    if !o.summary.CaughtMutant? then None
    else
      match o.scenario
      case Unmutated => Some(CaughtBaseline)
      case Mutated(mutant) =>
        match o.log
        case NoPath => Some(MissingLog(mutant.name))
        case InvalidPath => Some(InvalidLogPath(mutant.name))
        case Unreadable => Some(UnreadableLog(mutant.name))
        case Lines(timedOut, failed) =>
          if timedOut then Some(TestTimedOut(mutant.name))
          else if !failed then Some(NoFailingTest(mutant.name))
          else None
  }

  /** Every caught outcome is a mutant's, and its log shows a failing test and none that timed out. */
  ghost predicate Certified(outcomes: seq<Outcome>) {
    forall i :: 0 <= i < |outcomes| && outcomes[i].summary.CaughtMutant? ==>
      outcomes[i].scenario.Mutated? && outcomes[i].log == Lines(false, true)
  }

  /** The error says what is wrong with this caught outcome. */
  ghost predicate Blames(e: Error, o: Outcome) {
    && o.summary.CaughtMutant?
    && match e
       case CaughtBaseline => o.scenario.Unmutated?
       case MissingLog(name) => o.scenario.Mutated? && o.scenario.mutant.name == name && o.log == NoPath
       case InvalidLogPath(name) => o.scenario.Mutated? && o.scenario.mutant.name == name && o.log == InvalidPath
       case UnreadableLog(name) => o.scenario.Mutated? && o.scenario.mutant.name == name && o.log == Unreadable
       case TestTimedOut(name) =>
         o.scenario.Mutated? && o.scenario.mutant.name == name && o.log.Lines? && o.log.timedOut
       case NoFailingTest(name) =>
         o.scenario.Mutated? && o.scenario.mutant.name == name && o.log == Lines(false, false)
       case _ => false
  }

  /** The first outcome whose log does not certify it, and why. */
  ghost predicate FirstUncertified(outcomes: seq<Outcome>, e: Error) {
    exists i :: 0 <= i < |outcomes| && Certified(outcomes[..i]) && Blames(e, outcomes[i])
  }

  method CertifyCaughtLogs(outcomes: seq<Outcome>) returns (defect: Option<Error>)
    ensures defect == None <==> Certified(outcomes)
    ensures defect.Some? ==> FirstUncertified(outcomes, defect.value)
  {
    for i := 0 to |outcomes|
      invariant Certified(outcomes[..i])
    {
      if LogDefect(outcomes[i]).Some? {
        assert Blames(LogDefect(outcomes[i]).value, outcomes[i]);
        return LogDefect(outcomes[i]);
      }
      assert outcomes[..i + 1] == outcomes[..i] + [outcomes[i]];
    }
    assert outcomes[..|outcomes|] == outcomes;
    return None;
  }

  /** Each key is recorded once: with its viable count as floor, or, in key order, as known to have none. */
  ghost predicate Seeds(tallies: map<string, Tally>, b: Baseline) {
    && (forall k :: k in b.floors <==> k in tallies && tallies[k].viable > 0)
    && (forall k :: k in b.floors ==> b.floors[k] == tallies[k].viable)
    && (forall k :: k in b.knownZero <==> k in tallies && tallies[k].viable == 0)
    && Ascending(b.knownZero)
  }

  lemma {:induction false} AscendingDistinct(ks: seq<string>)
    requires Ascending(ks)
    ensures Distinct(ks)
  {
    forall i, j | 0 <= i < j < |ks| ensures ks[i] != ks[j] {
      LessIrreflexive(ks[i]);
    }
  }

  /** What these keys, taken in order, put into the baseline. */
  ghost predicate Seeded(tallies: map<string, Tally>, keys: seq<string>, floors: map<string, nat>, zero: seq<string>)
    requires forall k :: k in keys ==> k in tallies
  {
    && (forall k :: k in floors <==> k in keys && tallies[k].viable > 0)
    && (forall k :: k in floors ==> floors[k] == tallies[k].viable)
    && (forall k :: k in zero <==> k in keys && tallies[k].viable == 0)
    && Ascending(zero)
  }

  lemma {:induction false} SeededZero(
    tallies: map<string, Tally>, keys: seq<string>, i: nat, floors: map<string, nat>, zero: seq<string>)
    requires Ascending(keys) && i < |keys| && forall k :: k in keys ==> k in tallies
    requires Seeded(tallies, keys[..i], floors, zero) && tallies[keys[i]].viable == 0
    ensures Seeded(tallies, keys[..i + 1], floors, zero + [keys[i]])
  {
    forall j | 0 <= j < |zero| ensures Less(zero[j], keys[i]) {
      assert zero[j] in keys[..i];
    }
    assert keys[..i + 1] == keys[..i] + [keys[i]];
  }

  lemma {:induction false} SeededFloor(
    tallies: map<string, Tally>, keys: seq<string>, i: nat, floors: map<string, nat>, zero: seq<string>)
    requires i < |keys| && forall k :: k in keys ==> k in tallies
    requires Seeded(tallies, keys[..i], floors, zero) && tallies[keys[i]].viable > 0
    ensures Seeded(tallies, keys[..i + 1], floors[keys[i] := tallies[keys[i]].viable], zero)
  {
    assert keys[..i + 1] == keys[..i] + [keys[i]];
  }

  method SeedBaseline(tallies: map<string, Tally>) returns (b: Baseline)
    ensures Seeds(tallies, b)
  {
    var keys := InOrder(tallies.Keys);
    assert forall k :: k in keys ==> k in tallies;
    var floors: map<string, nat> := map[];
    var zero: seq<string> := [];
    for i := 0 to |keys|
      invariant Seeded(tallies, keys[..i], floors, zero)
    {
      var key := keys[i];
      if tallies[key].viable == 0 {
        SeededZero(tallies, keys, i, floors, zero);
        zero := zero + [key];
      } else {
        SeededFloor(tallies, keys, i, floors, zero);
        floors := floors[key := tallies[key].viable];
      }
    }
    assert keys[..|keys|] == keys;
    b := Baseline(floors, zero);
  }

  method EmitBaseline(outcomes: seq<Outcome>, candidates: seq<Mutant>) returns (r: Result<Baseline, Error>)
    ensures r.Ok? <==> Campaign(outcomes, candidates) && Certified(outcomes)
    ensures r.Ok? ==> Seeds(Tallies(outcomes), r.value)
    ensures r.Err? ==>
              if Campaign(outcomes, candidates) then FirstUncertified(outcomes, r.error)
              else FirstDefect(outcomes, candidates, r.error)
  {
    var tallies := CampaignTallies(outcomes, candidates);
    if tallies.Err? {
      return Err(tallies.error);
    }
    var defect := CertifyCaughtLogs(outcomes);
    if defect.Some? {
      return Err(defect.value);
    }
    var b := SeedBaseline(tallies.value);
    return Ok(b);
  }

  // ---------------------------------------------------------------------
  // The check.

  /** What each finding says about the tallies, the candidates' keys and the baseline. */
  ghost predicate Deserved(f: Finding, tallies: map<string, Tally>, expected: set<string>, b: Baseline) {
    match f
    case DuplicateKnownZero => !Distinct(b.knownZero)
    case Conflicting(k) => k in b.knownZero && k in b.floors
    case StaleKnownZero(k) => k in b.knownZero && k !in b.floors && k !in expected
    case ZeroFloor(k) => k in b.floors && b.floors[k] == 0
    case StaleFloor(k) => k in b.floors && b.floors[k] > 0 && k !in expected
    case Survivors(k, n) => k in tallies && tallies[k].missed == n > 0
    case Timeouts(k, n) => k in tallies && tallies[k].timeout == n > 0
    case Collapsed(k, v, floor) => k in tallies && k in b.floors && tallies[k].viable == v < floor == b.floors[k]
    case Unaccounted(k) => k in tallies && k !in b.floors && k !in b.knownZero
  }

  lemma {:induction false} DistinctBySize(s: seq<string>, elements: set<string>)
    requires forall x :: x in s <==> x in elements
    ensures |elements| <= |s|
    ensures |elements| == |s| <==> Distinct(s)
  {
    if s == [] {
      assert elements == {};
    } else {
      var n := |s| - 1;
      assert s == s[..n] + [s[n]];
      if s[n] in s[..n] {
        DistinctBySize(s[..n], elements);
        var j :| 0 <= j < n && s[j] == s[n];
        assert !Distinct(s);
      } else {
        DistinctBySize(s[..n], elements - {s[n]});
      }
    }
  }

  /** What one known-zero entry adds to the findings. */
  function ZeroFinding(k: string, expected: set<string>, b: Baseline): seq<Finding> {
    if k in b.floors then [Conflicting(k)] else if k !in expected then [StaleKnownZero(k)] else []
  }

  /** What one floor adds. */
  function FloorFinding(k: string, expected: set<string>, b: Baseline): seq<Finding>
    requires k in b.floors
  {
    if b.floors[k] == 0 then [ZeroFloor(k)] else if k !in expected then [StaleFloor(k)] else []
  }

  /** What the tally of one key adds. */
  function TallyFinding(k: string, t: Tally, b: Baseline): seq<Finding> {
    (if t.missed > 0 then [Survivors(k, t.missed)] else [])
    + (if t.timeout > 0 then [Timeouts(k, t.timeout)] else [])
    + (if k in b.floors then
         if t.viable < b.floors[k] then [Collapsed(k, t.viable, b.floors[k])] else []
       else if k !in b.knownZero then [Unaccounted(k)] else [])
  }

  function ZeroFindings(ks: seq<string>, expected: set<string>, b: Baseline): seq<Finding> {
    if ks == [] then []
    else ZeroFindings(ks[..|ks| - 1], expected, b) + ZeroFinding(ks[|ks| - 1], expected, b)
  }

  function FloorFindings(ks: seq<string>, expected: set<string>, b: Baseline): seq<Finding>
    requires forall k :: k in ks ==> k in b.floors
  {
    if ks == [] then []
    else
      assert ks[|ks| - 1] in ks;
      FloorFindings(ks[..|ks| - 1], expected, b) + FloorFinding(ks[|ks| - 1], expected, b)
  }

  function TallyFindings(ks: seq<string>, tallies: map<string, Tally>, b: Baseline): seq<Finding>
    requires forall k :: k in ks ==> k in tallies
  {
    if ks == [] then []
    else
      assert ks[|ks| - 1] in ks;
      TallyFindings(ks[..|ks| - 1], tallies, b) + TallyFinding(ks[|ks| - 1], tallies[ks[|ks| - 1]], b)
  }

  function Elements(s: seq<string>): set<string> {
    set k | k in s
  }

  /** All findings, group by group and in key order within each. */
  ghost function Findings(tallies: map<string, Tally>, expected: set<string>, b: Baseline): seq<Finding> {
    (if Distinct(b.knownZero) then [] else [DuplicateKnownZero])
    + ZeroFindings(Sorted(Elements(b.knownZero)), expected, b)
    + FloorFindings(Sorted(b.floors.Keys), expected, b)
    + TallyFindings(Sorted(tallies.Keys), tallies, b)
  }

  predicate AboutTally(f: Finding) {
    f.Survivors? || f.Timeouts? || f.Collapsed? || f.Unaccounted?
  }

  lemma {:induction false} ZeroFindingsAre(
    ks: seq<string>, tallies: map<string, Tally>, expected: set<string>, b: Baseline, f: Finding)
    requires forall k :: k in ks ==> k in b.knownZero
    ensures f in ZeroFindings(ks, expected, b) <==>
            (f.Conflicting? || f.StaleKnownZero?) && f.key in ks && Deserved(f, tallies, expected, b)
  {
    if ks != [] {
      var n := |ks| - 1;
      assert ks == ks[..n] + [ks[n]];
      ZeroFindingsAre(ks[..n], tallies, expected, b, f);
    }
  }

  lemma {:induction false} FloorFindingsAre(
    ks: seq<string>, tallies: map<string, Tally>, expected: set<string>, b: Baseline, f: Finding)
    requires forall k :: k in ks ==> k in b.floors
    ensures f in FloorFindings(ks, expected, b) <==>
            (f.ZeroFloor? || f.StaleFloor?) && f.key in ks && Deserved(f, tallies, expected, b)
  {
    if ks != [] {
      var n := |ks| - 1;
      assert ks == ks[..n] + [ks[n]];
      FloorFindingsAre(ks[..n], tallies, expected, b, f);
    }
  }

  lemma {:induction false} TallyFindingIs(
    k: string, tallies: map<string, Tally>, expected: set<string>, b: Baseline, f: Finding)
    requires k in tallies
    ensures f in TallyFinding(k, tallies[k], b) <==> AboutTally(f) && f.key == k && Deserved(f, tallies, expected, b)
  {}

  lemma {:induction false} TallyFindingsAre(
    ks: seq<string>, tallies: map<string, Tally>, expected: set<string>, b: Baseline, f: Finding)
    requires forall k :: k in ks ==> k in tallies
    ensures f in TallyFindings(ks, tallies, b) <==> AboutTally(f) && f.key in ks && Deserved(f, tallies, expected, b)
  {
    if ks != [] {
      var n := |ks| - 1;
      assert ks == ks[..n] + [ks[n]];
      TallyFindingsAre(ks[..n], tallies, expected, b, f);
      TallyFindingIs(ks[n], tallies, expected, b, f);
    }
  }

  /** The findings are exactly the deserved ones. */
  lemma {:induction false} FindingsAreDeserved(
    tallies: map<string, Tally>, expected: set<string>, b: Baseline, f: Finding)
    ensures f in Findings(tallies, expected, b) <==> Deserved(f, tallies, expected, b)
  {
    ZeroFindingsAre(Sorted(Elements(b.knownZero)), tallies, expected, b, f);
    FloorFindingsAre(Sorted(b.floors.Keys), tallies, expected, b, f);
    TallyFindingsAre(Sorted(tallies.Keys), tallies, expected, b, f);
  }

  method CollectZero(ks: seq<string>, b: Baseline, expected: set<string>) returns (fs: seq<Finding>)
    ensures fs == ZeroFindings(ks, expected, b)
  {
    fs := [];
    for i := 0 to |ks|
      invariant fs == ZeroFindings(ks[..i], expected, b)
    {
      assert ks[..i + 1][..i] == ks[..i];
      if ks[i] in b.floors {
        fs := fs + [Conflicting(ks[i])];
      } else if ks[i] !in expected {
        fs := fs + [StaleKnownZero(ks[i])];
      }
    }
    assert ks[..|ks|] == ks;
  }

  method CollectFloors(ks: seq<string>, b: Baseline, expected: set<string>) returns (fs: seq<Finding>)
    requires forall k :: k in ks ==> k in b.floors
    ensures fs == FloorFindings(ks, expected, b)
  {
    fs := [];
    for i := 0 to |ks|
      invariant fs == FloorFindings(ks[..i], expected, b)
    {
      assert ks[i] in ks && ks[..i + 1][..i] == ks[..i];
      if b.floors[ks[i]] == 0 {
        fs := fs + [ZeroFloor(ks[i])];
      } else if ks[i] !in expected {
        fs := fs + [StaleFloor(ks[i])];
      }
    }
    assert ks[..|ks|] == ks;
  }

  method CollectTallies(ks: seq<string>, tallies: map<string, Tally>, b: Baseline) returns (fs: seq<Finding>)
    requires forall k :: k in ks ==> k in tallies
    ensures fs == TallyFindings(ks, tallies, b)
  {
    fs := [];
    for i := 0 to |ks|
      invariant fs == TallyFindings(ks[..i], tallies, b)
    {
      assert ks[i] in ks && ks[..i + 1][..i] == ks[..i];
      fs := fs + TallyFinding(ks[i], tallies[ks[i]], b);
    }
    assert ks[..|ks|] == ks;
  }

  method CollectFindings(tallies: map<string, Tally>, expected: set<string>, b: Baseline) returns (fs: seq<Finding>)
    ensures fs == Findings(tallies, expected, b)
  {
    var known := Elements(b.knownZero);
    DistinctBySize(b.knownZero, known);
    var repeated := if |known| != |b.knownZero| then [DuplicateKnownZero] else [];
    var zeroKeys := InOrder(known);
    var zero := CollectZero(zeroKeys, b, expected);
    var floorKeys := InOrder(b.floors.Keys);
    var floors := CollectFloors(floorKeys, b, expected);
    var tallyKeys := InOrder(tallies.Keys);
    var counts := CollectTallies(tallyKeys, tallies, b);
    fs := repeated + zero + floors + counts;
  }

  /** What a passing check reports: viable and total mutants. */
  datatype Coverage = Coverage(viable: nat, total: nat)

  lemma {:induction false} CountSplits(outcomes: seq<Outcome>, m: Measure, keys: set<string>, k: string)
    requires k !in keys
    ensures Count(outcomes, m, keys + {k}) == Count(outcomes, m, keys) + Count(outcomes, m, {k})
  {
    if outcomes != [] {
      CountSplits(outcomes[..|outcomes| - 1], m, keys, k);
    }
  }

  lemma {:induction false} CountNone(outcomes: seq<Outcome>, m: Measure)
    ensures Count(outcomes, m, {}) == 0
  {
    if outcomes != [] {
      CountNone(outcomes[..|outcomes| - 1], m);
    }
  }

  lemma {:induction false} TotalIsEveryMutant(outcomes: seq<Outcome>, keys: set<string>)
    requires KeysOf(MutantsOf(outcomes)) <= keys
    ensures Count(outcomes, Total, keys) == |MutantsOf(outcomes)|
  {
    if outcomes != [] {
      var n := |outcomes| - 1;
      if outcomes[n].scenario.Mutated? {
        KeysOfAppend(MutantsOf(outcomes[..n]), IdentityOf(outcomes[n].scenario.mutant));
      }
      TotalIsEveryMutant(outcomes[..n], keys);
    }
  }

  method SumTallies(tallies: map<string, Tally>, ghost outcomes: seq<Outcome>) returns (c: Coverage)
    requires forall k :: k in tallies ==> tallies[k] == TallyOf(outcomes, k)
    ensures c == Coverage(Count(outcomes, Viable, tallies.Keys), Count(outcomes, Total, tallies.Keys))
  {
    CountNone(outcomes, Viable);
    CountNone(outcomes, Total);
    var viable, total := 0, 0;
    var todo := tallies.Keys;
    ghost var done: set<string> := {};
    while todo != {}
      invariant todo <= tallies.Keys && done == tallies.Keys - todo
      invariant viable == Count(outcomes, Viable, done) && total == Count(outcomes, Total, done)
      decreases |todo|
    {
      var k :| k in todo;
      CountSplits(outcomes, Viable, done, k);
      CountSplits(outcomes, Total, done, k);
      viable, total := viable + tallies[k].viable, total + tallies[k].total;
      todo, done := todo - {k}, done + {k};
    }
    assert done == tallies.Keys;
    c := Coverage(viable, total);
  }

  /** Nothing is wrong with the campaign against this baseline. */
  ghost predicate Passes(outcomes: seq<Outcome>, candidates: seq<Mutant>, b: Baseline) {
    && Campaign(outcomes, candidates) && Certified(outcomes)
    && forall f :: !Deserved(f, Tallies(outcomes), KeysOf(CandidatesOf(candidates)), b)
  }

  /** The failures of a check, in order: campaign, findings, logs. */
  ghost predicate FailsWith(outcomes: seq<Outcome>, candidates: seq<Mutant>, b: Baseline, e: Error) {
    var findings := Findings(Tallies(outcomes), KeysOf(CandidatesOf(candidates)), b);
    if !Campaign(outcomes, candidates) then FirstDefect(outcomes, candidates, e)
    else if findings != [] then e == Failing(findings)
    else FirstUncertified(outcomes, e)
  }

  lemma {:induction false} NoFindings(tallies: map<string, Tally>, expected: set<string>, b: Baseline)
    ensures Findings(tallies, expected, b) == [] <==> forall f :: !Deserved(f, tallies, expected, b)
  {
    forall f ensures f in Findings(tallies, expected, b) <==> Deserved(f, tallies, expected, b) {
      FindingsAreDeserved(tallies, expected, b, f);
    }
    if Findings(tallies, expected, b) != [] {
      assert Findings(tallies, expected, b)[0] in Findings(tallies, expected, b);
    }
  }

  lemma {:induction false} TotalIsCandidates(outcomes: seq<Outcome>, candidates: seq<Mutant>)
    requires Campaign(outcomes, candidates)
    ensures Count(outcomes, Total, Tallies(outcomes).Keys) == |candidates|
  {
    TotalIsEveryMutant(outcomes, Tallies(outcomes).Keys);
    OutcomesAreCandidates(outcomes, candidates);
    assert |multiset(MutantsOf(outcomes))| == |multiset(CandidatesOf(candidates))|;
  }

  method Check(outcomes: seq<Outcome>, candidates: seq<Mutant>, b: Baseline) returns (r: Result<Coverage, Error>)
    ensures r.Ok? <==> Passes(outcomes, candidates, b)
    ensures r.Ok? ==> r.value == Coverage(Count(outcomes, Viable, Tallies(outcomes).Keys), |candidates|)
    ensures r.Err? ==> FailsWith(outcomes, candidates, b, r.error)
  {
    var campaign := CampaignTallies(outcomes, candidates);
    if campaign.Err? {
      return Err(campaign.error);
    }
    var tallies := campaign.value;
    var expected := KeysOf(CandidatesOf(candidates));
    var findings := CollectFindings(tallies, expected, b);
    NoFindings(tallies, expected, b);
    var coverage := SumTallies(tallies, outcomes);
    if findings != [] {
      return Err(Failing(findings));
    }
    var defect := CertifyCaughtLogs(outcomes);
    if defect.Some? {
      return Err(defect.value);
    }
    TotalIsCandidates(outcomes, candidates);
    return Ok(coverage);
  }

  // ---------------------------------------------------------------------
  // The two halves agree.

  /** No mutant survived and none timed out. */
  ghost predicate Clean(outcomes: seq<Outcome>) {
    forall i :: 0 <= i < |outcomes| && outcomes[i].scenario.Mutated? ==>
      !outcomes[i].summary.MissedMutant? && !outcomes[i].summary.Timeout?
  }

  lemma {:induction false} CountPositive(outcomes: seq<Outcome>, m: Measure, i: nat)
    requires i < |outcomes| && Counts(m, outcomes[i])
    ensures Count(outcomes, m, {Key(outcomes[i].scenario.mutant)}) > 0
    ensures Key(outcomes[i].scenario.mutant) in Tallies(outcomes)
  {
    var n := |outcomes| - 1;
    if i < n {
      CountPositive(outcomes[..n], m, i);
    }
    MutantsPrefix(outcomes, i);
  }

  lemma {:induction false} CountWitness(outcomes: seq<Outcome>, m: Measure, keys: set<string>) returns (i: nat)
    requires Count(outcomes, m, keys) > 0
    ensures i < |outcomes| && Counts(m, outcomes[i])
  {
    var n := |outcomes| - 1;
    if Counts(m, outcomes[n]) {
      i := n;
    } else {
      i := CountWitness(outcomes[..n], m, keys);
    }
  }

  /** Clean means that no key has a survivor or a timeout. */
  lemma {:induction false} CleanByTally(outcomes: seq<Outcome>)
    ensures Clean(outcomes) <==> NoSurvivor(Tallies(outcomes))
  {
    forall i | 0 <= i < |outcomes| && Counts(Missed, outcomes[i])
      ensures Key(outcomes[i].scenario.mutant) in Tallies(outcomes)
              && Tallies(outcomes)[Key(outcomes[i].scenario.mutant)].missed > 0
    {
      CountPositive(outcomes, Missed, i);
    }
    forall i | 0 <= i < |outcomes| && Counts(TimedOut, outcomes[i])
      ensures Key(outcomes[i].scenario.mutant) in Tallies(outcomes)
              && Tallies(outcomes)[Key(outcomes[i].scenario.mutant)].timeout > 0
    {
      CountPositive(outcomes, TimedOut, i);
    }
    forall k | k in Tallies(outcomes)
      ensures Tallies(outcomes)[k].missed > 0 || Tallies(outcomes)[k].timeout > 0 ==> !Clean(outcomes)
    {
      if Tallies(outcomes)[k].missed > 0 {
        var i := CountWitness(outcomes, Missed, {k});
      } else if Tallies(outcomes)[k].timeout > 0 {
        var i := CountWitness(outcomes, TimedOut, {k});
      }
    }
  }

  /** `later` covers the same keys as `seed`, none with fewer viable mutants. */
  ghost predicate Holds(seed: map<string, Tally>, later: map<string, Tally>) {
    seed.Keys == later.Keys && forall k :: k in seed ==> seed[k].viable <= later[k].viable
  }

  ghost predicate NoSurvivor(tallies: map<string, Tally>) {
    forall k :: k in tallies ==> tallies[k].missed == 0 && tallies[k].timeout == 0
  }

  lemma {:induction false} NothingDeserved(seed: map<string, Tally>, later: map<string, Tally>, b: Baseline)
    requires Seeds(seed, b) && Holds(seed, later) && NoSurvivor(later)
    ensures forall f :: !Deserved(f, later, later.Keys, b)
  {
    AscendingDistinct(b.knownZero);
  }

  lemma {:induction false} UndeservedHolds(seed: map<string, Tally>, later: map<string, Tally>, b: Baseline)
    requires Seeds(seed, b) && forall f :: !Deserved(f, later, later.Keys, b)
    ensures Holds(seed, later) && NoSurvivor(later)
  {
    forall k | k in later ensures k in seed && later[k].missed == 0 && later[k].timeout == 0 {
      assert !Deserved(Survivors(k, later[k].missed), later, later.Keys, b);
      assert !Deserved(Timeouts(k, later[k].timeout), later, later.Keys, b);
      assert !Deserved(Unaccounted(k), later, later.Keys, b);
    }
    forall k | k in seed ensures k in later && seed[k].viable <= later[k].viable {
      if seed[k].viable > 0 {
        assert !Deserved(StaleFloor(k), later, later.Keys, b);
        assert !Deserved(Collapsed(k, later[k].viable, b.floors[k]), later, later.Keys, b);
      } else {
        assert !Deserved(StaleKnownZero(k), later, later.Keys, b);
      }
    }
  }

  /** Against a seeded baseline nothing is deserved exactly when the seed's viability holds and nothing survived. */
  lemma {:induction false} SeedDecides(seed: map<string, Tally>, later: map<string, Tally>, b: Baseline)
    requires Seeds(seed, b)
    ensures (forall f :: !Deserved(f, later, later.Keys, b)) <==> Holds(seed, later) && NoSurvivor(later)
  {
    if forall f :: !Deserved(f, later, later.Keys, b) {
      UndeservedHolds(seed, later, b);
    }
    if Holds(seed, later) && NoSurvivor(later) {
      NothingDeserved(seed, later, b);
    }
  }

  /**
   * A campaign passes against a baseline seeded by another exactly when it is clean, its logs are
   * certified, and it covers the same keys with no fewer viable mutants at any of them.
   */
  lemma {:induction false} CheckAgainstSeed(
    seed: seq<Outcome>, outcomes: seq<Outcome>, candidates: seq<Mutant>, b: Baseline)
    requires Seeds(Tallies(seed), b) && Campaign(outcomes, candidates)
    ensures Passes(outcomes, candidates, b) <==>
            Clean(outcomes) && Certified(outcomes) && Holds(Tallies(seed), Tallies(outcomes))
  {
    SameKeys(outcomes, candidates);
    assert Tallies(outcomes).Keys == KeysOf(CandidatesOf(candidates));
    CleanByTally(outcomes);
    SeedDecides(Tallies(seed), Tallies(outcomes), b);
  }

  /** A baseline emitted from a campaign accepts that campaign exactly when it has no survivor and no timeout. */
  lemma {:induction false} EmitThenCheck(outcomes: seq<Outcome>, candidates: seq<Mutant>, b: Baseline)
    requires Campaign(outcomes, candidates) && Certified(outcomes) && Seeds(Tallies(outcomes), b)
    ensures Passes(outcomes, candidates, b) <==> Clean(outcomes)
  {
    CheckAgainstSeed(outcomes, outcomes, candidates, b);
  }
}

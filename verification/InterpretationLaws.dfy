/** Nested products interpret exactly like the flat list of their items. */
module InterpretationLaws {
  import opened Base
  import opened Interpretation

  // ---------------------------------------------------------------------
  // Rows: a clean prefix, at most one row in flight, and an untouched suffix.

  predicate AllFresh<I, R>(rows: seq<Row<I, R>>) {
    rows == [] || (Fresh(rows[0]) && AllFresh(rows[1..]))
  }

  predicate CleanRows<I, R>(rows: seq<Row<I, R>>) {
    rows == [] || (Clean(rows[0]) && CleanRows(rows[1..]))
  }

  predicate Staged<I, R>(rows: seq<Row<I, R>>) {
    rows == [] || if Clean(rows[0]) then Staged(rows[1..]) else AllFresh(rows[1..])
  }

  /** A clean prefix, then a corrupt row, then untouched rows. */
  predicate SpoiltRows<I, R>(rows: seq<Row<I, R>>) {
    rows != [] && if Clean(rows[0]) then SpoiltRows(rows[1..]) else Spoiled(rows[0]) && AllFresh(rows[1..])
  }

  /** A clean prefix, then a row that is not settled, then untouched rows. */
  predicate StuckRows<I, R>(rows: seq<Row<I, R>>) {
    rows != [] && if Clean(rows[0]) then StuckRows(rows[1..]) else !Spoiled(rows[0]) && AllFresh(rows[1..])
  }

  lemma {:induction false} FreshIsStaged<I, R>(rows: seq<Row<I, R>>)
    requires AllFresh(rows)
    ensures Staged(rows)
  {}

  lemma {:induction false} AllFreshConcat<I, R>(a: seq<Row<I, R>>, b: seq<Row<I, R>>)
    ensures AllFresh(a + b) <==> AllFresh(a) && AllFresh(b)
  {
    if a == [] {
      assert a + b == b;
    } else {
      AllFreshConcat(a[1..], b);
      assert (a + b)[1..] == a[1..] + b;
    }
  }

  lemma {:induction false} CleanConcat<I, R>(a: seq<Row<I, R>>, b: seq<Row<I, R>>)
    ensures CleanRows(a + b) <==> CleanRows(a) && CleanRows(b)
  {
    if a == [] {
      assert a + b == b;
    } else {
      CleanConcat(a[1..], b);
      assert (a + b)[1..] == a[1..] + b;
    }
  }

  lemma {:induction false} StagedConcat<I, R>(a: seq<Row<I, R>>, b: seq<Row<I, R>>)
    requires if CleanRows(a) then Staged(b) else Staged(a) && AllFresh(b)
    ensures Staged(a + b)
  {
    if a == [] {
      assert a + b == b;
    } else {
      assert (a + b)[1..] == a[1..] + b;
      if Clean(a[0]) { StagedConcat(a[1..], b); } else { AllFreshConcat(a[1..], b); }
    }
  }

  lemma {:induction false} FreshRowsFresh<I, R>(items: seq<Item<I>>)
    ensures AllFresh(FreshRows<I, R>(items)) && |FreshRows<I, R>(items)| == |items|
  {
    if items != [] { FreshRowsFresh<I, R>(items[1..]); }
  }

  lemma {:induction false} FreshRowsConcat<I, R>(a: seq<Item<I>>, b: seq<Item<I>>)
    ensures FreshRows<I, R>(a + b) == FreshRows<I, R>(a) + FreshRows<I, R>(b)
  {
    if a == [] {
      assert a + b == b;
    } else {
      FreshRowsConcat<I, R>(a[1..], b);
      calc {
        FreshRows<I, R>(a + b);
        { assert (a + b)[0] == a[0] && (a + b)[1..] == a[1..] + b; }
        [FreshRow<I, R>(a[0])] + FreshRows<I, R>(a[1..] + b);
        [FreshRow<I, R>(a[0])] + (FreshRows<I, R>(a[1..]) + FreshRows<I, R>(b));
        ([FreshRow<I, R>(a[0])] + FreshRows<I, R>(a[1..])) + FreshRows<I, R>(b);
        FreshRows<I, R>(a) + FreshRows<I, R>(b);
      }
    }
  }

  // ---------------------------------------------------------------------
  // The flat traversal.

  lemma {:induction false} ScanClean<I, R>(rows: seq<Row<I, R>>, script: seq<Answer<I, R>>)
    requires CleanRows(rows)
    ensures Scan(rows, script) == Scanned(rows, [], script, AllClean, false)
  {
    if rows != [] {
      ScanClean(rows[1..], script);
      assert [rows[0]] + rows[1..] == rows;
    }
  }

  /** How a scan ends is visible in the rows it leaves. */
  lemma {:induction false} ScanLeaves<I, R>(rows: seq<Row<I, R>>, script: seq<Answer<I, R>>)
    requires Staged(rows)
    ensures var r := Scan(rows, script);
            && |r.rows| == |rows| && Staged(r.rows)
            && (r.end == AllClean ==> CleanRows(r.rows) && !r.dropped)
            && (r.end == Spoilt ==> SpoiltRows(r.rows) && !r.dropped)
            && (r.end == Halted && !r.dropped ==> StuckRows(r.rows))
  {
    if rows != [] {
      if Clean(rows[0]) {
        ScanLeaves(rows[1..], script);
      } else if Fresh(rows[0]) && script != [] {
        FreshIsStaged(rows[1..]);
        ScanLeaves(rows[1..], script[1..]);
      }
    }
  }

  /** Continue a scan of one list with the rows of the next. */
  function Join<I, R>(x: Scanned<I, R>, b: seq<Row<I, R>>): Scanned<I, R> {
    if x.end != AllClean then x.(rows := x.rows + b)
    else var y := Scan(b, x.rest); y.(rows := x.rows + y.rows, offers := x.offers + y.offers)
  }

  lemma {:induction false} OntoJoin<I, R>(row: Row<I, R>, offer: seq<Item<I>>, x: Scanned<I, R>, b: seq<Row<I, R>>)
    ensures Join(Onto(row, offer, x), b) == Onto(row, offer, Join(x, b))
  {
    var y := Scan(b, x.rest);
    assert [row] + (x.rows + b) == [row] + x.rows + b;
    assert [row] + (x.rows + y.rows) == [row] + x.rows + y.rows;
    assert offer + (x.offers + y.offers) == offer + x.offers + y.offers;
  }

  lemma {:induction false} ScanConcat<I, R>(a: seq<Row<I, R>>, b: seq<Row<I, R>>, script: seq<Answer<I, R>>)
    ensures Scan(a + b, script) == Join(Scan(a, script), b)
  {
    if a == [] {
      var y := Scan(b, script);
      assert a + b == b;
      assert [] + y.rows == y.rows && [] + y.offers == y.offers;
    } else {
      assert (a + b)[0] == a[0] && (a + b)[1..] == a[1..] + b;
      if Clean(a[0]) {
        ScanConcat(a[1..], b, script);
        OntoJoin(a[0], [], Scan(a[1..], script), b);
      } else if Fresh(a[0]) && script != [] {
        var left := Answered(a[0], script[0]);
        ScanConcat(a[1..], b, script[1..]);
        OntoJoin(left, [Item(a[0].route, a[0].input.value)], Scan(a[1..], script[1..]), b);
        assert [left] + (a[1..] + b) == [left] + a[1..] + b;
      }
    }
  }

  // ---------------------------------------------------------------------
  // Finishing rows.

  lemma {:induction false} CompleteTail<I, R>(rows: seq<Row<I, R>>)
    requires rows != [] && Clean(rows[0])
    ensures CompleteRows(rows) <==> CompleteRows(rows[1..])
    ensures FirstCorrupt(rows) == 1 + FirstCorrupt(rows[1..])
  {
    if CompleteRows(rows) {
      forall i | 0 <= i < |rows[1..]|
        ensures if i <= FirstCorrupt(rows[1..]) then rows[1..][i].input.None? && rows[1..][i].reply.Some?
                else Fresh(rows[1..][i])
      {
        assert rows[1..][i] == rows[i + 1];
      }
    }
    if CompleteRows(rows[1..]) {
      forall i | 0 <= i < |rows|
        ensures if i <= FirstCorrupt(rows) then rows[i].input.None? && rows[i].reply.Some? else Fresh(rows[i])
      {
        if i > 0 { assert rows[i] == rows[1..][i - 1]; }
      }
    }
  }

  lemma {:induction false} AllFreshAt<I, R>(rows: seq<Row<I, R>>)
    requires AllFresh(rows)
    ensures forall i :: 0 <= i < |rows| ==> Fresh(rows[i])
  {
    if rows != [] { AllFreshAt(rows[1..]); }
  }

  lemma {:induction false} CompleteClean<I, R>(rows: seq<Row<I, R>>)
    requires CleanRows(rows)
    ensures CompleteRows(rows) && FirstCorrupt(rows) == |rows|
  {
    if rows != [] { CompleteClean(rows[1..]); CompleteTail(rows); }
  }

  lemma {:induction false} CompleteSpoilt<I, R>(rows: seq<Row<I, R>>)
    requires SpoiltRows(rows)
    ensures CompleteRows(rows) && FirstCorrupt(rows) < |rows|
  {
    if Clean(rows[0]) { CompleteSpoilt(rows[1..]); CompleteTail(rows); } else { AllFreshAt(rows[1..]); }
  }

  lemma {:induction false} IncompleteStuck<I, R>(rows: seq<Row<I, R>>)
    requires StuckRows(rows)
    ensures !CompleteRows(rows)
  {
    if Clean(rows[0]) { IncompleteStuck(rows[1..]); CompleteTail(rows); }
  }

  lemma {:induction false} UnsettleSettle<I, R>(rows: seq<Row<I, R>>)
    requires forall i :: 0 <= i < |rows| ==> Fresh(rows[i]) || (rows[i].input.None? && rows[i].reply.Some?)
    ensures UnsettleRows(SettleRows(rows)) == rows
  {}

  // ---------------------------------------------------------------------
  // Flattening trees of lanes and their progress.

  function Items<I>(lane: Lane<I>): seq<Item<I>>
    decreases lane, 0
  {
    match lane
    case Rows(items) => items
    case One(item) => [item]
    case Fields(lanes) => ItemsAll(lanes)
  }

  function ItemsAll<I>(lanes: seq<Lane<I>>): seq<Item<I>>
    decreases lanes, 1
  {
    if lanes == [] then [] else Items(lanes[0]) + ItemsAll(lanes[1..])
  }

  function FlatSettlement<I, R>(s: Settlement<I, R>): seq<Row<I, R>>
    decreases s, 0
  {
    match s
    case RowsSettled(rows) => UnsettleRows(rows)
    case OneSettled(item) => [UnsettleRow(item)]
    case FieldsSettled(fields) => FlatSettlements(fields)
  }

  function FlatSettlements<I, R>(fields: seq<Settlement<I, R>>): seq<Row<I, R>>
    decreases fields, 1
  {
    if fields == [] then [] else FlatSettlement(fields[0]) + FlatSettlements(fields[1..])
  }

  /** The custody rows of a progress value, in authored order. */
  function Flat<I, R>(p: Progress<I, R>): seq<Row<I, R>>
    decreases p, 0
  {
    match p
    case Original(lane) => FreshRows(Items(lane))
    case RowsOpen(rows) => rows
    case OneOpen(row) => [row]
    case FieldsOpen(fields) => FlatAll(fields)
    case Completed(_, settlement) => FlatSettlement(settlement)
  }

  function FlatAll<I, R>(fields: seq<Progress<I, R>>): seq<Row<I, R>>
    decreases fields, 1
  {
    if fields == [] then [] else Flat(fields[0]) + FlatAll(fields[1..])
  }

  predicate Done<I, R>(p: Progress<I, R>) {
    p.Completed? && !p.corrupt && CleanRows(Flat(p))
  }

  predicate AllDone<I, R>(fields: seq<Progress<I, R>>) {
    fields == [] || (Done(fields[0]) && AllDone(fields[1..]))
  }

  predicate AllOriginal<I, R>(fields: seq<Progress<I, R>>) {
    fields == [] || (fields[0].Original? && AllOriginal(fields[1..]))
  }

  /** Progress an unfinished interpretation can leave. */
  predicate Live<I, R>(p: Progress<I, R>)
    decreases p, 0
  {
    match p
    case Original(_) => true
    case RowsOpen(rows) => Staged(rows)
    case OneOpen(_) => true
    case FieldsOpen(fields) => LiveFields(fields)
    case Completed(_, _) => false
  }

  predicate LiveFields<I, R>(fields: seq<Progress<I, R>>)
    decreases fields, 1
  {
    fields == [] || if Done(fields[0]) then LiveFields(fields[1..]) else Live(fields[0]) && AllOriginal(fields[1..])
  }

  lemma {:induction false} OriginalsFlat<I, R>(lanes: seq<Lane<I>>)
    ensures FlatAll(Originals<I, R>(lanes)) == FreshRows(ItemsAll(lanes))
    ensures AllOriginal(Originals<I, R>(lanes))
  {
    if lanes != [] {
      OriginalsFlat<I, R>(lanes[1..]);
      FreshRowsConcat<I, R>(Items(lanes[0]), ItemsAll(lanes[1..]));
      var all := Originals<I, R>(lanes);
      assert all[0] == Original(lanes[0]) && all[1..] == Originals<I, R>(lanes[1..]);
    }
  }

  lemma {:induction false} OriginalsLive<I, R>(fields: seq<Progress<I, R>>)
    requires AllOriginal(fields)
    ensures LiveFields(fields)
  {}

  lemma {:induction false} AllOriginalFresh<I, R>(fields: seq<Progress<I, R>>)
    requires AllOriginal(fields)
    ensures AllFresh(FlatAll(fields))
  {
    if fields != [] {
      AllOriginalFresh(fields[1..]);
      FreshRowsFresh<I, R>(Items(fields[0].lane));
      AllFreshConcat(Flat(fields[0]), FlatAll(fields[1..]));
    }
  }

  lemma {:induction false} PrepareFlat<I, R>(p: Progress<I, R>)
    requires Live(p)
    ensures Live(Prepare(p)) && Flat(Prepare(p)) == Flat(p)
  {
    match p
    case Original(Rows(items)) =>
      FreshRowsFresh<I, R>(items);
      FreshIsStaged(FreshRows<I, R>(items));
    case Original(One(item)) =>
      assert FreshRows<I, R>([item][1..]) == [];
    case Original(Fields(lanes)) =>
      OriginalsFlat<I, R>(lanes);
      OriginalsLive(Originals<I, R>(lanes));
    case _ =>
  }

  lemma {:induction false} LiveStaged<I, R>(p: Progress<I, R>)
    requires Live(p)
    ensures Staged(Flat(p))
    decreases p, 0
  {
    match p
    case Original(lane) =>
      FreshRowsFresh<I, R>(Items(lane));
      FreshIsStaged(Flat(p));
    case FieldsOpen(fields) => LiveFieldsStaged(fields);
    case _ =>
  }

  lemma {:induction false} LiveFieldsStaged<I, R>(fields: seq<Progress<I, R>>)
    requires LiveFields(fields)
    ensures Staged(FlatAll(fields))
    decreases fields, 1
  {
    if fields != [] {
      if Done(fields[0]) {
        LiveFieldsStaged(fields[1..]);
      } else {
        LiveStaged(fields[0]);
        AllOriginalFresh(fields[1..]);
        FreshIsStaged(FlatAll(fields[1..]));
      }
      StagedConcat(Flat(fields[0]), FlatAll(fields[1..]));
    }
  }

  // ---------------------------------------------------------------------
  // Skipping and finishing products.

  lemma {:induction false} UntouchedFlat<I, R>(items: seq<Item<I>>)
    ensures UnsettleRows(Untouched<I, R>(items)) == FreshRows(items)
  {
    if items != [] {
      UntouchedFlat<I, R>(items[1..]);
      var s := Untouched<I, R>(items);
      assert s[1..] == Untouched<I, R>(items[1..]);
      assert UnsettleRows(s) == [UnsettleRow(s[0])] + UnsettleRows(s[1..]);
    }
  }

  lemma {:induction false} SettlementsFlat<I, R>(fields: seq<Progress<I, R>>)
    requires AllCompleted(fields)
    ensures FlatSettlements(Settlements(fields)) == FlatAll(fields)
  {
    if fields != [] {
      SettlementsFlat(fields[1..]);
      var s := Settlements(fields);
      assert s[0] == fields[0].settlement && s[1..] == Settlements(fields[1..]);
    }
  }

  /** A lane skipped before it started keeps every item, untouched and in place. */
  lemma {:induction false} SkipOriginal<I, R>(lane: Lane<I>)
    ensures var p := Skip<I, R>(Original(lane));
            p.Completed? && !p.corrupt && Flat(p) == FreshRows(Items(lane))
    decreases lane, 0
  {
    match lane
    case Rows(items) => UntouchedFlat<I, R>(items);
    case One(item) => assert [item][1..] == [];
    case Fields(lanes) =>
      SkipOriginals<I, R>(lanes);
      SettlementsFlat(SkipAll(Originals<I, R>(lanes)));
  }

  lemma {:induction false} SkipOriginals<I, R>(lanes: seq<Lane<I>>)
    ensures var fields := SkipAll(Originals<I, R>(lanes));
            && AllCompleted(fields) && !AnyCorrupt(fields)
            && FlatAll(fields) == FreshRows(ItemsAll(lanes))
    decreases lanes, 1
  {
    if lanes != [] {
      SkipOriginal<I, R>(lanes[0]);
      SkipOriginals<I, R>(lanes[1..]);
      FreshRowsConcat<I, R>(Items(lanes[0]), ItemsAll(lanes[1..]));
      var all := Originals<I, R>(lanes);
      assert all[0] == Original(lanes[0]) && all[1..] == Originals<I, R>(lanes[1..]);
      var skipped := SkipAll(all);
      assert skipped[0] == Skip(all[0]) && skipped[1..] == SkipAll(all[1..]);
    }
  }

  lemma {:induction false} FinishKeeps<I, R>(p: Progress<I, R>)
    ensures Flat(Finish(p)) == Flat(p)
  {
    match p
    case RowsOpen(rows) => if CompleteRows(rows) { UnsettleSettle(rows); }
    case FieldsOpen(fields) => if AllCompleted(fields) { SettlementsFlat(fields); }
    case _ =>
  }

  /** Settling as unattempted changes no item's custody, however far the lane had come. */
  lemma {:induction false} SkipKeeps<I, R>(p: Progress<I, R>)
    ensures Flat(Skip(p)) == Flat(p)
    decreases p, 0
  {
    match p
    case Original(lane) => SkipOriginal<I, R>(lane);
    case FieldsOpen(fields) =>
      SkipAllKeeps(fields);
      FinishKeeps(FieldsOpen(SkipAll(fields)));
    case OneOpen(_) => FinishKeeps(p);
    case _ =>
  }

  lemma {:induction false} SkipAllKeeps<I, R>(fields: seq<Progress<I, R>>)
    ensures FlatAll(SkipAll(fields)) == FlatAll(fields)
    decreases fields, 1
  {
    if fields != [] {
      SkipKeeps(fields[0]);
      SkipAllKeeps(fields[1..]);
      var skipped := SkipAll(fields);
      assert skipped[0] == Skip(fields[0]) && skipped[1..] == SkipAll(fields[1..]);
    }
  }

  lemma {:induction false} SkipAllOriginal<I, R>(fields: seq<Progress<I, R>>)
    requires AllOriginal(fields)
    ensures AllCompleted(SkipAll(fields)) && FlatAll(SkipAll(fields)) == FlatAll(fields)
  {
    if fields != [] {
      SkipOriginal<I, R>(fields[0].lane);
      SkipAllOriginal(fields[1..]);
      var skipped := SkipAll(fields);
      assert skipped[0] == Skip(fields[0]) && skipped[1..] == SkipAll(fields[1..]);
    }
  }

  lemma {:induction false} AllDoneFinish<I, R>(fields: seq<Progress<I, R>>)
    requires AllDone(fields)
    ensures AllCompleted(fields) && !AnyCorrupt(fields) && CleanRows(FlatAll(fields))
  {
    if fields != [] {
      AllDoneFinish(fields[1..]);
      CleanConcat(Flat(fields[0]), FlatAll(fields[1..]));
    }
  }

  // ---------------------------------------------------------------------
  // The main simulation.

  /** What a call on live progress leaves, compared with the flat traversal of its rows. */
  ghost predicate Simulates<I, R>(r: Turn<I, R>, f: Scanned<I, R>) {
    && r.offers == f.offers && r.rest == f.rest && r.dropped == f.dropped
    && Flat(r.progress) == f.rows
    && (f.dropped ==> f.end == Halted)
    && (f.end == AllClean ==> Done(r.progress))
    && (f.end == Spoilt ==> r.progress.Completed? && r.progress.corrupt)
    && (f.end == Halted ==> Live(r.progress) && (!f.dropped ==> Finish(r.progress) == r.progress))
  }

  ghost predicate SimulatesFields<I, R>(r: FieldsTurn<I, R>, f: Scanned<I, R>) {
    && r.offers == f.offers && r.rest == f.rest && r.dropped == f.dropped && r.end == f.end
    && FlatAll(r.fields) == f.rows
    && (f.dropped ==> f.end == Halted)
    && (f.end == AllClean ==> AllDone(r.fields))
    && (f.end == Spoilt ==> AllCompleted(r.fields) && AnyCorrupt(r.fields))
    && (f.end == Halted ==> LiveFields(r.fields) && (!f.dropped ==> !AllCompleted(r.fields)))
  }

  lemma {:induction false} RowsSimulate<I, R>(rows: seq<Row<I, R>>, script: seq<Answer<I, R>>)
    requires Staged(rows)
    ensures Simulates(Interpret(RowsOpen(rows), script), Scan(rows, script))
  {
    ScanLeaves(rows, script);
    var f := Scan(rows, script);
    if f.end == AllClean {
      CompleteClean(f.rows);
      UnsettleSettle(f.rows);
    } else if f.end == Spoilt {
      CompleteSpoilt(f.rows);
      UnsettleSettle(f.rows);
    } else if !f.dropped {
      IncompleteStuck(f.rows);
    }
  }

  lemma {:induction false} OneSimulates<I, R>(row: Row<I, R>, script: seq<Answer<I, R>>)
    ensures Simulates(Interpret(OneOpen(row), script), Scan([row], script))
  {
    assert [row][1..] == [];
    if Fresh(row) && script != [] {
      var left := Answered(row, script[0]);
      assert [left] + [] == [left];
      assert [left][1..] == [];
    }
  }

  lemma {:induction false} InterpretSimulates<I, R>(p: Progress<I, R>, script: seq<Answer<I, R>>)
    requires Live(p)
    ensures Simulates(Interpret(p, script), Scan(Flat(p), script))
    decreases ProgressSize(p), 0
  {
    PrepareFlat(p);
    var begun := Prepare(p);
    assert Interpret(begun, script) == Interpret(p, script);
    match begun
    case RowsOpen(rows) => RowsSimulate(rows, script);
    case OneOpen(row) => OneSimulates(row, script);
    case FieldsOpen(fields) =>
      FieldsSimulate(fields, script);
      var r := InterpretFields(fields, script);
      if r.end == AllClean {
        AllDoneFinish(r.fields);
        SettlementsFlat(r.fields);
      } else if r.end == Spoilt {
        SettlementsFlat(r.fields);
      }
  }

  lemma {:induction false} FieldsSimulate<I, R>(fields: seq<Progress<I, R>>, script: seq<Answer<I, R>>)
    requires LiveFields(fields)
    ensures SimulatesFields(InterpretFields(fields, script), Scan(FlatAll(fields), script))
    decreases FieldsSize(fields), 1 + |fields|
  {
    if fields != [] {
      ScanConcat(Flat(fields[0]), FlatAll(fields[1..]), script);
      if Done(fields[0]) {
        ScanClean(Flat(fields[0]), script);
        FieldsSimulate(fields[1..], script);
        FieldsStep(fields, script);
      } else {
        InterpretSimulates(fields[0], script);
        var first := Interpret(fields[0], script);
        if Scan(Flat(fields[0]), script).end == AllClean {
          OriginalsLive(fields[1..]);
          FieldsSimulate(fields[1..], first.rest);
          FieldsStep(fields, script);
        } else {
          FieldsStop(fields, script);
        }
      }
    }
  }

  /** The current lane is clean: the rest of the product follows. */
  lemma {:induction false} FieldsStep<I, R>(fields: seq<Progress<I, R>>, script: seq<Answer<I, R>>)
    requires fields != []
    requires var r := Interpret(fields[0], script);
             var f := Scan(Flat(fields[0]), script);
             && f.end == AllClean && !f.dropped && Done(r.progress) && Flat(r.progress) == f.rows
             && r.offers == f.offers && r.rest == f.rest && r.dropped == f.dropped
             && SimulatesFields(InterpretFields(fields[1..], r.rest), Scan(FlatAll(fields[1..]), f.rest))
    ensures SimulatesFields(InterpretFields(fields, script), Scan(FlatAll(fields), script))
  {
    ScanConcat(Flat(fields[0]), FlatAll(fields[1..]), script);
    var first := Interpret(fields[0], script);
    var later := InterpretFields(fields[1..], first.rest);
    var all := InterpretFields(fields, script).fields;
    assert all == [first.progress] + later.fields;
    assert all[0] == first.progress && all[1..] == later.fields;
  }

  /** The current lane halts or is corrupt: nothing later is attempted. */
  lemma {:induction false} FieldsStop<I, R>(fields: seq<Progress<I, R>>, script: seq<Answer<I, R>>)
    requires fields != [] && AllOriginal(fields[1..])
    requires Simulates(Interpret(fields[0], script), Scan(Flat(fields[0]), script))
    requires Scan(Flat(fields[0]), script).end != AllClean
    ensures SimulatesFields(InterpretFields(fields, script), Scan(FlatAll(fields), script))
  {
    ScanConcat(Flat(fields[0]), FlatAll(fields[1..]), script);
    SkipAllOriginal(fields[1..]);
    var first := Interpret(fields[0], script);
    var r := InterpretFields(fields, script);
    assert r.fields[0] == first.progress;
    assert r.fields[1..] == if r.end == Spoilt then SkipAll(fields[1..]) else fields[1..];
  }

  // ---------------------------------------------------------------------
  // Whole runs: any number of calls, each interrupted anywhere.

  datatype History<+I, +R> = History(progress: Progress<I, R>, offers: seq<Item<I>>)

  function Calls<I, R>(p: Progress<I, R>, scripts: seq<seq<Answer<I, R>>>): History<I, R> {
    if scripts == [] then History(p, [])
    else
      var before := Calls(p, scripts[..|scripts| - 1]);
      var r := Interpret(before.progress, scripts[|scripts| - 1]);
      History(r.progress, before.offers + r.offers)
  }

  /** Two progress values with the same custody and the same verdict, if any. */
  ghost predicate SameCustody<I, R>(p: Progress<I, R>, q: Progress<I, R>) {
    && Flat(p) == Flat(q)
    && ((Live(p) && Live(q)) || (p.Completed? && q.Completed? && p.corrupt == q.corrupt))
  }

  lemma {:induction false} SameCustodyStep<I, R>(p: Progress<I, R>, q: Progress<I, R>, script: seq<Answer<I, R>>)
    requires SameCustody(p, q)
    ensures SameCustody(Interpret(p, script).progress, Interpret(q, script).progress)
    ensures Interpret(p, script).offers == Interpret(q, script).offers
  {
    if Live(p) {
      InterpretSimulates(p, script);
      InterpretSimulates(q, script);
    }
  }

  lemma {:induction false} SameCustodyRun<I, R>(p: Progress<I, R>, q: Progress<I, R>, scripts: seq<seq<Answer<I, R>>>)
    requires SameCustody(p, q)
    ensures SameCustody(Calls(p, scripts).progress, Calls(q, scripts).progress)
    ensures Calls(p, scripts).offers == Calls(q, scripts).offers
  {
    if scripts != [] {
      var n := |scripts| - 1;
      SameCustodyRun(p, q, scripts[..n]);
      SameCustodyStep(Calls(p, scripts[..n]).progress, Calls(q, scripts[..n]).progress, scripts[n]);
    }
  }

  /**
   * Any tree of lanes, under any interpreter answers and any interruptions, offers the same items
   * in the same order, leaves the same custody, and reaches the same verdict as one flat reply
   * lane that holds its items.
   */
  lemma {:induction false} NestingIsInvisible<I, R>(lane: Lane<I>, scripts: seq<seq<Answer<I, R>>>)
    ensures var tree := Calls(Original(lane), scripts);
            var flat := Calls(Original(Rows(Items(lane))), scripts);
            && tree.offers == flat.offers
            && SameCustody(tree.progress, flat.progress)
  {
    SameCustodyRun<I, R>(Original(lane), Original(Rows(Items(lane))), scripts);
  }

  /** Custody reached from fresh rows: same routes, clean prefix, one row in flight, intact suffix. */
  predicate Progressed<I(==), R(==)>(start: seq<Row<I, R>>, rows: seq<Row<I, R>>) {
    |start| == |rows|
    && (rows == []
        || (rows[0].route == start[0].route
            && if Clean(rows[0]) then Progressed(start[1..], rows[1..]) else rows[1..] == start[1..]))
  }

  lemma {:induction false} ProgressedRefl<I, R>(start: seq<Row<I, R>>)
    requires AllFresh(start)
    ensures Progressed(start, start)
  {}

  lemma {:induction false} ScanProgresses<I, R>(start: seq<Row<I, R>>, rows: seq<Row<I, R>>, script: seq<Answer<I, R>>)
    requires AllFresh(start) && Progressed(start, rows)
    ensures Progressed(start, Scan(rows, script).rows)
  {
    if rows != [] {
      if Clean(rows[0]) {
        ScanProgresses(start[1..], rows[1..], script);
      } else if Fresh(rows[0]) && script != [] {
        ProgressedRefl(start[1..]);
        ScanProgresses(start[1..], rows[1..], script[1..]);
      }
    }
  }

  lemma {:induction false} RunProgresses<I, R>(lane: Lane<I>, scripts: seq<seq<Answer<I, R>>>)
    ensures var p := Calls<I, R>(Original(lane), scripts).progress;
            && Progressed(FreshRows(Items(lane)), Flat(p))
            && (Live(p)
                || (p.Completed? && (if p.corrupt then SpoiltRows(Flat(p)) else CleanRows(Flat(p)))))
  {
    var start := FreshRows<I, R>(Items(lane));
    FreshRowsFresh<I, R>(Items(lane));
    if scripts == [] {
      ProgressedRefl(start);
    } else {
      var n := |scripts| - 1;
      RunProgresses<I, R>(lane, scripts[..n]);
      var before := Calls<I, R>(Original(lane), scripts[..n]).progress;
      if Live(before) {
        InterpretSimulates(before, scripts[n]);
        LiveStaged(before);
        ScanLeaves(Flat(before), scripts[n]);
        ScanProgresses(start, Flat(before), scripts[n]);
      }
    }
  }

  /**
   * A completed interpretation: without corruption every item was attempted and cleanly settled;
   * with it there is a first corrupt item, everything before it is cleanly settled, and everything
   * after it, in whatever lane, is unattempted and is the original item.
   */
  lemma {:induction false} CompletedShape<I, R>(lane: Lane<I>, scripts: seq<seq<Answer<I, R>>>) returns (k: nat)
    requires Calls<I, R>(Original(lane), scripts).progress.Completed?
    ensures var p := Calls<I, R>(Original(lane), scripts).progress;
            var rows := Flat(p);
            && |rows| == |Items(lane)|
            && (forall i :: 0 <= i < |rows| ==> rows[i].route == Items(lane)[i].route)
            && k <= |rows| && (p.corrupt <==> k < |rows|)
            && (forall i :: 0 <= i < k ==> Clean(rows[i]))
            && (k < |rows| ==> Spoiled(rows[k]))
            && (forall i :: k < i < |rows| ==> rows[i] == FreshRow(Items(lane)[i]))
  {
    RunProgresses<I, R>(lane, scripts);
    var p := Calls<I, R>(Original(lane), scripts).progress;
    FreshRowsFresh<I, R>(Items(lane));
    FreshRowsAt<I, R>(Items(lane));
    k := ProgressedShape(FreshRows<I, R>(Items(lane)), Flat(p));
    if p.corrupt { SpoiltAt(Flat(p), k); } else { CleanAt(Flat(p)); }
  }

  lemma {:induction false} FreshRowsAt<I, R>(items: seq<Item<I>>)
    ensures |FreshRows<I, R>(items)| == |items|
    ensures forall i :: 0 <= i < |items| ==> FreshRows<I, R>(items)[i] == FreshRow(items[i])
  {
    if items != [] { FreshRowsAt<I, R>(items[1..]); }
  }

  lemma {:induction false} ProgressedShape<I, R>(start: seq<Row<I, R>>, rows: seq<Row<I, R>>) returns (k: nat)
    requires Progressed(start, rows)
    ensures k <= |rows| && forall i :: 0 <= i < k ==> Clean(rows[i])
    ensures k < |rows| ==> !Clean(rows[k])
    ensures forall i :: 0 <= i < |rows| && i != k ==> rows[i].route == start[i].route
    ensures k < |rows| ==> rows[k].route == start[k].route
    ensures forall i :: k < i < |rows| ==> rows[i] == start[i]
  {
    if rows == [] {
      k := 0;
    } else if Clean(rows[0]) {
      var j := ProgressedShape(start[1..], rows[1..]);
      k := j + 1;
      assert forall i :: 0 < i < |rows| ==> rows[i] == rows[1..][i - 1] && start[i] == start[1..][i - 1];
    } else {
      k := 0;
      assert forall i :: 0 < i < |rows| ==> rows[i] == rows[1..][i - 1] && start[i] == start[1..][i - 1];
    }
  }

  lemma {:induction false} SpoiltAt<I, R>(rows: seq<Row<I, R>>, k: nat)
    requires SpoiltRows(rows) && k <= |rows|
    requires (forall i :: 0 <= i < k ==> Clean(rows[i])) && (k < |rows| ==> !Clean(rows[k]))
    ensures k < |rows| && Spoiled(rows[k])
  {
    if Clean(rows[0]) {
      assert k > 0;
      SpoiltAt(rows[1..], k - 1);
    }
  }

  lemma {:induction false} CleanAt<I, R>(rows: seq<Row<I, R>>)
    requires CleanRows(rows)
    ensures forall i :: 0 <= i < |rows| ==> Clean(rows[i])
  {
    if rows != [] { CleanAt(rows[1..]); }
  }
}

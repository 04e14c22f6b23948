/** Which items a run of interrupted and resumed calls offers, and what it leaves of the others. */
module CustodyRuns {
  import opened Base
  import opened Interpretation
  import opened InterpretationLaws

  // ---------------------------------------------------------------------
  // One traversal.

  /** The answer settles its item without corruption, so the traversal goes on. */
  predicate Settles<I, R>(a: Answer<I, R>) {
    !a.dropped && a.input.None? && a.reply.Some? && !a.reply.value.Corrupt?
  }

  /** The positions one scan offers. */
  function OfferedAt<I, R>(rows: seq<Row<I, R>>, script: seq<Answer<I, R>>, base: nat): seq<nat> {
    if rows == [] then []
    else if Clean(rows[0]) then OfferedAt(rows[1..], script, base + 1)
    else if !Fresh(rows[0]) || script == [] then []
    else if !Settles(script[0]) then [base]
    else [base] + OfferedAt(rows[1..], script[1..], base + 1)
  }

  /** The offers are the items of fresh rows at these positions, in increasing order. */
  ghost predicate OffersOf<I, R>(rows: seq<Row<I, R>>, base: nat, at: seq<nat>, offers: seq<Item<I>>) {
    && |at| == |offers|
    && (forall j :: 0 <= j < |at| ==>
          && base <= at[j] < base + |rows| && Fresh(rows[at[j] - base])
          && offers[j] == Item(rows[at[j] - base].route, rows[at[j] - base].input.value))
    && (forall j, l :: 0 <= j < l < |at| ==> at[j] < at[l])
  }

  lemma {:induction false} OffersShift<I, R>(rows: seq<Row<I, R>>, base: nat, at: seq<nat>, offers: seq<Item<I>>)
    requires rows != [] && OffersOf(rows[1..], base + 1, at, offers)
    ensures OffersOf(rows, base, at, offers)
  {
    forall j | 0 <= j < |at|
      ensures base < at[j] < base + |rows| && rows[at[j] - base] == rows[1..][at[j] - (base + 1)]
    {
      assert base + 1 <= at[j] < base + 1 + |rows[1..]|;
    }
  }

  lemma {:induction false} OffersCons<I, R>(rows: seq<Row<I, R>>, base: nat, at: seq<nat>, offers: seq<Item<I>>)
    requires rows != [] && Fresh(rows[0]) && OffersOf(rows[1..], base + 1, at, offers)
    ensures OffersOf(rows, base, [base] + at, [Item(rows[0].route, rows[0].input.value)] + offers)
  {
    OffersShift(rows, base, at, offers);
    var more, all := [base] + at, [Item(rows[0].route, rows[0].input.value)] + offers;
    forall j | 0 <= j < |at| ensures base + 1 <= at[j] {}
    forall j | 0 <= j < |more|
      ensures && base <= more[j] < base + |rows| && Fresh(rows[more[j] - base])
              && all[j] == Item(rows[more[j] - base].route, rows[more[j] - base].input.value)
    {
      if j > 0 { assert more[j] == at[j - 1] && all[j] == offers[j - 1]; }
    }
    forall j, l | 0 <= j < l < |more| ensures more[j] < more[l] {
      assert more[l] == at[l - 1];
      if j > 0 { assert more[j] == at[j - 1]; }
    }
  }

  lemma {:induction false} OfferedFresh<I, R>(rows: seq<Row<I, R>>, script: seq<Answer<I, R>>, base: nat)
    ensures OffersOf(rows, base, OfferedAt(rows, script, base), Scan(rows, script).offers)
  {
    if rows != [] {
      if Clean(rows[0]) {
        OfferedFresh(rows[1..], script, base + 1);
        OffersShift(rows, base, OfferedAt(rows[1..], script, base + 1), Scan(rows[1..], script).offers);
        assert [] + Scan(rows[1..], script).offers == Scan(rows[1..], script).offers;
      } else if Fresh(rows[0]) && script != [] {
        var item := Item(rows[0].route, rows[0].input.value);
        if !Settles(script[0]) {
          OffersCons(rows, base, [], []);
          assert [base] + [] == [base] && [item] + [] == [item];
        } else {
          OfferedFresh(rows[1..], script[1..], base + 1);
          OffersCons(rows, base, OfferedAt(rows[1..], script[1..], base + 1), Scan(rows[1..], script[1..]).offers);
        }
      }
    }
  }

  lemma {:induction false} FrozenRow<I, R>(rows: seq<Row<I, R>>, script: seq<Answer<I, R>>, i: nat)
    requires i < |rows| && !Fresh(rows[i])
    ensures |Scan(rows, script).rows| == |rows| && Scan(rows, script).rows[i] == rows[i]
  {
    if Clean(rows[0]) {
      if i > 0 { FrozenRow(rows[1..], script, i - 1); } else { ScanLength(rows[1..], script); }
    } else if Fresh(rows[0]) && script != [] {
      FrozenRow(rows[1..], script[1..], i - 1);
    }
  }

  lemma {:induction false} ScanLength<I, R>(rows: seq<Row<I, R>>, script: seq<Answer<I, R>>)
    ensures |Scan(rows, script).rows| == |rows|
  {
    if rows != [] {
      ScanLength(rows[1..], script);
      if script != [] { ScanLength(rows[1..], script[1..]); }
    }
  }

  lemma {:induction false} ScanSpoilt<I, R>(rows: seq<Row<I, R>>, script: seq<Answer<I, R>>)
    requires SpoiltRows(rows)
    ensures Scan(rows, script) == Scanned(rows, [], script, Spoilt, false)
  {
    if Clean(rows[0]) {
      ScanSpoilt(rows[1..], script);
      assert [rows[0]] + rows[1..] == rows;
    }
  }

  /** A row that is not offered keeps its custody. */
  lemma {:induction false} UnofferedRow<I, R>(rows: seq<Row<I, R>>, script: seq<Answer<I, R>>, base: nat, i: nat)
    requires i < |rows| && base + i !in OfferedAt(rows, script, base)
    ensures |Scan(rows, script).rows| == |rows| && Scan(rows, script).rows[i] == rows[i]
  {
    ScanLength(rows, script);
    if Clean(rows[0]) {
      if i > 0 { UnofferedRow(rows[1..], script, base + 1, i - 1); }
    } else if Fresh(rows[0]) && script != [] && Settles(script[0]) {
      var later := OfferedAt(rows[1..], script[1..], base + 1);
      assert ([base] + later)[0] == base && i > 0;
      assert ([base] + later)[1..] == later;
      UnofferedRow(rows[1..], script[1..], base + 1, i - 1);
    }
  }

  /** Whatever lies before an offered row is settled when the call ends. */
  lemma {:induction false} BehindOffered<I, R>(
    rows: seq<Row<I, R>>, script: seq<Answer<I, R>>, base: nat, q: nat, i: nat)
    requires q in OfferedAt(rows, script, base) && base + i < q
    ensures i < |rows| == |Scan(rows, script).rows| && !Fresh(Scan(rows, script).rows[i])
  {
    ScanLength(rows, script);
    if Clean(rows[0]) {
      OfferedWithin(rows[1..], script, base + 1, q);
      if i > 0 { BehindOffered(rows[1..], script, base + 1, q, i - 1); }
    } else {
      var later := OfferedAt(rows[1..], script[1..], base + 1);
      assert q in later;
      OfferedWithin(rows[1..], script[1..], base + 1, q);
      if i > 0 { BehindOffered(rows[1..], script[1..], base + 1, q, i - 1); }
    }
  }

  lemma {:induction false} OfferedWithin<I, R>(rows: seq<Row<I, R>>, script: seq<Answer<I, R>>, base: nat, q: nat)
    requires q in OfferedAt(rows, script, base)
    ensures base <= q < base + |rows| && Fresh(rows[q - base])
  {
    OfferedFresh(rows, script, base);
  }

  // ---------------------------------------------------------------------
  // Whole runs of calls on a tree of lanes.

  /** Custody after these calls. */
  function Custody<I, R>(lane: Lane<I>, scripts: seq<seq<Answer<I, R>>>): seq<Row<I, R>> {
    Flat(Calls(Original(lane), scripts).progress)
  }

  /** The positions offered by these calls, in order. */
  function Tried<I, R>(lane: Lane<I>, scripts: seq<seq<Answer<I, R>>>): seq<nat> {
    if scripts == [] then []
    else
      var before := scripts[..|scripts| - 1];
      Tried(lane, before) + OfferedAt(Custody(lane, before), scripts[|scripts| - 1], 0)
  }

  /** A call, on whatever an earlier run left, offers and leaves what one traversal of the custody does. */
  lemma {:induction false} CallIsScan<I, R>(lane: Lane<I>, scripts: seq<seq<Answer<I, R>>>, script: seq<Answer<I, R>>)
    ensures var p := Calls<I, R>(Original(lane), scripts).progress;
            && Flat(Interpret(p, script).progress) == Scan(Flat(p), script).rows
            && Interpret(p, script).offers == Scan(Flat(p), script).offers
  {
    var p := Calls<I, R>(Original(lane), scripts).progress;
    RunProgresses<I, R>(lane, scripts);
    if Live(p) {
      InterpretSimulates(p, script);
    } else if p.corrupt {
      ScanSpoilt(Flat(p), script);
    } else {
      ScanClean(Flat(p), script);
    }
  }

  lemma {:induction false} StuckIsOpen<I, R>(rows: seq<Row<I, R>>)
    requires StuckRows(rows)
    ensures !CleanRows(rows) && !SpoiltRows(rows)
  {
    if Clean(rows[0]) { StuckIsOpen(rows[1..]); }
  }

  lemma {:induction false} CleanOrSpoilt<I, R>(rows: seq<Row<I, R>>)
    ensures !(CleanRows(rows) && SpoiltRows(rows))
  {
    if rows != [] && Clean(rows[0]) { CleanOrSpoilt(rows[1..]); }
  }

  /**
   * A call that was not dropped completes exactly when every item is cleanly settled, or everything up to
   * a corrupt item is and the rest is untouched; and it is corrupt exactly in the second case.
   */
  lemma {:induction false} CompletesExactly<I, R>(
    lane: Lane<I>, scripts: seq<seq<Answer<I, R>>>, script: seq<Answer<I, R>>)
    ensures var r := Interpret(Calls<I, R>(Original(lane), scripts).progress, script);
            var rows := Flat(r.progress);
            !r.dropped ==>
              && (r.progress.Completed? <==> CleanRows(rows) || SpoiltRows(rows))
              && (r.progress.Completed? ==> (r.progress.corrupt <==> SpoiltRows(rows)))
  {
    var p := Calls<I, R>(Original(lane), scripts).progress;
    RunProgresses<I, R>(lane, scripts);
    if Live(p) {
      InterpretSimulates(p, script);
      LiveStaged(p);
      ScanLeaves(Flat(p), script);
      var f := Scan(Flat(p), script);
      CleanOrSpoilt(f.rows);
      if f.end == Halted && !f.dropped { StuckIsOpen(f.rows); }
    } else {
      CleanOrSpoilt(Flat(p));
    }
  }

  function Scans<I, R>(rows: seq<Row<I, R>>, scripts: seq<seq<Answer<I, R>>>): seq<Row<I, R>> {
    if scripts == [] then rows else Scan(Scans(rows, scripts[..|scripts| - 1]), scripts[|scripts| - 1]).rows
  }

  /** Custody after any calls on any tree is that of as many traversals of its flat list of items. */
  lemma {:induction false} CallsAreScans<I, R>(lane: Lane<I>, scripts: seq<seq<Answer<I, R>>>)
    ensures Custody<I, R>(lane, scripts) == Scans(FreshRows(Items(lane)), scripts)
  {
    if scripts != [] {
      var n := |scripts| - 1;
      CallsAreScans<I, R>(lane, scripts[..n]);
      CallIsScan<I, R>(lane, scripts[..n], scripts[n]);
    }
  }

  lemma {:induction false} CustodyLength<I, R>(lane: Lane<I>, scripts: seq<seq<Answer<I, R>>>)
    ensures |Custody<I, R>(lane, scripts)| == |Items(lane)|
  {
    RunProgresses<I, R>(lane, scripts);
    FreshRowsAt<I, R>(Items(lane));
  }

  lemma {:induction false} FrozenCall<I, R>(
    lane: Lane<I>, scripts: seq<seq<Answer<I, R>>>, script: seq<Answer<I, R>>, i: nat)
    requires i < |Custody<I, R>(lane, scripts)| && !Fresh(Custody<I, R>(lane, scripts)[i])
    ensures |Custody<I, R>(lane, scripts + [script])| == |Custody<I, R>(lane, scripts)|
    ensures Custody<I, R>(lane, scripts + [script])[i] == Custody<I, R>(lane, scripts)[i]
    ensures i !in OfferedAt(Custody<I, R>(lane, scripts), script, 0)
  {
    CustodyNext<I, R>(lane, scripts, script);
    FrozenRow(Custody<I, R>(lane, scripts), script, i);
    OfferedFresh(Custody<I, R>(lane, scripts), script, 0);
  }

  lemma {:induction false} CustodyNext<I, R>(lane: Lane<I>, scripts: seq<seq<Answer<I, R>>>, script: seq<Answer<I, R>>)
    ensures Custody<I, R>(lane, scripts + [script]) == Scan(Custody<I, R>(lane, scripts), script).rows
  {
    assert (scripts + [script])[..|scripts|] == scripts;
    CallIsScan<I, R>(lane, scripts, script);
  }

  /** After these calls item `i` is still in this custody and was not offered after the first `earlier` offers. */
  ghost predicate KeptSince<I, R>(
    lane: Lane<I>, scripts: seq<seq<Answer<I, R>>>, earlier: nat, i: nat, row: Row<I, R>)
  {
    && i < |Custody<I, R>(lane, scripts)| && Custody<I, R>(lane, scripts)[i] == row
    && earlier <= |Tried<I, R>(lane, scripts)| && i !in Tried<I, R>(lane, scripts)[earlier..]
  }

  lemma {:induction false} TriedNext<I, R>(lane: Lane<I>, scripts: seq<seq<Answer<I, R>>>, script: seq<Answer<I, R>>)
    ensures Tried<I, R>(lane, scripts + [script])
            == Tried<I, R>(lane, scripts) + OfferedAt(Custody<I, R>(lane, scripts), script, 0)
  {
    assert (scripts + [script])[..|scripts|] == scripts;
  }

  lemma {:induction false} NotInLater(a: seq<nat>, b: seq<nat>, n: nat, i: nat)
    requires n <= |a| && i !in a[n..] && i !in b
    ensures n <= |a + b| && i !in (a + b)[n..]
  {
    assert (a + b)[n..] == a[n..] + b;
  }

  lemma {:induction false} KeptByCall<I, R>(
    lane: Lane<I>, scripts: seq<seq<Answer<I, R>>>, script: seq<Answer<I, R>>, earlier: nat, i: nat, row: Row<I, R>)
    requires KeptSince(lane, scripts, earlier, i, row) && !Fresh(row)
    ensures KeptSince(lane, scripts + [script], earlier, i, row)
  {
    FrozenCall<I, R>(lane, scripts, script, i);
    TriedNext<I, R>(lane, scripts, script);
    NotInLater(Tried<I, R>(lane, scripts), OfferedAt(Custody<I, R>(lane, scripts), script, 0), earlier, i);
  }

  /**
   * Once an item's input was taken or answered, after any `k` calls, its custody stays as it is and
   * no later call, however interrupted and resumed, offers it.
   */
  lemma {:induction false} NeverOfferedAgain<I, R>(lane: Lane<I>, scripts: seq<seq<Answer<I, R>>>, k: nat, i: nat)
    requires k <= |scripts| && i < |Custody<I, R>(lane, scripts[..k])| && !Fresh(Custody<I, R>(lane, scripts[..k])[i])
    ensures var earlier, row := |Tried<I, R>(lane, scripts[..k])|, Custody<I, R>(lane, scripts[..k])[i];
            KeptSince(lane, scripts, earlier, i, row)
  {
    if k == |scripts| {
      assert scripts[..k] == scripts;
    } else {
      var n := |scripts| - 1;
      var before := scripts[..n];
      assert before[..k] == scripts[..k] && scripts == before + [scripts[n]];
      NeverOfferedAgain<I, R>(lane, before, k, i);
      var earlier, row := |Tried<I, R>(lane, scripts[..k])|, Custody<I, R>(lane, scripts[..k])[i];
      KeptByCall(lane, before, scripts[n], earlier, i, row);
    }
  }

  ghost predicate IsOriginal<I, R>(rows: seq<Row<I, R>>, items: seq<Item<I>>, i: nat) {
    i < |items| == |rows| && rows[i] == FreshRow(items[i])
  }

  /** An item no call has offered is exactly as it was given. */
  lemma {:induction false} UntriedIsOriginal<I, R>(lane: Lane<I>, scripts: seq<seq<Answer<I, R>>>, i: nat)
    requires i < |Items(lane)| && i !in Tried<I, R>(lane, scripts)
    ensures IsOriginal(Custody<I, R>(lane, scripts), Items(lane), i)
  {
    if scripts == [] {
      FreshRowsAt<I, R>(Items(lane));
    } else {
      var n := |scripts| - 1;
      var before, script := scripts[..n], scripts[n];
      assert scripts == before + [script];
      TriedNext<I, R>(lane, before, script);
      CustodyNext<I, R>(lane, before, script);
      UntriedIsOriginal<I, R>(lane, before, i);
      UnofferedRow(Custody<I, R>(lane, before), script, 0, i);
    }
  }

  /** Everything before an offered item is settled. */
  lemma {:induction false} BehindTried<I, R>(lane: Lane<I>, scripts: seq<seq<Answer<I, R>>>, q: nat, i: nat)
    requires q in Tried<I, R>(lane, scripts) && i < q
    ensures i < |Custody<I, R>(lane, scripts)| && !Fresh(Custody<I, R>(lane, scripts)[i])
  {
    var n := |scripts| - 1;
    CallIsScan<I, R>(lane, scripts[..n], scripts[n]);
    if q in Tried<I, R>(lane, scripts[..n]) {
      BehindTried<I, R>(lane, scripts[..n], q, i);
      FrozenRow(Custody<I, R>(lane, scripts[..n]), scripts[n], i);
    } else {
      BehindOffered(Custody<I, R>(lane, scripts[..n]), scripts[n], 0, q, i);
    }
  }

  ghost predicate Ordered(at: seq<nat>) {
    forall j, l :: 0 <= j < l < |at| ==> at[j] <= at[l]
  }

  ghost predicate OwnRoutes<I>(items: seq<Item<I>>, at: seq<nat>, offers: seq<Item<I>>) {
    |at| == |offers| && forall j :: 0 <= j < |at| ==> at[j] < |items| && offers[j].route == items[at[j]].route
  }

  /** The first offer of each item is the item itself. */
  ghost predicate OriginalFirst<I>(items: seq<Item<I>>, at: seq<nat>, offers: seq<Item<I>>)
    requires OwnRoutes(items, at, offers)
  {
    forall j :: 0 <= j < |at| && at[j] !in at[..j] ==> offers[j] == items[at[j]]
  }

  /** What one more call offers, as positions of the lane's items. */
  lemma {:induction false} NextOffers<I, R>(lane: Lane<I>, scripts: seq<seq<Answer<I, R>>>, script: seq<Answer<I, R>>)
    ensures var at := OfferedAt(Custody<I, R>(lane, scripts), script, 0);
            var offers := Interpret(Calls<I, R>(Original(lane), scripts).progress, script).offers;
            && OffersOf(Custody<I, R>(lane, scripts), 0, at, offers)
            && (forall j :: 0 <= j < |at| ==> at[j] < |Items(lane)|)
            && (forall j, l :: 0 <= j < |Tried<I, R>(lane, scripts)| && 0 <= l < |at| ==>
                  Tried<I, R>(lane, scripts)[j] <= at[l])
  {
    var rows := Custody<I, R>(lane, scripts);
    var at, tried := OfferedAt(rows, script, 0), Tried<I, R>(lane, scripts);
    CallIsScan<I, R>(lane, scripts, script);
    OfferedFresh(rows, script, 0);
    CustodyLength<I, R>(lane, scripts);
    forall j, l | 0 <= j < |tried| && 0 <= l < |at| ensures tried[j] <= at[l] {
      if at[l] < tried[j] { BehindTried<I, R>(lane, scripts, tried[j], at[l]); }
    }
  }

  /** Custody keeps the authored routes. */
  lemma {:induction false} RoutesKept<I, R>(lane: Lane<I>, scripts: seq<seq<Answer<I, R>>>, i: nat)
    requires i < |Items(lane)|
    ensures i < |Custody<I, R>(lane, scripts)| && Custody<I, R>(lane, scripts)[i].route == Items(lane)[i].route
  {
    RunProgresses<I, R>(lane, scripts);
    FreshRowsAt<I, R>(Items(lane));
    var k := ProgressedShape(FreshRows<I, R>(Items(lane)), Custody<I, R>(lane, scripts));
  }

  lemma {:induction false} AppendRoutes<I>(
    items: seq<Item<I>>, at: seq<nat>, offers: seq<Item<I>>, more: seq<nat>, added: seq<Item<I>>)
    requires OwnRoutes(items, at, offers) && OwnRoutes(items, more, added)
    ensures OwnRoutes(items, at + more, offers + added)
  {}

  lemma {:induction false} AppendOriginal<I>(
    items: seq<Item<I>>, at: seq<nat>, offers: seq<Item<I>>, more: seq<nat>, added: seq<Item<I>>)
    requires OwnRoutes(items, at, offers) && OwnRoutes(items, more, added) && OriginalFirst(items, at, offers)
    requires forall j :: 0 <= j < |more| && more[j] !in at ==> added[j] == items[more[j]]
    ensures OwnRoutes(items, at + more, offers + added) && OriginalFirst(items, at + more, offers + added)
  {
    AppendRoutes(items, at, offers, more, added);
    var all, every := at + more, offers + added;
    forall j | 0 <= j < |all| && all[j] !in all[..j] ensures every[j] == items[all[j]] {
      if j < |at| {
        assert all[..j] == at[..j];
      } else {
        assert all[..j] == at + more[..j - |at|];
        assert all[j] == more[j - |at|] && every[j] == added[j - |at|];
      }
    }
  }

  /**
   * Over every run of calls on every tree: items are offered in authored order, under their own
   * routes, and the first time an item is offered it is the item that was given.
   */
  lemma {:induction false} OfferedInOrder<I, R>(lane: Lane<I>, scripts: seq<seq<Answer<I, R>>>)
    ensures var at, offers := Tried<I, R>(lane, scripts), Calls<I, R>(Original(lane), scripts).offers;
            Ordered(at) && OwnRoutes(Items(lane), at, offers) && OriginalFirst(Items(lane), at, offers)
  {
    if scripts != [] {
      var n := |scripts| - 1;
      var before, rows := scripts[..n], Custody<I, R>(lane, scripts[..n]);
      var at := OfferedAt(rows, scripts[n], 0);
      var added := Interpret(Calls<I, R>(Original(lane), before).progress, scripts[n]).offers;
      OfferedInOrder<I, R>(lane, before);
      NextOffers<I, R>(lane, before, scripts[n]);
      forall j | 0 <= j < |at|
        ensures added[j].route == Items(lane)[at[j]].route
        ensures at[j] !in Tried<I, R>(lane, before) ==> added[j] == Items(lane)[at[j]]
      {
        RoutesKept<I, R>(lane, before, at[j]);
        if at[j] !in Tried<I, R>(lane, before) { UntriedIsOriginal<I, R>(lane, before, at[j]); }
      }
      var tried, offers := Tried<I, R>(lane, before), Calls<I, R>(Original(lane), before).offers;
      AppendOriginal(Items(lane), tried, offers, at, added);
    }
  }
}

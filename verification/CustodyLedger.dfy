/** Custody as a ledger of answers: what each await left, item by item, over whole runs of calls. */
module CustodyLedger {
  import opened Base
  import opened Interpretation
  import opened InterpretationLaws
  import opened CustodyRuns

  /** One await: which item was offered, and what the interpreter left. */
  datatype Entry<+I, +R> = Entry(at: nat, answer: Answer<I, R>)

  /** The interpreter kept the input or gave a reply: the item must not be offered again. */
  predicate Taken<I, R>(a: Answer<I, R>) {
    a.input.None? || a.reply.Some?
  }

  function Entries<I, R>(at: seq<nat>, script: seq<Answer<I, R>>): (log: seq<Entry<I, R>>)
    requires |at| <= |script|
    ensures |log| == |at| && forall j :: 0 <= j < |at| ==> log[j] == Entry(at[j], script[j])
  {
    seq(|at|, j requires 0 <= j < |at| => Entry(at[j], script[j]))
  }

  // ---------------------------------------------------------------------
  // One call.

  lemma {:induction false} OneAnswerEach<I, R>(rows: seq<Row<I, R>>, script: seq<Answer<I, R>>, base: nat)
    ensures |OfferedAt(rows, script, base)| <= |script|
    ensures Scan(rows, script).rest == script[|OfferedAt(rows, script, base)|..]
  {
    if rows != [] {
      if Clean(rows[0]) {
        OneAnswerEach(rows[1..], script, base + 1);
      } else if Fresh(rows[0]) && script != [] && Settles(script[0]) {
        OneAnswerEach(rows[1..], script[1..], base + 1);
      }
    }
  }

  /** The row at the j-th offered position ends with exactly what the j-th answer left, under its own route. */
  lemma {:induction false} AnswerIsLeft<I, R>(rows: seq<Row<I, R>>, script: seq<Answer<I, R>>, base: nat, j: nat)
    requires j < |OfferedAt(rows, script, base)|
    ensures j < |script|
    ensures var i := OfferedAt(rows, script, base)[j] - base;
            && 0 <= i < |rows| == |Scan(rows, script).rows|
            && Scan(rows, script).rows[i] == Row(rows[i].route, script[j].input, script[j].reply)
  {
    OneAnswerEach(rows, script, base);
    ScanLength(rows, script);
    if Clean(rows[0]) {
      AnswerIsLeft(rows[1..], script, base + 1, j);
    } else if j > 0 {
      AnswerIsLeft(rows[1..], script[1..], base + 1, j - 1);
    }
  }

  // ---------------------------------------------------------------------
  // Whole runs.

  /** Every await of a run of calls, in order. */
  ghost function Log<I, R>(lane: Lane<I>, scripts: seq<seq<Answer<I, R>>>): (log: seq<Entry<I, R>>)
  {
    if scripts == [] then []
    else
      var before, script := scripts[..|scripts| - 1], scripts[|scripts| - 1];
      OneAnswerEach(Custody(lane, before), script, 0);
      Log(lane, before) + Entries(OfferedAt(Custody(lane, before), script, 0), script)
  }

  /** What the items and the answers alone say about custody: the last answer for an item decides. */
  function Ledger<I, R>(items: seq<Item<I>>, log: seq<Entry<I, R>>): (rows: seq<Row<I, R>>)
    ensures |rows| == |items|
  {
    if log == [] then seq(|items|, i requires 0 <= i < |items| => Row(items[i].route, Some(items[i].payload), None))
    else
      var before, e := Ledger(items, log[..|log| - 1]), log[|log| - 1];
      if e.at < |items| then before[e.at := Row(items[e.at].route, e.answer.input, e.answer.reply)] else before
  }

  lemma {:induction false} LogNext<I, R>(lane: Lane<I>, scripts: seq<seq<Answer<I, R>>>, script: seq<Answer<I, R>>)
    ensures |OfferedAt(Custody<I, R>(lane, scripts), script, 0)| <= |script|
    ensures Log<I, R>(lane, scripts + [script])
            == Log<I, R>(lane, scripts) + Entries(OfferedAt(Custody<I, R>(lane, scripts), script, 0), script)
  {
    assert (scripts + [script])[..|scripts|] == scripts;
    OneAnswerEach(Custody<I, R>(lane, scripts), script, 0);
  }

  /** Positions in range and ascending: the answers of one call. */
  ghost predicate OneCall<I, R>(more: seq<Entry<I, R>>, n: nat) {
    && (forall j :: 0 <= j < |more| ==> more[j].at < n)
    && (forall j, l :: 0 <= j < l < |more| ==> more[j].at < more[l].at)
  }

  ghost predicate Mentions<I, R>(log: seq<Entry<I, R>>, i: nat) {
    exists j :: 0 <= j < |log| && log[j].at == i
  }

  /** Answers for other items leave an item's custody alone. */
  lemma {:induction false} LedgerKeeps<I, R>(
    items: seq<Item<I>>, log: seq<Entry<I, R>>, more: seq<Entry<I, R>>, i: nat)
    requires i < |items| && !Mentions(more, i)
    ensures Ledger(items, log + more)[i] == Ledger(items, log)[i]
  {
    if more == [] {
      assert log + more == log;
    } else {
      var n := |more| - 1;
      assert !Mentions(more[..n], i) by {
        assert forall j :: 0 <= j < n ==> more[..n][j] == more[j];
      }
      LedgerKeeps(items, log, more[..n], i);
      assert (log + more)[..|log| + n] == log + more[..n];
      assert more[n].at != i;
    }
  }

  /** Each answer of one call is what its item ends with. */
  lemma {:induction false} LedgerWrites<I, R>(
    items: seq<Item<I>>, log: seq<Entry<I, R>>, more: seq<Entry<I, R>>, j: nat)
    requires OneCall(more, |items|) && j < |more|
    ensures Ledger(items, log + more)[more[j].at]
            == Row(items[more[j].at].route, more[j].answer.input, more[j].answer.reply)
  {
    var upTo, after := more[..j + 1], more[j + 1..];
    assert (log + upTo)[..|log| + j] == log + more[..j] && (log + upTo)[|log| + j] == more[j];
    assert log + more == (log + upTo) + after;
    assert !Mentions(after, more[j].at) by {
      assert forall l :: 0 <= l < |after| ==> after[l] == more[j + 1 + l];
    }
    LedgerKeeps(items, log + upTo, after, more[j].at);
  }

  /**
   * Over every run of interrupted and resumed calls on every tree of lanes: custody is exactly what
   * the given items and the answers of the scripts say, item by item.
   */
  lemma {:induction false} CustodyIsLedger<I, R>(lane: Lane<I>, scripts: seq<seq<Answer<I, R>>>)
    ensures Custody<I, R>(lane, scripts) == Ledger(Items(lane), Log<I, R>(lane, scripts))
  {
    CustodyLength<I, R>(lane, scripts);
    if scripts == [] {
      FreshRowsAt<I, R>(Items(lane));
    } else {
      var n := |scripts| - 1;
      assert scripts == scripts[..n] + [scripts[n]];
      CustodyIsLedger<I, R>(lane, scripts[..n]);
      LedgerNext<I, R>(lane, scripts[..n], scripts[n]);
    }
  }

  lemma {:induction false} LedgerRoutes<I, R>(items: seq<Item<I>>, log: seq<Entry<I, R>>, i: nat)
    requires i < |items|
    ensures Ledger(items, log)[i].route == items[i].route
  {
    if log != [] {
      LedgerRoutes(items, log[..|log| - 1], i);
    }
  }

  /** The positions of one call are in range, ascend, and have one answer each. */
  lemma {:induction false} EntriesAscend<I, R>(rows: seq<Row<I, R>>, script: seq<Answer<I, R>>)
    ensures |OfferedAt(rows, script, 0)| <= |script|
    ensures OneCall(Entries(OfferedAt(rows, script, 0), script), |rows|)
  {
    OneAnswerEach(rows, script, 0);
    OfferedFresh(rows, script, 0);
  }

  /** What one call leaves at an offered position, as the ledger says. */
  lemma {:induction false} OfferedScanRow<I, R>(
    items: seq<Item<I>>, log: seq<Entry<I, R>>, rows: seq<Row<I, R>>, script: seq<Answer<I, R>>, at: seq<nat>, j: nat)
    requires rows == Ledger(items, log) && at == OfferedAt(rows, script, 0) && j < |at| <= |script|
    ensures at[j] < |Scan(rows, script).rows| == |items|
    ensures Scan(rows, script).rows[at[j]] == Ledger(items, log + Entries(at, script))[at[j]]
  {
    AnswerIsLeft(rows, script, 0, j);
    LedgerRoutes(items, log, at[j]);
    var more := Entries(at, script);
    assert OneCall(more, |items|) by {
      EntriesAscend(rows, script);
    }
    LedgerWrites(items, log, more, j);
    assert more[j] == Entry(at[j], script[j]);
  }

  lemma {:induction false} OtherScanRow<I, R>(
    items: seq<Item<I>>, log: seq<Entry<I, R>>, rows: seq<Row<I, R>>, script: seq<Answer<I, R>>, i: nat)
    requires rows == Ledger(items, log) && |OfferedAt(rows, script, 0)| <= |script|
    requires i < |items| && i !in OfferedAt(rows, script, 0)
    ensures i < |Scan(rows, script).rows|
    ensures Scan(rows, script).rows[i] == Ledger(items, log + Entries(OfferedAt(rows, script, 0), script))[i]
  {
    UnofferedRow(rows, script, 0, i);
    LedgerKeeps(items, log, Entries(OfferedAt(rows, script, 0), script), i);
  }

  lemma {:induction false} ScanIsLedger<I, R>(
    items: seq<Item<I>>, log: seq<Entry<I, R>>, rows: seq<Row<I, R>>, script: seq<Answer<I, R>>)
    requires rows == Ledger(items, log)
    ensures |OfferedAt(rows, script, 0)| <= |script|
    ensures Scan(rows, script).rows == Ledger(items, log + Entries(OfferedAt(rows, script, 0), script))
  {
    EntriesAscend(rows, script);
    ScanLength(rows, script);
    var left, kept := Scan(rows, script).rows, Ledger(items, log + Entries(OfferedAt(rows, script, 0), script));
    forall i | 0 <= i < |items| ensures left[i] == kept[i] {
      var at := OfferedAt(rows, script, 0);
      if i in at {
        var j :| 0 <= j < |at| && at[j] == i;
        OfferedScanRow(items, log, rows, script, at, j);
      } else {
        OtherScanRow(items, log, rows, script, i);
      }
    }
  }

  lemma {:induction false} LedgerNext<I, R>(lane: Lane<I>, scripts: seq<seq<Answer<I, R>>>, script: seq<Answer<I, R>>)
    requires Custody<I, R>(lane, scripts) == Ledger(Items(lane), Log<I, R>(lane, scripts))
    ensures Custody<I, R>(lane, scripts + [script]) == Ledger(Items(lane), Log<I, R>(lane, scripts + [script]))
  {
    CustodyNext<I, R>(lane, scripts, script);
    LogNext<I, R>(lane, scripts, script);
    ScanIsLedger(Items(lane), Log<I, R>(lane, scripts), Custody<I, R>(lane, scripts), script);
  }

  /** What a call does to an item taken before it, or by it. */
  lemma {:induction false} TakenByCall<I, R>(
    rows: seq<Row<I, R>>, script: seq<Answer<I, R>>, earlier: seq<Entry<I, R>>, j: nat)
    requires forall k :: 0 <= k < |earlier| && Taken(earlier[k].answer) ==>
               earlier[k].at < |rows| && !Fresh(rows[earlier[k].at])
    requires |OfferedAt(rows, script, 0)| <= |script|
    requires var log := earlier + Entries(OfferedAt(rows, script, 0), script); j < |log| && Taken(log[j].answer)
    ensures var i := (earlier + Entries(OfferedAt(rows, script, 0), script))[j].at;
            i < |Scan(rows, script).rows| && !Fresh(Scan(rows, script).rows[i])
  {
    if j < |earlier| {
      FrozenRow(rows, script, earlier[j].at);
    } else {
      AnswerIsLeft(rows, script, 0, j - |earlier|);
    }
  }

  /** An item an answer took is not as it was given. */
  lemma {:induction false} TakenIsNotFresh<I, R>(lane: Lane<I>, scripts: seq<seq<Answer<I, R>>>, j: nat)
    requires j < |Log<I, R>(lane, scripts)| && Taken(Log<I, R>(lane, scripts)[j].answer)
    ensures var i := Log<I, R>(lane, scripts)[j].at;
            i < |Custody<I, R>(lane, scripts)| && !Fresh(Custody<I, R>(lane, scripts)[i])
  {
    var n := |scripts| - 1;
    var before, script := scripts[..n], scripts[n];
    assert scripts == before + [script];
    var earlier, rows := Log<I, R>(lane, before), Custody<I, R>(lane, before);
    forall k | 0 <= k < |earlier| && Taken(earlier[k].answer)
      ensures earlier[k].at < |rows| && !Fresh(rows[earlier[k].at])
    {
      TakenIsNotFresh<I, R>(lane, before, k);
    }
    LogNext<I, R>(lane, before, script);
    CustodyNext<I, R>(lane, before, script);
    TakenByCall(rows, script, earlier, j);
  }

  /**
   * Over every run: once an answer left an item without its input, or with a reply, no later await,
   * in that call or any later one, offers the item again.
   */
  lemma {:induction false} TakenNeverOfferedAgain<I, R>(
    lane: Lane<I>, scripts: seq<seq<Answer<I, R>>>, j: nat, l: nat)
    requires j < l < |Log<I, R>(lane, scripts)| && Taken(Log<I, R>(lane, scripts)[j].answer)
    ensures Log<I, R>(lane, scripts)[l].at != Log<I, R>(lane, scripts)[j].at
  {
    var n := |scripts| - 1;
    var before, script := scripts[..n], scripts[n];
    assert scripts == before + [script];
    LogNext<I, R>(lane, before, script);
    var earlier, rows := Log<I, R>(lane, before), Custody<I, R>(lane, before);
    OfferedFresh(rows, script, 0);
    if l < |earlier| {
      TakenNeverOfferedAgain<I, R>(lane, before, j, l);
    } else if j < |earlier| {
      TakenIsNotFresh<I, R>(lane, before, j);
      OfferedWithin(rows, script, 0, OfferedAt(rows, script, 0)[l - |earlier|]);
    }
  }

  /** The offer is the item's own route with the input the ledger still holds for it. */
  ghost predicate OfferHeld<I, R>(items: seq<Item<I>>, log: seq<Entry<I, R>>, i: nat, offer: Item<I>) {
    && i < |items| && offer.route == items[i].route
    && Ledger(items, log)[i] == Row(items[i].route, Some(offer.payload), None)
  }

  ghost predicate OffersHeld<I, R>(items: seq<Item<I>>, log: seq<Entry<I, R>>, offers: seq<Item<I>>) {
    |log| == |offers| && forall j :: 0 <= j < |log| ==> OfferHeld(items, log[..j], log[j].at, offers[j])
  }

  lemma {:induction false} OfferOfScan<I, R>(
    items: seq<Item<I>>, log: seq<Entry<I, R>>, rows: seq<Row<I, R>>, script: seq<Answer<I, R>>, j: nat)
    requires rows == Ledger(items, log) && |OfferedAt(rows, script, 0)| <= |script|
    requires j < |OfferedAt(rows, script, 0)| == |Scan(rows, script).offers|
    ensures var at := OfferedAt(rows, script, 0);
            OfferHeld(items, log + Entries(at, script)[..j], at[j], Scan(rows, script).offers[j])
  {
    var at := OfferedAt(rows, script, 0);
    EntriesAscend(rows, script);
    OfferedFresh(rows, script, 0);
    LedgerRoutes(items, log, at[j]);
    assert forall l :: 0 <= l < j ==> Entries(at, script)[..j][l].at < at[j];
    LedgerKeeps(items, log, Entries(at, script)[..j], at[j]);
  }

  lemma {:induction false} OffersOfScan<I, R>(
    items: seq<Item<I>>, log: seq<Entry<I, R>>, offers: seq<Item<I>>, rows: seq<Row<I, R>>, script: seq<Answer<I, R>>)
    requires rows == Ledger(items, log) && OffersHeld(items, log, offers)
    ensures |OfferedAt(rows, script, 0)| <= |script|
    ensures OffersHeld(items, log + Entries(OfferedAt(rows, script, 0), script), offers + Scan(rows, script).offers)
  {
    EntriesAscend(rows, script);
    OfferedFresh(rows, script, 0);
    var more, added := Entries(OfferedAt(rows, script, 0), script), Scan(rows, script).offers;
    forall j | 0 <= j < |more| ensures OfferHeld(items, log + more[..j], more[j].at, added[j]) {
      OfferOfScan(items, log, rows, script, j);
    }
    AppendHeld(items, log, offers, more, added);
  }

  lemma {:induction false} AppendHeld<I, R>(
    items: seq<Item<I>>, log: seq<Entry<I, R>>, offers: seq<Item<I>>, more: seq<Entry<I, R>>, added: seq<Item<I>>)
    requires OffersHeld(items, log, offers) && |more| == |added|
    requires forall j :: 0 <= j < |more| ==> OfferHeld(items, log + more[..j], more[j].at, added[j])
    ensures OffersHeld(items, log + more, offers + added)
  {
    var all, every := log + more, offers + added;
    forall j | 0 <= j < |all| ensures OfferHeld(items, all[..j], all[j].at, every[j]) {
      if j < |log| {
        assert all[..j] == log[..j];
      } else {
        assert all[..j] == log + more[..j - |log|];
        assert all[j] == more[j - |log|] && every[j] == added[j - |log|];
      }
    }
  }

  /** The offers of a run are the awaits of its log: each under its own route, with the input the ledger holds. */
  lemma {:induction false} OffersAreLogged<I, R>(lane: Lane<I>, scripts: seq<seq<Answer<I, R>>>)
    ensures OffersHeld(Items(lane), Log<I, R>(lane, scripts), Calls<I, R>(Original(lane), scripts).offers)
  {
    if scripts != [] {
      var n := |scripts| - 1;
      var before, script := scripts[..n], scripts[n];
      assert scripts == before + [script];
      OffersAreLogged<I, R>(lane, before);
      LogNext<I, R>(lane, before, script);
      CallIsScan<I, R>(lane, before, script);
      CustodyIsLedger<I, R>(lane, before);
      OffersOfScan(
        Items(lane), Log<I, R>(lane, before), Calls<I, R>(Original(lane), before).offers,
        Custody<I, R>(lane, before), script);
    }
  }
}

/** The reply-delivery lane as the object it is: one progress slot, updated in place. */
module ReplyLane {
  import opened Base
  import opened Interpretation

  /** A scan of the remaining rows, after the rows and offers already behind. */
  function Ahead<I, R>(behind: seq<Row<I, R>>, offers: seq<Item<I>>, x: Scanned<I, R>): Scanned<I, R> {
    x.(rows := behind + x.rows, offers := offers + x.offers)
  }

  /** Moving past a clean row. */
  lemma {:induction false} AheadPast<I, R>(
    rows: seq<Row<I, R>>, i: nat, offers: seq<Item<I>>, offer: seq<Item<I>>, later: Scanned<I, R>)
    requires i < |rows|
    ensures Ahead(rows[..i], offers, Onto(rows[i], offer, later)) == Ahead(rows[..i + 1], offers + offer, later)
  {
    assert rows[..i] + ([rows[i]] + later.rows) == rows[..i + 1] + later.rows;
    assert offers + (offer + later.offers) == offers + offer + later.offers;
  }

  lemma {:induction false} CleanHead<I, R>(rows: seq<Row<I, R>>, i: nat, offers: seq<Item<I>>, rest: seq<Answer<I, R>>)
    requires i < |rows| && Clean(rows[i])
    ensures Ahead(rows[..i], offers, Scan(rows[i..], rest)) == Ahead(rows[..i + 1], offers, Scan(rows[i + 1..], rest))
  {
    assert rows[i..][1..] == rows[i + 1..];
    AheadPast(rows, i, offers, [], Scan(rows[i + 1..], rest));
    assert offers + [] == offers;
  }

  /** A scan that does not get past row `i` leaves the rows from there on as they are. */
  lemma {:induction false} AheadAll<I, R>(rows: seq<Row<I, R>>, i: nat, offers: seq<Item<I>>, x: Scanned<I, R>)
    requires i < |rows| && x.rows == rows[i..] && x.offers == []
    ensures Ahead(rows[..i], offers, x) == x.(rows := rows, offers := offers)
  {
    assert rows[..i] + rows[i..] == rows;
    assert offers + [] == offers;
  }

  /** What the scan does with the answer one await leaves for row `i`. */
  lemma {:induction false} AwaitLeaves<I, R>(
    rows: seq<Row<I, R>>, i: nat, offers: seq<Item<I>>, rest: seq<Answer<I, R>>)
    requires i < |rows| && Fresh(rows[i]) && rest != []
    ensures var left := Answered(rows[i], rest[0]);
            var after := rows[i := left];
            var more := offers + [Item(rows[i].route, rows[i].input.value)];
            Ahead(rows[..i], offers, Scan(rows[i..], rest)) ==
              if rest[0].dropped then Scanned(after, more, rest[1..], Halted, true)
              else if Clean(left) then Ahead(after[..i + 1], more, Scan(after[i + 1..], rest[1..]))
              else Scanned(after, more, rest[1..], if Spoiled(left) then Spoilt else Halted, false)
  {
    var left := Answered(rows[i], rest[0]);
    var after := rows[i := left];
    var offer := [Item(rows[i].route, rows[i].input.value)];
    assert rows[i..][1..] == rows[i + 1..] == after[i + 1..];
    assert after[..i] == rows[..i];
    assert rows[..i] + ([left] + rows[i + 1..]) == after;
    if !rest[0].dropped && Clean(left) { AheadPast(after, i, offers, offer, Scan(after[i + 1..], rest[1..])); }
  }

  lemma {:induction false} FirstCorruptAt<I, R>(rows: seq<Row<I, R>>, k: nat)
    requires k <= |rows|
    requires forall i :: 0 <= i < k ==> !(rows[i].reply.Some? && rows[i].reply.value.Corrupt?)
    requires k < |rows| ==> rows[k].reply.Some? && rows[k].reply.value.Corrupt?
    ensures FirstCorrupt(rows) == k
  {
    if k > 0 { FirstCorruptAt(rows[1..], k - 1); }
  }

  class ReplyDeliveries<I, R> {
    var progress: Progress<I, R>

    predicate Valid() reads this {
      match progress
      case Original(lane) => lane.Rows?
      case RowsOpen(_) => true
      case Completed(_, settlement) => settlement.RowsSettled?
      case _ => false
    }

    constructor (items: seq<Item<I>>)
      ensures Valid() && progress == Original(Rows(items))
    {
      progress := Original(Rows(items));
    }

    /** Settle the lane when it is complete. Restoring a half-settled lane never happens. */
    method FinishInterpretation()
      requires Valid()
      modifies this
      ensures Valid() && progress == Finish(old(progress))
    {
      if !progress.RowsOpen? {
        return;
      }
      var rows := progress.rows;
      var corrupt := 0;
      while corrupt < |rows| && !(rows[corrupt].reply.Some? && rows[corrupt].reply.value.Corrupt?)
        invariant 0 <= corrupt <= |rows|
        invariant forall i :: 0 <= i < corrupt ==> !(rows[i].reply.Some? && rows[i].reply.value.Corrupt?)
      {
        corrupt := corrupt + 1;
      }
      FirstCorruptAt(rows, corrupt);
      var i := 0;
      while i < |rows|
        invariant 0 <= i <= |rows|
        invariant forall j :: 0 <= j < i ==>
          if j <= corrupt then rows[j].input.None? && rows[j].reply.Some? else Fresh(rows[j])
      {
        var expected := if i > corrupt then Fresh(rows[i]) else rows[i].input.None? && rows[i].reply.Some?;
        if !expected {
          return;
        }
        i := i + 1;
      }
      var settled: seq<Settled<I, R>> := [];
      i := 0;
      while i < |rows|
        invariant 0 <= i <= |rows| && |settled| == i
        invariant forall j :: 0 <= j < i ==> settled[j] == SettleRow(rows[j])
      {
        match rows[i] {
          case Row(route, None, Some(reply)) => settled := settled + [Attempted(route, reply)];
          case Row(route, Some(input), None) => settled := settled + [Settled.Unattempted(route, input)];
          case _ => assert false;
        }
        i := i + 1;
      }
      assert settled == SettleRows(rows);
      progress := Completed(corrupt < |rows|, RowsSettled(settled));
    }

    /** The loop over the rows; each entry of the script is what one await leaves behind. */
    method OfferRows(script: seq<Answer<I, R>>)
      returns (offers: seq<Item<I>>, rest: seq<Answer<I, R>>, end: End, dropped: bool)
      requires progress.RowsOpen?
      modifies this
      ensures progress.RowsOpen?
      ensures Scanned(progress.rows, offers, rest, end, dropped) == Scan(old(progress).rows, script)
    {
      offers, rest, end, dropped := [], script, Halted, false;
      ghost var start := progress.rows;
      var rows, i := progress.rows, 0;
      assert Ahead([], [], Scan(start, script)) == Scan(start, script);
      while i < |rows|
        invariant 0 <= i <= |rows| && progress == RowsOpen(rows) && end == Halted && !dropped
        invariant Scan(start, script) == Ahead(rows[..i], offers, Scan(rows[i..], rest))
      {
        if Spoiled(rows[i]) {
          AheadAll(rows, i, offers, Scan(rows[i..], rest));
          end := Spoilt;
          return;
        }
        if Clean(rows[i]) {
          CleanHead(rows, i, offers, rest);
        } else if !Fresh(rows[i]) || rest == [] {
          dropped := Fresh(rows[i]);
          AheadAll(rows, i, offers, Scan(rows[i..], rest));
          return;
        } else {
          AwaitLeaves(rows, i, offers, rest);
          var answer := rest[0];
          offers := offers + [Item(rows[i].route, rows[i].input.value)];
          rows := rows[i := Answered(rows[i], answer)];
          rest := rest[1..];
          progress := RowsOpen(rows);
          if answer.dropped {
            dropped := true;
            return;
          }
          if !Clean(rows[i]) {
            end := if Spoiled(rows[i]) then Spoilt else Halted;
            return;
          }
        }
        i := i + 1;
      }
      assert rows[..i] + [] == rows && rows[i..] == [] && offers + [] == offers;
      end := AllClean;
    }

    /** One call of `interpret`: prepare, offer rows until one is not clean, and finish unless halted. */
    method Interpret(script: seq<Answer<I, R>>) returns (offers: seq<Item<I>>, rest: seq<Answer<I, R>>, dropped: bool)
      requires Valid()
      modifies this
      ensures Valid()
      ensures Turn(progress, offers, rest, dropped) == Interpretation.Interpret(old(progress), script)
    {
      offers, rest, dropped := [], script, false;
      progress := Prepare(progress);
      if progress.RowsOpen? {
        var end;
        offers, rest, end, dropped := OfferRows(script);
        if end != Halted {
          FinishInterpretation();
        }
      }
    }

    /** An earlier lane was corrupt: a lane not yet begun is settled as untouched. */
    method Unattempted()
      requires Valid()
      modifies this
      ensures Valid() && progress == Skip(old(progress))
    {
      if progress.Original? {
        progress := Completed(false, RowsSettled(Untouched(progress.lane.items)));
      }
    }
  }
}

/**
 * Interruptible interpretation of send products. Custody of every input and reply stays in the
 * progress value, so an interpretation may be dropped at any await and resumed later.
 */
module Interpretation {
  import opened Base

  datatype Route = Logical | Established

  datatype Item<+I> = Item(route: Route, payload: I)

  /** Settlement of one attempted item; only the accepted item is consumed. */
  datatype Reply<+I, +R> =
    | Accepted(receipt: R)
    | Rejected(item: I, reason: R)
    | Blocked(item: I, prerequisite: R)
    | Corrupt(item: I, fault: R)

  /** Custody of one item: what the interpreter has left of its input, and what it has answered. */
  datatype Row<+I, +R> = Row(route: Route, input: Option<I>, reply: Option<Reply<I, R>>)

  datatype Settled<+I, +R> = Attempted(route: Route, reply: Reply<I, R>) | Unattempted(route: Route, input: I)

  /** One await: any shape the interpreter leaves behind, and whether the future was dropped there. */
  datatype Answer<+I, +R> = Answer(input: Option<I>, reply: Option<Reply<I, R>>, dropped: bool)

  predicate Fresh<I, R>(row: Row<I, R>) { row.input.Some? && row.reply.None? }

  predicate Clean<I, R>(row: Row<I, R>) { row.input.None? && row.reply.Some? && !row.reply.value.Corrupt? }

  predicate Spoiled<I, R>(row: Row<I, R>) { row.input.None? && row.reply.Some? && row.reply.value.Corrupt? }

  function FreshRow<I, R>(item: Item<I>): Row<I, R> { Row(item.route, Some(item.payload), None) }

  function FreshRows<I, R>(items: seq<Item<I>>): seq<Row<I, R>> {
    if items == [] then [] else [FreshRow(items[0])] + FreshRows(items[1..])
  }

  // ---------------------------------------------------------------------
  // The flat traversal of one ordered list of rows.

  datatype End = Halted | AllClean | Spoilt

  datatype Scanned<+I, +R> = Scanned(
    rows: seq<Row<I, R>>, offers: seq<Item<I>>, rest: seq<Answer<I, R>>, end: End, dropped: bool)

  /** Offer each fresh row in order; stop at the first row that is not cleanly settled. */
  function Scan<I, R>(rows: seq<Row<I, R>>, script: seq<Answer<I, R>>): Scanned<I, R> {
    if rows == [] then Scanned([], [], script, AllClean, false)
    else
      var row := rows[0];
      if Spoiled(row) then Scanned(rows, [], script, Spoilt, false)
      else if Clean(row) then Onto(row, [], Scan(rows[1..], script))
      else if !Fresh(row) then Scanned(rows, [], script, Halted, false)
      else if script == [] then Scanned(rows, [], [], Halted, true)
      else
        var left := Answered(row, script[0]);
        var offer := [Item(row.route, row.input.value)];
        if script[0].dropped then Scanned([left] + rows[1..], offer, script[1..], Halted, true)
        else if Clean(left) then Onto(left, offer, Scan(rows[1..], script[1..]))
        else Scanned([left] + rows[1..], offer, script[1..], if Spoiled(left) then Spoilt else Halted, false)
  }

  function Answered<I, R>(row: Row<I, R>, a: Answer<I, R>): Row<I, R> { Row(row.route, a.input, a.reply) }

  function Onto<I, R>(row: Row<I, R>, offer: seq<Item<I>>, later: Scanned<I, R>): Scanned<I, R> {
    later.(rows := [row] + later.rows, offers := offer + later.offers)
  }

  /** Index of the first row answered as corrupt, or the number of rows. */
  function FirstCorrupt<I, R>(rows: seq<Row<I, R>>): nat {
    if rows == [] || (rows[0].reply.Some? && rows[0].reply.value.Corrupt?) then 0 else 1 + FirstCorrupt(rows[1..])
  }

  /** Rows up to the first corruption are settled, the rest untouched. */
  predicate CompleteRows<I, R>(rows: seq<Row<I, R>>) {
    forall i :: 0 <= i < |rows| ==>
      if i <= FirstCorrupt(rows) then rows[i].input.None? && rows[i].reply.Some? else Fresh(rows[i])
  }

  function SettleRow<I, R>(row: Row<I, R>): Settled<I, R>
    requires Fresh(row) || (row.input.None? && row.reply.Some?)
  {
    if Fresh(row) then Unattempted(row.route, row.input.value) else Attempted(row.route, row.reply.value)
  }

  function SettleRows<I, R>(rows: seq<Row<I, R>>): (r: seq<Settled<I, R>>)
    requires forall i :: 0 <= i < |rows| ==> Fresh(rows[i]) || (rows[i].input.None? && rows[i].reply.Some?)
    ensures |r| == |rows| && forall i :: 0 <= i < |rows| ==> r[i] == SettleRow(rows[i])
  {
    seq(|rows|, i requires 0 <= i < |rows| => SettleRow(rows[i]))
  }

  function UnsettleRow<I, R>(s: Settled<I, R>): Row<I, R> {
    match s
    case Attempted(route, reply) => Row(route, None, Some(reply))
    case Unattempted(route, input) => Row(route, Some(input), None)
  }

  function UnsettleRows<I, R>(s: seq<Settled<I, R>>): seq<Row<I, R>> {
    seq(|s|, i requires 0 <= i < |s| => UnsettleRow(s[i]))
  }

  // ---------------------------------------------------------------------
  // Trees of lanes. `Rows` is a reply-delivery lane; `One` is the selected child of a shutdown
  // choice; `Fields` is a named product, a list of shutdown requests, or one `Other` layer.

  datatype Lane<+I> = Rows(items: seq<Item<I>>) | One(item: Item<I>) | Fields(lanes: seq<Lane<I>>)

  datatype Settlement<+I, +R> =
    | RowsSettled(rows: seq<Settled<I, R>>)
    | OneSettled(item: Settled<I, R>)
    | FieldsSettled(fields: seq<Settlement<I, R>>)

  datatype Progress<+I, +R> =
    | Original(lane: Lane<I>)
    | RowsOpen(rows: seq<Row<I, R>>)
    | OneOpen(row: Row<I, R>)
    | FieldsOpen(fields: seq<Progress<I, R>>)
    | Completed(corrupt: bool, settlement: Settlement<I, R>)

  function LaneSize<I>(lane: Lane<I>): nat
    decreases lane, 0
  {
    if lane.Fields? then 1 + LanesSize(lane.lanes) else 1
  }

  function LanesSize<I>(lanes: seq<Lane<I>>): nat
    decreases lanes, 1
  {
    if lanes == [] then 0 else 1 + LaneSize(lanes[0]) + LanesSize(lanes[1..])
  }

  function ProgressSize<I, R>(p: Progress<I, R>): nat
    decreases p, 0
  {
    match p
    case Original(lane) => 1 + LaneSize(lane)
    case FieldsOpen(fields) => 1 + FieldsSize(fields)
    case _ => 1
  }

  function FieldsSize<I, R>(fields: seq<Progress<I, R>>): nat
    decreases fields, 1
  {
    if fields == [] then 0 else ProgressSize(fields[0]) + FieldsSize(fields[1..])
  }

  function Originals<I, R>(lanes: seq<Lane<I>>): (r: seq<Progress<I, R>>)
    ensures FieldsSize(r) == LanesSize(lanes)
  {
    if lanes == [] then [] else [Original(lanes[0])] + Originals(lanes[1..])
  }

  function Prepare<I, R>(p: Progress<I, R>): (r: Progress<I, R>)
    ensures ProgressSize(r) <= ProgressSize(p)
    ensures !r.Original?
  {
    match p
    case Original(Rows(items)) => RowsOpen(FreshRows(items))
    case Original(One(item)) => OneOpen(FreshRow(item))
    case Original(Fields(lanes)) => FieldsOpen(Originals(lanes))
    case _ => p
  }

  predicate AllCompleted<I, R>(fields: seq<Progress<I, R>>) {
    fields == [] || (fields[0].Completed? && AllCompleted(fields[1..]))
  }

  predicate AnyCorrupt<I, R>(fields: seq<Progress<I, R>>) {
    fields != [] && ((fields[0].Completed? && fields[0].corrupt) || AnyCorrupt(fields[1..]))
  }

  function Settlements<I, R>(fields: seq<Progress<I, R>>): seq<Settlement<I, R>>
    requires AllCompleted(fields)
  {
    if fields == [] then [] else [fields[0].settlement] + Settlements(fields[1..])
  }

  function Finish<I, R>(p: Progress<I, R>): Progress<I, R> {
    match p
    case RowsOpen(rows) =>
      if CompleteRows(rows) then Completed(FirstCorrupt(rows) < |rows|, RowsSettled(SettleRows(rows))) else p
    case OneOpen(row) =>
      if row.input.None? && row.reply.Some?
      then Completed(row.reply.value.Corrupt?, OneSettled(Attempted(row.route, row.reply.value))) else p
    case FieldsOpen(fields) =>
      if AllCompleted(fields) then Completed(AnyCorrupt(fields), FieldsSettled(Settlements(fields))) else p
    case _ => p
  }

  /** After an earlier corruption: what is still original is settled as unattempted. */
  function Skip<I, R>(p: Progress<I, R>): Progress<I, R>
    decreases ProgressSize(p), 0
  {
    match p
    case Original(Rows(items)) => Completed(false, RowsSettled(Untouched(items)))
    case Original(One(item)) => Completed(false, OneSettled(Unattempted(item.route, item.payload)))
    case Original(Fields(lanes)) =>
      var begun: seq<Progress<I, R>> := Originals(lanes);
      Finish(FieldsOpen(SkipAll(begun)))
    case FieldsOpen(fields) => Finish(FieldsOpen(SkipAll(fields)))
    case OneOpen(_) => Finish(p)
    case _ => p
  }

  function SkipAll<I, R>(fields: seq<Progress<I, R>>): seq<Progress<I, R>>
    decreases FieldsSize(fields), 1 + |fields|
  {
    if fields == [] then []
    else
      [Skip(fields[0])] + SkipAll(fields[1..])
  }

  function Untouched<I, R>(items: seq<Item<I>>): seq<Settled<I, R>> {
    if items == [] then [] else [Unattempted(items[0].route, items[0].payload)] + Untouched(items[1..])
  }

  datatype Turn<+I, +R> = Turn(
    progress: Progress<I, R>, offers: seq<Item<I>>, rest: seq<Answer<I, R>>, dropped: bool)

  datatype FieldsTurn<+I, +R> = FieldsTurn(
    fields: seq<Progress<I, R>>, offers: seq<Item<I>>, rest: seq<Answer<I, R>>, end: End, dropped: bool)

  /** One call of `interpret`: it runs until it completes, halts, or is dropped at an await. */
  function Interpret<I, R>(p: Progress<I, R>, script: seq<Answer<I, R>>): Turn<I, R>
    decreases ProgressSize(p), 0
  {
    var open := Prepare(p);
    match open
    case RowsOpen(rows) =>
      var r := Scan(rows, script);
      Turn(if r.end == Halted then RowsOpen(r.rows) else Finish(RowsOpen(r.rows)), r.offers, r.rest, r.dropped)
    case OneOpen(row) =>
      if !Fresh(row) then Turn(Finish(open), [], script, false)
      else if script == [] then Turn(open, [], [], true)
      else
        var left := OneOpen(Answered(row, script[0]));
        Turn(if script[0].dropped then left else Finish(left),
             [Item(row.route, row.input.value)], script[1..], script[0].dropped)
    case FieldsOpen(fields) =>
      var r := InterpretFields(fields, script);
      Turn(if r.end == Halted then FieldsOpen(r.fields) else Finish(FieldsOpen(r.fields)), r.offers, r.rest, r.dropped)
    case Completed(_, _) => Turn(open, [], script, false)
    case Original(_) => Turn(open, [], script, false)
  }

  /** The lanes in authored order; corruption in one leaves every later one unattempted. */
  function InterpretFields<I, R>(fields: seq<Progress<I, R>>, script: seq<Answer<I, R>>): FieldsTurn<I, R>
    decreases FieldsSize(fields), 1 + |fields|
  {
    if fields == [] then FieldsTurn([], [], script, AllClean, false)
    else
      var r := Interpret(fields[0], script);
      if r.dropped then FieldsTurn([r.progress] + fields[1..], r.offers, r.rest, Halted, true)
      else
        var current := Finish(r.progress);
        if !current.Completed? then FieldsTurn([current] + fields[1..], r.offers, r.rest, Halted, false)
        else if current.corrupt then FieldsTurn([current] + SkipAll(fields[1..]), r.offers, r.rest, Spoilt, false)
        else
          var later := InterpretFields(fields[1..], r.rest);
          later.(fields := [current] + later.fields, offers := r.offers + later.offers)
  }
}

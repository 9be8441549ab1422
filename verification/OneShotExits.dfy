/** The LIVE exits of bot/confirmed_rr_exit.py (full) and
    bot/durable_partial_exit.py (half): a durable intent is written before
    the one network submission, and everything after it is retried.

    One visit is the work one pass does for one symbol. Every await in it is
    answered by the environment: a write may commit, fail, or commit and then
    raise, a call may return, raise, or never return because the process died.
    A position is rebuilt by each process, so a visit takes it as an input. */
module OneShotExits {
  import opened Arithmetic
  import opened Common

  /** A float: JSON and exchange numbers may be missing or not finite. */
  datatype Num = Fin(r: real) | NotFinite {
    predicate Positive() {
      Fin? && r > 0.0
    }
  }

  datatype Kind = FullExit | PartialExit

  /** The hash of kind, symbol and opening order, treated as injective. */
  datatype Key = Key(kind: Kind, symbol: string, opening: string)

  datatype Direction = Long | Short | Unknown

  /** `build_client_oid` hashes the intent's key alone, neither side nor
      quantity. */
  datatype ClientOid = ClientOid(key: Key)

  datatype Intent = Intent(oid: ClientOid, orderId: string, qty: real, filled: bool, protected: bool)

  /** A call of `place_order`, with the row as it was at that moment. */
  datatype Submission = Submission(key: Key, oid: ClientOid, row: Option<Intent>)

  datatype Desk = Desk(durable: map<Key, Intent>, placed: seq<Submission>) {

    function Row(key: Key): Option<Intent> {
      if key in durable then Some(durable[key]) else None
    }
  }

  datatype Call<T> = Returned(value: T) | CallRaised | CallCrashed

  /** The exchange's rows for one symbol; `Contents` holds its sizes already in
      base units, next to the raw size and whether the unit was known. */
  datatype SizeRow = SizeRow(unitKnown: bool, raw: Num, base: Num)
  datatype Rows = NotRows | Contents(sizes: seq<SizeRow>)

  datatype Env = Env(
    load: Call<()>, intentWrite: WriteOutcome, place: Call<string>, placeWrite: WriteOutcome,
    lookup: Call<string>, lookupWrite: WriteOutcome, fill: Call<bool>, fillWrite: WriteOutcome,
    positions: Call<Rows>, sync: Call<()>, setStop: Call<bool>, stopWrite: WriteOutcome)

  datatype Position = Position(
    opening: string, direction: Direction, entry: Num, stop: Num, price: Num,
    qty: Num, qtyOriginal: Num, tp1Hit: bool, trailing: Num)

  function Profit(p: Position): real
    requires p.entry.Fin? && p.price.Fin?
  {
    if p.direction.Long? then p.price.r - p.entry.r else p.entry.r - p.price.r
  }

  // ---- Stages shared by both exits ----

  /** A stage either goes on with the intent in memory, or stops the visit,
      by an exception or by the death of the process. */
  datatype Stage = Go(desk: Desk, intent: Intent) | Halt(desk: Desk, died: bool)

  function Written(d: Desk, key: Key, intent: Intent, w: WriteOutcome): Stage {
    var e := if w.Durable() then d.(durable := d.durable[key := intent]) else d;
    if w.Committed? then Go(e, intent) else Halt(e, w.Crashed())
  }

  /** Write the intent, submit once, write the order id. */
  function Submitted(d: Desk, key: Key, intent: Intent, e: Env): Stage {
    var first := Written(d, key, intent, e.intentWrite);
    if first.Halt? then first
    else
      var sent := first.desk.(placed := first.desk.placed + [Submission(key, intent.oid, first.desk.Row(key))]);
      match e.place
      case CallRaised => Halt(sent, false)
      case CallCrashed => Halt(sent, true)
      case Returned(orderId) => Written(sent, key, intent.(orderId := orderId), e.placeWrite)
  }

  /** Ask the exchange for an order id that is not known yet. The full exit
      writes only an id it found, the partial exit writes either way. */
  function Recovered(d: Desk, key: Key, intent: Intent, e: Env): Stage {
    if intent.orderId != "" then Go(d, intent)
    else match e.lookup
      case CallRaised => Halt(d, false)
      case CallCrashed => Halt(d, true)
      case Returned(orderId) =>
        if orderId == "" && key.kind.FullExit? then Go(d, intent)
        else Written(d, key, intent.(orderId := orderId), e.lookupWrite)
  }

  // ---- The full exit at twice the risk ----

  datatype FullAfter = FullAfter(desk: Desk, ending: Ending)

  predicate FullReady(p: Position) {
    && p.entry.Positive() && p.stop.Positive() && p.price.Positive() && !p.direction.Unknown?
    && var distance := AbsReal(p.entry.r - p.stop.r);
       distance > 0.0 && Profit(p) >= 2.0 * distance && p.qty.Positive()
  }

  function FullIntent(key: Key, p: Position): Intent
    requires p.qty.Fin?
  {
    Intent(ClientOid(key), "", p.qty.r, false, false)
  }

  predicate AboveZero(n: Num) {
    match n
    case Fin(r) => 0.0 < r
    case NotFinite => false
  }

  /** A full exit starts when the price has moved twice the risk in favour of a
      position with usable numbers. */
  lemma FullReadyByPrices(p: Position)
    requires AboveZero(p.entry) && AboveZero(p.stop) && AboveZero(p.price) && AboveZero(p.qty)
    ensures p.direction == Unknown ==> !FullReady(p)
    ensures p.direction == Long ==>
              (FullReady(p) <==> p.entry.r != p.stop.r
                                 && p.price.r >= p.entry.r + 2.0 * (p.entry.r - p.stop.r)
                                 && p.price.r >= p.entry.r + 2.0 * (p.stop.r - p.entry.r))
    ensures p.direction == Short ==>
              (FullReady(p) <==> p.entry.r != p.stop.r
                                 && p.price.r <= p.entry.r - 2.0 * (p.entry.r - p.stop.r)
                                 && p.price.r <= p.entry.r - 2.0 * (p.stop.r - p.entry.r))
  {
  }

  lemma FullNeedsNumbers(p: Position)
    ensures FullReady(p) ==> AboveZero(p.entry) && AboveZero(p.stop) && AboveZero(p.price) && AboveZero(p.qty)
  {
  }

  /** The position is gone from the exchange: every size reads exactly zero. */
  predicate AllZero(rows: Rows) {
    rows.Contents? && forall k :: 0 <= k < |rows.sizes| ==> rows.sizes[k].raw == Fin(0.0)
  }

  datatype Ending = Unconfirmed | Synced | Death

  /** A known order must be filled and the exchange flat before the one
      accounting owner is told; no row is written any more. */
  function FullTail(intent: Intent, e: Env): Ending {
    if intent.orderId == "" then Unconfirmed
    else if e.fill.CallCrashed? then Death
    else if e.fill != Returned(true) then Unconfirmed
    else if e.positions.CallCrashed? then Death
    else if !(e.positions.Returned? && AllZero(e.positions.value)) then Unconfirmed
    else if e.sync.CallCrashed? then Death
    else if e.sync.CallRaised? then Unconfirmed
    else Synced
  }

  /** One symbol in `confirmed_rr_exit.check`. */
  function FullVisit(d: Desk, symbol: string, p: Position, partialPending: bool, e: Env): FullAfter {
    if partialPending || !(p.entry.Positive() && p.stop.Positive() && p.price.Positive())
       || p.direction.Unknown? || p.opening == "" then FullAfter(d, Unconfirmed)
    else
      var key := Key(FullExit, symbol, p.opening);
      if !e.load.Returned? then FullAfter(d, if e.load.CallCrashed? then Death else Unconfirmed)
      else if d.Row(key).None? && !FullReady(p) then FullAfter(d, Unconfirmed)
      else
        var found := FullOrder(d, key, p, e);
        FullAfter(found.desk,
                  if found.Halt? then (if found.died then Death else Unconfirmed) else FullTail(found.intent, e))
  }

  /** The order of the exit: submitted now, or recovered from its row. */
  function FullOrder(d: Desk, key: Key, p: Position, e: Env): Stage
    requires p.qty.Fin? || d.Row(key).Some?
  {
    var start := if d.Row(key).Some? then Go(d, d.durable[key]) else Submitted(d, key, FullIntent(key, p), e);
    if start.Halt? then start else Recovered(start.desk, key, start.intent, e)
  }

  /** When a visit makes the one submission of the full exit: no partial is
      pending, the row could be read and is not there, the exit is due, and the
      intent was recorded. */
  lemma FullSubmitsExactly(d: Desk, symbol: string, p: Position, partialPending: bool, e: Env)
    ensures var key, after := Key(FullExit, symbol, p.opening), FullVisit(d, symbol, p, partialPending, e).desk;
            && (after.placed != d.placed <==>
                  && !partialPending && p.opening != "" && e.load.Returned? && d.Row(key).None?
                  && FullReady(p) && e.intentWrite == Committed)
            && (after.placed != d.placed ==>
                  var intent := Intent(ClientOid(key), "", p.qty.r, false, false);
                  after.placed == d.placed + [Submission(key, ClientOid(key), Some(intent))])
            && (after.durable != d.durable ==>
                  !partialPending && p.opening != "" && e.load.Returned? && (d.Row(key).Some? || FullReady(p)))
  {
  }

  /** The id an order has after a visit: the one it had, or one that the lookup
      by client id found and the row took. */
  predicate Finds(known: string, e: Env, id: string) {
    id != "" && if known == "" then e.lookup == Returned(id) && e.lookupWrite == Committed else id == known
  }

  /** The id of the full exit's order: of its row, or else of the submission
      whose intent and id were both recorded. */
  predicate OrderKnown(row: Option<Intent>, e: Env, id: string) {
    if row.Some? then Finds(row.value.orderId, e, id)
    else e.intentWrite == Committed && e.place.Returned? && e.placeWrite == Committed && Finds(e.place.value, e, id)
  }

  /** Nothing but the order id is learnt of an order, and the row has it. */
  lemma FullOrderExactly(d: Desk, key: Key, p: Position, e: Env, id: string)
    requires key.kind == FullExit && id != "" && (p.qty.Fin? || d.Row(key).Some?)
    ensures var row, found := d.Row(key), FullOrder(d, key, p, e);
            && (found.Go? && found.intent.orderId == id <==> OrderKnown(row, e, id))
            && (OrderKnown(row, e, id) ==>
                  && found.desk.Row(key) == Some(found.intent)
                  && found.intent == if row.Some? then row.value.(orderId := id)
                                     else Intent(ClientOid(key), id, p.qty.r, false, false))
            && (row.Some? && row.value.orderId == "" && e.lookup == Returned("") ==> found == Go(d, row.value))
            && (row.Some? && row.value.orderId == "" && e.lookup == Returned(id) ==>
                  found.desk.Row(key) == if e.lookupWrite in {Refused, CrashedBefore} then row
                                         else Some(row.value.(orderId := id)))
  {
  }

  /** When a visit tells accounting: the order id is known in the end, the fill
      is confirmed, the exchange reads flat, and the sync comes back. */
  lemma SyncedExactly(d: Desk, symbol: string, p: Position, e: Env)
    requires p.opening != "" && p.direction != Unknown
    requires AboveZero(p.entry) && AboveZero(p.stop) && AboveZero(p.price)
    ensures var key := Key(FullExit, symbol, p.opening);
            FullVisit(d, symbol, p, false, e).ending == Synced <==>
              && e.load.Returned? && (d.Row(key).Some? || FullReady(p))
              && (exists id :: OrderKnown(d.Row(key), e, id))
              && e.fill == Returned(true) && e.sync.Returned? && e.positions.Returned? && e.positions.value.Contents?
              && forall k :: 0 <= k < |e.positions.value.sizes| ==>
                               e.positions.value.sizes[k].raw.Fin? && e.positions.value.sizes[k].raw.r == 0.0
  {
    var key := Key(FullExit, symbol, p.opening);
    if e.load.Returned? && (d.Row(key).Some? || FullReady(p)) {
      var found := FullOrder(d, key, p, e);
      forall id | id != ""
        ensures found.Go? && found.intent.orderId == id <==> OrderKnown(d.Row(key), e, id)
      {
        FullOrderExactly(d, key, p, e, id);
      }
      assert found.Go? && found.intent.orderId != "" <==> exists id :: OrderKnown(d.Row(key), e, id) by {
        if found.Go? && found.intent.orderId != "" {
          assert OrderKnown(d.Row(key), e, found.intent.orderId);
        }
      }
    }
  }

  /** A visit of a known order ends the process only at one of its three calls,
      and writes nothing. */
  lemma KnownOrderWritesNothing(d: Desk, symbol: string, p: Position, e: Env)
    requires p.opening != "" && p.direction != Unknown
    requires AboveZero(p.entry) && AboveZero(p.stop) && AboveZero(p.price)
    requires var row := d.Row(Key(FullExit, symbol, p.opening)); row.Some? && row.value.orderId != ""
    ensures var r := FullVisit(d, symbol, p, false, e);
            && r.desk == d
            && (r.ending == Death <==>
                  || e.load == CallCrashed
                  || (e.load.Returned?
                      && (e.fill == CallCrashed
                          || (e.fill == Returned(true)
                              && (e.positions == CallCrashed
                                  || (e.positions.Returned? && AllZero(e.positions.value) && e.sync == CallCrashed))))))
  {
  }

  /** The accounting owner is told only of a filled order and a flat symbol. */
  lemma SyncedMeansFlat(d: Desk, symbol: string, p: Position, partialPending: bool, e: Env)
    ensures FullVisit(d, symbol, p, partialPending, e).ending.Synced? ==>
              && !partialPending
              && e.fill == Returned(true) && e.positions.Returned? && AllZero(e.positions.value)
              && FullVisit(d, symbol, p, partialPending, e).desk.Row(Key(FullExit, symbol, p.opening)).Some?
              && FullVisit(d, symbol, p, partialPending, e).desk.durable[Key(FullExit, symbol, p.opening)].orderId != ""
  {
    var key := Key(FullExit, symbol, p.opening);
    if FullVisit(d, symbol, p, partialPending, e).ending.Synced? {
      var found := FullOrder(d, key, p, e);
      assert found.Go? && found.intent.orderId != "" && found.desk.Row(key) == Some(found.intent);
    }
  }

  // ---- The partial exit ----

  datatype Instrument = Instrument(step: Num, qtyAccepted: bool)

  /** Half the original quantity, rounded down to whole steps. */
  function HalfQty(qtyOriginal: real, step: real): real
    requires step > 0.0
  {
    (qtyOriginal * 0.5 / step).Floor as real * step
  }

  /** The largest multiple of the step within half the position. */
  lemma HalfQtyIsLargest(qtyOriginal: real, step: real, lots: int)
    requires step > 0.0
    ensures HalfQty(qtyOriginal, step) <= qtyOriginal * 0.5
    ensures lots as real * step <= qtyOriginal * 0.5 ==> lots as real * step <= HalfQty(qtyOriginal, step)
  {
    var x := qtyOriginal * 0.5 / step;
    assert x * step == qtyOriginal * 0.5;
    FloorIsLargest(x, step, lots);
  }

  lemma FloorIsLargest(x: real, step: real, lots: int)
    requires step > 0.0
    ensures x.Floor as real * step <= x * step
    ensures lots as real * step <= x * step ==> lots as real * step <= x.Floor as real * step
  {
    var n := x.Floor;
    assert n as real <= x;
    MulMonotone(n as real, x, step);
    if lots as real * step <= x * step {
      Unscaled(lots as real, x, step);
      FloorAbove(x, lots);
      MulMonotone(lots as real, n as real, step);
    }
  }

  lemma FloorAbove(x: real, lots: int)
    requires lots as real <= x
    ensures lots <= x.Floor
  {
    var n := x.Floor;
    assert x < (n + 1) as real;
    assert lots < n + 1;
  }

  /** Skip without an intent, fail, or submit this quantity. */
  datatype Plan = Skip | Fail | Submit(qty: real)

  function PartialPlan(p: Position, info: Option<Instrument>): Plan {
    if p.tp1Hit then Skip
    else if !(p.entry.Positive() && p.stop.Positive() && p.price.Positive()) || p.direction.Unknown? then Fail
    else
      var distance := AbsReal(p.entry.r - p.stop.r);
      if distance <= 0.0 || Profit(p) < distance + p.entry.r * 0.0003 then Skip
      else if info.None? || !info.value.step.Positive() || p.qtyOriginal.NotFinite? || p.qty.NotFinite? then Fail
      else
        var qty := HalfQty(p.qtyOriginal.r, info.value.step.r);
        if qty <= 0.0 || qty >= p.qty.r then Skip
        else if !info.value.qtyAccepted then Fail
        else Submit(qty)
  }

  /** The partial exit is due once the price has moved the risk and three basis
      points of the entry in favour of the position. */
  predicate PartialDue(p: Position)
    requires p.entry.Fin? && p.stop.Fin? && p.price.Fin?
  {
    var entry, stop, price := p.entry.r, p.stop.r, p.price.r;
    entry != stop
    && match p.direction
       case Long => price >= 1.0003 * entry + (entry - stop) && price >= 1.0003 * entry + (stop - entry)
       case Short => price <= 0.9997 * entry - (entry - stop) && price <= 0.9997 * entry - (stop - entry)
       case Unknown => false
  }

  predicate UsablePrices(p: Position) {
    AboveZero(p.entry) && AboveZero(p.stop) && AboveZero(p.price) && p.direction in {Long, Short}
  }

  /** What a pass without an intent does: nothing for a position past its first
      target or not yet there, an error for unusable numbers, and otherwise half
      the position in whole steps, if that is something and not all of it. */
  lemma PlanByPrices(p: Position, info: Option<Instrument>)
    ensures var plan := PartialPlan(p, info);
            && (p.tp1Hit ==> plan == Skip)
            && (!p.tp1Hit && !UsablePrices(p) ==> plan == Fail)
            && (!p.tp1Hit && UsablePrices(p) && !PartialDue(p) ==> plan == Skip)
            && (!p.tp1Hit && UsablePrices(p) && PartialDue(p) ==>
                  if info.None? || !AboveZero(info.value.step) || p.qtyOriginal.NotFinite? || p.qty.NotFinite?
                  then plan == Fail
                  else
                    var half := HalfQty(p.qtyOriginal.r, info.value.step.r);
                    if 0.0 < half < p.qty.r then plan == (if info.value.qtyAccepted then Submit(half) else Fail)
                    else plan == Skip)
  {
  }

  /** The size left on the exchange, or nothing when the rows prove nothing. */
  function Remaining(rows: Rows): Option<real> {
    if rows.NotRows? || |rows.sizes| > 1 then None
    else if |rows.sizes| == 0 then Some(0.0)
    else
      var row := rows.sizes[0];
      if !row.unitKnown || row.raw.NotFinite? || row.base.NotFinite?
          || (row.raw.r != 0.0 && row.base.r <= 0.0) then None
      else Some(row.base.r)
  }

  /** The exchange shows nothing of the symbol: no row, or one row of a known
      unit with nothing in it. */
  predicate ReadFlat(rows: Rows) {
    && rows.Contents?
    && (rows.sizes == [] || rows.sizes == [SizeRow(true, Fin(0.0), Fin(0.0))])
  }

  /** One row of a known unit shows this much of the symbol. */
  predicate ReadOpen(rows: Rows, left: real) {
    && rows.Contents? && |rows.sizes| == 1
    && rows.sizes[0].unitKnown && rows.sizes[0].raw.Fin? && rows.sizes[0].base == Fin(left) && left != 0.0
    && (rows.sizes[0].raw.r == 0.0 || left > 0.0)
  }

  /** What the rows mean: flat, this much, or nothing that can be relied on. */
  lemma RemainingMeans(rows: Rows)
    ensures Remaining(rows) == Some(0.0) <==> ReadFlat(rows)
    ensures forall left :: left != 0.0 ==> (Remaining(rows) == Some(left) <==> ReadOpen(rows, left))
    ensures Remaining(rows).None? ==> !ReadFlat(rows) && forall left :: !ReadOpen(rows, left)
  {
  }

  datatype PartialAfter = PartialAfter(desk: Desk, pos: Position, pending: bool, unprotected: bool, died: bool)

  /** After a confirmed fill: what is left must be flat or protected at entry. */
  function Guarded(d: Desk, key: Key, intent: Intent, p: Position, unprotected: bool, e: Env): PartialAfter {
    if !e.positions.Returned? || Remaining(e.positions.value).None? then
      PartialAfter(d, p, true, unprotected, e.positions.CallCrashed?)
    else
      var left := Remaining(e.positions.value).value;
      var hit := p.(tp1Hit := true);
      if left == 0.0 then PartialAfter(d, hit, !e.sync.Returned?, unprotected, e.sync.CallCrashed?)
      else
        var resized := hit.(qty := Fin(left));
        if intent.protected then PartialAfter(d, resized, false, unprotected, false)
        else if e.setStop != Returned(true) then PartialAfter(d, resized, true, true, e.setStop.CallCrashed?)
        else
          var w := Written(d, key, intent.(protected := true), e.stopWrite);
          if w.Halt? then PartialAfter(w.desk, resized, true, true, w.died)
          else PartialAfter(w.desk, resized.(stop := p.entry, trailing := p.entry), false, false, false)
  }

  /** Learn the order id, wait for the fill, and record it. */
  function FilledStage(d: Desk, key: Key, intent: Intent, e: Env): Stage {
    if intent.filled then Go(d, intent)
    else
      var found := Recovered(d, key, intent, e);
      if found.Halt? then found
      else if found.intent.orderId == "" then Halt(found.desk, false)
      else if e.fill != Returned(true) then Halt(found.desk, e.fill.CallCrashed?)
      else Written(found.desk, key, found.intent.(filled := true), e.fillWrite)
  }

  /** One symbol in `durable_partial_exit.check`; `pending` says whether the
      symbol ends the visit in the pending set. */
  function PartialVisit(d: Desk, symbol: string, p: Position, info: Option<Instrument>, unprotected: bool, e: Env)
    : PartialAfter
  {
    var key := Key(PartialExit, symbol, p.opening);
    if p.opening == "" then PartialAfter(d, p, true, unprotected, false)
    else if !e.load.Returned? then PartialAfter(d, p, true, unprotected, e.load.CallCrashed?)
    else if d.Row(key).None? && !PartialPlan(p, info).Submit? then
      PartialAfter(d, p, PartialPlan(p, info).Fail?, unprotected, false)
    else
      var start :=
        if d.Row(key).Some? then Go(d, d.durable[key])
        else
          var qty := PartialPlan(p, info).qty;
          Submitted(d, key, Intent(ClientOid(key), "", qty, false, false), e);
      if start.Halt? then PartialAfter(start.desk, p, true, unprotected, start.died)
      else FromIntent(start.desk, key, start.intent, p, unprotected, e)
  }

  /** The visit once its intent is recorded. */
  function FromIntent(d: Desk, key: Key, intent: Intent, p: Position, unprotected: bool, e: Env): PartialAfter {
    var filled := FilledStage(d, key, intent, e);
    if filled.Halt? then PartialAfter(filled.desk, p, true, unprotected, filled.died)
    else Guarded(filled.desk, key, filled.intent, p, unprotected, e)
  }

  /** When a visit makes the one submission of the partial exit. */
  lemma PartialSubmitsExactly(d: Desk, symbol: string, p: Position, info: Option<Instrument>, marked: bool, e: Env)
    ensures var key, r := Key(PartialExit, symbol, p.opening), PartialVisit(d, symbol, p, info, marked, e);
            && (r.desk.placed != d.placed <==>
                  && p.opening != "" && e.load.Returned? && d.Row(key).None?
                  && PartialPlan(p, info).Submit? && e.intentWrite == Committed)
            && (r.desk.placed != d.placed ==>
                  var intent := Intent(ClientOid(key), "", PartialPlan(p, info).qty, false, false);
                  r.desk.placed == d.placed + [Submission(key, ClientOid(key), Some(intent))])
            && (p.opening == "" || !e.load.Returned? ==> r.desk == d && r.pos == p && r.pending)
            && (p.opening != "" && e.load.Returned? && d.Row(key).None? && !PartialPlan(p, info).Submit? ==>
                  r.desk == d && r.pos == p && (r.pending <==> PartialPlan(p, info) == Fail))
  {
    var key := Key(PartialExit, symbol, p.opening);
    if p.opening != "" && e.load.Returned? && d.Row(key).None? && PartialPlan(p, info).Submit? {
      var intent := Intent(ClientOid(key), "", PartialPlan(p, info).qty, false, false);
      var start := Submitted(d, key, intent, e);
      if start.Go? {
        LaterPlacesNothing(start.desk, key, start.intent, p, marked, e);
      }
    } else if d.Row(key).Some? {
      LaterPlacesNothing(d, key, d.durable[key], p, marked, e);
    }
  }

  lemma LaterPlacesNothing(d: Desk, key: Key, intent: Intent, p: Position, marked: bool, e: Env)
    ensures FromIntent(d, key, intent, p, marked, e).desk.placed == d.placed
  {
  }

  /** When the fill of a recorded intent is recorded: it was, or its order id
      is known or found, and the exchange confirms it. */
  lemma FilledExactly(d: Desk, key: Key, intent: Intent, e: Env)
    requires key.kind == PartialExit && d.Row(key) == Some(intent)
    ensures var s := FilledStage(d, key, intent, e);
            s.Go? <==>
              || intent.filled
              || ((intent.orderId != ""
                   || (e.lookup.Returned? && e.lookup.value != "" && e.lookupWrite == Committed))
                  && e.fill == Returned(true) && e.fillWrite == Committed)
    ensures var s := FilledStage(d, key, intent, e);
            s.Go? ==> s.intent == intent.(filled := true, orderId := s.intent.orderId)
                      && (intent.filled || intent.orderId != "" ==> s.intent.orderId == intent.orderId)
                      && (!intent.filled && intent.orderId == "" ==> e.lookup == Returned(s.intent.orderId))
                      && s.desk.Row(key) == Some(s.intent)
    ensures var s := FilledStage(d, key, intent, e);
            s.Halt? && e.lookup.Returned? && !intent.filled && intent.orderId == "" ==>
              s.desk.Row(key).Some?
              && s.desk.durable[key].orderId
                 == if e.lookupWrite in {Refused, CrashedBefore} then "" else e.lookup.value
  {
  }

  // ---- What every visit keeps ----

  /** The row of one key may be created, its blanks filled in and its marks
      set; ids, quantity, a known order id and set marks never change. */
  ghost predicate RowAdvances(before: Option<Intent>, after: Option<Intent>) {
    before.Some? ==>
      && after.Some?
      && after.value.oid == before.value.oid && after.value.qty == before.value.qty
      && (before.value.orderId != "" ==> after.value.orderId == before.value.orderId)
      && (before.value.filled ==> after.value.filled)
      && (before.value.protected ==> after.value.protected)
  }

  ghost predicate GoodIntent(key: Key, i: Intent) {
    && i.oid.key == key
    && (i.protected ==> i.filled)
    && (i.filled ==> i.orderId != "")
  }

  /** Every submission was preceded by its intent in the row, which the row
      still holds; no key was submitted twice. */
  ghost predicate Sound(d: Desk) {
    && (forall k :: k in d.durable ==> GoodIntent(k, d.durable[k]))
    && (forall n :: 0 <= n < |d.placed| ==>
          var s := d.placed[n];
          && s.row.Some? && s.row.value.oid == s.oid && s.oid.key == s.key
          && s.key in d.durable && d.durable[s.key].oid == s.oid)
    && (forall m, n :: 0 <= m < n < |d.placed| ==> d.placed[m].key != d.placed[n].key)
  }

  /** A visit touches only its own key, and submits only when the row had no
      intent for it. */
  ghost predicate Advances(before: Desk, after: Desk, key: Key) {
    && (forall k :: k in before.durable && k != key ==> k in after.durable && after.durable[k] == before.durable[k])
    && (forall k :: k in after.durable && k != key ==> k in before.durable)
    && RowAdvances(before.Row(key), after.Row(key))
    && (after.placed == before.placed
        || (before.Row(key).None? && |after.placed| == |before.placed| + 1 && before.placed < after.placed
            && after.placed[|before.placed|].key == key))
  }

  /** Rewriting a row that is already there with a later intent. */
  lemma WrittenAdvances(d: Desk, key: Key, intent: Intent, w: WriteOutcome)
    requires Sound(d) && d.Row(key).Some? && GoodIntent(key, intent) && RowAdvances(d.Row(key), Some(intent))
    ensures var s := Written(d, key, intent, w);
            && Sound(s.desk) && Advances(d, s.desk, key) && s.desk.placed == d.placed
            && (s.Go? ==> s.desk.Row(key) == Some(s.intent))
  {
  }

  lemma FirstWriteAdvances(d: Desk, key: Key, intent: Intent, w: WriteOutcome)
    requires Sound(d) && d.Row(key).None? && GoodIntent(key, intent)
    ensures var s := Written(d, key, intent, w);
            && Sound(s.desk) && Advances(d, s.desk, key) && s.desk.placed == d.placed
            && (s.Go? ==> s.desk.Row(key) == Some(intent))
  {
  }

  /** The one submission of a key, made while the row holds its intent. */
  lemma PlacingKeepsSound(d: Desk, key: Key, intent: Intent)
    requires Sound(d) && d.Row(key) == Some(intent) && GoodIntent(key, intent)
    requires forall n :: 0 <= n < |d.placed| ==> d.placed[n].key != key
    ensures Sound(d.(placed := d.placed + [Submission(key, intent.oid, d.Row(key))]))
  {
  }

  lemma SubmittedAdvances(d: Desk, key: Key, intent: Intent, e: Env)
    requires Sound(d) && d.Row(key).None? && GoodIntent(key, intent) && intent.orderId == "" && !intent.filled
    ensures var s := Submitted(d, key, intent, e);
            && Sound(s.desk) && Advances(d, s.desk, key)
            && (s.Go? ==> s.desk.Row(key) == Some(s.intent) && GoodIntent(key, s.intent))
  {
    FirstWriteAdvances(d, key, intent, e.intentWrite);
    var first := Written(d, key, intent, e.intentWrite);
    if first.Go? {
      PlacingKeepsSound(first.desk, key, intent);
      var sent := first.desk.(placed := first.desk.placed + [Submission(key, intent.oid, first.desk.Row(key))]);
      if e.place.Returned? {
        WrittenAdvances(sent, key, intent.(orderId := e.place.value), e.placeWrite);
      }
    }
  }

  lemma RecoveredAdvances(d: Desk, key: Key, intent: Intent, e: Env)
    requires Sound(d) && d.Row(key) == Some(intent)
    ensures var s := Recovered(d, key, intent, e);
            && Sound(s.desk) && Advances(d, s.desk, key) && s.desk.placed == d.placed
            && (s.Go? ==> s.desk.Row(key) == Some(s.intent))
  {
    if intent.orderId == "" && e.lookup.Returned? {
      WrittenAdvances(d, key, intent.(orderId := e.lookup.value), e.lookupWrite);
    }
  }

  lemma AdvancesTwice(a: Desk, b: Desk, c: Desk, key: Key)
    requires Advances(a, b, key) && Advances(b, c, key) && c.placed == b.placed
    ensures Advances(a, c, key)
  {
  }

  lemma FullOrderAdvances(d: Desk, key: Key, p: Position, e: Env)
    requires Sound(d) && (p.qty.Fin? || d.Row(key).Some?)
    ensures Sound(FullOrder(d, key, p, e).desk) && Advances(d, FullOrder(d, key, p, e).desk, key)
  {
    if d.Row(key).Some? {
      RecoveredAdvances(d, key, d.durable[key], e);
    } else {
      var start := Submitted(d, key, FullIntent(key, p), e);
      SubmittedAdvances(d, key, FullIntent(key, p), e);
      if start.Go? {
        RecoveredAdvances(start.desk, key, start.intent, e);
        AdvancesTwice(d, start.desk, Recovered(start.desk, key, start.intent, e).desk, key);
      }
    }
  }

  lemma FullVisitAdvances(d: Desk, symbol: string, p: Position, partialPending: bool, e: Env)
    requires Sound(d)
    ensures var r := FullVisit(d, symbol, p, partialPending, e);
            Sound(r.desk) && Advances(d, r.desk, Key(FullExit, symbol, p.opening))
  {
    var key := Key(FullExit, symbol, p.opening);
    if p.qty.Fin? || d.Row(key).Some? {
      FullOrderAdvances(d, key, p, e);
    }
  }

  lemma FilledAdvances(d: Desk, key: Key, intent: Intent, e: Env)
    requires Sound(d) && d.Row(key) == Some(intent)
    ensures var s := FilledStage(d, key, intent, e);
            && Sound(s.desk) && Advances(d, s.desk, key) && s.desk.placed == d.placed
            && (s.Go? ==> s.desk.Row(key) == Some(s.intent) && s.intent.filled)
  {
    if !intent.filled {
      RecoveredAdvances(d, key, intent, e);
      var found := Recovered(d, key, intent, e);
      if found.Go? && found.intent.orderId != "" {
        WrittenAdvances(found.desk, key, found.intent.(filled := true), e.fillWrite);
        AdvancesTwice(d, found.desk, Written(found.desk, key, found.intent.(filled := true), e.fillWrite).desk, key);
      }
    }
  }

  lemma GuardedAdvances(d: Desk, key: Key, intent: Intent, p: Position, unprotected: bool, e: Env)
    requires Sound(d) && d.Row(key) == Some(intent) && intent.filled
    ensures var r := Guarded(d, key, intent, p, unprotected, e);
            Sound(r.desk) && Advances(d, r.desk, key) && r.desk.placed == d.placed
  {
    WrittenAdvances(d, key, intent.(protected := true), e.stopWrite);
    assert Guarded(d, key, intent, p, unprotected, e).desk
           in {d, Written(d, key, intent.(protected := true), e.stopWrite).desk};
  }

  /** A partial exit is finished: the exchange was read flat, or what it shows
      is the position's size and protected at the entry price. */
  ghost predicate Finished(row: Option<Intent>, p: Position, e: Env) {
    && row.Some? && row.value.filled && e.positions.Returned? && p.tp1Hit
    && (ReadFlat(e.positions.value)
        || (p.qty.Fin? && ReadOpen(e.positions.value, p.qty.r) && row.value.protected))
  }

  lemma GuardedSettles(d: Desk, key: Key, intent: Intent, p: Position, unprotected: bool, e: Env)
    requires d.Row(key) == Some(intent) && intent.filled
    ensures var r := Guarded(d, key, intent, p, unprotected, e);
            !r.pending && !r.died ==> Finished(r.desk.Row(key), r.pos, e)
  {
    if e.positions.Returned? {
      RemainingMeans(e.positions.value);
    }
  }

  /** What the rows do to a visit that has its fill: a flat symbol is handed to
      the position sync, a readable one resizes the position and is pending
      until protected, and anything else leaves all as it was, pending. */
  ghost predicate FollowsRows(d: Desk, key: Key, intent: Intent, p: Position, marked: bool, e: Env, r: PartialAfter)
    requires e.positions.Returned?
  {
    var rows := e.positions.value;
    && (ReadFlat(rows) ==>
          && r.pos == p.(tp1Hit := true) && r.desk == d && r.unprotected == marked
          && (r.pending <==> !e.sync.Returned?))
    && (forall left :: ReadOpen(rows, left) ==>
          && r.pos.qty == Fin(left) && r.pos.tp1Hit
          && (r.pending <==> !intent.protected && !(e.setStop == Returned(true) && e.stopWrite.Committed?))
          && (!r.pending ==> r.desk.Row(key).Some? && r.desk.durable[key].protected)
          && (r.pending ==> r.unprotected)
          && (!r.pending && !intent.protected ==> r.pos.stop == p.entry && r.pos.trailing == p.entry))
    && (!ReadFlat(rows) && (forall left :: !ReadOpen(rows, left)) ==>
          r.pending && r.pos == p && r.desk == d && r.unprotected == marked)
  }

  lemma GuardedByRows(d: Desk, key: Key, intent: Intent, p: Position, marked: bool, e: Env)
    requires d.Row(key) == Some(intent) && e.positions.Returned?
    ensures FollowsRows(d, key, intent, p, marked, e, Guarded(d, key, intent, p, marked, e))
  {
    var rows := e.positions.value;
    RemainingMeans(rows);
    if Remaining(rows).Some? && Remaining(rows).value != 0.0 {
      assert ReadOpen(rows, Remaining(rows).value);
    }
  }

  /** So it is with the visit of a symbol whose fill is recorded. */
  lemma VisitFollowsRows(d: Desk, symbol: string, p: Position, info: Option<Instrument>, marked: bool, e: Env)
    requires var row := d.Row(Key(PartialExit, symbol, p.opening)); row.Some? && row.value.filled
    requires p.opening != "" && e.load.Returned? && e.positions.Returned?
    ensures var key := Key(PartialExit, symbol, p.opening);
            FollowsRows(d, key, d.durable[key], p, marked, e, PartialVisit(d, symbol, p, info, marked, e))
  {
    var key := Key(PartialExit, symbol, p.opening);
    GuardedByRows(d, key, d.durable[key], p, marked, e);
  }

  lemma PartialVisitAdvances(d: Desk, symbol: string, p: Position, info: Option<Instrument>, unprotected: bool, e: Env)
    requires Sound(d)
    ensures var r := PartialVisit(d, symbol, p, info, unprotected, e);
            Sound(r.desk) && Advances(d, r.desk, Key(PartialExit, symbol, p.opening))
  {
    var key := Key(PartialExit, symbol, p.opening);
    if p.opening != "" && e.load.Returned? && (d.Row(key).Some? || PartialPlan(p, info).Submit?) {
      var start := Go(d, Intent(ClientOid(key), "", 0.0, false, false));
      if d.Row(key).Some? {
        start := Go(d, d.durable[key]);
      } else {
        var qty := PartialPlan(p, info).qty;
        var intent := Intent(ClientOid(key), "", qty, false, false);
        SubmittedAdvances(d, key, intent, e);
        start := Submitted(d, key, intent, e);
      }
      if start.Go? {
        FilledAdvances(start.desk, key, start.intent, e);
        var filled := FilledStage(start.desk, key, start.intent, e);
        AdvancesTwice(d, start.desk, filled.desk, key);
        if filled.Go? {
          GuardedAdvances(filled.desk, key, filled.intent, p, unprotected, e);
          AdvancesTwice(d, filled.desk, Guarded(filled.desk, key, filled.intent, p, unprotected, e).desk, key);
        }
      }
    }
  }

  /** A symbol a visit leaves out of the pending set has no partial intent, or
      was read flat, or is durably protected at the size that was read. */
  lemma NotPendingMeansSettled(d: Desk, symbol: string, p: Position, info: Option<Instrument>, unprotected: bool,
          e: Env)
    requires Sound(d)
    ensures var r := PartialVisit(d, symbol, p, info, unprotected, e);
            var key := Key(PartialExit, symbol, p.opening);
            !r.pending && !r.died ==> r.desk.Row(key).None? || Finished(r.desk.Row(key), r.pos, e)
  {
    var key := Key(PartialExit, symbol, p.opening);
    if p.opening != "" && e.load.Returned? && (d.Row(key).Some? || PartialPlan(p, info).Submit?) {
      if d.Row(key).None? {
        var qty := PartialPlan(p, info).qty;
        SubmittedAdvances(d, key, Intent(ClientOid(key), "", qty, false, false), e);
      }
      var start := if d.Row(key).Some? then Go(d, d.durable[key])
      else Submitted(d, key, Intent(ClientOid(key), "", PartialPlan(p, info).qty, false, false), e);
      if start.Go? {
        FilledAdvances(start.desk, key, start.intent, e);
        var filled := FilledStage(start.desk, key, start.intent, e);
        if filled.Go? {
          GuardedSettles(filled.desk, key, filled.intent, p, unprotected, e);
        }
      }
    }
  }

  /** The local stop moves only to the entry price, and only after the
      exchange confirmed the new stop and the protection was recorded; a
      failed repair leaves the symbol marked unprotected; the first target
      counts as hit only with a recorded fill. */
  predicate RepairIsSafe(key: Key, p: Position, unprotected: bool, e: Env, r: PartialAfter) {
    && (r.pos.stop != p.stop || r.pos.trailing != p.trailing ==>
          && r.pos.stop == p.entry && r.pos.trailing == p.entry
          && e.setStop == Returned(true) && e.stopWrite.Committed?
          && r.desk.Row(key).Some? && r.desk.durable[key].protected
          && !r.unprotected && !r.pending)
    && (unprotected && !r.unprotected ==> r.desk.Row(key).Some? && r.desk.durable[key].protected)
    && (r.pos.tp1Hit && !p.tp1Hit ==> r.desk.Row(key).Some? && r.desk.durable[key].filled && e.positions.Returned?)
  }

  lemma GuardedIsSafe(d: Desk, key: Key, intent: Intent, p: Position, unprotected: bool, e: Env)
    requires d.Row(key) == Some(intent) && intent.filled
    ensures RepairIsSafe(key, p, unprotected, e, Guarded(d, key, intent, p, unprotected, e))
  {
  }

  lemma FilledRow(d: Desk, key: Key, intent: Intent, e: Env)
    requires d.Row(key) == Some(intent)
    ensures var s := FilledStage(d, key, intent, e);
            s.Go? ==> s.desk.Row(key) == Some(s.intent) && s.intent.filled
  {
  }

  lemma FromIntentIsSafe(d: Desk, key: Key, intent: Intent, p: Position, unprotected: bool, e: Env)
    requires d.Row(key) == Some(intent)
    ensures RepairIsSafe(key, p, unprotected, e, FromIntent(d, key, intent, p, unprotected, e))
  {
    FilledRow(d, key, intent, e);
    var filled := FilledStage(d, key, intent, e);
    if filled.Go? {
      GuardedIsSafe(filled.desk, key, filled.intent, p, unprotected, e);
    }
  }

  lemma SubmittedRow(d: Desk, key: Key, intent: Intent, e: Env)
    ensures var s := Submitted(d, key, intent, e);
            s.Go? ==> s.desk.Row(key) == Some(s.intent)
  {
  }

  lemma StopMovesAfterProtection(d: Desk, symbol: string, p: Position, info: Option<Instrument>, unprotected: bool,
          e: Env)
    ensures RepairIsSafe(Key(PartialExit, symbol, p.opening), p, unprotected, e,
            PartialVisit(d, symbol, p, info, unprotected, e))
  {
    var key := Key(PartialExit, symbol, p.opening);
    if p.opening != "" && e.load.Returned? {
      if d.Row(key).Some? {
        FromIntentIsSafe(d, key, d.durable[key], p, unprotected, e);
      } else if PartialPlan(p, info).Submit? {
        var qty := PartialPlan(p, info).qty;
        var intent := Intent(ClientOid(key), "", qty, false, false);
        SubmittedRow(d, key, intent, e);
        var start := Submitted(d, key, intent, e);
        if start.Go? {
          FromIntentIsSafe(start.desk, key, start.intent, p, unprotected, e);
        }
      }
    }
  }

  // ---- Runs ----

  datatype Visit =
    | Full(symbol: string, pos: Position, partialPending: bool, env: Env)
    | Partial(symbol: string, pos: Position, info: Option<Instrument>, unprotected: bool, env: Env)

  function VisitKey(v: Visit): Key {
    Key(if v.Full? then FullExit else PartialExit, v.symbol, v.pos.opening)
  }

  function Next(d: Desk, v: Visit): Desk {
    match v
    case Full(symbol, p, partialPending, e) => FullVisit(d, symbol, p, partialPending, e).desk
    case Partial(symbol, p, info, unprotected, e) => PartialVisit(d, symbol, p, info, unprotected, e).desk
  }

  function Exec(d: Desk, run: seq<Visit>): Desk
    decreases |run|
  {
    if |run| == 0 then d else Exec(Next(d, run[0]), run[1..])
  }

  /** A run is its visits one after another. */
  lemma {:induction false} ExecSplit(d: Desk, a: seq<Visit>, b: seq<Visit>, v: Visit)
    ensures Exec(d, []) == d && Exec(d, [v]) == Next(d, v)
    ensures Exec(d, a + b) == Exec(Exec(d, a), b)
    decreases |a|
  {
    assert [v][1..] == [];
    if |a| == 0 {
      assert a + b == b;
    } else {
      ExecSplit(Next(d, a[0]), a[1..], b, v);
      assert (a + b)[1..] == a[1..] + b;
    }
  }

  lemma NextAdvances(d: Desk, v: Visit)
    requires Sound(d)
    ensures Sound(Next(d, v)) && Advances(d, Next(d, v), VisitKey(v))
  {
    match v
    case Full(symbol, p, partialPending, e) => FullVisitAdvances(d, symbol, p, partialPending, e);
    case Partial(symbol, p, info, unprotected, e) => PartialVisitAdvances(d, symbol, p, info, unprotected, e);
  }

  lemma {:induction false} ExecSound(d: Desk, run: seq<Visit>)
    requires Sound(d)
    ensures Sound(Exec(d, run)) && d.placed <= Exec(d, run).placed
    decreases |run|
  {
    if |run| == 0 {
    } else {
      NextAdvances(d, run[0]);
      ExecSound(Next(d, run[0]), run[1..]);
    }
  }

  /** Every row only advances over a whole run: its ids and quantity are
      fixed, a known order id is never overwritten, marks are never lost. */
  lemma {:induction false} RowsOnlyAdvance(d: Desk, run: seq<Visit>, key: Key)
    requires Sound(d)
    ensures RowAdvances(d.Row(key), Exec(d, run).Row(key))
    decreases |run|
  {
    if |run| == 0 {
    } else {
      NextAdvances(d, run[0]);
      RowsOnlyAdvance(Next(d, run[0]), run[1..], key);
    }
  }

  ghost predicate NoneAfter(d: Desk, placed: seq<Submission>, key: Key) {
    && placed <= d.placed
    && forall n :: |placed| <= n < |d.placed| ==> d.placed[n].key != key
  }

  lemma NoneAfterStep(d: Desk, next: Desk, last: Desk, moved: Key, key: Key)
    requires Advances(d, next, moved) && d.Row(key).Some?
    requires next.Row(key).Some? ==> NoneAfter(last, next.placed, key)
    ensures next.Row(key).Some? && NoneAfter(last, d.placed, key)
  {
  }

  /** A recorded intent is final: whatever became of its first submission,
      even if the process died before making it, no later visit submits again. */
  lemma {:induction false} NeverResubmitted(d: Desk, run: seq<Visit>, key: Key)
    requires Sound(d) && d.Row(key).Some?
    ensures NoneAfter(Exec(d, run), d.placed, key)
    decreases |run|
  {
    if |run| == 0 {
    } else {
      var next := Next(d, run[0]);
      NextAdvances(d, run[0]);
      if next.Row(key).Some? {
        NeverResubmitted(next, run[1..], key);
      }
      NoneAfterStep(d, next, Exec(next, run[1..]), VisitKey(run[0]), key);
    }
  }

  /** Over any run from an empty desk, with crashes at any await and writes
      that fail or commit unseen: each (kind, symbol, opening order) is
      submitted at most once, the row held the submitted client id at the
      moment of the call and holds it ever after, and every row satisfies
      protected => filled => order id known. */
  lemma AtMostOnce(run: seq<Visit>)
    ensures var d := Exec(Desk(map[], []), run);
            && (forall m, n :: 0 <= m < n < |d.placed| ==> d.placed[m].key != d.placed[n].key)
            && (forall n :: 0 <= n < |d.placed| ==>
                  var s := d.placed[n];
                  && s.row.Some? && s.row.value.oid == s.oid
                  && s.key in d.durable && d.durable[s.key].oid == s.oid)
            && (forall k :: k in d.durable ==>
                  (d.durable[k].protected ==> d.durable[k].filled)
                  && (d.durable[k].filled ==> d.durable[k].orderId != ""))
  {
    ExecSound(Desk(map[], []), run);
    var d := Exec(Desk(map[], []), run);
    forall k | k in d.durable
      ensures (d.durable[k].protected ==> d.durable[k].filled) && (d.durable[k].filled ==> d.durable[k].orderId != "")
    {
      assert GoodIntent(k, d.durable[k]);
    }
  }
}

/** External deposits and withdrawals of bot/capital_flow_reconciliation.py:
    each transfer of the exchange ledger rebases the high-water mark in one
    write and moves the ledger cursor in a second one. */
module CapitalFlow {
  import opened Common
  import opened HighWaterMark

  datatype RowKind = InRow | OutRow | OtherRow

  /** A ledger row; a field that does not parse is absent. */
  datatype Row = Row(
    kind: RowKind, completed: bool, amount: Option<real>, equity: Option<real>, offset: Option<int>, time: Option<int>)

  datatype Transfer = Transfer(flow: Flow, offset: int, time: int)

  /** `_normalized_transfer`, with `None` for a row that is skipped. */
  function Normalized(row: Row): Option<Transfer> {
    if row.kind.OtherRow? || !row.completed then None
    else if row.amount.None? || row.amount.value == 0.0 then None
    else if row.equity.None? || row.equity.value <= 0.0 || row.offset.None? || row.time.None? then None
    else
      var amount, post := AbsReal(row.amount.value), row.equity.value;
      if row.kind.OutRow? then
        Some(Transfer(Flow(TransferOut, amount, post + amount, post), row.offset.value, row.time.value))
      else if post - amount <= 0.0 then None
      else Some(Transfer(Flow(TransferIn, amount, post - amount, post), row.offset.value, row.time.value))
  }

  /** A transfer the rebase accepts: additive, with both equities positive. */
  predicate Usable(t: Transfer) {
    && t.flow.amount > 0.0 && t.flow.pre > 0.0 && t.flow.post > 0.0
    && (t.flow.kind.TransferIn? || t.flow.kind.TransferOut?)
    && (t.flow.kind.TransferIn? ==> t.flow.post == t.flow.pre + t.flow.amount)
    && (t.flow.kind.TransferOut? ==> t.flow.pre == t.flow.post + t.flow.amount)
  }

  /** The row records this transfer: completed, of a direction, with every
      number it needs; a deposit raised the equity it shows by its amount from
      something, and a withdrawal lowered it. */
  predicate Records(row: Row, t: Transfer) {
    && !row.kind.OtherRow? && row.completed
    && row.amount.Some? && row.amount.value != 0.0 && row.equity.Some? && row.equity.value > 0.0
    && row.offset == Some(t.offset) && row.time == Some(t.time)
    && t.flow.kind == (if row.kind.InRow? then TransferIn else TransferOut)
    && (t.flow.amount == row.amount.value || t.flow.amount == -row.amount.value) && t.flow.amount > 0.0
    && t.flow.post == row.equity.value && t.flow.pre > 0.0
    && (row.kind.InRow? ==> t.flow.pre + t.flow.amount == t.flow.post)
    && (row.kind.OutRow? ==> t.flow.pre - t.flow.amount == t.flow.post)
  }

  lemma NormalizedRecords(row: Row)
    ensures forall t :: Normalized(row) == Some(t) <==> Records(row, t)
  {
  }

  /** The transfers are those the rows record, one for each row that does. */
  lemma {:induction false} TransfersRecord(rows: seq<Row>, t: Transfer)
    ensures t in Transfers(rows) <==> exists row :: row in rows && Records(row, t)
    decreases |rows|
  {
    if |rows| == 0 {
    } else {
      var n := |rows| - 1;
      TransfersRecord(rows[..n], t);
      NormalizedRecords(rows[n]);
      assert forall row :: row in rows <==> row in rows[..n] || row == rows[n];
    }
  }

  lemma SameRecorded(ts: seq<Transfer>, rows: seq<Row>)
    requires multiset(ts) == multiset(Transfers(rows))
    ensures forall t :: t in ts <==> exists row :: row in rows && Records(row, t)
  {
    forall t
      ensures t in ts <==> exists row :: row in rows && Records(row, t)
    {
      assert t in ts <==> t in multiset(ts);
      assert t in Transfers(rows) <==> t in multiset(Transfers(rows));
      TransfersRecord(rows, t);
    }
  }

  predicate Before(a: Transfer, b: Transfer) {
    a.offset < b.offset || (a.offset == b.offset && a.time <= b.time)
  }

  ghost predicate InOrder(ts: seq<Transfer>) {
    forall i, j :: 0 <= i < j < |ts| ==> Before(ts[i], ts[j])
  }

  /** By offset, and by time where the offsets are equal. */
  lemma OrderedByKey(ts: seq<Transfer>)
    requires InOrder(ts)
    ensures forall i, j :: 0 <= i < j < |ts| ==> ts[i].offset <= ts[j].offset
    ensures forall i, j :: 0 <= i < j < |ts| && ts[i].offset == ts[j].offset ==> ts[i].time <= ts[j].time
  {
    forall i, j | 0 <= i < j < |ts|
      ensures ts[i].offset <= ts[j].offset
      ensures ts[i].offset == ts[j].offset ==> ts[i].time <= ts[j].time
    {
      assert Before(ts[i], ts[j]);
    }
  }

  function Inserted(ts: seq<Transfer>, t: Transfer): (r: seq<Transfer>)
    ensures multiset(r) == multiset(ts) + multiset{t} && |r| == |ts| + 1
    decreases |ts|
  {
    var n := |ts| - 1;
    if |ts| == 0 || Before(ts[n], t) then ts + [t]
    else
      assert ts == ts[..n] + [ts[n]];
      Inserted(ts[..n], t) + [ts[n]]
  }

  lemma {:induction false} InsertedInOrder(ts: seq<Transfer>, t: Transfer)
    requires InOrder(ts)
    ensures InOrder(Inserted(ts, t))
    decreases |ts|
  {
    var n := |ts| - 1;
    var r := Inserted(ts, t);
    if |ts| == 0 {
    } else if Before(ts[n], t) {
      forall i | 0 <= i < n
        ensures Before(ts[i], t)
      {
        assert Before(ts[i], ts[n]);
      }
    } else {
      InsertedInOrder(ts[..n], t);
      forall x | x in Inserted(ts[..n], t)
        ensures Before(x, ts[n])
      {
        assert x in multiset(Inserted(ts[..n], t));
        assert x in multiset(ts[..n]) || x == t;
        assert x != t ==> x in ts[..n];
      }
    }
  }

  /** The usable transfers among the rows. */
  function Transfers(rows: seq<Row>): seq<Transfer>
    decreases |rows|
  {
    if |rows| == 0 then []
    else
      var n := |rows| - 1;
      Transfers(rows[..n]) + (if Normalized(rows[n]).Some? then [Normalized(rows[n]).value] else [])
  }

  lemma {:induction false} TransfersAppend(rows: seq<Row>, row: Row)
    ensures Transfers(rows + [row]) == Transfers(rows) + (if Normalized(row).Some? then [Normalized(row).value] else [])
  {
    assert (rows + [row])[..|rows|] == rows;
  }

  lemma SameElements(a: seq<Transfer>, b: seq<Transfer>)
    requires multiset(a) == multiset(b) && forall t :: t in b ==> Usable(t)
    ensures forall t :: t in a ==> Usable(t)
  {
    forall t | t in a
      ensures Usable(t)
    {
      assert t in multiset(b);
    }
  }

  lemma {:induction false} TransfersUsable(rows: seq<Row>)
    ensures forall t :: t in Transfers(rows) ==> Usable(t)
    decreases |rows|
  {
    if |rows| == 0 {
    } else {
      TransfersUsable(rows[..|rows| - 1]);
    }
  }

  /** `_fetch_transfers`: nothing usable is lost, and the order is the ledger's. */
  method FetchTransfers(rows: seq<Row>) returns (ts: seq<Transfer>)
    ensures InOrder(ts) && multiset(ts) == multiset(Transfers(rows))
    ensures forall t :: t in ts ==> Usable(t)
    ensures forall t :: t in ts <==> exists row :: row in rows && Records(row, t)
    ensures |ts| <= |rows|
  {
    ts := [];
    var k := 0;
    while k < |rows|
      invariant 0 <= k <= |rows| && |ts| <= k
      invariant InOrder(ts) && multiset(ts) == multiset(Transfers(rows[..k]))
    {
      assert rows[..k + 1] == rows[..k] + [rows[k]];
      TransfersAppend(rows[..k], rows[k]);
      var item := Normalized(rows[k]);
      if item.Some? {
        InsertedInOrder(ts, item.value);
        ts := Inserted(ts, item.value);
      }
      k := k + 1;
    }
    assert rows[..k] == rows;
    TransfersUsable(rows);
    SameElements(ts, Transfers(rows));
    SameRecorded(ts, rows);
  }

  // ---- What a pass does ----

  /** The mark, the cursor, and the transfers whose rebase became durable. */
  datatype World = World(hwm: State, cursor: Option<int>, log: seq<Transfer>)

  /** How the two writes made for one transfer end. */
  datatype Outcome = Outcome(rebase: WriteOutcome, cursor: WriteOutcome)

  function PlanFor(w: World, t: Transfer, equity: real): Plan {
    FlowPlan(Known(w.hwm), equity, t.flow)
  }

  function Rebased(w: World, t: Transfer, equity: real, o: WriteOutcome): World {
    var plan := PlanFor(w, t, equity);
    w.(hwm := Carried(w.hwm, plan, equity, o), log := if plan.Write? && o.Durable() then w.log + [t] else w.log)
  }

  function CursorMoved(w: World, offset: int, o: WriteOutcome): World {
    w.(cursor := if o.Durable() then Some(offset) else w.cursor,
       hwm := if o.Crashed() then w.hwm.(cache := None) else w.hwm)
  }

  /** Rebase for t, then move the cursor to the mark. */
  function Applied(w: World, t: Transfer, mark: int, equity: real, o: Outcome): World {
    var rebased := Rebased(w, t, equity, o.rebase);
    if Done(PlanFor(w, t, equity), o.rebase) then CursorMoved(rebased, mark, o.cursor) else rebased
  }

  predicate Went(w: World, t: Transfer, equity: real, o: Outcome) {
    Done(PlanFor(w, t, equity), o.rebase) && o.cursor.Committed?
  }

  function AppliedAll(w: World, pending: seq<Transfer>, equity: real, outs: seq<Outcome>): World
    requires |pending| <= |outs|
    decreases |pending|
  {
    if |pending| == 0 then w
    else
      var next := Applied(w, pending[0], pending[0].offset, equity, outs[0]);
      if Went(w, pending[0], equity, outs[0]) then AppliedAll(next, pending[1..], equity, outs[1..]) else next
  }

  /** How many transfers the loop gets through. */
  function Count(w: World, pending: seq<Transfer>, equity: real, outs: seq<Outcome>): nat
    requires |pending| <= |outs|
    decreases |pending|
  {
    if |pending| == 0 || !Went(w, pending[0], equity, outs[0]) then 0
    else 1 + Count(Applied(w, pending[0], pending[0].offset, equity, outs[0]), pending[1..], equity, outs[1..])
  }

  function Pending(ts: seq<Transfer>, cursor: int): (r: seq<Transfer>)
    ensures |r| <= |ts|
    decreases |ts|
  {
    if |ts| == 0 then []
    else if ts[0].offset > cursor then [ts[0]] + Pending(ts[1..], cursor)
    else Pending(ts[1..], cursor)
  }

  function NewestOffset(ts: seq<Transfer>): (r: int)
    requires |ts| > 0
    ensures forall t :: t in ts ==> t.offset <= r
    ensures exists t :: t in ts && t.offset == r
    decreases |ts|
  {
    if |ts| == 1 then assert ts[0] in ts; ts[0].offset
    else
      var rest := NewestOffset(ts[1..]);
      assert forall t :: t in ts ==> t == ts[0] || t in ts[1..];
      assert ts[0] in ts && forall t :: t in ts[1..] ==> t in ts;
      if ts[0].offset > rest then ts[0].offset else rest
  }

  predicate EquityMatches(post: real, equity: real) {
    AbsReal(post - equity) <= MaxReal(0.02, AbsReal(equity) * 0.001)
  }

  /** The newest transfer whose equity is still the account's. */
  function NewestMatch(ts: seq<Transfer>, equity: real): (r: Option<Transfer>)
    ensures r.None? <==> forall t :: t in ts ==> !EquityMatches(t.flow.post, equity)
    ensures r.Some? ==> r.value in ts && EquityMatches(r.value.flow.post, equity)
    ensures r.Some? ==> forall t :: t in ts && EquityMatches(t.flow.post, equity) ==> Before(t, r.value)
    decreases |ts|
  {
    if |ts| == 0 then None
    else
      var rest := NewestMatch(ts[1..], equity);
      assert forall t :: t in ts <==> t == ts[0] || t in ts[1..];
      if EquityMatches(ts[0].flow.post, equity) && (rest.None? || Before(rest.value, ts[0])) then Some(ts[0]) else rest
  }

  /** `reconcile_external_capital_flows`. */
  function Pass(w: World, ts: seq<Transfer>, equity: real, outs: seq<Outcome>): World
    requires |ts| <= |outs|
  {
    if equity <= 0.0 || |ts| == 0 then w
    else if w.cursor.Some? then AppliedAll(w, Pending(ts, w.cursor.value), equity, outs)
    else
      var matched := NewestMatch(ts, equity);
      if matched.Some? then Applied(w, matched.value, NewestOffset(ts), equity, outs[0])
      else CursorMoved(w, NewestOffset(ts), outs[0].cursor)
  }

  // ---- The pass, from its inputs alone ----

  /** Two cents, or a thousandth of the account. */
  lemma MatchesByTolerance(post: real, equity: real)
    requires equity > 0.0
    ensures EquityMatches(post, equity) <==>
            (equity - 0.02 <= post <= equity + 0.02) || (999.0 * equity <= 1000.0 * post <= 1001.0 * equity)
  {
  }

  /** A transfer is on record once its rebase is durable, and the cursor moves
      only after a confirmed rebase and with its own durable write; without an
      accepted rebase nothing moves. */
  lemma AppliedByOutcome(w: World, t: Transfer, mark: int, equity: real, o: Outcome)
    ensures var plan, after := FlowPlan(Known(w.hwm), equity, t.flow), Applied(w, t, mark, equity, o);
            && (plan.Reject? ==> after == w && !Went(w, t, equity, o))
            && (plan.Write? ==>
                  && after.hwm.peak == Carried(w.hwm, plan, equity, o.rebase).peak
                  && after.hwm.provenance == Carried(w.hwm, plan, equity, o.rebase).provenance
                  && (after.log == if o.rebase in {Refused, CrashedBefore} then w.log else w.log + [t])
                  && (o.rebase != Committed ==>
                        after.cursor == w.cursor && after.hwm.cache == Carried(w.hwm, plan, equity, o.rebase).cache)
                  && (o.rebase == Committed ==>
                        && after.cursor == (if o.cursor in {Refused, CrashedBefore} then w.cursor else Some(mark))
                        && after.hwm.cache
                           == if o.cursor in {CrashedBefore, CrashedAfter} then None else Some(plan.peak))
                  && (Went(w, t, equity, o) <==> o.rebase == Committed && o.cursor == Committed))
  {
    FlowByInputs(Known(w.hwm), equity, t.flow);
    var plan := FlowPlan(Known(w.hwm), equity, t.flow);
    if plan.Write? {
      CarriedByOutcome(w.hwm, plan, equity);
    }
  }

  /** The loop as its successive worlds: one more for every transfer tried,
      each made from the one before, all but the last went through, and the
      last did only if no transfer is left. */
  lemma {:induction false} LoopTrace(w: World, pending: seq<Transfer>, equity: real, outs: seq<Outcome>)
    returns (ws: seq<World>)
    requires |pending| <= |outs|
    ensures 1 <= |ws| <= |pending| + 1 && ws[0] == w && ws[|ws| - 1] == AppliedAll(w, pending, equity, outs)
    ensures forall k :: 0 <= k < |ws| - 1 ==>
                          ws[k + 1] == Applied(ws[k], pending[k], pending[k].offset, equity, outs[k])
    ensures forall k :: 0 <= k < |ws| - 2 ==> Went(ws[k], pending[k], equity, outs[k])
    ensures var n := Count(w, pending, equity, outs);
            && n in {|ws| - 1, |ws| - 2}
            && (n == |ws| - 1 <==> n == |pending|)
            && (n == |pending| && n > 0 ==> Went(ws[n - 1], pending[n - 1], equity, outs[n - 1]))
            && (n == |ws| - 2 ==> !Went(ws[n], pending[n], equity, outs[n]))
    decreases |pending|
  {
    if |pending| == 0 {
      return [w];
    }
    var next := Applied(w, pending[0], pending[0].offset, equity, outs[0]);
    if !Went(w, pending[0], equity, outs[0]) {
      return [w, next];
    }
    var rest := LoopTrace(next, pending[1..], equity, outs[1..]);
    ws := [w] + rest;
    forall k | 0 <= k < |ws| - 1
      ensures ws[k + 1] == Applied(ws[k], pending[k], pending[k].offset, equity, outs[k])
      ensures k < |ws| - 2 ==> Went(ws[k], pending[k], equity, outs[k])
    {
      if k > 0 {
        var t, o := pending[1..][k - 1], outs[1..][k - 1];
        assert rest[k] == Applied(rest[k - 1], t, t.offset, equity, o);
      }
    }
  }

  /** What is pending: exactly the transfers above the cursor, in ledger order. */
  lemma PendingByOffset(ts: seq<Transfer>, cursor: int)
    ensures forall t :: multiset(Pending(ts, cursor))[t] == if t.offset <= cursor then 0 else multiset(ts)[t]
    ensures InOrder(ts) ==> InOrder(Pending(ts, cursor))
  {
    forall t
      ensures multiset(Pending(ts, cursor))[t] == if t.offset <= cursor then 0 else multiset(ts)[t]
    {
      PendingCounts(ts, cursor, t);
    }
    if InOrder(ts) {
      PendingInOrder(ts, cursor);
    }
  }

  lemma {:induction false} PendingCounts(ts: seq<Transfer>, cursor: int, t: Transfer)
    ensures multiset(Pending(ts, cursor))[t] == if t.offset <= cursor then 0 else multiset(ts)[t]
    decreases |ts|
  {
    if |ts| == 0 {
    } else {
      PendingCounts(ts[1..], cursor, t);
      assert ts == [ts[0]] + ts[1..];
    }
  }

  lemma {:induction false} PendingInOrder(ts: seq<Transfer>, cursor: int)
    requires InOrder(ts)
    ensures InOrder(Pending(ts, cursor))
    decreases |ts|
  {
    if |ts| == 0 {
    } else {
      PendingInOrder(ts[1..], cursor);
      var rest := Pending(ts[1..], cursor);
      forall t | t in rest
        ensures Before(ts[0], t)
      {
        PendingCounts(ts[1..], cursor, t);
        assert t in multiset(rest);
        assert t in ts[1..];
      }
    }
  }

  /** Whether a pass does anything, and what an installation without a cursor
      does: the newest matching transfer or none, then the newest offset. */
  lemma PassByInputs(w: World, ts: seq<Transfer>, equity: real, outs: seq<Outcome>)
    requires |ts| <= |outs|
    ensures var after := Pass(w, ts, equity, outs);
            && (equity <= 0.0 || |ts| == 0 ==> after == w)
            && (w.cursor.Some? && (forall t :: t in ts ==> t.offset <= w.cursor.value) ==> after == w)
            && (equity > 0.0 && w.cursor.Some? ==> after == AppliedAll(w, Pending(ts, w.cursor.value), equity, outs))
            && (equity > 0.0 && |ts| > 0 && w.cursor.None? ==>
                  exists newest :: newest in ts && (forall t :: t in ts ==> t.offset <= newest.offset)
                    && Bootstrapped(w, after, ts, newest.offset, equity, outs[0]))
  {
    if equity > 0.0 && |ts| > 0 {
      if w.cursor.Some? {
        PendingByOffset(ts, w.cursor.value);
        var pending := Pending(ts, w.cursor.value);
        if |pending| > 0 {
          assert pending[0] in multiset(pending);
          assert pending[0] in ts && pending[0].offset > w.cursor.value;
        }
      } else {
        var mark := NewestOffset(ts);
        var newest :| newest in ts && newest.offset == mark;
        var matched := NewestMatch(ts, equity);
        if matched.Some? {
          assert Bootstrapped(w, Pass(w, ts, equity, outs), ts, newest.offset, equity, outs[0]) by {
            assert matched.value in ts;
          }
        }
      }
    }
  }

  /** Nothing matches and only the cursor moves, or the last matching transfer
      is applied under the given mark. */
  ghost predicate Bootstrapped(w: World, after: World, ts: seq<Transfer>, mark: int, equity: real, o: Outcome) {
    if forall t :: t in ts ==> !EquityMatches(t.flow.post, equity) then
      && after.log == w.log && after.hwm.peak == w.hwm.peak && after.hwm.provenance == w.hwm.provenance
      && after.cursor == (if o.cursor in {Refused, CrashedBefore} then w.cursor else Some(mark))
      && after.hwm.cache == if o.cursor in {CrashedBefore, CrashedAfter} then None else w.hwm.cache
    else
      exists t :: t in ts && EquityMatches(t.flow.post, equity)
        && (forall u :: u in ts && EquityMatches(u.flow.post, equity) ==> Before(u, t))
        && after == Applied(w, t, mark, equity, o)
  }

  // ---- The loop itself ----

  method MoveCursor(store: Store, risk: Risk, offset: int, o: WriteOutcome) returns (ok: bool)
    modifies store`cursor, risk`cache
    ensures store.cursor == if o.Durable() then Some(offset) else old(store.cursor)
    ensures risk.cache == if o.Crashed() then None else old(risk.cache)
    ensures ok <==> o.Committed?
  {
    if o.Durable() {
      store.cursor := Some(offset);
    }
    if o.Crashed() {
      risk.cache := None;
    }
    ok := o.Committed?;
  }

  ghost function WorldOf(store: Store, risk: Risk, log: seq<Transfer>): World
    reads store, risk`cache
  {
    World(risk.View(store), store.cursor, log)
  }

  method ApplyOne(store: Store, risk: Risk, t: Transfer, mark: int, equity: real, o: Outcome, ghost log: seq<Transfer>)
    returns (ok: bool, ghost logged: seq<Transfer>)
    modifies store, risk
    ensures WorldOf(store, risk, logged) == Applied(old(WorldOf(store, risk, log)), t, mark, equity, o)
    ensures ok <==> Went(old(WorldOf(store, risk, log)), t, equity, o)
  {
    ghost var before := WorldOf(store, risk, log);
    logged := Rebased(before, t, equity, o.rebase).log;
    var r := risk.Rebase(store, equity, t.flow, o.rebase);
    assert WorldOf(store, risk, logged) == Rebased(before, t, equity, o.rebase);
    if r.Err? {
      return false, logged;
    }
    ok := MoveCursor(store, risk, mark, o.cursor);
  }

  method ApplyPending(store: Store, risk: Risk, pending: seq<Transfer>, equity: real, outs: seq<Outcome>,
          ghost log: seq<Transfer>)
    returns (applied: nat, ghost logged: seq<Transfer>)
    requires |pending| <= |outs|
    modifies store, risk
    ensures WorldOf(store, risk, logged) == AppliedAll(old(WorldOf(store, risk, log)), pending, equity, outs)
    ensures applied == Count(old(WorldOf(store, risk, log)), pending, equity, outs)
  {
    ghost var start := WorldOf(store, risk, log);
    logged := log;
    applied := 0;
    while applied < |pending|
      invariant 0 <= applied <= |pending|
      invariant AppliedAll(WorldOf(store, risk, logged), pending[applied..], equity, outs[applied..])
                == AppliedAll(start, pending, equity, outs)
      invariant applied + Count(WorldOf(store, risk, logged), pending[applied..], equity, outs[applied..])
                == Count(start, pending, equity, outs)
    {
      var item, o := pending[applied], outs[applied];
      assert pending[applied..][1..] == pending[applied + 1..] && outs[applied..][1..] == outs[applied + 1..];
      var ok;
      ok, logged := ApplyOne(store, risk, item, item.offset, equity, o, logged);
      if !ok {
        return;
      }
      applied := applied + 1;
    }
  }

  method ReconcileFlows(store: Store, risk: Risk, rows: seq<Row>, equity: real, outs: seq<Outcome>,
          ghost log: seq<Transfer>)
    returns (applied: nat, ghost ts: seq<Transfer>, ghost logged: seq<Transfer>)
    requires |rows| <= |outs|
    modifies store, risk
    ensures InOrder(ts) && multiset(ts) == multiset(Transfers(rows)) && |ts| <= |rows|
    ensures forall t :: t in ts ==> Usable(t)
    ensures forall t :: t in ts <==> exists row :: row in rows && Records(row, t)
    ensures WorldOf(store, risk, logged) == Pass(old(WorldOf(store, risk, log)), ts, equity, outs)
    ensures equity <= 0.0 || |ts| == 0 ==> applied == 0
    ensures equity > 0.0 && old(store.cursor).Some? ==>
              applied == Count(old(WorldOf(store, risk, log)), Pending(ts, old(store.cursor).value), equity, outs)
    ensures equity > 0.0 && old(store.cursor).None? ==>
              applied == if exists t :: t in ts && NewestMatch(ts, equity) == Some(t)
                                && Went(old(WorldOf(store, risk, log)), t, equity, outs[0]) then 1 else 0
  {
    applied, ts, logged := 0, [], log;
    var transfers := FetchTransfers(rows);
    ts := transfers;
    if equity <= 0.0 || |transfers| == 0 {
      return;
    }
    if store.cursor.Some? {
      applied, logged := ApplyPending(store, risk, Pending(transfers, store.cursor.value), equity, outs, log);
      return;
    }
    var newest := NewestOffset(transfers);
    var matched := NewestMatch(transfers, equity);
    var ok;
    if matched.Some? {
      ok, logged := ApplyOne(store, risk, matched.value, newest, equity, outs[0], log);
      applied := if ok then 1 else 0;
    } else {
      ok := MoveCursor(store, risk, newest, outs[0].cursor);
    }
  }
}

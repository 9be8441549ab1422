/** The ledger of one day under any mixture of checkpoints and confirmed closes
    (bot/durable_daily_pnl.py): what every run keeps, and what its sum is. An
    operation that fails or whose write is refused leaves the ledger alone. */
module PnlRuns {
  import opened Common
  import opened LedgerStorage
  import opened DailyPnl
  import opened PnlReconcile

  datatype Op = Adding(ts: seq<Trade>) | Confirming(c: Close) | Loading(legacy: Rows)

  /** A close is confirmed in the ledger of the day it closed; a load merges a
      legacy ledger that agrees. */
  ghost function Next(rows: Rows, op: Op, day: int): Rows {
    match op
    case Adding(ts) => if WithTrades(rows, ts, day).Some? then WithTrades(rows, ts, day).value else rows
    case Confirming(c) => if Records(rows, c, day) then Applied(rows, c).rows else rows
    case Loading(legacy) => if Agree(rows, legacy) then JoinedRows(rows, legacy) else rows
  }

  predicate Records(rows: Rows, c: Close, day: int) {
    c.closeTime.Some? && DayOf(c.closeTime.value) == day && Applied(rows, c).Confirmed?
  }

  /** A legacy ledger that agrees is added, the day's own events and fields
      first; one that does not is left out. */
  lemma LoadingExactly(rows: Rows, legacy: Rows, day: int, t: Token)
    ensures var after := Next(rows, Loading(legacy), day);
            && (!Agree(rows, legacy) ==> after == rows)
            && (Agree(rows, legacy) ==>
                  && (t in after <==> t in rows || t in legacy)
                  && (t in rows ==> forall f :: f in rows[t] ==> f in after[t] && after[t][f] == rows[t][f])
                  && (t in legacy ==> forall f :: f in legacy[t] ==> f in after[t] && after[t][f] == legacy[t][f]))
  {
  }

  ghost function Exec(rows: Rows, ops: seq<Op>, day: int): Rows
    decreases |ops|
  {
    if |ops| == 0 then rows else Next(Exec(rows, ops[..|ops| - 1], day), ops[|ops| - 1], day)
  }

  // ---- What every run keeps ----

  ghost predicate Good(rows: Rows, day: int) {
    ValidRows(rows, day) && WellKeyed(rows)
  }

  lemma {:induction false} AddingKeepsKeys(rows: Rows, ts: seq<Trade>, day: int)
    requires WellKeyed(rows) && WithTrades(rows, ts, day).Some?
    ensures WellKeyed(WithTrades(rows, ts, day).value)
    decreases |ts|
  {
    if |ts| == 0 {
    } else {
      AddingKeepsKeys(rows, ts[..|ts| - 1], day);
    }
  }

  lemma ConfirmingIsGood(rows: Rows, c: Close, day: int)
    requires Good(rows, day)
    ensures Good(Next(rows, Confirming(c), day), day)
  {
    if Records(rows, c, day) {
      var value := Adjustment(rows, c);
      assert ValidEvent(AdjustmentToken(c), value, day) && Text(value, "source") == ADJUSTMENT;
    }
  }

  lemma LoadingIsGood(rows: Rows, legacy: Rows, day: int)
    requires Good(rows, day) && Good(legacy, day)
    ensures Good(Next(rows, Loading(legacy), day), day)
  {
  }

  lemma NextIsGood(rows: Rows, op: Op, day: int)
    requires Good(rows, day) && (op.Loading? ==> Good(op.legacy, day))
    ensures Good(Next(rows, op, day), day)
  {
    match op
    case Adding(ts) =>
      if WithTrades(rows, ts, day).Some? {
        CheckpointKeepsValid(rows, ts, day);
        AddingKeepsKeys(rows, ts, day);
      }
    case Confirming(c) => ConfirmingIsGood(rows, c, day);
    case Loading(legacy) => LoadingIsGood(rows, legacy, day);
  }

  /** A ledger that only ever saw checkpoints, confirmed closes and good legacy
      ledgers is valid, and keeps adjustments and trades apart: the theorems
      about batches of closes apply to it. */
  lemma {:induction false} RunKeepsLedger(rows: Rows, ops: seq<Op>, day: int)
    requires Good(rows, day) && forall k :: 0 <= k < |ops| && ops[k].Loading? ==> Good(ops[k].legacy, day)
    ensures Good(Exec(rows, ops, day), day)
    decreases |ops|
  {
    if |ops| == 0 {
    } else {
      RunKeepsLedger(rows, ops[..|ops| - 1], day);
      NextIsGood(Exec(rows, ops[..|ops| - 1], day), ops[|ops| - 1], day);
    }
  }

  // ---- The sum of a run ----

  /** The PnL of the trades the ledger sees for the first time. */
  function FirstSeen(rows: Rows, ts: seq<Trade>, day: int): real
    requires WithTrades(rows, ts, day).Some?
    decreases |ts|
  {
    if |ts| == 0 then 0.0
    else
      var t, before := ts[|ts| - 1], WithTrades(rows, ts[..|ts| - 1], day).value;
      FirstSeen(rows, ts[..|ts| - 1], day)
      + if DayOf(t.id.closedAt) == day && TokenOf(t) !in before then t.pnl.value else 0.0
  }

  lemma {:induction false} AddingSum(rows: Rows, ts: seq<Trade>, day: int)
    requires WithTrades(rows, ts, day).Some?
    ensures Total(WithTrades(rows, ts, day).value) == Total(rows) + FirstSeen(rows, ts, day)
    decreases |ts|
  {
    if |ts| == 0 {
    } else {
      var t, before := ts[|ts| - 1], WithTrades(rows, ts[..|ts| - 1], day).value;
      AddingSum(rows, ts[..|ts| - 1], day);
      if DayOf(t.id.closedAt) == day {
        assert "pnl" in {"pnl", "source", "closed_at"};
        TotalAdded(before, TokenOf(t), WithTrade(before, t, day).value[TokenOf(t)]);
      }
    }
  }

  /** What one operation adds to the sum. */
  function Gain(rows: Rows, op: Op, day: int): real
    requires !op.Loading?
  {
    match op
    case Adding(ts) => if WithTrades(rows, ts, day).Some? then FirstSeen(rows, ts, day) else 0.0
    case Confirming(c) =>
      if Records(rows, c, day) && AdjustmentToken(c) !in rows then c.pnl.value - PnlOf(rows[Matched(rows, c).value])
      else 0.0
  }

  ghost function Gains(rows: Rows, ops: seq<Op>, day: int): real
    requires forall k :: 0 <= k < |ops| ==> !ops[k].Loading?
    decreases |ops|
  {
    if |ops| == 0 then 0.0
    else
      Gains(rows, ops[..|ops| - 1], day) + Gain(Exec(rows, ops[..|ops| - 1], day), ops[|ops| - 1], day)
  }

  lemma GainStep(rows: Rows, op: Op, day: int)
    requires !op.Loading?
    ensures Total(Next(rows, op, day)) == Total(rows) + Gain(rows, op, day)
  {
    match op
    case Adding(ts) =>
      if WithTrades(rows, ts, day).Some? {
        AddingSum(rows, ts, day);
      }
    case Confirming(c) =>
      if Records(rows, c, day) {
        AdjustmentSource(rows, c);
        TotalAdded(rows, AdjustmentToken(c), Adjustment(rows, c));
      }
  }

  /** Over any run the sum of the ledger moves by each trade once, when it is
      first seen, and by confirmed minus estimated PnL once for each close id. */
  lemma {:induction false} RunSum(rows: Rows, ops: seq<Op>, day: int)
    requires forall k :: 0 <= k < |ops| ==> !ops[k].Loading?
    ensures Total(Exec(rows, ops, day)) == Total(rows) + Gains(rows, ops, day)
    decreases |ops|
  {
    if |ops| == 0 {
    } else {
      RunSum(rows, ops[..|ops| - 1], day);
      GainStep(Exec(rows, ops[..|ops| - 1], day), ops[|ops| - 1], day);
    }
  }
}

/** The operational daily ledger of bot/durable_daily_pnl.py: which event a
    trade becomes, the checkpoint that adds trades to the ledger, and the
    realized PnL the risk decisions read. */
module DailyPnl {
  import opened Common
  import opened LedgerStorage

  const ESTIMATED := "ESTIMATED_LOCAL_MARK_AND_FEE_RATE"
  const ADJUSTMENT := "KUCOIN_RECONCILIATION_ADJUSTMENT"

  /** A closed trade; its PnL may be no finite number. */
  datatype Trade = Trade(id: TradeId, pnl: Option<real>, source: string, openingOrderId: string)

  function TokenOf(t: Trade): Token {
    OfTrade(t.id)
  }

  /** `event` */
  function EventOf(t: Trade): Event
    requires t.pnl.Some?
  {
    var base := map["pnl" := Num(t.pnl.value), "source" := Str(t.source), "closed_at" := Instant(t.id.closedAt),
                    "symbol" := Str(t.id.symbol), "opened_at" := Instant(t.id.openedAt)];
    if t.openingOrderId != "" then base["opening_order_id" := Str(t.openingOrderId)] else base
  }

  function PnlOf(e: Event): real {
    if "pnl" in e && e["pnl"].Num? then e["pnl"].r else 0.0
  }

  /** What the ledger keeps of a trade; its opening order only if it has one. */
  lemma EventFields(t: Trade)
    requires t.pnl.Some?
    ensures var e := EventOf(t);
            && e.Keys == {"pnl", "source", "closed_at", "symbol", "opened_at"}
                         + (if t.openingOrderId == "" then {} else {"opening_order_id"})
            && e["pnl"] == Num(t.pnl.value) && e["source"] == Str(t.source) && e["symbol"] == Str(t.id.symbol)
            && e["closed_at"] == Instant(t.id.closedAt) && e["opened_at"] == Instant(t.id.openedAt)
            && (t.openingOrderId != "" ==> e["opening_order_id"] == Str(t.openingOrderId))
            && PnlOf(e) == t.pnl.value
  {
  }

  // ---- The exact sum of a ledger ----

  ghost function Total(rows: Rows): real {
    if rows == map[] then 0.0
    else
      var t :| t in rows;
      PnlOf(rows[t]) + Total(rows - {t})
  }

  lemma TotalOfOne(t: Token, e: Event)
    ensures Total(map[]) == 0.0
    ensures "pnl" in e && e["pnl"].Num? ==> Total(map[t := e]) == e["pnl"].r
    ensures "pnl" in e && !e["pnl"].Num? ==> Total(map[t := e]) == 0.0
    ensures "pnl" !in e ==> Total(map[t := e]) == 0.0
  {
    TotalWithout(map[t := e], t);
    assert map[t := e] - {t} == map[];
  }

  /** The sum may take out any event first. */
  lemma {:induction false} TotalWithout(rows: Rows, t: Token)
    requires t in rows
    ensures Total(rows) == PnlOf(rows[t]) + Total(rows - {t})
    decreases |rows|
  {
    var first :| first in rows && Total(rows) == PnlOf(rows[first]) + Total(rows - {first});
    if first != t {
      TotalWithout(rows - {first}, t);
      TotalWithout(rows - {t}, first);
      assert rows - {first} - {t} == rows - {t} - {first};
    }
  }

  lemma TotalAdded(rows: Rows, t: Token, e: Event)
    ensures t !in rows ==> Total(rows[t := e]) == Total(rows) + PnlOf(e)
    ensures t in rows ==> Total(rows[t := e]) == Total(rows) - PnlOf(rows[t]) + PnlOf(e)
  {
    var more := rows[t := e];
    TotalWithout(more, t);
    if t in rows {
      TotalWithout(rows, t);
      assert more - {t} == rows - {t};
    } else {
      assert more - {t} == rows;
    }
  }

  // ---- Adding trades ----

  /** An event already there may differ in anything but these three fields. */
  predicate Comparable(stored: Event, current: Event) {
    forall f :: f in {"pnl", "source", "closed_at"} ==> f in stored && f in current && stored[f] == current[f]
  }

  /** One trade of the day; `None` is the conflict or the unusable PnL that
      makes the whole checkpoint fail. */
  function WithTrade(rows: Rows, t: Trade, day: int): Option<Rows> {
    if DayOf(t.id.closedAt) != day then Some(rows)
    else if t.pnl.None? then None
    else
      var token, value := TokenOf(t), EventOf(t);
      if token !in rows || rows[token] == value then Some(rows[token := value])
      else if Comparable(rows[token], value) then Some(rows[token := value + rows[token]])
      else None
  }

  /** A trade of another day is passed over; one of this day fails when its PnL
      cannot be used or the ledger has another PnL, source or time for it. */
  lemma TradeFailsExactly(rows: Rows, t: Trade, day: int)
    ensures DayOf(t.id.closedAt) != day ==> WithTrade(rows, t, day) == Some(rows)
    ensures WithTrade(rows, t, day).None? <==>
              && DayOf(t.id.closedAt) == day
              && (t.pnl.None?
                  || var k := OfTrade(t.id);
                     k in rows && rows[k] != EventOf(t)
                     && !({"pnl", "source", "closed_at"} <= rows[k].Keys
                          && rows[k]["pnl"] == Num(t.pnl.value) && rows[k]["source"] == Str(t.source)
                          && rows[k]["closed_at"] == Instant(t.id.closedAt)))
  {
  }

  /** Otherwise the ledger gets what it had no field for and keeps the rest. */
  lemma TradeAdds(rows: Rows, t: Trade, day: int)
    requires WithTrade(rows, t, day).Some? && DayOf(t.id.closedAt) == day
    ensures var after, k := WithTrade(rows, t, day).value, OfTrade(t.id);
            && after.Keys == rows.Keys + {k} && t.pnl.Some?
            && (forall u :: u in rows && u != k ==> after[u] == rows[u])
            && (k !in rows ==> after[k] == EventOf(t))
            && (k in rows ==> after[k].Keys == EventOf(t).Keys + rows[k].Keys
                              && forall f :: f in after[k] ==>
                                               after[k][f] == if f in rows[k] then rows[k][f] else EventOf(t)[f])
  {
  }

  function WithTrades(rows: Rows, ts: seq<Trade>, day: int): Option<Rows>
    decreases |ts|
  {
    if |ts| == 0 then Some(rows)
    else
      var n := |ts| - 1;
      var before := WithTrades(rows, ts[..n], day);
      if before.None? then None else WithTrade(before.value, ts[n], day)
  }

  /** The ledger holds this trade: same PnL, source and closing time, and every
      field of its event present. */
  ghost predicate Holds(rows: Rows, t: Trade) {
    t.pnl.Some? && TokenOf(t) in rows && Comparable(rows[TokenOf(t)], EventOf(t))
    && forall f :: f in EventOf(t) ==> f in rows[TokenOf(t)]
  }

  ghost predicate HoldsAll(rows: Rows, ts: seq<Trade>, day: int) {
    forall t :: t in ts && DayOf(t.id.closedAt) == day ==> Holds(rows, t)
  }

  lemma HeldTradeChangesNothing(rows: Rows, t: Trade, day: int)
    requires DayOf(t.id.closedAt) == day ==> Holds(rows, t)
    ensures WithTrade(rows, t, day) == Some(rows)
  {
    if DayOf(t.id.closedAt) == day {
      var token := TokenOf(t);
      assert EventOf(t) + rows[token] == rows[token];
      assert rows[token := rows[token]] == rows;
    }
  }

  lemma AddedTradeIsHeld(rows: Rows, t: Trade, day: int)
    requires WithTrade(rows, t, day).Some? && DayOf(t.id.closedAt) == day
    ensures Holds(WithTrade(rows, t, day).value, t)
    ensures forall u :: Holds(rows, u) ==> Holds(WithTrade(rows, t, day).value, u)
  {
    var more := WithTrade(rows, t, day).value;
    var token := TokenOf(t);
    forall u | Holds(rows, u)
      ensures Holds(more, u)
    {
      if TokenOf(u) == token {
        assert forall f :: f in rows[token] ==> f in more[token] && more[token][f] == rows[token][f];
      }
    }
  }

  lemma {:induction false} AllHeldAfter(rows: Rows, ts: seq<Trade>, day: int)
    requires WithTrades(rows, ts, day).Some?
    ensures HoldsAll(WithTrades(rows, ts, day).value, ts, day)
    ensures forall u :: Holds(rows, u) ==> Holds(WithTrades(rows, ts, day).value, u)
    decreases |ts|
  {
    if |ts| == 0 {
    } else {
      var n := |ts| - 1;
      AllHeldAfter(rows, ts[..n], day);
      var before := WithTrades(rows, ts[..n], day).value;
      if DayOf(ts[n].id.closedAt) == day {
        AddedTradeIsHeld(before, ts[n], day);
      }
      assert ts == ts[..n] + [ts[n]];
    }
  }

  lemma {:induction false} HeldTradesChangeNothing(rows: Rows, ts: seq<Trade>, day: int)
    requires HoldsAll(rows, ts, day)
    ensures WithTrades(rows, ts, day) == Some(rows)
    decreases |ts|
  {
    if |ts| == 0 {
    } else {
      var n := |ts| - 1;
      assert ts == ts[..n] + [ts[n]];
      HeldTradesChangeNothing(rows, ts[..n], day);
      assert ts[n] in ts;
      HeldTradeChangesNothing(rows, ts[n], day);
    }
  }

  /** A checkpoint repeated with the same trades, in any order, with any of
      them given again as the extra trade, changes nothing more: no trade is
      ever counted twice. */
  lemma CheckpointIdempotent(rows: Rows, ts: seq<Trade>, again: seq<Trade>, day: int)
    requires WithTrades(rows, ts, day).Some?
    requires forall t :: t in again ==> t in ts
    ensures WithTrades(WithTrades(rows, ts, day).value, again, day) == WithTrades(rows, ts, day)
  {
    AllHeldAfter(rows, ts, day);
    HeldTradesChangeNothing(WithTrades(rows, ts, day).value, again, day);
  }

  lemma ExtraCountsOnce(rows: Rows, ts: seq<Trade>, extra: Trade, day: int)
    requires WithTrades(rows, ts, day).Some? && extra in ts
    ensures WithTrades(rows, ts + [extra], day) == WithTrades(rows, ts, day)
  {
    AllHeldAfter(rows, ts, day);
    if DayOf(extra.id.closedAt) == day {
      assert Holds(WithTrades(rows, ts, day).value, extra);
    }
    HeldTradeChangesNothing(WithTrades(rows, ts, day).value, extra, day);
    assert (ts + [extra])[..|ts|] == ts;
  }

  /** A failed checkpoint has met a trade whose PnL is unusable or contradicts
      the ledger; a successful one is a valid ledger again. */
  lemma {:induction false} CheckpointKeepsValid(rows: Rows, ts: seq<Trade>, day: int)
    requires ValidRows(rows, day) && WithTrades(rows, ts, day).Some?
    ensures ValidRows(WithTrades(rows, ts, day).value, day)
    decreases |ts|
  {
    if |ts| == 0 {
    } else {
      CheckpointKeepsValid(rows, ts[..|ts| - 1], day);
    }
  }

  // ---- What the engine reads ----

  /** `realized`: the cached rows, overlaid by the events of today's trades. */
  function RealizedRows(cached: Rows, ts: seq<Trade>, day: int): Rows
    requires forall t :: t in ts ==> t.pnl.Some?
    decreases |ts|
  {
    if |ts| == 0 then cached
    else
      var n := |ts| - 1;
      var before := RealizedRows(cached, ts[..n], day);
      if DayOf(ts[n].id.closedAt) == day then before[TokenOf(ts[n]) := EventOf(ts[n])] else before
  }

  /** What `realized` sums: the cached rows, where every trade of the day takes
      the place of what is there under its token, the last one winning. */
  lemma RealizedByTrades(cached: Rows, ts: seq<Trade>, t: Trade, day: int)
    requires t.pnl.Some? && forall u :: u in ts ==> u.pnl.Some?
    ensures RealizedRows(cached, [], day) == cached
    ensures var before, after := RealizedRows(cached, ts, day), RealizedRows(cached, ts + [t], day);
            && (DayOf(t.id.closedAt) != day ==> after == before)
            && (DayOf(t.id.closedAt) == day ==> after == before[OfTrade(t.id) := EventOf(t)])
  {
    assert (ts + [t])[..|ts|] == ts;
  }

  /** Overlaying trades the ledger already holds does not change the sum. */
  lemma {:induction false} OverlayKeepsTotal(cached: Rows, ts: seq<Trade>, day: int)
    requires forall t :: t in ts ==> t.pnl.Some?
    requires HoldsAll(cached, ts, day)
    ensures var rows := RealizedRows(cached, ts, day);
            && Total(rows) == Total(cached) && rows.Keys == cached.Keys
            && forall k :: k in cached ==> PnlOf(rows[k]) == PnlOf(cached[k])
    decreases |ts|
  {
    if |ts| == 0 {
    } else {
      var n := |ts| - 1;
      assert ts == ts[..n] + [ts[n]];
      OverlayKeepsTotal(cached, ts[..n], day);
      var before := RealizedRows(cached, ts[..n], day);
      if DayOf(ts[n].id.closedAt) == day {
        assert ts[n] in ts && Holds(cached, ts[n]);
        assert "pnl" in {"pnl", "source", "closed_at"};
        assert PnlOf(cached[TokenOf(ts[n])]) == PnlOf(EventOf(ts[n]));
        TotalAdded(before, TokenOf(ts[n]), EventOf(ts[n]));
      }
    }
  }

  /** After a successful checkpoint the realized PnL the engine reads equals
      the sum of the persisted ledger. */
  lemma RealizedEqualsPersisted(rows: Rows, stats: seq<Trade>, extra: seq<Trade>, day: int)
    requires forall t :: t in stats ==> t.pnl.Some?
    requires WithTrades(rows, stats + extra, day).Some?
    ensures var persisted := WithTrades(rows, stats + extra, day).value;
            Total(RealizedRows(persisted, stats, day)) == Total(persisted)
  {
    AllHeldAfter(rows, stats + extra, day);
    OverlayKeepsTotal(WithTrades(rows, stats + extra, day).value, stats, day);
  }

  /** The loop of `checkpoint` over the trades of the day. */
  method AddTrades(rows: Rows, ts: seq<Trade>, day: int) returns (r: Option<Rows>)
    ensures r == WithTrades(rows, ts, day)
  {
    var state := rows;
    var k := 0;
    while k < |ts|
      invariant 0 <= k <= |ts|
      invariant WithTrades(rows, ts[..k], day) == Some(state)
    {
      assert ts[..k + 1][..k] == ts[..k];
      var t := ts[k];
      if DayOf(t.id.closedAt) == day {
        if t.pnl.None? {
          FailedForever(rows, ts, k + 1, day);
          return None;
        }
        var token, value := TokenOf(t), EventOf(t);
        if token in state && state[token] != value {
          if !Comparable(state[token], value) {
            FailedForever(rows, ts, k + 1, day);
            return None;
          }
          state := state[token := value + state[token]];
        } else {
          state := state[token := value];
        }
      }
      k := k + 1;
    }
    assert ts[..k] == ts;
    r := Some(state);
  }

  lemma {:induction false} FailedForever(rows: Rows, ts: seq<Trade>, k: nat, day: int)
    requires k <= |ts| && WithTrades(rows, ts[..k], day).None?
    ensures WithTrades(rows, ts, day).None?
    decreases |ts|
  {
    if k == |ts| {
      assert ts[..k] == ts;
    } else {
      assert ts[..|ts| - 1][..k] == ts[..k];
      FailedForever(rows, ts[..|ts| - 1], k, day);
    }
  }
}

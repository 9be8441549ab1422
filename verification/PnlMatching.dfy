/** Which estimate a confirmed close corrects, said from the fields of the
    ledger's events and of the close alone (bot/durable_daily_pnl.py:66-171). */
module PnlMatching {
  import opened Common
  import opened LedgerStorage
  import opened DailyPnl
  import opened PnlReconcile

  predicate HasText(e: Event, f: string, s: string) {
    f in e && e[f] == Str(s)
  }

  predicate NoText(e: Event, f: string) {
    f in e && e[f].Str? ==> e[f].s == ""
  }

  /** One engine symbol behind both names, or one of them unknown. */
  predicate OneSymbol(e: Event, symbol: string) {
    || NoText(e, "symbol") || symbol == ""
    || NormalizedSymbol(e["symbol"].s) == NormalizedSymbol(symbol)
  }

  /** A local estimate with a usable time and value, of the close's symbol. */
  predicate EstimateOf(e: Event, c: Close) {
    && HasText(e, "source", "ESTIMATED_LOCAL_MARK_AND_FEE_RATE") && OneSymbol(e, c.symbol)
    && "closed_at" in e && e["closed_at"].Instant? && "pnl" in e && e["pnl"].Num?
  }

  /** A close that can be confirmed at all. */
  predicate Usable(c: Close) {
    c.closeId != "" && c.pnl.Some? && c.closeTime.Some? && c.closeTime.value > 0
  }

  /** The close names this opening order and no other. */
  predicate OnlyOpening(c: Close, id: string, k: nat) {
    && k < |c.openingIds| && c.openingIds[k] == id != ""
    && forall j :: 0 <= j < |c.openingIds| && j != k ==> c.openingIds[j] == ""
  }

  /** This estimate, and no other of the close's symbol, carries the order. */
  ghost predicate OnlyLineage(rows: Rows, c: Close, id: string, t: Token) {
    && t in rows && EstimateOf(rows[t], c) && HasText(rows[t], "opening_order_id", id)
    && forall u :: u in rows && EstimateOf(rows[u], c) && HasText(rows[u], "opening_order_id", id) ==> u == t
  }

  /** Some estimate of the close's symbol carries an opening order. */
  ghost predicate AnyModern(rows: Rows, c: Close) {
    exists t :: t in rows && EstimateOf(rows[t], c) && !NoText(rows[t], "opening_order_id")
  }

  predicate Within(e: Event, c: Close)
    requires "closed_at" in e && e["closed_at"].Instant? && c.closeTime.Some?
  {
    c.closeTime.value - 120000 <= e["closed_at"].ms <= c.closeTime.value + 120000
  }

  /** This estimate, and no other of the close's symbol, closed within two
      minutes of the close. */
  ghost predicate OnlyNear(rows: Rows, c: Close, t: Token)
    requires c.closeTime.Some?
  {
    && t in rows && EstimateOf(rows[t], c) && Within(rows[t], c)
    && forall u :: u in rows && EstimateOf(rows[u], c) && Within(rows[u], c) ==> u == t
  }

  /** The close corrects this estimate, or contradicts an earlier correction. */
  predicate Corrects(rows: Rows, c: Close, t: Token) {
    match Applied(rows, c)
    case NoMatch => false
    case Conflict => OfClose(c.closeId) in rows
    case Confirmed(after) =>
      && after.Keys == rows.Keys + {OfClose(c.closeId)}
      && "estimated_event" in after[OfClose(c.closeId)] && after[OfClose(c.closeId)]["estimated_event"] == Ref(t)
  }

  // ---- The fields and the matching ----

  lemma EstimatesAre(rows: Rows, c: Close)
    ensures forall t :: t in Estimates(rows, c) <==> t in rows && EstimateOf(rows[t], c)
  {
    assert NormalizedSymbol("") == "";
    forall t | t in rows
      ensures IsEstimate(rows[t], c) <==> EstimateOf(rows[t], c)
    {
      NormalizedIsEmpty(Text(rows[t], "symbol"));
      NormalizedIsEmpty(c.symbol);
    }
  }

  lemma NormalizedIsEmpty(raw: string)
    ensures NormalizedSymbol(raw) == "" <==> raw == ""
  {
  }

  lemma {:induction false} NonEmptyIsOnly(ids: seq<string>, id: string, k: nat)
    requires k < |ids| && ids[k] == id != "" && forall j :: 0 <= j < |ids| && j != k ==> ids[j] == ""
    ensures NonEmpty(ids) == [id]
    decreases |ids|
  {
    if k == 0 {
      AllEmpty(ids[1..]);
    } else {
      NonEmptyIsOnly(ids[1..], id, k - 1);
    }
  }

  lemma {:induction false} AllEmpty(ids: seq<string>)
    requires forall j :: 0 <= j < |ids| ==> ids[j] == ""
    ensures NonEmpty(ids) == []
    decreases |ids|
  {
    if |ids| == 0 {
    } else {
      AllEmpty(ids[1..]);
    }
  }

  lemma {:induction false} SingleMeans(ids: seq<string>)
    requires |NonEmpty(ids)| == 1
    ensures exists k ::
              0 <= k < |ids| && ids[k] == NonEmpty(ids)[0] && forall j :: 0 <= j < |ids| && j != k ==> ids[j] == ""
    decreases |ids|
  {
    if ids[0] == "" {
      SingleMeans(ids[1..]);
      var k :| 0 <= k < |ids[1..]| && ids[1..][k] == NonEmpty(ids)[0]
               && forall j :: 0 <= j < |ids[1..]| && j != k ==> ids[1..][j] == "";
      assert ids[k + 1] == NonEmpty(ids)[0];
      forall j | 0 <= j < |ids| && j != k + 1
        ensures ids[j] == ""
      {
        assert j > 0 ==> ids[j] == ids[1..][j - 1];
      }
    } else {
      NoneLeft(ids[1..]);
      assert forall j :: 1 <= j < |ids| ==> ids[j] == ids[1..][j - 1];
    }
  }

  lemma {:induction false} NoneLeft(ids: seq<string>)
    requires NonEmpty(ids) == []
    ensures forall j :: 0 <= j < |ids| ==> ids[j] == ""
    decreases |ids|
  {
    if |ids| == 0 {
    } else {
      NoneLeft(ids[1..]);
    }
  }

  lemma OneElement(s: set<Token>, t: Token)
    requires t in s && forall u :: u in s ==> u == t
    ensures |s| == 1 && Only(s) == t
  {
    assert s == {t};
  }

  lemma IsSingle(s: set<Token>)
    requires |s| == 1
    ensures exists t :: t in s && forall u :: u in s ==> u == t
  {
    assert Only(s) in s && s == {Only(s)};
  }

  lemma LineageIs(rows: Rows, c: Close, id: string)
    requires id != ""
    ensures forall t :: t in ByLineage(rows, c, id) <==>
                          t in rows && EstimateOf(rows[t], c) && HasText(rows[t], "opening_order_id", id)
    ensures (exists t :: t in Estimates(rows, c) && Text(rows[t], "opening_order_id") != "") <==> AnyModern(rows, c)
  {
    EstimatesAre(rows, c);
  }

  lemma NearIs(rows: Rows, c: Close)
    requires c.closeTime.Some?
    ensures forall t :: t in ByTime(rows, c) <==> t in rows && EstimateOf(rows[t], c) && Within(rows[t], c)
  {
    EstimatesAre(rows, c);
  }

  lemma MatchedCorrects(rows: Rows, c: Close, t: Token)
    ensures Corrects(rows, c, t) ==> Matched(rows, c).Some?
    ensures Matched(rows, c) == Some(t) ==> Corrects(rows, c, t)
  {
  }

  // ---- Main results ----

  /** Exact lineage decides whatever the times: the one estimate that carries
      the close's only opening order is the one it corrects. */
  lemma LineageDecides(rows: Rows, c: Close, id: string, k: nat, t: Token)
    requires Usable(c) && OnlyOpening(c, id, k) && OnlyLineage(rows, c, id, t)
    ensures Corrects(rows, c, t)
  {
    NonEmptyIsOnly(c.openingIds, id, k);
    LineageIs(rows, c, id);
    OneElement(ByLineage(rows, c, id), t);
    MatchedCorrects(rows, c, t);
  }

  /** A single opening order that several estimates carry, or that none carries
      while some other estimate of the symbol has one, corrects nothing. */
  lemma UnclearLineageIsRefused(rows: Rows, c: Close, id: string, k: nat)
    requires Usable(c) && OnlyOpening(c, id, k) && AnyModern(rows, c) && forall t :: !OnlyLineage(rows, c, id, t)
    ensures Applied(rows, c) == NoMatch
  {
    NonEmptyIsOnly(c.openingIds, id, k);
    LineageIs(rows, c, id);
    if |ByLineage(rows, c, id)| == 1 {
      IsSingle(ByLineage(rows, c, id));
      var t :| t in ByLineage(rows, c, id) && forall u :: u in ByLineage(rows, c, id) ==> u == t;
      assert OnlyLineage(rows, c, id, t);
    }
  }

  /** Otherwise time decides: a usable close without a single opening order,
      or on a ledger without opening orders for its symbol, corrects the one
      estimate within two minutes, and nothing if there is not exactly one. */
  lemma TimeDecides(rows: Rows, c: Close)
    requires Usable(c) && ((forall id, k :: !OnlyOpening(c, id, k)) || !AnyModern(rows, c))
    ensures Applied(rows, c) != NoMatch <==> exists t :: OnlyNear(rows, c, t)
    ensures forall t :: OnlyNear(rows, c, t) ==> Corrects(rows, c, t)
  {
    var ids := NonEmpty(c.openingIds);
    if |ids| == 1 {
      SingleMeans(c.openingIds);
      var k :| 0 <= k < |c.openingIds| && c.openingIds[k] == ids[0]
               && forall j :: 0 <= j < |c.openingIds| && j != k ==> c.openingIds[j] == "";
      assert ids[0] in ids;
      assert OnlyOpening(c, ids[0], k);
      LineageIs(rows, c, ids[0]);
      assert ByLineage(rows, c, ids[0]) == {};
    }
    NearIs(rows, c);
    forall t | OnlyNear(rows, c, t)
      ensures Matched(rows, c) == Some(t)
    {
      OneElement(ByTime(rows, c), t);
    }
    if |ByTime(rows, c)| == 1 {
      IsSingle(ByTime(rows, c));
      var t :| t in ByTime(rows, c) && forall u :: u in ByTime(rows, c) ==> u == t;
      assert OnlyNear(rows, c, t);
    }
    forall t
      ensures OnlyNear(rows, c, t) ==> Corrects(rows, c, t)
    {
      MatchedCorrects(rows, c, t);
    }
  }

  lemma UnusableIsRefused(rows: Rows, c: Close)
    requires !Usable(c)
    ensures Applied(rows, c) == NoMatch
  {
  }

  /** The correction of estimate t: its value, the confirmed one, and the
      difference that the ledger adds. */
  ghost predicate Correction(rows: Rows, c: Close, t: Token, value: Event)
    requires t in rows && EstimateOf(rows[t], c) && Usable(c)
  {
    && {"pnl", "estimated_pnl", "confirmed_pnl", "source", "closed_at", "close_id", "symbol"} <= value.Keys
    && value["pnl"] == Num(c.pnl.value - rows[t]["pnl"].r)
    && value["estimated_pnl"] == rows[t]["pnl"] && value["confirmed_pnl"] == Num(c.pnl.value)
    && value["source"] == Str("KUCOIN_RECONCILIATION_ADJUSTMENT") && value["closed_at"] == Instant(c.closeTime.value)
    && value["close_id"] == Str(c.closeId) && value["symbol"] == Str(NormalizedSymbol(c.symbol))
    && (forall id :: id != "" ==>
          (HasText(value, "opening_order_id", id) <==> HasText(rows[t], "opening_order_id", id)))
  }

  lemma AdjustmentIsCorrection(rows: Rows, c: Close)
    requires Matched(rows, c).Some?
    ensures var t := Matched(rows, c).value;
            && Usable(c) && t in rows && EstimateOf(rows[t], c) && Correction(rows, c, t, Adjustment(rows, c))
  {
    MatchIsEstimate(rows, c);
    EstimatesAre(rows, c);
  }

  /** It has an opening order only if the estimate has one, and no other field. */
  lemma NothingElseIsRecorded(rows: Rows, c: Close, t: Token)
    requires Matched(rows, c) == Some(t) && t in rows
    ensures Adjustment(rows, c).Keys
            == {"pnl", "estimated_pnl", "confirmed_pnl", "source", "closed_at", "close_id", "symbol", "estimated_event"}
               + if NoText(rows[t], "opening_order_id") then {} else {"opening_order_id"}
  {
  }

  /** Whatever is corrected is a local estimate of the close's symbol in the
      ledger, and nothing else of the ledger changes. */
  lemma OnlyEstimatesAreCorrected(rows: Rows, c: Close)
    requires Applied(rows, c).Confirmed?
    ensures Usable(c) && OfClose(c.closeId) in Applied(rows, c).rows
    ensures exists t ::
              && t in rows && EstimateOf(rows[t], c) && Corrects(rows, c, t)
              && Correction(rows, c, t, Applied(rows, c).rows[OfClose(c.closeId)])
    ensures forall t :: t in rows && t != OfClose(c.closeId) ==>
                          t in Applied(rows, c).rows && Applied(rows, c).rows[t] == rows[t]
  {
    AdjustmentIsCorrection(rows, c);
    MatchedCorrects(rows, c, Matched(rows, c).value);
  }

  /** Names of one contract: XBTUSDTM is BTCUSDT, any other ...USDTM is the
      same without its M, and every other name stands for itself. */
  lemma SymbolNames(raw: string)
    ensures NormalizedSymbol("XBTUSDTM") == "BTCUSDT"
    ensures raw + "USDTM" != "XBTUSDTM" ==> NormalizedSymbol(raw + "USDTM") == raw + "USDT"
    ensures (|raw| < 5 || raw[|raw| - 5..] != "USDTM") ==> NormalizedSymbol(raw) == raw
  {
    var name := raw + "USDTM";
    assert name[|name| - 5..] == "USDTM" && name[..|name| - 1] == raw + "USDT";
    assert "XBTUSDTM"[3..] == "USDTM";
  }
}

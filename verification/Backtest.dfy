/** The replay of `_run_strategy` in bot/backtest.py: closed windows, one
    simulated trade per entry bar, and what a trade can know of the future. */
module Backtest {
  import opened Common
  import opened ExecutionCosts
  import opened BacktestExit

  ghost predicate Sorted(cs: seq<Candle>) {
    forall i, j :: 0 <= i < j < |cs| ==> TsMs(cs[i]) <= TsMs(cs[j])
  }

  /** `bisect_right` on the timestamps, which are sorted. */
  function BisectRight(cs: seq<Candle>, x: int): (r: nat)
    ensures r <= |cs|
    ensures Sorted(cs) ==> forall k :: 0 <= k < r ==> TsMs(cs[k]) <= x
    ensures forall k :: r <= k < |cs| ==> TsMs(cs[k]) > x
    decreases |cs|
  {
    if |cs| == 0 then 0
    else if TsMs(cs[|cs| - 1]) <= x then |cs|
    else BisectRight(cs[..|cs| - 1], x)
  }

  /** `_closed_window_by_ts`. */
  function ClosedWindow(cs: seq<Candle>, decision: int, minutes: int, lookback: int): seq<Candle> {
    if |cs| == 0 || lookback <= 0 then []
    else
      var end := BisectRight(cs, decision - minutes * 60 * 1000);
      var start := if end > lookback then end - lookback else 0;
      cs[start..end]
  }

  /** The candles that opened at or before an instant, in any list. */
  function OpenedBy(cs: seq<Candle>, cutoff: int): seq<Candle>
    decreases |cs|
  {
    if |cs| == 0 then []
    else
      var n := |cs| - 1;
      OpenedBy(cs[..n], cutoff) + (if TsMs(cs[n]) <= cutoff then [cs[n]] else [])
  }

  function LastOf(cs: seq<Candle>, lookback: int): seq<Candle> {
    if lookback <= 0 then [] else if |cs| > lookback then cs[|cs| - lookback..] else cs
  }

  lemma BisectLast(cs: seq<Candle>, x: int)
    requires Sorted(cs) && |cs| > 0
    ensures var n := |cs| - 1;
            && Sorted(cs[..n])
            && BisectRight(cs, x) == (if TsMs(cs[n]) <= x then n + 1 else BisectRight(cs[..n], x))
            && (TsMs(cs[n]) <= x ==> BisectRight(cs[..n], x) == n)
  {
    var n := |cs| - 1;
    if n > 0 {
      assert cs[..n][n - 1] == cs[n - 1] && TsMs(cs[n - 1]) <= TsMs(cs[n]);
    }
  }

  lemma {:induction false} OpenedByIsPrefix(cs: seq<Candle>, cutoff: int)
    requires Sorted(cs)
    ensures OpenedBy(cs, cutoff) == cs[..BisectRight(cs, cutoff)]
    decreases |cs|
  {
    if |cs| == 0 {
    } else {
      var n := |cs| - 1;
      BisectLast(cs, cutoff);
      OpenedByIsPrefix(cs[..n], cutoff);
      if TsMs(cs[n]) <= cutoff {
        assert cs == cs[..n] + [cs[n]];
      } else {
        assert cs[..n][..BisectRight(cs[..n], cutoff)] == cs[..BisectRight(cs, cutoff)];
      }
    }
  }

  /** The window is exactly the last `lookback` of the candles that were fully
      closed at the decision. */
  lemma WindowIsLastClosed(cs: seq<Candle>, decision: int, minutes: int, lookback: int)
    requires Sorted(cs)
    ensures ClosedWindow(cs, decision, minutes, lookback)
            == LastOf(OpenedBy(cs, decision - minutes * 60 * 1000), lookback)
  {
    OpenedByIsPrefix(cs, decision - minutes * 60 * 1000);
  }

  /** Sorted is neighbour by neighbour. */
  lemma {:induction false} SortedByNeighbours(cs: seq<Candle>)
    ensures Sorted(cs) <==> forall k :: 0 < k < |cs| ==> TsMs(cs[k - 1]) <= TsMs(cs[k])
    decreases |cs|
  {
    if |cs| <= 1 {
    } else {
      var n := |cs| - 1;
      SortedByNeighbours(cs[..n]);
      assert forall k :: 0 <= k < n ==> cs[..n][k] == cs[k];
      if forall k :: 0 < k < |cs| ==> TsMs(cs[k - 1]) <= TsMs(cs[k]) {
        assert forall k :: 0 < k < n ==> TsMs(cs[..n][k - 1]) <= TsMs(cs[..n][k]);
        forall i, j | 0 <= i < j < |cs|
          ensures TsMs(cs[i]) <= TsMs(cs[j])
        {
          assert i < n - 1 ==> TsMs(cs[..n][i]) <= TsMs(cs[..n][n - 1]);
          assert j < n ==> TsMs(cs[..n][i]) <= TsMs(cs[..n][j]);
        }
      }
    }
  }

  // ---- One trade ----

  datatype Signal = Signal(
    direction: Direction, entry: real, sl: real, tp: real, tp1: Option<real>, tp2: Option<real>, rr: real)

  datatype History = History(k15: seq<Candle>, k1h: seq<Candle>, k4h: seq<Candle>)

  /** The analyser is any function of the three windows; no signal and an
      error both end in no trade. */
  datatype Params = Params(
    analyze: (seq<Candle>, seq<Candle>, seq<Candle>) -> Option<Signal>,
    minRr: real, slip: real, fee: real, events: seq<Settlement>)

  datatype Trade = Trade(
    direction: Direction, ts: int, levels: Levels, exit: Exit,
    gross: real, fees: real, funding: real, settled: nat, pnl: real)

  const WINDOW := 60
  const HORIZON := 40

  function SignalAt(h: History, p: Params, decision: int): Option<Signal> {
    SignalOf(ClosedWindow(h.k15, decision, 15, WINDOW), ClosedWindow(h.k1h, decision, 60, 20),
             ClosedWindow(h.k4h, decision, 240, 15), p)
  }

  function SignalOf(k15: seq<Candle>, k1h: seq<Candle>, k4h: seq<Candle>, p: Params): Option<Signal> {
    if |k15| < 30 || |k1h| < 10 || |k4h| < 5 then None
    else
      var signal := p.analyze(k15, k1h, k4h);
      if signal.None? || signal.value.rr < p.minRr then None else signal
  }

  /** A level that is missing or zero falls back to the single target. */
  function LevelOr(level: Option<real>, tp: real): real {
    if level.None? || level.value == 0.0 then tp else level.value
  }

  /** The levels move with the difference between fill and signalled entry. */
  function LevelsFor(s: Signal, fill: real): Levels {
    var delta := fill - s.entry;
    Levels(fill, s.sl + delta, s.tp + delta, LevelOr(s.tp1, s.tp) + delta, LevelOr(s.tp2, s.tp) + delta)
  }

  /** `price_at_ts`: the close of the last candle opened by the instant. */
  function PriceAt(k15: seq<Candle>, t: int): real {
    var n := BisectRight(k15, t);
    if n == 0 then 0.0 else k15[n - 1].c
  }

  function Prices(k15: seq<Candle>): int -> real {
    t => PriceAt(k15, t)
  }

  /** The bars the exit loop reads. */
  function Bars(k15: seq<Candle>, i: nat): (r: seq<Candle>)
    requires i < |k15|
    ensures |r| > 0
  {
    k15[i..if i + HORIZON < |k15| then i + HORIZON else |k15|]
  }

  /** Direction and levels of the trade entered at bar i. */
  function EntryAt(h: History, p: Params, i: nat): (r: Option<(Direction, Levels)>)
    requires i < |h.k15|
    ensures r.Some? ==> r.value.1.entry > 0.0
  {
    var signal := SignalAt(h, p, TsMs(h.k15[i]));
    if signal.None? then None
    else
      var fill := AdverseFill(h.k15[i].o, signal.value.direction, true, p.slip);
      if signal.value.entry <= 0.0 || fill <= 0.0 then None
      else Some((signal.value.direction, LevelsFor(signal.value, fill)))
  }

  function TradeAt(h: History, p: Params, i: nat): Option<Trade>
    requires i < |h.k15|
  {
    var entry := EntryAt(h, p, i);
    if entry.None? then None
    else Some(TradeOf(h, p, TsMs(h.k15[i]), entry.value.0, entry.value.1, Bars(h.k15, i)))
  }

  function TradeOf(h: History, p: Params, decision: int, d: Direction, v: Levels, bars: seq<Candle>): Trade
    requires |bars| > 0 && v.entry > 0.0
  {
    var x := ExitOf(bars, d, v, p.slip);
    var gross, fees := Gross(d, x.legs, v.entry), Fees(v.entry, x.legs, p.fee);
    var f := Funding(p.events, Holding(d, decision, x.exitTs, v.entry, x.tp1Ts), Prices(h.k15));
    Trade(d, decision, v, x, gross, fees, f.0, f.1, gross - fees + f.0)
  }

  function TradesBetween(h: History, p: Params, from: nat, upTo: nat): seq<Trade>
    requires from <= upTo <= |h.k15|
    decreases upTo
  {
    if from == upTo then []
    else TradesBetween(h, p, from, upTo - 1)
         + (if TradeAt(h, p, upTo - 1).Some? then [TradeAt(h, p, upTo - 1).value] else [])
  }

  /** `_run_strategy`: every entry bar with sixty bars before it and one after. */
  method RunStrategy(h: History, p: Params) returns (trades: seq<Trade>)
    ensures trades == if |h.k15| <= WINDOW then [] else TradesBetween(h, p, WINDOW, |h.k15| - 1)
  {
    trades := [];
    var i := WINDOW;
    while i < |h.k15| - 1
      invariant |h.k15| > WINDOW ==> WINDOW <= i <= |h.k15| - 1
      invariant |h.k15| <= WINDOW ==> i == WINDOW && trades == []
      invariant |h.k15| > WINDOW ==> trades == TradesBetween(h, p, WINDOW, i)
    {
      var trade := SimulateTrade(h, p, i);
      if trade.Some? {
        trades := trades + [trade.value];
      }
      i := i + 1;
    }
  }

  method SimulateTrade(h: History, p: Params, i: nat) returns (trade: Option<Trade>)
    requires i < |h.k15|
    ensures trade == TradeAt(h, p, i)
  {
    var decision := TsMs(h.k15[i]);
    var signal := SignalAt(h, p, decision);
    if signal.None? {
      return None;
    }
    var d := signal.value.direction;
    var fill := AdverseFill(h.k15[i].o, d, true, p.slip);
    if signal.value.entry <= 0.0 || fill <= 0.0 {
      return None;
    }
    var v := LevelsFor(signal.value, fill);
    var bars := Bars(h.k15, i);
    assert EntryAt(h, p, i) == Some((d, v));
    assert TradeAt(h, p, i) == Some(TradeOf(h, p, decision, d, v, bars));
    var x := SimulateExit(bars, d, v, p.slip);
    ExitClosesAll(bars, d, v, p.slip);
    if TotalWeight(x.legs) < 0.999999 {
      return None;
    }
    var gross := Gross(d, x.legs, fill);
    var fees := FeeFraction(fill, x.legs, p.fee);
    var funding, settled := FundingFraction(p.events, Holding(d, decision, x.exitTs, fill, x.tp1Ts), Prices(h.k15));
    trade := Some(Trade(d, decision, v, x, gross, fees, funding, settled, gross - fees + funding));
  }

  /** There is a signal exactly when enough candles of every interval had
      closed, and the analyser finds one with the least reward in the last
      sixty, twenty and fifteen of them. */
  lemma SignalExactly(h: History, p: Params, decision: int, s: Signal)
    requires Sorted(h.k15) && Sorted(h.k1h) && Sorted(h.k4h)
    ensures var k15 := LastOf(OpenedBy(h.k15, decision - 900000), 60);
            var k1h := LastOf(OpenedBy(h.k1h, decision - 3600000), 20);
            var k4h := LastOf(OpenedBy(h.k4h, decision - 14400000), 15);
            SignalAt(h, p, decision) == Some(s) <==>
              && |k15| >= 30 && |k1h| >= 10 && |k4h| >= 5
              && p.analyze(k15, k1h, k4h) == Some(s) && s.rr >= p.minRr
  {
    WindowIsLastClosed(h.k15, decision, 15, WINDOW);
    WindowIsLastClosed(h.k1h, decision, 60, 20);
    WindowIsLastClosed(h.k4h, decision, 240, 15);
  }

  /** The levels keep their distance from the entry: stop and targets are as
      far from the fill as the signal had them from its own entry, and a
      partial target that is missing or zero is the single target. */
  lemma LevelsKeepDistance(s: Signal, fill: real)
    ensures var v := LevelsFor(s, fill);
            && v.entry == fill && v.sl - fill == s.sl - s.entry && v.tp - fill == s.tp - s.entry
            && (s.tp1 in {None, Some(0.0)} ==> v.tp1 == v.tp)
            && (s.tp1 !in {None, Some(0.0)} ==> v.tp1 - fill == s.tp1.value - s.entry)
            && (s.tp2 in {None, Some(0.0)} ==> v.tp2 == v.tp)
            && (s.tp2 !in {None, Some(0.0)} ==> v.tp2 - fill == s.tp2.value - s.entry)
  {
  }

  /** The price proxy is the close of the last candle opened by the instant,
      and zero before the first. */
  lemma PriceIsLastClose(cs: seq<Candle>, t: int, n: nat)
    requires Sorted(cs) && n <= |cs|
    requires forall k :: 0 <= k < |cs| ==> if k < n then TsMs(cs[k]) <= t else TsMs(cs[k]) > t
    ensures BisectRight(cs, t) == n
    ensures PriceAt(cs, t) == if n == 0 then 0.0 else cs[n - 1].c
  {
    var m := BisectRight(cs, t);
  }

  /** There is a trade exactly when there is a signal with a positive entry and
      the bar's open can be filled; it is entered at that fill on the signal's
      side, runs over the next forty bars, and its result is return less fees
      plus funding of what it held. */
  lemma TradeExactly(h: History, p: Params, i: nat)
    requires i < |h.k15|
    ensures var s, t := SignalAt(h, p, TsMs(h.k15[i])), TradeAt(h, p, i);
            && (t.Some? <==>
                  && s.Some? && s.value.entry > 0.0
                  && AdverseFill(h.k15[i].o, s.value.direction, true, p.slip) > 0.0)
            && (t.Some? ==>
                  var trade, fill := t.value, AdverseFill(h.k15[i].o, s.value.direction, true, p.slip);
                  && trade.direction == s.value.direction && trade.ts == TsMs(h.k15[i])
                  && trade.levels == LevelsFor(s.value, fill)
                  && trade.exit == ExitOf(h.k15[i..if i + 40 <= |h.k15| then i + 40 else |h.k15|], trade.direction,
                                          trade.levels, p.slip)
                  && trade.gross == Gross(trade.direction, trade.exit.legs, fill)
                  && trade.fees == Fees(fill, trade.exit.legs, p.fee)
                  && (trade.funding, trade.settled)
                     == Funding(p.events,
                                Holding(trade.direction, trade.ts, trade.exit.exitTs, fill, trade.exit.tp1Ts),
                                Prices(h.k15))
                  && trade.pnl == trade.gross - trade.fees + trade.funding)
  {
  }

  /** The values that are there, in order. */
  function Collected<T>(s: seq<Option<T>>): seq<T>
    decreases |s|
  {
    if |s| == 0 then []
    else Collected(s[..|s| - 1]) + (if s[|s| - 1].Some? then [s[|s| - 1].value] else [])
  }

  lemma {:induction false} CollectedHas<T>(s: seq<Option<T>>, t: T)
    ensures t in Collected(s) <==> Some(t) in s
    decreases |s|
  {
    if |s| == 0 {
    } else {
      CollectedHas(s[..|s| - 1], t);
      assert s == s[..|s| - 1] + [s[|s| - 1]];
    }
  }

  ghost function TradesAt(h: History, p: Params, from: nat, upTo: nat): seq<Option<Trade>>
    requires from <= upTo <= |h.k15|
  {
    seq(upTo - from, k requires 0 <= k < upTo - from => TradeAt(h, p, from + k))
  }

  lemma CollectedAppend<T>(s: seq<Option<T>>, last: Option<T>)
    ensures Collected(s + [last]) == Collected(s) + (if last.Some? then [last.value] else [])
  {
    assert (s + [last])[..|s|] == s;
  }

  lemma TradesAtGrow(h: History, p: Params, from: nat, upTo: nat)
    requires from < upTo <= |h.k15|
    ensures TradesAt(h, p, from, upTo) == TradesAt(h, p, from, upTo - 1) + [TradeAt(h, p, upTo - 1)]
  {
  }

  lemma {:induction false} ReplayCollects(h: History, p: Params, from: nat, upTo: nat)
    requires from <= upTo <= |h.k15|
    ensures TradesBetween(h, p, from, upTo) == Collected(TradesAt(h, p, from, upTo))
    decreases upTo
  {
    if from == upTo {
    } else {
      ReplayCollects(h, p, from, upTo - 1);
      TradesAtGrow(h, p, from, upTo);
      CollectedAppend(TradesAt(h, p, from, upTo - 1), TradeAt(h, p, upTo - 1));
    }
  }

  /** The replay has exactly the trades of the bars it visits, in order. */
  lemma ReplayHasTrades(h: History, p: Params, from: nat, upTo: nat)
    requires from <= upTo <= |h.k15|
    ensures TradesBetween(h, p, from, upTo) == Collected(TradesAt(h, p, from, upTo))
    ensures forall t :: t in TradesBetween(h, p, from, upTo) <==> Some(t) in TradesAt(h, p, from, upTo)
  {
    ReplayCollects(h, p, from, upTo);
    var trades := TradesAt(h, p, from, upTo);
    forall t
      ensures t in Collected(trades) <==> Some(t) in trades
    {
      CollectedHas(trades, t);
    }
  }

  /** A signal needs enough closed candles on every interval. */
  lemma SignalNeedsHistory(h: History, p: Params, decision: int)
    requires Sorted(h.k15) && Sorted(h.k1h) && Sorted(h.k4h) && SignalAt(h, p, decision).Some?
    ensures |OpenedBy(h.k15, decision - 15 * 60 * 1000)| >= 30
    ensures |OpenedBy(h.k1h, decision - 60 * 60 * 1000)| >= 10
    ensures |OpenedBy(h.k4h, decision - 240 * 60 * 1000)| >= 5
    ensures SignalAt(h, p, decision).value.rr >= p.minRr
  {
    WindowIsLastClosed(h.k15, decision, 15, WINDOW);
    WindowIsLastClosed(h.k1h, decision, 60, 20);
    WindowIsLastClosed(h.k4h, decision, 240, 15);
  }

  // ---- What a trade returns ----

  predicate OrderedSignal(s: Signal) {
    && AtLeastAsGood(s.direction, s.entry, s.sl) && AtLeastAsGood(s.direction, s.tp, s.entry)
    && AtLeastAsGood(s.direction, LevelOr(s.tp1, s.tp), s.entry)
    && AtLeastAsGood(s.direction, LevelOr(s.tp2, s.tp), LevelOr(s.tp1, s.tp))
  }

  /** A trade on an ordered signal returns, before costs, no less than a full
      exit at its slipped stop and no more than one at its slipped last target. */
  lemma TradeIsBracketed(h: History, p: Params, i: nat)
    requires i < |h.k15| && p.slip <= 1.0 && forall j :: 0 <= j < |h.k15| ==> ValidBar(h.k15[j])
    requires var s := SignalAt(h, p, TsMs(h.k15[i])); s.Some? ==> OrderedSignal(s.value)
    requires TradeAt(h, p, i).Some?
    ensures var t := TradeAt(h, p, i).value;
            && t.levels.entry > 0.0
            && Return(t.direction, ExitFill(t.direction, t.levels.sl, p.slip), t.levels.entry) <= t.gross
            && t.gross <= Return(t.direction, ExitFill(t.direction, t.levels.LastTarget(), p.slip), t.levels.entry)
  {
    var t := TradeAt(h, p, i).value;
    assert Ordered(t.direction, t.levels);
    GrossIsBracketed(Bars(h.k15, i), t.direction, t.levels, p.slip);
  }

  lemma ExitFillsAreNotNegative(bars: seq<Candle>, d: Direction, v: Levels, slip: real)
    requires |bars| > 0 && slip <= 1.0
    ensures var legs := ExitOf(bars, d, v, slip).legs;
            forall k :: 0 <= k < |legs| ==> legs[k].fill >= 0.0 && legs[k].weight >= 0.0
  {
    var legs := ExitOf(bars, d, v, slip).legs;
    LabelMatchesLegs(bars, d, v, slip);
    ExitClosesAll(bars, d, v, slip);
    forall price: real
      ensures ExitFill(d, price, slip) >= 0.0
    {
      FillMonotone(if price < 0.0 then price else 0.0, price, d, false, slip);
    }
  }

  predicate PricedAtWeightedExit(t: Trade, fee: real) {
    var exit := WeightedExit(t.exit.legs);
    && t.levels.entry > 0.0
    && t.gross == (if t.direction.Long? then 1.0 else -1.0) * (exit / t.levels.entry - 1.0)
    && t.fees == MaxReal(0.0, fee) + ExitFee(exit, t.levels.entry, MaxReal(0.0, fee))
    && t.pnl == t.gross - t.fees + t.funding
  }

  /** Return and fees are those of one exit at the weighted exit price. */
  lemma PnlOfWeightedExit(h: History, p: Params, i: nat)
    requires i < |h.k15| && p.slip <= 1.0
    ensures TradeAt(h, p, i).Some? ==> PricedAtWeightedExit(TradeAt(h, p, i).value, p.fee)
  {
    if TradeAt(h, p, i).Some? {
      var t := TradeAt(h, p, i).value;
      ExitClosesAll(Bars(h.k15, i), t.direction, t.levels, p.slip);
      ExitFillsAreNotNegative(Bars(h.k15, i), t.direction, t.levels, p.slip);
      GrossActsAsOne(t.direction, t.exit.legs, t.levels.entry);
      FeesActAsOne(t.exit.legs, t.levels.entry, MaxReal(0.0, p.fee));
    }
  }
}

/** What a simulated trade of bot/backtest.py can know of the future: exactly
    when the candles through one bar determine it. */
module LookAhead {
  import opened Common
  import opened ExecutionCosts
  import opened FundingNet
  import opened BacktestExit
  import opened Backtest

  /** Two lists of candles are one and the same through index k. */
  predicate AgreeThrough(a: seq<Candle>, b: seq<Candle>, k: nat) {
    k < |a| && k < |b| && a[..k + 1] == b[..k + 1]
  }

  lemma BisectAgrees(a: seq<Candle>, b: seq<Candle>, k: nat, x: int)
    requires Sorted(a) && Sorted(b) && AgreeThrough(a, b, k)
    requires NextOpensAfter(a, k, x) && NextOpensAfter(b, k, x)
    ensures BisectRight(a, x) == BisectRight(b, x) <= k + 1
  {
    var r := BisectRight(a, x);
    assert r <= k + 1;
    forall j | 0 <= j < |b|
      ensures j < r ==> TsMs(b[j]) <= x
      ensures j >= r ==> TsMs(b[j]) > x
    {
      if j <= k {
        assert b[j] == b[..k + 1][j] == a[j];
      } else if j > k + 1 {
        assert TsMs(b[k + 1]) <= TsMs(b[j]);
      }
    }
    BisectIs(b, x, r);
  }

  lemma BisectIs(cs: seq<Candle>, x: int, r: nat)
    requires Sorted(cs) && r <= |cs|
    requires forall j :: 0 <= j < |cs| ==> if j < r then TsMs(cs[j]) <= x else TsMs(cs[j]) > x
    ensures BisectRight(cs, x) == r
  {
    var m := BisectRight(cs, x);
  }

  /** The bar after k, if there is one, opens after an instant. */
  predicate NextOpensAfter(cs: seq<Candle>, k: nat, x: int) {
    k + 1 < |cs| ==> TsMs(cs[k + 1]) > x
  }

  lemma PriceAgrees(a: seq<Candle>, b: seq<Candle>, k: nat, x: int)
    requires Sorted(a) && Sorted(b) && AgreeThrough(a, b, k) && NextOpensAfter(a, k, x) && NextOpensAfter(b, k, x)
    ensures PriceAt(a, x) == PriceAt(b, x)
  {
    BisectAgrees(a, b, k, x);
    var n := BisectRight(a, x);
    if n > 0 {
      assert a[n - 1] == a[..k + 1][n - 1] == b[n - 1];
    }
  }

  /** The slower candles agree as far as they were closed at the decision. */
  predicate ClosedAgree(a: seq<Candle>, b: seq<Candle>, decision: int, minutes: int) {
    OpenedBy(a, decision - minutes * 60 * 1000) == OpenedBy(b, decision - minutes * 60 * 1000)
  }

  lemma FastClosedAgree(a: seq<Candle>, b: seq<Candle>, k: nat, decision: int)
    requires Sorted(a) && Sorted(b) && AgreeThrough(a, b, k) && decision <= TsMs(a[k])
    ensures ClosedAgree(a, b, decision, 15)
  {
    var cutoff := decision - 15 * 60 * 1000;
    assert a[k] == a[..k + 1][k] == b[k];
    BisectAgrees(a, b, k, cutoff);
    OpenedByIsPrefix(a, cutoff);
    OpenedByIsPrefix(b, cutoff);
    SameSlice(a, b, k + 1, 0, BisectRight(a, cutoff));
  }

  lemma SameSlice(a: seq<Candle>, b: seq<Candle>, n: nat, start: nat, end: nat)
    requires start <= end <= n <= |a| && n <= |b| && a[..n] == b[..n]
    ensures a[start..end] == b[start..end]
  {
    forall j | start <= j < end
      ensures a[j] == b[j]
    {
      assert a[..n][j] == b[..n][j];
    }
  }

  lemma WindowAgrees(a: seq<Candle>, b: seq<Candle>, decision: int, minutes: int, lookback: int)
    requires Sorted(a) && Sorted(b) && ClosedAgree(a, b, decision, minutes)
    ensures ClosedWindow(a, decision, minutes, lookback) == ClosedWindow(b, decision, minutes, lookback)
  {
    WindowIsLastClosed(a, decision, minutes, lookback);
    WindowIsLastClosed(b, decision, minutes, lookback);
  }

  ghost predicate Comparable(a: History, b: History, i: nat, k: nat) {
    && Sorted(a.k15) && Sorted(b.k15) && Sorted(a.k1h) && Sorted(b.k1h) && Sorted(a.k4h) && Sorted(b.k4h)
    && i <= k && AgreeThrough(a.k15, b.k15, k)
    && ClosedAgree(a.k1h, b.k1h, TsMs(a.k15[i]), 60) && ClosedAgree(a.k4h, b.k4h, TsMs(a.k15[i]), 240)
  }

  /** A signal depends on nothing that was not closed at its decision. */
  lemma SignalAgrees(a: History, b: History, p: Params, e: seq<Settlement>, i: nat, k: nat)
    requires Comparable(a, b, i, k)
    ensures a.k15[i] == b.k15[i]
    ensures SignalAt(a, p, TsMs(a.k15[i])) == SignalAt(b, p.(events := e), TsMs(a.k15[i]))
  {
    assert a.k15[i] == a.k15[..k + 1][i] == b.k15[i];
    var decision := TsMs(a.k15[i]);
    FastClosedAgree(a.k15, b.k15, k, decision);
    WindowAgrees(a.k15, b.k15, decision, 15, WINDOW);
    WindowAgrees(a.k1h, b.k1h, decision, 60, 20);
    WindowAgrees(a.k4h, b.k4h, decision, 240, 15);
  }

  lemma BarsAgree(a: seq<Candle>, b: seq<Candle>, i: nat, k: nat)
    requires AgreeThrough(a, b, k) && i + HORIZON <= k + 1
    ensures Bars(a, i) == Bars(b, i) == a[i..i + HORIZON]
  {
    SameSlice(a, b, k + 1, i, i + HORIZON);
  }

  /** Settlements and prices agree for everything up to an instant. */
  ghost predicate FundingAgrees(a: seq<Candle>, b: seq<Candle>, events: seq<Settlement>, other: seq<Settlement>,
                                last: int)
  {
    && Until(events, last) == Until(other, last)
    && (forall s :: s in events && s.timepoint <= last ==> PriceAt(a, s.timepoint) == PriceAt(b, s.timepoint))
  }

  lemma {:induction false} UntilKeeps(events: seq<Settlement>, last: int)
    ensures forall s :: s in Until(events, last) <==> s in events && s.timepoint <= last
    decreases |events|
  {
    if |events| == 0 {
    } else {
      var n := |events| - 1;
      UntilKeeps(events[..n], last);
      assert forall s :: s in events <==> s in events[..n] || s == events[n];
    }
  }

  lemma FundingSame(a: seq<Candle>, b: seq<Candle>, events: seq<Settlement>, other: seq<Settlement>, last: int,
          h: Holding)
    requires h.entry > 0.0 && h.exitTs <= last && FundingAgrees(a, b, events, other, last)
    ensures Funding(events, h, Prices(a)) == Funding(other, h, Prices(b))
  {
    UntilKeeps(events, last);
    UntilKeeps(other, last);
    forall k | 0 <= k < |events| && events[k].timepoint <= h.exitTs
      ensures Prices(a)(events[k].timepoint) == Prices(b)(events[k].timepoint)
    {
      assert events[k] in events;
    }
    FundingIsLocal(events, h, Prices(a), Prices(b), last);
    FundingIsLocal(other, h, Prices(b), Prices(b), last);
  }

  /** The last instant a trade entered at bar i can exit. */
  function Deadline(k15: seq<Candle>, i: nat): int
    requires i + HORIZON <= |k15|
  {
    CloseTs(k15[i + HORIZON - 1])
  }

  lemma ExitByDeadline(k15: seq<Candle>, i: nat, d: Direction, v: Levels, slip: real)
    requires Sorted(k15) && i + HORIZON <= |k15|
    ensures ExitOf(Bars(k15, i), d, v, slip).exitTs <= Deadline(k15, i)
  {
    var bars := Bars(k15, i);
    ExitIsDated(bars, d, v, slip);
    var last := ExitOf(bars, d, v, slip).hold - 1;
    assert bars[last] == k15[i + last];
  }

  lemma EntryAgrees(a: History, b: History, p: Params, e: seq<Settlement>, i: nat, k: nat)
    requires Comparable(a, b, i, k)
    ensures a.k15[i] == b.k15[i]
    ensures EntryAt(a, p, i) == EntryAt(b, p.(events := e), i)
  {
    SignalAgrees(a, b, p, e, i, k);
  }

  lemma TradeAgrees(a: History, b: History, p: Params, e: seq<Settlement>, i: nat, k: nat)
    requires Comparable(a, b, i, k) && i + HORIZON <= k + 1
    requires FundingAgrees(a.k15, b.k15, p.events, e, Deadline(a.k15, i))
    ensures TradeAt(a, p, i) == TradeAt(b, p.(events := e), i)
  {
    EntryAgrees(a, b, p, e, i, k);
    BarsAgree(a.k15, b.k15, i, k);
    var entry := EntryAt(a, p, i);
    if entry.Some? {
      var d, v := entry.value.0, entry.value.1;
      var x := ExitOf(Bars(a.k15, i), d, v, p.slip);
      ExitByDeadline(a.k15, i, d, v, p.slip);
      FundingSame(a.k15, b.k15, p.events, e, Deadline(a.k15, i),
          Holding(d, TsMs(a.k15[i]), x.exitTs, v.entry, x.tp1Ts));
    }
  }

  /** No look-ahead on any sorted histories: when they agree through bar k and
      the bar after k opens after the last instant the trade can exit, the
      trade is the same. Settlements need only agree up to that instant. */
  lemma NoLookAheadPastDeadline(a: History, b: History, p: Params, e: seq<Settlement>, i: nat, k: nat)
    requires Comparable(a, b, i, k) && i + HORIZON <= k + 1
    requires NextOpensAfter(a.k15, k, Deadline(a.k15, i)) && NextOpensAfter(b.k15, k, Deadline(a.k15, i))
    requires Until(p.events, Deadline(a.k15, i)) == Until(e, Deadline(a.k15, i))
    ensures TradeAt(a, p, i) == TradeAt(b, p.(events := e), i)
  {
    var last := Deadline(a.k15, i);
    forall s | s in p.events && s.timepoint <= last
      ensures PriceAt(a.k15, s.timepoint) == PriceAt(b.k15, s.timepoint)
    {
      PriceAgrees(a.k15, b.k15, k, s.timepoint);
    }
    TradeAgrees(a, b, p, e, i, k);
  }

  /** When bar k opens no earlier than the trade can last, agreement through
      bar k is enough. */
  lemma NoLookAhead(a: History, b: History, p: Params, e: seq<Settlement>, i: nat, k: nat)
    requires Comparable(a, b, i, k) && i + HORIZON <= k + 1 && Gapped(a.k15, 1) && Gapped(b.k15, 1)
    requires TsMs(a.k15[k]) >= Deadline(a.k15, i)
    requires Until(p.events, TsMs(a.k15[k])) == Until(e, TsMs(a.k15[k]))
    ensures TradeAt(a, p, i) == TradeAt(b, p.(events := e), i)
  {
    var last := TsMs(a.k15[k]);
    assert a.k15[k] == a.k15[..k + 1][k] == b.k15[k];
    UntilEarlier(p.events, Deadline(a.k15, i), last);
    UntilEarlier(e, Deadline(a.k15, i), last);
    NoLookAheadPastDeadline(a, b, p, e, i, k);
  }

  /** On candles a full interval apart that is every bar from i + 40 on. */
  lemma FortyBarsReach(k15: seq<Candle>, i: nat, k: nat)
    requires Gapped(k15, CANDLE_MS) && i + HORIZON <= k < |k15|
    ensures TsMs(k15[k]) >= Deadline(k15, i)
  {
  }

  lemma {:induction false} UntilEarlier(events: seq<Settlement>, early: int, late: int)
    requires early <= late
    ensures Until(events, early) == Until(Until(events, late), early)
    decreases |events|
  {
    if |events| == 0 {
    } else {
      var n := |events| - 1;
      UntilEarlier(events[..n], early, late);
      var before := Until(events[..n], late);
      if events[n].timepoint <= late {
        assert (before + [events[n]])[..|before|] == before;
      } else {
        assert before + [] == before;
      }
    }
  }

  /** Whole replays: all trades that cannot last beyond the opening of bar k
      are the same. */
  lemma {:induction false} ReplayAgrees(a: History, b: History, p: Params, k: nat, upTo: nat)
    requires WINDOW <= upTo && upTo + HORIZON <= k + 2 && AgreeThrough(a.k15, b.k15, k)
    requires Gapped(a.k15, 1) && Gapped(b.k15, 1)
    requires forall i :: WINDOW <= i < upTo ==> Comparable(a, b, i, k) && TsMs(a.k15[k]) >= Deadline(a.k15, i)
    ensures TradesBetween(a, p, WINDOW, upTo) == TradesBetween(b, p, WINDOW, upTo)
    decreases upTo
  {
    if upTo == WINDOW {
    } else {
      ReplayAgrees(a, b, p, k, upTo - 1);
      assert p.(events := p.events) == p;
      NoLookAhead(a, b, p, p.events, upTo - 1, k);
    }
  }

  // ---- Exactly what determines a trade ----

  /** Neighbouring candles open at least this far apart: 1 for the strictly
      increasing timestamps the integrity check enforces, a candle's length
      where none overlap. */
  ghost predicate Gapped(cs: seq<Candle>, gap: nat) {
    forall i, j :: 0 <= i < j < |cs| ==> TsMs(cs[i]) + gap <= TsMs(cs[j])
  }

  /** The candles through bar k determine the trade entered at bar i: every
      history that continues them gives the same one. */
  ghost predicate Determined(a: History, p: Params, i: nat, k: nat, gap: nat)
    requires i < |a.k15|
  {
    forall b: History :: Comparable(a, b, i, k) && Gapped(b.k15, gap) ==> TradeAt(b, p, i) == TradeAt(a, p, i)
  }

  function Held(t: Trade): Holding {
    Holding(t.direction, t.ts, t.exit.exitTs, t.levels.entry, t.exit.tp1Ts)
  }

  /** A trade with the funding of another history. */
  function Refunded(t: Trade, p: Params, k15: seq<Candle>): Trade
    requires t.levels.entry > 0.0
  {
    var f := Funding(p.events, Held(t), Prices(k15));
    t.(funding := f.0, settled := f.1, pnl := t.gross - t.fees + f.0)
  }

  /** By bar k the trade has left at a level or run out of bars. */
  predicate Ended(a: History, p: Params, i: nat, k: nat)
    requires i < |a.k15|
  {
    TradeAt(a, p, i).Some? && k + 1 < i + HORIZON ==>
      var x := TradeAt(a, p, i).value.exit; !x.result.Timeout? && i + x.hold <= k + 1
  }

  /** An exit at a level within the bars that two lists share is the same. */
  lemma ExitInShared(bars: seq<Candle>, other: seq<Candle>, n: nat, d: Direction, v: Levels, slip: real)
    requires 0 < n <= |bars| && n <= |other| && bars[..n] == other[..n]
    requires ExitOf(bars, d, v, slip).hold <= n && !ExitOf(bars, d, v, slip).result.Timeout?
    ensures ExitOf(other, d, v, slip) == ExitOf(bars, d, v, slip)
  {
    assert forall j :: 0 <= j < n ==> bars[j] == bars[..n][j] == other[j];
    var a := FirstTouch(bars, 0, d, v.sl, v.FirstTarget());
    FirstTouchIs(other, 0, d, v.sl, v.FirstTarget(), a);
    if !StopTouched(d, bars[a], v.sl) && v.HasPartial() && !TargetTouched(d, bars[a], v.tp2) {
      var b := FirstTouch(bars, a + 1, d, v.entry, v.tp2);
      FirstTouchIs(other, a + 1, d, v.entry, v.tp2, b);
    }
  }

  lemma SharedBars(a: seq<Candle>, b: seq<Candle>, i: nat, k: nat)
    requires AgreeThrough(a, b, k) && i <= k && k + 1 < i + HORIZON
    ensures var n := k + 1 - i;
            0 < n <= |Bars(a, i)| && n <= |Bars(b, i)| && Bars(a, i)[..n] == Bars(b, i)[..n]
  {
    SameSlice(a, b, k + 1, i, k + 1);
    assert Bars(a, i)[..k + 1 - i] == a[i..k + 1] && Bars(b, i)[..k + 1 - i] == b[i..k + 1];
  }

  lemma SameExit(a: History, b: History, p: Params, i: nat, k: nat, d: Direction, v: Levels)
    requires Comparable(a, b, i, k) && EntryAt(a, p, i) == Some((d, v)) && Ended(a, p, i, k)
    ensures ExitOf(Bars(b.k15, i), d, v, p.slip) == ExitOf(Bars(a.k15, i), d, v, p.slip)
  {
    if i + HORIZON <= k + 1 {
      BarsAgree(a.k15, b.k15, i, k);
    } else {
      SharedBars(a.k15, b.k15, i, k);
      ExitInShared(Bars(a.k15, i), Bars(b.k15, i), k + 1 - i, d, v, p.slip);
    }
  }

  /** All of a trade that has ended by bar k, but its funding, is the same in
      any history that agrees through bar k. */
  lemma SameButFunding(a: History, b: History, p: Params, i: nat, k: nat)
    requires Comparable(a, b, i, k) && Ended(a, p, i, k)
    ensures TradeAt(a, p, i).None? <==> TradeAt(b, p, i).None?
    ensures TradeAt(a, p, i).Some? ==>
              && TradeAt(a, p, i).value.levels.entry > 0.0
              && TradeAt(a, p, i).value.ts == TsMs(a.k15[i])
              && TradeAt(b, p, i) == Some(Refunded(TradeAt(a, p, i).value, p, b.k15))
  {
    assert p.(events := p.events) == p;
    EntryAgrees(a, b, p, p.events, i, k);
    if EntryAt(a, p, i).Some? {
      SameExit(a, b, p, i, k, EntryAt(a, p, i).value.0, EntryAt(a, p, i).value.1);
    }
  }

  /** What is settled after bar k opened, and within the trade, nets to zero at
      every single instant. */
  ghost predicate NetsOut(a: History, p: Params, i: nat, k: nat, gap: nat)
    requires i < |a.k15| && k < |a.k15|
  {
    TradeAt(a, p, i).None? || Balanced(p.events, TsMs(a.k15[k]) + gap, TradeAt(a, p, i).value.exit.exitTs)
  }

  lemma PricesAgreeWhereItCounts(a: History, b: History, p: Params, i: nat, k: nat, gap: nat, h: Holding)
    requires Comparable(a, b, i, k) && 1 <= gap && Gapped(a.k15, gap) && Gapped(b.k15, gap)
    requires Balanced(p.events, TsMs(a.k15[k]) + gap, h.exitTs)
    ensures AgreeWhereItCounts(p.events, h, Prices(a.k15), Prices(b.k15))
  {
    forall s | s in p.events && Charged(s, h)
      ensures PriceAt(a.k15, s.timepoint) == PriceAt(b.k15, s.timepoint) || NetRate(p.events, s.timepoint) == 0.0
    {
      if s.timepoint < TsMs(a.k15[k]) + gap {
        assert a.k15[k] == a.k15[..k + 1][k] == b.k15[k];
        PriceAgrees(a.k15, b.k15, k, s.timepoint);
      }
    }
  }

  lemma NetsOutDetermines(a: History, b: History, p: Params, i: nat, k: nat, gap: nat)
    requires Comparable(a, b, i, k) && 1 <= gap && Gapped(a.k15, gap) && Gapped(b.k15, gap)
    requires Ended(a, p, i, k) && NetsOut(a, p, i, k, gap)
    ensures TradeAt(b, p, i) == TradeAt(a, p, i)
  {
    Reflexive(a, i, k);
    SameButFunding(a, b, p, i, k);
    SameButFunding(a, a, p, i, k);
    if TradeAt(a, p, i).Some? {
      var h := Held(TradeAt(a, p, i).value);
      PricesAgreeWhereItCounts(a, b, p, i, k, gap, h);
      SameWhereNetted(p.events, h, Prices(a.k15), Prices(b.k15));
      RefundedSame(TradeAt(a, p, i).value, p, a.k15, b.k15);
    }
  }

  lemma RefundedSame(t: Trade, p: Params, x: seq<Candle>, y: seq<Candle>)
    requires t.levels.entry > 0.0 && Funding(p.events, Held(t), Prices(x)) == Funding(p.events, Held(t), Prices(y))
    ensures Refunded(t, p, x) == Refunded(t, p, y)
  {
  }

  lemma Reflexive(a: History, i: nat, k: nat)
    requires Sorted(a.k15) && Sorted(a.k1h) && Sorted(a.k4h) && i <= k < |a.k15|
    ensures Comparable(a, a, i, k)
  {
  }

  // ---- Two futures ----

  /** The history through bar k, continued by one bar. */
  function Continued(a: History, k: nat, opens: int, close: real): History
    requires k < |a.k15|
  {
    a.(k15 := a.k15[..k + 1] + [Candle(opens, close, close, close, close)])
  }

  lemma ContinuedIsComparable(a: History, i: nat, k: nat, opens: int, close: real, gap: nat)
    requires Gapped(a.k15, gap) && Sorted(a.k1h) && Sorted(a.k4h) && i <= k < |a.k15|
    requires opens >= 100000000000 && opens >= TsMs(a.k15[k]) + gap
    ensures var b := Continued(a, k, opens, close);
            Comparable(a, b, i, k) && Gapped(b.k15, gap) && TsMs(b.k15[k + 1]) == opens
  {
    var b := Continued(a, k, opens, close);
    assert b.k15[..k + 1] == a.k15[..k + 1];
    forall m, n | 0 <= m < n < |b.k15|
      ensures TsMs(b.k15[m]) + gap <= TsMs(b.k15[n])
    {
      assert b.k15[m] == a.k15[m];
      if n <= k {
        assert b.k15[n] == a.k15[n];
      } else {
        assert m == k || TsMs(a.k15[m]) + gap <= TsMs(a.k15[k]);
      }
    }
  }

  /** From its opening on, the price proxy is the added bar's close. */
  lemma ContinuedPrice(a: History, k: nat, opens: int, close: real, x: int)
    requires k < |a.k15| && Sorted(Continued(a, k, opens, close).k15)
             && TsMs(Continued(a, k, opens, close).k15[k + 1]) <= x
    ensures PriceAt(Continued(a, k, opens, close).k15, x) == close
  {
    var cs := Continued(a, k, opens, close).k15;
    assert BisectRight(cs, x) == |cs| == k + 2;
  }

  /** Two histories that differ only in the close of the bar after k give
      different trades, when that bar opens at the last instant of the trade
      whose settlements do not net out. */
  lemma TwoFutures(a: History, p: Params, i: nat, k: nat, gap: nat, opens: int, c: real, d: real)
    requires Gapped(a.k15, gap) && 1 <= gap && Sorted(a.k1h) && Sorted(a.k4h) && i <= k < |a.k15|
    requires Ended(a, p, i, k)
    requires opens >= 100000000000 && opens >= TsMs(a.k15[k]) + gap
    requires c > 0.0 && d > 0.0 && c != d
    requires TradeAt(a, p, i).Some? && opens <= TradeAt(a, p, i).value.exit.exitTs
    requires NetRate(p.events, opens) != 0.0 && Balanced(p.events, opens + 1, TradeAt(a, p, i).value.exit.exitTs)
    ensures TradeAt(Continued(a, k, opens, c), p, i) != TradeAt(Continued(a, k, opens, d), p, i)
  {
    var x, y := Continued(a, k, opens, c), Continued(a, k, opens, d);
    ContinuedIsComparable(a, i, k, opens, c, gap);
    ContinuedIsComparable(a, i, k, opens, d, gap);
    SameButFunding(a, x, p, i, k);
    SameButFunding(a, y, p, i, k);
    var t := TradeAt(a, p, i).value;
    forall s | s in p.events && Charged(s, Held(t)) && s.timepoint != opens
      ensures PriceAt(x.k15, s.timepoint) == PriceAt(y.k15, s.timepoint) || NetRate(p.events, s.timepoint) == 0.0
    {
      if s.timepoint < opens {
        assert x.k15[..k + 1] == a.k15[..k + 1] == y.k15[..k + 1];
        PriceAgrees(x.k15, y.k15, k, s.timepoint);
      }
    }
    ContinuedPrice(a, k, opens, c, opens);
    ContinuedPrice(a, k, opens, d, opens);
    DiffersAtOneInstant(p.events, Held(t), Prices(x.k15), Prices(y.k15), opens);
  }

  lemma ShorterIsTimedOut(a: seq<Candle>, b: seq<Candle>, i: nat, k: nat, d: Direction, v: Levels, slip: real)
    requires AgreeThrough(a, b, k) && i <= k && k + 1 < i + HORIZON
    requires var x := ExitOf(Bars(a, i), d, v, slip); x.result.Timeout? || i + x.hold > k + 1
    ensures var y := ExitOf(Bars(b, i), d, v, slip);
            (y.result.Timeout? && y.hold == |Bars(b, i)|) || i + y.hold > k + 1
  {
    SharedBars(a, b, i, k);
    var y := ExitOf(Bars(b, i), d, v, slip);
    LabelMatchesLegs(Bars(b, i), d, v, slip);
    if !y.result.Timeout? && i + y.hold <= k + 1 {
      ExitInShared(Bars(b, i), Bars(a, i), k + 1 - i, d, v, slip);
    }
  }

  lemma StillOpen(a: History, b: History, p: Params, i: nat, k: nat)
    requires Comparable(a, b, i, k) && !Ended(a, p, i, k)
    ensures TradeAt(b, p, i).Some?
    ensures var hold := TradeAt(b, p, i).value.exit.hold; hold == |Bars(b.k15, i)| || i + hold > k + 1
  {
    assert p.(events := p.events) == p;
    EntryAgrees(a, b, p, p.events, i, k);
    var entry := EntryAt(a, p, i).value;
    ShorterIsTimedOut(a.k15, b.k15, i, k, entry.0, entry.1, p.slip);
  }

  /** Two histories, one that ends at bar k and one a bar longer, give trades
      of different length when the trade has not ended by bar k. */
  lemma OpenAtTheEnd(a: History, p: Params, i: nat, k: nat, opens: int)
    requires Sorted(a.k15) && Sorted(a.k1h) && Sorted(a.k4h) && i <= k < |a.k15|
    requires Comparable(a, Continued(a, k, opens, 1.0), i, k) && !Ended(a, p, i, k)
    ensures Comparable(a, a.(k15 := a.k15[..k + 1]), i, k)
    ensures TradeAt(a.(k15 := a.k15[..k + 1]), p, i) != TradeAt(Continued(a, k, opens, 1.0), p, i)
  {
    var x, y := a.(k15 := a.k15[..k + 1]), Continued(a, k, opens, 1.0);
    assert x.k15[..k + 1] == a.k15[..k + 1];
    StillOpen(a, x, p, i, k);
    StillOpen(a, y, p, i, k);
    HoldAtMost(x, p, i);
    assert |Bars(x.k15, i)| == k + 1 - i && |Bars(y.k15, i)| == k + 2 - i;
  }

  lemma HoldAtMost(h: History, p: Params, i: nat)
    requires i < |h.k15|
    ensures TradeAt(h, p, i).Some? ==> TradeAt(h, p, i).value.exit.hold <= |Bars(h.k15, i)|
  {
    if EntryAt(h, p, i).Some? {
      ExitIsDated(Bars(h.k15, i), EntryAt(h, p, i).value.0, EntryAt(h, p, i).value.1, p.slip);
    }
  }

  lemma AllDetermined(a: History, p: Params, i: nat, k: nat, gap: nat)
    requires Gapped(a.k15, gap) && 1 <= gap && i < k < |a.k15| && Ended(a, p, i, k) && NetsOut(a, p, i, k, gap)
    ensures Determined(a, p, i, k, gap)
  {
    forall b: History | Comparable(a, b, i, k) && Gapped(b.k15, gap)
      ensures TradeAt(b, p, i) == TradeAt(a, p, i)
    {
      NetsOutDetermines(a, b, p, i, k, gap);
    }
  }

  lemma NotEnded(a: History, p: Params, i: nat, k: nat, gap: nat)
    requires Gapped(a.k15, gap) && Sorted(a.k1h) && Sorted(a.k4h) && i < k < |a.k15|
    requires TsMs(a.k15[k]) >= 100000000000 && !Ended(a, p, i, k)
    ensures !Determined(a, p, i, k, gap)
  {
    var opens := TsMs(a.k15[k]) + gap;
    ContinuedIsComparable(a, i, k, opens, 1.0, gap);
    OpenAtTheEnd(a, p, i, k, opens);
  }

  lemma LeftOver(a: History, p: Params, i: nat, k: nat, gap: nat)
    requires Gapped(a.k15, gap) && 1 <= gap && Sorted(a.k1h) && Sorted(a.k4h) && i < k < |a.k15|
    requires TsMs(a.k15[k]) >= 100000000000 && Ended(a, p, i, k) && !NetsOut(a, p, i, k, gap)
    ensures !Determined(a, p, i, k, gap)
  {
    var t, from := TradeAt(a, p, i).value, TsMs(a.k15[k]) + gap;
    var some :| from <= some <= t.exit.exitTs && NetRate(p.events, some) != 0.0;
    var opens := LastUnnetted(p.events, some, t.exit.exitTs);
    TwoFutures(a, p, i, k, gap, opens, 1.0, 2.0);
    ContinuedIsComparable(a, i, k, opens, 1.0, gap);
    ContinuedIsComparable(a, i, k, opens, 2.0, gap);
  }

  /** The candles through bar k determine the trade entered at bar i if and
      only if it has ended by bar k, at a level or with its fortieth bar, and
      nothing settled within it, an interval or more after bar k opened, is
      left over at any instant. Timestamps are milliseconds of the present
      era. */
  lemma DeterminedExactly(a: History, p: Params, i: nat, k: nat, gap: nat)
    requires Gapped(a.k15, gap) && 1 <= gap && Sorted(a.k1h) && Sorted(a.k4h) && i < k < |a.k15|
    requires TsMs(a.k15[k]) >= 100000000000
    ensures Determined(a, p, i, k, gap) <==> Ended(a, p, i, k) && NetsOut(a, p, i, k, gap)
  {
    if !Ended(a, p, i, k) {
      NotEnded(a, p, i, k, gap);
    } else if NetsOut(a, p, i, k, gap) {
      AllDetermined(a, p, i, k, gap);
    } else {
      LeftOver(a, p, i, k, gap);
    }
  }

  /** On candles a full interval apart, the forty bars of a trade determine it
      if and only if it ends before the last of them closes or what is settled
      at that very instant nets to zero. */
  lemma FortyBarsExactly(a: History, p: Params, i: nat)
    requires Gapped(a.k15, CANDLE_MS) && Sorted(a.k1h) && Sorted(a.k4h) && i + HORIZON <= |a.k15|
    requires TsMs(a.k15[i + HORIZON - 1]) >= 100000000000
    ensures Determined(a, p, i, i + HORIZON - 1, CANDLE_MS) <==>
            || TradeAt(a, p, i).None?
            || TradeAt(a, p, i).value.exit.exitTs < Deadline(a.k15, i)
            || NetRate(p.events, Deadline(a.k15, i)) == 0.0
  {
    DeterminedExactly(a, p, i, i + HORIZON - 1, CANDLE_MS);
    TradeEndsByDeadline(a, p, i);
    if TradeAt(a, p, i).Some? {
      AtMostOneInstant(p.events, Deadline(a.k15, i), TradeAt(a, p, i).value.exit.exitTs);
    }
  }

  lemma TradeEndsByDeadline(a: History, p: Params, i: nat)
    requires Sorted(a.k15) && i + HORIZON <= |a.k15|
    ensures TradeAt(a, p, i).Some? ==> TradeAt(a, p, i).value.exit.exitTs <= Deadline(a.k15, i)
  {
    var entry := EntryAt(a, p, i);
    if entry.Some? {
      ExitByDeadline(a.k15, i, entry.value.0, entry.value.1, p.slip);
    }
  }

  lemma AtMostOneInstant(events: seq<Settlement>, from: int, last: int)
    requires last <= from
    ensures Balanced(events, from, last) <==> last < from || NetRate(events, from) == 0.0
  {
  }

  // ---- One trade that looks ahead ----

  function FlatBar(j: nat): Candle {
    Candle(1000000000000 + j * CANDLE_MS, 100.0, 100.0, 100.0, 100.0)
  }

  /** A hundred flat bars, and enough slower candles closed long before. */
  function FlatHistory(): History {
    History(seq(100, j requires 0 <= j => FlatBar(j)),
        seq(10, j requires 0 <= j => Candle(j, 100.0, 100.0, 100.0, 100.0)),
            seq(5, j requires 0 <= j => Candle(j, 100.0, 100.0, 100.0, 100.0)))
  }

  const LONG_SIGNAL := Signal(Long, 100.0, 50.0, 200.0, None, None, 2.0)

  /** Always long, no costs, and one settlement as bar 99 closes. */
  function LongParams(): Params {
    Params((x, y, z) => Some(LONG_SIGNAL), 2.0, 0.0, 0.0, [Settlement(1000000000000 + 100 * CANDLE_MS, 0.01)])
  }

  lemma FlatMeans()
    ensures var h := FlatHistory();
            && |h.k15| == 100 && |h.k1h| == 10 && |h.k4h| == 5
            && Gapped(h.k15, CANDLE_MS) && Sorted(h.k1h) && Sorted(h.k4h)
            && (forall j :: 0 <= j < 100 ==> TsMs(h.k15[j]) == 1000000000000 + j * CANDLE_MS)
            && (forall j :: 0 <= j < 10 ==> TsMs(h.k1h[j]) < 1000000)
            && (forall j :: 0 <= j < 5 ==> TsMs(h.k4h[j]) < 1000000)
  {
  }

  lemma FlatSignal()
    ensures SignalAt(FlatHistory(), LongParams(), TsMs(FlatHistory().k15[60])) == Some(LONG_SIGNAL)
  {
    FlatMeans();
    var h := FlatHistory();
    var decision := TsMs(h.k15[60]);
    BisectIs(h.k15, decision - 15 * 60 * 1000, 60);
    BisectIs(h.k1h, decision - 60 * 60 * 1000, 10);
    BisectIs(h.k4h, decision - 240 * 60 * 1000, 5);
  }

  /** The trade entered at bar 60 times out flat as bar 99 closes. */
  lemma FlatTrade()
    ensures var t := TradeAt(FlatHistory(), LongParams(), 60);
            t.Some? && t.value.exit.exitTs == Deadline(FlatHistory().k15, 60)
  {
    FlatMeans();
    FlatSignal();
    var h, p := FlatHistory(), LongParams();
    var v := LevelsFor(LONG_SIGNAL, 100.0);
    assert AdverseFill(100.0, Long, true, 0.0) == 100.0;
    assert EntryAt(h, p, 60) == Some((Long, v));
    var bars := Bars(h.k15, 60);
    assert |bars| == 40 && forall j :: 0 <= j < 40 ==> bars[j] == FlatBar(60 + j);
    assert forall j :: 0 <= j < 40 ==> Quiet(Long, bars[j], v.sl, v.FirstTarget());
    FirstTouchIs(bars, 0, Long, v.sl, v.FirstTarget(), 40);
  }

  /** Its forty bars do not determine it. */
  lemma FlatTradeLooksAhead()
    ensures !Determined(FlatHistory(), LongParams(), 60, 99, CANDLE_MS)
  {
    FlatMeans();
    FlatTrade();
    FlatNet();
    FortyBarsExactly(FlatHistory(), LongParams(), 60);
  }

  lemma FlatNet()
    ensures NetRate(LongParams().events, Deadline(FlatHistory().k15, 60)) == 0.01
  {
    FlatMeans();
    assert LongParams().events[..0] == [];
  }
}

/** The exit loop of `_run_strategy` in bot/backtest.py: stop, partial target,
    break-even stop and time-out over at most forty bars. */
module BacktestExit {
  import opened Common
  import opened ExecutionCosts

  datatype Candle = Candle(ts: int, o: real, h: real, l: real, c: real)

  const CANDLE_MS := 15 * 60 * 1000

  /** Timestamps in seconds are scaled to milliseconds. */
  function TsMs(c: Candle): int {
    if c.ts < 100000000000 then c.ts * 1000 else c.ts
  }

  /** The levels of one trade, moved to its entry fill. */
  datatype Levels = Levels(entry: real, sl: real, tp: real, tp1: real, tp2: real) {
    predicate HasPartial() {
      AbsReal(tp1 - tp2) > MaxReal(AbsReal(entry), 1.0) * 0.000000000001
    }

    function FirstTarget(): real {
      if HasPartial() then tp1 else tp
    }

    function LastTarget(): real {
      if HasPartial() then tp2 else tp
    }
  }

  datatype Label = Loss | PartialWin | Win | Timeout

  datatype Exit = Exit(result: Label, legs: seq<Leg>, exitTs: int, tp1Ts: Option<int>, hold: nat, ambiguous: nat)

  predicate StopTouched(d: Direction, bar: Candle, stop: real) {
    if d.Long? then bar.l <= stop else bar.h >= stop
  }

  predicate TargetTouched(d: Direction, bar: Candle, target: real) {
    if d.Long? then bar.h >= target else bar.l <= target
  }

  predicate Quiet(d: Direction, bar: Candle, stop: real, target: real) {
    !StopTouched(d, bar, stop) && !TargetTouched(d, bar, target)
  }

  function ExitFill(d: Direction, price: real, slip: real): real {
    AdverseFill(price, d, false, slip)
  }

  function CloseTs(bar: Candle): int {
    TsMs(bar) + CANDLE_MS
  }

  // ---- What the primitives mean ----

  /** A bar touches a level when one of its prices is at or beyond it: at or
      below the stop of a long, at or above its target, and the other way
      round for a short. */
  lemma TouchedByPrice(d: Direction, bar: Candle, level: real)
    requires bar.l <= bar.h
    ensures StopTouched(d, bar, level) <==> exists x :: bar.l <= x <= bar.h && AtLeastAsGood(d, level, x)
    ensures TargetTouched(d, bar, level) <==> exists x :: bar.l <= x <= bar.h && AtLeastAsGood(d, x, level)
  {
    assert AtLeastAsGood(d, level, bar.l) || !AtLeastAsGood(d, level, bar.l);
    assert AtLeastAsGood(d, level, bar.h) || !AtLeastAsGood(d, level, bar.h);
    assert AtLeastAsGood(d, bar.l, level) || !AtLeastAsGood(d, bar.l, level);
    assert AtLeastAsGood(d, bar.h, level) || !AtLeastAsGood(d, bar.h, level);
  }

  /** A timestamp below 10^11 is in seconds, any other in milliseconds; a bar
      closes fifteen minutes after it opens. */
  lemma InstantsOf(c: Candle)
    ensures c.ts <= 99999999999 ==> TsMs(c) == c.ts * 1000
    ensures c.ts >= 100000000000 ==> TsMs(c) == c.ts
    ensures CloseTs(c) == TsMs(c) + 900000
  {
  }

  /** A trade has a partial target when its two targets differ by more than a
      trillionth of the entry, or of one. */
  lemma PartialExactly(v: Levels, scale: real)
    requires scale >= 1.0 && scale >= v.entry && scale >= -v.entry && scale in {1.0, v.entry, -v.entry}
    ensures v.HasPartial() <==> v.tp1 - v.tp2 > scale / 1000000000000.0 || v.tp2 - v.tp1 > scale / 1000000000000.0
    ensures v.FirstTarget() == if v.HasPartial() then v.tp1 else v.tp
    ensures v.LastTarget() == if v.HasPartial() then v.tp2 else v.tp
  {
    assert scale == MaxReal(AbsReal(v.entry), 1.0);
    assert scale / 1000000000000.0 == scale * 0.000000000001;
  }

  // ---- What the exit is, without the loop ----

  /** The first bar that touches the stop or the target. */
  function FirstTouch(bars: seq<Candle>, from: nat, d: Direction, stop: real, target: real): (r: nat)
    requires from <= |bars|
    ensures from <= r <= |bars|
    ensures forall j :: from <= j < r ==> Quiet(d, bars[j], stop, target)
    ensures r < |bars| ==> !Quiet(d, bars[r], stop, target)
    decreases |bars| - from
  {
    if from == |bars| || !Quiet(d, bars[from], stop, target) then from
    else FirstTouch(bars, from + 1, d, stop, target)
  }

  lemma FirstTouchIs(bars: seq<Candle>, from: nat, d: Direction, stop: real, target: real, n: nat)
    requires from <= n <= |bars|
    requires forall j :: from <= j < n ==> Quiet(d, bars[j], stop, target)
    requires n < |bars| ==> !Quiet(d, bars[n], stop, target)
    ensures FirstTouch(bars, from, d, stop, target) == n
  {
  }

  function Ambiguous(d: Direction, bar: Candle, stop: real, target: real): nat {
    if StopTouched(d, bar, stop) && TargetTouched(d, bar, target) then 1 else 0
  }

  /** The whole position leaves at the first touch, or half of it does. */
  function ExitOf(bars: seq<Candle>, d: Direction, v: Levels, slip: real): Exit
    requires |bars| > 0
  {
    var a := FirstTouch(bars, 0, d, v.sl, v.FirstTarget());
    if a == |bars| then
      Exit(Timeout, [Leg(ExitFill(d, bars[a - 1].c, slip), 1.0)], CloseTs(bars[a - 1]), None, a, 0)
    else if StopTouched(d, bars[a], v.sl) then
      Exit(Loss, [Leg(ExitFill(d, v.sl, slip), 1.0)], CloseTs(bars[a]), None, a + 1,
           Ambiguous(d, bars[a], v.sl, v.FirstTarget()))
    else if !v.HasPartial() then
      Exit(Win, [Leg(ExitFill(d, v.tp, slip), 1.0)], CloseTs(bars[a]), None, a + 1, 0)
    else
      SecondHalf(bars, d, v, slip, a)
  }

  /** After half left at the first target in bar a, the stop is the entry. */
  function SecondHalf(bars: seq<Candle>, d: Direction, v: Levels, slip: real, a: nat): Exit
    requires a < |bars|
  {
    var half := Leg(ExitFill(d, v.tp1, slip), 0.5);
    var since := Some(CloseTs(bars[a]));
    if TargetTouched(d, bars[a], v.tp2) then
      Exit(Win, [half, Leg(ExitFill(d, v.tp2, slip), 0.5)], CloseTs(bars[a]), since, a + 1, 0)
    else
      var b := FirstTouch(bars, a + 1, d, v.entry, v.tp2);
      if b == |bars| then
        Exit(Timeout, [half, Leg(ExitFill(d, bars[b - 1].c, slip), 0.5)], CloseTs(bars[b - 1]), since, b, 0)
      else if StopTouched(d, bars[b], v.entry) then
        Exit(PartialWin, [half, Leg(ExitFill(d, v.entry, slip), 0.5)], CloseTs(bars[b]), since, b + 1,
             Ambiguous(d, bars[b], v.entry, v.tp2))
      else
        Exit(Win, [half, Leg(ExitFill(d, v.tp2, slip), 0.5)], CloseTs(bars[b]), since, b + 1, 0)
  }

  // ---- The loop ----

  /** What the loop carries besides its counter. */
  datatype Sim = Sim(sl: real, tp1Hit: bool, tp1Ts: Option<int>, legs: seq<Leg>)

  function TargetNow(v: Levels, s: Sim): real {
    if s.tp1Hit then v.tp2 else v.FirstTarget()
  }

  /** Half the position left in bar a and the rest did not leave there. */
  predicate HalfGone(bars: seq<Candle>, d: Direction, v: Levels, slip: real, a: nat) {
    && a < |bars| && v.HasPartial() && !TargetTouched(d, bars[a], v.tp2)
    && ExitOf(bars, d, v, slip) == SecondHalf(bars, d, v, slip, a)
  }

  /** The loop has come to bar n without an exit; after the partial target, `a`
      is the bar that touched it. */
  ghost predicate Running(bars: seq<Candle>, d: Direction, v: Levels, slip: real, n: nat, s: Sim, a: nat)
    requires n <= |bars|
  {
    if s.tp1Hit then
      && a < n && HalfGone(bars, d, v, slip, a)
      && s == Sim(v.entry, true, Some(CloseTs(bars[a])), [Leg(ExitFill(d, v.tp1, slip), 0.5)])
      && forall j :: a < j < n ==> Quiet(d, bars[j], v.entry, v.tp2)
    else
      && s == Sim(v.sl, false, None, [])
      && forall j :: 0 <= j < n ==> Quiet(d, bars[j], v.sl, v.FirstTarget())
  }

  lemma TouchEnds(bars: seq<Candle>, d: Direction, v: Levels, slip: real, n: nat, s: Sim, a: nat)
    requires n < |bars| && Running(bars, d, v, slip, n, s, a) && !Quiet(d, bars[n], s.sl, TargetNow(v, s))
    ensures FirstTouch(bars, if s.tp1Hit then a + 1 else 0, d, s.sl, TargetNow(v, s)) == n
  {
    FirstTouchIs(bars, if s.tp1Hit then a + 1 else 0, d, s.sl, TargetNow(v, s), n);
  }

  lemma StopEnds(bars: seq<Candle>, d: Direction, v: Levels, slip: real, n: nat, s: Sim, a: nat)
    requires n < |bars| && Running(bars, d, v, slip, n, s, a) && StopTouched(d, bars[n], s.sl)
    ensures ExitOf(bars, d, v, slip)
            == Exit(if s.tp1Hit then PartialWin else Loss,
                    s.legs + [Leg(ExitFill(d, s.sl, slip), if s.tp1Hit then 0.5 else 1.0)],
                    CloseTs(bars[n]), s.tp1Ts, n + 1, if TargetTouched(d, bars[n], TargetNow(v, s)) then 1 else 0)
  {
    TouchEnds(bars, d, v, slip, n, s, a);
  }

  lemma TargetEnds(bars: seq<Candle>, d: Direction, v: Levels, slip: real, n: nat, s: Sim, a: nat)
    requires n < |bars| && Running(bars, d, v, slip, n, s, a)
    requires !StopTouched(d, bars[n], s.sl) && TargetTouched(d, bars[n], TargetNow(v, s))
    requires s.tp1Hit || !v.HasPartial()
    ensures ExitOf(bars, d, v, slip)
            == Exit(Win, s.legs + [Leg(ExitFill(d, TargetNow(v, s), slip), if s.tp1Hit then 0.5 else 1.0)],
                    CloseTs(bars[n]), s.tp1Ts, n + 1, 0)
  {
    TouchEnds(bars, d, v, slip, n, s, a);
  }

  /** The partial target: half leaves, and in the same bar perhaps the rest. */
  lemma PartialHit(bars: seq<Candle>, d: Direction, v: Levels, slip: real, n: nat, s: Sim, a: nat, next: Sim)
    requires n < |bars| && Running(bars, d, v, slip, n, s, a) && !s.tp1Hit && v.HasPartial()
    requires !StopTouched(d, bars[n], s.sl) && TargetTouched(d, bars[n], v.tp1)
    requires next == Sim(v.entry, true, Some(CloseTs(bars[n])), [Leg(ExitFill(d, v.tp1, slip), 0.5)])
    ensures !TargetTouched(d, bars[n], v.tp2) ==> Running(bars, d, v, slip, n + 1, next, n)
    ensures TargetTouched(d, bars[n], v.tp2) ==>
              ExitOf(bars, d, v, slip)
              == Exit(Win, next.legs + [Leg(ExitFill(d, v.tp2, slip), 0.5)], CloseTs(bars[n]), next.tp1Ts, n + 1, 0)
  {
    TouchEnds(bars, d, v, slip, n, s, a);
    assert ExitOf(bars, d, v, slip) == SecondHalf(bars, d, v, slip, n);
  }

  lemma TimeoutEnds(bars: seq<Candle>, d: Direction, v: Levels, slip: real, s: Sim, a: nat)
    requires |bars| > 0 && Running(bars, d, v, slip, |bars|, s, a)
    ensures ExitOf(bars, d, v, slip)
            == Exit(Timeout, s.legs + [Leg(ExitFill(d, bars[|bars| - 1].c, slip), if s.tp1Hit then 0.5 else 1.0)],
                    CloseTs(bars[|bars| - 1]), s.tp1Ts, |bars|, 0)
  {
    FirstTouchIs(bars, if s.tp1Hit then a + 1 else 0, d, s.sl, TargetNow(v, s), |bars|);
  }

  /** The loop over the bars, with the moving stop and the growing legs. */
  method SimulateExit(bars: seq<Candle>, d: Direction, v: Levels, slip: real) returns (x: Exit)
    requires |bars| > 0
    ensures x == ExitOf(bars, d, v, slip)
  {
    var s := Sim(v.sl, false, None, []);
    var ambiguous := 0;
    var hold := 0;
    ghost var a := 0;
    while hold < |bars|
      invariant 0 <= hold <= |bars| && ambiguous == 0
      invariant Running(bars, d, v, slip, hold, s, a)
    {
      var bar := bars[hold];
      if StopTouched(d, bar, s.sl) && TargetTouched(d, bar, TargetNow(v, s)) {
        ambiguous := ambiguous + 1;
      }
      if StopTouched(d, bar, s.sl) {
        StopEnds(bars, d, v, slip, hold, s, a);
        var legs := s.legs + [Leg(ExitFill(d, s.sl, slip), if s.tp1Hit then 0.5 else 1.0)];
        return Exit(if s.tp1Hit then PartialWin else Loss, legs, CloseTs(bar), s.tp1Ts, hold + 1, ambiguous);
      }
      if v.HasPartial() && !s.tp1Hit && TargetTouched(d, bar, v.tp1) {
        var next := Sim(v.entry, true, Some(CloseTs(bar)), s.legs + [Leg(ExitFill(d, v.tp1, slip), 0.5)]);
        PartialHit(bars, d, v, slip, hold, s, a, next);
        if TargetTouched(d, bar, v.tp2) {
          return Exit(Win, next.legs + [Leg(ExitFill(d, v.tp2, slip), 0.5)], CloseTs(bar), next.tp1Ts,
                      hold + 1, ambiguous);
        }
        s, a := next, hold;
      } else if s.tp1Hit && TargetTouched(d, bar, v.tp2) {
        TargetEnds(bars, d, v, slip, hold, s, a);
        return Exit(Win, s.legs + [Leg(ExitFill(d, v.tp2, slip), 0.5)], CloseTs(bar), s.tp1Ts, hold + 1, ambiguous);
      } else if !v.HasPartial() && TargetTouched(d, bar, v.tp) {
        TargetEnds(bars, d, v, slip, hold, s, a);
        return Exit(Win, s.legs + [Leg(ExitFill(d, v.tp, slip), 1.0)], CloseTs(bar), s.tp1Ts, hold + 1, ambiguous);
      }
      hold := hold + 1;
    }
    TimeoutEnds(bars, d, v, slip, s, a);
    var last := bars[|bars| - 1];
    x := Exit(Timeout, s.legs + [Leg(ExitFill(d, last.c, slip), if s.tp1Hit then 0.5 else 1.0)],
              CloseTs(last), s.tp1Ts, hold, ambiguous);
  }

  // ---- What every exit satisfies ----

  /** The simulated exit always closes exactly the whole position, so that the
      guard against an incomplete close never fires. */
  lemma ExitClosesAll(bars: seq<Candle>, d: Direction, v: Levels, slip: real)
    requires |bars| > 0
    ensures var legs := ExitOf(bars, d, v, slip).legs;
            && 1 <= |legs| <= 2 && TotalWeight(legs) == 1.0
            && forall k :: 0 <= k < |legs| ==> legs[k].weight > 0.0
  {
    OneOrTwo(ExitOf(bars, d, v, slip).legs);
  }

  lemma OneOrTwo(legs: seq<Leg>)
    ensures |legs| == 1 ==> TotalWeight(legs) == legs[0].weight
    ensures |legs| == 2 ==> TotalWeight(legs) == legs[0].weight + legs[1].weight
  {
    if |legs| == 1 {
      assert TotalWeight(legs[..0]) == 0.0;
    } else if |legs| == 2 {
      assert TotalWeight(legs[..1]) == TotalWeight(legs[..1][..0]) + legs[0].weight;
    }
  }

  /** When a bar touches both stop and target, the stop wins: the exit is the
      loss, or after the partial target the break-even. */
  lemma StopWins(bars: seq<Candle>, d: Direction, v: Levels, slip: real)
    requires |bars| > 0
    ensures var x := ExitOf(bars, d, v, slip);
            && x.ambiguous <= 1 && 1 <= x.hold <= |bars|
            && (x.ambiguous == 1 ==> x.result.Loss? || x.result.PartialWin?)
            && (x.result.Loss? ==> StopTouched(d, bars[x.hold - 1], v.sl))
            && (x.result.Loss? ==> forall j :: 0 <= j < x.hold - 1 ==> Quiet(d, bars[j], v.sl, v.FirstTarget()))
            && (x.result.Win? && x.tp1Ts.None? ==>
               !StopTouched(d, bars[x.hold - 1], v.sl) && TargetTouched(d, bars[x.hold - 1], v.tp))
            && (x.result.PartialWin? ==> x.hold >= 2 && StopTouched(d, bars[x.hold - 1], v.entry))
  {
  }

  /** Conversely the first bar that touches the original stop is a full loss,
      whatever target the same bar touches. */
  lemma StopBeatsTarget(bars: seq<Candle>, d: Direction, v: Levels, slip: real, n: nat)
    requires n < |bars| && StopTouched(d, bars[n], v.sl)
    requires forall j :: 0 <= j < n ==> Quiet(d, bars[j], v.sl, v.FirstTarget())
    ensures var x := ExitOf(bars, d, v, slip);
            x.result == Loss && x.hold == n + 1 && x.legs == [Leg(ExitFill(d, v.sl, slip), 1.0)]
  {
    StopEnds(bars, d, v, slip, n, Sim(v.sl, false, None, []), 0);
  }

  /** The label tells the legs, and the time of the partial exit is known
      exactly when there is a second leg. */
  lemma LabelMatchesLegs(bars: seq<Candle>, d: Direction, v: Levels, slip: real)
    requires |bars| > 0
    ensures var x := ExitOf(bars, d, v, slip);
            var half := Leg(ExitFill(d, v.tp1, slip), 0.5);
            && (x.tp1Ts.Some? <==> |x.legs| == 2)
            && (|x.legs| == 2 ==> v.HasPartial() && x.legs[0] == half)
            && (x.result.Loss? ==> x.legs == [Leg(ExitFill(d, v.sl, slip), 1.0)])
            && (x.result.PartialWin? ==> x.legs == [half, Leg(ExitFill(d, v.entry, slip), 0.5)])
            && (x.result.Win? && v.HasPartial() ==> x.legs == [half, Leg(ExitFill(d, v.tp2, slip), 0.5)])
            && (x.result.Win? && !v.HasPartial() ==> x.legs == [Leg(ExitFill(d, v.tp, slip), 1.0)])
            && (x.result.Timeout? ==>
               x.hold == |bars| && x.legs[|x.legs| - 1].fill == ExitFill(d, bars[|bars| - 1].c, slip))
  {
  }

  /** The exit is dated at the close of the bar it happened in. */
  lemma ExitIsDated(bars: seq<Candle>, d: Direction, v: Levels, slip: real)
    requires |bars| > 0
    ensures var x := ExitOf(bars, d, v, slip); 1 <= x.hold <= |bars| && x.exitTs == CloseTs(bars[x.hold - 1])
  {
  }

  // ---- Bounds ----

  predicate ValidBar(c: Candle) {
    c.l <= c.c <= c.h
  }

  /** Stop, entry and targets in the order of the direction. */
  predicate Ordered(d: Direction, v: Levels) {
    && AtLeastAsGood(d, v.entry, v.sl) && AtLeastAsGood(d, v.tp, v.entry)
    && AtLeastAsGood(d, v.tp1, v.entry) && AtLeastAsGood(d, v.tp2, v.tp1)
  }

  /** The raw price lies between the original stop and the last target. */
  predicate Between(d: Direction, v: Levels, price: real) {
    AtLeastAsGood(d, price, v.sl) && AtLeastAsGood(d, v.LastTarget(), price)
  }

  predicate FilledBetween(d: Direction, v: Levels, slip: real, leg: Leg) {
    && AtLeastAsGood(d, leg.fill, ExitFill(d, v.sl, slip))
    && AtLeastAsGood(d, ExitFill(d, v.LastTarget(), slip), leg.fill)
  }

  lemma BetweenFills(d: Direction, v: Levels, slip: real, price: real, weight: real)
    requires slip <= 1.0 && Between(d, v, price)
    ensures FilledBetween(d, v, slip, Leg(ExitFill(d, price, slip), weight))
  {
    ExitFillMonotone(d, price, v.sl, slip);
    ExitFillMonotone(d, v.LastTarget(), price, slip);
  }

  /** The close of a quiet bar is between the levels it was quiet for. */
  lemma QuietClose(d: Direction, bar: Candle, stop: real, target: real)
    requires ValidBar(bar) && Quiet(d, bar, stop, target)
    ensures AtLeastAsGood(d, bar.c, stop) && AtLeastAsGood(d, target, bar.c)
  {
  }

  lemma TimeoutBetween(bars: seq<Candle>, d: Direction, v: Levels, slip: real)
    requires |bars| > 0 && Ordered(d, v) && ValidBar(bars[|bars| - 1])
    requires ExitOf(bars, d, v, slip).result.Timeout?
    ensures Between(d, v, bars[|bars| - 1].c)
  {
    var a := FirstTouch(bars, 0, d, v.sl, v.FirstTarget());
    var last := bars[|bars| - 1];
    if a == |bars| {
      QuietClose(d, last, v.sl, v.FirstTarget());
    } else if a == |bars| - 1 {
      // The partial target was the last bar: neither stop nor second target.
      QuietClose(d, last, v.sl, v.tp2);
    } else {
      QuietClose(d, last, v.entry, v.tp2);
    }
  }

  lemma LegsBetween(bars: seq<Candle>, d: Direction, v: Levels, slip: real)
    requires |bars| > 0 && slip <= 1.0 && Ordered(d, v) && ValidBar(bars[|bars| - 1])
    ensures var legs := ExitOf(bars, d, v, slip).legs;
            forall k :: 0 <= k < |legs| ==> FilledBetween(d, v, slip, legs[k])
  {
    var x := ExitOf(bars, d, v, slip);
    LabelMatchesLegs(bars, d, v, slip);
    var w := x.legs[|x.legs| - 1].weight;
    if |x.legs| == 2 {
      BetweenFills(d, v, slip, v.tp1, 0.5);
    }
    BetweenFills(d, v, slip, v.sl, w);
    BetweenFills(d, v, slip, v.entry, w);
    BetweenFills(d, v, slip, v.LastTarget(), w);
    if x.result.Timeout? {
      TimeoutBetween(bars, d, v, slip);
      BetweenFills(d, v, slip, bars[|bars| - 1].c, w);
    }
  }

  /** Whatever the bars do, a trade with ordered levels never returns less than
      a full exit at its slipped original stop, and never more than a full exit
      at its slipped last target. */
  lemma GrossIsBracketed(bars: seq<Candle>, d: Direction, v: Levels, slip: real)
    requires |bars| > 0 && slip <= 1.0 && Ordered(d, v) && ValidBar(bars[|bars| - 1]) && v.entry > 0.0
    ensures var gross := Gross(d, ExitOf(bars, d, v, slip).legs, v.entry);
            Return(d, ExitFill(d, v.sl, slip), v.entry) <= gross
                <= Return(d, ExitFill(d, v.LastTarget(), slip), v.entry)
  {
    var legs := ExitOf(bars, d, v, slip).legs;
    LegsBetween(bars, d, v, slip);
    ExitClosesAll(bars, d, v, slip);
    GrossAtLeast(d, legs, v.entry, ExitFill(d, v.sl, slip));
    GrossAtMost(d, legs, v.entry, ExitFill(d, v.LastTarget(), slip));
  }
}

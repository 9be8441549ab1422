/** Slippage, fees and funding of bot/kucoin_execution_model.py, as fractions
    of the entry notional. */
module ExecutionCosts {
  import opened Arithmetic
  import opened Common

  datatype Direction = Long | Short

  /** A part of the position that was closed: its fill and its weight. */
  datatype Leg = Leg(fill: real, weight: real)

  datatype Settlement = Settlement(timepoint: int, rate: real)

  /** `adverse_fill`. */
  function AdverseFill(price: real, d: Direction, isEntry: bool, slippage: real): real {
    if price <= 0.0 then 0.0 else price * FillFactor(d, isEntry, slippage)
  }

  function FillFactor(d: Direction, isEntry: bool, slippage: real): real {
    if d.Long? == isEntry then 1.0 + MaxReal(0.0, slippage) else 1.0 - MaxReal(0.0, slippage)
  }

  /** What slippage does to each side of a trade: buyers pay it on top of the
      price, sellers have it taken off; a negative one counts as none. */
  lemma FillExactly(price: real, d: Direction, isEntry: bool, slippage: real)
    ensures var fill, slip := AdverseFill(price, d, isEntry, slippage), if slippage > 0.0 then slippage else 0.0;
            && (price <= 0.0 ==> fill == 0.0)
            && (price > 0.0 && (d == Long <==> isEntry) ==> fill == price + price * slip)
            && (price > 0.0 && !(d == Long <==> isEntry) ==> fill == price - price * slip)
  {
    var slip := if slippage > 0.0 then slippage else 0.0;
    if d.Long? == isEntry {
      assert price * (1.0 + slip) == price + price * slip;
    } else {
      assert price * (1.0 - slip) == price - price * slip;
    }
  }

  /** a is at least as good an exit price as b. */
  predicate AtLeastAsGood(d: Direction, a: real, b: real) {
    if d.Long? then a >= b else a <= b
  }

  lemma FillMonotone(a: real, b: real, d: Direction, isEntry: bool, slippage: real)
    requires a <= b && slippage <= 1.0
    ensures AdverseFill(a, d, isEntry, slippage) <= AdverseFill(b, d, isEntry, slippage)
  {
    var factor := FillFactor(d, isEntry, slippage);
    if a > 0.0 {
      MulMonotone(a, b, factor);
    } else if b > 0.0 {
      MulMonotone(0.0, b, factor);
    }
  }

  /** Slippage is adverse: a buy never pays less than the price and a sale
      never receives more. */
  lemma FillIsAdverse(price: real, d: Direction, isEntry: bool, slippage: real)
    requires price > 0.0
    ensures var fill := AdverseFill(price, d, isEntry, slippage);
            if d.Long? == isEntry then fill >= price else fill <= price
  {
    var factor := FillFactor(d, isEntry, slippage);
    var extra := factor - 1.0;
    assert price * factor == price + price * extra;
    if d.Long? == isEntry {
      assert price * extra >= 0.0;
    } else {
      assert price * -extra >= 0.0;
    }
  }

  /** Slippage keeps the order of exit prices. */
  lemma ExitFillMonotone(d: Direction, a: real, b: real, slippage: real)
    requires AtLeastAsGood(d, a, b) && slippage <= 1.0
    ensures AtLeastAsGood(d, AdverseFill(a, d, false, slippage), AdverseFill(b, d, false, slippage))
  {
    if d.Long? {
      FillMonotone(b, a, d, false, slippage);
    } else {
      FillMonotone(a, b, d, false, slippage);
    }
  }

  function TotalWeight(legs: seq<Leg>): real
    decreases |legs|
  {
    if |legs| == 0 then 0.0 else TotalWeight(legs[..|legs| - 1]) + legs[|legs| - 1].weight
  }

  function WeightedExit(legs: seq<Leg>): real
    decreases |legs|
  {
    if |legs| == 0 then 0.0
    else WeightedExit(legs[..|legs| - 1]) + legs[|legs| - 1].fill * legs[|legs| - 1].weight
  }

  /** The signed return of one fill on the entry. */
  function Return(d: Direction, fill: real, entry: real): real
    requires entry > 0.0
  {
    (if d.Long? then 1.0 else -1.0) * ((fill - entry) / entry)
  }

  function Gross(d: Direction, legs: seq<Leg>, entry: real): real
    requires entry > 0.0
    decreases |legs|
  {
    if |legs| == 0 then 0.0
    else Gross(d, legs[..|legs| - 1], entry) + Return(d, legs[|legs| - 1].fill, entry) * legs[|legs| - 1].weight
  }

  lemma ReturnMonotone(d: Direction, a: real, b: real, entry: real)
    requires entry > 0.0 && AtLeastAsGood(d, a, b)
    ensures Return(d, a, entry) >= Return(d, b, entry)
  {
    if d.Long? {
      QuotientMonotone(b - entry, a - entry, entry);
    } else {
      QuotientMonotone(a - entry, b - entry, entry);
    }
  }

  /** An amount is at least a rate on a whole weight. */
  predicate Covers(amount: real, rate: real, weight: real) {
    amount >= rate * weight
  }

  lemma CoversStep(before: real, after: real, total: real, own: real, bound: real, w: real)
    requires Covers(before, bound, total) && own >= bound && w >= 0.0 && after == before + own * w
    ensures Covers(after, bound, total + w)
  {
    MulMonotone(bound, own, w);
    Sum(total, w, bound);
  }

  /** Legs that all close at least as well as a price return at least what
      closing their whole weight at that price returns. */
  lemma {:induction false} GrossAtLeast(d: Direction, legs: seq<Leg>, entry: real, worst: real)
    requires entry > 0.0
    requires forall k :: 0 <= k < |legs| ==> legs[k].weight >= 0.0 && AtLeastAsGood(d, legs[k].fill, worst)
    ensures Covers(Gross(d, legs, entry), Return(d, worst, entry), TotalWeight(legs))
    decreases |legs|
  {
    if |legs| == 0 {
    } else {
      var n := |legs| - 1;
      GrossAtLeast(d, legs[..n], entry, worst);
      ReturnMonotone(d, legs[n].fill, worst, entry);
      CoversStep(Gross(d, legs[..n], entry), Gross(d, legs, entry), TotalWeight(legs[..n]),
                 Return(d, legs[n].fill, entry), Return(d, worst, entry), legs[n].weight);
    }
  }

  function Opposite(d: Direction): Direction {
    if d.Long? then Short else Long
  }

  lemma {:induction false} OppositeGross(d: Direction, legs: seq<Leg>, entry: real)
    requires entry > 0.0
    ensures Gross(Opposite(d), legs, entry) == -Gross(d, legs, entry)
    decreases |legs|
  {
    if |legs| == 0 {
    } else {
      var n := |legs| - 1;
      OppositeGross(d, legs[..n], entry);
      Negated(Return(d, legs[n].fill, entry), legs[n].weight);
    }
  }

  lemma Negated(x: real, y: real)
    ensures (-x) * y == -(x * y)
  {
  }

  /** And at most what closing at the best of their prices returns. */
  lemma GrossAtMost(d: Direction, legs: seq<Leg>, entry: real, best: real)
    requires entry > 0.0
    requires forall k :: 0 <= k < |legs| ==> legs[k].weight >= 0.0 && AtLeastAsGood(d, best, legs[k].fill)
    ensures Covers(-Gross(d, legs, entry), -Return(d, best, entry), TotalWeight(legs))
  {
    GrossAtLeast(Opposite(d), legs, entry, best);
    OppositeGross(d, legs, entry);
    assert Return(Opposite(d), best, entry) == -Return(d, best, entry);
  }

  /** `fee_return_fraction`. */
  function Fees(entry: real, legs: seq<Leg>, feeRate: real): real {
    if entry <= 0.0 then 0.0 else MaxReal(0.0, feeRate) + LegFees(entry, legs, MaxReal(0.0, feeRate))
  }

  function LegFees(entry: real, legs: seq<Leg>, fee: real): real
    requires entry > 0.0
    decreases |legs|
  {
    if |legs| == 0 then 0.0
    else
      var n := |legs| - 1;
      LegFees(entry, legs[..n], fee) + LegFee(legs[n], entry, fee)
  }

  function LegFee(leg: Leg, entry: real, fee: real): real
    requires entry > 0.0
  {
    if leg.fill > 0.0 && leg.weight > 0.0 then fee * (leg.fill / entry) * leg.weight else 0.0
  }

  /** The entry costs one fee of the whole, and every further leg with a price
      and a weight one of its own notional; a negative rate counts as none. */
  lemma FeesByLegs(entry: real, legs: seq<Leg>, leg: Leg, feeRate: real)
    ensures var fee := if feeRate > 0.0 then feeRate else 0.0;
            && (entry <= 0.0 ==> Fees(entry, legs, feeRate) == 0.0)
            && (entry > 0.0 ==> Fees(entry, [], feeRate) == fee)
            && (entry > 0.0 && (leg.fill <= 0.0 || leg.weight <= 0.0) ==>
                  Fees(entry, legs + [leg], feeRate) == Fees(entry, legs, feeRate))
            && (entry > 0.0 && leg.fill > 0.0 && leg.weight > 0.0 ==>
                  Fees(entry, legs + [leg], feeRate)
                  == Fees(entry, legs, feeRate) + fee * (leg.fill / entry) * leg.weight)
  {
    assert (legs + [leg])[..|legs|] == legs;
  }

  /** The fee of closing at one price. */
  function ExitFee(exit: real, entry: real, fee: real): real
    requires entry > 0.0
  {
    fee * (exit / entry)
  }

  method FeeFraction(entry: real, legs: seq<Leg>, feeRate: real) returns (total: real)
    ensures total == Fees(entry, legs, feeRate)
  {
    var fee := MaxReal(0.0, feeRate);
    if entry <= 0.0 {
      return 0.0;
    }
    total := fee;
    var k := 0;
    while k < |legs|
      invariant 0 <= k <= |legs|
      invariant total == fee + LegFees(entry, legs[..k], fee)
    {
      assert legs[..k + 1][..k] == legs[..k];
      if legs[k].fill > 0.0 && legs[k].weight > 0.0 {
        total := total + fee * (legs[k].fill / entry) * legs[k].weight;
      }
      k := k + 1;
    }
    assert legs[..k] == legs;
  }

  lemma Product(x: real, y: real, z: real)
    ensures (x - 1.0) * y == x * y - y
    ensures z * (x * y) == z * x * y
  {
  }

  lemma Sum(x: real, y: real, z: real)
    ensures z * (x + y) == z * x + z * y
  {
  }

  lemma QuotientStep(exit: real, fill: real, weight: real, entry: real)
    requires entry > 0.0
    ensures (exit + fill * weight) / entry == exit / entry + (fill / entry) * weight
    ensures (fill - entry) / entry == fill / entry - 1.0
  {
    var x, y := exit / entry, fill / entry;
    assert x * entry == exit && y * entry == fill;
    var z := y * weight;
    assert z * entry == fill * weight;
    Quotient(x + z, exit + fill * weight, entry);
    Quotient(y - 1.0, fill - entry, entry);
  }

  /** The return of legs does not depend on how they are split: it is that of
      one exit of the whole weight at the weighted price. */
  lemma {:induction false} GrossActsAsOne(d: Direction, legs: seq<Leg>, entry: real)
    requires entry > 0.0
    ensures Gross(d, legs, entry) == (if d.Long? then 1.0 else -1.0) * (WeightedExit(legs) / entry - TotalWeight(legs))
    decreases |legs|
  {
    if |legs| == 0 {
      Quotient(0.0, 0.0, entry);
    } else {
      var n := |legs| - 1;
      GrossActsAsOne(d, legs[..n], entry);
      QuotientStep(WeightedExit(legs[..n]), legs[n].fill, legs[n].weight, entry);
      Product(legs[n].fill / entry, legs[n].weight, 1.0);
    }
  }

  lemma FeeStep(exit: real, leg: Leg, entry: real, fee: real)
    requires entry > 0.0 && leg.fill >= 0.0 && leg.weight >= 0.0
    ensures ExitFee(exit + leg.fill * leg.weight, entry, fee) == ExitFee(exit, entry, fee) + LegFee(leg, entry, fee)
  {
    var ratio := leg.fill / entry;
    QuotientStep(exit, leg.fill, leg.weight, entry);
    Sum(exit / entry, ratio * leg.weight, fee);
    Product(ratio, leg.weight, fee);
    if leg.fill == 0.0 {
      Quotient(0.0, 0.0, entry);
    }
  }

  /** Nor do the fees: they are those of the weighted exit price. */
  lemma {:induction false} FeesActAsOne(legs: seq<Leg>, entry: real, fee: real)
    requires entry > 0.0 && forall k :: 0 <= k < |legs| ==> legs[k].fill >= 0.0 && legs[k].weight >= 0.0
    ensures LegFees(entry, legs, fee) == ExitFee(WeightedExit(legs), entry, fee)
    decreases |legs|
  {
    if |legs| == 0 {
      Quotient(0.0, 0.0, entry);
    } else {
      var n := |legs| - 1;
      FeesActAsOne(legs[..n], entry, fee);
      FeeStep(WeightedExit(legs[..n]), legs[n], entry, fee);
    }
  }

  // ---- Funding ----

  /** The time a position was held, and when half of it had left. */
  datatype Holding = Holding(direction: Direction, entryTs: int, exitTs: int, entry: real, partialAfter: Option<int>)

  /** The proxy price of a settlement, falling back to the entry price. */
  function Mark(price: real, entry: real): real {
    if price <= 0.0 then entry else price
  }

  predicate Charged(s: Settlement, h: Holding) {
    h.entryTs < s.timepoint <= h.exitTs
  }

  /** A positive rate is paid by the long side; half the position is gone
      after a partial exit. */
  function Charge(s: Settlement, h: Holding, price: real): real
    requires h.entry > 0.0
  {
    var whole := s.rate * (Mark(price, h.entry) / h.entry);
    var signed := if h.direction.Long? then -whole else whole;
    if h.partialAfter.Some? && s.timepoint > h.partialAfter.value then signed * 0.5 else signed
  }

  /** `funding_return_fraction`: the sum and the number of the charges. */
  function Funding(events: seq<Settlement>, h: Holding, priceAt: int -> real): (real, nat)
    requires h.entry > 0.0
    decreases |events|
  {
    if |events| == 0 then (0.0, 0)
    else
      var s := events[|events| - 1];
      var before := Funding(events[..|events| - 1], h, priceAt);
      Accrued(before, s, h, priceAt(s.timepoint))
  }

  function Accrued(before: (real, nat), s: Settlement, h: Holding, price: real): (real, nat)
    requires h.entry > 0.0
  {
    if Charged(s, h) then (before.0 + Charge(s, h, price), before.1 + 1) else before
  }

  /** One more settlement, within the holding or at its end but not at its
      beginning, is paid by a long and received by a short, on the price then
      or else the entry price, and halved once half of the position has left. */
  lemma FundingBySettlement(events: seq<Settlement>, s: Settlement, h: Holding, f: int -> real)
    requires h.entry > 0.0
    ensures Funding([], h, f) == (0.0, 0)
    ensures var before, after := Funding(events, h, f), Funding(events + [s], h, f);
            var mark := if f(s.timepoint) > 0.0 then f(s.timepoint) else h.entry;
            var weight := if h.partialAfter.Some? && h.partialAfter.value < s.timepoint then 0.5 else 1.0;
            && (h.entryTs < s.timepoint <= h.exitTs ==>
                  && after.1 == before.1 + 1
                  && after.0 == before.0 + (if h.direction == Long then -1.0 else 1.0)
                                           * (s.rate * (mark / h.entry)) * weight)
            && (s.timepoint <= h.entryTs || s.timepoint > h.exitTs ==> after == before)
  {
    assert (events + [s])[..|events|] == events;
  }

  method FundingFraction(events: seq<Settlement>, h: Holding, priceAt: int -> real) returns (total: real, count: nat)
    ensures h.entry > 0.0 ==> (total, count) == Funding(events, h, priceAt)
    ensures h.entry <= 0.0 ==> total == 0.0 && count == 0
  {
    total, count := 0.0, 0;
    if h.entry <= 0.0 || h.exitTs <= h.entryTs {
      if h.entry > 0.0 {
        NothingCharged(events, h, priceAt);
      }
      return;
    }
    var k := 0;
    while k < |events|
      invariant 0 <= k <= |events|
      invariant (total, count) == Funding(events[..k], h, priceAt)
    {
      assert events[..k + 1][..k] == events[..k];
      if Charged(events[k], h) {
        total := total + Charge(events[k], h, priceAt(events[k].timepoint));
        count := count + 1;
      }
      k := k + 1;
    }
    assert events[..k] == events;
  }

  lemma {:induction false} NothingCharged(events: seq<Settlement>, h: Holding, priceAt: int -> real)
    requires h.entry > 0.0 && h.exitTs <= h.entryTs
    ensures Funding(events, h, priceAt) == (0.0, 0)
    decreases |events|
  {
    if |events| == 0 {
    } else {
      NothingCharged(events[..|events| - 1], h, priceAt);
    }
  }

  /** The settlements up to an instant. */
  function Until(events: seq<Settlement>, last: int): seq<Settlement>
    decreases |events|
  {
    if |events| == 0 then []
    else
      var n := |events| - 1;
      Until(events[..n], last) + (if events[n].timepoint <= last then [events[n]] else [])
  }

  lemma FundingAppend(events: seq<Settlement>, s: Settlement, h: Holding, f: int -> real)
    requires h.entry > 0.0
    ensures Funding(events + [s], h, f)
            == Accrued(Funding(events, h, f), s, h, f(s.timepoint))
  {
    assert (events + [s])[..|events|] == events;
  }

  /** Funding depends on nothing after the exit: neither on later settlements
      nor on the price function at later instants. */
  lemma {:induction false} FundingIsLocal(events: seq<Settlement>, h: Holding, f: int -> real, g: int -> real,
          last: int)
    requires h.entry > 0.0 && h.exitTs <= last
    requires forall k :: 0 <= k < |events| && events[k].timepoint <= h.exitTs ==>
             f(events[k].timepoint) == g(events[k].timepoint)
    ensures Funding(events, h, f) == Funding(Until(events, last), h, g)
    decreases |events|
  {
    if |events| == 0 {
    } else {
      var n := |events| - 1;
      var s, before := events[n], Until(events[..n], last);
      FundingIsLocal(events[..n], h, f, g, last);
      SameAccrual(Funding(events[..n], h, f), s, h, f(s.timepoint), g(s.timepoint));
      if s.timepoint <= last {
        FundingAppend(before, s, h, g);
      } else {
        assert before + [] == before;
      }
    }
  }

  lemma SameAccrual(before: (real, nat), s: Settlement, h: Holding, p: real, q: real)
    requires h.entry > 0.0 && (s.timepoint <= h.exitTs ==> p == q)
    ensures Accrued(before, s, h, p) == Accrued(before, s, h, q)
    ensures s.timepoint > h.exitTs ==> Accrued(before, s, h, p) == before
  {
  }

  /** Funding moves money between the sides: what a long pays a short over the
      same time receives. */
  lemma {:induction false} FundingIsZeroSum(events: seq<Settlement>, h: Holding, f: int -> real)
    requires h.entry > 0.0
    ensures var other := Funding(events, h.(direction := Opposite(h.direction)), f);
            Funding(events, h, f).0 + other.0 == 0.0 && Funding(events, h, f).1 == other.1
    decreases |events|
  {
    if |events| == 0 {
    } else {
      var s := events[|events| - 1];
      FundingIsZeroSum(events[..|events| - 1], h, f);
      OppositeCharge(s, h, f(s.timepoint));
    }
  }

  lemma OppositeCharge(s: Settlement, h: Holding, price: real)
    requires h.entry > 0.0
    ensures Charge(s, h.(direction := Opposite(h.direction)), price) == -Charge(s, h, price)
  {
  }

  /** While no rate is negative a long position never receives funding, and
      pays as soon as one charge is positive. */
  lemma {:induction false} LongPaysPositiveRates(events: seq<Settlement>, h: Holding, f: int -> real)
    requires h.entry > 0.0 && h.direction.Long? && forall k :: 0 <= k < |events| ==> events[k].rate >= 0.0
    ensures Funding(events, h, f).0 <= 0.0
    ensures (exists k :: 0 <= k < |events| && Charged(events[k], h) && events[k].rate > 0.0)
            <==> Funding(events, h, f).0 < 0.0
    decreases |events|
  {
    if |events| == 0 {
    } else {
      var n := |events| - 1;
      LongPaysPositiveRates(events[..n], h, f);
      ChargeOfLong(events[n], h, f(events[n].timepoint));
      assert forall k :: 0 <= k < n ==> events[..n][k] == events[k];
    }
  }

  lemma ChargeOfLong(s: Settlement, h: Holding, price: real)
    requires h.entry > 0.0 && h.direction.Long? && s.rate >= 0.0
    ensures Charge(s, h, price) <= 0.0 && (s.rate > 0.0 <==> Charge(s, h, price) < 0.0)
  {
    var ratio := Mark(price, h.entry) / h.entry;
    assert ratio * h.entry == Mark(price, h.entry) > 0.0;
    Positive(ratio, h.entry);
    assert s.rate > 0.0 ==> s.rate * ratio > 0.0;
  }
}

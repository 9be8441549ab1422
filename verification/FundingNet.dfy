/** Funding of one trade grouped by instant: what matters of the settlements at
    one instant is their net rate and the price proxy there. */
module FundingNet {
  import opened Arithmetic
  import opened ExecutionCosts

  /** The sum of the rates settled at an instant. */
  function NetRate(events: seq<Settlement>, at: int): real
    decreases |events|
  {
    if |events| == 0 then 0.0
    else
      var s := events[|events| - 1];
      NetRate(events[..|events| - 1], at) + (if s.timepoint == at then s.rate else 0.0)
  }

  /** Every instant from one to another nets to zero. */
  ghost predicate Balanced(events: seq<Settlement>, from: int, last: int) {
    forall at :: from <= at <= last ==> NetRate(events, at) == 0.0
  }

  /** The settlements at all other instants. */
  function Without(events: seq<Settlement>, at: int): seq<Settlement>
    decreases |events|
  {
    if |events| == 0 then []
    else
      var n := |events| - 1;
      Without(events[..n], at) + (if events[n].timepoint == at then [] else [events[n]])
  }

  lemma {:induction false} WithoutMeans(events: seq<Settlement>, at: int)
    ensures forall s :: s in Without(events, at) <==> s in events && s.timepoint != at
    ensures |Without(events, at)| <= |events|
    decreases |events|
  {
    if |events| == 0 {
    } else {
      var n := |events| - 1;
      WithoutMeans(events[..n], at);
      assert forall s :: s in events <==> s in events[..n] || s == events[n];
    }
  }

  lemma {:induction false} WithoutShrinks(events: seq<Settlement>, at: int, s: Settlement)
    requires s in events && s.timepoint == at
    ensures |Without(events, at)| < |events|
    decreases |events|
  {
    var n := |events| - 1;
    WithoutMeans(events[..n], at);
    if events[n].timepoint != at {
      assert s in events[..n];
      WithoutShrinks(events[..n], at, s);
    }
  }

  function CountAt(events: seq<Settlement>, at: int): nat
    decreases |events|
  {
    if |events| == 0 then 0
    else CountAt(events[..|events| - 1], at) + (if events[|events| - 1].timepoint == at then 1 else 0)
  }

  /** The charge per unit of rate. */
  function Unit(h: Holding, at: int, price: real): real
    requires h.entry > 0.0
  {
    Charge(Settlement(at, 1.0), h, price)
  }

  /** What an instant with this net rate costs or brings. */
  function Share(h: Holding, at: int, price: real, net: real): real
    requires h.entry > 0.0
  {
    Unit(h, at, price) * net
  }

  lemma ChargeIsShare(s: Settlement, h: Holding, price: real)
    requires h.entry > 0.0
    ensures Charge(s, h, price) == Share(h, s.timepoint, price, s.rate)
  {
  }

  lemma ShareAdds(h: Holding, at: int, price: real, x: real, y: real)
    requires h.entry > 0.0
    ensures Share(h, at, price, x + y) == Share(h, at, price, x) + Share(h, at, price, y)
    ensures Share(h, at, price, 0.0) == 0.0
  {
    var u := Unit(h, at, price);
    assert u * (x + y) == u * x + u * y;
  }

  lemma WithoutLast(events: seq<Settlement>, at: int)
    requires |events| > 0
    ensures var n := |events| - 1;
            Without(events, at) ==
            if events[n].timepoint == at then Without(events[..n], at) else Without(events[..n], at) + [events[n]]
  {
    assert Without(events[..|events| - 1], at) + [] == Without(events[..|events| - 1], at);
  }

  /** The funding of all but one instant, and of that instant. */
  lemma {:induction false} ByInstant(events: seq<Settlement>, h: Holding, f: int -> real, at: int)
    requires h.entry > 0.0 && h.entryTs < at <= h.exitTs
    ensures Funding(events, h, f).0 == Funding(Without(events, at), h, f).0 + Share(h, at, f(at), NetRate(events, at))
    ensures Funding(events, h, f).1 == Funding(Without(events, at), h, f).1 + CountAt(events, at)
    decreases |events|
  {
    if |events| == 0 {
      ShareAdds(h, at, f(at), 0.0, 0.0);
    } else {
      var n := |events| - 1;
      var s := events[n];
      ByInstant(events[..n], h, f, at);
      WithoutLast(events, at);
      if s.timepoint == at {
        ChargeIsShare(s, h, f(at));
        ShareAdds(h, at, f(at), NetRate(events[..n], at), s.rate);
      } else {
        FundingAppend(Without(events[..n], at), s, h, f);
      }
    }
  }

  lemma NetAppend(events: seq<Settlement>, s: Settlement, at: int)
    ensures NetRate(events + [s], at) == NetRate(events, at) + (if s.timepoint == at then s.rate else 0.0)
  {
    assert (events + [s])[..|events|] == events;
  }

  lemma {:induction false} NetElsewhere(events: seq<Settlement>, at: int, other: int)
    requires at != other
    ensures NetRate(Without(events, at), other) == NetRate(events, other)
    decreases |events|
  {
    if |events| == 0 {
    } else {
      var n := |events| - 1;
      NetElsewhere(events[..n], at, other);
      WithoutLast(events, at);
      NetAppend(Without(events[..n], at), events[n], other);
    }
  }

  lemma {:induction false} SamePrices(events: seq<Settlement>, h: Holding, f: int -> real, g: int -> real)
    requires h.entry > 0.0 && forall s :: s in events && Charged(s, h) ==> f(s.timepoint) == g(s.timepoint)
    ensures Funding(events, h, f) == Funding(events, h, g)
    decreases |events|
  {
    if |events| == 0 {
    } else {
      var n := |events| - 1;
      assert forall s :: s in events[..n] ==> s in events;
      assert events[n] in events;
      SamePrices(events[..n], h, f, g);
    }
  }

  /** The proxies agree at every instant within the trade that does not net
      to zero. */
  ghost predicate AgreeWhereItCounts(events: seq<Settlement>, h: Holding, f: int -> real, g: int -> real) {
    forall s :: s in events && Charged(s, h) ==> f(s.timepoint) == g(s.timepoint) || NetRate(events, s.timepoint) == 0.0
  }

  lemma AgreeWithout(events: seq<Settlement>, h: Holding, f: int -> real, g: int -> real, at: int)
    requires forall s :: s in events && Charged(s, h) && s.timepoint != at ==>
                           f(s.timepoint) == g(s.timepoint) || NetRate(events, s.timepoint) == 0.0
    ensures AgreeWhereItCounts(Without(events, at), h, f, g)
  {
    WithoutMeans(events, at);
    forall r | r in Without(events, at) && Charged(r, h)
      ensures f(r.timepoint) == g(r.timepoint) || NetRate(Without(events, at), r.timepoint) == 0.0
    {
      NetElsewhere(events, at, r.timepoint);
    }
  }

  /** Then they fund it alike. */
  lemma {:induction false} SameWhereNetted(events: seq<Settlement>, h: Holding, f: int -> real, g: int -> real)
    requires h.entry > 0.0 && AgreeWhereItCounts(events, h, f, g)
    ensures Funding(events, h, f) == Funding(events, h, g)
    decreases |events|
  {
    if s :| s in events && Charged(s, h) && f(s.timepoint) != g(s.timepoint) {
      var at := s.timepoint;
      WithoutShrinks(events, at, s);
      AgreeWithout(events, h, f, g, at);
      SameWhereNetted(Without(events, at), h, f, g);
      ByInstant(events, h, f, at);
      ByInstant(events, h, g, at);
      ShareAdds(h, at, f(at), 0.0, 0.0);
      ShareAdds(h, at, g(at), 0.0, 0.0);
    } else {
      SamePrices(events, h, f, g);
    }
  }

  /** And they fund it differently when they differ at one such instant alone. */
  lemma DiffersAtOneInstant(events: seq<Settlement>, h: Holding, f: int -> real, g: int -> real, at: int)
    requires h.entry > 0.0 && h.entryTs < at <= h.exitTs && NetRate(events, at) != 0.0
    requires f(at) > 0.0 && g(at) > 0.0 && f(at) != g(at)
    requires forall s :: s in events && Charged(s, h) && s.timepoint != at ==>
                           f(s.timepoint) == g(s.timepoint) || NetRate(events, s.timepoint) == 0.0
    ensures Funding(events, h, f).0 != Funding(events, h, g).0
  {
    AgreeWithout(events, h, f, g, at);
    SameWhereNetted(Without(events, at), h, f, g);
    ByInstant(events, h, f, at);
    ByInstant(events, h, g, at);
    DifferentShares(h, at, f(at), g(at), NetRate(events, at));
  }

  lemma DifferentShares(h: Holding, at: int, x: real, y: real, net: real)
    requires h.entry > 0.0 && x > 0.0 && y > 0.0 && x != y && net != 0.0
    ensures Share(h, at, x, net) != Share(h, at, y, net)
  {
    var u, v := Unit(h, at, x), Unit(h, at, y);
    DifferentUnits(h, at, x, y);
    NotZero(u - v, net);
    assert (u - v) * net == u * net - v * net;
  }

  lemma DifferentUnits(h: Holding, at: int, x: real, y: real)
    requires h.entry > 0.0 && x > 0.0 && y > 0.0 && x != y
    ensures Unit(h, at, x) != Unit(h, at, y)
  {
    var u, v := x / h.entry, y / h.entry;
    assert u * h.entry == x && v * h.entry == y;
    assert u != v;
  }

  /** The last instant up to a limit that does not net to zero. */
  lemma {:induction false} LastUnnetted(events: seq<Settlement>, some: int, limit: int) returns (last: int)
    requires some <= limit && NetRate(events, some) != 0.0
    ensures some <= last <= limit && NetRate(events, last) != 0.0 && Balanced(events, last + 1, limit)
    decreases limit - some
  {
    if NetRate(events, limit) != 0.0 {
      last := limit;
    } else {
      last := LastUnnetted(events, some, limit - 1);
    }
  }
}

/** What confirmed closes do to the sum of the ledger of
    bot/durable_daily_pnl.py, and when a close contradicts it. */
module PnlConservation {
  import opened Common
  import opened LedgerStorage
  import opened DailyPnl
  import opened PnlReconcile

  // ---- Conservation ----

  /** The tokens of the estimates that some close matches. */
  ghost function MatchedTokens(plan: Plan, cs: seq<Close>): set<Token> {
    set c | c in cs && c in plan :: plan[c].estimate
  }

  /** The confirmed PnL of the matching closes, each counted once. */
  ghost function ConfirmedSum(plan: Plan, cs: seq<Close>): real
    decreases |cs|
  {
    if |cs| == 0 then 0.0
    else
      var rest, c := cs[..|cs| - 1], cs[|cs| - 1];
      ConfirmedSum(plan, rest) + (if c !in rest && c in plan && c.pnl.Some? then c.pnl.value else 0.0)
  }

  /** Different closes confirm different estimates. */
  ghost predicate DistinctMatches(plan: Plan, cs: seq<Close>) {
    forall c, d :: c in cs && d in cs && c in plan && d in plan && c != d ==> plan[c].estimate != plan[d].estimate
  }

  /** Each adjustment is confirmed minus estimated, under a token not in use. */
  ghost predicate PlanBalances(rows: Rows, plan: Plan) {
    forall c :: c in plan ==>
      && c.pnl.Some? && plan[c].estimate in rows && AdjustmentToken(c) !in rows
      && PnlOf(plan[c].value) == c.pnl.value - PnlOf(rows[plan[c].estimate])
  }

  /** What matching an estimate again adds to the corrections: the estimate of
      every close whose estimate an earlier close of the batch matched. */
  ghost function Surplus(rows: Rows, plan: Plan, cs: seq<Close>): real
    decreases |cs|
  {
    if |cs| == 0 then 0.0
    else
      var rest, c := cs[..|cs| - 1], cs[|cs| - 1];
      Surplus(rows, plan, rest) + (if MatchesAgain(rows, plan, rest, c) then PnlOf(rows[plan[c].estimate]) else 0.0)
  }

  /** A new close of the batch that matches an estimate matched before. */
  ghost predicate MatchesAgain(rows: Rows, plan: Plan, rest: seq<Close>, c: Close) {
    c !in rest && c in plan && plan[c].estimate in rows && plan[c].estimate in MatchedTokens(plan, rest)
  }

  lemma {:induction false} PlannedConserves(rows: Rows, plan: Plan, cs: seq<Close>)
    requires Consistent(rows, plan, cs) && PlanBalances(rows, plan)
    ensures Total(Planned(rows, plan, cs))
            == Total(rows - MatchedTokens(plan, cs)) + ConfirmedSum(plan, cs) - Surplus(rows, plan, cs)
    decreases |cs|
  {
    if |cs| == 0 {
      assert rows - MatchedTokens(plan, cs) == rows;
    } else {
      var rest, c := cs[..|cs| - 1], cs[|cs| - 1];
      assert cs == rest + [c];
      assert forall d :: d in cs <==> d in rest || d == c;
      PlannedConserves(rows, plan, rest);
      PlannedIsAdjusted(rows, plan, rest);
      OneMore(rows, plan, rest, c);
      if c in plan && c !in rest {
        ConserveOne(rows, plan, rest, c, Planned(rows, plan, rest));
      }
    }
  }

  lemma PlannedAppend(rows: Rows, plan: Plan, rest: seq<Close>, c: Close)
    ensures Planned(rows, plan, rest + [c]) ==
            if c in plan then Planned(rows, plan, rest)[AdjustmentToken(c) := plan[c].value]
            else Planned(rows, plan, rest)
  {
    assert (rest + [c])[..|rest|] == rest;
  }

  lemma ConfirmedAppend(plan: Plan, rest: seq<Close>, c: Close)
    ensures ConfirmedSum(plan, rest + [c]) ==
            ConfirmedSum(plan, rest) + (if c !in rest && c in plan && c.pnl.Some? then c.pnl.value else 0.0)
  {
    assert (rest + [c])[..|rest|] == rest;
  }

  /** A close given again, or one that matches nothing, adds nothing. */
  lemma OneMore(rows: Rows, plan: Plan, rest: seq<Close>, c: Close)
    requires IsAdjusted(Planned(rows, plan, rest), rows, plan, rest) && (c in plan ==> c.pnl.Some?)
    ensures var before := Planned(rows, plan, rest);
            if c in plan && c !in rest then
              && Planned(rows, plan, rest + [c]) == before[AdjustmentToken(c) := plan[c].value]
              && ConfirmedSum(plan, rest + [c]) == ConfirmedSum(plan, rest) + c.pnl.value
              && MatchedTokens(plan, rest + [c]) == MatchedTokens(plan, rest) + {plan[c].estimate}
            else
              && Planned(rows, plan, rest + [c]) == before
              && ConfirmedSum(plan, rest + [c]) == ConfirmedSum(plan, rest)
              && MatchedTokens(plan, rest + [c]) == MatchedTokens(plan, rest)
  {
    PlannedAppend(rows, plan, rest, c);
    ConfirmedAppend(plan, rest, c);
    MatchedOneMore(plan, rest, c);
    if c in plan && c in rest {
      Rewriting(Planned(rows, plan, rest), AdjustmentToken(c), plan[c].value);
    }
  }

  lemma Rewriting(rows: Rows, t: Token, e: Event)
    requires t in rows && rows[t] == e
    ensures rows[t := e] == rows
  {
  }

  lemma MatchedOneMore(plan: Plan, rest: seq<Close>, c: Close)
    ensures MatchedTokens(plan, rest + [c])
            == MatchedTokens(plan, rest) + (if c in plan then {plan[c].estimate} else {})
    ensures c in rest ==> MatchedTokens(plan, rest + [c]) == MatchedTokens(plan, rest)
  {
    assert forall d :: d in rest + [c] <==> d in rest || d == c;
    assert MatchedTokens(plan, rest + [c])
           == MatchedTokens(plan, rest) + (if c in plan then {plan[c].estimate} else {});
  }

  lemma ConserveOne(rows: Rows, plan: Plan, rest: seq<Close>, c: Close, before: Rows)
    requires Consistent(rows, plan, rest + [c]) && PlanBalances(rows, plan)
    requires c !in rest && c in plan && IsAdjusted(before, rows, plan, rest)
    ensures var estimate, m := plan[c].estimate, MatchedTokens(plan, rest);
            && Total(before[AdjustmentToken(c) := plan[c].value]) == Total(before) + c.pnl.value - PnlOf(rows[estimate])
            && (estimate in m ==> m + {estimate} == m)
            && (estimate !in m ==> Total(rows - m) == Total(rows - (m + {estimate})) + PnlOf(rows[estimate]))
  {
    assert forall d :: d in rest + [c] <==> d in rest || d == c;
    assert AdjustmentToken(c) !in before;
    TotalAdded(before, AdjustmentToken(c), plan[c].value);
    if plan[c].estimate !in MatchedTokens(plan, rest) {
      UnmatchedOneLess(rows, MatchedTokens(plan, rest), plan[c].estimate);
    }
  }

  lemma UnmatchedOneLess(rows: Rows, m: set<Token>, estimate: Token)
    requires estimate in rows && estimate !in m
    ensures Total(rows - m) == Total(rows - (m + {estimate})) + PnlOf(rows[estimate])
  {
    TotalWithout(rows - m, estimate);
    assert rows - m - {estimate} == rows - (m + {estimate});
  }

  /** What closes confirm for the first time, each counted once: confirmed
      minus estimated for every matching close the ledger has no record of. */
  ghost function Corrections(rows: Rows, plan: Plan, cs: seq<Close>): real
    decreases |cs|
  {
    if |cs| == 0 then 0.0
    else
      var rest, c := cs[..|cs| - 1], cs[|cs| - 1];
      Corrections(rows, plan, rest)
      + (if c !in rest && c in plan && AdjustmentToken(c) !in rows then PnlOf(plan[c].value) else 0.0)
  }

  lemma {:induction false} PlannedCorrects(rows: Rows, plan: Plan, cs: seq<Close>)
    requires Consistent(rows, plan, cs)
    ensures Total(Planned(rows, plan, cs)) == Total(rows) + Corrections(rows, plan, cs)
    decreases |cs|
  {
    if |cs| == 0 {
    } else {
      var rest, c := cs[..|cs| - 1], cs[|cs| - 1];
      assert cs == rest + [c];
      assert forall d :: d in cs <==> d in rest || d == c;
      PlannedCorrects(rows, plan, rest);
      PlannedIsAdjusted(rows, plan, rest);
      PlannedAppend(rows, plan, rest, c);
      if c in plan {
        CorrectOne(rows, plan, rest, c, Planned(rows, plan, rest));
      }
    }
  }

  lemma CorrectOne(rows: Rows, plan: Plan, rest: seq<Close>, c: Close, before: Rows)
    requires Consistent(rows, plan, rest + [c]) && c in plan && IsAdjusted(before, rows, plan, rest)
    ensures Total(before[AdjustmentToken(c) := plan[c].value])
            == Total(before) + (if c !in rest && AdjustmentToken(c) !in rows then PnlOf(plan[c].value) else 0.0)
  {
    assert forall d :: d in rest + [c] <==> d in rest || d == c;
    if c in rest || AdjustmentToken(c) in rows {
      Rewriting(before, AdjustmentToken(c), plan[c].value);
    } else {
      assert AdjustmentToken(c) !in before;
      TotalAdded(before, AdjustmentToken(c), plan[c].value);
    }
  }

  /** Whatever the closes match, and whatever is recorded already, the ledger
      grows by confirmed minus estimated of every newly confirmed close. */
  lemma LedgerIsCorrected(rows: Rows, cs: seq<Close>)
    requires WellKeyed(rows) && Consistent(rows, PlanOf(rows, cs), cs)
    ensures Total(AppliedAll(rows, cs)) == Total(rows) + Corrections(rows, PlanOf(rows, cs), cs)
    ensures forall c :: c in PlanOf(rows, cs) ==>
                          && c.pnl.Some? && Matched(rows, c).value in rows
                          && PnlOf(PlanOf(rows, cs)[c].value) == c.pnl.value - PnlOf(rows[Matched(rows, c).value])
  {
    AppliedIsPlanned(rows, cs);
    PlannedCorrects(rows, PlanOf(rows, cs), cs);
    forall c | c in PlanOf(rows, cs)
      ensures c.pnl.Some? && Matched(rows, c).value in rows
      ensures PnlOf(Adjustment(rows, c)) == c.pnl.value - PnlOf(rows[Matched(rows, c).value])
    {
      MatchIsEstimate(rows, c);
      AdjustmentSource(rows, c);
    }
  }

  /** Conservation: once the closes are applied, in whatever order and however
      often, the ledger sums to the events no close matched plus the confirmed
      PnL of the closes that matched, if and only if the estimates matched
      again sum to zero; otherwise it is off by exactly these. */
  lemma ConservationExactly(rows: Rows, cs: seq<Close>)
    requires WellKeyed(rows) && Consistent(rows, PlanOf(rows, cs), cs)
    requires forall c :: c in cs && Matched(rows, c).Some? ==> AdjustmentToken(c) !in rows
    ensures var plan := PlanOf(rows, cs);
            var due := Total(rows - MatchedTokens(plan, cs)) + ConfirmedSum(plan, cs);
            && Total(AppliedAll(rows, cs)) == due - Surplus(rows, plan, cs)
            && (Total(AppliedAll(rows, cs)) == due <==> Surplus(rows, plan, cs) == 0.0)
  {
    AppliedIsPlanned(rows, cs);
    PlanOfBalances(rows, cs);
    PlannedConserves(rows, PlanOf(rows, cs), cs);
  }

  lemma {:induction false} DistinctHaveNoSurplus(rows: Rows, plan: Plan, cs: seq<Close>)
    requires DistinctMatches(plan, cs)
    ensures Surplus(rows, plan, cs) == 0.0
    decreases |cs|
  {
    if |cs| == 0 {
    } else {
      var rest, c := cs[..|cs| - 1], cs[|cs| - 1];
      assert cs == rest + [c];
      assert forall d :: d in cs <==> d in rest || d == c;
      DistinctHaveNoSurplus(rows, plan, rest);
    }
  }

  /** In particular when distinct closes match distinct estimates. */
  lemma Conservation(rows: Rows, cs: seq<Close>)
    requires var plan := PlanOf(rows, cs);
             WellKeyed(rows) && Consistent(rows, plan, cs) && DistinctMatches(plan, cs)
    requires forall c :: c in cs && Matched(rows, c).Some? ==> AdjustmentToken(c) !in rows
    ensures var plan := PlanOf(rows, cs);
            Total(AppliedAll(rows, cs)) == Total(rows - MatchedTokens(plan, cs)) + ConfirmedSum(plan, cs)
  {
    ConservationExactly(rows, cs);
    DistinctHaveNoSurplus(rows, PlanOf(rows, cs), cs);
  }

  /** A recorded adjustment already names this estimate. */
  ghost predicate Named(rows: Rows, estimate: Token) {
    exists t :: t in rows && t.OfClose? && "estimated_event" in rows[t] && rows[t]["estimated_event"] == Ref(estimate)
  }

  lemma AdjustmentNames(rows: Rows, c: Close)
    requires Matched(rows, c).Some?
    ensures "estimated_event" in Adjustment(rows, c)
            && Adjustment(rows, c)["estimated_event"] == Ref(Matched(rows, c).value)
  {
  }

  /** The condition a caller can check before one more close: it matches an
      estimate again exactly when a recorded adjustment names that estimate. */
  lemma NamedExactly(rows: Rows, cs: seq<Close>, estimate: Token)
    requires WellKeyed(rows) && Consistent(rows, PlanOf(rows, cs), cs) && !Named(rows, estimate)
    ensures Named(AppliedAll(rows, cs), estimate) <==> estimate in MatchedTokens(PlanOf(rows, cs), cs)
  {
    var plan, final := PlanOf(rows, cs), AppliedAll(rows, cs);
    AppliedIsPlanned(rows, cs);
    PlannedIsAdjusted(rows, plan, cs);
    if Named(final, estimate) {
      var t :| t in final && t.OfClose? && "estimated_event" in final[t]
               && final[t]["estimated_event"] == Ref(estimate);
      assert t !in rows;
      var c :| c in cs && c in plan && AdjustmentToken(c) == t;
      AdjustmentNames(rows, c);
    }
    if estimate in MatchedTokens(plan, cs) {
      var c :| c in cs && c in plan && plan[c].estimate == estimate;
      AdjustmentNames(rows, c);
      assert final[AdjustmentToken(c)] == plan[c].value;
    }
  }

  lemma PlanOfBalances(rows: Rows, cs: seq<Close>)
    requires forall c :: c in cs && Matched(rows, c).Some? ==> AdjustmentToken(c) !in rows
    ensures PlanBalances(rows, PlanOf(rows, cs))
  {
    forall c | c in PlanOf(rows, cs)
      ensures c.pnl.Some? && Matched(rows, c).value in rows
      ensures PnlOf(Adjustment(rows, c)) == c.pnl.value - PnlOf(rows[Matched(rows, c).value])
    {
      MatchIsEstimate(rows, c);
      AdjustmentSource(rows, c);
    }
  }

  /** One more close adds to the surplus exactly when a recorded adjustment
      names the estimate it matches, and then that estimate. */
  lemma OneMoreExactly(rows: Rows, cs: seq<Close>, c: Close, plan: Plan, estimate: Token)
    requires plan == PlanOf(rows, cs + [c]) && WellKeyed(rows) && Consistent(rows, plan, cs + [c])
    requires c !in cs && Matched(rows, c) == Some(estimate) && !Named(rows, estimate)
    ensures estimate in rows
    ensures Surplus(rows, plan, cs + [c])
            == Surplus(rows, plan, cs) + (if Named(AppliedAll(rows, cs), estimate) then PnlOf(rows[estimate]) else 0.0)
  {
    MatchIsEstimate(rows, c);
    ConsistentBefore(rows, cs, c);
    NamedExactly(rows, cs, estimate);
    SameMatchedTokens(rows, cs, c);
    SurplusAppend(rows, plan, cs, c);
    PlannedEntry(rows, cs, c, estimate);
    assert MatchesAgain(rows, plan, cs, c) <==> Named(AppliedAll(rows, cs), estimate);
  }

  lemma PlannedEntry(rows: Rows, cs: seq<Close>, c: Close, estimate: Token)
    requires Matched(rows, c) == Some(estimate)
    ensures c in PlanOf(rows, cs + [c]) && PlanOf(rows, cs + [c])[c].estimate == estimate
  {
    assert c in cs + [c];
  }

  lemma ConsistentBefore(rows: Rows, cs: seq<Close>, c: Close)
    requires Consistent(rows, PlanOf(rows, cs + [c]), cs + [c])
    ensures Consistent(rows, PlanOf(rows, cs), cs)
  {
    forall d | d in cs
      ensures d in cs + [c]
    {
    }
  }

  lemma SurplusAppend(rows: Rows, plan: Plan, rest: seq<Close>, c: Close)
    ensures Surplus(rows, plan, rest + [c])
            == Surplus(rows, plan, rest)
               + (if MatchesAgain(rows, plan, rest, c) then PnlOf(rows[plan[c].estimate]) else 0.0)
  {
    assert (rest + [c])[..|rest|] == rest;
  }

  lemma SameMatchedTokens(rows: Rows, cs: seq<Close>, c: Close)
    ensures MatchedTokens(PlanOf(rows, cs + [c]), cs) == MatchedTokens(PlanOf(rows, cs), cs)
  {
    var more, plan := PlanOf(rows, cs + [c]), PlanOf(rows, cs);
    forall d | d in cs
      ensures d in more <==> d in plan
      ensures d in plan ==> more[d] == plan[d]
    {
      assert d in cs + [c];
    }
  }

  // ---- One estimate, two closes ----

  /** Two closes that match one estimate are both applied, and the sum is off
      by exactly that estimate. */
  lemma DoubleMatchMiscounts(rows: Rows, c: Close, d: Close)
    requires var plan := PlanOf(rows, [c, d]);
             && WellKeyed(rows) && Consistent(rows, plan, [c, d]) && PlanBalances(rows, plan)
             && c.closeId != d.closeId && c in plan && d in plan && plan[c].estimate == plan[d].estimate
    ensures var estimate := PlanOf(rows, [c, d])[c].estimate;
            Total(AppliedAll(rows, [c, d]))
                == Total(rows - {estimate}) + c.pnl.value + d.pnl.value - PnlOf(rows[estimate])
  {
    var plan := PlanOf(rows, [c, d]);
    AppliedIsPlanned(rows, [c, d]);
    PlannedPair(rows, plan, c, d);
    TotalAdded(rows, AdjustmentToken(c), plan[c].value);
    TotalAdded(rows[AdjustmentToken(c) := plan[c].value], AdjustmentToken(d), plan[d].value);
    TotalWithout(rows, plan[c].estimate);
  }

  lemma PlannedPair(rows: Rows, plan: Plan, c: Close, d: Close)
    requires c in plan && d in plan
    ensures Planned(rows, plan, [c, d])
            == rows[AdjustmentToken(c) := plan[c].value][AdjustmentToken(d) := plan[d].value]
  {
    assert [c, d][..1] == [c] && [c][..0] == [];
    assert Planned(rows, plan, [c]) == rows[AdjustmentToken(c) := plan[c].value];
  }

  function SampleTrade(): TradeId {
    TradeId("BTCUSDT", "LONG", 0, 1000, 1.0, 100.0, 105.0)
  }

  /** A ledger with one estimate of 5. */
  function SampleRows(): Rows {
    map[OfTrade(SampleTrade()) :=
        map["pnl" := Num(5.0), "source" := Str(ESTIMATED), "closed_at" := Instant(1000), "symbol" := Str("BTCUSDT")]]
  }

  function SampleClose(id: string, pnl: real): Close {
    Close(id, Some(pnl), Some(2000), "BTCUSDT", [])
  }

  lemma SampleMatches(id: string, pnl: real)
    requires id != ""
    ensures Matched(SampleRows(), SampleClose(id, pnl)) == Some(OfTrade(SampleTrade()))
  {
    var rows, c, t := SampleRows(), SampleClose(id, pnl), OfTrade(SampleTrade());
    assert IsEstimate(rows[t], c);
    assert Estimates(rows, c) == {t};
    assert ByTime(rows, c) == {t};
    assert NonEmpty(c.openingIds) == [];
    assert |ByTime(rows, c)| == 1;
  }

  /** Two closes a second after the estimate of 5 both match it: confirmed at
      4 and 7, they leave a ledger of 6. */
  lemma SampleMiscounts()
    ensures Total(AppliedAll(SampleRows(), [SampleClose("a", 4.0), SampleClose("b", 7.0)])) == 6.0
  {
    var rows, t := SampleRows(), OfTrade(SampleTrade());
    SampleMatches("a", 4.0);
    SampleMatches("b", 7.0);
    assert "a"[0] != "b"[0];
    MatchedPair(rows, SampleClose("a", 4.0), SampleClose("b", 7.0), t);
    assert PnlOf(rows[t]) == 5.0;
    assert rows - {t} == map[];
  }

  lemma MatchedPair(rows: Rows, c: Close, d: Close, t: Token)
    requires Matched(rows, c) == Some(t) == Matched(rows, d) && c.closeId != d.closeId
    requires forall u :: u in rows ==> !u.OfClose?
    ensures t in rows && Total(AppliedAll(rows, [c, d]))
            == Total(rows - {t}) + c.pnl.value + d.pnl.value - PnlOf(rows[t])
  {
    var plan := PlanOf(rows, [c, d]);
    assert c in [c, d] && d in [c, d];
    PlanOfBalances(rows, [c, d]);
    PairConsistent(rows, plan, c, d);
    assert plan[c].estimate == t && plan[d].estimate == t;
    DoubleMatchMiscounts(rows, c, d);
  }

  lemma PairConsistent(rows: Rows, plan: Plan, c: Close, d: Close)
    requires c.closeId != d.closeId && forall u :: u in rows ==> !u.OfClose?
    ensures Consistent(rows, plan, [c, d])
  {
  }

  // ---- Contradictions ----

  /** After a consistent batch a further close contradicts the ledger exactly
      when what it would record differs from what the ledger held for its id
      from the start, or from what a close of the batch with its id recorded.
      A contradiction alters nothing. */
  lemma ConflictExactly(rows: Rows, cs: seq<Close>, d: Close)
    requires WellKeyed(rows) && Consistent(rows, PlanOf(rows, cs), cs)
    ensures Applied(AppliedAll(rows, cs), d).Conflict? <==>
            && Matched(rows, d).Some?
            && ((AdjustmentToken(d) in rows && rows[AdjustmentToken(d)] != Adjustment(rows, d))
                || exists c ::
                     c in cs && Matched(rows, c).Some? && c.closeId == d.closeId
                     && Adjustment(rows, c) != Adjustment(rows, d))
    ensures Applied(AppliedAll(rows, cs), d).Conflict? ==> AppliedAll(rows, cs + [d]) == AppliedAll(rows, cs)
  {
    var plan, final, t := PlanOf(rows, cs), AppliedAll(rows, cs), AdjustmentToken(d);
    AppliedIsPlanned(rows, cs);
    PlannedIsAdjusted(rows, plan, cs);
    assert cs[..|cs|] == cs;
    AppliedFollowsPlan(rows, cs, |cs|);
    MatchingSeesTradesOnly(final, rows, d);
    if t in final && t !in rows {
      var c :| c in cs && c in plan && AdjustmentToken(c) == t;
      assert final[t] == plan[c].value == Adjustment(rows, c);
    }
    forall c | c in cs && Matched(rows, c).Some? && c.closeId == d.closeId
      ensures t in final && final[t] == Adjustment(rows, c)
    {
      assert c in plan;
    }
    assert (cs + [d])[..|cs|] == cs;
  }

  /** Matching does not read the confirmed value, and the adjustment records it. */
  lemma OtherValue(rows: Rows, c: Close, x: real)
    requires Matched(rows, c).Some?
    ensures Matched(rows, c.(pnl := Some(x))) == Matched(rows, c)
    ensures c.pnl == Some(x) <==> Adjustment(rows, c.(pnl := Some(x))) == Adjustment(rows, c)
  {
    var d := c.(pnl := Some(x));
    assert Estimates(rows, d) == Estimates(rows, c);
    forall id
      ensures ByLineage(rows, d, id) == ByLineage(rows, c, id)
    {
    }
    assert ByTime(rows, d) == ByTime(rows, c);
    ConfirmedValue(rows, c);
    ConfirmedValue(rows, d);
    if c.pnl == Some(x) {
      assert d == c;
    }
  }

  lemma ConfirmedValue(rows: Rows, c: Close)
    requires Matched(rows, c).Some?
    ensures "confirmed_pnl" in Adjustment(rows, c) && Adjustment(rows, c)["confirmed_pnl"] == Num(c.pnl.value)
  {
  }

  /** A close of the batch that comes back with another confirmed value fails
      and alters nothing; with the same value it changes nothing. */
  lemma ChangedValueConflicts(rows: Rows, cs: seq<Close>, c: Close, x: real)
    requires WellKeyed(rows) && Consistent(rows, PlanOf(rows, cs), cs) && c in cs && Matched(rows, c).Some?
    ensures Applied(AppliedAll(rows, cs), c.(pnl := Some(x))).Conflict? <==> c.pnl != Some(x)
    ensures AppliedAll(rows, cs + [c.(pnl := Some(x))]) == AppliedAll(rows, cs)
  {
    var d, final := c.(pnl := Some(x)), AppliedAll(rows, cs);
    OtherValue(rows, c, x);
    ConflictExactly(rows, cs, d);
    assert c in PlanOf(rows, cs);
    forall e | e in cs && e.closeId == d.closeId
      ensures e == c
    {
    }
    assert (cs + [d])[..|cs|] == cs;
    if c.pnl == Some(x) {
      assert d == c;
      AppliedIsPlanned(rows, cs);
      PlannedIsAdjusted(rows, PlanOf(rows, cs), cs);
      AppliedFollowsPlan(rows, cs, |cs|);
      assert cs[..|cs|] == cs;
      MatchingSeesTradesOnly(final, rows, c);
      Rewriting(final, AdjustmentToken(c), Adjustment(rows, c));
    }
  }
}

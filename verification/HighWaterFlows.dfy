/** Deposits and withdrawals against the stored high-water mark. The rebase
    starts from the cached peak, so what it does to the stored one depends on
    whether the cache is behind. */
module HighWaterFlows {
  import opened Arithmetic
  import opened Common
  import opened HighWaterMark

  /** What the process knows and what is stored show the same loss at an
      equity: they are one peak, or neither is above it. */
  predicate SameLoss(s: State, equity: real)
    requires s.peak.Some?
  {
    Known(s) == s.peak || (Known(s).value <= equity && s.peak.value <= equity)
  }

  /** An accepted deposit that becomes durable raises the stored peak by its
      amount exactly when the known peak is not behind the stored one, or the
      equity makes up for it; it lowers it exactly when both fall short; and it
      keeps the stored loss exactly when known and stored peak show the same. */
  lemma DepositExactly(s: State, f: Flow, equity: real, w: WriteOutcome)
    requires f.kind.TransferIn? && s.peak.Some? && FlowPlan(Known(s), equity, f).Write? && w.Durable()
    ensures var after := Carried(s, FlowPlan(Known(s), equity, f), equity, w).peak;
            && after.Some?
            && (after.value >= s.peak.value + f.amount <==>
                  Known(s).value >= s.peak.value || equity >= s.peak.value + f.amount)
            && (after.value < s.peak.value <==>
                  Known(s).value + f.amount < s.peak.value && equity < s.peak.value)
            && (equity == f.post == f.pre + f.amount ==>
                  (MaxReal(0.0, after.value - f.post) == MaxReal(0.0, s.peak.value - f.pre) <==> SameLoss(s, f.pre)))
  {
  }

  lemma DrawdownMeans(peak: real, equity: real)
    requires peak > 0.0 && equity > 0.0
    ensures Drawdown(peak, equity) >= 0.0
    ensures Drawdown(peak, equity) * peak == MaxReal(0.0, peak - equity)
  {
    if peak <= equity {
      NoLoss(peak, equity);
    } else {
      var loss := (peak - equity) / peak;
      assert loss * peak == peak - equity;
      Positive(loss, peak);
    }
  }

  lemma SameDrawdown(p: real, q: real, equity: real)
    requires p > equity && q > equity && equity > 0.0 && Drawdown(p, equity) == Drawdown(q, equity)
    ensures p == q
  {
    DrawdownMeans(p, equity);
    DrawdownMeans(q, equity);
    var left := 1.0 - Drawdown(p, equity);
    assert left * p == equity == left * q;
    Positive(left, p);
    Unscaled(p, q, left);
    Unscaled(q, p, left);
  }

  /** The drawdown of a positive equity tells the peaks above it apart. */
  lemma DrawdownTellsPeaks(p: real, q: real, equity: real)
    requires p > 0.0 && q > 0.0 && equity > 0.0
    ensures Drawdown(p, equity) == Drawdown(q, equity) <==> p == q || (p <= equity && q <= equity)
  {
    DrawdownMeans(p, equity);
    DrawdownMeans(q, equity);
    if p <= equity {
      NoLoss(p, equity);
    }
    if q <= equity {
      NoLoss(q, equity);
    }
    if p > equity && q > equity && Drawdown(p, equity) == Drawdown(q, equity) {
      SameDrawdown(p, q, equity);
    }
  }

  /** An accepted withdrawal seen at its post-flow equity keeps the drawdown of
      the stored peak exactly when known and stored peak show the same loss. */
  lemma WithdrawalExactly(s: State, f: Flow, w: WriteOutcome)
    requires f.kind.TransferOut? && s.peak.Some? && s.peak.value > 0.0
    requires FlowPlan(Known(s), f.post, f).Write? && w.Durable()
    ensures var after := Carried(s, FlowPlan(Known(s), f.post, f), f.post, w).peak;
            && after.Some? && after.value > 0.0
            && (Drawdown(after.value, f.post) == Drawdown(s.peak.value, f.pre) <==> SameLoss(s, f.pre))
  {
    WithdrawalKeepsDrawdown(Known(s).value, f);
    DrawdownTellsPeaks(Known(s).value, s.peak.value, f.pre);
  }

  /** The cached peak is not behind the stored one. */
  predicate Leads(s: State) {
    s.cache.Some? ==> s.peak.Some? && s.cache.value >= s.peak.value
  }

  /** A write that commits unacknowledged above the peak that stays cached. */
  predicate LosesRaising(s: State, e: Event) {
    !e.Restart? && e.w.Ambiguous? && s.cache.Some? && PlanOf(s, e).Write? && PlanOf(s, e).peak > s.cache.value
  }

  lemma LeadsExactly(s: State, e: Event)
    requires Leads(s)
    ensures Leads(Next(s, e)) <==> !LosesRaising(s, e)
  {
    if !e.Restart? {
      PlansCoverEquity(s, e);
    }
  }

  ghost predicate NoRaisingLost(s: State, es: seq<Event>) {
    forall n :: 0 <= n < |es| ==> !LosesRaising(Exec(s, es[..n]), es[n])
  }

  lemma {:induction false} LeadsRun(s: State, es: seq<Event>)
    requires Leads(s) && NoRaisingLost(s, es)
    ensures Leads(Exec(s, es))
    decreases |es|
  {
    if |es| == 0 {
    } else {
      var before := es[..|es| - 1];
      forall n | 0 <= n < |before|
        ensures !LosesRaising(Exec(s, before[..n]), before[n])
      {
        assert before[..n] == es[..n];
      }
      LeadsRun(s, before);
      assert !LosesRaising(Exec(s, before), es[|es| - 1]);
      LeadsExactly(Exec(s, before), es[|es| - 1]);
    }
  }

  /** An accepted flow whose write becomes durable. */
  predicate Flows(s: State, e: Event, kind: FlowKind) {
    e.External? && e.flow.kind == kind && PlanOf(s, e).Write? && e.w.Durable()
  }

  /** Over any run, whatever else is lost, a deposit raises the stored peak by
      at least its amount as long as no raising write was lost before it. */
  lemma DepositsRaise(s: State, es: seq<Event>, e: Event)
    requires Leads(s) && NoRaisingLost(s, es) && Exec(s, es).peak.Some? && Flows(Exec(s, es), e, TransferIn)
    ensures var after := Next(Exec(s, es), e).peak;
            after.Some? && after.value >= Exec(s, es).peak.value + e.flow.amount
  {
    LeadsRun(s, es);
    DepositExactly(Exec(s, es), e.flow, e.equity, e.w);
  }

  /** Over any run a flow seen at its post-flow equity keeps the stored
      drawdown or loss, as long as no acknowledgement was lost before it. */
  lemma FlowsKeepLoss(s: State, es: seq<Event>, e: Event)
    requires Coherent(s) && Acknowledged(es) && Exec(s, es).peak.Some?
    requires e.External? && e.equity == e.flow.post
    ensures Flows(Exec(s, es), e, TransferOut) ==>
              var before, after := Exec(s, es).peak.value, Next(Exec(s, es), e).peak;
              && before > 0.0 && after.Some? && after.value > 0.0
              && Drawdown(after.value, e.flow.post) == Drawdown(before, e.flow.pre)
    ensures Flows(Exec(s, es), e, TransferIn) && e.flow.post == e.flow.pre + e.flow.amount ==>
              var before, after := Exec(s, es).peak.value, Next(Exec(s, es), e).peak;
              after.Some? && MaxReal(0.0, after.value - e.flow.post) == MaxReal(0.0, before - e.flow.pre)
  {
    CoherentRun(s, es);
    var before := Exec(s, es);
    if Flows(before, e, TransferOut) {
      WithdrawalExactly(before, e.flow, e.w);
    } else if Flows(before, e, TransferIn) {
      DepositExactly(before, e.flow, e.equity, e.w);
    }
  }

  /** The failing runs: after a new high of 120 that was lost, a deposit of 10
      lowers the stored peak to 110, and a withdrawal that halves the account
      turns a stored drawdown of one half into two fifths. */
  lemma LostHighBreaksFlows()
    ensures var high := Next(State(Some(100.0), Some(100.0), None), Reading(120.0, Ambiguous));
            && high.peak == Some(120.0)
            && Next(high, External(Flow(TransferIn, 10.0, 95.0, 105.0), 105.0, Committed)).peak == Some(110.0)
            && Next(high, External(Flow(TransferOut, 30.0, 60.0, 30.0), 30.0, Committed)).peak == Some(50.0)
            && Drawdown(120.0, 60.0) == 0.5 && Drawdown(50.0, 30.0) == 0.4
  {
    SmallRatio(100.0, 120.0);
    assert 30.0 / 60.0 == 0.5 && 60.0 / 120.0 == 0.5 && 20.0 / 50.0 == 0.4;
  }
}

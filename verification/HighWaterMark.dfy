/** The durable account-equity high-water mark of bot/drawdown_persistence.py:
    one atomic write of peak and provenance, a cached copy in the process, and
    two operations, an equity reading and the rebase for a cash flow. */
module HighWaterMark {
  import opened Arithmetic
  import opened Common

  datatype Reason = Bootstrap | NewEquityHigh | IncidentRepair | FlowRebase

  datatype Provenance = Provenance(reason: Reason, oldPeak: Option<real>, newPeak: real, equity: real)

  /** What survives a restart (`peak`, `provenance`) and what does not. */
  datatype State = State(cache: Option<real>, peak: Option<real>, provenance: Option<Provenance>)

  datatype FlowKind = TransferIn | TransferOut | OtherFlow

  datatype Flow = Flow(kind: FlowKind, amount: real, pre: real, post: real)

  const BAD_PEAK_A := 82894351780.2826
  const GOOD_PEAK_A := 28.7914
  const BAD_PEAK_B := 42709241923.064377
  const GOOD_PEAK_B := 63.7942573
  const MAX_RATIO := 1000.0

  predicate IncidentA(peak: real) {
    AbsReal(peak - BAD_PEAK_A) <= 1.0
  }

  predicate IncidentB(peak: real) {
    AbsReal(peak - BAD_PEAK_B) <= 1.0
  }

  predicate Corrupt(peak: real) {
    IncidentA(peak) || IncidentB(peak)
  }

  /** The cached peak hides the stored one. */
  function Known(s: State): Option<real> {
    if s.cache.Some? then s.cache else s.peak
  }

  /** What one operation decides before its write. */
  datatype Plan = Reject | Keep(kept: real) | Write(peak: real, reason: Reason)

  function ReadingPlan(known: Option<real>, equity: real): Plan {
    if equity <= 0.0 then Reject
    else if known.None? then Write(equity, Bootstrap)
    else if known.value <= 0.0 then Reject
    else if IncidentA(known.value) then Write(MaxReal(GOOD_PEAK_A, equity), IncidentRepair)
    else if IncidentB(known.value) then Write(MaxReal(GOOD_PEAK_B, equity), IncidentRepair)
    else if known.value / equity > MAX_RATIO then Reject
    else if equity > known.value then Write(equity, NewEquityHigh)
    else Keep(known.value)
  }

  function FlowPlan(known: Option<real>, equity: real, f: Flow): Plan {
    if equity <= 0.0 || f.pre <= 0.0 || f.post <= 0.0 || f.amount <= 0.0 then Reject
    else if known.None? || known.value <= 0.0 then Reject
    else match f.kind
      case TransferIn => Write(MaxReal(equity, known.value + f.amount), FlowRebase)
      case TransferOut => Write(MaxReal(equity, known.value * (f.post / f.pre)), FlowRebase)
      case OtherFlow => Reject
  }

  /** The state after a plan whose write, if it has one, ends as `w`. */
  function Carried(s: State, plan: Plan, equity: real, w: WriteOutcome): State {
    match plan
    case Reject => s
    case Keep(p) => s.(cache := Some(p))
    case Write(p, reason) =>
      var after :=
        if w.Durable() then s.(peak := Some(p), provenance := Some(Provenance(reason, Known(s), p, equity))) else s;
      if w.Crashed() then after.(cache := None)
      else if w.Committed? then after.(cache := Some(p))
      else after
  }

  predicate Done(plan: Plan, w: WriteOutcome) {
    plan.Keep? || (plan.Write? && w.Committed?)
  }

  function Drawdown(peak: real, equity: real): real
    requires peak > 0.0
  {
    MaxReal(0.0, (peak - equity) / peak)
  }

  /** The process's own peak after a reading: only a repair may lower it. */
  function PeakApplied(plan: Plan, existing: real, peak: real): real {
    if plan.Write? && plan.reason.IncidentRepair? then peak else MaxReal(existing, peak)
  }

  // ---- The operations ----

  datatype Failure = Rejected | Unconfirmed | Died

  /** The durable keys; the first two are only ever written together. */
  class Store {
    var peak: Option<real>
    var provenance: Option<Provenance>
    var cursor: Option<int>

    constructor (peak: Option<real>, provenance: Option<Provenance>)
      ensures this.peak == peak && this.provenance == provenance && cursor == None
    {
      this.peak, this.provenance, cursor := peak, provenance, None;
    }

    method SavePeak(newPeak: real, provenance: Provenance, w: WriteOutcome)
      modifies `peak, `provenance
      ensures peak == (if w.Durable() then Some(newPeak) else old(peak))
      ensures this.provenance == (if w.Durable() then Some(provenance) else old(this.provenance))
    {
      if w.Durable() {
        peak := Some(newPeak);
        this.provenance := Some(provenance);
      }
    }
  }

  class Risk {
    var cache: Option<real>
    var peakBalance: real
    var drawdown: real

    constructor ()
      ensures cache == None && peakBalance == 0.0 && drawdown == 0.0
    {
      cache, peakBalance, drawdown := None, 0.0, 0.0;
    }

    ghost function View(store: Store): State
      reads this`cache, store`peak, store`provenance
    {
      State(cache, store.peak, store.provenance)
    }

    method ApplyPeak(peak: real, equity: real, allowLower: bool)
      requires peak > 0.0
      modifies `peakBalance, `drawdown
      ensures peakBalance == if allowLower then peak else MaxReal(old(peakBalance), peak)
      ensures drawdown == Drawdown(peakBalance, equity)
    {
      if allowLower {
        peakBalance := peak;
      } else if peakBalance < peak {
        peakBalance := peak;
      }
      drawdown := MaxReal(0.0, (peakBalance - equity) / peakBalance);
    }

    /** `_write_peak_with_provenance` and the cache it leads to. A crash takes
        the process and its cache with it. */
    method WritePeak(store: Store, known: Option<real>, newPeak: real, equity: real, reason: Reason, w: WriteOutcome)
      returns (failure: Option<Failure>)
      requires known == Known(View(store))
      modifies `cache, store`peak, store`provenance
      ensures View(store) == Carried(old(View(store)), Write(newPeak, reason), equity, w)
      ensures failure == if w.Committed? then None else Some(if w.Crashed() then Died else Unconfirmed)
    {
      store.SavePeak(newPeak, Provenance(reason, known, newPeak, equity), w);
      if w.Crashed() {
        cache := None;
        return Some(Died);
      }
      if !w.Committed? {
        return Some(Unconfirmed);
      }
      cache := Some(newPeak);
      failure := None;
    }

    /** `restore_update_real_account_peak`. */
    method RestoreUpdate(store: Store, equity: real, w: WriteOutcome) returns (r: Result<real, Failure>)
      modifies this, store`peak, store`provenance
      ensures View(store) == Carried(old(View(store)), ReadingPlan(Known(old(View(store))), equity), equity, w)
      ensures r.Ok? <==> Done(ReadingPlan(Known(old(View(store))), equity), w)
      ensures r.Err? ==> r.error == if ReadingPlan(Known(old(View(store))), equity).Reject? then Rejected
                                    else if w.Crashed() then Died else Unconfirmed
      ensures r.Ok? ==> cache == Some(r.value) && r.value >= equity > 0.0 && peakBalance > 0.0
      ensures r.Ok? ==>
              peakBalance == PeakApplied(ReadingPlan(Known(old(View(store))), equity), old(peakBalance), r.value)
      ensures r.Ok? ==> drawdown == Drawdown(peakBalance, equity)
      ensures r.Err? ==> peakBalance == old(peakBalance) && drawdown == old(drawdown)
    {
      if equity <= 0.0 {
        return Err(Rejected);
      }
      var known := if cache.Some? then cache else store.peak;
      if known.Some? && known.value <= 0.0 {
        return Err(Rejected);
      }
      var persisted := known;
      var repaired := false;
      var failure: Option<Failure> := None;
      if persisted.Some? {
        if IncidentA(persisted.value) {
          persisted, repaired := Some(MaxReal(GOOD_PEAK_A, equity)), true;
        } else if IncidentB(persisted.value) {
          persisted, repaired := Some(MaxReal(GOOD_PEAK_B, equity)), true;
        } else if persisted.value / equity > MAX_RATIO {
          return Err(Rejected);
        }
        if repaired {
          failure := WritePeak(store, known, persisted.value, equity, IncidentRepair, w);
          if failure.Some? {
            return Err(failure.value);
          }
        }
      }
      var peak := if persisted.Some? then MaxReal(equity, persisted.value) else equity;
      if persisted.None? || peak > persisted.value {
        failure := WritePeak(store, known, peak, equity, if persisted.None? then Bootstrap else NewEquityHigh, w);
        if failure.Some? {
          return Err(failure.value);
        }
      }
      cache := Some(peak);
      ApplyPeak(peak, equity, repaired);
      r := Ok(peak);
    }

    /** `rebase_real_account_peak_for_external_flow`. */
    method Rebase(store: Store, equity: real, f: Flow, w: WriteOutcome) returns (r: Result<real, Failure>)
      modifies this, store`peak, store`provenance
      ensures View(store) == Carried(old(View(store)), FlowPlan(Known(old(View(store))), equity, f), equity, w)
      ensures r.Ok? <==> Done(FlowPlan(Known(old(View(store))), equity, f), w)
      ensures r.Err? ==> r.error == if FlowPlan(Known(old(View(store))), equity, f).Reject? then Rejected
                                    else if w.Crashed() then Died else Unconfirmed
      ensures r.Ok? ==> cache == Some(r.value) == Some(peakBalance) && r.value >= equity > 0.0
      ensures r.Ok? ==> drawdown == Drawdown(r.value, equity)
      ensures r.Err? ==> peakBalance == old(peakBalance) && drawdown == old(drawdown)
    {
      if equity <= 0.0 || f.pre <= 0.0 || f.post <= 0.0 || f.amount <= 0.0 {
        return Err(Rejected);
      }
      var known := if cache.Some? then cache else store.peak;
      if known.None? || known.value <= 0.0 || f.kind.OtherFlow? {
        return Err(Rejected);
      }
      var rebased := if f.kind.TransferIn? then MaxReal(equity, known.value + f.amount)
                     else MaxReal(equity, known.value * (f.post / f.pre));
      assert FlowPlan(known, equity, f) == Write(rebased, FlowRebase);
      var failure := WritePeak(store, known, rebased, equity, FlowRebase, w);
      if failure.Some? {
        return Err(failure.value);
      }
      ApplyPeak(rebased, equity, true);
      r := Ok(rebased);
    }
  }

  // ---- What one operation does to the mark ----

  /** The two peaks an incident once stored, and what it should have stored. */
  predicate Signature(peak: real, good: real) {
    || (82894351779.2826 <= peak <= 82894351781.2826 && good == 28.7914)
    || (42709241922.064377 <= peak <= 42709241924.064377 && good == 63.7942573)
  }

  /** What a reading makes of every known peak and equity: it bootstraps, it
      repairs a signature to no less than the equity, it rejects a peak beyond
      a thousand times the equity, and otherwise keeps the greater of the two. */
  lemma ReadingByInputs(known: Option<real>, equity: real)
    ensures var plan := ReadingPlan(known, equity);
            && (equity <= 0.0 || (known.Some? && known.value <= 0.0) ==> plan == Reject)
            && (equity > 0.0 && known.None? ==> plan == Write(equity, Bootstrap))
            && (equity > 0.0 && known.Some? && known.value > 0.0 ==>
                  && (forall good :: Signature(known.value, good) ==>
                        && plan.Write? && plan.reason == IncidentRepair
                        && plan.peak >= good && plan.peak >= equity && plan.peak in {good, equity})
                  && ((forall good :: !Signature(known.value, good)) ==>
                        && (known.value > 1000.0 * equity ==> plan == Reject)
                        && (equity < known.value <= 1000.0 * equity ==> plan == Keep(known.value))
                        && (known.value == equity ==> plan == Keep(known.value))
                        && (known.value < equity ==> plan == Write(equity, NewEquityHigh))))
  {
    if equity > 0.0 && known.Some? && known.value > 0.0 {
      if IncidentA(known.value) {
        assert Signature(known.value, GOOD_PEAK_A);
      } else if IncidentB(known.value) {
        assert Signature(known.value, GOOD_PEAK_B);
      } else {
        RatioIsBounded(known.value, equity);
      }
    }
  }

  lemma RatioIsBounded(peak: real, equity: real)
    requires peak > 0.0 && equity > 0.0
    ensures peak / equity > MAX_RATIO <==> peak > 1000.0 * equity
  {
    var ratio := peak / equity;
    assert ratio * equity == peak;
    if ratio > 1000.0 {
      assert (ratio - 1000.0) * equity > 0.0;
    } else {
      assert (1000.0 - ratio) * equity >= 0.0;
    }
  }

  /** An operation is carried through when it keeps the known peak or its write
      is confirmed, and the process's own peak then only falls in a repair. */
  lemma DoneByOutcome(plan: Plan, w: WriteOutcome, existing: real, peak: real)
    ensures Done(plan, w) <==> (plan.Keep? || (plan.Write? && w == Committed))
    ensures var own := PeakApplied(plan, existing, peak);
            && own >= peak && own in {existing, peak}
            && (own < existing ==> plan.Write? && plan.reason == IncidentRepair)
            && (plan.Write? && plan.reason == IncidentRepair ==> own == peak)
  {
  }

  /** What a flow makes of them: a deposit adds its amount, a withdrawal scales
      by the equities around it, and neither goes below the equity. */
  lemma FlowByInputs(known: Option<real>, equity: real, f: Flow)
    ensures var plan := FlowPlan(known, equity, f);
            && (plan.Reject? || plan.Write?)
            && (plan.Write? <==>
                  && equity > 0.0 && f.pre > 0.0 && f.post > 0.0 && f.amount > 0.0
                  && known.Some? && known.value > 0.0 && f.kind in {TransferIn, TransferOut})
            && (plan.Write? ==> plan.reason == FlowRebase && plan.peak >= equity)
            && (plan.Write? && f.kind == TransferIn && equity < known.value + f.amount ==>
                  plan.peak == known.value + f.amount)
            && (plan.Write? && f.kind == TransferOut && equity * f.pre < known.value * f.post ==>
                  plan.peak * f.pre == known.value * f.post)
            && (plan.Write? && f.kind == TransferIn && equity >= known.value + f.amount ==> plan.peak == equity)
            && (plan.Write? && f.kind == TransferOut && equity * f.pre >= known.value * f.post ==> plan.peak == equity)
  {
    var plan := FlowPlan(known, equity, f);
    if plan.Write? && f.kind.TransferOut? {
      var ratio := f.post / f.pre;
      assert ratio * f.pre == f.post;
      ScaledAgainst(known.value * ratio, equity, known.value, ratio, f);
    }
  }

  lemma ScaledAgainst(scaled: real, equity: real, known: real, ratio: real, f: Flow)
    requires f.pre > 0.0 && ratio * f.pre == f.post && scaled == known * ratio
    ensures scaled * f.pre == known * f.post
    ensures equity < scaled <==> equity * f.pre < known * f.post
  {
    assert scaled * f.pre == known * (ratio * f.pre);
    if equity < scaled {
      assert (scaled - equity) * f.pre > 0.0;
    } else {
      assert (equity - scaled) * f.pre >= 0.0;
    }
  }

  /** What a plan leaves behind, by how its write ends. */
  lemma CarriedByOutcome(s: State, plan: Plan, equity: real)
    requires plan.Write?
    ensures var kept := s.provenance;
            var made := Some(Provenance(plan.reason, if s.cache.Some? then s.cache else s.peak, plan.peak, equity));
            && Carried(s, plan, equity, Committed) == State(Some(plan.peak), Some(plan.peak), made)
            && Carried(s, plan, equity, Ambiguous) == State(s.cache, Some(plan.peak), made)
            && Carried(s, plan, equity, CrashedAfter) == State(None, Some(plan.peak), made)
            && Carried(s, plan, equity, Refused) == s
            && Carried(s, plan, equity, CrashedBefore) == State(None, s.peak, kept)
  {
  }

  /** A deposit raises the known peak by at least its amount; observed at its
      post-flow equity it leaves the loss from the peak as it was. */
  lemma DepositRaises(known: real, equity: real, f: Flow)
    requires f.kind.TransferIn? && known > 0.0 && equity > 0.0 && f.pre > 0.0 && f.amount > 0.0
    requires f.post == f.pre + f.amount
    ensures var plan := FlowPlan(Some(known), equity, f);
            && plan.Write? && plan.peak >= known + f.amount && plan.peak >= equity
            && (equity == f.post && known >= f.pre ==> plan.peak - equity == known - f.pre)
  {
  }

  lemma RatioMeaning(known: real, pre: real, post: real)
    requires known > 0.0 && pre > 0.0 && post > 0.0
    ensures var scaled := known * (post / pre);
            && scaled > 0.0 && (scaled >= post <==> known >= pre)
            && (scaled - post) / scaled == (known - pre) / known
  {
    var ratio := post / pre;
    assert ratio * pre == post;
    var scaled := known * ratio;
    assert scaled - post == ratio * (known - pre);
    if known >= pre {
      assert ratio * (known - pre) >= 0.0;
    } else {
      assert ratio * (pre - known) > 0.0;
    }
    var loss := (known - pre) / known;
    assert loss * known == known - pre;
    assert loss * scaled == ratio * (loss * known) == scaled - post;
  }

  /** A withdrawal observed at its post-flow equity leaves the drawdown as it
      was before the flow, whatever the peak was. */
  lemma WithdrawalKeepsDrawdown(known: real, f: Flow)
    requires f.kind.TransferOut? && known > 0.0 && f.pre > 0.0 && f.post > 0.0 && f.amount > 0.0
    ensures var plan := FlowPlan(Some(known), f.post, f);
            && plan.Write? && plan.peak > 0.0
            && Drawdown(plan.peak, f.post) == Drawdown(known, f.pre)
  {
    RatioMeaning(known, f.pre, f.post);
    var scaled := known * (f.post / f.pre);
    if known < f.pre {
      NoLoss(known, f.pre);
      NoLoss(scaled, f.post);
    }
  }

  lemma NoLoss(peak: real, equity: real)
    requires 0.0 < peak <= equity
    ensures Drawdown(peak, equity) == 0.0
  {
    var loss := (peak - equity) / peak;
    assert loss * peak == peak - equity;
    NotPositive(loss, peak);
  }

  /** The process believes what is stored. */
  predicate Coherent(s: State) {
    s.cache.Some? ==> s.peak == s.cache
  }

  /** A write leaves the process with a stale cache exactly when it commits
      but its acknowledgement is lost while an older peak is cached. */
  lemma StaleExactly(s: State, plan: Plan, equity: real, w: WriteOutcome)
    requires Coherent(s) && (plan.Keep? ==> Known(s) == Some(plan.kept))
    ensures !Coherent(Carried(s, plan, equity, w))
            <==> plan.Write? && w.Ambiguous? && s.cache.Some? && s.cache.value != plan.peak
  {
  }

  /** An equity reading lowers the stored peak in exactly two ways: it repairs
      an incident signature, or it raises a cached peak that a lost
      acknowledgement had left behind the stored one. */
  lemma ReadingLowersExactly(s: State, equity: real, w: WriteOutcome)
    requires s.peak.Some?
    ensures var after := Carried(s, ReadingPlan(Known(s), equity), equity, w).peak;
            && after.Some?
            && (after.value < s.peak.value <==>
                  && w.Durable() && equity > 0.0 && Known(s).value > 0.0
                  && ((IncidentA(Known(s).value) && MaxReal(GOOD_PEAK_A, equity) < s.peak.value)
                      || (IncidentB(Known(s).value) && MaxReal(GOOD_PEAK_B, equity) < s.peak.value)
                      || (!Corrupt(Known(s).value) && Known(s).value < equity < s.peak.value)))
  {
    if equity > 0.0 && Known(s).value > 0.0 && Known(s).value < equity {
      SmallRatio(Known(s).value, equity);
    }
  }

  lemma SmallRatio(peak: real, equity: real)
    requires 0.0 < peak < equity
    ensures peak / equity <= MAX_RATIO
  {
    var ratio := peak / equity;
    assert ratio * equity == peak;
    if ratio > 1.0 {
      assert (ratio - 1.0) * equity > 0.0;
    }
  }

  /** The stale cache at work: the stored peak of 120 falls to 110. */
  lemma StaleCacheLowersPeak()
    ensures var start := State(Some(100.0), Some(100.0), None);
            var raised := Carried(start, ReadingPlan(Known(start), 120.0), 120.0, Ambiguous);
            var lowered := Carried(raised, ReadingPlan(Known(raised), 110.0), 110.0, Committed);
            raised.peak == Some(120.0) && lowered.peak == Some(110.0)
  {
    SmallRatio(100.0, 120.0);
    SmallRatio(100.0, 110.0);
  }

  // ---- Runs ----

  datatype Event =
    | Reading(equity: real, w: WriteOutcome)
    | External(flow: Flow, equity: real, w: WriteOutcome)
    | Restart

  function PlanOf(s: State, e: Event): Plan {
    match e
    case Reading(equity, _) => ReadingPlan(Known(s), equity)
    case External(flow, equity, _) => FlowPlan(Known(s), equity, flow)
    case Restart => Reject
  }

  function Next(s: State, e: Event): State {
    if e.Restart? then s.(cache := None) else Carried(s, PlanOf(s, e), e.equity, e.w)
  }

  function Exec(s: State, es: seq<Event>): State
    decreases |es|
  {
    if |es| == 0 then s else Next(Exec(s, es[..|es| - 1]), es[|es| - 1])
  }

  /** Peak and provenance were written by one and the same operation. */
  predicate Attested(s: State) {
    s.provenance.Some? ==>
      s.peak == Some(s.provenance.value.newPeak) && s.provenance.value.newPeak >= s.provenance.value.equity
  }

  lemma PlansCoverEquity(s: State, e: Event)
    requires !e.Restart?
    ensures PlanOf(s, e).Write? ==> PlanOf(s, e).peak >= e.equity > 0.0
    ensures PlanOf(s, e).Keep? ==> Known(s) == Some(PlanOf(s, e).kept) && PlanOf(s, e).kept >= e.equity > 0.0
  {
  }

  /** Through any run, with any crash, refusal or lost acknowledgement, the
      stored provenance tells where the stored peak came from. */
  lemma {:induction false} AttestedRun(s: State, es: seq<Event>)
    requires Attested(s)
    ensures Attested(Exec(s, es))
    ensures s.provenance.Some? ==> Exec(s, es).provenance.Some?
    decreases |es|
  {
    if |es| == 0 {
    } else {
      var before, e := Exec(s, es[..|es| - 1]), es[|es| - 1];
      AttestedRun(s, es[..|es| - 1]);
      if !e.Restart? {
        PlansCoverEquity(before, e);
      }
    }
  }

  /** A new provenance explains the new peak: what it replaced, why, and that
      only a repair or a cash flow may have lowered what the process knew. */
  lemma ProvenanceExplains(s: State, e: Event)
    requires Next(s, e).provenance != s.provenance
    ensures var p := Next(s, e).provenance;
            && p.Some? && p.value.oldPeak == Known(s) && Next(s, e).peak == Some(p.value.newPeak)
            && (Coherent(s) ==> p.value.oldPeak == s.peak)
            && (p.value.reason.Bootstrap? <==> p.value.oldPeak.None?)
            && (p.value.reason.IncidentRepair? ==> Corrupt(p.value.oldPeak.value))
            && (p.value.reason.NewEquityHigh? ==> p.value.newPeak == p.value.equity > p.value.oldPeak.value)
            && (p.value.reason.FlowRebase? <==> e.External?)
            && (p.value.oldPeak.Some? && p.value.newPeak < p.value.oldPeak.value ==>
                  p.value.reason.IncidentRepair? || (e.External? && e.flow.kind.TransferOut?))
  {
  }

  /** No acknowledgement is lost in the run. */
  predicate Acknowledged(es: seq<Event>) {
    forall k :: 0 <= k < |es| && !es[k].Restart? ==> !es[k].w.Ambiguous?
  }

  /** The operation was carried through, or its write outlived it. */
  predicate Used(s: State, e: Event) {
    !e.Restart? && (PlanOf(s, e).Keep? || (PlanOf(s, e).Write? && e.w.Durable()))
  }

  /** The place of the last operation that used its equity, if there is one. */
  function LastUse(s: State, es: seq<Event>): (n: Option<nat>)
    ensures n.Some? ==> n.value < |es| && Used(Exec(s, es[..n.value]), es[n.value])
    decreases |es|
  {
    if |es| == 0 then None
    else
      var before := es[..|es| - 1];
      if Used(Exec(s, before), es[|es| - 1]) then Some(|es| - 1)
      else
        var n := LastUse(s, before);
        assert n.Some? ==> before[..n.value] == es[..n.value];
        n
  }

  function LastUsed(s: State, es: seq<Event>): Option<real> {
    if LastUse(s, es).None? then None else Some(es[LastUse(s, es).value].equity)
  }

  /** A reading that trusts a cached peak although the stored one is below the
      equity it reads. */
  predicate TrustsStaleCache(s: State, e: Event) {
    !e.Restart? && PlanOf(s, e).Keep? && s.peak.Some? && s.peak.value < e.equity
  }

  /** One operation leaves the stored peak below the equity it used exactly
      when it trusts a stale cache. */
  lemma ShortStep(s: State, e: Event)
    requires Used(s, e) && (s.cache.Some? ==> s.peak.Some?)
    ensures var after := Next(s, e);
            && after.peak.Some?
            && (after.peak.value < e.equity <==> TrustsStaleCache(s, e))
  {
    PlansCoverEquity(s, e);
  }

  lemma {:induction false} CachedIsStored(s: State, es: seq<Event>)
    requires s.cache.Some? ==> s.peak.Some?
    ensures Exec(s, es).cache.Some? ==> Exec(s, es).peak.Some?
    decreases |es|
  {
    if |es| == 0 {
    } else {
      CachedIsStored(s, es[..|es| - 1]);
    }
  }

  /** Over any run, whatever is lost, the stored peak ends below the last
      equity used exactly when that use trusted a stale cache. */
  lemma {:induction false} FallsShortExactly(s: State, es: seq<Event>)
    requires (s.cache.Some? ==> s.peak.Some?) && LastUse(s, es).Some?
    ensures var n := LastUse(s, es).value;
            && Exec(s, es).peak.Some?
            && (Exec(s, es).peak.value < es[n].equity <==> TrustsStaleCache(Exec(s, es[..n]), es[n]))
    decreases |es|
  {
    if |es| == 0 {
    } else {
      var before, e := es[..|es| - 1], es[|es| - 1];
      CachedIsStored(s, before);
      if Used(Exec(s, before), e) {
        ShortStep(Exec(s, before), e);
      } else {
        FallsShortExactly(s, before);
        assert before[..LastUse(s, before).value] == es[..LastUse(s, before).value];
      }
    }
  }

  /** The cached peak is not above the stored one. */
  predicate Backed(s: State) {
    s.cache.Some? ==> s.peak.Some? && s.peak.value >= s.cache.value
  }

  /** A write that commits unacknowledged and lowers the mark, a withdrawal or
      a repair, below the peak that stays cached. */
  predicate LosesLowering(s: State, e: Event) {
    !e.Restart? && e.w.Ambiguous? && s.cache.Some? && PlanOf(s, e).Write? && PlanOf(s, e).peak < s.cache.value
  }

  lemma BackedExactly(s: State, e: Event)
    requires Backed(s)
    ensures Backed(Next(s, e)) <==> !LosesLowering(s, e)
  {
    if !e.Restart? {
      PlansCoverEquity(s, e);
    }
  }

  ghost predicate NoLoweringLost(s: State, es: seq<Event>) {
    forall n :: 0 <= n < |es| ==> !LosesLowering(Exec(s, es[..n]), es[n])
  }

  lemma {:induction false} BackedRun(s: State, es: seq<Event>)
    requires Backed(s) && NoLoweringLost(s, es)
    ensures Backed(Exec(s, es))
    decreases |es|
  {
    if |es| == 0 {
    } else {
      var before := es[..|es| - 1];
      forall n | 0 <= n < |before|
        ensures !LosesLowering(Exec(s, before[..n]), before[n])
      {
        assert before[..n] == es[..n];
      }
      BackedRun(s, before);
      assert !LosesLowering(Exec(s, before), es[|es| - 1]);
      BackedExactly(Exec(s, before), es[|es| - 1]);
    }
  }

  lemma NoLoweringLostBefore(s: State, es: seq<Event>, n: nat)
    requires NoLoweringLost(s, es) && n <= |es|
    ensures NoLoweringLost(s, es[..n])
  {
    forall m | 0 <= m < n
      ensures !LosesLowering(Exec(s, es[..n][..m]), es[..n][m])
    {
      assert es[..n][..m] == es[..m];
    }
  }

  /** The stored peak is at least the last equity that was used, through any
      crashes, refusals and lost acknowledgements, as long as no lowering
      write commits unacknowledged. */
  lemma PeakCoversLastEquity(s: State, es: seq<Event>)
    requires Backed(s) && NoLoweringLost(s, es)
    ensures Backed(Exec(s, es))
    ensures LastUsed(s, es).Some? ==> Exec(s, es).peak.Some? && Exec(s, es).peak.value >= LastUsed(s, es).value
  {
    BackedRun(s, es);
    if LastUse(s, es).Some? {
      var n := LastUse(s, es).value;
      FallsShortExactly(s, es);
      NoLoweringLostBefore(s, es, n);
      BackedRun(s, es[..n]);
      PlansCoverEquity(Exec(s, es[..n]), es[n]);
    }
  }

  /** The failing run: a withdrawal halves the mark of 100 unacknowledged, and
      the reading of 80 that follows trusts the cached 100. */
  lemma LostWithdrawalFallsShort()
    ensures var start := State(Some(100.0), Some(100.0), None);
            var flow := External(Flow(TransferOut, 50.0, 100.0, 50.0), 50.0, Ambiguous);
            var reading := Reading(80.0, Committed);
            var end := Exec(start, [flow, reading]);
            && LastUsed(start, [flow, reading]) == Some(80.0) && end.peak == Some(50.0)
            && LosesLowering(start, flow)
  {
    var start := State(Some(100.0), Some(100.0), None);
    var flow, reading := External(Flow(TransferOut, 50.0, 100.0, 50.0), 50.0, Ambiguous), Reading(80.0, Committed);
    var es := [flow, reading];
    assert es[..1] == [flow] && es[..1][..0] == [];
    assert 50.0 / 100.0 == 0.5 && 100.0 / 80.0 == 1.25;
    var half := Next(start, flow);
    assert Exec(start, es[..1]) == half && half.peak == Some(50.0) && half.cache == Some(100.0);
    assert PlanOf(half, reading) == Keep(100.0);
    assert es[1] == reading;
  }

  /** Only equity readings and restarts, none of them reading a signature. */
  predicate Ordinary(es: seq<Event>) {
    forall k :: 0 <= k < |es| ==> es[k].Restart? || (es[k].Reading? && !Corrupt(es[k].equity))
  }

  /** No copy of the peak carries a signature. */
  predicate Unmarked(s: State) {
    s.peak.Some? && !Corrupt(s.peak.value) && (s.cache.Some? ==> !Corrupt(s.cache.value))
  }

  lemma {:induction false} UnmarkedRun(s: State, es: seq<Event>)
    requires Unmarked(s) && Ordinary(es)
    ensures Unmarked(Exec(s, es))
    decreases |es|
  {
    if |es| == 0 {
    } else {
      UnmarkedRun(s, es[..|es| - 1]);
    }
  }

  /** In any ordinary run, whatever is lost, a step lowers the stored peak
      exactly when it is a reading above the cached and below the stored peak
      whose write reaches the row. */
  lemma OrdinaryFallsExactly(s: State, es: seq<Event>, n: nat)
    requires Unmarked(s) && Ordinary(es) && n < |es|
    ensures var before, after := Exec(s, es[..n]), Exec(s, es[..n + 1]);
            && before.peak.Some? && after.peak.Some?
            && (after.peak.value < before.peak.value <==>
                  es[n].Reading? && es[n].w.Durable() && 0.0 < Known(before).value < es[n].equity < before.peak.value)
  {
    assert es[..n + 1][..n] == es[..n];
    UnmarkedRun(s, es[..n]);
    if es[n].Reading? {
      ReadingLowersExactly(Exec(s, es[..n]), es[n].equity, es[n].w);
    }
  }

  lemma {:induction false} CoherentRun(s: State, es: seq<Event>)
    requires Coherent(s) && Acknowledged(es)
    ensures Coherent(Exec(s, es))
    decreases |es|
  {
    if |es| == 0 {
    } else {
      var e := es[|es| - 1];
      CoherentRun(s, es[..|es| - 1]);
      if !e.Restart? {
        PlansCoverEquity(Exec(s, es[..|es| - 1]), e);
      }
    }
  }

  /** So ordinary trading never lowers the stored peak, through any restarts,
      refusals and crashes, as long as no acknowledgement is lost. */
  lemma {:induction false} OrdinaryNeverLowers(s: State, es: seq<Event>)
    requires Coherent(s) && Acknowledged(es) && Ordinary(es) && Unmarked(s)
    ensures Exec(s, es).peak.Some? && Exec(s, es).peak.value >= s.peak.value
    decreases |es|
  {
    if |es| == 0 {
    } else {
      var n := |es| - 1;
      OrdinaryNeverLowers(s, es[..n]);
      CoherentRun(s, es[..n]);
      OrdinaryFallsExactly(s, es, n);
      assert es[..n + 1] == es;
    }
  }
}

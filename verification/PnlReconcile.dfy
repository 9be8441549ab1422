/** Confirmed exchange closes applied to the daily ledger: the matching and
    the adjustment of bot/durable_daily_pnl.py, and the object that loads,
    changes and persists the ledger behind the engine's back-office calls. */
module PnlReconcile {
  import opened Common
  import opened LedgerStorage
  import opened DailyPnl
  import opened EntryGate

  const WINDOW_MS := 120000

  /** One row of the exchange's position history with its receipt; a field
      that does not parse is `None`. */
  datatype Close = Close(
    closeId: string, pnl: Option<real>, closeTime: Option<int>, symbol: string, openingIds: seq<string>)

  /** XBTUSDTM and ...USDTM contract names denote the engine's symbols. */
  function NormalizedSymbol(raw: string): string {
    if raw == "XBTUSDTM" then "BTCUSDT"
    else if |raw| >= 5 && raw[|raw| - 5..] == "USDTM" then raw[..|raw| - 1]
    else raw
  }

  function Text(e: Event, f: string): string {
    if f in e && e[f].Str? then e[f].s else ""
  }

  /** A finite estimate of the close's symbol (or of no known symbol). */
  predicate IsEstimate(e: Event, c: Close) {
    && Text(e, "source") == ESTIMATED
    && (var mine, theirs := NormalizedSymbol(Text(e, "symbol")), NormalizedSymbol(c.symbol);
        mine == "" || theirs == "" || mine == theirs)
    && "closed_at" in e && e["closed_at"].Instant?
    && "pnl" in e && e["pnl"].Num?
  }

  function Estimates(rows: Rows, c: Close): set<Token> {
    set t | t in rows && IsEstimate(rows[t], c)
  }

  function ByLineage(rows: Rows, c: Close, openingId: string): set<Token> {
    set t | t in Estimates(rows, c) && Text(rows[t], "opening_order_id") == openingId
  }

  function ByTime(rows: Rows, c: Close): set<Token>
    requires c.closeTime.Some?
  {
    set t | t in Estimates(rows, c)
            && -WINDOW_MS <= rows[t]["closed_at"].ms - c.closeTime.value <= WINDOW_MS
  }

  function NonEmpty(ids: seq<string>): (r: seq<string>)
    ensures forall x :: x in r ==> x != ""
  {
    if |ids| == 0 then [] else (if ids[0] != "" then [ids[0]] else []) + NonEmpty(ids[1..])
  }

  /** The single element of a set. */
  function Only(s: set<Token>): (t: Token)
    requires |s| == 1
    ensures s == {t}
  {
    var t :| t in s;
    assert |s - {t}| == 0;
    t
  }

  /** The estimate this close confirms. An exact opening order is decisive; the
      time window is a fallback for events that predate opening orders. */
  function Matched(rows: Rows, c: Close): Option<Token> {
    if c.closeId == "" || c.pnl.None? || c.closeTime.None? || c.closeTime.value <= 0 then None
    else
      var ids := NonEmpty(c.openingIds);
      var lineage := if |ids| == 1 then ByLineage(rows, c, ids[0]) else {};
      if |lineage| == 1 then Some(Only(lineage))
      else if |ids| == 1
              && (lineage != {} || exists t :: t in Estimates(rows, c) && Text(rows[t], "opening_order_id") != "")
      then None
      else
        var near := ByTime(rows, c);
        if |near| != 1 then None else Some(Only(near))
  }

  function AdjustmentToken(c: Close): Token {
    OfClose(c.closeId)
  }

  function Adjustment(rows: Rows, c: Close): Event
    requires Matched(rows, c).Some?
  {
    var t := Matched(rows, c).value;
    var opening := Text(rows[t], "opening_order_id");
    var base := map["closed_at" := Instant(c.closeTime.value), "symbol" := Str(NormalizedSymbol(c.symbol)),
                    "close_id" := Str(c.closeId), "estimated_event" := Ref(t), "estimated_pnl" := Num(PnlOf(rows[t])),
                    "confirmed_pnl" := Num(c.pnl.value),
                    "pnl" := Num(c.pnl.value - PnlOf(rows[t])), "source" := Str(ADJUSTMENT)];
    if opening != "" then base["opening_order_id" := Str(opening)] else base
  }

  datatype Outcome = NoMatch | Conflict | Confirmed(rows: Rows)

  function Applied(rows: Rows, c: Close): Outcome {
    if Matched(rows, c).None? then NoMatch
    else if AdjustmentToken(c) in rows && rows[AdjustmentToken(c)] != Adjustment(rows, c) then Conflict
    else Confirmed(rows[AdjustmentToken(c) := Adjustment(rows, c)])
  }

  /** A close that does not match, or contradicts what is recorded for its id,
      leaves the ledger as it was. */
  function AppliedAll(rows: Rows, cs: seq<Close>): Rows
    decreases |cs|
  {
    if |cs| == 0 then rows
    else
      var before := AppliedAll(rows, cs[..|cs| - 1]);
      var r := Applied(before, cs[|cs| - 1]);
      if r.Confirmed? then r.rows else before
  }

  // ---- Adjustments never become evidence ----

  /** Events under close tokens are adjustments, as the two writers make them. */
  ghost predicate WellKeyed(rows: Rows) {
    forall t :: t in rows && t.OfClose? ==> Text(rows[t], "source") == ADJUSTMENT
  }

  /** Two ledgers with the same trade events. */
  ghost predicate SameTrades(a: Rows, b: Rows) {
    && WellKeyed(a) && WellKeyed(b)
    && forall t: Token :: !t.OfClose? ==> (t in a <==> t in b) && (t in a ==> a[t] == b[t])
  }

  lemma MatchingSeesTradesOnly(a: Rows, b: Rows, c: Close)
    requires SameTrades(a, b)
    ensures Matched(a, c) == Matched(b, c)
    ensures Matched(a, c).Some? ==>
            Adjustment(a, c) == Adjustment(b, c) && !Matched(a, c).value.OfClose? && Matched(a, c).value in a
  {
    assert Estimates(a, c) == Estimates(b, c);
    forall id
      ensures ByLineage(a, c, id) == ByLineage(b, c, id)
    {
    }
    if c.closeTime.Some? {
      assert ByTime(a, c) == ByTime(b, c);
    }
    if Matched(a, c).Some? {
      MatchIsEstimate(a, c);
    }
  }

  lemma MatchIsEstimate(rows: Rows, c: Close)
    requires Matched(rows, c).Some?
    ensures Matched(rows, c).value in Estimates(rows, c)
  {
    var ids := NonEmpty(c.openingIds);
    var lineage := if |ids| == 1 then ByLineage(rows, c, ids[0]) else {};
    if |lineage| == 1 {
      assert Only(lineage) in lineage;
    } else {
      assert Only(ByTime(rows, c)) in ByTime(rows, c);
    }
  }

  // ---- Order and repetition ----

  /** What a close does to a ledger: the estimate it confirms and its
      adjustment. The plan of a batch is read off the starting ledger. */
  datatype Entry = Entry(estimate: Token, value: Event)

  type Plan = map<Close, Entry>

  function PlanOf(rows: Rows, cs: seq<Close>): Plan {
    map c | c in cs && Matched(rows, c).Some? :: Entry(Matched(rows, c).value, Adjustment(rows, c))
  }

  function Planned(rows: Rows, plan: Plan, cs: seq<Close>): Rows
    decreases |cs|
  {
    if |cs| == 0 then rows
    else
      var before, c := Planned(rows, plan, cs[..|cs| - 1]), cs[|cs| - 1];
      if c in plan then before[AdjustmentToken(c) := plan[c].value] else before
  }

  /** A close id denotes one close, and what the ledger already records for a
      matching one is its adjustment. */
  ghost predicate Consistent(rows: Rows, plan: Plan, cs: seq<Close>) {
    && (forall c, d :: c in cs && d in cs && c.closeId == d.closeId ==> c == d)
    && (forall c :: c in cs && c in plan && AdjustmentToken(c) in rows ==> rows[AdjustmentToken(c)] == plan[c].value)
  }

  /** The ledger with exactly the adjustments of the matching closes added. */
  ghost predicate IsAdjusted(final: Rows, rows: Rows, plan: Plan, cs: seq<Close>) {
    && (forall t :: t in rows ==> t in final && final[t] == rows[t])
    && (forall c :: c in cs && c in plan ==> AdjustmentToken(c) in final && final[AdjustmentToken(c)] == plan[c].value)
    && (forall t :: t in final && t !in rows ==> exists c :: c in cs && c in plan && AdjustmentToken(c) == t)
  }

  lemma {:induction false} PlannedIsAdjusted(rows: Rows, plan: Plan, cs: seq<Close>)
    requires Consistent(rows, plan, cs)
    ensures IsAdjusted(Planned(rows, plan, cs), rows, plan, cs)
    decreases |cs|
  {
    if |cs| == 0 {
    } else {
      var n := |cs| - 1;
      var rest, c := cs[..n], cs[n];
      assert cs == rest + [c];
      assert forall d :: d in cs <==> d in rest || d == c;
      PlannedIsAdjusted(rows, plan, rest);
      var before, after := Planned(rows, plan, rest), Planned(rows, plan, cs);
      forall t | t in after && t !in rows
        ensures exists d :: d in cs && d in plan && AdjustmentToken(d) == t
      {
        if t in before {
          var d :| d in rest && d in plan && AdjustmentToken(d) == t;
          assert d in cs;
        } else {
          assert c in cs && AdjustmentToken(c) == t;
        }
      }
      forall d | d in cs && d in plan
        ensures AdjustmentToken(d) in after && after[AdjustmentToken(d)] == plan[d].value
      {
        assert d == c || d in rest;
        assert AdjustmentToken(d) == AdjustmentToken(c) ==> d == c;
      }
    }
  }

  lemma AdjustedIncluded(x: Rows, y: Rows, rows: Rows, plan: Plan, a: seq<Close>, b: seq<Close>)
    requires IsAdjusted(x, rows, plan, a) && IsAdjusted(y, rows, plan, b) && forall c :: c in a ==> c in b
    ensures forall t :: t in x ==> t in y && x[t] == y[t]
  {
    forall t | t in x
      ensures t in y && x[t] == y[t]
    {
      if t !in rows {
        var c :| c in a && c in plan && AdjustmentToken(c) == t;
        assert c in b;
      }
    }
  }

  /** The real fold follows the plan: no adjustment it adds changes what a
      later close matches, and no consistent batch ever conflicts. */
  lemma {:induction false} AppliedFollowsPlan(rows: Rows, cs: seq<Close>, upTo: nat)
    requires WellKeyed(rows) && Consistent(rows, PlanOf(rows, cs), cs) && upTo <= |cs|
    ensures AppliedAll(rows, cs[..upTo]) == Planned(rows, PlanOf(rows, cs), cs[..upTo])
    ensures SameTrades(AppliedAll(rows, cs[..upTo]), rows)
    decreases upTo
  {
    if upTo > 0 {
      var plan, c := PlanOf(rows, cs), cs[upTo - 1];
      assert cs[..upTo][..upTo - 1] == cs[..upTo - 1];
      AppliedFollowsPlan(rows, cs, upTo - 1);
      var before := AppliedAll(rows, cs[..upTo - 1]);
      PlannedIsAdjusted(rows, plan, cs[..upTo - 1]);
      if c in plan {
        RecordedIsPlanned(rows, plan, cs, upTo, before);
      }
      OneFollows(rows, before, c);
    }
  }

  /** One close applied to a ledger that differs only in adjustments. */
  lemma OneFollows(rows: Rows, before: Rows, c: Close)
    requires SameTrades(before, rows)
    requires Matched(rows, c).Some? && AdjustmentToken(c) in before ==>
             before[AdjustmentToken(c)] == Adjustment(rows, c)
    ensures var r := Applied(before, c);
            && (Matched(rows, c).Some? ==> r == Confirmed(before[AdjustmentToken(c) := Adjustment(rows, c)]))
            && (Matched(rows, c).None? ==> r == NoMatch)
            && (r.Confirmed? ==> SameTrades(r.rows, rows))
  {
    MatchingSeesTradesOnly(before, rows, c);
    if Matched(rows, c).Some? {
      AdjustmentSource(rows, c);
    }
  }

  lemma AdjustmentSource(rows: Rows, c: Close)
    requires Matched(rows, c).Some?
    ensures Text(Adjustment(rows, c), "source") == ADJUSTMENT
    ensures PnlOf(Adjustment(rows, c)) == c.pnl.value - PnlOf(rows[Matched(rows, c).value])
  {
  }

  lemma RecordedIsPlanned(rows: Rows, plan: Plan, cs: seq<Close>, upTo: nat, before: Rows)
    requires 0 < upTo <= |cs| && Consistent(rows, plan, cs) && IsAdjusted(before, rows, plan, cs[..upTo - 1])
    requires cs[upTo - 1] in plan
    ensures var c := cs[upTo - 1];
            AdjustmentToken(c) in before ==> before[AdjustmentToken(c)] == plan[c].value
  {
    var c := cs[upTo - 1];
    if AdjustmentToken(c) in before && AdjustmentToken(c) !in rows {
      var d :| d in cs[..upTo - 1] && d in plan && AdjustmentToken(d) == AdjustmentToken(c);
      assert d in cs && c in cs;
    }
  }

  /** Applying confirmed closes in any order and with any repetition gives
      the same ledger. */
  lemma OrderAndRepetitionIrrelevant(rows: Rows, a: seq<Close>, b: seq<Close>)
    requires WellKeyed(rows) && Consistent(rows, PlanOf(rows, a), a) && forall c :: c in a <==> c in b
    ensures AppliedAll(rows, a) == AppliedAll(rows, b)
  {
    var plan := PlanOf(rows, a);
    assert plan == PlanOf(rows, b);
    AppliedIsPlanned(rows, a);
    AppliedIsPlanned(rows, b);
    PlannedSame(rows, plan, a, b);
  }

  lemma AppliedIsPlanned(rows: Rows, cs: seq<Close>)
    requires WellKeyed(rows) && Consistent(rows, PlanOf(rows, cs), cs)
    ensures AppliedAll(rows, cs) == Planned(rows, PlanOf(rows, cs), cs)
  {
    assert cs[..|cs|] == cs;
    AppliedFollowsPlan(rows, cs, |cs|);
  }

  lemma PlannedSame(rows: Rows, plan: Plan, a: seq<Close>, b: seq<Close>)
    requires Consistent(rows, plan, a) && Consistent(rows, plan, b) && forall c :: c in a <==> c in b
    ensures Planned(rows, plan, a) == Planned(rows, plan, b)
  {
    var x, y := Planned(rows, plan, a), Planned(rows, plan, b);
    PlannedIsAdjusted(rows, plan, a);
    PlannedIsAdjusted(rows, plan, b);
    AdjustedIncluded(x, y, rows, plan, a, b);
    AdjustedIncluded(y, x, rows, plan, b, a);
  }

  // ---- The ledger object ----

  /** The canonical row of one day, its legacy rows, and what the engine has
      cached of it. */
  class DailyLedger {
    const day: int
    const legacy: seq<Option<Ledger>>
    const gate: Gate
    var stored: Option<Ledger>
    var cached: Option<Rows>

    constructor (day: int, legacy: seq<Option<Ledger>>, stored: Option<Ledger>, gate: Gate)
      ensures this.day == day && this.legacy == legacy && this.stored == stored && this.gate == gate && cached == None
    {
      this.day, this.legacy, this.stored, this.gate, this.cached := day, legacy, stored, gate, None;
    }

    ghost function Loading(): Loaded
      reads this
    {
      LoadedFrom([stored] + legacy, day)
    }

    /** The ledger a checkpoint starts from: the stored one, or an empty one that
        covers the day from now on. */
    ghost function Base(coverage: string): Ledger
      reads this
    {
      if Loading().Present? then Loading().ledger else Ledger(1, day, map[], Some(coverage))
    }

    /** `checkpoint`: persists the merged ledger with all trades of the day,
        unless it is stored as it is, or closes the gate. */
    method Checkpoint(trades: seq<Trade>, extra: Option<Trade>, coverage: string, w: WriteOutcome) returns (ok: bool)
      requires !w.Crashed()
      modifies this, gate`dailyPnlOk
      ensures gate.dailyPnlOk == ok
      ensures var l, base := old(Loading()), old(Base(coverage));
              var all := trades + (if extra.Some? then [extra.value] else []);
              var next := WithTrades(base.events, all, day);
              && (l.Unusable? || next.None? ==> !ok && stored == old(stored) && cached == old(cached))
              && (!l.Unusable? && next.Some? ==>
                    var merged := Some(base.(events := next.value));
                    && merged.value.version == 1 && merged.value.day == day
                    && (ok <==> old(stored) == merged || w == Committed)
                    && stored == (if w == Refused then old(stored) else merged)
                    && cached == if ok then next else old(cached))
    {
      var l := Load([stored] + legacy, day);
      LoadExactly([stored] + legacy, day);
      ok := false;
      if l.Unusable? {
        gate.dailyPnlOk := false;
        return;
      }
      var state := if l.Present? then l.ledger else Ledger(1, day, map[], Some(coverage));
      PresentIsValid([stored] + legacy, day);
      var r := AddTrades(state.events, trades + (if extra.Some? then [extra.value] else []), day);
      if r.None? {
        gate.dailyPnlOk := false;
        return;
      }
      var encoded := state.(events := r.value);
      if Some(encoded) != stored {
        if w.Durable() {
          stored := Some(encoded);
        }
        if !w.Committed? {
          gate.dailyPnlOk := false;
          return;
        }
      }
      cached := r;
      gate.dailyPnlOk := true;
      ok := true;
    }

    /** `reconcile_confirmed_exchange` for a receipt that is authoritative: the
        correction is persisted unless it is stored already, a close without a
        readable time, an unusable ledger, a contradiction or an unconfirmed
        write close the gate, and a close that matches nothing changes nothing. */
    method ReconcileClose(c: Close, w: WriteOutcome) returns (ok: bool)
      requires !w.Crashed()
      modifies this, gate`dailyPnlOk
      ensures var l := old(Loading());
              && (c.closeTime.None? || l.Unusable? || (l.Present? && Applied(l.ledger.events, c).Conflict?) ==>
                    !ok && stored == old(stored) && cached == old(cached) && !gate.dailyPnlOk)
              && (c.closeTime.Some? && (l.Absent? || (l.Present? && Applied(l.ledger.events, c).NoMatch?)) ==>
                    !ok && stored == old(stored) && cached == old(cached) && gate.dailyPnlOk == old(gate.dailyPnlOk))
              && (c.closeTime.Some? && l.Present? && Applied(l.ledger.events, c).Confirmed? ==>
                    var next := Applied(l.ledger.events, c).rows;
                    var corrected := Some(l.ledger.(events := next));
                    && (ok <==> old(stored) == corrected || w == Committed)
                    && stored == (if w == Refused then old(stored) else corrected)
                    && cached == (if ok then Some(next) else old(cached))
                    && gate.dailyPnlOk == ok)
    {
      ok := false;
      if c.closeTime.None? {
        gate.dailyPnlOk := false;
        return;
      }
      var l := Load([stored] + legacy, day);
      if l.Unusable? {
        gate.dailyPnlOk := false;
        return;
      }
      if l.Absent? {
        return;
      }
      var rows := l.ledger.events;
      var match_ := Matched(rows, c);
      if match_.None? {
        return;
      }
      var token, value := AdjustmentToken(c), Adjustment(rows, c);
      if token in rows && rows[token] != value {
        gate.dailyPnlOk := false;
        return;
      }
      var next := rows[token := value];
      var encoded := l.ledger.(events := next);
      if Some(encoded) != stored {
        if w.Durable() {
          stored := Some(encoded);
        }
        if !w.Committed? {
          gate.dailyPnlOk := false;
          return;
        }
      }
      cached := Some(next);
      gate.dailyPnlOk := true;
      ok := true;
    }
  }

  lemma {:induction false} PresentIsValid(raws: seq<Option<Ledger>>, day: int)
    ensures LoadedFrom(raws, day).Present? ==>
            LoadedFrom(raws, day).ledger.day == day && LoadedFrom(raws, day).ledger.version == 1
    decreases |raws|
  {
    if |raws| == 0 {
    } else {
      PresentIsValid(raws[..|raws| - 1], day);
    }
  }
}

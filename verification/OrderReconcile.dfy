/** The loops that bring restored and running orders to terminal truth:
    `persist_orders` and `reconcile_orders` of bot/durable_execution.py,
    `reconcile_pending` of bot/durable_live_reconciliation.py, and the
    hardened startup pass of bot/durable_reconcile_hardening.py. None of them
    submits anything. A pass leaves the entry gate open only when every order
    is terminal; `persist_orders` opens it on success whatever is pending. */
module OrderReconcile {
  import opened Common
  import opened OrderState
  import opened OrderTruth
  import opened EntryGate

  const REASON := "orders"

  datatype Lookup = LookupRaised | NoData | Data(snapshot: Snapshot)

  /** What an order's own client id lookup makes of it. */
  function Polled(o: Identity, v: View, l: Lookup): View {
    if l.Data? then After(o, v, l.snapshot) else v
  }

  /** The startup status read by order id; sizes that do not parse read as 0. */
  datatype IdStatus = NoStatus | Known(filled: real, active: bool, cancelled: bool)

  /** One order in the hardened startup pass. */
  function Hardened(v: View, provenNotDispatched: bool, st: IdStatus): View {
    if provenNotDispatched && (v.state.CREATED? || v.state.SUBMITTING?) then v.(state := FAILED)
    else if v.orderId != "" && st.Known? && !Terminal(v.state) && !v.state.CREATED? then
      if st.filled > 0.0 && !st.active && !st.cancelled
      then v.(state := FILLED, filled := st.filled, exposureDone := false)
      else if !st.active && st.filled <= 0.0 then v.(state := if v.state.SUBMITTING? then REJECTED else CANCELLED)
      else v
    else v
  }

  predicate Open(s: State) {
    s.CREATED? || s.SUBMITTING? || s.SUBMITTED? || s.PARTIALLY_FILLED?
  }

  /** What the second pass may do to an open order, from its inputs alone. It
      fails one whose dispatch is proven not to have happened; otherwise it
      ends one that was announced, has an order id, and whose status is
      inactive; every other order stays as it is, open. */
  ghost predicate HardensRight(v: View, proven: bool, st: IdStatus, after: View) {
    && after.orderId == v.orderId
    && (!Open(v.state) ==> after == v)
    && ((v.state.CREATED? || v.state.SUBMITTING?) && proven ==> after == v.(state := FAILED))
    && (v.state.CREATED? && !proven ==> after == v)
    && (Open(v.state) && !v.state.CREATED? && !(v.state.SUBMITTING? && proven) ==>
          && (v.orderId == "" || st.NoStatus? || st.active ==> after == v)
          && (v.orderId != "" && st.Known? && !st.active && st.filled > 0.0 && st.cancelled ==> after == v)
          && (v.orderId != "" && st.Known? && !st.active && st.filled > 0.0 && !st.cancelled ==>
                after == View(FILLED, v.orderId, st.filled, false))
          && (v.orderId != "" && st.Known? && !st.active && st.filled <= 0.0 ==>
                after == v.(state := if v.state.SUBMITTING? then REJECTED else CANCELLED)))
  }

  lemma HardenedByInputs(v: View, proven: bool, st: IdStatus)
    ensures HardensRight(v, proven, st, Hardened(v, proven, st))
  {
  }

  /** The status by order id, told to the shared evaluator. */
  function Told(v: View, st: IdStatus): Snapshot
    requires st.Known?
  {
    Snapshot("", "", v.orderId, Some(st.filled), Some(st.active), "", st.cancelled)
  }

  /** Where the two agree, by the branch the pass takes: a proven intent, an
      unannounced order, a size the evaluator refuses, an active order, an
      ended order with a fill, and an ended order without one. */
  predicate Agreeing(v: View, qty: real, proven: bool, st: IdStatus)
    requires st.Known?
  {
    if Terminal(v.state) then true
    else if proven && (v.state.CREATED? || v.state.SUBMITTING?) then
      v.state.CREATED? && st.filled >= 0.0 && !st.active && !Full(qty, st.filled)
    else if v.state.CREATED? then st.filled < 0.0
    else if st.filled < 0.0 then st.active
    else if st.active then
      (v.state.SUBMITTED? && st.filled == 0.0)
      || (v.state.PARTIALLY_FILLED? && (st.filled == 0.0 || st.filled <= v.filled + Tolerance(qty)))
    else if st.filled > 0.0 then !st.cancelled && Full(qty, st.filled)
    else !v.state.SUBMITTING? && v.filled == 0.0 && !Full(qty, 0.0)
  }

  /** The hardened pass and the shared evaluator, given the same facts about
      any order with an order id. */
  lemma HardenedAgreesExactly(o: Identity, v: View, proven: bool, st: IdStatus)
    requires v.orderId != "" && o.qty > 0.0 && st.Known?
    ensures After(o, v, Told(v, st)) == Hardened(v, proven, st) <==> Agreeing(v, o.qty, proven, st)
  {
  }

  /** Three ways they differ: a partial fill of an ended order is promoted to
      FILLED, a full fill beside a cancellation leaves the order pending, and
      an end without a fill keeps a fill the exchange no longer reports. */
  lemma HardenedDiffers(o: Identity)
    requires o.qty == 10.0
    ensures var v := View(SUBMITTED, "id", 0.0, false);
            && Hardened(v, false, Known(4.0, false, false)).state == FILLED
            && After(o, v, Told(v, Known(4.0, false, false))).state == CANCELLED
    ensures var v := View(SUBMITTED, "id", 0.0, false);
            && Hardened(v, false, Known(10.0, false, true)) == v
            && After(o, v, Told(v, Known(10.0, false, true))).state == FILLED
    ensures var v := View(PARTIALLY_FILLED, "id", 4.0, false);
            && Hardened(v, false, Known(0.0, false, false)).filled == 4.0
            && After(o, v, Told(v, Known(0.0, false, false))).filled == 0.0
  {
  }

  // ---- The book as a value ----

  /** The orders, their stored snapshot, and whether the gate has the reason. */
  datatype Book = Book(views: seq<View>, stored: seq<View>, blocked: bool)

  predicate AllTerminal(views: seq<View>) {
    forall i :: 0 <= i < |views| ==> Terminal(views[i].state)
  }

  lemma OneMore(before: seq<View>, after: seq<View>, k: nat)
    requires k < |before| == |after|
    ensures after[..k + 1] != before[..k + 1] <==> after[..k] != before[..k] || after[k] != before[k]
    ensures AllTerminal(after[..k + 1]) <==> AllTerminal(after[..k]) && Terminal(after[k].state)
  {
    assert after[..k + 1] == after[..k] + [after[k]] && before[..k + 1] == before[..k] + [before[k]];
    if AllTerminal(after[..k + 1]) {
      assert Terminal(after[..k + 1][k].state);
      forall i | 0 <= i < k
        ensures Terminal(after[..k][i].state)
      {
        assert after[..k + 1][i] == after[..k][i];
      }
    }
  }

  function PolledAll(ids: seq<Identity>, views: seq<View>, lookups: seq<Lookup>): seq<View>
    requires |ids| == |views| == |lookups|
  {
    seq(|views|, i requires 0 <= i < |views| => Polled(ids[i], views[i], lookups[i]))
  }

  function HardenedAll(views: seq<View>, proven: seq<bool>, status: seq<IdStatus>): seq<View>
    requires |views| == |proven| == |status|
  {
    seq(|views|, i requires 0 <= i < |views| => Hardened(views[i], proven[i], status[i]))
  }

  /** A bare `persist_orders`. */
  function AfterPersist(b: Book, w: WriteOutcome): Book {
    Book(b.views, if w.Durable() then b.views else b.stored, !w.Committed?)
  }

  /** New views are persisted when they differ; then the gate follows what is
      left open. */
  function AfterConverge(b: Book, views: seq<View>, w: WriteOutcome): Book {
    var next := b.(views := views);
    if views == b.views then next.(blocked := !AllTerminal(views))
    else
      var saved := AfterPersist(next, w);
      saved.(blocked := saved.blocked || !AllTerminal(views))
  }

  /** `reconcile_pending`. */
  function AfterPass(b: Book, ids: seq<Identity>, able: bool, canLookup: bool, lookups: seq<Lookup>, w: WriteOutcome)
    : Book
    requires |ids| == |b.views| == |lookups|
  {
    if AllTerminal(b.views) || !able then b
    else if !canLookup then b.(blocked := true)
    else AfterConverge(b, PolledAll(ids, b.views, lookups), w)
  }

  /** `reconcile_orders`: it persists whether or not anything changed. */
  function AfterReconcile(b: Book, ids: seq<Identity>, connected: bool, lookups: seq<Lookup>, w: WriteOutcome): Book
    requires |ids| == |b.views| == |lookups|
  {
    if AllTerminal(b.views) then b.(blocked := false)
    else
      var views := if connected then PolledAll(ids, b.views, lookups) else b.views;
      var saved := AfterPersist(b.(views := views), w);
      saved.(blocked := saved.blocked || !connected || !AllTerminal(views))
  }

  /** What the hardened startup does after a first pass that failed. */
  function AfterSecond(b: Book, proven: seq<bool>, status: seq<IdStatus>, w: WriteOutcome): Book
    requires |b.views| == |proven| == |status|
  {
    if AllTerminal(b.views) then AfterPersist(b, w)
    else AfterConverge(b, HardenedAll(b.views, proven, status), w)
  }

  /** `reconcile_orders_hardened`, the startup as installed. */
  function AfterHardened(
    b: Book, ids: seq<Identity>, connected: bool, lookups: seq<Lookup>, w1: WriteOutcome, proven: seq<bool>,
    status: seq<IdStatus>, w2: WriteOutcome): Book
    requires |ids| == |b.views| == |lookups| == |proven| == |status|
  {
    var first := AfterReconcile(b, ids, connected, lookups, w1);
    if first.blocked then AfterSecond(first, proven, status, w2) else first
  }

  /** The lookup of the first pass brings nothing that the order accepts. */
  predicate Unanswered(o: Identity, v: View, connected: bool, l: Lookup) {
    !connected || !l.Data? || Refusal(o, v, l.snapshot).Some?
      || (!SaysActive(l.snapshot) && !SaysTerminal(l.snapshot))
  }

  /** The order the startup must keep: open, without an order id, not proven
      undispatched, and unknown to the exchange. */
  predicate Unresolved(o: Identity, v: View, connected: bool, l: Lookup, proven: bool) {
    && Open(v.state) && v.orderId == "" && Unanswered(o, v, connected, l)
    && !(proven && (v.state.CREATED? || v.state.SUBMITTING?))
  }

  lemma UnansweredStays(o: Identity, v: View, l: Lookup)
    requires Unanswered(o, v, true, l)
    ensures Polled(o, v, l) == v
  {
  }

  lemma FirstKeeps(b: Book, ids: seq<Identity>, connected: bool, lookups: seq<Lookup>, w: WriteOutcome, i: nat)
    requires |ids| == |b.views| == |lookups| && i < |b.views| && !Terminal(b.views[i].state)
    requires Unanswered(ids[i], b.views[i], connected, lookups[i])
    ensures var first := AfterReconcile(b, ids, connected, lookups, w);
            |first.views| == |b.views| && first.views[i] == b.views[i] && first.blocked && !AllTerminal(first.views)
  {
    if connected {
      UnansweredStays(ids[i], b.views[i], lookups[i]);
      assert PolledAll(ids, b.views, lookups)[i] == b.views[i];
    }
  }

  lemma SecondHardens(b: Book, proven: seq<bool>, status: seq<IdStatus>, w: WriteOutcome, i: nat)
    requires |b.views| == |proven| == |status| && i < |b.views| && !Terminal(b.views[i].state)
    ensures var after := AfterSecond(b, proven, status, w);
            && |after.views| == |b.views|
            && after.views[i] == Hardened(b.views[i], proven[i], status[i])
            && (!Terminal(after.views[i].state) ==> after.blocked)
  {
    assert HardenedAll(b.views, proven, status)[i] == Hardened(b.views[i], proven[i], status[i]);
  }

  /** Through both passes such an order stays as it is, open, and the gate is
      closed; one that was proven undispatched ends FAILED. */
  lemma HardenedKeepsUnresolved(
    b: Book, ids: seq<Identity>, connected: bool, lookups: seq<Lookup>, w1: WriteOutcome, proven: seq<bool>,
    status: seq<IdStatus>, w2: WriteOutcome, i: nat)
    requires |ids| == |b.views| == |lookups| == |proven| == |status| && i < |b.views|
    requires Open(b.views[i].state) && Unanswered(ids[i], b.views[i], connected, lookups[i])
    ensures var after := AfterHardened(b, ids, connected, lookups, w1, proven, status, w2);
            && |after.views| == |b.views|
            && (Unresolved(ids[i], b.views[i], connected, lookups[i], proven[i]) ==>
                  after.views[i] == b.views[i] && after.blocked)
            && ((b.views[i].state.CREATED? || b.views[i].state.SUBMITTING?) && proven[i] ==>
                  after.views[i] == b.views[i].(state := FAILED))
  {
    HardenedByInputs(b.views[i], proven[i], status[i]);
    FirstKeeps(b, ids, connected, lookups, w1, i);
    SecondHardens(AfterReconcile(b, ids, connected, lookups, w1), proven, status, w2, i);
  }

  // ---- The passes, from their inputs alone ----

  ghost predicate AnyOpen(views: seq<View>) {
    exists i :: 0 <= i < |views| && Open(views[i].state)
  }

  /** The views are those before, each with what its own lookup brought. */
  ghost predicate Asked(ids: seq<Identity>, before: seq<View>, lookups: seq<Lookup>, after: seq<View>)
    requires |ids| == |before| == |lookups|
  {
    && |after| == |before|
    && forall i :: 0 <= i < |before| ==>
                     after[i] == match lookups[i]
                                 case Data(snapshot) => After(ids[i], before[i], snapshot)
                                 case NoData => before[i]
                                 case LookupRaised => before[i]
  }

  /** Stored exactly when the write reached the database. */
  ghost predicate Saved(before: Book, after: Book, w: WriteOutcome) {
    after.stored == if w in {Committed, Ambiguous, CrashedAfter} then after.views else before.stored
  }

  lemma PersistByOutcome(b: Book, w: WriteOutcome)
    ensures var after := AfterPersist(b, w);
            after.views == b.views && Saved(b, after, w) && (after.blocked <==> w != Committed)
  {
  }

  /** A pass that may poll asks about every order, stores only what changed,
      and leaves the gate open only with nothing open and nothing unsaved. */
  lemma PassByInputs(b: Book, ids: seq<Identity>, able: bool, canLookup: bool, lookups: seq<Lookup>, w: WriteOutcome)
    requires |ids| == |b.views| == |lookups|
    ensures var after := AfterPass(b, ids, able, canLookup, lookups, w);
            && (!able || !AnyOpen(b.views) ==> after == b)
            && (able && AnyOpen(b.views) && !canLookup ==> after == b.(blocked := true))
            && (able && AnyOpen(b.views) && canLookup ==>
                  && Asked(ids, b.views, lookups, after.views)
                  && (after.views == b.views ==> after.stored == b.stored)
                  && (after.views != b.views ==> Saved(b, after, w))
                  && (after.blocked <==> AnyOpen(after.views) || (after.views != b.views && w != Committed)))
  {
  }

  /** The first startup pass stores whatever it found, and succeeds only
      connected, with everything terminal, and with a confirmed write. */
  lemma StartupByInputs(b: Book, ids: seq<Identity>, connected: bool, lookups: seq<Lookup>, w: WriteOutcome)
    requires |ids| == |b.views| == |lookups|
    ensures var after := AfterReconcile(b, ids, connected, lookups, w);
            && (!AnyOpen(b.views) ==> after == b.(blocked := false))
            && (AnyOpen(b.views) ==>
                  && (if connected then Asked(ids, b.views, lookups, after.views) else after.views == b.views)
                  && Saved(b, after, w)
                  && (after.blocked <==> !connected || AnyOpen(after.views) || w != Committed))
  {
  }

  lemma OpenOrTerminal(views: seq<View>)
    ensures AnyOpen(views) <==> !AllTerminal(views)
  {
  }

  lemma HardenedEach(views: seq<View>, proven: seq<bool>, status: seq<IdStatus>, i: nat)
    requires |views| == |proven| == |status| && i < |views|
    ensures HardensRight(views[i], proven[i], status[i], HardenedAll(views, proven, status)[i])
    ensures Terminal(views[i].state) ==> HardensRight(views[i], proven[i], status[i], views[i])
  {
    HardenedByInputs(views[i], proven[i], status[i]);
  }

  /** The second pass treats each order by its own evidence, stores what it
      changed, and opens the gate under the same terms as a pending pass. */
  lemma SecondByInputs(b: Book, proven: seq<bool>, status: seq<IdStatus>, w: WriteOutcome)
    requires |b.views| == |proven| == |status|
    ensures var after := AfterSecond(b, proven, status, w);
            && |after.views| == |b.views|
            && (forall i :: 0 <= i < |b.views| ==> HardensRight(b.views[i], proven[i], status[i], after.views[i]))
            && (AnyOpen(b.views) && after.views == b.views ==>
                  after.stored == b.stored && after.blocked)
            && (!AnyOpen(b.views) || after.views != b.views ==>
                  Saved(b, after, w) && (after.blocked <==> AnyOpen(after.views) || w != Committed))
  {
    OpenOrTerminal(b.views);
    forall i | 0 <= i < |b.views|
      ensures HardensRight(b.views[i], proven[i], status[i], AfterSecond(b, proven, status, w).views[i])
    {
      HardenedEach(b.views, proven, status, i);
    }
    OpenOrTerminal(AfterSecond(b, proven, status, w).views);
  }

  /** The second pass follows a first one that failed, and nothing else. */
  lemma HardenedIsBoth(
    b: Book, ids: seq<Identity>, connected: bool, lookups: seq<Lookup>, w1: WriteOutcome, proven: seq<bool>,
    status: seq<IdStatus>, w2: WriteOutcome)
    requires |ids| == |b.views| == |lookups| == |proven| == |status|
    ensures var first := AfterReconcile(b, ids, connected, lookups, w1);
            AfterHardened(b, ids, connected, lookups, w1, proven, status, w2)
            == if AnyOpen(b.views) && (!connected || AnyOpen(first.views) || w1 != Committed)
               then AfterSecond(first, proven, status, w2) else first
  {
    StartupByInputs(b, ids, connected, lookups, w1);
  }

  /** A startup that opens the gate has stored what it made of open orders. */
  lemma OpenedIsStored(
    b: Book, ids: seq<Identity>, connected: bool, lookups: seq<Lookup>, w1: WriteOutcome, proven: seq<bool>,
    status: seq<IdStatus>, w2: WriteOutcome)
    requires |ids| == |b.views| == |lookups| == |proven| == |status| && !AllTerminal(b.views)
    ensures var after := AfterHardened(b, ids, connected, lookups, w1, proven, status, w2);
            !after.blocked ==> AllTerminal(after.views) && after.stored == after.views
  {
  }

  class OrderBook {
    const orders: seq<ManagedOrder>
    const gate: Gate
    /** The snapshot in the database. */
    var stored: seq<View>

    constructor (orders: seq<ManagedOrder>, gate: Gate)
      ensures this.orders == orders && this.gate == gate && stored == []
    {
      this.orders, this.gate, stored := orders, gate, [];
    }

    ghost predicate Valid()
      reads this, gate
    {
      && gate.Valid()
      && forall i, j :: 0 <= i < j < |orders| ==> orders[i] != orders[j]
    }

    ghost function Views(): seq<View>
      reads orders
    {
      seq(|orders|, i requires 0 <= i < |orders| reads orders => orders[i].Now())
    }

    ghost function Now(): Book
      reads this, orders, gate
    {
      Book(Views(), stored, REASON in gate.errors)
    }

    ghost function Ids(): seq<Identity> {
      seq(|orders|, i requires 0 <= i < |orders| => IdentityOf(orders[i]))
    }

    ghost predicate Settled()
      reads orders
    {
      AllTerminal(Views())
    }

    ghost predicate StoredNow()
      reads this, orders
    {
      stored == Views()
    }

    method AnyPending() returns (pending: bool)
      ensures pending <==> !Settled()
    {
      var k := 0;
      while k < |orders|
        invariant 0 <= k <= |orders|
        invariant forall i :: 0 <= i < k ==> Terminal(Views()[i].state)
      {
        if !orders[k].IsTerminal() {
          assert !Terminal(Views()[k].state);
          return true;
        }
        k := k + 1;
      }
      return false;
    }

    /** `persist_orders`: any failure closes the gate instead of raising. */
    method PersistOrders(w: WriteOutcome) returns (ok: bool)
      requires Valid() && !w.Crashed()
      modifies this`stored, gate`errors, gate`stateOk
      ensures Valid() && ok == w.Committed?
      ensures w.Durable() ==> StoredNow()
      ensures !w.Durable() ==> stored == old(stored)
      ensures gate.errors == if ok then old(gate.errors) - {REASON} else old(gate.errors) + {REASON}
      ensures Now() == AfterPersist(old(Now()), w)
    {
      var snapshot := [];
      var k := 0;
      while k < |orders|
        invariant 0 <= k <= |orders| && |snapshot| == k
        invariant forall i :: 0 <= i < k ==> snapshot[i] == orders[i].Now()
      {
        var o := orders[k];
        snapshot := snapshot + [View(o.state, o.orderId, o.filled, o.exposureDone)];
        k := k + 1;
      }
      if w.Durable() {
        stored := snapshot;
      }
      if w.Committed? {
        gate.Clear(REASON);
      } else {
        gate.Block(REASON);
      }
      ok := w.Committed?;
    }

    /** Ask the exchange about every pending order and apply its truth. */
    method PollAll(lookups: seq<Lookup>, source: string) returns (changed: bool, unresolved: nat)
      requires Valid() && |lookups| == |orders| && source != "REST"
      modifies orders
      ensures Views() == PolledAll(Ids(), old(Views()), lookups)
      ensures changed <==> Views() != old(Views())
      ensures unresolved == 0 <==> Settled()
    {
      changed, unresolved := false, 0;
      ghost var before := Views();
      ghost var target := PolledAll(Ids(), before, lookups);
      var k := 0;
      while k < |orders|
        invariant 0 <= k <= |orders|
        invariant forall i :: 0 <= i < |orders| ==> orders[i].Now() == if i < k then target[i] else before[i]
        invariant changed <==> target[..k] != before[..k]
        invariant unresolved == 0 <==> AllTerminal(target[..k])
      {
        assert target[k] == Polled(IdentityOf(orders[k]), before[k], lookups[k]);
        var did, terminal := PollOne(orders[k], lookups[k], source);
        changed := changed || did;
        unresolved := unresolved + if terminal then 0 else 1;
        OneMore(before, target, k);
        k := k + 1;
      }
      assert Views() == target && target[..k] == target && before[..k] == before;
    }

    /** Persist what a pass changed, and set the gate by what is left open. */
    method Conclude(changed: bool, ghost before: seq<View>, w: WriteOutcome) returns (r: bool)
      requires Valid() && !w.Crashed() && (changed <==> Views() != before)
      modifies this`stored, gate`errors, gate`stateOk
      ensures Valid()
      ensures r ==> Settled()
      ensures r <==> REASON !in gate.errors
      ensures Now() == AfterConverge(old(Now()).(views := before), Views(), w)
      ensures gate.errors - {REASON} == old(gate.errors) - {REASON}
    {
      if changed {
        var saved := PersistOrders(w);
        if !saved {
          gate.Block(REASON);
          return false;
        }
      }
      var remaining := AnyPending();
      if remaining {
        gate.Block(REASON);
        return false;
      }
      gate.Clear(REASON);
      r := true;
    }

    /** `reconcile_pending`, at most once per cadence and only by the owner.
        True means that no order is pending; a polling pass that fails leaves
        the gate closed, and a pass opens the gate only when all is settled. */
    method ReconcilePending(connected: bool, ownerValid: bool, due: bool, canLookup: bool, lookups: seq<Lookup>,
            w: WriteOutcome)
      returns (r: bool)
      requires Valid() && |lookups| == |orders| && !w.Crashed()
      modifies this`stored, orders, gate`errors, gate`stateOk
      ensures Valid()
      ensures r ==> Settled()
      ensures !r && connected && ownerValid && due ==> REASON in gate.errors
      ensures REASON !in gate.errors && REASON in old(gate.errors) ==> Settled()
      ensures Now() == AfterPass(old(Now()), Ids(), connected && ownerValid && due, canLookup, lookups, w)
      ensures gate.errors - {REASON} == old(gate.errors) - {REASON}
    {
      var pending := AnyPending();
      if !pending {
        SettledIsUnchanged(lookups);
        return true;
      }
      if !connected || !ownerValid || !due {
        return false;
      }
      if !canLookup {
        gate.Block(REASON);
        return false;
      }
      ghost var before := Views();
      var changed, unresolved := PollAll(lookups, "LIVE_REST");
      r := Conclude(changed, before, w);
    }

    /** LIVE `reconcile_orders` at startup. */
    method ReconcileOrders(connected: bool, lookups: seq<Lookup>, w: WriteOutcome) returns (r: bool)
      requires Valid() && |lookups| == |orders| && !w.Crashed()
      modifies this`stored, orders, gate`errors, gate`stateOk
      ensures Valid()
      ensures r ==> Settled()
      ensures r <==> REASON !in gate.errors
      ensures r && !old(Settled()) ==> StoredNow()
      ensures Now() == AfterReconcile(old(Now()), Ids(), connected, lookups, w)
      ensures gate.errors - {REASON} == old(gate.errors) - {REASON}
    {
      var pending := AnyPending();
      if !pending {
        gate.Clear(REASON);
        SettledIsUnchanged(lookups);
        return true;
      }
      var unresolved: nat := 1;
      if connected {
        var _, left := PollAll(lookups, "STARTUP_REST");
        unresolved := left;
      }
      var saved := PersistOrders(w);
      if unresolved > 0 {
        gate.Block(REASON);
        return false;
      }
      r := saved;
    }

    lemma SettledIsUnchanged(lookups: seq<Lookup>)
      requires Settled() && |lookups| == |orders|
      ensures PolledAll(Ids(), Views(), lookups) == Views()
    {
      forall i | 0 <= i < |orders|
        ensures Polled(Ids()[i], Views()[i], lookups[i]) == Views()[i]
      {
        assert Terminal(Views()[i].state);
      }
    }

    /** The second startup pass over the orders the first left pending. */
    method HardenAll(proven: seq<bool>, status: seq<IdStatus>) returns (changed: bool)
      requires Valid() && |proven| == |status| == |orders|
      modifies orders
      ensures Views() == HardenedAll(old(Views()), proven, status)
      ensures changed <==> Views() != old(Views())
    {
      changed := false;
      var k := 0;
      while k < |orders|
        invariant 0 <= k <= |orders|
        invariant forall i :: k <= i < |orders| ==> orders[i].Now() == old(orders[i].Now())
        invariant forall i :: 0 <= i < k ==> orders[i].Now() == Hardened(old(orders[i].Now()), proven[i], status[i])
        invariant changed <==> exists i :: 0 <= i < k && orders[i].Now() != old(orders[i].Now())
      {
        var did := HardenOne(orders[k], proven[k], status[k]);
        changed := changed || did;
        k := k + 1;
      }
    }

    /** The second pass, on the orders the first one left pending. */
    method SecondPass(proven: seq<bool>, status: seq<IdStatus>, w: WriteOutcome) returns (r: bool)
      requires Valid() && |proven| == |status| == |orders| && !w.Crashed()
      modifies this`stored, orders, gate`errors, gate`stateOk
      ensures Valid()
      ensures r ==> Settled()
      ensures r <==> REASON !in gate.errors
      ensures Now() == AfterSecond(old(Now()), proven, status, w)
      ensures gate.errors - {REASON} == old(gate.errors) - {REASON}
    {
      var pending := AnyPending();
      if !pending {
        gate.Clear(REASON);
        r := PersistOrders(w);
        return;
      }
      ghost var before := Views();
      var changed := HardenAll(proven, status);
      r := Conclude(changed, before, w);
    }

    /** `reconcile_orders_hardened`: startup succeeds only with every restored
        order terminal; otherwise the gate stays closed. */
    method ReconcileHardened(
      connected: bool, lookups: seq<Lookup>, w1: WriteOutcome, proven: seq<bool>, status: seq<IdStatus>,
      w2: WriteOutcome)
      returns (r: bool)
      requires Valid() && |lookups| == |proven| == |status| == |orders| && !w1.Crashed() && !w2.Crashed()
      modifies this`stored, orders, gate`errors, gate`stateOk
      ensures Valid()
      ensures r ==> Settled()
      ensures r <==> REASON !in gate.errors
      ensures !Settled() ==> forall partials :: !gate.CanOpen(partials)
      ensures r && !old(Settled()) ==> StoredNow()
      ensures Now() == AfterHardened(old(Now()), Ids(), connected, lookups, w1, proven, status, w2)
      ensures gate.errors - {REASON} == old(gate.errors) - {REASON}
      ensures forall i ::
                0 <= i < |orders| && Unresolved(Ids()[i], old(Views())[i], connected, lookups[i], proven[i]) ==>
                  Views()[i] == old(Views())[i] && !r && REASON in gate.errors
    {
      forall i | 0 <= i < |orders| && Unresolved(Ids()[i], Views()[i], connected, lookups[i], proven[i])
        ensures var after := AfterHardened(Now(), Ids(), connected, lookups, w1, proven, status, w2);
                after.views[i] == Views()[i] && after.blocked
      {
        HardenedKeepsUnresolved(Now(), Ids(), connected, lookups, w1, proven, status, w2, i);
      }
      ghost var b := Now();
      if !AllTerminal(b.views) {
        OpenedIsStored(b, Ids(), connected, lookups, w1, proven, status, w2);
      }
      r := ReconcileOrders(connected, lookups, w1);
      if r {
        return;
      }
      r := SecondPass(proven, status, w2);
    }
  }

  /** One pending order asked about; a refused snapshot leaves it open. */
  method PollOne(order: ManagedOrder, l: Lookup, source: string) returns (changed: bool, terminal: bool)
    requires source != "REST"
    modifies order
    ensures order.Now() == Polled(IdentityOf(order), old(order.Now()), l)
    ensures changed <==> order.Now() != old(order.Now())
    ensures terminal <==> Terminal(order.Now().state)
  {
    if order.IsTerminal() {
      return false, true;
    }
    if !l.Data? {
      return false, false;
    }
    var r := ApplyTruth(order, l.snapshot, source);
    if r.Err? {
      return false, false;
    }
    changed, terminal := r.value.changed, r.value.terminal;
  }

  /** `_advance` to FILLED, or one terminal transition, or nothing. */
  method HardenOne(order: ManagedOrder, provenNotDispatched: bool, st: IdStatus) returns (changed: bool)
    modifies order
    ensures order.Now() == Hardened(old(order.Now()), provenNotDispatched, st)
    ensures HardensRight(old(order.Now()), provenNotDispatched, st, order.Now())
    ensures changed <==> order.state != old(order.state)
    ensures !changed ==> order.Now() == old(order.Now())
  {
    changed := false;
    if order.IsTerminal() {
      return;
    }
    if provenNotDispatched && (order.state.CREATED? || order.state.SUBMITTING?) {
      var _ := order.Apply(FAILED, Info("STARTUP_PROVEN_NOT_DISPATCHED", "", None));
      return true;
    }
    if order.orderId != "" && !order.state.CREATED? && st.Known? {
      if st.filled > 0.0 && !st.active && !st.cancelled {
        if order.state.SUBMITTING? {
          var _ := order.Apply(SUBMITTED, Info("STARTUP_ORDER_ID", order.orderId, Some(st.filled)));
        }
        var _ := order.Apply(FILLED, Info("STARTUP_ORDER_ID", order.orderId, Some(st.filled)));
        return true;
      }
      if !st.active && st.filled <= 0.0 {
        var target := if order.state.SUBMITTING? then REJECTED else CANCELLED;
        var _ := order.Apply(target, Info("STARTUP_ORDER_ID", order.orderId, None));
        return true;
      }
    }
  }
}

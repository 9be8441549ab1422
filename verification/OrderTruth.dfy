/** `apply_exchange_order_truth` of bot/durable_live_reconciliation.py: one
    authoritative exchange snapshot applied to a managed order.

    `Target`, `Recorded` and `Applied` say what a snapshot means; the method
    `ApplyTruth` walks the state machine one transition at a time. */
module OrderTruth {
  import opened Common
  import opened OrderState
  import StopRegistry

  const TERMINAL_STATUS := {"done", "filled", "cancelled", "canceled", "rejected", "reject"}

  /** A missing size reads as zero; a size that is no finite number is `None`. */
  datatype Snapshot = Snapshot(
    clientOid: string, symbol: string, orderId: string, filled: Option<real>,
    isActive: Option<bool>, status: string, cancelExist: bool)

  datatype Identity = Identity(clientOid: string, symbol: string, qty: real)

  datatype TruthError = ClientOidMismatch | SymbolMismatch | OrderIdMismatch | BadQuantity

  function Refusal(o: Identity, v: View, s: Snapshot): Option<TruthError> {
    if s.clientOid != "" && s.clientOid != o.clientOid then Some(ClientOidMismatch)
    else if s.symbol != "" && StopRegistry.CanonSymbol(s.symbol) != StopRegistry.CanonSymbol(o.symbol) then
      Some(SymbolMismatch)
    else if v.orderId != "" && s.orderId != "" && v.orderId != s.orderId then Some(OrderIdMismatch)
    else if s.filled.None? || s.filled.value < 0.0 || o.qty <= 0.0 then Some(BadQuantity)
    else None
  }

  function Tolerance(qty: real): real {
    MaxReal(0.000000001, qty * 0.000000001)
  }

  predicate SaysActive(s: Snapshot) {
    s.isActive == Some(true)
  }

  predicate SaysTerminal(s: Snapshot) {
    s.isActive == Some(false) || s.status in TERMINAL_STATUS || s.cancelExist
  }

  predicate SaysRejected(s: Snapshot) {
    s.status == "rejected" || s.status == "reject"
  }

  predicate Full(qty: real, filled: real) {
    filled + Tolerance(qty) >= qty
  }

  /** The state the snapshot puts the order in. */
  function Target(state: State, qty: real, filled: real, s: Snapshot): State {
    if Terminal(state) then state
    else if SaysActive(s) then
      if filled > 0.0 || state.PARTIALLY_FILLED? then PARTIALLY_FILLED else SUBMITTED
    else if !SaysTerminal(s) then state
    else if Full(qty, filled) then FILLED
    else if state.CREATED? then FAILED
    else if SaysRejected(s) && !state.PARTIALLY_FILLED? then REJECTED
    else CANCELLED
  }

  /** The filled quantity the snapshot leaves behind. */
  function Recorded(v: View, qty: real, filled: real, s: Snapshot): real {
    if Terminal(v.state) then v.filled
    else if SaysActive(s) then
      if v.state.PARTIALLY_FILLED? then
        if filled > 0.0 && filled > v.filled + Tolerance(qty) then filled else v.filled
      else if filled > 0.0 then filled else v.filled
    else if !SaysTerminal(s) then v.filled
    else if Full(qty, filled) then filled
    else if v.state.CREATED? || SaysRejected(s) then v.filled
    else filled
  }

  /** Whether the snapshot changes anything about the order. */
  predicate Changes(v: View, qty: real, filled: real, s: Snapshot) {
    Target(v.state, qty, filled, s) != v.state || Recorded(v, qty, filled, s) != v.filled
  }

  function Applied(v: View, qty: real, filled: real, s: Snapshot): View {
    var state := Target(v.state, qty, filled, s);
    if !Changes(v, qty, filled, s) then v
    else View(state,
              if s.orderId != "" && !state.FAILED? then s.orderId else v.orderId,
              Recorded(v, qty, filled, s),
              v.exposureDone && !state.FILLED?)
  }

  /** The order after a snapshot; a refused snapshot leaves it alone. */
  function After(o: Identity, v: View, s: Snapshot): View {
    if Refusal(o, v, s).Some? then v else Applied(v, o.qty, s.filled.value, s)
  }

  // ---- What a snapshot does, from its fields ----

  /** What the snapshot says of the order's identity is absent or agrees, and
      its sizes can be used. */
  predicate Accepts(o: Identity, v: View, s: Snapshot) {
    && s.clientOid in {"", o.clientOid}
    && (s.symbol == "" || StopRegistry.CanonSymbol(s.symbol) == StopRegistry.CanonSymbol(o.symbol))
    && (v.orderId == "" || s.orderId in {"", v.orderId})
    && o.qty > 0.0 && s.filled.Some? && s.filled.value >= 0.0
  }

  lemma RefusedExactly(o: Identity, v: View, s: Snapshot)
    ensures Refusal(o, v, s).None? <==> Accepts(o, v, s)
  {
  }

  /** An active order is announced, and its fill only rises, by more than the
      tolerance once it is partial. */
  predicate ActiveResult(o: Identity, v: View, s: Snapshot, after: View)
    requires s.filled.Some?
  {
    var filled := s.filled.value;
    var id := if s.orderId != "" then s.orderId else v.orderId;
    if v.state.PARTIALLY_FILLED? then
      if filled > 0.0 && filled > v.filled + MaxReal(0.000000001, o.qty * 0.000000001)
      then after == v.(filled := filled, orderId := id) else after == v
    else if filled > 0.0 then after == v.(state := PARTIALLY_FILLED, filled := filled, orderId := id)
    else if v.state.SUBMITTED? then after == v
    else after == v.(state := SUBMITTED, orderId := id)
  }

  /** An ended order is FILLED at its full size, FAILED if it was never
      announced, and otherwise rejected or cancelled. */
  predicate EndResult(o: Identity, v: View, s: Snapshot, after: View)
    requires s.filled.Some?
  {
    var filled := s.filled.value;
    var id := if s.orderId != "" then s.orderId else v.orderId;
    if filled >= o.qty - MaxReal(0.000000001, o.qty * 0.000000001) then after == View(FILLED, id, filled, false)
    else if v.state.CREATED? then after == v.(state := FAILED)
    else if s.status in {"rejected", "reject"} then
      after == v.(state := if v.state.PARTIALLY_FILLED? then CANCELLED else REJECTED, orderId := id)
    else after == v.(state := CANCELLED, orderId := id, filled := filled)
  }

  /** The whole evaluation: a terminal order and a refused or inconclusive
      snapshot change nothing. */
  predicate TruthResult(o: Identity, v: View, s: Snapshot, after: View) {
    if v.state in {FILLED, REJECTED, CANCELLED, FAILED} || !Accepts(o, v, s) then after == v
    else if s.isActive == Some(true) then ActiveResult(o, v, s, after)
    else if s.isActive == Some(false) || s.cancelExist
            || s.status in {"done", "filled", "cancelled", "canceled", "rejected", "reject"}
    then EndResult(o, v, s, after)
    else after == v
  }

  lemma TruthByFields(o: Identity, v: View, s: Snapshot)
    ensures TruthResult(o, v, s, After(o, v, s))
  {
    RefusedExactly(o, v, s);
  }

  datatype Verdict = Verdict(changed: bool, terminal: bool)

  function IdentityOf(order: ManagedOrder): Identity {
    Identity(order.clientOid, order.symbol, order.qty)
  }

  /** One legal transition, recorded. */
  method Step(order: ManagedOrder, ghost from: View, ghost past: seq<Edge>, novo: State, info: Info)
    requires Legal(Edge(order.state, novo)) && (order.state != novo || novo.PARTIALLY_FILLED?)
    requires info.source != "REST"
    requires past <= order.history && LegalPath(from.state, order.history[|past|..], order.state)
    modifies order
    ensures past <= order.history && LegalPath(from.state, order.history[|past|..], order.state)
    ensures order.Now() == Transition(old(order.Now()), novo, info).view
    ensures order.history != past
  {
    PathAppend(from.state, order.history[|past|..], order.state, novo);
    var ok := order.Apply(novo, info);
    assert order.history[|past|..] == old(order.history[|past|..]) + [Edge(old(order.state), novo)];
  }

  /** Every accepted snapshot is applied through legal transitions only, none
      of them ever refused by the state machine; a refused snapshot raises
      and changes nothing. */
  method ApplyTruth(order: ManagedOrder, s: Snapshot, source: string) returns (r: Result<Verdict, TruthError>)
    requires source != "REST"
    modifies order
    ensures r.Err? <==> Refusal(IdentityOf(order), old(order.Now()), s).Some?
    ensures r.Err? ==> r.error == Refusal(IdentityOf(order), old(order.Now()), s).value
    ensures order.Now() == After(IdentityOf(order), old(order.Now()), s)
    ensures TruthResult(IdentityOf(order), old(order.Now()), s, order.Now())
    ensures r.Ok? ==> r.value.terminal == (order.IsTerminal() && (SaysActive(s) || SaysTerminal(s)))
    ensures r.Ok? ==> (r.value.changed <==> Changes(old(order.Now()), order.qty, s.filled.value, s))
    ensures old(order.history) <= order.history
    ensures LegalPath(old(order.state), order.history[|old(order.history)|..], order.state)
  {
    ghost var v := order.Now();
    ghost var past := order.history;
    TruthByFields(IdentityOf(order), v, s);
    assert order.history[|past|..] == [];
    if s.clientOid != "" && s.clientOid != order.clientOid {
      return Err(ClientOidMismatch);
    }
    if s.symbol != "" && StopRegistry.CanonSymbol(s.symbol) != StopRegistry.CanonSymbol(order.symbol) {
      return Err(SymbolMismatch);
    }
    if order.orderId != "" && s.orderId != "" && order.orderId != s.orderId {
      return Err(OrderIdMismatch);
    }
    if s.filled.None? || s.filled.value < 0.0 || order.qty <= 0.0 {
      return Err(BadQuantity);
    }
    var changed;
    if s.isActive == Some(true) {
      changed := ApplyActive(order, v, past, s, s.filled.value, source);
      return Ok(Verdict(changed, order.IsTerminal()));
    }
    if !SaysTerminal(s) {
      return Ok(Verdict(false, false));
    }
    changed := ApplyEnd(order, v, past, s, s.filled.value, source);
    r := Ok(Verdict(changed, order.IsTerminal()));
  }

  /** The branches for an order the exchange reports as ended. */
  method ApplyEnd(order: ManagedOrder, ghost from: View, ghost past: seq<Edge>, s: Snapshot, filled: real,
          source: string)
    returns (changed: bool)
    requires source != "REST" && !SaysActive(s) && SaysTerminal(s)
    requires past <= order.history && LegalPath(from.state, order.history[|past|..], order.state)
    modifies order
    ensures past <= order.history && LegalPath(from.state, order.history[|past|..], order.state)
    ensures changed <==> Changes(old(order.Now()), order.qty, filled, s)
    ensures order.Now() == Applied(old(order.Now()), order.qty, filled, s)
  {
    if filled + Tolerance(order.qty) >= order.qty {
      changed := Announce(order, from, past, s, source);
      if !order.IsTerminal() {
        Step(order, from, past, FILLED, Info(source, s.orderId, Some(filled)));
        changed := true;
      }
    } else if SaysRejected(s) {
      changed := RejectTerminal(order, from, past, s, source);
    } else {
      changed := CancelTerminal(order, from, past, s, filled, source);
    }
  }

  /** The branch for an order the exchange reports as active. */
  method ApplyActive(order: ManagedOrder, ghost from: View, ghost past: seq<Edge>, s: Snapshot, filled: real,
          source: string)
    returns (changed: bool)
    requires source != "REST" && SaysActive(s) && filled >= 0.0
    requires past <= order.history && LegalPath(from.state, order.history[|past|..], order.state)
    modifies order
    ensures past <= order.history && LegalPath(from.state, order.history[|past|..], order.state)
    ensures changed <==> Changes(old(order.Now()), order.qty, filled, s)
    ensures order.Now() == Applied(old(order.Now()), order.qty, filled, s)
  {
    changed := Announce(order, from, past, s, source);
    if filled > 0.0 && order.state.SUBMITTED? {
      Step(order, from, past, PARTIALLY_FILLED, Info(source, s.orderId, Some(filled)));
      changed := true;
    } else if filled > 0.0 && order.state.PARTIALLY_FILLED? {
      if filled > order.filled + Tolerance(order.qty) {
        Step(order, from, past, PARTIALLY_FILLED, Info(source, s.orderId, Some(filled)));
        changed := true;
      }
    }
  }

  /** CREATED and SUBMITTING orders are first brought to SUBMITTED. */
  method Announce(order: ManagedOrder, ghost from: View, ghost past: seq<Edge>, s: Snapshot, source: string)
      returns (changed: bool)
    requires source != "REST"
    requires past <= order.history && LegalPath(from.state, order.history[|past|..], order.state)
    modifies order
    ensures past <= order.history && LegalPath(from.state, order.history[|past|..], order.state)
    ensures changed <==> old(order.state).CREATED? || old(order.state).SUBMITTING?
    ensures order.Now() ==
            if changed then
              old(order.Now()).(state := SUBMITTED,
                                orderId := if s.orderId != "" then s.orderId else old(order.orderId))
            else old(order.Now())
  {
    changed := false;
    if order.state.CREATED? {
      Step(order, from, past, SUBMITTING, Info(source, "", None));
      changed := true;
    }
    if order.state.SUBMITTING? {
      Step(order, from, past, SUBMITTED, Info(source, s.orderId, None));
      changed := true;
    }
  }

  method RejectTerminal(order: ManagedOrder, ghost from: View, ghost past: seq<Edge>, s: Snapshot, source: string)
      returns (changed: bool)
    requires source != "REST"
    requires past <= order.history && LegalPath(from.state, order.history[|past|..], order.state)
    modifies order
    ensures past <= order.history && LegalPath(from.state, order.history[|past|..], order.state)
    ensures changed <==> !Terminal(old(order.state))
    ensures order.Now() ==
            if !changed then old(order.Now())
            else if old(order.state).CREATED? then old(order.Now()).(state := FAILED)
            else old(order.Now()).(state := if old(order.state).PARTIALLY_FILLED? then CANCELLED else REJECTED,
                                   orderId := if s.orderId != "" then s.orderId else old(order.orderId))
  {
    if order.IsTerminal() {
      return false;
    }
    if order.state.CREATED? {
      Step(order, from, past, FAILED, Info(source, "", None));
    } else if order.state.PARTIALLY_FILLED? {
      Step(order, from, past, CANCELLED, Info(source, s.orderId, None));
    } else {
      Step(order, from, past, REJECTED, Info(source, s.orderId, None));
    }
    changed := true;
  }

  method CancelTerminal(order: ManagedOrder, ghost from: View, ghost past: seq<Edge>, s: Snapshot, filled: real,
          source: string)
    returns (changed: bool)
    requires source != "REST"
    requires past <= order.history && LegalPath(from.state, order.history[|past|..], order.state)
    modifies order
    ensures past <= order.history && LegalPath(from.state, order.history[|past|..], order.state)
    ensures changed <==> !Terminal(old(order.state))
    ensures order.Now() ==
            if !changed then old(order.Now())
            else if old(order.state).CREATED? then old(order.Now()).(state := FAILED)
            else old(order.Now()).(state := CANCELLED, filled := filled,
                                   orderId := if s.orderId != "" then s.orderId else old(order.orderId))
  {
    if order.IsTerminal() {
      return false;
    }
    if order.state.CREATED? {
      Step(order, from, past, FAILED, Info(source, "", None));
      return true;
    }
    if order.state.SUBMITTING? {
      Step(order, from, past, SUBMITTED, Info(source, s.orderId, None));
    }
    Step(order, from, past, CANCELLED, Info(source, s.orderId, Some(filled)));
    changed := true;
  }

  // ---- Over any sequence of snapshots ----

  function AfterAll(o: Identity, v: View, snaps: seq<Snapshot>): View
    decreases |snaps|
  {
    if |snaps| == 0 then v else AfterAll(o, After(o, v, snaps[0]), snaps[1..])
  }

  /** Terminal states absorb every later snapshot, nothing included. */
  lemma {:induction false} TerminalAbsorbs(o: Identity, v: View, snaps: seq<Snapshot>)
    requires Terminal(v.state)
    ensures AfterAll(o, v, snaps) == v
    decreases |snaps|
  {
    if |snaps| == 0 {
    } else {
      TerminalAbsorbs(o, After(o, v, snaps[0]), snaps[1..]);
    }
  }

  /** An order that ends FILLED was FILLED before or met a snapshot that was
      terminal and whose fill, up to the tolerance, reached the request. */
  lemma {:induction false} FilledMeansFullFill(o: Identity, v: View, snaps: seq<Snapshot>)
    requires AfterAll(o, v, snaps).state.FILLED? && !v.state.FILLED?
    ensures exists n :: 0 <= n < |snaps| && !SaysActive(snaps[n]) && SaysTerminal(snaps[n])
                        && snaps[n].filled.Some? && Full(o.qty, snaps[n].filled.value)
                        && AfterAll(o, v, snaps).filled == snaps[n].filled.value
    decreases |snaps|
  {
    if |snaps| == 0 {
    } else {
      var w := After(o, v, snaps[0]);
      if w.state.FILLED? {
        TerminalAbsorbs(o, w, snaps[1..]);
      } else {
        FilledMeansFullFill(o, w, snaps[1..]);
        var n :| 0 <= n < |snaps| - 1 && !SaysActive(snaps[1..][n]) && SaysTerminal(snaps[1..][n])
              && snaps[1..][n].filled.Some? && Full(o.qty, snaps[1..][n].filled.value)
              && AfterAll(o, w, snaps[1..]).filled == snaps[1..][n].filled.value;
        assert snaps[n + 1] == snaps[1..][n];
      }
    }
  }

  /** An exchange order id, once known, is the same in every later state. */
  lemma {:induction false} OrderIdIsFixed(o: Identity, v: View, snaps: seq<Snapshot>)
    requires v.orderId != ""
    ensures AfterAll(o, v, snaps).orderId == v.orderId
    decreases |snaps|
  {
    if |snaps| == 0 {
    } else {
      OrderIdIsFixed(o, After(o, v, snaps[0]), snaps[1..]);
    }
  }

  /** A snapshot that is not active but carries terminal truth always leaves
      the order terminal, from every state. */
  lemma TerminalTruthTerminates(o: Identity, v: View, s: Snapshot)
    requires Refusal(o, v, s).None? && !SaysActive(s) && SaysTerminal(s)
    ensures Terminal(After(o, v, s).state)
  {
  }

  /** Applying a snapshot twice is applying it once: the second time nothing
      changes and nothing is refused that was accepted before. */
  lemma ApplyTwice(o: Identity, v: View, s: Snapshot)
    ensures After(o, After(o, v, s), s) == After(o, v, s)
    ensures Refusal(o, v, s).None? ==>
              Refusal(o, After(o, v, s), s).None? && !Changes(After(o, v, s), o.qty, s.filled.value, s)
  {
  }

  /** An order has fills only once it is partially filled or terminal, as a
      new order and every order reached from one. */
  ghost predicate Coherent(v: View) {
    v.filled >= 0.0 && (v.state.CREATED? || v.state.SUBMITTING? || v.state.SUBMITTED? ==> v.filled == 0.0)
  }

  lemma {:induction false} CoherentAll(o: Identity, v: View, snaps: seq<Snapshot>)
    requires Coherent(v)
    ensures Coherent(AfterAll(o, v, snaps))
    decreases |snaps|
  {
    if |snaps| == 0 {
    } else {
      CoherentAll(o, After(o, v, snaps[0]), snaps[1..]);
    }
  }

  lemma {:induction false} AfterLast(o: Identity, v: View, snaps: seq<Snapshot>, s: Snapshot)
    ensures AfterAll(o, v, snaps + [s]) == After(o, AfterAll(o, v, snaps), s)
    decreases |snaps|
  {
    if |snaps| == 0 {
      assert (snaps + [s])[1..] == [];
    } else {
      assert (snaps + [s])[1..] == snaps[1..] + [s];
      AfterLast(o, After(o, v, snaps[0]), snaps[1..], s);
    }
  }

  /** After any snapshots, one more lowers the filled quantity of the order
      exactly when the order is partially filled and the snapshot is terminal,
      not rejecting (or full), and reports less than was recorded. */
  lemma FillsForgottenExactly(o: Identity, start: View, snaps: seq<Snapshot>, s: Snapshot)
    requires Coherent(start)
    ensures var v := AfterAll(o, start, snaps);
            AfterAll(o, start, snaps + [s]).filled < v.filled <==>
              && Refusal(o, v, s).None?
              && v.state.PARTIALLY_FILLED? && !SaysActive(s) && SaysTerminal(s)
              && (!SaysRejected(s) || Full(o.qty, s.filled.value))
              && s.filled.value < v.filled
  {
    CoherentAll(o, start, snaps);
    AfterLast(o, start, snaps, s);
  }

  /** After any snapshots, the fill reported together with the end of the order
      is lost exactly when the order is rejected below its request, or was
      never announced. */
  lemma FinalFillsLostExactly(o: Identity, start: View, snaps: seq<Snapshot>, s: Snapshot)
    requires Coherent(start)
    requires var v := AfterAll(o, start, snaps);
             && Refusal(o, v, s).None? && !Terminal(v.state) && !SaysActive(s) && SaysTerminal(s)
             && s.filled.value != v.filled
    ensures var v := AfterAll(o, start, snaps);
            AfterAll(o, start, snaps + [s]).filled != s.filled.value <==>
              !Full(o.qty, s.filled.value) && (SaysRejected(s) || v.state.CREATED?)
  {
    CoherentAll(o, start, snaps);
    AfterLast(o, start, snaps, s);
  }
}

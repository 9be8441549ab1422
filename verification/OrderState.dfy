/** The order state machine of bot/order_state.py. */
module OrderState {
  import opened Common

  datatype State = CREATED | SUBMITTING | SUBMITTED | PARTIALLY_FILLED | FILLED | REJECTED | CANCELLED | FAILED

  predicate Terminal(s: State) {
    s.FILLED? || s.REJECTED? || s.CANCELLED? || s.FAILED?
  }

  /** The table of permitted transitions. */
  function Allowed(s: State): set<State> {
    match s
    case CREATED => {SUBMITTING, FAILED}
    case SUBMITTING => {SUBMITTED, PARTIALLY_FILLED, FILLED, REJECTED, FAILED}
    case SUBMITTED => {PARTIALLY_FILLED, FILLED, REJECTED, CANCELLED}
    case PARTIALLY_FILLED => {PARTIALLY_FILLED, FILLED, CANCELLED}
    case _ => {}
  }

  datatype Edge = Edge(from: State, to: State)

  predicate Legal(e: Edge) {
    e.to in Allowed(e.from)
  }

  /** An order is announced before anything else, or fails; only an announced
      order fills; rejection comes before any fill, cancellation after the
      announcement; and nothing follows an end. */
  lemma LegalMeans(e: Edge)
    ensures Legal(e) <==>
              match e.to
              case CREATED => false
              case SUBMITTING => e.from == CREATED
              case SUBMITTED => e.from == SUBMITTING
              case PARTIALLY_FILLED => e.from in {SUBMITTING, SUBMITTED, PARTIALLY_FILLED}
              case FILLED => e.from in {SUBMITTING, SUBMITTED, PARTIALLY_FILLED}
              case REJECTED => e.from in {SUBMITTING, SUBMITTED}
              case CANCELLED => e.from in {SUBMITTED, PARTIALLY_FILLED}
              case FAILED => e.from in {CREATED, SUBMITTING}
  {
  }

  /** Consecutive legal transitions from one state to another. */
  ghost predicate LegalPath(from: State, edges: seq<Edge>, to: State)
    decreases |edges|
  {
    if |edges| == 0 then from == to
    else edges[0].from == from && Legal(edges[0]) && LegalPath(edges[0].to, edges[1..], to)
  }

  lemma {:induction false} PathAppend(from: State, edges: seq<Edge>, mid: State, to: State)
    requires LegalPath(from, edges, mid) && Legal(Edge(mid, to))
    ensures LegalPath(from, edges + [Edge(mid, to)], to)
    decreases |edges|
  {
    if |edges| == 0 {
      assert [Edge(mid, to)][1..] == [];
    } else {
      assert (edges + [Edge(mid, to)])[1..] == edges[1..] + [Edge(mid, to)];
      PathAppend(edges[0].to, edges[1..], mid, to);
    }
  }

  /** How far an order is; no legal transition goes back. */
  function Rank(s: State): nat {
    match s
    case CREATED => 0
    case SUBMITTING => 1
    case SUBMITTED => 2
    case PARTIALLY_FILLED => 3
    case _ => 4
  }

  /** Along any legal path an order never goes back, and a terminal order is
      at the end of every path it is on. */
  lemma {:induction false} PathsGoForward(from: State, edges: seq<Edge>, to: State)
    requires LegalPath(from, edges, to)
    ensures Rank(from) <= Rank(to)
    ensures Terminal(from) ==> edges == [] && to == from
    decreases |edges|
  {
    if |edges| == 0 {
    } else {
      PathsGoForward(edges[0].to, edges[1..], to);
    }
  }

  /** The changing part of an order; an unknown order id is empty. */
  datatype View = View(state: State, orderId: string, filled: real, exposureDone: bool)

  datatype Info = Info(source: string, orderId: string, filled: Option<real>)

  datatype Transitioned = Moved(view: View) | Unmoved(view: View) | StaleAck(view: View) | InvalidTransition

  function Transition(v: View, novo: State, info: Info): Transitioned {
    if novo == v.state && !novo.PARTIALLY_FILLED? then Unmoved(v)
    else if novo.SUBMITTED? && (v.state.PARTIALLY_FILLED? || v.state.FILLED?) && info.source == "REST" then
      if info.orderId != "" && v.orderId != "" && v.orderId != info.orderId then InvalidTransition
      else StaleAck(v.(orderId := if v.orderId == "" then info.orderId else v.orderId))
    else if !Legal(Edge(v.state, novo)) then InvalidTransition
    else Moved(View(
                 novo,
                 if info.orderId != "" then info.orderId else v.orderId,
                 if info.filled.Some? then info.filled.value else v.filled,
                 v.exposureDone && !novo.FILLED?))
  }

  /** Late is an acknowledgement of the submission over REST that finds the
      order filled, in part or in full. */
  predicate Late(v: View, novo: State, info: Info) {
    novo == SUBMITTED && v.state in {PARTIALLY_FILLED, FILLED} && info.source == "REST"
  }

  /** A transition is refused when it is not in the table, does not repeat the
      state, and is not late, or when it is late with another order id. One that
      is made takes over what it brings; a late one only an id not known yet;
      and a repeated state other than a partial fill changes nothing. */
  lemma TransitionExactly(v: View, novo: State, info: Info)
    ensures var t := Transition(v, novo, info);
            && (t.InvalidTransition? <==>
                  || (Late(v, novo, info) && info.orderId != "" && v.orderId != "" && info.orderId != v.orderId)
                  || (!Late(v, novo, info) && novo != v.state && !Legal(Edge(v.state, novo))))
            && (t.StaleAck? ==>
                  Late(v, novo, info) && t.view == v.(orderId := if v.orderId != "" then v.orderId else info.orderId))
            && (t.Unmoved? <==> novo == v.state && novo != PARTIALLY_FILLED)
            && (t.Unmoved? ==> t.view == v)
            && (t.Moved? ==>
                  && !Late(v, novo, info) && Legal(Edge(v.state, novo)) && t.view.state == novo
                  && t.view.orderId == (if info.orderId == "" then v.orderId else info.orderId)
                  && t.view.filled == (if info.filled.None? then v.filled else info.filled.value)
                  && (t.view.exposureDone <==> novo != FILLED && v.exposureDone))
  {
  }

  class ManagedOrder {
    const clientOid: string
    const symbol: string
    const qty: real
    var state: State
    var orderId: string
    var filled: real
    var exposureDone: bool
    var history: seq<Edge>

    constructor (clientOid: string, symbol: string, qty: real)
      ensures this.clientOid == clientOid && this.symbol == symbol && this.qty == qty
      ensures Now() == View(CREATED, "", 0.0, false) && history == []
    {
      this.clientOid, this.symbol, this.qty := clientOid, symbol, qty;
      state, orderId, filled, exposureDone, history := CREATED, "", 0.0, false, [];
    }

    ghost function Now(): View
      reads this
    {
      View(state, orderId, filled, exposureDone)
    }

    predicate IsTerminal()
      reads this
    {
      Terminal(state)
    }

    /** `transition`: a forbidden one raises and changes nothing. */
    method Apply(novo: State, info: Info) returns (ok: bool)
      modifies this
      ensures var t := Transition(old(Now()), novo, info);
              && ok == !t.InvalidTransition?
              && Now() == (if ok then t.view else old(Now()))
              && history == (if t.Moved? then old(history) + [Edge(old(state), novo)]
                             else if t.StaleAck? then old(history) + [Edge(old(state), old(state))]
                             else old(history))
    {
      if novo == state && !novo.PARTIALLY_FILLED? {
        return true;
      }
      if novo.SUBMITTED? && (state.PARTIALLY_FILLED? || state.FILLED?) && info.source == "REST" {
        if info.orderId != "" && orderId != "" && orderId != info.orderId {
          return false;
        }
        if orderId == "" {
          orderId := info.orderId;
        }
        history := history + [Edge(state, state)];
        return true;
      }
      if novo !in Allowed(state) {
        return false;
      }
      history := history + [Edge(state, novo)];
      state := novo;
      if info.orderId != "" {
        orderId := info.orderId;
      }
      if info.filled.Some? {
        filled := info.filled.value;
      }
      if novo.FILLED? {
        exposureDone := false;
      }
      ok := true;
    }
  }
}

/** The passes that visit every open position: the loops of
    bot/durable_partial_exit.py and bot/confirmed_rr_exit.py over the engine's
    mutable state, and the entry gate of bot/durable_execution.py that reads it. */
module OneShotPasses {
  import opened Common
  import opened OneShotExits
  import EntryGate

  datatype SaveReply = Saved | SaveRaised | SaveDied

  /** The intent rows in the database and the submissions made. */
  class Ledger {
    var durable: map<Key, Intent>
    var placed: seq<Submission>

    constructor ()
      ensures View() == Desk(map[], [])
    {
      durable, placed := map[], [];
    }

    ghost function View(): Desk
      reads this
    {
      Desk(durable, placed)
    }

    /** `_persist` */
    method Save(key: Key, intent: Intent, w: WriteOutcome) returns (r: SaveReply)
      modifies this
      ensures View() == Written(old(View()), key, intent, w).desk
      ensures r == if w.Committed? then Saved else if w.Crashed() then SaveDied else SaveRaised
    {
      if w.Durable() {
        durable := durable[key := intent];
      }
      r := if w.Committed? then Saved else if w.Crashed() then SaveDied else SaveRaised;
    }

    method Place(key: Key, oid: ClientOid)
      modifies this`placed
      ensures placed == old(placed) + [Submission(key, oid, old(View()).Row(key))]
    {
      placed := placed + [Submission(key, oid, if key in durable then Some(durable[key]) else None)];
    }

    /** First write of the intent, the submission, and the order id. */
    method SubmitOnce(key: Key, intent: Intent, e: Env) returns (r: SaveReply, state: Intent)
      modifies this
      ensures View() == Submitted(old(View()), key, intent, e).desk
      ensures Submitted(old(View()), key, intent, e) ==
              if r.Saved? then Go(View(), state) else Halt(View(), r.SaveDied?)
    {
      state := intent;
      r := Save(key, state, e.intentWrite);
      if !r.Saved? {
        return;
      }
      Place(key, state.oid);
      if !e.place.Returned? {
        r := if e.place.CallCrashed? then SaveDied else SaveRaised;
        return;
      }
      state := state.(orderId := e.place.value);
      r := Save(key, state, e.placeWrite);
    }

    method RecoverOrder(key: Key, intent: Intent, e: Env) returns (r: SaveReply, state: Intent)
      modifies this
      ensures View() == Recovered(old(View()), key, intent, e).desk
      ensures Recovered(old(View()), key, intent, e) ==
              if r.Saved? then Go(View(), state) else Halt(View(), r.SaveDied?)
    {
      state, r := intent, Saved;
      if state.orderId == "" {
        if !e.lookup.Returned? {
          r := if e.lookup.CallCrashed? then SaveDied else SaveRaised;
          return;
        }
        state := state.(orderId := e.lookup.value);
        if state.orderId != "" || key.kind.PartialExit? {
          r := Save(key, state, e.lookupWrite);
        } else {
          state := intent;
        }
      }
    }
  }

  /** The fields of an open position the exits read and change. */
  class OpenPosition {
    var pos: Position

    constructor (pos: Position)
      ensures this.pos == pos
    {
      this.pos := pos;
    }
  }

  class Engine {
    var pendingPartials: set<string>
    var unprotected: set<string>
    const gate: EntryGate.Gate

    constructor (gate: EntryGate.Gate)
      ensures pendingPartials == {} && unprotected == {} && this.gate == gate
    {
      pendingPartials, unprotected, this.gate := {}, {}, gate;
    }

    predicate CanOpen()
      reads this, gate
    {
      gate.CanOpen(pendingPartials)
    }

    /** One symbol of the partial pass, with its try/except: any exception
        leaves the symbol pending, a crash leaves through `died`. */
    method VisitPartial(ledger: Ledger, symbol: string, open: OpenPosition, info: Option<Instrument>, e: Env)
      returns (died: bool)
      requires symbol !in pendingPartials
      modifies ledger, open, this`pendingPartials, this`unprotected
      ensures var r := PartialVisit(old(ledger.View()), symbol, old(open.pos), info, symbol in old(unprotected), e);
              && ledger.View() == r.desk && open.pos == r.pos && died == r.died
              && pendingPartials == (if r.pending then old(pendingPartials) + {symbol} else old(pendingPartials))
              && unprotected == (if r.unprotected then old(unprotected) + {symbol} else old(unprotected) - {symbol})
    {
      died := false;
      var key := Key(PartialExit, symbol, open.pos.opening);
      if open.pos.opening == "" || !e.load.Returned? {
        pendingPartials := pendingPartials + {symbol};
        died := open.pos.opening != "" && e.load.CallCrashed?;
        return;
      }
      var state: Intent;
      if key in ledger.durable {
        state := ledger.durable[key];
      } else {
        var plan := PartialPlan(open.pos, info);
        if plan.Skip? {
          return;
        }
        if plan.Fail? {
          pendingPartials := pendingPartials + {symbol};
          return;
        }
        state := Intent(ClientOid(key), "", plan.qty, false, false);
        var sent;
        sent, state := ledger.SubmitOnce(key, state, e);
        if !sent.Saved? {
          pendingPartials := pendingPartials + {symbol};
          return sent.SaveDied?;
        }
      }
      pendingPartials := pendingPartials + {symbol};
      died := FillAndRepair(ledger, key, state, symbol, open, e);
      assert old(pendingPartials) == old(pendingPartials) + {symbol} - {symbol};
    }

    /** The visit from the recorded intent on: wait for the fill, then repair
        the stop. */
    method FillAndRepair(ledger: Ledger, key: Key, intent: Intent, symbol: string, open: OpenPosition, e: Env)
      returns (died: bool)
      requires symbol in pendingPartials
      modifies ledger, open, this`pendingPartials, this`unprotected
      ensures var r := FromIntent(old(ledger.View()), key, intent, old(open.pos), symbol in old(unprotected), e);
              && ledger.View() == r.desk && open.pos == r.pos && died == r.died
              && pendingPartials == (if r.pending then old(pendingPartials) else old(pendingPartials) - {symbol})
              && unprotected == (if r.unprotected then old(unprotected) + {symbol} else old(unprotected) - {symbol})
    {
      var state := intent;
      if !state.filled {
        var saved;
        saved, state := ledger.RecoverOrder(key, state, e);
        if !saved.Saved? {
          return saved.SaveDied?;
        }
        if state.orderId == "" {
          return false;
        }
        if e.fill != Returned(true) {
          return e.fill.CallCrashed?;
        }
        state := state.(filled := true);
        saved := ledger.Save(key, state, e.fillWrite);
        if !saved.Saved? {
          return saved.SaveDied?;
        }
      }
      died := RepairStop(ledger, key, state, symbol, open, e);
    }

    /** The tail of the visit: resize the local position, move the stop to
        the entry price once, and release the symbol. */
    method RepairStop(ledger: Ledger, key: Key, intent: Intent, symbol: string, open: OpenPosition, e: Env)
      returns (died: bool)
      requires symbol in pendingPartials
      modifies ledger, open, this`pendingPartials, this`unprotected
      ensures var r := Guarded(old(ledger.View()), key, intent, old(open.pos), symbol in old(unprotected), e);
              && ledger.View() == r.desk && open.pos == r.pos && died == r.died
              && pendingPartials == (if r.pending then old(pendingPartials) else old(pendingPartials) - {symbol})
              && unprotected == (if r.unprotected then old(unprotected) + {symbol} else old(unprotected) - {symbol})
    {
      died := false;
      if !e.positions.Returned? || Remaining(e.positions.value).None? {
        return e.positions.CallCrashed?;
      }
      var remaining := Remaining(e.positions.value).value;
      open.pos := open.pos.(tp1Hit := true);
      if remaining == 0.0 {
        if !e.sync.Returned? {
          return e.sync.CallCrashed?;
        }
        pendingPartials := pendingPartials - {symbol};
        return;
      }
      open.pos := open.pos.(qty := Fin(remaining));
      if !intent.protected {
        unprotected := unprotected + {symbol};
        if e.setStop != Returned(true) {
          return e.setStop.CallCrashed?;
        }
        var saved := ledger.Save(key, intent.(protected := true), e.stopWrite);
        if !saved.Saved? {
          return saved.SaveDied?;
        }
        open.pos := open.pos.(stop := open.pos.entry, trailing := open.pos.entry);
        unprotected := unprotected - {symbol};
      }
      pendingPartials := pendingPartials - {symbol};
    }
  }

  /** What `check` is given for one position. */
  datatype Item = Item(symbol: string, info: Option<Instrument>, env: Env)

  ghost predicate DistinctSymbols(items: seq<Item>) {
    forall m, n :: 0 <= m < n < |items| ==> items[m].symbol != items[n].symbol
  }

  /** No partial of this symbol is unfinished: there is no intent, or the
      exchange was read flat in this pass, or the position has the size that
      was read and its protection is recorded. */
  ghost predicate Settled(d: Desk, p: Position, it: Item) {
    var row := d.Row(Key(PartialExit, it.symbol, p.opening));
    row.None? || Finished(row, p, it.env)
  }

  /** What any number of visits keeps: soundness, the submissions made, and
      every row up to filling in its blanks. */
  ghost predicate Kept(before: Desk, after: Desk) {
    && Sound(after)
    && before.placed <= after.placed
    && forall key :: key in before.durable ==> RowAdvances(before.Row(key), after.Row(key))
  }

  ghost predicate SettledUpTo(d: Desk, ps: seq<Position>, items: seq<Item>, pending: set<string>, k: nat)
    requires |ps| == |items| && k <= |items|
  {
    forall n :: 0 <= n < k ==> items[n].symbol in pending || Settled(d, ps[n], items[n])
  }

  ghost function PositionsOf(opens: seq<OpenPosition>): seq<Position>
    reads opens
  {
    seq(|opens|, n requires 0 <= n < |opens| reads opens => opens[n].pos)
  }

  lemma KeptStep(start: Desk, before: Desk, after: Desk, key: Key)
    requires Kept(start, before) && Sound(after) && Advances(before, after, key)
    ensures Kept(start, after)
  {
    forall k | k in start.durable
      ensures RowAdvances(start.Row(k), after.Row(k))
    {
      assert RowAdvances(start.Row(k), before.Row(k));
    }
  }

  lemma PartialStep(
    start: Desk, d: Desk, ps: seq<Position>, items: seq<Item>, pending: set<string>, k: nat, marked: bool)
    requires Kept(start, d) && |ps| == |items| && k < |items| && DistinctSymbols(items)
    requires SettledUpTo(d, ps, items, pending, k)
    ensures var it := items[k];
            var r := PartialVisit(d, it.symbol, ps[k], it.info, marked, it.env);
            && Kept(start, r.desk)
            && (!r.died ==>
                  SettledUpTo(r.desk, ps[k := r.pos], items, if r.pending then pending + {it.symbol} else pending,
                              k + 1))
  {
    var it, p := items[k], ps[k];
    var r := PartialVisit(d, it.symbol, p, it.info, marked, it.env);
    var key := Key(PartialExit, it.symbol, p.opening);
    PartialVisitAdvances(d, it.symbol, p, it.info, marked, it.env);
    NotPendingMeansSettled(d, it.symbol, p, it.info, marked, it.env);
    OpeningIsFixed(d, it.symbol, p, it.info, marked, it.env);
    KeptStep(start, d, r.desk, key);
    forall n | 0 <= n < k
      ensures items[n].symbol in pending || Settled(r.desk, ps[n], items[n])
    {
      SettledStays(d, r.desk, key, ps[n], items[n]);
    }
  }

  lemma OpeningIsFixed(d: Desk, symbol: string, p: Position, info: Option<Instrument>, unprotected: bool, e: Env)
    ensures PartialVisit(d, symbol, p, info, unprotected, e).pos.opening == p.opening
  {
  }

  lemma SettledStays(before: Desk, after: Desk, key: Key, p: Position, it: Item)
    requires Advances(before, after, key) && key.symbol != it.symbol
    ensures Settled(before, p, it) ==> Settled(after, p, it)
  {
    var other := Key(PartialExit, it.symbol, p.opening);
    assert before.Row(other) == after.Row(other);
  }

  /** The engine and the desk between two visits of the partial pass. */
  datatype Pass = Pass(desk: Desk, positions: seq<Position>, pending: set<string>, unprotected: set<string>)

  function VisitOf(s: Pass, items: seq<Item>, k: nat): PartialAfter
    requires k < |s.positions| == |items|
  {
    var it := items[k];
    PartialVisit(s.desk, it.symbol, s.positions[k], it.info, it.symbol in s.unprotected, it.env)
  }

  /** What the k-th visit leaves: its own position, its symbol in the two sets,
      and the desk; nothing else. */
  ghost predicate Visited(before: Pass, after: Pass, items: seq<Item>, k: nat)
    requires k < |before.positions| == |items|
  {
    var symbol, r := items[k].symbol, VisitOf(before, items, k);
    && after.desk == r.desk && after.positions == before.positions[k := r.pos]
    && after.pending == (if r.pending then before.pending + {symbol} else before.pending)
    && after.unprotected == if r.unprotected then before.unprotected + {symbol} else before.unprotected - {symbol}
  }

  /** The pass as its successive states: every position is visited in turn, on
      what the visits before it left, until one visit ends the process. */
  ghost predicate PassTrace(trace: seq<Pass>, items: seq<Item>, died: bool) {
    && 1 <= |trace| <= |items| + 1 && (!died ==> |trace| == |items| + 1) && (died ==> |trace| > 1)
    && (forall k :: 0 <= k < |trace| ==> |trace[k].positions| == |items|)
    && (forall k :: 0 <= k < |trace| - 1 ==> Visited(trace[k], trace[k + 1], items, k))
    && (forall k :: 0 <= k < |trace| - 1 ==> (VisitOf(trace[k], items, k).died <==> died && k == |trace| - 2))
  }

  /** The first k visits, none of which ended the process. */
  ghost predicate TraceUpTo(trace: seq<Pass>, items: seq<Item>, k: nat) {
    && |trace| == k + 1 <= |items| + 1
    && (forall n :: 0 <= n <= k ==> |trace[n].positions| == |items|)
    && (forall n :: 0 <= n < k ==> Visited(trace[n], trace[n + 1], items, n) && !VisitOf(trace[n], items, n).died)
  }

  lemma TraceStep(trace: seq<Pass>, next: Pass, items: seq<Item>, k: nat, died: bool)
    requires k < |items| && TraceUpTo(trace, items, k) && Visited(trace[k], next, items, k)
    requires died == VisitOf(trace[k], items, k).died
    ensures !died ==> TraceUpTo(trace + [next], items, k + 1)
    ensures died ==> PassTrace(trace + [next], items, true)
  {
    var after := trace + [next];
    forall n | 0 <= n <= k
      ensures after[n] == trace[n]
      ensures Visited(after[n], after[n + 1], items, n)
      ensures VisitOf(after[n], items, n).died <==> died && n == k
    {
      if n < k {
        assert after[n + 1] == trace[n + 1];
      }
    }
  }

  /** `durable_partial_exit.check`. A pass that ends normally leaves every
      symbol outside the pending set settled, so the entry gate is closed
      while any partial exit is unfinished. */
  method CheckPartials(engine: Engine, ledger: Ledger, items: seq<Item>, opens: seq<OpenPosition>)
    returns (died: bool, ghost trace: seq<Pass>)
    requires |opens| == |items| && DistinctSymbols(items)
    requires forall m, n :: 0 <= m < n < |opens| ==> opens[m] != opens[n]
    requires Sound(ledger.View())
    modifies engine, ledger, opens
    ensures Kept(old(ledger.View()), ledger.View())
    ensures PassTrace(trace, items, died)
    ensures trace[0] == Pass(old(ledger.View()), old(PositionsOf(opens)), {}, old(engine.unprotected))
    ensures trace[|trace| - 1] == Pass(ledger.View(), PositionsOf(opens), engine.pendingPartials, engine.unprotected)
    ensures !died ==> SettledUpTo(ledger.View(), PositionsOf(opens), items, engine.pendingPartials, |items|)
    ensures !died && engine.CanOpen() ==>
              forall n :: 0 <= n < |items| ==> Settled(ledger.View(), PositionsOf(opens)[n], items[n])
  {
    died := false;
    engine.pendingPartials := {};
    ghost var start := ledger.View();
    trace := [Pass(start, PositionsOf(opens), {}, engine.unprotected)];
    ghost var now := trace[0];
    var k := 0;
    while k < |items|
      invariant 0 <= k <= |items|
      invariant Kept(start, ledger.View())
      invariant forall n :: k <= n < |items| ==> items[n].symbol !in engine.pendingPartials
      invariant SettledUpTo(ledger.View(), PositionsOf(opens), items, engine.pendingPartials, k)
      invariant now == Pass(ledger.View(), PositionsOf(opens), engine.pendingPartials, engine.unprotected)
      invariant |trace| == k + 1 && trace[k] == now
      invariant trace[0] == Pass(start, old(PositionsOf(opens)), {}, old(engine.unprotected))
      invariant TraceUpTo(trace, items, k)
    {
      ghost var before := now;
      PartialStep(start, now.desk, now.positions, items, now.pending, k, items[k].symbol in now.unprotected);
      died := engine.VisitPartial(ledger, items[k].symbol, opens[k], items[k].info, items[k].env);
      assert PositionsOf(opens) == before.positions[k := opens[k].pos];
      now := Pass(ledger.View(), PositionsOf(opens), engine.pendingPartials, engine.unprotected);
      assert Visited(before, now, items, k);
      TraceStep(trace, now, items, k, died);
      trace := trace + [now];
      if died {
        return;
      }
      k := k + 1;
    }
  }

  /** The full exit of this item was told to accounting: no partial was
      pending, its order was filled, and the exchange was read flat. */
  ghost predicate FlatAndFilled(it: Item, symbol: string, pending: set<string>) {
    && it.symbol == symbol && symbol !in pending
    && it.env.fill == Returned(true) && it.env.positions.Returned? && AllZero(it.env.positions.value)
  }

  ghost predicate OnlyFree(placed: seq<Submission>, from: nat, pending: set<string>) {
    forall n :: from <= n < |placed| ==> placed[n].key.symbol !in pending
  }

  function FullOf(d: Desk, it: Item, p: Position, pending: set<string>): FullAfter {
    FullVisit(d, it.symbol, p, it.symbol in pending, it.env)
  }

  ghost predicate FullStep(before: Desk, after: Desk, it: Item, p: Position, pending: set<string>) {
    var r := FullOf(before, it, p, pending);
    after == r.desk && !r.ending.Death?
  }

  /** The first k visits of the full-exit pass, each on the desk the one before
      it left, none of which ended the process. */
  ghost predicate DesksUpTo(desks: seq<Desk>, items: seq<Item>, ps: seq<Position>, pending: set<string>, k: nat)
    requires |ps| == |items|
  {
    && |desks| == k + 1 <= |items| + 1
    && forall n :: 0 <= n < k ==> FullStep(desks[n], desks[n + 1], items[n], ps[n], pending)
  }

  /** The accounting owner was told of this symbol by one of the visits. */
  ghost predicate Told(desks: seq<Desk>, items: seq<Item>, ps: seq<Position>, pending: set<string>, s: string, k: nat)
    requires |desks| > k && |ps| == |items| >= k
  {
    exists n :: 0 <= n < k && items[n].symbol == s && FullOf(desks[n], items[n], ps[n], pending).ending == Synced
  }

  /** `confirmed_rr_exit.check`: symbols with an unfinished partial are left
      alone; the others advance as their rows and the exchange allow. Every
      position is visited in turn, unless a visit ends the process. */
  method CheckFullExits(engine: Engine, ledger: Ledger, items: seq<Item>, positions: seq<Position>)
    returns (died: bool, synced: seq<string>, ghost desks: seq<Desk>)
    requires |positions| == |items|
    requires Sound(ledger.View())
    modifies ledger
    ensures Kept(old(ledger.View()), ledger.View())
    ensures OnlyFree(ledger.placed, |old(ledger.placed)|, engine.pendingPartials)
    ensures forall s :: s in synced ==> exists it :: it in items && FlatAndFilled(it, s, engine.pendingPartials)
    ensures |desks| > 0 && desks[0] == old(ledger.View())
            && DesksUpTo(desks, items, positions, engine.pendingPartials, |desks| - 1)
    ensures !died ==> |desks| == |items| + 1 && ledger.View() == desks[|items|]
    ensures died ==> var k := |desks| - 1;
                     && k < |items|
                     && FullOf(desks[k], items[k], positions[k], engine.pendingPartials)
                        == FullAfter(ledger.View(), Death)
    ensures forall s :: s in synced <==> Told(desks, items, positions, engine.pendingPartials, s, |desks| - 1)
  {
    died, synced := false, [];
    ghost var start := ledger.View();
    desks := [start];
    var k := 0;
    while k < |items|
      invariant 0 <= k <= |items|
      invariant Kept(start, ledger.View())
      invariant OnlyFree(ledger.placed, |start.placed|, engine.pendingPartials)
      invariant forall s :: s in synced ==> exists it :: it in items && FlatAndFilled(it, s, engine.pendingPartials)
      invariant DesksUpTo(desks, items, positions, engine.pendingPartials, k)
      invariant desks[0] == start && desks[k] == ledger.View()
      invariant forall s :: s in synced <==> Told(desks, items, positions, engine.pendingPartials, s, k)
    {
      ghost var d := ledger.View();
      var it := items[k];
      FullVisitAdvances(d, it.symbol, positions[k], it.symbol in engine.pendingPartials, it.env);
      SyncedMeansFlat(d, it.symbol, positions[k], it.symbol in engine.pendingPartials, it.env);
      var ending := VisitFull(ledger, it.symbol, positions[k], it.symbol in engine.pendingPartials, it.env);
      KeptStep(start, d, ledger.View(), Key(FullExit, it.symbol, positions[k].opening));
      if ending.Death? {
        return true, synced, desks;
      }
      ToldStep(desks, ledger.View(), items, positions, engine.pendingPartials, k);
      desks := desks + [ledger.View()];
      if ending.Synced? {
        assert it in items && FlatAndFilled(it, it.symbol, engine.pendingPartials);
        synced := synced + [it.symbol];
      }
      k := k + 1;
    }
  }

  lemma ToldStep(desks: seq<Desk>, next: Desk, items: seq<Item>, ps: seq<Position>, pending: set<string>, k: nat)
    requires |ps| == |items| && k < |items| && DesksUpTo(desks, items, ps, pending, k)
    requires FullStep(desks[k], next, items[k], ps[k], pending)
    ensures DesksUpTo(desks + [next], items, ps, pending, k + 1)
    ensures forall s ::
              Told(desks + [next], items, ps, pending, s, k + 1) <==>
                || Told(desks, items, ps, pending, s, k)
                || (s == items[k].symbol && FullOf(desks[k], items[k], ps[k], pending).ending == Synced)
  {
    var after := desks + [next];
    forall n | 0 <= n < k + 1
      ensures FullStep(after[n], after[n + 1], items[n], ps[n], pending)
    {
      if n < k {
        assert after[n] == desks[n] && after[n + 1] == desks[n + 1];
      }
    }
    forall s
      ensures Told(desks + [next], items, ps, pending, s, k + 1) <==>
                || Told(desks, items, ps, pending, s, k)
                || (s == items[k].symbol && FullOf(desks[k], items[k], ps[k], pending).ending == Synced)
    {
      ToldAfter(desks, next, items, ps, pending, s, k);
    }
  }

  lemma ToldAfter(
    desks: seq<Desk>, next: Desk, items: seq<Item>, ps: seq<Position>, pending: set<string>, s: string, k: nat)
    requires |ps| == |items| && k < |items| && |desks| == k + 1
    ensures Told(desks + [next], items, ps, pending, s, k + 1) <==>
              || Told(desks, items, ps, pending, s, k)
              || (s == items[k].symbol && FullOf(desks[k], items[k], ps[k], pending).ending == Synced)
  {
    var after := desks + [next];
    forall n | 0 <= n <= k
      ensures FullOf(after[n], items[n], ps[n], pending).ending == FullOf(desks[n], items[n], ps[n], pending).ending
    {
      assert after[n] == desks[n];
    }
    if Told(desks, items, ps, pending, s, k) {
      var n :| 0 <= n < k && items[n].symbol == s && FullOf(desks[n], items[n], ps[n], pending).ending == Synced;
      assert FullOf(after[n], items[n], ps[n], pending).ending == Synced;
    }
    if s == items[k].symbol && FullOf(desks[k], items[k], ps[k], pending).ending == Synced {
      assert FullOf(after[k], items[k], ps[k], pending).ending == Synced;
    }
  }

  /** One symbol of the full-exit pass. */
  method VisitFull(ledger: Ledger, symbol: string, p: Position, partialPending: bool, e: Env) returns (ending: Ending)
    modifies ledger
    ensures FullAfter(ledger.View(), ending) == FullVisit(old(ledger.View()), symbol, p, partialPending, e)
    ensures partialPending ==> ledger.placed == old(ledger.placed)
    ensures forall n :: |old(ledger.placed)| <= n < |ledger.placed| ==>
            ledger.placed[n].key == Key(FullExit, symbol, p.opening)
  {
    if partialPending {
      return Unconfirmed;
    }
    if !(p.entry.Positive() && p.stop.Positive() && p.price.Positive()) || p.direction.Unknown? || p.opening == "" {
      return Unconfirmed;
    }
    var key := Key(FullExit, symbol, p.opening);
    if !e.load.Returned? {
      return if e.load.CallCrashed? then Death else Unconfirmed;
    }
    var state: Intent;
    var saved := Saved;
    if key in ledger.durable {
      state := ledger.durable[key];
    } else {
      var distance := AbsReal(p.entry.r - p.stop.r);
      if distance <= 0.0 || Profit(p) < 2.0 * distance || !p.qty.Positive() {
        return Unconfirmed;
      }
      saved, state := ledger.SubmitOnce(key, FullIntent(key, p), e);
      if !saved.Saved? {
        return if saved.SaveDied? then Death else Unconfirmed;
      }
    }
    saved, state := ledger.RecoverOrder(key, state, e);
    if !saved.Saved? {
      return if saved.SaveDied? then Death else Unconfirmed;
    }
    ending := FullTail(state, e);
  }
}

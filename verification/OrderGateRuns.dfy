/** The "orders" reason of the entry gate over the life of a process: bare
    persists (bot/durable_execution.py, also called for the private feed and by
    bot/protection_readiness.py), pending passes, the hardened startup, and
    orders that move on their own in between. */
module OrderGateRuns {
  import opened Common
  import opened OrderState
  import opened OrderTruth
  import opened OrderReconcile

  /** `Moved` is any change of the orders outside these loops. */
  datatype Event =
    | Persisting(w: WriteOutcome)
    | Passing(able: bool, canLookup: bool, lookups: seq<Lookup>, w: WriteOutcome)
    | Starting(connected: bool, lookups: seq<Lookup>, w1: WriteOutcome, proven: seq<bool>, status: seq<IdStatus>,
               w2: WriteOutcome)
    | Moved(views: seq<View>)

  /** Every order has its entry in what an event brings. */
  predicate Fits(n: nat, e: Event) {
    match e
    case Persisting(_) => true
    case Passing(_, _, lookups, _) => |lookups| == n
    case Starting(_, lookups, _, proven, status, _) => |lookups| == |proven| == |status| == n
    case Moved(views) => |views| == n
  }

  predicate FitsAll(n: nat, es: seq<Event>) {
    forall k :: 0 <= k < |es| ==> Fits(n, es[k])
  }

  function Next(ids: seq<Identity>, b: Book, e: Event): (r: Book)
    requires |b.views| == |ids| && Fits(|ids|, e)
    ensures |r.views| == |ids|
  {
    match e
    case Persisting(w) => AfterPersist(b, w)
    case Passing(able, canLookup, lookups, w) => AfterPass(b, ids, able, canLookup, lookups, w)
    case Starting(connected, lookups, w1, proven, status, w2) =>
      AfterHardened(b, ids, connected, lookups, w1, proven, status, w2)
    case Moved(views) => b.(views := views)
  }

  function Exec(ids: seq<Identity>, b: Book, es: seq<Event>): (r: Book)
    requires |b.views| == |ids| && FitsAll(|ids|, es)
    ensures |r.views| == |ids|
    decreases |es|
  {
    if |es| == 0 then b else Next(ids, Exec(ids, b, es[..|es| - 1]), es[|es| - 1])
  }

  /** The event sets the reason, one way or the other. */
  predicate Touches(b: Book, e: Event) {
    match e
    case Passing(able, _, _, _) => able && !AllTerminal(b.views)
    case Moved(_) => false
    case _ => true
  }

  function LastTouch(ids: seq<Identity>, b: Book, es: seq<Event>): (n: Option<nat>)
    requires |b.views| == |ids| && FitsAll(|ids|, es)
    ensures n.Some? ==> n.value < |es| && Touches(Exec(ids, b, es[..n.value]), es[n.value])
    decreases |es|
  {
    if |es| == 0 then None
    else
      var before := es[..|es| - 1];
      if Touches(Exec(ids, b, before), es[|es| - 1]) then Some(|es| - 1)
      else
        var n := LastTouch(ids, b, before);
        assert n.Some? ==> before[..n.value] == es[..n.value];
        n
  }

  /** The reason is what the last event that set it made of it. */
  lemma {:induction false} ReasonIsLastTouch(ids: seq<Identity>, b: Book, es: seq<Event>)
    requires |b.views| == |ids| && FitsAll(|ids|, es)
    ensures var n := LastTouch(ids, b, es);
            Exec(ids, b, es).blocked == if n.None? then b.blocked else Exec(ids, b, es[..n.value + 1]).blocked
    decreases |es|
  {
    if |es| == 0 {
    } else {
      var before := es[..|es| - 1];
      if Touches(Exec(ids, b, before), es[|es| - 1]) {
        assert es[..|es|] == es;
      } else {
        ReasonIsLastTouch(ids, b, before);
        var n := LastTouch(ids, b, before);
        assert n.Some? ==> before[..n.value + 1] == es[..n.value + 1];
      }
    }
  }

  /** A pass or a startup that leaves the gate open has left no order open. */
  lemma OpensOnlyWhenSettled(ids: seq<Identity>, b: Book, e: Event)
    requires |b.views| == |ids| && Fits(|ids|, e) && Touches(b, e) && !e.Persisting?
    ensures !Next(ids, b, e).blocked ==> AllTerminal(Next(ids, b, e).views)
  {
  }

  /** No order moved outside the loops after event n. */
  predicate StillSince(es: seq<Event>, n: nat) {
    forall k :: n < k < |es| ==> !es[k].Moved?
  }

  lemma {:induction false} ViewsSinceTouch(ids: seq<Identity>, b: Book, es: seq<Event>)
    requires |b.views| == |ids| && FitsAll(|ids|, es)
    requires LastTouch(ids, b, es).Some? && StillSince(es, LastTouch(ids, b, es).value)
    ensures Exec(ids, b, es).views == Exec(ids, b, es[..LastTouch(ids, b, es).value + 1]).views
    decreases |es|
  {
    var n := LastTouch(ids, b, es).value;
    if n == |es| - 1 {
      assert es[..|es|] == es;
    } else {
      var before := es[..|es| - 1];
      ViewsSinceTouch(ids, b, before);
      assert before[..n + 1] == es[..n + 1];
    }
  }

  /** With an order open the gate can lack the reason in two ways: the last
      event that set the reason was a confirmed bare persist; or it was a pass
      or a startup that found all orders terminal, and one opened since. */
  lemma OpenWhilePendingExactly(ids: seq<Identity>, b: Book, es: seq<Event>)
    requires |b.views| == |ids| && FitsAll(|ids|, es)
    requires LastTouch(ids, b, es).Some? && !AllTerminal(Exec(ids, b, es).views)
    ensures var n := LastTouch(ids, b, es).value;
            var after := Exec(ids, b, es[..n + 1]);
            && (!Exec(ids, b, es).blocked <==>
                  || (es[n].Persisting? && es[n].w.Committed?)
                  || (!es[n].Persisting? && AllTerminal(after.views) && !after.blocked))
            && (StillSince(es, n) ==>
                  (!Exec(ids, b, es).blocked <==> es[n].Persisting? && es[n].w.Committed?))
  {
    var n := LastTouch(ids, b, es).value;
    ReasonIsLastTouch(ids, b, es);
    assert es[..n + 1][..n] == es[..n];
    if !es[n].Persisting? {
      OpensOnlyWhenSettled(ids, Exec(ids, b, es[..n]), es[n]);
    }
    if StillSince(es, n) {
      ViewsSinceTouch(ids, b, es);
    }
  }

  /** The failing run: a pass cannot resolve the order and closes the gate,
      and the persist of another change opens it again. */
  lemma BarePersistOpens(id: Identity)
    ensures var b := Book([View(SUBMITTED, "id", 0.0, false)], [], false);
            var pass, persist := Passing(true, true, [NoData], Committed), Persisting(Committed);
            && Exec([id], b, [pass]).blocked
            && !Exec([id], b, [pass, persist]).blocked && !AllTerminal(Exec([id], b, [pass, persist]).views)
  {
    var b := Book([View(SUBMITTED, "id", 0.0, false)], [], false);
    var pass, persist := Passing(true, true, [NoData], Committed), Persisting(Committed);
    assert [pass, persist][..1] == [pass] && [pass][..0] == [];
    assert !Terminal(b.views[0].state);
    assert PolledAll([id], b.views, [NoData]) == b.views;
    assert Exec([id], b, [pass]) == b.(blocked := true);
    assert Exec([id], b, [pass, persist]) == AfterPersist(b.(blocked := true), Committed);
  }
}

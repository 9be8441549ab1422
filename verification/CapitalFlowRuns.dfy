/** Passes of the capital-flow reconciliation over whole runs: which
    transfers are applied, how often, and what a crash between the rebase and
    the cursor does. */
module CapitalFlowRuns {
  import opened Common
  import H = HighWaterMark
  import opened CapitalFlow

  /** A ledger as the exchange keeps it: offsets identify its rows. */
  ghost predicate Ledger(ts: seq<Transfer>) {
    && (forall i, j :: 0 <= i < j < |ts| ==> ts[i].offset < ts[j].offset)
    && (forall t :: t in ts ==> Usable(t))
  }

  /** The peak is stored, and every copy of it is positive. */
  predicate Healthy(s: H.State) {
    s.peak.Some? && s.peak.value > 0.0 && (s.cache.Some? ==> s.cache.value > 0.0)
  }

  /** A durable rebase is answered, and the cursor follows it durably. */
  predicate Paired(o: Outcome) {
    o.rebase.Durable() ==> o.rebase.Committed? && o.cursor.Durable()
  }

  predicate AllCommitted(outs: seq<Outcome>) {
    forall k :: 0 <= k < |outs| ==> outs[k].rebase.Committed? && outs[k].cursor.Committed?
  }

  // ---- One pass ----

  lemma {:induction false} PendingMeans(ts: seq<Transfer>, cursor: int)
    ensures forall t :: t in Pending(ts, cursor) <==> t in ts && t.offset > cursor
    ensures Ledger(ts) ==> Ledger(Pending(ts, cursor))
    decreases |ts|
  {
    if |ts| == 0 {
    } else {
      PendingMeans(ts[1..], cursor);
      assert forall t :: t in ts <==> t == ts[0] || t in ts[1..];
      if Ledger(ts) {
        assert Ledger(ts[1..]);
        var rest := Pending(ts[1..], cursor);
        forall i | 0 <= i < |rest|
          ensures ts[0].offset < rest[i].offset
        {
          assert rest[i] in ts[1..];
        }
      }
    }
  }

  lemma UsableAccepted(w: World, t: Transfer, mark: int, equity: real, o: Outcome)
    requires Healthy(w.hwm) && Usable(t) && equity > 0.0
    ensures PlanFor(w, t, equity).Write? && PlanFor(w, t, equity).peak > 0.0
    ensures Healthy(Applied(w, t, mark, equity, o).hwm)
  {
  }

  lemma CommittedOne(w: World, t: Transfer, equity: real, o: Outcome)
    requires Healthy(w.hwm) && Usable(t) && equity > 0.0 && o.rebase.Committed? && o.cursor.Committed?
    ensures Went(w, t, equity, o)
    ensures var next := Applied(w, t, t.offset, equity, o);
            next.log == w.log + [t] && next.cursor == Some(t.offset) && Healthy(next.hwm)
  {
  }

  /** A pass whose writes are all confirmed applies every transfer above the
      cursor, once, in the order of the ledger, and ends at the last of them. */
  lemma {:induction false} CommittedAll(w: World, pending: seq<Transfer>, equity: real, outs: seq<Outcome>)
    requires |pending| <= |outs| && AllCommitted(outs) && equity > 0.0 && Healthy(w.hwm)
    requires forall t :: t in pending ==> Usable(t)
    ensures var after := AppliedAll(w, pending, equity, outs);
            && after.log == w.log + pending
            && after.cursor == (if |pending| == 0 then w.cursor else Some(pending[|pending| - 1].offset))
            && Healthy(after.hwm) && Count(w, pending, equity, outs) == |pending|
    decreases |pending|
  {
    if |pending| == 0 {
    } else {
      CommittedOne(w, pending[0], equity, outs[0]);
      var next := Applied(w, pending[0], pending[0].offset, equity, outs[0]);
      CommittedAll(next, pending[1..], equity, outs[1..]);
      CommittedTail(w, next, AppliedAll(next, pending[1..], equity, outs[1..]), pending);
    }
  }

  lemma CommittedTail(w: World, next: World, after: World, pending: seq<Transfer>)
    requires |pending| > 0 && next.log == w.log + [pending[0]] && next.cursor == Some(pending[0].offset)
    requires var rest := pending[1..];
             && after.log == next.log + rest
             && after.cursor == if |rest| == 0 then next.cursor else Some(rest[|rest| - 1].offset)
    ensures after.log == w.log + pending && after.cursor == Some(pending[|pending| - 1].offset)
  {
    assert pending == [pending[0]] + pending[1..];
  }

  /** The rebase of t became durable. */
  predicate Logged(w: World, t: Transfer, equity: real, o: Outcome) {
    PlanFor(w, t, equity).Write? && o.rebase.Durable()
  }

  lemma AppliedCases(w: World, t: Transfer, equity: real, o: Outcome)
    ensures var next := Applied(w, t, t.offset, equity, o);
            && next.log == (if Logged(w, t, equity, o) then w.log + [t] else w.log)
            && next.cursor == (if Logged(w, t, equity, o) && o.rebase.Committed? && o.cursor.Durable()
                                then Some(t.offset) else w.cursor)
    ensures Went(w, t, equity, o) ==> Logged(w, t, equity, o) && o.rebase.Committed? && o.cursor.Committed?
  {
  }

  lemma Prepend(w: World, next: World, after: World, pending: seq<Transfer>, k: nat, j: nat)
    requires |pending| > 0 && j <= k < |pending|
    requires next.log == w.log + [pending[0]] && next.cursor == Some(pending[0].offset)
    requires after.log == next.log + pending[1..][..k]
    requires after.cursor == if j == 0 then next.cursor else Some(pending[1..][j - 1].offset)
    ensures after.log == w.log + pending[..k + 1] && after.cursor == Some(pending[j].offset)
  {
    assert pending[..k + 1] == [pending[0]] + pending[1..][..k];
  }

  /** However the writes end, a pass gets through some prefix of the pending
      transfers: the first k are rebased, and the cursor has followed all of
      them or all but the last. */
  lemma {:induction false} Progress(w: World, pending: seq<Transfer>, equity: real, outs: seq<Outcome>)
      returns (k: nat, j: nat)
    requires |pending| <= |outs|
    ensures j <= k <= j + 1 && k <= |pending|
    ensures AppliedAll(w, pending, equity, outs).log == w.log + pending[..k]
    ensures AppliedAll(w, pending, equity, outs).cursor == if j == 0 then w.cursor else Some(pending[j - 1].offset)
    ensures j < k ==> !Paired(outs[j])
    decreases |pending|
  {
    if |pending| == 0 {
      return 0, 0;
    }
    var next := Applied(w, pending[0], pending[0].offset, equity, outs[0]);
    AppliedCases(w, pending[0], equity, outs[0]);
    if Went(w, pending[0], equity, outs[0]) {
      k, j := Progress(next, pending[1..], equity, outs[1..]);
      Prepend(w, next, AppliedAll(next, pending[1..], equity, outs[1..]), pending, k, j);
      k, j := k + 1, j + 1;
    } else {
      k := if Logged(w, pending[0], equity, outs[0]) then 1 else 0;
      j := if k == 1 && outs[0].rebase.Committed? && outs[0].cursor.Durable() then 1 else 0;
      assert pending[..1] == [pending[0]] && w.log + pending[..0] == w.log;
    }
  }

  /** The first installation applies at most one transfer: the newest whose
      equity is still the account's. */
  lemma BootstrapAppliesAtMostOne(w: World, ts: seq<Transfer>, equity: real, outs: seq<Outcome>)
    requires |ts| <= |outs| && w.cursor.None?
    ensures var after := Pass(w, ts, equity, outs);
            && (after.log == w.log
                || (NewestMatch(ts, equity).Some? && after.log == w.log + [NewestMatch(ts, equity).value]))
            && (after.cursor.Some? ==> |ts| > 0 && after.cursor.value == NewestOffset(ts))
            && (|ts| > 0 && Paired(outs[0]) && after.log != w.log ==> after.cursor.Some?)
  {
  }

  // ---- Runs ----

  datatype Event =
    | Reconciled(ts: seq<Transfer>, equity: real, outs: seq<Outcome>)
    | Read(equity: real, w: WriteOutcome)
    | Restarted

  ghost predicate Legal(e: Event) {
    e.Reconciled? ==> |e.ts| <= |e.outs| && Ledger(e.ts)
  }

  function Next(w: World, e: Event): World
    requires e.Reconciled? ==> |e.ts| <= |e.outs|
  {
    match e
    case Reconciled(ts, equity, outs) => Pass(w, ts, equity, outs)
    case Read(equity, o) => w.(hwm := H.Carried(w.hwm, H.ReadingPlan(H.Known(w.hwm), equity), equity, o))
    case Restarted => w.(hwm := w.hwm.(cache := None))
  }

  /** Only passes move the cursor or apply transfers; a restart forgets what
      the process knew and leaves the store. */
  lemma OtherEventsExactly(w: World, e: Event)
    requires !e.Reconciled?
    ensures Next(w, e).cursor == w.cursor && Next(w, e).log == w.log
    ensures e.Restarted? ==> Next(w, e).hwm == H.State(None, w.hwm.peak, w.hwm.provenance)
  {
  }

  ghost predicate LegalRun(es: seq<Event>) {
    forall k :: 0 <= k < |es| ==> Legal(es[k])
  }

  ghost function Exec(w: World, es: seq<Event>): World
    requires LegalRun(es)
    decreases |es|
  {
    if |es| == 0 then w else Next(Exec(w, es[..|es| - 1]), es[|es| - 1])
  }

  ghost predicate PairedEvent(e: Event) {
    e.Reconciled? ==> forall i :: 0 <= i < |e.outs| ==> Paired(e.outs[i])
  }

  ghost predicate Increasing(log: seq<Transfer>) {
    forall i, j :: 0 <= i < j < |log| ==> log[i].offset < log[j].offset
  }

  ghost predicate Above(ts: seq<Transfer>, cursor: int) {
    forall i :: 0 <= i < |ts| ==> ts[i].offset > cursor
  }

  ghost predicate UpTo(ts: seq<Transfer>, cursor: int) {
    forall i :: 0 <= i < |ts| ==> ts[i].offset <= cursor
  }

  /** The applied transfers are strictly in ledger order, below the cursor. */
  ghost predicate Settled(w: World) {
    && Increasing(w.log)
    && (w.cursor.None? ==> w.log == [])
    && (w.cursor.Some? ==> UpTo(w.log, w.cursor.value))
  }

  lemma AppendIncreasing(log: seq<Transfer>, more: seq<Transfer>, cursor: int)
    requires Increasing(log) && Increasing(more) && UpTo(log, cursor) && Above(more, cursor)
    ensures Increasing(log + more)
  {
  }

  /** One step of any kind only appends transfers above the cursor, in order,
      and never moves the cursor back. */
  lemma StepAbove(w: World, e: Event) returns (added: seq<Transfer>)
    requires Legal(e) && w.cursor.Some?
    ensures Next(w, e).log == w.log + added && Increasing(added) && Above(added, w.cursor.value)
    ensures Next(w, e).cursor.Some? && Next(w, e).cursor.value >= w.cursor.value
    ensures PairedEvent(e) ==> UpTo(added, Next(w, e).cursor.value)
  {
    added := [];
    if e.Reconciled? && e.equity > 0.0 && |e.ts| > 0 {
      added := PassAbove(w, e.ts, e.equity, e.outs);
    } else {
      assert w.log + added == w.log;
    }
  }

  lemma PassAbove(w: World, ts: seq<Transfer>, equity: real, outs: seq<Outcome>) returns (added: seq<Transfer>)
    requires |ts| <= |outs| && Ledger(ts) && w.cursor.Some?
    ensures var after := AppliedAll(w, Pending(ts, w.cursor.value), equity, outs);
            && after.log == w.log + added && Increasing(added) && Above(added, w.cursor.value)
            && after.cursor.Some? && after.cursor.value >= w.cursor.value
            && ((forall i :: 0 <= i < |outs| ==> Paired(outs[i])) ==> UpTo(added, after.cursor.value))
  {
    var pending := Pending(ts, w.cursor.value);
    LedgerAbove(ts, w.cursor.value);
    var k, j := Progress(w, pending, equity, outs);
    added := pending[..k];
    PrefixAbove(AppliedAll(w, pending, equity, outs).cursor, pending, k, j, w.cursor.value);
  }

  lemma LedgerAbove(ts: seq<Transfer>, cursor: int)
    requires Ledger(ts)
    ensures Increasing(Pending(ts, cursor)) && Above(Pending(ts, cursor), cursor)
  {
    var pending := Pending(ts, cursor);
    PendingMeans(ts, cursor);
    forall i | 0 <= i < |pending|
      ensures pending[i].offset > cursor
    {
      assert pending[i] in pending;
    }
  }

  lemma PrefixAbove(after: Option<int>, pending: seq<Transfer>, k: nat, j: nat, cursor: int)
    requires Increasing(pending) && Above(pending, cursor) && j <= k <= j + 1 && k <= |pending|
    requires after == if j == 0 then Some(cursor) else Some(pending[j - 1].offset)
    ensures Increasing(pending[..k]) && Above(pending[..k], cursor) && after.value >= cursor
    ensures j == k ==> UpTo(pending[..k], after.value)
  {
  }

  lemma SettledStep(w: World, e: Event)
    requires Settled(w) && Legal(e) && PairedEvent(e)
    ensures Settled(Next(w, e))
    ensures w.cursor.Some? ==> Next(w, e).cursor.Some? && Next(w, e).cursor.value >= w.cursor.value
    ensures w.log <= Next(w, e).log
  {
    if w.cursor.Some? {
      var added := StepAbove(w, e);
      AppendIncreasing(w.log, added, w.cursor.value);
    } else if e.Reconciled? {
      BootstrapAppliesAtMostOne(w, e.ts, e.equity, e.outs);
    }
  }

  ghost predicate PairedRun(es: seq<Event>) {
    LegalRun(es) && forall k :: 0 <= k < |es| ==> PairedEvent(es[k])
  }

  /** The later world extends what the earlier one applied, and its cursor is
      not behind. */
  ghost predicate Extends(later: World, earlier: World) {
    && earlier.log <= later.log
    && (earlier.cursor.Some? ==> later.cursor.Some? && later.cursor.value >= earlier.cursor.value)
  }

  lemma LastStep(w: World, es: seq<Event>)
    requires PairedRun(es) && |es| > 0 && Settled(Exec(w, es[..|es| - 1]))
    ensures Settled(Exec(w, es)) && Extends(Exec(w, es), Exec(w, es[..|es| - 1]))
  {
    assert Legal(es[|es| - 1]) && PairedEvent(es[|es| - 1]);
    SettledStep(Exec(w, es[..|es| - 1]), es[|es| - 1]);
  }

  /** When no crash or lost reply separates a rebase from its cursor, every
      transfer is applied at most once and in ledger order, from the first
      installation on, and the cursor only grows. */
  lemma {:induction false} AppliedAtMostOnce(w: World, es: seq<Event>, n: nat)
    requires Settled(w) && PairedRun(es) && n <= |es|
    ensures Settled(Exec(w, es)) && Extends(Exec(w, es), Exec(w, es[..n]))
    decreases |es|
  {
    if |es| == 0 {
    } else {
      var before := es[..|es| - 1];
      if n < |es| {
        assert before[..n] == es[..n];
        AppliedAtMostOnce(w, before, n);
      } else {
        AppliedAtMostOnce(w, before, |before|);
      }
      LastStep(w, es);
    }
    if n == |es| {
      assert es[..n] == es;
    }
  }

  /** t was applied at one place of the log and nowhere else. */
  ghost predicate OnceIn(log: seq<Transfer>, t: Transfer) {
    exists i :: 0 <= i < |log| && log[i] == t && forall j :: 0 <= j < |log| && log[j].offset == t.offset ==> j == i
  }

  lemma OnceFromPrefix(log: seq<Transfer>, whole: seq<Transfer>, i: nat)
    requires i < |log| && log <= whole && Increasing(whole)
    ensures OnceIn(whole, log[i])
  {
    assert whole[i] == log[i];
  }

  lemma ConfirmedPass(w: World, e: Event, t: Transfer) returns (i: nat)
    requires Legal(e) && e.Reconciled? && e.equity > 0.0 && AllCommitted(e.outs) && t in e.ts
    requires Healthy(w.hwm) && w.cursor.Some? && t.offset > w.cursor.value
    ensures |w.log| <= i < |Next(w, e).log| && Next(w, e).log[i] == t
  {
    i := CommittedPass(w, e.ts, e.equity, e.outs, t);
  }

  lemma CommittedPass(w: World, ts: seq<Transfer>, equity: real, outs: seq<Outcome>, t: Transfer) returns (i: nat)
    requires |ts| <= |outs| && Ledger(ts) && equity > 0.0 && AllCommitted(outs) && t in ts
    requires Healthy(w.hwm) && w.cursor.Some? && t.offset > w.cursor.value
    ensures var log := AppliedAll(w, Pending(ts, w.cursor.value), equity, outs).log; |w.log| <= i < |log| && log[i] == t
  {
    var pending := Pending(ts, w.cursor.value);
    PendingMeans(ts, w.cursor.value);
    CommittedAll(w, pending, equity, outs);
    i := PlaceOf(w.log, pending, t);
  }

  lemma PlaceOf(log: seq<Transfer>, more: seq<Transfer>, t: Transfer) returns (i: nat)
    requires t in more
    ensures |log| <= i < |log + more| && (log + more)[i] == t
  {
    var x :| 0 <= x < |more| && more[x] == t;
    i := |log| + x;
  }

  /** Exactly once: a transfer above the cursor, visible to one confirmed pass
      of a run without separated writes, is in the log of the whole run once. */
  lemma AppliedExactlyOnce(w: World, es: seq<Event>, n: nat, t: Transfer)
    requires Settled(w) && PairedRun(es) && n < |es|
    requires es[n].Reconciled? && es[n].equity > 0.0 && AllCommitted(es[n].outs) && t in es[n].ts
    requires var before := Exec(w, es[..n]);
             Healthy(before.hwm) && before.cursor.Some? && t.offset > before.cursor.value
    ensures OnceIn(Exec(w, es).log, t)
  {
    var upTo := es[..n + 1];
    assert upTo[..n] == es[..n];
    var i := ConfirmedPass(Exec(w, es[..n]), es[n], t);
    AppliedAtMostOnce(w, es, n + 1);
    OnceFromPrefix(Exec(w, upTo).log, Exec(w, es).log, i);
  }

  /** Whatever crashes, nothing at or below a cursor is applied after it: in
      particular nothing that was history at the first installation. */
  lemma {:induction false} NothingBelowCursor(w: World, es: seq<Event>) returns (added: seq<Transfer>)
    requires w.cursor.Some? && LegalRun(es)
    ensures Exec(w, es).log == w.log + added && Above(added, w.cursor.value)
    ensures Exec(w, es).cursor.Some? && Exec(w, es).cursor.value >= w.cursor.value
    decreases |es|
  {
    added := [];
    if |es| == 0 {
      assert w.log + added == w.log;
    } else {
      var before := es[..|es| - 1];
      var first := NothingBelowCursor(w, before);
      var last := StepAbove(Exec(w, before), es[|es| - 1]);
      added := first + last;
      assert w.log + added == (w.log + first) + last;
    }
  }
}

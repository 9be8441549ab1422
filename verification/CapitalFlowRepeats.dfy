/** How often a transfer is applied when a write separates its rebase from the
    cursor: over whole runs, and across a failed pass and the next clean one. */
module CapitalFlowRepeats {
  import opened Common
  import opened CapitalFlow
  import opened CapitalFlowRuns

  const CONFIRMED := Outcome(Committed, Committed)

  // ---- Over whole runs ----

  /** The cursor is at or above the offset. */
  predicate Reached(w: World, offset: int) {
    w.cursor.Some? && w.cursor.value >= offset
  }

  /** The event makes a rebase for this offset durable. */
  ghost predicate Applies(w: World, e: Event, offset: int)
    requires Legal(e)
  {
    exists i :: |w.log| <= i < |Next(w, e).log| && Next(w, e).log[i].offset == offset
  }

  /** The rebase became durable and the cursor did not follow it. */
  ghost predicate Separates(w: World, e: Event, offset: int)
    requires Legal(e)
  {
    Applies(w, e, offset) && !Reached(Next(w, e), offset)
  }

  lemma ReachedStep(w: World, e: Event, offset: int)
    requires Legal(e) && Reached(w, offset)
    ensures Reached(Next(w, e), offset) && !Applies(w, e, offset)
  {
    var added := StepAbove(w, e);
    forall i | |w.log| <= i < |Next(w, e).log|
      ensures Next(w, e).log[i].offset != offset
    {
      assert Next(w, e).log[i] == added[i - |w.log|];
    }
  }

  /** How often the log holds the offset. */
  function TimesIn(log: seq<Transfer>, offset: int): nat
    decreases |log|
  {
    if |log| == 0 then 0
    else TimesIn(log[..|log| - 1], offset) + if log[|log| - 1].offset == offset then 1 else 0
  }

  lemma {:induction false} TimesInBoth(a: seq<Transfer>, b: seq<Transfer>, offset: int)
    ensures TimesIn(a + b, offset) == TimesIn(a, offset) + TimesIn(b, offset)
    decreases |b|
  {
    if |b| == 0 {
      assert a + b == a;
    } else {
      assert (a + b)[..|a + b| - 1] == a + b[..|b| - 1];
      TimesInBoth(a, b[..|b| - 1], offset);
    }
  }

  lemma {:induction false} OnceWhereIncreasing(ts: seq<Transfer>, offset: int)
    requires Increasing(ts)
    ensures TimesIn(ts, offset) == if exists i :: 0 <= i < |ts| && ts[i].offset == offset then 1 else 0
    decreases |ts|
  {
    if |ts| == 0 {
    } else {
      var before := ts[..|ts| - 1];
      OnceWhereIncreasing(before, offset);
      if i :| 0 <= i < |before| && before[i].offset == offset {
        assert ts[i].offset == offset;
      }
    }
  }

  /** The ledger shows the transfer before any later one. */
  ghost predicate Shows(e: Event, t: Transfer) {
    e.Reconciled? && (exists x :: x in e.ts && x.offset >= t.offset) ==> t in e.ts
  }

  /** Event n of the run separates the offset. */
  ghost predicate SeparatesAt(w: World, es: seq<Event>, n: nat, offset: int)
    requires LegalRun(es) && n < |es|
  {
    assert Legal(es[n]);
    Separates(Exec(w, es[..n]), es[n], offset)
  }

  /** The events of a run that separate the offset. */
  ghost function Separations(w: World, es: seq<Event>, offset: int): nat
    requires LegalRun(es)
    decreases |es|
  {
    if |es| == 0 then 0
    else
      Separations(w, es[..|es| - 1], offset) + if SeparatesAt(w, es, |es| - 1, offset) then 1 else 0
  }

  /** The cursor passes a transfer its pass shows only by applying it. */
  lemma PassingApplies(w: World, e: Event, t: Transfer)
    requires Legal(e) && Shows(e, t) && w.cursor.Some? && !Reached(w, t.offset)
    requires Reached(Next(w, e), t.offset)
    ensures Applies(w, e, t.offset)
  {
    var pending := Pending(e.ts, w.cursor.value);
    PendingMeans(e.ts, w.cursor.value);
    var k, j := Progress(w, pending, e.equity, e.outs);
    assert pending[j - 1] in pending;
    assert t in pending;
    var i :| 0 <= i < |pending| && pending[i] == t;
    assert i < k;
    assert Next(w, e).log[|w.log| + i] == pending[..k][i];
  }

  /** One event applies the transfer at most once, and does so when it
      separates it or takes the cursor past it. */
  lemma TimesStep(w: World, e: Event, t: Transfer)
    requires Legal(e) && Shows(e, t) && w.cursor.Some?
    ensures Next(w, e).cursor.Some? && (Reached(w, t.offset) ==> Reached(Next(w, e), t.offset))
    ensures TimesIn(Next(w, e).log, t.offset) == TimesIn(w.log, t.offset)
              + (if Separates(w, e, t.offset) then 1 else 0)
              + (if !Reached(w, t.offset) && Reached(Next(w, e), t.offset) then 1 else 0)
  {
    var added := StepAbove(w, e);
    TimesInBoth(w.log, added, t.offset);
    OnceWhereIncreasing(added, t.offset);
    AppliesIsAdded(w, e, t.offset, added);
    if Reached(w, t.offset) {
      ReachedStep(w, e, t.offset);
    } else if Reached(Next(w, e), t.offset) {
      PassingApplies(w, e, t);
    }
  }

  lemma AppliesIsAdded(w: World, e: Event, offset: int, added: seq<Transfer>)
    requires Legal(e) && Next(w, e).log == w.log + added
    ensures Applies(w, e, offset) <==> exists i :: 0 <= i < |added| && added[i].offset == offset
  {
    if i :| 0 <= i < |added| && added[i].offset == offset {
      assert Next(w, e).log[|w.log| + i].offset == offset;
    }
    if i :| |w.log| <= i < |Next(w, e).log| && Next(w, e).log[i].offset == offset {
      assert added[i - |w.log|].offset == offset;
    }
  }

  /** Over any run, with whatever failures, a transfer above the cursor is
      applied once for each event that separates its rebase from the cursor,
      and once more when the cursor gets past it. */
  lemma {:induction false} TimesApplied(w: World, es: seq<Event>, t: Transfer)
    requires LegalRun(es) && w.cursor.Some? && !Reached(w, t.offset)
    requires forall k :: 0 <= k < |es| ==> Shows(es[k], t)
    ensures Exec(w, es).cursor.Some?
    ensures TimesIn(Exec(w, es).log, t.offset) == TimesIn(w.log, t.offset) + Separations(w, es, t.offset)
              + (if Reached(Exec(w, es), t.offset) then 1 else 0)
    decreases |es|
  {
    if |es| == 0 {
    } else {
      var before := es[..|es| - 1];
      TimesApplied(w, before, t);
      assert Legal(es[|es| - 1]);
      TimesStep(Exec(w, before), es[|es| - 1], t);
    }
  }

  lemma SeparatesEarlier(w: World, es: seq<Event>, n: nat, offset: int)
    requires LegalRun(es) && n < |es| - 1
    ensures SeparatesAt(w, es[..|es| - 1], n, offset) <==> SeparatesAt(w, es, n, offset)
  {
    assert es[..|es| - 1][..n] == es[..n];
  }

  lemma {:induction false} SomeSeparates(w: World, es: seq<Event>, offset: int) returns (n: nat)
    requires LegalRun(es) && Separations(w, es, offset) > 0
    ensures n < |es| && SeparatesAt(w, es, n, offset)
    decreases |es|
  {
    if SeparatesAt(w, es, |es| - 1, offset) {
      n := |es| - 1;
    } else {
      n := SomeSeparates(w, es[..|es| - 1], offset);
      SeparatesEarlier(w, es, n, offset);
    }
  }

  lemma {:induction false} SeparatingCounts(w: World, es: seq<Event>, n: nat, offset: int)
    requires LegalRun(es) && n < |es| && SeparatesAt(w, es, n, offset)
    ensures Separations(w, es, offset) > 0
    decreases |es|
  {
    if n == |es| - 1 {
    } else {
      SeparatesEarlier(w, es, n, offset);
      SeparatingCounts(w, es[..|es| - 1], n, offset);
    }
  }

  /** Once the cursor has got past it, a transfer has been applied more than
      once exactly when some event of the run separated it. */
  lemma AppliedAgainExactly(w: World, es: seq<Event>, t: Transfer)
    requires LegalRun(es) && w.cursor.Some? && !Reached(w, t.offset)
    requires forall k :: 0 <= k < |es| ==> Shows(es[k], t)
    requires Reached(Exec(w, es), t.offset)
    ensures TimesIn(Exec(w, es).log, t.offset) > TimesIn(w.log, t.offset) + 1 <==>
              exists n :: 0 <= n < |es| && SeparatesAt(w, es, n, t.offset)
    ensures TimesIn(Exec(w, es).log, t.offset) > TimesIn(w.log, t.offset)
  {
    TimesApplied(w, es, t);
    if Separations(w, es, t.offset) > 0 {
      var _ := SomeSeparates(w, es, t.offset);
    }
    if n :| 0 <= n < |es| && SeparatesAt(w, es, n, t.offset) {
      SeparatingCounts(w, es, n, t.offset);
    }
  }

  /** A confirmed pass that sees the transfer applies it exactly when the
      cursor has not reached it: after a separation, once more. */
  lemma ConfirmedAppliesExactly(w: World, e: Event, t: Transfer)
    requires Legal(e) && e.Reconciled? && e.equity > 0.0 && AllCommitted(e.outs) && t in e.ts
    requires Healthy(w.hwm) && w.cursor.Some?
    ensures Applies(w, e, t.offset) <==> !Reached(w, t.offset)
    ensures Reached(Next(w, e), t.offset)
  {
    if Reached(w, t.offset) {
      ReachedStep(w, e, t.offset);
    } else {
      var i := ConfirmedPass(w, e, t);
      OnlyUnpairedSeparates(w, e, t.offset);
    }
  }

  /** Only an unpaired outcome separates: a durable rebase that was not
      answered, or whose cursor write did not become durable. */
  lemma OnlyUnpairedSeparates(w: World, e: Event, offset: int)
    requires Legal(e) && PairedEvent(e)
    ensures !Separates(w, e, offset)
  {
    if w.cursor.Some? {
      var added := StepAbove(w, e);
      forall i | |w.log| <= i < |Next(w, e).log|
        ensures Next(w, e).log[i].offset <= Next(w, e).cursor.value
      {
        assert Next(w, e).log[i] == added[i - |w.log|];
      }
    } else if e.Reconciled? {
      BootstrapAppliesAtMostOne(w, e.ts, e.equity, e.outs);
    }
  }

  // ---- Across one failed pass ----

  /** The pass that gets through `count` transfers rebased this many. */
  function RebasedBy(count: nat, n: nat, outs: seq<Outcome>): nat
    requires n <= |outs|
  {
    if count < n && outs[count].rebase.Durable() then count + 1 else count
  }

  /** And moved the cursor past this many. */
  function PassedBy(count: nat, n: nat, outs: seq<Outcome>): nat
    requires n <= |outs|
  {
    if count < n && outs[count].rebase.Committed? && outs[count].cursor.Durable() then count + 1 else count
  }

  /** Where a pass stops follows from the outcome of its last transfer. */
  lemma {:induction false} StopsAt(w: World, pending: seq<Transfer>, equity: real, outs: seq<Outcome>)
    requires |pending| <= |outs| && equity > 0.0 && Healthy(w.hwm) && forall t :: t in pending ==> Usable(t)
    ensures var after := AppliedAll(w, pending, equity, outs);
            var count := Count(w, pending, equity, outs);
            var k, j := RebasedBy(count, |pending|, outs), PassedBy(count, |pending|, outs);
            && count <= |pending| && k <= |pending| && j <= k && Healthy(after.hwm)
            && after.log == w.log + pending[..k]
            && after.cursor == (if j == 0 then w.cursor else Some(pending[j - 1].offset))
    decreases |pending|
  {
    if |pending| == 0 {
      assert w.log + pending[..0] == w.log;
    } else {
      var t, o := pending[0], outs[0];
      var next := Applied(w, t, t.offset, equity, o);
      AppliedCases(w, t, equity, o);
      UsableAccepted(w, t, t.offset, equity, o);
      if Went(w, t, equity, o) {
        StopsAt(next, pending[1..], equity, outs[1..]);
        var count := Count(next, pending[1..], equity, outs[1..]);
        Prepended(w, next, AppliedAll(next, pending[1..], equity, outs[1..]), pending, outs, count);
      } else {
        assert pending[..1] == [t] && w.log + pending[..0] == w.log;
      }
    }
  }

  /** A pass that rebased k of its transfers and passed j separates the last
      rebased one, if the cursor stayed behind it. */
  lemma StoppedSeparates(w: World, e: Event, pending: seq<Transfer>, k: nat, j: nat, offset: int)
    requires Legal(e) && w.cursor.Some? && j <= k <= j + 1 && k <= |pending|
    requires Increasing(pending) && Above(pending, w.cursor.value)
    requires Next(w, e).log == w.log + pending[..k]
    requires Next(w, e).cursor == if j == 0 then w.cursor else Some(pending[j - 1].offset)
    ensures Separates(w, e, offset) <==> j < k && pending[j].offset == offset
  {
    AppliesIsAdded(w, e, offset, pending[..k]);
    if i :| 0 <= i < k && pending[..k][i].offset == offset {
      assert pending[i].offset == offset;
    }
    if j < k {
      assert pending[..k][j] == pending[j];
    }
  }

  /** A healthy pass can separate only the transfer at which it stops, and
      does exactly when the outcome there was not paired. */
  lemma SeparatesExactly(w: World, e: Event, t: Transfer)
    requires Legal(e) && e.Reconciled? && e.equity > 0.0 && Healthy(w.hwm) && w.cursor.Some?
    ensures var pending := Pending(e.ts, w.cursor.value);
            var stop := Count(w, pending, e.equity, e.outs);
            Separates(w, e, t.offset) <==>
              stop < |pending| && pending[stop].offset == t.offset && !Paired(e.outs[stop])
  {
    var pending := Pending(e.ts, w.cursor.value);
    PendingMeans(e.ts, w.cursor.value);
    LedgerAbove(e.ts, w.cursor.value);
    StopsAt(w, pending, e.equity, e.outs);
    var stop := Count(w, pending, e.equity, e.outs);
    var k, j := RebasedBy(stop, |pending|, e.outs), PassedBy(stop, |pending|, e.outs);
    StoppedSeparates(w, e, pending, k, j, t.offset);
  }

  lemma Prepended(w: World, next: World, after: World, pending: seq<Transfer>, outs: seq<Outcome>, count: nat)
    requires 0 < |pending| <= |outs| && count < |pending|
    requires next.log == w.log + [pending[0]] && next.cursor == Some(pending[0].offset)
    requires var rest, more := pending[1..], outs[1..];
             var k, j := RebasedBy(count, |rest|, more), PassedBy(count, |rest|, more);
             && k <= |rest| && j <= k && after.log == next.log + rest[..k]
             && after.cursor == if j == 0 then next.cursor else Some(rest[j - 1].offset)
    ensures var k, j := RebasedBy(count + 1, |pending|, outs), PassedBy(count + 1, |pending|, outs);
            && k <= |pending| && 0 < j <= k && after.log == w.log + pending[..k]
            && after.cursor == Some(pending[j - 1].offset)
  {
    var k, j := RebasedBy(count, |pending| - 1, outs[1..]), PassedBy(count, |pending| - 1, outs[1..]);
    Prepend(w, next, after, pending, k, j);
  }

  lemma {:induction false} AllPending(ts: seq<Transfer>, cursor: int)
    requires forall i :: 0 <= i < |ts| ==> ts[i].offset > cursor
    ensures Pending(ts, cursor) == ts
    decreases |ts|
  {
    if |ts| == 0 {
    } else {
      AllPending(ts[1..], cursor);
    }
  }

  lemma {:induction false} PendingIsAbove(ts: seq<Transfer>, cursor: int)
    ensures Above(Pending(ts, cursor), cursor)
    decreases |ts|
  {
    if |ts| == 0 {
    } else {
      PendingIsAbove(ts[1..], cursor);
    }
  }

  /** With the cursor at its first j pending transfers, the rest is pending. */
  lemma {:induction false} PendingAfter(ts: seq<Transfer>, cursor: int, j: nat)
    requires Increasing(ts) && 0 < j <= |Pending(ts, cursor)|
    ensures Pending(ts, Pending(ts, cursor)[j - 1].offset) == Pending(ts, cursor)[j..]
    decreases |ts|
  {
    if |ts| == 0 {
    } else if ts[0].offset <= cursor {
      PendingIsAbove(ts, cursor);
      PendingAfter(ts[1..], cursor, j);
    } else {
      PendingAfterFirst(ts, cursor, j);
      if j > 1 {
        PendingAfter(ts[1..], cursor, j - 1);
      }
    }
  }

  lemma PendingAfterFirst(ts: seq<Transfer>, cursor: int, j: nat)
    requires 0 < |ts| && Increasing(ts) && ts[0].offset > cursor && 0 < j <= |Pending(ts, cursor)|
    ensures Pending(ts, cursor) == ts
    ensures Pending(ts, ts[j - 1].offset) == Pending(ts[1..], ts[j - 1].offset)
    ensures j == 1 ==> Pending(ts[1..], ts[0].offset) == ts[1..]
    ensures Pending(ts[1..], cursor) == ts[1..]
  {
    AllPending(ts, cursor);
    AllPending(ts[1..], cursor);
    AllPending(ts[1..], ts[0].offset);
    assert ts[j - 1].offset >= ts[0].offset;
  }

  /** A failed pass over a ledger, a restart, and a clean pass over it. */
  function PassTwice(w: World, ts: seq<Transfer>, equity: real, outs: seq<Outcome>): World
    requires |ts| <= |outs|
  {
    var first := Pass(w, ts, equity, outs);
    Pass(first.(hwm := first.hwm.(cache := None)), ts, equity, seq(|ts|, i => CONFIRMED))
  }

  /** Across a failed pass and a restart every pending transfer is applied
      exactly once if and only if the outcome the first pass stopped at was
      paired; otherwise that one transfer, and no other, is applied twice. */
  lemma OnceAcrossRestartExactly(w: World, ts: seq<Transfer>, equity: real, outs: seq<Outcome>)
    requires |ts| <= |outs| && Ledger(ts) && equity > 0.0 && Healthy(w.hwm) && w.cursor.Some?
    ensures var pending := Pending(ts, w.cursor.value);
            var stop := Count(w, pending, equity, outs);
            && stop <= |pending|
            && (PassTwice(w, ts, equity, outs).log == w.log + pending <==> stop == |pending| || Paired(outs[stop]))
            && (stop < |pending| && !Paired(outs[stop]) ==>
                  PassTwice(w, ts, equity, outs).log == w.log + pending[..stop + 1] + pending[stop..])
  {
    var pending := Pending(ts, w.cursor.value);
    PendingMeans(ts, w.cursor.value);
    StopsAt(w, pending, equity, outs);
    var stop := Count(w, pending, equity, outs);
    var k, j := RebasedBy(stop, |pending|, outs), PassedBy(stop, |pending|, outs);
    PassTwiceLog(w, ts, equity, outs, k, j);
    Overlap(w.log, pending, k, j);
  }

  lemma PassTwiceLog(w: World, ts: seq<Transfer>, equity: real, outs: seq<Outcome>, k: nat, j: nat)
    requires |ts| <= |outs| && Ledger(ts) && equity > 0.0 && w.cursor.Some? && j <= k <= |Pending(ts, w.cursor.value)|
    requires var pending := Pending(ts, w.cursor.value);
             var after := AppliedAll(w, pending, equity, outs);
             && Healthy(after.hwm) && after.log == w.log + pending[..k]
             && after.cursor == if j == 0 then w.cursor else Some(pending[j - 1].offset)
    ensures PassTwice(w, ts, equity, outs).log
            == w.log + Pending(ts, w.cursor.value)[..k] + Pending(ts, w.cursor.value)[j..]
  {
    var pending := Pending(ts, w.cursor.value);
    if |ts| > 0 {
      var after := AppliedAll(w, pending, equity, outs);
      var again := after.(hwm := after.hwm.(cache := None));
      if j > 0 {
        PendingAfter(ts, w.cursor.value, j);
      }
      assert Pending(ts, again.cursor.value) == pending[j..];
      PendingMeans(ts, again.cursor.value);
      CommittedAll(again, pending[j..], equity, seq(|ts|, i => CONFIRMED));
    }
  }

  lemma Overlap(log: seq<Transfer>, pending: seq<Transfer>, k: nat, j: nat)
    requires j <= k <= j + 1 && k <= |pending|
    ensures log + pending[..k] + pending[j..] == log + pending <==> k == j
  {
    if k == j {
      assert pending[..k] + pending[k..] == pending;
      assert log + pending[..k] + pending[k..] == log + (pending[..k] + pending[k..]);
    } else {
      assert |log + pending[..k] + pending[j..]| == |log + pending| + 1;
    }
  }

  // ---- One transfer ----

  /** One transfer, one pass that ends as `o`, a restart and a clean pass. */
  function Retried(w: World, t: Transfer, equity: real, o: Outcome): World {
    var first := Pass(w, [t], equity, [o]);
    Pass(first.(hwm := first.hwm.(cache := None)), [t], equity, [CONFIRMED])
  }

  lemma Single(w: World, t: Transfer, equity: real, o: Outcome)
    requires w.cursor.Some?
    ensures Pass(w, [t], equity, [o])
            == if equity > 0.0 && t.offset > w.cursor.value then Applied(w, t, t.offset, equity, o) else w
  {
    assert [t][1..] == [];
    assert Pending([t], w.cursor.value) == if t.offset > w.cursor.value then [t] else [];
    if equity > 0.0 && t.offset > w.cursor.value {
      var next := Applied(w, t, t.offset, equity, o);
      assert [o][1..] == [];
      assert AppliedAll(next, [], equity, []) == next;
    }
  }

  /** A deposit of 50 on a mark of 100, cut between its two writes, ends as a
      mark of 200 instead of 150. */
  lemma SeparatedDepositCountsTwice()
    ensures var w := World(H.State(Some(100.0), Some(100.0), None), Some(1), []);
            var t := Transfer(H.Flow(H.TransferIn, 50.0, 40.0, 90.0), 2, 0);
            && Retried(w, t, 90.0, CONFIRMED).hwm.peak == Some(150.0)
            && Retried(w, t, 90.0, Outcome(Committed, CrashedBefore)).hwm.peak == Some(200.0)
  {
    var w := World(H.State(Some(100.0), Some(100.0), None), Some(1), []);
    var t := Transfer(H.Flow(H.TransferIn, 50.0, 40.0, 90.0), 2, 0);
    forall o: Outcome
      ensures Pass(w, [t], 90.0, [o]) == Applied(w, t, 2, 90.0, o)
    {
      Single(w, t, 90.0, o);
    }
    var cut := Outcome(Committed, CrashedBefore);
    var first := Applied(w, t, 2, 90.0, cut);
    Single(first.(hwm := first.hwm.(cache := None)), t, 90.0, CONFIRMED);
    var whole := Applied(w, t, 2, 90.0, CONFIRMED);
    Single(whole.(hwm := whole.hwm.(cache := None)), t, 90.0, CONFIRMED);
  }

  /** A lost reply alone does no harm while the process lives: the stale cache
      makes the retry compute the same mark again. */
  lemma RetryAfterLostReply(w: World, t: Transfer, equity: real)
    requires Healthy(w.hwm) && w.hwm.cache.Some? && w.cursor.Some? && Usable(t) && t.offset > w.cursor.value
             && equity > 0.0
    ensures var lost := Pass(w, [t], equity, [Outcome(Ambiguous, Committed)]);
            Pass(lost, [t], equity, [CONFIRMED]).hwm.peak == Pass(w, [t], equity, [CONFIRMED]).hwm.peak
  {
    Single(w, t, equity, Outcome(Ambiguous, Committed));
    Single(w, t, equity, CONFIRMED);
    UsableAccepted(w, t, t.offset, equity, Outcome(Ambiguous, Committed));
    var lost := Pass(w, [t], equity, [Outcome(Ambiguous, Committed)]);
    Single(lost, t, equity, CONFIRMED);
  }
}

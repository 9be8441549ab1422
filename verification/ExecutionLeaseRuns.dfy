/** Every interleaving of any number of processes that acquire, renew, lose,
    validate and publish the lease. Each step is one atomic segment between
    two awaits, so a clock reading, the transaction that uses it, the
    validation read and the check on it are separate steps. */
module ExecutionLeaseRuns {
  import opened Common
  import opened ExecutionLease

  datatype Phase =
    | Idle
    | Sampled(now: int)
    | Holding(o: Ownership)
    | Fetched(o: Ownership, seen: Option<Row>)
    | Checked(o: Ownership)

  datatype Proc = Proc(phase: Phase, local: Local)

  /** `clock` is the last reading anyone took; `issued` the ownerships ever
      written to the row. */
  datatype Sys = Sys(row: Option<Row>, clock: int, procs: seq<Proc>, issued: set<Ownership>)

  datatype Step =
    | Sample(p: nat, now: int)
    | Transact(p: nat, tx: TxOutcome)
    | Fetch(p: nat)
    | Check(p: nat, now: int)
    | Publish(p: nat, now: int)
    | Abandon(p: nat, invalidate: bool)
    | Restart(p: nat)

  function Init(n: nat, clock: int): Sys {
    Sys(None, clock, seq(n, _ => Proc(Idle, NO_LEASE)), {})
  }

  function WithPhase(s: Sys, p: nat, phase: Phase): Sys
    requires p < |s.procs|
  {
    s.(procs := s.procs[p := s.procs[p].(phase := phase)])
  }

  /** The lease fields of a process between two heartbeats; a failed stage may
      or may not clear the readiness bit, depending on the caller. */
  function Next(own: seq<OwnerId>, lease: int, s: Sys, step: Step): Sys
    requires |own| == |s.procs|
  {
    if step.p >= |s.procs| then s
    else
      var p := step.p;
      var proc := s.procs[p];
      match step
      case Sample(_, now) =>
        if proc.phase.Idle? then WithPhase(s, p, Sampled(now)).(clock := now) else s
      case Transact(_, tx) =>
        if !proc.phase.Sampled? then s
        else
          var r := Acquired(s.row, own[p], proc.phase.now, lease);
          var reply := AcquireReply(s.row, own[p], proc.phase.now, lease, tx);
          WithPhase(s, p, if reply.Ok? then Holding(reply.value) else Idle)
          .(row := RowAfter(s.row, own[p], proc.phase.now, lease, tx),
            issued := if r.Ok? && !tx.TxRolledBack? then s.issued + {r.value} else s.issued)
      case Fetch(_) =>
        if proc.phase.Holding? then WithPhase(s, p, Fetched(proc.phase.o, s.row)) else s
      case Check(_, now) =>
        if !proc.phase.Fetched? then s
        else WithPhase(s, p, if Validated(proc.phase.seen, proc.phase.o, now).Ok? then Checked(proc.phase.o) else Idle)
             .(clock := now)
      case Publish(_, now) =>
        if !proc.phase.Checked? then s
        else s.(procs := s.procs[p := Proc(Idle, Published(proc.local, proc.phase.o, now))], clock := now)
      case Abandon(_, invalidate) =>
        s.(procs := s.procs[p := Proc(Idle, if invalidate then Invalidated(proc.local) else proc.local)])
      case Restart(_) =>
        s.(procs := s.procs[p := Proc(Idle, NO_LEASE)])
  }

  /** Which step does what: an ownership counts as issued with the transaction
      that grants it and does not roll back, a process is checked only by a
      check that validates the row it fetched, it samples only from rest, and
      giving up clears its readiness only if it says so. */
  lemma StepExactly(own: seq<OwnerId>, lease: int, s: Sys, step: Step, o: Ownership)
    requires |own| == |s.procs| && step.p < |s.procs|
    ensures var t, p := Next(own, lease, s, step), step.p;
            && (forall q :: 0 <= q < |s.procs| && q != p ==> t.procs[q] == s.procs[q])
            && (o in t.issued <==>
                  || o in s.issued
                  || (step.Transact? && s.procs[p].phase.Sampled? && step.tx != TxRolledBack
                      && Acquired(s.row, own[p], s.procs[p].phase.now, lease) == Ok(o)))
            && (t.row != s.row ==> exists granted :: granted in t.issued && t.row.value.ownerId == granted.ownerId
                                                     && t.row.value.token == granted.token)
            && (t.procs[p].phase == Checked(o) <==>
                  || (s.procs[p].phase == Checked(o) && !step.Publish? && !step.Abandon? && !step.Restart?)
                  || (step.Check? && s.procs[p].phase.Fetched? && s.procs[p].phase.o == o
                      && Validated(s.procs[p].phase.seen, o, step.now).Ok?))
            && (t.procs[p].phase.Sampled? && step.Sample? && s.procs[p].phase.Idle? ==>
                  t.procs[p].phase.now == t.clock == step.now)
            && (step.Sample? && !s.procs[p].phase.Idle? ==> t == s)
            && (step.Abandon? ==> t.procs[p].phase.Idle?
                                  && t.procs[p].local.valid == (!step.invalidate && s.procs[p].local.valid))
            && (step.Restart? ==> t.procs[p] == Proc(Idle, NO_LEASE))
  {
  }

  function Exec(own: seq<OwnerId>, lease: int, s: Sys, run: seq<Step>): (t: Sys)
    requires |own| == |s.procs|
    ensures |t.procs| == |s.procs|
    decreases |run|
  {
    if |run| == 0 then s else Exec(own, lease, Next(own, lease, s, run[0]), run[1..])
  }

  lemma {:induction false} ExecSplit(own: seq<OwnerId>, lease: int, s: Sys, a: seq<Step>, b: seq<Step>)
    requires |own| == |s.procs|
    ensures Exec(own, lease, s, a + b) == Exec(own, lease, Exec(own, lease, s, a), b)
    decreases |a|
  {
    if |a| == 0 {
      assert a + b == b;
    } else {
      assert (a + b)[1..] == a[1..] + b;
      ExecSplit(own, lease, Next(own, lease, s, a[0]), a[1..], b);
    }
  }

  // ---- Fencing, with arbitrary clock readings ----

  /** Every ownership ever issued is at or below the stored token, the ones at
      the stored token belong to the stored owner, and no token has two owners. */
  ghost predicate Fenced(own: seq<OwnerId>, s: Sys) {
    && |own| == |s.procs|
    && (s.row.Some? ==> s.row.value.ownerId != "")
    && (forall o :: o in s.issued ==>
          s.row.Some? && o.token <= s.row.value.token
              && (o.token == s.row.value.token ==> o.ownerId == s.row.value.ownerId))
    && (forall a, b :: a in s.issued && b in s.issued && a.token == b.token ==> a.ownerId == b.ownerId)
  }

  lemma FencedStep(own: seq<OwnerId>, lease: int, s: Sys, step: Step)
    requires Fenced(own, s)
    ensures Fenced(own, Next(own, lease, s, step))
    ensures StoredToken(s.row) <= StoredToken(Next(own, lease, s, step).row)
    ensures s.issued <= Next(own, lease, s, step).issued
  {
  }

  /** In every run the stored token never decreases, and tokens are never
      shared between owners: no assumption on clocks, owner ids or lease. */
  lemma {:induction false} FencedRun(own: seq<OwnerId>, lease: int, s: Sys, run: seq<Step>)
    requires Fenced(own, s)
    ensures Fenced(own, Exec(own, lease, s, run))
    ensures StoredToken(s.row) <= StoredToken(Exec(own, lease, s, run).row)
    ensures s.issued <= Exec(own, lease, s, run).issued
    decreases |run|
  {
    if |run| == 0 {
    } else {
      FencedStep(own, lease, s, run[0]);
      FencedRun(own, lease, Next(own, lease, s, run[0]), run[1..]);
    }
  }

  /** Once the row no longer carries an issued ownership, validation refuses
      that ownership in every later state, whatever time it reads. */
  lemma SupersededForever(own: seq<OwnerId>, lease: int, clock: int, before: seq<Step>, after: seq<Step>, o: Ownership,
          now: int)
    requires o in Exec(own, lease, Init(|own|, clock), before).issued
    requires !Carries(Exec(own, lease, Init(|own|, clock), before).row, o)
    ensures Validated(Exec(own, lease, Init(|own|, clock), before + after).row, o, now) == Err(Superseded)
  {
    var init := Init(|own|, clock);
    FencedRun(own, lease, init, before);
    var mid := Exec(own, lease, init, before);
    FencedRun(own, lease, mid, after);
    ExecSplit(own, lease, init, before, after);
    assert o.token < mid.row.value.token;
  }

  // ---- Exclusion, with one nondecreasing clock ----

  function Reading(step: Step): Option<int> {
    match step
    case Sample(_, now) => Some(now)
    case Check(_, now) => Some(now)
    case Publish(_, now) => Some(now)
    case _ => None
  }

  /** The readings taken during the run never go back. */
  ghost predicate Timely(clock: int, run: seq<Step>)
    decreases |run|
  {
    if |run| == 0 then true
    else
      var r := Reading(run[0]);
      (r.Some? ==> r.value >= clock) && Timely(if r.Some? then r.value else clock, run[1..])
  }

  ghost predicate Distinct(own: seq<OwnerId>) {
    forall p, q :: 0 <= p < q < |own| ==> own[p] != own[q]
  }

  /** An ownership that has not run out is still the one in the row. */
  ghost predicate Backed(s: Sys, owner: OwnerId, o: Ownership) {
    && o.ownerId == owner
    && (o.expiresAt > s.clock ==>
          Carries(s.row, o) && s.row.value.expiresAt.At? && o.expiresAt <= s.row.value.expiresAt.instant)
  }

  ghost predicate ProcBacked(lease: int, s: Sys, owner: OwnerId, proc: Proc) {
    && (proc.phase.Sampled? ==>
          proc.phase.now <= s.clock
          && (s.row.Some? && s.row.value.ownerId == owner ==> s.row.value.heartbeatAt <= proc.phase.now))
    && (proc.phase.Holding? || proc.phase.Fetched? || proc.phase.Checked? ==> Backed(s, owner, proc.phase.o))
    && (proc.local.valid ==>
          && proc.local.client.Some?
          && proc.local.expiresAt == Some(proc.local.client.value.expiresAt)
          && Backed(s, owner, proc.local.client.value))
  }

  ghost predicate Backing(own: seq<OwnerId>, lease: int, s: Sys) {
    && |own| == |s.procs|
    && (s.row.Some? ==>
          && s.row.value.ownerId != ""
          && s.row.value.heartbeatAt <= s.clock
          && s.row.value.expiresAt == At(s.row.value.heartbeatAt + lease))
    && (forall p :: 0 <= p < |own| ==> ProcBacked(lease, s, own[p], s.procs[p]))
  }

  ghost predicate ReadsForward(s: Sys, step: Step) {
    Reading(step).Some? ==> Reading(step).value >= s.clock
  }

  /** The row passes from one owner to another exactly by a transaction that
      is not rolled back and read its clock when the lease had run out. */
  lemma RowTakenExactly(own: seq<OwnerId>, lease: int, s: Sys, step: Step)
    requires |own| == |s.procs| && s.row.Some? && s.row.value.ownerId != ""
    ensures var after := Next(own, lease, s, step).row;
            && after.Some?
            && (after.value.ownerId != s.row.value.ownerId <==>
                  && step.p < |own| && step.Transact? && !step.tx.TxRolledBack? && s.procs[step.p].phase.Sampled?
                  && own[step.p] != s.row.value.ownerId && !Live(s.row, s.procs[step.p].phase.now))
            && (after.value.ownerId != s.row.value.ownerId ==> after.value.token == s.row.value.token + 1)
  {
  }

  /** A transaction leaves every unexpired lease backed by the row. */
  lemma BackingTransact(own: seq<OwnerId>, lease: int, s: Sys, p: nat, tx: TxOutcome)
    requires Distinct(own) && Backing(own, lease, s) && p < |own| && s.procs[p].phase.Sampled?
    ensures Backing(own, lease, Next(own, lease, s, Transact(p, tx)))
  {
    var t := Next(own, lease, s, Transact(p, tx));
    assert ProcBacked(lease, s, own[p], s.procs[p]);
    forall q | 0 <= q < |own|
      ensures ProcBacked(lease, t, own[q], t.procs[q])
    {
      assert ProcBacked(lease, s, own[q], s.procs[q]);
      assert q != p ==> own[q] != own[p];
    }
  }

  lemma BackingStep(own: seq<OwnerId>, lease: int, s: Sys, step: Step)
    requires Distinct(own) && Backing(own, lease, s) && ReadsForward(s, step)
    ensures Backing(own, lease, Next(own, lease, s, step))
  {
    if step.p < |own| && step.Transact? && s.procs[step.p].phase.Sampled? {
      BackingTransact(own, lease, s, step.p, step.tx);
    } else {
      var t := Next(own, lease, s, step);
      forall q | 0 <= q < |own|
        ensures ProcBacked(lease, t, own[q], t.procs[q])
      {
        assert ProcBacked(lease, s, own[q], s.procs[q]);
      }
    }
  }

  lemma {:induction false} BackingRun(own: seq<OwnerId>, lease: int, s: Sys, run: seq<Step>)
    requires Distinct(own) && Backing(own, lease, s) && Timely(s.clock, run)
    ensures Backing(own, lease, Exec(own, lease, s, run))
    decreases |run|
  {
    if |run| == 0 {
    } else {
      BackingStep(own, lease, s, run[0]);
      var t := Next(own, lease, s, run[0]);
      TimelyLater(if Reading(run[0]).Some? then Reading(run[0]).value else s.clock, t.clock, run[1..]);
      BackingRun(own, lease, t, run[1..]);
    }
  }

  /** A step that did not apply leaves the clock behind its reading. */
  lemma {:induction false} TimelyLater(clock: int, earlier: int, run: seq<Step>)
    requires Timely(clock, run) && earlier <= clock
    ensures Timely(earlier, run)
    decreases |run|
  {
    if |run| > 0 && Reading(run[0]).None? {
      TimelyLater(clock, earlier, run[1..]);
    }
  }

  /** A published lease that has not run out is backed by the row: validation
      of that ownership succeeds at every instant before its expiry. */
  lemma PublishedLeaseValidates(own: seq<OwnerId>, lease: int, clock: int, run: seq<Step>, p: nat, now: int)
    requires Distinct(own) && Timely(clock, run) && p < |own|
    requires var s := Exec(own, lease, Init(|own|, clock), run);
             s.clock <= now && s.procs[p].local.Holds(now)
    ensures var s := Exec(own, lease, Init(|own|, clock), run);
            && s.procs[p].local.client.Some?
            && s.procs[p].local.client.value.ownerId == own[p]
            && Validated(s.row, s.procs[p].local.client.value, now).Ok?
  {
    BackingRun(own, lease, Init(|own|, clock), run);
    var s := Exec(own, lease, Init(|own|, clock), run);
    assert ProcBacked(lease, s, own[p], s.procs[p]);
  }

  ghost predicate OneHolder(s: Sys) {
    forall p, q, now :: 0 <= p < q < |s.procs| && s.clock <= now ==>
                          !(s.procs[p].local.Holds(now) && s.procs[q].local.Holds(now))
  }

  /** No timely run, from any starting instant, ends with two engines that
      believe they hold an unexpired lease. */
  ghost predicate Exclusive(own: seq<OwnerId>, lease: int) {
    forall clock, run | Timely(clock, run) :: OneHolder(Exec(own, lease, Init(|own|, clock), run))
  }

  lemma DistinctExcludes(own: seq<OwnerId>, lease: int)
    requires Distinct(own)
    ensures Exclusive(own, lease)
  {
    forall clock, run | Timely(clock, run)
      ensures OneHolder(Exec(own, lease, Init(|own|, clock), run))
    {
      BackingRun(own, lease, Init(|own|, clock), run);
      var s := Exec(own, lease, Init(|own|, clock), run);
      forall p, q, now | 0 <= p < q < |s.procs| && s.clock <= now
        ensures !(s.procs[p].local.Holds(now) && s.procs[q].local.Holds(now))
      {
        assert ProcBacked(lease, s, own[p], s.procs[p]) && ProcBacked(lease, s, own[q], s.procs[q]);
      }
    }
  }

  /** A lease that is not positive is never published. */
  ghost predicate NothingHeld(lease: int, s: Sys) {
    && (forall p :: 0 <= p < |s.procs| ==>
          var proc := s.procs[p];
          && (proc.phase.Sampled? ==> proc.phase.now <= s.clock)
          && (proc.phase.Holding? || proc.phase.Fetched? || proc.phase.Checked? ==> proc.phase.o.expiresAt <= s.clock)
          && !proc.local.valid)
  }

  lemma {:induction false} NothingHeldRun(own: seq<OwnerId>, lease: int, s: Sys, run: seq<Step>)
    requires lease <= 0 && |own| == |s.procs| && NothingHeld(lease, s) && Timely(s.clock, run)
    ensures NothingHeld(lease, Exec(own, lease, s, run))
    decreases |run|
  {
    if |run| == 0 {
    } else {
      var t := Next(own, lease, s, run[0]);
      assert NothingHeld(lease, t);
      TimelyLater(if Reading(run[0]).Some? then Reading(run[0]).value else s.clock, t.clock, run[1..]);
      NothingHeldRun(own, lease, t, run[1..]);
    }
  }

  /** One undisturbed acquisition at instant 0. */
  function Claim(p: nat): seq<Step> {
    [Sample(p, 0), Transact(p, TxCommitted), Fetch(p), Check(p, 0), Publish(p, 0)]
  }

  lemma ClaimHolds(own: seq<OwnerId>, lease: int, s: Sys, p: nat)
    requires lease > 0 && |own| == |s.procs| && p < |own| && s.procs[p].phase.Idle? && s.clock == 0
    requires s.row.Some? ==> s.row.value.ownerId == own[p]
    ensures var t := Exec(own, lease, s, Claim(p));
            && t.clock == 0 && t.procs[p].phase.Idle? && t.procs[p].local.Holds(0)
            && (forall q :: 0 <= q < |own| && q != p ==> t.procs[q] == s.procs[q])
            && t.row.Some? && t.row.value.ownerId == own[p]
  {
    var run := Claim(p);
    var s1 := Next(own, lease, s, run[0]);
    var s2 := Next(own, lease, s1, run[1]);
    var s3 := Next(own, lease, s2, run[2]);
    var s4 := Next(own, lease, s3, run[3]);
    assert s4.procs[p].phase.Checked?;
    var s5 := Next(own, lease, s4, run[4]);
    assert run[1..][1..][1..][1..] == [run[4]];
    assert Exec(own, lease, s4, [run[4]]) == s5;
    assert run[1..][1..][1..] == [run[3], run[4]];
    assert Exec(own, lease, s3, [run[3], run[4]]) == s5 by { assert [run[3], run[4]][1..] == [run[4]]; }
    assert run[1..][1..] == [run[2], run[3], run[4]];
    assert Exec(own, lease, s2, run[1..][1..]) == s5;
    assert Exec(own, lease, s1, run[1..]) == s5;
  }

  /** Two processes configured with one owner id renew each other's lease. */
  lemma SharedIdOverlaps(own: seq<OwnerId>, lease: int, p: nat, q: nat)
    requires lease > 0 && p < q < |own| && own[p] == own[q]
    ensures !Exclusive(own, lease)
  {
    var init := Init(|own|, 0);
    ClaimHolds(own, lease, init, p);
    var mid := Exec(own, lease, init, Claim(p));
    ClaimHolds(own, lease, mid, q);
    ExecSplit(own, lease, init, Claim(p), Claim(q));
    var run := Claim(p) + Claim(q);
    assert Timely(0, run) by { ZeroRunIsTimely(run); }
    var s := Exec(own, lease, init, run);
    assert s.procs[p].local.Holds(0) && s.procs[q].local.Holds(0);
    assert !OneHolder(s);
  }

  lemma {:induction false} ZeroRunIsTimely(run: seq<Step>)
    requires forall k :: 0 <= k < |run| ==> Reading(run[k]) == None || Reading(run[k]) == Some(0)
    ensures Timely(0, run)
    decreases |run|
  {
    if |run| == 0 {
    } else {
      ZeroRunIsTimely(run[1..]);
    }
  }

  /** The lease excludes exactly when the processes have pairwise different
      owner ids (or the configured lease length is not positive, in which
      case nobody ever holds it). */
  lemma ExclusiveExactly(own: seq<OwnerId>, lease: int)
    ensures Exclusive(own, lease) <==> Distinct(own) || lease <= 0
  {
    if Distinct(own) {
      DistinctExcludes(own, lease);
    } else if lease <= 0 {
      forall clock, run | Timely(clock, run)
        ensures OneHolder(Exec(own, lease, Init(|own|, clock), run))
      {
        NothingHeldRun(own, lease, Init(|own|, clock), run);
      }
    } else {
      var p, q :| 0 <= p < q < |own| && own[p] == own[q];
      SharedIdOverlaps(own, lease, p, q);
    }
  }
}

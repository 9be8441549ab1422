/** Several processes on one exit. The lease gates new entries only: the exits
    are reduce-only and bypass it (bot/execution_ownership.py,
    bot/kucoin.py), so two processes may interleave the load of the intent,
    its first write, the submission, and the write of the order id. */
module OneShotOverlap {
  import opened Common
  import opened OneShotExits

  /** Where a process stands between its load and its write of the order id:
      it found no row, it has written one, or it holds a row without an id. */
  datatype Phase = Idle | LoadedEmpty | Recorded(intent: Intent) | Asking(intent: Intent) {
    predicate InFlight() {
      !Idle?
    }

    predicate ToSubmit() {
      LoadedEmpty? || Recorded?
    }
  }

  datatype System = System(desk: Desk, phases: seq<Phase>)

  /** `Note` writes the order id that the submission or a lookup returned. */
  datatype Step =
    | Load(p: nat)
    | Record(p: nat, qty: real, w: WriteOutcome)
    | Place(p: nat)
    | Note(p: nat, id: string, w: WriteOutcome)
    | Die(p: nat)

  function FirstIntent(key: Key, qty: real): Intent {
    Intent(ClientOid(key), "", qty, false, false)
  }

  /** One step of a process; a step it is not ready for does nothing. */
  function Next(key: Key, s: System, step: Step): System {
    if step.p >= |s.phases| then s
    else match step
      case Load(p) =>
        if !s.phases[p].Idle? then s
        else if s.desk.Row(key).None? then s.(phases := s.phases[p := LoadedEmpty])
        else if s.desk.durable[key].orderId == "" then s.(phases := s.phases[p := Asking(s.desk.durable[key])])
        else s
      case Record(p, qty, w) =>
        if !s.phases[p].LoadedEmpty? then s
        else System(Written(s.desk, key, FirstIntent(key, qty), w).desk,
                    s.phases[p := if w.Committed? then Recorded(FirstIntent(key, qty)) else Idle])
      case Place(p) =>
        if !s.phases[p].Recorded? then s
        else
          var sent := Submission(key, s.phases[p].intent.oid, s.desk.Row(key));
          System(s.desk.(placed := s.desk.placed + [sent]), s.phases[p := Asking(s.phases[p].intent)])
      case Note(p, id, w) =>
        if !s.phases[p].Asking? then s
        else System(Written(s.desk, key, s.phases[p].intent.(orderId := id), w).desk, s.phases[p := Idle])
      case Die(p) => s.(phases := s.phases[p := Idle])
  }

  /** A load concerns a process at rest, and shows it the row: nothing to
      submit yet, an order without an id, or an order it can leave alone. */
  lemma LoadExactly(key: Key, s: System, p: nat)
    requires p < |s.phases|
    ensures var t := Next(key, s, Load(p));
            && t.desk == s.desk && |t.phases| == |s.phases|
            && (s.phases[p] != Idle ==> t == s)
            && (s.phases[p] == Idle && key !in s.desk.durable ==> t.phases[p] == LoadedEmpty)
            && (s.phases[p] == Idle && key in s.desk.durable ==>
                  t.phases[p] == if s.desk.durable[key].orderId == "" then Asking(s.desk.durable[key]) else Idle)
  {
  }

  function Exec(key: Key, s: System, run: seq<Step>): System
    decreases |run|
  {
    if |run| == 0 then s else Exec(key, Next(key, s, run[0]), run[1..])
  }

  function Start(n: nat): System {
    System(Desk(map[], []), seq(n, i => Idle))
  }

  /** A process left alone does what the visit does up to its order id. */
  lemma AloneIsSubmitted(key: Key, d: Desk, qty: real, e: Env)
    requires d.Row(key).None?
    ensures var sent := Exec(key, System(d, [Idle]), [Load(0), Record(0, qty, e.intentWrite), Place(0)]);
            && (!e.place.Returned? ==> sent.desk == Submitted(d, key, FirstIntent(key, qty), e).desk)
            && (e.place.Returned? ==> Next(key, sent, Note(0, e.place.value, e.placeWrite)).desk
                                      == Submitted(d, key, FirstIntent(key, qty), e).desk)
  {
    var s := System(d, [Idle]);
    var run := [Load(0), Record(0, qty, e.intentWrite), Place(0)];
    assert run[1..] == [Record(0, qty, e.intentWrite), Place(0)] && run[1..][1..] == [Place(0)];
    var t := Next(key, s, Load(0));
    assert t == System(d, [LoadedEmpty]);
    var u := Next(key, t, Record(0, qty, e.intentWrite));
    assert Exec(key, s, run) == Exec(key, u, [Place(0)]) == Next(key, u, Place(0));
  }

  /** And one that finds a row without an order id recovers it. */
  lemma AloneIsRecovered(key: Key, d: Desk, e: Env)
    requires d.Row(key).Some? && e.lookup.Returned? && (e.lookup.value != "" || key.kind.PartialExit?)
    ensures Exec(key, System(d, [Idle]), [Load(0), Note(0, e.lookup.value, e.lookupWrite)]).desk
            == Recovered(d, key, d.durable[key], e).desk
  {
    var s := System(d, [Idle]);
    var run := [Load(0), Note(0, e.lookup.value, e.lookupWrite)];
    assert run[1..] == [Note(0, e.lookup.value, e.lookupWrite)];
    var t := Next(key, s, Load(0));
    assert Exec(key, s, run) == Exec(key, t, run[1..]) == Next(key, t, run[1]);
  }

  // ---- One process about to submit at a time ----

  predicate OneToSubmit(s: System) {
    forall p, q :: 0 <= p < q < |s.phases| ==> !(s.phases[p].ToSubmit() && s.phases[q].ToSubmit())
  }

  /** No two processes ever have yet to submit together. */
  predicate Serial(key: Key, s: System, run: seq<Step>)
    decreases |run|
  {
    OneToSubmit(s) && (|run| == 0 || Serial(key, Next(key, s, run[0]), run[1..]))
  }

  /** A process that has yet to submit has the key to itself. */
  predicate Alone(key: Key, s: System) {
    && |s.desk.placed| <= 1
    && (s.desk.placed != [] ==> s.desk.Row(key).Some?)
    && (forall p :: 0 <= p < |s.phases| && s.phases[p].LoadedEmpty? ==> s.desk.Row(key).None? && s.desk.placed == [])
    && (forall p :: 0 <= p < |s.phases| && s.phases[p].Recorded? ==>
          s.desk.Row(key).Some? && s.desk.placed == [])
    && (forall p :: 0 <= p < |s.phases| && s.phases[p].Asking? ==> s.desk.Row(key).Some?)
  }

  lemma AloneStep(key: Key, s: System, step: Step)
    requires Alone(key, s) && OneToSubmit(s)
    ensures Alone(key, Next(key, s, step))
  {
  }

  /** Processes that take turns up to the submission submit the key at most
      once, whatever fails. */
  lemma {:induction false} TurnsSubmitOnce(key: Key, s: System, run: seq<Step>)
    requires Alone(key, s) && Serial(key, s, run)
    ensures Alone(key, Exec(key, s, run)) && |Exec(key, s, run).desk.placed| <= 1
    decreases |run|
  {
    if |run| == 0 {
    } else {
      AloneStep(key, s, run[0]);
      TurnsSubmitOnce(key, Next(key, s, run[0]), run[1..]);
    }
  }

  // ---- Two in flight ----

  function Finish(p: nat, qty: real): seq<Step> {
    [Record(p, qty, Committed), Place(p)]
  }

  lemma Finished(key: Key, s: System, p: nat, qty: real)
    requires p < |s.phases| && s.phases[p].ToSubmit()
    ensures var t := Exec(key, s, Finish(p, qty));
            && |t.desk.placed| == |s.desk.placed| + 1 && |t.phases| == |s.phases|
            && forall q :: 0 <= q < |s.phases| && q != p ==> t.phases[q] == s.phases[q]
  {
    var u := Next(key, s, Record(p, qty, Committed));
    assert Finish(p, qty)[1..] == [Place(p)];
    assert Exec(key, u, [Place(p)]) == Next(key, u, Place(p));
  }

  /** Two processes that both have yet to submit can both do it. */
  lemma RaceSubmitsTwice(key: Key, s: System, p: nat, q: nat, a: real, b: real)
    requires p < |s.phases| && q < |s.phases| && p != q && s.phases[p].ToSubmit() && s.phases[q].ToSubmit()
    ensures |Exec(key, s, Finish(p, a) + Finish(q, b)).desk.placed| == |s.desk.placed| + 2
  {
    Finished(key, s, p, a);
    Finished(key, Exec(key, s, Finish(p, a)), q, b);
    ExecSplit(key, s, Finish(p, a), Finish(q, b));
  }

  lemma {:induction false} ExecSplit(key: Key, s: System, a: seq<Step>, b: seq<Step>)
    ensures Exec(key, s, a + b) == Exec(key, Exec(key, s, a), b)
    decreases |a|
  {
    if |a| == 0 {
      assert a + b == b;
    } else {
      assert (a + b)[1..] == a[1..] + b;
      ExecSplit(key, Next(key, s, a[0]), a[1..], b);
    }
  }

  // ---- Exactly when once ----

  ghost predicate AlwaysOnce(key: Key, n: nat) {
    forall run :: |Exec(key, Start(n), run).desk.placed| <= 1
  }

  lemma {:induction false} FewAreSerial(key: Key, s: System, run: seq<Step>)
    requires |s.phases| <= 1
    ensures Serial(key, s, run) && TakesTurns(key, s, run)
    decreases |run|
  {
    if |run| == 0 {
    } else {
      FewAreSerial(key, Next(key, s, run[0]), run[1..]);
    }
  }

  /** At most one submission in every run, if and only if there is at most one
      process. */
  lemma OnceExactly(key: Key, n: nat)
    ensures AlwaysOnce(key, n) <==> n <= 1
  {
    var s := Start(n);
    if n <= 1 {
      forall run
        ensures |Exec(key, s, run).desk.placed| <= 1
      {
        FewAreSerial(key, s, run);
        TurnsSubmitOnce(key, s, run);
      }
    } else {
      var both := [Load(0), Load(1)];
      var t := Exec(key, s, both);
      assert both[1..] == [Load(1)];
      assert t == Next(key, Next(key, s, Load(0)), Load(1));
      RaceSubmitsTwice(key, t, 0, 1, 1.0, 1.0);
      ExecSplit(key, s, both, Finish(0, 1.0) + Finish(1, 1.0));
    }
  }

  // ---- What a repetition looks like to the exchange ----

  ghost predicate OneId(key: Key, s: System) {
    && (s.desk.Row(key).Some? ==> s.desk.durable[key].oid == ClientOid(key))
    && (forall k :: 0 <= k < |s.desk.placed| ==> s.desk.placed[k].oid == ClientOid(key))
    && (forall p :: 0 <= p < |s.phases| && (s.phases[p].Recorded? || s.phases[p].Asking?) ==>
          s.phases[p].intent.oid == ClientOid(key))
  }

  /** However processes overlap and whatever quantities they read, all their
      submissions of a key carry one client id. */
  lemma {:induction false} SubmissionsShareTheId(key: Key, s: System, run: seq<Step>)
    requires OneId(key, s)
    ensures OneId(key, Exec(key, s, run))
    decreases |run|
  {
    if |run| == 0 {
    } else {
      SubmissionsShareTheId(key, Next(key, s, run[0]), run[1..]);
    }
  }

  // ---- The order id ----

  /** A step changes a known order id exactly when it is the durable first
      write of a process that had found no row, or the durable note of a
      process that held the row before the id was known. */
  lemma IdChangesExactly(key: Key, s: System, step: Step)
    requires s.desk.Row(key).Some? && s.desk.durable[key].orderId != ""
    ensures var after := Next(key, s, step).desk.Row(key);
            && after.Some?
            && (after.value.orderId != s.desk.durable[key].orderId <==>
                  && step.p < |s.phases|
                  && ((step.Record? && step.w.Durable() && s.phases[step.p].LoadedEmpty?)
                      || (step.Note? && step.w.Durable() && s.phases[step.p].Asking?
                          && step.id != s.desk.durable[key].orderId)))
  {
  }

  ghost predicate KeepsId(key: Key, s: System, t: System) {
    s.desk.Row(key).Some? && s.desk.durable[key].orderId != "" ==>
      t.desk.Row(key).Some? && t.desk.durable[key].orderId == s.desk.durable[key].orderId
  }

  predicate OneInFlight(s: System) {
    forall p, q :: 0 <= p < q < |s.phases| ==> !(s.phases[p].InFlight() && s.phases[q].InFlight())
  }

  /** No two processes are ever in flight together. */
  predicate TakesTurns(key: Key, s: System, run: seq<Step>)
    decreases |run|
  {
    OneInFlight(s) && (|run| == 0 || TakesTurns(key, Next(key, s, run[0]), run[1..]))
  }

  /** What a process in flight believes of the row is so. */
  ghost predicate UpToDate(key: Key, s: System) {
    && (forall p :: 0 <= p < |s.phases| && s.phases[p].LoadedEmpty? ==> s.desk.Row(key).None?)
    && (forall p :: 0 <= p < |s.phases| && (s.phases[p].Recorded? || s.phases[p].Asking?) ==>
          s.desk.Row(key) == Some(s.phases[p].intent) && s.phases[p].intent.orderId == "")
  }

  /** Processes that take turns up to the order id never overwrite one. */
  lemma {:induction false} TurnsKeepId(key: Key, s: System, run: seq<Step>)
    requires UpToDate(key, s) && TakesTurns(key, s, run)
    ensures UpToDate(key, Exec(key, s, run)) && KeepsId(key, s, Exec(key, s, run))
    decreases |run|
  {
    if |run| == 0 {
    } else {
      UpToDateStep(key, s, run[0]);
      TurnsKeepId(key, Next(key, s, run[0]), run[1..]);
    }
  }

  lemma UpToDateStep(key: Key, s: System, step: Step)
    requires UpToDate(key, s) && OneInFlight(s)
    ensures UpToDate(key, Next(key, s, step)) && KeepsId(key, s, Next(key, s, step))
  {
  }

  ghost predicate AlwaysKeepsId(key: Key, n: nat) {
    forall run, more :: KeepsId(key, Exec(key, Start(n), run), Exec(key, Exec(key, Start(n), run), more))
  }

  lemma BlankedId(key: Key, s: System)
    requires |s.phases| >= 2 && s.phases[0].LoadedEmpty? && s.phases[1].LoadedEmpty?
    ensures var noted := Exec(key, s, [Record(0, 1.0, Committed), Place(0), Note(0, "id", Committed)]);
            && noted.desk.Row(key).Some? && noted.desk.durable[key].orderId == "id"
            && !KeepsId(key, noted, Exec(key, noted, [Record(1, 1.0, Committed)]))
  {
    var run := [Record(0, 1.0, Committed), Place(0), Note(0, "id", Committed)];
    var a := Next(key, s, run[0]);
    var b := Next(key, a, run[1]);
    var c := Next(key, b, run[2]);
    assert run[1..] == [run[1], run[2]] && run[1..][1..] == [run[2]];
    assert Exec(key, s, run) == Exec(key, a, run[1..]) == Exec(key, b, [run[2]]) == c;
    assert c.phases[1].LoadedEmpty? && c.desk.durable[key].orderId == "id";
    var d := Next(key, c, Record(1, 1.0, Committed));
    assert Exec(key, c, [Record(1, 1.0, Committed)]) == d;
    assert d.desk.durable[key].orderId == "";
  }

  /** A known order id is never overwritten in any run, if and only if there is
      at most one process. */
  lemma IdKeptExactly(key: Key, n: nat)
    ensures AlwaysKeepsId(key, n) <==> n <= 1
  {
    var s := Start(n);
    if n <= 1 {
      forall run, more
        ensures KeepsId(key, Exec(key, s, run), Exec(key, Exec(key, s, run), more))
      {
        FewAreSerial(key, s, run);
        TurnsKeepId(key, s, run);
        PhasesKept(key, s, run);
        FewAreSerial(key, Exec(key, s, run), more);
        TurnsKeepId(key, Exec(key, s, run), more);
      }
    } else {
      var both := [Load(0), Load(1)];
      var first := [Record(0, 1.0, Committed), Place(0), Note(0, "id", Committed)];
      assert both[1..] == [Load(1)];
      var t := Exec(key, s, both);
      assert t == Next(key, Next(key, s, Load(0)), Load(1));
      BlankedId(key, t);
      ExecSplit(key, s, both, first);
    }
  }

  lemma {:induction false} PhasesKept(key: Key, s: System, run: seq<Step>)
    ensures |Exec(key, s, run).phases| == |s.phases|
    decreases |run|
  {
    if |run| == 0 {
    } else {
      PhasesKept(key, Next(key, s, run[0]), run[1..]);
    }
  }
}

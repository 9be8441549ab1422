/** Capacity blocks of protective-stop slots over runs: what they refuse, and
    when they outlive the process that recorded them. */
module StopBlocks {
  import opened Common
  import opened StopRegistry
  import opened StopRuns

  ghost predicate BlockedSlot(slots: Registry, key: SlotKey) {
    key in slots && slots[key].status == PENDING && slots[key].capacityBlocked
  }

  /** The operations that can release a capacity-blocked slot: a recovery seen
      with fewer than 50 stops, a verification of the blocked candidate, or a
      flat cleanup of the symbol. */
  predicate Releases(e: Event, key: SlotKey) {
    match e
    case Verifying(k, _, _, _) => k == key
    case Unblocking(k, observed, _, _) => k == key && observed < STOP_LIMIT
    case FlatCleaning(symbol, _, _) => OfSymbol(key, symbol)
    case _ => false
  }

  ghost predicate BlockedBoth(w: World, key: SlotKey) {
    BlockedSlot(w.store.durable, key) && BlockedSlot(w.store.Seen(), key)
  }

  /** A blocked slot answers "no" and stays as it is. */
  lemma BlockedRefuses(w: World, key: SlotKey, a: Ask)
    requires BlockedBoth(w, key) && a.key == key
    ensures BlockedBoth(Next(w, Preparing(a)), key) && !Allows(AfterPrepare(w.store, a).1)
  {
    assert AfterPrepare(w.store, a).0 == Loaded(w.store);
  }

  lemma BlockedElsewhere(s: Store, key: SlotKey, a: Ask)
    requires a.key != key && key in s.durable && key in s.Seen()
    ensures var t := AfterPrepare(s, a).0;
            && key in t.durable && t.durable[key] in {s.durable[key], s.Seen()[key]}
            && key in t.Seen() && t.Seen()[key] in {s.durable[key], s.Seen()[key]}
  {
  }

  lemma BlockedUpdate(w: World, e: Event, key: SlotKey)
    requires BlockedBoth(w, key) && !Releases(e, key) && !e.Preparing? && !e.FlatCleaning?
    ensures BlockedBoth(Next(w, e), key)
  {
  }

  lemma BlockedStep(w: World, e: Event, key: SlotKey)
    requires BlockedBoth(w, key) && !Releases(e, key)
    ensures BlockedBoth(Next(w, e), key)
  {
    match e
    case Preparing(a) =>
      if a.key == key {
        BlockedRefuses(w, key, a);
      } else {
        BlockedElsewhere(w.store, key, a);
      }
    case FlatCleaning(symbol, now, p) =>
      assert FlatCleaned(w.store.Seen(), symbol, now)[key] == w.store.Seen()[key];
    case _ =>
      BlockedUpdate(w, e, key);
  }

  /** Once a block is recorded in the row, no prepare allows posting in the
      slot, whatever else happens and however often the process restarts,
      until one of the releasing operations runs. */
  lemma {:induction false} BlockedUntilReleased(w: World, run: seq<Event>, key: SlotKey, a: Ask)
    requires BlockedBoth(w, key) && a.key == key
    requires forall k :: 0 <= k < |run| ==> !Releases(run[k], key)
    ensures BlockedBoth(Exec(w, run), key)
    ensures !Allows(AfterPrepare(Exec(w, run).store, a).1)
    decreases |run|
  {
    if |run| == 0 {
      BlockedRefuses(w, key, a);
    } else {
      BlockedStep(w, run[0], key);
      BlockedUntilReleased(Next(w, run[0]), run[1..], key, a);
    }
  }

  // ---- Crashes ----

  predicate ReachesRow(p: Persist) {
    p.Wrote? && p.outcome.Durable()
  }

  /** The event writes the registry, and a write of it reaches the row. */
  predicate Stores(s: Store, e: Event) {
    var slots := s.Seen();
    match e
    case Preparing(a) =>
      if a.key !in slots || slots[a.key].status != PENDING then ReachesRow(a.second)
      else if slots[a.key].trigger != a.desired || slots[a.key].capacityBlocked then false
      else if a.lookup.TerminalTruth? then ReachesRow(a.first) || (Continues(a.first) && ReachesRow(a.second))
      else a.lookup.NoTruth? && MaxAge(a.now, slots[a.key].attemptedAt) >= AMBIGUITY_GRACE && ReachesRow(a.first)
    case Verifying(key, _, _, p) => key in slots && ReachesRow(p)
    case Blocking(key, _, _, p) => key in slots && ReachesRow(p)
    case Unblocking(key, observed, _, p) =>
      observed < STOP_LIMIT && key in slots && slots[key].capacityBlocked && ReachesRow(p)
    case FlatCleaning(symbol, _, p) => HasSymbol(slots, symbol) && ReachesRow(p)
    case Crash => false
  }

  /** The process is gone, or has not loaded the registry yet. */
  predicate LeavesNoCache(w: World, e: Event) {
    Next(w, e).store.cache.None?
  }

  predicate Takes(w: World, e: Event, key: SlotKey) {
    e.Blocking? && e.key == key && key in w.store.Seen()
  }

  /** A block in the row is in the cache too. */
  ghost predicate CacheFollows(w: World, key: SlotKey) {
    BlockedSlot(w.store.durable, key) ==> BlockedSlot(w.store.Seen(), key)
  }

  lemma PrepareElsewhere(s: Store, key: SlotKey, a: Ask)
    requires a.key != key
    ensures var t := AfterPrepare(s, a).0;
            && (BlockedSlot(t.durable, key) <==>
                  BlockedSlot(if Stores(s, Preparing(a)) then s.Seen() else s.durable, key))
            && (t.cache.Some? ==> (BlockedSlot(t.cache.value, key) <==> BlockedSlot(s.Seen(), key)))
  {
    var l := Loaded(s);
    var slots := l.Seen();
    if a.key !in slots || slots[a.key].status != PENDING {
      PutPersisted(l, key, a.key, MintedRec(slots, a.key, a.desired, a.now), a.second);
    } else if a.lookup.TerminalTruth? {
      var closed := slots[a.key].(status := RESOLVED_TERMINAL);
      PutPersisted(l, key, a.key, closed, a.first);
      if Continues(a.first) {
        var t := Persisted(l, slots[a.key := closed], a.first);
        PutPersisted(t, key, a.key, MintedRec(t.Seen(), a.key, a.desired, a.now), a.second);
      }
    } else {
      PutPersisted(l, key, a.key, slots[a.key].(attemptedAt := a.now, updatedAt := a.now), a.first);
    }
  }

  lemma PutPersisted(s: Store, key: SlotKey, other: SlotKey, rec: Rec, p: Persist)
    requires key != other && s.cache.Some?
    ensures var t := Persisted(s, s.Seen()[other := rec], p);
            && (BlockedSlot(t.durable, key) <==> BlockedSlot(if ReachesRow(p) then s.Seen() else s.durable, key))
            && (t.cache.Some? ==> (BlockedSlot(t.cache.value, key) <==> BlockedSlot(s.Seen(), key)))
  {
  }

  lemma PrepareHere(s: Store, key: SlotKey, a: Ask)
    requires a.key == key && (BlockedSlot(s.durable, key) ==> BlockedSlot(s.Seen(), key))
    ensures var t := AfterPrepare(s, a).0;
            && (BlockedSlot(t.durable, key) <==> BlockedSlot(s.durable, key))
            && (BlockedSlot(t.Seen(), key) <==> BlockedSlot(s.Seen(), key))
            && (Stores(s, Preparing(a)) ==> !BlockedSlot(s.Seen(), key))
  {
  }

  /** What a non-releasing event does to a block, in the row and in the cache. */
  lemma BlockStep(w: World, e: Event, key: SlotKey)
    requires CacheFollows(w, key) && !Releases(e, key)
    ensures var held := BlockedSlot(w.store.Seen(), key) || Takes(w, e, key);
            var next := Next(w, e).store;
            && (BlockedSlot(next.durable, key) <==>
                  BlockedSlot(w.store.durable, key) || (Stores(w.store, e) && held))
            && (next.cache.Some? ==> (BlockedSlot(next.cache.value, key) <==> held))
            && CacheFollows(Next(w, e), key)
  {
    match e
    case Preparing(a) =>
      if a.key == key {
        PrepareHere(w.store, key, a);
      } else {
        PrepareElsewhere(w.store, key, a);
      }
    case FlatCleaning(symbol, now, p) =>
      assert key in w.store.Seen() ==> FlatCleaned(w.store.Seen(), symbol, now)[key] == w.store.Seen()[key];
    case _ =>
  }

  /** A write of the run reaches the row while this process has its cache. */
  ghost predicate WrittenInTime(w: World, run: seq<Event>)
    decreases |run|
  {
    |run| > 0
    && (Stores(w.store, run[0]) || (!LeavesNoCache(w, run[0]) && WrittenInTime(Next(w, run[0]), run[1..])))
  }

  /** Some block of the slot in the run is written in time, by its own write
      or by that of any later event. */
  ghost predicate BlockRecorded(w: World, run: seq<Event>, key: SlotKey)
    decreases |run|
  {
    |run| > 0
    && ((Takes(w, run[0], key) && WrittenInTime(w, run)) || BlockRecorded(Next(w, run[0]), run[1..], key))
  }

  lemma {:induction false} RowBlockedExactly(w: World, run: seq<Event>, key: SlotKey)
    requires CacheFollows(w, key) && forall k :: 0 <= k < |run| ==> !Releases(run[k], key)
    ensures BlockedSlot(Exec(w, run).store.durable, key) <==>
              || BlockedSlot(w.store.durable, key)
              || (BlockedSlot(w.store.Seen(), key) && WrittenInTime(w, run))
              || BlockRecorded(w, run, key)
    decreases |run|
  {
    if |run| == 0 {
    } else {
      BlockStep(w, run[0], key);
      RowBlockedExactly(Next(w, run[0]), run[1..], key);
    }
  }

  /** Over any run of non-releasing events on a slot that starts unblocked, a
      block outlives the crash that ends it exactly when a write of the whole
      registry, by the blocking itself or by a later event of the same
      process, carried it to the row; otherwise the pending id may post again. */
  lemma BlockSurvivesCrashExactly(w: World, run: seq<Event>, key: SlotKey, a: Ask)
    requires !BlockedSlot(w.store.durable, key) && !BlockedSlot(w.store.Seen(), key)
    requires forall k :: 0 <= k < |run| ==> !Releases(run[k], key)
    ensures var t := Exec(w, run + [Crash]);
            && (BlockedBoth(t, key) <==> BlockRecorded(w, run, key))
            && (var row := t.store.durable;
                a.key == key && key in row && row[key].status == PENDING && row[key].trigger == a.desired
                && a.lookup.NoTruth? && Confirmed(a.first) && MaxAge(a.now, row[key].attemptedAt) >= AMBIGUITY_GRACE
                ==> (Allows(AfterPrepare(t.store, a).1) <==> !BlockRecorded(w, run, key)))
  {
    RowBlockedExactly(w, run, key);
    ExecSplit(w, run, [Crash]);
    assert [Crash][1..] == [];
  }

  /** A refused write of the block is made good by the write of another slot. */
  lemma LaterWriteCarriesBlock(w: World, key: SlotKey, other: SlotKey)
    requires key != other && key in w.store.Seen() && other in w.store.Seen()
    ensures var block := Blocking(key, STOP_LIMIT, 0.0, Wrote(Refused));
            var verify := Verifying(other, "", 0.0, Wrote(Committed));
            && BlockedBoth(Exec(w, [block, verify, Crash]), key)
            && (!BlockedSlot(w.store.durable, key) ==> !BlockedSlot(Exec(w, [block, Crash]).store.durable, key))
  {
    var block := Blocking(key, STOP_LIMIT, 0.0, Wrote(Refused));
    var verify := Verifying(other, "", 0.0, Wrote(Committed));
    assert [block, verify, Crash][1..] == [verify, Crash] && [verify, Crash][1..] == [Crash];
    assert [block, Crash][1..] == [Crash] && [Crash][1..] == [];
    var blocked := Next(w, block);
    assert Exec(w, [block, Crash]) == Next(blocked, Crash);
    assert Exec(w, [block, verify, Crash]) == Exec(blocked, [verify, Crash]) == Exec(Next(blocked, verify), [Crash]);
  }
}

/** Runs of the protective-stop lifecycle: any sequence of its operations and
    of process crashes, with every database write free to fail, to commit, or
    to commit and then raise. */
module StopRuns {
  import opened Common
  import opened StopRegistry

  datatype Event =
    | Preparing(ask: Ask)
    | Verifying(key: SlotKey, orderId: string, now: real, p: Persist)
    | Blocking(key: SlotKey, observed: int, now: real, p: Persist)
    | Unblocking(key: SlotKey, observed: int, now: real, p: Persist)
    | FlatCleaning(symbol: string, now: real, p: Persist)
    | Crash

  /** `allowed` remembers every id whose posting was ever allowed, `open` those
      whose fate is still unknown: not verified, not proven terminal by the
      lookup, not closed by a flat cleanup. */
  datatype World = World(store: Store, allowed: set<ClientOid>, open: set<ClientOid>)

  predicate Allows(r: Reply) {
    r.Answer? && r.postAllowed
  }

  /** The id the lookup of this prepare proves terminal. */
  function ProvenTerminal(s: Store, a: Ask): set<ClientOid> {
    var slots := s.Seen();
    if a.key in slots && slots[a.key].status == PENDING && slots[a.key].trigger == a.desired
       && !slots[a.key].capacityBlocked && a.lookup.TerminalTruth?
    then {slots[a.key].oid} else {}
  }

  /** A flat cleanup settles the ids of the symbol's slots. */
  function LeftOpen(open: set<ClientOid>, symbol: string): set<ClientOid> {
    set oid | oid in open && !(oid.Minted? && OfSymbol(oid.slot, symbol))
  }

  function Next(w: World, e: Event): World {
    match e
    case Preparing(a) =>
      var (t, r) := AfterPrepare(w.store, a);
      var settled := w.open - ProvenTerminal(w.store, a);
      if Allows(r) then World(t, w.allowed + {r.oid}, settled + {r.oid}) else World(t, w.allowed, settled)
    case Verifying(key, orderId, now, p) =>
      World(AfterVerify(w.store, key, orderId, now, p), w.allowed,
            if key in w.store.Seen() then w.open - {w.store.Seen()[key].oid} else w.open)
    case Blocking(key, observed, now, p) => w.(store := AfterBlock(w.store, key, observed, now, p))
    case Unblocking(key, observed, now, p) => w.(store := AfterUnblock(w.store, key, observed, now, p))
    case FlatCleaning(symbol, now, p) =>
      World(AfterFlatClean(w.store, symbol, now, p), w.allowed, LeftOpen(w.open, symbol))
    case Crash => w.(store := w.store.(cache := None))
  }

  /** An id is unconfirmed from the moment it may be posted until it is
      verified, proven terminal, or its symbol is cleaned. */
  lemma UnconfirmedExactly(w: World, e: Event, oid: ClientOid)
    ensures oid in Next(w, e).open <==>
              match e
              case Preparing(a) =>
                || Allowed(w, a, oid)
                || (oid in w.open
                    && !(Retryable(w.store, a) && a.lookup == TerminalTruth && oid == w.store.Seen()[a.key].oid))
              case Verifying(key, _, _, _) =>
                oid in w.open && !(key in w.store.Seen() && oid == w.store.Seen()[key].oid)
              case FlatCleaning(symbol, _, _) =>
                oid in w.open && !(oid.Minted? && CanonSymbol(oid.slot.symbol) == CanonSymbol(symbol))
              case Blocking(_, _, _, _) => oid in w.open
              case Unblocking(_, _, _, _) => oid in w.open
              case Crash => oid in w.open
    ensures oid in Next(w, e).allowed <==> oid in w.allowed || (e.Preparing? && Allowed(w, e.ask, oid))
  {
  }

  predicate Allowed(w: World, a: Ask, oid: ClientOid) {
    var r := AfterPrepare(w.store, a).1;
    r.Answer? && r.oid == oid && r.postAllowed
  }

  function Exec(w: World, run: seq<Event>): World
    decreases |run|
  {
    if |run| == 0 then w else Exec(Next(w, run[0]), run[1..])
  }

  lemma {:induction false} ExecSplit(w: World, a: seq<Event>, b: seq<Event>)
    ensures Exec(w, a + b) == Exec(Exec(w, a), b)
    decreases |a|
  {
    if |a| == 0 {
      assert a + b == b;
    } else {
      assert (a + b)[1..] == a[1..] + b;
      ExecSplit(Next(w, a[0]), a[1..], b);
    }
  }

  // ---- The invariant ----

  ghost predicate GoodRec(key: SlotKey, rec: Rec) {
    && rec.oid == Minted(key, rec.trigger, rec.generation)
    && rec.oid in rec.owned
    && (forall oid :: oid in rec.owned ==> oid.Minted? && oid.slot == key)
  }

  /** Every record's id is that of its trigger and generation; a record owns
      it, and owns only ids minted for its slot. */
  ghost predicate WellMinted(slots: Registry) {
    forall k :: k in slots ==> GoodRec(k, slots[k])
  }

  ghost predicate KeepsIds(early: Rec, late: Rec) {
    forall oid :: oid in early.owned ==> oid in late.owned
  }

  /** Later registries keep every slot and every id a slot ever owned. */
  ghost predicate Keeps(early: Registry, late: Registry) {
    forall k :: k in early ==> k in late && KeepsIds(early[k], late[k])
  }

  ghost predicate Owns(slots: Registry, oid: ClientOid) {
    oid.Minted? && oid.slot in slots && oid in slots[oid.slot].owned
  }

  ghost predicate IsPendingId(slots: Registry, oid: ClientOid) {
    oid.Minted? && oid.slot in slots && slots[oid.slot].status == PENDING && slots[oid.slot].oid == oid
  }

  ghost predicate Sound(w: World) {
    && WellMinted(w.store.durable) && WellMinted(w.store.Seen())
    && Keeps(w.store.durable, w.store.Seen())
    && (forall oid :: oid in w.allowed ==> Owns(w.store.durable, oid))
    && w.open <= w.allowed
    && (forall oid :: oid in w.open ==> IsPendingId(w.store.durable, oid) && IsPendingId(w.store.Seen(), oid))
  }

  /** A write of a registry that keeps what the cache had preserves soundness
      for a set of open ids that is pending in it, and in the row unless the
      row is replaced too. */
  lemma PersistSound(w: World, slots: Registry, p: Persist, open: set<ClientOid>)
    requires Sound(w) && WellMinted(slots) && Keeps(w.store.Seen(), slots)
    requires open <= w.open && forall oid :: oid in open ==> IsPendingId(slots, oid)
    ensures Sound(World(Persisted(w.store, slots, p), w.allowed, open))
  {
    KeepsTwice(w.store.durable, w.store.Seen(), slots);
    OwnedKept(w.store.durable, slots, w.allowed);
  }

  lemma KeepsTwice(a: Registry, b: Registry, c: Registry)
    requires Keeps(a, b) && Keeps(b, c)
    ensures Keeps(a, c)
  {
    forall k | k in a
      ensures k in c && KeepsIds(a[k], c[k])
    {
      assert k in b && KeepsIds(a[k], b[k]) && KeepsIds(b[k], c[k]);
    }
  }

  lemma OwnedKept(early: Registry, late: Registry, oids: set<ClientOid>)
    requires Keeps(early, late) && forall oid :: oid in oids ==> Owns(early, oid)
    ensures forall oid :: oid in oids ==> Owns(late, oid)
  {
    forall oid | oid in oids
      ensures Owns(late, oid)
    {
      assert Owns(early, oid) && KeepsIds(early[oid.slot], late[oid.slot]);
    }
  }

  /** The minted record is good, and keeps what its slot already owned. */
  lemma MintedIsGood(slots: Registry, key: SlotKey, desired: string, now: real)
    requires WellMinted(slots)
    ensures GoodRec(key, MintedRec(slots, key, desired, now))
    ensures key in slots ==> KeepsIds(slots[key], MintedRec(slots, key, desired, now))
  {
    assert key in slots ==> GoodRec(key, slots[key]);
  }

  /** Putting a good record over one whose ids it keeps. */
  lemma PutKeeps(slots: Registry, key: SlotKey, rec: Rec)
    requires WellMinted(slots) && GoodRec(key, rec) && (key in slots ==> KeepsIds(slots[key], rec))
    ensures WellMinted(slots[key := rec]) && Keeps(slots, slots[key := rec])
  {
  }

  lemma PutElsewhere(slots: Registry, key: SlotKey, rec: Rec, open: set<ClientOid>)
    requires key in slots ==> slots[key].status != PENDING
    requires forall oid :: oid in open ==> IsPendingId(slots, oid)
    ensures forall oid :: oid in open ==> IsPendingId(slots[key := rec], oid)
  {
  }

  /** An id that is pending in the cache and in the row may be allowed. */
  lemma AllowSound(w: World, oid: ClientOid)
    requires Sound(w) && IsPendingId(w.store.durable, oid) && IsPendingId(w.store.Seen(), oid)
    ensures Sound(World(w.store, w.allowed + {oid}, w.open + {oid}))
  {
    assert GoodRec(oid.slot, w.store.durable[oid.slot]);
  }

  lemma MintSound(w: World, a: Ask)
    requires Sound(w) && w.store.cache.Some?
    requires a.key in w.store.Seen() ==> w.store.Seen()[a.key].status != PENDING
    ensures var (t, r) := AfterMint(w.store, a);
            Sound(if Allows(r) then World(t, w.allowed + {r.oid}, w.open + {r.oid}) else World(t, w.allowed, w.open))
  {
    var slots := w.store.Seen();
    var rec := MintedRec(slots, a.key, a.desired, a.now);
    MintedIsGood(slots, a.key, a.desired, a.now);
    PutKeeps(slots, a.key, rec);
    PutElsewhere(slots, a.key, rec, w.open);
    PersistSound(w, slots[a.key := rec], a.second, w.open);
    if Confirmed(a.second) {
      AllowSound(World(AfterMint(w.store, a).0, w.allowed, w.open), rec.oid);
    }
  }

  /** The lookup settles the pending candidate, and a new one takes its place. */
  lemma TerminalSound(l: World, a: Ask)
    requires Sound(l) && l.store.cache.Some? && a.key in l.store.Seen() && l.store.Seen()[a.key].status == PENDING
    ensures var rec := l.store.Seen()[a.key];
            var t := World(Persisted(l.store, l.store.Seen()[a.key := rec.(status := RESOLVED_TERMINAL)], a.first),
                           l.allowed, l.open - {rec.oid});
            Sound(t) && (Continues(a.first) ==>
                           var (u, r) := AfterMint(t.store, a);
                           Sound(if Allows(r) then World(u, t.allowed + {r.oid}, t.open + {r.oid})
                                 else World(u, t.allowed, t.open)))
  {
    var slots := l.store.Seen();
    var rec := slots[a.key];
    var closed := slots[a.key := rec.(status := RESOLVED_TERMINAL)];
    assert GoodRec(a.key, rec);
    PersistSound(l, closed, a.first, l.open - {rec.oid});
    var t := World(Persisted(l.store, closed, a.first), l.allowed, l.open - {rec.oid});
    if Continues(a.first) {
      MintSound(t, a);
    }
  }

  /** The same candidate is retried under the same id. */
  lemma RetrySound(l: World, a: Ask)
    requires Sound(l) && l.store.cache.Some? && a.key in l.store.Seen() && l.store.Seen()[a.key].status == PENDING
    ensures var rec := l.store.Seen()[a.key];
            var retried := rec.(attemptedAt := a.now, updatedAt := a.now);
            var t := World(Persisted(l.store, l.store.Seen()[a.key := retried], a.first),
                           l.allowed, l.open);
            Sound(t) && (Confirmed(a.first) ==> Sound(World(t.store, t.allowed + {rec.oid}, t.open + {rec.oid})))
  {
    var slots := l.store.Seen();
    var rec := slots[a.key];
    var tried := rec.(attemptedAt := a.now, updatedAt := a.now);
    assert GoodRec(a.key, rec);
    PutKeeps(slots, a.key, tried);
    PersistSound(l, slots[a.key := tried], a.first, l.open);
    if Confirmed(a.first) {
      AllowSound(World(Persisted(l.store, slots[a.key := tried], a.first), l.allowed, l.open), rec.oid);
    }
  }

  lemma PrepareSound(w: World, a: Ask)
    requires Sound(w)
    ensures Sound(Next(w, Preparing(a)))
  {
    var l := w.(store := Loaded(w.store));
    assert Sound(l);
    assert w.open - {} == w.open;
    var slots := l.store.Seen();
    if a.key !in slots || slots[a.key].status != PENDING {
      MintSound(l, a);
    } else if slots[a.key].trigger == a.desired && !slots[a.key].capacityBlocked {
      if a.lookup.TerminalTruth? {
        TerminalSound(l, a);
      } else if a.lookup.NoTruth? {
        RetrySound(l, a);
      }
    }
  }

  lemma UpdateSound(w: World, key: SlotKey, rec: Rec, p: Persist, open: set<ClientOid>)
    requires Sound(w) && w.store.cache.Some? && key in w.store.Seen()
    requires var before := w.store.Seen()[key];
             rec.oid == before.oid && rec.owned == before.owned && rec.trigger == before.trigger
             && rec.generation == before.generation
    requires open <= w.open && (rec.status == PENDING || w.store.Seen()[key].oid !in open)
    ensures Sound(World(Persisted(w.store, w.store.Seen()[key := rec], p), w.allowed, open))
  {
    assert GoodRec(key, w.store.Seen()[key]);
    PutKeeps(w.store.Seen(), key, rec);
    PersistSound(w, w.store.Seen()[key := rec], p, open);
  }

  lemma CleanedKeeps(slots: Registry, symbol: string, now: real)
    requires WellMinted(slots)
    ensures WellMinted(FlatCleaned(slots, symbol, now)) && Keeps(slots, FlatCleaned(slots, symbol, now))
  {
    var cleaned := FlatCleaned(slots, symbol, now);
    forall k | k in slots
      ensures GoodRec(k, cleaned[k]) && KeepsIds(slots[k], cleaned[k])
    {
      assert GoodRec(k, slots[k]);
    }
  }

  lemma CleanedPending(slots: Registry, symbol: string, now: real, oid: ClientOid)
    requires IsPendingId(slots, oid) && !OfSymbol(oid.slot, symbol)
    ensures IsPendingId(FlatCleaned(slots, symbol, now), oid)
  {
  }

  lemma FewerOpen(w: World, open: set<ClientOid>)
    requires Sound(w) && open <= w.open
    ensures Sound(World(w.store, w.allowed, open))
  {
  }

  lemma LeftPending(w: World, symbol: string, now: real)
    requires Sound(w)
    ensures forall oid :: oid in LeftOpen(w.open, symbol) ==> IsPendingId(FlatCleaned(w.store.Seen(), symbol, now), oid)
  {
    forall oid | oid in LeftOpen(w.open, symbol)
      ensures IsPendingId(FlatCleaned(w.store.Seen(), symbol, now), oid)
    {
      PendingWhileOpen(w, oid);
      CleanedPending(w.store.Seen(), symbol, now, oid);
    }
  }

  lemma CleanedSound(l: World, symbol: string, now: real, p: Persist)
    requires Sound(l)
    ensures Sound(World(Persisted(l.store, FlatCleaned(l.store.Seen(), symbol, now), p), l.allowed,
            LeftOpen(l.open, symbol)))
  {
    var slots, left := l.store.Seen(), LeftOpen(l.open, symbol);
    CleanedKeeps(slots, symbol, now);
    LeftPending(l, symbol, now);
    PersistSound(l, FlatCleaned(slots, symbol, now), p, left);
  }

  lemma FlatCleanSound(l: World, symbol: string, now: real, p: Persist)
    requires Sound(l) && l.store.cache.Some?
    ensures Sound(Next(l, FlatCleaning(symbol, now, p)))
  {
    var w := Next(l, FlatCleaning(symbol, now, p));
    var slots, left := l.store.Seen(), LeftOpen(l.open, symbol);
    assert Loaded(l.store) == l.store;
    if HasSymbol(slots, symbol) {
      CleanedSound(l, symbol, now, p);
      assert w == World(Persisted(l.store, FlatCleaned(slots, symbol, now), p), l.allowed, left);
    } else {
      FewerOpen(l, left);
      assert w == World(l.store, l.allowed, left);
    }
  }

  lemma StepSound(w: World, e: Event)
    requires Sound(w)
    ensures Sound(Next(w, e))
  {
    var l := w.(store := Loaded(w.store));
    assert Sound(l);
    match e
    case Preparing(a) => PrepareSound(w, a);
    case FlatCleaning(symbol, now, p) => FlatCleanSound(l, symbol, now, p);
    case Crash =>
    case _ => UpdatingSound(w, e);
  }

  lemma UpdatingSound(w: World, e: Event)
    requires Sound(w) && (e.Verifying? || e.Blocking? || e.Unblocking?)
    ensures Sound(Next(w, e))
  {
    var l := w.(store := Loaded(w.store));
    if e.key in l.store.Seen() {
      match e
      case Verifying(key, orderId, now, p) => VerifySound(l, key, orderId, now, p);
      case Blocking(key, observed, now, p) => BlockSound(l, key, observed, now, p);
      case Unblocking(key, observed, now, p) => UnblockSound(l, key, observed, now, p);
    }
  }

  lemma VerifySound(l: World, key: SlotKey, orderId: string, now: real, p: Persist)
    requires Sound(l) && l.store.cache.Some? && key in l.store.Seen()
    ensures Sound(Next(l, Verifying(key, orderId, now, p)))
  {
    var rec := l.store.Seen()[key];
    UpdateSound(l, key, VerifiedRec(rec, orderId, now), p, l.open - {rec.oid});
  }

  lemma BlockSound(l: World, key: SlotKey, observed: int, now: real, p: Persist)
    requires Sound(l) && l.store.cache.Some? && key in l.store.Seen()
    ensures Sound(Next(l, Blocking(key, observed, now, p)))
  {
    UpdateSound(l, key, BlockedRec(l.store.Seen()[key], observed, now), p, l.open);
  }

  lemma UnblockSound(l: World, key: SlotKey, observed: int, now: real, p: Persist)
    requires Sound(l) && l.store.cache.Some? && key in l.store.Seen()
    ensures Sound(Next(l, Unblocking(key, observed, now, p)))
  {
    var rec := l.store.Seen()[key];
    assert Loaded(l.store) == l.store;
    if observed >= STOP_LIMIT || !rec.capacityBlocked {
      assert Next(l, Unblocking(key, observed, now, p)) == l;
    } else {
      PendingWhileOpen(l, rec.oid);
      UpdateSound(l, key, UnblockedRec(rec, now), p, l.open);
      assert Next(l, Unblocking(key, observed, now, p)).store
             == Persisted(l.store, l.store.Seen()[key := UnblockedRec(rec, now)], p);
    }
  }

  lemma PendingWhileOpen(w: World, oid: ClientOid)
    requires Sound(w)
    ensures oid in w.open ==> IsPendingId(w.store.Seen(), oid)
  {
  }

  lemma {:induction false} RunSound(w: World, run: seq<Event>)
    requires Sound(w)
    ensures Sound(Exec(w, run))
    decreases |run|
  {
    if |run| == 0 {
    } else {
      StepSound(w, run[0]);
      RunSound(Next(w, run[0]), run[1..]);
    }
  }

  lemma {:induction false} AllowedGrows(w: World, run: seq<Event>)
    ensures w.allowed <= Exec(w, run).allowed
    decreases |run|
  {
    if |run| == 0 {
    } else {
      AllowedGrows(Next(w, run[0]), run[1..]);
    }
  }

  /** A process that starts on a stored registry. */
  function Start(row: Registry): World {
    World(Store(row, None), {}, {})
  }

  // ---- Main results ----

  /** Posting is allowed either for a minted id or for the pending one. */
  lemma AllowedShape(s: Store, a: Ask)
    requires Allows(AfterPrepare(s, a).1)
    ensures var oid := AfterPrepare(s, a).1.oid;
            (oid.Minted? && oid.slot == a.key) || (a.key in s.Seen() && s.Seen()[a.key].oid == oid)
  {
  }

  /** An allowed id is one that its own slot minted, and the row lists it. */
  lemma AllowedIsOwned(w: World, a: Ask)
    requires Sound(w) && Allows(AfterPrepare(w.store, a).1)
    ensures var (t, r) := AfterPrepare(w.store, a);
            Owns(t.durable, r.oid) && r.oid.slot == a.key && r.oid in Next(w, Preparing(a)).allowed
  {
    PrepareSound(w, a);
    AllowedShape(w.store, a);
    var t := Next(w, Preparing(a));
    assert t.store == AfterPrepare(w.store, a).0;
    assert AfterPrepare(w.store, a).1.oid in t.allowed;
    if a.key in w.store.Seen() {
      assert GoodRec(a.key, w.store.Seen()[a.key]);
    }
  }

  lemma AllowedStaysOwned(w: World, oid: ClientOid, run: seq<Event>)
    requires Sound(w) && oid in w.allowed
    ensures Owns(Exec(w, run).store.durable, oid)
  {
    RunSound(w, run);
    AllowedGrows(w, run);
  }

  /** Write-ahead ownership: when a prepare allows posting an id, the row
      already lists the id under its slot; and the row still lists it after
      any further operations, failed or ambiguous writes, crashes and reloads. */
  lemma AllowedIdsStayDurable(row: Registry, before: seq<Event>, a: Ask, after: seq<Event>)
    requires WellMinted(row)
    requires Allows(AfterPrepare(Exec(Start(row), before).store, a).1)
    ensures var (t, r) := AfterPrepare(Exec(Start(row), before).store, a);
            && r.oid.Minted? && r.oid.slot == a.key
            && Owns(t.durable, r.oid)
            && Owns(Exec(Start(row), before + ([Preparing(a)] + after)).store.durable, r.oid)
  {
    RunSound(Start(row), before);
    var w := Exec(Start(row), before);
    AllowedIsOwned(w, a);
    PrepareSound(w, a);
    AllowedStaysOwned(Next(w, Preparing(a)), AfterPrepare(w.store, a).1.oid, after);
    ExecSplit(Start(row), before, [Preparing(a)] + after);
    assert ([Preparing(a)] + after)[1..] == after;
  }

  /** At any time at most one posted id of a slot is unconfirmed, and it is
      the id the durable record still shows as pending. */
  lemma OneUnconfirmedPerSlot(row: Registry, run: seq<Event>, x: ClientOid, y: ClientOid)
    requires WellMinted(row)
    requires x in Exec(Start(row), run).open && y in Exec(Start(row), run).open
    requires x.Minted? && y.Minted? && x.slot == y.slot
    ensures x == y && IsPendingId(Exec(Start(row), run).store.durable, x)
  {
    RunSound(Start(row), run);
  }

  /** While a posted id is unconfirmed, a prepare that allows posting in its
      slot can only allow that same id again, or has first seen it terminal. */
  lemma RetriesReuseTheId(row: Registry, run: seq<Event>, a: Ask, x: ClientOid)
    requires WellMinted(row)
    requires var w := Exec(Start(row), run);
             x in w.open && x.Minted? && x.slot == a.key && Allows(AfterPrepare(w.store, a).1)
    ensures var w := Exec(Start(row), run);
            AfterPrepare(w.store, a).1.oid == x || (a.lookup.TerminalTruth? && ProvenTerminal(w.store, a) == {x})
  {
    RunSound(Start(row), run);
    assert IsPendingId(Exec(Start(row), run).store.Seen(), x);
  }

  // ---- Generations ----

  /** A prepare that lets a newly minted candidate post. */
  predicate MintsNew(s: Store, a: Ask) {
    Allows(AfterPrepare(s, a).1) && AfterPrepare(s, a).1.reason == NewCandidate
  }

  /** The slot already lists the id among the ones it owns. */
  predicate Listed(s: Store, key: SlotKey, oid: ClientOid) {
    key in s.Seen() && oid in s.Seen()[key].owned
  }

  /** Generations start over for this prepare: another trigger than the
      recorded one, or a record that was verified or closed. */
  predicate Restarts(s: Store, a: Ask) {
    a.key in s.Seen() ==>
      var rec := s.Seen()[a.key];
      rec.trigger != a.desired || rec.status == VERIFIED || rec.status == FLAT_CLEANED
  }

  /** A new candidate has generation zero exactly when generations restart, and
      else one more than the candidate it replaces, which was proven terminal. */
  lemma RestartsExactly(s: Store, a: Ask)
    requires WellMinted(s.Seen()) && MintsNew(s, a)
    ensures var oid := AfterPrepare(s, a).1.oid;
            && oid.Minted? && oid.slot == a.key && oid.trigger == a.desired
            && (oid.generation == 0 <==> Restarts(s, a))
            && (!Restarts(s, a) ==> oid.generation == s.Seen()[a.key].generation + 1 && oid != s.Seen()[a.key].oid)
            && oid !in ProvenTerminal(s, a)
  {
    assert a.key in s.Seen() ==> GoodRec(a.key, s.Seen()[a.key]);
  }

  /** The ids a run allowed to post and later saw proven terminal. */
  function ProvenDead(w: World, run: seq<Event>): set<ClientOid>
    decreases |run|
  {
    if |run| == 0 then {}
    else
      var now := if run[0].Preparing? then ProvenTerminal(w.store, run[0].ask) * w.allowed else {};
      now + ProvenDead(Next(w, run[0]), run[1..])
  }

  lemma {:induction false} DeadWereAllowed(w: World, run: seq<Event>)
    ensures ProvenDead(w, run) <= Exec(w, run).allowed
    decreases |run|
  {
    if |run| == 0 {
    } else {
      DeadWereAllowed(Next(w, run[0]), run[1..]);
      AllowedGrows(w, run);
    }
  }

  /** A new candidate repeats an id that was allowed before, dead or not, only
      if its slot lists that id; an id not listed was never allowed. */
  lemma RepeatedIsListed(row: Registry, run: seq<Event>, a: Ask)
    requires WellMinted(row) && MintsNew(Exec(Start(row), run).store, a)
    ensures var w := Exec(Start(row), run);
            var oid := AfterPrepare(w.store, a).1.oid;
            && (oid in w.allowed ==> Listed(w.store, a.key, oid))
            && (oid in ProvenDead(Start(row), run) ==> Listed(w.store, a.key, oid))
  {
    var w := Exec(Start(row), run);
    RunSound(Start(row), run);
    DeadWereAllowed(Start(row), run);
    RestartsExactly(w.store, a);
  }

  /** An id once proven terminal is posted again as a new candidate exactly
      when it is the slot's id for the trigger at the generation that
      follows: zero where generations restart, else the next one. */
  lemma DeadIdRepostedExactly(row: Registry, run: seq<Event>, a: Ask, dead: ClientOid)
    requires WellMinted(row) && MintsNew(Exec(Start(row), run).store, a)
    requires dead in ProvenDead(Start(row), run)
    ensures var s := Exec(Start(row), run).store;
            AfterPrepare(s, a).1.oid == dead <==>
              && dead.Minted? && Listed(s, a.key, dead) && dead.trigger == a.desired
              && dead.generation == (if Restarts(s, a) then 0 else s.Seen()[a.key].generation + 1)
  {
    var w := Exec(Start(row), run);
    RunSound(Start(row), run);
    RestartsExactly(w.store, a);
    RepeatedIsListed(row, run, a);
    assert a.key in w.store.Seen() ==> GoodRec(a.key, w.store.Seen()[a.key]);
  }

  /** Every write of a minted record in the run is confirmed. */
  predicate ConfirmedMints(run: seq<Event>) {
    forall k :: 0 <= k < |run| && run[k].Preparing? ==> Confirmed(run[k].ask.second)
  }

  ghost predicate AllAllowed(rec: Rec, allowed: set<ClientOid>) {
    forall oid :: oid in rec.owned ==> oid in allowed
  }

  ghost predicate ListsAllowed(slots: Registry, allowed: set<ClientOid>) {
    forall k :: k in slots ==> AllAllowed(slots[k], allowed)
  }

  ghost predicate ListedWereAllowed(w: World) {
    ListsAllowed(w.store.Seen(), w.allowed) && ListsAllowed(w.store.durable, w.allowed)
  }

  lemma PutAllowed(slots: Registry, key: SlotKey, rec: Rec, allowed: set<ClientOid>, more: set<ClientOid>)
    requires ListsAllowed(slots, allowed) && allowed <= more && AllAllowed(rec, more)
    ensures ListsAllowed(slots[key := rec], more) && ListsAllowed(slots, more)
  {
    forall k | k in slots
      ensures AllAllowed(slots[k], more)
    {
      assert AllAllowed(slots[k], allowed);
    }
  }

  lemma MintListed(w: World, a: Ask)
    requires ListedWereAllowed(w) && Confirmed(a.second)
    ensures ListedWereAllowed(World(AfterMint(w.store, a).0, w.allowed + {AfterMint(w.store, a).1.oid}, w.open))
  {
    var slots := w.store.Seen();
    var rec := MintedRec(slots, a.key, a.desired, a.now);
    assert a.key in slots ==> AllAllowed(slots[a.key], w.allowed);
    PutAllowed(slots, a.key, rec, w.allowed, w.allowed + {rec.oid});
  }

  /** A prepare that does not mint keeps every record's owned ids. */
  lemma TouchListed(w: World, key: SlotKey, rec: Rec, p: Persist)
    requires ListedWereAllowed(w) && key in w.store.Seen() && rec.owned == w.store.Seen()[key].owned
    ensures ListedWereAllowed(w.(store := Persisted(w.store, w.store.Seen()[key := rec], p)))
  {
    assert AllAllowed(w.store.Seen()[key], w.allowed);
    PutAllowed(w.store.Seen(), key, rec, w.allowed, w.allowed);
  }

  lemma PrepareListed(w: World, a: Ask)
    requires ListedWereAllowed(w) && Confirmed(a.second)
    ensures ListedWereAllowed(Next(w, Preparing(a)))
  {
    var l := w.(store := Loaded(w.store));
    var slots := l.store.Seen();
    if a.key !in slots || slots[a.key].status != PENDING {
      MintListed(l, a);
    } else if slots[a.key].trigger == a.desired && !slots[a.key].capacityBlocked {
      var rec := slots[a.key];
      assert AllAllowed(rec, w.allowed);
      if a.lookup.TerminalTruth? {
        var done := rec.(status := RESOLVED_TERMINAL);
        TouchListed(l, a.key, done, a.first);
        if Continues(a.first) {
          MintListed(l.(store := Persisted(l.store, slots[a.key := done], a.first)), a);
        }
      } else if a.lookup.NoTruth? {
        TouchListed(l, a.key, rec.(attemptedAt := a.now, updatedAt := a.now), a.first);
      }
      assert rec.oid in rec.owned ==> w.allowed + {rec.oid} == w.allowed;
      PutAllowed(w.store.durable, a.key, rec, w.allowed, w.allowed + {rec.oid});
      PutAllowed(slots, a.key, rec, w.allowed, w.allowed + {rec.oid});
    }
  }

  lemma ListedStep(w: World, e: Event)
    requires ListedWereAllowed(w) && (e.Preparing? ==> Confirmed(e.ask.second))
    ensures ListedWereAllowed(Next(w, e))
  {
    var l := w.(store := Loaded(w.store));
    var slots := l.store.Seen();
    match e
    case Preparing(a) => PrepareListed(w, a);
    case Crash =>
    case FlatCleaning(symbol, now, p) =>
      forall k | k in slots
        ensures AllAllowed(FlatCleaned(slots, symbol, now)[k], w.allowed)
      {
        assert AllAllowed(slots[k], w.allowed);
      }
    case Verifying(key, orderId, now, p) =>
      if key in slots { TouchListed(l, key, VerifiedRec(slots[key], orderId, now), p); }
    case Blocking(key, observed, now, p) =>
      if key in slots { TouchListed(l, key, BlockedRec(slots[key], observed, now), p); }
    case Unblocking(key, observed, now, p) =>
      if key in slots { TouchListed(l, key, UnblockedRec(slots[key], now), p); }
  }

  lemma {:induction false} ListedRun(w: World, run: seq<Event>)
    requires ListedWereAllowed(w) && ConfirmedMints(run)
    ensures ListedWereAllowed(Exec(w, run))
    decreases |run|
  {
    if |run| == 0 {
    } else {
      ListedStep(w, run[0]);
      ListedRun(Next(w, run[0]), run[1..]);
    }
  }

  /** From an empty registry, with confirmed mints, the condition is exact: a
      new candidate repeats an allowed id if and only if its slot lists it. */
  lemma RepeatsExactly(run: seq<Event>, a: Ask)
    requires ConfirmedMints(run) && MintsNew(Exec(Start(map[]), run).store, a)
    ensures var w := Exec(Start(map[]), run);
            var oid := AfterPrepare(w.store, a).1.oid;
            oid in w.allowed <==> Listed(w.store, a.key, oid)
  {
    RepeatedIsListed(map[], run, a);
    ListedRun(Start(map[]), run);
  }

  function Simple(key: SlotKey, trigger: string, lookup: Lookup): Event {
    Preparing(Ask(key, trigger, 0.0, lookup, Wrote(Committed), Wrote(Committed)))
  }

  function Verified(key: SlotKey): Event {
    Verifying(key, "", 0.0, Wrote(Committed))
  }

  /** The first candidate of a trigger is posted and proven terminal, and its
      successor is posted. */
  function Replaced(key: SlotKey): World {
    Next(Next(Start(map[]), Simple(key, "1", NoTruth)), Simple(key, "1", TerminalTruth))
  }

  lemma ReplacedMeans(key: SlotKey)
    ensures var w := Replaced(key);
            && Minted(key, "1", 0) in ProvenDead(Start(map[]),
                                               [Simple(key, "1", NoTruth), Simple(key, "1", TerminalTruth)])
            && key in w.store.Seen() && w.store.Seen()[key].trigger == "1" && w.store.Seen()[key].generation == 1
  {
    var first, proof := Simple(key, "1", NoTruth), Simple(key, "1", TerminalTruth);
    var w := Next(Start(map[]), first);
    assert w.store.Seen()[key] == MintedRec(map[], key, "1", 0.0);
    assert [first, proof][1..] == [proof];
    assert ProvenTerminal(w.store, proof.ask) == {Minted(key, "1", 0)};
    assert ProvenDead(w, [proof]) == {Minted(key, "1", 0)} + ProvenDead(Next(w, proof), []);
    assert Replaced(key).store == AfterPrepare(w.store, proof.ask).0;
  }

  /** Under one trigger throughout: once the successor is verified, the next
      prepare posts the dead id again. */
  lemma SameTriggerReposts(key: SlotKey)
    ensures var w := Next(Replaced(key), Verified(key));
            AfterPrepare(w.store, Simple(key, "1", NoTruth).ask).1 == Answer(Minted(key, "1", 0), true, NewCandidate)
  {
    ReplacedMeans(key);
    var w := Next(Replaced(key), Verified(key));
    assert w.store.Seen()[key].status == VERIFIED;
  }

  /** So does a slot that moves to another trigger and returns. */
  lemma TerminalIdCanBeReposted(key: SlotKey)
    ensures var later := [Verified(key), Simple(key, "2", NoTruth), Verified(key)];
            var w := Exec(Replaced(key), later);
            AfterPrepare(w.store, Simple(key, "1", NoTruth).ask).1 == Answer(Minted(key, "1", 0), true, NewCandidate)
  {
    ReplacedMeans(key);
    var v, u := Verified(key), Simple(key, "2", NoTruth);
    var w3 := Next(Replaced(key), v);
    assert w3.store.Seen()[key].status == VERIFIED;
    var w4 := Next(w3, u);
    assert w4.store.Seen()[key].trigger == "2" by {
      assert w4.store == AfterPrepare(w3.store, u.ask).0;
    }
    var w5 := Next(w4, v);
    assert w5.store.Seen()[key].status == VERIFIED && w5.store.Seen()[key].trigger == "2";
    ExecThree(Replaced(key), v, u, v);
  }

  lemma ExecThree(w: World, a: Event, b: Event, c: Event)
    ensures Exec(w, [a, b, c]) == Next(Next(Next(w, a), b), c)
  {
    assert [a, b, c][1..] == [b, c] && [b, c][1..] == [c];
    assert Exec(Next(w, a), [b, c]) == Exec(Next(Next(w, a), b), [c]);
  }
}

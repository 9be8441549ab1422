/** The durable registry of protective stops in
    bot/conditional_stop_lifecycle.py: one record per slot, a cached copy that
    is mutated in place, and a database row that is overwritten as a whole.

    A client id is a SHA-256 of slot, trigger and generation; the hash is
    modelled as injective, so an id simply is those three values. */
module StopRegistry {
  import opened Common

  datatype SlotKey = SlotKey(symbol: string, orderSide: string, kind: string, lineage: string)

  /** `Minted` and `Legacy` carry the bgx-stop- prefix, `Foreign` does not. */
  datatype ClientOid =
    | Minted(slot: SlotKey, trigger: string, generation: nat)
    | Legacy(text: string)
    | Foreign(text: string)

  datatype Status = PENDING | VERIFIED | RESOLVED_TERMINAL | FLAT_CLEANED

  datatype Rec = Rec(
    trigger: string, oid: ClientOid, generation: nat, status: Status,
    attemptedAt: real, updatedAt: real, owned: seq<ClientOid>,
    previousVerified: Option<ClientOid>, capacityBlocked: bool, orderId: string, observed: int)

  type Registry = map<SlotKey, Rec>

  const AMBIGUITY_GRACE := 15.0
  const STOP_LIMIT := 50

  /** What the exchange answers when asked for a client id. */
  datatype Lookup = NoTruth | VisibleActive | TerminalTruth | AmbiguousTruth

  /** Persisting needs a valid lease first; only then is the row written. */
  datatype Persist = NotOwner | Wrote(outcome: WriteOutcome)

  datatype Reason =
    | PriorUnresolved | CapacityBlocked | StillVisible | TruthAmbiguous | InGrace
    | NotPersisted | RetrySameIdentity | NewCandidate

  /** `Raised` is an exception out of the operation, `Died` a process crash. */
  datatype Reply = Answer(oid: ClientOid, postAllowed: bool, reason: Reason) | Raised | Died

  datatype Store = Store(durable: Registry, cache: Option<Registry>) {

    /** What the lifecycle works on: the cached registry, else the row. */
    function Seen(): Registry {
      if cache.Some? then cache.value else durable
    }
  }

  function Loaded(s: Store): Store {
    s.(cache := Some(s.Seen()))
  }

  function Persisted(s: Store, slots: Registry, p: Persist): Store {
    match p
    case NotOwner => s.(cache := Some(slots))
    case Wrote(w) =>
      Store(if w.Durable() then slots else s.durable, if w.Crashed() then None else Some(slots))
  }

  predicate Continues(p: Persist) {
    p.NotOwner? || p.outcome.Committed?
  }

  function Stopped(p: Persist): Reply
    requires !Continues(p)
  {
    if p.outcome.Crashed() then Died else Raised
  }

  predicate Confirmed(p: Persist) {
    p.Wrote? && p.outcome.Committed?
  }

  datatype Ask = Ask(key: SlotKey, desired: string, now: real, lookup: Lookup, first: Persist, second: Persist)

  function MaxAge(now: real, attemptedAt: real): real {
    MaxReal(0.0, now - attemptedAt)
  }

  /** The generation a newly minted candidate gets: one more than a candidate
      of the same trigger that was proven terminal, else zero. */
  function NextGeneration(slots: Registry, key: SlotKey, desired: string): nat {
    if key in slots && slots[key].trigger == desired && slots[key].status == RESOLVED_TERMINAL
    then slots[key].generation + 1 else 0
  }

  function MintedOid(slots: Registry, key: SlotKey, desired: string): ClientOid {
    Minted(key, desired, NextGeneration(slots, key, desired))
  }

  function MintedRec(slots: Registry, key: SlotKey, desired: string, now: real): Rec {
    var oid := MintedOid(slots, key, desired);
    var owned := if key in slots then slots[key].owned else [];
    Rec(desired, oid, NextGeneration(slots, key, desired), PENDING, now, now,
        if oid in owned then owned else owned + [oid],
        if key in slots && slots[key].status == VERIFIED then Some(slots[key].oid) else None,
        false, "", 0)
  }

  /** Mint a fresh candidate and answer by whether it could be persisted. */
  function AfterMint(s: Store, a: Ask): (Store, Reply) {
    var slots := s.Seen();
    var oid := MintedOid(slots, a.key, a.desired);
    var t := Persisted(s, slots[a.key := MintedRec(slots, a.key, a.desired, a.now)], a.second);
    (t,
     if Confirmed(a.second) then Answer(oid, true, NewCandidate)
     else if a.second.NotOwner? then Answer(oid, false, NotPersisted)
     else Stopped(a.second))
  }

  /** `prepare_candidate` as a whole. */
  function AfterPrepare(s0: Store, a: Ask): (Store, Reply) {
    var s := Loaded(s0);
    var slots := s.Seen();
    if a.key !in slots || slots[a.key].status != PENDING then AfterMint(s, a)
    else
      var rec := slots[a.key];
      if rec.trigger != a.desired then (s, Answer(rec.oid, false, PriorUnresolved))
      else if rec.capacityBlocked then (s, Answer(rec.oid, false, CapacityBlocked))
      else match a.lookup
        case VisibleActive => (s, Answer(rec.oid, false, StillVisible))
        case AmbiguousTruth => (s, Answer(rec.oid, false, TruthAmbiguous))
        case TerminalTruth =>
          var t := Persisted(s, slots[a.key := rec.(status := RESOLVED_TERMINAL)], a.first);
          if Continues(a.first) then AfterMint(t, a) else (t, Stopped(a.first))
        case NoTruth =>
          if MaxAge(a.now, rec.attemptedAt) < AMBIGUITY_GRACE then (s, Answer(rec.oid, false, InGrace))
          else
            var t := Persisted(s, slots[a.key := rec.(attemptedAt := a.now, updatedAt := a.now)], a.first);
            (t,
             if Confirmed(a.first) then Answer(rec.oid, true, RetrySameIdentity)
             else if a.first.NotOwner? then Answer(rec.oid, false, NotPersisted)
             else Stopped(a.first))
  }

  /** A record update followed by one persist; a missing slot changes nothing. */
  function AfterUpdate(s0: Store, key: SlotKey, rec: Rec -> Rec, p: Persist): Store {
    var s := Loaded(s0);
    if key !in s.Seen() then s else Persisted(s, s.Seen()[key := rec(s.Seen()[key])], p)
  }

  function VerifiedRec(rec: Rec, orderId: string, now: real): Rec {
    rec.(status := VERIFIED, orderId := if orderId != "" then orderId else rec.orderId,
         updatedAt := now, capacityBlocked := false)
  }

  function BlockedRec(rec: Rec, observed: int, now: real): Rec {
    rec.(status := PENDING, capacityBlocked := true, observed := observed, updatedAt := now)
  }

  function UnblockedRec(rec: Rec, now: real): Rec {
    if rec.capacityBlocked then rec.(capacityBlocked := false, attemptedAt := 0.0, updatedAt := now) else rec
  }

  function AfterVerify(s: Store, key: SlotKey, orderId: string, now: real, p: Persist): Store {
    AfterUpdate(s, key, (rec: Rec) => VerifiedRec(rec, orderId, now), p)
  }

  function AfterBlock(s: Store, key: SlotKey, observed: int, now: real, p: Persist): Store {
    AfterUpdate(s, key, (rec: Rec) => BlockedRec(rec, observed, now), p)
  }

  function AfterUnblock(s0: Store, key: SlotKey, observed: int, now: real, p: Persist): Store {
    if observed >= STOP_LIMIT then s0
    else
      var s := Loaded(s0);
      if key !in s.Seen() || !s.Seen()[key].capacityBlocked then s
      else Persisted(s, s.Seen()[key := UnblockedRec(s.Seen()[key], now)], p)
  }

  /** XBTUSDTM and ...USDTM contract names denote the engine's symbols. */
  function CanonSymbol(symbol: string): string {
    if symbol == "XBTUSDTM" then "BTCUSDT"
    else if |symbol| >= 5 && symbol[|symbol| - 5..] == "USDTM" then symbol[..|symbol| - 5] + "USDT"
    else symbol
  }

  predicate OfSymbol(key: SlotKey, symbol: string) {
    CanonSymbol(key.symbol) == CanonSymbol(symbol)
  }

  predicate HasSymbol(slots: Registry, symbol: string) {
    exists k :: k in slots && OfSymbol(k, symbol)
  }

  function FlatCleaned(slots: Registry, symbol: string, now: real): Registry {
    map k | k in slots ::
      if OfSymbol(k, symbol) then slots[k].(status := FLAT_CLEANED, updatedAt := now) else slots[k]
  }

  function AfterFlatClean(s0: Store, symbol: string, now: real, p: Persist): Store {
    var s := Loaded(s0);
    if HasSymbol(s.Seen(), symbol)
    then Persisted(s, FlatCleaned(s.Seen(), symbol, now), p) else s
  }

  // ---- What the operations mean ----

  /** The slot has a pending candidate for this trigger that is not blocked. */
  predicate Retryable(s: Store, a: Ask) {
    var slots := s.Seen();
    a.key in slots && slots[a.key].status == PENDING && slots[a.key].trigger == a.desired
    && !slots[a.key].capacityBlocked
  }

  predicate HasPending(s: Store, key: SlotKey) {
    key in s.Seen() && s.Seen()[key].status == PENDING
  }

  /** A new candidate may be posted when none is pending, or the lookup proved
      the pending one terminal, and its record was confirmed. */
  predicate MayMint(s: Store, a: Ask) {
    && (!HasPending(s, a.key)
        || (Retryable(s, a) && a.lookup == TerminalTruth && a.first in {NotOwner, Wrote(Committed)}))
    && a.second == Wrote(Committed)
  }

  /** The pending one may be posted again when the exchange shows nothing of it
      fifteen seconds after the attempt, and the retry was recorded. */
  predicate MayRetry(s: Store, a: Ask) {
    && Retryable(s, a) && a.lookup == NoTruth && a.first == Wrote(Committed)
    && a.now >= s.Seen()[a.key].attemptedAt + 15.0
  }

  /** When a post is allowed, and under which id. */
  lemma PostingExactly(s: Store, a: Ask)
    ensures var r := AfterPrepare(s, a).1;
            && (r.Answer? && r.postAllowed <==> MayMint(s, a) || MayRetry(s, a))
            && (MayRetry(s, a) ==> r == Answer(s.Seen()[a.key].oid, true, RetrySameIdentity))
            && (MayMint(s, a) ==> r == Answer(Minted(a.key, a.desired, DueGeneration(s.Seen(), a)), true, NewCandidate))
  {
  }

  /** One more than the candidate of this trigger that was proven terminal, now
      or by the record, else zero. */
  function DueGeneration(slots: Registry, a: Ask): nat {
    if a.key in slots && slots[a.key].trigger == a.desired && slots[a.key].status in {PENDING, RESOLVED_TERMINAL}
    then slots[a.key].generation + 1 else 0
  }

  /** A post that only its write prevents: without the lease it is refused, and
      a write that is not confirmed raises or ends the process. */
  lemma FailedWriteRefuses(s: Store, a: Ask, confirmed: Ask, p: Persist)
    requires MayMint(s, confirmed) || MayRetry(s, confirmed)
    requires p != Wrote(Committed)
    requires a == if MayRetry(s, confirmed) then confirmed.(first := p) else confirmed.(second := p)
    ensures var (t, r) := AfterPrepare(s, a);
            && (p == NotOwner ==> r == Answer(AfterPrepare(s, confirmed).1.oid, false, NotPersisted))
            && (p in {Wrote(CrashedBefore), Wrote(CrashedAfter)} ==> r == Died && t.cache == None)
            && (p in {Wrote(Refused), Wrote(Ambiguous)} ==> r == Raised)
            && (p in {Wrote(Ambiguous), Wrote(CrashedAfter)} ==> t.durable == AfterPrepare(s, confirmed).0.durable)
  {
  }

  /** Why a pending candidate is not posted; nothing is written then. */
  lemma RefusedUnwritten(s: Store, a: Ask)
    requires HasPending(s, a.key)
    ensures var rec := s.Seen()[a.key];
            var (t, r) := AfterPrepare(s, a);
            && (rec.trigger != a.desired ==> r == Answer(rec.oid, false, PriorUnresolved))
            && (rec.trigger == a.desired && rec.capacityBlocked ==> r == Answer(rec.oid, false, CapacityBlocked))
            && (Retryable(s, a) && a.lookup == VisibleActive ==> r == Answer(rec.oid, false, StillVisible))
            && (Retryable(s, a) && a.lookup == AmbiguousTruth ==> r == Answer(rec.oid, false, TruthAmbiguous))
            && (Retryable(s, a) && a.lookup == NoTruth && a.now < rec.attemptedAt + 15.0 ==>
                  r == Answer(rec.oid, false, InGrace))
            && (!Retryable(s, a) || a.lookup in {VisibleActive, AmbiguousTruth}
                || (a.lookup == NoTruth && a.now < rec.attemptedAt + 15.0) ==>
                  t == s.(cache := Some(s.Seen())))
  {
  }

  /** A posted candidate is recorded as pending, unblocked and attempted now;
      a new one lists its id after the ones the slot already owned, and keeps
      the id of a verified predecessor. */
  lemma PostedIsRecorded(s: Store, a: Ask)
    requires MayMint(s, a) || MayRetry(s, a)
    ensures var (t, r) := AfterPrepare(s, a);
            && t.cache == Some(t.durable) && a.key in t.durable
            && (forall k :: k != a.key ==> (k in t.durable <==> k in s.Seen()))
            && (forall k :: k != a.key && k in t.durable ==> t.durable[k] == s.Seen()[k])
            && var rec := t.durable[a.key];
               && rec.status == PENDING && rec.oid == r.oid && !rec.capacityBlocked
               && rec.attemptedAt == a.now && rec.updatedAt == a.now && rec.trigger == a.desired
               && (MayRetry(s, a) ==> rec == s.Seen()[a.key].(attemptedAt := a.now, updatedAt := a.now))
               && (MayMint(s, a) ==>
                     var owned := if a.key in s.Seen() then s.Seen()[a.key].owned else [];
                     && rec.owned == (if rec.oid in owned then owned else owned + [rec.oid])
                     && rec.previousVerified == (if a.key in s.Seen() && s.Seen()[a.key].status == VERIFIED
                                                 then Some(s.Seen()[a.key].oid) else None))
  {
  }

  /** A newly minted record starts without an order and without a count, at the
      generation of its id. */
  lemma MintedIsFresh(slots: Registry, key: SlotKey, desired: string, now: real)
    ensures var rec := MintedRec(slots, key, desired, now);
            && rec.oid == Minted(key, desired, rec.generation) && rec.orderId == "" && rec.observed == 0
            && rec.oid in rec.owned && (forall oid :: key in slots && oid in slots[key].owned ==> oid in rec.owned)
            && (rec.generation > 0 ==> key in slots && rec.generation == slots[key].generation + 1)
  {
  }

  /** The one record an update of the slot changes, and how. */
  predicate OnlySlot(before: Registry, after: Registry, key: SlotKey, rec: Rec) {
    key in before && after == before[key := rec]
  }

  /** What the three updates put in the cache, and in the row when the write
      reaches it; a slot that is missing, or that the update does not concern,
      is left alone. */
  lemma UpdatesMean(s: Store, key: SlotKey, orderId: string, observed: int, now: real, w: WriteOutcome)
    requires key in s.Seen() && !w.Crashed()
    ensures var rec, p := s.Seen()[key], Wrote(w);
            var verified, blocked := AfterVerify(s, key, orderId, now, p), AfterBlock(s, key, observed, now, p);
            var released := AfterUnblock(s, key, observed, now, p);
            && OnlySlot(s.Seen(), verified.Seen(), key,
                        rec.(status := VERIFIED, orderId := if orderId == "" then rec.orderId else orderId,
                             updatedAt := now, capacityBlocked := false))
            && OnlySlot(s.Seen(), blocked.Seen(), key,
                        rec.(status := PENDING, capacityBlocked := true, observed := observed, updatedAt := now))
            && verified.durable == (if w.Durable() then verified.Seen() else s.durable)
            && blocked.durable == (if w.Durable() then blocked.Seen() else s.durable)
            && (observed < 50 && rec.capacityBlocked ==>
                  && OnlySlot(s.Seen(), released.Seen(), key,
                              rec.(capacityBlocked := false, attemptedAt := 0.0, updatedAt := now))
                  && released.durable == if w.Durable() then released.Seen() else s.durable)
            && (observed >= 50 || !rec.capacityBlocked ==> released.Seen() == s.Seen() && released.durable == s.durable)
  {
  }

  /** The cache follows the caller whatever becomes of the row, unless the
      process dies. */
  lemma PersistedByOutcome(s: Store, slots: Registry)
    ensures Persisted(s, slots, NotOwner) == Store(s.durable, Some(slots))
    ensures Persisted(s, slots, Wrote(Refused)) == Store(s.durable, Some(slots))
    ensures Persisted(s, slots, Wrote(Committed)) == Persisted(s, slots, Wrote(Ambiguous)) == Store(slots, Some(slots))
    ensures Persisted(s, slots, Wrote(CrashedBefore)) == Store(s.durable, None)
    ensures Persisted(s, slots, Wrote(CrashedAfter)) == Store(slots, None)
  {
  }

  /** What the flat cleanup closes: every record of the symbol, under either of
      its names, and no other; a symbol without records writes nothing. */
  lemma ClosedByFields(s: Store, symbol: string, now: real, w: WriteOutcome)
    requires !w.Crashed()
    ensures var after := AfterFlatClean(s, symbol, now, Wrote(w));
            && after.Seen().Keys == s.Seen().Keys
            && (forall k :: k in s.Seen() ==>
                              after.Seen()[k] == if CanonSymbol(k.symbol) == CanonSymbol(symbol)
                                                 then s.Seen()[k].(status := FLAT_CLEANED, updatedAt := now)
                                                 else s.Seen()[k])
            && ((forall k :: k in s.Seen() ==> CanonSymbol(k.symbol) != CanonSymbol(symbol)) ==>
                  after == s.(cache := Some(s.Seen())))
            && ((exists k :: k in s.Seen() && CanonSymbol(k.symbol) == CanonSymbol(symbol)) ==>
                  after.durable == if w == Refused then s.durable else after.Seen())
  {
  }

  /** XBT contracts are the engine's BTC symbol, and a ...USDTM contract is its
      ...USDT symbol; every other name stands for itself. */
  lemma CanonicalNames(raw: string)
    ensures CanonSymbol("XBTUSDTM") == "BTCUSDT"
    ensures raw != "XBT" ==> CanonSymbol(raw + "USDTM") == raw + "USDT"
    ensures (|raw| < 5 || raw[|raw| - 5..] != "USDTM") ==> CanonSymbol(raw) == raw
  {
    var name := raw + "USDTM";
    assert name[|name| - 5..] == "USDTM" && name[..|name| - 5] == raw;
    assert "XBTUSDTM"[3..] == "USDTM" && "XBTUSDTM"[..3] == "XBT";
  }

  // ---- The lifecycle object ----

  /** The cached registry and the row behind it. A crash is a reply of `Died`
      (or a false result) with the cache gone. */
  class StopLifecycle {
    var durable: Registry
    var cache: Option<Registry>

    constructor (row: Registry)
      ensures View() == Store(row, None)
    {
      durable, cache := row, None;
    }

    ghost function View(): Store
      reads this
    {
      Store(durable, cache)
    }

    method Load() returns (slots: Registry)
      modifies this`cache
      ensures View() == Loaded(old(View())) && slots == View().Seen() && cache == Some(slots)
    {
      if cache.None? {
        cache := Some(durable);
      }
      slots := cache.value;
    }

    /** `_persist_registry`: the caller has already changed the cached
        registry in place, whatever becomes of the row. */
    method PersistRegistry(slots: Registry, p: Persist) returns (ok: bool)
      modifies this
      ensures View() == Persisted(old(View()), slots, p)
      ensures ok == Confirmed(p)
    {
      cache := Some(slots);
      if p.NotOwner? {
        return false;
      }
      if p.outcome.Durable() {
        durable := slots;
      }
      if p.outcome.Crashed() {
        cache := None;
      }
      ok := p.outcome.Committed?;
    }

    method Prepare(a: Ask) returns (r: Reply)
      modifies this
      ensures (View(), r) == AfterPrepare(old(View()), a)
    {
      var slots := Load();
      if a.key in slots && slots[a.key].status == PENDING {
        var rec := slots[a.key];
        if rec.trigger != a.desired {
          return Answer(rec.oid, false, PriorUnresolved);
        }
        if rec.capacityBlocked {
          return Answer(rec.oid, false, CapacityBlocked);
        }
        var age := MaxReal(0.0, a.now - rec.attemptedAt);
        if a.lookup.VisibleActive? {
          return Answer(rec.oid, false, StillVisible);
        }
        if a.lookup.AmbiguousTruth? {
          return Answer(rec.oid, false, TruthAmbiguous);
        }
        if a.lookup.TerminalTruth? {
          slots := slots[a.key := rec.(status := RESOLVED_TERMINAL)];
          var _ := PersistRegistry(slots, a.first);
          if !Continues(a.first) {
            return Stopped(a.first);
          }
        } else {
          if age < AMBIGUITY_GRACE {
            return Answer(rec.oid, false, InGrace);
          }
          slots := slots[a.key := rec.(attemptedAt := a.now, updatedAt := a.now)];
          var saved := PersistRegistry(slots, a.first);
          if !Continues(a.first) {
            return Stopped(a.first);
          }
          return Answer(rec.oid, saved, if saved then RetrySameIdentity else NotPersisted);
        }
      }

      var generation: nat := 0;
      var owned := [];
      var previous := None;
      if a.key in slots {
        var rec := slots[a.key];
        owned := rec.owned;
        if rec.status == VERIFIED {
          previous := Some(rec.oid);
        }
        if rec.trigger == a.desired && rec.status == RESOLVED_TERMINAL {
          generation := rec.generation + 1;
        }
      }
      var oid := Minted(a.key, a.desired, generation);
      if oid !in owned {
        owned := owned + [oid];
      }
      slots := slots[a.key := Rec(a.desired, oid, generation, PENDING, a.now, a.now, owned, previous, false, "", 0)];
      var saved := PersistRegistry(slots, a.second);
      if !Continues(a.second) {
        return Stopped(a.second);
      }
      r := Answer(oid, saved, if saved then NewCandidate else NotPersisted);
    }

    method MarkVerified(key: SlotKey, orderId: string, now: real, p: Persist) returns (ok: bool)
      modifies this
      ensures View() == AfterVerify(old(View()), key, orderId, now, p)
      ensures ok <==> key in old(View()).Seen() && Confirmed(p)
    {
      var slots := Load();
      if key !in slots {
        return false;
      }
      ok := PersistRegistry(slots[key := VerifiedRec(slots[key], orderId, now)], p);
    }

    method MarkCapacityBlocked(key: SlotKey, observed: int, now: real, p: Persist) returns (ok: bool)
      modifies this
      ensures View() == AfterBlock(old(View()), key, observed, now, p)
      ensures ok <==> key in old(View()).Seen() && Confirmed(p)
    {
      var slots := Load();
      if key !in slots {
        return false;
      }
      ok := PersistRegistry(slots[key := BlockedRec(slots[key], observed, now)], p);
    }

    method ClearCapacityIfRecovered(key: SlotKey, observed: int, now: real, p: Persist) returns (ok: bool)
      modifies this
      ensures View() == AfterUnblock(old(View()), key, observed, now, p)
      ensures ok <==> observed < 50 && p == Wrote(Committed) && key in old(View()).Seen()
                      && old(View()).Seen()[key].capacityBlocked
    {
      if observed >= STOP_LIMIT {
        return false;
      }
      var slots := Load();
      if key !in slots || !slots[key].capacityBlocked {
        return false;
      }
      ok := PersistRegistry(slots[key := UnblockedRec(slots[key], now)], p);
    }

    /** The locked tail of the flat cleanup, after the exchange was seen to
        carry no more BGX stops of the symbol. */
    method CloseSymbol(symbol: string, now: real, p: Persist)
      modifies this
      ensures View() == AfterFlatClean(old(View()), symbol, now, p)
    {
      var slots := Load();
      var cleaned, changed := CleanSlots(slots, symbol, now);
      if changed {
        var _ := PersistRegistry(cleaned, p);
      }
    }
  }

  /** The loop over all records that closes those of one symbol. */
  method CleanSlots(slots: Registry, symbol: string, now: real) returns (cleaned: Registry, changed: bool)
    ensures cleaned == FlatCleaned(slots, symbol, now)
    ensures changed <==> HasSymbol(slots, symbol)
  {
    var todo := slots.Keys;
    cleaned, changed := slots, false;
    while todo != {}
      invariant todo <= slots.Keys && cleaned.Keys == slots.Keys
      invariant forall k :: k in todo ==> cleaned[k] == slots[k]
      invariant forall k :: k in slots && k !in todo ==> cleaned[k] == FlatCleaned(slots, symbol, now)[k]
      invariant changed ==> HasSymbol(slots, symbol)
      invariant !changed ==> forall k :: k in slots && k !in todo ==> !OfSymbol(k, symbol)
      decreases todo
    {
      var k :| k in todo;
      if OfSymbol(k, symbol) {
        cleaned := cleaned[k := cleaned[k].(status := FLAT_CLEANED, updatedAt := now)];
        changed := true;
      }
      todo := todo - {k};
    }
  }
}

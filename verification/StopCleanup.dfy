/** The two cleanup loops of bot/conditional_stop_lifecycle.py, which cancel
    protective stops on the exchange. The exchange's stop-order readings and
    the validity of the lease at each cancel are inputs; `cancels` lists the
    orders for which a DELETE was issued. */
module StopCleanup {
  import opened Common
  import opened StopRegistry
  import StopRuns

  datatype Side = Buy | Sell | OtherSide

  datatype Trigger = Up | Down | OtherTrigger

  datatype StopOrder = StopOrder(
    id: string, clientOid: ClientOid, symbol: string, side: Side, stop: Trigger,
    triggered: bool, isActive: Option<bool>, status: string)

  const INACTIVE_STATUS := {"done", "filled", "cancelled", "canceled", "triggered"}

  predicate Active(o: StopOrder) {
    !o.triggered && o.isActive != Some(false) && o.status !in INACTIVE_STATUS
  }

  predicate BgxOwned(o: StopOrder) {
    !o.clientOid.Foreign?
  }

  predicate SameSymbol(o: StopOrder, symbol: string) {
    Active(o) && CanonSymbol(o.symbol) == CanonSymbol(symbol)
  }

  /** SL or TP by order side and trigger direction, or neither. */
  function ProtectionKind(o: StopOrder, positionSide: string): string {
    if positionSide in {"buy", "long"} && o.side.Sell? then
      (if o.stop.Down? then "SL" else if o.stop.Up? then "TP" else "")
    else if positionSide in {"sell", "short"} && o.side.Buy? then
      (if o.stop.Up? then "SL" else if o.stop.Down? then "TP" else "")
    else ""
  }

  function Filter<T(!new)>(s: seq<T>, f: T -> bool): (r: seq<T>)
    ensures forall x :: x in r <==> x in s && f(x)
    ensures |r| <= |s|
  {
    if |s| == 0 then []
    else
      var rest := Filter(s[1..], f);
      assert forall x :: x in s <==> x == s[0] || x in s[1..];
      if f(s[0]) then [s[0]] + rest else rest
  }

  /** How many orders of a list satisfy a condition. */
  function Number(s: seq<StopOrder>, f: StopOrder -> bool): nat {
    if |s| == 0 then 0 else (if f(s[0]) then 1 else 0) + Number(s[1..], f)
  }

  lemma {:induction false} FilterSize(s: seq<StopOrder>, f: StopOrder -> bool)
    ensures |Filter(s, f)| == Number(s, f)
  {
    if |s| == 0 {
    } else {
      FilterSize(s[1..], f);
    }
  }

  lemma {:induction false} NumberFiltered(s: seq<StopOrder>, f: StopOrder -> bool, g: StopOrder -> bool)
    ensures Number(Filter(s, f), g) == Number(s, o => f(o) && g(o))
  {
    if |s| == 0 {
    } else {
      NumberFiltered(s[1..], f, g);
      var rest := Filter(s[1..], f);
      if f(s[0]) {
        assert ([s[0]] + rest)[1..] == rest;
      }
    }
  }

  lemma {:induction false} NumberSame(s: seq<StopOrder>, f: StopOrder -> bool, g: StopOrder -> bool)
    requires forall o :: o in s ==> f(o) == g(o)
    ensures Number(s, f) == Number(s, g)
  {
    if |s| == 0 {
    } else {
      assert s[0] in s && forall o :: o in s[1..] ==> o in s;
      NumberSame(s[1..], f, g);
    }
  }

  datatype Inventory = Inventory(
    bgx: seq<StopOrder>, external: seq<StopOrder>, sameKind: seq<StopOrder>,
    superseded: seq<StopOrder>, canonical: seq<StopOrder>, unknownBgx: seq<StopOrder>)

  /** The ids a slot may touch; an empty set stands for no restriction. */
  function LineageIds(lineage: seq<ClientOid>): set<ClientOid> {
    (set oid | oid in lineage) - {Foreign("")}
  }

  function Inventoried(
    orders: seq<StopOrder>, symbol: string, positionSide: string, kind: string,
    canonicalOid: ClientOid, lineage: seq<ClientOid>): Inventory
  {
    var here := Filter(orders, o => SameSymbol(o, symbol));
    var bgx := Filter(here, o => BgxOwned(o));
    var ids := LineageIds(lineage);
    var sameKind := Filter(bgx, (o: StopOrder) =>
                             ProtectionKind(o, positionSide) == kind && (ids == {} || o.clientOid in ids));
    Inventory(
      bgx,
      Filter(here, o => !BgxOwned(o)),
      sameKind,
      Filter(sameKind, (o: StopOrder) => o.clientOid != canonicalOid),
      Filter(sameKind, (o: StopOrder) => o.clientOid == canonicalOid),
      Filter(bgx, (o: StopOrder) => ids != {} && o.clientOid !in ids))
  }

  /** An active order of the position's symbol and kind with the given id. */
  ghost predicate ActiveAs(o: StopOrder, symbol: string, positionSide: string, kind: string, oid: ClientOid) {
    SameSymbol(o, symbol) && ProtectionKind(o, positionSide) == kind && o.clientOid == oid
  }

  /** A stop that has not run: neither triggered, nor inactive, nor done. */
  predicate Waiting(o: StopOrder) {
    !o.triggered && (o.isActive.None? || o.isActive.value)
    && o.status !in {"done", "filled", "cancelled", "canceled", "triggered"}
  }

  /** The side and trigger of a stop that closes the position at a loss, below
      a long and above a short, or at a gain, the other way round. */
  predicate Closes(o: StopOrder, positionSide: string, atLoss: bool) {
    || (positionSide in {"buy", "long"} && o.side == Sell && o.stop == if atLoss then Down else Up)
    || (positionSide in {"sell", "short"} && o.side == Buy && o.stop == if atLoss then Up else Down)
  }

  /** What the exchange's fields make a stop of the slot. */
  lemma ActiveByFields(o: StopOrder, symbol: string, positionSide: string, oid: ClientOid)
    ensures ActiveAs(o, symbol, positionSide, "SL", oid) <==>
              Waiting(o) && CanonSymbol(o.symbol) == CanonSymbol(symbol) && Closes(o, positionSide, true)
              && o.clientOid == oid
    ensures ActiveAs(o, symbol, positionSide, "TP", oid) <==>
              Waiting(o) && CanonSymbol(o.symbol) == CanonSymbol(symbol) && Closes(o, positionSide, false)
              && o.clientOid == oid
    ensures SameSymbol(o, symbol) <==> Waiting(o) && CanonSymbol(o.symbol) == CanonSymbol(symbol)
    ensures BgxOwned(o) <==> o.clientOid.Minted? || o.clientOid.Legacy?
  {
  }

  /** A reading shows the canonical stop as active. */
  ghost predicate ShowsCanonical(orders: seq<StopOrder>, symbol: string, positionSide: string, kind: string,
                                 oid: ClientOid)
  {
    exists o :: o in orders && ActiveAs(o, symbol, positionSide, kind, oid)
  }

  /** An active order of the slot other than its canonical one. */
  ghost predicate IsSuperseded(
    o: StopOrder, symbol: string, positionSide: string, kind: string, oid: ClientOid, lineage: seq<ClientOid>)
  {
    o.clientOid in lineage && o.clientOid != oid && ActiveAs(o, symbol, positionSide, kind, o.clientOid)
  }

  /** What the lists mean once a slot's own ids are known: nothing foreign
      and nothing of another slot is ever listed as superseded. */
  lemma InventoryMeaning(
    orders: seq<StopOrder>, symbol: string, positionSide: string, kind: string,
    oid: ClientOid, lineage: seq<ClientOid>)
    requires oid in lineage && forall x :: x in lineage ==> x.Minted?
    ensures var inv := Inventoried(orders, symbol, positionSide, kind, oid, lineage);
            && (forall o ::
                  o in inv.superseded <==> o in orders && IsSuperseded(o, symbol, positionSide, kind, oid, lineage))
            && (inv.superseded == [] <==>
                forall o :: o in orders ==> !IsSuperseded(o, symbol, positionSide, kind, oid, lineage))
            && (inv.canonical != [] <==> ShowsCanonical(orders, symbol, positionSide, kind, oid))
            && (forall o :: o in inv.external ==> o !in inv.superseded && o !in inv.canonical)
  {
    var ids := LineageIds(lineage);
    assert oid in ids && forall x :: x in ids <==> x in lineage;
    var inv := Inventoried(orders, symbol, positionSide, kind, oid, lineage);
    SameKindMeaning(orders, symbol, positionSide, kind, oid, lineage);
    assert forall o :: o in inv.superseded <==> o in inv.sameKind && o.clientOid != oid;
    assert forall o :: o in inv.canonical <==> o in inv.sameKind && o.clientOid == oid;
    if inv.canonical != [] {
      assert inv.canonical[0] in inv.canonical;
    }
    if inv.superseded != [] {
      assert inv.superseded[0] in inv.superseded;
    }
  }

  lemma SameKindMeaning(
    orders: seq<StopOrder>, symbol: string, positionSide: string, kind: string,
    oid: ClientOid, lineage: seq<ClientOid>)
    ensures var inv := Inventoried(orders, symbol, positionSide, kind, oid, lineage);
            && (forall o :: o in inv.external <==> o in orders && SameSymbol(o, symbol) && !BgxOwned(o))
            && (forall o :: o in inv.bgx <==> o in orders && SameSymbol(o, symbol) && BgxOwned(o))
            && (forall o :: o in inv.sameKind <==>
                  && o in orders && SameSymbol(o, symbol) && BgxOwned(o) && ProtectionKind(o, positionSide) == kind
                  && (LineageIds(lineage) == {} || o.clientOid in LineageIds(lineage)))
  {
  }

  /** A stop of the bot is unknown to a slot when the slot lists ids and the
      stop's is not among them. */
  lemma UnknownMeaning(
    orders: seq<StopOrder>, symbol: string, positionSide: string, kind: string,
    oid: ClientOid, lineage: seq<ClientOid>)
    ensures var unknown := Inventoried(orders, symbol, positionSide, kind, oid, lineage).unknownBgx;
            && (forall o :: o in unknown ==>
                              o in orders && SameSymbol(o, symbol) && BgxOwned(o) && o.clientOid !in lineage)
            && ((exists x :: x in lineage && x != Foreign("")) ==>
                  forall o :: o in orders && SameSymbol(o, symbol) && BgxOwned(o) && o.clientOid !in lineage ==>
                                o in unknown)
            && ((forall x :: x in lineage ==> x == Foreign("")) ==> unknown == [])
  {
    var ids := LineageIds(lineage);
    var unknown := Inventoried(orders, symbol, positionSide, kind, oid, lineage).unknownBgx;
    assert forall x :: x in ids <==> x in lineage && x != Foreign("");
    if unknown != [] {
      assert unknown[0] in unknown && ids != {};
    }
  }

  /** The loop that cancels a list of orders: an order without id, or one
      reached while the lease is invalid, is skipped. */
  function Cancelled(orders: seq<StopOrder>, leaseValid: nat -> bool): (r: seq<StopOrder>)
    ensures forall o :: o in r ==> o in orders
    ensures forall o :: o in r <==> exists n :: 0 <= n < |orders| && orders[n] == o && o.id != "" && leaseValid(n)
    ensures (forall n: nat :: leaseValid(n)) ==> forall o :: o in orders && o.id != "" ==> o in r
  {
    if |orders| == 0 then []
    else
      var n := |orders| - 1;
      var before := Cancelled(orders[..n], leaseValid);
      assert forall m :: 0 <= m < n ==> orders[..n][m] == orders[m];
      before + (if orders[n].id != "" && leaseValid(n) then [orders[n]] else [])
  }

  method CancelAll(orders: seq<StopOrder>, leaseValid: nat -> bool) returns (cancels: seq<StopOrder>)
    ensures cancels == Cancelled(orders, leaseValid)
  {
    cancels := [];
    var k := 0;
    while k < |orders|
      invariant 0 <= k <= |orders|
      invariant cancels == Cancelled(orders[..k], leaseValid)
    {
      assert orders[..k + 1][..k] == orders[..k];
      if orders[k].id != "" && leaseValid(k) {
        cancels := cancels + [orders[k]];
      }
      k := k + 1;
    }
    assert orders[..k] == orders;
  }

  /** The first record found that owns the canonical id, in whatever order the
      records are visited. */
  method FindOwner(slots: Registry, canonicalOid: ClientOid) returns (found: Option<SlotKey>)
    ensures found.Some? ==> found.value in slots && canonicalOid in slots[found.value].owned
    ensures found.None? ==> forall k :: k in slots ==> canonicalOid !in slots[k].owned
  {
    var todo := slots.Keys;
    while todo != {}
      invariant todo <= slots.Keys
      invariant forall k :: k in slots && k !in todo ==> canonicalOid !in slots[k].owned
      decreases todo
    {
      var k :| k in todo;
      if canonicalOid in slots[k].owned {
        return Some(k);
      }
      todo := todo - {k};
    }
    return None;
  }

  ghost function Superseded(
    symbol: string, positionSide: string, kind: string, oid: ClientOid, lineage: seq<ClientOid>): StopOrder -> bool
  {
    o => IsSuperseded(o, symbol, positionSide, kind, oid, lineage)
  }

  ghost function External(symbol: string): StopOrder -> bool {
    o => SameSymbol(o, symbol) && !BgxOwned(o)
  }

  lemma CountOfFour(
    orders: seq<StopOrder>, f: StopOrder -> bool, g: StopOrder -> bool, h: StopOrder -> bool, k: StopOrder -> bool,
    all: StopOrder -> bool)
    requires forall o :: o in orders ==> all(o) == (f(o) && g(o) && h(o) && k(o))
    ensures |Filter(Filter(Filter(Filter(orders, f), g), h), k)| == Number(orders, all)
  {
    var hk := o => h(o) && k(o);
    var ghk := o => g(o) && hk(o);
    FilterSize(Filter(Filter(Filter(orders, f), g), h), k);
    NumberFiltered(Filter(Filter(orders, f), g), h, k);
    NumberFiltered(Filter(orders, f), g, hk);
    NumberFiltered(orders, f, ghk);
    NumberSame(orders, o => f(o) && ghk(o), all);
  }

  lemma CountOfTwo(orders: seq<StopOrder>, f: StopOrder -> bool, g: StopOrder -> bool, all: StopOrder -> bool)
    requires forall o :: o in orders ==> all(o) == (f(o) && g(o))
    ensures |Filter(Filter(orders, f), g)| == Number(orders, all)
  {
    FilterSize(Filter(orders, f), g);
    NumberFiltered(orders, f, g);
    NumberSame(orders, o => f(o) && g(o), all);
  }

  /** The counts the cleanup reports are of orders in the readings: the ones
      it means to cancel, and the active ones that are not the bot's. */
  lemma InventoryCounts(
    orders: seq<StopOrder>, symbol: string, positionSide: string, kind: string,
    oid: ClientOid, lineage: seq<ClientOid>)
    requires oid in lineage && forall x :: x in lineage ==> x.Minted?
    ensures var inv := Inventoried(orders, symbol, positionSide, kind, oid, lineage);
            && |inv.superseded| == Number(orders, Superseded(symbol, positionSide, kind, oid, lineage))
            && |inv.external| == Number(orders, External(symbol))
  {
    var ids := LineageIds(lineage);
    assert forall x :: x in ids <==> x in lineage;
    CountOfFour(orders, o => SameSymbol(o, symbol), o => BgxOwned(o),
                (o: StopOrder) => ProtectionKind(o, positionSide) == kind && (ids == {} || o.clientOid in ids),
                (o: StopOrder) => o.clientOid != oid, Superseded(symbol, positionSide, kind, oid, lineage));
    CountOfTwo(orders, o => SameSymbol(o, symbol), o => !BgxOwned(o), External(symbol));
  }

  /** The registry a run of the lifecycle can have, as StopRuns proves. */
  ghost predicate Reachable(slots: Registry) {
    StopRuns.WellMinted(slots)
  }

  /** The exchange part of `cleanup_superseded`, for the ids of one slot. */
  method RetireSuperseded(
    lineage: seq<ClientOid>, symbol: string, positionSide: string, kind: string, oid: ClientOid,
    before: Option<seq<StopOrder>>, leaseAtCancel: nat -> bool, after: Option<seq<StopOrder>>)
    returns (ok: bool, superseded: nat, external: nat, cancels: seq<StopOrder>)
    requires oid in lineage && forall x :: x in lineage ==> x.Minted?
    ensures forall o :: o in cancels ==>
                          before.Some? && o in before.value && IsSuperseded(o, symbol, positionSide, kind, oid, lineage)
    ensures cancels != [] ==> before.Some? && ShowsCanonical(before.value, symbol, positionSide, kind, oid)
    ensures forall o :: o in cancels ==> o.id != "" && exists n: nat :: leaseAtCancel(n)
    ensures superseded == if before.None? then 0
                          else Number(before.value, Superseded(symbol, positionSide, kind, oid, lineage))
    ensures external == if before.None? then 0
                        else if !ShowsCanonical(before.value, symbol, positionSide, kind, oid) || after.None?
                        then Number(before.value, External(symbol)) else Number(after.value, External(symbol))
    ensures ok <==>
              && before.Some? && after.Some?
              && ShowsCanonical(before.value, symbol, positionSide, kind, oid)
              && ShowsCanonical(after.value, symbol, positionSide, kind, oid)
              && forall o :: o in after.value ==> !IsSuperseded(o, symbol, positionSide, kind, oid, lineage)
    ensures before.Some? && ShowsCanonical(before.value, symbol, positionSide, kind, oid)
            && (forall n: nat :: leaseAtCancel(n)) ==>
              forall o | o in before.value && o.id != "" ::
                IsSuperseded(o, symbol, positionSide, kind, oid, lineage) ==> o in cancels
  {
    if before.None? {
      return false, 0, 0, [];
    }
    var inv := Inventoried(before.value, symbol, positionSide, kind, oid, lineage);
    InventoryMeaning(before.value, symbol, positionSide, kind, oid, lineage);
    InventoryCounts(before.value, symbol, positionSide, kind, oid, lineage);
    if inv.canonical == [] {
      return false, |inv.superseded|, |inv.external|, [];
    }
    cancels := CancelAll(inv.superseded, leaseAtCancel);
    if after.None? {
      return false, |inv.superseded|, |inv.external|, cancels;
    }
    var afterInv := Inventoried(after.value, symbol, positionSide, kind, oid, lineage);
    InventoryMeaning(after.value, symbol, positionSide, kind, oid, lineage);
    InventoryCounts(after.value, symbol, positionSide, kind, oid, lineage);
    ok := afterInv.canonical != [] && afterInv.superseded == [];
    superseded, external := |inv.superseded|, |afterInv.external|;
  }

  /** `cleanup_superseded`. On a registry the lifecycle produced it cancels
      only other ids of the very slot that minted the canonical one, and
      nothing unless the canonical stop was first read as active; success
      means that the second reading shows the canonical stop and none of the
      slot's other ids, and that with a lasting lease all of them were cancelled. */
  method CleanupSuperseded(
    slots: Registry, leaseValid: bool, symbol: string, positionSide: string, kind: string, oid: ClientOid,
    before: Option<seq<StopOrder>>, leaseAtCancel: nat -> bool, after: Option<seq<StopOrder>>)
    returns (ok: bool, superseded: nat, external: nat, cancels: seq<StopOrder>)
    requires Reachable(slots)
    ensures forall o :: o in cancels ==>
                          && oid.Minted? && o.clientOid.Minted? && o.clientOid.slot == oid.slot && o.clientOid != oid
                          && before.Some? && o in before.value && ActiveAs(o, symbol, positionSide, kind, o.clientOid)
    ensures cancels != [] ==>
              before.Some? && ShowsCanonical(before.value, symbol, positionSide, kind, oid) && leaseValid
    ensures forall o :: o in cancels ==> o.id != "" && exists n: nat :: leaseAtCancel(n)
    ensures leaseValid && StopRuns.Owns(slots, oid) && before.Some? ==>
              superseded == Number(before.value, Superseded(symbol, positionSide, kind, oid, slots[oid.slot].owned))
    ensures ok <==>
              && leaseValid && StopRuns.Owns(slots, oid) && before.Some? && after.Some?
              && ShowsCanonical(before.value, symbol, positionSide, kind, oid)
              && ShowsCanonical(after.value, symbol, positionSide, kind, oid)
              && forall o :: o in after.value ==>
                 !IsSuperseded(o, symbol, positionSide, kind, oid, slots[oid.slot].owned)
    ensures leaseValid && StopRuns.Owns(slots, oid)
            && before.Some? && ShowsCanonical(before.value, symbol, positionSide, kind, oid)
            && (forall n: nat :: leaseAtCancel(n)) ==>
              forall o :: o in before.value && o.id != "" ==>
                            (IsSuperseded(o, symbol, positionSide, kind, oid, slots[oid.slot].owned) ==> o in cancels)
  {
    if !leaseValid {
      return false, 0, 0, [];
    }
    var matching := FindOwner(slots, oid);
    if matching.None? {
      return false, 0, 0, [];
    }
    assert StopRuns.GoodRec(matching.value, slots[matching.value]);
    assert matching.value == oid.slot;
    ok, superseded, external, cancels :=
      RetireSuperseded(slots[matching.value].owned, symbol, positionSide, kind, oid, before, leaseAtCancel, after);
  }

  /** What the flat cleanup must be told before it may touch anything. */
  datatype Flatness = Flatness(
    exchangeQty: Option<real>, entryAbsent: bool, localPosition: bool, pendingOrder: bool, unreconciledFill: bool)

  /** `cleanup_flat_symbol`: with every flatness proof and a valid lease it
      cancels BGX stops of the symbol and nothing else; success means the
      second reading shows none, and only then are the symbol's slots closed. */
  method CleanupFlatSymbol(
    life: StopLifecycle, symbol: string, flat: Flatness, leaseValid: bool,
    before: Option<seq<StopOrder>>, leaseAtCancel: nat -> bool, after: Option<seq<StopOrder>>, now: real, p: Persist)
    returns (ok: bool, cancels: seq<StopOrder>)
    modifies life
    ensures forall o :: o in cancels ==> before.Some? && o in before.value && BgxOwned(o) && SameSymbol(o, symbol)
    ensures cancels != [] ==> leaseValid && flat == Flatness(Some(0.0), true, false, false, false)
    ensures forall o :: o in cancels ==> o.id != "" && exists n: nat :: leaseAtCancel(n)
    ensures ok <==> leaseValid && flat == Flatness(Some(0.0), true, false, false, false)
                    && before.Some? && after.Some?
                    && forall o :: o in after.value && SameSymbol(o, symbol) ==> !BgxOwned(o)
    ensures leaseValid && flat == Flatness(Some(0.0), true, false, false, false)
            && before.Some? && (forall n: nat :: leaseAtCancel(n)) ==>
              forall o :: o in before.value && BgxOwned(o) && SameSymbol(o, symbol) && o.id != "" ==> o in cancels
    ensures life.View() == if ok then AfterFlatClean(old(life.View()), symbol, now, p) else old(life.View())
  {
    if flat.exchangeQty != Some(0.0) {
      return false, [];
    }
    if !flat.entryAbsent || flat.localPosition || flat.pendingOrder || flat.unreconciledFill {
      return false, [];
    }
    if !leaseValid || before.None? {
      return false, [];
    }
    var owned := Filter(before.value, o => SameSymbol(o, symbol) && BgxOwned(o));
    cancels := CancelAll(owned, leaseAtCancel);
    if after.None? {
      return false, cancels;
    }
    var remaining := Filter(after.value, o => SameSymbol(o, symbol) && BgxOwned(o));
    ok := remaining == [];
    assert remaining != [] ==> remaining[0] in remaining;
    if ok {
      life.CloseSymbol(symbol, now, p);
    }
  }

  /** Cleanup after any run of the lifecycle: the registry it reads is one on
      which the guarantees of `CleanupSuperseded` hold. */
  lemma RunsAreReachable(row: Registry, run: seq<StopRuns.Event>)
    requires StopRuns.WellMinted(row)
    ensures Reachable(StopRuns.Exec(StopRuns.Start(row), run).store.Seen())
  {
    StopRuns.RunSound(StopRuns.Start(row), run);
  }
}

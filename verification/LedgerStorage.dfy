/** The storage of the daily PnL ledger in bot/daily_pnl_storage.py: one
    canonical ledger and any number of legacy ones, merged on every load. */
module LedgerStorage {
  import opened Common

  /** The identity a trade is hashed from, and the two preimages of a token;
      the hash is treated as injective. */
  datatype TradeId = TradeId(
    symbol: string, direction: string, openedAt: int, closedAt: int, qty: real, entry: real, exitPrice: real)

  datatype Token = OfTrade(id: TradeId) | OfClose(closeId: string) | Malformed(text: string)

  /** A JSON scalar; instants are milliseconds, `Ref` is a token as text. */
  datatype Value = Num(r: real) | Str(s: string) | Instant(ms: int) | Ref(token: Token) | Other

  type Event = map<string, Value>
  type Rows = map<Token, Event>

  datatype Ledger = Ledger(version: int, day: int, events: Rows, coverage: Option<string>)

  const MIXED := "MIXED_LEGACY_COVERAGE"
  const MS_PER_DAY := 86400000

  function DayOf(ms: int): int {
    ms / MS_PER_DAY
  }

  predicate ValidEvent(token: Token, e: Event, day: int) {
    && !token.Malformed?
    && "closed_at" in e && e["closed_at"].Instant? && DayOf(e["closed_at"].ms) == day
    && "pnl" in e && e["pnl"].Num?
  }

  predicate ValidRows(rows: Rows, day: int) {
    forall t :: t in rows ==> ValidEvent(t, rows[t], day)
  }

  /** `validate` */
  predicate Valid(l: Ledger, day: int) {
    l.version == 1 && l.day == day && ValidRows(l.events, day)
  }

  /** A ledger is valid for a day when it is of the first version, names the
      day, and every event has a readable token, a time within the day, and a
      number. */
  lemma ValidByFields(l: Ledger, day: int)
    ensures Valid(l, day) <==>
              && l.version == 1 && l.day == day
              && forall t :: t in l.events ==>
                               && !t.Malformed? && {"closed_at", "pnl"} <= l.events[t].Keys
                               && l.events[t]["pnl"].Num? && l.events[t]["closed_at"].Instant?
                               && day * 86400000 <= l.events[t]["closed_at"].ms < (day + 1) * 86400000
  {
    forall t | t in l.events && "closed_at" in l.events[t] && l.events[t]["closed_at"].Instant?
      ensures DayOf(l.events[t]["closed_at"].ms) == day <==>
                day * 86400000 <= l.events[t]["closed_at"].ms < (day + 1) * 86400000
    {
    }
  }

  predicate EventsAgree(a: Event, b: Event) {
    forall f :: f in a && f in b ==> a[f] == b[f]
  }

  /** Two ledgers agree on every shared field of every shared event. */
  ghost predicate Agree(a: Rows, b: Rows) {
    forall t :: t in a && t in b ==> EventsAgree(a[t], b[t])
  }

  function JoinedRows(a: Rows, b: Rows): Rows {
    map t | t in a.Keys + b.Keys ::
      if t in a && t in b then b[t] + a[t] else if t in a then a[t] else b[t]
  }

  /** The in-place merge of a legacy ledger into the one loaded so far. */
  method MergeInto(state: Rows, legacy: Rows) returns (ok: bool, merged: Rows)
    ensures ok <==> Agree(state, legacy)
    ensures ok ==> merged == JoinedRows(state, legacy)
  {
    merged := state;
    var todo := legacy.Keys;
    while todo != {}
      invariant todo <= legacy.Keys
      invariant merged.Keys == state.Keys + (legacy.Keys - todo)
      invariant forall t :: t in merged && t in legacy && t !in todo ==> merged[t] == JoinedRows(state, legacy)[t]
      invariant forall t :: t in state && (t !in legacy || t in todo) ==> merged[t] == state[t]
      invariant forall t :: t in state && t in legacy && t !in todo ==> EventsAgree(state[t], legacy[t])
      decreases todo
    {
      var t :| t in todo;
      if t in merged {
        if !EventsAgree(merged[t], legacy[t]) {
          return false, state;
        }
        merged := merged[t := legacy[t] + merged[t]];
      } else {
        merged := merged[t := legacy[t]];
      }
      todo := todo - {t};
    }
    ok := true;
  }

  datatype Loaded = Unusable | Absent | Present(ledger: Ledger)

  function MergedLedger(a: Ledger, b: Ledger): Ledger {
    a.(events := JoinedRows(a.events, b.events),
       coverage := if a.coverage != b.coverage then Some(MIXED) else a.coverage)
  }

  lemma CoverageIsMixed(a: Ledger, b: Ledger)
    ensures MergedLedger(a, b).coverage
            == if a.coverage == b.coverage then b.coverage else Some("MIXED_LEGACY_COVERAGE")
    ensures MergedLedger(a, b).day == a.day && MergedLedger(a, b).version == a.version
  {
  }

  /** Ledgers are read in order; the first present one is the base. */
  ghost function LoadedFrom(raws: seq<Option<Ledger>>, day: int): Loaded
    decreases |raws|
  {
    if |raws| == 0 then Absent
    else
      var n := |raws| - 1;
      var before := LoadedFrom(raws[..n], day);
      var raw := raws[n];
      if before.Unusable? || raw.None? then before
      else if !Valid(raw.value, day) then Unusable
      else if before.Absent? then Present(raw.value)
      else if Agree(before.ledger.events, raw.value.events) then Present(MergedLedger(before.ledger, raw.value))
      else Unusable
  }

  /** `load`: the canonical row first, then the legacy rows. */
  method Load(raws: seq<Option<Ledger>>, day: int) returns (r: Loaded)
    ensures r == LoadedFrom(raws, day)
  {
    r := Absent;
    var k := 0;
    while k < |raws|
      invariant 0 <= k <= |raws|
      invariant r == LoadedFrom(raws[..k], day) && !r.Unusable?
    {
      assert raws[..k + 1][..k] == raws[..k];
      if raws[k].Some? {
        var legacy := raws[k].value;
        if !Valid(legacy, day) {
          UnusableForever(raws, k + 1, day);
          return Unusable;
        }
        if r.Absent? {
          r := Present(legacy);
        } else {
          var ok, merged := MergeInto(r.ledger.events, legacy.events);
          if !ok {
            UnusableForever(raws, k + 1, day);
            return Unusable;
          }
          var coverage := if r.ledger.coverage != legacy.coverage then Some(MIXED) else r.ledger.coverage;
          r := Present(r.ledger.(events := merged, coverage := coverage));
        }
      }
      k := k + 1;
    }
    assert raws[..k] == raws;
  }

  lemma {:induction false} UnusableForever(raws: seq<Option<Ledger>>, k: nat, day: int)
    requires k <= |raws| && LoadedFrom(raws[..k], day).Unusable?
    ensures LoadedFrom(raws, day).Unusable?
    decreases |raws|
  {
    if k == |raws| {
      assert raws[..k] == raws;
    } else {
      assert raws[..|raws| - 1][..k] == raws[..k];
      UnusableForever(raws[..|raws| - 1], k, day);
    }
  }

  // ---- What a load returns ----

  ghost predicate InSome(raws: seq<Option<Ledger>>, t: Token)
    decreases |raws|
  {
    |raws| > 0 && var n := |raws| - 1;
    (raws[n].Some? && t in raws[n].value.events) || InSome(raws[..n], t)
  }

  ghost predicate FieldInSome(raws: seq<Option<Ledger>>, t: Token, f: string)
    decreases |raws|
  {
    |raws| > 0 && var n := |raws| - 1;
    (raws[n].Some? && t in raws[n].value.events && f in raws[n].value.events[t]) || FieldInSome(raws[..n], t, f)
  }

  /** What "in some ledger" means. */
  lemma {:induction false} SomeMeans(raws: seq<Option<Ledger>>, t: Token, f: string)
    ensures InSome(raws, t) <==> exists l :: Some(l) in raws && t in l.events
    ensures FieldInSome(raws, t, f) <==> exists l :: Some(l) in raws && t in l.events && f in l.events[t]
    decreases |raws|
  {
    if |raws| == 0 {
    } else {
      var n := |raws| - 1;
      SomeMeans(raws[..n], t, f);
      assert raws == raws[..n] + [raws[n]];
      assert forall l :: Some(l) in raws <==> Some(l) in raws[..n] || raws[n] == Some(l);
    }
  }

  /** All present ledgers are valid and agree pairwise. */
  ghost predicate Compatible(raws: seq<Option<Ledger>>, day: int) {
    && (forall i :: 0 <= i < |raws| && raws[i].Some? ==> Valid(raws[i].value, day))
    && (forall i, j :: 0 <= i < j < |raws| && raws[i].Some? && raws[j].Some? ==>
       Agree(raws[i].value.events, raws[j].value.events))
  }

  /** The events of every ledger, each with the fields of all its copies. */
  ghost predicate IsJoin(rows: Rows, raws: seq<Option<Ledger>>) {
    && (forall t :: t in rows <==> InSome(raws, t))
    && (forall t, f :: t in rows ==> (f in rows[t] <==> FieldInSome(raws, t, f)))
    && (forall i :: 0 <= i < |raws| && raws[i].Some? ==> Agree(rows, raws[i].value.events))
  }

  ghost predicate AnyPresent(raws: seq<Option<Ledger>>) {
    exists i :: 0 <= i < |raws| && raws[i].Some?
  }

  /** One more ledger joins the rows collected so far. */
  lemma JoinStep(raws: seq<Option<Ledger>>, rows: Rows)
    requires |raws| > 0 && raws[|raws| - 1].Some?
    requires IsJoin(rows, raws[..|raws| - 1]) && Agree(rows, raws[|raws| - 1].value.events)
    ensures IsJoin(JoinedRows(rows, raws[|raws| - 1].value.events), raws)
  {
    var n := |raws| - 1;
    var legacy := raws[n].value.events;
    var joined := JoinedRows(rows, legacy);
    forall t, f | t in joined
      ensures f in joined[t] <==> FieldInSome(raws, t, f)
    {
      FieldNeedsEvent(raws[..n], t, f);
    }
    forall i | 0 <= i < |raws| && raws[i].Some?
      ensures Agree(joined, raws[i].value.events)
    {
      if i < n {
        assert raws[..n][i] == raws[i];
        AgreeWithJoin(raws[..n], rows, legacy, i);
      }
    }
  }

  lemma {:induction false} FieldNeedsEvent(raws: seq<Option<Ledger>>, t: Token, f: string)
    ensures FieldInSome(raws, t, f) ==> InSome(raws, t)
    decreases |raws|
  {
    if |raws| == 0 {
    } else {
      FieldNeedsEvent(raws[..|raws| - 1], t, f);
    }
  }

  lemma AgreeWithJoin(raws: seq<Option<Ledger>>, rows: Rows, legacy: Rows, i: nat)
    requires IsJoin(rows, raws) && Agree(rows, legacy) && i < |raws| && raws[i].Some?
    ensures Agree(JoinedRows(rows, legacy), raws[i].value.events)
  {
    var joined := JoinedRows(rows, legacy);
    var x := raws[i].value.events;
    forall t | t in joined && t in x
      ensures EventsAgree(joined[t], x[t])
    {
      assert Some(raws[i].value) in raws;
      forall f | f in joined[t] && f in x[t]
        ensures joined[t][f] == x[t][f]
      {
        SomeMeans(raws, t, f);
        assert EventsAgree(rows[t], x[t]);
      }
    }
  }

  /** A ledger that agrees with all earlier ones agrees with their join, and
      the other way round. */
  lemma AgreeWithAll(raws: seq<Option<Ledger>>, rows: Rows, next: Rows)
    requires IsJoin(rows, raws)
    ensures Agree(rows, next) <==> forall i :: 0 <= i < |raws| && raws[i].Some? ==> Agree(raws[i].value.events, next)
  {
    if Agree(rows, next) {
      forall i | 0 <= i < |raws| && raws[i].Some?
        ensures Agree(raws[i].value.events, next)
      {
        var x := raws[i].value.events;
        forall t | t in x && t in next
          ensures EventsAgree(x[t], next[t])
        {
          assert Some(raws[i].value) in raws;
          SomeMeans(raws, t, "pnl");
          assert EventsAgree(rows[t], next[t]) && EventsAgree(rows[t], x[t]);
          forall f | f in x[t] && f in next[t]
            ensures x[t][f] == next[t][f]
          {
            SomeMeans(raws, t, f);
          }
        }
      }
    } else {
      var t :| t in rows && t in next && !EventsAgree(rows[t], next[t]);
      var f :| f in rows[t] && f in next[t] && rows[t][f] != next[t][f];
      SomeMeans(raws, t, f);
      var l :| Some(l) in raws && t in l.events && f in l.events[t];
      var i :| 0 <= i < |raws| && raws[i] == Some(l);
      assert EventsAgree(rows[t], raws[i].value.events[t]);
      assert !EventsAgree(raws[i].value.events[t], next[t]);
      assert !Agree(raws[i].value.events, next);
    }
  }

  /** Loading succeeds exactly when every present ledger is valid and all of
      them agree pairwise; what it returns is then their join. */
  lemma {:induction false} LoadExactly(raws: seq<Option<Ledger>>, day: int)
    ensures !LoadedFrom(raws, day).Unusable? <==> Compatible(raws, day)
    ensures LoadedFrom(raws, day).Present? ==> IsJoin(LoadedFrom(raws, day).ledger.events, raws) && AnyPresent(raws)
    ensures LoadedFrom(raws, day).Absent? ==> !AnyPresent(raws)
    decreases |raws|
  {
    if |raws| == 0 {
    } else {
      var n := |raws| - 1;
      var rest := raws[..n];
      LoadExactly(rest, day);
      assert forall i :: 0 <= i < n ==> rest[i] == raws[i];
      var before := LoadedFrom(rest, day);
      CompatibleSplit(raws, day);
      if before.Unusable? {
      } else if raws[n].None? {
        JoinSkipsAbsent(raws);
      } else if before.Absent? {
        SingleJoin(raws);
      } else {
        AgreeWithAll(rest, before.ledger.events, raws[n].value.events);
        if Valid(raws[n].value, day) && Agree(before.ledger.events, raws[n].value.events) {
          JoinStep(raws, before.ledger.events);
        }
      }
    }
  }

  lemma CompatibleSplit(raws: seq<Option<Ledger>>, day: int)
    requires |raws| > 0
    ensures var n := |raws| - 1;
            Compatible(raws, day) <==>
              && Compatible(raws[..n], day)
              && (raws[n].Some? ==>
                    && Valid(raws[n].value, day)
                    && forall i :: 0 <= i < n && raws[..n][i].Some? ==>
                       Agree(raws[..n][i].value.events, raws[n].value.events))
  {
    var n := |raws| - 1;
    assert forall i :: 0 <= i < n ==> raws[..n][i] == raws[i];
  }

  lemma JoinSkipsAbsent(raws: seq<Option<Ledger>>)
    requires |raws| > 0 && raws[|raws| - 1].None?
    ensures forall rows :: IsJoin(rows, raws[..|raws| - 1]) ==> IsJoin(rows, raws)
    ensures AnyPresent(raws) <==> AnyPresent(raws[..|raws| - 1])
  {
    var rest := raws[..|raws| - 1];
    assert forall i :: 0 <= i < |rest| ==> rest[i] == raws[i];
    if AnyPresent(raws) {
      var i :| 0 <= i < |raws| && raws[i].Some?;
      assert rest[i].Some?;
    }
  }

  lemma SingleJoin(raws: seq<Option<Ledger>>)
    requires |raws| > 0 && raws[|raws| - 1].Some? && !AnyPresent(raws[..|raws| - 1])
    ensures IsJoin(raws[|raws| - 1].value.events, raws) && AnyPresent(raws)
  {
    var n := |raws| - 1;
    var rows := raws[n].value.events;
    assert forall i :: 0 <= i < n ==> raws[i] == raws[..n][i];
    forall i | 0 <= i < |raws| && raws[i].Some?
      ensures Agree(rows, raws[i].value.events)
    {
      assert i == n;
    }
    forall t
      ensures t in rows <==> InSome(raws, t)
    {
      SomeMeans(raws[..n], t, "");
    }
    forall t, f | t in rows
      ensures f in rows[t] <==> FieldInSome(raws, t, f)
    {
      SomeMeans(raws[..n], t, f);
    }
  }

  /** The join does not depend on where the ledgers were found: two ways of
      storing the same ledgers load the same events, or both fail. */
  lemma LoadOrderIndependent(a: seq<Option<Ledger>>, b: seq<Option<Ledger>>, day: int)
    requires forall x :: Some(x) in a <==> Some(x) in b
    ensures LoadedFrom(a, day).Unusable? <==> LoadedFrom(b, day).Unusable?
    ensures LoadedFrom(a, day).Present? ==>
              LoadedFrom(b, day).Present? && LoadedFrom(a, day).ledger.events == LoadedFrom(b, day).ledger.events
  {
    LoadExactly(a, day);
    LoadExactly(b, day);
    SameLedgers(a, b, day);
    SameLedgers(b, a, day);
    if LoadedFrom(a, day).Present? {
      var i :| 0 <= i < |a| && a[i].Some?;
      assert Some(a[i].value) in a;
      assert AnyPresent(b);
      JoinUnique(a, b, LoadedFrom(a, day).ledger.events, LoadedFrom(b, day).ledger.events);
    }
  }

  lemma SameLedgers(a: seq<Option<Ledger>>, b: seq<Option<Ledger>>, day: int)
    requires forall x :: Some(x) in a <==> Some(x) in b
    ensures Compatible(a, day) ==> Compatible(b, day)
  {
    if Compatible(a, day) {
      forall i | 0 <= i < |b| && b[i].Some?
        ensures Valid(b[i].value, day)
      {
        assert Some(b[i].value) in a;
      }
      forall i, j | 0 <= i < j < |b| && b[i].Some? && b[j].Some?
        ensures Agree(b[i].value.events, b[j].value.events)
      {
        assert Some(b[i].value) in a && Some(b[j].value) in a;
        var m :| 0 <= m < |a| && a[m] == b[i];
        var n :| 0 <= n < |a| && a[n] == b[j];
        if m < n {
          assert Agree(a[m].value.events, a[n].value.events);
        } else if n < m {
          assert Agree(a[n].value.events, a[m].value.events);
        }
      }
    }
  }

  lemma JoinUnique(a: seq<Option<Ledger>>, b: seq<Option<Ledger>>, x: Rows, y: Rows)
    requires forall l :: Some(l) in a <==> Some(l) in b
    requires IsJoin(x, a) && IsJoin(y, b)
    ensures x == y
  {
    forall t
      ensures t in x <==> t in y
    {
      SomeMeans(a, t, "");
      SomeMeans(b, t, "");
    }
    forall t | t in x
      ensures x[t] == y[t]
    {
      forall f
        ensures f in x[t] <==> f in y[t]
        ensures f in x[t] ==> x[t][f] == y[t][f]
      {
        SomeMeans(a, t, f);
        SomeMeans(b, t, f);
        if f in x[t] {
          SameField(a, b, x, y, t, f);
        }
      }
    }
  }

  lemma SameField(a: seq<Option<Ledger>>, b: seq<Option<Ledger>>, x: Rows, y: Rows, t: Token, f: string)
    requires forall l :: Some(l) in a <==> Some(l) in b
    requires IsJoin(x, a) && IsJoin(y, b) && t in x && t in y && f in x[t] && f in y[t]
    ensures x[t][f] == y[t][f]
  {
    SomeMeans(a, t, f);
    var l :| Some(l) in a && t in l.events && f in l.events[t];
    var i :| 0 <= i < |a| && a[i] == Some(l);
    var j :| 0 <= j < |b| && b[j] == Some(l);
    assert Agree(x, a[i].value.events) && Agree(y, b[j].value.events);
    assert EventsAgree(x[t], l.events[t]) && EventsAgree(y[t], l.events[t]);
  }
}

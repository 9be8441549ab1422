/** The LIVE execution lease of bot/execution_ownership.py: one database row,
    overwritten inside a transaction, that fences out superseded owners.

    Times are integer instants. The row is read and written by `Acquired`,
    read by `Validated`, and published into an engine by `Published`; the
    classes at the end change state through these functions, and
    ExecutionLeaseRuns interleaves them. */
module ExecutionLease {
  import opened Common

  /** `owner_id or _OWNER_ID` is never the empty string. */
  type OwnerId = s: string | s != "" witness "local"

  /** The stored `expires_at`, which the reader must be able to parse. */
  datatype Stamp = Missing | Unreadable | At(instant: int)

  datatype Row = Row(ownerId: string, token: int, acquiredAt: int, heartbeatAt: int, expiresAt: Stamp)

  datatype Ownership = Ownership(ownerId: OwnerId, token: int, acquiredAt: int, heartbeatAt: int, expiresAt: int)

  datatype LeaseError = Unavailable | Held | MissingAuthority | Superseded | InvalidLease | Expired

  function StoredRow(o: Ownership): Row {
    Row(o.ownerId, o.token, o.acquiredAt, o.heartbeatAt, At(o.expiresAt))
  }

  function StoredToken(row: Option<Row>): int {
    if row.Some? then row.value.token else 0
  }

  predicate Live(row: Option<Row>, now: int) {
    row.Some? && row.value.expiresAt.At? && row.value.expiresAt.instant > now
  }

  /** Row and ownership agree on owner and fencing token. */
  predicate Carries(row: Option<Row>, o: Ownership) {
    row.Some? && row.value.ownerId == o.ownerId && row.value.token == o.token
  }

  /** The body of the acquiring transaction, on the row it locked. `now` was
      sampled before the lock was requested. */
  function Acquired(row: Option<Row>, owner: OwnerId, now: int, lease: int): Result<Ownership, LeaseError> {
    var live := Live(row, now);
    if live && row.value.ownerId != "" && row.value.ownerId != owner then
      Err(Held)
    else
      var renewal := live && row.value.ownerId == owner;
      Ok(Ownership(
           owner,
           if renewal then row.value.token else StoredToken(row) + 1,
           if renewal then row.value.acquiredAt else now,
           now,
           now + lease))
  }

  /** The checks made on the row that validation fetched. */
  function Validated(row: Option<Row>, o: Ownership, now: int): Result<(), LeaseError> {
    if row.None? then Err(MissingAuthority)
    else if !Carries(row, o) then Err(Superseded)
    else if !row.value.expiresAt.At? then Err(InvalidLease)
    else if row.value.expiresAt.instant <= now then Err(Expired)
    else Ok(())
  }

  /** What an engine believes: the readiness bit, its expiry, and the
      ownership object stored on the exchange client. */
  datatype Local = Local(valid: bool, expiresAt: Option<int>, client: Option<Ownership>) {

    /** The readiness bit is up and its lease has not run out at `now`. */
    predicate Holds(now: int) {
      valid && expiresAt.Some? && expiresAt.value > now
    }
  }

  const NO_LEASE := Local(false, None, None)

  function Invalidated(local: Local): Local {
    local.(valid := false, expiresAt := None)
  }

  function Published(local: Local, o: Ownership, now: int): Local {
    var stored := local.(client := Some(o));
    if o.expiresAt - now <= 0 then Invalidated(stored)
    else stored.(valid := true, expiresAt := Some(o.expiresAt))
  }

  /** How the acquiring transaction ends. */
  datatype TxOutcome = TxCommitted | TxRolledBack | TxAmbiguous

  function RowAfter(row: Option<Row>, owner: OwnerId, now: int, lease: int, tx: TxOutcome): Option<Row> {
    var r := Acquired(row, owner, now, lease);
    if r.Ok? && !tx.TxRolledBack? then Some(StoredRow(r.value)) else row
  }

  function AcquireReply(row: Option<Row>, owner: OwnerId, now: int, lease: int, tx: TxOutcome)
    : Result<Ownership, LeaseError>
  {
    var r := Acquired(row, owner, now, lease);
    if r.Ok? && !tx.TxCommitted? then Err(Unavailable) else r
  }

  // ---- What the lease means, from the row and the clock ----

  /** Somebody holds the row at an instant: its expiry can be read and is later. */
  predicate HeldBy(row: Option<Row>, holder: string, now: int) {
    row.Some? && row.value.ownerId == holder && row.value.expiresAt.At? && now < row.value.expiresAt.instant
  }

  /** The token an owner gets: its own again while it holds the row, else the
      next one after whatever is stored. */
  function DueToken(row: Option<Row>, owner: OwnerId, now: int): int {
    if HeldBy(row, owner, now) then row.value.token
    else if row.Some? then row.value.token + 1
    else 1
  }

  /** Acquiring is refused exactly when a named other owner holds the row; what
      is granted starts now, lasts the lease, and keeps the token and the start
      of a holding it renews. */
  lemma AcquiredByRow(row: Option<Row>, owner: OwnerId, now: int, lease: int)
    ensures var r := Acquired(row, owner, now, lease);
            && (r.Err? <==> exists other: string :: other != "" && other != owner && HeldBy(row, other, now))
            && (r.Err? ==> r.error == Held)
            && (r.Ok? ==>
                  && r.value.ownerId == owner && r.value.token == DueToken(row, owner, now)
                  && r.value.heartbeatAt == now && r.value.expiresAt == now + lease
                  && r.value.acquiredAt == if HeldBy(row, owner, now) then row.value.acquiredAt else now)
  {
    if Acquired(row, owner, now, lease).Err? {
      assert HeldBy(row, row.value.ownerId, now);
    }
  }

  /** How the transaction's end shows: the row has what was granted unless it
      rolled back, and the caller has it only if it committed. */
  lemma AcquireByOutcome(row: Option<Row>, owner: OwnerId, now: int, lease: int)
    ensures var r := Acquired(row, owner, now, lease);
            && (r.Ok? ==>
                  var granted := Some(Row(owner, r.value.token, r.value.acquiredAt, now, At(now + lease)));
                  && RowAfter(row, owner, now, lease, TxCommitted) == granted
                  && RowAfter(row, owner, now, lease, TxAmbiguous) == granted
                  && RowAfter(row, owner, now, lease, TxRolledBack) == row
                  && AcquireReply(row, owner, now, lease, TxCommitted) == r
                  && AcquireReply(row, owner, now, lease, TxAmbiguous) == Err(Unavailable)
                  && AcquireReply(row, owner, now, lease, TxRolledBack) == Err(Unavailable))
            && (r.Err? ==> forall tx ::
                  RowAfter(row, owner, now, lease, tx) == row && AcquireReply(row, owner, now, lease, tx) == r)
  {
  }

  /** An ownership is valid exactly while the row has its owner and token and
      its lease lasts; otherwise the first thing missing is the reason. */
  lemma ValidatedByRow(row: Option<Row>, o: Ownership, now: int)
    ensures var r := Validated(row, o, now);
            && (r.Ok? <==> HeldBy(row, o.ownerId, now) && row.value.token == o.token)
            && (row.None? ==> r == Err(MissingAuthority))
            && (row.Some? && (row.value.ownerId != o.ownerId || row.value.token != o.token) ==> r == Err(Superseded))
            && (row.Some? && row.value.ownerId == o.ownerId && row.value.token == o.token ==>
                  && (!row.value.expiresAt.At? ==> r == Err(InvalidLease))
                  && (row.value.expiresAt.At? && row.value.expiresAt.instant <= now ==> r == Err(Expired)))
  {
  }

  /** A published ownership holds from now until it expires, and one that has
      expired withdraws the readiness. */
  lemma PublishedByClock(local: Local, o: Ownership, now: int, t: int)
    ensures var after := Published(local, o, now);
            && after.client == Some(o)
            && (after.Holds(t) <==> now < o.expiresAt && t < o.expiresAt)
            && (o.expiresAt <= now ==> !after.valid && after.expiresAt.None?)
  {
  }

  /** The database row. */
  class LeaseTable {
    var row: Option<Row>

    constructor ()
      ensures row == None
    {
      row := None;
    }

    /** `acquire_execution_ownership`: an unavailable authority changes
        nothing; otherwise the row is overwritten unless another owner's
        lease is still live. */
    method Acquire(available: bool, owner: OwnerId, now: int, lease: int, tx: TxOutcome)
      returns (r: Result<Ownership, LeaseError>)
      modifies this
      ensures !available ==> r == Err(Unavailable) && row == old(row)
      ensures available ==> r == AcquireReply(old(row), owner, now, lease, tx)
      ensures available ==> row == RowAfter(old(row), owner, now, lease, tx)
    {
      if !available {
        return Err(Unavailable);
      }
      var oldOwner, oldToken := "", 0;
      var live := false;
      if row.Some? {
        oldOwner, oldToken := row.value.ownerId, row.value.token;
        if row.value.expiresAt.At? {
          live := row.value.expiresAt.instant > now;
        }
      }
      if live && oldOwner != "" && oldOwner != owner {
        return Err(Held);
      }
      var token := if live && oldOwner == owner then oldToken else oldToken + 1;
      var acquired := if live && oldOwner == owner then row.value.acquiredAt else now;
      var state := Ownership(owner, token, acquired, now, now + lease);
      if tx.TxRolledBack? {
        return Err(Unavailable);
      }
      row := Some(StoredRow(state));
      r := if tx.TxCommitted? then Ok(state) else Err(Unavailable);
    }
  }

  /** One engine's view of the lease. */
  class Engine {
    var valid: bool
    var expiresAt: Option<int>
    var client: Option<Ownership>

    constructor ()
      ensures View() == NO_LEASE
    {
      valid, expiresAt, client := false, None, None;
    }

    ghost function View(): Local
      reads this
    {
      Local(valid, expiresAt, client)
    }

    method Invalidate()
      modifies this
      ensures View() == Invalidated(old(View()))
    {
      valid, expiresAt := false, None;
    }

    /** The end of a renewal: the validated ownership reaches the client and,
        unless it has already run out, the readiness bit. */
    method Publish(o: Ownership, now: int)
      modifies this
      ensures View() == Published(old(View()), o, now)
    {
      client := Some(o);
      if o.expiresAt - now <= 0 {
        Invalidate();
      } else {
        expiresAt, valid := Some(o.expiresAt), true;
      }
    }
  }

  /** What one heartbeat meets: the clock readings of its three stages, the
      row as other owners left it before the transaction and before the
      validation read, and how the transaction ended. */
  datatype Beat = Beat(
    sampled: int, rowAtLock: Option<Row>, available: bool, tx: TxOutcome,
    rowAtCheck: Option<Row>, checked: int, published: int)

  /** One pass of the heartbeat loop; any exception invalidates. */
  function AfterBeat(local: Local, owner: OwnerId, lease: int, b: Beat): Local {
    var reply := if b.available then AcquireReply(b.rowAtLock, owner, b.sampled, lease, b.tx) else Err(Unavailable);
    if reply.Err? then Invalidated(local)
    else if Validated(b.rowAtCheck, reply.value, b.checked).Err? then Invalidated(local)
    else Published(local, reply.value, b.published)
  }

  function AfterBeats(local: Local, owner: OwnerId, lease: int, beats: seq<Beat>): Local {
    if |beats| == 0 then local
    else AfterBeat(AfterBeats(local, owner, lease, beats[..|beats| - 1]), owner, lease, beats[|beats| - 1])
  }

  /** `execution_ownership_heartbeat` while the engine runs. */
  method Heartbeat(engine: Engine, owner: OwnerId, lease: int, beats: seq<Beat>)
    modifies engine
    ensures engine.View() == AfterBeats(old(engine.View()), owner, lease, beats)
  {
    var k := 0;
    while k < |beats|
      invariant 0 <= k <= |beats|
      invariant engine.View() == AfterBeats(old(engine.View()), owner, lease, beats[..k])
    {
      var b := beats[k];
      assert beats[..k + 1][..k] == beats[..k];
      var table := new LeaseTable();
      table.row := b.rowAtLock;
      var reply := table.Acquire(b.available, owner, b.sampled, lease, b.tx);
      if reply.Err? || Validated(b.rowAtCheck, reply.value, b.checked).Err? {
        engine.Invalidate();
      } else {
        engine.Publish(reply.value, b.published);
      }
      k := k + 1;
    }
    assert beats[..k] == beats;
  }

  /** A heartbeat leaves the engine ready exactly when its transaction was
      available, committed and not refused, the row still had the granted owner
      and token at the check, live, and the lease lasts beyond the publication. */
  lemma BeatByInputs(local: Local, owner: OwnerId, lease: int, b: Beat)
    ensures var after := AfterBeat(local, owner, lease, b);
            && (after.valid <==>
                  && b.available && b.tx == TxCommitted
                  && (forall other: string :: other != "" && other != owner ==> !HeldBy(b.rowAtLock, other, b.sampled))
                  && HeldBy(b.rowAtCheck, owner, b.checked)
                  && b.rowAtCheck.value.token == DueToken(b.rowAtLock, owner, b.sampled)
                  && b.published < b.sampled + lease)
            && (after.valid ==> after.expiresAt == Some(b.sampled + lease))
            && (!after.valid ==> after.expiresAt.None?)
  {
    AcquiredByRow(b.rowAtLock, owner, b.sampled, lease);
    var r := Acquired(b.rowAtLock, owner, b.sampled, lease);
    AcquireByOutcome(b.rowAtLock, owner, b.sampled, lease);
    if r.Ok? {
      ValidatedByRow(b.rowAtCheck, r.value, b.checked);
      PublishedByClock(local, r.value, b.published, b.published);
    }
  }

  /** Whatever the heartbeats met, an engine that says it holds the lease
      published, in its last heartbeat, an ownership whose row it had just
      seen carried, live at the check, and not yet run out when published. */
  lemma HeartbeatEvidence(local: Local, owner: OwnerId, lease: int, beats: seq<Beat>)
    requires |beats| > 0
    ensures var b := beats[|beats| - 1];
            var after := AfterBeats(local, owner, lease, beats);
            after.valid ==>
              && after.client.Some? && after.client.value.ownerId == owner
              && after.client.value.heartbeatAt == b.sampled
              && after.expiresAt == Some(b.sampled + lease)
              && b.sampled + lease > b.published
              && Carries(b.rowAtCheck, after.client.value)
              && Live(b.rowAtCheck, b.checked)
  {
    var b := beats[|beats| - 1];
    assert AfterBeats(local, owner, lease, beats) ==
           AfterBeat(AfterBeats(local, owner, lease, beats[..|beats| - 1]), owner, lease, b);
  }
}

/**
 The durable ownership rows of the automation loops.

 Replicas compete for one row per loop.  Each of the source's transactions locks the row it
 changes, so it is one atomic step here, with the time `now` it read.
 */
module LeaseTable {
  import opened Options

  type Owner = string
  type Loop = string

  /** A row of automation_leases. */
  datatype Row = Row(
    ownerId: Option<Owner>,
    ownerStartedAt: Option<real>,
    leaseExpiresAt: Option<real>,
    lastHeartbeatAt: Option<real>,
    lastOkAt: Option<real>,
    lastError: Option<string>,
    tickCount: int,
    workCount: int)

  type Rows = map<Loop, Row>

  /** The row as the migration inserts it. */
  const FRESH: Row := Row(None, None, None, None, None, None, 0, 0)

  function Until(now: real, leaseSeconds: int): real {
    now + leaseSeconds as real
  }

  /** The row is owned by `owner` and its lease has not run out. */
  predicate OwnedLive(row: Row, owner: Owner, now: real) {
    row.ownerId == Some(owner) && row.leaseExpiresAt.Some? && row.leaseExpiresAt.value > now
  }

  /** Somebody else is in the way of a claim.  An empty owner id counts as no owner. */
  predicate Blocked(row: Row, owner: Owner, now: real) {
    && row.ownerId.Some? && row.ownerId.value != ""
    && row.ownerId.value != owner
    && row.leaseExpiresAt.Some? && row.leaseExpiresAt.value > now
  }

  function ClaimedRow(row: Row, owner: Owner, leaseSeconds: int, now: real): Row {
    row.(ownerStartedAt := if row.ownerId != Some(owner) then Some(now) else row.ownerStartedAt,
         ownerId := Some(owner),
         lastHeartbeatAt := Some(now),
         leaseExpiresAt := Some(Until(now, leaseSeconds)))
  }

  function RenewedRow(row: Row, leaseSeconds: int, now: real): Row {
    row.(lastHeartbeatAt := Some(now), leaseExpiresAt := Some(Until(now, leaseSeconds)))
  }

  function SucceededRow(row: Row, leaseSeconds: int, work: int, now: real): Row {
    RenewedRow(row, leaseSeconds, now).(lastOkAt := Some(now), lastError := None,
      tickCount := row.tickCount + 1, workCount := row.workCount + work)
  }

  function FailedRow(row: Row, leaseSeconds: int, error: string, now: real): Row {
    RenewedRow(row, leaseSeconds, now).(lastError := Some(error))
  }

  function ReleasedRow(row: Row, now: real): Row {
    row.(ownerId := None, ownerStartedAt := None, leaseExpiresAt := None, lastHeartbeatAt := Some(now))
  }

  function ReleasedRows(rows: Rows, owner: Owner, now: real): Rows {
    map loop | loop in rows :: if OwnedLive(rows[loop], owner, now) then ReleasedRow(rows[loop], now) else rows[loop]
  }

  // ----- Steps ------------------------------------------------------------------------------

  datatype Step =
    | Claim(owner: Owner, loop: Loop, lease: int, at: real)
    | Renew(owner: Owner, loop: Loop, lease: int, at: real)
    | Success(owner: Owner, loop: Loop, lease: int, work: int, at: real)
    | Failure(owner: Owner, loop: Loop, lease: int, error: string, at: real)
    | Release(owner: Owner, at: real)

  /** Whether a step on a loop takes or extends the lease. */
  predicate Granted(rows: Rows, step: Step)
    requires !step.Release?
  {
    step.loop in rows &&
    if step.Claim? then !Blocked(rows[step.loop], step.owner, step.at)
    else OwnedLive(rows[step.loop], step.owner, step.at)
  }

  function Apply(rows: Rows, step: Step): (r: Rows)
    ensures r.Keys == rows.Keys
  {
    if step.Release? then ReleasedRows(rows, step.owner, step.at)
    else if !Granted(rows, step) then rows
    else
      var row := rows[step.loop];
      rows[step.loop :=
        match step
        case Claim(owner, _, lease, at) => ClaimedRow(row, owner, lease, at)
        case Renew(_, _, lease, at) => RenewedRow(row, lease, at)
        case Success(_, _, lease, work, at) => SucceededRow(row, lease, work, at)
        case Failure(_, _, lease, error, at) => FailedRow(row, lease, error, at)]
  }

  // ----- The table --------------------------------------------------------------------------

  /** The source's five transactions on the table; each is one of the steps above. */
  class AutomationLeases {
    var rows: Rows

    constructor (loops: set<Loop>)
      ensures rows == map loop | loop in loops :: FRESH
    {
      rows := map loop | loop in loops :: FRESH;
    }

    method TryClaim(loop: Loop, owner: Owner, leaseSeconds: int, now: real) returns (r: Result<bool, string>)
      modifies this
      ensures rows == Apply(old(rows), Claim(owner, loop, leaseSeconds, now))
      ensures r.Err? <==> loop !in old(rows)
      ensures r.Ok? ==> (r.value <==> Granted(old(rows), Claim(owner, loop, leaseSeconds, now)))
    {
      if loop !in rows {
        return Err("automation loop missing from automation_leases");
      }
      var row := rows[loop];
      if row.ownerId.Some? && row.ownerId.value != "" && row.ownerId.value != owner
         && row.leaseExpiresAt.Some? && row.leaseExpiresAt.value > now {
        return Ok(false);
      }
      if row.ownerId != Some(owner) {
        row := row.(ownerStartedAt := Some(now));
      }
      row := row.(ownerId := Some(owner));
      row := row.(lastHeartbeatAt := Some(now));
      row := row.(leaseExpiresAt := Some(now + leaseSeconds as real));
      rows := rows[loop := row];
      return Ok(true);
    }

    method RenewOwned(loop: Loop, owner: Owner, leaseSeconds: int, now: real) returns (renewed: bool)
      modifies this
      ensures rows == Apply(old(rows), Renew(owner, loop, leaseSeconds, now))
      ensures renewed <==> Granted(old(rows), Renew(owner, loop, leaseSeconds, now))
    {
      if loop !in rows || rows[loop].ownerId != Some(owner) || rows[loop].leaseExpiresAt == None
         || rows[loop].leaseExpiresAt.value <= now {
        return false;
      }
      var row := rows[loop].(lastHeartbeatAt := Some(now));
      row := row.(leaseExpiresAt := Some(now + leaseSeconds as real));
      rows := rows[loop := row];
      return true;
    }

    method ReleaseOwned(owner: Owner, now: real)
      modifies this
      ensures rows == Apply(old(rows), Release(owner, now))
    {
      rows := map loop | loop in rows ::
        if rows[loop].ownerId == Some(owner) && rows[loop].leaseExpiresAt != None && rows[loop].leaseExpiresAt.value > now
        then rows[loop].(ownerId := None, ownerStartedAt := None, leaseExpiresAt := None, lastHeartbeatAt := Some(now))
        else rows[loop];
    }

    method RecordSuccess(loop: Loop, owner: Owner, leaseSeconds: int, work: int, now: real)
      modifies this
      ensures rows == Apply(old(rows), Success(owner, loop, leaseSeconds, work, now))
    {
      if loop in rows && rows[loop].ownerId == Some(owner) && rows[loop].leaseExpiresAt != None
         && rows[loop].leaseExpiresAt.value > now {
        var row := rows[loop].(lastHeartbeatAt := Some(now));
        row := row.(leaseExpiresAt := Some(now + leaseSeconds as real));
        row := row.(lastOkAt := Some(now), lastError := None);
        row := row.(tickCount := row.tickCount + 1, workCount := row.workCount + work);
        rows := rows[loop := row];
      }
    }

    method RecordError(loop: Loop, owner: Owner, leaseSeconds: int, error: string, now: real)
      modifies this
      ensures rows == Apply(old(rows), Failure(owner, loop, leaseSeconds, error, now))
    {
      if loop in rows && rows[loop].ownerId == Some(owner) && rows[loop].leaseExpiresAt != None
         && rows[loop].leaseExpiresAt.value > now {
        var row := rows[loop].(lastHeartbeatAt := Some(now));
        row := row.(leaseExpiresAt := Some(now + leaseSeconds as real));
        row := row.(lastError := Some(error));
        rows := rows[loop := row];
      }
    }
  }

  /** The release of one owner clears exactly its live leases: every other row stays as it was. */
  lemma ReleaseClearsExactlyOwnLive(rows: Rows, owner: Owner, now: real, loop: Loop)
    requires loop in rows
    ensures
      var after := Apply(rows, Release(owner, now));
      && (OwnedLive(rows[loop], owner, now) ==>
            after[loop].ownerId == None && after[loop].leaseExpiresAt == None && after[loop].ownerStartedAt == None
            && after[loop].tickCount == rows[loop].tickCount && after[loop].workCount == rows[loop].workCount)
      && (!OwnedLive(rows[loop], owner, now) ==> after[loop] == rows[loop])
      && !OwnedLive(after[loop], owner, now)
  {
  }
}

/**
 PostgresRateLimiter: the same policy, as one atomic upsert on a table that every replica and
 both limit tiers share, with batched cleanup of expired rows.

 Each statement is one atomic step and reads the database clock once.  A run interleaves the
 steps of any number of replicas; database times do not go back from one step to the next.
 */
module PostgresLimiter {
  import opened Options
  import opened FixedWindow
  import InMemoryLimiter

  datatype Row = Row(windowStartedAt: real, expiresAt: real, count: int, updatedAt: real)

  type Rows = map<Key, Row>

  // ----- The statements ---------------------------------------------------------------------

  /** The row the upsert leaves: inserted, restarted when expired, or counted up. */
  function UpsertedRow(rows: Rows, windowSeconds: real, key: Key, now: real): Row {
    var excluded := Row(now, now + windowSeconds, 1, now);
    if key !in rows then excluded
    else
      var rl := rows[key];
      Row(if rl.expiresAt <= excluded.updatedAt then excluded.windowStartedAt else rl.windowStartedAt,
          if rl.expiresAt <= excluded.updatedAt then excluded.expiresAt else rl.expiresAt,
          if rl.expiresAt <= excluded.updatedAt then 1 else rl.count + 1,
          excluded.updatedAt)
  }

  /** What the limiter makes of the returned row. */
  function RowAnswer(l: Limits, row: Row): Answer {
    var remaining := row.expiresAt - row.updatedAt;
    var retryAfter := if remaining < 0.0 then 0.0 else remaining;
    if row.count <= l.maxRequests then Answer(true, 0.0) else Answer(false, retryAfter)
  }

  function Expired(rows: Rows, now: real): set<Key> {
    set key | key in rows && rows[key].expiresAt <= now
  }

  /** The rows one cleanup statement may pick: expired ones, oldest expiry first, up to the batch. */
  predicate Doomed(rows: Rows, now: real, batchSize: int, doomed: set<Key>) {
    && doomed <= Expired(rows, now)
    && (|doomed| == batchSize || (|doomed| < batchSize && doomed == Expired(rows, now)))
    && forall d, k :: d in doomed && k in Expired(rows, now) && k !in doomed ==> rows[d].expiresAt <= rows[k].expiresAt
  }

  /** There is a row of least expiry among any non-empty set of rows. */
  lemma {:induction false} EarliestExists(rows: Rows, keys: set<Key>) returns (e: Key)
    requires keys <= rows.Keys && keys != {}
    ensures e in keys && forall k :: k in keys ==> rows[e].expiresAt <= rows[k].expiresAt
    decreases |keys|
  {
    var some :| some in keys;
    var rest := keys - {some};
    assert forall k :: k in keys ==> k == some || k in rest;
    e := some;
    if rest != {} {
      var least := EarliestExists(rows, rest);
      if rows[least].expiresAt < rows[some].expiresAt {
        e := least;
      }
    }
  }

  /** A batch can always be chosen, whatever ties there are. */
  lemma {:induction false} BatchExists(rows: Rows, now: real, batchSize: int) returns (doomed: set<Key>)
    requires batchSize >= 0
    ensures Doomed(rows, now, batchSize, doomed)
    decreases batchSize
  {
    if batchSize == 0 {
      doomed := {};
    } else {
      doomed := BatchExists(rows, now, batchSize - 1);
      var left := Expired(rows, now) - doomed;
      if |doomed| == batchSize - 1 && left != {} {
        var e := EarliestExists(rows, left);
        doomed := doomed + {e};
      } else if left == {} {
        assert doomed == Expired(rows, now);
      }
    }
  }

  /** What several cleanups at one time leave. */
  function Cleaned(rows: Rows, batches: seq<set<Key>>): Rows
    decreases |batches|
  {
    if batches == [] then rows else Cleaned(rows - batches[0], batches[1..])
  }

  /** Each batch is one a cleanup may pick from what the batches before it left. */
  predicate AllDoomed(rows: Rows, now: real, batchSize: int, batches: seq<set<Key>>)
    decreases |batches|
  {
    batches == [] || (Doomed(rows, now, batchSize, batches[0]) && AllDoomed(rows - batches[0], now, batchSize, batches[1..]))
  }

  lemma OneBatch(rows: Rows, now: real, batchSize: int, doomed: set<Key>)
    requires batchSize >= 1 && Doomed(rows, now, batchSize, doomed)
    ensures Expired(rows - doomed, now) == Expired(rows, now) - doomed
    ensures |Expired(rows - doomed, now)| == if |Expired(rows, now)| <= batchSize then 0 else |Expired(rows, now)| - batchSize
    ensures forall key :: key in rows && key !in Expired(rows, now) ==> key in rows - doomed
  {
    var expired := Expired(rows, now);
    assert Expired(rows - doomed, now) == expired - doomed;
    assert expired == doomed + (expired - doomed);
    assert |expired| == |doomed| + |expired - doomed|;
  }

  /**
   Cleanups delete only expired rows, and as many as their batches hold: once the batches can hold all
   the expired rows there were, none is left.
   */
  lemma {:induction false} CleanupsDrain(rows: Rows, now: real, batchSize: int, batches: seq<set<Key>>)
    requires batchSize >= 1 && AllDoomed(rows, now, batchSize, batches)
    ensures |Expired(rows, now)| <= |batches| * batchSize ==> Expired(Cleaned(rows, batches), now) == {}
    ensures forall key :: key in rows && key !in Expired(rows, now) ==>
              key in Cleaned(rows, batches) && Cleaned(rows, batches)[key] == rows[key]
    decreases |batches|
  {
    if batches != [] {
      OneBatch(rows, now, batchSize, batches[0]);
      CleanupsDrain(rows - batches[0], now, batchSize, batches[1..]);
      assert |batches| * batchSize == |batches[1..]| * batchSize + batchSize;
    }
  }

  // ----- The objects ------------------------------------------------------------------------

  /** The request_rate_limits table. */
  class RateLimitTable {
    var rows: Rows

    constructor ()
      ensures rows == map[]
    {
      rows := map[];
    }

    method Upsert(key: Key, windowSeconds: real, now: real) returns (row: Row)
      modifies this
      ensures row == UpsertedRow(old(rows), windowSeconds, key, now)
      ensures rows == old(rows)[key := row]
    {
      row := UpsertedRow(rows, windowSeconds, key, now);
      rows := rows[key := row];
    }

    method Cleanup(batchSize: int, now: real) returns (ghost doomed: set<Key>)
      requires batchSize >= 1
      modifies this
      ensures Doomed(old(rows), now, batchSize, doomed)
      ensures rows == old(rows) - doomed
    {
      ghost var witness' := BatchExists(rows, now, batchSize);
      var chosen: set<Key> :| chosen <= rows.Keys && Doomed(rows, now, batchSize, chosen);
      doomed := chosen;
      rows := rows - chosen;
    }
  }

  class PostgresRateLimiter {
    const limits: Limits
    const table: RateLimitTable
    const cleanupIntervalSeconds: real
    const cleanupBatchSize: int
    var nextCleanupAt: real

    constructor (limits: Limits, table: RateLimitTable, cleanupInterval: Option<real>, batchSize: int, now: real)
      requires cleanupInterval.Some? ==> cleanupInterval.value > 0.0
      requires batchSize >= 1
      ensures this.limits == limits && this.table == table && this.cleanupBatchSize == batchSize
      ensures cleanupIntervalSeconds == if cleanupInterval.Some? then cleanupInterval.value else limits.windowSeconds
      ensures nextCleanupAt == now + cleanupIntervalSeconds
    {
      this.limits := limits;
      this.table := table;
      this.cleanupBatchSize := batchSize;
      var interval := if cleanupInterval.Some? then cleanupInterval.value else limits.windowSeconds;
      this.cleanupIntervalSeconds := interval;
      this.nextCleanupAt := now + interval;
    }

    /**
     One transaction: the upsert at database time `dbNow`, then, when the process clock `now` says
     a cleanup is due and the advisory lock is granted, one cleanup at `cleanupNow`.
     */
    method Check(key: Key, now: real, dbNow: real, lockGranted: bool, cleanupNow: real)
      returns (allowed: bool, retryAfter: real, ghost doomed: Option<set<Key>>)
      requires cleanupBatchSize >= 1
      modifies this, table
      ensures Answer(allowed, retryAfter)
              == RowAnswer(limits, UpsertedRow(old(table.rows), limits.windowSeconds, key, dbNow))
      ensures table.rows == RowsFrom(old(table.rows), CallSteps(key, limits.windowSeconds, dbNow, doomed, cleanupNow))
      ensures doomed.Some? <==> old(nextCleanupAt) <= now && lockGranted
      ensures doomed.Some? ==>
                Doomed(old(table.rows)[key := UpsertedRow(old(table.rows), limits.windowSeconds, key, dbNow)],
                       cleanupNow, cleanupBatchSize, doomed.value)
      ensures nextCleanupAt ==
              if now < old(nextCleanupAt) then old(nextCleanupAt)
              else if lockGranted then now + cleanupIntervalSeconds
              else now + (if cleanupIntervalSeconds < 1.0 then cleanupIntervalSeconds else 1.0)
    {
      var row := table.Upsert(key, limits.windowSeconds, dbNow);
      doomed := None;
      if now >= nextCleanupAt {
        if lockGranted {
          ghost var deleted := table.Cleanup(cleanupBatchSize, cleanupNow);
          doomed := Some(deleted);
          nextCleanupAt := now + cleanupIntervalSeconds;
        } else {
          nextCleanupAt := now + (if cleanupIntervalSeconds < 1.0 then cleanupIntervalSeconds else 1.0);
        }
      }
      RowsOfCall(old(table.rows), key, limits.windowSeconds, dbNow, doomed, cleanupNow);
      var remaining := row.expiresAt - row.updatedAt;
      retryAfter := if remaining < 0.0 then 0.0 else remaining;
      allowed := row.count <= limits.maxRequests;
      if allowed {
        retryAfter := 0.0;
      }
    }
  }

  /** The checked construction: every parameter the source rejects is an error here. */
  method NewPostgresRateLimiter(maxRequests: int, windowSeconds: real, table: RateLimitTable,
                                cleanupInterval: Option<real>, batchSize: int, now: real)
    returns (r: Result<PostgresRateLimiter, string>)
    ensures r.Ok? <==> maxRequests >= 1 && windowSeconds > 0.0
                       && (cleanupInterval.Some? ==> cleanupInterval.value > 0.0) && batchSize >= 1
    ensures r.Ok? ==> fresh(r.value) && r.value.limits == RawLimits(maxRequests, windowSeconds) && r.value.table == table
    ensures r.Ok? ==> r.value.cleanupBatchSize == batchSize
    ensures r.Ok? ==>
              (r.value.nextCleanupAt == now + if cleanupInterval.Some? then cleanupInterval.value else windowSeconds)
  {
    if maxRequests < 1 {
      return Err("max_requests must be >= 1");
    }
    if windowSeconds <= 0.0 {
      return Err("window_seconds must be > 0");
    }
    if cleanupInterval.Some? && cleanupInterval.value <= 0.0 {
      return Err("cleanup_interval_seconds must be > 0");
    }
    if batchSize < 1 {
      return Err("cleanup_batch_size must be >= 1");
    }
    var limits: Limits := RawLimits(maxRequests, windowSeconds);
    var limiter := new PostgresRateLimiter(limits, table, cleanupInterval, batchSize, now);
    return Ok(limiter);
  }

  // ----- Runs -------------------------------------------------------------------------------

  /** The limit tiers name their keys `tier:client`. */
  predicate InTier(tier: string, key: Key) {
    tier + ":" <= key
  }

  datatype Step =
    | Upsert(key: Key, windowSeconds: real, at: real)
    | Cleanup(doomed: set<Key>, at: real)

  function Apply(rows: Rows, step: Step): Rows {
    match step
    case Upsert(key, windowSeconds, at) => rows[key := UpsertedRow(rows, windowSeconds, key, at)]
    case Cleanup(doomed, _) => rows - doomed
  }

  /** The steps of one call: its upsert, and its cleanup if it came to one. */
  function CallSteps(key: Key, windowSeconds: real, dbNow: real, doomed: Option<set<Key>>, cleanupNow: real): seq<Step> {
    [Upsert(key, windowSeconds, dbNow)] + if doomed.Some? then [Cleanup(doomed.value, cleanupNow)] else []
  }

  function RowsFrom(rows: Rows, steps: seq<Step>): Rows
    decreases |steps|
  {
    if steps == [] then rows else RowsFrom(Apply(rows, steps[0]), steps[1..])
  }

  lemma RowsOfCall(rows: Rows, key: Key, windowSeconds: real, dbNow: real, doomed: Option<set<Key>>, cleanupNow: real)
    ensures
      var upserted := Apply(rows, Upsert(key, windowSeconds, dbNow));
      RowsFrom(rows, CallSteps(key, windowSeconds, dbNow, doomed, cleanupNow))
      == if doomed.Some? then Apply(upserted, Cleanup(doomed.value, cleanupNow)) else upserted
  {
    var steps := CallSteps(key, windowSeconds, dbNow, doomed, cleanupNow);
    var upserted := Apply(rows, Upsert(key, windowSeconds, dbNow));
    assert steps[0] == Upsert(key, windowSeconds, dbNow);
    assert RowsFrom(rows, steps) == RowsFrom(upserted, steps[1..]);
    if doomed.Some? {
      var cleanup := Cleanup(doomed.value, cleanupNow);
      assert steps[1..] == [cleanup] && [cleanup][1..] == [];
      assert RowsFrom(upserted, [cleanup]) == RowsFrom(Apply(upserted, cleanup), []);
    } else {
      assert steps[1..] == [];
    }
  }

  function RowsAfter(steps: seq<Step>): Rows {
    if steps == [] then map[]
    else Apply(RowsAfter(steps[..|steps| - 1]), steps[|steps| - 1])
  }

  /**
   A run of the table: times do not go back, a cleanup deletes only rows that have expired, and
   the limiters of the tier all use its window.  Other tiers may use any window.
   */
  predicate PgTrace(tier: string, l: Limits, steps: seq<Step>) {
    steps == [] ||
    var before, step := steps[..|steps| - 1], steps[|steps| - 1];
    && PgTrace(tier, l, before)
    && (before != [] ==> before[|before| - 1].at <= step.at)
    && (step.Upsert? && InTier(tier, step.key) ==> step.windowSeconds == l.windowSeconds)
    && (step.Cleanup? ==> step.doomed <= Expired(RowsAfter(before), step.at))
  }

  /** The answers the tier's limiters gave, in order. */
  function TierLog(tier: string, l: Limits, steps: seq<Step>): Log {
    if steps == [] then []
    else
      var before, step := steps[..|steps| - 1], steps[|steps| - 1];
      var log := TierLog(tier, l, before);
      if step.Upsert? && InTier(tier, step.key)
      then log + [Served(step.key, step.at,
                         RowAnswer(l, UpsertedRow(RowsAfter(before), step.windowSeconds, step.key, step.at)))]
      else log
  }

  lemma {:induction false} TierLogServes(tier: string, l: Limits, steps: seq<Step>)
    ensures forall e :: e in TierLog(tier, l, steps) ==> e.Served? && InTier(tier, e.key)
  {
    if steps != [] {
      TierLogServes(tier, l, steps[..|steps| - 1]);
    }
  }

  lemma NeverLogsEvictions(tier: string, l: Limits, steps: seq<Step>, key: Key)
    ensures NeverEvicted(TierLog(tier, l, steps), key)
  {
    var log := TierLog(tier, l, steps);
    TierLogServes(tier, l, steps);
    assert forall i :: 0 <= i < |log| ==> log[i] in log;
  }

  /** The two tiers sharing the table never write each other's rows. */
  lemma TiersAreDisjoint(key: Key)
    ensures !(InTier("auth", key) && InTier("global", key))
  {
    if InTier("auth", key) {
      TierStartsKey("auth", key);
    }
    if InTier("global", key) {
      TierStartsKey("global", key);
    }
  }

  lemma TierStartsKey(tier: string, key: Key)
    requires tier != "" && InTier(tier, key)
    ensures key != "" && key[0] == tier[0]
  {
    assert (tier + ":")[0] == tier[0];
  }

  // ----- Conformance ------------------------------------------------------------------------

  function Min(a: int, b: int): int {
    if a <= b then a else b
  }

  /** The row and the policy's window of `key` say the same from `now` on. */
  predicate RowAgrees(l: Limits, rows: Rows, st: Option<Window>, key: Key, now: real) {
    && (st.Some? && Live(l, st.value, now) ==>
          && key in rows
          && rows[key].windowStartedAt == st.value.startedAt
          && rows[key].expiresAt == st.value.startedAt + l.windowSeconds
          && Min(rows[key].count, l.maxRequests) == st.value.count)
    && (key in rows && rows[key].expiresAt > now ==> st.Some? && Live(l, st.value, now))
  }

  lemma UpsertConforms(l: Limits, rows: Rows, st: Option<Window>, key: Key, now: real)
    requires RowAgrees(l, rows, st, key, now)
    ensures RowAnswer(l, UpsertedRow(rows, l.windowSeconds, key, now)) == Respond(l, st, now)
    ensures RowAgrees(l, rows[key := UpsertedRow(rows, l.windowSeconds, key, now)], Some(NextWindow(l, st, now)), key, now)
  {
  }

  lemma CleanupAgrees(l: Limits, rows: Rows, doomed: set<Key>, st: Option<Window>, key: Key, now: real)
    requires RowAgrees(l, rows, st, key, now) && doomed <= Expired(rows, now)
    ensures RowAgrees(l, Apply(rows, Cleanup(doomed, now)), st, key, now)
  {
  }

  lemma RowAgreesLater(l: Limits, rows: Rows, st: Option<Window>, key: Key, now: real, later: real)
    requires RowAgrees(l, rows, st, key, now) && now <= later
    ensures RowAgrees(l, rows, st, key, later)
  {
  }

  /** What one more step adds to the log of a tier. */
  function StepLog(tier: string, l: Limits, rows: Rows, step: Step): Log {
    if step.Upsert? && InTier(tier, step.key)
    then [Served(step.key, step.at, RowAnswer(l, UpsertedRow(rows, step.windowSeconds, step.key, step.at)))]
    else []
  }

  lemma TierLogSnoc(tier: string, l: Limits, steps: seq<Step>)
    requires steps != []
    ensures TierLog(tier, l, steps) == TierLog(tier, l, steps[..|steps| - 1])
                                       + StepLog(tier, l, RowsAfter(steps[..|steps| - 1]), steps[|steps| - 1])
  {
  }

  lemma StepAgrees(tier: string, l: Limits, rows: Rows, log: Log, step: Step, key: Key)
    requires InTier(tier, key) && RowAgrees(l, rows, KeyState(l, log, key), key, step.at)
    requires step.Upsert? && InTier(tier, step.key) ==> step.windowSeconds == l.windowSeconds
    requires step.Cleanup? ==> step.doomed <= Expired(rows, step.at)
    ensures RowAgrees(l, Apply(rows, step), KeyState(l, log + StepLog(tier, l, rows, step), key), key, step.at)
  {
    var more := StepLog(tier, l, rows, step);
    if step.Cleanup? {
      assert log + more == log;
      CleanupAgrees(l, rows, step.doomed, KeyState(l, log, key), key, step.at);
    } else if InTier(tier, step.key) {
      KeyStateSnoc(l, log, more[0], key);
      if key == step.key {
        UpsertConforms(l, rows, KeyState(l, log, key), key, step.at);
      }
    } else {
      assert log + more == log;
    }
  }

  lemma StepConforms(tier: string, l: Limits, rows: Rows, log: Log, step: Step)
    requires forall k :: InTier(tier, k) ==> RowAgrees(l, rows, KeyState(l, log, k), k, step.at)
    requires step.Upsert? && InTier(tier, step.key) ==> step.windowSeconds == l.windowSeconds
    requires Conforms(l, log)
    ensures Conforms(l, log + StepLog(tier, l, rows, step))
  {
    if step.Upsert? && InTier(tier, step.key) {
      UpsertConforms(l, rows, KeyState(l, log, step.key), step.key, step.at);
      ConformsSnoc(l, log, StepLog(tier, l, rows, step)[0]);
    } else {
      assert log + StepLog(tier, l, rows, step) == log;
    }
  }

  lemma {:induction false} TierLogOrdered(tier: string, l: Limits, steps: seq<Step>)
    requires PgTrace(tier, l, steps)
    ensures TimeOrdered(TierLog(tier, l, steps))
    ensures steps != [] ==> forall e :: e in TierLog(tier, l, steps) ==> e.at <= steps[|steps| - 1].at
  {
    if steps != [] {
      var before, step := steps[..|steps| - 1], steps[|steps| - 1];
      var log, more := TierLog(tier, l, before), StepLog(tier, l, RowsAfter(before), step);
      TierLogOrdered(tier, l, before);
      TierLogSnoc(tier, l, steps);
      var longer: Log := log + more;
      forall i, j | 0 <= i < j < |longer| ensures longer[i].at <= longer[j].at {
        assert i < |log| && log[i] in log;
      }
    }
  }

  /** What the table answers is the policy, and its rows are the policy's windows. */
  lemma {:induction false} TierConforms(tier: string, l: Limits, steps: seq<Step>)
    requires PgTrace(tier, l, steps)
    ensures Conforms(l, TierLog(tier, l, steps))
    ensures steps != [] ==> forall k :: InTier(tier, k) ==>
              RowAgrees(l, RowsAfter(steps), KeyState(l, TierLog(tier, l, steps), k), k, steps[|steps| - 1].at)
  {
    if steps != [] {
      var before, step := steps[..|steps| - 1], steps[|steps| - 1];
      var log, rows := TierLog(tier, l, before), RowsAfter(before);
      TierConforms(tier, l, before);
      TierLogSnoc(tier, l, steps);
      forall k | InTier(tier, k)
        ensures RowAgrees(l, rows, KeyState(l, log, k), k, step.at)
        ensures RowAgrees(l, Apply(rows, step), KeyState(l, log + StepLog(tier, l, rows, step), k), k, step.at)
      {
        if before != [] {
          RowAgreesLater(l, rows, KeyState(l, log, k), k, before[|before| - 1].at, step.at);
        }
        StepAgrees(tier, l, rows, log, step, k);
      }
      StepConforms(tier, l, rows, log, step);
    }
  }

  /** A longer run the theorems are about, with the given table, and one more answer in the tier's log. */
  ghost predicate ExtendsRun(tier: string, l: Limits, steps: seq<Step>, more: seq<Step>, rows: Rows, served: LogEntry) {
    && steps <= more && PgTrace(tier, l, more)
    && RowsAfter(more) == rows
    && TierLog(tier, l, more) == TierLog(tier, l, steps) + [served]
  }

  /**
   A call by any replica of the tier extends a run: the table is the one the call leaves, and the log
   has grown by exactly the answer of the call.
   */
  lemma CallExtendsRun(tier: string, l: Limits, steps: seq<Step>, key: Key, dbNow: real, doomed: Option<set<Key>>,
                       cleanupNow: real)
    requires PgTrace(tier, l, steps) && InTier(tier, key) && (steps != [] ==> steps[|steps| - 1].at <= dbNow)
    requires doomed.Some? ==> dbNow <= cleanupNow
                              && doomed.value <= Expired(Apply(RowsAfter(steps), Upsert(key, l.windowSeconds, dbNow)), cleanupNow)
    ensures
      var call, rows := CallSteps(key, l.windowSeconds, dbNow, doomed, cleanupNow), RowsAfter(steps);
      ExtendsRun(tier, l, steps, steps + call, RowsFrom(rows, call),
                 Served(key, dbNow, RowAnswer(l, UpsertedRow(rows, l.windowSeconds, key, dbNow))))
  {
    var upsert, rows := Upsert(key, l.windowSeconds, dbNow), RowsAfter(steps);
    var served := Served(key, dbNow, RowAnswer(l, UpsertedRow(rows, l.windowSeconds, key, dbNow)));
    RowsOfCall(rows, key, l.windowSeconds, dbNow, doomed, cleanupNow);
    UpsertExtendsRun(tier, l, steps, key, dbNow);
    if doomed.Some? {
      CleanupExtendsRun(tier, l, steps, steps + [upsert], Apply(rows, upsert), served, doomed.value, cleanupNow);
      assert steps + [upsert] + [Cleanup(doomed.value, cleanupNow)] == steps + ([upsert] + [Cleanup(doomed.value, cleanupNow)]);
    }
  }

  lemma UpsertExtendsRun(tier: string, l: Limits, steps: seq<Step>, key: Key, dbNow: real)
    requires PgTrace(tier, l, steps) && InTier(tier, key) && (steps != [] ==> steps[|steps| - 1].at <= dbNow)
    ensures
      var upsert, rows := Upsert(key, l.windowSeconds, dbNow), RowsAfter(steps);
      ExtendsRun(tier, l, steps, steps + [upsert], Apply(rows, upsert),
                 Served(key, dbNow, RowAnswer(l, UpsertedRow(rows, l.windowSeconds, key, dbNow))))
  {
    OneMoreStep(tier, l, steps, Upsert(key, l.windowSeconds, dbNow));
  }

  lemma CleanupExtendsRun(tier: string, l: Limits, steps: seq<Step>, more: seq<Step>, rows: Rows, served: LogEntry,
                          doomed: set<Key>, now: real)
    requires ExtendsRun(tier, l, steps, more, rows, served) && (more != [] ==> more[|more| - 1].at <= now)
    requires doomed <= Expired(rows, now)
    ensures ExtendsRun(tier, l, steps, more + [Cleanup(doomed, now)], Apply(rows, Cleanup(doomed, now)), served)
  {
    OneMoreStep(tier, l, more, Cleanup(doomed, now));
  }

  lemma OneMoreStep(tier: string, l: Limits, steps: seq<Step>, step: Step)
    requires PgTrace(tier, l, steps) && (steps != [] ==> steps[|steps| - 1].at <= step.at)
    requires step.Upsert? && InTier(tier, step.key) ==> step.windowSeconds == l.windowSeconds
    requires step.Cleanup? ==> step.doomed <= Expired(RowsAfter(steps), step.at)
    ensures PgTrace(tier, l, steps + [step])
    ensures RowsAfter(steps + [step]) == Apply(RowsAfter(steps), step)
    ensures TierLog(tier, l, steps + [step]) == TierLog(tier, l, steps) + StepLog(tier, l, RowsAfter(steps), step)
    ensures (steps + [step])[|steps|] == step
  {
    assert (steps + [step])[..|steps + [step]| - 1] == steps;
    TierLogSnoc(tier, l, steps + [step]);
  }

  // ----- Both limiters are the unbounded fixed window ---------------------------------------

  /** The database times at which a run upserted `key`. */
  function UpsertTimes(steps: seq<Step>, key: Key): seq<real> {
    if steps == [] then []
    else
      var before, step := UpsertTimes(steps[..|steps| - 1], key), steps[|steps| - 1];
      if step.Upsert? && step.key == key then before + [step.at] else before
  }

  lemma {:induction false} LoggedUpserts(tier: string, l: Limits, steps: seq<Step>, key: Key)
    requires InTier(tier, key)
    ensures TimesOf(TierLog(tier, l, steps), key) == UpsertTimes(steps, key)
  {
    if steps != [] {
      var before, step := steps[..|steps| - 1], steps[|steps| - 1];
      LoggedUpserts(tier, l, before, key);
      if step.Upsert? && InTier(tier, step.key) {
        assert Init(TierLog(tier, l, steps)) == TierLog(tier, l, before);
      }
    }
  }

  /** The shared limiter answers as the unbounded one, under any replicas and any cleanup. */
  lemma SharedRefinesUnbounded(tier: string, l: Limits, steps: seq<Step>, key: Key)
    requires PgTrace(tier, l, steps) && InTier(tier, key)
    ensures AnswersOf(TierLog(tier, l, steps), key) == UnboundedAnswers(l, UpsertTimes(steps, key))
  {
    var log := TierLog(tier, l, steps);
    TierConforms(tier, l, steps);
    TierLogOrdered(tier, l, steps);
    NeverLogsEvictions(tier, l, steps, key);
    ConformingAnswers(l, log, key);
    LoggedUpserts(tier, l, steps, key);
  }

  /** A rejection of the shared limiter tells every replica exactly when the key is admitted again. */
  lemma SharedRetryAfter(tier: string, l: Limits, steps: seq<Step>, i: nat, j: nat)
    requires PgTrace(tier, l, steps) && ComesBack(TierLog(tier, l, steps), i, j)
    ensures PromiseKept(l, TierLog(tier, l, steps), i, j)
  {
    TierConforms(tier, l, steps);
    TierLogOrdered(tier, l, steps);
    RetryAfterIsExact(l, TierLog(tier, l, steps), i, j);
  }

  /** Asked at the same times, the two limiters give a key the same answers. */
  lemma LimitersAgree(tier: string, b: InMemoryLimiter.Bounds, reqs: seq<InMemoryLimiter.Request>, steps: seq<Step>, key: Key)
    requires PgTrace(tier, b.limits, steps) && InTier(tier, key)
    requires InMemoryLimiter.Trace(reqs) && NeverEvicted(InMemoryLimiter.RunLog(b, reqs), key)
    requires InMemoryLimiter.RequestTimes(reqs, key) == UpsertTimes(steps, key)
    ensures AnswersOf(InMemoryLimiter.RunLog(b, reqs), key) == AnswersOf(TierLog(tier, b.limits, steps), key)
  {
    SharedRefinesUnbounded(tier, b.limits, steps, key);
    InMemoryLimiter.BoundedRefinesUnbounded(b, reqs, key);
  }

  /** On a live window the shared counter, capped at the budget, is the in-memory counter. */
  lemma CountersAgree(tier: string, b: InMemoryLimiter.Bounds, reqs: seq<InMemoryLimiter.Request>, steps: seq<Step>,
                      key: Key, w: Window, now: real)
    requires PgTrace(tier, b.limits, steps) && InTier(tier, key) && steps != []
    requires InMemoryLimiter.Trace(reqs) && NeverEvicted(InMemoryLimiter.RunLog(b, reqs), key)
    requires InMemoryLimiter.RequestTimes(reqs, key) == UpsertTimes(steps, key)
    requires InMemoryLimiter.Clock(reqs) <= now && steps[|steps| - 1].at <= now
    requires InMemoryLimiter.Entry(key, w) in InMemoryLimiter.RunState(b, reqs).entries && Live(b.limits, w, now)
    ensures key in RowsAfter(steps)
    ensures Min(RowsAfter(steps)[key].count, b.limits.maxRequests) == w.count
    ensures RowsAfter(steps)[key].expiresAt == w.startedAt + b.limits.windowSeconds
  {
    TrackedWindowIsPolicy(b, reqs, key, w, now);
    SharedStateIsUnbounded(tier, b.limits, steps, key);
    TierConforms(tier, b.limits, steps);
    TierLogOrdered(tier, b.limits, steps);
  }

  /** A live tracked window is the unbounded limiter's. */
  lemma TrackedWindowIsPolicy(b: InMemoryLimiter.Bounds, reqs: seq<InMemoryLimiter.Request>, key: Key, w: Window, now: real)
    requires InMemoryLimiter.Trace(reqs) && NeverEvicted(InMemoryLimiter.RunLog(b, reqs), key)
    requires InMemoryLimiter.Clock(reqs) <= now
    requires InMemoryLimiter.Entry(key, w) in InMemoryLimiter.RunState(b, reqs).entries && Live(b.limits, w, now)
    ensures UnboundedState(b.limits, InMemoryLimiter.RequestTimes(reqs, key)) == Some(w)
  {
    var log, clock := InMemoryLimiter.RunLog(b, reqs), InMemoryLimiter.Clock(reqs);
    InMemoryLimiter.RunConforms(b, reqs);
    var es := InMemoryLimiter.RunState(b, reqs).entries;
    assert InMemoryLimiter.Agrees(b.limits, es, KeyState(b.limits, log, key), key, clock);
    InMemoryLimiter.AgreesLater(b.limits, es, KeyState(b.limits, log, key), key, clock, now);
    ConformingAnswers(b.limits, log, key);
    InMemoryLimiter.LoggedTimes(b, reqs, key);
  }

  lemma SharedStateIsUnbounded(tier: string, l: Limits, steps: seq<Step>, key: Key)
    requires PgTrace(tier, l, steps) && InTier(tier, key)
    ensures KeyState(l, TierLog(tier, l, steps), key) == UnboundedState(l, UpsertTimes(steps, key))
  {
    var log := TierLog(tier, l, steps);
    TierConforms(tier, l, steps);
    TierLogOrdered(tier, l, steps);
    NeverLogsEvictions(tier, l, steps, key);
    ConformingAnswers(l, log, key);
    LoggedUpserts(tier, l, steps, key);
  }

  /** No span of one window admits more than twice the budget from the replicas together. */
  lemma SharedBudget(tier: string, l: Limits, steps: seq<Step>, key: Key, a: real)
    requires PgTrace(tier, l, steps)
    ensures AdmittedIn(TierLog(tier, l, steps), key, a, a + l.windowSeconds) <= 2 * l.maxRequests
  {
    var log := TierLog(tier, l, steps);
    TierConforms(tier, l, steps);
    TierLogOrdered(tier, l, steps);
    NeverLogsEvictions(tier, l, steps, key);
    TwiceTheBudget(l, log, key, a);
  }
}

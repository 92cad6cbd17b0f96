/**
 Runs of the lease table: any interleaving of claims, renewals, records and releases by any
 owners, with a clock that does not go back.

 What an owner knows is defined from its own steps alone: it holds a loop until the end of the
 last lease it was granted, unless it has released it.  The theorems relate these private views
 of the owners to each other and to the row.
 */
module LeaseRuns {
  import opened Options
  import opened LeaseTable

  type Run = seq<Step>

  function Init(run: Run): Run
    requires run != []
  {
    run[..|run| - 1]
  }

  function Last(run: Run): Step
    requires run != []
  {
    run[|run| - 1]
  }

  predicate Timed(run: Run) {
    forall i, j :: 0 <= i < j < |run| ==> run[i].at <= run[j].at
  }

  /** No step comes after `now`. */
  predicate Before(run: Run, now: real) {
    forall i :: 0 <= i < |run| ==> run[i].at <= now
  }

  function After(loops: set<Loop>, run: Run): (rows: Rows)
    ensures rows.Keys == loops
  {
    if run == [] then map loop | loop in loops :: FRESH
    else Apply(After(loops, Init(run)), Last(run))
  }

  /** The step is one by `owner` on `loop`. */
  predicate OwnStep(step: Step, owner: Owner, loop: Loop) {
    !step.Release? && step.owner == owner && step.loop == loop
  }

  /** Until when `owner` holds `loop`, by its own steps. */
  function Belief(loops: set<Loop>, run: Run, owner: Owner, loop: Loop): Option<real> {
    if run == [] then None
    else
      var before, step := Belief(loops, Init(run), owner, loop), Last(run);
      if OwnStep(step, owner, loop) && Granted(After(loops, Init(run)), step) then Some(Until(step.at, step.lease))
      else if step.Release? && step.owner == owner && before.Some? && before.value > step.at then None
      else before
  }

  predicate Holds(loops: set<Loop>, run: Run, owner: Owner, loop: Loop, now: real) {
    var b := Belief(loops, run, owner, loop);
    b.Some? && b.value > now
  }

  // ----- Exclusion --------------------------------------------------------------------------

  /** A row that names an owner agrees with that owner's view. */
  lemma {:induction false} RowIsBelieved(loops: set<Loop>, run: Run, owner: Owner, loop: Loop)
    requires loop in loops && After(loops, run)[loop].ownerId == Some(owner)
    ensures Belief(loops, run, owner, loop).Some?
    ensures After(loops, run)[loop].leaseExpiresAt == Belief(loops, run, owner, loop)
  {
    if run != [] && After(loops, Init(run))[loop].ownerId == Some(owner) {
      RowIsBelieved(loops, Init(run), owner, loop);
    }
  }

  /** A live view of a named owner is what the row says. */
  lemma {:induction false} BeliefIsRow(loops: set<Loop>, run: Run, owner: Owner, loop: Loop, now: real)
    requires loop in loops && owner != "" && Timed(run) && Before(run, now)
    requires Holds(loops, run, owner, loop, now)
    ensures After(loops, run)[loop].ownerId == Some(owner)
    ensures After(loops, run)[loop].leaseExpiresAt == Belief(loops, run, owner, loop)
  {
    var step := Last(run);
    assert step == run[|run| - 1];
    if !(OwnStep(step, owner, loop) && Granted(After(loops, Init(run)), step)) {
      BeliefIsRow(loops, Init(run), owner, loop, now);
    }
  }

  /** The steps of a run that have happened by the time `now`. */
  function UpTo(run: Run, now: real): (r: Run)
    ensures r <= run
    ensures Timed(run) ==> Before(r, now) && forall i :: |r| <= i < |run| ==> run[i].at > now
  {
    if run == [] then []
    else if Last(run).at <= now then run
    else UpTo(Init(run), now)
  }

  /** Whether `owner` holds `loop` at the time `now` of a run. */
  predicate HoldsAt(loops: set<Loop>, run: Run, owner: Owner, loop: Loop, now: real) {
    Holds(loops, UpTo(run, now), owner, loop, now)
  }

  lemma ExclusiveAt(loops: set<Loop>, run: Run, a: Owner, b: Owner, loop: Loop, now: real)
    requires loop in loops && a != b && a != "" && b != "" && Timed(run)
    ensures !(HoldsAt(loops, run, a, loop, now) && HoldsAt(loops, run, b, loop, now))
  {
    var past := UpTo(run, now);
    if Holds(loops, past, a, loop, now) {
      BeliefIsRow(loops, past, a, loop, now);
      if Holds(loops, past, b, loop, now) {
        BeliefIsRow(loops, past, b, loop, now);
        assert false;
      }
    }
  }

  /** In no run, with any other owners, do both hold one loop at the same time. */
  ghost predicate Exclusive(a: Owner, b: Owner) {
    forall loops, run, loop, now :: loop in loops && Timed(run) ==>
      !(HoldsAt(loops, run, a, loop, now) && HoldsAt(loops, run, b, loop, now))
  }

  /**
   Tenures of two different owners never overlap, if and only if neither has the empty id: a row
   held under the empty id is taken over while its lease is live.
   */
  lemma ExclusionNeedsNames(a: Owner, b: Owner)
    requires a != b
    ensures Exclusive(a, b) <==> a != "" && b != ""
  {
    if a != "" && b != "" {
      forall loops: set<Loop>, run, loop, now | loop in loops && Timed(run)
        ensures !(HoldsAt(loops, run, a, loop, now) && HoldsAt(loops, run, b, loop, now))
      {
        ExclusiveAt(loops, run, a, b, loop, now);
      }
    } else {
      var other := if a == "" then b else a;
      UnnamedIsDislodged(other);
      assert HoldsAt({"scheduler"}, Takeover(other), "", "scheduler", 0.0);
    }
  }

  function Takeover(other: Owner): Run {
    [Claim("", "scheduler", 5, 0.0), Claim(other, "scheduler", 5, 0.0)]
  }

  lemma UnnamedIsDislodged(other: Owner)
    requires other != ""
    ensures Timed(Takeover(other))
    ensures HoldsAt({"scheduler"}, Takeover(other), "", "scheduler", 0.0)
    ensures HoldsAt({"scheduler"}, Takeover(other), other, "scheduler", 0.0)
  {
    var run, loops := Takeover(other), {"scheduler"};
    assert Init(run) == [Claim("", "scheduler", 5, 0.0)];
    assert Init(Init(run)) == [];
    assert UpTo(run, 0.0) == run;
    assert Belief(loops, Init(run), "", "scheduler") == Some(5.0);
    assert Belief(loops, run, "", "scheduler") == Some(5.0);
    assert Belief(loops, run, other, "scheduler") == Some(5.0);
  }

  /** The id a service runs under: the configured one unless that is missing or empty. */
  function ServiceOwnerId(given: Option<Owner>, configured: string, hostname: string, pid: string): (id: Owner)
    ensures id != ""
    ensures given.Some? && given.value != "" ==> id == given.value
  {
    if given.Some? && given.value != "" then given.value else configured + "@" + hostname + ":" + pid
  }

  // ----- When a claim succeeds --------------------------------------------------------------

  /** All owners of the steps have names. */
  predicate Named(run: Run) {
    forall i :: 0 <= i < |run| ==> run[i].owner != ""
  }

  /** A claim is refused if and only if another named owner holds the loop at that moment. */
  lemma ClaimRefusedIffHeld(loops: set<Loop>, run: Run, owner: Owner, loop: Loop, lease: int, now: real)
    requires loop in loops && Timed(run) && Before(run, now)
    ensures !Granted(After(loops, run), Claim(owner, loop, lease, now)) <==>
            exists other :: other != owner && other != "" && Holds(loops, run, other, loop, now)
  {
    var row := After(loops, run)[loop];
    if Blocked(row, owner, now) {
      RowIsBelieved(loops, run, row.ownerId.value, loop);
      assert Holds(loops, run, row.ownerId.value, loop, now);
    }
    if other :| other != owner && other != "" && Holds(loops, run, other, loop, now) {
      BeliefIsRow(loops, run, other, loop, now);
    }
  }

  /** A renewal or a record takes effect if and only if the owner holds the loop at that moment. */
  lemma RenewalGrantedIffHeld(loops: set<Loop>, run: Run, step: Step)
    requires !step.Release? && !step.Claim? && step.loop in loops && step.owner != ""
    requires Timed(run) && Before(run, step.at)
    ensures Granted(After(loops, run), step) <==> Holds(loops, run, step.owner, step.loop, step.at)
  {
    if Granted(After(loops, run), step) {
      RowIsBelieved(loops, run, step.owner, step.loop);
    }
    if Holds(loops, run, step.owner, step.loop, step.at) {
      BeliefIsRow(loops, run, step.owner, step.loop, step.at);
    }
  }

  /** An owner that takes no more steps after a grant holds nothing once that lease has run out. */
  lemma {:induction false} SilentOwnerExpires(loops: set<Loop>, before: Run, granted: Step, silence: Run, now: real)
    requires !granted.Release? && granted.loop in loops
    requires Granted(After(loops, before), granted)
    requires forall i :: 0 <= i < |silence| ==> silence[i].owner != granted.owner
    requires now >= Until(granted.at, granted.lease)
    ensures !Holds(loops, before + [granted] + silence, granted.owner, granted.loop, now)
    ensures Belief(loops, before + [granted] + silence, granted.owner, granted.loop) == Some(Until(granted.at, granted.lease))
  {
    var run := before + [granted] + silence;
    if silence == [] {
      assert run == before + [granted];
      assert Init(run) == before;
    } else {
      SilentOwnerExpires(loops, before, granted, Init(silence), now);
      assert Init(run) == before + [granted] + Init(silence);
      assert Last(run) == silence[|silence| - 1];
    }
  }

  /**
   A crashed holder's loop can be claimed no later than its last grant plus the lease: from then on
   a claim is refused only if a third, live owner already has the loop.
   */
  lemma CrashedHolderIsReplaced(loops: set<Loop>, before: Run, granted: Step, silence: Run, owner: Owner, lease: int, now: real)
    requires !granted.Release? && granted.loop in loops
    requires Granted(After(loops, before), granted)
    requires forall i :: 0 <= i < |silence| ==> silence[i].owner != granted.owner
    requires now >= Until(granted.at, granted.lease)
    requires Timed(before + [granted] + silence) && Before(before + [granted] + silence, now)
    ensures
      var run := before + [granted] + silence;
      !Granted(After(loops, run), Claim(owner, granted.loop, lease, now)) ==>
        exists third :: third != granted.owner && third != owner && third != "" && Holds(loops, run, third, granted.loop, now)
  {
    var run := before + [granted] + silence;
    SilentOwnerExpires(loops, before, granted, silence, now);
    ClaimRefusedIffHeld(loops, run, owner, granted.loop, lease, now);
  }

  /**
   After a release its owner, as long as it takes no more steps, holds no loop at all, whatever it held
   before and whatever the others do.
   */
  lemma {:induction false} ReleasedOwnerHoldsNothing(loops: set<Loop>, before: Run, release: Step, others: Run, loop: Loop, now: real)
    requires release.Release? && release.at <= now
    requires forall i :: 0 <= i < |others| ==> others[i].owner != release.owner
    ensures !Holds(loops, before + [release] + others, release.owner, loop, now)
  {
    var run := before + [release] + others;
    if others == [] {
      assert run == before + [release];
      assert Init(run) == before;
    } else {
      ReleasedOwnerHoldsNothing(loops, before, release, Init(others), loop, now);
      assert Init(run) == before + [release] + Init(others);
      assert Last(run) == others[|others| - 1];
    }
  }

  // ----- Fenced counters --------------------------------------------------------------------

  /** The step records a success for `loop` by an owner that holds it. */
  predicate FencedSuccess(loops: set<Loop>, before: Run, step: Step, loop: Loop) {
    step.Success? && step.loop == loop && Holds(loops, before, step.owner, loop, step.at)
  }

  function SuccessCount(loops: set<Loop>, run: Run, loop: Loop): int {
    if run == [] then 0
    else SuccessCount(loops, Init(run), loop) + if FencedSuccess(loops, Init(run), Last(run), loop) then 1 else 0
  }

  function SuccessWork(loops: set<Loop>, run: Run, loop: Loop): int {
    if run == [] then 0
    else SuccessWork(loops, Init(run), loop) + if FencedSuccess(loops, Init(run), Last(run), loop) then Last(run).work else 0
  }

  /**
   Across takeovers and releases the counters are those of the records made under a live lease:
   one tick for each, and the sum of their work.
   */
  lemma {:induction false} CountersAreConserved(loops: set<Loop>, run: Run, loop: Loop)
    requires loop in loops && Timed(run) && Named(run)
    ensures After(loops, run)[loop].tickCount == SuccessCount(loops, run, loop)
    ensures After(loops, run)[loop].workCount == SuccessWork(loops, run, loop)
  {
    if run != [] {
      CountersAreConserved(loops, Init(run), loop);
      var step := Last(run);
      assert step == run[|run| - 1];
      if step.Success? && step.loop == loop {
        RenewalGrantedIffHeld(loops, Init(run), step);
      }
    }
  }

  /** A record made without a live lease changes nothing at all. */
  lemma UnfencedRecordIsDropped(loops: set<Loop>, run: Run, step: Step)
    requires step.Success? || step.Failure?
    requires step.owner != "" && Timed(run) && Before(run, step.at)
    requires !Holds(loops, run, step.owner, step.loop, step.at)
    ensures After(loops, run + [step]) == After(loops, run)
  {
    assert Init(run + [step]) == run;
    if step.loop in loops {
      RenewalGrantedIffHeld(loops, run, step);
    }
  }

  predicate PositiveLeases(run: Run) {
    forall i :: 0 <= i < |run| && !run[i].Release? ==> run[i].lease > 0
  }

  /** A held row has all its times, in order; a free row has neither a start nor an expiry. */
  predicate RowOk(row: Row, now: real) {
    if row.ownerId.Some? then
      && row.ownerStartedAt.Some? && row.lastHeartbeatAt.Some? && row.leaseExpiresAt.Some?
      && row.ownerStartedAt.value <= row.lastHeartbeatAt.value < row.leaseExpiresAt.value
      && row.lastHeartbeatAt.value <= now
    else row.ownerStartedAt == None && row.leaseExpiresAt == None
  }

  lemma {:induction false} RowsStayOk(loops: set<Loop>, run: Run, loop: Loop, now: real)
    requires loop in loops && Timed(run) && PositiveLeases(run) && Before(run, now)
    ensures RowOk(After(loops, run)[loop], now)
  {
    if run != [] {
      assert Last(run) == run[|run| - 1];
      RowsStayOk(loops, Init(run), loop, Last(run).at);
    }
  }

  // ----- Where each column comes from -------------------------------------------------------

  /** The step changes the row of the loop: a release of a live lease, or a grant. */
  predicate Affects(rows: Rows, step: Step, loop: Loop) {
    loop in rows &&
    if step.Release? then OwnedLive(rows[loop], step.owner, step.at) else step.loop == loop && Granted(rows, step)
  }

  /** Which steps a column follows. */
  datatype Kind = AnyStep | Records | Successes

  predicate OfKind(step: Step, kind: Kind) {
    match kind
    case AnyStep => true
    case Records => step.Success? || step.Failure?
    case Successes => step.Success?
  }

  /** The last step of the kind that changed the row of the loop. */
  function LastStep(loops: set<Loop>, run: Run, loop: Loop, kind: Kind): Option<Step> {
    if run == [] then None
    else if Affects(After(loops, Init(run)), Last(run), loop) && OfKind(Last(run), kind) then Some(Last(run))
    else LastStep(loops, Init(run), loop, kind)
  }

  function TimeOf(step: Option<Step>): Option<real> {
    if step.Some? then Some(step.value.at) else None
  }

  /** A success clears the error that a failure left. */
  function ErrorOf(step: Option<Step>): Option<string> {
    if step.Some? && step.value.Failure? then Some(step.value.error) else None
  }

  /**
   After any run the heartbeat is the time of the last step that changed the row, the last good tick that
   of the last success, and the error that of the last record if it was a failure.
   */
  lemma {:induction false} ColumnsComeFrom(loops: set<Loop>, run: Run, loop: Loop)
    requires loop in loops
    ensures
      var row := After(loops, run)[loop];
      && row.lastHeartbeatAt == TimeOf(LastStep(loops, run, loop, AnyStep))
      && row.lastOkAt == TimeOf(LastStep(loops, run, loop, Successes))
      && row.lastError == ErrorOf(LastStep(loops, run, loop, Records))
  {
    if run != [] {
      ColumnsComeFrom(loops, Init(run), loop);
    }
  }

  /**
   The start of a held row is the time of the claim since which its owner has had it: before that claim
   the row was not this owner's, and after it the row always was.
   */
  lemma {:induction false} TenureBegan(loops: set<Loop>, run: Run, loop: Loop) returns (k: nat)
    requires loop in loops && After(loops, run)[loop].ownerId.Some?
    ensures k < |run| && run[k].Claim? && run[k].loop == loop
    ensures After(loops, run)[loop].ownerId == Some(run[k].owner)
    ensures After(loops, run)[loop].ownerStartedAt == Some(run[k].at)
    ensures After(loops, run[..k])[loop].ownerId != Some(run[k].owner)
    ensures forall j :: k < j <= |run| ==> After(loops, run[..j])[loop].ownerId == Some(run[k].owner)
  {
    var before := After(loops, Init(run))[loop];
    if before.ownerId == After(loops, run)[loop].ownerId {
      k := TenureBegan(loops, Init(run), loop);
      assert Init(run)[..k] == run[..k];
      forall j | k < j <= |run| ensures After(loops, run[..j])[loop].ownerId == Some(run[k].owner) {
        assert if j < |run| then run[..j] == Init(run)[..j] else run[..j] == run;
      }
    } else {
      k := |run| - 1;
      assert run[..k] == Init(run) && run[..|run|] == run;
    }
  }
}

/**
 The loops around the owned tick: `_run_loop`, which claims and ticks until it is told to stop, and
 `_supervise_loop`, which runs it again after a crash a bounded number of times.

 What the database, the ticks and the stop event do is given as a script.
 */
module Supervision {
  import opened Options
  import OwnedTick

  // ----- _run_loop --------------------------------------------------------------------------

  datatype ClaimEnd = Granted | Refused | ClaimRaised

  /**
   One turn of the loop: the stop event at its head, the claim, how the owned tick ends and whether the
   record it attempts then raises, and the stop event at the end of the turn.
   */
  datatype Turn = Turn(stopBefore: bool, claim: ClaimEnd, tick: OwnedTick.Outcome, recordRaises: bool, stopAfter: bool)

  datatype LoopEnd = Returned | Crashed | Cancelled | StillRunning

  predicate Recorded(t: Turn) {
    t.claim.Granted? && (t.tick.SuccessRecorded? || t.tick.ErrorRecorded?) && !t.recordRaises
  }

  /** The turn ends the loop with a cancellation. */
  predicate Cancels(t: Turn) {
    t.claim.Granted? && t.tick.CancelledRaised?
  }

  /** The turn ends the loop with an exception or a cancellation. */
  predicate Breaks(t: Turn) {
    t.claim.ClaimRaised? || (t.claim.Granted? && !Recorded(t) && !t.tick.OwnershipLostRaised?)
  }

  /** The stop event has been seen by the end of the first `n` turns or at the head of turn `n`. */
  predicate StopSeen(turns: seq<Turn>, n: nat)
    requires n <= |turns|
  {
    (exists i :: 0 <= i < n && (turns[i].stopBefore || turns[i].stopAfter)) || (n < |turns| && turns[n].stopBefore)
  }

  /** The loop sees the stop event after `n` turns, none of which broke it. */
  predicate StopsAfter(turns: seq<Turn>, n: nat) {
    n <= |turns| && StopSeen(turns, n) && forall i :: 0 <= i < n ==> !Breaks(turns[i])
  }

  /** The loop goes through `n` turns without seeing the stop event, and the next one breaks it. */
  predicate BreaksAfter(turns: seq<Turn>, n: nat) {
    n < |turns| && !StopSeen(turns, n) && Breaks(turns[n]) && forall i :: 0 <= i < n ==> !Breaks(turns[i])
  }

  /** The loop returns: only once the stop event is set. */
  ghost predicate ReturnsIn(turns: seq<Turn>) {
    exists n: nat :: StopsAfter(turns, n)
  }

  ghost predicate CrashesIn(turns: seq<Turn>) {
    exists n: nat :: BreaksAfter(turns, n) && !Cancels(turns[n])
  }

  ghost predicate CancelledIn(turns: seq<Turn>) {
    exists n: nat :: BreaksAfter(turns, n) && Cancels(turns[n])
  }

  /** The stop event was set during the turn that broke the loop. */
  ghost predicate StopAtCrash(turns: seq<Turn>) {
    exists n: nat :: BreaksAfter(turns, n) && turns[n].stopAfter
  }

  /** A script has at most one end. */
  lemma OneEnd(turns: seq<Turn>)
    ensures !(ReturnsIn(turns) && (CrashesIn(turns) || CancelledIn(turns)))
    ensures !(CrashesIn(turns) && CancelledIn(turns))
  {
    assert forall n: nat, m: nat :: BreaksAfter(turns, n) && BreaksAfter(turns, m) ==> n == m;
  }

  /**
   The loop returns exactly if it sees the stop event before a turn breaks it, and ends with the
   exception of that turn otherwise.  It survives a lost lease and a failed tick; after a lost lease it
   waits the standby time, as after a refused claim, and otherwise the interval.
   */
  method RunLoop(turns: seq<Turn>, interval: real, standby: real) returns (end: LoopEnd, stop: bool, waits: seq<real>)
    ensures end.Returned? <==> ReturnsIn(turns)
    ensures end.Crashed? <==> CrashesIn(turns)
    ensures end.Cancelled? <==> CancelledIn(turns)
    ensures end.Returned? ==> stop
    ensures |waits| <= |turns| && (end.Returned? ==> StopsAfter(turns, |waits|))
    ensures forall n :: 0 <= n < |waits| ==> !StopSeen(turns, n)
    ensures end.Crashed? || end.Cancelled? ==> BreaksAfter(turns, |waits|) && (stop <==> turns[|waits|].stopAfter)
    ensures end.Crashed? || end.Cancelled? ==> (stop <==> StopAtCrash(turns))
    ensures end.StillRunning? ==> |waits| == |turns| && !stop
    ensures forall i :: 0 <= i < |waits| ==> waits[i] == if Recorded(turns[i]) then interval else standby
  {
    stop, waits := false, [];
    OneEnd(turns);
    for i := 0 to |turns|
      invariant |waits| == i
      invariant stop ==> i > 0 && turns[i - 1].stopAfter
      invariant forall k :: 0 <= k < i - 1 ==> !turns[k].stopAfter
      invariant i > 0 && !stop ==> !turns[i - 1].stopAfter
      invariant forall k :: 0 <= k < i ==> !Breaks(turns[k]) && !turns[k].stopBefore
      invariant forall n :: 0 <= n < i ==> !StopSeen(turns, n)
      invariant forall k :: 0 <= k < i ==> waits[k] == if Recorded(turns[k]) then interval else standby
    {
      var turn := turns[i];
      if stop || turn.stopBefore {
        assert StopsAfter(turns, i);
        return Returned, true, waits;
      }
      assert !StopSeen(turns, i);
      assert Breaks(turn) ==> BreaksAfter(turns, i);
      var acquired := turn.claim.Granted?;
      if turn.claim.ClaimRaised? {
        return Crashed, turn.stopAfter, waits;
      }
      if acquired {
        match turn.tick {
          case SuccessRecorded(_) | ErrorRecorded =>
            if turn.recordRaises {
              return Crashed, turn.stopAfter, waits;
            }
          case OwnershipLostRaised => acquired := false;
          case HeartbeatErrorRaised => return Crashed, turn.stopAfter, waits;
          case CancelledRaised => return Cancelled, turn.stopAfter, waits;
        }
      }
      waits := waits + [if acquired then interval else standby];
      stop := turn.stopAfter;
    }
    assert stop ==> StopsAfter(turns, |turns|);
    end := if stop then Returned else StillRunning;
  }

  /**
   An owned tick that went through the schedule `events` breaks its loop if and only if a renewal
   failed, the record raised, or a cancellation came out of it: a tick that raises and a lost lease
   never do.
   */
  lemma WhatBreaksALoop(events: seq<OwnedTick.Event>, turn: Turn)
    requires OwnedTick.After(events).Some? && OwnedTick.After(events).value.point.Ended?
    requires turn.claim.Granted? && turn.tick == OwnedTick.After(events).value.point.outcome
    ensures
      var s := OwnedTick.After(events).value;
      Breaks(turn) <==> turn.tick.CancelledRaised? || s.beat.Failed? || (turn.recordRaises && s.beat.Finished?)
  {
    OwnedTick.ScheduleKeepsOk(events);
    OwnedTick.CancelledOutcome(events);
  }

  /** A claim that raises ends the loop with that exception, and a refused one never ends it. */
  lemma WhatClaimsDo(turn: Turn)
    ensures turn.claim.ClaimRaised? ==> Breaks(turn) && !Cancels(turn)
    ensures turn.claim.Refused? ==> !Breaks(turn) && !Recorded(turn)
  {
  }

  // ----- _supervise_loop --------------------------------------------------------------------

  /** One run of the loop under supervision, with the stop event before it and by the end of the backoff after it. */
  datatype Attempt = Attempt(stopBefore: bool, turns: seq<Turn>, stopInBackoff: bool)

  datatype SupervisorEnd = Stopped | Fatal | SupervisorCancelled | Supervising

  /** The stop event was set when the attempt `n` was due, or the loop saw it in that attempt. */
  ghost predicate ToldToStop(attempts: nat -> Attempt, n: nat) {
    StopSetBefore(attempts, n) || attempts(n).stopBefore || ReturnsIn(attempts(n).turns)
  }

  /** The stop event was set during the crash before the attempt `n`, or in the backoff after it. */
  ghost predicate StopSetBefore(attempts: nat -> Attempt, n: nat) {
    n > 0 && (attempts(n - 1).stopInBackoff || StopAtCrash(attempts(n - 1).turns))
  }

  /** How supervision ends with the attempt `n`, if it does: it goes on only after a crash. */
  ghost predicate EndsAt(attempts: nat -> Attempt, n: nat, end: SupervisorEnd) {
    match end
    case Stopped => ToldToStop(attempts, n)
    case SupervisorCancelled => !ToldToStop(attempts, n) && CancelledIn(attempts(n).turns)
    case Supervising => !ToldToStop(attempts, n) && !CancelledIn(attempts(n).turns) && !CrashesIn(attempts(n).turns)
    case Fatal => false
  }

  /** The attempt `n` was not told to stop, and its loop crashed. */
  ghost predicate CrashedAt(attempts: nat -> Attempt, n: nat) {
    !ToldToStop(attempts, n) && CrashesIn(attempts(n).turns)
  }

  ghost predicate CrashedUpTo(attempts: nat -> Attempt, n: nat) {
    forall i: nat :: i < n ==> CrashedAt(attempts, i)
  }

  /** One pass of the supervisor's loop, up to the count of a crash. */
  method RunAttempt(attempts: nat -> Attempt, n: nat, stopSet: bool, interval: real, standby: real)
    returns (end: Option<SupervisorEnd>, stop: bool)
    requires stopSet <==> StopSetBefore(attempts, n)
    ensures end.None? <==> CrashedAt(attempts, n)
    ensures end.Some? ==> EndsAt(attempts, n, end.value)
    ensures end == Some(Stopped) ==> stop
    ensures end == Some(Supervising) ==> !stop
    ensures end.None? || end == Some(SupervisorCancelled) ==> (stop <==> StopAtCrash(attempts(n).turns))
  {
    var attempt := attempts(n);
    OneEnd(attempt.turns);
    if stopSet || attempt.stopBefore {
      return Some(Stopped), true;
    }
    var loopEnd, stopInLoop, loopWaits := RunLoop(attempt.turns, interval, standby);
    stop := stopInLoop;
    match loopEnd {
      case StillRunning => end := Some(Supervising);
      case Returned => end := Some(Stopped);
      case Cancelled => end := Some(SupervisorCancelled);
      case Crashed => end := None;
    }
  }

  function AtLeastOne(n: int): nat {
    if n < 1 then 1 else n
  }

  /** 1 + 2 + ... + n. */
  function Triangle(n: nat): nat {
    if n == 0 then 0 else Triangle(n - 1) + n
  }

  lemma {:induction false} TriangleIs(n: nat)
    ensures 2 * Triangle(n) == n * (n + 1)
  {
    if n > 0 {
      TriangleIs(n - 1);
    }
  }

  /** A script of attempts has one end at the attempt it comes to. */
  lemma OneSupervisorEnd(attempts: nat -> Attempt, n: nat, a: SupervisorEnd, b: SupervisorEnd)
    requires EndsAt(attempts, n, a) && EndsAt(attempts, n, b)
    ensures a == b && !(!ToldToStop(attempts, n) && CrashesIn(attempts(n).turns))
  {
    OneEnd(attempts(n).turns);
  }

  /**
   Supervision is bounded and fails closed.  A loop crashes at most `maxFailures` times (once, if
   that is less than one); the last crash sets the stop event and raises; a normal end means that
   the stop event was set; and each backoff asked for is the unit times the crashes so far.
   */
  method SuperviseLoop(maxFailures: int, backoff: real, attempts: nat -> Attempt, interval: real, standby: real)
    returns (end: SupervisorEnd, stop: bool, failures: nat, waits: seq<real>)
    ensures failures <= AtLeastOne(maxFailures)
    ensures CrashedUpTo(attempts, failures)
    ensures end.Fatal? <==> failures == AtLeastOne(maxFailures)
    ensures !end.Fatal? ==> EndsAt(attempts, failures, end)
    ensures end.Stopped? || end.Fatal? ==> stop
    ensures end.SupervisorCancelled? ==> (stop <==> StopAtCrash(attempts(failures).turns))
    ensures end.Supervising? ==> !stop
    ensures |waits| == if end.Fatal? then failures - 1 else failures
    ensures AreBackoffs(backoff, waits)
  {
    failures, stop, waits := 0, false, [];
    while true
      invariant failures == |waits| < AtLeastOne(maxFailures) && AreBackoffs(backoff, waits)
      invariant CrashedUpTo(attempts, failures)
      invariant stop <==> StopSetBefore(attempts, failures)
      decreases AtLeastOne(maxFailures) - failures
    {
      var ended;
      ended, stop := RunAttempt(attempts, failures, stop, interval, standby);
      if ended.Some? {
        return ended.value, stop, failures, waits;
      }
      failures := failures + 1;
      if failures >= maxFailures {
        return Fatal, true, failures, waits;
      }
      waits := waits + [Scaled(backoff, failures)];
      stop := stop || attempts(failures - 1).stopInBackoff;
    }
  }

  lemma {:induction false} TriangleGrows(m: nat, n: nat)
    requires m <= n
    ensures Triangle(m) <= Triangle(n)
  {
    if m < n {
      TriangleGrows(m, n - 1);
    }
  }

  /** `n` times the backoff unit. */
  function Scaled(unit: real, n: int): real {
    unit * n as real
  }

  lemma ScaledOrder(scale: real, a: int, b: int)
    requires scale >= 0.0 && a <= b
    ensures Scaled(scale, a) <= Scaled(scale, b)
  {
    assert scale * (b - a) as real >= 0.0;
    assert scale * (b - a) as real == scale * b as real - scale * a as real;
  }

  /** Each wait is the backoff unit times the crashes so far. */
  predicate AreBackoffs(unit: real, waits: seq<real>) {
    forall i :: 0 <= i < |waits| ==> waits[i] == Scaled(unit, i + 1)
  }

  function Sum(waits: seq<real>): real {
    if waits == [] then 0.0 else Sum(waits[..|waits| - 1]) + waits[|waits| - 1]
  }

  lemma {:induction false} BackoffsAreTriangles(unit: real, waits: seq<real>)
    requires AreBackoffs(unit, waits)
    ensures Sum(waits) == Scaled(unit, Triangle(|waits|))
  {
    var n := |waits|;
    if n > 0 {
      BackoffsAreTriangles(unit, waits[..n - 1]);
      var before := Triangle(n - 1) as real;
      assert Triangle(n) as real == before + n as real;
      assert unit * (before + n as real) == unit * before + unit * n as real;
    }
  }

  /** All the waiting a supervisor asks for is at most `backoff * n * (n - 1) / 2`. */
  lemma BackoffIsBounded(n: nat, backoff: real, waits: seq<real>)
    requires n >= 1 && |waits| < n && backoff >= 0.0 && AreBackoffs(backoff, waits)
    ensures Sum(waits) <= Scaled(backoff, n * (n - 1) / 2)
  {
    BackoffsAreTriangles(backoff, waits);
    TriangleBound(n, |waits|);
    ScaledOrder(backoff, Triangle(|waits|), n * (n - 1) / 2);
  }

  lemma Halved(x: int, a: int, b: int)
    requires 2 * x == a * b
    ensures x == b * a / 2
  {
    assert a * b == b * a;
  }

  lemma TriangleBound(n: nat, waits: nat)
    requires waits < n
    ensures Triangle(waits) <= n * (n - 1) / 2
  {
    TriangleGrows(waits, n - 1);
    TriangleIs(n - 1);
    Halved(Triangle(n - 1), n - 1, n);
  }
}

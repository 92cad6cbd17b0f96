/**
 One owned tick: the tick task, the heartbeat task that renews the lease beside it, and the
 coroutine that waits for both, as a state machine.

 An event is one scheduling step.  A cancellation of the coroutine is passed on to what it awaits, if
 that is a task still going on; otherwise it stays pending and is raised where the coroutine waits when
 it wakes up.  The machine allows more schedules than asyncio does: a task may finish in any way after a
 cancellation was asked for, and the done callback may run late.
 */
module OwnedTick {
  import opened Options

  datatype TickState = Running | Returned(work: int) | Raised | TickCancelled

  datatype BeatState = Waiting | Renewing | Finished | Lost | Failed | BeatCancelled

  /** How `_run_owned_tick` ends: a record attempt, or an exception. */
  datatype Outcome =
    | SuccessRecorded(work: int)
    | ErrorRecorded
    | OwnershipLostRaised
    | HeartbeatErrorRaised
    | CancelledRaised

  /** Where the waiting coroutine stands. */
  datatype Point =
    | FirstWait      // asyncio.wait on both tasks
    | JoinTick       // the heartbeat raised: the tick was cancelled and is awaited
    | AwaitTick      // result = await tick_task
    | AwaitBeatError // except Exception: tick_done is set, await heartbeat_task
    | AwaitBeat      // after the try: await heartbeat_task
    | CleanUp        // the finally of that await: the heartbeat was still going on, and is cancelled and awaited
    | JoinBoth       // except CancelledError: both were cancelled and are awaited
    | Ended(outcome: Outcome)

  datatype State = State(
    tick: TickState,
    tickCancel: bool,      // a cancellation of the tick was asked for
    beat: BeatState,
    beatCancel: bool,      // a cancellation of the heartbeat was asked for
    tickDone: bool,        // the event
    point: Point,
    mainCancelled: bool,   // the coroutine itself was cancelled from outside
    pending: bool,         // that cancellation is to be raised where the coroutine waits
    tickQuit: bool)        // the tick ended in a cancellation nobody had asked for

  const START := State(Running, false, Waiting, false, false, FirstWait, false, false, false)

  datatype Event =
    | TickReturns(work: int) | TickRaises | TickIsCancelled | TickCallback
    | BeatWakes | BeatTimesOut | BeatRenews | BeatLosesLease | BeatFails | BeatIsCancelled
    | MainResumes | MainIsCancelled

  predicate TickOver(s: State) {
    !s.tick.Running?
  }

  predicate BeatOver(s: State) {
    !s.beat.Waiting? && !s.beat.Renewing?
  }

  /** What the heartbeat task raises when it is awaited, or how the tick is recorded if it does not. */
  function EndWith(s: State, recorded: Outcome): State {
    s.(point := Ended(match s.beat
      case Lost => OwnershipLostRaised
      case Failed => HeartbeatErrorRaised
      case BeatCancelled => CancelledRaised
      case _ => recorded))
  }

  function CancelBoth(s: State): State {
    s.(tickCancel := true, beatCancel := true, pending := false, point := JoinBoth)
  }

  /** The coroutine goes on from where it was waiting, if what it waits for has happened. */
  function Resume(s: State): Option<State> {
    if s.pending then Throw(s) else
    match s.point
    case FirstWait =>
      if !TickOver(s) && !BeatOver(s) then None
      else if s.beat.BeatCancelled? then Some(CancelBoth(s))
      else if s.beat.Lost? || s.beat.Failed? then Some(s.(tickCancel := true, point := JoinTick))
      else Some(s.(point := AwaitTick))
    case JoinTick =>
      // raise heartbeat_exc, caught by the except Exception branch
      if TickOver(s) then Some(s.(tickDone := true, point := AwaitBeatError)) else None
    case AwaitTick =>
      (match s.tick
       case Running => None
       case Returned(_) => Some(s.(tickDone := true, point := AwaitBeat))
       case Raised => Some(s.(tickDone := true, point := AwaitBeatError))
       case TickCancelled => Some(CancelBoth(s)))
    case AwaitBeatError =>
      if BeatOver(s) then Some(EndWith(s, ErrorRecorded)) else None
    case AwaitBeat =>
      if BeatOver(s) then Some(EndWith(s, if s.tick.Returned? then SuccessRecorded(s.tick.work) else ErrorRecorded))
      else None
    case JoinBoth =>
      if TickOver(s) && BeatOver(s) then Some(s.(tickDone := true, point := Ended(CancelledRaised))) else None
    case CleanUp => if BeatOver(s) then Some(s.(point := Ended(CancelledRaised))) else None
    case Ended(_) => None
  }

  /** The pending cancellation is raised where the coroutine waits; joining tasks goes on until they are over. */
  function Throw(s: State): Option<State> {
    match s.point
    case FirstWait => Some(CancelBoth(s))
    case JoinTick => if TickOver(s) then Some(CancelBoth(s)) else None
    case AwaitTick => Some(CancelBoth(s))
    case AwaitBeatError => Some(s.(pending := false, tickDone := true, point := Ended(CancelledRaised)))
    case AwaitBeat =>
      Some(if BeatOver(s) then s.(pending := false, point := Ended(CancelledRaised))
           else s.(pending := false, beatCancel := true, point := CleanUp))
    case JoinBoth | CleanUp =>
      if TickOver(s) && BeatOver(s) then Some(s.(pending := false, tickDone := true, point := Ended(CancelledRaised))) else None
    case Ended(_) => None
  }

  /** A cancellation from outside: passed on to the awaited task if that is not over, else pending. */
  function CancelMain(s: State): Option<State> {
    var c := s.(mainCancelled := true);
    match s.point
    case FirstWait | JoinTick => Some(c.(pending := true))
    case AwaitTick => Some(if TickOver(s) then c.(pending := true) else c.(tickCancel := true))
    case AwaitBeatError | AwaitBeat => Some(if BeatOver(s) then c.(pending := true) else c.(beatCancel := true))
    case JoinBoth | CleanUp => Some(c.(pending := true))
    case Ended(_) => None
  }

  function Next(s: State, event: Event): Option<State> {
    match event
    case TickReturns(work) => if s.tick.Running? then Some(s.(tick := Returned(work))) else None
    case TickRaises => if s.tick.Running? then Some(s.(tick := Raised)) else None
    case TickIsCancelled =>
      if s.tick.Running? then Some(s.(tick := TickCancelled, tickQuit := !s.tickCancel)) else None
    case TickCallback => if TickOver(s) && !s.tickDone then Some(s.(tickDone := true)) else None
    case BeatWakes => if s.beat.Waiting? && s.tickDone then Some(s.(beat := Finished)) else None
    case BeatTimesOut => if s.beat.Waiting? then Some(s.(beat := Renewing)) else None
    case BeatRenews => if s.beat.Renewing? then Some(s.(beat := if s.tickDone then Finished else Waiting)) else None
    case BeatLosesLease => if s.beat.Renewing? then Some(s.(beat := Lost)) else None
    case BeatFails => if s.beat.Renewing? then Some(s.(beat := Failed)) else None
    case BeatIsCancelled => if !BeatOver(s) && s.beatCancel then Some(s.(beat := BeatCancelled)) else None
    case MainResumes => Resume(s)
    case MainIsCancelled => CancelMain(s)
  }

  /** The state after a schedule, if every event was enabled in turn. */
  function After(events: seq<Event>): Option<State> {
    if events == [] then Some(START)
    else
      var before := After(events[..|events| - 1]);
      if before.None? then None else Next(before.value, events[|events| - 1])
  }

  // ----- The invariant ----------------------------------------------------------------------

  predicate Ok(s: State) {
    && (s.tickQuit ==> s.tick.TickCancelled?)
    && (s.beat.BeatCancelled? ==> s.beatCancel)
    && (s.beat.Finished? ==> TickOver(s) || s.tickDone)
    && (s.tickDone ==> TickOver(s))
    && (s.tick.TickCancelled? ==> s.tickCancel || s.tickQuit)
    && (s.pending ==> s.mainCancelled)
    && match s.point
       case FirstWait => !s.tickCancel && !s.beatCancel && (s.mainCancelled ==> s.pending)
       case JoinTick =>
         && s.tickCancel && !s.beatCancel && (s.mainCancelled ==> s.pending) && (s.beat.Lost? || s.beat.Failed?)
       case AwaitTick =>
         && !s.beatCancel && (s.tickCancel ==> s.mainCancelled) && (s.beat.Finished? ==> TickOver(s))
         && (s.pending ==> TickOver(s))
       case AwaitBeatError =>
         && s.tickDone && TickOver(s) && (s.beatCancel ==> s.mainCancelled) && (s.pending ==> BeatOver(s))
         && (s.tick.Raised? || s.beat.Lost? || s.beat.Failed?)
       case AwaitBeat => s.tickDone && s.tick.Returned? && (s.beatCancel ==> s.mainCancelled) && (s.pending ==> BeatOver(s))
       case CleanUp => false
       case JoinBoth => s.tickCancel && s.beatCancel && (s.mainCancelled || s.tickQuit)
       case Ended(outcome) =>
         && s.tickDone && TickOver(s) && BeatOver(s)
         && (outcome.SuccessRecorded? ==> s.tick == Returned(outcome.work) && s.beat.Finished?)
         && (outcome.ErrorRecorded? ==> s.tick.Raised? && s.beat.Finished?)
         && (outcome.OwnershipLostRaised? ==> s.beat.Lost?)
         && (outcome.HeartbeatErrorRaised? ==> s.beat.Failed?)
         && (outcome.CancelledRaised? ==> s.mainCancelled || s.tickQuit)
  }

  lemma StepKeepsOk(s: State, event: Event)
    requires Ok(s) && Next(s, event).Some?
    ensures Ok(Next(s, event).value)
  {
    match event
    case MainResumes => ResumeKeepsOk(s);
    case MainIsCancelled => CancelKeepsOk(s);
    case TickReturns(_) | TickRaises | TickIsCancelled | TickCallback => TickKeepsOk(s, event);
    case _ => BeatKeepsOk(s, event);
  }

  lemma TickKeepsOk(s: State, event: Event)
    requires Ok(s) && (event.TickReturns? || event.TickRaises? || event.TickIsCancelled? || event.TickCallback?)
    ensures Next(s, event).Some? ==> Ok(Next(s, event).value)
  {
  }

  lemma BeatKeepsOk(s: State, event: Event)
    requires Ok(s) && (event.BeatWakes? || event.BeatTimesOut? || event.BeatRenews?
                       || event.BeatLosesLease? || event.BeatFails? || event.BeatIsCancelled?)
    ensures Next(s, event).Some? ==> Ok(Next(s, event).value)
  {
  }

  lemma CancelKeepsOk(s: State)
    requires Ok(s) && CancelMain(s).Some?
    ensures Ok(CancelMain(s).value)
  {
  }

  lemma ResumeKeepsOk(s: State)
    requires Ok(s) && Resume(s).Some?
    ensures Ok(Resume(s).value)
  {
  }

  lemma {:induction false} ScheduleKeepsOk(events: seq<Event>)
    requires After(events).Some?
    ensures Ok(After(events).value)
  {
    if events != [] {
      ScheduleKeepsOk(events[..|events| - 1]);
      StepKeepsOk(After(events[..|events| - 1]).value, events[|events| - 1]);
    }
  }

  // ----- How it ends ------------------------------------------------------------------------

  /** The outcome, by how the two tasks ended: a heartbeat's exception goes before the tick's result. */
  function Verdict(tick: TickState, beat: BeatState): Outcome {
    if beat.Lost? then OwnershipLostRaised
    else if beat.Failed? then HeartbeatErrorRaised
    else if tick.Returned? then SuccessRecorded(tick.work)
    else ErrorRecorded
  }

  /** Every schedule that ends has both tasks finished, and no lost lease is ever recorded as a tick. */
  lemma EndedMeansFinished(events: seq<Event>)
    requires After(events).Some? && After(events).value.point.Ended?
    ensures TickOver(After(events).value) && BeatOver(After(events).value)
    ensures After(events).value.beat.Lost? ==>
              !After(events).value.point.outcome.SuccessRecorded? && !After(events).value.point.outcome.ErrorRecorded?
  {
    ScheduleKeepsOk(events);
  }

  /**
   Unless a cancellation comes from outside or out of the tick itself, the outcome is exactly the one
   the two tasks call for; a lost lease then always ends as the ownership error, also when it is
   found out while the tick is being cancelled, after it has returned, or after it has raised.
   */
  lemma OutcomeIsTheVerdict(events: seq<Event>)
    requires After(events).Some? && After(events).value.point.Ended?
    requires !After(events).value.mainCancelled && !After(events).value.tickQuit
    ensures
      var s := After(events).value;
      s.point.outcome == Verdict(s.tick, s.beat)
  {
    ScheduleKeepsOk(events);
  }

  function Init(events: seq<Event>): seq<Event>
    requires events != []
  {
    events[..|events| - 1]
  }

  function Last(events: seq<Event>): Event
    requires events != []
  {
    events[|events| - 1]
  }

  /** The coroutine awaits no task that is still going on and could absorb a cancellation. */
  predicate NothingAbsorbs(s: State) {
    match s.point
    case FirstWait | JoinTick | JoinBoth => true
    case AwaitTick => TickOver(s)
    case AwaitBeatError | AwaitBeat | CleanUp => BeatOver(s)
    case Ended(_) => false
  }

  /** The coroutine was cancelled when nothing could absorb it. */
  predicate CancelledForGood(events: seq<Event>) {
    events != [] && (CancelledForGood(Init(events))
                     || (Last(events).MainIsCancelled? && After(Init(events)).Some? && NothingAbsorbs(After(Init(events)).value)))
  }

  /** When the first wait was over, the heartbeat had lost the lease or failed. */
  predicate BeatRaisedFirst(events: seq<Event>) {
    events != [] && (BeatRaisedFirst(Init(events))
                     || (Last(events).MainResumes? && After(Init(events)).Some? && SeesBeatRaised(After(Init(events)).value)))
  }

  predicate SeesBeatRaised(s: State) {
    s.point.FirstWait? && !s.pending && (s.beat.Lost? || s.beat.Failed?)
  }

  /** A cancellation ends the tick: one nothing absorbed, one the heartbeat took, or one the tick took while it was awaited. */
  predicate Cancelled(s: State, forGood: bool, beatFirst: bool) {
    forGood || s.beat.BeatCancelled? || (s.tick.TickCancelled? && !beatFirst)
  }

  /** How far the cancellation has come, at each point. */
  predicate Tracks(s: State, forGood: bool, beatFirst: bool) {
    match s.point
    case FirstWait => !beatFirst && (forGood <==> s.pending)
    case JoinTick => beatFirst && (forGood <==> s.pending)
    case AwaitTick => !beatFirst && (forGood <==> s.pending)
    case AwaitBeatError => (forGood <==> s.pending) && (s.tick.TickCancelled? ==> beatFirst)
    case AwaitBeat => (forGood <==> s.pending) && !beatFirst
    case CleanUp => true
    case JoinBoth => forGood || (s.tick.TickCancelled? && !beatFirst)
    case Ended(outcome) =>
      outcome == if Cancelled(s, forGood, beatFirst) then CancelledRaised else Verdict(s.tick, s.beat)
  }

  lemma StepTracks(s: State, event: Event, forGood: bool, beatFirst: bool)
    requires Ok(s) && Next(s, event).Some? && Tracks(s, forGood, beatFirst)
    ensures Tracks(Next(s, event).value, forGood || (event.MainIsCancelled? && NothingAbsorbs(s)),
                   beatFirst || (event.MainResumes? && SeesBeatRaised(s)))
  {
    match event
    case MainResumes => ResumeTracks(s, forGood, beatFirst);
    case MainIsCancelled => CancelTracks(s, forGood, beatFirst);
    case _ => TaskStepTracks(s, event, forGood, beatFirst);
  }

  lemma ResumeTracks(s: State, forGood: bool, beatFirst: bool)
    requires Ok(s) && Resume(s).Some? && Tracks(s, forGood, beatFirst)
    ensures Tracks(Resume(s).value, forGood, beatFirst || SeesBeatRaised(s))
  {
  }

  lemma CancelTracks(s: State, forGood: bool, beatFirst: bool)
    requires Ok(s) && CancelMain(s).Some? && Tracks(s, forGood, beatFirst)
    ensures Tracks(CancelMain(s).value, forGood || NothingAbsorbs(s), beatFirst)
  {
  }

  lemma TaskStepTracks(s: State, event: Event, forGood: bool, beatFirst: bool)
    requires Ok(s) && Next(s, event).Some? && !event.MainResumes? && !event.MainIsCancelled? && Tracks(s, forGood, beatFirst)
    ensures Tracks(Next(s, event).value, forGood, beatFirst)
  {
  }

  lemma {:induction false} ScheduleTracks(events: seq<Event>)
    requires After(events).Some?
    ensures Tracks(After(events).value, CancelledForGood(events), BeatRaisedFirst(events))
  {
    if events != [] {
      ScheduleTracks(Init(events));
      ScheduleKeepsOk(Init(events));
      StepTracks(After(Init(events)).value, Last(events), CancelledForGood(Init(events)), BeatRaisedFirst(Init(events)));
    }
  }

  /**
   The outcome of every schedule: the cancellation exactly if the coroutine was cancelled when nothing
   could absorb that, or the heartbeat took the cancellation passed on to it, or the tick ended
   cancelled and the heartbeat had not raised first; and otherwise the verdict of the two tasks.
   */
  lemma CancelledOutcome(events: seq<Event>)
    requires After(events).Some? && After(events).value.point.Ended?
    ensures
      var s := After(events).value;
      s.point.outcome == if Cancelled(s, CancelledForGood(events), BeatRaisedFirst(events)) then CancelledRaised
                         else Verdict(s.tick, s.beat)
    ensures
      var s := After(events).value;
      s.point.outcome.CancelledRaised? ==> s.mainCancelled || s.tickQuit
  {
    ScheduleKeepsOk(events);
    ScheduleTracks(events);
  }

  /**
   No cancellation is lost on its way: wherever the coroutine stands before its end, it is either to be
   raised there, or passed on to the task that is awaited, which can take it.
   */
  lemma CancellationIsPassedOn(events: seq<Event>)
    requires After(events).Some? && !After(events).value.point.Ended?
    ensures
      var s := After(events).value;
      var c := Next(s, MainIsCancelled);
      && c.Some? && c.value.mainCancelled
      && (NothingAbsorbs(s) ==> c.value.pending)
      && (!NothingAbsorbs(s) && s.point.AwaitTick? ==>
            c.value.tickCancel && Next(c.value, TickIsCancelled) == Some(c.value.(tick := TickCancelled, tickQuit := false)))
      && (!NothingAbsorbs(s) && !s.point.AwaitTick? ==>
            c.value.beatCancel && Next(c.value, BeatIsCancelled) == Some(c.value.(beat := BeatCancelled)))
  {
    ScheduleKeepsOk(events);
  }

  /** A running tick can end in any way at any time, also cancelled although nobody asked for it. */
  lemma TickIsFree(s: State, work: int)
    requires s.tick.Running?
    ensures Next(s, TickReturns(work)) == Some(s.(tick := Returned(work)))
    ensures Next(s, TickRaises) == Some(s.(tick := Raised))
    ensures Next(s, TickIsCancelled) == Some(s.(tick := TickCancelled, tickQuit := !s.tickCancel))
  {
  }

  /**
   A cancellation that arrives in the first wait, or while the tick is joined after the heartbeat raised,
   is the outcome, however the schedule goes on.
   */
  lemma {:induction false} CancellationSurfaces(before: seq<Event>, more: seq<Event>)
    requires After(before).Some? && (After(before).value.point.FirstWait? || After(before).value.point.JoinTick?)
    ensures CancelledForGood(before + [MainIsCancelled] + more)
    ensures
      var end := After(before + [MainIsCancelled] + more);
      end.Some? && end.value.point.Ended? ==> end.value.point.outcome == CancelledRaised
    decreases |more|
  {
    var events := before + [MainIsCancelled] + more;
    if more == [] {
      assert Init(events) == before && Last(events) == MainIsCancelled;
    } else {
      CancellationSurfaces(before, Init(more));
      assert Init(events) == before + [MainIsCancelled] + Init(more);
    }
    if After(events).Some? && After(events).value.point.Ended? {
      CancelledOutcome(events);
    }
  }

  /**
   The clean-up branch of the final await is dead: a cancellation that arrives during that await goes to
   the heartbeat, and one that is raised there arrived when the heartbeat was over.
   */
  lemma FinalCleanupNeverFires(events: seq<Event>)
    requires After(events).Some?
    ensures !After(events).value.point.CleanUp?
  {
    ScheduleKeepsOk(events);
  }

  // ----- Every outcome does happen ----------------------------------------------------------

  predicate EndsIn(events: seq<Event>, outcome: Outcome) {
    After(events).Some? && After(events).value.point == Ended(outcome)
  }

  lemma OneMore(events: seq<Event>, s: State, event: Event)
    requires After(events) == Some(s)
    ensures After(events + [event]) == Next(s, event)
  {
    assert (events + [event])[..|events|] == events;
  }

  /** The tick returns, however often the lease is renewed meanwhile, or raises, and the heartbeat ends. */
  lemma TickDecides(tick: TickState) returns (schedule: seq<Event>)
    requires tick.Returned? || tick.Raised?
    ensures EndsIn(schedule, if tick.Returned? then SuccessRecorded(tick.work) else ErrorRecorded)
  {
    var over := if tick.Returned? then TickReturns(tick.work) else TickRaises;
    var done: State := START.(tick := tick, tickDone := true);
    var point := if tick.Returned? then AwaitBeat else AwaitBeatError;
    OneMore([], START, BeatTimesOut);
    OneMore([] + [BeatTimesOut], START.(beat := Renewing), BeatRenews);
    OneMore([] + [BeatTimesOut] + [BeatRenews], START, over);
    var events: seq<Event> := [] + [BeatTimesOut] + [BeatRenews] + [over];
    OneMore(events, START.(tick := tick), MainResumes);
    OneMore(events + [MainResumes], START.(tick := tick, point := AwaitTick), MainResumes);
    OneMore(events + [MainResumes] + [MainResumes], done.(point := point), BeatWakes);
    OneMore(events + [MainResumes] + [MainResumes] + [BeatWakes], done.(point := point, beat := Finished), MainResumes);
    schedule := events + [MainResumes] + [MainResumes] + [BeatWakes] + [MainResumes];
  }

  /** A renewal that is refused, or fails, while the tick runs: the tick is cancelled and the heartbeat decides. */
  lemma HeartbeatDecides(lost: bool) returns (schedule: seq<Event>)
    ensures EndsIn(schedule, if lost then OwnershipLostRaised else HeartbeatErrorRaised)
  {
    var over, beat := if lost then BeatLosesLease else BeatFails, if lost then Lost else Failed;
    var raised: State := START.(beat := beat);
    OneMore([], START, BeatTimesOut);
    OneMore([] + [BeatTimesOut], START.(beat := Renewing), over);
    var events: seq<Event> := [] + [BeatTimesOut] + [over];
    OneMore(events, raised, MainResumes);
    var joining: State := raised.(tickCancel := true, point := JoinTick);
    OneMore(events + [MainResumes], joining, TickIsCancelled);
    OneMore(events + [MainResumes] + [TickIsCancelled], joining.(tick := TickCancelled), MainResumes);
    var after: State := joining.(tick := TickCancelled, tickDone := true, point := AwaitBeatError);
    OneMore(events + [MainResumes] + [TickIsCancelled] + [MainResumes], after, MainResumes);
    schedule := events + [MainResumes] + [TickIsCancelled] + [MainResumes] + [MainResumes];
  }

  // ----- It does end ------------------------------------------------------------------------

  /** Steps a state still has to go when the tick, the renewal and the cancellations hold still. */
  function Remaining(s: State): nat {
    (if s.tick.Running? then 2 else 0)
    + (if s.tickDone then 0 else 1)
    + (match s.beat case Waiting => 2 case Renewing => 1 case _ => 0)
    + (match s.point
       case FirstWait => 4 case JoinTick => 3 case AwaitTick => 3
       case AwaitBeatError => 1 case AwaitBeat => 2 case CleanUp => 1 case JoinBoth => 1 case Ended(_) => 0)
  }

  /** Steps from outside: a successful renewal before the tick is done, or a cancellation. */
  predicate Outside(s: State, event: Event) {
    (event.BeatRenews? && !s.tickDone) || event.MainIsCancelled?
  }

  lemma StepsAreSpent(s: State, event: Event)
    requires Ok(s) && Next(s, event).Some?
    ensures !Outside(s, event) ==> Remaining(Next(s, event).value) < Remaining(s)
    ensures Outside(s, event) ==> Remaining(Next(s, event).value) <= Remaining(s) + 1
  {
    match event
    case MainResumes => ResumeIsSpent(s);
    case MainIsCancelled => CancelCostsNothing(s);
    case _ => TaskStepIsSpent(s, event);
  }

  lemma ResumeIsSpent(s: State)
    requires Ok(s) && Resume(s).Some?
    ensures Remaining(Resume(s).value) < Remaining(s)
  {
  }

  lemma CancelCostsNothing(s: State)
    requires CancelMain(s).Some?
    ensures Remaining(CancelMain(s).value) == Remaining(s)
  {
  }

  lemma TaskStepIsSpent(s: State, event: Event)
    requires Next(s, event).Some? && !event.MainResumes? && !event.MainIsCancelled?
    ensures !Outside(s, event) ==> Remaining(Next(s, event).value) < Remaining(s)
    ensures Outside(s, event) ==> Remaining(Next(s, event).value) <= Remaining(s) + 1
  {
  }

  /** A state that has not ended is never stuck, even if no more renewals and cancellations come. */
  lemma NeverStuck(s: State)
    requires Ok(s) && !s.point.Ended?
    ensures exists event :: !Outside(s, event) && Next(s, event).Some?
  {
    if s.tick.Running? {
      assert Next(s, TickRaises).Some?;
    } else if !s.tickDone {
      assert Next(s, TickCallback).Some?;
    } else if s.beat.Waiting? {
      assert Next(s, BeatWakes).Some?;
    } else if s.beat.Renewing? {
      assert Next(s, BeatRenews).Some?;
    } else {
      assert Next(s, MainResumes).Some?;
    }
  }

  function OutsideSteps(events: seq<Event>): nat {
    if events == [] then 0
    else
      var before := After(events[..|events| - 1]);
      OutsideSteps(events[..|events| - 1])
      + if before.Some? && Outside(before.value, events[|events| - 1]) then 1 else 0
  }

  /** Every schedule is finite: apart from two steps for each renewal or cancellation, it has at most nine. */
  lemma {:induction false} SchedulesAreBounded(events: seq<Event>)
    requires After(events).Some?
    ensures |events| + Remaining(After(events).value) <= 9 + 2 * OutsideSteps(events)
  {
    if events != [] {
      var before := events[..|events| - 1];
      SchedulesAreBounded(before);
      ScheduleKeepsOk(before);
      StepsAreSpent(After(before).value, events[|events| - 1]);
    }
  }
}

/**
 AutomationService.run: the supervised loops, the stop event, the one look `run` takes at its loops,
 and the shutdown, as a state machine.

 An event is one scheduling step.  Within the supervised loop a turn that neither returns nor crashes is
 no event.  That a loop returns only once the stop event is set is RunLoop's contract.
 */
module ServiceRun {
  import opened Options
  import Supervision

  /** A supervised loop with the crashes so far, or how its supervisor ended. */
  datatype Loop =
    | AtHead(failures: nat) | InLoop(failures: nat) | InBackoff(failures: nat)
    | Returned | Failed | Cancelled

  /** What `run` raises for a loop. */
  datatype Fatality = LoopError(loop: nat) | UnexpectedExit(loop: nat)

  datatype RunEnd = Finished | Raised(fatal: Fatality) | CancelledRaised

  /** Where `run` stands. */
  datatype Point =
    | FirstWait          // asyncio.wait on the stop event and all loops
    | AwaitStop          // after the look: await stop_event.wait()
    | Joining            // finally: gather all loops, with a timeout
    | JoiningCancelled   // the timeout has run out: the loops were cancelled and are gathered
    | Releasing          // release the leases
    | CutShort           // cancelled inside the finally: the loops were cancelled, and the rest is skipped
    | Ended(end: RunEnd)

  datatype State = State(
    loops: seq<Loop>,
    stop: bool,
    point: Point,
    fatal: Option<Fatality>,
    cancelled: bool,       // `run` was cancelled before its finally
    cancelAsked: bool,     // the loops were cancelled
    released: bool)

  datatype Event =
    | Enter(loop: nat) | Returns(loop: nat) | Crashes(loop: nat) | BackoffEnds(loop: nat) | IsCancelled(loop: nat)
    | OutsideStop | Look | StopSeen | AllJoined | TimesOut | Release | Unwinds
    | RunIsCancelled

  predicate Over(l: Loop) {
    l.Returned? || l.Failed? || l.Cancelled?
  }

  predicate AllOver(loops: seq<Loop>) {
    forall i :: 0 <= i < |loops| ==> Over(loops[i])
  }

  function Start(n: nat): State {
    State(seq(n, _ => AtHead(0)), false, FirstWait, None, false, false, false)
  }

  // ----- The look ---------------------------------------------------------------------------

  /** The loop makes `run` fail, given whether the stop event is set. */
  predicate Condemns(l: Loop, stop: bool) {
    l.Failed? || (l.Returned? && !stop)
  }

  /** The first loop from `i` on that makes `run` fail. */
  function Verdict(loops: seq<Loop>, stop: bool, i: nat): Option<Fatality>
    requires i <= |loops|
    decreases |loops| - i
  {
    if i == |loops| then None
    else if loops[i].Failed? then Some(LoopError(i))
    else if loops[i].Returned? && !stop then Some(UnexpectedExit(i))
    else Verdict(loops, stop, i + 1)
  }

  lemma {:induction false} VerdictIsFirst(loops: seq<Loop>, stop: bool, i: nat)
    requires i <= |loops|
    ensures
      var v := Verdict(loops, stop, i);
      if v.None? then forall k :: i <= k < |loops| ==> !Condemns(loops[k], stop)
      else
        && i <= v.value.loop < |loops| && Condemns(loops[v.value.loop], stop)
        && (v.value.LoopError? <==> loops[v.value.loop].Failed?)
        && forall k :: i <= k < v.value.loop ==> !Condemns(loops[k], stop)
    decreases |loops| - i
  {
    if i < |loops| {
      VerdictIsFirst(loops, stop, i + 1);
    }
  }

  /** The look of `run` at its loops, as the source's loop over the tasks. */
  method FirstFatal(loops: seq<Loop>, stopSet: bool) returns (fatal: Option<Fatality>, stop: bool)
    ensures fatal == Verdict(loops, stopSet, 0)
    ensures stop == (stopSet || fatal.Some?)
  {
    fatal, stop := None, stopSet;
    for i := 0 to |loops|
      invariant fatal.None? && stop == stopSet
      invariant Verdict(loops, stopSet, 0) == Verdict(loops, stopSet, i)
    {
      if !Over(loops[i]) || loops[i].Cancelled? {
        continue;
      }
      if loops[i].Failed? {
        return Some(LoopError(i)), true;
      }
      if !stop {
        return Some(UnexpectedExit(i)), true;
      }
    }
  }

  // ----- Steps ------------------------------------------------------------------------------

  function SetLoop(s: State, i: nat, l: Loop): State
    requires i < |s.loops|
  {
    s.(loops := s.loops[i := l])
  }

  /** A step of the supervised loop `i`; `max` is how many crashes are one too many. */
  function LoopNext(max: int, s: State, event: Event): Option<State>
    requires event.Enter? || event.Returns? || event.Crashes? || event.BackoffEnds? || event.IsCancelled?
  {
    var i := event.loop;
    if i >= |s.loops| then None
    else
      var l := s.loops[i];
      match event
      case Enter(_) => if l.AtHead? then Some(SetLoop(s, i, if s.stop then Returned else InLoop(l.failures))) else None
      case Returns(_) => if l.InLoop? && s.stop then Some(SetLoop(s, i, Returned)) else None
      case Crashes(_) =>
        if !l.InLoop? then None
        else if l.failures + 1 >= max then Some(SetLoop(s, i, Failed).(stop := true))
        else Some(SetLoop(s, i, InBackoff(l.failures + 1)))
      case BackoffEnds(_) => if l.InBackoff? then Some(SetLoop(s, i, AtHead(l.failures))) else None
      case IsCancelled(_) => if l.InLoop? || (s.cancelAsked && !Over(l)) then Some(SetLoop(s, i, Cancelled)) else None
  }

  function Next(max: int, s: State, event: Event): Option<State> {
    match event
    case OutsideStop => if s.stop then None else Some(s.(stop := true))
    case Look =>
      if s.point.FirstWait? && (s.stop || exists i :: 0 <= i < |s.loops| && Over(s.loops[i])) then
        var fatal := Verdict(s.loops, s.stop, 0);
        Some(s.(fatal := fatal, stop := s.stop || fatal.Some?, point := AwaitStop))
      else None
    case StopSeen => if s.point.AwaitStop? && s.stop then Some(s.(point := Joining)) else None
    case AllJoined =>
      if (s.point.Joining? || s.point.JoiningCancelled?) && AllOver(s.loops) then Some(s.(point := Releasing)) else None
    case TimesOut => if s.point.Joining? then Some(s.(cancelAsked := true, point := JoiningCancelled)) else None
    case Release =>
      if s.point.Releasing? then
        Some(s.(released := true,
                point := Ended(if s.cancelled then CancelledRaised else if s.fatal.Some? then Raised(s.fatal.value) else Finished)))
      else None
    case Unwinds => if s.point.CutShort? && AllOver(s.loops) then Some(s.(point := Ended(CancelledRaised))) else None
    case RunIsCancelled =>
      if s.point.FirstWait? || s.point.AwaitStop? then Some(s.(cancelled := true, stop := true, point := Joining))
      else if s.point.Joining? || s.point.JoiningCancelled? || s.point.Releasing?
      then Some(s.(cancelAsked := true, point := CutShort))
      else None
    case _ => LoopNext(max, s, event)
  }

  /** The state after a schedule, if every event was enabled in turn. */
  function After(max: int, n: nat, events: seq<Event>): Option<State> {
    if events == [] then Some(Start(n))
    else
      var before := After(max, n, events[..|events| - 1]);
      if before.None? then None else Next(max, before.value, events[|events| - 1])
  }

  // ----- What a run keeps -------------------------------------------------------------------

  /** Before the look only an outside stop, or a loop that failed for good, sets the stop event. */
  ghost predicate Ok(max: int, s: State) {
    && (forall i :: 0 <= i < |s.loops| && (s.loops[i].AtHead? || s.loops[i].InLoop? || s.loops[i].InBackoff?) ==>
          s.loops[i].failures < Supervision.AtLeastOne(max))
    && (forall i :: 0 <= i < |s.loops| && (s.loops[i].Returned? || s.loops[i].Failed?) ==> s.stop)
    && (s.fatal.Some? ==> s.fatal.value.LoopError? && s.fatal.value.loop < |s.loops| && s.loops[s.fatal.value.loop].Failed?)
    && (s.point.FirstWait? ==> s.fatal.None?)
    && (s.point.FirstWait? || s.point.AwaitStop? ==> !s.cancelled)
    && (!s.point.FirstWait? && !s.point.AwaitStop? ==> s.stop)
    && (s.point.Releasing? ==> AllOver(s.loops))
    && (s.released ==> s.point.Ended?)
    && (s.point.JoiningCancelled? || s.point.CutShort? ==> s.cancelAsked)
    && (s.point.Ended? ==>
          && AllOver(s.loops)
          && (s.released && !s.cancelled ==>
                s.point.end == if s.fatal.Some? then Raised(s.fatal.value) else Finished)
          && (!s.released || s.cancelled ==> s.point.end == CancelledRaised))
  }

  lemma LoopStepKeepsOk(max: int, s: State, event: Event)
    requires event.Enter? || event.Returns? || event.Crashes? || event.BackoffEnds? || event.IsCancelled?
    requires Ok(max, s) && LoopNext(max, s, event).Some?
    ensures Ok(max, LoopNext(max, s, event).value)
  {
    var i, next := event.loop, LoopNext(max, s, event).value;
    SetLoopKeepsOk(max, s.(stop := next.stop), i, next.loops[i]);
  }

  /** A loop that is not over may go on, end, or fail, if the stop event is set when it must be. */
  lemma SetLoopKeepsOk(max: int, s: State, i: nat, l: Loop)
    requires Ok(max, s) && i < |s.loops| && !Over(s.loops[i])
    requires if Over(l) then l.Cancelled? || s.stop else l.failures < Supervision.AtLeastOne(max)
    ensures Ok(max, SetLoop(s, i, l))
  {
  }

  lemma StepKeepsOk(max: int, s: State, event: Event)
    requires Ok(max, s) && Next(max, s, event).Some?
    ensures Ok(max, Next(max, s, event).value)
  {
    match event
    case Enter(_) | Returns(_) | Crashes(_) | BackoffEnds(_) | IsCancelled(_) => LoopStepKeepsOk(max, s, event);
    case Look => VerdictIsFirst(s.loops, s.stop, 0);
    case _ =>
  }

  lemma {:induction false} ScheduleKeepsOk(max: int, n: nat, events: seq<Event>)
    requires After(max, n, events).Some?
    ensures Ok(max, After(max, n, events).value)
  {
    if events != [] {
      ScheduleKeepsOk(max, n, events[..|events| - 1]);
      StepKeepsOk(max, After(max, n, events[..|events| - 1]).value, events[|events| - 1]);
    }
  }

  // ----- Histories --------------------------------------------------------------------------

  function Init(events: seq<Event>): seq<Event>
    requires events != []
  {
    events[..|events| - 1]
  }

  function Last(events: seq<Event>): Event
    requires events != []
  {
    events[|events| - 1]
  }

  predicate FirstFailed(loops: seq<Loop>, i: nat) {
    i < |loops| && loops[i].Failed? && forall k :: 0 <= k < i ==> !loops[k].Failed?
  }

  predicate SomeFailed(loops: seq<Loop>) {
    exists i :: 0 <= i < |loops| && loops[i].Failed?
  }

  /** When `run` looked at its loops, `i` was the first that had failed for good. */
  predicate FailedByLook(max: int, n: nat, events: seq<Event>, i: nat) {
    events != [] && (FailedByLook(max, n, Init(events), i)
                     || (Last(events).Look? && After(max, n, Init(events)).Some?
                         && FirstFailed(After(max, n, Init(events)).value.loops, i)))
  }

  predicate RunCancelled(events: seq<Event>) {
    RunIsCancelled in events
  }

  predicate InShutdown(s: State) {
    s.point.Joining? || s.point.JoiningCancelled? || s.point.Releasing?
  }

  /** `run` was cancelled while it was shutting down. */
  predicate ShutdownCancelled(max: int, n: nat, events: seq<Event>) {
    events != [] && (ShutdownCancelled(max, n, Init(events))
                     || (Last(events).RunIsCancelled? && After(max, n, Init(events)).Some?
                         && InShutdown(After(max, n, Init(events)).value)))
  }

  /** Before the look somebody outside set the stop event or cancelled `run`, or a cancellation came out of a loop. */
  predicate DisturbedBeforeLook(events: seq<Event>) {
    events != [] && (DisturbedBeforeLook(Init(events)) || (Look !in Init(events) && Disturbs(Last(events))))
  }

  predicate Disturbs(event: Event) {
    event.OutsideStop? || event.RunIsCancelled? || event.IsCancelled?
  }

  // ----- What surfaces ----------------------------------------------------------------------

  lemma LookStep(max: int, s: State, event: Event, i: nat)
    requires Ok(max, s) && Next(max, s, event).Some?
    ensures Next(max, s, event).value.fatal == Some(LoopError(i)) <==>
            s.fatal == Some(LoopError(i)) || (event.Look? && FirstFailed(s.loops, i))
  {
    if event.Look? {
      VerdictIsFirst(s.loops, s.stop, 0);
    }
  }

  lemma {:induction false} LookDecides(max: int, n: nat, events: seq<Event>, i: nat)
    requires After(max, n, events).Some?
    ensures After(max, n, events).value.fatal == Some(LoopError(i)) <==> FailedByLook(max, n, events, i)
  {
    if events != [] {
      LookDecides(max, n, Init(events), i);
      ScheduleKeepsOk(max, n, Init(events));
      LookStep(max, After(max, n, Init(events)).value, Last(events), i);
    }
  }

  predicate ShowsCutShort(s: State) {
    s.point.CutShort? || (s.point.Ended? && !s.released)
  }

  lemma CancellationStep(max: int, s: State, event: Event)
    requires Ok(max, s) && Next(max, s, event).Some?
    ensures
      var next := Next(max, s, event).value;
      && (s.cancelled || ShowsCutShort(s) || event.RunIsCancelled? <==> next.cancelled || ShowsCutShort(next))
      && (ShowsCutShort(s) || (event.RunIsCancelled? && InShutdown(s)) <==> ShowsCutShort(next))
  {
  }

  lemma {:induction false} CancellationShows(max: int, n: nat, events: seq<Event>)
    requires After(max, n, events).Some?
    ensures
      var s := After(max, n, events).value;
      && (RunCancelled(events) <==> s.cancelled || ShowsCutShort(s))
      && (ShutdownCancelled(max, n, events) <==> ShowsCutShort(s))
  {
    if events != [] {
      CancellationShows(max, n, Init(events));
      ScheduleKeepsOk(max, n, Init(events));
      CancellationStep(max, After(max, n, Init(events)).value, Last(events));
      assert events == Init(events) + [Last(events)];
    }
  }

  /**
   A loop's failure for good is raised from `run` if and only if it was the first that had happened by
   the time of the one look, and `run` was not cancelled; nothing else is ever raised but a cancellation.
   */
  lemma RaisedIffFailedByLook(max: int, n: nat, events: seq<Event>, i: nat)
    requires After(max, n, events).Some? && After(max, n, events).value.point.Ended?
    ensures
      var end := After(max, n, events).value.point.end;
      && (end == Raised(LoopError(i)) <==> FailedByLook(max, n, events, i) && !RunCancelled(events))
      && (end.CancelledRaised? <==> RunCancelled(events))
      && end != Raised(UnexpectedExit(i))
  {
    ScheduleKeepsOk(max, n, events);
    LookDecides(max, n, events, i);
    CancellationShows(max, n, events);
  }

  /** Left alone, `run` looks only when a loop has failed for good, and then holds its error. */
  predicate Quiet(s: State, looked: bool) {
    if looked then s.fatal.Some?
    else s.point.FirstWait? && !s.cancelAsked && (s.stop ==> SomeFailed(s.loops))
         && forall i :: 0 <= i < |s.loops| && Over(s.loops[i]) ==> s.stop
  }

  lemma QuietStep(max: int, s: State, event: Event, looked: bool)
    requires Ok(max, s) && Next(max, s, event).Some? && Quiet(s, looked) && (looked || !Disturbs(event))
    ensures Quiet(Next(max, s, event).value, looked || event.Look?)
  {
    if event.Look? {
      VerdictIsFirst(s.loops, s.stop, 0);
    } else if !looked && SomeFailed(s.loops) {
      var i :| 0 <= i < |s.loops| && s.loops[i].Failed?;
      assert Next(max, s, event).value.loops[i].Failed?;
    } else if event.Crashes? && !looked && Next(max, s, event).value.stop {
      assert Next(max, s, event).value.loops[event.loop].Failed?;
    }
  }

  lemma {:induction false} QuietLook(max: int, n: nat, events: seq<Event>)
    requires After(max, n, events).Some? && !DisturbedBeforeLook(events)
    ensures Quiet(After(max, n, events).value, Look in events)
  {
    if events != [] {
      assert events == Init(events) + [Last(events)];
      QuietLook(max, n, Init(events));
      ScheduleKeepsOk(max, n, Init(events));
      QuietStep(max, After(max, n, Init(events)).value, Last(events), Look in Init(events));
    }
  }

  /**
   Unless it was disturbed before the look or cancelled, `run` ends by raising the error of a loop that
   failed for good.
   */
  lemma QuietRunsRaise(max: int, n: nat, events: seq<Event>)
    requires After(max, n, events).Some? && After(max, n, events).value.point.Ended?
    requires !DisturbedBeforeLook(events) && !RunCancelled(events)
    ensures After(max, n, events).value.point.end.Raised?
  {
    QuietLook(max, n, events);
    ScheduleKeepsOk(max, n, events);
    CancellationShows(max, n, events);
  }

  // ----- Shutdown ---------------------------------------------------------------------------

  /** Every run ends with all its loops ended, and with its leases released unless the shutdown was cancelled. */
  lemma EndsReleased(max: int, n: nat, events: seq<Event>)
    requires After(max, n, events).Some? && After(max, n, events).value.point.Ended?
    ensures AllOver(After(max, n, events).value.loops)
    ensures After(max, n, events).value.released <==> !ShutdownCancelled(max, n, events)
  {
    ScheduleKeepsOk(max, n, events);
    CancellationShows(max, n, events);
  }

  // ----- It does end ------------------------------------------------------------------------

  /** Steps a supervised loop still has to go. */
  function LoopLeft(max: int, l: Loop): int {
    var n := Supervision.AtLeastOne(max);
    match l
    case AtHead(failures) => 3 * (n - failures) + 3
    case InLoop(failures) => 3 * (n - failures) + 2
    case InBackoff(failures) => 3 * (n - failures) + 4
    case _ => 0
  }

  function LoopsLeft(max: int, loops: seq<Loop>): int {
    if loops == [] then 0 else LoopLeft(max, loops[0]) + LoopsLeft(max, loops[1..])
  }

  lemma {:induction false} LoopsLeftAfter(max: int, loops: seq<Loop>, i: nat, l: Loop)
    requires i < |loops|
    ensures LoopsLeft(max, loops[i := l]) == LoopsLeft(max, loops) - LoopLeft(max, loops[i]) + LoopLeft(max, l)
  {
    var after := loops[i := l];
    if i == 0 {
      assert after[1..] == loops[1..];
    } else {
      assert after[1..] == loops[1..][i - 1 := l];
      LoopsLeftAfter(max, loops[1..], i - 1, l);
    }
  }

  lemma {:induction false} LoopsLeftAtLeastNothing(max: int, loops: seq<Loop>)
    requires forall i :: 0 <= i < |loops| ==> LoopLeft(max, loops[i]) >= 0
    ensures LoopsLeft(max, loops) >= 0
  {
    if loops != [] {
      LoopsLeftAtLeastNothing(max, loops[1..]);
    }
  }

  lemma {:induction false} LoopsLeftAtStart(max: int, n: nat)
    ensures LoopsLeft(max, Start(n).loops) == n * (3 * Supervision.AtLeastOne(max) + 3)
  {
    if n > 0 {
      LoopsLeftAtStart(max, n - 1);
      assert Start(n).loops[1..] == Start(n - 1).loops;
      Distributes(n - 1, 3 * Supervision.AtLeastOne(max) + 3);
    }
  }

  lemma Distributes(n: int, x: int)
    ensures (n + 1) * x == n * x + x
  {
  }

  function PointLeft(p: Point): nat {
    match p
    case FirstWait => 6 case AwaitStop => 5 case Joining => 4 case JoiningCancelled => 3
    case Releasing => 2 case CutShort => 1 case Ended(_) => 0
  }

  function Remaining(max: int, s: State): int {
    LoopsLeft(max, s.loops) + PointLeft(s.point) + if s.stop then 0 else 1
  }

  lemma StepsAreSpent(max: int, s: State, event: Event)
    requires Ok(max, s) && Next(max, s, event).Some?
    ensures Remaining(max, Next(max, s, event).value) < Remaining(max, s)
  {
    if event.Enter? || event.Returns? || event.Crashes? || event.BackoffEnds? || event.IsCancelled? {
      LoopStepIsSpent(max, s, event);
    }
  }

  lemma LoopStepIsSpent(max: int, s: State, event: Event)
    requires event.Enter? || event.Returns? || event.Crashes? || event.BackoffEnds? || event.IsCancelled?
    requires Ok(max, s) && LoopNext(max, s, event).Some?
    ensures Remaining(max, LoopNext(max, s, event).value) < Remaining(max, s)
  {
    var i, next := event.loop, LoopNext(max, s, event).value;
    LoopsLeftAfter(max, s.loops, i, next.loops[i]);
    assert next.loops == s.loops[i := next.loops[i]];
    assert LoopLeft(max, next.loops[i]) < LoopLeft(max, s.loops[i]);
  }

  /** Every schedule is finite: `3 * max + 3` steps for each loop, and seven more. */
  lemma {:induction false} SchedulesAreBounded(max: int, n: nat, events: seq<Event>)
    requires After(max, n, events).Some?
    ensures |events| + Remaining(max, After(max, n, events).value) <= n * (3 * Supervision.AtLeastOne(max) + 3) + 7
    ensures |events| <= n * (3 * Supervision.AtLeastOne(max) + 3) + 7
  {
    ScheduleKeepsOk(max, n, events);
    LoopsLeftAtLeastNothing(max, After(max, n, events).value.loops);
    if events == [] {
      LoopsLeftAtStart(max, n);
    } else {
      SchedulesAreBounded(max, n, Init(events));
      ScheduleKeepsOk(max, n, Init(events));
      StepsAreSpent(max, After(max, n, Init(events)).value, Last(events));
    }
  }

  /** Once the stop event is set, `run` is never stuck before its end: some loop or `run` itself can go on. */
  lemma NeverStuck(max: int, n: nat, events: seq<Event>)
    requires After(max, n, events).Some?
    requires After(max, n, events).value.stop && !After(max, n, events).value.point.Ended?
    ensures exists event: Event :: !event.RunIsCancelled? && Next(max, After(max, n, events).value, event).Some?
  {
    ScheduleKeepsOk(max, n, events);
    GoesOn(max, After(max, n, events).value);
  }

  lemma GoesOn(max: int, s: State)
    requires Ok(max, s) && s.stop && !s.point.Ended?
    ensures exists event: Event :: !event.RunIsCancelled? && Next(max, s, event).Some?
  {
    if s.point.FirstWait? {
      assert Next(max, s, Look).Some?;
    } else if s.point.AwaitStop? {
      assert Next(max, s, StopSeen).Some?;
    } else if s.point.Releasing? {
      assert Next(max, s, Release).Some?;
    } else if AllOver(s.loops) {
      assert Next(max, s, if s.point.CutShort? then Unwinds else AllJoined).Some?;
    } else {
      var i: nat :| i < |s.loops| && !Over(s.loops[i]);
      assert Next(max, s, if s.loops[i].AtHead? then Enter(i) else if s.loops[i].InLoop? then Returns(i) else BackoffEnds(i)).Some?;
    }
  }

  /** Once the stop event is set, a loop that comes to its head or to the end of a turn can only return. */
  lemma StopIsHeeded(max: int, n: nat, events: seq<Event>, i: nat)
    requires After(max, n, events).Some? && After(max, n, events).value.stop && i < |After(max, n, events).value.loops|
    ensures
      var s := After(max, n, events).value;
      && (s.loops[i].AtHead? ==> Next(max, s, Enter(i)) == Some(SetLoop(s, i, Returned)))
      && (s.loops[i].InLoop? ==> Next(max, s, Returns(i)) == Some(SetLoop(s, i, Returned)))
  {
  }

  /**
   A join that lasts too long can always be given up, and then, or when `run` is cancelled in it, every
   loop that is not over can be cancelled; a loop that is over is left as it is.  A cancellation can come
   out of a running loop at any time.
   */
  lemma TimedOutLoopsAreCancelled(max: int, n: nat, events: seq<Event>, i: nat)
    requires After(max, n, events).Some? && i < |After(max, n, events).value.loops|
    ensures
      var s := After(max, n, events).value;
      && (s.point.Joining? ==> Next(max, s, TimesOut).Some? && Next(max, s, TimesOut).value.point.JoiningCancelled?)
      && (s.loops[i].InLoop? ==> Next(max, s, IsCancelled(i)) == Some(SetLoop(s, i, Cancelled)))
      && (s.point.JoiningCancelled? || s.point.CutShort? ==>
            Next(max, s, IsCancelled(i)) == if Over(s.loops[i]) then None else Some(SetLoop(s, i, Cancelled)))
  {
    ScheduleKeepsOk(max, n, events);
  }

  // ----- Crashes ----------------------------------------------------------------------------

  function CrashCount(events: seq<Event>, i: nat): nat {
    if events == [] then 0 else CrashCount(Init(events), i) + if Last(events) == Crashes(i) then 1 else 0
  }

  /** A loop with `count` crashes is one that failed for good exactly if that is too many. */
  predicate Counted(max: int, l: Loop, count: nat) {
    && count <= Supervision.AtLeastOne(max)
    && (l.Failed? <==> count == Supervision.AtLeastOne(max))
    && (l.AtHead? || l.InLoop? || l.InBackoff? ==> l.failures == count)
  }

  lemma CrashStep(max: int, s: State, event: Event, i: nat, count: nat)
    requires Ok(max, s) && Next(max, s, event).Some? && i < |s.loops| && Counted(max, s.loops[i], count)
    ensures |Next(max, s, event).value.loops| == |s.loops|
    ensures Counted(max, Next(max, s, event).value.loops[i], if event == Crashes(i) then count + 1 else count)
  {
    if event.Enter? || event.Returns? || event.Crashes? || event.BackoffEnds? || event.IsCancelled? {
      LoopCrashStep(max, s, event, i, count);
    }
  }

  lemma LoopCrashStep(max: int, s: State, event: Event, i: nat, count: nat)
    requires event.Enter? || event.Returns? || event.Crashes? || event.BackoffEnds? || event.IsCancelled?
    requires Ok(max, s) && LoopNext(max, s, event).Some? && i < |s.loops| && Counted(max, s.loops[i], count)
    ensures |LoopNext(max, s, event).value.loops| == |s.loops|
    ensures Counted(max, LoopNext(max, s, event).value.loops[i], if event == Crashes(i) then count + 1 else count)
  {
    if event.loop != i {
      assert LoopNext(max, s, event).value.loops[i] == s.loops[i];
    }
  }

  /** A loop crashes at most `max` times (once, if that is less), and fails for good at the last of them; the stop event is then set. */
  lemma {:induction false} CrashesAreBounded(max: int, n: nat, events: seq<Event>, i: nat)
    requires After(max, n, events).Some? && i < n
    ensures |After(max, n, events).value.loops| == n
    ensures Counted(max, After(max, n, events).value.loops[i], CrashCount(events, i))
    ensures After(max, n, events).value.loops[i].Failed? ==> After(max, n, events).value.stop
  {
    ScheduleKeepsOk(max, n, events);
    if events != [] {
      CrashesAreBounded(max, n, Init(events), i);
      ScheduleKeepsOk(max, n, Init(events));
      CrashStep(max, After(max, n, Init(events)).value, Last(events), i, CrashCount(Init(events), i));
    }
  }

  // ----- A failure that is lost -------------------------------------------------------------

  lemma OneMore(max: int, n: nat, events: seq<Event>, s: State, event: Event)
    requires After(max, n, events) == Some(s)
    ensures After(max, n, events + [event]) == Next(max, s, event)
  {
    assert (events + [event])[..|events|] == events;
  }

  /** The loop crashes `k` times and is run again each time. */
  function CrashCycles(k: nat): seq<Event> {
    if k == 0 then [] else CrashCycles(k - 1) + [Enter(0)] + [Crashes(0)] + [BackoffEnds(0)]
  }

  /** The run of a single loop that has crashed `k` times, before the look. */
  function OneLoop(l: Loop): State {
    State([l], false, FirstWait, None, false, false, false)
  }

  lemma CycleOnce(max: int, before: seq<Event>, k: nat)
    requires After(max, 1, before) == Some(OneLoop(AtHead(k))) && k + 1 < Supervision.AtLeastOne(max)
    ensures After(max, 1, before + [Enter(0)] + [Crashes(0)] + [BackoffEnds(0)]) == Some(OneLoop(AtHead(k + 1)))
  {
    OneMore(max, 1, before, OneLoop(AtHead(k)), Enter(0));
    assert [AtHead(k)][0 := InLoop(k)] == [InLoop(k)];
    OneMore(max, 1, before + [Enter(0)], OneLoop(InLoop(k)), Crashes(0));
    assert [InLoop(k)][0 := InBackoff(k + 1)] == [InBackoff(k + 1)];
    OneMore(max, 1, before + [Enter(0)] + [Crashes(0)], OneLoop(InBackoff(k + 1)), BackoffEnds(0));
    assert [InBackoff(k + 1)][0 := AtHead(k + 1)] == [AtHead(k + 1)];
  }

  lemma {:induction false} CrashCyclesRun(max: int, k: nat)
    requires k < Supervision.AtLeastOne(max)
    ensures After(max, 1, CrashCycles(k)) == Some(OneLoop(AtHead(k)))
  {
    if k == 0 {
      assert Start(1).loops == [AtHead(0)];
    } else {
      CrashCyclesRun(max, k - 1);
      CycleOnce(max, CrashCycles(k - 1), k - 1);
    }
  }

  /** The loop is stopped from outside, `run` looks and finds nothing, and then the loop fails for good. */
  function LateFailure(max: int): seq<Event> {
    CrashCycles(Supervision.AtLeastOne(max) - 1)
    + [Enter(0)] + [OutsideStop] + [Look] + [Crashes(0)] + [StopSeen] + [AllJoined] + [Release]
  }

  /** Whatever the number of crashes allowed, a loop can fail for good and `run` ends as if nothing had happened. */
  lemma LateFailureIsLost(max: int)
    ensures
      var end := After(max, 1, LateFailure(max));
      end.Some? && end.value.loops == [Failed] && end.value.point == Ended(Finished) && end.value.released
  {
    var k := Supervision.AtLeastOne(max) - 1;
    var events := CrashCycles(k) + [Enter(0)] + [OutsideStop] + [Look] + [Crashes(0)];
    var s: State := OneLoop(Failed).(stop := true, point := AwaitStop);
    FailsAfterLook(max, k);
    OneMore(max, 1, events, s, StopSeen);
    OneMore(max, 1, events + [StopSeen], s.(point := Joining), AllJoined);
    OneMore(max, 1, events + [StopSeen] + [AllJoined], s.(point := Releasing), Release);
  }

  lemma FailsAfterLook(max: int, k: nat)
    requires k == Supervision.AtLeastOne(max) - 1
    ensures After(max, 1, CrashCycles(k) + [Enter(0)] + [OutsideStop] + [Look] + [Crashes(0)])
            == Some(OneLoop(Failed).(stop := true, point := AwaitStop))
  {
    var events := CrashCycles(k);
    var s: State := OneLoop(AtHead(k));
    CrashCyclesRun(max, k);
    OneMore(max, 1, events, s, Enter(0));
    assert s.loops[0 := InLoop(k)] == [InLoop(k)];
    OneMore(max, 1, events + [Enter(0)], s.(loops := [InLoop(k)]), OutsideStop);
    OneMore(max, 1, events + [Enter(0)] + [OutsideStop], s.(loops := [InLoop(k)], stop := true), Look);
    assert Verdict([InLoop(k)], true, 0) == Verdict([InLoop(k)], true, 1) == None;
    OneMore(max, 1, events + [Enter(0)] + [OutsideStop] + [Look],
            s.(loops := [InLoop(k)], stop := true, point := AwaitStop), Crashes(0));
    assert [InLoop(k)][0 := Failed] == [Failed];
  }

  /** Stopped from outside, and cancelled while it waits for its loop to end. */
  function CancelledShutdown(): seq<Event> {
    [] + [OutsideStop] + [Look] + [StopSeen] + [RunIsCancelled] + [Enter(0)] + [Unwinds]
  }

  /** Such a run ends with its loop ended and its leases not released. */
  lemma CancelledShutdownKeepsLeases(max: int)
    ensures
      var end := After(max, 1, CancelledShutdown());
      end.Some? && end.value.loops == [Returned] && end.value.point.Ended? && !end.value.released
  {
    var s: State := OneLoop(AtHead(0));
    assert Start(1).loops == [AtHead(0)];
    OneMore(max, 1, [], s, OutsideStop);
    OneMore(max, 1, [] + [OutsideStop], s.(stop := true), Look);
    assert Verdict([AtHead(0)], true, 0) == Verdict([AtHead(0)], true, 1) == None;
    OneMore(max, 1, [] + [OutsideStop] + [Look], s.(stop := true, point := AwaitStop), StopSeen);
    OneMore(max, 1, [] + [OutsideStop] + [Look] + [StopSeen], s.(stop := true, point := Joining), RunIsCancelled);
    var cut: State := s.(stop := true, point := CutShort, cancelAsked := true);
    OneMore(max, 1, [] + [OutsideStop] + [Look] + [StopSeen] + [RunIsCancelled], cut, Enter(0));
    assert [AtHead(0)][0 := Returned] == [Returned];
    OneMore(max, 1, [] + [OutsideStop] + [Look] + [StopSeen] + [RunIsCancelled] + [Enter(0)],
            cut.(loops := [Returned]), Unwinds);
  }
}

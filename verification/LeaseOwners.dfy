/**
 The owners that compete for the lease rows, as processes: each claims, ticks under a heartbeat that
 renews the lease, records, waits, and claims again.

 An event is a transaction of one owner, the end of a tick, a release or a crash, with its time.  All that
 is assumed of an owner is that none of its own steps comes too late after it was due.
 */
module LeaseOwners {
  import opened Options
  import opened LeaseTable

  // ----- Waits ------------------------------------------------------------------------------

  /** `math.ceil`. */
  function Ceil(x: real): int {
    -((-x).Floor)
  }

  function LeaseSeconds(interval: real): int {
    if Ceil(interval * 4.0) > 5 then Ceil(interval * 4.0) else 5
  }

  function MaxReal(a: real, b: real): real {
    if a >= b then a else b
  }

  function MinReal(a: real, b: real): real {
    if a <= b then a else b
  }

  /** How long the heartbeat task waits between renewals. */
  function HeartbeatInterval(interval: real, leaseSeconds: int): real {
    MinReal(MaxReal(interval, 0.1), MaxReal(leaseSeconds as real / 2.0, 0.5))
  }

  /** Whatever the interval, both waits of an owner are at most a quarter of its lease. */
  lemma WaitsAreQuarterLeases(interval: real)
    ensures interval <= LeaseSeconds(interval) as real / 4.0
    ensures 0.0 < HeartbeatInterval(interval, LeaseSeconds(interval)) <= LeaseSeconds(interval) as real / 4.0
    ensures LeaseSeconds(interval) >= 5
  {
    assert interval * 4.0 <= Ceil(interval * 4.0) as real;
  }

  /** The lease is the least whole number of seconds, five or more, that covers four intervals. */
  lemma LeaseIsLeast(interval: real, n: int)
    ensures n >= LeaseSeconds(interval) <==> n >= 5 && n as real >= 4.0 * interval
  {
  }

  /** The heartbeat period is the interval, but never less than a tenth of a second. */
  lemma HeartbeatIsInterval(interval: real)
    ensures HeartbeatInterval(interval, LeaseSeconds(interval)) == if interval >= 0.1 then interval else 0.1
  {
    LeaseIsLeast(interval, LeaseSeconds(interval));
  }

  // ----- Owners -----------------------------------------------------------------------------

  /** What an owner is doing about a loop. */
  datatype Phase =
    | Standby               // not owning it
    | Ticking(last: real)   // a tick runs under a lease claimed or last renewed at `last`
    | Losing                // a renewal was refused, and the tick is being cancelled
    | Between(last: real)   // waiting for the next tick after a record at `last`

  /** The interval at which each owner runs each loop. */
  type Config = (Owner, Loop) -> real

  function Lease(cfg: Config, owner: Owner, loop: Loop): int {
    LeaseSeconds(cfg(owner, loop))
  }

  datatype Event =
    | Claims(owner: Owner, loop: Loop, at: real)
    | Renews(owner: Owner, loop: Loop, at: real)
    | Succeeds(owner: Owner, loop: Loop, work: int, at: real)
    | Fails(owner: Owner, loop: Loop, error: string, at: real)
    | Drops(owner: Owner, loop: Loop, at: real)   // the tick ends without a record
    | Releases(owner: Owner, at: real)
    | Crashes(owner: Owner, at: real)

  datatype State = State(rows: Rows, phases: map<(Owner, Loop), Phase>)

  function PhaseOf(s: State, owner: Owner, loop: Loop): Phase {
    if (owner, loop) in s.phases then s.phases[(owner, loop)] else Standby
  }

  predicate Ticks(p: Phase) {
    p.Ticking? || p.Losing?
  }

  /** The transaction of an event. */
  function StepOf(cfg: Config, e: Event): Step
    requires !e.Drops? && !e.Crashes?
  {
    match e
    case Claims(owner, loop, at) => Claim(owner, loop, Lease(cfg, owner, loop), at)
    case Renews(owner, loop, at) => Renew(owner, loop, Lease(cfg, owner, loop), at)
    case Succeeds(owner, loop, work, at) => Success(owner, loop, Lease(cfg, owner, loop), work, at)
    case Fails(owner, loop, error, at) => Failure(owner, loop, Lease(cfg, owner, loop), error, at)
    case Releases(owner, at) => Release(owner, at)
  }

  function Moves(s: State, rows: Rows, owner: Owner, loop: Loop, p: Phase): State {
    State(rows, s.phases[(owner, loop) := p])
  }

  /** All loops of the owner are on standby, and no tick of its is left. */
  function Rests(s: State, rows: Rows, owner: Owner): State {
    State(rows, map k | k in s.phases && k.0 != owner :: s.phases[k])
  }

  function Next(cfg: Config, s: State, e: Event): Option<State> {
    match e
    case Crashes(owner, _) => Some(Rests(s, s.rows, owner))
    case Releases(owner, at) =>
      if exists k :: k in s.phases && k.0 == owner && Ticks(s.phases[k]) then None
      else Some(Rests(s, Apply(s.rows, StepOf(cfg, e)), owner))
    case Drops(owner, loop, _) => if Ticks(PhaseOf(s, owner, loop)) then Some(Moves(s, s.rows, owner, loop, Standby)) else None
    case Claims(owner, loop, at) =>
      if Ticks(PhaseOf(s, owner, loop)) then None
      else Some(Moves(s, Apply(s.rows, StepOf(cfg, e)), owner, loop,
                      if Granted(s.rows, StepOf(cfg, e)) then Ticking(at) else Standby))
    case Renews(owner, loop, at) =>
      if !PhaseOf(s, owner, loop).Ticking? then None
      else Some(Moves(s, Apply(s.rows, StepOf(cfg, e)), owner, loop,
                      if Granted(s.rows, StepOf(cfg, e)) then Ticking(at) else Losing))
    case _ =>
      if !PhaseOf(s, e.owner, e.loop).Ticking? then None
      else Some(Moves(s, Apply(s.rows, StepOf(cfg, e)), e.owner, e.loop, Between(e.at)))
  }

  type Run = seq<Event>

  function Init(run: Run): Run
    requires run != []
  {
    run[..|run| - 1]
  }

  function Last(run: Run): Event
    requires run != []
  {
    run[|run| - 1]
  }

  /** The state after a run, if every event was possible in turn. */
  function After(cfg: Config, loops: set<Loop>, run: Run): Option<State> {
    if run == [] then Some(State(map loop | loop in loops :: FRESH, map[]))
    else
      var before := After(cfg, loops, Init(run));
      if before.None? then None else Next(cfg, before.value, Last(run))
  }

  /** A tick ends only by an event of its own: a record, an end without one, or the crash of its owner. */
  lemma TicksEndByThemselves(cfg: Config, s: State, e: Event, owner: Owner, loop: Loop)
    requires Next(cfg, s, e).Some? && Ticks(PhaseOf(s, owner, loop))
    ensures !Ticks(PhaseOf(Next(cfg, s, e).value, owner, loop)) ==>
              e.owner == owner && (e.Crashes? || ((e.Succeeds? || e.Fails? || e.Drops?) && e.loop == loop))
  {
  }

  /** A tick can end in a record of either kind, in none, or in the crash of its owner, after which nothing of the owner's is left. */
  lemma TicksMayEnd(cfg: Config, s: State, owner: Owner, loop: Loop, work: int, error: string, at: real)
    requires PhaseOf(s, owner, loop).Ticking?
    ensures
      && Next(cfg, s, Succeeds(owner, loop, work, at)).Some? && Next(cfg, s, Fails(owner, loop, error, at)).Some?
      && Next(cfg, s, Drops(owner, loop, at)).Some? && Next(cfg, s, Crashes(owner, at)).Some?
    ensures PhaseOf(Next(cfg, s, Succeeds(owner, loop, work, at)).value, owner, loop) == Between(at)
    ensures PhaseOf(Next(cfg, s, Fails(owner, loop, error, at)).value, owner, loop) == Between(at)
    ensures PhaseOf(Next(cfg, s, Drops(owner, loop, at)).value, owner, loop) == Standby
    ensures forall other :: PhaseOf(Next(cfg, s, Crashes(owner, at)).value, owner, other) == Standby
  {
  }

  // ----- Punctuality ------------------------------------------------------------------------

  /** The time does not go back, and has reached `end`. */
  predicate Timed(run: Run, end: real) {
    && (forall i, j :: 0 <= i < j < |run| ==> run[i].at <= run[j].at)
    && (forall i :: 0 <= i < |run| ==> run[i].at <= end)
  }

  /** The event is the owner's own and concerns the loop. */
  predicate Acts(e: Event, owner: Owner, loop: Loop) {
    e.owner == owner && (e.Releases? || e.Crashes? || e.loop == loop)
  }

  /** The next step of an owner in this phase is less than three quarters of a lease overdue at `now`. */
  predicate InTime(cfg: Config, owner: Owner, loop: Loop, p: Phase, now: real) {
    var interval, lease := cfg(owner, loop), Lease(cfg, owner, loop);
    match p
    case Ticking(last) => now < last + HeartbeatInterval(interval, lease) + 3.0 * lease as real / 4.0
    case Between(last) => now < last + interval + 3.0 * lease as real / 4.0
    case _ => true
  }

  /** Each of the owner's own events about the loop came in time. */
  predicate ActsInTime(cfg: Config, loops: set<Loop>, run: Run, owner: Owner, loop: Loop) {
    run == [] ||
    (&& ActsInTime(cfg, loops, Init(run), owner, loop)
     && (Acts(Last(run), owner, loop) && After(cfg, loops, Init(run)).Some? ==>
           InTime(cfg, owner, loop, PhaseOf(After(cfg, loops, Init(run)).value, owner, loop), Last(run).at)))
  }

  /** Each of the owner's own events came in time, and it is not overdue at the end of the run. */
  predicate Punctual(cfg: Config, loops: set<Loop>, run: Run, owner: Owner, loop: Loop, end: real) {
    && ActsInTime(cfg, loops, run, owner, loop)
    && (After(cfg, loops, run).Some? ==> InTime(cfg, owner, loop, PhaseOf(After(cfg, loops, run).value, owner, loop), end))
  }

  lemma OthersKeepPhase(cfg: Config, s: State, e: Event, owner: Owner, loop: Loop)
    requires Next(cfg, s, e).Some? && !Acts(e, owner, loop)
    ensures PhaseOf(Next(cfg, s, e).value, owner, loop) == PhaseOf(s, owner, loop)
  {
  }

  /** An owner that is punctual up to the end was punctual up to the last event, whosever it was. */
  lemma PunctualBefore(cfg: Config, loops: set<Loop>, run: Run, owner: Owner, loop: Loop, end: real)
    requires run != [] && After(cfg, loops, run).Some? && Timed(run, end)
    requires Punctual(cfg, loops, run, owner, loop, end)
    ensures Punctual(cfg, loops, Init(run), owner, loop, Last(run).at) && Timed(Init(run), Last(run).at)
  {
    if !Acts(Last(run), owner, loop) {
      OthersKeepPhase(cfg, After(cfg, loops, Init(run)).value, Last(run), owner, loop);
    }
    assert Last(run) == run[|run| - 1];
  }

  lemma {:induction false} PunctualPrefix(cfg: Config, loops: set<Loop>, run: Run, owner: Owner, loop: Loop, end: real, i: nat)
    requires After(cfg, loops, run).Some? && Timed(run, end) && i <= |run|
    requires Punctual(cfg, loops, run, owner, loop, end)
    ensures After(cfg, loops, run[..i]).Some?
    ensures Timed(run[..i], if i < |run| then run[i].at else end)
    ensures Punctual(cfg, loops, run[..i], owner, loop, if i < |run| then run[i].at else end)
    decreases |run|
  {
    if i == |run| {
      assert run[..i] == run;
    } else {
      PunctualBefore(cfg, loops, run, owner, loop, end);
      PunctualPrefix(cfg, loops, Init(run), owner, loop, Last(run).at, i);
      assert Init(run)[..i] == run[..i];
      assert i < |Init(run)| ==> Init(run)[i] == run[i];
    }
  }

  // ----- The row of a punctual owner --------------------------------------------------------

  /** An owner that ticks or waits between ticks has the row, from its last step; its renewals are never refused. */
  predicate Holding(cfg: Config, s: State, owner: Owner, loop: Loop) {
    match PhaseOf(s, owner, loop)
    case Standby => true
    case Losing => false
    case Ticking(last) => HasRow(s.rows, owner, loop, Until(last, Lease(cfg, owner, loop)))
    case Between(last) => HasRow(s.rows, owner, loop, Until(last, Lease(cfg, owner, loop)))
  }

  predicate HasRow(rows: Rows, owner: Owner, loop: Loop, until: real) {
    loop in rows && rows[loop].ownerId == Some(owner) && rows[loop].leaseExpiresAt == Some(until)
  }

  /** In time means within the lease. */
  lemma InTimeIsLive(cfg: Config, s: State, owner: Owner, loop: Loop, now: real)
    requires Holding(cfg, s, owner, loop) && InTime(cfg, owner, loop, PhaseOf(s, owner, loop), now)
    requires !PhaseOf(s, owner, loop).Standby?
    ensures loop in s.rows && OwnedLive(s.rows[loop], owner, now)
  {
    WaitsAreQuarterLeases(cfg(owner, loop));
  }

  lemma OwnStepKeepsHolding(cfg: Config, s: State, e: Event, owner: Owner, loop: Loop)
    requires Next(cfg, s, e).Some? && Acts(e, owner, loop) && Holding(cfg, s, owner, loop)
    requires InTime(cfg, owner, loop, PhaseOf(s, owner, loop), e.at)
    ensures Holding(cfg, Next(cfg, s, e).value, owner, loop)
  {
    if !PhaseOf(s, owner, loop).Standby? {
      InTimeIsLive(cfg, s, owner, loop, e.at);
    }
  }

  lemma OtherStepKeepsHolding(cfg: Config, s: State, e: Event, owner: Owner, loop: Loop)
    requires Next(cfg, s, e).Some? && !Acts(e, owner, loop) && Holding(cfg, s, owner, loop) && owner != ""
    requires InTime(cfg, owner, loop, PhaseOf(s, owner, loop), e.at)
    ensures Holding(cfg, Next(cfg, s, e).value, owner, loop)
  {
    OthersKeepPhase(cfg, s, e, owner, loop);
    if !PhaseOf(s, owner, loop).Standby? {
      InTimeIsLive(cfg, s, owner, loop, e.at);
    }
  }

  /** In every run, and whatever the other owners do, a punctual owner has the row it believes it has. */
  lemma {:induction false} PunctualOwnerHolds(cfg: Config, loops: set<Loop>, run: Run, owner: Owner, loop: Loop, end: real)
    requires After(cfg, loops, run).Some? && Timed(run, end) && owner != ""
    requires Punctual(cfg, loops, run, owner, loop, end)
    ensures Holding(cfg, After(cfg, loops, run).value, owner, loop)
  {
    if run != [] {
      var s := After(cfg, loops, Init(run)).value;
      PunctualBefore(cfg, loops, run, owner, loop, end);
      PunctualOwnerHolds(cfg, loops, Init(run), owner, loop, Last(run).at);
      if Acts(Last(run), owner, loop) {
        OwnStepKeepsHolding(cfg, s, Last(run), owner, loop);
      } else {
        OtherStepKeepsHolding(cfg, s, Last(run), owner, loop);
      }
    }
  }

  // ----- What punctuality buys --------------------------------------------------------------

  /** Whether the transaction of the event took effect: never for a claim, renewal or record that was refused. */
  predicate TakesEffect(cfg: Config, s: State, e: Event)
    requires !e.Drops? && !e.Crashes? && !e.Releases?
  {
    Granted(s.rows, StepOf(cfg, e))
  }

  /**
   A punctual owner is never dislodged, for ticks of any length and any interleaving with any other
   owners: each of its renewals, records and claims between ticks takes effect, no claim of anybody else
   does while it ticks or waits between ticks, and it never loses a lease.
   */
  lemma LiveOwnerIsNeverDislodged(cfg: Config, loops: set<Loop>, run: Run, owner: Owner, loop: Loop, end: real, i: nat)
    requires After(cfg, loops, run).Some? && Timed(run, end) && owner != "" && i < |run|
    requires Punctual(cfg, loops, run, owner, loop, end)
    ensures After(cfg, loops, run[..i]).Some?
    ensures
      var s, e := After(cfg, loops, run[..i]).value, run[i];
      var p := PhaseOf(s, owner, loop);
      && !p.Losing?
      && (!p.Standby? && !e.Drops? && !e.Crashes? && !e.Releases? && e.loop == loop ==>
            (TakesEffect(cfg, s, e) <==> e.owner == owner))
  {
    PunctualPrefix(cfg, loops, run, owner, loop, end, i);
    PunctualOwnerHolds(cfg, loops, run[..i], owner, loop, run[i].at);
    var s := After(cfg, loops, run[..i]).value;
    if !PhaseOf(s, owner, loop).Standby? {
      InTimeIsLive(cfg, s, owner, loop, run[i].at);
    }
  }

  /** At every moment of every run, of any two punctual owners at most one ticks a loop or is between two ticks of it. */
  lemma AtMostOneOwnerTicks(cfg: Config, loops: set<Loop>, run: Run, a: Owner, b: Owner, loop: Loop, end: real, i: nat)
    requires After(cfg, loops, run).Some? && Timed(run, end) && i <= |run|
    requires a != b && a != "" && b != ""
    requires Punctual(cfg, loops, run, a, loop, end) && Punctual(cfg, loops, run, b, loop, end)
    ensures After(cfg, loops, run[..i]).Some?
    ensures
      var s := After(cfg, loops, run[..i]).value;
      PhaseOf(s, a, loop).Standby? || PhaseOf(s, b, loop).Standby?
  {
    var now := if i < |run| then run[i].at else end;
    PunctualPrefix(cfg, loops, run, a, loop, end, i);
    PunctualPrefix(cfg, loops, run, b, loop, end, i);
    PunctualOwnerHolds(cfg, loops, run[..i], a, loop, now);
    PunctualOwnerHolds(cfg, loops, run[..i], b, loop, now);
  }

  // ----- Ticks of any length ----------------------------------------------------------------

  function Beat(cfg: Config, owner: Owner, loop: Loop): real {
    HeartbeatInterval(cfg(owner, loop), Lease(cfg, owner, loop))
  }

  /** When the owner claims at zero and renews each time it is due, the time of the renewal `k`. */
  function BeatTime(cfg: Config, owner: Owner, loop: Loop, k: nat): real {
    if k == 0 then 0.0 else BeatTime(cfg, owner, loop, k - 1) + Beat(cfg, owner, loop)
  }

  /** One tick with `k` renewals. */
  function LongTick(cfg: Config, owner: Owner, loop: Loop, k: nat): (run: Run)
    ensures |run| == k + 1
  {
    if k == 0 then [Claims(owner, loop, 0.0)]
    else LongTick(cfg, owner, loop, k - 1) + [Renews(owner, loop, BeatTime(cfg, owner, loop, k))]
  }

  /** After the run the owner ticks since `last`, and it has been punctual. */
  predicate StillTicks(cfg: Config, loops: set<Loop>, run: Run, owner: Owner, loop: Loop, last: real) {
    && After(cfg, loops, run).Some?
    && PhaseOf(After(cfg, loops, run).value, owner, loop) == Ticking(last)
    && Timed(run, last) && Punctual(cfg, loops, run, owner, loop, last)
  }

  lemma TimedSnoc(run: Run, e: Event, end: real)
    requires Timed(run, end) && end <= e.at
    ensures Timed(run + [e], e.at)
  {
  }

  lemma OneMoreRenewal(cfg: Config, loops: set<Loop>, run: Run, owner: Owner, loop: Loop, last: real)
    requires owner != "" && StillTicks(cfg, loops, run, owner, loop, last)
    ensures
      var next := last + Beat(cfg, owner, loop);
      StillTicks(cfg, loops, run + [Renews(owner, loop, next)], owner, loop, next)
  {
    var next := last + Beat(cfg, owner, loop);
    var renewal := Renews(owner, loop, next);
    WaitsAreQuarterLeases(cfg(owner, loop));
    PunctualOwnerHolds(cfg, loops, run, owner, loop, last);
    InTimeIsLive(cfg, After(cfg, loops, run).value, owner, loop, next);
    TimedSnoc(run, renewal, last);
    assert Init(run + [renewal]) == run && Last(run + [renewal]) == renewal;
  }

  lemma FreshIsFree(rows: Rows, step: Step)
    requires step.Claim? && step.loop in rows && rows[step.loop] == FRESH
    ensures Granted(rows, step)
  {
  }

  lemma FirstClaimTicks(cfg: Config, loops: set<Loop>, owner: Owner, loop: Loop)
    requires loop in loops
    ensures StillTicks(cfg, loops, [Claims(owner, loop, 0.0)], owner, loop, 0.0)
  {
    var run := [Claims(owner, loop, 0.0)];
    var rows := map l | l in loops :: FRESH;
    var s := State(rows, map[]);
    WaitsAreQuarterLeases(cfg(owner, loop));
    assert Init(run) == [];
    assert After(cfg, loops, []) == Some(s);
    assert After(cfg, loops, run) == Next(cfg, s, run[0]);
    FreshIsFree(rows, StepOf(cfg, run[0]));
    assert PhaseOf(After(cfg, loops, run).value, owner, loop) == Ticking(0.0);
    assert ActsInTime(cfg, loops, Init(run), owner, loop) && PhaseOf(s, owner, loop) == Standby;
    assert ActsInTime(cfg, loops, run, owner, loop);
    assert InTime(cfg, owner, loop, Ticking(0.0), 0.0);
  }

  /** However long a tick goes on, an owner that renews when it is due is punctual, and still ticks. */
  lemma {:induction false} LongTickIsPunctual(cfg: Config, loops: set<Loop>, owner: Owner, loop: Loop, k: nat)
    requires loop in loops && owner != ""
    ensures StillTicks(cfg, loops, LongTick(cfg, owner, loop, k), owner, loop, BeatTime(cfg, owner, loop, k))
  {
    if k == 0 {
      FirstClaimTicks(cfg, loops, owner, loop);
    } else {
      LongTickIsPunctual(cfg, loops, owner, loop, k - 1);
      LongerTick(cfg, loops, owner, loop, k);
    }
  }

  lemma LongerTick(cfg: Config, loops: set<Loop>, owner: Owner, loop: Loop, k: nat)
    requires k > 0 && owner != ""
    requires StillTicks(cfg, loops, LongTick(cfg, owner, loop, k - 1), owner, loop, BeatTime(cfg, owner, loop, k - 1))
    ensures StillTicks(cfg, loops, LongTick(cfg, owner, loop, k), owner, loop, BeatTime(cfg, owner, loop, k))
  {
    var before, last := LongTick(cfg, owner, loop, k - 1), BeatTime(cfg, owner, loop, k - 1);
    OneMoreRenewal(cfg, loops, before, owner, loop, last);
    assert BeatTime(cfg, owner, loop, k) == last + Beat(cfg, owner, loop);
  }

  /** A tick that is recorded at once, and the next claim when it is due: the owner ticks again. */
  lemma NextTickIsPunctual(cfg: Config, loops: set<Loop>, run: Run, owner: Owner, loop: Loop, last: real, work: int)
    requires owner != "" && cfg(owner, loop) >= 0.0 && StillTicks(cfg, loops, run, owner, loop, last)
    ensures
      var next := last + cfg(owner, loop);
      StillTicks(cfg, loops, run + [Succeeds(owner, loop, work, last)] + [Claims(owner, loop, next)], owner, loop, next)
  {
    var next := last + cfg(owner, loop);
    var recorded := run + [Succeeds(owner, loop, work, last)];
    Recorded(cfg, loops, run, owner, loop, last, work);
    PunctualOwnerHolds(cfg, loops, recorded, owner, loop, last);
    WaitsAreQuarterLeases(cfg(owner, loop));
    InTimeIsLive(cfg, After(cfg, loops, recorded).value, owner, loop, next);
    TimedSnoc(recorded, Claims(owner, loop, next), last);
    assert Init(recorded + [Claims(owner, loop, next)]) == recorded;
  }

  lemma Recorded(cfg: Config, loops: set<Loop>, run: Run, owner: Owner, loop: Loop, last: real, work: int)
    requires StillTicks(cfg, loops, run, owner, loop, last) && cfg(owner, loop) >= 0.0
    ensures
      var recorded := run + [Succeeds(owner, loop, work, last)];
      && After(cfg, loops, recorded).Some? && Timed(recorded, last)
      && PhaseOf(After(cfg, loops, recorded).value, owner, loop) == Between(last)
      && Punctual(cfg, loops, recorded, owner, loop, last)
  {
    var recorded := run + [Succeeds(owner, loop, work, last)];
    WaitsAreQuarterLeases(cfg(owner, loop));
    TimedSnoc(run, Succeeds(owner, loop, work, last), last);
    assert Init(recorded) == run && Last(recorded) == Succeeds(owner, loop, work, last);
  }
}

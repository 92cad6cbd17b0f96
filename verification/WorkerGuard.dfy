/**
 The worker effect guard: at most one execution for an assignment.

 A worker session runs `run_one`: it acknowledges the assignment, looks whether the server had to
 create the effect key, executes only then, and submits.  Responses get lost, workers crash, the
 server recovers assignments under a higher attempt number, and any worker may run an assignment
 again.  A run is any interleaving of these steps.
 */
module WorkerGuard {
  import opened Options

  type Id = string
  type WorkerId = string

  datatype Status = Pending | Dispatched(worker: WorkerId) | Acknowledged(worker: WorkerId) | Over

  datatype Assignment = Assignment(status: Status, attempt: nat)

  /** Where a session of `run_one` stands. */
  datatype Phase = Fresh | Replied(created: Option<bool>) | Executing | Executed | Refusing | Done

  datatype Session = Session(worker: WorkerId, assignment: Id, phase: Phase)

  /**
   The server's rows and keys, the sessions, and two histories: each start of an executor by its
   assignment, and those starts for which the server had not said whether the key was new.
   */
  datatype State = State(
    assignments: map<Id, Assignment>,
    keys: set<string>,
    sessions: map<nat, Session>,
    starts: multiset<Id>,
    unguarded: multiset<Id>)

  /** How the server derives an effect key from an assignment and its attempt. */
  type Scheme = (Id, nat) -> string

  /** The key the server derives: the attempt number is not part of it. */
  function DefaultEffectKey(id: Id, attempt: nat): string {
    id
  }

  datatype Step =
    | Claim(worker: WorkerId, id: Id)
    | Begin(session: nat, worker: WorkerId, id: Id)
    | Ack(session: nat, reports: bool)
    | Look(session: nat)
    | Finish(session: nat)
    | Submit(session: nat)
    | Drop(session: nat)   // a response is lost, or the worker crashes
    | Recover(id: Id)

  predicate InFlight(status: Status) {
    status.Dispatched? || status.Acknowledged?
  }

  function SetPhase(st: State, s: nat, phase: Phase): State
    requires s in st.sessions
  {
    st.(sessions := st.sessions[s := st.sessions[s].(phase := phase)])
  }

  /** The server accepts the acknowledgement only of the worker it dispatched the assignment to. */
  function AckStep(scheme: Scheme, st: State, s: nat, reports: bool): State
    requires s in st.sessions
  {
    var session := st.sessions[s];
    var id := session.assignment;
    if !session.phase.Fresh? then st
    else if id !in st.assignments || st.assignments[id].status != Dispatched(session.worker) then SetPhase(st, s, Done)
    else
      var a := st.assignments[id];
      var key := scheme(id, a.attempt);
      SetPhase(st, s, Replied(if reports then Some(key !in st.keys) else None))
        .(keys := st.keys + {key}, assignments := st.assignments[id := a.(status := Acknowledged(session.worker))])
  }

  /** The worker refuses to execute if the reply says that the key was already reserved. */
  function LookStep(st: State, s: nat): State
    requires s in st.sessions
  {
    var session := st.sessions[s];
    if !session.phase.Replied? then st
    else if session.phase.created == Some(false) then SetPhase(st, s, Refusing)
    else
      SetPhase(st, s, Executing)
        .(starts := st.starts + multiset{session.assignment},
          unguarded := if session.phase.created == None then st.unguarded + multiset{session.assignment} else st.unguarded)
  }

  /** A result or a refusal is submitted; the server makes sure that the key is there. */
  function SubmitStep(scheme: Scheme, st: State, s: nat): State
    requires s in st.sessions
  {
    var session := st.sessions[s];
    var id := session.assignment;
    if !session.phase.Executed? && !session.phase.Refusing? then st
    else if id in st.assignments && InFlight(st.assignments[id].status) && st.assignments[id].status.worker == session.worker then
      SetPhase(st, s, Done)
        .(keys := st.keys + {scheme(id, st.assignments[id].attempt)},
          assignments := st.assignments[id := st.assignments[id].(status := Over)])
    else SetPhase(st, s, Done)
  }

  /** An in-flight assignment goes back to the queue under the next attempt, if there is one. */
  function RecoverStep(maxAttempts: nat, st: State, id: Id): State {
    if id !in st.assignments || !InFlight(st.assignments[id].status) then st
    else
      var a := st.assignments[id];
      var next := if a.attempt + 1 > maxAttempts then a.(status := Over) else Assignment(Pending, a.attempt + 1);
      st.(assignments := st.assignments[id := next])
  }

  function Apply(scheme: Scheme, maxAttempts: nat, st: State, step: Step): State {
    match step
    case Claim(worker, id) =>
      if id in st.assignments && st.assignments[id].status.Pending?
      then st.(assignments := st.assignments[id := st.assignments[id].(status := Dispatched(worker))]) else st
    case Begin(s, worker, id) =>
      if s in st.sessions then st else st.(sessions := st.sessions[s := Session(worker, id, Fresh)])
    case Ack(s, reports) => if s in st.sessions then AckStep(scheme, st, s, reports) else st
    case Look(s) => if s in st.sessions then LookStep(st, s) else st
    case Finish(s) => if s in st.sessions && st.sessions[s].phase.Executing? then SetPhase(st, s, Executed) else st
    case Submit(s) => if s in st.sessions then SubmitStep(scheme, st, s) else st
    case Drop(s) => if s in st.sessions then SetPhase(st, s, Done) else st
    case Recover(id) => RecoverStep(maxAttempts, st, id)
  }

  function Run(scheme: Scheme, maxAttempts: nat, st: State, steps: seq<Step>): State
    decreases |steps|
  {
    if steps == [] then st else Run(scheme, maxAttempts, Apply(scheme, maxAttempts, st, steps[0]), steps[1..])
  }

  /** All assignments pending under their first attempt, and nothing else yet. */
  function Initial(ids: set<Id>): State {
    State(map id | id in ids :: Assignment(Pending, 1), {}, map[], multiset{}, multiset{})
  }

  // ----- At most once -----------------------------------------------------------------------

  /** All attempts of an assignment share one key. */
  ghost predicate AttemptIndependent(scheme: Scheme, maxAttempts: nat) {
    forall id, m, n :: 1 <= m <= maxAttempts && 1 <= n <= maxAttempts ==> scheme(id, m) == scheme(id, n)
  }

  /** The session was told that its acknowledgement created the key, and has not acted on it. */
  predicate HoldsPermit(st: State, s: nat, id: Id) {
    s in st.sessions && st.sessions[s].assignment == id && st.sessions[s].phase == Replied(Some(true))
  }

  /** What every step keeps, for one assignment: a start, and a permit to start, each used the key up. */
  ghost predicate Guarded(scheme: Scheme, maxAttempts: nat, st: State, id: Id) {
    && (id in st.assignments ==> 1 <= st.assignments[id].attempt && (st.assignments[id].attempt <= maxAttempts || maxAttempts == 0))
    && (forall s :: HoldsPermit(st, s, id) ==> scheme(id, 1) in st.keys)
    && (forall s, t :: HoldsPermit(st, s, id) && HoldsPermit(st, t, id) ==> s == t)
    && st.starts[id] <= st.unguarded[id] + 1
    && (st.starts[id] == st.unguarded[id] + 1 ==> scheme(id, 1) in st.keys && forall s :: !HoldsPermit(st, s, id))
  }

  lemma StepKeepsGuarded(scheme: Scheme, maxAttempts: nat, st: State, step: Step, id: Id)
    requires maxAttempts >= 1 && AttemptIndependent(scheme, maxAttempts)
    requires Guarded(scheme, maxAttempts, st, id)
    ensures Guarded(scheme, maxAttempts, Apply(scheme, maxAttempts, st, step), id)
  {
    match step {
      case Ack(s, reports) =>
        if s in st.sessions {
          AckKeepsGuarded(scheme, maxAttempts, st, s, reports, id);
        }
      case Look(s) =>
        if s in st.sessions {
          LookKeepsGuarded(scheme, maxAttempts, st, s, id);
        }
      case Submit(s) =>
        if s in st.sessions {
          SubmitKeepsGuarded(scheme, maxAttempts, st, s, id);
        }
      case Recover(other) => RecoverKeepsGuarded(scheme, maxAttempts, st, other, id);
      case _ =>
        FewerPermits(st, Apply(scheme, maxAttempts, st, step), id);
    }
  }

  lemma SubmitKeepsGuarded(scheme: Scheme, maxAttempts: nat, st: State, s: nat, id: Id)
    requires s in st.sessions && Guarded(scheme, maxAttempts, st, id)
    ensures Guarded(scheme, maxAttempts, SubmitStep(scheme, st, s), id)
  {
    FewerPermits(st, SubmitStep(scheme, st, s), id);
  }

  lemma RecoverKeepsGuarded(scheme: Scheme, maxAttempts: nat, st: State, other: Id, id: Id)
    requires maxAttempts >= 1 && Guarded(scheme, maxAttempts, st, id)
    ensures Guarded(scheme, maxAttempts, RecoverStep(maxAttempts, st, other), id)
  {
    FewerPermits(st, RecoverStep(maxAttempts, st, other), id);
  }

  lemma FewerPermits(before: State, after: State, id: Id)
    requires before.sessions.Keys <= after.sessions.Keys
    requires forall s :: s in after.sessions && after.sessions[s].phase == Replied(Some(true)) ==>
               s in before.sessions && after.sessions[s] == before.sessions[s]
    ensures forall s :: HoldsPermit(after, s, id) ==> HoldsPermit(before, s, id)
  {
  }

  lemma AckKeepsGuarded(scheme: Scheme, maxAttempts: nat, st: State, s: nat, reports: bool, id: Id)
    requires maxAttempts >= 1 && AttemptIndependent(scheme, maxAttempts) && s in st.sessions
    requires Guarded(scheme, maxAttempts, st, id)
    ensures Guarded(scheme, maxAttempts, AckStep(scheme, st, s, reports), id)
  {
    var after := AckStep(scheme, st, s, reports);
    forall t | t != s ensures HoldsPermit(after, t, id) <==> HoldsPermit(st, t, id) {}
    if st.sessions[s].assignment == id && id in st.assignments {
      assert scheme(id, st.assignments[id].attempt) == scheme(id, 1);
    }
  }

  lemma LookKeepsGuarded(scheme: Scheme, maxAttempts: nat, st: State, s: nat, id: Id)
    requires s in st.sessions && Guarded(scheme, maxAttempts, st, id)
    ensures Guarded(scheme, maxAttempts, LookStep(st, s), id)
  {
    var after := LookStep(st, s);
    forall t | t != s ensures HoldsPermit(after, t, id) <==> HoldsPermit(st, t, id) {}
    assert !HoldsPermit(after, s, id);
    var started := st.sessions[s].assignment;
    if st.sessions[s].phase.Replied? && started == id {
      var created := st.sessions[s].phase.created;
      if created == None {
        assert after.starts[id] == st.starts[id] + 1 && after.unguarded[id] == st.unguarded[id] + 1;
      } else if created.value {
        assert HoldsPermit(st, s, id);
        assert after.starts[id] == st.starts[id] + 1 && after.unguarded[id] == st.unguarded[id];
      }
    } else if st.sessions[s].phase.Replied? {
      assert after.starts[id] == st.starts[id] && after.unguarded[id] == st.unguarded[id];
    }
  }

  lemma {:induction false} RunKeepsGuarded(scheme: Scheme, maxAttempts: nat, st: State, steps: seq<Step>, id: Id)
    requires maxAttempts >= 1 && AttemptIndependent(scheme, maxAttempts)
    requires Guarded(scheme, maxAttempts, st, id)
    ensures Guarded(scheme, maxAttempts, Run(scheme, maxAttempts, st, steps), id)
    decreases |steps|
  {
    if steps != [] {
      StepKeepsGuarded(scheme, maxAttempts, st, steps[0], id);
      RunKeepsGuarded(scheme, maxAttempts, Apply(scheme, maxAttempts, st, steps[0]), steps[1..], id);
    }
  }

  /**
   Over every interleaving, the executor starts for an assignment at most once, plus once for each
   reply that did not say whether the key was new.
   */
  lemma StartsAreBounded(scheme: Scheme, maxAttempts: nat, ids: set<Id>, steps: seq<Step>, id: Id)
    requires maxAttempts >= 1 && AttemptIndependent(scheme, maxAttempts)
    ensures
      var end := Run(scheme, maxAttempts, Initial(ids), steps);
      end.starts[id] <= end.unguarded[id] + 1
  {
    RunKeepsGuarded(scheme, maxAttempts, Initial(ids), steps, id);
  }

  /** Every acknowledgement of the run reports whether it created the key. */
  predicate Reporting(steps: seq<Step>) {
    forall i :: 0 <= i < |steps| && steps[i].Ack? ==> steps[i].reports
  }

  ghost predicate AtMostOnce(scheme: Scheme, maxAttempts: nat) {
    forall ids, steps, id :: Reporting(steps) ==> Run(scheme, maxAttempts, Initial(ids), steps).starts[id] <= 1
  }

  lemma {:induction false} ReportingIsGuarded(scheme: Scheme, maxAttempts: nat, st: State, steps: seq<Step>)
    requires Reporting(steps) && st.unguarded == multiset{}
    requires forall s :: s in st.sessions ==> st.sessions[s].phase != Replied(None)
    ensures Run(scheme, maxAttempts, st, steps).unguarded == multiset{}
    decreases |steps|
  {
    if steps != [] {
      var next := Apply(scheme, maxAttempts, st, steps[0]);
      assert steps[0].Ack? ==> steps[0].reports;
      assert Reporting(steps[1..]) by {
        assert forall i :: 0 <= i < |steps[1..]| ==> steps[1..][i] == steps[i + 1];
      }
      ReportingIsGuarded(scheme, maxAttempts, next, steps[1..]);
    }
  }

  // ----- One acknowledgement for each attempt -----------------------------------------------

  /** The step is an acknowledgement the server accepts for that attempt of the assignment. */
  predicate Accepts(st: State, step: Step, id: Id, attempt: nat) {
    && step.Ack? && step.session in st.sessions
    && st.sessions[step.session].phase.Fresh? && st.sessions[step.session].assignment == id
    && id in st.assignments && st.assignments[id] == Assignment(Dispatched(st.sessions[step.session].worker), attempt)
  }

  /** Accepted acknowledgements of an attempt over a run. */
  function AcceptedAcks(scheme: Scheme, maxAttempts: nat, st: State, steps: seq<Step>, id: Id, attempt: nat): nat
    decreases |steps|
  {
    if steps == [] then 0
    else (if Accepts(st, steps[0], id, attempt) then 1 else 0)
         + AcceptedAcks(scheme, maxAttempts, Apply(scheme, maxAttempts, st, steps[0]), steps[1..], id, attempt)
  }

  /** The attempt has not been acknowledged: it lies ahead, or waits for a worker or for its acknowledgement. */
  predicate Unacknowledged(st: State, id: Id, attempt: nat) {
    id in st.assignments &&
    var a := st.assignments[id];
    a.attempt < attempt || (a.attempt == attempt && (a.status.Pending? || a.status.Dispatched?))
  }

  lemma AckStepOnce(scheme: Scheme, maxAttempts: nat, st: State, step: Step, id: Id, attempt: nat)
    ensures Accepts(st, step, id, attempt) ==>
              Unacknowledged(st, id, attempt) && !Unacknowledged(Apply(scheme, maxAttempts, st, step), id, attempt)
    ensures Unacknowledged(Apply(scheme, maxAttempts, st, step), id, attempt) ==> Unacknowledged(st, id, attempt)
  {
  }

  /** Over every interleaving each attempt of an assignment is acknowledged at most once. */
  lemma {:induction false} AcknowledgedAtMostOnce(scheme: Scheme, maxAttempts: nat, st: State, steps: seq<Step>, id: Id, attempt: nat)
    ensures AcceptedAcks(scheme, maxAttempts, st, steps, id, attempt) <= if Unacknowledged(st, id, attempt) then 1 else 0
    decreases |steps|
  {
    if steps != [] {
      AckStepOnce(scheme, maxAttempts, st, steps[0], id, attempt);
      AcknowledgedAtMostOnce(scheme, maxAttempts, Apply(scheme, maxAttempts, st, steps[0]), steps[1..], id, attempt);
    }
  }

  /** Only a recovery takes an assignment away from the worker it is in flight at, and only an accepted submit ends it there. */
  lemma KeptUntilRecovered(scheme: Scheme, maxAttempts: nat, st: State, step: Step, id: Id)
    requires id in st.assignments && InFlight(st.assignments[id].status) && step != Recover(id)
    ensures
      var before, after := st.assignments[id], Apply(scheme, maxAttempts, st, step).assignments;
      && id in after && after[id].attempt == before.attempt
      && (InFlight(after[id].status) ==> after[id].status.worker == before.status.worker)
      && (!InFlight(after[id].status) ==>
            step.Submit? && after[id].status == Over && st.sessions[step.session].worker == before.status.worker)
  {
  }

  /** A recovery requeues an in-flight assignment under the next attempt, or ends it after the last one. */
  lemma RecoverRequeues(scheme: Scheme, maxAttempts: nat, st: State, id: Id)
    requires id in st.assignments && InFlight(st.assignments[id].status)
    ensures
      var before, after := st.assignments[id], Apply(scheme, maxAttempts, st, Recover(id)).assignments[id];
      if before.attempt < maxAttempts then after == Assignment(Pending, before.attempt + 1) else after.status == Over
  {
  }

  // ----- Over is over -----------------------------------------------------------------------

  /** An accepted submit ends the assignment, and leaves its key reserved. */
  lemma SubmitEnds(scheme: Scheme, maxAttempts: nat, st: State, s: nat)
    requires s in st.sessions && (st.sessions[s].phase.Executed? || st.sessions[s].phase.Refusing?)
    requires st.sessions[s].assignment in st.assignments
    requires InFlight(st.assignments[st.sessions[s].assignment].status)
             && st.assignments[st.sessions[s].assignment].status.worker == st.sessions[s].worker
    ensures
      var id, after := st.sessions[s].assignment, Apply(scheme, maxAttempts, st, Submit(s));
      && after.assignments[id].status == Over && after.sessions[s].phase == Done
      && scheme(id, st.assignments[id].attempt) in after.keys
  {
  }

  /** A session that is done, by a crash or in the end, does nothing any more. */
  lemma {:induction false} DoneStaysDone(scheme: Scheme, maxAttempts: nat, st: State, steps: seq<Step>, s: nat)
    requires s in st.sessions && st.sessions[s].phase == Done
    ensures s in Run(scheme, maxAttempts, st, steps).sessions && Run(scheme, maxAttempts, st, steps).sessions[s] == st.sessions[s]
    decreases |steps|
  {
    if steps != [] {
      DoneStaysDone(scheme, maxAttempts, Apply(scheme, maxAttempts, st, steps[0]), steps[1..], s);
    }
  }

  lemma DropEnds(scheme: Scheme, maxAttempts: nat, st: State, s: nat)
    requires s in st.sessions
    ensures
      var after := Apply(scheme, maxAttempts, st, Drop(s));
      after.sessions[s].phase == Done && after.assignments == st.assignments && after.keys == st.keys && after.starts == st.starts
  {
  }

  /** An assignment that is over is never claimed, dispatched or recovered again. */
  lemma {:induction false} OverStaysOver(scheme: Scheme, maxAttempts: nat, st: State, steps: seq<Step>, id: Id)
    requires id in st.assignments && st.assignments[id].status == Over
    ensures id in Run(scheme, maxAttempts, st, steps).assignments
    ensures Run(scheme, maxAttempts, st, steps).assignments[id] == st.assignments[id]
    decreases |steps|
  {
    if steps != [] {
      OverStaysOver(scheme, maxAttempts, Apply(scheme, maxAttempts, st, steps[0]), steps[1..], id);
    }
  }

  // ----- Why the key must not depend on the attempt -----------------------------------------

  lemma {:induction false} RunAppend(scheme: Scheme, maxAttempts: nat, st: State, a: seq<Step>, b: seq<Step>)
    ensures Run(scheme, maxAttempts, st, a + b) == Run(scheme, maxAttempts, Run(scheme, maxAttempts, st, a), b)
    decreases |a|
  {
    if a == [] {
      assert a + b == b;
    } else {
      assert (a + b)[0] == a[0] && (a + b)[1..] == a[1..] + b;
      RunAppend(scheme, maxAttempts, Apply(scheme, maxAttempts, st, a[0]), a[1..], b);
    }
  }

  /** `k` workers claim the assignment and crash before they acknowledge it. */
  function Churn(id: Id, k: nat): (steps: seq<Step>)
    ensures Reporting(steps)
  {
    if k == 0 then [] else [Claim("w", id), Recover(id)] + Churn(id, k - 1)
  }

  /** The state with the assignment pending under the given attempt. */
  function AttemptRaised(st: State, id: Id, attempt: nat): State {
    st.(assignments := st.assignments[id := Assignment(Pending, attempt)])
  }

  lemma {:induction false} ChurnRaisesAttempt(scheme: Scheme, maxAttempts: nat, st: State, id: Id, k: nat, attempt: nat)
    requires id in st.assignments && st.assignments[id].status == Pending
    requires st.assignments[id].attempt + k == attempt <= maxAttempts
    ensures Run(scheme, maxAttempts, st, Churn(id, k)) == AttemptRaised(st, id, attempt)
    decreases k
  {
    var steps := Churn(id, k);
    if k == 0 {
      assert st.assignments[id := st.assignments[id]] == st.assignments;
    } else {
      var claimed := Apply(scheme, maxAttempts, st, Claim("w", id));
      var back := Apply(scheme, maxAttempts, claimed, Recover(id));
      assert steps[0] == Claim("w", id) && steps[1..][0] == Recover(id) && steps[1..][1..] == Churn(id, k - 1);
      assert Run(scheme, maxAttempts, st, steps) == Run(scheme, maxAttempts, back, Churn(id, k - 1));
      assert back == AttemptRaised(st, id, st.assignments[id].attempt + 1);
      ChurnRaisesAttempt(scheme, maxAttempts, back, id, k - 1, attempt);
      assert AttemptRaised(back, id, attempt) == AttemptRaised(st, id, attempt);
    }
  }

  /** A worker claims the assignment, acknowledges it and starts, as session `s`. */
  function Start(id: Id, s: nat, reports: bool): (steps: seq<Step>)
    ensures reports ==> Reporting(steps)
  {
    [Claim("w", id), Begin(s, "w", id), Ack(s, reports), Look(s)]
  }

  lemma StartStarts(scheme: Scheme, maxAttempts: nat, st: State, id: Id, s: nat, reports: bool)
    requires id in st.assignments && st.assignments[id].status == Pending && s !in st.sessions
    requires reports ==> scheme(id, st.assignments[id].attempt) !in st.keys
    ensures
      var end := Run(scheme, maxAttempts, st, Start(id, s, reports));
      && end.starts == st.starts + multiset{id}
      && end.keys == st.keys + {scheme(id, st.assignments[id].attempt)}
      && end.sessions.Keys == st.sessions.Keys + {s}
      && end.sessions[s] == Session("w", id, Executing)
      && end.assignments == st.assignments[id := Assignment(Acknowledged("w"), st.assignments[id].attempt)]
  {
    var steps := Start(id, s, reports);
    var s1 := Apply(scheme, maxAttempts, st, steps[0]);
    var s2 := Apply(scheme, maxAttempts, s1, steps[1]);
    var s3 := Apply(scheme, maxAttempts, s2, steps[2]);
    var s4 := Apply(scheme, maxAttempts, s3, steps[3]);
    assert s3.sessions[s].phase == Replied(if reports then Some(true) else None);
    var t1, t2, t3 := steps[1..], steps[2..], steps[3..];
    assert t1[0] == steps[1] && t1[1..] == t2 && t2[0] == steps[2] && t2[1..] == t3 && t3[0] == steps[3] && t3[1..] == [];
    RunOne(scheme, maxAttempts, s3, t3);
    RunOne(scheme, maxAttempts, s2, t2);
    RunOne(scheme, maxAttempts, s1, t1);
    RunOne(scheme, maxAttempts, st, steps);
    assert Run(scheme, maxAttempts, s4, []) == s4;
  }

  lemma RunOne(scheme: Scheme, maxAttempts: nat, st: State, steps: seq<Step>)
    requires steps != []
    ensures Run(scheme, maxAttempts, st, steps)
            == Run(scheme, maxAttempts, Apply(scheme, maxAttempts, st, steps[0]), steps[1..])
  {
  }

  /** A worker reaches the executor under attempt `m`, crashes, and the next one under attempt `n`. */
  function Twice(id: Id, m: nat, n: nat, reports: bool): (steps: seq<Step>)
    requires 1 <= m < n
    ensures reports ==> Reporting(steps)
  {
    Churn(id, m - 1) + (Start(id, 0, true) + ([Recover(id)] + (Churn(id, n - m - 1) + Start(id, 1, reports))))
  }

  lemma StartsTwice(scheme: Scheme, maxAttempts: nat, id: Id, m: nat, n: nat, reports: bool)
    requires 1 <= m < n <= maxAttempts && (reports ==> scheme(id, m) != scheme(id, n))
    ensures Run(scheme, maxAttempts, Initial({id}), Twice(id, m, n, reports)).starts[id] == 2
  {
    var s4 := SecondReady(scheme, maxAttempts, id, m, n, reports);
    StartStarts(scheme, maxAttempts, s4, id, 1, reports);
  }

  /** The state before the second start: the first is counted, and the key of attempt `m` is used up. */
  lemma SecondReady(scheme: Scheme, maxAttempts: nat, id: Id, m: nat, n: nat, reports: bool) returns (s4: State)
    requires 1 <= m < n <= maxAttempts
    ensures Run(scheme, maxAttempts, Initial({id}), Twice(id, m, n, reports)) == Run(scheme, maxAttempts, s4, Start(id, 1, reports))
    ensures id in s4.assignments && s4.assignments[id] == Assignment(Pending, n)
    ensures s4.keys == {scheme(id, m)} && s4.sessions.Keys == {0} && s4.starts == multiset{id}
  {
    var s0 := Initial({id});
    var s1 := AttemptRaised(s0, id, m);
    ChurnRaisesAttempt(scheme, maxAttempts, s0, id, m - 1, m);
    var s2, s3 := FirstStart(scheme, maxAttempts, s1, id, m);
    s4 := AttemptRaised(s3, id, n);
    ChurnRaisesAttempt(scheme, maxAttempts, s3, id, n - m - 1, n);
    TwiceRuns(scheme, maxAttempts, id, m, n, reports, s1, s2, s3, s4);
  }

  lemma FirstStart(scheme: Scheme, maxAttempts: nat, s1: State, id: Id, m: nat) returns (s2: State, s3: State)
    requires s1 == AttemptRaised(Initial({id}), id, m) && m < maxAttempts
    ensures s2 == Run(scheme, maxAttempts, s1, Start(id, 0, true)) && s3 == Run(scheme, maxAttempts, s2, [Recover(id)])
    ensures s3.assignments.Keys == {id} && s3.assignments[id] == Assignment(Pending, m + 1)
    ensures s3.keys == {scheme(id, m)} && s3.sessions.Keys == {0} && s3.starts == multiset{id}
  {
    StartStarts(scheme, maxAttempts, s1, id, 0, true);
    s2 := Run(scheme, maxAttempts, s1, Start(id, 0, true));
    RunOne(scheme, maxAttempts, s2, [Recover(id)]);
    s3 := RecoverStep(maxAttempts, s2, id);
    assert [Recover(id)][1..] == [];
  }

  lemma TwiceRuns(scheme: Scheme, maxAttempts: nat, id: Id, m: nat, n: nat, reports: bool, s1: State, s2: State, s3: State, s4: State)
    requires 1 <= m < n
    requires Run(scheme, maxAttempts, Initial({id}), Churn(id, m - 1)) == s1
    requires Run(scheme, maxAttempts, s1, Start(id, 0, true)) == s2
    requires Run(scheme, maxAttempts, s2, [Recover(id)]) == s3
    requires Run(scheme, maxAttempts, s3, Churn(id, n - m - 1)) == s4
    ensures Run(scheme, maxAttempts, Initial({id}), Twice(id, m, n, reports)) == Run(scheme, maxAttempts, s4, Start(id, 1, reports))
  {
    var tail := Churn(id, n - m - 1) + Start(id, 1, reports);
    RunAppend(scheme, maxAttempts, s3, Churn(id, n - m - 1), Start(id, 1, reports));
    RunAppend(scheme, maxAttempts, s2, [Recover(id)], tail);
    RunAppend(scheme, maxAttempts, s1, Start(id, 0, true), [Recover(id)] + tail);
    RunAppend(scheme, maxAttempts, Initial({id}), Churn(id, m - 1), Start(id, 0, true) + ([Recover(id)] + tail));
  }

  /**
   With acknowledgements that report whether the key was new, the executor starts at most once for
   an assignment in every run, if and only if the key does not depend on the attempt number.
   */
  lemma AtMostOnceIffAttemptIndependent(scheme: Scheme, maxAttempts: nat)
    requires maxAttempts >= 1
    ensures AtMostOnce(scheme, maxAttempts) <==> AttemptIndependent(scheme, maxAttempts)
  {
    if AttemptIndependent(scheme, maxAttempts) {
      forall ids: set<Id>, steps, id | Reporting(steps)
        ensures Run(scheme, maxAttempts, Initial(ids), steps).starts[id] <= 1
      {
        StartsAreBounded(scheme, maxAttempts, ids, steps, id);
        ReportingIsGuarded(scheme, maxAttempts, Initial(ids), steps);
      }
    } else {
      var id, m, n :| 1 <= m <= maxAttempts && 1 <= n <= maxAttempts && scheme(id, m) != scheme(id, n);
      var low, high := if m < n then m else n, if m < n then n else m;
      StartsTwice(scheme, maxAttempts, id, low, high, true);
      assert Reporting(Twice(id, low, high, true));
    }
  }

  /** The server's own keys meet the condition. */
  lemma DefaultKeyGuards(maxAttempts: nat)
    requires maxAttempts >= 1
    ensures AtMostOnce(DefaultEffectKey, maxAttempts)
  {
    AtMostOnceIffAttemptIndependent(DefaultEffectKey, maxAttempts);
  }

  /**
   The worker refuses only on a plain `false`: under any keys, one reply that leaves the flag out lets
   a recovered assignment start a second time.
   */
  lemma SilentReplyStartsTwice(scheme: Scheme, maxAttempts: nat, id: Id)
    requires maxAttempts >= 2
    ensures exists steps :: Run(scheme, maxAttempts, Initial({id}), steps).starts[id] == 2
  {
    var steps := Twice(id, 1, 2, false);
    StartsTwice(scheme, maxAttempts, id, 1, 2, false);
    var end := Run(scheme, maxAttempts, Initial({id}), steps);
    assert end.starts[id] == 2;
  }

  /** Left alone, a worker that claims an assignment starts it once, finishes, and ends it. */
  lemma WorkGetsDone(scheme: Scheme, maxAttempts: nat, st: State, id: Id, s: nat)
    requires id in st.assignments && st.assignments[id].status == Pending && s !in st.sessions
    requires scheme(id, st.assignments[id].attempt) !in st.keys
    ensures
      var end := Run(scheme, maxAttempts, st, Start(id, s, true) + [Finish(s), Submit(s)]);
      && id in end.assignments && end.assignments[id].status == Over
      && s in end.sessions && end.sessions[s].phase == Done
      && end.starts == st.starts + multiset{id}
      && scheme(id, st.assignments[id].attempt) in end.keys
  {
    var started := Run(scheme, maxAttempts, st, Start(id, s, true));
    StartStarts(scheme, maxAttempts, st, id, s, true);
    RunAppend(scheme, maxAttempts, st, Start(id, s, true), [Finish(s), Submit(s)]);
    RunOne(scheme, maxAttempts, started, [Finish(s), Submit(s)]);
    var finished := Apply(scheme, maxAttempts, started, Finish(s));
    assert [Finish(s), Submit(s)][1..] == [Submit(s)] && [Submit(s)][1..] == [];
    RunOne(scheme, maxAttempts, finished, [Submit(s)]);
    SubmitEnds(scheme, maxAttempts, finished, s);
  }
}

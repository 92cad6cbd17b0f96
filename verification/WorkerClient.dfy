/**
 ReferenceWorkerClient: the claim retry loop, one run of an assignment, and the client's own count
 of the assignments it carries.

 What the network and the executor do is given to each call; the claim endpoint is the object the
 retries share.
 */
module WorkerClient {
  import opened Options

  type Id = string
  type Token = string

  const CLAIM_NETWORK_RETRY_ATTEMPTS := 3

  /**
   The claim endpoint for one worker: what is pending, and the assignment dispatched under each token.
   A token stands for its assignment only while that stays dispatched: a recovery clears it.
   */
  class ClaimEndpoint {
    var pending: set<Id>
    var held: map<Token, Id>

    constructor (pending: set<Id>)
      ensures this.pending == pending && held == map[]
    {
      this.pending, held := pending, map[];
    }

    /** A token that holds an assignment is answered with it again; otherwise one may be granted. */
    method Claim(token: Token, eligible: bool) returns (granted: Option<Id>)
      modifies this
      ensures token in old(held) ==> granted == Some(old(held)[token]) && held == old(held) && pending == old(pending)
      ensures token !in old(held) && granted.None? ==> held == old(held) && pending == old(pending)
      ensures token !in old(held) && granted.Some? ==>
                granted.value in old(pending) && pending == old(pending) - {granted.value}
                && held == old(held)[token := granted.value]
      ensures granted.Some? ==> token in held && held[token] == granted.value
      ensures granted.None? <==> token !in old(held) && (!eligible || old(pending) == {})
    {
      if token in held {
        return Some(held[token]);
      }
      if !eligible || pending == {} {
        return None;
      }
      var id :| id in pending;
      pending := pending - {id};
      held := held[token := id];
      return Some(id);
    }

    /** The lease of what the token holds has run out: back to the queue, or given up for good. */
    method Recover(token: Token, requeue: bool) returns (ghost givenUp: set<Id>)
      modifies this
      ensures held == old(held) - {token}
      ensures givenUp == if token in old(held) && !requeue then {old(held)[token]} else {}
      ensures pending == old(pending) + if token in old(held) && requeue then {old(held)[token]} else {}
    {
      givenUp := {};
      if token in held {
        if requeue {
          pending := pending + {held[token]};
        } else {
          givenUp := {held[token]};
        }
      }
      held := held - {token};
    }
  }

  /** What happens to one HTTP request: lost before or after the server handled it, refused, or answered. */
  datatype Fate = LostRequest | LostResponse | ErrorStatus | Answered

  predicate TransportError(f: Fate) {
    f.LostRequest? || f.LostResponse?
  }

  datatype Claimed = Idle | Assigned(id: Id) | TransportFailure | StatusFailure

  datatype AckReply = AckFails | Acked(created: Option<bool>)

  datatype Execution = Succeeds | ReportsFailure | Raises | IsCancelled

  /** One renewal of the lease while the executor runs. */
  datatype Renewal = Renewed | HttpError | OtherError

  datatype Ending = NothingToDo | AckRaised | Aborted | Submitted(success: bool) | SubmitRaised(success: bool)

  /**
   What the requests under one token keep: what is off the queue is what the token holds, and what was
   given up meanwhile; no other token is touched.
   */
  ghost predicate OneOffQueue(pending0: set<Id>, held0: map<Token, Id>, pending: set<Id>, held: map<Token, Id>,
                              token: Token, givenUp: set<Id>) {
    && held - {token} == held0
    && givenUp <= pending0
    && (token in held ==> held[token] in pending0 - givenUp)
    && pending == pending0 - givenUp - (if token in held then {held[token]} else {})
  }

  /** The server side of one request: perhaps a recovery before it, and the claim, if the request got there. */
  method Serve(endpoint: ClaimEndpoint, token: Token, fate: Fate, eligible: bool, recovery: Option<bool>,
               ghost pending0: set<Id>, ghost held0: map<Token, Id>, ghost givenUp0: set<Id>)
    returns (granted: Option<Id>, ghost givenUp: set<Id>)
    requires OneOffQueue(pending0, held0, endpoint.pending, endpoint.held, token, givenUp0)
    modifies endpoint
    ensures OneOffQueue(pending0, held0, endpoint.pending, endpoint.held, token, givenUp)
    ensures granted.Some? ==> token in endpoint.held && endpoint.held[token] == granted.value
    ensures fate.LostResponse? || fate.Answered? ==>
              (granted.Some? <==> token in endpoint.held) && (granted.None? ==> !eligible || endpoint.pending == {})
    ensures recovery != Some(false) ==> givenUp == givenUp0
  {
    granted, givenUp := None, givenUp0;
    if recovery.Some? {
      ghost var lost := endpoint.Recover(token, recovery.value);
      givenUp := givenUp + lost;
    }
    if fate.LostResponse? || fate.Answered? {
      granted := endpoint.Claim(token, eligible);
    }
  }

  class ReferenceWorkerClient {
    var currentLoad: nat
    var draining: bool

    constructor ()
      ensures currentLoad == 0 && !draining
    {
      currentLoad, draining := 0, false;
    }

    /**
     Ask for work under one token.  Lost responses are retried with that token, at most three times in
     all, and between two requests the server may recover what the token holds.  However many responses
     are lost, at most one assignment is off the queue under the token at any time, no other token is
     touched, and what the worker is handed is what the server holds for the token.
     */
    method ClaimNext(endpoint: ClaimEndpoint, token: Token, fates: nat -> Fate, eligible: nat -> bool,
                     recoveries: nat -> Option<bool>)
      returns (r: Claimed, requests: nat, ghost givenUp: set<Id>)
      requires token !in endpoint.held
      modifies this`currentLoad, endpoint
      ensures OneOffQueue(old(endpoint.pending), old(endpoint.held), endpoint.pending, endpoint.held, token, givenUp)
      ensures (forall i :: recoveries(i) != Some(false)) ==> givenUp == {}
      ensures r.Assigned? ==> token in endpoint.held && r.id == endpoint.held[token]
      ensures r.TransportFailure? <==>
              !draining && forall i :: 0 <= i < CLAIM_NETWORK_RETRY_ATTEMPTS ==> TransportError(fates(i))
      ensures r.StatusFailure? <==> !draining && 0 < requests && fates(requests - 1).ErrorStatus?
      ensures r.Assigned? <==> !draining && 0 < requests && fates(requests - 1).Answered? && token in endpoint.held
      ensures r.Idle? && !draining ==>
                0 < requests && fates(requests - 1).Answered? && token !in endpoint.held
                && (!eligible(requests - 1) || endpoint.pending == {})
      ensures requests <= CLAIM_NETWORK_RETRY_ATTEMPTS && (!draining ==> 0 < requests)
      ensures forall i :: 0 <= i < requests - 1 ==> TransportError(fates(i))
      ensures draining ==> r.Idle? && requests == 0 && endpoint.held == old(endpoint.held)
      ensures currentLoad == LoadStep(old(currentLoad), Asked(r))
    {
      requests, givenUp := 0, {};
      if draining {
        return Idle, requests, givenUp;
      }
      while requests < CLAIM_NETWORK_RETRY_ATTEMPTS
        invariant requests <= CLAIM_NETWORK_RETRY_ATTEMPTS
        invariant forall i :: 0 <= i < requests ==> TransportError(fates(i))
        invariant OneOffQueue(old(endpoint.pending), old(endpoint.held), endpoint.pending, endpoint.held, token, givenUp)
        invariant (forall i :: recoveries(i) != Some(false)) ==> givenUp == {}
        invariant currentLoad == old(currentLoad) && !draining
      {
        var fate := fates(requests);
        var granted;
        granted, givenUp := Serve(endpoint, token, fate, eligible(requests), recoveries(requests),
                                  old(endpoint.pending), old(endpoint.held), givenUp);
        requests := requests + 1;
        if TransportError(fate) {
          continue;
        }
        if fate.ErrorStatus? {
          return StatusFailure, requests, givenUp;
        }
        if granted.None? {
          return Idle, requests, givenUp;
        }
        currentLoad := currentLoad + 1;
        return Assigned(granted.value), requests, givenUp;
      }
      return TransportFailure, requests, givenUp;
    }

    /** The response to a submit arrived: one assignment less, never below zero. */
    method Submit(arrives: bool) returns (ok: bool)
      modifies this`currentLoad
      ensures ok == arrives
      ensures currentLoad == if arrives && old(currentLoad) > 0 then old(currentLoad) - 1 else old(currentLoad)
    {
      ok := arrives;
      if ok && currentLoad > 0 {
        currentLoad := currentLoad - 1;
      }
    }

    /** The renewals beside the executor: HTTP errors are passed over, any other error ends them. */
    method RenewWhileRunning(renewals: seq<Renewal>) returns (raised: bool)
      ensures raised <==> OtherError in renewals
    {
      for i := 0 to |renewals|
        invariant OtherError !in renewals[..i]
      {
        match renewals[i] {
          case Renewed =>
          case HttpError => continue;
          case OtherError => return true;
        }
      }
      assert renewals[..|renewals|] == renewals;
      return false;
    }

    /**
     Run one assignment.  The executor runs exactly when the acknowledgement arrives and does not say
     that the key was already there; a refusal is submitted as a failure, and so is an executor that
     raises.  Nothing is submitted when the acknowledgement fails, the executor is cancelled, or a renewal
     beside it raises anything but an HTTP error, whatever the executor has done by then.
     */
    method RunOne(given: bool, reply: AckReply, execution: Execution, renewals: seq<Renewal>, submitArrives: bool)
      returns (ending: Ending, executed: bool)
      modifies this`currentLoad
      ensures !given <==> ending.NothingToDo?
      ensures given ==> (ending.AckRaised? <==> reply.AckFails?)
      ensures executed <==> given && reply.Acked? && reply.created != Some(false)
      ensures ending.Aborted? <==> executed && (execution.IsCancelled? || OtherError in renewals)
      ensures given && reply.Acked? && !ending.Aborted? ==> (ending.Submitted? <==> submitArrives)
      ensures ending.Submitted? || ending.SubmitRaised? ==> (ending.success <==> executed && execution.Succeeds?)
      ensures currentLoad == LoadStep(old(currentLoad), Ran(ending))
    {
      executed := false;
      if !given {
        return NothingToDo, executed;
      }
      if reply.AckFails? {
        return AckRaised, executed;
      }
      if reply.created == Some(false) {
        var sent := Submit(submitArrives);
        return if sent then Submitted(false) else SubmitRaised(false), executed;
      }
      executed := true;
      var success := execution.Succeeds?;
      var renewRaised := RenewWhileRunning(renewals);
      if execution.IsCancelled? || renewRaised {
        return Aborted, executed;
      }
      var sent := Submit(submitArrives);
      return if sent then Submitted(success) else SubmitRaised(success), executed;
    }
  }

  // ----- The load over a client's life ------------------------------------------------------

  /** What a client does: it asks for work, and runs an assignment. */
  datatype Event = Asked(result: Claimed) | Ran(ending: Ending)

  /** The client's count after one call. */
  function LoadStep(load: nat, e: Event): nat {
    match e
    case Asked(result) => if result.Assigned? then load + 1 else load
    case Ran(ending) => if ending.Submitted? && load > 0 then load - 1 else load
  }

  function LoadAfter(events: seq<Event>): nat {
    if events == [] then 0 else LoadStep(LoadAfter(events[..|events| - 1]), events[|events| - 1])
  }

  /** The call worked on an assignment. */
  predicate RanOne(e: Event) {
    e.Ran? && !e.ending.NothingToDo?
  }

  /** The call worked on an assignment, and no submit of it was answered. */
  predicate Lost(e: Event) {
    RanOne(e) && !e.ending.Submitted?
  }

  /** Assignments the client was handed and has not run. */
  function InHand(events: seq<Event>): int {
    if events == [] then 0
    else
      var e := events[|events| - 1];
      InHand(events[..|events| - 1]) + (if e.Asked? && e.result.Assigned? then 1 else 0) - (if RanOne(e) then 1 else 0)
  }

  /** The client only ever runs an assignment it was handed, and each once. */
  predicate RunsWhatItHas(events: seq<Event>) {
    events == [] || (RunsWhatItHas(events[..|events| - 1]) && InHand(events) >= 0)
  }

  function LostCount(events: seq<Event>): nat {
    if events == [] then 0 else LostCount(events[..|events| - 1]) + if Lost(events[|events| - 1]) then 1 else 0
  }

  /** The load is what the client has in hand, and every assignment it has lost. */
  lemma {:induction false} LoadIsHandAndLost(events: seq<Event>)
    requires RunsWhatItHas(events)
    ensures LoadAfter(events) == InHand(events) + LostCount(events)
  {
    if events != [] {
      LoadIsHandAndLost(events[..|events| - 1]);
    }
  }

  lemma {:induction false} NothingLost(events: seq<Event>)
    ensures LostCount(events) == 0 <==> forall i :: 0 <= i < |events| ==> !Lost(events[i])
  {
    if events != [] {
      NothingLost(events[..|events| - 1]);
    }
  }

  /**
   The load is the number of assignments in hand if and only if every run of one ended with an answered
   submit.  A failed acknowledgement, an aborted run and an unanswered submit each leave it one too high.
   */
  lemma LoadIsExactIffAllSubmitted(events: seq<Event>)
    requires RunsWhatItHas(events)
    ensures LoadAfter(events) == InHand(events) <==>
            forall i :: 0 <= i < |events| && RanOne(events[i]) ==> events[i].ending.Submitted?
  {
    LoadIsHandAndLost(events);
    NothingLost(events);
    assert forall i :: 0 <= i < |events| ==> (Lost(events[i]) <==> RanOne(events[i]) && !events[i].ending.Submitted?);
  }

  // ----- The worker's loop ------------------------------------------------------------------

  /** What happens in one cycle of the worker: to its claim, and to the run of what it is handed. */
  datatype Cycle = Cycle(token: Token, fates: nat -> Fate, eligible: nat -> bool, recoveries: nat -> Option<bool>,
                         reply: AckReply, execution: Execution, renewals: seq<Renewal>, submitArrives: bool)

  /** Each cycle claims under a new token. */
  predicate NewTokens(cycles: seq<Cycle>, held: map<Token, Id>) {
    && (forall i :: 0 <= i < |cycles| ==> cycles[i].token !in held)
    && (forall i, j :: 0 <= i < j < |cycles| ==> cycles[i].token != cycles[j].token)
  }

  lemma EventsSnoc(events: seq<Event>, e: Event)
    ensures LoadAfter(events + [e]) == LoadStep(LoadAfter(events), e)
    ensures InHand(events + [e]) ==
            InHand(events) + (if e.Asked? && e.result.Assigned? then 1 else 0) - (if RanOne(e) then 1 else 0)
    ensures RunsWhatItHas(events + [e]) <==> RunsWhatItHas(events) && InHand(events + [e]) >= 0
  {
    assert (events + [e])[..|events + [e]| - 1] == events;
  }

  /** For one: after an acknowledgement that raised, nothing is in hand and the load is one. */
  lemma FailedAckIsCounted(id: Id)
    ensures
      var events := [] + [Asked(Assigned(id))] + [Ran(AckRaised)];
      RunsWhatItHas(events) && InHand(events) == 0 && LoadAfter(events) == 1
  {
    EventsSnoc([], Asked(Assigned(id)));
    EventsSnoc([] + [Asked(Assigned(id))], Ran(AckRaised));
  }

  lemma OtherTokensStay(cycles: seq<Cycle>, before: map<Token, Id>, after: map<Token, Id>)
    requires cycles != [] && after - {cycles[0].token} == before && NewTokens(cycles, before)
    ensures NewTokens(cycles[1..], after)
  {
    assert forall t :: t in after && t != cycles[0].token ==> t in after - {cycles[0].token};
  }

  /** What one cycle came to: the claim, and the ending of the run if something was handed out. */
  datatype Worked = Worked(claimed: Claimed, ending: Option<Ending>)

  /** The calls of a cycle. */
  function CallsOf(w: Worked): seq<Event> {
    [Asked(w.claimed)] + if w.ending.Some? then [Ran(w.ending.value)] else []
  }

  function CallsOfAll(work: seq<Worked>): seq<Event> {
    if work == [] then [] else CallsOfAll(work[..|work| - 1]) + CallsOf(work[|work| - 1])
  }

  /** The claim came out as its first request that got through did; a draining worker makes none. */
  predicate ClaimedAs(draining: bool, c: Cycle, r: Claimed) {
    if draining then r.Idle?
    else if forall i :: 0 <= i < CLAIM_NETWORK_RETRY_ATTEMPTS ==> TransportError(c.fates(i)) then r.TransportFailure?
    else exists n :: 0 <= n < CLAIM_NETWORK_RETRY_ATTEMPTS && !TransportError(c.fates(n))
                     && (forall i :: 0 <= i < n ==> TransportError(c.fates(i)))
                     && if c.fates(n).ErrorStatus? then r.StatusFailure? else r.Assigned? || r.Idle?
  }

  /** An assignment that was handed out was run, as the acknowledgement, the executor and the network had it. */
  predicate RanAs(c: Cycle, w: Worked) {
    && (w.ending.Some? <==> w.claimed.Assigned?)
    && (w.ending.Some? ==>
          var executed := c.reply.Acked? && c.reply.created != Some(false);
          var aborted := executed && (c.execution.IsCancelled? || OtherError in c.renewals);
          w.ending.value == if c.reply.AckFails? then AckRaised else if aborted then Aborted
                            else if c.submitArrives then Submitted(executed && c.execution.Succeeds?)
                            else SubmitRaised(executed && c.execution.Succeeds?))
  }

  /** The work is that of the first cycles, each as it had to be. */
  predicate WorkedAs(draining: bool, cycles: seq<Cycle>, work: seq<Worked>) {
    && |work| <= |cycles|
    && forall i :: 0 <= i < |work| ==> ClaimedAs(draining, cycles[i], work[i].claimed) && RanAs(cycles[i], work[i])
  }

  /** No cancellation came out of a run before the last. */
  predicate GoesOn(cycles: seq<Cycle>, work: seq<Worked>) {
    |work| <= |cycles| && forall i :: 0 <= i < |work| ==> !StopsWork(cycles[i], work[i])
  }

  lemma WorkedSnoc(draining: bool, cycles: seq<Cycle>, work: seq<Worked>, w: Worked)
    requires WorkedAs(draining, cycles, work) && GoesOn(cycles, work) && |work| < |cycles|
    requires ClaimedAs(draining, cycles[|work|], w.claimed) && RanAs(cycles[|work|], w)
    ensures WorkedAs(draining, cycles, work + [w])
    ensures GoesOn(cycles, work + [w]) <==> !StopsWork(cycles[|work|], w)
  {
    var more := work + [w];
    assert more[|work|] == w && forall i :: 0 <= i < |work| ==> more[i] == work[i];
  }

  /** Between cycles the worker has nothing in hand, and its load is what its calls make it. */
  predicate Settled(load: nat, work: seq<Worked>) {
    RunsWhatItHas(CallsOfAll(work)) && InHand(CallsOfAll(work)) == 0 && load == LoadAfter(CallsOfAll(work))
  }

  /** The cancellation of the executor came out of the run. */
  predicate StopsWork(c: Cycle, w: Worked) {
    w.ending == Some(Aborted) && c.execution.IsCancelled?
  }

  lemma CallsSnoc(load: nat, work: seq<Worked>, w: Worked)
    requires Settled(load, work) && w.ending != Some(NothingToDo) && (w.ending.Some? <==> w.claimed.Assigned?)
    ensures Settled(LoadOnce(load, w), work + [w])
  {
    var before := CallsOfAll(work);
    assert (work + [w])[..|work|] == work;
    EventsSnoc(before, Asked(w.claimed));
    if w.ending.Some? {
      EventsSnoc(before + [Asked(w.claimed)], Ran(w.ending.value));
      assert before + CallsOf(w) == before + [Asked(w.claimed)] + [Ran(w.ending.value)];
    }
  }

  /** The load after the calls of a cycle. */
  function LoadOnce(load: nat, w: Worked): nat {
    var asked := LoadStep(load, Asked(w.claimed));
    if w.ending.Some? then LoadStep(asked, Ran(w.ending.value)) else asked
  }

  /** One cycle. */
  method WorkOnce(client: ReferenceWorkerClient, endpoint: ClaimEndpoint, c: Cycle) returns (w: Worked)
    requires c.token !in endpoint.held
    modifies client, endpoint
    ensures ClaimedAs(client.draining, c, w.claimed) && RanAs(c, w)
    ensures client.currentLoad == LoadOnce(old(client.currentLoad), w) && client.draining == old(client.draining)
    ensures endpoint.held - {c.token} == old(endpoint.held)
    ensures !client.draining ==> (w.claimed.Idle? ==> c.token !in endpoint.held)
    ensures w.claimed.Assigned? ==> c.token in endpoint.held && endpoint.held[c.token] == w.claimed.id
  {
    var claimed, requests, givenUp := client.ClaimNext(endpoint, c.token, c.fates, c.eligible, c.recoveries);
    assert requests > 0 ==> forall i :: 0 <= i < requests - 1 ==> TransportError(c.fates(i));
    w := Worked(claimed, None);
    if claimed.Assigned? {
      var ending, executed := client.RunOne(true, c.reply, c.execution, c.renewals, c.submitArrives);
      w := Worked(claimed, Some(ending));
    }
  }

  /**
   The worker's loop: claim, and run what was handed out; an exception of either only ends the cycle, and
   only a cancellation that comes out of the executor ends the loop.  Between cycles the worker has nothing
   in hand, so its load is exactly the number of assignments it has lost.
   */
  method Work(client: ReferenceWorkerClient, endpoint: ClaimEndpoint, cycles: seq<Cycle>) returns (work: seq<Worked>)
    requires client.currentLoad == 0 && NewTokens(cycles, endpoint.held)
    modifies client, endpoint
    ensures WorkedAs(client.draining, cycles, work) && client.draining == old(client.draining)
    ensures work == [] || GoesOn(cycles, work[..|work| - 1])
    ensures |work| == |cycles| || (work != [] && StopsWork(cycles[|work| - 1], work[|work| - 1]))
    ensures Settled(client.currentLoad, work) && client.currentLoad == LostCount(CallsOfAll(work))
  {
    work := [];
    for n := 0 to |cycles|
      invariant |work| == n && client.draining == old(client.draining)
      invariant WorkedAs(client.draining, cycles, work) && GoesOn(cycles, work)
      invariant Settled(client.currentLoad, work)
      invariant NewTokens(cycles[n..], endpoint.held)
    {
      ghost var heldBefore := endpoint.held;
      ghost var load := client.currentLoad;
      var w := WorkOnce(client, endpoint, cycles[n]);
      OtherTokensStay(cycles[n..], heldBefore, endpoint.held);
      assert cycles[n..][1..] == cycles[n + 1..];
      CallsSnoc(load, work, w);
      WorkedSnoc(client.draining, cycles, work, w);
      assert (work + [w])[..|work|] == work;
      work := work + [w];
      if StopsWork(cycles[n], w) {
        break;
      }
    }
    LoadIsHandAndLost(CallsOfAll(work));
  }
}

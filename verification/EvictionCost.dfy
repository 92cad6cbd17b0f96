/**
 What evictions can cost: exactly when the bounded limiter can come to reject a check that the
 unbounded limiter admits.
 */
module EvictionCost {
  import opened Options
  import opened FixedWindow
  import opened InMemoryLimiter

  /** Checks of `key` at `times`. */
  function Checks(key: Key, times: seq<real>): (reqs: seq<Request>)
    ensures |reqs| == |times| && forall i :: 0 <= i < |times| ==> reqs[i] == Request(key, times[i])
  {
    seq(|times|, i requires 0 <= i < |times| => Request(key, times[i]))
  }

  lemma ChecksSnoc(reqs: seq<Request>, key: Key, times: seq<real>, t: real)
    ensures reqs + Checks(key, times + [t]) == reqs + Checks(key, times) + [Request(key, t)]
    ensures Butlast(reqs + Checks(key, times) + [Request(key, t)]) == reqs + Checks(key, times)
    ensures Final(reqs + Checks(key, times) + [Request(key, t)]) == Request(key, t)
  {
  }

  lemma TraceGrows(reqs: seq<Request>, r: Request)
    requires Trace(reqs) && Clock(reqs) <= r.at
    ensures Trace(reqs + [r]) && Butlast(reqs + [r]) == reqs && Final(reqs + [r]) == r
  {
    assert Clock(reqs) >= 0.0;
  }

  /** One more check of the trace: its answer, and the window of every key, by the policy. */
  lemma CheckByPolicy(b: Bounds, reqs: seq<Request>, r: Request)
    requires Trace(reqs) && Clock(reqs) <= r.at
    ensures LastAnswer(b, reqs + [r]) == Respond(b.limits, KeyState(b.limits, RunLog(b, reqs), r.key), r.at)
    ensures KeyState(b.limits, RunLog(b, reqs + [r]), r.key)
            == Some(NextWindow(b.limits, KeyState(b.limits, RunLog(b, reqs), r.key), r.at))
  {
    var st, log, l := RunState(b, reqs), RunLog(b, reqs), b.limits;
    TraceGrows(reqs, r);
    RunConforms(b, reqs);
    RunKeepsMap(b, reqs);
    AgreesLater(l, st.entries, KeyState(l, log, r.key), r.key, Clock(reqs), r.at);
    AgreesOnAnswer(b, st, KeyState(l, log, r.key), r.key, r.at);
    LogAfterCheck(b, reqs, r, r.key);
  }

  /** The log of one more check, key by key: perhaps the loss of a live window, then the answer. */
  lemma LogAfterCheck(b: Bounds, reqs: seq<Request>, r: Request, key: Key)
    requires Trace(reqs) && Clock(reqs) <= r.at
    ensures
      var st, l := RunState(b, reqs), b.limits;
      var before := KeyState(l, RunLog(b, reqs), key);
      var popped := if OpensAt(b, st, r) then KeyAfterPop(l, before, Popped(b, st, r.at), key, r.at) else before;
      KeyState(l, RunLog(b, reqs + [r]), key) == if key == r.key then Some(NextWindow(l, popped, r.at)) else popped
    ensures OpensAt(b, RunState(b, reqs), r) ==> |Popped(b, RunState(b, reqs), r.at)| <= 1
  {
    var st, log, l := RunState(b, reqs), RunLog(b, reqs), b.limits;
    TraceGrows(reqs, r);
    RunConforms(b, reqs);
    PopsAtMostTheOldest(b, reqs, r.at);
    RunLogSnoc(b, reqs, r);
    if OpensAt(b, st, r) {
      OpeningLog(b, st, log, r, key);
    } else {
      KeyStateSnoc(l, log, Served(r.key, r.at, CheckAnswer(b, st, r.key, r.at)), key);
      assert CheckLog(b, st, r) == [Served(r.key, r.at, CheckAnswer(b, st, r.key, r.at))];
    }
  }

  lemma RunLogSnoc(b: Bounds, reqs: seq<Request>, r: Request)
    ensures RunLog(b, reqs + [r]) == RunLog(b, reqs) + CheckLog(b, RunState(b, reqs), r)
  {
    assert Butlast(reqs + [r]) == reqs;
  }

  lemma OpeningLog(b: Bounds, st: State, log: Log, r: Request, key: Key)
    requires Conforms(b.limits, log) && OpensAt(b, st, r) && |Popped(b, st, r.at)| <= 1
    ensures
      var popped := KeyAfterPop(b.limits, KeyState(b.limits, log, key), Popped(b, st, r.at), key, r.at);
      KeyState(b.limits, log + CheckLog(b, st, r), key) == if key == r.key then Some(NextWindow(b.limits, popped, r.at)) else popped
  {
    var evictions, served := LiveEvictions(b.limits, Popped(b, st, r.at), r.at), Served(r.key, r.at, CheckAnswer(b, st, r.key, r.at));
    LogPop(b, log, Popped(b, st, r.at), r.at);
    assert log + CheckLog(b, st, r) == log + evictions + [served];
    KeyStateSnoc(b.limits, log + evictions, served, key);
  }

  // ----- One key coming back ----------------------------------------------------------------

  /** When only `key` comes back, the bounded limiter serves it from the window it has for it. */
  lemma {:induction false} BoundedFromHere(b: Bounds, reqs: seq<Request>, key: Key, times: seq<real>)
    requires Trace(reqs) && Ascending(times, Clock(reqs))
    ensures Trace(reqs + Checks(key, times))
    ensures Clock(reqs + Checks(key, times)) == if times == [] then Clock(reqs) else times[|times| - 1]
    ensures KeyState(b.limits, RunLog(b, reqs + Checks(key, times)), key)
            == StateAfter(b.limits, KeyState(b.limits, RunLog(b, reqs), key), times)
    decreases |times|
  {
    if times == [] {
      assert reqs + Checks(key, times) == reqs;
    } else {
      var front, t := times[..|times| - 1], times[|times| - 1];
      assert times == front + [t];
      BoundedFromHere(b, reqs, key, front);
      ChecksSnoc(reqs, key, front, t);
      TraceGrows(reqs + Checks(key, front), Request(key, t));
      CheckByPolicy(b, reqs + Checks(key, front), Request(key, t));
      AnswersSnoc(b.limits, KeyState(b.limits, RunLog(b, reqs), key), front, t);
    }
  }

  lemma BoundedAnswer(b: Bounds, reqs: seq<Request>, key: Key, times: seq<real>)
    requires Trace(reqs) && Ascending(times, Clock(reqs)) && times != []
    ensures reqs + Checks(key, times) != [] && Final(reqs + Checks(key, times)).key == key
    ensures LastAnswer(b, reqs + Checks(key, times))
            == Answers(b.limits, KeyState(b.limits, RunLog(b, reqs), key), times)[|times| - 1]
  {
    var front, t := times[..|times| - 1], times[|times| - 1];
    assert times == front + [t];
    BoundedFromHere(b, reqs, key, front);
    ChecksSnoc(reqs, key, front, t);
    CheckByPolicy(b, reqs + Checks(key, front), Request(key, t));
    AnswersSnoc(b.limits, KeyState(b.limits, RunLog(b, reqs), key), front, t);
  }

  lemma {:induction false} TimesFromHere(reqs: seq<Request>, key: Key, times: seq<real>)
    ensures RequestTimes(reqs + Checks(key, times), key) == RequestTimes(reqs, key) + times
    decreases |times|
  {
    if times == [] {
      assert reqs + Checks(key, times) == reqs;
    } else {
      var front, t := times[..|times| - 1], times[|times| - 1];
      assert times == front + [t];
      TimesFromHere(reqs, key, front);
      ChecksSnoc(reqs, key, front, t);
      TimesSnoc(reqs + Checks(key, front), Request(key, t), key);
    }
  }

  /** The unbounded limiter goes on from the window it has, too. */
  lemma {:induction false} UnboundedFromHere(l: Limits, before: seq<real>, times: seq<real>)
    ensures UnboundedState(l, before + times) == StateAfter(l, UnboundedState(l, before), times)
    ensures times != [] ==> UnboundedAnswers(l, before + times)[|before + times| - 1]
                            == Answers(l, UnboundedState(l, before), times)[|times| - 1]
    decreases |times|
  {
    if times == [] {
      assert before + times == before;
    } else {
      var front, t := times[..|times| - 1], times[|times| - 1];
      assert times == front + [t] && before + times == (before + front) + [t];
      UnboundedFromHere(l, before, front);
      AnswersSnoc(l, UnboundedState(l, before), front, t);
      assert (before + times)[..|before + times| - 1] == before + front;
    }
  }

  // ----- The exact condition ----------------------------------------------------------------

  /** Coming back at `times`, `key` is rejected at the last of them, and would be admitted without a bound. */
  predicate CostsWhenBackAt(b: Bounds, reqs: seq<Request>, key: Key, times: seq<real>) {
    times != [] && CostsAnAdmission(b, reqs + Checks(key, times))
  }

  /** From `now` on, coming back can cost `key` an admission that the unbounded limiter gives. */
  ghost predicate CanCost(b: Bounds, reqs: seq<Request>, key: Key, now: real) {
    exists times :: Ascending(times, now) && CostsWhenBackAt(b, reqs, key, times)
  }

  lemma CostsWhen(b: Bounds, reqs: seq<Request>, key: Key, times: seq<real>)
    requires Trace(reqs) && Ascending(times, Clock(reqs)) && times != []
    ensures
      var l := b.limits;
      CostsWhenBackAt(b, reqs, key, times) <==>
        && Answers(l, UnboundedState(l, RequestTimes(reqs, key)), times)[|times| - 1].allowed
        && !Answers(l, KeyState(l, RunLog(b, reqs), key), times)[|times| - 1].allowed
  {
    BoundedFromHere(b, reqs, key, times);
    BoundedAnswer(b, reqs, key, times);
    TimesFromHere(reqs, key, times);
    UnboundedFromHere(b.limits, RequestTimes(reqs, key), times);
  }

  lemma {:induction false} UnboundedIsSound(l: Limits, reqs: seq<Request>, key: Key)
    requires Trace(reqs)
    ensures Sound(l, UnboundedState(l, RequestTimes(reqs, key)), Clock(reqs))
  {
    if reqs != [] {
      var before := Butlast(reqs);
      UnboundedIsSound(l, before, key);
      assert Clock(before) <= Clock(reqs);
      var times := RequestTimes(reqs, key);
      if Final(reqs).key == key {
        assert times[..|times| - 1] == RequestTimes(before, key);
      }
    }
  }

  lemma PolicyIsSound(b: Bounds, reqs: seq<Request>, key: Key)
    requires Trace(reqs)
    ensures Sound(b.limits, KeyState(b.limits, RunLog(b, reqs), key), Clock(reqs))
  {
    RunConforms(b, reqs);
    KeyStateInPast(b.limits, RunLog(b, reqs), key);
    if RunLog(b, reqs) != [] {
      assert Last(RunLog(b, reqs)) in RunLog(b, reqs);
    }
  }

  /** The map says the same about a live window as the policy does. */
  lemma MapIsPolicy(b: Bounds, reqs: seq<Request>, key: Key, st: Option<Window>, now: real)
    requires Trace(reqs) && Clock(reqs) <= now
    ensures NoStricter(b.limits, st, Find(RunState(b, reqs).entries, key), now) <==>
            NoStricter(b.limits, st, KeyState(b.limits, RunLog(b, reqs), key), now)
  {
    var es, ks := RunState(b, reqs).entries, KeyState(b.limits, RunLog(b, reqs), key);
    RunConforms(b, reqs);
    RunKeepsMap(b, reqs);
    AgreesLater(b.limits, es, ks, key, Clock(reqs), now);
    AgreesOnAnswer(b, RunState(b, reqs), ks, key, now);
  }

  lemma AnswerInPrefix(l: Limits, st: Option<Window>, times: seq<real>, i: nat)
    requires i < |times|
    ensures Answers(l, st, times[..i + 1])[i] == Answers(l, st, times)[i]
  {
    assert times == times[..i + 1] + times[i + 1..];
    AnswersAppend(l, st, times[..i + 1], times[i + 1..]);
  }

  lemma CanCostIffPolicy(b: Bounds, reqs: seq<Request>, key: Key, now: real)
    requires Trace(reqs) && Clock(reqs) <= now
    ensures
      var l := b.limits;
      CanCost(b, reqs, key, now) <==>
        !CostsNothing(l, UnboundedState(l, RequestTimes(reqs, key)), KeyState(l, RunLog(b, reqs), key), now)
  {
    var l := b.limits;
    var free, bound := UnboundedState(l, RequestTimes(reqs, key)), KeyState(l, RunLog(b, reqs), key);
    if CanCost(b, reqs, key, now) {
      var times :| Ascending(times, now) && CostsWhenBackAt(b, reqs, key, times);
      CostsWhen(b, reqs, key, times);
    }
    if !CostsNothing(l, free, bound, now) {
      var times, i :| Ascending(times, now) && 0 <= i < |times|
                      && Answers(l, free, times)[i].allowed && !Answers(l, bound, times)[i].allowed;
      var upTo := times[..i + 1];
      AnswerInPrefix(l, free, times, i);
      AnswerInPrefix(l, bound, times, i);
      CostsWhen(b, reqs, key, upTo);
      assert Ascending(upTo, now) && CostsWhenBackAt(b, reqs, key, upTo);
    }
  }

  /**
   After any trace, coming back can cost `key` an admission if and only if its tracked window is
   stricter than the unbounded limiter's: not both are expired, and they are not one window that has
   counted no more in the map.
   */
  lemma CanCostIffStricter(b: Bounds, reqs: seq<Request>, key: Key, now: real)
    requires Trace(reqs) && Clock(reqs) <= now
    ensures CanCost(b, reqs, key, now) <==>
            !NoStricter(b.limits, UnboundedState(b.limits, RequestTimes(reqs, key)), Find(RunState(b, reqs).entries, key), now)
  {
    var free := UnboundedState(b.limits, RequestTimes(reqs, key));
    CanCostIffPolicy(b, reqs, key, now);
    UnboundedIsSound(b.limits, reqs, key);
    PolicyIsSound(b, reqs, key);
    CostsNothingIffNoStricter(b.limits, free, KeyState(b.limits, RunLog(b, reqs), key), now);
    MapIsPolicy(b, reqs, key, free, now);
  }

  /** The check `r` pops a live window of `key`. */
  predicate EvictsLive(b: Bounds, reqs: seq<Request>, r: Request, key: Key) {
    OpensAt(b, RunState(b, reqs), r) && PopsLive(b.limits, Popped(b, RunState(b, reqs), r.at), key, r.at)
  }

  /**
   For a key that has lost no live window so far, the check that pops one is exactly the check after
   which coming back can cost it an admission.
   */
  lemma EvictionCostsIffLive(b: Bounds, reqs: seq<Request>, r: Request, key: Key)
    requires Trace(reqs) && Clock(reqs) <= r.at && r.key != key && NeverEvicted(RunLog(b, reqs), key)
    ensures CanCost(b, reqs + [r], key, r.at) <==> EvictsLive(b, reqs, r, key)
  {
    var l, now, ks := b.limits, r.at, KeyState(b.limits, RunLog(b, reqs), key);
    TraceGrows(reqs, r);
    RunConforms(b, reqs);
    ConformingAnswers(l, RunLog(b, reqs), key);
    LoggedTimes(b, reqs, key);
    TimesSnoc(reqs, r, key);
    LogAfterCheck(b, reqs, r, key);
    CanCostIffStricter(b, reqs + [r], key, now);
    MapIsPolicy(b, reqs + [r], key, ks, now);
    EvictedWasTracked(b, reqs, r, key);
  }

  /** A popped live window of `key` is the policy's, so the policy then has none; nothing else changes. */
  lemma EvictedWasTracked(b: Bounds, reqs: seq<Request>, r: Request, key: Key)
    requires Trace(reqs) && Clock(reqs) <= r.at
    ensures PopOf(b.limits, KeyState(b.limits, RunLog(b, reqs), key), Popped(b, RunState(b, reqs), r.at), key, r.at)
  {
    var l, st, ks := b.limits, RunState(b, reqs), KeyState(b.limits, RunLog(b, reqs), key);
    RunConforms(b, reqs);
    AgreesLater(l, st.entries, ks, key, Clock(reqs), r.at);
    SweepAgrees(b, st, ks, key, r.at);
    PopsAtMostTheOldest(b, reqs, r.at);
    PoppedWasTracked(l, Swept(b, st, r.at).entries, Popped(b, st, r.at), ks, key, r.at);
  }

  predicate PopsLive(l: Limits, popped: OrderedWindows, key: Key, now: real) {
    exists e :: e in popped && e.key == key && Live(l, e.window, now)
  }

  predicate PopOf(l: Limits, ks: Option<Window>, popped: OrderedWindows, key: Key, now: real) {
    if PopsLive(l, popped, key, now)
    then ks.Some? && Live(l, ks.value, now) && KeyAfterPop(l, ks, popped, key, now) == None
    else KeyAfterPop(l, ks, popped, key, now) == ks
  }

  lemma PoppedWasTracked(l: Limits, es: OrderedWindows, popped: OrderedWindows, ks: Option<Window>, key: Key, now: real)
    requires Agrees(l, es, ks, key, now) && popped <= es && |popped| <= 1
    ensures PopOf(l, ks, popped, key, now)
  {
    if PopsLive(l, popped, key, now) {
      assert popped[0] in es && Entry(key, popped[0].window) == popped[0];
    } else if |popped| == 1 {
      assert popped[0] in popped;
    }
  }

  // ----- When a live window is evicted ------------------------------------------------------

  /** A tracked live window of a key other than the one that asks leaves the map. */
  predicate Leaves(b: Bounds, st: State, r: Request, e: Entry) {
    e in st.entries && Live(b.limits, e.window, r.at) && e.key != r.key && e !in CheckState(b, st, r.key, r.at).entries
  }

  /**
   A live window of another key leaves the map exactly at a check that opens a window while, after the
   sweep that is due, the map is at its cap with that window in front.
   */
  lemma LeavesIffFull(b: Bounds, reqs: seq<Request>, r: Request, e: Entry)
    requires Trace(reqs) && Clock(reqs) <= r.at
    requires e in RunState(b, reqs).entries && Live(b.limits, e.window, r.at) && e.key != r.key
    ensures
      var st := RunState(b, reqs);
      var swept := Swept(b, st, r.at).entries;
      Leaves(b, st, r, e) <==> OpensAt(b, st, r) && |swept| >= b.maxTrackedKeys && swept[0] == e
  {
    RunKeepsMap(b, reqs);
    StateLeavesIffFull(b, RunState(b, reqs), Clock(reqs), r, e);
  }

  lemma StateLeavesIffFull(b: Bounds, st: State, clock: real, r: Request, e: Entry)
    requires MapOk(b, st, clock) && clock <= r.at
    requires e in st.entries && Live(b.limits, e.window, r.at) && e.key != r.key
    ensures
      var swept := Swept(b, st, r.at).entries;
      Leaves(b, st, r, e) <==> OpensAt(b, st, r) && |swept| >= b.maxTrackedKeys && swept[0] == e
  {
    SweptOk(b, st, clock, r.at);
    if OpensAt(b, st, r) {
      SurvivorsMembers(st.entries, r.at - b.limits.windowSeconds);
      LeavesFront(Swept(b, st, r.at).entries, b.maxTrackedKeys, r.key, r.at, e);
    } else {
      StaysUnopened(b, st, r, e);
    }
  }

  lemma LeavesFront(swept: OrderedWindows, cap: int, key: Key, now: real, e: Entry)
    requires DistinctKeys(swept) && |swept| <= cap && cap >= 1 && e in swept && e.key != key
    ensures e !in Reopen(swept[EvictedPrefix(swept, cap)..], key, now) <==> |swept| >= cap && swept[0] == e
  {
    WithoutMembers(swept[EvictedPrefix(swept, cap)..], key);
    if |swept| >= cap {
      InRest(swept, e);
    } else {
      assert swept[EvictedPrefix(swept, cap)..] == swept;
    }
  }

  lemma InRest(es: OrderedWindows, e: Entry)
    requires DistinctKeys(es) && e in es
    ensures e in es[1..] <==> e != es[0]
  {
    var i :| 0 <= i < |es| && es[i] == e;
    assert i > 0 ==> es[1..][i - 1] == e;
    assert forall k :: 0 <= k < |es[1..]| ==> es[1..][k].key != es[0].key;
  }

  lemma StaysUnopened(b: Bounds, st: State, r: Request, e: Entry)
    requires !OpensAt(b, st, r) && e in st.entries && e.key != r.key
    ensures e in CheckState(b, st, r.key, r.at).entries
  {
    var i :| 0 <= i < |st.entries| && st.entries[i] == e;
    assert Bump(st.entries, r.key)[i] == e;
  }

  /** The keys a trace asks about. */
  function KeysOf(reqs: seq<Request>): set<Key> {
    set i | 0 <= i < |reqs| :: reqs[i].key
  }

  function TrackedKeys(es: OrderedWindows): set<Key> {
    set i | 0 <= i < |es| :: es[i].key
  }

  lemma KeysOfSnoc(reqs: seq<Request>, r: Request)
    ensures KeysOf(reqs + [r]) == KeysOf(reqs) + {r.key}
  {
    var more := reqs + [r];
    assert more[|reqs|] == r;
    forall key | key in KeysOf(reqs) ensures key in KeysOf(more) {
      var i :| 0 <= i < |reqs| && reqs[i].key == key;
      assert more[i].key == key;
    }
  }

  lemma CheckTracksOnly(b: Bounds, st: State, key: Key, now: real)
    ensures TrackedKeys(CheckState(b, st, key, now).entries) <= TrackedKeys(st.entries) + {key}
  {
    if Opens(b.limits, Find(st.entries, key), now) {
      OpeningTracksOnly(b, st, key, now);
    } else {
      var bumped := Bump(st.entries, key);
      forall k | k in TrackedKeys(bumped) ensures k in TrackedKeys(st.entries) {
        var i :| 0 <= i < |bumped| && bumped[i].key == k;
        assert st.entries[i].key == k;
      }
    }
  }

  lemma OpeningTracksOnly(b: Bounds, st: State, key: Key, now: real)
    ensures TrackedKeys(Reopen(MakeRoomState(b, st, now).entries, key, now)) <= TrackedKeys(st.entries) + {key}
  {
    var room := MakeRoomState(b, st, now).entries;
    SweptTracksLess(b, st, now);
    WithoutMembers(room, key);
    forall e | e in Reopen(room, key, now) ensures e.key in TrackedKeys(st.entries) + {key} {
      assert e.key == key || e in room;
      assert e.key == key || e in st.entries;
    }
  }

  predicate TracksOnlyAsked(b: Bounds, reqs: seq<Request>) {
    TrackedKeys(RunState(b, reqs).entries) <= KeysOf(reqs)
  }

  lemma OneMoreIsTracked(b: Bounds, before: seq<Request>, r: Request)
    requires TracksOnlyAsked(b, before)
    ensures TracksOnlyAsked(b, before + [r])
  {
    CheckTracksOnly(b, RunState(b, before), r.key, r.at);
    KeysOfSnoc(before, r);
    RunSnoc(b, before, r);
  }

  lemma NoneAreTracked(b: Bounds)
    ensures TracksOnlyAsked(b, [])
  {
  }

  lemma {:induction false} OnlyAskedAreTracked(b: Bounds, reqs: seq<Request>)
    ensures TracksOnlyAsked(b, reqs)
  {
    if reqs == [] {
      NoneAreTracked(b);
    } else {
      OnlyAskedAreTracked(b, Butlast(reqs));
      OneMoreIsTracked(b, Butlast(reqs), Final(reqs));
      assert reqs == Butlast(reqs) + [Final(reqs)];
    }
  }

  lemma TrackedKeysSnoc(es: OrderedWindows, e: Entry)
    ensures TrackedKeys(es + [e]) == TrackedKeys(es) + {e.key}
    ensures (forall o :: o in es ==> o.key != e.key) ==> e.key !in TrackedKeys(es)
  {
    var more := es + [e];
    assert more[|es|] == e;
    forall key | key in TrackedKeys(es) ensures key in TrackedKeys(more) {
      var i :| 0 <= i < |es| && es[i].key == key;
      assert more[i].key == key;
    }
  }

  lemma {:induction false} TrackedKeysCount(es: OrderedWindows)
    requires DistinctKeys(es)
    ensures |TrackedKeys(es)| == |es|
  {
    if es != [] {
      var front, e := es[..|es| - 1], es[|es| - 1];
      TrackedKeysCount(front);
      TrackedKeysSnoc(front, e);
      assert es == front + [e];
    }
  }

  lemma SameSizeSubset<T>(a: set<T>, b: set<T>)
    requires a <= b && |a| >= |b|
    ensures a == b
  {
    assert b == a + (b - a) && |b| == |a| + |b - a|;
  }

  /** A full map that tracks only keys among `keys`, which are no more than fit, tracks each of them. */
  lemma FullMapTracks(es: OrderedWindows, keys: set<Key>, key: Key) returns (i: nat)
    requires DistinctKeys(es) && TrackedKeys(es) <= keys && |es| >= |keys| && key in keys
    ensures i < |es| && es[i].key == key
  {
    TrackedKeysCount(es);
    SameSizeSubset(TrackedKeys(es), keys);
    i :| 0 <= i < |es| && es[i].key == key;
  }

  /** With room for every key that is asked about, what a check pops has expired. */
  lemma PopsExpired(b: Bounds, reqs: seq<Request>, r: Request)
    requires Trace(reqs) && Clock(reqs) <= r.at && |KeysOf(reqs + [r])| <= b.maxTrackedKeys
    requires OpensAt(b, RunState(b, reqs), r)
    ensures LiveEvictions(b.limits, Popped(b, RunState(b, reqs), r.at), r.at) == []
  {
    RunKeepsMap(b, reqs);
    OnlyAskedAreTracked(b, reqs);
    KeysOfSnoc(reqs, r);
    StatePopsExpired(b, RunState(b, reqs), Clock(reqs), r, KeysOf(reqs + [r]));
  }

  lemma StatePopsExpired(b: Bounds, st: State, clock: real, r: Request, keys: set<Key>)
    requires MapOk(b, st, clock) && clock <= r.at && OpensAt(b, st, r)
    requires TrackedKeys(st.entries) <= keys && r.key in keys && |keys| <= b.maxTrackedKeys
    ensures LiveEvictions(b.limits, Popped(b, st, r.at), r.at) == []
  {
    var swept := Swept(b, st, r.at).entries;
    SweptOk(b, st, clock, r.at);
    SweptTracksLess(b, st, r.at);
    if |swept| >= b.maxTrackedKeys {
      var i := FullMapTracks(swept, keys, r.key);
      FindIsMembership(st.entries, swept[i]);
      FrontExpired(b.limits, swept, i, r.at);
    }
  }

  lemma FrontExpired(l: Limits, es: OrderedWindows, i: nat, now: real)
    requires OldestFirst(es) && i < |es| && !Live(l, es[i].window, now)
    ensures LiveEvictions(l, es[..1], now) == []
  {
    assert i > 0 ==> es[0].window.startedAt <= es[i].window.startedAt;
    assert es[..1][1..] == [];
  }

  lemma SweptTracksLess(b: Bounds, st: State, now: real)
    ensures TrackedKeys(Swept(b, st, now).entries) <= TrackedKeys(st.entries)
    ensures forall e :: e in Swept(b, st, now).entries ==> e in st.entries
  {
    SurvivorsMembers(st.entries, now - b.limits.windowSeconds);
    forall e | e in Swept(b, st, now).entries ensures e.key in TrackedKeys(st.entries) {
      assert e in st.entries;
    }
  }

  lemma {:induction false} FewKeysLogNoEviction(b: Bounds, reqs: seq<Request>)
    requires Trace(reqs) && |KeysOf(reqs)| <= b.maxTrackedKeys
    ensures forall e :: e in RunLog(b, reqs) ==> e.Served?
  {
    if reqs != [] {
      var before, r := Butlast(reqs), Final(reqs);
      assert reqs == before + [r];
      KeysOfSnoc(before, r);
      assert KeysOf(reqs) == KeysOf(before) + ({r.key} - KeysOf(before));
      FewKeysLogNoEviction(b, before);
      if OpensAt(b, RunState(b, before), r) {
        PopsExpired(b, before, r);
      }
    }
  }

  /** A trace that asks about no more keys than fit in the map is served exactly as without a bound. */
  lemma FewKeysAreUnbounded(b: Bounds, reqs: seq<Request>, key: Key)
    requires Trace(reqs) && |KeysOf(reqs)| <= b.maxTrackedKeys
    ensures forall e :: e in RunLog(b, reqs) ==> e.Served?
    ensures AnswersOf(RunLog(b, reqs), key) == UnboundedAnswers(b.limits, RequestTimes(reqs, key))
  {
    FewKeysLogNoEviction(b, reqs);
    assert forall i :: 0 <= i < |RunLog(b, reqs)| ==> RunLog(b, reqs)[i] in RunLog(b, reqs);
    BoundedRefinesUnbounded(b, reqs, key);
  }
}

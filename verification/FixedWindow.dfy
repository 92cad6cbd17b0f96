/**
 The fixed-window policy that both rate limiters implement, stated one key at a time.

 A limiter is seen through its log: the checks it served, in order, and the moments at which
 it dropped a window that was still live.  A log conforms to the policy when every answer in
 it is the one the policy gives for the key's own past.  What clients may rely on is proved
 here for every conforming log; the limiters are proved to produce conforming logs elsewhere.
 */
module FixedWindow {
  import opened Options

  type Key = string

  datatype RawLimits = RawLimits(maxRequests: int, windowSeconds: real)

  /** The limits a constructor accepts: anything else raises ValueError. */
  type Limits = l: RawLimits | l.maxRequests >= 1 && l.windowSeconds > 0.0 witness RawLimits(1, 1.0)

  datatype Window = Window(startedAt: real, count: int)

  datatype Answer = Answer(allowed: bool, retryAfter: real)

  predicate Live(l: Limits, w: Window, now: real) {
    now - w.startedAt < l.windowSeconds
  }

  /** The window a key has after a check at `now`. */
  function NextWindow(l: Limits, st: Option<Window>, now: real): (w: Window) {
    if st.None? || !Live(l, st.value, now) then Window(now, 1)
    else if st.value.count < l.maxRequests then st.value.(count := st.value.count + 1)
    else st.value
  }

  /** The answer to a check at `now`. */
  function Respond(l: Limits, st: Option<Window>, now: real): (a: Answer) {
    if st.None? || !Live(l, st.value, now) || st.value.count < l.maxRequests then Answer(true, 0.0)
    else Answer(false, l.windowSeconds - (now - st.value.startedAt))
  }

  // ----- Logs -------------------------------------------------------------------------------

  datatype LogEntry =
    | Served(key: Key, at: real, answer: Answer)
    | LiveEvicted(key: Key, at: real)

  type Log = seq<LogEntry>

  predicate TimeOrdered(log: Log) {
    forall i, j :: 0 <= i < j < |log| ==> log[i].at <= log[j].at
  }

  function Init(log: Log): Log
    requires log != []
  {
    log[..|log| - 1]
  }

  function Last(log: Log): LogEntry
    requires log != []
  {
    log[|log| - 1]
  }

  /** The window of `key` after the whole log. */
  function KeyState(l: Limits, log: Log, key: Key): (st: Option<Window>)
    ensures st.Some? ==> 1 <= st.value.count <= l.maxRequests
  {
    if log == [] then None
    else
      var before := KeyState(l, Init(log), key);
      var e := Last(log);
      if e.key != key then before
      else if e.LiveEvicted? then None
      else Some(NextWindow(l, before, e.at))
  }

  ghost predicate Conforms(l: Limits, log: Log) {
    forall i :: 0 <= i < |log| && log[i].Served? ==>
      log[i].answer == Respond(l, KeyState(l, log[..i], log[i].key), log[i].at)
  }

  lemma ConformsInit(l: Limits, log: Log)
    requires log != [] && Conforms(l, log)
    ensures Conforms(l, Init(log))
    ensures Last(log).Served? ==> Last(log).answer == Respond(l, KeyState(l, Init(log), Last(log).key), Last(log).at)
  {
    forall i | 0 <= i < |Init(log)| ensures Init(log)[..i] == log[..i] {}
  }

  lemma ConformsPrefix(l: Limits, log: Log, n: nat)
    requires n <= |log| && Conforms(l, log)
    ensures Conforms(l, log[..n])
  {
    forall i | 0 <= i < n ensures log[..n][..i] == log[..i] {}
  }

  lemma ConformsSnoc(l: Limits, log: Log, e: LogEntry)
    requires Conforms(l, log)
    requires e.Served? ==> e.answer == Respond(l, KeyState(l, log, e.key), e.at)
    ensures Conforms(l, log + [e])
  {
    var longer := log + [e];
    forall i | 0 <= i < |longer| && longer[i].Served?
      ensures longer[i].answer == Respond(l, KeyState(l, longer[..i], longer[i].key), longer[i].at)
    {
      assert longer[..i] == if i < |log| then log[..i] else log;
    }
  }

  lemma KeyStateSnoc(l: Limits, log: Log, e: LogEntry, key: Key)
    ensures KeyState(l, log + [e], key) ==
            if e.key != key then KeyState(l, log, key)
            else if e.LiveEvicted? then None
            else Some(NextWindow(l, KeyState(l, log, key), e.at))
  {
    assert Init(log + [e]) == log;
  }

  /** A window never starts after the last entry. */
  lemma {:induction false} KeyStateInPast(l: Limits, log: Log, key: Key)
    requires TimeOrdered(log)
    ensures KeyState(l, log, key).Some? ==> log != [] && KeyState(l, log, key).value.startedAt <= Last(log).at
  {
    if log != [] {
      KeyStateInPast(l, Init(log), key);
    }
  }

  // ----- Counting ---------------------------------------------------------------------------

  /** Checks of `key` admitted at or after `lo` and before `hi`. */
  function AdmittedIn(log: Log, key: Key, lo: real, hi: real): nat {
    if log == [] then 0
    else AdmittedIn(Init(log), key, lo, hi) +
         var e := Last(log);
         if e.Served? && e.key == key && e.answer.allowed && lo <= e.at < hi then 1 else 0
  }

  /** Checks of `key` admitted strictly after `t`. */
  function AdmittedAfter(log: Log, key: Key, t: real): nat {
    if log == [] then 0
    else AdmittedAfter(Init(log), key, t) +
         var e := Last(log);
         if e.Served? && e.key == key && e.answer.allowed && t < e.at then 1 else 0
  }

  /** Checks of `key`, admitted or not, made strictly after `t`. */
  function RequestedAfter(log: Log, key: Key, t: real): nat {
    if log == [] then 0
    else RequestedAfter(Init(log), key, t) +
         var e := Last(log);
         if e.Served? && e.key == key && t < e.at then 1 else 0
  }

  /** Evictions of a live window of `key` at or after `lo` and before `hi`. */
  function EvictionsIn(log: Log, key: Key, lo: real, hi: real): nat {
    if log == [] then 0
    else EvictionsIn(Init(log), key, lo, hi) +
         var e := Last(log);
         if e.LiveEvicted? && e.key == key && lo <= e.at < hi then 1 else 0
  }

  predicate NeverEvicted(log: Log, key: Key) {
    forall i :: 0 <= i < |log| ==> !(log[i].LiveEvicted? && log[i].key == key)
  }

  /** Windows of `key` opened at or after `lo` and before `hi`. */
  function OpeningsIn(l: Limits, log: Log, key: Key, lo: real, hi: real): nat {
    if log == [] then 0
    else OpeningsIn(l, Init(log), key, lo, hi) +
         var e := Last(log);
         if e.Served? && e.key == key && lo <= e.at < hi && Opens(l, KeyState(l, Init(log), key), e.at) then 1 else 0
  }

  predicate Opens(l: Limits, st: Option<Window>, now: real) {
    st.None? || !Live(l, st.value, now)
  }

  // ----- No wrongful rejection --------------------------------------------------------------

  /** The requests a window has counted were all admitted after any earlier moment `t`. */
  lemma {:induction false} CountWasAdmitted(l: Limits, log: Log, key: Key, t: real)
    requires Conforms(l, log)
    requires KeyState(l, log, key).Some? && t < KeyState(l, log, key).value.startedAt
    requires TimeOrdered(log)
    ensures KeyState(l, log, key).value.count <= AdmittedAfter(log, key, t)
  {
    var e, before := Last(log), KeyState(l, Init(log), key);
    ConformsInit(l, log);
    if e.key != key {
      CountWasAdmitted(l, Init(log), key, t);
    } else if !Opens(l, before, e.at) {
      CountWasAdmitted(l, Init(log), key, t);
      KeyStateInPast(l, Init(log), key);
    }
  }

  /** A rejected key was admitted `maxRequests` times strictly within the last window. */
  lemma RejectionIsEarned(l: Limits, log: Log, i: nat)
    requires Conforms(l, log) && TimeOrdered(log)
    requires i < |log| && log[i].Served? && !log[i].answer.allowed
    ensures AdmittedAfter(log[..i], log[i].key, log[i].at - l.windowSeconds) >= l.maxRequests
  {
    ConformsPrefix(l, log, i);
    CountWasAdmitted(l, log[..i], log[i].key, log[i].at - l.windowSeconds);
  }

  lemma {:induction false} AdmissionsAreRequests(log: Log, key: Key, t: real)
    ensures AdmittedAfter(log, key, t) <= RequestedAfter(log, key, t)
  {
    if log != [] {
      AdmissionsAreRequests(Init(log), key, t);
    }
  }

  /** A key that made fewer than `maxRequests` other requests in the last window is admitted. */
  lemma WithinBudgetIsAdmitted(l: Limits, log: Log, i: nat)
    requires Conforms(l, log) && TimeOrdered(log)
    requires i < |log| && log[i].Served?
    requires RequestedAfter(log[..i], log[i].key, log[i].at - l.windowSeconds) < l.maxRequests
    ensures log[i].answer == Answer(true, 0.0)
  {
    if !log[i].answer.allowed {
      RejectionIsEarned(l, log, i);
      AdmissionsAreRequests(log[..i], log[i].key, log[i].at - l.windowSeconds);
      assert false;
    }
  }

  // ----- The real bound ---------------------------------------------------------------------

  /** `n` window lengths. */
  function Windows(l: Limits, n: int): real {
    (n as real) * l.windowSeconds
  }

  /** The requests `n` windows can admit. */
  function Budgets(l: Limits, n: int): int {
    n * l.maxRequests
  }

  lemma WindowsStep(l: Limits, n: int)
    ensures Windows(l, n + 1) == Windows(l, n) + l.windowSeconds
  {
    assert (n + 1) as real == n as real + 1.0;
  }

  lemma WindowsOrder(l: Limits, m: int, n: int)
    ensures m <= n <==> Windows(l, m) <= Windows(l, n)
  {
    var d := (n - m) as real;
    assert Windows(l, n) - Windows(l, m) == d * l.windowSeconds;
    if m <= n {
      assert d * l.windowSeconds >= 0.0;
    } else {
      assert d * l.windowSeconds < 0.0;
    }
  }

  /**
   What holds at every moment `t` of a span from `a` in which a key has opened `n` windows, lost
   `e` live ones and been admitted `adm` times: openings that no eviction explains are a whole
   window apart, and each window has admitted no more than its count.
   */
  predicate SpanOk(l: Limits, st: Option<Window>, n: int, e: int, adm: int, a: real, t: real) {
    && 0 <= n && 0 <= e
    && (st.Some? ==> st.value.startedAt <= t && 1 <= st.value.count <= l.maxRequests)
    && adm <= l.maxRequests * n + (if st.Some? then st.value.count else l.maxRequests)
    && (st.None? && n > 0 ==> Windows(l, n - e) <= t - a)
    && (st.Some? && a <= st.value.startedAt ==> Windows(l, n - 1 - e) <= st.value.startedAt - a)
    && (st.Some? && st.value.startedAt < a ==> n == 0)
    && (t < a ==> n == 0 && e == 0 && adm == 0)
  }

  lemma SpanOpens(l: Limits, st: Option<Window>, n: int, e: int, adm: int, a: real, t: real, now: real)
    requires SpanOk(l, st, n, e, adm, a, t) && t <= now && a <= now && Opens(l, st, now)
    ensures SpanOk(l, Some(Window(now, 1)), n + 1, e, adm + 1, a, now)
  {
    WindowsStep(l, n - 1 - e);
    WindowsOrder(l, n - e, 0);
    assert Windows(l, 0) == 0.0;
    assert l.maxRequests * (n + 1) == l.maxRequests * n + l.maxRequests;
  }

  lemma SpanLoses(l: Limits, st: Option<Window>, n: int, e: int, adm: int, a: real, t: real, now: real)
    requires SpanOk(l, st, n, e, adm, a, t) && t <= now && a <= now
    ensures SpanOk(l, None, n, e + 1, adm, a, now)
  {
    WindowsStep(l, n - 1 - e);
    WindowsOrder(l, n - 1 - e, n - e);
  }

  lemma SpanCounts(l: Limits, st: Option<Window>, n: int, e: int, adm: int, a: real, t: real, now: real)
    requires SpanOk(l, st, n, e, adm, a, t) && t <= now && a <= now && !Opens(l, st, now)
    ensures SpanOk(l, Some(NextWindow(l, st, now)), n, e, if st.value.count < l.maxRequests then adm + 1 else adm, a, now)
  {
  }

  lemma SpanWaits(l: Limits, st: Option<Window>, n: int, e: int, adm: int, a: real, t: real, now: real)
    requires SpanOk(l, st, n, e, adm, a, t) && t <= now
    ensures SpanOk(l, st, n, e, adm, a, now)
  {
  }

  lemma SpanBefore(l: Limits, st: Option<Window>, n: int, e: int, adm: int, a: real, t: real, now: real)
    requires SpanOk(l, st, n, e, adm, a, t) && t <= now < a
    ensures n == 0 && e == 0 && adm == 0
    ensures SpanOk(l, Some(NextWindow(l, st, now)), n, e, adm, a, now) && SpanOk(l, None, n, e, adm, a, now)
  {
    assert l.maxRequests * n == 0;
  }

  /** What the last entry before `b` adds to the counts of a span. */
  lemma SpanCountsOf(l: Limits, log: Log, key: Key, a: real, b: real)
    requires log != [] && Last(log).at < b
    ensures var ev := Last(log);
            var inSpan := ev.key == key && a <= ev.at;
            && OpeningsIn(l, log, key, a, b) == OpeningsIn(l, Init(log), key, a, b)
               + (if inSpan && ev.Served? && Opens(l, KeyState(l, Init(log), key), ev.at) then 1 else 0)
            && EvictionsIn(log, key, a, b) == EvictionsIn(Init(log), key, a, b) + (if inSpan && ev.LiveEvicted? then 1 else 0)
            && AdmittedIn(log, key, a, b) == AdmittedIn(Init(log), key, a, b)
               + (if inSpan && ev.Served? && ev.answer.allowed then 1 else 0)
  {
  }

  lemma SpanStep(l: Limits, st: Option<Window>, n: int, e: int, adm: int, a: real, t: real, ev: LogEntry, key: Key)
    requires SpanOk(l, st, n, e, adm, a, t) && t <= ev.at
    requires ev.Served? ==> ev.key == key ==> ev.answer == Respond(l, st, ev.at)
    ensures var inSpan := ev.key == key && a <= ev.at;
            SpanOk(l, if ev.key != key then st else if ev.LiveEvicted? then None else Some(NextWindow(l, st, ev.at)),
                   n + (if inSpan && ev.Served? && Opens(l, st, ev.at) then 1 else 0),
                   e + (if inSpan && ev.LiveEvicted? then 1 else 0),
                   adm + (if inSpan && ev.Served? && ev.answer.allowed then 1 else 0), a, ev.at)
  {
    if ev.key != key {
      SpanWaits(l, st, n, e, adm, a, t, ev.at);
    } else if ev.at < a {
      SpanBefore(l, st, n, e, adm, a, t, ev.at);
    } else if ev.LiveEvicted? {
      SpanLoses(l, st, n, e, adm, a, t, ev.at);
    } else if Opens(l, st, ev.at) {
      SpanOpens(l, st, n, e, adm, a, t, ev.at);
    } else {
      SpanCounts(l, st, n, e, adm, a, t, ev.at);
    }
  }

  lemma {:induction false} SpanInvariant(l: Limits, log: Log, key: Key, a: real, b: real)
    requires log != [] && Conforms(l, log) && TimeOrdered(log) && Last(log).at < b
    ensures SpanOk(l, KeyState(l, log, key), OpeningsIn(l, log, key, a, b),
                   EvictionsIn(log, key, a, b), AdmittedIn(log, key, a, b), a, Last(log).at)
  {
    var pre, ev := Init(log), Last(log);
    ConformsInit(l, log);
    if pre != [] {
      SpanInvariant(l, pre, key, a, b);
    }
    SpanCountsOf(l, log, key, a, b);
    SpanStep(l, KeyState(l, pre, key), OpeningsIn(l, pre, key, a, b), EvictionsIn(pre, key, a, b),
             AdmittedIn(pre, key, a, b), a, if pre == [] then ev.at else Last(pre).at, ev, key);
  }

  /** The admissions of a key in the `k` windows from `a`, against those evictions can explain. */
  predicate WithinBudgets(l: Limits, log: Log, key: Key, a: real, k: nat) {
    var b := a + Windows(l, k);
    AdmittedIn(log, key, a, b) <= Budgets(l, k + 1 + EvictionsIn(log, key, a, b))
  }

  /**
   In every half-open span of `k` windows a key is admitted at most `(k + 1 + e) * maxRequests`
   times, where `e` counts the evictions of its live window inside the span.
   */
  lemma {:induction false} AdmissionBound(l: Limits, log: Log, key: Key, a: real, k: nat)
    requires Conforms(l, log) && TimeOrdered(log)
    ensures WithinBudgets(l, log, key, a, k)
  {
    var b := a + Windows(l, k);
    if log == [] {
    } else if Last(log).at >= b {
      ConformsInit(l, log);
      AdmissionBound(l, Init(log), key, a, k);
    } else {
      SpanInvariant(l, log, key, a, b);
      BoundFromSpan(l, KeyState(l, log, key), OpeningsIn(l, log, key, a, b), EvictionsIn(log, key, a, b),
                    AdmittedIn(log, key, a, b), a, Last(log).at, k);
    }
  }

  /** Less than `k` windows into a span, at most `k` openings are explained without an eviction. */
  lemma BoundFromSpan(l: Limits, st: Option<Window>, n: int, e: int, adm: int, a: real, t: real, k: nat)
    requires SpanOk(l, st, n, e, adm, a, t) && t < a + Windows(l, k)
    ensures adm <= Budgets(l, k + 1 + e)
  {
    WindowsOrder(l, k, n - e);
    WindowsOrder(l, k, n - 1 - e);
    assert n <= k + e;
    BudgetArithmetic(l.maxRequests, n, k + e);
  }

  lemma BudgetArithmetic(m: int, n: int, bound: int)
    requires n <= bound && 0 <= m
    ensures m * n + m <= (bound + 1) * m
  {
    assert (bound - n) * m >= 0;
  }

  /** The bound a client sees: without evictions, any one-window span admits at most twice the budget. */
  lemma TwiceTheBudget(l: Limits, log: Log, key: Key, a: real)
    requires Conforms(l, log) && TimeOrdered(log) && NeverEvicted(log, key)
    ensures AdmittedIn(log, key, a, a + l.windowSeconds) <= 2 * l.maxRequests
  {
    AdmissionBound(l, log, key, a, 1);
    NoEvictions(log, key, a, a + Windows(l, 1));
    assert Windows(l, 1) == l.windowSeconds;
  }

  lemma {:induction false} NoEvictions(log: Log, key: Key, lo: real, hi: real)
    requires NeverEvicted(log, key)
    ensures EvictionsIn(log, key, lo, hi) == 0
  {
    if log != [] {
      NoEvictions(Init(log), key, lo, hi);
    }
  }

  // ----- Retry-After ------------------------------------------------------------------------

  /** The value of the Retry-After header, section 10.2.3 of RFC 9110: whole seconds. */
  function RetryAfterHeader(retryAfter: real): int {
    retryAfter.Floor + 1
  }

  /** No entry of `key` strictly between `i` and `j` evicts it or falls at or after `until`. */
  ghost predicate QuietBetween(log: Log, key: Key, i: nat, j: nat, until: real)
    requires j <= |log|
  {
    forall m :: i < m < j && log[m].key == key ==> log[m].Served? && log[m].at < until
  }

  /** While a key is rejected its window does not move. */
  lemma {:induction false} RejectedWindowIsFrozen(l: Limits, log: Log, i: nat, j: nat)
    requires Conforms(l, log) && TimeOrdered(log)
    requires i < j <= |log| && log[i].Served? && !log[i].answer.allowed
    requires QuietBetween(log, log[i].key, i, j, log[i].at + log[i].answer.retryAfter)
    ensures KeyState(l, log[..j], log[i].key) == KeyState(l, log[..i], log[i].key)
    decreases j
  {
    assert Init(log[..j]) == log[..j - 1];
    if j > i + 1 {
      RejectedWindowIsFrozen(l, log, i, j - 1);
    }
  }

  /** Entry `i` is a rejection, and entry `j` the key's first check at or after its `retryAfter`, or an earlier one. */
  ghost predicate ComesBack(log: Log, i: nat, j: nat) {
    && i < j < |log| && log[i].Served? && !log[i].answer.allowed
    && log[j].Served? && log[j].key == log[i].key
    && QuietBetween(log, log[i].key, i, j, log[i].at + log[i].answer.retryAfter)
  }

  /** The check `j` is admitted exactly if it waited as long as `i` was told, and otherwise told the same moment. */
  predicate PromiseKept(l: Limits, log: Log, i: nat, j: nat)
    requires i < |log| && j < |log| && log[i].Served? && log[j].Served?
  {
    && 0.0 < log[i].answer.retryAfter <= l.windowSeconds
    && (log[j].answer.allowed <==> log[j].at >= log[i].at + log[i].answer.retryAfter)
    && (!log[j].answer.allowed ==> log[j].at + log[j].answer.retryAfter == log[i].at + log[i].answer.retryAfter)
  }

  /**
   The promise a rejection makes is exact: a later check of the key, with no eviction of the key
   in between, is rejected when it comes before `at + retryAfter` and admitted when it is the
   first to come at or after it.
   */
  lemma RetryAfterIsExact(l: Limits, log: Log, i: nat, j: nat)
    requires Conforms(l, log) && TimeOrdered(log) && ComesBack(log, i, j)
    ensures PromiseKept(l, log, i, j)
  {
    RejectedWindowIsFrozen(l, log, i, j);
    assert log[..i] == log[..i];
    KeyStateInPast(l, log[..i], log[i].key);
    assert forall m :: 0 <= m < i ==> log[..i][m] == log[m];
  }

  /** Waiting for the header's whole seconds is always enough, and never a full second too long. */
  lemma HeaderSuffices(l: Limits, log: Log, i: nat, j: nat)
    requires Conforms(l, log) && TimeOrdered(log) && ComesBack(log, i, j)
    requires log[j].at >= log[i].at + RetryAfterHeader(log[i].answer.retryAfter) as real
    ensures log[j].answer.allowed
    ensures log[i].answer.retryAfter < RetryAfterHeader(log[i].answer.retryAfter) as real <= log[i].answer.retryAfter + 1.0
  {
    RetryAfterIsExact(l, log, i, j);
  }

  // ----- Which windows may be forgotten -----------------------------------------------------

  predicate Ascending(times: seq<real>, from: real) {
    && (times != [] ==> from <= times[0])
    && forall i, j :: 0 <= i < j < |times| ==> times[i] <= times[j]
  }

  /** The answers a key gets to checks at `times`, starting from `st`. */
  function Answers(l: Limits, st: Option<Window>, times: seq<real>): (r: seq<Answer>)
    ensures |r| == |times|
    decreases |times|
  {
    if times == [] then []
    else [Respond(l, st, times[0])] + Answers(l, Some(NextWindow(l, st, times[0])), times[1..])
  }

  ghost predicate Forgettable(l: Limits, w: Window, now: real) {
    forall times :: Ascending(times, now) ==> Answers(l, Some(w), times) == Answers(l, None, times)
  }

  /** `n` checks at the same moment. */
  function Burst(now: real, n: nat): (times: seq<real>)
    ensures |times| == n && forall i :: 0 <= i < n ==> times[i] == now
  {
    seq(n, _ => now)
  }

  /** A live window admits exactly the rest of its budget out of a burst. */
  lemma {:induction false} BurstFromWindow(l: Limits, w: Window, now: real, n: nat, i: nat)
    requires Live(l, w, now) && w.startedAt <= now && 1 <= w.count <= l.maxRequests && i < n
    ensures Answers(l, Some(w), Burst(now, n))[i].allowed <==> i < l.maxRequests - w.count
    decreases n
  {
    assert Burst(now, n)[1..] == Burst(now, n - 1);
    if i > 0 {
      BurstFromWindow(l, NextWindow(l, Some(w), now), now, n - 1, i - 1);
    }
  }

  /**
   Dropping a window changes no later answer if and only if the window has expired.  So the sweep
   and the cleanup are invisible, and every eviction of a live window can be seen by some client.
   */
  lemma ForgettableIffExpired(l: Limits, w: Window, now: real)
    requires 1 <= w.count <= l.maxRequests && w.startedAt <= now
    ensures Forgettable(l, w, now) <==> !Live(l, w, now)
  {
    if !Live(l, w, now) {
      forall times | Ascending(times, now)
        ensures Answers(l, Some(w), times) == Answers(l, None, times)
      {
        if times != [] {
          assert NextWindow(l, Some(w), times[0]) == NextWindow(l, None, times[0]);
        }
      }
    } else {
      var n := l.maxRequests;
      var times := Burst(now, n);
      assert Ascending(times, now);
      BurstFromWindow(l, w, now, n, n - 1);
      assert times[1..] == Burst(now, n - 1);
      if n > 1 {
        BurstFromWindow(l, Window(now, 1), now, n - 1, n - 2);
      }
      assert Answers(l, None, times)[n - 1].allowed && !Answers(l, Some(w), times)[n - 1].allowed;
    }
  }

  // ----- Which windows may be replaced ------------------------------------------------------

  /** With `other` in place of `st` no later check of the key loses its admission. */
  ghost predicate CostsNothing(l: Limits, st: Option<Window>, other: Option<Window>, now: real) {
    forall times, i :: Ascending(times, now) && 0 <= i < |times| && Answers(l, st, times)[i].allowed ==>
      Answers(l, other, times)[i].allowed
  }

  /** Neither is live, or both are live, started together, and `other` has counted no more. */
  predicate NoStricter(l: Limits, st: Option<Window>, other: Option<Window>, now: real) {
    if Opens(l, st, now) then Opens(l, other, now)
    else !Opens(l, other, now) && other.value.startedAt == st.value.startedAt && other.value.count <= st.value.count
  }

  /** A window of a run: it started in the past and has counted within the budget. */
  predicate Sound(l: Limits, st: Option<Window>, now: real) {
    st.Some? ==> 1 <= st.value.count <= l.maxRequests && st.value.startedAt <= now
  }

  function StateAfter(l: Limits, st: Option<Window>, times: seq<real>): Option<Window>
    decreases |times|
  {
    if times == [] then st else StateAfter(l, Some(NextWindow(l, st, times[0])), times[1..])
  }

  lemma {:induction false} AnswersAppend(l: Limits, st: Option<Window>, a: seq<real>, b: seq<real>)
    ensures Answers(l, st, a + b) == Answers(l, st, a) + Answers(l, StateAfter(l, st, a), b)
    ensures StateAfter(l, st, a + b) == StateAfter(l, StateAfter(l, st, a), b)
    decreases |a|
  {
    if a == [] {
      assert a + b == b;
    } else {
      assert (a + b)[0] == a[0] && (a + b)[1..] == a[1..] + b;
      AnswersAppend(l, Some(NextWindow(l, st, a[0])), a[1..], b);
    }
  }

  /** The last of several answers is the response to the state before it. */
  lemma AnswersSnoc(l: Limits, st: Option<Window>, times: seq<real>, t: real)
    ensures Answers(l, st, times + [t])[|times|] == Respond(l, StateAfter(l, st, times), t)
    ensures StateAfter(l, st, times + [t]) == Some(NextWindow(l, StateAfter(l, st, times), t))
  {
    AnswersAppend(l, st, times, [t]);
    assert [t][1..] == [];
  }

  /** What a burst leaves: the window that was live, or one opened by it, with the checks counted. */
  lemma {:induction false} BurstFills(l: Limits, st: Option<Window>, t: real, n: nat)
    requires n >= 1 && Sound(l, st, t)
    ensures StateAfter(l, st, Burst(t, n)).Some?
    ensures StateAfter(l, st, Burst(t, n)).value.startedAt == if Opens(l, st, t) then t else st.value.startedAt
    ensures n >= l.maxRequests ==> StateAfter(l, st, Burst(t, n)).value.count == l.maxRequests
    ensures StateAfter(l, st, Burst(t, n)).value.count ==
              var counted := n + if Opens(l, st, t) then 0 else st.value.count;
              if counted < l.maxRequests then counted else l.maxRequests
    decreases n
  {
    assert Burst(t, n)[1..] == Burst(t, n - 1);
    if n > 1 {
      BurstFills(l, Some(NextWindow(l, st, t)), t, n - 1);
    }
  }

  lemma NoStricterStep(l: Limits, st: Option<Window>, other: Option<Window>, now: real, t: real)
    requires NoStricter(l, st, other, now) && now <= t
    ensures Respond(l, st, t).allowed ==> Respond(l, other, t).allowed
    ensures NoStricter(l, Some(NextWindow(l, st, t)), Some(NextWindow(l, other, t)), t)
  {
  }

  lemma {:induction false} NoStricterAnswers(l: Limits, st: Option<Window>, other: Option<Window>, now: real,
                                             times: seq<real>, i: nat)
    requires NoStricter(l, st, other, now) && Ascending(times, now) && i < |times|
    ensures Answers(l, st, times)[i].allowed ==> Answers(l, other, times)[i].allowed
    decreases |times|
  {
    NoStricterStep(l, st, other, now, times[0]);
    if i > 0 {
      NoStricterAnswers(l, Some(NextWindow(l, st, times[0])), Some(NextWindow(l, other, times[0])), times[0], times[1..], i - 1);
    }
  }

  /** Fill the budget at `t`, then come back the moment the live window of `st` expires. */
  function FillThenWait(l: Limits, st: Window, t: real): (times: seq<real>)
    ensures |times| == l.maxRequests + 1
  {
    Burst(t, l.maxRequests) + [st.startedAt + l.windowSeconds]
  }

  /** The last of these checks is admitted with `st`, and rejected with a window that runs longer. */
  lemma FillThenWaitCosts(l: Limits, st: Window, other: Option<Window>, t: real)
    requires Sound(l, Some(st), t) && Sound(l, other, t) && Live(l, st, t)
    requires (if Opens(l, other, t) then t else other.value.startedAt) > st.startedAt
    ensures Ascending(FillThenWait(l, st, t), t)
    ensures Answers(l, Some(st), FillThenWait(l, st, t))[l.maxRequests].allowed
    ensures !Answers(l, other, FillThenWait(l, st, t))[l.maxRequests].allowed
  {
    AfterFilling(l, st, Some(st), t);
    AfterFilling(l, st, other, t);
    AscendingSnoc(Burst(t, l.maxRequests), t, st.startedAt + l.windowSeconds);
  }

  lemma AscendingSnoc(times: seq<real>, from: real, last: real)
    requires Ascending(times, from) && from <= last && forall i :: 0 <= i < |times| ==> times[i] <= last
    ensures Ascending(times + [last], from)
  {
  }

  /** A check after a burst of the whole budget finds a full window. */
  lemma AfterFilling(l: Limits, w: Window, st: Option<Window>, t: real)
    requires Sound(l, st, t)
    ensures Answers(l, st, FillThenWait(l, w, t))[l.maxRequests].allowed <==>
            w.startedAt >= if Opens(l, st, t) then t else st.value.startedAt
  {
    var last := w.startedAt + l.windowSeconds;
    BurstFills(l, st, t, l.maxRequests);
    AnswersSnoc(l, st, Burst(t, l.maxRequests), last);
    assert StateAfter(l, st, Burst(t, l.maxRequests))
           == Some(Window(if Opens(l, st, t) then t else st.value.startedAt, l.maxRequests));
  }

  /** Checks at one moment that use up what `st` has left of its budget. */
  lemma RestOfBudgetCosts(l: Limits, st: Option<Window>, other: Window, now: real) returns (times: seq<real>, i: nat)
    requires Sound(l, st, now) && Sound(l, Some(other), now) && Live(l, other, now)
    requires Opens(l, st, now) || st.value.count < other.count
    ensures Ascending(times, now) && i < |times|
    ensures Answers(l, st, times)[i].allowed && !Answers(l, Some(other), times)[i].allowed
  {
    var left := if Opens(l, st, now) then l.maxRequests else l.maxRequests - st.value.count;
    times, i := Burst(now, left), left - 1;
    BurstFromWindow(l, other, now, left, i);
    if !Opens(l, st, now) {
      BurstFromWindow(l, st.value, now, left, i);
    } else {
      assert times[1..] == Burst(now, left - 1);
      if i > 0 {
        BurstFromWindow(l, Window(now, 1), now, left - 1, i - 1);
      }
    }
  }

  lemma Costly(l: Limits, st: Option<Window>, other: Option<Window>, now: real) returns (times: seq<real>, i: nat)
    requires Sound(l, st, now) && Sound(l, other, now) && !NoStricter(l, st, other, now)
    ensures Ascending(times, now) && i < |times|
    ensures Answers(l, st, times)[i].allowed && !Answers(l, other, times)[i].allowed
  {
    if Opens(l, st, now)
       || (!Opens(l, other, now) && other.value.startedAt == st.value.startedAt) {
      times, i := RestOfBudgetCosts(l, st, other.value, now);
    } else {
      var w := st.value;
      var t := if Opens(l, other, now) then (if now > w.startedAt then now else w.startedAt + l.windowSeconds / 2.0)
               else if other.value.startedAt > w.startedAt then now
               else other.value.startedAt + l.windowSeconds;
      FillThenWaitCosts(l, w, other, t);
      times, i := FillThenWait(l, w, t), l.maxRequests;
    }
  }

  /**
   Replacing a key's window costs it no later admission if and only if both are expired, or both are
   live, started together, and the new one has counted no more.
   */
  lemma CostsNothingIffNoStricter(l: Limits, st: Option<Window>, other: Option<Window>, now: real)
    requires Sound(l, st, now) && Sound(l, other, now)
    ensures CostsNothing(l, st, other, now) <==> NoStricter(l, st, other, now)
  {
    if NoStricter(l, st, other, now) {
      forall times, i | Ascending(times, now) && 0 <= i < |times| && Answers(l, st, times)[i].allowed
        ensures Answers(l, other, times)[i].allowed
      {
        NoStricterAnswers(l, st, other, now, times, i);
      }
    } else {
      var times, i := Costly(l, st, other, now);
    }
  }

  /** In particular a window may be dropped at no cost if and only if it has expired. */
  lemma SafeToDropIffExpired(l: Limits, w: Window, now: real)
    requires 1 <= w.count <= l.maxRequests && w.startedAt <= now
    ensures CostsNothing(l, Some(w), None, now) <==> !Live(l, w, now)
  {
    CostsNothingIffNoStricter(l, Some(w), None, now);
  }

  // ----- Agreement --------------------------------------------------------------------------

  /** The times at which a log served `key`. */
  function TimesOf(log: Log, key: Key): seq<real> {
    if log == [] then []
    else TimesOf(Init(log), key) +
         var e := Last(log); if e.Served? && e.key == key then [e.at] else []
  }

  /** The answers a log gave to `key`. */
  function AnswersOf(log: Log, key: Key): seq<Answer> {
    if log == [] then []
    else AnswersOf(Init(log), key) +
         var e := Last(log); if e.Served? && e.key == key then [e.answer] else []
  }

  /** The window a key has after checks at `times`, with no bound on the number of keys. */
  function UnboundedState(l: Limits, times: seq<real>): Option<Window> {
    if times == [] then None
    else Some(NextWindow(l, UnboundedState(l, times[..|times| - 1]), times[|times| - 1]))
  }

  /** What the unbounded limiter answers to checks of one key at `times`. */
  function UnboundedAnswers(l: Limits, times: seq<real>): (r: seq<Answer>)
    ensures |r| == |times|
  {
    if times == [] then []
    else UnboundedAnswers(l, times[..|times| - 1])
         + [Respond(l, UnboundedState(l, times[..|times| - 1]), times[|times| - 1])]
  }

  /** A key whose live window is never evicted gets the unbounded limiter's answers. */
  lemma {:induction false} ConformingAnswers(l: Limits, log: Log, key: Key)
    requires Conforms(l, log) && NeverEvicted(log, key)
    ensures AnswersOf(log, key) == UnboundedAnswers(l, TimesOf(log, key))
    ensures KeyState(l, log, key) == UnboundedState(l, TimesOf(log, key))
  {
    if log != [] {
      ConformsInit(l, log);
      ConformingAnswers(l, Init(log), key);
      var e, times := Last(log), TimesOf(log, key);
      if e.Served? && e.key == key {
        assert times[..|times| - 1] == TimesOf(Init(log), key);
      } else {
        assert times == TimesOf(Init(log), key);
      }
    }
  }
}

/**
 InMemoryRateLimiter: a bounded, ordered map of fixed windows with a lazy sweep and a hard cap.

 The class keeps the source's loops and in-place updates; each of its methods is proved against
 a function on values.  Runs of those functions over request traces are then proved to conform
 to the fixed-window policy, to respect the cap, and to sweep at constant amortised cost.
 */
module InMemoryLimiter {
  import opened Options
  import opened FixedWindow

  datatype Entry = Entry(key: Key, window: Window)

  /** An ordered map, oldest insertion first: entries with distinct keys. */
  type OrderedWindows = seq<Entry>

  /** The source's fields: the ordered map and the time of the next sweep. */
  datatype State = State(entries: OrderedWindows, nextSweepAt: real)

  datatype RawBounds = RawBounds(limits: Limits, maxTrackedKeys: int)

  type Bounds = b: RawBounds | b.maxTrackedKeys >= 1 witness RawBounds(RawLimits(1, 1.0), 1)

  predicate DistinctKeys(es: OrderedWindows) {
    forall i, j :: 0 <= i < j < |es| ==> es[i].key != es[j].key
  }

  predicate OldestFirst(es: OrderedWindows) {
    forall i, j :: 0 <= i < j < |es| ==> es[i].window.startedAt <= es[j].window.startedAt
  }

  // ----- The ordered map --------------------------------------------------------------------

  function Find(es: OrderedWindows, key: Key): Option<Window> {
    if es == [] then None
    else if es[0].key == key then Some(es[0].window)
    else Find(es[1..], key)
  }

  lemma {:induction false} FindIsSound(es: OrderedWindows, key: Key)
    ensures Find(es, key).Some? ==> Entry(key, Find(es, key).value) in es
    ensures Find(es, key).None? ==> forall e :: e in es ==> e.key != key
  {
    if es != [] {
      FindIsSound(es[1..], key);
    }
  }

  /** The entries a sweep keeps, in their order. */
  function Survivors(es: OrderedWindows, cutoff: real): OrderedWindows {
    if es == [] then []
    else
      var kept := Survivors(es[..|es| - 1], cutoff);
      if es[|es| - 1].window.startedAt > cutoff then kept + [es[|es| - 1]] else kept
  }

  lemma {:induction false} SurvivorsMembers(es: OrderedWindows, cutoff: real)
    ensures forall e :: e in Survivors(es, cutoff) <==> e in es && e.window.startedAt > cutoff
    ensures |Survivors(es, cutoff)| <= |es|
  {
    if es != [] {
      SurvivorsMembers(es[..|es| - 1], cutoff);
      assert es == es[..|es| - 1] + [es[|es| - 1]];
    }
  }

  /** What is left of an ordered map when the oldest entries are popped down to below `cap`. */
  function EvictedPrefix(es: OrderedWindows, cap: int): nat
    requires cap >= 1
  {
    if |es| < cap then 0 else |es| - cap + 1
  }

  function Without(es: OrderedWindows, key: Key): OrderedWindows {
    if es == [] then []
    else
      var others := Without(es[..|es| - 1], key);
      if es[|es| - 1].key != key then others + [es[|es| - 1]] else others
  }

  lemma {:induction false} WithoutMembers(es: OrderedWindows, key: Key)
    ensures forall e :: e in Without(es, key) <==> e in es && e.key != key
    ensures |Without(es, key)| <= |es|
  {
    if es != [] {
      WithoutMembers(es[..|es| - 1], key);
      assert es == es[..|es| - 1] + [es[|es| - 1]];
    }
  }

  /** Assign the key and move it to the end. */
  function Reopen(es: OrderedWindows, key: Key, now: real): OrderedWindows {
    Without(es, key) + [Entry(key, Window(now, 1))]
  }

  /** Count one more request in the key's window, in place. */
  function Bump(es: OrderedWindows, key: Key): OrderedWindows {
    seq(|es|, i requires 0 <= i < |es| =>
      if es[i].key == key then es[i].(window := es[i].window.(count := es[i].window.count + 1)) else es[i])
  }

  // ----- One check --------------------------------------------------------------------------

  function SweepState(b: Bounds, st: State, now: real): State {
    State(Survivors(st.entries, now - b.limits.windowSeconds), now + b.limits.windowSeconds)
  }

  /** The map after the sweep that is due at `now`, if one is. */
  function Swept(b: Bounds, st: State, now: real): State {
    if now >= st.nextSweepAt then SweepState(b, st, now) else st
  }

  function MakeRoomState(b: Bounds, st: State, now: real): State {
    var swept := Swept(b, st, now);
    swept.(entries := swept.entries[EvictedPrefix(swept.entries, b.maxTrackedKeys)..])
  }

  /** The entries popped at the cap by a check that opens a window. */
  function Popped(b: Bounds, st: State, now: real): OrderedWindows {
    var swept := Swept(b, st, now);
    swept.entries[..EvictedPrefix(swept.entries, b.maxTrackedKeys)]
  }

  function CheckState(b: Bounds, st: State, key: Key, now: real): State {
    var w := Find(st.entries, key);
    if Opens(b.limits, w, now) then
      var room := MakeRoomState(b, st, now);
      room.(entries := Reopen(room.entries, key, now))
    else if w.value.count < b.limits.maxRequests then st.(entries := Bump(st.entries, key))
    else st
  }

  function CheckAnswer(b: Bounds, st: State, key: Key, now: real): Answer {
    var w := Find(st.entries, key);
    if Opens(b.limits, w, now) then Answer(true, 0.0)
    else if w.value.count < b.limits.maxRequests then Answer(true, 0.0)
    else
      var retryAfter := b.limits.windowSeconds - (now - w.value.startedAt);
      Answer(false, if retryAfter < 0.0 then 0.0 else retryAfter)
  }

  // ----- The class --------------------------------------------------------------------------

  class InMemoryRateLimiter {
    const bounds: Bounds
    var windows: OrderedWindows
    var nextSweepAt: real

    constructor (bounds: Bounds)
      ensures Contents() == State([], 0.0) && this.bounds == bounds
    {
      this.bounds := bounds;
      windows, nextSweepAt := [], 0.0;
    }

    function Contents(): State
      reads this
    {
      State(windows, nextSweepAt)
    }

    /** Rebuild the map without the windows that have already expired. */
    method Sweep(now: real) returns (ghost scanned: nat)
      modifies this
      ensures scanned == |old(Contents()).entries|
      ensures Contents() == SweepState(bounds, old(Contents()), now)
    {
      var cutoff := now - bounds.limits.windowSeconds;
      var kept: OrderedWindows := [];
      scanned := 0;
      for i := 0 to |windows|
        invariant scanned == i
        invariant kept == Survivors(windows[..i], cutoff)
        invariant unchanged(this)
      {
        assert windows[..i + 1][..i] == windows[..i];
        scanned := scanned + 1;
        if windows[i].window.startedAt > cutoff {
          kept := kept + [windows[i]];
        }
      }
      assert windows[..|windows|] == windows;
      windows := kept;
      nextSweepAt := now + bounds.limits.windowSeconds;
    }

    /** Sweep if a sweep is due, then pop oldest entries until one more fits under the cap. */
    method MakeRoom(now: real) returns (ghost scanned: nat)
      modifies this
      ensures scanned == if now >= old(nextSweepAt) then |old(Contents()).entries| else 0
      ensures Contents() == MakeRoomState(bounds, old(Contents()), now)
    {
      scanned := 0;
      if now >= nextSweepAt {
        scanned := Sweep(now);
      }
      ghost var swept := windows;
      ghost var popped := 0;
      while |windows| >= bounds.maxTrackedKeys
        invariant popped <= |swept| && windows == swept[popped..]
        invariant popped <= EvictedPrefix(swept, bounds.maxTrackedKeys)
        invariant nextSweepAt == Swept(bounds, old(Contents()), now).nextSweepAt
        decreases |windows|
      {
        windows := windows[1..];
        popped := popped + 1;
      }
      assert popped == EvictedPrefix(swept, bounds.maxTrackedKeys);
    }

    /** `self._windows[key] = window; self._windows.move_to_end(key)`. */
    method AssignAndMoveToEnd(key: Key, now: real)
      modifies this`windows
      ensures windows == Reopen(old(windows), key, now)
    {
      var others: OrderedWindows := [];
      for i := 0 to |windows|
        invariant others == Without(windows[..i], key)
        invariant unchanged(this)
      {
        assert windows[..i + 1][..i] == windows[..i];
        if windows[i].key != key {
          others := others + [windows[i]];
        }
      }
      assert windows[..|windows|] == windows;
      windows := others + [Entry(key, Window(now, 1))];
    }

    method Check(key: Key, now: real) returns (allowed: bool, retryAfter: real, ghost scanned: nat)
      modifies this
      ensures scanned == Scanned(bounds, old(Contents()), Request(key, now))
      ensures Contents() == CheckState(bounds, old(Contents()), key, now)
      ensures Answer(allowed, retryAfter) == CheckAnswer(bounds, old(Contents()), key, now)
    {
      var window := Find(windows, key);
      scanned := 0;
      if window.None? || now - window.value.startedAt >= bounds.limits.windowSeconds {
        scanned := MakeRoom(now);
        AssignAndMoveToEnd(key, now);
        return true, 0.0, scanned;
      }
      if window.value.count < bounds.limits.maxRequests {
        windows := Bump(windows, key);
        return true, 0.0, scanned;
      }
      retryAfter := bounds.limits.windowSeconds - (now - window.value.startedAt);
      return false, if retryAfter < 0.0 then 0.0 else retryAfter, scanned;
    }
  }

  /** The checked construction: every parameter the source rejects is an error here. */
  method NewInMemoryRateLimiter(maxRequests: int, windowSeconds: real, maxTrackedKeys: int)
    returns (r: Result<InMemoryRateLimiter, string>)
    ensures r.Ok? <==> maxRequests >= 1 && windowSeconds > 0.0 && maxTrackedKeys >= 1
    ensures r.Ok? ==> fresh(r.value) && r.value.Contents() == State([], 0.0)
    ensures r.Ok? ==> r.value.bounds == RawBounds(RawLimits(maxRequests, windowSeconds), maxTrackedKeys)
  {
    if maxRequests < 1 {
      return Err("max_requests must be >= 1");
    }
    if windowSeconds <= 0.0 {
      return Err("window_seconds must be > 0");
    }
    if maxTrackedKeys < 1 {
      return Err("max_tracked_keys must be >= 1");
    }
    var limits: Limits := RawLimits(maxRequests, windowSeconds);
    var limiter := new InMemoryRateLimiter(RawBounds(limits, maxTrackedKeys));
    return Ok(limiter);
  }

  // ----- Runs -------------------------------------------------------------------------------

  datatype Request = Request(key: Key, at: real)

  /** A trace of checks: times from zero on, never going back. */
  predicate Trace(reqs: seq<Request>) {
    && (forall i :: 0 <= i < |reqs| ==> 0.0 <= reqs[i].at)
    && (forall i, j :: 0 <= i < j < |reqs| ==> reqs[i].at <= reqs[j].at)
  }

  function Butlast(reqs: seq<Request>): seq<Request>
    requires reqs != []
  {
    reqs[..|reqs| - 1]
  }

  function Final(reqs: seq<Request>): Request
    requires reqs != []
  {
    reqs[|reqs| - 1]
  }

  /** The time of the last request, or zero before the first. */
  function Clock(reqs: seq<Request>): real {
    if reqs == [] then 0.0 else Final(reqs).at
  }

  function RunState(b: Bounds, reqs: seq<Request>): State {
    if reqs == [] then State([], 0.0)
    else CheckState(b, RunState(b, Butlast(reqs)), Final(reqs).key, Final(reqs).at)
  }

  /** The evictions of live windows among the popped entries. */
  function LiveEvictions(l: Limits, popped: OrderedWindows, now: real): Log {
    if popped == [] then []
    else
      var rest := LiveEvictions(l, popped[1..], now);
      if Live(l, popped[0].window, now) then [LiveEvicted(popped[0].key, now)] + rest else rest
  }

  lemma {:induction false} LiveEvictionsOnly(l: Limits, popped: OrderedWindows, now: real)
    ensures forall e :: e in LiveEvictions(l, popped, now) ==> e.LiveEvicted? && e.at == now
  {
    if popped != [] {
      LiveEvictionsOnly(l, popped[1..], now);
    }
  }

  /** Whether the check of `r` in `st` opens a window. */
  predicate OpensAt(b: Bounds, st: State, r: Request) {
    Opens(b.limits, Find(st.entries, r.key), r.at)
  }

  /** What one check adds to the log: the live windows it evicts, then its answer. */
  function CheckLog(b: Bounds, st: State, r: Request): Log {
    (if OpensAt(b, st, r) then LiveEvictions(b.limits, Popped(b, st, r.at), r.at) else [])
    + [Served(r.key, r.at, CheckAnswer(b, st, r.key, r.at))]
  }

  function RunLog(b: Bounds, reqs: seq<Request>): Log {
    if reqs == [] then []
    else RunLog(b, Butlast(reqs)) + CheckLog(b, RunState(b, Butlast(reqs)), Final(reqs))
  }

  // ----- The map invariant ------------------------------------------------------------------

  /** What every check keeps; `clock` is the time of the last request. */
  predicate MapOk(b: Bounds, st: State, clock: real) {
    && DistinctKeys(st.entries)
    && |st.entries| <= b.maxTrackedKeys
    && OldestFirst(st.entries)
    && (forall e :: e in st.entries ==> e.window.startedAt <= clock)
    && (forall e :: e in st.entries ==> st.nextSweepAt - b.limits.windowSeconds - b.limits.windowSeconds < e.window.startedAt)
    && (forall e :: e in st.entries ==> 1 <= e.window.count <= b.limits.maxRequests)
    && st.nextSweepAt - b.limits.windowSeconds <= clock
  }

  /** One more entry with a new key, no older than the rest. */
  lemma AppendKeepsOrder(es: OrderedWindows, e: Entry)
    requires DistinctKeys(es) && OldestFirst(es)
    requires forall o :: o in es ==> o.key != e.key && o.window.startedAt <= e.window.startedAt
    ensures DistinctKeys(es + [e]) && OldestFirst(es + [e])
  {
  }

  lemma {:induction false} SurvivorsKeepOrder(es: OrderedWindows, cutoff: real)
    requires DistinctKeys(es) && OldestFirst(es)
    ensures DistinctKeys(Survivors(es, cutoff)) && OldestFirst(Survivors(es, cutoff))
  {
    if es != [] {
      SurvivorsKeepOrder(es[..|es| - 1], cutoff);
      SurvivorsMembers(es[..|es| - 1], cutoff);
      AppendKeepsOrder(Survivors(es[..|es| - 1], cutoff), es[|es| - 1]);
    }
  }

  lemma {:induction false} WithoutKeepsOrder(es: OrderedWindows, key: Key)
    requires DistinctKeys(es) && OldestFirst(es)
    ensures DistinctKeys(Without(es, key)) && OldestFirst(Without(es, key))
  {
    if es != [] {
      WithoutKeepsOrder(es[..|es| - 1], key);
      WithoutMembers(es[..|es| - 1], key);
      AppendKeepsOrder(Without(es[..|es| - 1], key), es[|es| - 1]);
    }
  }

  /** With distinct keys, looking a key up is the same as being an entry. */
  lemma {:induction false} FindIsMembership(es: OrderedWindows, e: Entry)
    requires DistinctKeys(es) && e in es
    ensures Find(es, e.key) == Some(e.window)
  {
    if e != es[0] {
      FindIsMembership(es[1..], e);
    }
  }

  lemma SweptOk(b: Bounds, st: State, clock: real, now: real)
    requires MapOk(b, st, clock) && clock <= now
    ensures MapOk(b, Swept(b, st, now), now)
    ensures now < Swept(b, st, now).nextSweepAt
  {
    if now >= st.nextSweepAt {
      SurvivorsMembers(st.entries, now - b.limits.windowSeconds);
      SurvivorsKeepOrder(st.entries, now - b.limits.windowSeconds);
    }
  }

  lemma CheckKeepsMap(b: Bounds, st: State, clock: real, key: Key, now: real)
    requires MapOk(b, st, clock) && clock <= now
    ensures MapOk(b, CheckState(b, st, key, now), now)
  {
    var w := Find(st.entries, key);
    if Opens(b.limits, w, now) {
      SweptOk(b, st, clock, now);
      var room := MakeRoomState(b, st, now);
      assert forall e :: e in room.entries ==> e in Swept(b, st, now).entries;
      ReopenKeepsMap(b, room, key, now);
    } else if w.value.count < b.limits.maxRequests {
      BumpKeepsMap(b, st, key, now);
    }
  }

  lemma ReopenKeepsMap(b: Bounds, room: State, key: Key, now: real)
    requires MapOk(b, room, now) && now < room.nextSweepAt && |room.entries| < b.maxTrackedKeys
    ensures MapOk(b, room.(entries := Reopen(room.entries, key, now)), now)
  {
    WithoutMembers(room.entries, key);
    WithoutKeepsOrder(room.entries, key);
  }

  lemma BumpKeepsMap(b: Bounds, st: State, key: Key, now: real)
    requires MapOk(b, st, now)
    requires Find(st.entries, key).Some? && Find(st.entries, key).value.count < b.limits.maxRequests
    ensures MapOk(b, st.(entries := Bump(st.entries, key)), now)
  {
    var bumped := Bump(st.entries, key);
    forall e | e in bumped
      ensures e.window.startedAt <= now && 1 <= e.window.count <= b.limits.maxRequests
      ensures st.nextSweepAt - b.limits.windowSeconds - b.limits.windowSeconds < e.window.startedAt
    {
      var i :| 0 <= i < |bumped| && bumped[i] == e;
      assert st.entries[i] in st.entries;
      FindIsMembership(st.entries, st.entries[i]);
    }
  }

  /** The map invariant holds after every trace. */
  lemma {:induction false} RunKeepsMap(b: Bounds, reqs: seq<Request>)
    requires Trace(reqs)
    ensures MapOk(b, RunState(b, reqs), Clock(reqs))
  {
    if reqs != [] {
      RunKeepsMap(b, Butlast(reqs));
      CheckKeepsMap(b, RunState(b, Butlast(reqs)), Clock(Butlast(reqs)), Final(reqs).key, Final(reqs).at);
    }
  }

  /** The number of tracked keys never exceeds the cap, and the leftmost entry is an oldest window. */
  lemma TrackedKeysStayBounded(b: Bounds, reqs: seq<Request>)
    requires Trace(reqs)
    ensures |RunState(b, reqs).entries| <= b.maxTrackedKeys
    ensures forall e :: e in RunState(b, reqs).entries ==>
              RunState(b, reqs).entries[0].window.startedAt <= e.window.startedAt
  {
    RunKeepsMap(b, reqs);
  }

  /** The entry's window started in the past, and less than two windows ago. */
  predicate Young(l: Limits, e: Entry, now: real) {
    0.0 <= now - e.window.startedAt < l.windowSeconds + l.windowSeconds
  }

  /** After a check that opens a window every tracked window is younger than two windows. */
  lemma OpeningLeavesYoungWindows(b: Bounds, reqs: seq<Request>, r: Request, e: Entry)
    requires Trace(reqs) && Clock(reqs) <= r.at
    ensures OpensAt(b, RunState(b, reqs), r) && e in CheckState(b, RunState(b, reqs), r.key, r.at).entries ==>
              Young(b.limits, e, r.at)
  {
    RunKeepsMap(b, reqs);
    if OpensAt(b, RunState(b, reqs), r) && e in CheckState(b, RunState(b, reqs), r.key, r.at).entries {
      OpeningIsYoung(b, RunState(b, reqs), Clock(reqs), r, e);
    }
  }

  lemma OpeningIsYoung(b: Bounds, st: State, clock: real, r: Request, e: Entry)
    requires MapOk(b, st, clock) && clock <= r.at && OpensAt(b, st, r)
    requires e in CheckState(b, st, r.key, r.at).entries
    ensures Young(b.limits, e, r.at)
  {
    SweptOk(b, st, clock, r.at);
    var swept, room := Swept(b, st, r.at), MakeRoomState(b, st, r.at);
    WithoutMembers(room.entries, r.key);
    assert e in swept.entries || e == Entry(r.key, Window(r.at, 1));
  }

  /** The eviction loop pops at most one entry, and what it pops is no younger than any other. */
  lemma PopsAtMostTheOldest(b: Bounds, reqs: seq<Request>, now: real)
    requires Trace(reqs) && Clock(reqs) <= now
    ensures |Popped(b, RunState(b, reqs), now)| <= 1
    ensures forall p, e :: p in Popped(b, RunState(b, reqs), now) && e in Swept(b, RunState(b, reqs), now).entries
                           ==> p.window.startedAt <= e.window.startedAt
  {
    RunKeepsMap(b, reqs);
    SweptOk(b, RunState(b, reqs), Clock(reqs), now);
    PrefixIsOldest(Swept(b, RunState(b, reqs), now).entries, b.maxTrackedKeys);
  }

  lemma PrefixIsOldest(es: OrderedWindows, cap: int)
    requires |es| <= cap && cap >= 1 && OldestFirst(es)
    ensures |es[..EvictedPrefix(es, cap)]| <= 1
    ensures forall p, e :: p in es[..EvictedPrefix(es, cap)] && e in es ==> p.window.startedAt <= e.window.startedAt
  {
    assert EvictedPrefix(es, cap) <= 1;
  }

  // ----- Conformance ------------------------------------------------------------------------

  /** The map and the policy agree on what is live for `key` from `now` on. */
  ghost predicate Agrees(l: Limits, es: OrderedWindows, st: Option<Window>, key: Key, now: real) {
    && (st.Some? && Live(l, st.value, now) ==> Entry(key, st.value) in es)
    && (forall w :: Entry(key, w) in es && Live(l, w, now) ==> st == Some(w))
  }

  lemma AgreesLater(l: Limits, es: OrderedWindows, st: Option<Window>, key: Key, now: real, later: real)
    requires Agrees(l, es, st, key, now) && now <= later
    ensures Agrees(l, es, st, key, later)
  {
  }

  lemma AgreesOnAnswer(b: Bounds, st: State, ks: Option<Window>, key: Key, now: real)
    requires DistinctKeys(st.entries) && Agrees(b.limits, st.entries, ks, key, now)
    ensures Opens(b.limits, Find(st.entries, key), now) <==> Opens(b.limits, ks, now)
    ensures !Opens(b.limits, ks, now) ==> Find(st.entries, key) == ks
    ensures CheckAnswer(b, st, key, now) == Respond(b.limits, ks, now)
  {
    FindIsSound(st.entries, key);
    if ks.Some? && Live(b.limits, ks.value, now) {
      FindIsMembership(st.entries, Entry(key, ks.value));
    }
  }

  /** The policy's window of `key` after the popped entries have been logged. */
  function KeyAfterPop(l: Limits, ks: Option<Window>, popped: OrderedWindows, key: Key, now: real): Option<Window> {
    if |popped| == 1 && popped[0].key == key && Live(l, popped[0].window, now) then None else ks
  }

  lemma SweepAgrees(b: Bounds, st: State, ks: Option<Window>, key: Key, now: real)
    requires Agrees(b.limits, st.entries, ks, key, now)
    ensures Agrees(b.limits, Swept(b, st, now).entries, ks, key, now)
  {
    SurvivorsMembers(st.entries, now - b.limits.windowSeconds);
  }

  lemma PopAgrees(l: Limits, es: OrderedWindows, ks: Option<Window>, key: Key, now: real)
    requires es != [] && DistinctKeys(es) && Agrees(l, es, ks, key, now)
    ensures Agrees(l, es[1..], KeyAfterPop(l, ks, es[..1], key, now), key, now)
  {
    assert es == [es[0]] + es[1..];
    assert es[0] in es;
    if es[0].key == key {
      assert forall i :: 0 <= i < |es[1..]| ==> es[1..][i] == es[i + 1] && es[i + 1].key != es[0].key;
    } else {
      forall w ensures Entry(key, w) in es <==> Entry(key, w) in es[1..] {}
    }
  }

  /** A sweep and a pop keep agreement, when the popped live windows are reported. */
  lemma RoomAgrees(b: Bounds, st: State, clock: real, ks: Option<Window>, key: Key, now: real)
    requires MapOk(b, st, clock) && clock <= now && Agrees(b.limits, st.entries, ks, key, now)
    ensures |Popped(b, st, now)| <= 1
    ensures Agrees(b.limits, MakeRoomState(b, st, now).entries,
                   KeyAfterPop(b.limits, ks, Popped(b, st, now), key, now), key, now)
  {
    SweptOk(b, st, clock, now);
    SweepAgrees(b, st, ks, key, now);
    var swept := Swept(b, st, now).entries;
    if EvictedPrefix(swept, b.maxTrackedKeys) == 0 {
      assert swept[0..] == swept;
    } else {
      PopAgrees(b.limits, swept, ks, key, now);
    }
  }

  lemma ReopenAgrees(l: Limits, es: OrderedWindows, ks: Option<Window>, key: Key, now: real, k: Key)
    requires Agrees(l, es, ks, k, now)
    ensures Agrees(l, Reopen(es, key, now), if k == key then Some(Window(now, 1)) else ks, k, now)
  {
    WithoutMembers(es, key);
  }

  lemma BumpAgrees(l: Limits, es: OrderedWindows, ks: Option<Window>, key: Key, now: real, k: Key)
    requires DistinctKeys(es) && Agrees(l, es, ks, k, now)
    requires k == key ==> ks.Some? && Live(l, ks.value, now)
    ensures Agrees(l, Bump(es, key), if k == key then Some(ks.value.(count := ks.value.count + 1)) else ks, k, now)
  {
    var bumped := Bump(es, key);
    if ks.Some? && Live(l, ks.value, now) {
      var i :| 0 <= i < |es| && es[i] == Entry(k, ks.value);
      assert bumped[i] in bumped;
    }
    forall w | Entry(k, w) in bumped && Live(l, w, now)
      ensures (if k == key then Some(ks.value.(count := ks.value.count + 1)) else ks) == Some(w)
    {
      var i :| 0 <= i < |bumped| && bumped[i] == Entry(k, w);
      assert es[i] in es && es[i] == Entry(k, es[i].window);
    }
  }

  /** The whole state of a run agrees with the log of the run. */
  ghost predicate RunAgrees(b: Bounds, st: State, log: Log, now: real) {
    forall k :: Agrees(b.limits, st.entries, KeyState(b.limits, log, k), k, now)
  }

  lemma CheckConforms(b: Bounds, st: State, clock: real, log: Log, r: Request)
    requires MapOk(b, st, clock) && clock <= r.at
    requires Conforms(b.limits, log) && RunAgrees(b, st, log, clock)
    ensures Conforms(b.limits, log + CheckLog(b, st, r))
    ensures RunAgrees(b, CheckState(b, st, r.key, r.at), log + CheckLog(b, st, r), r.at)
  {
    if OpensAt(b, st, r) {
      OpeningConforms(b, st, clock, log, r);
    } else {
      CountingConforms(b, st, clock, log, r);
    }
  }

  lemma OpeningConforms(b: Bounds, st: State, clock: real, log: Log, r: Request)
    requires MapOk(b, st, clock) && clock <= r.at && OpensAt(b, st, r)
    requires Conforms(b.limits, log) && RunAgrees(b, st, log, clock)
    ensures Conforms(b.limits, log + CheckLog(b, st, r))
    ensures RunAgrees(b, CheckState(b, st, r.key, r.at), log + CheckLog(b, st, r), r.at)
  {
    var l, key, now := b.limits, r.key, r.at;
    var ks, popped, room := KeyState(l, log, key), Popped(b, st, now), MakeRoomState(b, st, now);
    var mid, served := log + LiveEvictions(l, popped, now), Served(key, now, CheckAnswer(b, st, key, now));
    AgreesLater(l, st.entries, ks, key, clock, now);
    AgreesOnAnswer(b, st, ks, key, now);
    RoomAgrees(b, st, clock, ks, key, now);
    LogPop(b, log, popped, now);
    assert log + CheckLog(b, st, r) == mid + [served];
    assert Opens(l, KeyState(l, mid, key), now);
    ConformsSnoc(l, mid, served);
    forall k ensures Agrees(l, Reopen(room.entries, key, now), KeyState(l, mid + [served], k), k, now) {
      AgreesLater(l, st.entries, KeyState(l, log, k), k, clock, now);
      RoomAgrees(b, st, clock, KeyState(l, log, k), k, now);
      KeyStateSnoc(l, mid, served, k);
      ReopenAgrees(l, room.entries, KeyState(l, mid, k), key, now, k);
    }
  }

  lemma CountingConforms(b: Bounds, st: State, clock: real, log: Log, r: Request)
    requires MapOk(b, st, clock) && clock <= r.at && !OpensAt(b, st, r)
    requires Conforms(b.limits, log) && RunAgrees(b, st, log, clock)
    ensures Conforms(b.limits, log + CheckLog(b, st, r))
    ensures RunAgrees(b, CheckState(b, st, r.key, r.at), log + CheckLog(b, st, r), r.at)
  {
    var l, key, now := b.limits, r.key, r.at;
    var ks, served := KeyState(l, log, key), Served(key, now, CheckAnswer(b, st, key, now));
    AgreesLater(l, st.entries, ks, key, clock, now);
    AgreesOnAnswer(b, st, ks, key, now);
    assert CheckLog(b, st, r) == [served];
    ConformsSnoc(l, log, served);
    forall k ensures Agrees(l, CheckState(b, st, key, now).entries, KeyState(l, log + [served], k), k, now) {
      AgreesLater(l, st.entries, KeyState(l, log, k), k, clock, now);
      KeyStateSnoc(l, log, served, k);
      CountingAgrees(b, st, KeyState(l, log, k), r, k);
    }
  }

  lemma CountingAgrees(b: Bounds, st: State, ks: Option<Window>, r: Request, k: Key)
    requires DistinctKeys(st.entries) && Agrees(b.limits, st.entries, ks, k, r.at) && !OpensAt(b, st, r)
    requires k == r.key ==> Find(st.entries, k) == ks
    ensures Agrees(b.limits, CheckState(b, st, r.key, r.at).entries,
                   if k == r.key then Some(NextWindow(b.limits, ks, r.at)) else ks, k, r.at)
  {
    if Find(st.entries, r.key).value.count < b.limits.maxRequests {
      BumpAgrees(b.limits, st.entries, ks, r.key, r.at, k);
    }
  }

  lemma LogPop(b: Bounds, log: Log, popped: OrderedWindows, now: real)
    requires |popped| <= 1 && Conforms(b.limits, log)
    ensures Conforms(b.limits, log + LiveEvictions(b.limits, popped, now))
    ensures forall k :: KeyState(b.limits, log + LiveEvictions(b.limits, popped, now), k)
                        == KeyAfterPop(b.limits, KeyState(b.limits, log, k), popped, k, now)
  {
    var evictions := LiveEvictions(b.limits, popped, now);
    if |popped| == 1 {
      assert LiveEvictions(b.limits, popped[1..], now) == [];
    }
    if |popped| == 1 && Live(b.limits, popped[0].window, now) {
      var e := LiveEvicted(popped[0].key, now);
      assert popped[1..] == [] && evictions == [e];
      ConformsSnoc(b.limits, log, e);
      forall k ensures KeyState(b.limits, log + [e], k)
                       == KeyAfterPop(b.limits, KeyState(b.limits, log, k), popped, k, now) {
        KeyStateSnoc(b.limits, log, e, k);
      }
    } else {
      assert evictions == [];
      assert log + evictions == log;
    }
  }

  /** Every run of the bounded limiter conforms to the fixed-window policy. */
  lemma {:induction false} RunConforms(b: Bounds, reqs: seq<Request>)
    requires Trace(reqs)
    ensures Conforms(b.limits, RunLog(b, reqs)) && TimeOrdered(RunLog(b, reqs))
    ensures RunAgrees(b, RunState(b, reqs), RunLog(b, reqs), Clock(reqs))
    ensures forall e :: e in RunLog(b, reqs) ==> e.at <= Clock(reqs)
  {
    if reqs != [] {
      RunConforms(b, Butlast(reqs));
      RunKeepsMap(b, Butlast(reqs));
      CheckConforms(b, RunState(b, Butlast(reqs)), Clock(Butlast(reqs)), RunLog(b, Butlast(reqs)), Final(reqs));
      var pre, ext := RunLog(b, Butlast(reqs)), CheckLog(b, RunState(b, Butlast(reqs)), Final(reqs));
      LiveEvictionsOnly(b.limits, Popped(b, RunState(b, Butlast(reqs)), Final(reqs).at), Final(reqs).at);
      assert forall e :: e in ext ==> e.at == Final(reqs).at;
      forall i, j | 0 <= i < j < |pre + ext| ensures (pre + ext)[i].at <= (pre + ext)[j].at {
        if j >= |pre| {
          assert (pre + ext)[j] in ext;
          assert i < |pre| ==> pre[i] in pre;
          assert i >= |pre| ==> (pre + ext)[i] in ext;
        }
      }
    }
  }

  // ----- What clients may rely on -----------------------------------------------------------

  lemma LogConforms(b: Bounds, reqs: seq<Request>)
    requires Trace(reqs)
    ensures Conforms(b.limits, RunLog(b, reqs)) && TimeOrdered(RunLog(b, reqs))
  {
    RunConforms(b, reqs);
  }

  /** The answer to the last request of a trace. */
  function LastAnswer(b: Bounds, reqs: seq<Request>): Answer
    requires reqs != []
  {
    CheckAnswer(b, RunState(b, Butlast(reqs)), Final(reqs).key, Final(reqs).at)
  }

  /** A check extends the log by evictions and then its own answer. */
  lemma CheckExtendsLog(b: Bounds, reqs: seq<Request>) returns (evictions: Log)
    requires reqs != []
    ensures forall e :: e in evictions ==> e.LiveEvicted?
    ensures RunLog(b, reqs) == RunLog(b, Butlast(reqs)) + evictions
                               + [Served(Final(reqs).key, Final(reqs).at, LastAnswer(b, reqs))]
  {
    var st, r := RunState(b, Butlast(reqs)), Final(reqs);
    LiveEvictionsOnly(b.limits, Popped(b, st, r.at), r.at);
    evictions := if OpensAt(b, st, r) then LiveEvictions(b.limits, Popped(b, st, r.at), r.at) else [];
    assert RunLog(b, reqs) == RunLog(b, Butlast(reqs)) + (evictions + [Served(r.key, r.at, LastAnswer(b, reqs))]);
  }

  /** Popping entries adds no answers, so the admissions before a check are those of its trace. */
  lemma {:induction false} EvictionsAddNoAdmissions(log: Log, evictions: Log, key: Key, t: real)
    requires forall e :: e in evictions ==> e.LiveEvicted?
    ensures AdmittedAfter(log + evictions, key, t) == AdmittedAfter(log, key, t)
    ensures RequestedAfter(log + evictions, key, t) == RequestedAfter(log, key, t)
  {
    if evictions == [] {
      assert log + evictions == log;
    } else {
      assert Init(log + evictions) == log + Init(evictions);
      assert Last(log + evictions) == Last(evictions) && Last(evictions) in evictions;
      EvictionsAddNoAdmissions(log, Init(evictions), key, t);
    }
  }

  /** The key has been admitted `maxRequests` times strictly within the window before `now`. */
  predicate BudgetSpent(l: Limits, log: Log, key: Key, now: real) {
    AdmittedAfter(log, key, now - l.windowSeconds) >= l.maxRequests
  }

  /**
   No wrongful rejection, whatever has been swept or evicted: a key rejected at `now` has been
   admitted `maxRequests` times strictly within the last window.
   */
  lemma NoWrongfulRejection(b: Bounds, reqs: seq<Request>)
    requires Trace(reqs) && reqs != [] && !LastAnswer(b, reqs).allowed
    ensures BudgetSpent(b.limits, RunLog(b, Butlast(reqs)), Final(reqs).key, Final(reqs).at)
  {
    var evictions := CheckExtendsLog(b, reqs);
    LogConforms(b, reqs);
    RejectedAfter(b.limits, RunLog(b, Butlast(reqs)), evictions,
                  Served(Final(reqs).key, Final(reqs).at, LastAnswer(b, reqs)));
  }

  lemma RejectedAfter(l: Limits, before: Log, evictions: Log, served: LogEntry)
    requires forall e :: e in evictions ==> e.LiveEvicted?
    requires served.Served? && !served.answer.allowed
    requires Conforms(l, before + evictions + [served]) && TimeOrdered(before + evictions + [served])
    ensures BudgetSpent(l, before, served.key, served.at)
  {
    var log := before + evictions + [served];
    assert log[..|log| - 1] == before + evictions;
    RejectionIsEarned(l, log, |log| - 1);
    EvictionsAddNoAdmissions(before, evictions, served.key, served.at - l.windowSeconds);
  }

  /** A key that stays within budget in every sliding window is never rejected. */
  lemma WithinBudgetNeverRejected(b: Bounds, reqs: seq<Request>)
    requires Trace(reqs) && reqs != []
    requires RequestedAfter(RunLog(b, Butlast(reqs)), Final(reqs).key, Final(reqs).at - b.limits.windowSeconds)
             < b.limits.maxRequests
    ensures LastAnswer(b, reqs) == Answer(true, 0.0)
  {
    if !LastAnswer(b, reqs).allowed {
      NoWrongfulRejection(b, reqs);
      AdmissionsAreRequests(RunLog(b, Butlast(reqs)), Final(reqs).key, Final(reqs).at - b.limits.windowSeconds);
      assert false;
    }
  }

  /** In any span of `k` windows a key is admitted at most `(k + 1 + e) * maxRequests` times. */
  lemma RealBound(b: Bounds, reqs: seq<Request>, key: Key, a: real, k: nat)
    requires Trace(reqs)
    ensures WithinBudgets(b.limits, RunLog(b, reqs), key, a, k)
  {
    LogConforms(b, reqs);
    AdmissionBound(b.limits, RunLog(b, reqs), key, a, k);
  }

  /** A rejection of the bounded limiter tells exactly when the key is admitted again, unless it is evicted. */
  lemma BoundedRetryAfter(b: Bounds, reqs: seq<Request>, i: nat, j: nat)
    requires Trace(reqs) && ComesBack(RunLog(b, reqs), i, j)
    ensures PromiseKept(b.limits, RunLog(b, reqs), i, j)
  {
    LogConforms(b, reqs);
    RetryAfterIsExact(b.limits, RunLog(b, reqs), i, j);
  }

  /** The times at which a trace asks about `key`. */
  function RequestTimes(reqs: seq<Request>, key: Key): seq<real> {
    if reqs == [] then []
    else
      var before := RequestTimes(Butlast(reqs), key);
      if Final(reqs).key == key then before + [Final(reqs).at] else before
  }

  lemma {:induction false} LoggedTimes(b: Bounds, reqs: seq<Request>, key: Key)
    ensures TimesOf(RunLog(b, reqs), key) == RequestTimes(reqs, key)
  {
    if reqs != [] {
      var log, before := RunLog(b, reqs), RunLog(b, Butlast(reqs));
      LoggedTimes(b, Butlast(reqs), key);
      var evictions := CheckExtendsLog(b, reqs);
      assert Init(log) == before + evictions;
      EvictionsServeNobody(before, evictions, key);
    }
  }

  lemma {:induction false} EvictionsServeNobody(log: Log, evictions: Log, key: Key)
    requires forall e :: e in evictions ==> e.LiveEvicted?
    ensures TimesOf(log + evictions, key) == TimesOf(log, key)
  {
    if evictions == [] {
      assert log + evictions == log;
    } else {
      assert Init(log + evictions) == log + Init(evictions);
      assert Last(log + evictions) == Last(evictions) && Last(evictions) in evictions;
      EvictionsServeNobody(log, Init(evictions), key);
    }
  }

  /**
   Refinement: as long as a key's live window is not evicted, the bounded limiter gives it exactly
   the answers of the unbounded one, whatever it swept or evicted for other keys.
   */
  lemma BoundedRefinesUnbounded(b: Bounds, reqs: seq<Request>, key: Key)
    requires Trace(reqs) && NeverEvicted(RunLog(b, reqs), key)
    ensures AnswersOf(RunLog(b, reqs), key) == UnboundedAnswers(b.limits, RequestTimes(reqs, key))
  {
    LogConforms(b, reqs);
    ConformingAnswers(b.limits, RunLog(b, reqs), key);
    LoggedTimes(b, reqs, key);
  }

  /** The last check of the trace is rejected, and the unbounded limiter would have admitted it. */
  predicate CostsAnAdmission(b: Bounds, reqs: seq<Request>) {
    && Trace(reqs) && reqs != []
    && !LastAnswer(b, reqs).allowed
    && var answers := UnboundedAnswers(b.limits, RequestTimes(reqs, Final(reqs).key));
    && answers != [] && answers[|answers| - 1].allowed
  }

  /** Checks of `key` at 0, 59, 60 and 61, with another key taking its slot at 1. */
  function Displaced(key: Key, other: Key): seq<Request> {
    [] + [Request(key, 0.0)] + [Request(other, 1.0)] + [Request(key, 59.0)] + [Request(key, 60.0)] + [Request(key, 61.0)]
  }

  /**
   Eviction is not monotone: forgetting a window can cost its key a later admission.  With a budget
   of 2 in 60 seconds and room for one key, the bounded limiter rejects the check at 61, and the
   unbounded one admits it.
   */
  lemma EvictionCanCostAnAdmission(b: Bounds, key: Key, other: Key)
    requires b.limits.maxRequests == 2 && b.limits.windowSeconds == 60.0 && b.maxTrackedKeys == 1 && key != other
    ensures CostsAnAdmission(b, Displaced(key, other))
  {
    var reqs := [] + [Request(key, 0.0)] + [Request(other, 1.0)] + [Request(key, 59.0)] + [Request(key, 60.0)];
    var last := Request(key, 61.0);
    DisplacedState(b, key, other);
    RunSnoc(b, reqs, last);
    CountsInTheSlot(b, Entry(key, Window(59.0, 2)), 61.0);
    DisplacedTimes(key, other);
    DisplacedUnbounded(b.limits);
  }

  lemma RunSnoc(b: Bounds, reqs: seq<Request>, r: Request)
    ensures RunState(b, reqs + [r]) == CheckState(b, RunState(b, reqs), r.key, r.at)
    ensures LastAnswer(b, reqs + [r]) == CheckAnswer(b, RunState(b, reqs), r.key, r.at)
  {
    assert Butlast(reqs + [r]) == reqs;
  }

  lemma DisplacedState(b: Bounds, key: Key, other: Key)
    requires b.limits.maxRequests == 2 && b.limits.windowSeconds == 60.0 && b.maxTrackedKeys == 1 && key != other
    ensures RunState(b, [] + [Request(key, 0.0)] + [Request(other, 1.0)] + [Request(key, 59.0)] + [Request(key, 60.0)])
            == State([Entry(key, Window(59.0, 2))], 60.0)
  {
    var r0, r1, r2, r3 := Request(key, 0.0), Request(other, 1.0), Request(key, 59.0), Request(key, 60.0);
    RunSnoc(b, [], r0);
    OpensTheFirstSlot(b, key);
    RunSnoc(b, [] + [r0], r1);
    TakesTheOnlySlot(b, Entry(key, Window(0.0, 1)), other, 1.0);
    RunSnoc(b, [] + [r0] + [r1], r2);
    TakesTheOnlySlot(b, Entry(other, Window(1.0, 1)), key, 59.0);
    RunSnoc(b, [] + [r0] + [r1] + [r2], r3);
    CountsInTheSlot(b, Entry(key, Window(59.0, 1)), 60.0);
  }

  lemma DisplacedTimes(key: Key, other: Key)
    requires key != other
    ensures RequestTimes(Displaced(key, other), key) == [0.0, 59.0, 60.0, 61.0]
  {
    var r0, r1, r2, r3 := Request(key, 0.0), Request(other, 1.0), Request(key, 59.0), Request(key, 60.0);
    TimesSnoc([], r0, key);
    TimesSnoc([] + [r0], r1, key);
    TimesSnoc([] + [r0] + [r1], r2, key);
    TimesSnoc([] + [r0] + [r1] + [r2], r3, key);
    TimesSnoc([] + [r0] + [r1] + [r2] + [r3], Request(key, 61.0), key);
  }

  lemma TimesSnoc(reqs: seq<Request>, r: Request, key: Key)
    ensures RequestTimes(reqs + [r], key) == if r.key == key then RequestTimes(reqs, key) + [r.at] else RequestTimes(reqs, key)
  {
    assert Butlast(reqs + [r]) == reqs;
  }

  lemma OpensTheFirstSlot(b: Bounds, key: Key)
    requires b.limits.windowSeconds == 60.0
    ensures CheckState(b, State([], 0.0), key, 0.0) == State([Entry(key, Window(0.0, 1))], 60.0)
  {
  }

  lemma TakesTheOnlySlot(b: Bounds, e: Entry, key: Key, now: real)
    requires b.maxTrackedKeys == 1 && e.key != key && now < 60.0
    ensures CheckState(b, State([e], 60.0), key, now) == State([Entry(key, Window(now, 1))], 60.0)
  {
    assert Find([e], key) == None;
    assert [e][1..] == [];
  }

  lemma CountsInTheSlot(b: Bounds, e: Entry, now: real)
    requires now - e.window.startedAt < b.limits.windowSeconds
    ensures CheckAnswer(b, State([e], 60.0), e.key, now).allowed <==> e.window.count < b.limits.maxRequests
    ensures e.window.count < b.limits.maxRequests ==>
              CheckState(b, State([e], 60.0), e.key, now)
              == State([e.(window := e.window.(count := e.window.count + 1))], 60.0)
  {
    assert Find([e], e.key) == Some(e.window);
  }

  lemma DisplacedUnbounded(l: Limits)
    requires l == RawLimits(2, 60.0)
    ensures UnboundedAnswers(l, [0.0, 59.0, 60.0, 61.0])[3].allowed
  {
    var t4 := [0.0, 59.0, 60.0, 61.0];
    assert t4[..3] == [0.0, 59.0, 60.0] && [0.0, 59.0, 60.0][..2] == [0.0, 59.0] && [0.0, 59.0][..1] == [0.0];
    assert UnboundedState(l, [0.0]) == Some(Window(0.0, 1));
    assert UnboundedState(l, [0.0, 59.0]) == Some(Window(0.0, 2));
    assert UnboundedState(l, [0.0, 59.0, 60.0]) == Some(Window(60.0, 1));
  }

  // ----- Amortised cost ---------------------------------------------------------------------

  /** Entries a check scans: all of them when it sweeps, none otherwise. */
  function Scanned(b: Bounds, st: State, r: Request): nat {
    if OpensAt(b, st, r) && r.at >= st.nextSweepAt then |st.entries| else 0
  }

  function TotalScanned(b: Bounds, reqs: seq<Request>): nat {
    if reqs == [] then 0
    else TotalScanned(b, Butlast(reqs)) + Scanned(b, RunState(b, Butlast(reqs)), Final(reqs))
  }

  function TotalOpened(b: Bounds, reqs: seq<Request>): nat {
    if reqs == [] then 0
    else TotalOpened(b, Butlast(reqs)) + if OpensAt(b, RunState(b, Butlast(reqs)), Final(reqs)) then 1 else 0
  }

  /** Scans still owed: two for a window opened after the last sweep, one for a survivor of it. */
  function Credit(es: OrderedWindows, lastSweep: real): nat {
    if es == [] then 0
    else Credit(es[..|es| - 1], lastSweep) + if es[|es| - 1].window.startedAt > lastSweep then 2 else 1
  }

  /** A sweep at `now` is paid for: survivors of the previous sweep all go, the others survive once. */
  lemma {:induction false} SweepIsPaidFor(es: OrderedWindows, lastSweep: real, now: real, cutoff: real)
    requires lastSweep <= cutoff
    requires forall e :: e in es ==> e.window.startedAt <= now
    ensures |es| + Credit(Survivors(es, cutoff), now) <= Credit(es, lastSweep)
  {
    if es != [] {
      var front := es[..|es| - 1];
      SweepIsPaidFor(front, lastSweep, now, cutoff);
      assert es[|es| - 1] in es;
      if es[|es| - 1].window.startedAt > cutoff {
        assert Survivors(es, cutoff)[..|Survivors(es, cutoff)| - 1] == Survivors(front, cutoff);
      }
    }
  }

  lemma {:induction false} PopCredit(es: OrderedWindows, n: nat, lastSweep: real)
    requires n <= |es|
    ensures Credit(es[n..], lastSweep) <= Credit(es, lastSweep)
  {
    if n < |es| {
      PopCredit(es[..|es| - 1], n, lastSweep);
      assert es[n..][..|es[n..]| - 1] == es[..|es| - 1][n..];
    }
  }

  lemma {:induction false} WithoutCredit(es: OrderedWindows, key: Key, lastSweep: real)
    ensures Credit(Without(es, key), lastSweep) <= Credit(es, lastSweep)
  {
    if es != [] {
      WithoutCredit(es[..|es| - 1], key, lastSweep);
      if es[|es| - 1].key != key {
        assert Without(es, key)[..|Without(es, key)| - 1] == Without(es[..|es| - 1], key);
      }
    }
  }

  lemma {:induction false} BumpCredit(es: OrderedWindows, key: Key, lastSweep: real)
    ensures Credit(Bump(es, key), lastSweep) == Credit(es, lastSweep)
  {
    if es != [] {
      BumpCredit(es[..|es| - 1], key, lastSweep);
      assert Bump(es, key)[..|es| - 1] == Bump(es[..|es| - 1], key);
    }
  }

  function StateCredit(b: Bounds, st: State): nat {
    Credit(st.entries, st.nextSweepAt - b.limits.windowSeconds)
  }

  lemma SweptIsPaidFor(b: Bounds, st: State, clock: real, now: real)
    requires MapOk(b, st, clock) && clock <= now
    ensures (if now >= st.nextSweepAt then |st.entries| else 0) + StateCredit(b, Swept(b, st, now)) <= StateCredit(b, st)
  {
    if now >= st.nextSweepAt {
      SweepIsPaidFor(st.entries, st.nextSweepAt - b.limits.windowSeconds, now, now - b.limits.windowSeconds);
      assert now + b.limits.windowSeconds - b.limits.windowSeconds == now;
    }
  }

  lemma {:induction false} ReopenCredit(es: OrderedWindows, key: Key, now: real, lastSweep: real)
    ensures Credit(Reopen(es, key, now), lastSweep) <= Credit(es, lastSweep) + 2
  {
    WithoutCredit(es, key, lastSweep);
    var reopened := Reopen(es, key, now);
    assert reopened[..|reopened| - 1] == Without(es, key);
  }

  lemma OpeningCredit(b: Bounds, st: State, r: Request)
    requires OpensAt(b, st, r)
    ensures StateCredit(b, CheckState(b, st, r.key, r.at)) <= StateCredit(b, Swept(b, st, r.at)) + 2
  {
    var swept, room := Swept(b, st, r.at), MakeRoomState(b, st, r.at);
    var lastSweep := swept.nextSweepAt - b.limits.windowSeconds;
    PopCredit(swept.entries, EvictedPrefix(swept.entries, b.maxTrackedKeys), lastSweep);
    ReopenCredit(room.entries, r.key, r.at, lastSweep);
  }

  lemma CheckIsPaidFor(b: Bounds, st: State, clock: real, r: Request)
    requires MapOk(b, st, clock) && clock <= r.at
    ensures Scanned(b, st, r) + StateCredit(b, CheckState(b, st, r.key, r.at))
            <= StateCredit(b, st) + (if OpensAt(b, st, r) then 2 else 0)
  {
    if OpensAt(b, st, r) {
      SweptIsPaidFor(b, st, clock, r.at);
      OpeningCredit(b, st, r);
    } else {
      CountingCredit(b, st, r);
    }
  }

  lemma CountingCredit(b: Bounds, st: State, r: Request)
    requires !OpensAt(b, st, r)
    ensures StateCredit(b, CheckState(b, st, r.key, r.at)) == StateCredit(b, st)
  {
    BumpCredit(st.entries, r.key, st.nextSweepAt - b.limits.windowSeconds);
  }

  /** All the sweeps of a run together scan at most two entries for every window it opens. */
  lemma {:induction false} SweepsAreAmortised(b: Bounds, reqs: seq<Request>)
    requires Trace(reqs)
    ensures TotalScanned(b, reqs) + StateCredit(b, RunState(b, reqs)) <= 2 * TotalOpened(b, reqs)
  {
    if reqs != [] {
      SweepsAreAmortised(b, Butlast(reqs));
      RunKeepsMap(b, Butlast(reqs));
      CheckIsPaidFor(b, RunState(b, Butlast(reqs)), Clock(Butlast(reqs)), Final(reqs));
    }
  }
}

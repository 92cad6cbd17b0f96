/**
 build_report: workspace-month economics from measured cost events, approved outputs and prices.

 Amounts are exact reals; a printed amount is the number of ten-thousandths it is rounded to.
 */
module CostReport {
  import opened Options

  const COST_BUCKETS: seq<string> :=
    ["llm", "tts", "image_video", "render", "storage", "retry_failure", "support", "other"]

  const FAILURE_OUTCOMES: set<string> := {"failed", "retry", "timed_out", "dead_letter"}

  // ----- Text -------------------------------------------------------------------------------

  predicate IsSpace(c: char) {
    c == ' ' || ('\t' <= c <= '\r') || (28 <= c as int <= 31)
  }

  function StripLeft(s: string): string {
    if s != "" && IsSpace(s[0]) then StripLeft(s[1..]) else s
  }

  function StripRight(s: string): string {
    if s != "" && IsSpace(s[|s| - 1]) then StripRight(s[..|s| - 1]) else s
  }

  function Strip(s: string): string {
    StripRight(StripLeft(s))
  }

  function Lower(s: string): string {
    seq(|s|, i requires 0 <= i < |s| => if 'A' <= s[i] <= 'Z' then (s[i] as int + 32) as char else s[i])
  }

  /** The first seven characters of a text that begins YYYY-MM. */
  function Month(value: string): Option<string> {
    if |value| < 7 || value[4] != '-' then None else Some(value[..7])
  }

  // ----- Inputs -----------------------------------------------------------------------------

  datatype Key = Key(workspace: string, month: string)

  /** A row of the cost file; `cost` is what the amount column parses to, if it does. */
  datatype CostEvent = CostEvent(
    eventId: string, occurredAt: string, workspaceId: string, bucket: string, cost: Option<real>, outcome: string)

  datatype Output = Output(status: string, workspaceId: string, decidedAt: string, itemId: string)

  datatype Price = Price(revenue: real, included: real, overage: real, throttle: real, hardCap: real)

  function MonthOr(value: string): string {
    var m := Month(Strip(value));
    if m.Some? then m.value else ""
  }

  function EventKey(e: CostEvent): Key {
    Key(Strip(e.workspaceId), MonthOr(e.occurredAt))
  }

  function OutputKey(o: Output): Key {
    Key(Strip(o.workspaceId), MonthOr(o.decidedAt))
  }

  function Amount(e: CostEvent): real {
    if e.cost.Some? then e.cost.value else 0.0
  }

  predicate Failed(e: CostEvent) {
    Lower(Strip(e.outcome)) in FAILURE_OUTCOMES
  }

  /** The event passes every check but the one for duplicates. */
  predicate WellFormed(e: CostEvent) {
    && Month(Strip(e.occurredAt)).Some?
    && Strip(e.eventId) != "" && Strip(e.workspaceId) != ""
    && Strip(e.bucket) in COST_BUCKETS
    && e.cost.Some? && e.cost.value >= 0.0
  }

  predicate Approved(o: Output) {
    Lower(Strip(o.status)) == "approved"
  }

  predicate WellFormedOutput(o: Output) {
    Month(Strip(o.decidedAt)).Some? && Strip(o.workspaceId) != "" && Strip(o.itemId) != ""
  }

  function OutputId(o: Output): (Key, string) {
    (OutputKey(o), Strip(o.itemId))
  }

  predicate SameOutput(a: Output, b: Output) {
    OutputId(a) == OutputId(b)
  }

  /** Some event is malformed, or two events share an id. */
  predicate BadEvents(events: seq<CostEvent>) {
    || (exists i :: 0 <= i < |events| && !WellFormed(events[i]))
    || (exists i, j :: 0 <= i < j < |events| && Strip(events[i].eventId) == Strip(events[j].eventId))
  }

  /** Some approved output is malformed, or two of them are the same. */
  predicate BadOutputs(outputs: seq<Output>) {
    || (exists i :: 0 <= i < |outputs| && Approved(outputs[i]) && !WellFormedOutput(outputs[i]))
    || (exists i, j :: 0 <= i < j < |outputs| && Approved(outputs[i]) && Approved(outputs[j]) && SameOutput(outputs[i], outputs[j]))
  }

  // ----- Sums over events -------------------------------------------------------------------

  /** Which events a figure is about. */
  datatype Scope = All | InKey(key: Key) | InBucket(key: Key, bucket: string) | FailedIn(key: Key)

  predicate Selects(scope: Scope, e: CostEvent) {
    match scope
    case All => true
    case InKey(key) => EventKey(e) == key
    case InBucket(key, bucket) => EventKey(e) == key && Strip(e.bucket) == bucket
    case FailedIn(key) => EventKey(e) == key && Failed(e)
  }

  function CostOf(scope: Scope, e: CostEvent): real {
    if Selects(scope, e) then Amount(e) else 0.0
  }

  function Sum(scope: Scope, events: seq<CostEvent>): real {
    if events == [] then 0.0 else Sum(scope, events[..|events| - 1]) + CostOf(scope, events[|events| - 1])
  }

  function Count(scope: Scope, events: seq<CostEvent>): nat {
    if events == [] then 0
    else Count(scope, events[..|events| - 1]) + if Selects(scope, events[|events| - 1]) then 1 else 0
  }

  /** The distinct items approved for a workspace-month. */
  function AcceptedItems(outputs: seq<Output>, key: Key): set<string> {
    set i | 0 <= i < |outputs| && Approved(outputs[i]) && OutputKey(outputs[i]) == key :: Strip(outputs[i].itemId)
  }

  function EventKeys(events: seq<CostEvent>): set<Key> {
    set i | 0 <= i < |events| :: EventKey(events[i])
  }

  function OutputKeys(outputs: seq<Output>): set<Key> {
    set i | 0 <= i < |outputs| && Approved(outputs[i]) :: OutputKey(outputs[i])
  }

  // ----- Totals -----------------------------------------------------------------------------

  /** The running totals of one workspace-month. */
  datatype Totals = Totals(buckets: map<string, real>, cost: real, events: nat, failed: nat, accepted: set<string>)

  const NO_TOTALS: Totals := Totals(map[], 0.0, 0, 0, {})

  function TotalsAt(totals: map<Key, Totals>, key: Key): Totals {
    if key in totals then totals[key] else NO_TOTALS
  }

  function BucketAt(t: Totals, bucket: string): real {
    if bucket in t.buckets then t.buckets[bucket] else 0.0
  }

  /** The totals are the sums over the events and the items of the outputs. */
  ghost predicate TotalsOf(totals: map<Key, Totals>, events: seq<CostEvent>, outputs: seq<Output>) {
    && totals.Keys == EventKeys(events) + OutputKeys(outputs)
    && forall key :: FiguresOf(TotalsAt(totals, key), key, events, outputs)
  }

  ghost predicate FiguresOf(t: Totals, key: Key, events: seq<CostEvent>, outputs: seq<Output>) {
    && t.cost == Sum(InKey(key), events)
    && (forall bucket :: BucketAt(t, bucket) == Sum(InBucket(key, bucket), events))
    && t.events == Count(InKey(key), events)
    && t.failed == Count(FailedIn(key), events)
    && t.accepted == AcceptedItems(outputs, key)
  }

  function AddEvent(t: Totals, e: CostEvent): Totals {
    var bucket := Strip(e.bucket);
    Totals(t.buckets[bucket := BucketAt(t, bucket) + Amount(e)], t.cost + Amount(e), t.events + 1,
           if Failed(e) then t.failed + 1 else t.failed, t.accepted)
  }

  lemma AddEventKeepsTotals(totals: map<Key, Totals>, events: seq<CostEvent>, e: CostEvent)
    requires TotalsOf(totals, events, [])
    ensures TotalsOf(totals[EventKey(e) := AddEvent(TotalsAt(totals, EventKey(e)), e)], events + [e], [])
  {
    var more, next := events + [e], totals[EventKey(e) := AddEvent(TotalsAt(totals, EventKey(e)), e)];
    assert more[..|more| - 1] == events;
    forall key ensures FiguresOf(TotalsAt(next, key), key, more, []) {
      assert FiguresOf(TotalsAt(totals, key), key, events, []);
      AddEventFigures(TotalsAt(totals, key), key, events, e);
    }
    KeysGrow(events, e);
  }

  lemma KeysGrow(events: seq<CostEvent>, e: CostEvent)
    ensures EventKeys(events + [e]) == EventKeys(events) + {EventKey(e)}
  {
    var more := events + [e];
    assert more[|events|] == e;
    forall key | key in EventKeys(events) ensures key in EventKeys(more) {
      var i :| 0 <= i < |events| && EventKey(events[i]) == key;
      assert more[i] == events[i];
    }
  }

  lemma AddEventFigures(t: Totals, key: Key, events: seq<CostEvent>, e: CostEvent)
    requires FiguresOf(t, key, events, [])
    ensures EventKey(e) == key ==> FiguresOf(AddEvent(t, e), key, events + [e], [])
    ensures EventKey(e) != key ==> FiguresOf(t, key, events + [e], [])
  {
    SumSnoc(InKey(key), events, e);
    SumSnoc(FailedIn(key), events, e);
    forall bucket
      ensures Sum(InBucket(key, bucket), events + [e])
              == BucketAt(t, bucket) + if EventKey(e) == key && Strip(e.bucket) == bucket then Amount(e) else 0.0
    {
      SumSnoc(InBucket(key, bucket), events, e);
    }
  }

  lemma AddItemKeepsTotals(totals: map<Key, Totals>, events: seq<CostEvent>, outputs: seq<Output>, o: Output)
    requires TotalsOf(totals, events, outputs) && Approved(o)
    ensures
      var t := TotalsAt(totals, OutputKey(o));
      TotalsOf(totals[OutputKey(o) := t.(accepted := t.accepted + {Strip(o.itemId)})], events, outputs + [o])
  {
    var t, more := TotalsAt(totals, OutputKey(o)), outputs + [o];
    var next := totals[OutputKey(o) := t.(accepted := t.accepted + {Strip(o.itemId)})];
    forall key ensures FiguresOf(TotalsAt(next, key), key, events, more) {
      assert FiguresOf(TotalsAt(totals, key), key, events, outputs);
      ItemsGrow(outputs, o, key);
    }
    OutputKeysGrow(outputs, o);
  }

  lemma SkipKeepsTotals(totals: map<Key, Totals>, events: seq<CostEvent>, outputs: seq<Output>, o: Output)
    requires TotalsOf(totals, events, outputs) && !Approved(o)
    ensures TotalsOf(totals, events, outputs + [o])
  {
    forall key ensures FiguresOf(TotalsAt(totals, key), key, events, outputs + [o]) {
      assert FiguresOf(TotalsAt(totals, key), key, events, outputs);
      ItemsGrow(outputs, o, key);
    }
    OutputKeysGrow(outputs, o);
  }

  lemma ItemsGrow(outputs: seq<Output>, o: Output, key: Key)
    ensures AcceptedItems(outputs + [o], key)
            == AcceptedItems(outputs, key) + if Approved(o) && OutputKey(o) == key then {Strip(o.itemId)} else {}
  {
    var more := outputs + [o];
    assert more[|outputs|] == o;
    forall item | item in AcceptedItems(outputs, key) ensures item in AcceptedItems(more, key) {
      var i :| 0 <= i < |outputs| && Approved(outputs[i]) && OutputKey(outputs[i]) == key && Strip(outputs[i].itemId) == item;
      assert more[i] == outputs[i];
    }
  }

  lemma OutputKeysGrow(outputs: seq<Output>, o: Output)
    ensures OutputKeys(outputs + [o]) == OutputKeys(outputs) + if Approved(o) then {OutputKey(o)} else {}
  {
    var more := outputs + [o];
    assert more[|outputs|] == o;
    forall key | key in OutputKeys(outputs) ensures key in OutputKeys(more) {
      var i :| 0 <= i < |outputs| && Approved(outputs[i]) && OutputKey(outputs[i]) == key;
      assert more[i] == outputs[i];
    }
  }

  // ----- The order of the rows --------------------------------------------------------------

  /** Strings in dictionary order. */
  predicate TextLess(a: string, b: string) {
    b != "" && (a == "" || a[0] < b[0] || (a[0] == b[0] && TextLess(a[1..], b[1..])))
  }

  lemma {:induction false} TextOrder(a: string, b: string)
    ensures a == b || TextLess(a, b) || TextLess(b, a)
    ensures !(TextLess(a, b) && (a == b || TextLess(b, a)))
  {
    if a != "" && b != "" {
      TextOrder(a[1..], b[1..]);
      assert a == [a[0]] + a[1..] && b == [b[0]] + b[1..];
    }
  }

  lemma {:induction false} TextTransitive(a: string, b: string, c: string)
    requires TextLess(a, b) && TextLess(b, c)
    ensures TextLess(a, c)
  {
    if a != "" && a[0] == b[0] == c[0] {
      TextTransitive(a[1..], b[1..], c[1..]);
    }
  }

  predicate KeyLess(a: Key, b: Key) {
    TextLess(a.workspace, b.workspace) || (a.workspace == b.workspace && TextLess(a.month, b.month))
  }

  lemma KeyOrder(a: Key, b: Key)
    ensures a == b || KeyLess(a, b) || KeyLess(b, a)
    ensures !(KeyLess(a, b) && (a == b || KeyLess(b, a)))
  {
    TextOrder(a.workspace, b.workspace);
    TextOrder(a.month, b.month);
  }

  lemma KeyTransitive(a: Key, b: Key, c: Key)
    requires KeyLess(a, b) && KeyLess(b, c)
    ensures KeyLess(a, c)
  {
    if TextLess(a.workspace, b.workspace) && TextLess(b.workspace, c.workspace) {
      TextTransitive(a.workspace, b.workspace, c.workspace);
    } else if a.workspace == b.workspace == c.workspace {
      TextTransitive(a.month, b.month, c.month);
    }
  }

  predicate Sorted(keys: seq<Key>) {
    forall i, j :: 0 <= i < j < |keys| ==> KeyLess(keys[i], keys[j])
  }

  function Elements(keys: seq<Key>): set<Key> {
    set k | k in keys
  }

  predicate IsLeast(least: Key, keys: set<Key>) {
    least in keys && forall k :: k in keys && k != least ==> KeyLess(least, k)
  }

  lemma {:induction false} LeastExists(keys: set<Key>) returns (least: Key)
    requires keys != {}
    ensures IsLeast(least, keys)
    decreases |keys|
  {
    var first :| first in keys;
    var rest := keys - {first};
    assert forall k :: k in keys && k != first ==> k in rest;
    if rest == {} {
      return first;
    }
    var other := LeastExists(rest);
    KeyOrder(first, other);
    if KeyLess(other, first) {
      return other;
    }
    forall k | k in keys && k != first ensures KeyLess(first, k) {
      if k != other {
        KeyTransitive(first, other, k);
      }
    }
    return first;
  }

  predicate AllBefore(sorted: seq<Key>, rest: set<Key>) {
    forall i, k :: 0 <= i < |sorted| && k in rest ==> KeyLess(sorted[i], k)
  }

  lemma AppendLeast(sorted: seq<Key>, rest: set<Key>, least: Key)
    requires Sorted(sorted) && AllBefore(sorted, rest) && IsLeast(least, rest)
    ensures Sorted(sorted + [least]) && AllBefore(sorted + [least], rest - {least})
    ensures Elements(sorted + [least]) + (rest - {least}) == Elements(sorted) + rest
  {
  }

  /** Python's `sorted` on a set of keys. */
  method SortKeys(keys: set<Key>) returns (sorted: seq<Key>)
    ensures Sorted(sorted) && Elements(sorted) == keys
  {
    sorted := [];
    var rest := keys;
    while rest != {}
      invariant Sorted(sorted) && AllBefore(sorted, rest) && Elements(sorted) + rest == keys
      decreases |rest|
    {
      ghost var exists' := LeastExists(rest);
      var least :| least in rest && IsLeast(least, rest);
      AppendLeast(sorted, rest, least);
      sorted := sorted + [least];
      rest := rest - {least};
    }
  }

  /** A set of keys has only one sorted sequence. */
  lemma {:induction false} SortedIsUnique(a: seq<Key>, b: seq<Key>)
    requires Sorted(a) && Sorted(b) && Elements(a) == Elements(b)
    ensures a == b
  {
    assert b != [] ==> b[0] in Elements(b);
    if a != [] {
      assert a[0] in Elements(b);
      assert b != [];
      SameFirst(a, b);
      RestElements(a);
      RestElements(b);
      SortedIsUnique(a[1..], b[1..]);
      assert a == [a[0]] + a[1..] && b == [b[0]] + b[1..];
    }
  }

  lemma SameFirst(a: seq<Key>, b: seq<Key>)
    requires a != [] && b != [] && Sorted(a) && Sorted(b) && Elements(a) == Elements(b)
    ensures a[0] == b[0]
  {
    assert a[0] in Elements(b) && b[0] in Elements(a);
    var i :| 0 <= i < |a| && a[i] == b[0];
    var j :| 0 <= j < |b| && b[j] == a[0];
    KeyOrder(a[0], b[0]);
  }

  lemma RestElements(a: seq<Key>)
    requires a != [] && Sorted(a)
    ensures Elements(a[1..]) == Elements(a) - {a[0]}
  {
    forall k | k in a[1..] ensures k != a[0] {
      var i :| 0 <= i < |a[1..]| && a[1..][i] == k;
      KeyOrder(a[0], a[i + 1]);
    }
    assert a == [a[0]] + a[1..];
  }

  // ----- Rows -------------------------------------------------------------------------------

  /** Round to an integer, halves to the even one. */
  function RoundHalfEven(x: real): int {
    var below := x.Floor;
    var rest := x - below as real;
    if rest < 0.5 then below else if rest > 0.5 then below + 1 else if below % 2 == 0 then below else below + 1
  }

  /** The ten-thousandths an amount is printed as. */
  function Printed(value: real): int {
    RoundHalfEven(value * 10000.0)
  }

  datatype Row = Row(
    key: Key,
    acceptedOutputs: nat,
    costPerAccepted: Option<int>,
    cost: int,
    revenue: Option<int>,
    grossMargin: Option<int>,
    included: Option<int>,
    overageOutputs: Option<int>,
    overage: Option<int>,
    throttle: Option<bool>,
    hardCap: Option<int>,
    costEvents: nat,
    failedEvents: nat,
    buckets: seq<int>)

  function RowOf(key: Key, t: Totals, pricing: map<Key, Price>, buckets: seq<string>): Row {
    var price := if key in pricing then Some(pricing[key]) else None;
    var accepted := |t.accepted|;
    Row(
      key,
      accepted,
      if accepted != 0 then Some(Printed(t.cost / accepted as real)) else None,
      Printed(t.cost),
      if price.Some? then Some(Printed(price.value.revenue)) else None,
      if price.Some? && price.value.revenue > 0.0
      then Some(Printed((price.value.revenue - t.cost) / price.value.revenue)) else None,
      if price.Some? then Some(Printed(price.value.included)) else None,
      if price.Some?
      then Some(Printed(if accepted as real - price.value.included > 0.0 then accepted as real - price.value.included else 0.0))
      else None,
      if price.Some? then Some(Printed(price.value.overage)) else None,
      if price.Some? then Some(t.cost >= price.value.throttle) else None,
      if price.Some? then Some(Printed(price.value.hardCap)) else None,
      t.events,
      t.failed,
      PrintedBuckets(t, buckets))
  }

  function PrintedBuckets(t: Totals, buckets: seq<string>): seq<int> {
    if buckets == [] then [] else [Printed(BucketAt(t, buckets[0]))] + PrintedBuckets(t, buckets[1..])
  }

  datatype Problem =
    | BadMonth | MissingField | DuplicateEvent | UnsupportedBucket | BadAmount | DuplicateOutput

  /** The totals of a workspace-month, from the inputs alone. */
  function Figures(key: Key, events: seq<CostEvent>, outputs: seq<Output>, buckets: seq<string>): Totals {
    Totals(map bucket | bucket in buckets :: Sum(InBucket(key, bucket), events),
           Sum(InKey(key), events), Count(InKey(key), events), Count(FailedIn(key), events), AcceptedItems(outputs, key))
  }

  lemma {:induction false} SameBuckets(t: Totals, u: Totals, buckets: seq<string>)
    requires forall bucket :: bucket in buckets ==> BucketAt(t, bucket) == BucketAt(u, bucket)
    ensures PrintedBuckets(t, buckets) == PrintedBuckets(u, buckets)
  {
    if buckets != [] {
      SameBuckets(t, u, buckets[1..]);
    }
  }

  lemma FiguresDetermineRow(t: Totals, key: Key, events: seq<CostEvent>, outputs: seq<Output>, pricing: map<Key, Price>,
                            buckets: seq<string>)
    requires FiguresOf(t, key, events, outputs)
    ensures RowOf(key, t, pricing, buckets) == RowOf(key, Figures(key, events, outputs, buckets), pricing, buckets)
  {
    SameBuckets(t, Figures(key, events, outputs, buckets), buckets);
  }

  /** What the report of the inputs is: an error, or one row for each key, in order. */
  ghost predicate ReportWith(events: seq<CostEvent>, outputs: seq<Output>, pricing: map<Key, Price>, buckets: seq<string>,
                           r: Result<seq<Row>, Problem>)
  {
    && (r.Err? <==> BadEvents(events) || BadOutputs(outputs))
    && (r.Err? ==> if BadEvents(events) then FirstEventProblem(events, r.error) else FirstOutputProblem(outputs, r.error))
    && (r.Ok? ==>
          && Sorted(RowKeys(r.value))
          && Elements(RowKeys(r.value)) == EventKeys(events) + OutputKeys(outputs) + pricing.Keys
          && forall i :: 0 <= i < |r.value| ==>
               r.value[i] == RowOf(r.value[i].key, Figures(r.value[i].key, events, outputs, buckets), pricing, buckets))
  }

  /** The report with the columns of the eight buckets. */
  ghost predicate ReportOf(events: seq<CostEvent>, outputs: seq<Output>, pricing: map<Key, Price>, r: Result<seq<Row>, Problem>) {
    ReportWith(events, outputs, pricing, COST_BUCKETS, r)
  }

  function RowKeys(rows: seq<Row>): (keys: seq<Key>)
    ensures |keys| == |rows| && forall i :: 0 <= i < |rows| ==> keys[i] == rows[i].key
  {
    seq(|rows|, i requires 0 <= i < |rows| => rows[i].key)
  }

  // ----- The accumulator --------------------------------------------------------------------

  /** The first check an event fails, in the order of the source. */
  function EventProblem(e: CostEvent, seen: set<string>): (p: Option<Problem>)
    ensures p.None? <==> WellFormed(e) && Strip(e.eventId) !in seen
  {
    var month := Month(Strip(e.occurredAt));
    if month.None? then Some(BadMonth)
    else if Strip(e.eventId) == "" || Strip(e.workspaceId) == "" || month.value == "" then
      assert |month.value| == 7;
      Some(MissingField)
    else if Strip(e.eventId) in seen then Some(DuplicateEvent)
    else if Strip(e.bucket) !in COST_BUCKETS then Some(UnsupportedBucket)
    else if e.cost.None? || e.cost.value < 0.0 then Some(BadAmount)
    else None
  }

  /** The first check an approved output fails, in the order of the source. */
  function OutputProblem(o: Output, seen: set<(Key, string)>): (p: Option<Problem>)
    ensures p.None? <==> WellFormedOutput(o) && OutputId(o) !in seen
  {
    var month := Month(Strip(o.decidedAt));
    if month.None? then Some(BadMonth)
    else if Strip(o.workspaceId) == "" || month.value == "" || Strip(o.itemId) == "" then
      assert |month.value| == 7;
      Some(MissingField)
    else if OutputId(o) in seen then Some(DuplicateOutput)
    else None
  }

  function EventIds(events: seq<CostEvent>): set<string> {
    set i | 0 <= i < |events| :: Strip(events[i].eventId)
  }

  function OutputIds(outputs: seq<Output>): set<(Key, string)> {
    set i | 0 <= i < |outputs| && Approved(outputs[i]) :: OutputId(outputs[i])
  }

  lemma BadEventsSnoc(events: seq<CostEvent>, e: CostEvent)
    requires !BadEvents(events)
    ensures BadEvents(events + [e]) <==> !WellFormed(e) || Strip(e.eventId) in EventIds(events)
    ensures EventIds(events + [e]) == EventIds(events) + {Strip(e.eventId)}
  {
    var more := events + [e];
    assert more[|events|] == e && forall i :: 0 <= i < |events| ==> more[i] == events[i];
    if Strip(e.eventId) in EventIds(events) {
      var i :| 0 <= i < |events| && Strip(events[i].eventId) == Strip(e.eventId);
      assert Strip(more[i].eventId) == Strip(more[|events|].eventId);
    }
  }

  lemma OutputIdsGrow(outputs: seq<Output>, o: Output)
    ensures OutputIds(outputs + [o]) == OutputIds(outputs) + if Approved(o) then {OutputId(o)} else {}
  {
    var more := outputs + [o];
    assert more[|outputs|] == o;
    forall id | id in OutputIds(outputs) ensures id in OutputIds(more) {
      var i :| 0 <= i < |outputs| && Approved(outputs[i]) && OutputId(outputs[i]) == id;
      assert more[i] == outputs[i];
    }
  }

  lemma BadOutputsSnoc(outputs: seq<Output>, o: Output)
    requires !BadOutputs(outputs)
    ensures BadOutputs(outputs + [o]) <==> Approved(o) && (!WellFormedOutput(o) || OutputId(o) in OutputIds(outputs))
  {
    if Approved(o) && (!WellFormedOutput(o) || OutputId(o) in OutputIds(outputs)) {
      AddsBadOutput(outputs, o);
    } else {
      AddsNoBadOutput(outputs, o);
    }
  }

  lemma AddsBadOutput(outputs: seq<Output>, o: Output)
    requires Approved(o) && (!WellFormedOutput(o) || OutputId(o) in OutputIds(outputs))
    ensures BadOutputs(outputs + [o])
  {
    var more := outputs + [o];
    assert more[|outputs|] == o;
    if OutputId(o) in OutputIds(outputs) {
      var i :| 0 <= i < |outputs| && Approved(outputs[i]) && OutputId(outputs[i]) == OutputId(o);
      assert more[i] == outputs[i] && SameOutput(more[i], more[|outputs|]);
    }
  }

  lemma AddsNoBadOutput(outputs: seq<Output>, o: Output)
    requires !BadOutputs(outputs)
    requires Approved(o) ==> WellFormedOutput(o) && OutputId(o) !in OutputIds(outputs)
    ensures !BadOutputs(outputs + [o])
  {
    var more := outputs + [o];
    forall i, j | 0 <= i < j < |more| && Approved(more[i]) && Approved(more[j]) ensures !SameOutput(more[i], more[j]) {
      assert more[i] == outputs[i];
      assert j == |outputs| ==> OutputId(outputs[i]) in OutputIds(outputs);
    }
  }

  /** The problem is the one of the first event in the file that has one. */
  ghost predicate FirstEventProblem(events: seq<CostEvent>, p: Problem) {
    exists n :: 0 <= n < |events| && !BadEvents(events[..n]) && EventProblem(events[n], EventIds(events[..n])) == Some(p)
  }

  ghost predicate FirstOutputProblem(outputs: seq<Output>, p: Problem) {
    exists n :: 0 <= n < |outputs| && !BadOutputs(outputs[..n]) && Approved(outputs[n])
                && OutputProblem(outputs[n], OutputIds(outputs[..n])) == Some(p)
  }

  /** Something wrong in a prefix is wrong in the whole. */
  lemma BadPrefix(events: seq<CostEvent>, outputs: seq<Output>, n: nat, m: nat)
    requires n <= |events| && m <= |outputs|
    ensures BadEvents(events[..n]) ==> BadEvents(events)
    ensures BadOutputs(outputs[..m]) ==> BadOutputs(outputs)
  {
    var e, o := events[..n], outputs[..m];
    assert forall i :: 0 <= i < n ==> e[i] == events[i];
    assert forall i :: 0 <= i < m ==> o[i] == outputs[i];
  }

  /** The first pass: totals of the events, or the first problem. */
  method TotalEvents(events: seq<CostEvent>) returns (r: Result<map<Key, Totals>, Problem>)
    ensures r.Err? <==> BadEvents(events)
    ensures r.Err? ==> FirstEventProblem(events, r.error)
    ensures r.Ok? ==> TotalsOf(r.value, events, [])
  {
    var totals: map<Key, Totals> := map[];
    var seen: set<string> := {};
    for n := 0 to |events|
      invariant seen == EventIds(events[..n]) && !BadEvents(events[..n])
      invariant TotalsOf(totals, events[..n], [])
    {
      var e := events[n];
      assert events[..n + 1] == events[..n] + [e];
      BadEventsSnoc(events[..n], e);
      var problem := EventProblem(e, seen);
      if problem.Some? {
        BadPrefix(events, [], n + 1, 0);
        return Err(problem.value);
      }
      seen := seen + {Strip(e.eventId)};
      AddEventKeepsTotals(totals, events[..n], e);
      totals := totals[EventKey(e) := AddEvent(TotalsAt(totals, EventKey(e)), e)];
    }
    assert events[..|events|] == events;
    return Ok(totals);
  }

  /** The second pass: the approved items, or the first problem. */
  method AddOutputs(events: seq<CostEvent>, totals0: map<Key, Totals>, outputs: seq<Output>)
    returns (r: Result<map<Key, Totals>, Problem>)
    requires TotalsOf(totals0, events, [])
    ensures r.Err? <==> BadOutputs(outputs)
    ensures r.Err? ==> FirstOutputProblem(outputs, r.error)
    ensures r.Ok? ==> TotalsOf(r.value, events, outputs)
  {
    var totals := totals0;
    var seen: set<(Key, string)> := {};
    for n := 0 to |outputs|
      invariant seen == OutputIds(outputs[..n]) && !BadOutputs(outputs[..n])
      invariant TotalsOf(totals, events, outputs[..n])
    {
      var o := outputs[n];
      assert outputs[..n + 1] == outputs[..n] + [o];
      BadOutputsSnoc(outputs[..n], o);
      OutputIdsGrow(outputs[..n], o);
      if !Approved(o) {
        SkipKeepsTotals(totals, events, outputs[..n], o);
        continue;
      }
      var problem := OutputProblem(o, seen);
      if problem.Some? {
        BadPrefix([], outputs, 0, n + 1);
        return Err(problem.value);
      }
      seen := seen + {OutputId(o)};
      AddItemKeepsTotals(totals, events, outputs[..n], o);
      var t := TotalsAt(totals, OutputKey(o));
      totals := totals[OutputKey(o) := t.(accepted := t.accepted + {Strip(o.itemId)})];
    }
    assert outputs[..|outputs|] == outputs;
    return Ok(totals);
  }

  /** The rows of the keys, in their order. */
  method BuildRows(totals: map<Key, Totals>, keys: seq<Key>, pricing: map<Key, Price>, buckets: seq<string>)
    returns (report: seq<Row>)
    ensures |report| == |keys|
    ensures forall i :: 0 <= i < |keys| ==> report[i] == RowOf(keys[i], TotalsAt(totals, keys[i]), pricing, buckets)
  {
    report := [];
    for n := 0 to |keys|
      invariant |report| == n
      invariant forall i :: 0 <= i < n ==> report[i] == RowOf(keys[i], TotalsAt(totals, keys[i]), pricing, buckets)
    {
      report := report + [RowOf(keys[n], TotalsAt(totals, keys[n]), pricing, buckets)];
    }
  }

  method BuildReport(events: seq<CostEvent>, outputs: seq<Output>, pricing: map<Key, Price>)
    returns (r: Result<seq<Row>, Problem>)
    ensures ReportOf(events, outputs, pricing, r)
  {
    r := BuildReportWith(events, outputs, pricing, COST_BUCKETS);
  }

  method BuildReportWith(events: seq<CostEvent>, outputs: seq<Output>, pricing: map<Key, Price>, buckets: seq<string>)
    returns (r: Result<seq<Row>, Problem>)
    ensures ReportWith(events, outputs, pricing, buckets, r)
  {
    var first := TotalEvents(events);
    if first.Err? {
      return Err(first.error);
    }
    var second := AddOutputs(events, first.value, outputs);
    if second.Err? {
      return Err(second.error);
    }
    var totals := second.value;
    var keys := SortKeys(totals.Keys + pricing.Keys);
    var report := BuildRows(totals, keys, pricing, buckets);
    RowsAreReport(events, outputs, pricing, buckets, totals, keys, report);
    return Ok(report);
  }

  lemma RowsAreReport(events: seq<CostEvent>, outputs: seq<Output>, pricing: map<Key, Price>, buckets: seq<string>,
                      totals: map<Key, Totals>, keys: seq<Key>, report: seq<Row>)
    requires TotalsOf(totals, events, outputs) && |report| == |keys|
    requires forall i :: 0 <= i < |keys| ==> report[i] == RowOf(keys[i], TotalsAt(totals, keys[i]), pricing, buckets)
    ensures RowKeys(report) == keys
    ensures forall i :: 0 <= i < |report| ==>
              report[i] == RowOf(report[i].key, Figures(report[i].key, events, outputs, buckets), pricing, buckets)
  {
    forall i | 0 <= i < |report|
      ensures report[i] == RowOf(report[i].key, Figures(report[i].key, events, outputs, buckets), pricing, buckets)
    {
      assert FiguresOf(TotalsAt(totals, keys[i]), keys[i], events, outputs);
      FiguresDetermineRow(TotalsAt(totals, keys[i]), keys[i], events, outputs, pricing, buckets);
    }
  }

  // ----- Conservation -----------------------------------------------------------------------

  function BucketTotal(key: Key, buckets: seq<string>, events: seq<CostEvent>): real {
    if buckets == [] then 0.0
    else Sum(InBucket(key, buckets[0]), events) + BucketTotal(key, buckets[1..], events)
  }

  predicate NoRepeats(buckets: seq<string>) {
    forall i, j :: 0 <= i < j < |buckets| ==> buckets[i] != buckets[j]
  }

  lemma {:induction false} BucketTotalSnoc(key: Key, buckets: seq<string>, events: seq<CostEvent>, e: CostEvent)
    requires NoRepeats(buckets)
    ensures BucketTotal(key, buckets, events + [e]) ==
            BucketTotal(key, buckets, events) + if Strip(e.bucket) in buckets then CostOf(InKey(key), e) else 0.0
  {
    assert (events + [e])[..|events|] == events;
    if buckets != [] {
      BucketTotalSnoc(key, buckets[1..], events, e);
      assert Strip(e.bucket) in buckets <==> Strip(e.bucket) == buckets[0] || Strip(e.bucket) in buckets[1..];
    }
  }

  lemma {:induction false} BucketTotalEmpty(key: Key, buckets: seq<string>)
    ensures BucketTotal(key, buckets, []) == 0.0
  {
    if buckets != [] {
      BucketTotalEmpty(key, buckets[1..]);
    }
  }

  lemma BucketNamesDiffer(buckets: seq<string>)
    requires buckets == COST_BUCKETS
    ensures NoRepeats(buckets)
  {
  }

  /** In every workspace-month the buckets add up to the total, when every event names one of them. */
  lemma {:induction false} BucketsAddUp(key: Key, buckets: seq<string>, events: seq<CostEvent>)
    requires NoRepeats(buckets)
    requires forall i :: 0 <= i < |events| ==> Strip(events[i].bucket) in buckets
    ensures BucketTotal(key, buckets, events) == Sum(InKey(key), events)
  {
    if events == [] {
      BucketTotalEmpty(key, buckets);
    } else {
      var before, e := events[..|events| - 1], events[|events| - 1];
      BucketsAddUp(key, buckets, before);
      BucketTotalSnoc(key, buckets, before, e);
      assert before + [e] == events;
    }
  }

  function KeyTotal(keys: seq<Key>, events: seq<CostEvent>): real {
    if keys == [] then 0.0 else Sum(InKey(keys[0]), events) + KeyTotal(keys[1..], events)
  }

  function KeyCount(keys: seq<Key>, events: seq<CostEvent>): nat {
    if keys == [] then 0 else Count(InKey(keys[0]), events) + KeyCount(keys[1..], events)
  }

  lemma {:induction false} KeyTotalSnoc(keys: seq<Key>, events: seq<CostEvent>, e: CostEvent)
    requires Sorted(keys)
    ensures KeyTotal(keys, events + [e]) == KeyTotal(keys, events) + if EventKey(e) in keys then Amount(e) else 0.0
    ensures KeyCount(keys, events + [e]) == KeyCount(keys, events) + if EventKey(e) in keys then 1 else 0
  {
    assert (events + [e])[..|events|] == events;
    if keys != [] {
      KeyTotalSnoc(keys[1..], events, e);
      RestElements(keys);
      assert EventKey(e) in keys[1..] <==> EventKey(e) in Elements(keys[1..]);
      assert EventKey(e) in keys <==> EventKey(e) in Elements(keys);
    }
  }

  lemma {:induction false} KeyTotalEmpty(keys: seq<Key>)
    ensures KeyTotal(keys, []) == 0.0 && KeyCount(keys, []) == 0
  {
    if keys != [] {
      KeyTotalEmpty(keys[1..]);
    }
  }

  /** The rows add up to all events, each counted once. */
  lemma {:induction false} RowsAddUp(keys: seq<Key>, events: seq<CostEvent>)
    requires Sorted(keys) && EventKeys(events) <= Elements(keys)
    ensures KeyTotal(keys, events) == Sum(All, events)
    ensures KeyCount(keys, events) == |events|
  {
    if events == [] {
      KeyTotalEmpty(keys);
    } else {
      var before, e := events[..|events| - 1], events[|events| - 1];
      assert before + [e] == events;
      KeysGrow(before, e);
      RowsAddUp(keys, before);
      KeyTotalSnoc(keys, before, e);
      assert EventKey(e) in Elements(keys);
    }
  }

  /** The row's figures are those of the events of its key, and its buckets add up to its total. */
  predicate RowConserves(row: Row, events: seq<CostEvent>, buckets: seq<string>) {
    && BucketTotal(row.key, buckets, events) == Sum(InKey(row.key), events)
    && row.cost == Printed(Sum(InKey(row.key), events))
    && row.costEvents == Count(InKey(row.key), events)
  }

  /** The rows account for every event exactly once. */
  predicate Conserves(rows: seq<Row>, events: seq<CostEvent>, buckets: seq<string>) {
    && KeyTotal(RowKeys(rows), events) == Sum(All, events)
    && KeyCount(RowKeys(rows), events) == |events|
    && forall i :: 0 <= i < |rows| ==> RowConserves(rows[i], events, buckets)
  }

  /** Every report conserves the events, in its rows and in the buckets of each row. */
  lemma ReportConserves(events: seq<CostEvent>, outputs: seq<Output>, pricing: map<Key, Price>, r: Result<seq<Row>, Problem>)
    ensures ReportOf(events, outputs, pricing, r) && r.Ok? ==> Conserves(r.value, events, COST_BUCKETS)
  {
    ReportWithConserves(events, outputs, pricing, r, COST_BUCKETS);
  }

  lemma ReportWithConserves(events: seq<CostEvent>, outputs: seq<Output>, pricing: map<Key, Price>,
                            r: Result<seq<Row>, Problem>, buckets: seq<string>)
    requires buckets == COST_BUCKETS
    ensures ReportWith(events, outputs, pricing, buckets, r) && r.Ok? ==> Conserves(r.value, events, buckets)
  {
    if ReportWith(events, outputs, pricing, buckets, r) && r.Ok? {
      RowsAddUp(RowKeys(r.value), events);
      BucketNamesDiffer(buckets);
      forall k | 0 <= k < |events| ensures Strip(events[k].bucket) in buckets {
        assert WellFormed(events[k]);
      }
      forall i | 0 <= i < |r.value| ensures RowConserves(r.value[i], events, buckets) {
        BucketsAddUp(r.value[i].key, buckets, events);
      }
    }
  }

  // ----- Order independence -----------------------------------------------------------------

  function RemoveAt<T>(s: seq<T>, i: nat): seq<T>
    requires i < |s|
  {
    s[..i] + s[i + 1..]
  }

  lemma {:induction false} SumRemoveAt(scope: Scope, events: seq<CostEvent>, i: nat)
    requires i < |events|
    ensures Sum(scope, events) == Sum(scope, RemoveAt(events, i)) + CostOf(scope, events[i])
    ensures Count(scope, events) == Count(scope, RemoveAt(events, i)) + if Selects(scope, events[i]) then 1 else 0
  {
    var n := |events| - 1;
    var last, removed := events[n], RemoveAt(events, i);
    if i < n {
      SumRemoveAt(scope, events[..n], i);
      SumSnoc(scope, RemoveAt(events[..n], i), last);
      RemoveAtSnoc(events, i);
    } else {
      assert removed == events[..n];
    }
  }

  lemma SumSnoc(scope: Scope, events: seq<CostEvent>, e: CostEvent)
    ensures Sum(scope, events + [e]) == Sum(scope, events) + CostOf(scope, e)
    ensures Count(scope, events + [e]) == Count(scope, events) + if Selects(scope, e) then 1 else 0
  {
    assert (events + [e])[..|events|] == events;
  }

  lemma RemoveAtSnoc<T>(s: seq<T>, i: nat)
    requires i < |s| - 1
    ensures RemoveAt(s, i) == RemoveAt(s[..|s| - 1], i) + [s[|s| - 1]]
  {
  }

  lemma RemoveAtMultiset<T>(s: seq<T>, i: nat)
    requires i < |s|
    ensures multiset(RemoveAt(s, i)) == multiset(s) - multiset{s[i]}
  {
    assert s == s[..i] + ([s[i]] + s[i + 1..]);
  }

  /** The last element of a sequence has its place in every permutation, and the rest is a permutation too. */
  lemma LastElsewhere<T>(a: seq<T>, b: seq<T>) returns (i: nat)
    requires multiset(a) == multiset(b) && a != []
    ensures i < |b| && b[i] == a[|a| - 1]
    ensures multiset(a[..|a| - 1]) == multiset(RemoveAt(b, i))
  {
    assert a[|a| - 1] in multiset(b);
    i :| 0 <= i < |b| && b[i] == a[|a| - 1];
    RemoveAtMultiset(a, |a| - 1);
    RemoveAtMultiset(b, i);
    RemoveLast(a);
  }

  lemma SameLength<T>(a: seq<T>, b: seq<T>)
    requires multiset(a) == multiset(b)
    ensures |a| == |b|
  {
    assert |multiset(a)| == |a| && |multiset(b)| == |b|;
  }

  lemma {:induction false} SumPermuted(scope: Scope, a: seq<CostEvent>, b: seq<CostEvent>)
    requires multiset(a) == multiset(b)
    ensures Sum(scope, a) == Sum(scope, b) && Count(scope, a) == Count(scope, b)
  {
    if a == [] {
      SameLength(a, b);
    } else {
      var i := LastElsewhere(a, b);
      SumRemoveAt(scope, b, i);
      SumPermuted(scope, a[..|a| - 1], RemoveAt(b, i));
    }
  }

  lemma RemoveLast<T>(s: seq<T>)
    requires s != []
    ensures RemoveAt(s, |s| - 1) == s[..|s| - 1]
  {
  }

  lemma SameMembers<T>(a: seq<T>, b: seq<T>)
    requires multiset(a) == multiset(b)
    ensures forall x :: x in a <==> x in b
  {
    forall x ensures x in a <==> x in b {
      assert x in a <==> x in multiset(a);
      assert x in b <==> x in multiset(b);
    }
  }

  /** Two places of one sequence with a property of pairs are two places of any permutation of it. */
  lemma PairPermuted<T>(a: seq<T>, b: seq<T>, i: nat, j: nat) returns (k: nat, l: nat)
    requires multiset(a) == multiset(b) && i < j < |a|
    ensures k < |b| && l < |b| && k != l && b[k] == a[i] && b[l] == a[j]
  {
    SameMembers(a, b);
    assert a[i] in b && a[j] in b;
    k :| 0 <= k < |b| && b[k] == a[i];
    RemoveAtMultiset(a, i);
    RemoveAtMultiset(b, k);
    var rest := RemoveAt(b, k);
    SameMembers(RemoveAt(a, i), rest);
    assert RemoveAt(a, i)[j - 1] == a[j];
    assert a[j] in rest;
    var m :| 0 <= m < |rest| && rest[m] == a[j];
    l := if m < k then m else m + 1;
  }

  lemma BadEventsPermuted(a: seq<CostEvent>, b: seq<CostEvent>)
    requires multiset(a) == multiset(b) && BadEvents(a)
    ensures BadEvents(b)
  {
    SameMembers(a, b);
    if i :| 0 <= i < |a| && !WellFormed(a[i]) {
      assert a[i] in b;
    } else {
      var i, j :| 0 <= i < j < |a| && Strip(a[i].eventId) == Strip(a[j].eventId);
      var k, l := PairPermuted(a, b, i, j);
      var lo, hi := if k < l then k else l, if k < l then l else k;
      assert Strip(b[lo].eventId) == Strip(b[hi].eventId);
    }
  }

  lemma BadOutputsPermuted(a: seq<Output>, b: seq<Output>)
    requires multiset(a) == multiset(b) && BadOutputs(a)
    ensures BadOutputs(b)
  {
    SameMembers(a, b);
    if i :| 0 <= i < |a| && Approved(a[i]) && !WellFormedOutput(a[i]) {
      assert a[i] in b;
    } else {
      var i, j :| 0 <= i < j < |a| && Approved(a[i]) && Approved(a[j]) && SameOutput(a[i], a[j]);
      var k, l := PairPermuted(a, b, i, j);
      var lo, hi := if k < l then k else l, if k < l then l else k;
      assert SameOutput(b[lo], b[hi]);
    }
  }

  lemma KeysPermuted(a: seq<CostEvent>, b: seq<CostEvent>, c: seq<Output>, d: seq<Output>, key: Key)
    requires multiset(a) == multiset(b) && multiset(c) == multiset(d)
    ensures EventKeys(a) <= EventKeys(b) && OutputKeys(c) <= OutputKeys(d)
    ensures AcceptedItems(c, key) <= AcceptedItems(d, key)
  {
    SameMembers(a, b);
    SameMembers(c, d);
    forall k | k in EventKeys(a) ensures k in EventKeys(b) {
      var i :| 0 <= i < |a| && EventKey(a[i]) == k;
      assert a[i] in b;
    }
    forall k | k in OutputKeys(c) ensures k in OutputKeys(d) {
      var i :| 0 <= i < |c| && Approved(c[i]) && OutputKey(c[i]) == k;
      assert c[i] in d;
    }
    forall item | item in AcceptedItems(c, key) ensures item in AcceptedItems(d, key) {
      var i :| 0 <= i < |c| && Approved(c[i]) && OutputKey(c[i]) == key && Strip(c[i].itemId) == item;
      assert c[i] in d;
    }
  }

  lemma FiguresPermuted(a: seq<CostEvent>, b: seq<CostEvent>, c: seq<Output>, d: seq<Output>, key: Key,
                         buckets: seq<string>)
    requires multiset(a) == multiset(b) && multiset(c) == multiset(d)
    ensures Figures(key, a, c, buckets) == Figures(key, b, d, buckets)
  {
    SumPermuted(InKey(key), a, b);
    SumPermuted(FailedIn(key), a, b);
    KeysPermuted(a, b, c, d, key);
    KeysPermuted(b, a, d, c, key);
    forall bucket ensures Sum(InBucket(key, bucket), a) == Sum(InBucket(key, bucket), b) {
      SumPermuted(InBucket(key, bucket), a, b);
    }
  }

  /** Both are errors, or both are the same rows. */
  predicate SameReport(r: Result<seq<Row>, Problem>, s: Result<seq<Row>, Problem>) {
    (r.Ok? <==> s.Ok?) && (r.Ok? ==> r.value == s.value)
  }

  /** Permuting either input gives the same report, row for row, or an error both ways. */
  lemma OrderDoesNotMatter(a: seq<CostEvent>, b: seq<CostEvent>, c: seq<Output>, d: seq<Output>, pricing: map<Key, Price>,
                           r: Result<seq<Row>, Problem>, s: Result<seq<Row>, Problem>)
    requires multiset(a) == multiset(b) && multiset(c) == multiset(d)
    ensures ReportOf(a, c, pricing, r) && ReportOf(b, d, pricing, s) ==> SameReport(r, s)
  {
    OrderDoesNotMatterWith(a, b, c, d, pricing, COST_BUCKETS, r, s);
  }

  lemma OrderDoesNotMatterWith(a: seq<CostEvent>, b: seq<CostEvent>, c: seq<Output>, d: seq<Output>, pricing: map<Key, Price>,
                               buckets: seq<string>, r: Result<seq<Row>, Problem>, s: Result<seq<Row>, Problem>)
    requires multiset(a) == multiset(b) && multiset(c) == multiset(d)
    ensures ReportWith(a, c, pricing, buckets, r) && ReportWith(b, d, pricing, buckets, s) ==> SameReport(r, s)
  {
    if ReportWith(a, c, pricing, buckets, r) && ReportWith(b, d, pricing, buckets, s) {
      if BadEvents(a) { BadEventsPermuted(a, b); }
      if BadEvents(b) { BadEventsPermuted(b, a); }
      if BadOutputs(c) { BadOutputsPermuted(c, d); }
      if BadOutputs(d) { BadOutputsPermuted(d, c); }
      if r.Ok? {
        var key := Key("", "");
        KeysPermuted(a, b, c, d, key);
        KeysPermuted(b, a, d, c, key);
        SortedIsUnique(RowKeys(r.value), RowKeys(s.value));
        forall i | 0 <= i < |r.value| ensures r.value[i] == s.value[i] {
          assert RowKeys(r.value)[i] == RowKeys(s.value)[i];
          FiguresPermuted(a, b, c, d, r.value[i].key, buckets);
        }
      }
    }
  }

  // ----- Rounding ---------------------------------------------------------------------------

  /** The rounded value is the one integer within a half, and the even one of two. */
  lemma RoundingIsNearestEven(x: real, n: int)
    ensures RoundHalfEven(x) == n <==>
            -0.5 <= n as real - x <= 0.5 && (n as real - x == 0.5 || n as real - x == -0.5 ==> n % 2 == 0)
  {
    if -0.5 <= n as real - x <= 0.5 {
      assert n == x.Floor || n == x.Floor + 1;
    }
  }

  function Total(amounts: seq<int>): int {
    if amounts == [] then 0 else amounts[0] + Total(amounts[1..])
  }

  /** The printed buckets are off their exact sum by at most half a unit each. */
  lemma {:induction false} PrintedBucketsError(key: Key, t: Totals, buckets: seq<string>, events: seq<CostEvent>)
    requires forall bucket :: bucket in buckets ==> BucketAt(t, bucket) == Sum(InBucket(key, bucket), events)
    ensures -0.5 * |buckets| as real
            <= Total(PrintedBuckets(t, buckets)) as real - BucketTotal(key, buckets, events) * 10000.0
            <= 0.5 * |buckets| as real
  {
    if buckets != [] {
      PrintedBucketsError(key, t, buckets[1..], events);
      RoundingIsNearestEven(BucketAt(t, buckets[0]) * 10000.0, Printed(BucketAt(t, buckets[0])));
      assert |buckets| as real == |buckets[1..]| as real + 1.0;
    }
  }

  /** The row prints eight buckets, and they differ from its printed total by at most four units. */
  predicate PrintedAddsUp(row: Row) {
    |row.buckets| == 8 && -4 <= Total(row.buckets) - row.cost <= 4
  }

  /** In every row the eight printed bucket amounts differ from the printed total by at most 0.0004. */
  lemma PrintedRowAddsUp(events: seq<CostEvent>, outputs: seq<Output>, pricing: map<Key, Price>, r: Result<seq<Row>, Problem>)
    ensures ReportOf(events, outputs, pricing, r) && r.Ok? ==>
              forall i :: 0 <= i < |r.value| ==> PrintedAddsUp(r.value[i])
  {
    PrintedRowWithAddsUp(events, outputs, pricing, r, COST_BUCKETS);
  }

  lemma PrintedRowWithAddsUp(events: seq<CostEvent>, outputs: seq<Output>, pricing: map<Key, Price>,
                             r: Result<seq<Row>, Problem>, buckets: seq<string>)
    requires buckets == COST_BUCKETS
    ensures ReportWith(events, outputs, pricing, buckets, r) && r.Ok? ==>
              forall i :: 0 <= i < |r.value| ==> PrintedAddsUp(r.value[i])
  {
    if ReportWith(events, outputs, pricing, buckets, r) && r.Ok? {
      ReportWithConserves(events, outputs, pricing, r, buckets);
      forall i | 0 <= i < |r.value| ensures PrintedAddsUp(r.value[i]) {
        var key := r.value[i].key;
        var t := Figures(key, events, outputs, buckets);
        assert RowConserves(r.value[i], events, buckets);
        PrintedBucketsError(key, t, buckets, events);
        RoundingIsNearestEven(t.cost * 10000.0, Printed(t.cost));
        PrintedLength(t, buckets);
      }
    }
  }

  lemma {:induction false} PrintedLength(t: Totals, buckets: seq<string>)
    ensures |PrintedBuckets(t, buckets)| == |buckets|
  {
    if buckets != [] {
      PrintedLength(t, buckets[1..]);
    }
  }

  /** One event of 0.00005 for each bucket, in one workspace-month. */
  function SmallEvents(buckets: seq<string>): (events: seq<CostEvent>)
    ensures |events| == |buckets|
  {
    seq(|buckets|, i requires 0 <= i < |buckets| => SmallEvent(buckets[i]))
  }

  function SmallEvent(bucket: string): CostEvent {
    CostEvent(bucket, "2026-01-01", "w", bucket, Some(0.00005), "ok")
  }

  const SMALL_KEY: Key := Key("w", "2026-01")

  lemma StripClean(s: string)
    requires s != "" && !IsSpace(s[0]) && !IsSpace(s[|s| - 1])
    ensures Strip(s) == s
  {
    assert StripLeft(s) == s;
  }

  predicate Clean(s: string) {
    s != "" && !IsSpace(s[0]) && !IsSpace(s[|s| - 1])
  }

  lemma SmallEventIsFine(bucket: string)
    requires Clean(bucket) && bucket in COST_BUCKETS
    ensures
      var e := SmallEvent(bucket);
      WellFormed(e) && EventKey(e) == SMALL_KEY && Strip(e.bucket) == bucket && Strip(e.eventId) == bucket && Amount(e) == 0.00005
  {
    StripClean(bucket);
    StripClean("w");
    StripClean("2026-01-01");
    assert "2026-01-01"[..7] == "2026-01";
  }

  lemma SmallStep(buckets: seq<string>, n: nat, scope: Scope)
    requires n < |buckets| && Clean(buckets[n]) && buckets[n] in COST_BUCKETS
    ensures
      var events := SmallEvents(buckets);
      Sum(scope, events[..n + 1]) == Sum(scope, events[..n]) + CostOf(scope, SmallEvent(buckets[n]))
    ensures CostOf(InKey(SMALL_KEY), SmallEvent(buckets[n])) == 0.00005
    ensures forall bucket :: CostOf(InBucket(SMALL_KEY, bucket), SmallEvent(buckets[n])) == if bucket == buckets[n] then 0.00005 else 0.0
  {
    var events := SmallEvents(buckets);
    SmallEventIsFine(buckets[n]);
    assert events[..n + 1] == events[..n] + [events[n]];
    SumSnoc(scope, events[..n], events[n]);
  }

  lemma {:induction false} SmallSums(buckets: seq<string>, n: nat, j: nat)
    requires NoRepeats(buckets) && n <= |buckets| && j < |buckets|
    requires forall bucket :: bucket in buckets ==> Clean(bucket) && bucket in COST_BUCKETS
    ensures Sum(InBucket(SMALL_KEY, buckets[j]), SmallEvents(buckets)[..n]) == if j < n then 0.00005 else 0.0
    ensures Sum(InKey(SMALL_KEY), SmallEvents(buckets)[..n]) == 0.00005 * n as real
  {
    if n > 0 {
      SmallSums(buckets, n - 1, j);
      SmallStep(buckets, n - 1, InBucket(SMALL_KEY, buckets[j]));
      SmallStep(buckets, n - 1, InKey(SMALL_KEY));
    }
  }

  lemma SmallEventsAreFine(buckets: seq<string>)
    requires NoRepeats(buckets) && buckets != []
    requires forall bucket :: bucket in buckets ==> Clean(bucket) && bucket in COST_BUCKETS
    ensures !BadEvents(SmallEvents(buckets)) && EventKeys(SmallEvents(buckets)) == {SMALL_KEY}
  {
    var events := SmallEvents(buckets);
    forall i | 0 <= i < |events|
      ensures WellFormed(events[i]) && EventKey(events[i]) == SMALL_KEY && Strip(events[i].eventId) == buckets[i]
    {
      SmallEventIsFine(buckets[i]);
    }
    assert EventKey(events[0]) in EventKeys(events);
  }

  lemma BucketNamesAreClean(buckets: seq<string>)
    requires buckets == COST_BUCKETS
    ensures forall bucket :: bucket in buckets ==> Clean(bucket)
  {
  }

  /** Amounts of 0.00005 each print as nothing. */
  lemma {:induction false} SmallBucketsPrintNothing(t: Totals, buckets: seq<string>)
    requires forall bucket :: bucket in buckets ==> BucketAt(t, bucket) == 0.00005
    ensures Total(PrintedBuckets(t, buckets)) == 0
    decreases buckets
  {
    if buckets != [] {
      SmallBucketsPrintNothing(t, buckets[1..]);
      assert BucketAt(t, buckets[0]) == 0.00005;
    }
  }

  lemma OneKey(keys: seq<Key>, key: Key)
    requires Sorted(keys) && Elements(keys) == {key}
    ensures keys == [key]
  {
    SortedIsUnique(keys, [key]);
  }

  lemma SmallFigures(buckets: seq<string>, t: Totals)
    requires buckets == COST_BUCKETS && t == Figures(SMALL_KEY, SmallEvents(buckets), [], buckets)
    ensures t.cost == 0.0004 && forall bucket :: bucket in buckets ==> BucketAt(t, bucket) == 0.00005
  {
    var events := SmallEvents(buckets);
    BucketNamesDiffer(buckets);
    BucketNamesAreClean(buckets);
    assert events[..|buckets|] == events;
    forall bucket | bucket in buckets ensures BucketAt(t, bucket) == 0.00005 {
      var j :| 0 <= j < |buckets| && buckets[j] == bucket;
      SmallSums(buckets, |buckets|, j);
    }
    SmallSums(buckets, |buckets|, 0);
  }

  /** One row, whose buckets print as nothing and whose total prints as 0.0004. */
  predicate PrintsFourMore(r: Result<seq<Row>, Problem>) {
    r.Ok? && |r.value| == 1 && Total(r.value[0].buckets) == 0 && r.value[0].cost == 4
  }

  lemma SmallReport(r: Result<seq<Row>, Problem>, buckets: seq<string>)
    requires buckets == COST_BUCKETS && ReportWith(SmallEvents(buckets), [], map[], buckets, r)
    ensures PrintsFourMore(r)
  {
    var t := Figures(SMALL_KEY, SmallEvents(buckets), [], buckets);
    BucketNamesDiffer(buckets);
    BucketNamesAreClean(buckets);
    SmallEventsAreFine(buckets);
    OneKey(RowKeys(r.value), SMALL_KEY);
    SmallFigures(buckets, t);
    SmallBucketsPrintNothing(t, buckets);
    RoundingIsNearestEven(t.cost * 10000.0, 4);
  }

  /** The bound is reached, by eight events of 0.00005, one for each bucket. */
  lemma BoundIsReached(r: Result<seq<Row>, Problem>)
    ensures ReportOf(SmallEvents(COST_BUCKETS), [], map[], r) ==> PrintsFourMore(r)
  {
    if ReportOf(SmallEvents(COST_BUCKETS), [], map[], r) {
      SmallReport(r, COST_BUCKETS);
    }
  }

  lemma QuotientIs(x: real, y: real, q: real)
    requires y != 0.0 && q * y == x
    ensures x / y == q
  {
  }

  // ----- What every column says -------------------------------------------------------------

  /** `n` ten-thousandths are what the amount prints as: the nearest number of them, the even one of two. */
  predicate PrintsAs(n: int, amount: real) {
    var x := amount * 10000.0;
    -0.5 <= n as real - x <= 0.5 && (n as real - x == 0.5 || n as real - x == -0.5 ==> n % 2 == 0)
  }

  lemma PrintedPrints(amount: real)
    ensures PrintsAs(Printed(amount), amount)
  {
    RoundingIsNearestEven(amount * 10000.0, Printed(amount));
  }

  /** The column is filled in exactly if it should be, with that amount. */
  predicate Shows(column: Option<int>, present: bool, amount: real) {
    (column.Some? <==> present) && (present ==> PrintsAs(column.value, amount))
  }

  const NO_PRICE: Price := Price(0.0, 0.0, 0.0, 0.0, 0.0)

  function PriceOf(pricing: map<Key, Price>, key: Key): Price {
    if key in pricing then pricing[key] else NO_PRICE
  }

  /** Approved outputs of a workspace-month. */
  function ApprovedCount(outputs: seq<Output>, key: Key): nat {
    if outputs == [] then 0
    else
      var o := outputs[|outputs| - 1];
      ApprovedCount(outputs[..|outputs| - 1], key) + if Approved(o) && OutputKey(o) == key then 1 else 0
  }

  lemma {:induction false} AcceptedAreCounted(outputs: seq<Output>, key: Key)
    requires !BadOutputs(outputs)
    ensures |AcceptedItems(outputs, key)| == ApprovedCount(outputs, key)
  {
    if outputs != [] {
      var before, o := outputs[..|outputs| - 1], outputs[|outputs| - 1];
      assert outputs == before + [o];
      BadPrefix([], outputs, 0, |before|);
      AcceptedAreCounted(before, key);
      BadOutputsSnoc(before, o);
      ItemsGrow(before, o, key);
      if Approved(o) && OutputKey(o) == key && Strip(o.itemId) in AcceptedItems(before, key) {
        NewItem(before, o, key);
        assert false;
      }
    }
  }

  lemma NewItem(outputs: seq<Output>, o: Output, key: Key)
    requires OutputKey(o) == key && Strip(o.itemId) in AcceptedItems(outputs, key)
    ensures OutputId(o) in OutputIds(outputs)
  {
  }

  /** The counts and the cost of the row. */
  predicate CountsAre(row: Row, events: seq<CostEvent>, outputs: seq<Output>) {
    && row.acceptedOutputs == ApprovedCount(outputs, row.key)
    && row.costEvents == Count(InKey(row.key), events)
    && row.failedEvents == Count(FailedIn(row.key), events)
    && PrintsAs(row.cost, Sum(InKey(row.key), events))
  }

  /** Each bucket column is the sum of the bucket that names it. */
  predicate BucketsAre(row: Row, events: seq<CostEvent>, buckets: seq<string>) {
    && |row.buckets| == |buckets|
    && forall i :: 0 <= i < |buckets| ==> PrintsAs(row.buckets[i], Sum(InBucket(row.key, buckets[i]), events))
  }

  /** The price columns are filled in exactly where there is a price; throttling starts when the cost reaches its threshold. */
  predicate PricesAre(row: Row, events: seq<CostEvent>, pricing: map<Key, Price>) {
    var priced, price := row.key in pricing, PriceOf(pricing, row.key);
    && Shows(row.revenue, priced, price.revenue)
    && Shows(row.included, priced, price.included)
    && Shows(row.overage, priced, price.overage)
    && Shows(row.hardCap, priced, price.hardCap)
    && (row.throttle.Some? <==> priced)
    && (row.throttle == Some(true) <==> priced && Sum(InKey(row.key), events) >= price.throttle)
  }

  predicate Shares(each: real, count: nat, cost: real) {
    each * count as real == cost
  }

  predicate Leaves(margin: real, revenue: real, cost: real) {
    margin * revenue + cost == revenue
  }

  predicate Covers(over: real, included: real, count: nat) {
    over >= 0.0 && over + included >= count as real && (over == 0.0 || over + included == count as real)
  }

  /** The amount of which each accepted output takes one; left out when there is none. */
  ghost predicate CostEachIs(column: Option<int>, cost: real, count: nat) {
    (column.Some? <==> count > 0) && forall each :: Shares(each, count, cost) ==> Shows(column, count > 0, each)
  }

  /** The part of the revenue that the cost leaves over; left out when there is no revenue. */
  ghost predicate MarginIs(column: Option<int>, revenue: real, cost: real) {
    (column.Some? <==> revenue > 0.0) && forall margin :: Leaves(margin, revenue, cost) ==> Shows(column, revenue > 0.0, margin)
  }

  /** The least number that, with what is included, covers the accepted outputs; left out when there is no price. */
  ghost predicate OverageIs(column: Option<int>, priced: bool, included: real, count: nat) {
    (column.Some? <==> priced) && forall over :: Covers(over, included, count) ==> Shows(column, priced, over)
  }

  /** The cost per output, the margin, and the overage. */
  ghost predicate QuotientsAre(row: Row, events: seq<CostEvent>, outputs: seq<Output>, pricing: map<Key, Price>) {
    var cost, count, price := Sum(InKey(row.key), events), ApprovedCount(outputs, row.key), PriceOf(pricing, row.key);
    && CostEachIs(row.costPerAccepted, cost, count)
    && MarginIs(row.grossMargin, price.revenue, cost)
    && OverageIs(row.overageOutputs, row.key in pricing, price.included, count)
  }

  lemma CostEach(cost: real, count: nat)
    ensures CostEachIs(if count != 0 then Some(Printed(cost / count as real)) else None, cost, count)
  {
    forall each | Shares(each, count, cost) && count > 0 ensures PrintsAs(Printed(cost / count as real), each) {
      QuotientIs(cost, count as real, each);
      PrintedPrints(each);
    }
  }

  lemma Margin(revenue: real, cost: real)
    ensures MarginIs(if revenue > 0.0 then Some(Printed((revenue - cost) / revenue)) else None, revenue, cost)
  {
    forall margin | Leaves(margin, revenue, cost) && revenue > 0.0
      ensures PrintsAs(Printed((revenue - cost) / revenue), margin)
    {
      QuotientIs(revenue - cost, revenue, margin);
      PrintedPrints(margin);
    }
  }

  lemma Overage(priced: bool, included: real, count: nat)
    ensures
      var over := if count as real - included > 0.0 then count as real - included else 0.0;
      OverageIs(if priced then Some(Printed(over)) else None, priced, included, count)
  {
    PrintedPrints(if count as real - included > 0.0 then count as real - included else 0.0);
  }

  lemma RowCounts(row: Row, events: seq<CostEvent>, outputs: seq<Output>, pricing: map<Key, Price>, buckets: seq<string>)
    requires row == RowOf(row.key, Figures(row.key, events, outputs, buckets), pricing, buckets) && !BadOutputs(outputs)
    ensures CountsAre(row, events, outputs) && BucketsAre(row, events, buckets)
  {
    var t := Figures(row.key, events, outputs, buckets);
    AcceptedAreCounted(outputs, row.key);
    PrintedPrints(t.cost);
    PrintedLength(t, buckets);
    forall i | 0 <= i < |buckets| ensures PrintsAs(row.buckets[i], Sum(InBucket(row.key, buckets[i]), events)) {
      PrintedBucketAt(t, buckets, i);
      PrintedPrints(BucketAt(t, buckets[i]));
    }
  }

  lemma {:induction false} PrintedBucketAt(t: Totals, buckets: seq<string>, i: nat)
    requires i < |buckets|
    ensures |PrintedBuckets(t, buckets)| == |buckets| && PrintedBuckets(t, buckets)[i] == Printed(BucketAt(t, buckets[i]))
  {
    PrintedLength(t, buckets);
    if i > 0 {
      PrintedBucketAt(t, buckets[1..], i - 1);
    }
  }

  lemma RowPrices(row: Row, events: seq<CostEvent>, outputs: seq<Output>, pricing: map<Key, Price>, buckets: seq<string>)
    requires row == RowOf(row.key, Figures(row.key, events, outputs, buckets), pricing, buckets)
    ensures PricesAre(row, events, pricing)
  {
    var price := PriceOf(pricing, row.key);
    PrintedPrints(price.revenue);
    PrintedPrints(price.included);
    PrintedPrints(price.overage);
    PrintedPrints(price.hardCap);
  }

  lemma RowQuotientsAre(row: Row, events: seq<CostEvent>, outputs: seq<Output>, pricing: map<Key, Price>, buckets: seq<string>)
    requires row == RowOf(row.key, Figures(row.key, events, outputs, buckets), pricing, buckets) && !BadOutputs(outputs)
    ensures QuotientsAre(row, events, outputs, pricing)
  {
    AcceptedAreCounted(outputs, row.key);
    RowColumns(row, Figures(row.key, events, outputs, buckets), pricing, buckets);
  }

  lemma RowColumns(row: Row, t: Totals, pricing: map<Key, Price>, buckets: seq<string>)
    requires row == RowOf(row.key, t, pricing, buckets)
    ensures CostEachIs(row.costPerAccepted, t.cost, |t.accepted|)
    ensures MarginIs(row.grossMargin, PriceOf(pricing, row.key).revenue, t.cost)
    ensures OverageIs(row.overageOutputs, row.key in pricing, PriceOf(pricing, row.key).included, |t.accepted|)
  {
    CostEach(t.cost, |t.accepted|);
    Margin(PriceOf(pricing, row.key).revenue, t.cost);
    Overage(row.key in pricing, PriceOf(pricing, row.key).included, |t.accepted|);
  }

  /** Every column of the row is what the inputs make it. */
  ghost predicate RowIsRight(row: Row, events: seq<CostEvent>, outputs: seq<Output>, pricing: map<Key, Price>, buckets: seq<string>) {
    && CountsAre(row, events, outputs) && BucketsAre(row, events, buckets)
    && PricesAre(row, events, pricing) && QuotientsAre(row, events, outputs, pricing)
  }

  lemma RowsWithAreRight(events: seq<CostEvent>, outputs: seq<Output>, pricing: map<Key, Price>,
                         r: Result<seq<Row>, Problem>, buckets: seq<string>)
    ensures ReportWith(events, outputs, pricing, buckets, r) && r.Ok? ==>
              forall i :: 0 <= i < |r.value| ==> RowIsRight(r.value[i], events, outputs, pricing, buckets)
  {
    if ReportWith(events, outputs, pricing, buckets, r) && r.Ok? {
      forall i | 0 <= i < |r.value| ensures RowIsRight(r.value[i], events, outputs, pricing, buckets) {
        RowCounts(r.value[i], events, outputs, pricing, buckets);
        RowPrices(r.value[i], events, outputs, pricing, buckets);
        RowQuotientsAre(r.value[i], events, outputs, pricing, buckets);
      }
    }
  }

  /** In every row of every report every column is what the inputs make it, the buckets in the order of their names. */
  lemma RowsAreRight(events: seq<CostEvent>, outputs: seq<Output>, pricing: map<Key, Price>, r: Result<seq<Row>, Problem>)
    ensures ReportOf(events, outputs, pricing, r) && r.Ok? ==>
              forall i :: 0 <= i < |r.value| ==> RowIsRight(r.value[i], events, outputs, pricing, COST_BUCKETS)
  {
    RowsWithAreRight(events, outputs, pricing, r, COST_BUCKETS);
  }

  // ----- More events ------------------------------------------------------------------------

  lemma {:induction false} SumGrows(scope: Scope, events: seq<CostEvent>, more: seq<CostEvent>)
    requires forall i :: 0 <= i < |more| ==> Amount(more[i]) >= 0.0
    ensures Sum(scope, events + more) >= Sum(scope, events)
  {
    if more == [] {
      assert events + more == events;
    } else {
      var front, e := more[..|more| - 1], more[|more| - 1];
      SumGrows(scope, events, front);
      assert events + more == (events + front) + [e];
      SumSnoc(scope, events + front, e);
    }
  }

  /** Two rows of one workspace-month, before and after more events: throttling is never taken back. */
  predicate ThrottleStays(before: Row, after: Row) {
    before.key == after.key && before.throttle == Some(true) ==> after.throttle == Some(true)
  }

  lemma MoreEventsKeepThrottling(events: seq<CostEvent>, more: seq<CostEvent>, outputs: seq<Output>, pricing: map<Key, Price>,
                                 r: Result<seq<Row>, Problem>, s: Result<seq<Row>, Problem>)
    ensures ReportOf(events, outputs, pricing, r) && ReportOf(events + more, outputs, pricing, s) && r.Ok? && s.Ok? ==>
              forall i, j :: 0 <= i < |r.value| && 0 <= j < |s.value| ==> ThrottleStays(r.value[i], s.value[j])
  {
    if ReportOf(events, outputs, pricing, r) && ReportOf(events + more, outputs, pricing, s) && r.Ok? && s.Ok? {
      RowsAreRight(events, outputs, pricing, r);
      RowsAreRight(events + more, outputs, pricing, s);
      forall k | 0 <= k < |more| ensures Amount(more[k]) >= 0.0 {
        assert more[k] == (events + more)[|events| + k] && WellFormed((events + more)[|events| + k]);
      }
      forall i, j | 0 <= i < |r.value| && 0 <= j < |s.value| ensures ThrottleStays(r.value[i], s.value[j]) {
        SumGrows(InKey(r.value[i].key), events, more);
        assert PricesAre(r.value[i], events, pricing) && PricesAre(s.value[j], events + more, pricing);
      }
    }
  }

  // ----- Every output is counted once -------------------------------------------------------

  function AllApproved(outputs: seq<Output>): nat {
    if outputs == [] then 0 else AllApproved(outputs[..|outputs| - 1]) + if Approved(outputs[|outputs| - 1]) then 1 else 0
  }

  function KeyApproved(keys: seq<Key>, outputs: seq<Output>): nat {
    if keys == [] then 0 else ApprovedCount(outputs, keys[0]) + KeyApproved(keys[1..], outputs)
  }

  lemma {:induction false} KeyApprovedSnoc(keys: seq<Key>, outputs: seq<Output>, o: Output)
    requires Sorted(keys)
    ensures KeyApproved(keys, outputs + [o]) ==
            KeyApproved(keys, outputs) + if Approved(o) && OutputKey(o) in keys then 1 else 0
  {
    assert (outputs + [o])[..|outputs|] == outputs;
    if keys != [] {
      KeyApprovedSnoc(keys[1..], outputs, o);
      RestElements(keys);
      assert OutputKey(o) in keys[1..] <==> OutputKey(o) in Elements(keys[1..]);
      assert OutputKey(o) in keys <==> OutputKey(o) in Elements(keys);
    }
  }

  lemma {:induction false} KeyApprovedEmpty(keys: seq<Key>)
    ensures KeyApproved(keys, []) == 0
  {
    if keys != [] {
      KeyApprovedEmpty(keys[1..]);
    }
  }

  lemma {:induction false} OutputsAddUp(keys: seq<Key>, outputs: seq<Output>)
    requires Sorted(keys) && OutputKeys(outputs) <= Elements(keys)
    ensures KeyApproved(keys, outputs) == AllApproved(outputs)
  {
    if outputs == [] {
      KeyApprovedEmpty(keys);
    } else {
      var before, o := outputs[..|outputs| - 1], outputs[|outputs| - 1];
      assert before + [o] == outputs;
      OutputKeysGrow(before, o);
      OutputsAddUp(keys, before);
      KeyApprovedSnoc(keys, before, o);
      assert Approved(o) ==> OutputKey(o) in Elements(keys);
    }
  }

  function AcceptedTotal(rows: seq<Row>): nat {
    if rows == [] then 0 else rows[0].acceptedOutputs + AcceptedTotal(rows[1..])
  }

  lemma {:induction false} AcceptedTotalIs(rows: seq<Row>, outputs: seq<Output>)
    requires forall i :: 0 <= i < |rows| ==> rows[i].acceptedOutputs == ApprovedCount(outputs, rows[i].key)
    ensures AcceptedTotal(rows) == KeyApproved(RowKeys(rows), outputs)
  {
    if rows != [] {
      AcceptedTotalIs(rows[1..], outputs);
      assert RowKeys(rows)[1..] == RowKeys(rows[1..]);
    }
  }

  /** The accepted outputs of the rows add up to all approved outputs, each counted once. */
  lemma AcceptedOutputsAddUp(events: seq<CostEvent>, outputs: seq<Output>, pricing: map<Key, Price>, r: Result<seq<Row>, Problem>)
    ensures ReportOf(events, outputs, pricing, r) && r.Ok? ==> AcceptedTotal(r.value) == AllApproved(outputs)
  {
    if ReportOf(events, outputs, pricing, r) && r.Ok? {
      RowsAreRight(events, outputs, pricing, r);
      forall i | 0 <= i < |r.value| ensures r.value[i].acceptedOutputs == ApprovedCount(outputs, r.value[i].key) {
        assert CountsAre(r.value[i], events, outputs);
      }
      AcceptedTotalIs(r.value, outputs);
      OutputsAddUp(RowKeys(r.value), outputs);
    }
  }

  // ----- Texts and problems -----------------------------------------------------------------

  predicate AllSpaces(s: string) {
    forall i :: 0 <= i < |s| ==> IsSpace(s[i])
  }

  lemma {:induction false} StripLeftIs(s: string) returns (left: string)
    ensures s == left + StripLeft(s) && AllSpaces(left) && (StripLeft(s) == "" || !IsSpace(StripLeft(s)[0]))
  {
    left := "";
    if s != "" && IsSpace(s[0]) {
      left := StripLeftIs(s[1..]);
      assert s == [s[0]] + s[1..];
      left := [s[0]] + left;
    }
  }

  lemma {:induction false} StripRightIs(s: string) returns (right: string)
    ensures s == StripRight(s) + right && AllSpaces(right) && (StripRight(s) == "" || !IsSpace(StripRight(s)[|StripRight(s)| - 1]))
  {
    right := "";
    if s != "" && IsSpace(s[|s| - 1]) {
      right := StripRightIs(s[..|s| - 1]);
      assert s == s[..|s| - 1] + [s[|s| - 1]];
      right := right + [s[|s| - 1]];
    }
  }

  /** A stripped text is what is left between the spaces at both ends, and has none there. */
  lemma StripIs(s: string) returns (left: string, right: string)
    ensures s == left + Strip(s) + right && AllSpaces(left) && AllSpaces(right)
    ensures Strip(s) == "" || (!IsSpace(Strip(s)[0]) && !IsSpace(Strip(s)[|Strip(s)| - 1]))
  {
    left := StripLeftIs(s);
    right := StripRightIs(StripLeft(s));
    assert StripLeft(s) == Strip(s) + right;
    if Strip(s) != "" {
      assert StripLeft(s)[0] == Strip(s)[0];
    }
  }

  /** The month of a text is its first seven characters, if the fifth is a dash. */
  lemma MonthIs(value: string, month: string)
    ensures Month(value) == Some(month) <==> month <= value && |month| == 7 && month[4] == '-'
  {
    if month <= value && |month| == 7 {
      assert month == value[..7] && value[4] == month[4];
    }
  }

  /** An event and an output belong to one workspace-month exactly if their workspaces and months are the same. */
  lemma SameKey(e: CostEvent, o: Output, month: string)
    requires Month(Strip(e.occurredAt)) == Some(month)
    ensures EventKey(e) == Key(Strip(e.workspaceId), month)
    ensures Month(Strip(o.decidedAt)) == Some(month) && Strip(o.workspaceId) == Strip(e.workspaceId) ==> OutputKey(o) == EventKey(e)
  {
  }

  /** Only capitals change, each to the small letter at its place in the alphabet. */
  lemma LowerIs(s: string, i: nat)
    requires i < |s|
    ensures |Lower(s)| == |s| && Lower(Lower(s)) == Lower(s)
    ensures if 'A' <= s[i] <= 'Z' then Lower(s)[i] as int - 'a' as int == s[i] as int - 'A' as int else Lower(s)[i] == s[i]
  {
  }

  /** Capitals and surrounding spaces of a status or an outcome make no difference. */
  lemma SpellingDoesNotMatter(a: Output, b: Output, e: CostEvent, f: CostEvent)
    ensures Lower(Strip(a.status)) == Lower(Strip(b.status)) ==> (Approved(a) <==> Approved(b))
    ensures Lower(Strip(e.outcome)) == Lower(Strip(f.outcome)) ==> (Failed(e) <==> Failed(f))
  {
  }

  /** The check of that name fails for the event, whatever the others do. */
  predicate Fails(e: CostEvent, seen: set<string>, p: Problem) {
    match p
    case BadMonth => Month(Strip(e.occurredAt)).None?
    case MissingField => Strip(e.eventId) == "" || Strip(e.workspaceId) == ""
    case DuplicateEvent => Strip(e.eventId) in seen
    case UnsupportedBucket => Strip(e.bucket) !in COST_BUCKETS
    case BadAmount => e.cost.None? || e.cost.value < 0.0
    case DuplicateOutput => false
  }

  predicate OutputFails(o: Output, seen: set<(Key, string)>, p: Problem) {
    match p
    case BadMonth => Month(Strip(o.decidedAt)).None?
    case MissingField => Strip(o.workspaceId) == "" || Strip(o.itemId) == ""
    case DuplicateOutput => OutputId(o) in seen
    case _ => false
  }

  /** The order in which the checks are made. */
  function Rank(p: Problem): nat {
    match p
    case BadMonth => 0 case MissingField => 1 case DuplicateEvent => 2 case DuplicateOutput => 2
    case UnsupportedBucket => 3 case BadAmount => 4
  }

  /** The problem reported is that of the first check that fails. */
  lemma FirstProblem(e: CostEvent, seen: set<string>, p: Problem)
    ensures EventProblem(e, seen) == Some(p) <==>
            Fails(e, seen, p) && forall q :: Rank(q) < Rank(p) ==> !Fails(e, seen, q)
  {
    var first := EventProblem(e, seen);
    if first.Some? {
      assert Fails(e, seen, first.value);
    }
  }

  lemma FirstOutputProblemIs(o: Output, seen: set<(Key, string)>, p: Problem)
    ensures OutputProblem(o, seen) == Some(p) <==>
            OutputFails(o, seen, p) && forall q :: Rank(q) < Rank(p) ==> !OutputFails(o, seen, q)
  {
    var first := OutputProblem(o, seen);
    if first.Some? {
      assert OutputFails(o, seen, first.value);
    }
  }
}

/** The browser's traffic log: events kept in order, found again by request id, and answered in place. */
module TrafficCapture {
  import opened Wrappers
  import opened Text

  type Headers = map<string, string>

  datatype Config = Config(maxEvents: int, maxBody: int, keepRequestBody: bool, keepResponseBody: bool,
                           redacted: set<string>)

  /** A url as `urlsplit` splits it. */
  datatype Url = NoUrl | Url(scheme: string, netloc: string, path: string, query: string)

  /** What an event holds. */
  datatype Entry = Entry(id: string, method_: string, url: Url, requestHeaders: Headers, requestBody: Option<string>,
                         status: Option<int>, ok: Option<bool>, responseHeaders: Headers, contentType: Option<string>,
                         responseBody: Option<string>, truncated: bool, error: Option<string>)

  datatype Act =
    | Request(id: string, method_: string, url: Url, headers: Headers, body: Option<string>)
    | Response(id: string, status: Option<int>, ok: Option<bool>, headers: Headers, body: Option<string>)
    | Failure(id: string, error: Option<string>)

  // ---------------------------------------------------------------- Headers and bodies

  function Redact(headers: Headers, c: Config): Headers {
    var names := set h | h in c.redacted :: ToLower(h);
    map key | key in headers :: if ToLower(key) in names then "<redacted>" else headers[key]
  }

  function ContentType(headers: Headers): Option<string> {
    if "content-type" in headers && headers["content-type"] != "" then Some(headers["content-type"])
    else if "Content-Type" in headers then Some(headers["Content-Type"])
    else None
  }

  predicate PartAt(s: string, part: string, i: nat) {
    i + |part| <= |s| && s[i..i + |part|] == part
  }

  predicate Contains(s: string, part: string) {
    exists i :: 0 <= i <= |s| && PartAt(s, part, i)
  }

  const TEXTUAL := ["application/json", "text/", "application/xml", "text/xml", "application/x-www-form-urlencoded"]

  predicate IsText(contentType: Option<string>) {
    && contentType.Some? && contentType.value != ""
    && exists token :: token in TEXTUAL && Contains(ToLower(contentType.value), token)
  }

  function Truncate(body: Option<string>, max: int): (Option<string>, bool) {
    if body.None? then (None, false)
    else if max <= 0 then (None, true)
    else if |body.value| > max then (Some(body.value[..max]), true)
    else (body, false)
  }

  // ---------------------------------------------------------------- What each call does to the log

  function Recorded(c: Config, act: Act): Entry
    requires act.Request?
  {
    Entry(act.id, act.method_, act.url, Redact(act.headers, c), if c.keepRequestBody then act.body else None,
          None, None, map[], None, None, false, None)
  }

  function Answered(c: Config, e: Entry, act: Act): Entry
    requires act.Response?
  {
    var headers := Redact(act.headers, c);
    var kind := ContentType(headers);
    var after := e.(status := act.status, ok := act.ok, responseHeaders := headers, contentType := kind);
    if c.keepResponseBody && IsText(kind) then
      var (text, cut) := Truncate(act.body, c.maxBody);
      after.(responseBody := text, truncated := cut)
    else after
  }

  function Failed(e: Entry, act: Act): Entry
    requires act.Failure?
  {
    e.(error := Some(if act.error.Some? && act.error.value != "" then act.error.value else "request_failed"))
  }

  /** The latest event with this id. */
  function Latest(log: seq<Entry>, id: string): (i: Option<nat>)
    ensures i.Some? ==> i.value < |log| && log[i.value].id == id
    ensures forall k :: (if i.Some? then i.value + 1 else 0) <= k < |log| ==> log[k].id != id
  {
    if log == [] then None
    else if log[|log| - 1].id == id then Some(|log| - 1)
    else Latest(log[..|log| - 1], id)
  }

  function Ids(log: seq<Entry>): set<string> {
    set e | e in log :: e.id
  }

  function Step(c: Config, log: seq<Entry>, act: Act): seq<Entry> {
    if act.Request? then if |log| < c.maxEvents then log + [Recorded(c, act)] else log
    else
      var at := Latest(log, act.id);
      if at.None? then log
      else log[at.value := if act.Response? then Answered(c, log[at.value], act) else Failed(log[at.value], act)]
  }

  lemma StepOfFailure(c: Config, log: seq<Entry>, act: Act)
    requires act.Failure?
    ensures Step(c, log, act) ==
            var at := Latest(log, act.id); if at.None? then log else log[at.value := Failed(log[at.value], act)]
  {
  }

  function Run(c: Config, acts: seq<Act>): seq<Entry> {
    if acts == [] then [] else Step(c, Run(c, acts[..|acts| - 1]), acts[|acts| - 1])
  }

  // ---------------------------------------------------------------- The capture

  class NetworkEvent {
    const id: string
    const method_: string
    const url: Url
    const requestHeaders: Headers
    const requestBody: Option<string>
    var status: Option<int>
    var ok: Option<bool>
    var responseHeaders: Headers
    var contentType: Option<string>
    var responseBody: Option<string>
    var truncated: bool
    var error: Option<string>

    function Value(): Entry
      reads this
    {
      Entry(id, method_, url, requestHeaders, requestBody, status, ok, responseHeaders, contentType,
            responseBody, truncated, error)
    }

    constructor (id: string, method_: string, url: Url, headers: Headers, body: Option<string>)
      ensures Value() == Entry(id, method_, url, headers, body, None, None, map[], None, None, false, None)
    {
      this.id, this.method_, this.url, requestHeaders, requestBody := id, method_, url, headers, body;
      status, ok, responseHeaders, contentType := None, None, map[], None;
      responseBody, truncated, error := None, false, None;
    }

    method Answer(c: Config, act: Act)
      requires act.Response?
      modifies this
      ensures Value() == Answered(c, old(Value()), act)
    {
      var headers := Redact(act.headers, c);
      var kind := ContentType(headers);
      status, ok, responseHeaders, contentType := act.status, act.ok, headers, kind;
      if c.keepResponseBody && IsText(kind) {
        var (text, cut) := Truncate(act.body, c.maxBody);
        responseBody, truncated := text, cut;
      }
    }

    method Fail(act: Act)
      requires act.Failure?
      modifies this
      ensures Value() == Failed(old(Value()), act)
    {
      error := Some(if act.error.Some? && act.error.value != "" then act.error.value else "request_failed");
    }
  }

  class BrowserTrafficCapture {
    const config: Config
    var events: seq<NetworkEvent>
    var eventsById: map<string, NetworkEvent>

    function Log(): (log: seq<Entry>)
      reads this, events
      ensures |log| == |events| && forall i :: 0 <= i < |log| ==> log[i] == events[i].Value()
    {
      seq(|events|, i requires 0 <= i < |events| reads this, events => events[i].Value())
    }

    /** No event is recorded twice, and the index holds, for each id, the latest event recorded under it. */
    ghost predicate Valid()
      reads this, events
    {
      Distinct(events) && Indexes(Log(), events, eventsById)
    }

    constructor (config: Config)
      ensures Valid() && Log() == [] && this.config == config
    {
      this.config := config;
      events, eventsById := [], map[];
    }

    method AddRequest(id: string, method_: string, url: Url, headers: Headers, body: Option<string>)
      requires Valid()
      modifies this
      ensures Valid() && Log() == Step(config, old(Log()), Request(id, method_, url, headers, body))
      ensures forall e :: e in events ==> e in old(events) || fresh(e)
    {
      if |events| >= config.maxEvents { return; }
      var event := new NetworkEvent(id, method_, url, Redact(headers, config),
                                    if config.keepRequestBody then body else None);
      ghost var log, before, index := Log(), events, eventsById;
      events := events + [event];
      eventsById := eventsById[id := event];
      OneRecorded(log, before, index, event);
    }

    /** Only `event` was added since the log read `log`. */
    lemma OneRecorded(log: seq<Entry>, before: seq<NetworkEvent>, index: map<string, NetworkEvent>, event: NetworkEvent)
      requires events == before + [event] && eventsById == index[event.id := event] && event !in before
      requires Distinct(before) && Indexes(log, before, index)
      requires forall i :: 0 <= i < |before| ==> before[i].Value() == log[i]
      ensures Valid() && Log() == log + [event.Value()]
    {
      assert Log() == log + [event.Value()];
      RecordingIndexes(log, before, index, event.Value(), event);
    }

    method AddResponse(id: string, status: Option<int>, ok: Option<bool>, headers: Headers, body: Option<string>)
      requires Valid()
      modifies events
      ensures Valid() && Log() == Step(config, old(Log()), Response(id, status, ok, headers, body))
    {
      ghost var log := Log();
      NoneLatest(log, id);
      if id !in eventsById { return; }
      var event, act := eventsById[id], Response(id, status, ok, headers, body);
      ghost var at := Latest(log, id).value;
      OnlyAt(events, at);
      event.Answer(config, act);
      OneChanged(log, at, Answered(config, log[at], act));
    }

    method AddFailure(id: string, error: Option<string>)
      requires Valid()
      modifies events
      ensures Valid() && Log() == Step(config, old(Log()), Failure(id, error))
    {
      ghost var log := Log();
      var act := Failure(id, error);
      NoneLatest(log, id);
      StepOfFailure(config, log, act);
      if id !in eventsById { return; }
      var event := eventsById[id];
      ghost var at := Latest(log, id).value;
      OnlyAt(events, at);
      event.Fail(act);
      OneChanged(log, at, Failed(log[at], act));
    }

    /** Only event `k` changed since the log read `log`, and its id did not. */
    lemma OneChanged(log: seq<Entry>, k: nat, e: Entry)
      requires k < |log| == |events| && e == events[k].Value() && e.id == log[k].id
      requires Distinct(events) && Indexes(log, events, eventsById)
      requires forall i :: 0 <= i < |events| && i != k ==> events[i].Value() == log[i]
      ensures Valid() && Log() == log[k := e]
    {
      AnsweringKeepsLatest(log, Log());
    }

    method Summary() returns (total: nat, ok: nat, failed: int)
      ensures total == |events| && ok == |set i | 0 <= i < |events| && events[i].ok == Some(true)|
      ensures failed >= 0 && ok + failed == total
    {
      ok := 0;
      ghost var counted: set<int> := {};
      for i := 0 to |events|
        invariant counted == set k | 0 <= k < i && events[k].ok == Some(true)
        invariant ok == |counted| && ok <= i
      {
        if events[i].ok == Some(true) {
          ok := ok + 1;
          counted := counted + {i};
        }
      }
      total, failed := |events|, |events| - ok;
    }
  }

  predicate Distinct(events: seq<NetworkEvent>) {
    forall i, j :: 0 <= i < j < |events| ==> events[i] != events[j]
  }

  lemma OnlyAt(events: seq<NetworkEvent>, at: nat)
    requires Distinct(events) && at < |events|
    ensures forall i :: 0 <= i < |events| && i != at ==> events[i] != events[at]
  {
  }

  lemma RecordingKeepsLatest(log: seq<Entry>, e: Entry)
    ensures Latest(log + [e], e.id) == Some(|log|)
    ensures forall id :: id != e.id ==> Latest(log + [e], id) == Latest(log, id)
    ensures Ids(log + [e]) == Ids(log) + {e.id}
  {
    forall id ensures Latest(log + [e], id) == if id == e.id then Some(|log|) else Latest(log, id) {
      LatestOneMore(log, e, id);
    }
    IdsOneMore(log, e);
  }

  lemma LatestOneMore(log: seq<Entry>, e: Entry, id: string)
    ensures Latest(log + [e], id) == if id == e.id then Some(|log|) else Latest(log, id)
  {
    assert (log + [e])[..|log|] == log;
  }

  lemma IdsOneMore(log: seq<Entry>, e: Entry)
    ensures Ids(log + [e]) == Ids(log) + {e.id}
  {
    assert forall x :: x in log + [e] <==> x in log || x == e;
  }

  ghost predicate Indexes(log: seq<Entry>, events: seq<NetworkEvent>, index: map<string, NetworkEvent>) {
    && |log| == |events| && index.Keys == Ids(log)
    && forall id :: id in index ==> Latest(log, id).Some? && index[id] == events[Latest(log, id).value]
  }

  lemma RecordingIndexes(log: seq<Entry>, events: seq<NetworkEvent>, index: map<string, NetworkEvent>, e: Entry, event: NetworkEvent)
    requires Indexes(log, events, index)
    ensures Indexes(log + [e], events + [event], index[e.id := event])
  {
    RecordingKeepsLatest(log, e);
  }

  lemma {:induction false} NoneLatest(log: seq<Entry>, id: string)
    ensures Latest(log, id) == None <==> id !in Ids(log)
  {
    if i :| 0 <= i < |log| && log[i].id == id { assert log[i] in log; }
  }

  lemma {:induction false} AnsweringKeepsLatest(log: seq<Entry>, after: seq<Entry>)
    requires |log| == |after| && forall i :: 0 <= i < |log| ==> log[i].id == after[i].id
    ensures forall id :: Latest(after, id) == Latest(log, id)
    ensures Ids(after) == Ids(log)
  {
    forall id ensures Latest(after, id) == Latest(log, id) { LatestByIds(log, after, id); }
    forall id ensures id in Ids(after) <==> id in Ids(log) {
      NoneLatest(log, id);
      NoneLatest(after, id);
      LatestByIds(log, after, id);
    }
  }

  lemma LatestByIds(log: seq<Entry>, after: seq<Entry>, id: string)
    requires |log| == |after| && forall i :: 0 <= i < |log| ==> log[i].id == after[i].id
    ensures Latest(after, id) == Latest(log, id)
  {
  }

  // ---------------------------------------------------------------- Whole recordings

  lemma {:induction false} LogsAreCapped(c: Config, acts: seq<Act>)
    ensures |Run(c, acts)| <= if c.maxEvents > 0 then c.maxEvents else 0
  {
    if acts != [] { LogsAreCapped(c, acts[..|acts| - 1]); }
  }

  predicate Blacked(c: Config, headers: Headers) {
    forall key, h :: key in headers && h in c.redacted && ToLower(key) == ToLower(h) ==> headers[key] == "<redacted>"
  }

  lemma RedactBlacks(c: Config, headers: Headers)
    ensures Blacked(c, Redact(headers, c)) && Redact(headers, c).Keys == headers.Keys
  {
  }

  /** No value of a header that the configuration names is ever recorded, whatever its capitals. */
  lemma {:induction false} NamedHeadersAreNeverRecorded(c: Config, acts: seq<Act>)
    ensures forall e :: e in Run(c, acts) ==> Blacked(c, e.requestHeaders) && Blacked(c, e.responseHeaders)
  {
    if acts != [] {
      var log, act := Run(c, acts[..|acts| - 1]), acts[|acts| - 1];
      NamedHeadersAreNeverRecorded(c, acts[..|acts| - 1]);
      if !act.Failure? { RedactBlacks(c, act.headers); }
      forall i | 0 <= i < |Step(c, log, act)|
        ensures Blacked(c, Step(c, log, act)[i].requestHeaders) && Blacked(c, Step(c, log, act)[i].responseHeaders)
      {
        if i < |log| { assert log[i] in log; }
      }
    }
  }

  predicate SameRequest(a: Entry, b: Entry) {
    && a.id == b.id && a.method_ == b.method_ && a.url == b.url
    && a.requestHeaders == b.requestHeaders && a.requestBody == b.requestBody
  }

  lemma StepKeepsRequests(c: Config, log: seq<Entry>, act: Act, i: nat)
    requires i < |log|
    ensures i < |Step(c, log, act)| && SameRequest(log[i], Step(c, log, act)[i])
  {
  }

  /** Recorded events stay where they are, and what they say of the request never changes. */
  lemma {:induction false} RequestsStay(c: Config, acts: seq<Act>, more: seq<Act>, i: nat)
    requires i < |Run(c, acts)|
    ensures i < |Run(c, acts + more)| && SameRequest(Run(c, acts)[i], Run(c, acts + more)[i])
  {
    if more == [] {
      assert acts + more == acts;
    } else {
      var n := |more| - 1;
      RequestsStay(c, acts, more[..n], i);
      assert (acts + more)[..|acts + more| - 1] == acts + more[..n];
      StepKeepsRequests(c, Run(c, acts + more[..n]), more[n], i);
    }
  }

  /** Act `k` recorded event `i`. */
  predicate RecordedAt(c: Config, acts: seq<Act>, k: nat, i: nat) {
    k < |acts| && acts[k].Request? && |Run(c, acts[..k])| == i < c.maxEvents
  }

  /** Act `m`, a response or a failure, lands on event `i`. */
  predicate LandsOn(c: Config, acts: seq<Act>, m: nat, i: nat) {
    m < |acts| && !acts[m].Request? && Latest(Run(c, acts[..m]), acts[m].id) == Some(i)
  }

  lemma {:induction false} EveryEventWasRecorded(c: Config, acts: seq<Act>, i: nat) returns (k: nat)
    requires i < |Run(c, acts)|
    ensures RecordedAt(c, acts, k, i) && acts[k].id == Run(c, acts)[i].id
  {
    var last := |acts| - 1;
    var log := Run(c, acts[..last]);
    if i < |log| {
      k := EveryEventWasRecorded(c, acts[..last], i);
      assert acts[..last][..k] == acts[..k];
      StepKeepsRequests(c, log, acts[last], i);
    } else {
      k := last;
      NewEvents(c, log, acts[last]);
    }
  }

  lemma NewEvents(c: Config, log: seq<Entry>, act: Act)
    requires |log| < |Step(c, log, act)|
    ensures act.Request? && |log| < c.maxEvents && |Step(c, log, act)| == |log| + 1
    ensures Step(c, log, act)[|log|] == Recorded(c, act)
  {
  }

  lemma {:induction false} RecordedEventsAreThere(c: Config, acts: seq<Act>, k: nat, i: nat)
    requires RecordedAt(c, acts, k, i)
    ensures i < |Run(c, acts)| && Run(c, acts)[i].id == acts[k].id
  {
    assert acts[..k + 1][..k] == acts[..k];
    assert acts[..k + 1] + acts[k + 1..] == acts;
    RequestsStay(c, acts[..k + 1], acts[k + 1..], i);
  }

  lemma {:induction false} LogsGrow(c: Config, acts: seq<Act>, k: nat)
    requires k <= |acts|
    ensures |Run(c, acts[..k])| <= |Run(c, acts)|
  {
    if k < |acts| {
      assert acts[..|acts| - 1][..k] == acts[..k];
      LogsGrow(c, acts[..|acts| - 1], k);
    } else {
      assert acts[..k] == acts;
    }
  }

  /** Act `k`, before act `m`, recorded event `i` under the id of act `m`, and no later one before it did. */
  ghost predicate LatestRequest(c: Config, acts: seq<Act>, m: nat, i: nat, k: nat) {
    && k < m < |acts| && RecordedAt(c, acts, k, i) && acts[k].id == acts[m].id
    && forall j: nat, n: nat :: k < j < m && RecordedAt(c, acts, j, n) ==> acts[j].id != acts[m].id
  }

  lemma RecordedBefore(c: Config, acts: seq<Act>, m: nat)
    requires m <= |acts|
    ensures forall k: nat, n: nat :: k < m ==> (RecordedAt(c, acts, k, n) <==> RecordedAt(c, acts[..m], k, n))
  {
    forall k: nat, n: nat | k < m ensures RecordedAt(c, acts, k, n) <==> RecordedAt(c, acts[..m], k, n) {
      assert acts[..m][..k] == acts[..k];
    }
  }

  lemma LandsOnTheLatest(c: Config, acts: seq<Act>, m: nat, i: nat) returns (k: nat)
    requires LandsOn(c, acts, m, i)
    ensures LatestRequest(c, acts, m, i, k)
  {
    var before := acts[..m];
    RecordedBefore(c, acts, m);
    k := EveryEventWasRecorded(c, before, i);
    forall j: nat, n: nat | k < j < m && RecordedAt(c, acts, j, n) ensures acts[j].id != acts[m].id {
      RecordedEventsAreThere(c, before, j, n);
      LaterIsHigher(c, before, k, j);
    }
  }

  lemma TheLatestIsLandedOn(c: Config, acts: seq<Act>, m: nat, i: nat, k: nat)
    requires LatestRequest(c, acts, m, i, k) && !acts[m].Request?
    ensures LandsOn(c, acts, m, i)
  {
    var before := acts[..m];
    var log := Run(c, before);
    RecordedBefore(c, acts, m);
    RecordedEventsAreThere(c, before, k, i);
    forall n: nat | i < n < |log| ensures log[n].id != acts[m].id {
      var j := EveryEventWasRecorded(c, before, n);
      if j < k { LaterIsHigher(c, before, j, k); }
      assert RecordedAt(c, acts, j, n);
    }
  }

  /** A response, or a failure, lands on the event of the latest request recorded under its id, if there is one. */
  lemma ResponsesLandOnTheirLatestRequest(c: Config, acts: seq<Act>, m: nat, i: nat)
    requires m < |acts| && !acts[m].Request?
    ensures LandsOn(c, acts, m, i) <==> exists k: nat :: LatestRequest(c, acts, m, i, k)
  {
    if LandsOn(c, acts, m, i) {
      var k := LandsOnTheLatest(c, acts, m, i);
    }
    if k: nat :| LatestRequest(c, acts, m, i, k) {
      TheLatestIsLandedOn(c, acts, m, i, k);
    }
  }

  lemma LaterIsHigher(c: Config, acts: seq<Act>, k: nat, j: nat)
    requires k < j < |acts| && acts[k].Request? && |Run(c, acts[..k])| < c.maxEvents
    ensures |Run(c, acts[..k])| < |Run(c, acts[..j])|
  {
    var upTo := acts[..j];
    assert upTo[..k + 1] == acts[..k + 1];
    LogsGrow(c, upTo, k + 1);
    assert acts[..k + 1][..k] == acts[..k];
  }

  /** At the cap a new request is dropped, and the response to it overwrites the earlier event with its id. */
  lemma DroppedRequestsLoseTheirResponse(c: Config, acts: seq<Act>, id: string, url: Url, status: Option<int>)
    requires |Run(c, acts)| >= c.maxEvents && Latest(Run(c, acts), id).Some?
    ensures var after := Run(c, acts + [Request(id, "GET", url, map[], None), Response(id, status, None, map[], None)]);
      |after| == |Run(c, acts)| && after[Latest(Run(c, acts), id).value].status == status
  {
    var more := [Request(id, "GET", url, map[], None), Response(id, status, None, map[], None)];
    assert (acts + more)[..|acts| + 1] == acts + more[..1];
    assert (acts + more[..1])[..|acts|] == acts;
  }
}

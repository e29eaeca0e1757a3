/** What a recording tells of each request, of its last response and of its last failure. */
module CaptureTheorems {
  import opened Wrappers
  import opened Text
  import opened TrafficCapture

  // ---------------------------------------------------------------- Headers

  /** The configuration names the header, in whatever capitals. */
  predicate IsNamed(c: Config, key: string) {
    exists h :: h in c.redacted && ToLower(h) == ToLower(key)
  }

  /** The headers as given, but for the values of those that are named. */
  predicate Shows(c: Config, shown: Headers, given: Headers) {
    shown.Keys == given.Keys
    && forall key :: key in given ==> shown[key] == if IsNamed(c, key) then "<redacted>" else given[key]
  }

  lemma RedactShows(c: Config, given: Headers)
    ensures Shows(c, Redact(given, c), given)
  {
    var names := set h | h in c.redacted :: ToLower(h);
    forall key | key in given ensures ToLower(key) in names <==> IsNamed(c, key) {
    }
  }

  // ---------------------------------------------------------------- Requests

  /** A recorded event tells its request for good: id, method and url as they were, the body if bodies are kept, and
      every header, with only the named ones' values withheld. */
  lemma RequestsAreToldAsMade(c: Config, acts: seq<Act>, k: nat, i: nat)
    requires RecordedAt(c, acts, k, i)
    ensures i < |Run(c, acts)|
    ensures var e, act := Run(c, acts)[i], acts[k];
      && e.id == act.id && e.method_ == act.method_ && e.url == act.url
      && e.requestBody == (if c.keepRequestBody then act.body else None)
      && Shows(c, e.requestHeaders, act.headers)
  {
    RedactShows(c, acts[k].headers);
    assert acts[..k + 1][..k] == acts[..k];
    assert acts[..k + 1] + acts[k + 1..] == acts;
    RequestsStay(c, acts[..k + 1], acts[k + 1..], i);
  }

  // ---------------------------------------------------------------- The last word on an event

  ghost predicate IsLast(c: Config, acts: seq<Act>, m: nat, i: nat, sort: Act -> bool) {
    LandsOn(c, acts, m, i) && sort(acts[m]) && forall n: nat :: n > m && LandsOn(c, acts, n, i) ==> !sort(acts[n])
  }

  ghost predicate NoneLands(c: Config, acts: seq<Act>, i: nat, sort: Act -> bool) {
    forall m: nat :: LandsOn(c, acts, m, i) ==> !sort(acts[m])
  }

  function Applied(c: Config, e: Entry, act: Act): Entry
    requires !act.Request?
  {
    if act.Response? then Answered(c, e, act) else Failed(e, act)
  }

  lemma StepApplies(c: Config, log: seq<Entry>, act: Act, i: nat)
    requires i < |log|
    ensures i < |Step(c, log, act)|
    ensures Step(c, log, act)[i] ==
            if !act.Request? && Latest(log, act.id) == Some(i) then Applied(c, log[i], act) else log[i]
  {
    if act.Failure? { StepOfFailure(c, log, act); }
  }

  lemma LandsBefore(c: Config, acts: seq<Act>, i: nat)
    requires acts != []
    ensures forall m: nat :: m < |acts| - 1 ==> (LandsOn(c, acts, m, i) <==> LandsOn(c, acts[..|acts| - 1], m, i))
  {
    forall m: nat | m < |acts| - 1 ensures LandsOn(c, acts, m, i) <==> LandsOn(c, acts[..|acts| - 1], m, i) {
      assert acts[..|acts| - 1][..m] == acts[..m];
    }
  }

  /** An act of this sort makes an event tell it, and any other leaves what the event tells. */
  ghost predicate Settles(c: Config, sort: Act -> bool, tells: (Entry, Act) -> bool, untold: Entry -> bool) {
    && (forall act: Act :: act.Request? ==> untold(Recorded(c, act)))
    && (forall e, act: Act :: !act.Request? && sort(act) ==> tells(Applied(c, e, act), act))
    && (forall e, act: Act :: !act.Request? && !sort(act) && untold(e) ==> untold(Applied(c, e, act)))
    && (forall e, act: Act, was: Act :: !act.Request? && !sort(act) && tells(e, was) ==> tells(Applied(c, e, act), was))
  }

  ghost predicate TellsLast(c: Config, acts: seq<Act>, e: Entry, i: nat, sort: Act -> bool,
                            tells: (Entry, Act) -> bool, untold: Entry -> bool) {
    || (exists m: nat :: IsLast(c, acts, m, i, sort) && tells(e, acts[m]))
    || (NoneLands(c, acts, i, sort) && untold(e))
  }

  lemma LastStays(c: Config, acts: seq<Act>, m: nat, i: nat, sort: Act -> bool)
    requires acts != [] && IsLast(c, acts[..|acts| - 1], m, i, sort)
    requires !(LandsOn(c, acts, |acts| - 1, i) && sort(acts[|acts| - 1]))
    ensures IsLast(c, acts, m, i, sort)
  {
    var init, last := acts[..|acts| - 1], |acts| - 1;
    LandsBefore(c, acts, i);
    assert LandsOn(c, acts, m, i);
    forall n: nat | n > m && LandsOn(c, acts, n, i) ensures !sort(acts[n]) {
      if n < last { assert LandsOn(c, init, n, i); }
    }
  }

  lemma NoneStays(c: Config, acts: seq<Act>, i: nat, sort: Act -> bool)
    requires acts != [] && NoneLands(c, acts[..|acts| - 1], i, sort)
    requires !(LandsOn(c, acts, |acts| - 1, i) && sort(acts[|acts| - 1]))
    ensures NoneLands(c, acts, i, sort)
  {
    var init, last := acts[..|acts| - 1], |acts| - 1;
    LandsBefore(c, acts, i);
    forall m: nat | LandsOn(c, acts, m, i) ensures !sort(acts[m]) {
      if m < last { assert LandsOn(c, init, m, i); }
    }
  }

  lemma TellsOn(c: Config, acts: seq<Act>, was: Entry, now: Entry, i: nat, sort: Act -> bool,
                tells: (Entry, Act) -> bool, untold: Entry -> bool)
    requires acts != [] && TellsLast(c, acts[..|acts| - 1], was, i, sort, tells, untold)
    requires !(LandsOn(c, acts, |acts| - 1, i) && sort(acts[|acts| - 1]))
    requires (untold(was) ==> untold(now)) && forall act: Act :: tells(was, act) ==> tells(now, act)
    ensures TellsLast(c, acts, now, i, sort, tells, untold)
  {
    var init := acts[..|acts| - 1];
    if m: nat :| IsLast(c, init, m, i, sort) && tells(was, init[m]) {
      LastStays(c, acts, m, i, sort);
      assert tells(now, acts[m]);
    } else {
      NoneStays(c, acts, i, sort);
    }
  }

  lemma NewIsUntold(c: Config, acts: seq<Act>, i: nat)
    requires acts != [] && |Run(c, acts[..|acts| - 1])| <= i && acts[|acts| - 1].Request?
    ensures forall m: nat :: !LandsOn(c, acts, m, i)
  {
    var last := |acts| - 1;
    forall m: nat ensures !LandsOn(c, acts, m, i) {
      if m < last {
        assert acts[..last][..m] == acts[..m];
        LogsGrow(c, acts[..last], m);
      }
    }
  }

  /** An event tells the last act of a sort that landed on it, and nothing of that sort if none did. */
  lemma {:induction false} EventsTellTheLast(c: Config, acts: seq<Act>, i: nat, sort: Act -> bool,
                                             tells: (Entry, Act) -> bool, untold: Entry -> bool)
    requires i < |Run(c, acts)| && Settles(c, sort, tells, untold)
    ensures TellsLast(c, acts, Run(c, acts)[i], i, sort, tells, untold)
  {
    var last := |acts| - 1;
    var log, act, now := Run(c, acts[..last]), acts[last], Run(c, acts)[i];
    if i < |log| {
      EventsTellTheLast(c, acts[..last], i, sort, tells, untold);
      StepApplies(c, log, act, i);
      if LandsOn(c, acts, last, i) && sort(act) {
        assert IsLast(c, acts, last, i, sort) && tells(now, acts[last]);
      } else {
        TellsOn(c, acts, log[i], now, i, sort, tells, untold);
      }
    } else {
      NewEvents(c, log, act);
      NewIsUntold(c, acts, i);
    }
  }

  // ---------------------------------------------------------------- Responses

  const RESPONSES: Act -> bool := (act: Act) => act.Response?

  /** The content type is that of the header spelled small, unless that is missing or empty, then of the one spelled
      with capitals; as it is shown. */
  predicate IsTypeOf(kind: Option<string>, shown: Headers) {
    match kind
    case Some(k) =>
      || ("content-type" in shown && shown["content-type"] == k != "")
      || ("Content-Type" in shown && shown["Content-Type"] == k && ("content-type" in shown ==> shown["content-type"] == ""))
    case None => ("content-type" in shown ==> shown["content-type"] == "") && "Content-Type" !in shown
  }

  predicate TellsResponse(c: Config, e: Entry, act: Act) {
    && act.Response? && e.status == act.status && e.ok == act.ok
    && Shows(c, e.responseHeaders, act.headers) && IsTypeOf(e.contentType, e.responseHeaders)
  }

  predicate NoResponse(e: Entry) {
    e.status == None && e.ok == None && e.responseHeaders == map[] && e.contentType == None
  }

  lemma ResponsesSettle(c: Config)
    ensures Settles(c, RESPONSES, (e, act) => TellsResponse(c, e, act), e => NoResponse(e))
  {
    forall e, act: Act | act.Response? ensures TellsResponse(c, Answered(c, e, act), act) {
      RedactShows(c, act.headers);
    }
  }

  /** Each event tells the last response that landed on it: status, success, every header that is not withheld, and
      the content type they give; and none if none did. */
  lemma EventsTellTheirLastResponse(c: Config, acts: seq<Act>, i: nat)
    requires i < |Run(c, acts)|
    ensures var e := Run(c, acts)[i];
      || (exists m: nat :: IsLast(c, acts, m, i, RESPONSES) && TellsResponse(c, e, acts[m]))
      || (NoneLands(c, acts, i, RESPONSES) && NoResponse(e))
  {
    ResponsesSettle(c);
    EventsTellTheLast(c, acts, i, RESPONSES, (e, act) => TellsResponse(c, e, act), e => NoResponse(e));
  }

  // ---------------------------------------------------------------- Bodies

  /** A response whose body is kept: bodies are, and what it shows as its content type is text. */
  predicate HasText(c: Config, act: Act) {
    act.Response? && c.keepResponseBody && IsText(ContentType(Redact(act.headers, c)))
  }

  /** Text is JSON, XML, a form, or anything of type text, in whatever capitals. */
  lemma TextIs(kind: string)
    ensures IsText(Some(kind)) <==>
            var small := ToLower(kind);
            || Contains(small, "application/json") || Contains(small, "text/") || Contains(small, "application/xml")
            || Contains(small, "application/x-www-form-urlencoded")
    ensures !IsText(None)
  {
    var small := ToLower(kind);
    if Contains(small, "text/xml") {
      var i :| 0 <= i <= |small| && PartAt(small, "text/xml", i);
      assert small[i..i + 8] == "text/xml" && small[i..i + 5] == small[i..i + 8][..5];
      assert PartAt(small, "text/", i);
    }
    assert TEXTUAL[0] == "application/json" && TEXTUAL[1] == "text/" && TEXTUAL[2] == "application/xml"
        && TEXTUAL[3] == "text/xml" && TEXTUAL[4] == "application/x-www-form-urlencoded";
    assert forall token :: token in TEXTUAL ==> token == TEXTUAL[0] || token == TEXTUAL[1] || token == TEXTUAL[2]
                                                || token == TEXTUAL[3] || token == TEXTUAL[4];
    assert kind == "" ==> small == "";
  }

  /** The body is the response's, or as much of its front as fits, and the flag says which. */
  predicate TellsBody(c: Config, e: Entry, act: Act) {
    && act.Response?
    && (e.truncated <==> act.body.Some? && (c.maxBody <= 0 || |act.body.value| > c.maxBody))
    && (!e.truncated ==> e.responseBody == act.body)
    && (e.truncated ==> if c.maxBody <= 0 then e.responseBody == None
                        else e.responseBody.Some? && |e.responseBody.value| == c.maxBody && e.responseBody.value <= act.body.value)
  }

  lemma TextsSettle(c: Config)
    ensures Settles(c, (act: Act) => HasText(c, act), (e, act) => TellsBody(c, e, act), (e: Entry) => e.responseBody == None && !e.truncated)
  {
  }

  /** Each event holds the body of the last response with text that landed on it, cut at the limit and flagged so; a
      later response without text leaves it. */
  lemma EventsHoldTheirLastText(c: Config, acts: seq<Act>, i: nat)
    requires i < |Run(c, acts)|
    ensures var e, sort := Run(c, acts)[i], (act: Act) => HasText(c, act);
      || (exists m: nat :: IsLast(c, acts, m, i, sort) && TellsBody(c, e, acts[m]))
      || (NoneLands(c, acts, i, sort) && e.responseBody == None && !e.truncated)
  {
    TextsSettle(c);
    EventsTellTheLast(c, acts, i, (act: Act) => HasText(c, act), (e, act) => TellsBody(c, e, act),
                      (e: Entry) => e.responseBody == None && !e.truncated);
  }

  // ---------------------------------------------------------------- Failures

  const FAILURES: Act -> bool := (act: Act) => act.Failure?

  /** The error is what the failure said, or, if it said nothing, that the request failed. */
  predicate TellsFailure(e: Entry, act: Act) {
    && act.Failure? && e.error.Some?
    && e.error.value == if act.error.GetOr("") == "" then "request_failed" else act.error.value
  }

  /** Each event tells the last failure that landed on it, and none if none did. */
  lemma EventsTellTheirLastFailure(c: Config, acts: seq<Act>, i: nat)
    requires i < |Run(c, acts)|
    ensures var e := Run(c, acts)[i];
      || (exists m: nat :: IsLast(c, acts, m, i, FAILURES) && TellsFailure(e, acts[m]))
      || (NoneLands(c, acts, i, FAILURES) && e.error == None)
  {
    assert Settles(c, FAILURES, (e, act) => TellsFailure(e, act), (e: Entry) => e.error == None);
    EventsTellTheLast(c, acts, i, FAILURES, (e, act) => TellsFailure(e, act), (e: Entry) => e.error == None);
  }
}

/** Matching the replies of a DevTools socket to the calls that await them, in whatever order they come. */
module ReplyCorrelation {
  import opened Wrappers

  /** The `id` of a frame. Python counts a JSON boolean as an integer: `true` is 1. */
  datatype FrameId = IntId(n: int) | BoolId(b: bool) | NoId

  datatype ErrorField = NoError | ErrorObject(message: string) | OtherError

  datatype Frame =
    | NotJson
    | NotAnObject                                                  // JSON, but without `.get`
    | Reply(id: FrameId, error: ErrorField, result: string)

  datatype Future = Waiting | Result(value: string) | Failure(message: string)

  datatype Socket = Socket(nextId: int, pending: set<int>, futures: map<int, Future>, reading: bool)

  const OPENED := Socket(1, {}, map[], true)

  datatype Event = Sent | Got(frame: Frame)

  function Number(id: FrameId): Option<int> {
    match id
    case IntId(n) => Some(n)
    case BoolId(b) => Some(if b then 1 else 0)
    case NoId => None
  }

  /** The frame answers a call that is still pending. */
  predicate Hits(s: Socket, frame: Frame) {
    frame.Reply? && Number(frame.id).Some? && Number(frame.id).value in s.pending
  }

  function Outcome(frame: Frame): Future
    requires frame.Reply? && !frame.error.OtherError?
  {
    if frame.error.ErrorObject? then Failure(frame.error.message) else Result(frame.result)
  }

  function Step(s: Socket, event: Event): Socket {
    match event
    case Sent => Socket(s.nextId + 1, s.pending + {s.nextId}, s.futures[s.nextId := Waiting], s.reading)
    case Got(frame) =>
      if !s.reading then s
      else if Hits(s, frame) then
        var id := Number(frame.id).value;
        if frame.error.OtherError? then s.(pending := s.pending - {id}, reading := false)
        else s.(pending := s.pending - {id}, futures := s.futures[id := Outcome(frame)])
      else if frame.NotAnObject? then s.(reading := false)
      else s
  }

  // ---------------------------------------------------------------- The socket

  class CdpSocket {
    var nextId: int
    var pending: set<int>
    var futures: map<int, Future>
    var reading: bool

    function State(): Socket
      reads this
    {
      Socket(nextId, pending, futures, reading)
    }

    constructor ()
      ensures State() == OPENED
    {
      nextId, pending, futures, reading := 1, {}, map[], true;
    }

    method Send() returns (id: int)
      modifies this
      ensures id == old(nextId) && State() == Step(old(State()), Sent)
    {
      id := nextId;
      nextId := nextId + 1;
      futures := futures[id := Waiting];
      pending := pending + {id};
    }

    /** One turn of the receive loop. */
    method Receive(frame: Frame)
      modifies this
      ensures State() == Step(old(State()), Got(frame))
    {
      if !reading { return; }
      match frame {
        case NotJson =>
        case NotAnObject =>
          reading := false;
        case Reply(frameId, error, result) =>
          var id := Number(frameId);
          if id.None? || id.value !in pending { return; }
          pending := pending - {id.value};
          match error {
            case OtherError => reading := false;
            case ErrorObject(message) => futures := futures[id.value := Failure(message)];
            case NoError => futures := futures[id.value := Result(result)];
          }
      }
    }
  }

  // ---------------------------------------------------------------- Histories

  function Run(events: seq<Event>): Socket {
    if events == [] then OPENED else Step(Run(events[..|events| - 1]), events[|events| - 1])
  }

  function Sends(events: seq<Event>): nat {
    if events == [] then 0
    else Sends(events[..|events| - 1]) + if events[|events| - 1].Sent? then 1 else 0
  }

  predicate Carries(event: Event, id: int) {
    event.Got? && event.frame.Reply? && Number(event.frame.id) == Some(id)
  }

  /** A frame carries its own id; a JSON `true` or `false` where the id should be counts as 1 or 0. */
  lemma FramesCarryTheirId(frame: Frame, id: int)
    ensures Carries(Got(frame), id) <==>
            && frame.Reply?
            && (frame.id == IntId(id) || (frame.id == BoolId(true) && id == 1) || (frame.id == BoolId(false) && id == 0))
  {
  }

  /** Event `p` is a frame with this id, received after the id was sent. */
  predicate AnswersAt(events: seq<Event>, id: int, p: nat) {
    p < |events| && Carries(events[p], id) && 1 <= id <= Sends(events[..p])
  }

  predicate FirstAnswerAt(events: seq<Event>, id: int, p: nat) {
    AnswersAt(events, id, p) && forall q: nat :: q < p ==> !AnswersAt(events, id, q)
  }

  lemma {:induction false} IdsAreCounted(events: seq<Event>)
    ensures Run(events).nextId == Sends(events) + 1
    ensures forall id :: id in Run(events).futures <==> 1 <= id <= Sends(events)
    ensures forall id :: id in Run(events).pending ==> id in Run(events).futures && Run(events).futures[id] == Waiting
  {
    if events != [] { IdsAreCounted(events[..|events| - 1]); }
  }

  lemma AnswersBefore(events: seq<Event>, id: int, p: nat)
    requires events != [] && p < |events| - 1
    ensures AnswersAt(events, id, p) <==> AnswersAt(events[..|events| - 1], id, p)
  {
    assert events[..|events| - 1][..p] == events[..p];
  }

  lemma StillReading(events: seq<Event>)
    requires events != [] && Run(events).reading
    ensures Run(events[..|events| - 1]).reading
  {
  }

  predicate Answered(events: seq<Event>, id: int) {
    exists p :: 0 <= p < |events| && AnswersAt(events, id, p)
  }

  lemma AnsweredStep(events: seq<Event>, id: int)
    requires events != []
    ensures var init := events[..|events| - 1];
      Answered(events, id) <==>
      Answered(init, id) || (Carries(events[|events| - 1], id) && 1 <= id <= Sends(init))
  {
    var n := |events| - 1;
    assert AnswersAt(events, id, n) <==> Carries(events[n], id) && 1 <= id <= Sends(events[..n]);
    if p :| 0 <= p < |events| && AnswersAt(events, id, p) {
      if p < n { AnswersBefore(events, id, p); }
    }
    if p :| 0 <= p < n && AnswersAt(events[..n], id, p) {
      AnswersBefore(events, id, p);
    }
  }

  /** While the loop reads, the pending ids are exactly those sent and not answered since. */
  lemma {:induction false} PendingAreUnanswered(events: seq<Event>, id: int)
    requires Run(events).reading
    ensures id in Run(events).pending <==> 1 <= id <= Sends(events) && !Answered(events, id)
  {
    if events != [] {
      var init := events[..|events| - 1];
      StillReading(events);
      PendingAreUnanswered(init, id);
      AnsweredStep(events, id);
      IdsAreCounted(init);
      if id == Sends(init) + 1 { NotAnsweredYet(init, id); }
    }
  }

  lemma {:induction false} SendsGrow(events: seq<Event>, p: nat)
    requires p <= |events|
    ensures Sends(events[..p]) <= Sends(events)
  {
    if p == |events| {
      assert events[..p] == events;
    } else {
      SendsGrow(events[..|events| - 1], p);
      assert events[..|events| - 1][..p] == events[..p];
    }
  }

  lemma NotAnsweredYet(events: seq<Event>, id: int)
    requires id > Sends(events)
    ensures !Answered(events, id)
  {
    if p :| 0 <= p < |events| && AnswersAt(events, id, p) {
      SendsGrow(events, p);
    }
  }

  /** Frame `p` is the first with the call's id since it was sent, the loop still reads, and the frame does not end
      the loop. */
  predicate HeardAt(events: seq<Event>, id: int, p: nat) {
    FirstAnswerAt(events, id, p) && Run(events[..p]).reading && !events[p].frame.error.OtherError?
  }

  lemma HeardBefore(events: seq<Event>, id: int, p: nat)
    requires events != [] && p < |events| - 1
    ensures HeardAt(events, id, p) <==> HeardAt(events[..|events| - 1], id, p)
  {
    var init := events[..|events| - 1];
    assert init[..p] == events[..p];
    AnswersBefore(events, id, p);
    forall q: nat | q < p ensures AnswersAt(events, id, q) <==> AnswersAt(init, id, q) {
      AnswersBefore(events, id, q);
    }
  }

  lemma FirstNow(events: seq<Event>, id: int)
    requires events != [] && AnswersAt(events, id, |events| - 1)
    ensures FirstAnswerAt(events, id, |events| - 1) <==> !Answered(events[..|events| - 1], id)
  {
    var n := |events| - 1;
    forall q: nat | q < n ensures AnswersAt(events, id, q) <==> AnswersAt(events[..n], id, q) {
      AnswersBefore(events, id, q);
    }
  }

  lemma StepCompletes(s: Socket, event: Event, id: int)
    requires id in s.futures && id != s.nextId
    ensures id in Step(s, event).futures
    ensures Step(s, event).futures[id] ==
            if s.reading && Carries(event, id) && id in s.pending && !event.frame.error.OtherError? then Outcome(event.frame)
            else s.futures[id]
  {
  }

  lemma HeardNow(events: seq<Event>, id: int)
    requires events != [] && 1 <= id <= Sends(events[..|events| - 1])
    ensures var n := |events| - 1;
      HeardAt(events, id, n) <==>
      && Run(events[..n]).reading && Carries(events[n], id) && id in Run(events[..n]).pending
      && !events[n].frame.error.OtherError?
  {
    var n := |events| - 1;
    if Run(events[..n]).reading {
      PendingAreUnanswered(events[..n], id);
      if AnswersAt(events, id, n) { FirstNow(events, id); }
    }
  }

  /** What the last event does to the call's future. */
  lemma FutureStep(events: seq<Event>, id: int)
    requires events != [] && 1 <= id <= Sends(events[..|events| - 1])
    ensures id in Run(events).futures && id in Run(events[..|events| - 1]).futures
    ensures var n := |events| - 1;
      Run(events).futures[id] ==
      if HeardAt(events, id, n) then Outcome(events[n].frame) else Run(events[..n]).futures[id]
  {
    var n := |events| - 1;
    IdsAreCounted(events[..n]);
    StepCompletes(Run(events[..n]), events[n], id);
    HeardNow(events, id);
  }

  /** Replies find their calls under any interleaving, reordering, duplication or noise, and whether or not the loop
      lives: a call's future holds what the first frame with its id since it was sent says, if the loop still read
      when that came; any other call waits. */
  lemma {:induction false} FuturesHoldFirstReplies(events: seq<Event>, id: int)
    requires 1 <= id <= Sends(events)
    ensures id in Run(events).futures
    ensures forall p: nat :: HeardAt(events, id, p) ==>
              match events[p].frame.error
              case ErrorObject(message) => Run(events).futures[id] == Failure(message)
              case NoError => Run(events).futures[id] == Result(events[p].frame.result)
    ensures (forall p: nat :: !HeardAt(events, id, p)) ==> Run(events).futures[id] == Waiting
  {
    var n := |events| - 1;
    var init := events[..n];
    IdsAreCounted(events);
    IdsAreCounted(init);
    forall p: nat | p < n ensures HeardAt(events, id, p) <==> HeardAt(init, id, p) { HeardBefore(events, id, p); }
    if id <= Sends(init) {
      FuturesHoldFirstReplies(init, id);
      FutureStep(events, id);
      OneFirstAnswer(events, id);
    } else {
      NotAnsweredYet(init, id);
      forall p: nat | p < n ensures !HeardAt(events, id, p) { assert !AnswersAt(init, id, p); }
    }
  }

  lemma OneFirstAnswer(events: seq<Event>, id: int)
    ensures forall p: nat, q: nat :: HeardAt(events, id, p) && HeardAt(events, id, q) ==> p == q
  {
  }

  /** Once the loop has ended nothing is answered any more: every future stays as it is, and every call that is
      waiting, or sent later, waits for ever. */
  lemma {:induction false} NothingIsHeardAfterTheEnd(events: seq<Event>, more: seq<Event>)
    requires !Run(events).reading
    ensures !Run(events + more).reading && Sends(events) <= Sends(events + more)
    ensures forall id :: 1 <= id <= Sends(events) ==>
              id in Run(events).futures && id in Run(events + more).futures
              && Run(events + more).futures[id] == Run(events).futures[id]
    ensures forall id :: Sends(events) < id <= Sends(events + more) ==>
              id in Run(events + more).futures && Run(events + more).futures[id] == Waiting
  {
    if more == [] {
      assert events + more == events;
      IdsAreCounted(events);
    } else {
      var all, n := events + more, |more| - 1;
      NothingIsHeardAfterTheEnd(events, more[..n]);
      assert all[..|all| - 1] == events + more[..n];
      IdsAreCounted(events + more[..n]);
      IdsAreCounted(all);
    }
  }

  /** It happens: a frame that is JSON without fields ends the loop, and the reply behind it reaches nobody. */
  lemma AReplyIsLost(result: string)
    ensures var events := [Sent, Got(NotAnObject), Got(Reply(IntId(1), NoError, result))];
      AnswersAt(events, 1, 2) && Run(events).futures == map[1 := Waiting] && Run(events).pending == {1}
  {
    var events := [Sent, Got(NotAnObject), Got(Reply(IntId(1), NoError, result))];
    assert events[..2] == [Sent, Got(NotAnObject)] && events[..2][..1] == [Sent] && [Sent][..0] == [];
    assert Run([Sent]) == Step(OPENED, Sent);
  }

  /** A future that is completed is never completed again, nor changed, whatever comes. */
  lemma {:induction false} CompletedOnce(events: seq<Event>, more: seq<Event>, id: int)
    requires id in Run(events).futures && !Run(events).futures[id].Waiting?
    ensures id in Run(events + more).futures && Run(events + more).futures[id] == Run(events).futures[id]
  {
    if more == [] {
      assert events + more == events;
    } else {
      var all, n := events + more, |more| - 1;
      CompletedOnce(events, more[..n], id);
      assert all[..|all| - 1] == events + more[..n];
      IdsAreCounted(events + more[..n]);
    }
  }

  /** Frame `p` is one that raises inside the receive loop: JSON without fields, or an answer to a pending call with
      an error that is not an object. */
  predicate KilledAt(events: seq<Event>, p: nat)
    requires p < |events|
  {
    && events[p].Got?
    && var frame := events[p].frame;
    || frame.NotAnObject?
    || (&& frame.Reply? && frame.error.OtherError?
        && Number(frame.id).Some? && Number(frame.id).value in Run(events[..p]).pending)
  }

  /** The loop reads on exactly as long as no frame so far was JSON without fields, or answered a pending
      call with an error that is not an object. */
  lemma {:induction false} ReadingUntilKilled(events: seq<Event>)
    ensures Run(events).reading <==> forall p: nat | p < |events| :: !KilledAt(events, p)
  {
    if events != [] {
      var n := |events| - 1;
      var init := events[..n];
      ReadingUntilKilled(init);
      forall p: nat | p < n ensures KilledAt(events, p) == KilledAt(init, p) {
        assert init[..p] == events[..p];
      }
      assert Run(events).reading <==> Run(init).reading && !KilledAt(events, n);
    }
  }
}

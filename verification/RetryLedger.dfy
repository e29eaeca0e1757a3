// Charging once when replies are lost.
//
// The billing peer's handlers and charges interleave at their awaits; requests can be delayed or lost, replies
// dropped or late, and the checkout peer retries once with the same payload.
module RetryLedger {
  import opened Wrappers

  type Key = string

  datatype Message = Message(key: Option<Key>, amount: int)

  /** A charge that happened: its number in `ch_n`, its amount and the request key it was made for. */
  datatype Charge = Charge(number: nat, amount: int, key: Option<Key>)

  datatype Slot = Running(amount: int) | Ready(charge: Charge)

  /** Where a handler stands. */
  datatype Handler =
    | Received(msg: Message)
    | Charging(msg: Message)                   // awaiting its own charge, without a key
    | Waiting(msg: Message)                    // awaiting the first result of its key
    | Replied(msg: Message, charge: Charge)
    | Dropped(msg: Message, charge: Charge)    // the reply was lost on the way back

  datatype Client =
    | Asked(msg: Message, request: nat, attempt: nat)
    | Paid(msg: Message, charge: Charge)
    | GaveUp(msg: Message)

  datatype State = State(
    ledger: seq<Charge>,
    results: map<Key, Slot>,
    dropNextReply: bool,
    requests: map<nat, Message>,   // every request sent, whether or not it has arrived
    handlers: map<nat, Handler>,   // by the request they handle
    clients: map<nat, Client>)

  const START := State([], map[], false, map[], map[], map[])

  datatype Action =
    | Pay(client: nat, msg: Message, request: nat)
    | TimeOut(client: nat, request: nat)
    | Deliver(client: nat)
    | Arrive(request: nat)
    | Begin(request: nat)
    | ChargeKey(key: Key)
    | ChargeAlone(request: nat)
    | Resume(request: nat)
    | LoseNextReply

  predicate Allowed(s: State, act: Action) {
    match act
    case Pay(c, _, r) => c !in s.clients && r !in s.requests
    case TimeOut(c, r) => c in s.clients && s.clients[c].Asked? && r !in s.requests
    case Deliver(c) =>
      c in s.clients && s.clients[c].Asked? && s.clients[c].request in s.handlers
      && s.handlers[s.clients[c].request].Replied?
    case Arrive(r) => r in s.requests && r !in s.handlers
    case Begin(r) => r in s.handlers && s.handlers[r].Received?
    case ChargeKey(k) => k in s.results && s.results[k].Running?
    case ChargeAlone(r) => r in s.handlers && s.handlers[r].Charging?
    case Resume(r) =>
      && r in s.handlers && s.handlers[r].Waiting? && s.handlers[r].msg.key.Some?
      && s.handlers[r].msg.key.value in s.results && s.results[s.handlers[r].msg.key.value].Ready?
    case LoseNextReply => true
  }

  /** The next entry of the ledger. */
  function NewCharge(s: State, amount: int, key: Option<Key>): Charge {
    Charge(|s.ledger| + 1, amount, key)
  }

  /** A handler with its result either replies or loses the reply. */
  function Answer(s: State, r: nat, msg: Message, charge: Charge): State {
    if s.dropNextReply then s.(dropNextReply := false, handlers := s.handlers[r := Dropped(msg, charge)])
    else s.(handlers := s.handlers[r := Replied(msg, charge)])
  }

  function Act(s: State, act: Action): State
    requires Allowed(s, act)
  {
    match act
    case Pay(c, msg, r) => s.(clients := s.clients[c := Asked(msg, r, 1)], requests := s.requests[r := msg])
    case TimeOut(c, r) =>
      var msg := s.clients[c].msg;
      if s.clients[c].attempt == 1 then
        s.(clients := s.clients[c := Asked(msg, r, 2)], requests := s.requests[r := msg])
      else s.(clients := s.clients[c := GaveUp(msg)])
    case Deliver(c) =>
      s.(clients := s.clients[c := Paid(s.clients[c].msg, s.handlers[s.clients[c].request].charge)])
    case Arrive(r) => s.(handlers := s.handlers[r := Received(s.requests[r])])
    case Begin(r) =>
      var msg := s.handlers[r].msg;
      if msg.key.None? then s.(handlers := s.handlers[r := Charging(msg)])
      else
        s.(handlers := s.handlers[r := Waiting(msg)],
           results := if msg.key.value in s.results then s.results else s.results[msg.key.value := Running(msg.amount)])
    case ChargeKey(k) =>
      var charge := NewCharge(s, s.results[k].amount, Some(k));
      s.(ledger := s.ledger + [charge], results := s.results[k := Ready(charge)])
    case ChargeAlone(r) =>
      var charge := NewCharge(s, s.handlers[r].msg.amount, None);
      Answer(s.(ledger := s.ledger + [charge]), r, s.handlers[r].msg, charge)
    case Resume(r) =>
      var msg := s.handlers[r].msg;
      Answer(s, r, msg, s.results[msg.key.value].charge)
    case LoseNextReply => s.(dropNextReply := true)
  }

  predicate Legal(s: State, acts: seq<Action>)
    decreases |acts|
  {
    acts == [] || (Allowed(s, acts[0]) && Legal(Act(s, acts[0]), acts[1..]))
  }

  function Run(s: State, acts: seq<Action>): State
    requires Legal(s, acts)
    decreases |acts|
  {
    if acts == [] then s else Run(Act(s, acts[0]), acts[1..])
  }

  // ---------------------------------------------------------------- What every step keeps

  /** A charge stands in the ledger under its own number. */
  predicate Booked(s: State, charge: Charge) {
    1 <= charge.number <= |s.ledger| && s.ledger[charge.number - 1] == charge
  }

  /** Somebody asked for this amount under this key. */
  ghost predicate AskedFor(s: State, key: Option<Key>, amount: int) {
    exists r :: r in s.requests && s.requests[r] == Message(key, amount)
  }

  ghost predicate SlotOk(s: State, key: Key, slot: Slot) {
    match slot
    case Running(amount) =>
      AskedFor(s, Some(key), amount) && forall i :: 0 <= i < |s.ledger| ==> s.ledger[i].key != Some(key)
    case Ready(charge) =>
      charge.key == Some(key) && Booked(s, charge) && AskedFor(s, Some(key), charge.amount)
  }

  /** The charge answers the message: it is booked, and it is the result recorded for the key. */
  predicate Answers(s: State, msg: Message, charge: Charge) {
    && Booked(s, charge) && charge.key == msg.key
    && (msg.key.Some? ==> msg.key.value in s.results && s.results[msg.key.value] == Ready(charge))
    && (msg.key.None? ==> charge.amount == msg.amount)
  }

  predicate HandlerOk(s: State, r: nat, h: Handler) {
    && r in s.requests && s.requests[r] == h.msg
    && match h
       case Charging(msg) => msg.key.None?
       case Waiting(msg) => msg.key.Some? && msg.key.value in s.results
       case Replied(msg, charge) => Answers(s, msg, charge)
       case Dropped(msg, charge) => Answers(s, msg, charge)
       case _ => true
  }

  predicate ClientOk(s: State, c: Client) {
    match c
    case Asked(msg, r, _) => r in s.requests && s.requests[r] == msg
    case Paid(msg, charge) => Answers(s, msg, charge)
    case _ => true
  }

  ghost predicate Inv(s: State) {
    && LedgerOk(s)
    && (forall k :: k in s.results ==> SlotOk(s, k, s.results[k]))
    && (forall r :: r in s.handlers ==> HandlerOk(s, r, s.handlers[r]))
    && (forall c :: c in s.clients ==> ClientOk(s, s.clients[c]))
  }

  /** Requests are only added, the ledger only grows, and a result once recorded stays. */
  predicate Extends(s: State, s': State) {
    && s.ledger <= s'.ledger
    && (forall r :: r in s.requests ==> r in s'.requests && s'.requests[r] == s.requests[r])
    && (forall k :: k in s.results ==> k in s'.results && (s.results[k].Ready? ==> s'.results[k] == s.results[k]))
  }

  lemma ActExtends(s: State, act: Action)
    requires Allowed(s, act)
    ensures Extends(s, Act(s, act))
  {
  }

  lemma StaysAskedFor(s: State, s': State, key: Option<Key>, amount: int)
    requires Extends(s, s') && AskedFor(s, key, amount)
    ensures AskedFor(s', key, amount)
  {
    var r :| r in s.requests && s.requests[r] == Message(key, amount);
    assert s'.requests[r] == Message(key, amount);
  }

  lemma SlotStays(s: State, act: Action, k: Key)
    requires LedgerOk(s) && Allowed(s, act) && k in s.results && SlotOk(s, k, s.results[k])
    ensures k in Act(s, act).results && SlotOk(Act(s, act), k, Act(s, act).results[k])
  {
    ActExtends(s, act);
    var slot := s.results[k];
    StaysAskedFor(s, Act(s, act), Some(k), if slot.Running? then slot.amount else slot.charge.amount);
  }

  lemma ActKeepsSlots(s: State, act: Action, k: Key)
    requires Inv(s) && Allowed(s, act) && k in Act(s, act).results
    ensures SlotOk(Act(s, act), k, Act(s, act).results[k])
  {
    if k in s.results {
      SlotStays(s, act, k);
    } else {
      assert HandlerOk(s, act.request, s.handlers[act.request]);
      assert Act(s, act).requests[act.request] == Message(Some(k), Act(s, act).results[k].amount);
    }
  }

  lemma StaysAnswered(s: State, s': State, msg: Message, charge: Charge)
    requires Extends(s, s') && Answers(s, msg, charge)
    ensures Answers(s', msg, charge)
  {
  }

  lemma HandlerStays(s: State, s': State, r: nat, h: Handler)
    requires Extends(s, s') && HandlerOk(s, r, h)
    ensures HandlerOk(s', r, h)
  {
    if h.Replied? || h.Dropped? { StaysAnswered(s, s', h.msg, h.charge); }
  }

  /** The handler a step moves on knows what it should. */
  lemma ActMovesHandler(s: State, act: Action)
    requires Inv(s) && Allowed(s, act)
    requires act.Arrive? || act.Begin? || act.ChargeAlone? || act.Resume?
    ensures HandlerOk(Act(s, act), act.request, Act(s, act).handlers[act.request])
  {
    var r := act.request;
    if !act.Arrive? { assert HandlerOk(s, r, s.handlers[r]); }
    if act.Resume? { assert SlotOk(s, s.handlers[r].msg.key.value, s.results[s.handlers[r].msg.key.value]); }
  }

  lemma ActKeepsHandlers(s: State, act: Action, r: nat)
    requires Inv(s) && Allowed(s, act) && r in Act(s, act).handlers
    ensures HandlerOk(Act(s, act), r, Act(s, act).handlers[r])
  {
    ActExtends(s, act);
    if r in s.handlers && Act(s, act).handlers[r] == s.handlers[r] {
      HandlerStays(s, Act(s, act), r, s.handlers[r]);
    } else {
      ActMovesHandler(s, act);
    }
  }

  lemma ActKeepsClients(s: State, act: Action, c: nat)
    requires Inv(s) && Allowed(s, act) && c in Act(s, act).clients
    ensures ClientOk(Act(s, act), Act(s, act).clients[c])
  {
    var s' := Act(s, act);
    ActExtends(s, act);
    if c in s.clients {
      assert ClientOk(s, s.clients[c]);
      if s.clients[c].Paid? { StaysAnswered(s, s', s.clients[c].msg, s.clients[c].charge); }
    }
    if act.Deliver? {
      var r := s.clients[act.client].request;
      assert HandlerOk(s, r, s.handlers[r]);
      assert ClientOk(s, s.clients[act.client]);
    }
  }

  ghost predicate LedgerOk(s: State) {
    && (forall i :: 0 <= i < |s.ledger| ==> s.ledger[i].number == i + 1)
    && (forall i :: 0 <= i < |s.ledger| && s.ledger[i].key.Some? ==>
          s.ledger[i].key.value in s.results && s.results[s.ledger[i].key.value] == Ready(s.ledger[i]))
  }

  lemma ActKeepsLedger(s: State, act: Action)
    requires Inv(s) && Allowed(s, act)
    ensures LedgerOk(Act(s, act))
  {
    var s' := Act(s, act);
    if act.ChargeKey? { assert SlotOk(s, act.key, s.results[act.key]); }
    forall i | 0 <= i < |s'.ledger| && s'.ledger[i].key.Some?
      ensures s'.ledger[i].key.value in s'.results && s'.results[s'.ledger[i].key.value] == Ready(s'.ledger[i])
    {
      if i < |s.ledger| { assert s'.ledger[i] == s.ledger[i]; }
    }
  }

  lemma ActKeepsInv(s: State, act: Action)
    requires Inv(s) && Allowed(s, act)
    ensures Inv(Act(s, act))
  {
    var s' := Act(s, act);
    ActKeepsLedger(s, act);
    forall k | k in s'.results ensures SlotOk(s', k, s'.results[k]) { ActKeepsSlots(s, act, k); }
    forall r | r in s'.handlers ensures HandlerOk(s', r, s'.handlers[r]) { ActKeepsHandlers(s, act, r); }
    forall c | c in s'.clients ensures ClientOk(s', s'.clients[c]) { ActKeepsClients(s, act, c); }
  }

  /** Along every run the invariant holds, the ledger only grows and a result once recorded stays. */
  lemma {:induction false} RunKeepsInv(s: State, acts: seq<Action>)
    requires Inv(s) && Legal(s, acts)
    ensures Inv(Run(s, acts)) && Extends(s, Run(s, acts))
    decreases |acts|
  {
    if acts != [] {
      ActKeepsInv(s, acts[0]);
      ActExtends(s, acts[0]);
      RunKeepsInv(Act(s, acts[0]), acts[1..]);
    }
  }

  // ---------------------------------------------------------------- The guarantees

  /** Over every interleaving: charge numbers are consecutive, no key is charged twice, and a key's only
      charge was asked for, amount and all. */
  lemma AtMostOneChargePerKey(acts: seq<Action>)
    requires Legal(START, acts)
    ensures var s := Run(START, acts);
      && (forall i :: 0 <= i < |s.ledger| ==> s.ledger[i].number == i + 1)
      && (forall i, j :: 0 <= i < j < |s.ledger| && s.ledger[i].key.Some? ==> s.ledger[i].key != s.ledger[j].key)
      && (forall i :: 0 <= i < |s.ledger| && s.ledger[i].key.Some? ==>
            AskedFor(s, s.ledger[i].key, s.ledger[i].amount))
  {
    RunKeepsInv(START, acts);
    var s := Run(START, acts);
    forall i | 0 <= i < |s.ledger| && s.ledger[i].key.Some?
      ensures AskedFor(s, s.ledger[i].key, s.ledger[i].amount)
    {
      assert SlotOk(s, s.ledger[i].key.value, s.results[s.ledger[i].key.value]);
    }
  }

  /** Every reply for a key, delivered or lost, and whatever two callers were told, is the one booked charge. */
  lemma RepliesAgree(acts: seq<Action>, r: nat, q: nat)
    requires Legal(START, acts)
    requires var s := Run(START, acts);
      && r in s.handlers && (s.handlers[r].Replied? || s.handlers[r].Dropped?)
      && q in s.handlers && (s.handlers[q].Replied? || s.handlers[q].Dropped?)
      && s.handlers[r].msg.key.Some? && s.handlers[r].msg.key == s.handlers[q].msg.key
    ensures var s := Run(START, acts);
      s.handlers[r].charge == s.handlers[q].charge && Booked(s, s.handlers[r].charge)
  {
    RunKeepsInv(START, acts);
    var s := Run(START, acts);
    assert HandlerOk(s, r, s.handlers[r]) && HandlerOk(s, q, s.handlers[q]);
  }

  /** A caller that paid with a key, at the first try or the second, paid exactly once: one entry of the ledger
      has the key, and it is the charge the caller was told of. */
  lemma PaidOnce(acts: seq<Action>, c: nat)
    requires Legal(START, acts)
    requires var s := Run(START, acts); c in s.clients && s.clients[c].Paid? && s.clients[c].msg.key.Some?
    ensures var s := Run(START, acts);
      var charge := s.clients[c].charge;
      && Booked(s, charge) && charge.key == s.clients[c].msg.key
      && forall i :: 0 <= i < |s.ledger| && s.ledger[i].key == charge.key ==> s.ledger[i] == charge
  {
    RunKeepsInv(START, acts);
    assert ClientOk(Run(START, acts), Run(START, acts).clients[c]);
  }

  /** The action has the caller send a request. */
  predicate Sends(s: State, act: Action, c: nat)
    requires Allowed(s, act)
  {
    ((act.Pay? || act.TimeOut?) && act.client == c) && act.request in Act(s, act).requests
  }

  /** How many requests the caller sends in a run. */
  function Sent(s: State, acts: seq<Action>, c: nat): nat
    requires Legal(s, acts)
    decreases |acts|
  {
    if acts == [] then 0 else (if Sends(s, acts[0], c) then 1 else 0) + Sent(Act(s, acts[0]), acts[1..], c)
  }

  /** The requests a caller may still send. */
  function TriesLeft(s: State, c: nat): nat {
    if c !in s.clients then 2 else if s.clients[c].Asked? && s.clients[c].attempt == 1 then 1 else 0
  }

  lemma {:induction false} TriesRunOut(s: State, acts: seq<Action>, c: nat)
    requires Legal(s, acts)
    ensures Sent(s, acts, c) <= TriesLeft(s, c)
    decreases |acts|
  {
    if acts != [] { TriesRunOut(Act(s, acts[0]), acts[1..], c); }
  }

  /** Nobody asks more than twice, and the second time for the same. */
  lemma TwoTriesAtMost(acts: seq<Action>, c: nat)
    requires Legal(START, acts)
    ensures Sent(START, acts, c) <= 2
    ensures forall r: nat :: Allowed(Run(START, acts), TimeOut(c, r)) ==>
              var s := Run(START, acts);
              var s' := Act(s, TimeOut(c, r));
              s'.clients[c].msg == s.clients[c].msg && (r in s'.requests ==> s'.requests[r] == s.clients[c].msg)
  {
    TriesRunOut(START, acts, c);
  }

  /** The charge is booked, its reply is lost, and the caller is still waiting. */
  function ReplyLost(amount: int): State {
    var msg := Message(None, amount);
    var first := Charge(1, amount, None);
    START.(ledger := [first], clients := map[0 := Asked(msg, 0, 1)], requests := map[0 := msg],
           handlers := map[0 := Dropped(msg, first)])
  }

  function PaidAgain(amount: int): State {
    var msg := Message(None, amount);
    var first, second := Charge(1, amount, None), Charge(2, amount, None);
    ReplyLost(amount).(ledger := [first, second], requests := map[0 := msg, 1 := msg], clients := map[0 := Paid(msg, second)],
                       handlers := map[0 := Dropped(msg, first), 1 := Replied(msg, second)])
  }

  lemma RetryPays(amount: int) returns (acts: seq<Action>)
    ensures Legal(ReplyLost(amount), acts) && Run(ReplyLost(amount), acts) == PaidAgain(amount)
  {
    var msg := Message(None, amount);
    var first, second := Charge(1, amount, None), Charge(2, amount, None);
    var s5, s10 := ReplyLost(amount), PaidAgain(amount);
    var s6 := s5.(clients := map[0 := Asked(msg, 1, 2)], requests := map[0 := msg, 1 := msg]);
    var s7 := s6.(handlers := map[0 := Dropped(msg, first), 1 := Received(msg)]);
    var s8 := s7.(handlers := map[0 := Dropped(msg, first), 1 := Charging(msg)]);
    var s9 := s8.(ledger := [first, second], handlers := map[0 := Dropped(msg, first), 1 := Replied(msg, second)]);
    acts := [];
    Prepend(s9, Deliver(0), s10, acts, s10);      acts := [Deliver(0)] + acts;
    Prepend(s8, ChargeAlone(1), s9, acts, s10);   acts := [ChargeAlone(1)] + acts;
    Prepend(s7, Begin(1), s8, acts, s10);         acts := [Begin(1)] + acts;
    Prepend(s6, Arrive(1), s7, acts, s10);        acts := [Arrive(1)] + acts;
    Prepend(s5, TimeOut(0, 1), s6, acts, s10);    acts := [TimeOut(0, 1)] + acts;
  }

  /** Without a key the retry is new work: a lost reply makes the customer pay twice. */
  lemma WithoutAKeyTwice(amount: int) returns (acts: seq<Action>)
    ensures Legal(START, acts)
    ensures var s := Run(START, acts);
      && |s.ledger| == 2 && s.ledger[0].amount == s.ledger[1].amount == amount
      && s.clients == map[0 := Paid(Message(None, amount), Charge(2, amount, None))]
  {
    var msg, s10 := Message(None, amount), PaidAgain(amount);
    var s1 := START.(dropNextReply := true);
    var s2 := s1.(clients := map[0 := Asked(msg, 0, 1)], requests := map[0 := msg]);
    var s3 := s2.(handlers := map[0 := Received(msg)]);
    var s4 := s3.(handlers := map[0 := Charging(msg)]);
    acts := RetryPays(amount);
    Prepend(s4, ChargeAlone(0), ReplyLost(amount), acts, s10);  acts := [ChargeAlone(0)] + acts;
    Prepend(s3, Begin(0), s4, acts, s10);                       acts := [Begin(0)] + acts;
    Prepend(s2, Arrive(0), s3, acts, s10);                      acts := [Arrive(0)] + acts;
    Prepend(s1, Pay(0, msg, 0), s2, acts, s10);                 acts := [Pay(0, msg, 0)] + acts;
    Prepend(START, LoseNextReply, s1, acts, s10);               acts := [LoseNextReply] + acts;
  }

  lemma Prepend(s: State, act: Action, next: State, acts: seq<Action>, end: State)
    requires Allowed(s, act) && Act(s, act) == next
    requires Legal(next, acts) && Run(next, acts) == end
    ensures Legal(s, [act] + acts) && Run(s, [act] + acts) == end
  {
    assert ([act] + acts)[1..] == acts;
  }
}

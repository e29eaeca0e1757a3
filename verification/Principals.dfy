/** Whom a piece of work is for: three context variables that scopes set on entry and reset on exit. */
module Principals {
  import opened Wrappers
  import opened Text

  type Terms = map<string, string>
  type Grant = map<string, Terms>

  /** What a context variable can hold, besides None. */
  datatype Value = Person(name: string) | Mandate(terms: Terms) | Scopes(grant: Grant)

  datatype Principal = Principal(person: Option<Value>, mandate: Option<Value>, scopes: Option<Value>)

  datatype Variable = ActingFor | MandateVar | ScopesVar

  /** `ContextVar.set` returns one: the variable, and what it held before. */
  datatype Token = Token(variable: Variable, before: Option<Value>)

  // ---------------------------------------------------------------- What scopes are given

  datatype OnBehalfOf = OnBehalfOf(person: string, mandate: Option<Terms>, scopes: Option<Grant>)

  datatype Who =
    | NoOne
    | Key(key: string)
    | Holder(behalf: OnBehalfOf)
    | APerson(personKey: string)
    | SomethingElse

  datatype Delegated = NothingDelegated | Dict(terms: Terms) | NotADict

  /** A grant, as `parse_grant` reads it; `Unreadable` is one it refuses. */
  datatype Held = NothingHeld | Readable(grant: Grant) | Unreadable

  datatype Request = Request(person: string, delegated: Delegated, held: Held)

  /** What `act_for` is asked for, once `person` is resolved; None when resolving raises. */
  function Resolve(who: Who, delegated: Delegated, held: Held): Option<Request> {
    match who
    case NoOne => Some(Request("", delegated, held))
    case Key(key) => Some(Request(key, delegated, held))
    case Holder(b) =>
      Some(Request(b.person,
                   if delegated.NothingDelegated? && b.mandate.Some? then Dict(b.mandate.value) else delegated,
                   if held.NothingHeld? && b.scopes.Some? then Readable(b.scopes.value) else held))
    case APerson(key) => if Strip(key) == "" then None else Some(Request(Strip(key), delegated, held))
    case SomethingElse => None
  }

  function MandateOf(delegated: Delegated): Option<Value> {
    if delegated.Dict? then Some(Mandate(delegated.terms)) else None
  }

  function ScopesOf(held: Held): Option<Value> {
    if held.Readable? then Some(Scopes(held.grant)) else None
  }

  /** The principal inside `act_for`, when outside it is `p`; None when entering raises. */
  function Entered(who: Who, delegated: Delegated, held: Held, p: Principal): Option<Principal> {
    var asked := Resolve(who, delegated, held);
    if asked.None? || asked.value.held.Unreadable? then None
    else if asked.value.person != "" then
      Some(Principal(Some(Person(asked.value.person)), MandateOf(asked.value.delegated), ScopesOf(asked.value.held)))
    else if asked.value.delegated.Dict? then Some(p.(mandate := MandateOf(asked.value.delegated)))
    else Some(p)
  }

  // ---------------------------------------------------------------- Records

  type Record = Option<map<string, Value>>

  function Entry(key: string, value: Option<Value>): map<string, Value> {
    if value.Some? then map[key := value.value] else map[]
  }

  /** `registered()`: the variables that are set, or None when none is. */
  function Registered(p: Principal): Record {
    var found := Entry("acting_for", p.person) + Entry("mandate", p.mandate) + Entry("scopes", p.scopes);
    if found == map[] then None else Some(found)
  }

  function Get(record: Record, key: string): Option<Value> {
    if record.Some? && key in record.value then Some(record.value[key]) else None
  }

  /** The principal `as_registered(record)` sets. */
  function Reinstated(record: Record): Principal {
    Principal(Get(record, "acting_for"), Get(record, "mandate"), Get(record, "scopes"))
  }

  /** Nothing about a principal is lost in its record. */
  lemma RecordsReinstate(p: Principal)
    ensures Reinstated(Registered(p)) == p
    ensures Registered(p) == None <==> p == Principal(None, None, None)
  {
    var found := Entry("acting_for", p.person) + Entry("mandate", p.mandate) + Entry("scopes", p.scopes);
    assert "acting_for" != "mandate" && "acting_for" != "scopes" && "mandate" != "scopes";
    assert "acting_for" in found <==> p.person.Some?;
    assert "mandate" in found <==> p.mandate.Some?;
    assert "scopes" in found <==> p.scopes.Some?;
  }

  // ---------------------------------------------------------------- Work, and what it means

  /** Any nesting of scopes, with exceptions raised and caught anywhere. */
  datatype Work =
    | Done
    | Fail
    | Look                                                          // reads the three variables
    | Keep                                                          // keeps `registered()` for later
    | Then(first: Work, second: Work)
    | Rescue(body: Work, handler: Work)
    | InActFor(who: Who, delegated: Delegated, held: Held, body: Work)
    | InRecord(record: Record, body: Work)
    | InKept(index: nat, body: Work)                                // `as_registered` of a kept record

  datatype Trace = Trace(seen: seq<Principal>, kept: seq<Principal>, raised: bool)

  /** What work does when its principal is simply handed down: no variable is ever set or reset. */
  function Meaning(work: Work, p: Principal, kept: seq<Principal>): Trace
    decreases work
  {
    match work
    case Done => Trace([], kept, false)
    case Fail => Trace([], kept, true)
    case Look => Trace([p], kept, false)
    case Keep => Trace([], kept + [p], false)
    case Then(first, second) =>
      var one := Meaning(first, p, kept);
      if one.raised then one
      else var two := Meaning(second, p, one.kept); two.(seen := one.seen + two.seen)
    case Rescue(body, handler) =>
      var one := Meaning(body, p, kept);
      if !one.raised then one
      else var two := Meaning(handler, p, one.kept); two.(seen := one.seen + two.seen)
    case InActFor(who, delegated, held, body) =>
      var inner := Entered(who, delegated, held, p);
      if inner.None? then Trace([], kept, true) else Meaning(body, inner.value, kept)
    case InRecord(record, body) => Meaning(body, Reinstated(record), kept)
    case InKept(index, body) =>
      if index < |kept| then Meaning(body, kept[index], kept) else Trace([], kept, true)
  }

  function RecordsOf(kept: seq<Principal>): seq<Record> {
    seq(|kept|, i requires 0 <= i < |kept| => Registered(kept[i]))
  }

  // ---------------------------------------------------------------- The variables themselves

  /** The running task: its three variables, what it has looked up, and the records it keeps. */
  class Context {
    var actingFor: Option<Value>
    var mandate: Option<Value>
    var scopes: Option<Value>
    var seen: seq<Principal>
    var records: seq<Record>

    function Current(): Principal
      reads this
    {
      Principal(actingFor, mandate, scopes)
    }

    constructor ()
      ensures Current() == Principal(None, None, None) && seen == [] && records == []
    {
      actingFor, mandate, scopes, seen, records := None, None, None, [], [];
    }

    /** `ContextVar.set`. */
    method Assign(variable: Variable, value: Option<Value>) returns (token: Token)
      modifies this`actingFor, this`mandate, this`scopes
      ensures Current() == With(old(Current()), variable, value)
      ensures token == Token(variable, Holding(old(Current()), variable))
    {
      match variable {
        case ActingFor => token := Token(ActingFor, actingFor); actingFor := value;
        case MandateVar => token := Token(MandateVar, mandate); mandate := value;
        case ScopesVar => token := Token(ScopesVar, scopes); scopes := value;
      }
    }

    /** The `finally` of both scopes: the last variable set is the first reset. */
    method Restore(tokens: seq<Token>)
      modifies this`actingFor, this`mandate, this`scopes
      ensures Current() == Undone(old(Current()), tokens)
    {
      var i := |tokens|;
      assert tokens[..i] == tokens;
      while i > 0
        invariant 0 <= i <= |tokens|
        invariant Undone(Current(), tokens[..i]) == Undone(old(Current()), tokens)
      {
        i := i - 1;
        assert tokens[..i + 1][..i] == tokens[..i];
        var unused := Assign(tokens[i].variable, tokens[i].before);
      }
    }

    /** The head of `as_registered`. */
    method EnterRecord(record: Record) returns (tokens: seq<Token>)
      modifies this`actingFor, this`mandate, this`scopes
      ensures Current() == Reinstated(record) && Undone(Current(), tokens) == old(Current())
    {
      var first := Assign(ActingFor, Get(record, "acting_for"));
      var second := Assign(MandateVar, Get(record, "mandate"));
      var third := Assign(ScopesVar, Get(record, "scopes"));
      tokens := [first, second, third];
      UndoThree(Current(), first, second, third);
    }

    /** The head of `act_for`: the variables it sets, or an exception before it sets any. */
    method EnterActFor(who: Who, delegated: Delegated, held: Held) returns (raised: bool, tokens: seq<Token>)
      modifies this`actingFor, this`mandate, this`scopes
      ensures Undone(Current(), tokens) == old(Current())
      ensures var inner := Entered(who, delegated, held, old(Current()));
        if inner.None? then raised && tokens == [] else !raised && Current() == inner.value
      ensures who.NoOne? && !held.Unreadable? ==>
                Current() == if delegated.Dict? then old(Current()).(mandate := Some(Mandate(delegated.terms))) else old(Current())
    {
      raised, tokens := false, [];
      var asked := Resolve(who, delegated, held);
      if asked.None? || asked.value.held.Unreadable? { return true, []; }
      var Request(person, terms, grant) := asked.value;
      if person != "" {
        var first := Assign(ActingFor, Some(Person(person)));
        var second := Assign(MandateVar, MandateOf(terms));
        var third := Assign(ScopesVar, ScopesOf(grant));
        tokens := [first, second, third];
        UndoThree(Current(), first, second, third);
      } else if terms.Dict? {
        var only := Assign(MandateVar, MandateOf(terms));
        tokens := [only];
        UndoOne(Current(), only);
      }
    }

    /** Setting and resetting the shared variables does what handing the principal down would: whatever the
        work nests, and however it ends, the variables are back at what they were, every look-up saw the
        principal of its own scope, and every kept record brings back exactly the principal it was taken of. */
    method Perform(work: Work, ghost kept: seq<Principal>) returns (raised: bool)
      requires records == RecordsOf(kept)
      modifies this
      decreases work
      ensures Current() == old(Current())
      ensures var done := Meaning(work, old(Current()), kept);
        && raised == done.raised
        && seen == old(seen) + done.seen
        && records == RecordsOf(done.kept)
    {
      raised := false;
      match work {
        case Done =>
        case Fail =>
          raised := true;
        case Look =>
          seen := seen + [Current()];
        case Keep =>
          records := records + [Registered(Current())];
        case Then(first, second) =>
          raised := Perform(first, kept);
          if !raised {
            raised := Perform(second, Meaning(first, old(Current()), kept).kept);
          }
        case Rescue(body, handler) =>
          raised := Perform(body, kept);
          if raised {
            raised := Perform(handler, Meaning(body, old(Current()), kept).kept);
          }
        case InActFor(who, delegated, held, body) =>
          var refused, tokens := EnterActFor(who, delegated, held);
          if refused { return true; }
          raised := Perform(body, kept);
          Restore(tokens);
        case InRecord(record, body) =>
          var tokens := EnterRecord(record);
          raised := Perform(body, kept);
          Restore(tokens);
        case InKept(index, body) =>
          if index >= |records| { return true; }
          RecordsReinstate(kept[index]);
          var tokens := EnterRecord(records[index]);
          raised := Perform(body, kept);
          Restore(tokens);
      }
    }
  }

  function With(p: Principal, variable: Variable, value: Option<Value>): Principal {
    match variable
    case ActingFor => p.(person := value)
    case MandateVar => p.(mandate := value)
    case ScopesVar => p.(scopes := value)
  }

  function Holding(p: Principal, variable: Variable): Option<Value> {
    match variable
    case ActingFor => p.person
    case MandateVar => p.mandate
    case ScopesVar => p.scopes
  }

  /** The variables after every token is reset, the last one first. */
  function Undone(p: Principal, tokens: seq<Token>): Principal
    decreases |tokens|
  {
    if tokens == [] then p
    else var last := tokens[|tokens| - 1]; Undone(With(p, last.variable, last.before), tokens[..|tokens| - 1])
  }

  lemma UndoOne(p: Principal, only: Token)
    ensures Undone(p, [only]) == With(p, only.variable, only.before)
  {
    assert [only][..0] == [];
  }

  lemma UndoThree(p: Principal, first: Token, second: Token, third: Token)
    ensures Undone(p, [first, second, third]) ==
            With(With(With(p, third.variable, third.before), second.variable, second.before), first.variable, first.before)
  {
    assert [first, second, third][..2] == [first, second];
    assert [first, second][..1] == [first];
    UndoOne(With(With(p, third.variable, third.before), second.variable, second.before), first);
  }

  // ---------------------------------------------------------------- Whose work is seen

  predicate NamesSomeone(who: Who, delegated: Delegated, held: Held) {
    var asked := Resolve(who, delegated, held);
    asked.Some? && asked.value.person != ""
  }

  datatype Pair = Pair(person: Option<Value>, scopes: Option<Value>)

  function PairOf(p: Principal): Pair {
    Pair(p.person, p.scopes)
  }

  /** The people, each with their own scopes, whom some scope of the work names. */
  function Named(work: Work): set<Pair> {
    match work
    case Then(first, second) => Named(first) + Named(second)
    case Rescue(body, handler) => Named(body) + Named(handler)
    case InActFor(who, delegated, held, body) =>
      (if NamesSomeone(who, delegated, held) && !Resolve(who, delegated, held).value.held.Unreadable? then
         var asked := Resolve(who, delegated, held).value;
         {Pair(Some(Person(asked.person)), ScopesOf(asked.held))}
       else {}) + Named(body)
    case InRecord(record, body) => {PairOf(Reinstated(record))} + Named(body)
    case InKept(_, body) => Named(body)
    case _ => {}
  }

  predicate AllIn(them: seq<Principal>, allowed: set<Pair>) {
    forall p :: p in them ==> PairOf(p) in allowed
  }

  /** Nobody is ever seen with someone else's scopes: each look-up shows a person together with the scopes
      that the outer work, a kept record or the scope naming that very person gave them. */
  lemma {:induction false} ScopesStayWithTheirPerson(work: Work, p: Principal, kept: seq<Principal>, allowed: set<Pair>)
    requires PairOf(p) in allowed && AllIn(kept, allowed) && Named(work) <= allowed
    ensures AllIn(Meaning(work, p, kept).seen, allowed) && AllIn(Meaning(work, p, kept).kept, allowed)
    decreases work
  {
    match work {
      case Done => case Fail => case Look => case Keep =>
      case Then(first, second) =>
        ScopesStayWithTheirPerson(first, p, kept, allowed);
        ScopesStayWithTheirPerson(second, p, Meaning(first, p, kept).kept, allowed);
      case Rescue(body, handler) =>
        ScopesStayWithTheirPerson(body, p, kept, allowed);
        ScopesStayWithTheirPerson(handler, p, Meaning(body, p, kept).kept, allowed);
      case InActFor(who, delegated, held, body) =>
        var inner := Entered(who, delegated, held, p);
        if inner.Some? {
          assert PairOf(inner.value) in allowed;
          ScopesStayWithTheirPerson(body, inner.value, kept, allowed);
        }
      case InRecord(record, body) =>
        ScopesStayWithTheirPerson(body, Reinstated(record), kept, allowed);
      case InKept(index, body) =>
        if index < |kept| { ScopesStayWithTheirPerson(body, kept[index], kept, allowed); }
    }
  }

  /** The mandates, or their absence, that the scopes of the work give. */
  function MandatesGiven(work: Work): set<Option<Value>> {
    match work
    case Then(first, second) => MandatesGiven(first) + MandatesGiven(second)
    case Rescue(body, handler) => MandatesGiven(body) + MandatesGiven(handler)
    case InActFor(who, delegated, held, body) =>
      var asked := Resolve(who, delegated, held);
      (if asked.Some? && (asked.value.person != "" || asked.value.delegated.Dict?) then {MandateOf(asked.value.delegated)}
       else {}) + MandatesGiven(body)
    case InRecord(record, body) => {Reinstated(record).mandate} + MandatesGiven(body)
    case InKept(_, body) => MandatesGiven(body)
    case _ => {}
  }

  predicate MandatesIn(them: seq<Principal>, allowed: set<Option<Value>>) {
    forall p :: p in them ==> p.mandate in allowed
  }

  lemma {:induction false} MandatesAreGiven(work: Work, p: Principal, kept: seq<Principal>, allowed: set<Option<Value>>)
    requires p.mandate in allowed && MandatesIn(kept, allowed) && MandatesGiven(work) <= allowed
    ensures MandatesIn(Meaning(work, p, kept).seen, allowed) && MandatesIn(Meaning(work, p, kept).kept, allowed)
    decreases work
  {
    match work {
      case Done => case Fail => case Look => case Keep =>
      case Then(first, second) =>
        MandatesAreGiven(first, p, kept, allowed);
        MandatesAreGiven(second, p, Meaning(first, p, kept).kept, allowed);
      case Rescue(body, handler) =>
        MandatesAreGiven(body, p, kept, allowed);
        MandatesAreGiven(handler, p, Meaning(body, p, kept).kept, allowed);
      case InActFor(who, delegated, held, body) =>
        var inner := Entered(who, delegated, held, p);
        if inner.Some? {
          assert inner.value.mandate in allowed;
          MandatesAreGiven(body, inner.value, kept, allowed);
        }
      case InRecord(record, body) =>
        MandatesAreGiven(body, Reinstated(record), kept, allowed);
      case InKept(index, body) =>
        if index < |kept| { MandatesAreGiven(body, kept[index], kept, allowed); }
    }
  }

  /** A scope that names someone hides the outer principal: the work in it is the same whoever is outside, and no
      look-up in it, however deep, shows the outer person with their scopes, or the outer mandate, unless the work
      itself or a record kept before gives them again. */
  lemma NamingReplacesThePrincipal(who: Who, delegated: Delegated, held: Held, body: Work,
                                   outer: Principal, other: Principal, kept: seq<Principal>, q: Principal)
    requires NamesSomeone(who, delegated, held)
    ensures var work := InActFor(who, delegated, held, body);
      && Meaning(work, outer, kept) == Meaning(work, other, kept)
      && (q in Meaning(work, outer, kept).seen ==>
            && (PairOf(q) in Named(work) || exists k :: k in kept && PairOf(k) == PairOf(q))
            && (q.mandate in MandatesGiven(work) || exists k :: k in kept && k.mandate == q.mandate))
  {
    var work := InActFor(who, delegated, held, body);
    assert Entered(who, delegated, held, outer) == Entered(who, delegated, held, other);
    var pairs := Named(work) + set k | k in kept :: PairOf(k);
    var mandates := MandatesGiven(work) + set k | k in kept :: k.mandate;
    var inner := Entered(who, delegated, held, outer);
    if inner.Some? {
      assert PairOf(inner.value) in Named(work) && inner.value.mandate in MandatesGiven(work);
      ScopesStayWithTheirPerson(body, inner.value, kept, pairs);
      MandatesAreGiven(body, inner.value, kept, mandates);
    }
  }

  /** A mandate delegated to nobody in particular takes the outer one's place: the work is the same whatever mandate
      is outside, and no look-up in it, however deep, shows the outer mandate unless the work itself or a record
      kept before gives it again. */
  lemma NarrowingHidesTheMandate(who: Who, terms: Terms, held: Held, body: Work,
                                 p: Principal, m: Option<Value>, kept: seq<Principal>, q: Principal)
    ensures var work := InActFor(who, Dict(terms), held, body);
      && Meaning(work, p, kept) == Meaning(work, p.(mandate := m), kept)
      && (q in Meaning(work, p, kept).seen ==>
            || q.mandate == Some(Mandate(terms)) || q.mandate in MandatesGiven(body)
            || exists k :: k in kept && k.mandate == q.mandate)
  {
    assert Entered(who, Dict(terms), held, p) == Entered(who, Dict(terms), held, p.(mandate := m));
    var inner := Entered(who, Dict(terms), held, p);
    if inner.Some? {
      assert inner.value.mandate == Some(Mandate(terms));
      MandatesAreGiven(body, inner.value, kept, {Some(Mandate(terms))} + MandatesGiven(body) + set k | k in kept :: k.mandate);
    }
  }

  /** A reinstated record replaces the whole principal: the work is the same whoever is outside, and a record of
      nothing shows nobody. */
  lemma RecordsHideThePrincipal(record: Record, body: Work, p: Principal, other: Principal, kept: seq<Principal>)
    ensures Meaning(InRecord(record, body), p, kept) == Meaning(InRecord(record, body), other, kept)
    ensures Meaning(InRecord(None, Look), p, kept).seen == [Principal(None, None, None)]
    ensures Meaning(InRecord(Registered(other), body), p, kept) == Meaning(body, other, kept)
  {
    RecordsReinstate(other);
  }

  lemma KeptRecordsShow(index: nat, body: Work, p: Principal, kept: seq<Principal>)
    requires index < |kept|
    ensures Meaning(InKept(index, body), p, kept) == Meaning(body, kept[index], kept)
  {
  }

  lemma KeepKeeps(p: Principal, kept: seq<Principal>, rest: Work)
    ensures Meaning(Then(Keep, rest), p, kept) == Meaning(rest, p, kept + [p])
  {
  }

  /** Work in a record just kept, however far from where it was kept, is work where it was kept. */
  lemma KeptWorkIsWorkThere(record: Record, body: Work, p: Principal, kept: seq<Principal>)
    ensures Meaning(Then(Keep, InRecord(record, InKept(|kept|, body))), p, kept) == Meaning(body, p, kept + [p])
  {
    KeepKeeps(p, kept, InRecord(record, InKept(|kept|, body)));
    KeptRecordsShow(|kept|, body, Reinstated(record), kept + [p]);
  }

  /** A scope that is given neither a person nor a mandate changes nothing. */
  lemma EmptyScopesAreTransparent(who: Who, delegated: Delegated, held: Held, body: Work, p: Principal, kept: seq<Principal>)
    requires who == NoOne || who == Key("") || (who.Holder? && who.behalf.person == "" && who.behalf.mandate == None)
    requires !delegated.Dict? && !held.Unreadable?
    ensures Meaning(InActFor(who, delegated, held, body), p, kept) == Meaning(body, p, kept)
  {
  }

  /** What a look-up right inside a scope that names someone shows: the person under their key, with the mandate
      and the grant given to the scope, or else those the person's `OnBehalfOf` carries; nothing else of the outside. */
  lemma NamedScopesShow(who: Who, delegated: Delegated, held: Held, p: Principal, kept: seq<Principal>)
    requires !held.Unreadable?
    ensures var seen := Meaning(InActFor(who, delegated, held, Look), p, kept).seen;
      var terms := if delegated.Dict? then Some(Mandate(delegated.terms)) else None;
      var grant := if held.Readable? then Some(Scopes(held.grant)) else None;
      match who
      case Key(key) => key != "" ==> seen == [Principal(Some(Person(key)), terms, grant)]
      case APerson(key) => Strip(key) != "" ==> seen == [Principal(Some(Person(Strip(key))), terms, grant)]
      case Holder(OnBehalfOf(person, own, rights)) => person != "" ==>
        seen == [Principal(Some(Person(person)),
                           if delegated == NothingDelegated && own.Some? then Some(Mandate(own.value)) else terms,
                           if held == NothingHeld && rights.Some? then Some(Scopes(rights.value)) else grant)]
      case _ => true
  {
  }

  /** A scope that cannot tell who is meant, or cannot read the grant, raises before its work begins. */
  lemma UnclearScopesRaise(who: Who, delegated: Delegated, held: Held, body: Work, p: Principal, kept: seq<Principal>)
    requires who == SomethingElse || held.Unreadable? || (who.APerson? && Strip(who.personKey) == "")
    ensures Meaning(InActFor(who, delegated, held, body), p, kept) == Trace([], kept, true)
  {
  }

  /** Work in which no scope names anyone and no record is reinstated. */
  predicate OnlyNarrows(work: Work) {
    match work
    case Then(first, second) => OnlyNarrows(first) && OnlyNarrows(second)
    case Rescue(body, handler) => OnlyNarrows(body) && OnlyNarrows(handler)
    case InActFor(who, delegated, held, body) => !NamesSomeone(who, delegated, held) && OnlyNarrows(body)
    case InRecord(_, _) => false
    case InKept(_, _) => false
    case _ => true
  }

  /** Mandates the work's own scopes delegate. */
  function Delegations(work: Work): set<Terms> {
    match work
    case Then(first, second) => Delegations(first) + Delegations(second)
    case Rescue(body, handler) => Delegations(body) + Delegations(handler)
    case InActFor(who, delegated, held, body) =>
      var asked := Resolve(who, delegated, held);
      (if asked.Some? && asked.value.delegated.Dict? then {asked.value.delegated.terms} else {}) + Delegations(body)
    case _ => {}
  }

  /** With no person named, a scope changes the mandate alone, and only to what it delegates: the work is still
      seen to be for the same person, with the same scopes. */
  lemma {:induction false} NarrowingKeepsThePerson(work: Work, p: Principal, kept: seq<Principal>, q: Principal)
    requires OnlyNarrows(work) && q in Meaning(work, p, kept).seen
    ensures PairOf(q) == PairOf(p)
    ensures q.mandate == p.mandate || exists terms :: terms in Delegations(work) && q.mandate == Some(Mandate(terms))
    decreases work
  {
    match work {
      case Look =>
      case Then(first, second) =>
        if q in Meaning(first, p, kept).seen { NarrowingKeepsThePerson(first, p, kept, q); }
        else { NarrowingKeepsThePerson(second, p, Meaning(first, p, kept).kept, q); }
      case Rescue(body, handler) =>
        if q in Meaning(body, p, kept).seen { NarrowingKeepsThePerson(body, p, kept, q); }
        else { NarrowingKeepsThePerson(handler, p, Meaning(body, p, kept).kept, q); }
      case InActFor(who, delegated, held, body) =>
        var inner := Entered(who, delegated, held, p).value;
        NarrowingKeepsThePerson(body, inner, kept, q);
        assert inner.mandate == p.mandate || inner.mandate == MandateOf(Resolve(who, delegated, held).value.delegated);
    }
  }
}

/** Connections per person: what the authentication manager holds between its awaits. */
module ConnectionManager {
  import opened Wrappers

  datatype Slot = Slot(person: string, provider: string)

  datatype Strategy = Strategy(secret: string, expiresAt: Option<int>)

  datatype Key = Key(connection: string, person: string)

  datatype Cached = Cached(strategy: Strategy, at: int)

  /** The manager's fields. A person's dictionary and set are the entries here with their name. */
  datatype Store = Store(connections: map<Slot, string>, attention: set<Slot>,
                         discovered: map<string, Slot>, cache: map<Key, Cached>)

  const NOTHING_KNOWN := Store(map[], {}, map[], map[])

  /** Who the deployment itself is, and for how long a credential may be served from the cache. */
  datatype Deployment = Deployment(user: string, ttl: int)

  // ---------------------------------------------------------------- Handles

  /** The handle of a connection found at the gateway: the deployment's own carry no person. */
  function HandleOf(user: string, slot: Slot): string {
    if slot.person == user then "resolved:" + slot.provider
    else "resolved:" + slot.person + ":" + slot.provider
  }

  predicate EndsWith(s: string, tail: string) {
    |tail| <= |s| && s[|s| - |tail|..] == tail
  }

  /** No provider's name is another's after a colon. */
  ghost predicate Apart(providers: iset<string>) {
    forall p, q :: p in providers && q in providers ==> !EndsWith(p, ":" + q)
  }

  /** Each handle names one person and one provider. */
  ghost predicate HandlesIdentify(user: string, providers: iset<string>) {
    forall a: Slot, b: Slot ::
      (a.provider in providers && b.provider in providers && HandleOf(user, a) == HandleOf(user, b)) ==> a == b
  }

  lemma TailOfProvider(a: Slot, b: Slot)
    requires a.person + ":" + a.provider == b.person + ":" + b.provider
    requires |a.provider| > |b.provider|
    ensures EndsWith(a.provider, ":" + b.provider)
  {
    var s, k := a.person + ":" + a.provider, |a.provider| - |b.provider| - 1;
    var t := b.person + ":" + b.provider;
    assert s[|a.person| + 1..] == a.provider;
    assert t[|b.person|..] == ":" + b.provider;
    assert |a.person| + 1 + k == |b.person|;
    assert s[|a.person| + 1..][k..] == s[|b.person|..];
  }

  lemma SameTail(a: Slot, b: Slot)
    requires a.person + ":" + a.provider == b.person + ":" + b.provider
    requires |a.provider| == |b.provider|
    ensures a == b
  {
    var s, t := a.person + ":" + a.provider, b.person + ":" + b.provider;
    assert s[..|a.person|] == a.person && t[..|b.person|] == b.person;
    assert s[|a.person| + 1..] == a.provider && t[|b.person| + 1..] == b.provider;
  }

  lemma OwnHandle(user: string, a: Slot, b: Slot)
    requires HandleOf(user, a) == HandleOf(user, b) && a.person == user && b.person != user
    ensures EndsWith(a.provider, ":" + b.provider)
  {
    var s, t := HandleOf(user, a), HandleOf(user, b);
    assert s[9..] == a.provider;
    assert t[9..] == b.person + ":" + b.provider;
    assert a.provider[|b.person|..] == ":" + b.provider;
  }

  lemma PairsMeet(user: string, a: Slot, b: Slot)
    requires HandleOf(user, a) == HandleOf(user, b)
    ensures a == b || EndsWith(a.provider, ":" + b.provider) || EndsWith(b.provider, ":" + a.provider)
  {
    var s, t := HandleOf(user, a), HandleOf(user, b);
    if a.person == user && b.person == user {
      assert s[9..] == a.provider && t[9..] == b.provider;
    } else if a.person == user {
      OwnHandle(user, a, b);
    } else if b.person == user {
      OwnHandle(user, b, a);
    } else {
      assert s[9..] == a.person + ":" + a.provider;
      assert t[9..] == b.person + ":" + b.provider;
      if |a.provider| > |b.provider| { TailOfProvider(a, b); }
      else if |a.provider| < |b.provider| { TailOfProvider(b, a); }
      else { SameTail(a, b); }
    }
  }

  /** Handles name their person and provider exactly when no provider is another's name after a colon;
      providers without colons are such. */
  lemma HandlesIdentifyExactly(user: string, providers: iset<string>)
    ensures HandlesIdentify(user, providers) <==> Apart(providers)
    ensures (forall p :: p in providers ==> ':' !in p) ==> Apart(providers)
  {
    if Apart(providers) {
      forall a: Slot, b: Slot
        | a.provider in providers && b.provider in providers && HandleOf(user, a) == HandleOf(user, b)
        ensures a == b
      {
        PairsMeet(user, a, b);
      }
    }
    forall p, q | p in providers && q in providers && EndsWith(p, ":" + q)
      ensures !HandlesIdentify(user, providers) && ':' in p
    {
      var x := p[..|p| - |q| - 1];
      assert p == x + (":" + q);
      assert p[|x|] == ':';
      var a, b := Slot(user + "+", p), Slot(user + "+" + ":" + x, q);
      assert HandleOf(user, a) == HandleOf(user, b);
    }
  }

  // ---------------------------------------------------------------- What each section does

  function SlotsHolding(s: Store, connection: string): set<Slot> {
    set slot | slot in s.connections && s.connections[slot] == connection
  }

  function Forgotten(s: Store, connection: string): Store {
    s.(cache := map key | key in s.cache && key.connection != connection :: s.cache[key])
  }

  /** `_connection_needs_attention`. */
  function Withdrawn(s: Store, connection: string): Store {
    var held := SlotsHolding(s, connection);
    Forgotten(s.(connections := s.connections - held, attention := s.attention + held), connection)
  }

  /** The end of `discover`. */
  function Discovered(s: Store, user: string, slot: Slot): Store {
    var handle := HandleOf(user, slot);
    s.(connections := s.connections[slot := handle], discovered := s.discovered[handle := slot],
       attention := s.attention - {slot})
  }

  /** The end of `authenticate`. */
  function Connected(s: Store, slot: Slot, connection: string): Store {
    s.(connections := s.connections[slot := connection], attention := s.attention - {slot})
  }

  predicate Expired(strategy: Strategy, now: int) {
    strategy.expiresAt.Some? && strategy.expiresAt.value < now
  }

  predicate Usable(d: Deployment, cached: Cached, now: int) {
    now - cached.at < d.ttl && !Expired(cached.strategy, now)
  }

  /** A question to the gateway. */
  datatype Ask = ActiveFor(slot: Slot) | ConsentFor(slot: Slot) | TokenFor(connection: string)

  function AskFor(s: Store, connection: string): Ask {
    if connection in s.discovered then ActiveFor(s.discovered[connection]) else TokenFor(connection)
  }

  /** The gateway's answer. `blank` is an empty payload; a payload need not be readable as a strategy. */
  datatype Reply =
    | NothingActive
    | Payload(blank: bool, strategy: Option<Strategy>)
    | Active(connection: string)                                   // the consent was given
    | Broken                                                       // the request raised

  datatype Outcome =
    | Quiet
    | Asks(ask: Ask)
    | Handed(handle: string)
    | NoHandle
    | Served(strategy: Strategy)                                   // from the cache
    | Fetched(strategy: Strategy)
    | Raised

  // ---------------------------------------------------------------- The manager

  class AuthenticationManager {
    const user: string
    const ttl: int
    var connections: map<Slot, string>
    var attention: set<Slot>
    var discovered: map<string, Slot>
    var cache: map<Key, Cached>

    function State(): Store
      reads this
    {
      Store(connections, attention, discovered, cache)
    }

    constructor (user: string, ttl: int)
      ensures State() == NOTHING_KNOWN && this.user == user && this.ttl == ttl
    {
      this.user, this.ttl := user, ttl;
      connections, attention, discovered, cache := map[], {}, map[], map[];
    }

    method ForgetStrategy(connection: string)
      modifies this`cache
      ensures State() == Forgotten(old(State()), connection)
    {
      var keys := set key | key in cache && key.connection == connection;
      while keys != {}
        invariant keys <= cache.Keys && forall key :: key in keys ==> key.connection == connection
        invariant forall key :: key in cache ==> key in old(cache) && cache[key] == old(cache[key])
        invariant forall key :: key in old(cache) && key !in cache ==> key.connection == connection
        invariant forall key :: key in cache && key.connection == connection ==> key in keys
        decreases |keys|
      {
        var key :| key in keys;
        cache := cache - {key};
        keys := keys - {key};
      }
      assert cache == Forgotten(old(State()), connection).cache;
    }

    /** The loops of `_connection_needs_attention`: the handle is taken from whoever holds it. */
    method TakeBack(connection: string)
      modifies this`connections, this`attention
      ensures connections == old(connections) - SlotsHolding(old(State()), connection)
      ensures attention == old(attention) + SlotsHolding(old(State()), connection)
    {
      var slots := connections.Keys;
      ghost var seen: set<Slot> := {};
      while slots != {}
        invariant slots + seen == old(connections).Keys && slots !! seen
        invariant forall slot :: slot in connections <==>
                    slot in old(connections) && (slot in slots || old(connections)[slot] != connection)
        invariant forall slot :: slot in connections ==> connections[slot] == old(connections)[slot]
        invariant attention == old(attention) + set slot | slot in seen && old(connections)[slot] == connection
        decreases |slots|
      {
        var slot :| slot in slots;
        slots, seen := slots - {slot}, seen + {slot};
        if connections[slot] == connection {
          connections := connections - {slot};
          attention := attention + {slot};
        }
      }
      ghost var held := SlotsHolding(old(State()), connection);
      assert held == set slot | slot in seen && old(connections)[slot] == connection;
      assert connections == old(connections) - held;
    }

    method ConnectionNeedsAttention(connection: string)
      modifies this`connections, this`attention, this`cache
      ensures State() == Withdrawn(old(State()), connection)
    {
      TakeBack(connection);
      ForgetStrategy(connection);
    }

    /** `discover` after the gateway answered; None when nothing is active there. */
    method DiscoverAnswered(slot: Slot, reply: Reply) returns (outcome: Outcome)
      modifies this`connections, this`attention, this`discovered
      ensures (State(), outcome) == EndDiscovery(old(State()), user, slot, reply)
    {
      if !reply.Payload? || reply.blank { return NoHandle; }
      var handle := HandleOf(user, slot);
      connections := connections[slot := handle];
      discovered := discovered[handle := slot];
      attention := attention - {slot};
      outcome := Handed(handle);
    }

    /** `authenticate` after the consent flow. */
    method AuthenticateAnswered(slot: Slot, reply: Reply) returns (outcome: Outcome)
      modifies this`connections, this`attention
      ensures (State(), outcome) == EndConsent(old(State()), slot, reply)
    {
      if !reply.Active? { return Raised; }
      connections := connections[slot := reply.connection];
      attention := attention - {slot};
      outcome := Handed(reply.connection);
    }

    /** `resolve_strategy` up to its question to the gateway, or to the credential it has cached. */
    method Resolve(key: Key, now: int) returns (outcome: Outcome)
      ensures outcome == Lookup(Deployment(user, ttl), State(), key, now)
    {
      if key in cache {
        var Cached(strategy, at) := cache[key];
        if now - at < ttl && !Expired(strategy, now) { return Served(strategy); }
      }
      if key.connection in discovered { return Asks(ActiveFor(discovered[key.connection])); }
      outcome := Asks(TokenFor(key.connection));
    }

    /** `resolve_strategy` after the gateway answered `ask`. */
    method ResolveAnswered(key: Key, ask: Ask, reply: Reply, now: int) returns (outcome: Outcome)
      modifies this`connections, this`attention, this`cache
      ensures (State(), outcome) == EndFetch(old(State()), key, ask, reply, now)
    {
      if ask.ActiveFor? && reply.NothingActive? {
        ConnectionNeedsAttention(key.connection);
        return Raised;
      }
      if !reply.Payload? || reply.strategy.None? { return Raised; }
      cache := cache[key := Cached(reply.strategy.value, now)];
      outcome := Fetched(reply.strategy.value);
    }
  }

  function EndDiscovery(s: Store, user: string, slot: Slot, reply: Reply): (Store, Outcome) {
    if reply.Payload? && !reply.blank then (Discovered(s, user, slot), Handed(HandleOf(user, slot)))
    else (s, NoHandle)
  }

  function EndConsent(s: Store, slot: Slot, reply: Reply): (Store, Outcome) {
    if reply.Active? then (Connected(s, slot, reply.connection), Handed(reply.connection)) else (s, Raised)
  }

  function Lookup(d: Deployment, s: Store, key: Key, now: int): Outcome {
    if key in s.cache && Usable(d, s.cache[key], now) then Served(s.cache[key].strategy)
    else Asks(AskFor(s, key.connection))
  }

  function EndFetch(s: Store, key: Key, ask: Ask, reply: Reply, now: int): (Store, Outcome) {
    if ask.ActiveFor? && reply.NothingActive? then (Withdrawn(s, key.connection), Raised)
    else if reply.Payload? && reply.strategy.Some? then
      (s.(cache := s.cache[key := Cached(reply.strategy.value, now)]), Fetched(reply.strategy.value))
    else (s, Raised)
  }

  // ---------------------------------------------------------------- Tasks between their awaits

  datatype Call = Discovering(slot: Slot) | Consenting(slot: Slot) | Fetching(key: Key, ask: Ask)

  datatype World = World(store: Store, tasks: map<nat, Call>, now: int)

  const START := World(NOTHING_KNOWN, map[], 0)

  datatype Act =
    | Discover(task: nat, slot: Slot)
    | Authenticate(task: nat, slot: Slot, owner: string)
    | Resolve(task: nat, key: Key)
    | Answer(task: nat, reply: Reply)
    | NeedsAttention(connection: string)
    | Forget(connection: string)
    | Pass(time: nat)

  function Begin(w: World, task: nat, call: Call, ask: Ask): (World, Outcome) {
    (w.(tasks := w.tasks[task := call]), Asks(ask))
  }

  function Step(d: Deployment, w: World, act: Act): (World, Outcome) {
    match act
    case Discover(task, slot) =>
      if task in w.tasks then (w, Quiet)
      else if slot in w.store.connections then (w, Handed(w.store.connections[slot]))
      else Begin(w, task, Discovering(slot), ActiveFor(slot))
    case Authenticate(task, slot, owner) =>
      if task in w.tasks then (w, Quiet)
      else if slot in w.store.connections then (w, Handed(w.store.connections[slot]))
      else Begin(w, task, Consenting(slot), ConsentFor(Slot(owner, slot.provider)))
    case Resolve(task, key) =>
      if task in w.tasks then (w, Quiet)
      else
        var found := Lookup(d, w.store, key, w.now);
        if found.Asks? then Begin(w, task, Fetching(key, found.ask), found.ask) else (w, found)
    case Answer(task, reply) =>
      if task !in w.tasks then (w, Quiet)
      else var (store, outcome) := Finish(d, w, w.tasks[task], reply); (World(store, w.tasks - {task}, w.now), outcome)
    case NeedsAttention(connection) => (w.(store := Withdrawn(w.store, connection)), Quiet)
    case Forget(connection) => (w.(store := Forgotten(w.store, connection)), Quiet)
    case Pass(time) => (w.(now := w.now + time), Quiet)
  }

  function Finish(d: Deployment, w: World, call: Call, reply: Reply): (Store, Outcome) {
    match call
    case Discovering(slot) => EndDiscovery(w.store, d.user, slot, reply)
    case Consenting(slot) => EndConsent(w.store, slot, reply)
    case Fetching(key, ask) => EndFetch(w.store, key, ask, reply, w.now)
  }

  function RunFrom(d: Deployment, w: World, acts: seq<Act>): World {
    if acts == [] then w else Step(d, RunFrom(d, w, acts[..|acts| - 1]), acts[|acts| - 1]).0
  }

  function Run(d: Deployment, acts: seq<Act>): World {
    RunFrom(d, START, acts)
  }

  /** What act `i` of a run came to. */
  function Result(d: Deployment, w: World, acts: seq<Act>, i: nat): Outcome
    requires i < |acts|
  {
    Step(d, RunFrom(d, w, acts[..i]), acts[i]).1
  }
}

/** What holds of the authentication manager however its tasks interleave at their awaits. */
module ConnectionTheorems {
  import opened Wrappers
  import opened ConnectionManager

  // ---------------------------------------------------------------- Connected or needing attention

  ghost predicate Consistent(d: Deployment, s: Store) {
    && (forall slot :: slot in s.connections ==> slot !in s.attention)
    && (forall handle :: handle in s.discovered ==> handle == HandleOf(d.user, s.discovered[handle]))
  }

  /** At every await point, no provider is both connected and needing attention for the same person, and every
      handle found at the gateway is written down under the pair it was made for. */
  lemma {:induction false} NeverBothConnectedAndWithdrawn(d: Deployment, acts: seq<Act>)
    ensures Consistent(d, Run(d, acts).store)
  {
    if acts != [] { NeverBothConnectedAndWithdrawn(d, acts[..|acts| - 1]); }
  }

  // ---------------------------------------------------------------- Handles keep their pair

  ghost predicate Discovers(acts: seq<Act>, providers: iset<string>) {
    forall i :: 0 <= i < |acts| && acts[i].Discover? ==> acts[i].slot.provider in providers
  }

  ghost predicate Known(w: World, providers: iset<string>) {
    && (forall h :: h in w.store.discovered ==> w.store.discovered[h].provider in providers)
    && (forall t :: t in w.tasks && w.tasks[t].Discovering? ==> w.tasks[t].slot.provider in providers)
  }

  lemma {:induction false} OnlyKnownProviders(d: Deployment, acts: seq<Act>, providers: iset<string>)
    requires Discovers(acts, providers)
    ensures Known(Run(d, acts), providers)
  {
    if acts != [] {
      var n := |acts| - 1;
      OnlyKnownProviders(d, acts[..n], providers);
      KnownStep(d, Run(d, acts[..n]), acts[n], providers);
    }
  }

  lemma KnownStep(d: Deployment, w: World, act: Act, providers: iset<string>)
    requires Known(w, providers) && (act.Discover? ==> act.slot.provider in providers)
    ensures Known(Step(d, w, act).0, providers)
  {
  }

  lemma PairStays(d: Deployment, acts: seq<Act>, providers: iset<string>, handle: string)
    requires acts != [] && Discovers(acts, providers) && Apart(providers)
    requires handle in Run(d, acts[..|acts| - 1]).store.discovered
    ensures handle in Run(d, acts).store.discovered
    ensures Run(d, acts).store.discovered[handle] == Run(d, acts[..|acts| - 1]).store.discovered[handle]
  {
    var init := acts[..|acts| - 1];
    DiscoveredStay(d, Run(d, init), acts[|acts| - 1], handle);
    OnlyKnownProviders(d, init, providers);
    OnlyKnownProviders(d, acts, providers);
    NeverBothConnectedAndWithdrawn(d, acts);
    NeverBothConnectedAndWithdrawn(d, init);
    HandlesIdentifyExactly(d.user, providers);
    var before, after := Run(d, init).store.discovered, Run(d, acts).store.discovered;
    assert HandleOf(d.user, before[handle]) == HandleOf(d.user, after[handle]);
  }

  lemma DiscoveredStay(d: Deployment, w: World, act: Act, handle: string)
    requires handle in w.store.discovered
    ensures handle in Step(d, w, act).0.store.discovered
  {
  }

  lemma {:induction false} HandlesKeepTheirPair(d: Deployment, acts: seq<Act>, n: nat, providers: iset<string>, handle: string)
    requires n <= |acts| && Discovers(acts, providers) && Apart(providers)
    requires handle in Run(d, acts[..n]).store.discovered
    ensures handle in Run(d, acts).store.discovered
    ensures Run(d, acts).store.discovered[handle] == Run(d, acts[..n]).store.discovered[handle]
    decreases |acts|
  {
    if n == |acts| {
      assert acts[..n] == acts;
    } else {
      var init := acts[..|acts| - 1];
      assert init[..n] == acts[..n];
      HandlesKeepTheirPair(d, init, n, providers, handle);
      PairStays(d, acts, providers, handle);
    }
  }

  /** Whenever a handle that discovery handed out is resolved, now or at any later point of the run and for
      whomever, the gateway is asked for exactly the person and the provider it was found for, unless the
      credential is served from the cache. */
  lemma ResolvingAsksForItsPair(d: Deployment, acts: seq<Act>, n: nat, providers: iset<string>, slot: Slot, task: nat, key: Key)
    requires Discovers(acts, providers) && Apart(providers)
    requires n < |acts| && acts[n].Answer? && acts[n].task in Run(d, acts[..n]).tasks
    requires Run(d, acts[..n]).tasks[acts[n].task] == Discovering(slot)
    requires Result(d, START, acts, n) == Handed(key.connection)
    requires task !in Run(d, acts).tasks
    ensures var outcome := Step(d, Run(d, acts), Resolve(task, key)).1;
      outcome.Served? || outcome == Asks(ActiveFor(slot))
  {
    assert acts[..n + 1][..n] == acts[..n];
    assert Run(d, acts[..n + 1]).store.discovered[key.connection] == slot;
    HandlesKeepTheirPair(d, acts, n + 1, providers, key.connection);
  }

  // ---------------------------------------------------------------- What the cache serves

  /** Act `i` is the answer to a call of `resolve_strategy` with this key. */
  predicate AnswersFor(d: Deployment, acts: seq<Act>, i: nat, key: Key) {
    && i < |acts| && acts[i].Answer?
    && var tasks := Run(d, acts[..i]).tasks;
    && acts[i].task in tasks && tasks[acts[i].task].Fetching? && tasks[acts[i].task].key == key
  }

  /** Act `i` is such an answer, and the gateway gave this credential in it. */
  predicate FetchedAt(d: Deployment, acts: seq<Act>, i: nat, key: Key, strategy: Strategy) {
    AnswersFor(d, acts, i, key) && acts[i].reply.Payload? && acts[i].reply.strategy == Some(strategy)
  }

  /** Such an answer is what the caller gets. */
  lemma FetchedIsReturned(d: Deployment, acts: seq<Act>, i: nat, key: Key, strategy: Strategy)
    requires AnswersFor(d, acts, i, key)
    ensures Result(d, START, acts, i) == Fetched(strategy) <==> FetchedAt(d, acts, i, key, strategy)
    ensures Result(d, START, acts, i) == Raised || Result(d, START, acts, i).Fetched?
  {
  }

  /** Act `i` withdraws or forgets the connection. */
  predicate ForgetsAt(d: Deployment, acts: seq<Act>, i: nat, connection: string)
    requires i < |acts|
  {
    match acts[i]
    case NeedsAttention(c) => c == connection
    case Forget(c) => c == connection
    case Answer(task, reply) =>
      var tasks := Run(d, acts[..i]).tasks;
      && task in tasks && tasks[task].Fetching? && tasks[task].key.connection == connection
      && tasks[task].ask.ActiveFor? && reply.NothingActive?
    case _ => false
  }

  /** The credential was fetched by act `i`, and neither replaced nor forgotten since. */
  ghost predicate LastFetchedAt(d: Deployment, acts: seq<Act>, i: nat, key: Key, strategy: Strategy) {
    && FetchedAt(d, acts, i, key, strategy)
    && (forall k :: i < k < |acts| ==> !ForgetsAt(d, acts, k, key.connection))
    && (forall k, other :: i < k < |acts| ==> !FetchedAt(d, acts, k, key, other))
  }

  lemma PrefixAgrees(d: Deployment, acts: seq<Act>, i: nat, key: Key, strategy: Strategy)
    requires i < |acts| - 1
    ensures FetchedAt(d, acts, i, key, strategy) <==> FetchedAt(d, acts[..|acts| - 1], i, key, strategy)
    ensures ForgetsAt(d, acts, i, key.connection) <==> ForgetsAt(d, acts[..|acts| - 1], i, key.connection)
  {
    assert acts[..|acts| - 1][..i] == acts[..i];
  }

  /** The last act leaves the key's entry alone. */
  lemma EntryStays(d: Deployment, acts: seq<Act>, key: Key)
    requires acts != [] && key in Run(d, acts).store.cache
    ensures var init, last := acts[..|acts| - 1], |acts| - 1;
      var cached := Run(d, acts).store.cache[key];
      if AnswersFor(d, acts, last, key) && Result(d, START, acts, last).Fetched? then
        FetchedAt(d, acts, last, key, cached.strategy) && cached.at == Run(d, init).now
      else
        && !ForgetsAt(d, acts, last, key.connection)
        && key in Run(d, init).store.cache && Run(d, init).store.cache[key] == cached
  {
    assert acts[..|acts| - 1] == acts[..|acts| - 1];
  }

  lemma {:induction false} CachedWasFetched(d: Deployment, acts: seq<Act>, key: Key) returns (i: nat)
    requires key in Run(d, acts).store.cache
    ensures LastFetchedAt(d, acts, i, key, Run(d, acts).store.cache[key].strategy)
    ensures Run(d, acts[..i]).now == Run(d, acts).store.cache[key].at
  {
    var last := |acts| - 1;
    var init := acts[..last];
    EntryStays(d, acts, key);
    if AnswersFor(d, acts, last, key) && Result(d, START, acts, last).Fetched? {
      i := last;
    } else {
      i := CachedWasFetched(d, init, key);
      var strategy := Run(d, acts).store.cache[key].strategy;
      PrefixAgrees(d, acts, i, key, strategy);
      assert init[..i] == acts[..i];
      forall k | i < k < |acts| ensures !ForgetsAt(d, acts, k, key.connection) {
        if k < last { PrefixAgrees(d, acts, k, key, strategy); }
      }
      forall k, other | i < k < |acts| ensures !FetchedAt(d, acts, k, key, other) {
        if k < last { PrefixAgrees(d, acts, k, key, other); }
      }
    }
  }

  /** A credential served from the cache is the one last fetched for this very connection and this very person:
      less than the time to live ago, unexpired now, and not forgotten or withdrawn since. */
  lemma ServedCredentialsAreTheirOwn(d: Deployment, acts: seq<Act>, task: nat, key: Key, strategy: Strategy)
    requires Step(d, Run(d, acts), Resolve(task, key)).1 == Served(strategy)
    ensures strategy.expiresAt.Some? ==> Run(d, acts).now <= strategy.expiresAt.value
    ensures exists i: nat :: LastFetchedAt(d, acts, i, key, strategy) && Run(d, acts).now - Run(d, acts[..i]).now < d.ttl
  {
    var i := CachedWasFetched(d, acts, key);
    assert Run(d, acts).now - Run(d, acts[..i]).now < d.ttl;
  }

  /** What was last fetched for a key is still in the cache. */
  lemma {:induction false} FetchedIsCached(d: Deployment, acts: seq<Act>, i: nat, key: Key, strategy: Strategy)
    requires LastFetchedAt(d, acts, i, key, strategy)
    ensures key in Run(d, acts).store.cache
    ensures Run(d, acts).store.cache[key] == Cached(strategy, Run(d, acts[..i]).now)
  {
    var last := |acts| - 1;
    var init := acts[..last];
    if i == last {
      FetchIsCached(d, Run(d, init), acts[last], key, strategy);
    } else {
      PrefixAgrees(d, acts, i, key, strategy);
      forall k | i < k < last ensures !ForgetsAt(d, init, k, key.connection) { PrefixAgrees(d, acts, k, key, strategy); }
      forall k, other | i < k < last ensures !FetchedAt(d, init, k, key, other) { PrefixAgrees(d, acts, k, key, other); }
      FetchedIsCached(d, init, i, key, strategy);
      assert init[..i] == acts[..i];
      CacheStays(d, acts, last, key);
    }
  }

  lemma FetchIsCached(d: Deployment, w: World, act: Act, key: Key, strategy: Strategy)
    requires act.Answer? && act.task in w.tasks && w.tasks[act.task].Fetching? && w.tasks[act.task].key == key
    requires act.reply.Payload? && act.reply.strategy == Some(strategy)
    ensures key in Step(d, w, act).0.store.cache && Step(d, w, act).0.store.cache[key] == Cached(strategy, w.now)
  {
  }

  lemma CacheStays(d: Deployment, acts: seq<Act>, n: nat, key: Key)
    requires n + 1 == |acts| && key in Run(d, acts[..n]).store.cache
    requires !ForgetsAt(d, acts, n, key.connection)
    requires forall other :: !FetchedAt(d, acts, n, key, other)
    ensures key in Run(d, acts).store.cache
    ensures Run(d, acts).store.cache[key] == Run(d, acts[..n]).store.cache[key]
  {
    var w, act := Run(d, acts[..n]), acts[n];
    if act.Answer? && act.task in w.tasks && w.tasks[act.task].Fetching? && Step(d, w, act).1.Fetched? {
      assert w.tasks[act.task].key == key ==> FetchedAt(d, acts, n, key, Step(d, w, act).1.strategy);
    }
  }

  /** A credential is served from the cache if and only if it is the one last fetched for this connection and this
      person, less than the time to live ago, not forgotten or withdrawn since, and not past its expiry. */
  lemma ServedExactly(d: Deployment, acts: seq<Act>, task: nat, key: Key, strategy: Strategy)
    requires task !in Run(d, acts).tasks
    ensures Step(d, Run(d, acts), Resolve(task, key)).1 == Served(strategy) <==>
            && (strategy.expiresAt.Some? ==> Run(d, acts).now <= strategy.expiresAt.value)
            && exists i: nat :: LastFetchedAt(d, acts, i, key, strategy) && Run(d, acts).now - Run(d, acts[..i]).now < d.ttl
  {
    if Step(d, Run(d, acts), Resolve(task, key)).1 == Served(strategy) {
      ServedCredentialsAreTheirOwn(d, acts, task, key, strategy);
    }
    if i: nat :| LastFetchedAt(d, acts, i, key, strategy) && Run(d, acts).now - Run(d, acts[..i]).now < d.ttl {
      FetchedIsCached(d, acts, i, key, strategy);
    }
  }

  // ---------------------------------------------------------------- What is asked for

  /** Act `i` hands out a connection that was found at the gateway. */
  predicate DiscoversAt(d: Deployment, acts: seq<Act>, i: nat, connection: string) {
    && i < |acts| && acts[i].Answer?
    && var tasks := Run(d, acts[..i]).tasks;
    && acts[i].task in tasks && tasks[acts[i].task].Discovering? && Result(d, START, acts, i) == Handed(connection)
  }

  lemma {:induction false} DiscoveredWereHanded(d: Deployment, acts: seq<Act>, connection: string) returns (i: nat)
    requires connection in Run(d, acts).store.discovered
    ensures DiscoversAt(d, acts, i, connection)
  {
    var last := |acts| - 1;
    var init := acts[..last];
    if connection in Run(d, init).store.discovered {
      i := DiscoveredWereHanded(d, init, connection);
      assert init[..i] == acts[..i];
    } else {
      i := last;
      OnlyDiscoveryAdds(d, Run(d, init), acts[last], connection);
    }
  }

  lemma OnlyDiscoveryAdds(d: Deployment, w: World, act: Act, connection: string)
    requires connection !in w.store.discovered && connection in Step(d, w, act).0.store.discovered
    ensures act.Answer? && act.task in w.tasks && w.tasks[act.task].Discovering?
    ensures Step(d, w, act).1 == Handed(connection)
  {
  }

  /** A connection that no discovery handed out is asked for under its own name. */
  lemma OthersAreAskedForByName(d: Deployment, acts: seq<Act>, task: nat, key: Key)
    requires task !in Run(d, acts).tasks && forall i: nat :: !DiscoversAt(d, acts, i, key.connection)
    ensures var outcome := Step(d, Run(d, acts), Resolve(task, key)).1;
      outcome.Served? || outcome == Asks(TokenFor(key.connection))
  {
    if key.connection in Run(d, acts).store.discovered {
      var i := DiscoveredWereHanded(d, acts, key.connection);
    }
  }

  // ---------------------------------------------------------------- Who holds what

  /** The act is an answer that connects the slot: an active connection found for it, or a consent given. */
  predicate Gives(d: Deployment, w: World, act: Act, slot: Slot, connection: string) {
    && act.Answer? && act.task in w.tasks
    && ((&& w.tasks[act.task] == Discovering(slot) && act.reply.Payload? && !act.reply.blank
         && connection == HandleOf(d.user, slot))
        || (w.tasks[act.task] == Consenting(slot) && act.reply == Active(connection)))
  }

  /** The act withdraws the connection: the broker says so, or the gateway knows it no longer. */
  predicate Withdraws(w: World, act: Act, connection: string) {
    || act == NeedsAttention(connection)
    || (&& act.Answer? && act.task in w.tasks && w.tasks[act.task].Fetching? && act.reply.NothingActive?
        && w.tasks[act.task].key.connection == connection && w.tasks[act.task].ask.ActiveFor?)
  }

  predicate Holds(s: Store, slot: Slot, connection: string) {
    slot in s.connections && s.connections[slot] == connection
  }

  lemma HoldingStep(d: Deployment, w: World, act: Act, slot: Slot, connection: string)
    ensures Holds(Step(d, w, act).0.store, slot, connection) <==>
            || Gives(d, w, act, slot, connection)
            || (&& Holds(w.store, slot, connection) && !Withdraws(w, act, connection)
                && forall other :: !Gives(d, w, act, slot, other))
  {
    if act.Answer? && act.task in w.tasks {
      var call := w.tasks[act.task];
      assert call == Discovering(slot) && act.reply.Payload? && !act.reply.blank ==> Gives(d, w, act, slot, HandleOf(d.user, slot));
      assert call == Consenting(slot) && act.reply.Active? ==> Gives(d, w, act, slot, act.reply.connection);
    }
  }

  lemma AttentionStep(d: Deployment, w: World, act: Act, slot: Slot)
    ensures slot in Step(d, w, act).0.store.attention <==>
            && (forall other :: !Gives(d, w, act, slot, other))
            && (slot in w.store.attention || exists connection :: Holds(w.store, slot, connection) && Withdraws(w, act, connection))
  {
    if act.Answer? && act.task in w.tasks {
      var call := w.tasks[act.task];
      assert call == Discovering(slot) && act.reply.Payload? && !act.reply.blank ==> Gives(d, w, act, slot, HandleOf(d.user, slot));
      assert call == Consenting(slot) && act.reply.Active? ==> Gives(d, w, act, slot, act.reply.connection);
    }
    assert slot in w.store.connections ==> Holds(w.store, slot, w.store.connections[slot]);
  }

  predicate GivesAt(d: Deployment, acts: seq<Act>, i: nat, slot: Slot, connection: string) {
    i < |acts| && Gives(d, Run(d, acts[..i]), acts[i], slot, connection)
  }

  predicate WithdrawsAt(d: Deployment, acts: seq<Act>, i: nat, connection: string) {
    i < |acts| && Withdraws(Run(d, acts[..i]), acts[i], connection)
  }

  /** Act `i` connected the slot, and since then nothing else did and the connection was not withdrawn. */
  ghost predicate ConnectedSince(d: Deployment, acts: seq<Act>, i: nat, slot: Slot, connection: string) {
    && GivesAt(d, acts, i, slot, connection)
    && (forall k: nat, other :: i < k ==> !GivesAt(d, acts, k, slot, other))
    && (forall k: nat :: i < k ==> !WithdrawsAt(d, acts, k, connection))
  }

  /** Act `i` withdrew what the slot held, and since then nothing connected it. */
  ghost predicate WithdrawnSince(d: Deployment, acts: seq<Act>, i: nat, slot: Slot) {
    && (exists connection :: i < |acts| && Holds(Run(d, acts[..i]).store, slot, connection) && WithdrawsAt(d, acts, i, connection))
    && (forall k: nat, other :: i <= k ==> !GivesAt(d, acts, k, slot, other))
  }

  lemma EarlierActsAgree(d: Deployment, acts: seq<Act>, n: nat, slot: Slot)
    requires n + 1 == |acts|
    ensures forall k: nat, other :: k < n ==> (GivesAt(d, acts, k, slot, other) <==> GivesAt(d, acts[..n], k, slot, other))
    ensures forall k: nat, c :: k < n ==> (WithdrawsAt(d, acts, k, c) <==> WithdrawsAt(d, acts[..n], k, c))
  {
    forall k: nat, other | k < n
      ensures GivesAt(d, acts, k, slot, other) <==> GivesAt(d, acts[..n], k, slot, other)
      ensures WithdrawsAt(d, acts, k, other) <==> WithdrawsAt(d, acts[..n], k, other)
    {
      assert acts[..n][..k] == acts[..k];
    }
  }

  lemma ConnectedBefore(d: Deployment, acts: seq<Act>, n: nat, i: nat, slot: Slot, connection: string)
    requires n + 1 == |acts| && i < n
    ensures ConnectedSince(d, acts, i, slot, connection) <==>
            && ConnectedSince(d, acts[..n], i, slot, connection)
            && !WithdrawsAt(d, acts, n, connection) && forall other :: !GivesAt(d, acts, n, slot, other)
  {
    EarlierActsAgree(d, acts, n, slot);
    var init := acts[..n];
    if ConnectedSince(d, acts, i, slot, connection) {
      forall k: nat, other | i < k ensures !GivesAt(d, init, k, slot, other) {
        assert !GivesAt(d, acts, k, slot, other);
      }
      forall k: nat | i < k ensures !WithdrawsAt(d, init, k, connection) {
        assert !WithdrawsAt(d, acts, k, connection);
      }
    }
    if ConnectedSince(d, init, i, slot, connection) && !WithdrawsAt(d, acts, n, connection)
       && forall other :: !GivesAt(d, acts, n, slot, other) {
      forall k: nat, other | i < k ensures !GivesAt(d, acts, k, slot, other) {
        assert k < n ==> !GivesAt(d, init, k, slot, other);
      }
      forall k: nat | i < k ensures !WithdrawsAt(d, acts, k, connection) {
        assert k < n ==> !WithdrawsAt(d, init, k, connection);
      }
    }
  }

  /** The slot holds a connection if and only if that is the last it was given, by a discovery or a consent, and it
      was not withdrawn since. */
  lemma {:induction false} ConnectionsAreHeldExactly(d: Deployment, acts: seq<Act>, slot: Slot, connection: string)
    ensures Holds(Run(d, acts).store, slot, connection) <==> exists i: nat :: ConnectedSince(d, acts, i, slot, connection)
  {
    if acts != [] {
      var n := |acts| - 1;
      var init := acts[..n];
      ConnectionsAreHeldExactly(d, init, slot, connection);
      HoldingStep(d, Run(d, init), acts[n], slot, connection);
      assert forall other :: GivesAt(d, acts, n, slot, other) <==> Gives(d, Run(d, init), acts[n], slot, other);
      assert WithdrawsAt(d, acts, n, connection) <==> Withdraws(Run(d, init), acts[n], connection);
      if Gives(d, Run(d, init), acts[n], slot, connection) {
        assert ConnectedSince(d, acts, n, slot, connection);
      } else if i: nat :| ConnectedSince(d, init, i, slot, connection) {
        ConnectedBefore(d, acts, n, i, slot, connection);
      }
      if i: nat :| ConnectedSince(d, acts, i, slot, connection) {
        if i < n { ConnectedBefore(d, acts, n, i, slot, connection); }
      }
    }
  }

  lemma WithdrawnBefore(d: Deployment, acts: seq<Act>, n: nat, i: nat, slot: Slot)
    requires n + 1 == |acts| && i < n
    ensures WithdrawnSince(d, acts, i, slot) <==>
            WithdrawnSince(d, acts[..n], i, slot) && forall other :: !GivesAt(d, acts, n, slot, other)
  {
    EarlierActsAgree(d, acts, n, slot);
    var init := acts[..n];
    assert init[..i] == acts[..i];
    if WithdrawnSince(d, acts, i, slot) {
      forall k: nat, other | i <= k ensures !GivesAt(d, init, k, slot, other) {
        assert !GivesAt(d, acts, k, slot, other);
      }
    }
    if WithdrawnSince(d, init, i, slot) && forall other :: !GivesAt(d, acts, n, slot, other) {
      forall k: nat, other | i <= k ensures !GivesAt(d, acts, k, slot, other) {
        assert k < n ==> !GivesAt(d, init, k, slot, other);
      }
    }
  }

  /** A provider needs attention, for a person, if and only if what they held was withdrawn and nothing has connected
      it since. */
  lemma {:induction false} AttentionIsNeededExactly(d: Deployment, acts: seq<Act>, slot: Slot)
    ensures slot in Run(d, acts).store.attention <==> exists i: nat :: WithdrawnSince(d, acts, i, slot)
  {
    if acts != [] {
      var n := |acts| - 1;
      var init := acts[..n];
      AttentionIsNeededExactly(d, init, slot);
      AttentionStep(d, Run(d, init), acts[n], slot);
      assert forall other :: GivesAt(d, acts, n, slot, other) <==> Gives(d, Run(d, init), acts[n], slot, other);
      assert forall c :: WithdrawsAt(d, acts, n, c) <==> Withdraws(Run(d, init), acts[n], c);
      if slot in Run(d, acts).store.attention {
        if i: nat :| WithdrawnSince(d, init, i, slot) {
          WithdrawnBefore(d, acts, n, i, slot);
        } else {
          assert WithdrawnSince(d, acts, n, slot);
        }
      }
      if i: nat :| WithdrawnSince(d, acts, i, slot) {
        if i < n { WithdrawnBefore(d, acts, n, i, slot); }
        assert forall other :: !GivesAt(d, acts, n, slot, other);
      }
    }
  }

  /** Who holds a connection is handed it at once; who holds none has the gateway asked, for that very person and
      provider, or, to connect, for the one who owns the accounts. */
  lemma HeldConnectionsAreHanded(d: Deployment, acts: seq<Act>, task: nat, slot: Slot, owner: string, connection: string)
    requires task !in Run(d, acts).tasks
    ensures var found := Step(d, Run(d, acts), Discover(task, slot)).1;
      var connected := Step(d, Run(d, acts), Authenticate(task, slot, owner)).1;
      && (found == Handed(connection) <==> exists i: nat :: ConnectedSince(d, acts, i, slot, connection))
      && (connected == Handed(connection) <==> found == Handed(connection))
      && (found.Handed? || (found == Asks(ActiveFor(slot)) && connected == Asks(ConsentFor(Slot(owner, slot.provider)))))
  {
    ConnectionsAreHeldExactly(d, acts, slot, connection);
  }

  // ---------------------------------------------------------------- Forgetting while a fetch is in flight

  /** From here on, nothing is served for the connection before it was asked for again. */
  ghost predicate AskedAgain(d: Deployment, w: World, connection: string) {
    forall acts: seq<Act>, task: nat, key: Key ::
      (key.connection == connection && Step(d, RunFrom(d, w, acts), Resolve(task, key)).1.Served?) ==>
      exists k: nat :: AsksAt(d, w, acts, k, connection)
  }

  /** Act `k` is a call of `resolve_strategy` for the connection that went to the gateway. */
  predicate AsksAt(d: Deployment, w: World, acts: seq<Act>, k: nat, connection: string) {
    k < |acts| && acts[k].Resolve? && acts[k].key.connection == connection && Result(d, w, acts, k).Asks?
  }

  predicate InFlight(w: World, task: nat, connection: string) {
    task in w.tasks && w.tasks[task].Fetching? && w.tasks[task].key.connection == connection
  }

  ghost predicate NoneInFlight(w: World, connection: string) {
    forall task :: !InFlight(w, task, connection)
  }

  ghost predicate NothingCached(s: Store, connection: string) {
    forall key :: key in s.cache ==> key.connection != connection
  }

  ghost predicate Gone(w: World, connection: string) {
    NothingCached(w.store, connection) && NoneInFlight(w, connection)
  }

  lemma GoneStep(d: Deployment, w: World, act: Act, connection: string)
    requires Gone(w, connection)
    requires !(act.Resolve? && act.key.connection == connection && Step(d, w, act).1.Asks?)
    ensures Gone(Step(d, w, act).0, connection)
  {
    forall task ensures !InFlight(Step(d, w, act).0, task, connection) {
      assert !InFlight(w, task, connection);
    }
    if act.Answer? && act.task in w.tasks {
      assert !InFlight(w, act.task, connection);
    }
  }

  lemma {:induction false} GoneUntilAsked(d: Deployment, w: World, acts: seq<Act>, connection: string)
    requires Gone(w, connection) && forall k: nat :: !AsksAt(d, w, acts, k, connection)
    ensures Gone(RunFrom(d, w, acts), connection)
  {
    if acts != [] {
      var n := |acts| - 1;
      forall k: nat ensures !AsksAt(d, w, acts[..n], k, connection) {
        if k < n {
          assert acts[..n][..k] == acts[..k];
          assert !AsksAt(d, w, acts, k, connection);
        }
      }
      GoneUntilAsked(d, w, acts[..n], connection);
      assert !AsksAt(d, w, acts, n, connection);
      GoneStep(d, RunFrom(d, w, acts[..n]), acts[n], connection);
    }
  }

  /** No credential of the connection was cached later than now. */
  ghost predicate NoneFromLater(w: World, connection: string) {
    forall key :: key in w.store.cache && key.connection == connection ==> w.store.cache[key].at <= w.now
  }

  lemma {:induction false} NoneEverFromLater(d: Deployment, w: World, acts: seq<Act>, connection: string)
    requires NoneFromLater(w, connection)
    ensures NoneFromLater(RunFrom(d, w, acts), connection)
  {
    if acts != [] {
      var n := |acts| - 1;
      NoneEverFromLater(d, w, acts[..n], connection);
      NoneFromLaterStep(d, RunFrom(d, w, acts[..n]), acts[n], connection);
    }
  }

  /** What becomes of one cached credential: it stays, or it is fetched now. */
  lemma CachedStep(d: Deployment, w: World, act: Act, key: Key)
    requires key in Step(d, w, act).0.store.cache
    ensures w.now <= Step(d, w, act).0.now
    ensures var cached := Step(d, w, act).0.store.cache[key];
      cached.at == w.now || (key in w.store.cache && w.store.cache[key] == cached)
  {
  }

  lemma NoneFromLaterStep(d: Deployment, w: World, act: Act, connection: string)
    requires NoneFromLater(w, connection)
    ensures NoneFromLater(Step(d, w, act).0, connection)
  {
    forall key | key in Step(d, w, act).0.store.cache && key.connection == connection
      ensures Step(d, w, act).0.store.cache[key].at <= Step(d, w, act).0.now
    {
      CachedStep(d, w, act, key);
    }
  }

  /** With no credential of the connection cached, none is served before the connection is asked for again, if and
      only if no fetch for it is in flight, or credentials live for no time at all. */
  lemma AskedAgainExactly(d: Deployment, w: World, connection: string)
    requires NothingCached(w.store, connection)
    ensures AskedAgain(d, w, connection) <==> d.ttl <= 0 || NoneInFlight(w, connection)
  {
    if d.ttl <= 0 {
      forall acts: seq<Act>, task: nat, key: Key | key.connection == connection
        ensures !Step(d, RunFrom(d, w, acts), Resolve(task, key)).1.Served?
      {
        NoneEverFromLater(d, w, acts, connection);
      }
    } else if task :| InFlight(w, task, connection) {
      LateAnswersAreServed(d, w, task, w.tasks[task].key);
    } else {
      forall acts: seq<Act>, task: nat, key: Key
        | key.connection == connection && Step(d, RunFrom(d, w, acts), Resolve(task, key)).1.Served?
        ensures exists k: nat :: AsksAt(d, w, acts, k, connection)
      {
        if forall k: nat :: !AsksAt(d, w, acts, k, connection) {
          GoneUntilAsked(d, w, acts, connection);
        }
      }
    }
  }

  lemma LateAnswersAreServed(d: Deployment, w: World, task: nat, key: Key)
    requires d.ttl > 0 && InFlight(w, task, key.connection) && w.tasks[task].key == key
    ensures !AskedAgain(d, w, key.connection)
  {
    var strategy := Strategy("s", None);
    var acts := [Answer(task, Payload(false, Some(strategy)))];
    assert acts[..0] == [];
    assert Step(d, RunFrom(d, w, acts), Resolve(task, key)).1 == Served(strategy);
    assert forall k: nat :: !AsksAt(d, w, acts, k, key.connection);
  }

  /** Forgetting a connection makes the manager ask for it again exactly when no call for it is in flight: the
      answer to such a call is cached after the forgetting, and served. */
  lemma ForgettingHoldsUnlessInFlight(d: Deployment, w: World, connection: string)
    ensures AskedAgain(d, Step(d, w, Forget(connection)).0, connection) <==> d.ttl <= 0 || NoneInFlight(w, connection)
  {
    var after := Step(d, w, Forget(connection)).0;
    AskedAgainExactly(d, after, connection);
    assert forall task :: InFlight(after, task, connection) <==> InFlight(w, task, connection);
  }

  /** Withdrawing a connection that can no longer sign holds under the same condition: nobody has its handle, but
      the answer to a fetch in flight is cached and served all the same. */
  lemma WithdrawingHoldsUnlessInFlight(d: Deployment, w: World, connection: string)
    ensures AskedAgain(d, Step(d, w, NeedsAttention(connection)).0, connection) <==>
            d.ttl <= 0 || NoneInFlight(w, connection)
  {
    var after := Step(d, w, NeedsAttention(connection)).0;
    AskedAgainExactly(d, after, connection);
    assert forall task :: InFlight(after, task, connection) <==> InFlight(w, task, connection);
  }

  /** So does the withdrawal of a connection that the gateway no longer knows, for the other fetches in flight. */
  lemma VanishingHoldsUnlessInFlight(d: Deployment, w: World, task: nat)
    requires task in w.tasks && w.tasks[task].Fetching? && w.tasks[task].ask.ActiveFor?
    ensures var connection := w.tasks[task].key.connection;
      AskedAgain(d, Step(d, w, Answer(task, NothingActive)).0, connection) <==>
      d.ttl <= 0 || forall other :: InFlight(w, other, connection) ==> other == task
  {
    var connection := w.tasks[task].key.connection;
    var after := Step(d, w, Answer(task, NothingActive)).0;
    AskedAgainExactly(d, after, connection);
    assert forall other :: InFlight(after, other, connection) <==> InFlight(w, other, connection) && other != task;
  }
}

/** The guard that admits asynchronous operations: each operation reserves a set
    of keys and, optionally, a shared or exclusive scope. A call of the source's
    `run` is two atomic sections around one `await`; `Begin` is the first,
    `Settle` the `finally` block. */
module OperationGuard {
  import opened Common

  type Token = nat

  datatype Mode = Shared | Exclusive

  datatype Scope<+O> = Scope(key: string, mode: Mode, owner: O)

  /** The arguments of one call of `run`: a JavaScript Map from reserved key to
      owner, and the scope. */
  datatype Run<+O> = Run(keys: map<string, O>, scope: Option<Scope<O>>)
  {
    predicate HasScope(key: string, mode: Mode) {
      scope.Some? && scope.value.key == key && scope.value.mode == mode
    }
  }

  datatype GuardState<+O> = GuardState(
    items: map<string, O>,
    shared: map<string, map<Token, O>>,
    exclusive: map<string, O>)
  {
    predicate ScopeRefused(scope: Scope<O>) {
      || scope.key in exclusive
      || (scope.mode.Exclusive? && scope.key in shared && |shared[scope.key]| > 0)
    }

    predicate Refuses(run: Run<O>) {
      || (run.scope.Some? && ScopeRefused(run.scope.value))
      || run.keys.Keys * items.Keys != {}
    }

    function AcquireScope(scope: Scope<O>, token: Token): GuardState<O> {
      if scope.mode.Exclusive? then this.(exclusive := exclusive[scope.key := scope.owner])
      else
        var holders := if scope.key in shared then shared[scope.key] else map[];
        this.(shared := shared[scope.key := holders[token := scope.owner]])
    }

    function ReleaseScope(scope: Scope<O>, token: Token): GuardState<O> {
      if scope.mode.Exclusive? then this.(exclusive := exclusive - {scope.key})
      else if scope.key !in shared then this
      else
        var holders := shared[scope.key] - {token};
        this.(shared := if |holders| == 0 then shared - {scope.key} else shared[scope.key := holders])
    }

    function Acquire(run: Run<O>, token: Token): GuardState<O> {
      var scoped := if run.scope.Some? then AcquireScope(run.scope.value, token) else this;
      scoped.(items := items + run.keys)
    }

    function Release(run: Run<O>, token: Token): GuardState<O> {
      var unkeyed := this.(items := items - run.keys.Keys);
      if run.scope.Some? then unkeyed.ReleaseScope(run.scope.value, token) else unkeyed
    }
  }

  function Idle<O>(): GuardState<O> {
    GuardState(map[], map[], map[])
  }

  /** The running calls of `run`, by the token each of them created. */
  type Running<O> = map<Token, Run<O>>

  /** At most one running call has each key; an exclusive scope is held alone. */
  ghost predicate Disjoint<O>(running: Running<O>) {
    && (forall t, u, k :: t in running && u in running && k in running[t].keys && k in running[u].keys ==> t == u)
    && (forall t, u, k, m :: t in running && u in running && running[t].HasScope(k, Exclusive) && running[u].HasScope(k, m) ==> t == u)
  }

  ghost predicate OwnsKey<O>(running: Running<O>, t: Token, k: string, owner: O) {
    t in running && k in running[t].keys && running[t].keys[k] == owner
  }

  ghost predicate OwnsScope<O>(running: Running<O>, t: Token, k: string, mode: Mode, owner: O) {
    t in running && running[t].scope == Some(Scope(k, mode, owner))
  }

  ghost predicate MirrorsKeys<O>(items: map<string, O>, running: Running<O>) {
    && (forall t, k :: t in running && k in running[t].keys ==> k in items)
    && (forall k :: k in items ==> exists t :: OwnsKey(running, t, k, items[k]))
  }

  ghost predicate MirrorsExclusive<O>(exclusive: map<string, O>, running: Running<O>) {
    && (forall t, k :: t in running && running[t].HasScope(k, Exclusive) ==> k in exclusive)
    && (forall k :: k in exclusive ==> exists t :: OwnsScope(running, t, k, Exclusive, exclusive[k]))
  }

  ghost predicate Holds<O>(shared: map<string, map<Token, O>>, k: string, t: Token) {
    k in shared && t in shared[k]
  }

  ghost predicate MirrorsShared<O>(shared: map<string, map<Token, O>>, running: Running<O>) {
    && (forall t, k :: t in running && running[t].HasScope(k, Shared) ==> Holds(shared, k, t))
    && (forall k, t :: Holds(shared, k, t) ==> OwnsScope(running, t, k, Shared, shared[k][t]))
    && (forall k :: k in shared ==> |shared[k]| > 0)
  }

  /** The running calls are disjoint, and the guard's maps hold what they hold
      and nothing else. */
  ghost predicate Consistent<O>(g: GuardState<O>, running: Running<O>) {
    && Disjoint(running)
    && MirrorsKeys(g.items, running)
    && MirrorsExclusive(g.exclusive, running)
    && MirrorsShared(g.shared, running)
  }

  /** An accepted call conflicts with none that is running: it shares no key with
      any of them, and no scope unless both hold it shared. */
  lemma AcceptedIsDisjoint<O>(g: GuardState<O>, running: Running<O>, run: Run<O>, token: Token)
    requires Consistent(g, running) && token !in running && !g.Refuses(run)
    ensures Disjoint(running[token := run])
  {
    forall t, k | t in running && k in running[t].keys ensures k !in run.keys {
      assert k in g.items && k !in run.keys.Keys * g.items.Keys;
    }
    forall t, k, m | t in running && running[t].HasScope(k, m)
      ensures !run.HasScope(k, Exclusive) && (m.Exclusive? ==> !run.HasScope(k, Shared))
    {}
  }

  /** Two calls conflict when they share a key, or a scope that one of them wants
      for itself. */
  ghost predicate Conflict<O>(a: Run<O>, b: Run<O>) {
    || a.keys.Keys * b.keys.Keys != {}
    || (a.scope.Some? && b.scope.Some? && a.scope.value.key == b.scope.value.key
        && (a.scope.value.mode.Exclusive? || b.scope.value.mode.Exclusive?))
  }

  /** A call is refused exactly when it conflicts with one that is running. */
  lemma RefusesExactlyConflicts<O>(g: GuardState<O>, running: Running<O>, run: Run<O>)
    requires Consistent(g, running)
    ensures g.Refuses(run) <==> exists t :: t in running && Conflict(running[t], run)
  {
    if g.Refuses(run) {
      var t := ConflictingRun(g, running, run);
    } else {
      forall t | t in running ensures !Conflict(running[t], run) {
        AcceptedConflictsWithNone(g, running, run, t);
      }
    }
  }

  lemma ConflictingRun<O>(g: GuardState<O>, running: Running<O>, run: Run<O>) returns (t: Token)
    requires Consistent(g, running) && g.Refuses(run)
    ensures t in running && Conflict(running[t], run)
  {
    if run.keys.Keys * g.items.Keys != {} {
      var k :| k in run.keys.Keys * g.items.Keys;
      t :| OwnsKey(running, t, k, g.items[k]);
      assert k in running[t].keys.Keys * run.keys.Keys;
    } else {
      var key := run.scope.value.key;
      if key in g.exclusive {
        t :| OwnsScope(running, t, key, Exclusive, g.exclusive[key]);
      } else {
        var u :| u in g.shared[key];
        assert Holds(g.shared, key, u);
        assert OwnsScope(running, u, key, Shared, g.shared[key][u]);
        t := u;
      }
    }
  }

  lemma AcceptedConflictsWithNone<O>(g: GuardState<O>, running: Running<O>, run: Run<O>, t: Token)
    requires Consistent(g, running) && !g.Refuses(run) && t in running
    ensures !Conflict(running[t], run)
  {
    forall k | k in running[t].keys ensures k !in run.keys {
      assert k in g.items && k !in run.keys.Keys * g.items.Keys;
    }
    if running[t].scope.Some? {
      var scope := running[t].scope.value;
      assert running[t].HasScope(scope.key, scope.mode);
      assert scope.mode.Shared? ==> Holds(g.shared, scope.key, t);
    }
  }

  lemma AcquireMirrorsKeys<O>(items: map<string, O>, running: Running<O>, run: Run<O>, token: Token)
    requires MirrorsKeys(items, running) && token !in running
    ensures MirrorsKeys(items + run.keys, running[token := run])
  {
    var items', running' := items + run.keys, running[token := run];
    forall k | k in items' ensures exists t :: OwnsKey(running', t, k, items'[k]) {
      if k in run.keys {
        assert OwnsKey(running', token, k, items'[k]);
      } else {
        var t :| OwnsKey(running, t, k, items[k]);
        assert OwnsKey(running', t, k, items'[k]);
      }
    }
  }

  lemma AcquireMirrorsExclusive<O>(g: GuardState<O>, running: Running<O>, run: Run<O>, token: Token)
    requires MirrorsExclusive(g.exclusive, running) && token !in running
    ensures MirrorsExclusive(g.Acquire(run, token).exclusive, running[token := run])
  {
    var exclusive', running' := g.Acquire(run, token).exclusive, running[token := run];
    forall k | k in exclusive' ensures exists t :: OwnsScope(running', t, k, Exclusive, exclusive'[k]) {
      if run.HasScope(k, Exclusive) {
        assert OwnsScope(running', token, k, Exclusive, exclusive'[k]);
      } else {
        var t :| OwnsScope(running, t, k, Exclusive, g.exclusive[k]);
        assert OwnsScope(running', t, k, Exclusive, exclusive'[k]);
      }
    }
  }

  lemma AcquireMirrorsShared<O>(g: GuardState<O>, running: Running<O>, run: Run<O>, token: Token)
    requires MirrorsShared(g.shared, running) && token !in running
    ensures MirrorsShared(g.Acquire(run, token).shared, running[token := run])
  {
    if run.scope.Some? && run.scope.value.mode.Shared? {
      AcquireSharedScope(g, running, run, token);
    }
  }

  lemma AcquireSharedScope<O>(g: GuardState<O>, running: Running<O>, run: Run<O>, token: Token)
    requires MirrorsShared(g.shared, running) && token !in running
    requires run.scope.Some? && run.scope.value.mode.Shared?
    ensures MirrorsShared(g.AcquireScope(run.scope.value, token).shared, running[token := run])
  {
    var scope := run.scope.value;
    var shared', running' := g.AcquireScope(scope, token).shared, running[token := run];
    assert token in shared'[scope.key];
    forall k, t ensures Holds(shared', k, t) <==> Holds(g.shared, k, t) || (k == scope.key && t == token) {}
    forall k, t | Holds(shared', k, t) ensures OwnsScope(running', t, k, Shared, shared'[k][t]) {
      if Holds(g.shared, k, t) { assert OwnsScope(running, t, k, Shared, g.shared[k][t]); }
    }
  }

  lemma AcquireKeepsConsistent<O>(g: GuardState<O>, running: Running<O>, run: Run<O>, token: Token)
    requires Consistent(g, running) && token !in running && !g.Refuses(run)
    ensures Consistent(g.Acquire(run, token), running[token := run])
  {
    AcceptedIsDisjoint(g, running, run, token);
    AcquireMirrorsKeys(g.items, running, run, token);
    AcquireMirrorsExclusive(g, running, run, token);
    AcquireMirrorsShared(g, running, run, token);
  }

  lemma ReleaseMirrorsKeys<O>(items: map<string, O>, running: Running<O>, token: Token)
    requires Disjoint(running) && MirrorsKeys(items, running) && token in running
    ensures MirrorsKeys(items - running[token].keys.Keys, running - {token})
  {
    var run := running[token];
    var items', running' := items - run.keys.Keys, running - {token};
    forall k | k in items' ensures exists t :: OwnsKey(running', t, k, items'[k]) {
      var t :| OwnsKey(running, t, k, items[k]);
      assert t != token;
      assert OwnsKey(running', t, k, items'[k]);
    }
    forall t, k | t in running' && k in running'[t].keys ensures k in items' {
      assert k in running[t].keys && k !in run.keys;
    }
  }

  lemma ReleaseMirrorsExclusive<O>(g: GuardState<O>, running: Running<O>, token: Token)
    requires Disjoint(running) && MirrorsExclusive(g.exclusive, running) && token in running
    ensures MirrorsExclusive(g.Release(running[token], token).exclusive, running - {token})
  {
    var exclusive', running' := g.Release(running[token], token).exclusive, running - {token};
    forall k | k in exclusive' ensures exists t :: OwnsScope(running', t, k, Exclusive, exclusive'[k]) {
      var t :| OwnsScope(running, t, k, Exclusive, g.exclusive[k]);
      assert t != token;
      assert OwnsScope(running', t, k, Exclusive, exclusive'[k]);
    }
    forall t, k | t in running' && running'[t].HasScope(k, Exclusive) ensures k in exclusive' {
      assert running[t].HasScope(k, Exclusive);
    }
  }

  lemma ReleaseMirrorsShared<O>(g: GuardState<O>, running: Running<O>, token: Token)
    requires MirrorsShared(g.shared, running) && token in running
    ensures MirrorsShared(g.Release(running[token], token).shared, running - {token})
  {
    var run := running[token];
    if run.scope.Some? && run.scope.value.mode.Shared? {
      ReleaseSharedScope(g, running, token);
    } else {
      forall k, t | Holds(g.shared, k, t) ensures OwnsScope(running - {token}, t, k, Shared, g.shared[k][t]) {
        assert OwnsScope(running, t, k, Shared, g.shared[k][t]);
      }
    }
  }

  lemma ReleasedHolders<O>(g: GuardState<O>, scope: Scope<O>, token: Token)
    requires scope.mode.Shared? && forall k :: k in g.shared ==> |g.shared[k]| > 0
    ensures var shared' := g.ReleaseScope(scope, token).shared;
            && (forall k, t :: Holds(shared', k, t) <==> Holds(g.shared, k, t) && !(k == scope.key && t == token))
            && (forall k, t :: Holds(shared', k, t) ==> shared'[k][t] == g.shared[k][t])
            && (forall k :: k in shared' ==> |shared'[k]| > 0)
  {
    if scope.key in g.shared {
      var rest := g.shared[scope.key] - {token};
      forall k, t | Holds(g.shared, k, t) && k == scope.key && t != token ensures t in rest && |rest| > 0 {
        assert t in rest;
      }
    }
  }

  lemma ReleaseSharedScope<O>(g: GuardState<O>, running: Running<O>, token: Token)
    requires MirrorsShared(g.shared, running) && token in running
    requires running[token].scope.Some? && running[token].scope.value.mode.Shared?
    ensures MirrorsShared(g.ReleaseScope(running[token].scope.value, token).shared, running - {token})
  {
    var scope := running[token].scope.value;
    var shared' := g.ReleaseScope(scope, token).shared;
    ReleasedHolders(g, scope, token);
    forall k, t | Holds(shared', k, t) ensures OwnsScope(running - {token}, t, k, Shared, shared'[k][t]) {
      assert OwnsScope(running, t, k, Shared, g.shared[k][t]);
    }
  }

  lemma ReleaseKeepsConsistent<O>(g: GuardState<O>, running: Running<O>, token: Token)
    requires Consistent(g, running) && token in running
    ensures Consistent(g.Release(running[token], token), running - {token})
  {
    ReleaseMirrorsKeys(g.items, running, token);
    ReleaseMirrorsExclusive(g, running, token);
    ReleaseMirrorsShared(g, running, token);
  }

  /** When every call has settled, normally or by throwing, all maps are empty. */
  lemma SettledGuardIsIdle<O>(g: GuardState<O>)
    requires Consistent(g, map[])
    ensures g == Idle<O>()
  {
    forall k ensures k !in g.items && k !in g.exclusive && k !in g.shared {
      if k in g.shared {
        var t :| t in g.shared[k];
        assert Holds(g.shared, k, t);
      }
    }
  }

  /** A scope held exclusively has no other holder in the guard's own maps. */
  lemma ExclusiveScopeIsHeldAlone<O>(g: GuardState<O>, running: Running<O>, k: string)
    requires Consistent(g, running) && k in g.exclusive
    ensures k !in g.shared
    ensures exists t :: OwnsScope(running, t, k, Exclusive, g.exclusive[k])
                        && (forall u, m :: u in running && running[u].HasScope(k, m) ==> u == t)
  {
    var t :| OwnsScope(running, t, k, Exclusive, g.exclusive[k]);
    assert running[t].HasScope(k, Exclusive);
    if k in g.shared {
      var u :| u in g.shared[k];
      assert Holds(g.shared, k, u);
      assert OwnsScope(running, u, k, Shared, g.shared[k][u]);
      assert running[u].HasScope(k, Shared);
    }
  }

  /** One event of the guard: a call of `run`, or the end of a running one. */
  datatype Event<+O> = Call(run: Run<O>) | Settled(token: Token)

  /** The guard after a history of events, with the calls still running. A token
      is a Symbol: the number of events so far, so never used twice. */
  ghost function After<O>(events: seq<Event<O>>): (GuardState<O>, Running<O>) {
    if events == [] then (Idle<O>(), map[])
    else
      var (g, running) := After(events[..|events| - 1]);
      var token := |events|;
      match events[|events| - 1]
      case Call(run) =>
        if g.Refuses(run) then (g, running) else (g.Acquire(run, token), running[token := run])
      case Settled(t) =>
        if t in running then (g.Release(running[t], t), running - {t}) else (g, running)
  }

  /** In every reachable state the maps mirror the running calls, which are
      pairwise disjoint: no key has two owners, no exclusive scope a companion. */
  lemma {:induction false} EveryHistoryIsConsistent<O>(events: seq<Event<O>>)
    ensures var (g, running) := After(events);
            Consistent(g, running) && (forall t :: t in running ==> t <= |events|)
  {
    if events != [] {
      var front := events[..|events| - 1];
      EveryHistoryIsConsistent(front);
      var (g, running) := After(front);
      var last := events[|events| - 1];
      if last.Call? && !g.Refuses(last.run) {
        AcquireKeepsConsistent(g, running, last.run, |events|);
      } else if last.Settled? && last.token in running {
        ReleaseKeepsConsistent(g, running, last.token);
      }
    }
  }

  lemma SetThenDeleted<K, V>(m: map<K, V>, k: K, v: V)
    ensures m[k := v] - {k} == m - {k}
  {}

  /** The guard object. `running` holds what the suspended calls of the source
      keep in their frames: the arguments each `finally` block will read. */
  class ConcurrentOperationGuard<O> {
    var items: map<string, O>
    var sharedScopeHolders: map<string, map<Token, O>>
    var exclusiveScopeHolders: map<string, O>
    var running: map<Token, Run<O>>
    var nextToken: Token

    ghost predicate Valid()
      reads this
    {
      Consistent(State(), running) && forall t :: t in running ==> t < nextToken
    }

    ghost function State(): GuardState<O>
      reads this
    {
      GuardState(items, sharedScopeHolders, exclusiveScopeHolders)
    }

    constructor ()
      ensures Valid() && State() == Idle<O>() && running == map[] && nextToken == 0
    {
      items, sharedScopeHolders, exclusiveScopeHolders := map[], map[], map[];
      running, nextToken := map[], 0;
    }

    method FindConflictOwner(keys: map<string, O>) returns (owner: Option<O>)
      ensures owner.None? <==> keys.Keys * items.Keys == {}
      ensures owner.Some? ==> exists k :: k in keys && k in items && items[k] == owner.value
    {
      var rest := keys.Keys;
      while rest != {}
        invariant rest <= keys.Keys
        invariant (keys.Keys - rest) * items.Keys == {}
      {
        var key :| key in rest;
        if key in items {
          assert key in keys.Keys * items.Keys;
          return Some(items[key]);
        }
        rest := rest - {key};
      }
      return None;
    }

    method FindScopeConflictOwner(scope: Scope<O>) returns (owner: Option<O>)
      ensures owner.Some? <==> State().ScopeRefused(scope)
      ensures owner.Some? ==>
                || (scope.key in exclusiveScopeHolders && owner.value == exclusiveScopeHolders[scope.key])
                || (scope.key in sharedScopeHolders && exists t :: t in sharedScopeHolders[scope.key]
                                                                   && sharedScopeHolders[scope.key][t] == owner.value)
    {
      if scope.key in exclusiveScopeHolders { return Some(exclusiveScopeHolders[scope.key]); }
      if scope.mode.Shared? || scope.key !in sharedScopeHolders || |sharedScopeHolders[scope.key]| == 0 {
        return None;
      }
      var token :| token in sharedScopeHolders[scope.key];
      return Some(sharedScopeHolders[scope.key][token]);
    }

    method AcquireScope(scope: Scope<O>, token: Token)
      modifies this`sharedScopeHolders, this`exclusiveScopeHolders
      ensures State() == old(State()).AcquireScope(scope, token)
    {
      if scope.mode.Exclusive? {
        exclusiveScopeHolders := exclusiveScopeHolders[scope.key := scope.owner];
      } else {
        var holders := if scope.key in sharedScopeHolders then sharedScopeHolders[scope.key] else map[];
        sharedScopeHolders := sharedScopeHolders[scope.key := holders[token := scope.owner]];
      }
    }

    method ReleaseScope(scope: Scope<O>, token: Token)
      modifies this`sharedScopeHolders, this`exclusiveScopeHolders
      ensures State() == old(State()).ReleaseScope(scope, token)
    {
      if scope.mode.Exclusive? {
        exclusiveScopeHolders := exclusiveScopeHolders - {scope.key};
      } else if scope.key in sharedScopeHolders {
        var holders := sharedScopeHolders[scope.key] - {token};
        sharedScopeHolders := sharedScopeHolders[scope.key := holders];
        if |holders| == 0 {
          SetThenDeleted(old(sharedScopeHolders), scope.key, holders);
          sharedScopeHolders := sharedScopeHolders - {scope.key};
        }
      }
    }

    method AddAll(keys: map<string, O>)
      modifies this`items
      ensures items == old(items) + keys
    {
      var rest := keys.Keys;
      while rest != {}
        invariant rest <= keys.Keys
        invariant items == old(items) + (keys - rest)
      {
        var key :| key in rest;
        items := items[key := keys[key]];
        rest := rest - {key};
      }
    }

    /** `remove` throws on an absent key, so each must be there. */
    method RemoveAll(keys: set<string>)
      requires keys <= items.Keys
      modifies this`items
      ensures items == old(items) - keys
    {
      var rest := keys;
      while rest != {}
        invariant rest <= keys
        invariant items == old(items) - (keys - rest)
      {
        var key :| key in rest;
        assert key in items;
        items := items - {key};
        rest := rest - {key};
      }
    }

    method Admit(run: Run<O>, token: Token)
      modifies this`items, this`sharedScopeHolders, this`exclusiveScopeHolders
      ensures State() == old(State()).Acquire(run, token)
    {
      if run.scope.Some? { AcquireScope(run.scope.value, token); }
      AddAll(run.keys);
    }

    method FindConflict(run: Run<O>) returns (owner: Option<O>)
      ensures owner.Some? <==> State().Refuses(run)
    {
      if run.scope.Some? {
        owner := FindScopeConflictOwner(run.scope.value);
        if owner.Some? { return; }
      }
      owner := FindConflictOwner(run.keys);
    }

    /** The part of `run` before the await. A refused call changes nothing. */
    method Begin(run: Run<O>) returns (r: Result<Token, O>)
      requires Valid()
      modifies this
      ensures Valid()
      ensures r.Err? <==> old(State().Refuses(run))
      ensures r.Err? ==> State() == old(State()) && running == old(running) && nextToken == old(nextToken)
      ensures r.Ok? ==> r.value !in old(running) && running == old(running)[r.value := run]
      ensures r.Ok? ==> r.value == old(nextToken) && nextToken == old(nextToken) + 1
      ensures r.Ok? ==> State() == old(State()).Acquire(run, r.value)
    {
      var conflict := FindConflict(run);
      if conflict.Some? {
        r := Err(conflict.value);
      } else {
        var token := nextToken;
        AcquireKeepsConsistent(State(), running, run, token);
        Admit(run, token);
        nextToken := nextToken + 1;
        running := running[token := run];
        r := Ok(token);
      }
    }

    /** The `finally` block: a running call's keys are all present, so no
        `remove` in it throws. */
    method Settle(token: Token)
      requires Valid() && token in running
      modifies this
      ensures Valid() && running == old(running) - {token} && nextToken == old(nextToken)
      ensures State() == old(State()).Release(old(running)[token], token)
      ensures running == map[] ==> State() == Idle<O>()
    {
      var run := running[token];
      ReleaseKeepsConsistent(State(), running, token);
      RemoveAll(run.keys.Keys);
      if run.scope.Some? { ReleaseScope(run.scope.value, token); }
      running := running - {token};
      if running == map[] { SettledGuardIsIdle(State()); }
    }
  }
}

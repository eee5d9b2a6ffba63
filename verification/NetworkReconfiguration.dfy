/** Network updates and removals, interleaved with operations on the networks,
    reservation actions, additions and switches of the selected network. A step is
    the code between two awaits. */
module NetworkReconfiguration {
  import opened Common
  import opened OperationGuard
  import opened ReservationOperationGuard
  import opened NetworkBusyRegistry
  import opened ApiClientManager

  datatype Change = Update(config: Config) | Addition(config: Config) | Removal

  /** Where a network action is; a write holds the networks its record was made from. */
  datatype Stage =
    | Queued(change: Change)                                     // awaits its turn to write
    | Writing(change: Change, seen: map<NetworkId, Config>)      // awaits the storage
    | Applying(change: Change, seen: map<NetworkId, Config>)     // its continuation is queued
    | Cleaning                                                   // awaits the reservations' deletion
    | Ended                                                      // failed, or done: only the guard's finally block is left

  /** An update or removal holds its network's exclusive scope; an addition, of a
      fresh network, holds nothing. `idle` is set once the idle check has passed. */
  datatype NetworkAction = NetworkAction(network: NetworkId, guarded: bool, idle: bool, stage: Stage) {
    predicate InQueue() { stage.Queued? || stage.Writing? || stage.Applying? }
  }

  /** A pending network operation, and whether it started on the selected network. */
  datatype Operation = Operation(network: NetworkId, onCurrent: bool)

  datatype State = State(
    guard: GuardState<Owner>,
    running: Running<Owner>,              // the guard's running calls
    actions: map<Token, NetworkAction>,
    queue: seq<Token>,                    // the serialized writes, the one under way first
    operations: map<Token, Operation>,
    api: Api,
    stored: map<NetworkId, Config>,       // the table of custom networks
    next: Token)
  {
    predicate HasNetworkScope(n: NetworkId) { NetworkKey(n) in guard.exclusive }

    function With(t: Token, a: NetworkAction): State {
      this.(actions := actions[t := a])
    }

    function Dequeue(): State
      requires queue != []
    {
      this.(queue := queue[1..])
    }

    // ---- Reservation actions and network operations ----

    function StartReservation(kind: Kind, network: NetworkId, account: string, deployId: string, id: string): State {
      var run := ActionRun(kind, network, account, deployId, id);
      if guard.Refuses(run) then this
      else this.(guard := guard.Acquire(run, next), running := running[next := run], next := next + 1)
    }

    function EndReservation(t: Token): State
      requires t in running && t !in actions
    {
      this.(guard := guard.Release(running[t], t), running := running - {t})
    }

    /** Refused while the target network is being reconfigured. */
    function StartOperation(networkId: Option<NetworkId>): State {
      var target := if networkId.Some? then networkId.value else api.current;
      if HasNetworkScope(target) then this
      else
        this.(operations := operations[next := Operation(target, target == api.current)],
              api := api.(counters := Acquire(api.counters, target)), next := next + 1)
    }

    function EndOperation(t: Token): State
      requires t in operations
    {
      this.(operations := operations - {t}, api := api.(counters := Release(api.counters, operations[t].network)))
    }

    /** Refused while the selected network is busy. */
    function SwitchTo(n: NetworkId): State {
      var switched := api.SwitchNetwork(n);
      if switched.None? then this else this.(api := switched.value)
    }

    // ---- Network actions ----

    /** Acquire the scope, look the network up when updating it, check that it is
        idle, and queue the write: all before the first await. */
    function StartReconfiguring(n: NetworkId, change: Change): State {
      var run := NetworkRun(n);
      if guard.Refuses(run) then this
      else
        var known := change.Removal? || api.Knows(n);
        var idle := known && !IsBusy(api.counters, n);
        var a := NetworkAction(n, true, idle, if idle then Queued(change) else Ended);
        this.(guard := guard.Acquire(run, next), running := running[next := run], actions := actions[next := a],
              queue := if idle then queue + [next] else queue, next := next + 1)
    }

    /** The new network's id is generated when its turn to write comes; it is fresh. */
    function StartAdding(n: NetworkId, config: Config): State {
      this.(actions := actions[next := NetworkAction(n, false, false, Queued(Addition(config)))],
            queue := queue + [next], next := next + 1)
    }

    /** Its turn: make the record from the networks there are, or fail to. */
    function BeginWrite(valid: bool): State
      requires queue != [] && queue[0] in actions && actions[queue[0]].stage.Queued?
    {
      var t := queue[0];
      var a := actions[t];
      if (a.stage.change.Update? && a.network !in api.custom) || !valid then With(t, a.(stage := Ended)).Dequeue()
      else With(t, a.(stage := Writing(a.stage.change, api.custom)))
    }

    function StoredAfter(n: NetworkId, change: Change): map<NetworkId, Config> {
      if change.Removal? then stored - {n} else stored[n := change.config]
    }

    function Stored(ok: bool): State
      requires queue != [] && queue[0] in actions && actions[queue[0]].stage.Writing?
    {
      var t := queue[0];
      var a := actions[t];
      if !ok then With(t, a.(stage := Ended)).Dequeue()
      else With(t, a.(stage := Applying(a.stage.change, a.stage.seen))).(stored := StoredAfter(a.network, a.stage.change))
    }

    function Applied(first: NetworkId): (Api, bool)
      requires queue != [] && queue[0] in actions && actions[queue[0]].stage.Applying?
    {
      var a := actions[queue[0]];
      if a.stage.change.Removal? then api.RemoveNetwork(a.network, first)
      else api.ApplyNetwork(a.network, a.stage.change.config)
    }

    /** The in-memory half; whether it threw or not, the queue goes on. */
    function Apply(first: NetworkId): State
      requires queue != [] && queue[0] in actions && actions[queue[0]].stage.Applying?
    {
      var t := queue[0];
      var a := actions[t];
      var (api', ok) := Applied(first);
      With(t, a.(stage := if ok && a.guarded then Cleaning else Ended)).Dequeue().(api := api')
    }

    function Cleaned(t: Token): State
      requires t in actions && actions[t].stage.Cleaning?
    {
      With(t, actions[t].(stage := Ended))
    }

    function Leave(t: Token): State
      requires t in actions && actions[t].stage.Ended? && (actions[t].guarded ==> t in running)
    {
      if actions[t].guarded then
        this.(guard := guard.Release(running[t], t), running := running - {t}, actions := actions - {t})
      else this.(actions := actions - {t})
    }
  }

  datatype Step =
    | StartReservation(kind: Kind, network: NetworkId, account: string, deployId: string, id: string)
    | EndReservation(t: Token)
    | StartOperation(networkId: Option<NetworkId>)
    | EndOperation(t: Token)
    | SwitchTo(network: NetworkId)
    | StartReconfiguring(network: NetworkId, change: Change)
    | StartAdding(network: NetworkId, config: Config)
    | BeginWrite(valid: bool)
    | Stored(ok: bool)
    | Apply(first: NetworkId)
    | Cleaned(t: Token)
    | Leave(t: Token)

  /** A generated id is not in use, stored, or about to be. */
  ghost predicate IsFresh(s: State, n: NetworkId) {
    !s.api.Knows(n) && n !in s.stored && forall t :: t in s.actions ==> s.actions[t].network != n
  }

  /** No caller knows a network's id before it is added. */
  ghost predicate BeingAdded(s: State, n: NetworkId) {
    exists t :: t in s.actions && !s.actions[t].guarded && s.actions[t].network == n && s.actions[t].InQueue()
  }

  ghost predicate Enabled(s: State, step: Step) {
    match step
    case StartReservation(kind, _, _, _, _) => !kind.Cleanup?
    case EndReservation(t) => t in s.running && t !in s.actions
    case EndOperation(t) => t in s.operations
    case StartReconfiguring(n, change) => !change.Addition? && !BeingAdded(s, n)
    case StartAdding(n, _) => IsFresh(s, n)
    case BeginWrite(_) => s.queue != [] && s.queue[0] in s.actions && s.actions[s.queue[0]].stage.Queued?
    case Stored(_) => s.queue != [] && s.queue[0] in s.actions && s.actions[s.queue[0]].stage.Writing?
    case Apply(first) => s.queue != [] && s.queue[0] in s.actions && s.actions[s.queue[0]].stage.Applying?
                         && first in s.api.defaults
    case Cleaned(t) => t in s.actions && s.actions[t].stage.Cleaning?
    case Leave(t) => t in s.actions && s.actions[t].stage.Ended? && (s.actions[t].guarded ==> t in s.running)
    case _ => true
  }

  ghost function Next(s: State, step: Step): State
    requires Enabled(s, step)
  {
    match step
    case StartReservation(kind, network, account, deployId, id) => s.StartReservation(kind, network, account, deployId, id)
    case EndReservation(t) => s.EndReservation(t)
    case StartOperation(networkId) => s.StartOperation(networkId)
    case EndOperation(t) => s.EndOperation(t)
    case SwitchTo(n) => s.SwitchTo(n)
    case StartReconfiguring(n, change) => s.StartReconfiguring(n, change)
    case StartAdding(n, config) => s.StartAdding(n, config)
    case BeginWrite(valid) => s.BeginWrite(valid)
    case Stored(ok) => s.Stored(ok)
    case Apply(first) => s.Apply(first)
    case Cleaned(t) => s.Cleaned(t)
    case Leave(t) => s.Leave(t)
  }

  /** Just initialized: nothing runs, and memory holds what storage does. */
  ghost predicate Init(s: State) {
    && s.guard == Idle<Owner>() && s.running == map[] && s.actions == map[] && s.queue == [] && s.operations == map[]
    && s.api.counters == map[] && s.api.Knows(s.api.current) && s.api.custom == s.stored
    && s.api.defaults !! s.stored.Keys && s.api.defaults != {}
  }

  // ---- The invariant ----

  function Pending(operations: map<Token, Operation>): map<Token, NetworkId> {
    map t | t in operations :: operations[t].network
  }

  type Actions = map<Token, NetworkAction>

  /** The guard, and what each network action holds in it. */
  ghost predicate GuardOk(guard: GuardState<Owner>, running: Running<Owner>, actions: Actions) {
    && Consistent(guard, running)
    && (forall t :: t in actions && actions[t].guarded ==> t in running && running[t] == NetworkRun(actions[t].network))
  }

  ghost predicate TokensOk(running: Running<Owner>, actions: Actions, operations: map<Token, Operation>, next: Token) {
    forall t :: t in running || t in actions || t in operations ==> t < next
  }

  /** Each counter counts, and no operation runs on a network that an action found
      idle, until that action ends. */
  ghost predicate BusyOk(counters: Counters, operations: map<Token, Operation>, actions: Actions) {
    && CountersMatch(counters, Pending(operations))
    && (forall t, u :: t in actions && actions[t].idle && u in operations ==> operations[u].network != actions[t].network)
    && (forall t :: t in actions && actions[t].idle ==> actions[t].guarded)
  }

  /** An operation that started on the selected network still has it selected. */
  ghost predicate CurrentOk(current: NetworkId, operations: map<Token, Operation>) {
    forall u :: u in operations && operations[u].onCurrent ==> operations[u].network == current
  }

  ghost predicate IsUnderWay(queue: seq<Token>, actions: Actions) {
    queue != [] && queue[0] in actions && (actions[queue[0]].stage.Writing? || actions[queue[0]].stage.Applying?)
  }

  /** The queue holds the writes to come, once each; only the first is under way,
      with the networks still as it saw them. */
  ghost predicate QueueOk(queue: seq<Token>, actions: Actions, custom: map<NetworkId, Config>) {
    && (forall i, j :: 0 <= i < j < |queue| ==> queue[i] != queue[j])
    && (forall i :: 0 <= i < |queue| ==> queue[i] in actions && actions[queue[i]].InQueue())
    && (forall i :: 0 < i < |queue| ==> queue[i] in actions && actions[queue[i]].stage.Queued?)
    && (forall t :: t in actions && actions[t].InQueue() ==> t in queue && IsProper(actions[t]))
    && (IsUnderWay(queue, actions) ==>
          var a := actions[queue[0]];
          a.stage.seen == custom && (a.stage.change.Update? ==> a.network in custom))
  }

  /** Additions hold no scope; updates and removals found their network idle. */
  ghost predicate IsProper(a: NetworkAction) {
    a.InQueue() ==> (a.stage.change.Addition? <==> !a.guarded) && (a.guarded ==> a.idle)
  }

  ghost predicate IsAddition(actions: Actions, t: Token) {
    t in actions && actions[t].InQueue() && !actions[t].guarded
  }

  /** A network being added is new to memory and to every other write. */
  ghost predicate AddingOk(actions: Actions, defaults: set<NetworkId>, custom: map<NetworkId, Config>) {
    && (forall t :: IsAddition(actions, t) ==> actions[t].network !in defaults && actions[t].network !in custom)
    && (forall t, u :: IsAddition(actions, t) && u in actions && u != t && actions[u].InQueue() ==>
          actions[u].network != actions[t].network)
  }

  /** What storage holds once the first write has reached it. */
  function Expected(queue: seq<Token>, actions: Actions, custom: map<NetworkId, Config>): map<NetworkId, Config> {
    if queue != [] && queue[0] in actions && actions[queue[0]].stage.Applying? then
      var a := actions[queue[0]];
      if a.stage.change.Removal? then custom - {a.network} else custom[a.network := a.stage.change.config]
    else custom
  }

  ghost predicate ApiOk(api: Api) {
    api.defaults !! api.custom.Keys && api.Knows(api.current)
  }

  /** Storage and memory agree, but for the write stored and not yet applied. */
  ghost predicate Inv(s: State) {
    && GuardOk(s.guard, s.running, s.actions)
    && TokensOk(s.running, s.actions, s.operations, s.next)
    && BusyOk(s.api.counters, s.operations, s.actions)
    && CurrentOk(s.api.current, s.operations)
    && QueueOk(s.queue, s.actions, s.api.custom)
    && AddingOk(s.actions, s.api.defaults, s.api.custom)
    && ApiOk(s.api)
    && s.stored == Expected(s.queue, s.actions, s.api.custom)
  }

  lemma InitHolds(s: State)
    requires Init(s)
    ensures Inv(s)
  {
    assert Pending(s.operations) == map[];
    forall n ensures GetCounter(s.api.counters, n) == |On(Pending(s.operations), n)| {
      assert On(Pending(s.operations), n) == {};
    }
  }

  // ---- Steps ----

  lemma StartReservationKeepsInv(s: State, kind: Kind, network: NetworkId, account: string, deployId: string, id: string)
    requires Inv(s)
    ensures Inv(s.StartReservation(kind, network, account, deployId, id))
  {
    hide GuardOk, TokensOk, BusyOk, CurrentOk, QueueOk, AddingOk, ApiOk, Expected, ActionRun, GuardState.Refuses, GuardState.Acquire;
    var run := ActionRun(kind, network, account, deployId, id);
    if !s.guard.Refuses(run) { NewRun(s, run); }
  }

  lemma NewRun(s: State, run: Run<Owner>)
    requires GuardOk(s.guard, s.running, s.actions) && TokensOk(s.running, s.actions, s.operations, s.next)
    requires !s.guard.Refuses(run)
    ensures GuardOk(s.guard.Acquire(run, s.next), s.running[s.next := run], s.actions)
    ensures TokensOk(s.running[s.next := run], s.actions, s.operations, s.next + 1)
  {
    hide Consistent, NetworkRun, GuardState.Acquire, GuardState.Refuses;
    AcquireKeepsConsistent(s.guard, s.running, run, s.next);
  }

  lemma EndReservationKeepsInv(s: State, t: Token)
    requires Inv(s) && t in s.running && t !in s.actions
    ensures Inv(s.EndReservation(t))
  {
    hide Consistent, BusyOk, CurrentOk, QueueOk, AddingOk, ApiOk, Expected, NetworkRun, GuardState.Release;
    ReleaseKeepsConsistent(s.guard, s.running, t);
  }

  /** An action in progress holds its network's exclusive scope. */
  lemma ActionHoldsScope(s: State, t: Token)
    requires GuardOk(s.guard, s.running, s.actions) && t in s.actions && s.actions[t].guarded
    ensures s.HasNetworkScope(s.actions[t].network)
  {
    assert s.running[t].HasScope(NetworkKey(s.actions[t].network), Exclusive);
  }

  lemma StartOperationKeepsInv(s: State, networkId: Option<NetworkId>)
    requires Inv(s)
    ensures Inv(s.StartOperation(networkId))
  {
    var target := if networkId.Some? then networkId.value else s.api.current;
    hide GuardOk, BusyOk, CurrentOk, QueueOk, AddingOk, ApiOk, Expected;
    if !s.HasNetworkScope(target) {
      NewOperationIsFree(s, target);
    }
  }

  lemma NewOperationIsFree(s: State, n: NetworkId)
    requires Inv(s) && !s.HasNetworkScope(n)
    ensures BusyOk(Acquire(s.api.counters, n), s.operations[s.next := Operation(n, n == s.api.current)], s.actions)
    ensures CurrentOk(s.api.current, s.operations[s.next := Operation(n, n == s.api.current)])
  {
    hide Consistent, CountersMatch, QueueOk, AddingOk, ApiOk, Expected, NetworkRun;
    var operations := s.operations[s.next := Operation(n, n == s.api.current)];
    assert Pending(operations) == Pending(s.operations)[s.next := n];
    AcquireCounts(s.api.counters, Pending(s.operations), s.next, n);
    forall t | t in s.actions && s.actions[t].idle ensures s.actions[t].network != n {
      ActionHoldsScope(s, t);
    }
  }

  lemma EndOperationKeepsInv(s: State, t: Token)
    requires Inv(s) && t in s.operations
    ensures Inv(s.EndOperation(t))
  {
    hide GuardOk, CountersMatch, QueueOk, AddingOk, Expected;
    ReleaseCounts(s.api.counters, Pending(s.operations), t);
    assert Pending(s.operations - {t}) == Pending(s.operations) - {t};
  }

  lemma NotBusyNoOperation(counters: Counters, operations: map<Token, Operation>, n: NetworkId)
    requires CountersMatch(counters, Pending(operations))
    ensures IsBusy(counters, n) <==> exists u :: u in operations && operations[u].network == n
  {
    BusyMeansPending(counters, Pending(operations), n);
    if IsBusy(counters, n) {
      var u :| u in Pending(operations) && Pending(operations)[u] == n;
      assert u in operations && operations[u].network == n;
    }
    forall u | u in operations && operations[u].network == n ensures u in Pending(operations) && Pending(operations)[u] == n {}
  }

  lemma SwitchKeepsInv(s: State, n: NetworkId)
    requires Inv(s)
    ensures Inv(s.SwitchTo(n))
  {
    hide GuardOk, TokensOk, CountersMatch, QueueOk, AddingOk, Expected;
    NotBusyNoOperation(s.api.counters, s.operations, s.api.current);
  }

  // A new network action: it joins the queue, or has already failed.

  lemma NewActionKeepsBusy(s: State, a: NetworkAction)
    requires BusyOk(s.api.counters, s.operations, s.actions) && (a.idle ==> a.guarded && !IsBusy(s.api.counters, a.network))
    ensures BusyOk(s.api.counters, s.operations, s.actions[s.next := a])
  {
    hide CountersMatch, IsBusy;
    NotBusyNoOperation(s.api.counters, s.operations, a.network);
  }

  lemma NewActionKeepsQueue(s: State, a: NetworkAction)
    requires QueueOk(s.queue, s.actions, s.api.custom) && TokensOk(s.running, s.actions, s.operations, s.next)
    requires IsProper(a) && (a.stage.Queued? || a.stage.Ended?)
    ensures var queue := if a.InQueue() then s.queue + [s.next] else s.queue;
            QueueOk(queue, s.actions[s.next := a], s.api.custom)
            && Expected(queue, s.actions[s.next := a], s.api.custom) == Expected(s.queue, s.actions, s.api.custom)
  {
    assert s.next !in s.actions;
    if a.InQueue() {
      QueueGrows(s.queue, s.actions, s.api.custom, s.next, a);
    } else {
      hide TokensOk, IsProper;
    }
  }

  lemma QueueGrows(queue: seq<Token>, actions: Actions, custom: map<NetworkId, Config>, t: Token, a: NetworkAction)
    requires QueueOk(queue, actions, custom) && t !in actions && IsProper(a) && a.stage.Queued?
    ensures QueueOk(queue + [t], actions[t := a], custom)
    ensures Expected(queue + [t], actions[t := a], custom) == Expected(queue, actions, custom)
  {
    var queue', actions' := queue + [t], actions[t := a];
    forall i | 0 <= i < |queue'| ensures queue'[i] in actions' && actions'[queue'[i]].InQueue() {
      assert i < |queue| ==> queue'[i] == queue[i] && queue[i] in actions;
    }
    forall i | 0 < i < |queue'| ensures actions'[queue'[i]].stage.Queued? {
      assert i < |queue| ==> queue'[i] == queue[i] && queue[i] in actions;
    }
    forall u | u in actions' && actions'[u].InQueue() ensures u in queue' && IsProper(actions'[u]) {
      assert u == t || u in queue;
      assert queue'[|queue|] == t;
    }
    assert queue != [] ==> queue'[0] == queue[0] && queue[0] in actions;
    hide IsProper;
  }

  lemma NewActionKeepsAdding(s: State, a: NetworkAction)
    requires AddingOk(s.actions, s.api.defaults, s.api.custom) && TokensOk(s.running, s.actions, s.operations, s.next)
    requires a.InQueue() ==> if a.guarded then !BeingAdded(s, a.network) else IsFresh(s, a.network)
    ensures AddingOk(s.actions[s.next := a], s.api.defaults, s.api.custom)
  {
    var actions := s.actions[s.next := a];
    forall t, u | IsAddition(actions, t) && u in actions && u != t && actions[u].InQueue()
      ensures actions[u].network != actions[t].network
    {
      assert u != s.next ==> u in s.actions && actions[u] == s.actions[u];
      assert t != s.next ==> IsAddition(s.actions, t) && actions[t] == s.actions[t];
    }
    forall t | IsAddition(actions, t) ensures actions[t].network !in s.api.defaults && actions[t].network !in s.api.custom {
      assert t != s.next ==> IsAddition(s.actions, t);
    }
  }

  lemma NewActionKeepsGuard(s: State, a: NetworkAction)
    requires GuardOk(s.guard, s.running, s.actions) && TokensOk(s.running, s.actions, s.operations, s.next)
    requires a.guarded ==> !s.guard.Refuses(NetworkRun(a.network))
    ensures a.guarded ==>
              GuardOk(s.guard.Acquire(NetworkRun(a.network), s.next), s.running[s.next := NetworkRun(a.network)], s.actions[s.next := a])
    ensures !a.guarded ==> GuardOk(s.guard, s.running, s.actions[s.next := a])
  {
    hide Consistent, NetworkRun, GuardState.Acquire, GuardState.Refuses;
    if a.guarded { NewRun(s, NetworkRun(a.network)); }
  }

  lemma NewActionKeepsTokens(s: State, a: NetworkAction, run: Run<Owner>)
    requires TokensOk(s.running, s.actions, s.operations, s.next)
    ensures TokensOk(s.running[s.next := run], s.actions[s.next := a], s.operations, s.next + 1)
    ensures TokensOk(s.running, s.actions[s.next := a], s.operations, s.next + 1)
  {}

  lemma StartReconfiguringKeepsInv(s: State, n: NetworkId, change: Change)
    requires Inv(s) && !change.Addition? && !BeingAdded(s, n)
    ensures Inv(s.StartReconfiguring(n, change))
  {
    hide GuardOk, TokensOk, BusyOk, CurrentOk, QueueOk, AddingOk, ApiOk, Expected, NetworkRun, GuardState.Refuses, GuardState.Acquire, BeingAdded;
    if !s.guard.Refuses(NetworkRun(n)) {
      var idle := (change.Removal? || s.api.Knows(n)) && !IsBusy(s.api.counters, n);
      var a := NetworkAction(n, true, idle, if idle then Queued(change) else Ended);
      hide IsBusy;
      NewActionKeepsGuard(s, a);
      NewActionKeepsTokens(s, a, NetworkRun(n));
      NewActionKeepsBusy(s, a);
      NewActionKeepsQueue(s, a);
      NewActionKeepsAdding(s, a);
    }
  }

  lemma StartAddingKeepsInv(s: State, n: NetworkId, config: Config)
    requires Inv(s) && IsFresh(s, n)
    ensures Inv(s.StartAdding(n, config))
  {
    hide GuardOk, TokensOk, BusyOk, CurrentOk, QueueOk, AddingOk, ApiOk, Expected, IsFresh, IsBusy;
    var a := NetworkAction(n, false, false, Queued(Addition(config)));
    NewActionKeepsGuard(s, a);
    NewActionKeepsTokens(s, a, NetworkRun(n));
    NewActionKeepsBusy(s, a);
    NewActionKeepsQueue(s, a);
    NewActionKeepsAdding(s, a);
  }

  // An action moves on.

  /** A new stage touches neither the guard nor the counters. */
  lemma NewStageKeepsGuard(s: State, t: Token, stage: Stage)
    requires Inv(s) && t in s.actions
    ensures var actions := s.actions[t := s.actions[t].(stage := stage)];
            && GuardOk(s.guard, s.running, actions)
            && TokensOk(s.running, actions, s.operations, s.next)
            && BusyOk(s.api.counters, s.operations, actions)
  {
    hide Consistent, CountersMatch, CurrentOk, QueueOk, AddingOk, ApiOk, Expected, NetworkRun;
  }

  lemma HeadMovesOn(s: State, stage: Stage)
    requires QueueOk(s.queue, s.actions, s.api.custom) && s.queue != []
    requires var a := s.actions[s.queue[0]];
             if stage.Writing? then a.stage.Queued? && stage.change == a.stage.change && stage.seen == s.api.custom
                                    && (stage.change.Update? ==> a.network in s.api.custom)
             else stage.Applying? && a.stage.Writing? && stage.change == a.stage.change && stage.seen == a.stage.seen
    ensures QueueOk(s.queue, s.actions[s.queue[0] := s.actions[s.queue[0]].(stage := stage)], s.api.custom)
  {}

  /** The head leaves the queue, its write done or failed; `custom` may be new. */
  lemma HeadLeaves(queue: seq<Token>, actions: Actions, before: map<NetworkId, Config>, custom: map<NetworkId, Config>, stage: Stage)
    requires QueueOk(queue, actions, before) && queue != [] && (stage.Ended? || stage.Cleaning?)
    ensures QueueOk(queue[1..], actions[queue[0] := actions[queue[0]].(stage := stage)], custom)
    ensures Expected(queue[1..], actions[queue[0] := actions[queue[0]].(stage := stage)], custom) == custom
  {
    var actions' := actions[queue[0] := actions[queue[0]].(stage := stage)];
    forall t | t in actions' && actions'[t].InQueue() ensures t in queue[1..] {
      assert t in actions && actions[t].InQueue() && t != queue[0];
    }
  }

  lemma FewerWritesKeepAdding(actions: Actions, t: Token, stage: Stage, defaults: set<NetworkId>, custom: map<NetworkId, Config>)
    requires AddingOk(actions, defaults, custom) && t in actions && (stage.Writing? || stage.Applying? ==> actions[t].InQueue())
    requires !stage.Queued?
    ensures AddingOk(actions[t := actions[t].(stage := stage)], defaults, custom)
  {
    var actions' := actions[t := actions[t].(stage := stage)];
    assert forall u :: IsAddition(actions', u) ==> IsAddition(actions, u);
  }

  lemma BeginWriteKeepsInv(s: State, valid: bool)
    requires Inv(s) && Enabled(s, BeginWrite(valid))
    ensures Inv(s.BeginWrite(valid))
  {
    var t := s.queue[0];
    var a := s.actions[t];
    var fails := (a.stage.change.Update? && a.network !in s.api.custom) || !valid;
    var stage := if fails then Ended else Writing(a.stage.change, s.api.custom);
    assert s.stored == s.api.custom;
    hide GuardOk, TokensOk, BusyOk, CurrentOk, QueueOk, AddingOk, ApiOk;
    NewStageKeepsGuard(s, t, stage);
    FewerWritesKeepAdding(s.actions, t, stage, s.api.defaults, s.api.custom);
    if fails {
      HeadLeaves(s.queue, s.actions, s.api.custom, s.api.custom, stage);
      hide Expected;
    } else {
      HeadMovesOn(s, stage);
    }
  }

  lemma StoredKeepsInv(s: State, ok: bool)
    requires Inv(s) && Enabled(s, Stored(ok))
    ensures Inv(s.Stored(ok))
  {
    var t := s.queue[0];
    var a := s.actions[t];
    var stage := if ok then Applying(a.stage.change, a.stage.seen) else Ended;
    assert s.stored == s.api.custom;
    hide GuardOk, TokensOk, BusyOk, CurrentOk, QueueOk, AddingOk, ApiOk;
    NewStageKeepsGuard(s, t, stage);
    FewerWritesKeepAdding(s.actions, t, stage, s.api.defaults, s.api.custom);
    if ok {
      HeadMovesOn(s, stage);
    } else {
      HeadLeaves(s.queue, s.actions, s.api.custom, s.api.custom, stage);
      hide Expected;
    }
  }

  /** The in-memory apply after the storage write never fails because the network is
      busy; it fails only on a removal of a network that is not the user's own. */
  lemma ApplySucceeds(s: State, first: NetworkId)
    requires Inv(s) && Enabled(s, Apply(first))
    ensures var a := s.actions[s.queue[0]];
            s.Applied(first).1 == (a.stage.change.Removal? ==> a.network in s.api.custom)
    ensures s.Applied(first).0.custom == s.stored
    ensures s.Applied(first).0.current == s.api.current
            || (s.actions[s.queue[0]].stage.change.Removal? && s.actions[s.queue[0]].network == s.api.current)
    ensures s.Applied(first).0.counters == s.api.counters && ApiOk(s.Applied(first).0) && s.Applied(first).0.defaults == s.api.defaults
  {
    var t := s.queue[0];
    var a := s.actions[t];
    assert a.InQueue();
    assert a.guarded || IsAddition(s.actions, t);
    NotBusyNoOperation(s.api.counters, s.operations, a.network);
    hide GuardOk, TokensOk, CountersMatch, CurrentOk, QueueOk;
  }

  lemma ApplyKeepsAdding(s: State, first: NetworkId)
    requires Inv(s) && Enabled(s, Apply(first))
    ensures AddingOk(s.Apply(first).actions, s.api.defaults, s.stored)
  {
    var t := s.queue[0];
    var s' := s.Apply(first);
    hide GuardOk, TokensOk, BusyOk, CurrentOk, ApiOk;
    forall u | IsAddition(s'.actions, u) ensures s'.actions[u].network !in s.api.defaults && s'.actions[u].network !in s.stored {
      assert IsAddition(s.actions, u) && u != t;
    }
    forall u, v | IsAddition(s'.actions, u) && v in s'.actions && v != u && s'.actions[v].InQueue()
      ensures s'.actions[v].network != s'.actions[u].network
    {
      assert IsAddition(s.actions, u) && s.actions[v].InQueue();
    }
  }

  /** Only a removal of the selected network selects another, and then no operation
      runs on it. */
  lemma ApplyKeepsCurrent(s: State, first: NetworkId)
    requires Inv(s) && Enabled(s, Apply(first))
    ensures CurrentOk(s.Applied(first).0.current, s.operations)
  {
    ApplySucceeds(s, first);
    assert s.actions[s.queue[0]].InQueue();
    hide GuardOk, TokensOk, CountersMatch, AddingOk, ApiOk, Expected, State.Applied;
  }

  lemma ApplyKeepsInv(s: State, first: NetworkId)
    requires Inv(s) && Enabled(s, Apply(first))
    ensures Inv(s.Apply(first))
  {
    var t := s.queue[0];
    var a := s.actions[t];
    var stage := if s.Applied(first).1 && a.guarded then Cleaning else Ended;
    ApplySucceeds(s, first);
    ApplyKeepsAdding(s, first);
    ApplyKeepsCurrent(s, first);
    hide GuardOk, TokensOk, BusyOk, CurrentOk, QueueOk, AddingOk, ApiOk, Expected, State.Applied;
    NewStageKeepsGuard(s, t, stage);
    HeadLeaves(s.queue, s.actions, s.api.custom, s.stored, stage);
  }

  lemma CleanedKeepsInv(s: State, t: Token)
    requires Inv(s) && Enabled(s, Cleaned(t))
    ensures Inv(s.Cleaned(t))
  {
    hide GuardOk, TokensOk, BusyOk, CurrentOk, QueueOk, AddingOk, ApiOk, Expected;
    NewStageKeepsGuard(s, t, Ended);
    FewerWritesKeepAdding(s.actions, t, Ended, s.api.defaults, s.api.custom);
    CleanedKeepsQueue(s, t);
  }

  lemma CleanedKeepsQueue(s: State, t: Token)
    requires QueueOk(s.queue, s.actions, s.api.custom) && t in s.actions && s.actions[t].stage.Cleaning?
    ensures var actions := s.actions[t := s.actions[t].(stage := Ended)];
            && QueueOk(s.queue, actions, s.api.custom)
            && Expected(s.queue, actions, s.api.custom) == Expected(s.queue, s.actions, s.api.custom)
  {}

  lemma LeaveKeepsInv(s: State, t: Token)
    requires Inv(s) && Enabled(s, Leave(t))
    ensures Inv(s.Leave(t))
  {
    LeaveKeepsGuard(s, t);
    LeaveKeepsAdding(s, t);
    LeaveKeepsQueue(s, t);
    hide GuardOk, TokensOk, BusyOk, CurrentOk, QueueOk, AddingOk, ApiOk, Expected;
  }

  lemma LeaveKeepsQueue(s: State, t: Token)
    requires QueueOk(s.queue, s.actions, s.api.custom) && t in s.actions && s.actions[t].stage.Ended?
    ensures QueueOk(s.queue, s.actions - {t}, s.api.custom)
    ensures Expected(s.queue, s.actions - {t}, s.api.custom) == Expected(s.queue, s.actions, s.api.custom)
  {}

  lemma LeaveKeepsGuard(s: State, t: Token)
    requires Inv(s) && Enabled(s, Leave(t))
    ensures var s' := s.Leave(t);
            && GuardOk(s'.guard, s'.running, s'.actions)
            && TokensOk(s'.running, s'.actions, s'.operations, s'.next)
            && BusyOk(s'.api.counters, s'.operations, s'.actions)
  {
    hide GuardOk, TokensOk, BusyOk, CurrentOk, QueueOk, AddingOk, ApiOk, Expected;
    LeaveKeepsScopes(s, t);
    LeaveKeepsCounts(s, t);
  }

  lemma LeaveKeepsScopes(s: State, t: Token)
    requires GuardOk(s.guard, s.running, s.actions) && t in s.actions && s.actions[t].stage.Ended?
    ensures GuardOk(s.Leave(t).guard, s.Leave(t).running, s.Leave(t).actions)
  {
    hide Consistent, NetworkRun, GuardState.Release;
    if s.actions[t].guarded { ReleaseKeepsConsistent(s.guard, s.running, t); }
  }

  lemma LeaveKeepsCounts(s: State, t: Token)
    requires TokensOk(s.running, s.actions, s.operations, s.next) && BusyOk(s.api.counters, s.operations, s.actions)
    requires t in s.actions && s.actions[t].stage.Ended? && (s.actions[t].guarded ==> t in s.running)
    ensures var s' := s.Leave(t);
            && TokensOk(s'.running, s'.actions, s'.operations, s'.next)
            && BusyOk(s'.api.counters, s'.operations, s'.actions)
  {
    hide CountersMatch, GuardState.Release;
  }

  lemma LeaveKeepsAdding(s: State, t: Token)
    requires AddingOk(s.actions, s.api.defaults, s.api.custom)
    ensures AddingOk(s.actions - {t}, s.api.defaults, s.api.custom)
  {
    assert forall u :: IsAddition(s.actions - {t}, u) ==> IsAddition(s.actions, u);
  }

  lemma StepKeepsInv(s: State, step: Step)
    requires Inv(s) && Enabled(s, step)
    ensures Inv(Next(s, step))
  {
    hide Inv;
    match step
    case StartReservation(kind, network, account, deployId, id) => StartReservationKeepsInv(s, kind, network, account, deployId, id);
    case EndReservation(t) => EndReservationKeepsInv(s, t);
    case StartOperation(networkId) => StartOperationKeepsInv(s, networkId);
    case EndOperation(t) => EndOperationKeepsInv(s, t);
    case SwitchTo(n) => SwitchKeepsInv(s, n);
    case StartReconfiguring(n, change) => StartReconfiguringKeepsInv(s, n, change);
    case StartAdding(n, config) => StartAddingKeepsInv(s, n, config);
    case BeginWrite(valid) => BeginWriteKeepsInv(s, valid);
    case Stored(ok) => StoredKeepsInv(s, ok);
    case Apply(first) => ApplyKeepsInv(s, first);
    case Cleaned(t) => CleanedKeepsInv(s, t);
    case Leave(t) => LeaveKeepsInv(s, t);
  }

  // ---- Every run ----

  ghost predicate IsRun(states: seq<State>, steps: seq<Step>) {
    && |states| == |steps| + 1
    && Init(states[0])
    && forall i :: 0 <= i < |steps| ==> Enabled(states[i], steps[i]) && states[i + 1] == Next(states[i], steps[i])
  }

  lemma {:induction false} EveryReachableStateHasInv(states: seq<State>, steps: seq<Step>, i: nat)
    requires IsRun(states, steps) && i < |states|
    ensures Inv(states[i])
  {
    hide Inv, Init, Enabled, Next;
    if i == 0 {
      InitHolds(states[0]);
    } else {
      EveryReachableStateHasInv(states, steps, i - 1);
      StepKeepsInv(states[i - 1], steps[i - 1]);
    }
  }

  /** From the moment an update or removal found its network idle until it ends, the
      network's counter stays 0: no operation runs on it. */
  lemma NoOperationWhileReconfiguring(states: seq<State>, steps: seq<Step>, i: nat, t: Token)
    requires IsRun(states, steps) && i < |states| && t in states[i].actions && states[i].actions[t].idle
    ensures var s := states[i];
            && GetCounter(s.api.counters, s.actions[t].network) == 0
            && s.HasNetworkScope(s.actions[t].network)
            && (forall u :: u in s.operations ==> s.operations[u].network != s.actions[t].network)
  {
    var s := states[i];
    EveryReachableStateHasInv(states, steps, i);
    ActionHoldsScope(s, t);
    NotBusyNoOperation(s.api.counters, s.operations, s.actions[t].network);
    hide GuardOk, TokensOk, CountersMatch, QueueOk, AddingOk, ApiOk, Expected;
  }

  /** So the apply after the storage write never throws because of a running
      operation, and memory then holds what storage does. */
  lemma ReachableApplySucceeds(states: seq<State>, steps: seq<Step>, i: nat)
    requires IsRun(states, steps) && i < |steps| && steps[i].Apply?
    ensures var s, s' := states[i], states[i + 1];
            var a := s.actions[s.queue[0]];
            && s.Applied(steps[i].first).1 == (a.stage.change.Removal? ==> a.network in s.api.custom)
            && s'.api.custom == s'.stored
  {
    hide Inv, Init;
    EveryReachableStateHasInv(states, steps, i);
    ApplySucceeds(states[i], steps[i].first);
  }

  /** An operation that started on the selected network sees it selected until it
      releases, whatever is switched, updated or removed meanwhile. */
  lemma OperationKeepsItsNetwork(states: seq<State>, steps: seq<Step>, i: nat, u: Token)
    requires IsRun(states, steps) && i < |states| && u in states[i].operations && states[i].operations[u].onCurrent
    ensures states[i].operations[u].network == states[i].api.current
  {
    EveryReachableStateHasInv(states, steps, i);
  }

  /** Whenever no write is between its storage and its in-memory half, memory and
      storage hold the same networks; and a record is applied against the very
      networks it was checked against. */
  lemma StorageAndMemoryAgree(states: seq<State>, steps: seq<Step>, i: nat)
    requires IsRun(states, steps) && i < |states|
    ensures var s := states[i];
            if s.queue != [] && s.queue[0] in s.actions && s.actions[s.queue[0]].stage.Applying?
            then s.actions[s.queue[0]].stage.seen == s.api.custom
            else s.stored == s.api.custom
  {
    EveryReachableStateHasInv(states, steps, i);
  }
}

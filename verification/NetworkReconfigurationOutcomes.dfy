/** What becomes of a network update, removal or addition once it is asked for. */
module NetworkReconfigurationOutcomes {
  import opened Common
  import opened OperationGuard
  import opened ReservationOperationGuard
  import opened NetworkBusyRegistry
  import opened ApiClientManager
  import opened NetworkReconfiguration

  /** The networks after a change, from those it was made from. */
  function Changed(networks: map<NetworkId, Config>, n: NetworkId, change: Change): map<NetworkId, Config> {
    match change
    case Removal => networks - {n}
    case Update(config) => networks[n := config]
    case Addition(config) => networks[n := config]
  }

  ghost predicate RunsOn(s: State, n: NetworkId) {
    exists u :: u in s.operations && s.operations[u].network == n
  }

  lemma BusyIffRuns(s: State, n: NetworkId)
    requires BusyOk(s.api.counters, s.operations, s.actions)
    ensures IsBusy(s.api.counters, n) <==> RunsOn(s, n)
  {
    NotBusyNoOperation(s.api.counters, s.operations, n);
  }

  // ---- Asking ----

  /** An update or removal is taken up exactly if no running call is in its way, and
      its write is queued exactly if its network is there and no operation runs on it. */
  lemma IsQueuedIff(states: seq<State>, steps: seq<Step>, i: nat)
    requires IsRun(states, steps) && i < |steps| && steps[i].StartReconfiguring?
    ensures var s, s', n, change := states[i], states[i + 1], steps[i].network, steps[i].change;
            var refused := exists t :: t in s.running && Conflict(s.running[t], NetworkRun(n));
            if refused then s' == s
            else
              && s'.actions.Keys == s.actions.Keys + {s.next} && s'.running == s.running[s.next := NetworkRun(n)]
              && s'.actions[s.next].network == n
              && if (change.Removal? || s.api.Knows(n)) && !RunsOn(s, n)
                 then s'.actions[s.next].stage == Queued(change) && s'.queue == s.queue + [s.next]
                 else s'.actions[s.next].stage == Ended && s'.queue == s.queue
  {
    EveryReachableStateHasInv(states, steps, i);
    AskingIsAnswered(states[i], steps[i]);
    hide Inv, Init, Enabled, Next, RunsOn;
  }

  lemma AskingIsAnswered(s: State, step: Step)
    requires Inv(s) && Enabled(s, step) && step.StartReconfiguring?
    ensures var s', n, change := Next(s, step), step.network, step.change;
            var refused := exists t :: t in s.running && Conflict(s.running[t], NetworkRun(n));
            if refused then s' == s
            else
              && s'.actions.Keys == s.actions.Keys + {s.next} && s'.running == s.running[s.next := NetworkRun(n)]
              && s'.actions[s.next].network == n
              && if (change.Removal? || s.api.Knows(n)) && !RunsOn(s, n)
                 then s'.actions[s.next].stage == Queued(change) && s'.queue == s.queue + [s.next]
                 else s'.actions[s.next].stage == Ended && s'.queue == s.queue
  {
    hide QueueOk, AddingOk, ApiOk, Expected, CurrentOk, Consistent, CountersMatch;
    RefusesExactlyConflicts(s.guard, s.running, NetworkRun(step.network));
    BusyIffRuns(s, step.network);
    hide BusyOk, TokensOk, RunsOn, GuardState.Refuses, GuardState.Acquire;
  }

  // ---- Writing ----

  /** When its turn comes a queued change ends without a write exactly if its record is
      invalid, or an update's network is no longer one of the user's own; otherwise its
      record is made from the networks there are. */
  lemma WriteIsMadeUnless(s: State, valid: bool)
    requires Enabled(s, BeginWrite(valid))
    ensures var t := s.queue[0];
            var a, s' := s.actions[t], Next(s, BeginWrite(valid));
            if !valid || (a.stage.change.Update? && a.network !in s.api.custom)
            then s'.actions[t] == a.(stage := Ended) && s'.queue == s.queue[1..]
            else s'.actions[t] == a.(stage := Writing(a.stage.change, s.api.custom)) && s'.queue == s.queue
  {}

  /** Action `t` has stored its change and is about to apply it. */
  ghost predicate HasStored(s: State, t: Token, a: NetworkAction, networks: map<NetworkId, Config>) {
    && t in s.actions && s.actions[t] == a && a.stage.Applying?
    && s.queue != [] && s.queue[0] == t && s.stored == networks
  }

  ghost predicate IsPast(s: State, t: Token) {
    t < s.next && (t in s.actions ==> s.actions[t].stage.Cleaning? || s.actions[t].stage.Ended?)
  }

  lemma TokenIsOld(s: State, t: Token)
    requires Inv(s) && t in s.actions
    ensures t < s.next
  {
    hide GuardOk, BusyOk, CurrentOk, QueueOk, AddingOk, ApiOk, Expected;
  }

  lemma StoredStays(s: State, step: Step, t: Token, a: NetworkAction, networks: map<NetworkId, Config>)
    requires HasStored(s, t, a, networks) && t < s.next && Enabled(s, step)
    ensures if step.Apply? then IsPast(Next(s, step), t) else HasStored(Next(s, step), t, a, networks)
  {
    hide GuardState.Acquire, GuardState.Release, GuardState.Refuses, Api.ApplyNetwork, Api.RemoveNetwork, Api.SwitchNetwork;
  }

  lemma StoredIsRunning(s: State, t: Token, a: NetworkAction, networks: map<NetworkId, Config>)
    requires HasStored(s, t, a, networks)
    ensures t in s.actions
  {}

  lemma PastStays(s: State, step: Step, t: Token)
    requires IsPast(s, t) && Enabled(s, step)
    ensures IsPast(Next(s, step), t)
  {
    hide GuardState.Acquire, GuardState.Release, GuardState.Refuses, Api.ApplyNetwork, Api.RemoveNetwork, Api.SwitchNetwork;
  }

  lemma {:induction false} StoredUntilApplied(states: seq<State>, steps: seq<Step>, i: nat, j: nat, t: Token,
        a: NetworkAction, networks: map<NetworkId, Config>)
    requires IsRun(states, steps) && i <= j < |states| && HasStored(states[i], t, a, networks)
    ensures HasStored(states[j], t, a, networks) || IsPast(states[j], t)
  {
    hide Enabled, Next, Init, Inv, HasStored, IsPast;
    if i < j {
      StoredUntilApplied(states, steps, i, j - 1, t, a, networks);
      if HasStored(states[j - 1], t, a, networks) {
        EveryReachableStateHasInv(states, steps, j - 1);
        assert t in states[j - 1].actions by { StoredIsRunning(states[j - 1], t, a, networks); }
        TokenIsOld(states[j - 1], t);
        StoredStays(states[j - 1], steps[j - 1], t, a, networks);
      } else {
        PastStays(states[j - 1], steps[j - 1], t);
      }
    }
  }

  /** A write that works stores the change of the networks it was made from. */
  lemma WritingStores(s: State)
    requires Inv(s) && Enabled(s, Stored(true))
    ensures var t := s.queue[0];
            var a := s.actions[t];
            HasStored(Next(s, Stored(true)), t, a.(stage := Applying(a.stage.change, a.stage.seen)),
                      Changed(a.stage.seen, a.network, a.stage.change))
  {
    hide GuardOk, TokensOk, BusyOk, CurrentOk, AddingOk, ApiOk;
  }

  lemma ApplyingFollows(s: State, first: NetworkId)
    requires Inv(s) && Enabled(s, Apply(first))
    ensures var a, s' := s.actions[s.queue[0]], Next(s, Apply(first));
            && s'.api.custom == s.stored == s'.stored && s'.queue == s.queue[1..]
            && s'.actions[s.queue[0]]
               == a.(stage := if a.guarded && (a.stage.change.Removal? ==> a.network in s.api.custom) then Cleaning else Ended)
            && s'.api.current == if a.stage.change.Removal? && s.api.current == a.network && a.network in s.api.custom then first else s.api.current
  {
    ApplySucceeds(s, first);
    hide Inv, State.Applied;
  }

  /** In every run, once the write of an action works and it is applied, storage and
      memory both hold the networks the action saw with its own change, and every other
      network as it saw it. */
  lemma WriteTakesEffect(states: seq<State>, steps: seq<Step>, i: nat, j: nat)
    requires IsRun(states, steps) && i < j < |steps|
    requires steps[i] == Stored(true) && steps[j].Apply? && states[i].queue[0] == states[j].queue[0]
    ensures var t := states[i].queue[0];
            var a := states[i].actions[t];
            && a.stage.seen == states[i].api.custom
            && states[j + 1].stored == states[j + 1].api.custom == Changed(a.stage.seen, a.network, a.stage.change)
            && states[j + 1].actions[t].stage
               == if a.guarded && (a.stage.change.Removal? ==> a.network in a.stage.seen) then Cleaning else Ended
  {
    hide Init, Inv, Changed;
    EveryReachableStateHasInv(states, steps, i);
    EveryReachableStateHasInv(states, steps, j);
    WritingStores(states[i]);
    HeadSaw(states[i]);
    var t := states[i].queue[0];
    var a := states[i].actions[t];
    StoredUntilApplied(states, steps, i + 1, j, t, a.(stage := Applying(a.stage.change, a.stage.seen)),
                       Changed(a.stage.seen, a.network, a.stage.change));
    ApplyingFollows(states[j], steps[j].first);
    HeadSaw(states[j]);
    hide Enabled, Next;
  }

  lemma HeadSaw(s: State)
    requires Inv(s) && IsUnderWay(s.queue, s.actions)
    ensures s.actions[s.queue[0]].stage.seen == s.api.custom
  {
    hide GuardOk, TokensOk, BusyOk, CurrentOk, AddingOk, ApiOk, Expected;
  }

  // ---- From start to end ----

  ghost predicate Follows(states: seq<State>, steps: seq<Step>) {
    && |states| == |steps| + 1
    && forall i :: 0 <= i < |steps| ==> Enabled(states[i], steps[i]) && states[i + 1] == Next(states[i], steps[i])
  }

  /** All but action `t`, the queue and the networks is as it was. */
  ghost predicate SameElsewhere(s: State, s': State, t: Token) {
    && s'.running == s.running && s'.operations == s.operations && s'.api.counters == s.api.counters
    && s'.actions - {t} == s.actions - {t} && t in s'.actions
  }

  lemma WritesKeepTheRest(s: State, step: Step)
    requires Enabled(s, step) && (step.BeginWrite? || step.Stored? || step.Apply?)
    ensures SameElsewhere(s, Next(s, step), s.queue[0])
  {}

  /** A queued change, of a network that is there, is written and applied. */
  lemma QueuedIsApplied(s: State, t: Token, first: NetworkId) returns (states: seq<State>)
    requires Inv(s) && s.queue == [t] && t in s.actions && s.actions[t].stage.Queued? && first in s.api.defaults
    requires !s.actions[t].stage.change.Addition? ==> s.actions[t].guarded && s.actions[t].network in s.api.custom
    ensures Follows(states, [BeginWrite(true), Stored(true), Apply(first)]) && states[0] == s
    ensures var a, s' := s.actions[t], states[3];
            && s'.api.custom == s'.stored == Changed(s.api.custom, a.network, a.stage.change)
            && s'.queue == [] && SameElsewhere(s, s', t)
            && s'.actions[t] == a.(stage := if a.guarded then Cleaning else Ended)
  {
    hide Inv, Changed, Next, SameElsewhere;
    var a := s.actions[t];
    var s1 := Next(s, BeginWrite(true));
    WriteIsMadeUnless(s, true);
    WritesKeepTheRest(s, BeginWrite(true));
    StepKeepsInv(s, BeginWrite(true));
    var s2 := Next(s1, Stored(true));
    WritingStores(s1);
    WritesKeepTheRest(s1, Stored(true));
    StepKeepsInv(s1, Stored(true));
    DefaultsStay(s, s1, s2);
    HeadSaw(s2);
    var s3 := Next(s2, Apply(first));
    ApplyingFollows(s2, first);
    WritesKeepTheRest(s2, Apply(first));
    SameAllAlong(s, s1, s2, s3, t);
    states := [s, s1, s2, s3];
  }

  lemma DefaultsStay(s: State, s1: State, s2: State)
    requires Enabled(s, BeginWrite(true)) && s1 == Next(s, BeginWrite(true))
    requires Enabled(s1, Stored(true)) && s2 == Next(s1, Stored(true))
    ensures s2.api == s.api && s2.queue == s1.queue
  {}

  lemma SameAllAlong(s: State, s1: State, s2: State, s3: State, t: Token)
    requires SameElsewhere(s, s1, t) && SameElsewhere(s1, s2, t) && SameElsewhere(s2, s3, t)
    ensures SameElsewhere(s, s3, t)
  {}

  /** With nothing in its way an update or removal of one of the user's own networks
      goes through: both storage and memory change in that network alone. */
  lemma ReconfigurationCompletes(s: State, n: NetworkId, change: Change, first: NetworkId) returns (states: seq<State>)
    requires Inv(s) && s.queue == [] && Enabled(s, StartReconfiguring(n, change)) && first in s.api.defaults
    requires n in s.api.custom && !RunsOn(s, n) && forall t :: t in s.running ==> !Conflict(s.running[t], NetworkRun(n))
    ensures Follows(states, [StartReconfiguring(n, change), BeginWrite(true), Stored(true), Apply(first), Cleaned(s.next), Leave(s.next)])
    ensures states[0] == s && states[6].api.custom == states[6].stored == Changed(s.api.custom, n, change)
    ensures states[6].actions == s.actions && states[6].running == s.running && states[6].queue == []
    ensures states[6].operations == s.operations && states[6].api.counters == s.api.counters
  {
    hide Inv, Conflict, RunsOn, Changed, Next;
    var t := s.next;
    NextIsFree(s);
    AskingIsAnswered(s, StartReconfiguring(n, change));
    StepKeepsInv(s, StartReconfiguring(n, change));
    AskingKeepsTheRest(s, n, change);
    var s1 := Next(s, StartReconfiguring(n, change));
    assert s1.queue == [] + [t] == [t];
    var written := QueuedIsApplied(s1, t, first);
    var s4 := written[3];
    CleanedAndLeft(s4, t);
    var s5 := Next(s4, Cleaned(t));
    var s6 := Next(s5, Leave(t));
    assert s.running[t := NetworkRun(n)] - {t} == s.running && s1.actions - {t} == s.actions;
    states := [s] + written + [s5, s6];
    hide SameElsewhere;
    Strung(s, written, s5, s6, n, change, first, t);
  }

  /** An addition, with no write before it, adds its network to storage and memory. */
  lemma AdditionCompletes(s: State, n: NetworkId, config: Config, first: NetworkId) returns (states: seq<State>)
    requires Inv(s) && s.queue == [] && IsFresh(s, n) && first in s.api.defaults
    ensures Follows(states, [StartAdding(n, config), BeginWrite(true), Stored(true), Apply(first), Leave(s.next)])
    ensures states[0] == s && states[5].api.custom == states[5].stored == s.api.custom[n := config]
    ensures states[5].actions == s.actions && states[5].running == s.running && states[5].queue == []
  {
    hide Inv, Next, SameElsewhere;
    var t := s.next;
    NextIsFree(s);
    StepKeepsInv(s, StartAdding(n, config));
    AddingKeepsTheRest(s, n, config);
    var s1 := Next(s, StartAdding(n, config));
    var written := QueuedIsApplied(s1, t, first);
    var s4 := written[3];
    AddedAndLeft(s1, s4, t);
    var s5 := Next(s4, Leave(t));
    hide Enabled, IsFresh;
    var steps := [BeginWrite(true), Stored(true), Apply(first)];
    assert written[1] == Next(written[0], steps[0]) && written[2] == Next(written[1], steps[1]) && written[3] == Next(written[2], steps[2]);
    assert Enabled(written[0], steps[0]) && Enabled(written[1], steps[1]) && Enabled(written[2], steps[2]);
    states := [s, written[0], written[1], written[2], written[3], s5];
  }

  lemma AddingKeepsTheRest(s: State, n: NetworkId, config: Config)
    requires Enabled(s, StartAdding(n, config)) && s.next !in s.actions
    ensures var s' := Next(s, StartAdding(n, config));
            && s'.api == s.api && s'.running == s.running && s'.actions - {s.next} == s.actions
            && s.next in s'.actions && s'.actions[s.next] == NetworkAction(n, false, false, Queued(Addition(config)))
            && s'.queue == s.queue + [s.next]
  {}

  lemma AddedAndLeft(s1: State, s: State, t: Token)
    requires SameElsewhere(s1, s, t) && s.actions[t].stage.Ended? && !s.actions[t].guarded
    ensures Enabled(s, Leave(t))
    ensures var s' := Next(s, Leave(t));
            && s'.actions == s1.actions - {t} && s'.running == s1.running && s'.queue == s.queue && s'.api == s.api && s'.stored == s.stored
  {}

  lemma NextIsFree(s: State)
    requires Inv(s)
    ensures s.next !in s.actions && s.next !in s.running && (s.queue == [] ==> forall t :: t in s.actions ==> !s.actions[t].InQueue())
  {
    hide GuardOk, BusyOk, CurrentOk, AddingOk, ApiOk, Expected;
  }

  lemma AskingKeepsTheRest(s: State, n: NetworkId, change: Change)
    requires Enabled(s, StartReconfiguring(n, change)) && s.next !in s.actions
    ensures var s' := Next(s, StartReconfiguring(n, change));
            && s'.api == s.api && s'.stored == s.stored && s'.operations == s.operations && s'.actions - {s.next} == s.actions
            && (s.next in s'.actions ==> s'.actions[s.next].guarded)
  {
    hide GuardState.Refuses, GuardState.Acquire;
  }

  lemma CleanedAndLeft(s: State, t: Token)
    requires t in s.actions && s.actions[t].stage.Cleaning? && s.actions[t].guarded && t in s.running
    ensures Enabled(s, Cleaned(t)) && Enabled(Next(s, Cleaned(t)), Leave(t))
    ensures var s' := Next(Next(s, Cleaned(t)), Leave(t));
            && s'.actions == s.actions - {t} && s'.running == s.running - {t} && s'.queue == s.queue && s'.api == s.api
            && s'.stored == s.stored && s'.operations == s.operations
  {
    hide GuardState.Release;
  }

  lemma Strung(s: State, written: seq<State>, s5: State, s6: State, n: NetworkId, change: Change, first: NetworkId, t: Token)
    requires Follows(written, [BeginWrite(true), Stored(true), Apply(first)])
    requires Enabled(s, StartReconfiguring(n, change)) && written[0] == Next(s, StartReconfiguring(n, change))
    requires Enabled(written[3], Cleaned(t)) && s5 == Next(written[3], Cleaned(t)) && Enabled(s5, Leave(t)) && s6 == Next(s5, Leave(t))
    ensures Follows([s] + written + [s5, s6],
                    [StartReconfiguring(n, change), BeginWrite(true), Stored(true), Apply(first), Cleaned(t), Leave(t)])
  {
    hide Enabled, Next;
    var steps := [BeginWrite(true), Stored(true), Apply(first)];
    assert written[1] == Next(written[0], steps[0]) && written[2] == Next(written[1], steps[1]) && written[3] == Next(written[2], steps[2]);
    assert Enabled(written[0], steps[0]) && Enabled(written[1], steps[1]) && Enabled(written[2], steps[2]);
    assert [s] + written + [s5, s6] == [s, written[0], written[1], written[2], written[3], s5, s6];
  }

  // ---- Operations and switches ----

  /** An operation starts exactly if no update or removal holds its network. */
  lemma OperationStartsIff(s: State, networkId: Option<NetworkId>)
    requires Inv(s)
    ensures var target := if networkId.Some? then networkId.value else s.api.current;
            var s' := Next(s, StartOperation(networkId));
            if exists t :: t in s.running && s.running[t].HasScope(NetworkKey(target), Exclusive) then s' == s
            else s'.operations == s.operations[s.next := Operation(target, target == s.api.current)] && RunsOn(s', target)
  {
    var target := if networkId.Some? then networkId.value else s.api.current;
    ScopeIsHeld(s.guard, s.running, NetworkKey(target));
    hide Inv;
    assert !s.HasNetworkScope(target) ==> s.next in Next(s, StartOperation(networkId)).operations;
  }

  lemma ScopeIsHeld(guard: GuardState<Owner>, running: Running<Owner>, key: string)
    requires Consistent(guard, running)
    ensures key in guard.exclusive <==> exists t :: t in running && running[t].HasScope(key, Exclusive)
  {}

  /** Another network is selected exactly if it is known and no operation runs on the
      one selected now. */
  lemma SwitchesIff(s: State, n: NetworkId)
    requires Inv(s)
    ensures Next(s, SwitchTo(n)) == if !RunsOn(s, s.api.current) && s.api.Knows(n) then s.(api := s.api.(current := n)) else s
  {
    BusyIffRuns(s, s.api.current);
    hide Inv;
  }
}

/** How many operations run on each network. */
module NetworkBusyRegistry {
  type NetworkId = string

  type Counters = map<NetworkId, nat>

  function GetCounter(c: Counters, n: NetworkId): nat {
    if n in c then c[n] else 0
  }

  function Acquire(c: Counters, n: NetworkId): Counters {
    c[n := GetCounter(c, n) + 1]
  }

  function Release(c: Counters, n: NetworkId): Counters {
    if GetCounter(c, n) <= 1 then c - {n} else c[n := GetCounter(c, n) - 1]
  }

  predicate IsBusy(c: Counters, n: NetworkId) { GetCounter(c, n) > 0 }

  class NetworkBusyRegistryService {
    var counters: Counters

    constructor ()
      ensures counters == map[]
    {
      counters := map[];
    }

    method AcquireNetwork(n: NetworkId)
      modifies this
      ensures counters == Acquire(old(counters), n)
    {
      counters := counters[n := GetCounter(counters, n) + 1];
    }

    method ReleaseNetwork(n: NetworkId)
      modifies this
      ensures counters == Release(old(counters), n)
    {
      var counter: int := GetCounter(counters, n) as int - 1;
      if counter <= 0 {
        counters := counters - {n};
      } else {
        counters := counters[n := counter];
      }
    }

    method Clear()
      modifies this
      ensures counters == map[]
    {
      counters := map[];
    }
  }

  // ---- The counters count ----

  /** The pending operations on a network. */
  function On(pending: map<nat, NetworkId>, n: NetworkId): set<nat> {
    set t | t in pending && pending[t] == n
  }

  /** Each counter is the number of operations pending on its network. */
  ghost predicate CountersMatch(c: Counters, pending: map<nat, NetworkId>) {
    && (forall n :: GetCounter(c, n) == |On(pending, n)|)
    && (forall n :: n in c ==> c[n] > 0)
  }

  lemma AcquireCounts(c: Counters, pending: map<nat, NetworkId>, t: nat, n: NetworkId)
    requires CountersMatch(c, pending) && t !in pending
    ensures CountersMatch(Acquire(c, n), pending[t := n])
  {
    forall k ensures GetCounter(Acquire(c, n), k) == |On(pending[t := n], k)| {
      OnInserts(pending, t, n, k);
    }
    hide On;
  }

  lemma OnInserts(pending: map<nat, NetworkId>, t: nat, n: NetworkId, k: NetworkId)
    requires t !in pending
    ensures |On(pending[t := n], k)| == |On(pending, k)| + if k == n then 1 else 0
  {
    assert On(pending[t := n], k) == On(pending, k) + if k == n then {t} else {};
  }

  lemma ReleaseCounts(c: Counters, pending: map<nat, NetworkId>, t: nat)
    requires CountersMatch(c, pending) && t in pending
    ensures CountersMatch(Release(c, pending[t]), pending - {t})
  {
    var n := pending[t];
    forall k ensures GetCounter(Release(c, n), k) == |On(pending - {t}, k)| {
      if k == n {
        assert On(pending - {t}, k) == On(pending, k) - {t};
        assert t in On(pending, k);
      } else {
        assert On(pending - {t}, k) == On(pending, k);
      }
    }
  }

  lemma BusyMeansPending(c: Counters, pending: map<nat, NetworkId>, n: NetworkId)
    requires CountersMatch(c, pending)
    ensures IsBusy(c, n) <==> exists t :: t in pending && pending[t] == n
  {
    assert forall t :: t in pending && pending[t] == n ==> t in On(pending, n);
    if IsBusy(c, n) {
      var t :| t in On(pending, n);
    }
  }
}

/** The networks, the one selected, and the operations running on them. */
module ApiClientManager {
  import opened Common
  import opened NetworkBusyRegistry

  type Config = string

  /** `defaults` come with the build; `custom` are the user's own. */
  datatype Api = Api(
    defaults: set<NetworkId>, custom: map<NetworkId, Config>, current: NetworkId, counters: Counters)
  {
    predicate Knows(n: NetworkId) { n in defaults || n in custom }

    /** None when it throws: the current network is busy, or `n` is unknown. */
    function SwitchNetwork(n: NetworkId): Option<Api> {
      if IsBusy(counters, current) || !Knows(n) then None else Some(this.(current := n))
    }

    /** The provider takes the record before the clients are recreated: the result
        has it even when recreating throws. */
    function ApplyNetwork(n: NetworkId, config: Config): (Api, bool) {
      if n in defaults then (this, false)
      else
        var updated := this.(custom := custom[n := config]);
        (updated, current == n ==> !IsBusy(counters, current))
    }

    /** As for ApplyNetwork: the provider forgets the record first. */
    function RemoveNetwork(n: NetworkId, first: NetworkId): (Api, bool) {
      if IsBusy(counters, n) || n in defaults || n !in custom then (this, false)
      else
        var left := this.(custom := custom - {n});
        if current != n then (left, true)
        else if left.SwitchNetwork(first).Some? then (left.SwitchNetwork(first).value, true)
        else (left, false)
    }
  }

  class ApiClientManagerService {
    const defaults: set<NetworkId>
    var custom: map<NetworkId, Config>
    var currentNetworkId: NetworkId
    const networkBusyRegistry: NetworkBusyRegistryService

    ghost function State(): Api
      reads this, networkBusyRegistry
    {
      Api(defaults, custom, currentNetworkId, networkBusyRegistry.counters)
    }

    constructor (defaults: set<NetworkId>, custom: map<NetworkId, Config>, current: NetworkId)
      ensures State() == Api(defaults, custom, current, map[])
    {
      this.defaults, this.custom, currentNetworkId := defaults, custom, current;
      networkBusyRegistry := new NetworkBusyRegistryService();
    }

    method SwitchNetwork(n: NetworkId) returns (ok: bool)
      modifies this`currentNetworkId
      ensures old(State()).SwitchNetwork(n) == if ok then Some(State()) else None
      ensures !ok ==> State() == old(State())
    {
      ok := !IsBusy(networkBusyRegistry.counters, currentNetworkId) && (n in defaults || n in custom);
      if ok { currentNetworkId := n; }
    }

    method ApplyNetwork(n: NetworkId, config: Config) returns (ok: bool)
      modifies this
      ensures old(State()).ApplyNetwork(n, config) == (State(), ok)
    {
      if n in defaults { return false; }
      custom := custom[n := config];
      ok := true;
      if currentNetworkId == n { ok := SwitchNetwork(n); }
    }

    method RemoveNetwork(n: NetworkId, first: NetworkId) returns (ok: bool)
      modifies this
      ensures old(State()).RemoveNetwork(n, first) == (State(), ok)
    {
      if IsBusy(networkBusyRegistry.counters, n) || n in defaults || n !in custom { return false; }
      custom := custom - {n};
      ok := true;
      if currentNetworkId == n { ok := SwitchNetwork(first); }
    }

    /** The first half of runNetworkOperation, once not refused: returns the target. */
    method BeginOperation(networkId: Option<NetworkId>) returns (target: NetworkId)
      modifies networkBusyRegistry
      ensures target == if networkId.Some? then networkId.value else old(currentNetworkId)
      ensures State() == old(State()).(counters := Acquire(old(State()).counters, target))
    {
      target := if networkId.Some? then networkId.value else currentNetworkId;
      networkBusyRegistry.AcquireNetwork(target);
    }

    /** Its `finally` block. */
    method EndOperation(target: NetworkId)
      modifies networkBusyRegistry
      ensures State() == old(State()).(counters := Release(old(State()).counters, target))
    {
      networkBusyRegistry.ReleaseNetwork(target);
    }
  }
}

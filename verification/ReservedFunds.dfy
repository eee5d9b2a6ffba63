/** The reserved sum of one account on one network, over a map of reservations. */
module ReservedFunds {
  import opened ReservationsManager

  function Weight(r: Reservation, account: AccountId, network: NetworkId): nat {
    if r.accountId == account && r.networkId == network then r.pendingAmount else 0
  }

  ghost function Reserved(items: map<Id, Reservation>, account: AccountId, network: NetworkId): nat
    decreases |items|
  {
    if items == map[] then 0
    else
      var id :| id in items;
      Weight(items[id], account, network) + Reserved(items - {id}, account, network)
  }

  /** The sum does not depend on the order it is taken in. */
  lemma {:induction false} ReservedWithout(items: map<Id, Reservation>, id: Id, account: AccountId, network: NetworkId)
    requires id in items
    ensures Reserved(items, account, network) == Weight(items[id], account, network) + Reserved(items - {id}, account, network)
    decreases |items|
  {
    var first :| first in items && Reserved(items, account, network)
      == Weight(items[first], account, network) + Reserved(items - {first}, account, network);
    if first != id {
      ReservedWithout(items - {first}, id, account, network);
      ReservedWithout(items - {id}, first, account, network);
      assert items - {first} - {id} == items - {id} - {first};
    }
  }

  lemma ReservedWith(items: map<Id, Reservation>, r: Reservation, account: AccountId, network: NetworkId)
    requires r.id !in items
    ensures Reserved(items[r.id := r], account, network) == Reserved(items, account, network) + Weight(r, account, network)
  {
    ReservedWithout(items[r.id := r], r.id, account, network);
    assert items[r.id := r] - {r.id} == items;
  }

  /** What the sum is, one reservation at a time: nothing at first, and each of the
      account's on the network adds its amount, others nothing. */
  lemma ReservedSums(items: map<Id, Reservation>, r: Reservation, account: AccountId, network: NetworkId)
    requires r.id !in items
    ensures Reserved(map[], account, network) == 0
    ensures Reserved(items[r.id := r], account, network) - Reserved(items, account, network)
            == if r.accountId == account && r.networkId == network then r.pendingAmount else 0
  {
    ReservedWith(items, r, account, network);
  }

  lemma ReservedReplaced(items: map<Id, Reservation>, r: Reservation, account: AccountId, network: NetworkId)
    requires r.id in items
    ensures Reserved(items[r.id := r], account, network) + Weight(items[r.id], account, network)
         == Reserved(items, account, network) + Weight(r, account, network)
  {
    ReservedWithout(items[r.id := r], r.id, account, network);
    ReservedWithout(items, r.id, account, network);
    assert items[r.id := r] - {r.id} == items - {r.id};
  }

  /** Removing reservations, whichever they are, frees funds and never binds any. */
  lemma {:induction false} RemovalOnlyFrees(items: map<Id, Reservation>, gone: set<Id>, account: AccountId, network: NetworkId)
    ensures Reserved(items - gone, account, network) <= Reserved(items, account, network)
    decreases gone
  {
    if gone * items.Keys == {} {
      assert items - gone == items;
    } else {
      var id :| id in gone && id in items;
      ReservedWithout(items, id, account, network);
      RemovalOnlyFrees(items - {id}, gone - {id}, account, network);
      assert items - {id} - (gone - {id}) == items - gone;
    }
  }

  /** `getReservedAmount`: the fold over the matching reservations. */
  method GetReservedAmount(items: map<Id, Reservation>, account: AccountId, network: NetworkId) returns (sum: nat)
    ensures sum == Reserved(items, account, network)
  {
    sum := 0;
    var rest := items;
    while rest != map[]
      invariant sum + Reserved(rest, account, network) == Reserved(items, account, network)
      decreases |rest|
    {
      var id :| id in rest;
      ReservedWithout(rest, id, account, network);
      if rest[id].networkId == network && rest[id].accountId == account {
        sum := sum + rest[id].pendingAmount;
      }
      rest := rest - {id};
    }
  }
}

/** The transaction reservations manager of one open wallet: the held
    reservations, the status watcher and expiration timer of each, and the
    exclusive sections that suspend both. Timers and pollers live outside the
    manager's own maps, so the model keeps them too: `armed` are the timeouts the
    runtime will still fire, `live` the pollers not yet finished. */
module ReservationsManager {
  import opened Common

  type Id = string
  type NetworkId = string
  type AccountId = string
  type Handle = nat

  datatype Reservation = Reservation(
    id: Id, accountId: AccountId, networkId: NetworkId, deployId: string,
    pendingAmount: nat, expirationTime: int)

  datatype Alarm = Alarm(id: Id, due: int)

  datatype Manager = Manager(
    items: map<Id, Reservation>,
    watchers: map<Id, Handle>,
    live: map<Handle, Id>,
    timers: map<Id, Handle>,
    armed: map<Handle, Alarm>,
    exclusive: set<Id>,
    active: bool,
    released: set<Id>,  // ids passed to onConfirmed or onExpired so far
    next: Handle)
  {
    function CancelWatch(id: Id): Manager {
      if id !in watchers then this
      else this.(live := live - {watchers[id]}, watchers := watchers - {id})
    }

    function ClearExpiration(id: Id): Manager {
      if id !in timers then this
      else this.(armed := armed - {timers[id]}, timers := timers - {id})
    }

    function Drop(id: Id): Manager {
      CancelWatch(id).ClearExpiration(id).(items := items - {id})
    }

    /** handleConfirmed and handleExpired: drop the reservation and report it. */
    function ReleaseHeld(id: Id): Manager {
      Drop(id).(released := released + {id})
    }

    function Watch(id: Id): Manager {
      this.(watchers := watchers[id := next], live := live[next := id], next := next + 1)
    }

    function ScheduleExpiration(r: Reservation, now: int): Manager {
      if r.expirationTime <= now then ReleaseHeld(r.id)
      else this.(timers := timers[r.id := next], armed := armed[next := Alarm(r.id, r.expirationTime)], next := next + 1)
    }

    /** Watch and schedule; creating the watcher throws on an unknown network. */
    function Arm(r: Reservation, now: int, known: set<NetworkId>): Manager {
      if r.networkId in known then Watch(r.id).ScheduleExpiration(r, now) else this
    }

    function Track(r: Reservation, now: int, known: set<NetworkId>): Manager {
      this.(items := items[r.id := r]).Arm(r, now, known)
    }

    function Add(r: Reservation, now: int, known: set<NetworkId>): Manager {
      if active then Track(r, now, known) else this
    }

    function BeginExclusive(id: Id): Manager {
      CancelWatch(id).ClearExpiration(id).(exclusive := exclusive + {id})
    }

    function EndExclusive(id: Id, now: int, known: set<NetworkId>): Manager {
      var m := this.(exclusive := exclusive - {id});
      if active && id in items then m.Arm(items[id], now, known) else m
    }

    function Replace(r: Reservation): Manager {
      if r.id in exclusive && r.id in items then this.(items := items[r.id := r]) else this
    }

    function OnNetwork(network: NetworkId): set<Id> {
      set id | id in items && items[id].networkId == network
    }

    function RemoveAll(gone: set<Id>): Manager {
      this.(items := items - gone,
            live := map h | h in live && live[h] !in gone :: live[h],
            watchers := watchers - gone,
            armed := map h | h in armed && armed[h].id !in gone :: armed[h],
            timers := timers - gone)
    }

    function RemoveByNetwork(network: NetworkId): Manager {
      RemoveAll(OnNetwork(network))
    }

    /** A poller reports FINALIZED: it stops itself, then calls back. */
    function Confirmed(h: Handle): Manager
      requires h in live
    {
      this.(live := live - {h}).ReleaseHeld(live[h])
    }

    function Failed(h: Handle): Manager
      requires h in live
    {
      this.(live := live - {h}).CancelWatch(live[h])
    }

    function Expired(h: Handle): Manager
      requires h in armed
    {
      this.(armed := armed - {h}).ReleaseHeld(armed[h].id)
    }

    function Close(): Manager {
      if !active then this
      else
        this.(active := false, items := map[], watchers := map[], timers := map[],
              live := map h | h in live && h !in watchers.Values :: live[h],
              armed := map h | h in armed && h !in timers.Values :: armed[h])
    }
  }

  const Fresh := Manager(map[], map[], map[], map[], map[], {}, true, {}, 0)

  /** Map entries and runtime handles correspond one to one. */
  ghost predicate WatchersLinked(m: Manager) {
    && (forall id :: id in m.watchers ==> m.watchers[id] in m.live && m.live[m.watchers[id]] == id)
    && (forall h :: h in m.live ==> h < m.next && m.live[h] in m.watchers && m.watchers[m.live[h]] == h)
    && m.watchers.Keys <= m.items.Keys - m.exclusive
  }

  ghost predicate TimersLinked(m: Manager) {
    && (forall id :: id in m.timers ==> m.timers[id] in m.armed && m.armed[m.timers[id]].id == id)
    && (forall h :: h in m.armed ==> h < m.next && m.armed[h].id in m.timers && m.timers[m.armed[h].id] == h)
    && m.timers.Keys <= m.items.Keys - m.exclusive
  }

  /** The reservation's only armed timer is for its own expiration time. */
  ghost predicate HasOwnTimer(m: Manager, id: Id)
    requires id in m.items
  {
    id in m.timers && m.timers[id] in m.armed && m.armed[m.timers[id]] == Alarm(id, m.items[id].expirationTime)
  }

  /** `known` are the networks whose clients can be created. A reservation on any
      other network gets no timer: creating its watcher throws first. */
  ghost predicate WellFormed(m: Manager, known: set<NetworkId>) {
    && (forall id :: id in m.items ==> m.items[id].id == id)
    && WatchersLinked(m)
    && TimersLinked(m)
    && (forall id :: id in m.items && id !in m.exclusive && m.items[id].networkId in known ==> HasOwnTimer(m, id))
    && (!m.active ==> m.items == map[])
  }

  /** Every held reservation of a known network is in an exclusive section or has
      exactly one armed timer, due at its own expiration time; every timer and
      watcher belongs to a held reservation outside the sections; a closed manager
      has none. */
  lemma HeldReservationsAreCovered(m: Manager, known: set<NetworkId>)
    requires WellFormed(m, known)
    ensures forall id :: id in m.items && id !in m.exclusive && m.items[id].networkId in known ==>
              exists h :: h in m.armed && m.armed[h] == Alarm(id, m.items[id].expirationTime)
                          && (forall g :: g in m.armed && m.armed[g].id == id ==> g == h)
    ensures forall h :: h in m.armed ==> m.armed[h].id in m.items.Keys - m.exclusive
    ensures forall h :: h in m.live ==> m.live[h] in m.items.Keys - m.exclusive
    ensures !m.active ==> m.items == map[] && m.armed == map[] && m.live == map[] && m.timers == map[] && m.watchers == map[]
  {
    forall id | id in m.items && id !in m.exclusive && m.items[id].networkId in known
      ensures exists h :: h in m.armed && m.armed[h] == Alarm(id, m.items[id].expirationTime)
                          && (forall g :: g in m.armed && m.armed[g].id == id ==> g == h)
    {
      assert HasOwnTimer(m, id);
      var h := m.timers[id];
      assert h in m.armed && m.armed[h] == Alarm(id, m.items[id].expirationTime);
    }
  }

  lemma CancelWatchUnlinks(m: Manager, id: Id)
    requires WatchersLinked(m)
    ensures WatchersLinked(m.CancelWatch(id)) && id !in m.CancelWatch(id).watchers
    ensures forall h :: h in m.CancelWatch(id).live <==> h in m.live && m.live[h] != id
  {}

  lemma ClearExpirationUnlinks(m: Manager, id: Id)
    requires TimersLinked(m)
    ensures TimersLinked(m.ClearExpiration(id)) && id !in m.ClearExpiration(id).timers
    ensures forall h :: h in m.ClearExpiration(id).armed <==> h in m.armed && m.armed[h].id != id
    ensures forall i :: i in m.items && i != id && HasOwnTimer(m, i) ==> HasOwnTimer(m.ClearExpiration(id), i)
  {}

  /** Suspending a reservation, by an exclusive section or for good, leaves every
      other one watched and timed as before. */
  lemma SuspendUnlinks(m: Manager, id: Id, known: set<NetworkId>)
    requires WellFormed(m, known)
    ensures var s := m.CancelWatch(id).ClearExpiration(id);
            && WatchersLinked(s) && TimersLinked(s) && id !in s.watchers && id !in s.timers
            && (forall i :: i in m.items && i != id && HasOwnTimer(m, i) ==> HasOwnTimer(s, i))
  {
    CancelWatchUnlinks(m, id);
    ClearExpirationUnlinks(m.CancelWatch(id), id);
    forall i | i in m.items && HasOwnTimer(m, i) ensures HasOwnTimer(m.CancelWatch(id), i) {}
  }

  lemma DropKeepsWellFormed(m: Manager, id: Id, known: set<NetworkId>)
    requires WellFormed(m, known)
    ensures WellFormed(m.Drop(id), known)
  {
    SuspendUnlinks(m, id, known);
    var d := m.Drop(id);
    forall i | i in d.items && i !in d.exclusive && d.items[i].networkId in known ensures HasOwnTimer(d, i) {
      assert HasOwnTimer(m, i);
    }
  }

  lemma BeginExclusiveKeepsWellFormed(m: Manager, id: Id, known: set<NetworkId>)
    requires WellFormed(m, known)
    ensures WellFormed(m.BeginExclusive(id), known)
  {
    SuspendUnlinks(m, id, known);
    var e := m.BeginExclusive(id);
    forall i | i in e.items && i !in e.exclusive && e.items[i].networkId in known ensures HasOwnTimer(e, i) {
      assert HasOwnTimer(m, i);
    }
  }

  /** The manager is well formed but for reservation `id`, not yet armed. */
  ghost predicate UnarmedOnly(m: Manager, id: Id, known: set<NetworkId>) {
    && (forall i :: i in m.items ==> m.items[i].id == i)
    && WatchersLinked(m) && TimersLinked(m)
    && id in m.items && id !in m.watchers && id !in m.timers && id !in m.exclusive
    && (forall i :: i in m.items && i !in m.exclusive && i != id && m.items[i].networkId in known ==> HasOwnTimer(m, i))
    && m.active
  }

  lemma WatchLinks(m: Manager, id: Id, known: set<NetworkId>)
    requires UnarmedOnly(m, id, known)
    ensures WatchersLinked(m.Watch(id)) && TimersLinked(m.Watch(id))
    ensures forall i :: i in m.items && HasOwnTimer(m, i) ==> HasOwnTimer(m.Watch(id), i)
  {}

  lemma ScheduleLinks(m: Manager, r: Reservation, now: int)
    requires TimersLinked(m) && r.id in m.items && m.items[r.id] == r && r.id !in m.timers && r.id !in m.exclusive
    requires now < r.expirationTime
    ensures TimersLinked(m.ScheduleExpiration(r, now)) && HasOwnTimer(m.ScheduleExpiration(r, now), r.id)
    ensures forall i :: i in m.items && HasOwnTimer(m, i) ==> HasOwnTimer(m.ScheduleExpiration(r, now), i)
  {}

  lemma ArmKeepsWellFormed(m: Manager, r: Reservation, now: int, known: set<NetworkId>)
    requires UnarmedOnly(m, r.id, known) && m.items[r.id] == r
    ensures WellFormed(m.Arm(r, now, known), known)
  {
    var w := m.Watch(r.id);
    WatchLinks(m, r.id, known);
    if r.networkId !in known {
    } else if now < r.expirationTime {
      ScheduleLinks(w, r, now);
    } else {
      CancelWatchUnlinks(w, r.id);
      var d := w.ReleaseHeld(r.id);
      forall i | i in d.items && i !in d.exclusive && d.items[i].networkId in known ensures HasOwnTimer(d, i) {
        assert HasOwnTimer(m, i);
      }
    }
  }

  /** Tracking a fresh reservation keeps the invariant; if it is still held it has
      its timer exactly when its network is known. */
  lemma TrackKeepsWellFormed(m: Manager, r: Reservation, now: int, known: set<NetworkId>)
    requires WellFormed(m, known) && m.active && r.id !in m.items && r.id !in m.exclusive
    ensures var t := m.Track(r, now, known);
            && WellFormed(t, known)
            && (r.id in t.items <==> now < r.expirationTime || r.networkId !in known)
            && (r.id in t.items ==> (HasOwnTimer(t, r.id) <==> r.networkId in known))
  {
    var held := m.(items := m.items[r.id := r]);
    forall id | id in held.items && id !in held.exclusive && id != r.id && held.items[id].networkId in known
      ensures HasOwnTimer(held, id)
    {
      assert HasOwnTimer(m, id);
    }
    ArmKeepsWellFormed(held, r, now, known);
  }

  /** What the constructor owes a restored reservation: held and watched, or released
      when it has expired. */
  ghost predicate IsRestored(m: Manager, r: Reservation, now: int) {
    if now < r.expirationTime then r.id in m.items && m.items[r.id] == r && r.id in m.watchers else r.id in m.released
  }

  /** A reservation tracked on a known network is held and watched, or released at
      once; on an unknown one it is held all the same. Nothing else changes. */
  lemma TrackHolds(m: Manager, r: Reservation, now: int, known: set<NetworkId>)
    requires r.id !in m.items
    ensures var t := m.Track(r, now, known);
            && (if r.networkId !in known then t == m.(items := m.items[r.id := r])
                else if now < r.expirationTime then t.items == m.items[r.id := r] && t.released == m.released
                else t.items == m.items && t.released == m.released + {r.id})
            && (r.networkId in known ==> t.watchers.Keys == if now < r.expirationTime then m.watchers.Keys + {r.id} else m.watchers.Keys - {r.id})
            && t.exclusive == m.exclusive && t.active == m.active
  {
    if r.networkId in known && r.expirationTime <= now { assert m.items[r.id := r] - {r.id} == m.items; }
  }

  /** The first `i` are restored, and nothing else is held. */
  ghost predicate RestoredSoFar(m: Manager, reservations: seq<Reservation>, i: nat, now: int) {
    && m.active && m.exclusive == {} && i <= |reservations|
    && (forall k :: 0 <= k < i ==> IsRestored(m, reservations[k], now))
    && (forall id :: id in m.items ==> m.items[id].id == id && m.items[id] in reservations[..i] && now < m.items[id].expirationTime)
  }

  lemma FreshIsWellFormed(reservations: seq<Reservation>, now: int, known: set<NetworkId>)
    ensures WellFormed(Fresh, known) && RestoredSoFar(Fresh, reservations, 0, now)
  {}

  lemma OneMoreRestored(m: Manager, reservations: seq<Reservation>, i: nat, now: int, known: set<NetworkId>)
    requires RestoredSoFar(m, reservations, i, now) && i < |reservations|
    requires forall i, j :: 0 <= i < j < |reservations| ==> reservations[i].id != reservations[j].id
    ensures m.active && m.exclusive == {} && reservations[i].id !in m.items
    ensures reservations[i].networkId in known ==> RestoredSoFar(m.Track(reservations[i], now, known), reservations, i + 1, now)
  {
    hide Manager.Track, IsRestored;
    var r := reservations[i];
    if r.networkId in known {
      var t := m.Track(r, now, known);
      TrackHolds(m, r, now, known);
      TrackRestores(m, r, now, known);
      forall k | 0 <= k < i ensures IsRestored(t, reservations[k], now) { TrackKeepsRestored(m, r, now, known, reservations[k]); }
      assert reservations[..i + 1] == reservations[..i] + [r];
    }
  }

  lemma TrackRestores(m: Manager, r: Reservation, now: int, known: set<NetworkId>)
    requires r.id !in m.items && r.networkId in known
    ensures IsRestored(m.Track(r, now, known), r, now)
  {
    TrackHolds(m, r, now, known);
    hide Manager.Track;
  }

  lemma TrackKeepsRestored(m: Manager, r: Reservation, now: int, known: set<NetworkId>, other: Reservation)
    requires r.id !in m.items && r.networkId in known && other.id != r.id && IsRestored(m, other, now)
    ensures IsRestored(m.Track(r, now, known), other, now)
  {
    TrackHolds(m, r, now, known);
    hide Manager.Track;
  }

  lemma AllWatched(m: Manager, reservations: seq<Reservation>, now: int, known: set<NetworkId>)
    requires RestoredSoFar(m, reservations, |reservations|, now) && WellFormed(m, known)
    ensures m.watchers.Keys == m.items.Keys
  {
    forall id | id in m.items ensures id in m.watchers {
      var k :| 0 <= k < |reservations| && reservations[k] == m.items[id];
      assert IsRestored(m, reservations[k], now);
    }
  }

  lemma AllRestored(m: Manager, reservations: seq<Reservation>, now: int)
    requires RestoredSoFar(m, reservations, |reservations|, now)
    ensures m.active && m.exclusive == {} && m.items.Values <= set r | r in reservations && now < r.expirationTime
    ensures forall r :: r in reservations ==>
              if now < r.expirationTime then r.id in m.items && m.items[r.id] == r && r.id in m.watchers else r.id in m.released
  {
    forall r | r in reservations ensures IsRestored(m, r, now) {
      var k :| 0 <= k < |reservations| && reservations[k] == r;
    }
  }

  lemma EndExclusiveKeepsWellFormed(m: Manager, id: Id, now: int, known: set<NetworkId>)
    requires WellFormed(m, known) && id in m.exclusive
    ensures WellFormed(m.EndExclusive(id, now, known), known)
  {
    var e := m.(exclusive := m.exclusive - {id});
    forall i | i in e.items && i !in e.exclusive && i != id && e.items[i].networkId in known ensures HasOwnTimer(e, i) {
      assert HasOwnTimer(m, i);
    }
    if m.active && id in m.items {
      ArmKeepsWellFormed(e, m.items[id], now, known);
    }
  }

  /** Leaving a section releases the reservation exactly if it expired meanwhile on a
      known network; otherwise it is held as it was, and all others are. */
  lemma EndExclusiveReleasesExpired(m: Manager, id: Id, now: int, known: set<NetworkId>)
    requires WellFormed(m, known) && id in m.items
    ensures var e := m.EndExclusive(id, now, known);
            var expired := m.items[id].networkId in known && m.items[id].expirationTime <= now;
            && e.items == (if expired then m.items - {id} else m.items)
            && e.released == (if expired then m.released + {id} else m.released)
            && e.exclusive == m.exclusive - {id}
  {
    var e := m.(exclusive := m.exclusive - {id});
    ArmedItems(e, m.items[id], now, known);
    hide WellFormed, Manager.Arm;
  }

  lemma ArmedItems(m: Manager, r: Reservation, now: int, known: set<NetworkId>)
    ensures var a := m.Arm(r, now, known);
            var expired := r.networkId in known && r.expirationTime <= now;
            && a.items == (if expired then m.items - {r.id} else m.items)
            && a.released == (if expired then m.released + {r.id} else m.released)
            && a.exclusive == m.exclusive
  {}

  lemma ReplaceKeepsWellFormed(m: Manager, r: Reservation, known: set<NetworkId>)
    requires WellFormed(m, known)
    ensures WellFormed(m.Replace(r), known)
  {
    var p := m.Replace(r);
    forall i | i in p.items && i !in p.exclusive && p.items[i].networkId in known ensures HasOwnTimer(p, i) {
      assert HasOwnTimer(m, i);
    }
  }

  lemma RemoveByNetworkKeepsWellFormed(m: Manager, network: NetworkId, known: set<NetworkId>)
    requires WellFormed(m, known)
    ensures WellFormed(m.RemoveByNetwork(network), known)
  {
    var p := m.RemoveByNetwork(network);
    forall i | i in p.items && i !in p.exclusive && p.items[i].networkId in known ensures HasOwnTimer(p, i) {
      assert HasOwnTimer(m, i);
    }
  }

  lemma ConfirmedKeepsWellFormed(m: Manager, h: Handle, known: set<NetworkId>)
    requires WellFormed(m, known) && h in m.live
    ensures m.Confirmed(h) == m.ReleaseHeld(m.live[h]) && WellFormed(m.Confirmed(h), known)
  {
    DropKeepsWellFormed(m, m.live[h], known);
    assert m.live - {h} - {h} == m.live - {h};
  }

  lemma FailedKeepsWellFormed(m: Manager, h: Handle, known: set<NetworkId>)
    requires WellFormed(m, known) && h in m.live
    ensures m.Failed(h) == m.CancelWatch(m.live[h]) && WellFormed(m.Failed(h), known)
  {
    assert m.live - {h} - {h} == m.live - {h};
    forall i | i in m.items && i !in m.exclusive && m.items[i].networkId in known ensures HasOwnTimer(m.Failed(h), i) {
      assert HasOwnTimer(m, i);
    }
  }

  lemma ExpiredKeepsWellFormed(m: Manager, h: Handle, known: set<NetworkId>)
    requires WellFormed(m, known) && h in m.armed
    ensures m.Expired(h) == m.ReleaseHeld(m.armed[h].id) && WellFormed(m.Expired(h), known)
  {
    var id := m.armed[h].id;
    FiredIsCleared(m, h);
    hide Manager.CancelWatch, Manager.ClearExpiration, HasOwnTimer;
    DropKeepsWellFormed(m, id, known);
  }

  /** A timer that has fired is gone as if it had been cleared. */
  lemma FiredIsCleared(m: Manager, h: Handle)
    requires TimersLinked(m) && h in m.armed
    ensures var id := m.armed[h].id;
            m.(armed := m.armed - {h}).CancelWatch(id).ClearExpiration(id) == m.CancelWatch(id).ClearExpiration(id)
  {
    assert m.armed - {h} - {h} == m.armed - {h};
  }

  lemma SuspendingKeepsTheRest(m: Manager, id: Id)
    ensures var c := m.CancelWatch(id); c == m.(watchers := c.watchers, live := c.live) && c.watchers.Keys == m.watchers.Keys - {id}
    ensures var c := m.ClearExpiration(id); c == m.(timers := c.timers, armed := c.armed) && c.timers.Keys == m.timers.Keys - {id}
  {}

  lemma LinksAreSeparate(m: Manager, n: Manager)
    requires n == m.(active := n.active, watchers := n.watchers, live := n.live)
    ensures TimersLinked(m) ==> TimersLinked(n)
    ensures n.watchers == m.watchers && n.live == m.live && WatchersLinked(m) ==> WatchersLinked(n)
  {}

  lemma NoneLinked(m: Manager)
    ensures WatchersLinked(m) && m.watchers == map[] ==> m.live == map[]
    ensures TimersLinked(m) && m.timers == map[] ==> m.armed == map[]
  {}

  lemma ClosingClears(m: Manager, known: set<NetworkId>)
    requires WellFormed(m, known)
    ensures WatchersLinked(m) && TimersLinked(m)
    ensures m.Close() == if !m.active then m else m.(active := false, items := map[], watchers := map[], timers := map[], live := map[], armed := map[])
  {
    CloseKeepsWellFormed(m, known);
    NoneLinked(m.Close());
  }

  /** Closing disarms every timer and poller and forgets every reservation. */
  lemma CloseKeepsWellFormed(m: Manager, known: set<NetworkId>)
    requires WellFormed(m, known)
    ensures WellFormed(m.Close(), known)
    ensures var c := m.Close(); !c.active && c.items == map[] && c.armed == map[] && c.live == map[]
  {
    if m.active {
      forall h | h in m.armed ensures h in m.timers.Values {
        assert m.timers[m.armed[h].id] == h;
      }
      forall h | h in m.live ensures h in m.watchers.Values {
        assert m.watchers[m.live[h]] == h;
      }
    }
  }

  lemma RemoveAllExtends(m: Manager, gone: set<Id>, id: Id)
    requires WatchersLinked(m) && TimersLinked(m)
    ensures m.RemoveAll(gone).Drop(id) == m.RemoveAll(gone + {id})
  {
    var p, q := m.RemoveAll(gone), m.RemoveAll(gone + {id});
    RemoveAllWatchers(m, gone, id);
    RemoveAllTimers(m, gone, id);
    hide WatchersLinked, TimersLinked;
    assert p.items - {id} == q.items;
  }

  lemma RemoveAllWatchers(m: Manager, gone: set<Id>, id: Id)
    requires WatchersLinked(m)
    ensures var p, q := m.RemoveAll(gone).CancelWatch(id), m.RemoveAll(gone + {id});
            p.live == q.live && p.watchers == q.watchers
  {}

  lemma RemoveAllTimers(m: Manager, gone: set<Id>, id: Id)
    requires TimersLinked(m)
    ensures var p, q := m.RemoveAll(gone).ClearExpiration(id), m.RemoveAll(gone + {id});
            p.armed == q.armed && p.timers == q.timers
  {}

  lemma RemoveNone(m: Manager)
    ensures m.RemoveAll({}) == m
  {}

  /** The manager object. `now` is the clock, `networks` the networks whose
      clients can be created; `live` and `armed` belong to the runtime. */
  class TransactionReservationsManager {
    var items: map<Id, Reservation>
    var watchers: map<Id, Handle>
    var live: map<Handle, Id>
    var expirationTimers: map<Id, Handle>
    var armed: map<Handle, Alarm>
    var exclusiveIds: set<Id>
    var active: bool
    var released: set<Id>
    var next: Handle

    ghost function State(): Manager
      reads this
    {
      Manager(items, watchers, live, expirationTimers, armed, exclusiveIds, active, released, next)
    }

    ghost predicate Valid(known: set<NetworkId>)
      reads this
    {
      WellFormed(State(), known)
    }

    constructor ()
      ensures State() == Fresh && forall known :: Valid(known)
    {
      items, watchers, live, expirationTimers, armed := map[], map[], map[], map[], map[];
      exclusiveIds, active, released, next := {}, true, {}, 0;
    }

    method CancelWatch(id: Id)
      modifies this`watchers, this`live
      ensures State() == old(State()).CancelWatch(id)
    {
      if id in watchers {
        live := live - {watchers[id]};
        watchers := watchers - {id};
      }
    }

    method ClearExpiration(id: Id)
      modifies this`expirationTimers, this`armed
      ensures State() == old(State()).ClearExpiration(id)
    {
      if id in expirationTimers {
        armed := armed - {expirationTimers[id]};
        expirationTimers := expirationTimers - {id};
      }
    }

    method Untrack(id: Id)
      modifies this
      ensures State() == old(State()).Drop(id)
    {
      CancelWatch(id);
      ClearExpiration(id);
      items := items - {id};
    }

    method HandleReleased(id: Id)
      modifies this
      ensures State() == old(State()).ReleaseHeld(id)
    {
      CancelWatch(id);
      ClearExpiration(id);
      items := items - {id};
      released := released + {id};
    }

    method Watch(r: Reservation, known: set<NetworkId>) returns (ok: bool)
      modifies this`watchers, this`live, this`next
      ensures ok == (r.networkId in known)
      ensures State() == if ok then old(State()).Watch(r.id) else old(State())
    {
      ok := r.networkId in known;
      if ok {
        live := live[next := r.id];
        watchers := watchers[r.id := next];
        next := next + 1;
      }
    }

    method ScheduleExpiration(r: Reservation, now: int)
      modifies this
      ensures State() == old(State()).ScheduleExpiration(r, now)
    {
      var delay := r.expirationTime - now;
      if delay <= 0 {
        HandleReleased(r.id);
      } else {
        armed := armed[next := Alarm(r.id, now + delay)];
        expirationTimers := expirationTimers[r.id := next];
        next := next + 1;
      }
    }

    method Track(r: Reservation, now: int, known: set<NetworkId>) returns (ok: bool)
      modifies this
      ensures ok == (r.networkId in known)
      ensures State() == old(State()).Track(r, now, known)
    {
      items := items[r.id := r];
      ok := Watch(r, known);
      if ok { ScheduleExpiration(r, now); }
    }

    /** Skipped on a closed manager. A new reservation with a fresh id on a known
        network keeps the invariant. */
    method Add(r: Reservation, now: int, known: set<NetworkId>) returns (ok: bool)
      modifies this
      ensures ok == (!old(active) || r.networkId in known)
      ensures State() == old(State()).Add(r, now, known)
      ensures old(Valid(known)) && r.id !in old(items) && r.id !in old(exclusiveIds) ==> Valid(known)
    {
      ok := true;
      if active {
        if WellFormed(State(), known) && r.id !in items && r.id !in exclusiveIds {
          TrackKeepsWellFormed(State(), r, now, known);
        }
        ok := Track(r, now, known);
      }
    }

    /** The constructor's loop over restored reservations; it throws, and there is
        no manager, when one names an unknown network. */
    method Restore(reservations: seq<Reservation>, now: int, known: set<NetworkId>) returns (ok: bool)
      requires State() == Fresh
      requires forall i, j :: 0 <= i < j < |reservations| ==> reservations[i].id != reservations[j].id
      modifies this
      ensures ok <==> forall r :: r in reservations ==> r.networkId in known
      ensures ok ==> Valid(known) && active && exclusiveIds == {}
      ensures ok ==> watchers.Keys == items.Keys && items.Values <= set r | r in reservations && now < r.expirationTime
      ensures ok ==> forall r :: r in reservations ==>
                if now < r.expirationTime then r.id in items && items[r.id] == r && r.id in watchers else r.id in released
    {
      hide WellFormed, Manager.Track, RestoredSoFar;
      FreshIsWellFormed(reservations, now, known);
      for i := 0 to |reservations|
        invariant WellFormed(State(), known) && RestoredSoFar(State(), reservations, i, now)
        invariant forall r :: r in reservations[..i] ==> r.networkId in known
      {
        var r := reservations[i];
        ghost var m := State();
        OneMoreRestored(m, reservations, i, now, known);
        TrackKeepsWellFormed(m, r, now, known);
        ok := Track(r, now, known);
        if !ok { return; }
      }
      AllRestored(State(), reservations, now);
      AllWatched(State(), reservations, now, known);
      ok := true;
    }

    /** The entry of runExclusive; false when it throws, the id being unknown. */
    method BeginExclusive(id: Id, ghost known: set<NetworkId>) returns (ok: bool)
      requires Valid(known)
      modifies this
      ensures Valid(known) && ok == (id in old(items))
      ensures State() == if ok then old(State()).BeginExclusive(id) else old(State())
    {
      ok := id in items;
      if ok {
        BeginExclusiveKeepsWellFormed(State(), id, known);
        CancelWatch(id);
        ClearExpiration(id);
        exclusiveIds := exclusiveIds + {id};
      }
    }

    /** The `finally` block of runExclusive: leave the section and rearm. */
    method EndExclusive(id: Id, now: int, known: set<NetworkId>) returns (ok: bool)
      requires Valid(known) && id in exclusiveIds
      modifies this
      ensures ok == (old(active && id in items) ==> old(items[id]).networkId in known)
      ensures State() == old(State()).EndExclusive(id, now, known)
      ensures Valid(known)
    {
      EndExclusiveKeepsWellFormed(State(), id, now, known);
      exclusiveIds := exclusiveIds - {id};
      ok := true;
      if active && id in items {
        var r := items[id];
        ok := Watch(r, known);
        if ok { ScheduleExpiration(r, now); }
      }
    }

    /** Allowed only inside an exclusive section, on a reservation still held. */
    method Replace(r: Reservation, ghost known: set<NetworkId>) returns (ok: bool)
      requires Valid(known)
      modifies this`items
      ensures Valid(known) && ok == (r.id in exclusiveIds && r.id in old(items))
      ensures State() == old(State()).Replace(r)
    {
      ReplaceKeepsWellFormed(State(), r, known);
      ok := r.id in exclusiveIds && r.id in items;
      if ok { items := items[r.id := r]; }
    }

    method Remove(id: Id, ghost known: set<NetworkId>) returns (ok: bool)
      requires Valid(known)
      modifies this
      ensures Valid(known) && ok == (id in old(items))
      ensures State() == if ok then old(State()).Drop(id) else old(State())
    {
      ok := id in items;
      if ok {
        DropKeepsWellFormed(State(), id, known);
        Untrack(id);
      }
    }

    method RemoveByNetworkId(network: NetworkId, ghost known: set<NetworkId>) returns (gone: set<Id>)
      requires Valid(known)
      modifies this
      ensures Valid(known) && gone == old(State()).OnNetwork(network)
      ensures State() == old(State()).RemoveByNetwork(network)
    {
      RemoveByNetworkKeepsWellFormed(State(), network, known);
      gone := set id | id in items && items[id].networkId == network;
      UntrackAll(gone, known);
    }

    method UntrackAll(gone: set<Id>, ghost known: set<NetworkId>)
      requires Valid(known)
      modifies this
      ensures State() == old(State()).RemoveAll(gone)
    {
      var rest := gone;
      RemoveNone(State());
      while rest != {}
        invariant rest <= gone && State() == old(State()).RemoveAll(gone - rest)
      {
        var id :| id in rest;
        RemoveAllExtends(old(State()), gone - rest, id);
        assert gone - rest + {id} == gone - (rest - {id});
        Untrack(id);
        rest := rest - {id};
      }
      assert gone - {} == gone;
    }

    method OnConfirmed(h: Handle, ghost known: set<NetworkId>)
      requires Valid(known) && h in live
      modifies this
      ensures Valid(known) && State() == old(State()).ReleaseHeld(old(live[h]))
    {
      ConfirmedKeepsWellFormed(State(), h, known);
      var id := live[h];
      live := live - {h};
      HandleReleased(id);
    }

    method OnFailed(h: Handle, ghost known: set<NetworkId>)
      requires Valid(known) && h in live
      modifies this
      ensures Valid(known) && State() == old(State()).CancelWatch(old(live[h]))
    {
      FailedKeepsWellFormed(State(), h, known);
      var id := live[h];
      live := live - {h};
      CancelWatch(id);
    }

    method OnTimer(h: Handle, ghost known: set<NetworkId>)
      requires Valid(known) && h in armed
      modifies this
      ensures Valid(known) && State() == old(State()).ReleaseHeld(old(armed[h]).id)
    {
      ExpiredKeepsWellFormed(State(), h, known);
      var id := armed[h].id;
      armed := armed - {h};
      HandleReleased(id);
    }

    method Close(ghost known: set<NetworkId>)
      requires Valid(known)
      modifies this
      ensures Valid(known) && State() == old(State()).Close()
    {
      hide WellFormed, WatchersLinked, TimersLinked, Manager.CancelWatch, Manager.ClearExpiration, Manager.Close;
      CloseKeepsWellFormed(State(), known);
      ClosingClears(State(), known);
      if !active { return; }
      ghost var before := State();
      active := false;
      ghost var was := State();
      LinksAreSeparate(before, was);
      while watchers.Keys != {}
        invariant State() == was.(watchers := watchers, live := live) && WatchersLinked(State())
      {
        var id :| id in watchers.Keys;
        CancelWatchUnlinks(State(), id);
        SuspendingKeepsTheRest(State(), id);
        CancelWatch(id);
      }
      NoneLinked(State());
      was := State();
      LinksAreSeparate(before, was);
      while expirationTimers.Keys != {}
        invariant State() == was.(timers := expirationTimers, armed := armed) && TimersLinked(State())
      {
        var id :| id in expirationTimers.Keys;
        ClearExpirationUnlinks(State(), id);
        SuspendingKeepsTheRest(State(), id);
        ClearExpiration(id);
      }
      NoneLinked(State());
      items := map[];
    }
  }
}

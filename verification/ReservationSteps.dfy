/** Every step of the reservation protocol keeps the invariant. */
module ReservationSteps {
  import opened Common
  import opened OperationGuard
  import opened ReservationsManager
  import opened ReservedFunds
  import opened ReservationOperationGuard
  import opened ReservationProtocol
  import opened ReservationInvariant

  // ---- What the invariant holds ----

  lemma RunningIsOk(s: State, t: Token)
    requires Inv(s) && t in s.actions
    ensures ActionOk(s.w, s.actions[t])
  {
    hide ActionOk, WorldOk, Consistent;
  }

  lemma InvKeepsGuard(s: State)
    requires Inv(s)
    ensures GuardOk(s)
  {
    hide ActionOk, WorldOk, GuardOk;
  }

  lemma InvHoldsWorld(s: State)
    requires Inv(s)
    ensures WorldOk(s.w)
  {
    hide ActionOk, WorldOk, Consistent;
  }

  // ---- Entering ----

  lemma EnterKeepsGuard(s: State, a: Action, w': World)
    requires GuardOk(s) && !s.guard.Refuses(a.GuardRun())
    ensures GuardOk(s.Enter(a, w')) && s.nextToken !in s.actions
  {
    hide Consistent, GuardState.Refuses, GuardState.Acquire;
    AcquireKeepsConsistent(s.guard, Runs(s.actions), a.GuardRun(), s.nextToken);
    assert Runs(s.Enter(a, w').actions) == Runs(s.actions)[s.nextToken := a.GuardRun()];
  }

  lemma EnterKeepsSections(s: State, a: Action, w': World)
    requires SectionsAreOwned(s.w.m.exclusive, s.actions) && s.nextToken !in s.actions
    requires w'.m.exclusive == s.w.m.exclusive + (if a.InSection() then {a.id} else {})
    ensures SectionsAreOwned(w'.m.exclusive, s.actions[s.nextToken := a])
  {
    var actions := s.actions[s.nextToken := a];
    forall id | id in w'.m.exclusive ensures exists u :: SectionOwner(actions, u, id) {
      if a.InSection() && id == a.id {
        assert SectionOwner(actions, s.nextToken, id);
      } else {
        var u :| SectionOwner(s.actions, u, id);
        assert SectionOwner(actions, u, id);
      }
    }
  }

  lemma EnterKeepsInv(s: State, a: Action, w': World)
    requires Inv(s) && !s.guard.Refuses(a.GuardRun())
    requires ActionOk(w', a) && WorldOk(w') && OthersUndisturbed(s, w', s.nextToken) && a.InFlight().None?
    requires w'.m.exclusive == s.w.m.exclusive + (if a.InSection() then {a.id} else {})
    ensures Inv(s.Enter(a, w'))
  {
    hide ActionOk, Undisturbed, WorldOk, Consistent;
    EnterKeepsGuard(s, a, w');
    EnterKeepsSections(s, a, w');
    forall u | u in s.actions ensures ActionOk(w', s.actions[u]) {
      UndisturbedStaysOk(s.w, w', s.actions[u]);
    }
  }

  /** Adds, submissions and cleanups enter without touching anything shared. */
  lemma TryEnterKeepsInv(s: State, a: Action)
    requires Inv(s) && PhaseOfKind(a) && a.OwnId().None? && !a.phase.Cleaning?
    requires a.ChecksFunds() ==> a.phase.Balance? && a.captured == Reserved(s.w.m.items, a.account, a.checkedOn)
    ensures Inv(s.TryEnter(a, s.w))
  {
    if !s.guard.Refuses(a.GuardRun()) {
      assert ActionOk(s.w, a);
      EnterKeepsInv(s, a, s.w);
    }
  }

  lemma SectionHoldsItsKey(s: State, id: Id)
    requires Inv(s) && id in s.w.m.exclusive
    ensures ReservationKey(id) in s.guard.items && id in s.w.used
  {
    var t :| SectionOwner(s.actions, t, id);
    assert ActionOk(s.w, s.actions[t]);
    assert ReservationKey(id) in Runs(s.actions)[t].keys;
  }

  lemma AcceptedSectionIsFree(s: State, a: Action)
    requires Inv(s) && !s.guard.Refuses(a.GuardRun()) && !a.kind.Cleanup? && a.id != ""
    ensures a.id !in s.w.m.exclusive
  {
    if a.id in s.w.m.exclusive { SectionHoldsItsKey(s, a.id); }
    assert ReservationKey(a.id) in s.guard.items ==>
      ReservationKey(a.id) in a.GuardRun().keys.Keys * s.guard.items.Keys;
  }

  lemma BeginExclusiveKeepsWorld(w: World, id: Id)
    requires WorldOk(w)
    ensures WorldOk(w.(m := w.m.BeginExclusive(id)))
    ensures forall i :: i != id ==> SameAt(w, w.(m := w.m.BeginExclusive(id)), i)
  {
    BeginExclusiveKeepsWellFormed(w.m, id, w.networks);
  }

  lemma FreeIdHasNoOwner(s: State, id: Id)
    requires Inv(s) && id in s.w.m.items && id !in s.w.m.exclusive
    ensures forall u :: u in s.actions ==> s.actions[u].OwnId() != Some(id)
    ensures forall u :: u in s.actions && s.actions[u].phase.Cleaning? ==> id !in s.actions[u].phase.ids
  {
    forall u | u in s.actions
      ensures s.actions[u].OwnId() != Some(id)
      ensures s.actions[u].phase.Cleaning? ==> id !in s.actions[u].phase.ids
    {
      assert ActionOk(s.w, s.actions[u]);
    }
  }

  /** Updates and removals enter with the exclusive section on their reservation. */
  lemma EnterSectionKeepsInv(s: State, a: Action)
    requires Inv(s) && !s.guard.Refuses(a.GuardRun()) && a.id in s.w.m.items && a.id !in s.w.m.exclusive && a.InSection()
    requires ActionOk(s.w.(m := s.w.m.BeginExclusive(a.id)), a)
    ensures Inv(s.Enter(a, s.w.(m := s.w.m.BeginExclusive(a.id))))
  {
    var w' := s.w.(m := s.w.m.BeginExclusive(a.id));
    BeginExclusiveKeepsWorld(s.w, a.id);
    FreeIdHasNoOwner(s, a.id);
    hide ActionOk, WorldOk, Consistent, SameAt;
    TouchingOneDisturbsNone(s, w', s.nextToken, a.id);
    EnterKeepsInv(s, a, w');
  }

  lemma SectionKeepsItems(m: Manager, id: Id)
    ensures var n := m.BeginExclusive(id);
            n.items == m.items && n.exclusive == m.exclusive + {id} && n.released == m.released && n.active == m.active
  {}

  lemma UpdateActionOk(s: State, id: Id, network: NetworkId, account: AccountId, amount: nat, deployId: string)
    requires Inv(s) && id != "" && id in s.w.m.items && id !in s.w.m.exclusive
    ensures ActionOk(s.w.(m := s.w.m.BeginExclusive(id)), s.UpdateAction(id, network, account, amount, deployId))
  {
    hide Inv, Reserved, WatchersLinked, TimersLinked, HasOwnTimer, SentAreRecorded, Manager.CancelWatch, Manager.ClearExpiration;
    InvHoldsWorld(s);
    SectionKeepsItems(s.w.m, id);
  }

  lemma StartUpdateKeepsInv(s: State, id: Id, network: NetworkId, account: AccountId, amount: nat, deployId: string)
    requires Inv(s) && id != ""
    ensures Inv(s.StartUpdate(id, network, account, amount, deployId))
  {
    var a := s.UpdateAction(id, network, account, amount, deployId);
    if a.phase.Ending? {
      TryEnterKeepsInv(s, a);
    } else if !s.guard.Refuses(a.GuardRun()) {
      AcceptedSectionIsFree(s, a);
      UpdateActionOk(s, id, network, account, amount, deployId);
      hide ActionOk, WorldOk, Consistent;
      EnterSectionKeepsInv(s, a);
    }
  }

  lemma RemoveActionOk(s: State, id: Id)
    requires Inv(s) && id != "" && id in s.w.m.items && id !in s.w.m.exclusive
    ensures ActionOk(s.w.(m := s.w.m.BeginExclusive(id)), s.RemoveAction(id))
  {}

  lemma StartRemoveKeepsInv(s: State, id: Id)
    requires Inv(s) && id != ""
    ensures Inv(s.StartRemove(id))
  {
    if id in s.w.m.items && !s.guard.Refuses(s.RemoveAction(id).GuardRun()) {
      AcceptedSectionIsFree(s, s.RemoveAction(id));
      RemoveActionOk(s, id);
      hide ActionOk, WorldOk, Consistent, GuardState.Refuses, Manager.BeginExclusive;
      EnterSectionKeepsInv(s, s.RemoveAction(id));
    }
  }

  // ---- Checking and writing ----

  /** A phase change that keeps the action's own reservation, or takes a fresh one. */
  lemma OwnershipKept(s: State, t: Token, a: Action)
    requires Inv(s) && t in s.actions
    requires a.InFlight().Some? ==>
      a.InFlight().value.id !in s.w.used
      || (s.actions[t].InFlight().Some? && a.InFlight().value.id == s.actions[t].InFlight().value.id)
    requires s.actions[t].InSection() ==> a.InSection() && a.id == s.actions[t].id
    ensures FlightsDiffer(s.actions[t := a]) && SectionsAreOwned(s.w.m.exclusive, s.actions[t := a])
  {
    forall u | u in s.actions && u != t && s.actions[u].InFlight().Some? && a.InFlight().Some?
      ensures s.actions[u].InFlight().value.id != a.InFlight().value.id
    {
      assert ActionOk(s.w, s.actions[u]);
    }
    var actions := s.actions[t := a];
    forall id | id in s.w.m.exclusive ensures exists u :: SectionOwner(actions, u, id) {
      var u :| SectionOwner(s.actions, u, id);
      assert SectionOwner(actions, u, id);
    }
  }

  lemma MoreIdsDisturbNone(s: State, t: Token, used: set<Id>)
    requires Inv(s) && s.w.used <= used
    ensures WorldOk(s.w.(used := used)) && OthersUndisturbed(s, s.w.(used := used), t)
  {
    hide Inv, WellFormed, Reserved;
    InvHoldsWorld(s);
  }

  /** A step that only moves an action to a new phase. */
  lemma PhaseStepKeepsInv(s: State, t: Token, a: Action, used: set<Id>)
    requires Inv(s) && t in s.actions && a.GuardRun() == s.actions[t].GuardRun() && s.w.used <= used
    requires s.actions[t].InSection() ==> a.InSection() && a.id == s.actions[t].id
    requires a.InFlight().Some? ==>
      a.InFlight().value.id !in s.w.used
      || (s.actions[t].InFlight().Some? && a.InFlight().value.id == s.actions[t].InFlight().value.id)
    requires ActionOk(s.w.(used := used), a)
    ensures Inv(s.With(t, a, s.w.(used := used)))
  {
    hide ActionOk, WorldOk, Consistent, Undisturbed;
    OwnershipKept(s, t, a);
    MoreIdsDisturbNone(s, t, used);
    AssembleInv(s, t, a, s.w.(used := used));
  }

  lemma UnusedIsUntouched(s: State, id: Id)
    requires Inv(s) && id !in s.w.used
    ensures id !in s.w.m.items && id !in s.w.m.released && id !in s.w.stored && id !in s.w.sent && id !in s.w.verdicts
    ensures id !in s.w.m.exclusive
  {
    if id in s.w.m.exclusive { SectionHoldsItsKey(s, id); }
  }

  /** A check, a signature or a write that fails leads out of the action. */
  lemma GivesUpOk(w: World, a: Action)
    requires ActionOk(w, a) && (a.phase.Balance? || a.phase.Signing? || a.phase.Writing?)
    ensures var b := a.(phase := if a.kind.Update? then Leaving else Ending);
            ActionOk(w, b) && (a.InSection() ==> b.InSection()) && b.InFlight().None?
    ensures a.phase.Signing? ==> !a.kind.Update?
  {}

  lemma AddWritesOk(s: State, t: Token, balance: int, newId: Id)
    requires Inv(s) && Enabled(s, BalanceRead(t, Some(balance), newId)) && s.actions[t].kind.Add?
    requires balance >= s.actions[t].captured + s.actions[t].delta
    ensures ActionOk(s.w.(used := s.w.used + {newId}),
                     s.actions[t].(balance := balance, phase := Writing(s.w.NewReservation(s.actions[t], newId, s.actions[t].deployId))))
  {
    hide Inv;
    RunningIsOk(s, t);
    UnusedIsUntouched(s, newId);
  }

  lemma BalanceReadKeepsInv(s: State, t: Token, balance: Option<int>, newId: Id)
    requires Inv(s) && Enabled(s, BalanceRead(t, balance, newId))
    ensures Inv(s.BalanceRead(t, balance, newId))
  {
    hide Inv, ActionOk;
    var a := s.actions[t];
    if balance.None? || balance.value - (a.captured + a.delta) < 0 {
      RunningIsOk(s, t);
      GivesUpOk(s.w, a);
      PhaseStepKeepsInv(s, t, a.(phase := if a.kind.Update? then Leaving else Ending), s.w.used);
    } else {
      BalanceCoversKeepsInv(s, t, balance.value, newId);
    }
  }

  lemma OtherCheckPasses(s: State, t: Token, balance: int)
    requires Inv(s) && t in s.actions && s.actions[t].phase.Balance? && !s.actions[t].kind.Add?
    requires balance >= s.actions[t].captured + s.actions[t].delta
    ensures var a := s.actions[t];
            var next := if a.kind.Update? then Writing(s.w.NewReservation(a, a.id, a.deployId)) else Signing;
            ActionOk(s.w, a.(balance := balance, phase := next))
  {
    hide Inv;
    RunningIsOk(s, t);
  }

  lemma BalanceCoversKeepsInv(s: State, t: Token, balance: int, newId: Id)
    requires Inv(s) && Enabled(s, BalanceRead(t, Some(balance), newId))
    requires balance >= s.actions[t].captured + s.actions[t].delta
    ensures Inv(s.BalanceRead(t, Some(balance), newId))
  {
    var a := s.actions[t];
    var b := a.(balance := balance);
    if a.kind.Add? {
      AddWritesOk(s, t, balance, newId);
    } else {
      OtherCheckPasses(s, t, balance);
    }
    hide ActionOk, WorldOk, Consistent;
    match a.kind
    case Add => PhaseStepKeepsInv(s, t, b.(phase := Writing(s.w.NewReservation(a, newId, a.deployId))), s.w.used + {newId});
    case Update => PhaseStepKeepsInv(s, t, b.(phase := Writing(s.w.NewReservation(a, a.id, a.deployId))), s.w.used);
    case _ => PhaseStepKeepsInv(s, t, b.(phase := Signing), s.w.used);
  }

  lemma SignedOk(s: State, t: Token, signature: string, newId: Id)
    requires Inv(s) && t in s.actions && s.actions[t].phase.Signing? && newId !in s.w.used
    ensures var a := s.actions[t];
            ActionOk(s.w.(used := s.w.used + {newId}), a.(phase := Writing(s.w.NewReservation(a, newId, signature))))
    ensures !s.actions[t].InSection()
  {
    hide Inv;
    RunningIsOk(s, t);
    UnusedIsUntouched(s, newId);
  }

  lemma SignatureReadKeepsInv(s: State, t: Token, signature: Option<string>, newId: Id)
    requires Inv(s) && Enabled(s, SignatureRead(t, signature, newId))
    ensures Inv(s.SignatureRead(t, signature, newId))
  {
    hide Inv, ActionOk;
    var a := s.actions[t];
    if signature.None? {
      RunningIsOk(s, t);
      GivesUpOk(s.w, a);
      PhaseStepKeepsInv(s, t, a.(phase := Ending), s.w.used);
    } else {
      SignedOk(s, t, signature.value, newId);
      PhaseStepKeepsInv(s, t, a.(phase := Writing(s.w.NewReservation(a, newId, signature.value))), s.w.used + {newId});
    }
  }

  // ---- Steps on the action's own reservation ----

  ghost predicate FreesFunds(s: State, w': World, t: Token) {
    forall u :: u in s.actions && u != t && s.actions[u].ChecksFunds() ==>
      Reserved(w'.m.items, s.actions[u].account, s.actions[u].network)
      <= Reserved(s.w.m.items, s.actions[u].account, s.actions[u].network)
  }

  lemma OwnStepDisturbsNone(s: State, t: Token, w': World, id: Id)
    requires Inv(s) && t in s.actions && s.actions[t].OwnId() == Some(id)
    requires s.w.used <= w'.used && w'.m.active == s.w.m.active
    requires forall i :: i != id ==> SameAt(s.w, w', i)
    requires IsCleaned(s.w, id) ==> IsCleaned(w', id)
    requires FreesFunds(s, w', t)
    ensures OthersUndisturbed(s, w', t)
  {
    forall u | u in s.actions && u != t
      ensures s.actions[u].OwnId() != Some(id)
      ensures s.actions[u].phase.Cleaning? ==> id !in s.actions[u].phase.ids || IsCleaned(w', id)
    {
      OwnersDiffer(s, t, u);
      assert ActionOk(s.w, s.actions[u]);
    }
    hide ActionOk, WorldOk, Consistent, SameAt, IsCleaned;
    TouchingOneDisturbsNone(s, w', t, id);
  }

  lemma OwnStepKeepsInv(s: State, t: Token, a: Action, w': World, id: Id)
    requires Inv(s) && t in s.actions && s.actions[t].OwnId() == Some(id) && a.GuardRun() == s.actions[t].GuardRun()
    requires s.w.used <= w'.used && w'.m.active == s.w.m.active
    requires forall i :: i != id ==> SameAt(s.w, w', i)
    requires IsCleaned(s.w, id) ==> IsCleaned(w', id)
    requires FreesFunds(s, w', t)
    requires WorldOk(w') && ActionOk(w', a)
    requires a.OwnId().Some? ==> a.OwnId() == Some(id) && a.InSection() == s.actions[t].InSection()
    requires s.actions[t].InSection() ==> (a.InSection() <==> id in w'.m.exclusive)
    requires id in w'.m.exclusive ==> id in s.w.m.exclusive
    ensures Inv(s.With(t, a, w'))
  {
    OwnStepDisturbsNone(s, t, w', id);
    hide ActionOk, WorldOk, Consistent, Undisturbed, IsCleaned;
    OwnSectionsAreOwned(s, t, a, w', id);
    OwnFlightsDiffer(s, t, a);
    AssembleInv(s, t, a, w');
  }

  lemma OwnFlightsDiffer(s: State, t: Token, a: Action)
    requires FlightsDiffer(s.actions) && t in s.actions
    requires a.InFlight().Some? ==> s.actions[t].InFlight().Some? && s.actions[t].InFlight().value.id == a.InFlight().value.id
    ensures FlightsDiffer(s.actions[t := a])
  {}

  lemma OwnSectionsAreOwned(s: State, t: Token, a: Action, w': World, id: Id)
    requires SectionsAreOwned(s.w.m.exclusive, s.actions) && t in s.actions
    requires s.actions[t].OwnId() == Some(id)
    requires forall i :: i != id ==> SameAt(s.w, w', i)
    requires a.OwnId().Some? ==> a.OwnId() == Some(id) && a.InSection() == s.actions[t].InSection()
    requires s.actions[t].InSection() ==> (a.InSection() <==> id in w'.m.exclusive)
    requires id in w'.m.exclusive ==> id in s.w.m.exclusive
    ensures SectionsAreOwned(w'.m.exclusive, s.actions[t := a])
  {
    var actions := s.actions[t := a];
    forall i | i in w'.m.exclusive ensures exists u :: SectionOwner(actions, u, i) {
      assert i != id ==> SameAt(s.w, w', i);
      var u :| SectionOwner(s.actions, u, i);
      assert SectionOwner(actions, u, i);
    }
  }

  // A record is written.

  lemma WrittenOk(s: State, t: Token)
    requires Inv(s) && t in s.actions && s.actions[t].phase.Writing?
    requires s.actions[t].kind.Update? ==> s.actions[t].phase.r.id in s.w.stored
    ensures var r := s.actions[t].phase.r;
            var w' := s.w.(stored := s.w.stored[r.id := r]);
            && s.actions[t].OwnId() == Some(r.id) && (s.actions[t].InSection() ==> r.id in s.w.m.exclusive)
            && WorldOk(w') && ActionOk(w', s.actions[t].(phase := Written(r)))
            && (forall i :: i != r.id ==> SameAt(s.w, w', i))
  {
    hide Inv;
    RunningIsOk(s, t);
    InvHoldsWorld(s);
  }

  lemma RecordWrittenKeepsInv(s: State, t: Token, ok: bool)
    requires Inv(s) && Enabled(s, RecordWritten(t, ok))
    ensures Inv(s.RecordWritten(t, ok))
  {
    hide Inv, ActionOk, WorldOk, SameAt;
    var a := s.actions[t];
    var r := a.phase.r;
    if !ok || (a.kind.Update? && r.id !in s.w.stored) {
      RunningIsOk(s, t);
      GivesUpOk(s.w, a);
      PhaseStepKeepsInv(s, t, a.(phase := if a.kind.Update? then Leaving else Ending), s.w.used);
    } else {
      WrittenOk(s, t);
      OwnStepKeepsInv(s, t, a.(phase := Written(r)), s.w.(stored := s.w.stored[r.id := r]), r.id);
    }
  }

  // A reservation is held.

  lemma AddTouchesOne(m: Manager, r: Reservation, now: int, known: set<NetworkId>)
    requires r.id !in m.items
    ensures var n := m.Add(r, now, known);
            && n.exclusive == m.exclusive && n.active == m.active
            && (n.items == m.items[r.id := r] || n.items == m.items)
            && (n.released == m.released || (n.released == m.released + {r.id} && n.items == m.items))
  {
    if m.active && r.networkId in known && r.expirationTime <= now {
      assert m.items[r.id := r] - {r.id} == m.items;
    }
  }

  lemma HoldTouchesOne(w: World, r: Reservation)
    requires r.id !in w.m.items && r.id !in w.m.exclusive
    ensures forall i :: i != r.id ==> SameAt(w, w.Hold(r), i)
    ensures w.Hold(r).m.items == w.m.items || w.Hold(r).m.items == w.m.items[r.id := r]
    ensures w.Hold(r).m.exclusive == w.m.exclusive && w.Hold(r).m.active == w.m.active
    ensures r.id in w.Hold(r).m.items ==> w.Hold(r).m.released == w.m.released && w.Hold(r).m.items[r.id] == r
    ensures w.m.released <= w.Hold(r).m.released <= w.m.released + {r.id}
  {
    AddTouchesOne(w.m, r, w.now, w.networks);
    var n := w.m.Add(r, w.now, w.networks);
    assert w.Hold(r) == w.(m := n);
    hide *;
  }

  lemma HoldKeepsWorld(w: World, r: Reservation)
    requires WorldOk(w) && r.id !in w.m.items && r.id !in w.m.exclusive && r.id !in w.m.released && r.id in w.used
    requires r.id in w.stored && w.stored[r.id] == r && r.id !in w.verdicts
    ensures WorldOk(w.Hold(r))
  {
    HoldTouchesOne(w, r);
    if w.m.active {
      TrackKeepsWellFormed(w.m, r, w.now, w.networks);
    }
    hide WellFormed, SameAt;
  }

  lemma HoldFreesOthersFunds(s: State, t: Token, r: Reservation)
    requires GuardOk(s) && t in s.actions && Carries(s.actions[t], r) && !s.actions[t].kind.Cleanup?
    requires r.id !in s.w.m.items
    requires s.w.Hold(r).m.items == s.w.m.items || s.w.Hold(r).m.items == s.w.m.items[r.id := r]
    ensures FreesFunds(s, s.w.Hold(r), t)
  {
    forall u | u in s.actions && u != t && s.actions[u].ChecksFunds()
      ensures Reserved(s.w.Hold(r).m.items, s.actions[u].account, s.actions[u].network)
              <= Reserved(s.w.m.items, s.actions[u].account, s.actions[u].network)
    {
      var b := s.actions[u];
      ReservedWith(s.w.m.items, r, b.account, b.network);
      if b.account == r.accountId && b.network == r.networkId { SameAccountSameAction(s, t, u); }
    }
  }

  lemma HoldKeepsInv(s: State, t: Token)
    requires Inv(s) && t in s.actions
    requires (s.actions[t].kind.Add? && s.actions[t].phase.Written?) || s.actions[t].phase.Accepted? || s.actions[t].phase.Undecided?
    ensures Inv(s.With(t, s.actions[t].(phase := Ending), s.w.Hold(s.actions[t].phase.r)))
  {
    var a := s.actions[t];
    var r := a.phase.r;
    assert ActionOk(s.w, a);
    assert ActionOk(s.w.Hold(r), a.(phase := Ending));
    HoldKeepsWorld(s.w, r);
    HoldTouchesOne(s.w, r);
    HoldFreesOthersFunds(s, t, r);
    hide ActionOk, WorldOk, Consistent, SameAt;
    OwnStepKeepsInv(s, t, a.(phase := Ending), s.w.Hold(r), r.id);
  }

  // A reservation is replaced.

  lemma ReplacedOk(w: World, a: Action)
    requires ActionOk(w, a) && a.kind.Update? && a.phase.Written?
    ensures a.phase.r.id == a.id && ActionOk(w.(m := w.m.Replace(a.phase.r)), a.(phase := Leaving))
  {}

  lemma ReplacedWorldOk(w: World, a: Action)
    requires WorldOk(w) && ActionOk(w, a) && a.kind.Update? && a.phase.Written?
    ensures WorldOk(w.(m := w.m.Replace(a.phase.r)))
  {
    ReplaceKeepsWellFormed(w.m, a.phase.r, w.networks);
    hide WellFormed;
  }

  lemma ReplaceKeepsWorld(s: State, t: Token)
    requires Inv(s) && t in s.actions && s.actions[t].kind.Update? && s.actions[t].phase.Written?
    ensures var a := s.actions[t];
            var w' := s.w.(m := s.w.m.Replace(a.phase.r));
            && WorldOk(w') && ActionOk(w', a.(phase := Leaving)) && a.OwnId() == Some(a.id) == Some(a.phase.r.id)
            && (forall i :: i != a.id ==> SameAt(s.w, w', i))
  {
    hide Inv, ActionOk, WorldOk;
    RunningIsOk(s, t);
    InvHoldsWorld(s);
    ReplacedOk(s.w, s.actions[t]);
    ReplacedWorldOk(s.w, s.actions[t]);
  }

  lemma ReplaceFreesOthersFunds(s: State, t: Token)
    requires Inv(s) && t in s.actions && s.actions[t].kind.Update? && s.actions[t].phase.Written?
    ensures FreesFunds(s, s.w.(m := s.w.m.Replace(s.actions[t].phase.r)), t)
  {
    var a := s.actions[t];
    var r := a.phase.r;
    assert ActionOk(s.w, a);
    if r.id in s.w.m.items {
      forall u | u in s.actions && u != t && s.actions[u].ChecksFunds()
        ensures Reserved(s.w.m.Replace(r).items, s.actions[u].account, s.actions[u].network)
                <= Reserved(s.w.m.items, s.actions[u].account, s.actions[u].network)
      {
        var b := s.actions[u];
        ReservedReplaced(s.w.m.items, r, b.account, b.network);
        if b.account == r.accountId && b.network == r.networkId { SameAccountSameAction(s, t, u); }
      }
    }
  }

  lemma ReplaceKeepsInv(s: State, t: Token)
    requires Inv(s) && t in s.actions && s.actions[t].kind.Update? && s.actions[t].phase.Written?
    ensures Inv(s.ResumeWritten(t))
  {
    var a := s.actions[t];
    ReplaceKeepsWorld(s, t);
    ReplaceFreesOthersFunds(s, t);
    hide ActionOk, WorldOk, Consistent, SameAt;
    OwnStepKeepsInv(s, t, a.(phase := Leaving), s.w.(m := s.w.m.Replace(a.phase.r)), a.id);
  }

  // A deploy is sent, or the wallet closed before it was.

  lemma SentOk(s: State, t: Token)
    requires Inv(s) && t in s.actions && s.actions[t].kind.Submit? && s.actions[t].phase.Written?
    ensures var a := s.actions[t];
            var w' := s.w.(sent := s.w.sent + {a.phase.r.id});
            && a.OwnId() == Some(a.phase.r.id)
            && WorldOk(w') && ActionOk(w', a.(phase := Sent(a.phase.r)))
            && (forall i :: i != a.phase.r.id ==> SameAt(s.w, w', i))
  {
    hide Inv;
    RunningIsOk(s, t);
    InvHoldsWorld(s);
  }

  /** The node refuses what was sent, or nothing was sent. */
  lemma RefusedOk(s: State, t: Token, verdict: Verdict)
    requires Inv(s) && t in s.actions && s.actions[t].kind.Submit?
    requires (s.actions[t].phase.Written? && verdict.NeverSent?) || (s.actions[t].phase.Sent? && verdict.Rejected?)
    ensures var a := s.actions[t];
            var w' := s.w.(verdicts := s.w.verdicts[a.phase.r.id := verdict]);
            && a.OwnId() == Some(a.phase.r.id) && !IsCleaned(s.w, a.phase.r.id)
            && WorldOk(w') && ActionOk(w', a.(phase := Releasing(a.phase.r)))
            && (forall i :: i != a.phase.r.id ==> SameAt(s.w, w', i))
  {
    hide Inv;
    RunningIsOk(s, t);
    InvHoldsWorld(s);
  }

  lemma SendKeepsInv(s: State, t: Token)
    requires Inv(s) && t in s.actions && s.actions[t].kind.Submit? && s.actions[t].phase.Written?
    ensures Inv(s.ResumeWritten(t))
  {
    var a := s.actions[t];
    var r := a.phase.r;
    if s.w.m.active {
      SentOk(s, t);
      hide ActionOk, WorldOk, Consistent, SameAt;
      OwnStepKeepsInv(s, t, a.(phase := Sent(r)), s.w.(sent := s.w.sent + {r.id}), r.id);
    } else {
      RefusedOk(s, t, NeverSent);
      hide ActionOk, WorldOk, Consistent, SameAt;
      OwnStepKeepsInv(s, t, a.(phase := Releasing(r)), s.w.(verdicts := s.w.verdicts[r.id := NeverSent]), r.id);
    }
  }

  lemma ResumeWrittenKeepsInv(s: State, t: Token)
    requires Inv(s) && Enabled(s, ResumeWritten(t))
    ensures Inv(s.ResumeWritten(t))
  {
    assert ActionOk(s.w, s.actions[t]);
    match s.actions[t].kind
    case Update => ReplaceKeepsInv(s, t);
    case Submit => SendKeepsInv(s, t);
    case _ => HoldKeepsInv(s, t);
  }

  lemma SentIsSubmission(s: State, t: Token)
    requires Inv(s) && t in s.actions && s.actions[t].phase.Sent?
    ensures s.actions[t].kind.Submit?
  {
    hide Inv;
    RunningIsOk(s, t);
  }

  lemma AnsweredOk(w: World, a: Action, accepted: bool)
    requires ActionOk(w, a) && a.phase.Sent?
    ensures ActionOk(w, a.(phase := if accepted then Accepted(a.phase.r) else Undecided(a.phase.r)))
  {}

  lemma NodeAnsweredKeepsInv(s: State, t: Token, answer: Option<bool>)
    requires Inv(s) && Enabled(s, NodeAnswered(t, answer))
    ensures Inv(s.NodeAnswered(t, answer))
  {
    hide Inv, ActionOk, WorldOk, SameAt;
    var a := s.actions[t];
    var r := a.phase.r;
    SentIsSubmission(s, t);
    if answer == Some(false) {
      RefusedOk(s, t, Rejected);
      OwnStepKeepsInv(s, t, a.(phase := Releasing(r)), s.w.(verdicts := s.w.verdicts[r.id := Rejected]), r.id);
    } else {
      RunningIsOk(s, t);
      AnsweredOk(s.w, a, answer.Some?);
      PhaseStepKeepsInv(s, t, a.(phase := if answer.Some? then Accepted(r) else Undecided(r)), s.w.used);
    }
  }

  lemma RefusedErasedOk(s: State, t: Token)
    requires Inv(s) && t in s.actions && s.actions[t].phase.Releasing?
    ensures var a := s.actions[t];
            var w' := s.w.(stored := s.w.stored - {a.phase.r.id});
            && a.OwnId() == Some(a.phase.r.id)
            && WorldOk(w') && ActionOk(w', a.(phase := Ending)) && ActionOk(s.w, a.(phase := Ending))
            && (forall i :: i != a.phase.r.id ==> SameAt(s.w, w', i))
  {
    hide Inv;
    RunningIsOk(s, t);
    InvHoldsWorld(s);
  }

  lemma RefusedErasedKeepsInv(s: State, t: Token, ok: bool)
    requires Inv(s) && Enabled(s, RefusedErased(t, ok))
    ensures Inv(s.RefusedErased(t, ok))
  {
    var a := s.actions[t];
    RefusedErasedOk(s, t);
    hide ActionOk, WorldOk, Consistent, SameAt;
    if ok {
      OwnStepKeepsInv(s, t, a.(phase := Ending), s.w.(stored := s.w.stored - {a.phase.r.id}), a.phase.r.id);
    } else {
      PhaseStepKeepsInv(s, t, a.(phase := Ending), s.w.used);
    }
  }

  // A reservation is removed: its record first, then the reservation.

  lemma RemovedErasedOk(s: State, t: Token)
    requires Inv(s) && t in s.actions && s.actions[t].phase.Deleting?
    ensures var a := s.actions[t];
            var w' := s.w.(stored := s.w.stored - {a.id}, verdicts := s.w.verdicts[a.id := RemovedByUser]);
            && a.OwnId() == Some(a.id) && !IsCleaned(s.w, a.id) && a.kind.Remove? && a.id in s.w.m.exclusive
            && WorldOk(w') && ActionOk(w', a.(phase := Deleted)) && ActionOk(s.w, a.(phase := Leaving))
            && (forall i :: i != a.id ==> SameAt(s.w, w', i))
  {
    hide Inv;
    RunningIsOk(s, t);
    InvHoldsWorld(s);
  }

  lemma RemovedErasedKeepsInv(s: State, t: Token, ok: bool)
    requires Inv(s) && Enabled(s, RemovedErased(t, ok))
    ensures Inv(s.RemovedErased(t, ok))
  {
    var a := s.actions[t];
    RemovedErasedOk(s, t);
    hide ActionOk, WorldOk, Consistent, SameAt;
    if ok {
      OwnStepKeepsInv(s, t, a.(phase := Deleted),
                      s.w.(stored := s.w.stored - {a.id}, verdicts := s.w.verdicts[a.id := RemovedByUser]), a.id);
    } else {
      PhaseStepKeepsInv(s, t, a.(phase := Leaving), s.w.used);
    }
  }

  lemma DroppedOk(s: State, t: Token)
    requires Inv(s) && t in s.actions && s.actions[t].phase.Deleted?
    ensures var a := s.actions[t];
            var w' := s.w.(m := s.w.m.Drop(a.id));
            && a.OwnId() == Some(a.id) && !IsCleaned(s.w, a.id) && a.id in s.w.m.exclusive && a.kind.Remove?
            && WorldOk(w') && ActionOk(w', a.(phase := Leaving))
            && (forall i :: i != a.id ==> SameAt(s.w, w', i))
  {
    hide Inv;
    RunningIsOk(s, t);
    InvHoldsWorld(s);
    DropKeepsWellFormed(s.w.m, s.actions[t].id, s.w.networks);
  }

  lemma FewerItemsFreeFunds(s: State, w': World, t: Token, gone: set<Id>)
    requires w'.m.items == s.w.m.items - gone
    ensures FreesFunds(s, w', t)
  {
    forall u | u in s.actions && u != t && s.actions[u].ChecksFunds()
      ensures Reserved(w'.m.items, s.actions[u].account, s.actions[u].network)
              <= Reserved(s.w.m.items, s.actions[u].account, s.actions[u].network)
    {
      RemovalOnlyFrees(s.w.m.items, gone, s.actions[u].account, s.actions[u].network);
    }
  }

  lemma ResumeDeletedKeepsInv(s: State, t: Token)
    requires Inv(s) && Enabled(s, ResumeDeleted(t))
    ensures Inv(s.ResumeDeleted(t))
  {
    var a := s.actions[t];
    var w' := s.w.(m := s.w.m.Drop(a.id));
    DroppedOk(s, t);
    FewerItemsFreeFunds(s, w', t, {a.id});
    hide ActionOk, WorldOk, Consistent, SameAt;
    OwnStepKeepsInv(s, t, a.(phase := Leaving), w', a.id);
  }

  // The exclusive section ends and the reservation is rearmed.

  lemma EndExclusiveTouchesOne(m: Manager, id: Id, now: int, known: set<NetworkId>)
    requires id in m.items ==> m.items[id].id == id
    ensures var n := m.EndExclusive(id, now, known);
            && n.exclusive == m.exclusive - {id} && n.active == m.active
            && (n.items == m.items || n.items == m.items - {id})
            && (n.released == m.released || (n.released == m.released + {id} && n.items == m.items - {id} && id in m.items))
  {}

  lemma LeavingKeepsWorld(w: World, id: Id)
    requires WorldOk(w) && id in w.m.exclusive && id in w.used
    requires id in w.m.items ==> id in w.stored && w.stored[id] == w.m.items[id]
    ensures WorldOk(w.(m := w.m.EndExclusive(id, w.now, w.networks)))
  {
    EndExclusiveKeepsWellFormed(w.m, id, w.now, w.networks);
    EndExclusiveTouchesOne(w.m, id, w.now, w.networks);
    hide WellFormed, Manager.EndExclusive;
  }

  lemma LeavingTouchesOne(w: World, id: Id)
    requires id in w.m.items ==> w.m.items[id].id == id
    ensures var w' := w.(m := w.m.EndExclusive(id, w.now, w.networks));
            && (forall i :: i != id ==> SameAt(w, w', i))
            && (IsCleaned(w, id) ==> IsCleaned(w', id))
  {
    EndExclusiveTouchesOne(w.m, id, w.now, w.networks);
    hide Manager.EndExclusive;
  }

  lemma LeftOk(s: State, t: Token)
    requires Inv(s) && t in s.actions && s.actions[t].phase.Leaving?
    ensures var a := s.actions[t];
            && a.OwnId() == Some(a.id) && a.id in s.w.m.exclusive && a.id in s.w.used
            && (a.id in s.w.m.items ==> s.w.m.items[a.id].id == a.id && a.id in s.w.stored && s.w.stored[a.id] == s.w.m.items[a.id])
            && forall w' :: ActionOk(w', a.(phase := Ending))
  {
    hide Inv;
    RunningIsOk(s, t);
    InvHoldsWorld(s);
  }

  lemma LeaveSectionKeepsInv(s: State, t: Token)
    requires Inv(s) && Enabled(s, LeaveSection(t))
    ensures Inv(s.LeaveSection(t))
  {
    var a := s.actions[t];
    var w' := s.w.(m := s.w.m.EndExclusive(a.id, s.w.now, s.w.networks));
    LeftOk(s, t);
    LeavingKeepsWorld(s.w, a.id);
    LeavingTouchesOne(s.w, a.id);
    EndExclusiveTouchesOne(s.w.m, a.id, s.w.now, s.w.networks);
    if w'.m.items != s.w.m.items { FewerItemsFreeFunds(s, w', t, {a.id}); }
    hide ActionOk, WorldOk, Consistent, SameAt, IsCleaned, Manager.EndExclusive;
    OwnStepKeepsInv(s, t, a.(phase := Ending), w', a.id);
  }

  // ---- Network cleanup ----

  lemma QuietStepKeepsInv(s: State, t: Token, a: Action, w': World)
    requires Inv(s) && t in s.actions && a.GuardRun() == s.actions[t].GuardRun()
    requires s.actions[t].OwnId().None? && a.OwnId().None?
    requires WorldOk(w') && ActionOk(w', a) && OthersUndisturbed(s, w', t) && w'.m.exclusive == s.w.m.exclusive
    ensures Inv(s.With(t, a, w'))
  {
    hide ActionOk, WorldOk, Consistent, Undisturbed;
    OwnershipKept(s, t, a);
    AssembleInv(s, t, a, w');
  }

  lemma NetworksDisturbNone(s: State, t: Token, networks: set<NetworkId>, current: NetworkId)
    requires Inv(s) && networks <= s.w.networks
    ensures WorldOk(s.w.(networks := networks, current := current))
    ensures OthersUndisturbed(s, s.w.(networks := networks, current := current), t)
  {
    hide Inv, WorldOk, Reserved;
    InvHoldsWorld(s);
    FewerNetworksKeepWorld(s.w, networks, current);
  }

  lemma FewerNetworksKeepWorld(w: World, networks: set<NetworkId>, current: NetworkId)
    requires WorldOk(w) && networks <= w.networks
    ensures WorldOk(w.(networks := networks, current := current))
  {}

  lemma NetworkWrittenKeepsInv(s: State, t: Token, changed: bool, removed: bool, fallback: NetworkId)
    requires Inv(s) && Enabled(s, NetworkWritten(t, changed, removed, fallback))
    ensures Inv(s.NetworkWritten(t, changed, removed, fallback))
  {
    var a := s.actions[t];
    var w' := s.NetworkWritten(t, changed, removed, fallback).w;
    var b := a.(phase := if changed || removed then Configured else Ending);
    assert ActionOk(s.w, a);
    assert ActionOk(w', b);
    NetworksDisturbNone(s, t, w'.networks, w'.current);
    hide ActionOk, WorldOk, Consistent, Undisturbed;
    QuietStepKeepsInv(s, t, b, w');
  }

  function Cleaned(w: World, network: NetworkId): World {
    var ids := w.m.OnNetwork(network);
    w.(m := w.m.RemoveByNetwork(network), verdicts := w.verdicts + map id | id in ids :: NetworkCleaned)
  }

  lemma CleaningTouchesItsNetwork(w: World, network: NetworkId, id: Id)
    ensures if id in w.m.OnNetwork(network)
            then IsCleaned(Cleaned(w, network), id)
            else SameAt(w, Cleaned(w, network), id)
    ensures SameIfHeld(w, Cleaned(w, network), id)
  {}

  lemma CleaningDisturbsNone(s: State, t: Token)
    requires Inv(s) && t in s.actions && s.actions[t].phase.Configured?
    ensures OthersUndisturbed(s, Cleaned(s.w, s.actions[t].network), t)
  {
    hide Inv, WorldOk, SameAt, SameIfHeld, IsCleaned, Reserved;
    var network := s.actions[t].network;
    var w' := Cleaned(s.w, network);
    RunningIsOk(s, t);
    FewerItemsFreeFunds(s, w', t, s.w.m.OnNetwork(network));
    forall u | u in s.actions && u != t ensures Undisturbed(s.w, w', s.actions[u]) {
      var b := s.actions[u];
      RunningIsOk(s, u);
      if b.network == network { InvKeepsGuard(s); CleanupRunsAlone(s, t, u); }
      forall id { CleaningTouchesItsNetwork(s.w, network, id); }
    }
  }

  lemma CleaningKeepsWorld(w: World, network: NetworkId)
    requires WorldOk(w)
    ensures WorldOk(Cleaned(w, network))
  {
    RemoveByNetworkKeepsWellFormed(w.m, network, w.networks);
    hide WellFormed;
  }

  lemma CleaningIsOk(s: State, t: Token)
    requires Inv(s) && t in s.actions && s.actions[t].phase.Configured?
    ensures var a := s.actions[t];
            a.kind.Cleanup? && ActionOk(Cleaned(s.w, a.network), a.(phase := Cleaning(s.w.m.OnNetwork(a.network))))
  {
    hide Inv;
    RunningIsOk(s, t);
    InvHoldsWorld(s);
  }

  lemma ResumeConfiguredKeepsInv(s: State, t: Token)
    requires Inv(s) && Enabled(s, ResumeConfigured(t))
    ensures Inv(s.ResumeConfigured(t))
  {
    hide Inv, ActionOk, WorldOk, OthersUndisturbed;
    var a := s.actions[t];
    var b := a.(phase := Cleaning(s.w.m.OnNetwork(a.network)));
    var w' := Cleaned(s.w, a.network);
    InvHoldsWorld(s);
    CleaningIsOk(s, t);
    CleaningDisturbsNone(s, t);
    CleaningKeepsWorld(s.w, a.network);
    QuietStepKeepsInv(s, t, b, w');
  }

  lemma ErasingCleanedDisturbsNone(s: State, t: Token)
    requires Inv(s) && t in s.actions && s.actions[t].phase.Cleaning?
    ensures OthersUndisturbed(s, s.w.(stored := s.w.stored - s.actions[t].phase.ids), t)
    ensures WorldOk(s.w.(stored := s.w.stored - s.actions[t].phase.ids))
  {
    assert ActionOk(s.w, s.actions[t]);
    var w' := s.w.(stored := s.w.stored - s.actions[t].phase.ids);
    forall u | u in s.actions && u != t ensures Undisturbed(s.w, w', s.actions[u]) {
      assert ActionOk(s.w, s.actions[u]);
    }
  }

  lemma CleanedErasedKeepsInv(s: State, t: Token, ok: bool)
    requires Inv(s) && Enabled(s, CleanedErased(t, ok))
    ensures Inv(s.CleanedErased(t, ok))
  {
    var a := s.actions[t];
    assert ActionOk(s.w, a);
    var w' := s.CleanedErased(t, ok).w;
    assert ActionOk(w', a.(phase := Ending));
    if ok {
      ErasingCleanedDisturbsNone(s, t);
      hide ActionOk, WorldOk, Consistent, Undisturbed;
      QuietStepKeepsInv(s, t, a.(phase := Ending), w');
    } else {
      hide ActionOk, WorldOk, Consistent;
      PhaseStepKeepsInv(s, t, a.(phase := Ending), s.w.used);
    }
  }

  // ---- Leaving the guard ----

  lemma LeaveKeepsGuard(s: State, t: Token)
    requires GuardOk(s) && t in s.actions && s.actions[t].phase.Ending?
    ensures GuardOk(s.Leave(t))
  {
    ReleaseKeepsConsistent(s.guard, Runs(s.actions), t);
    assert Runs(s.actions - {t}) == Runs(s.actions) - {t};
    hide Consistent;
  }

  lemma LeaveKeepsInv(s: State, t: Token)
    requires Inv(s) && Enabled(s, Leave(t))
    ensures Inv(s.Leave(t))
  {
    hide ActionOk, WorldOk, Consistent;
    LeaveKeepsGuard(s, t);
    var actions := s.actions - {t};
    forall id | id in s.w.m.exclusive ensures exists u :: SectionOwner(actions, u, id) {
      var u :| SectionOwner(s.actions, u, id);
      assert SectionOwner(actions, u, id);
    }
  }

  // ---- Timers, pollers and the rest of the world ----

  lemma WorldStepKeepsInv(s: State, w': World)
    requires Inv(s) && WorldOk(w') && OthersUndisturbed(s, w', s.nextToken) && w'.m.exclusive == s.w.m.exclusive
    ensures Inv(s.(w := w'))
  {
    hide ActionOk, WorldOk, Consistent, Undisturbed;
    forall u | u in s.actions ensures ActionOk(w', s.actions[u]) {
      UndisturbedStaysOk(s.w, w', s.actions[u]);
    }
  }

  lemma ReleasedElsewhereSame(w: World, id: Id, i: Id)
    requires i != id
    ensures SameAt(w, w.(m := w.m.ReleaseHeld(id)), i)
  {}

  lemma ReleasedWorldOk(w: World, id: Id)
    requires WorldOk(w) && id in w.m.items && id !in w.m.exclusive
    ensures var w' := w.(m := w.m.ReleaseHeld(id));
            WorldOk(w') && forall i :: i != id ==> SameAt(w, w', i)
  {
    hide WellFormed, SameAt, Manager.ReleaseHeld;
    ReleasedIsWellFormed(w.m, id, w.networks);
    forall i | i != id ensures SameAt(w, w.(m := w.m.ReleaseHeld(id)), i) {
      ReleasedElsewhereSame(w, id, i);
    }
    ReleasedFacts(w.m, id);
  }

  lemma ReleasedIsWellFormed(m: Manager, id: Id, known: set<NetworkId>)
    requires WellFormed(m, known)
    ensures WellFormed(m.ReleaseHeld(id), known)
  {
    DropKeepsWellFormed(m, id, known);
  }

  lemma ReleasedFacts(m: Manager, id: Id)
    ensures var p := m.ReleaseHeld(id);
            p.items == m.items - {id} && p.released == m.released + {id} && p.exclusive == m.exclusive && p.active == m.active
  {}

  lemma ReleasedKeepsInv(s: State, id: Id)
    requires Inv(s) && id in s.w.m.items && id !in s.w.m.exclusive
    ensures Inv(s.(w := s.w.(m := s.w.m.ReleaseHeld(id))))
  {
    hide Inv, WorldOk, SameAt, IsCleaned, Manager.ReleaseHeld;
    var w' := s.w.(m := s.w.m.ReleaseHeld(id));
    InvHoldsWorld(s);
    ReleasedFacts(s.w.m, id);
    ReleasedWorldOk(s.w, id);
    FreeIdHasNoOwner(s, id);
    FewerItemsFreeFunds(s, w', s.nextToken, {id});
    TouchingOneDisturbsNone(s, w', s.nextToken, id);
    WorldStepKeepsInv(s, w');
  }

  lemma CancellingDisturbsNone(s: State, id: Id)
    requires Inv(s)
    ensures OthersUndisturbed(s, s.w.(m := s.w.m.CancelWatch(id)), s.nextToken)
  {
    hide Inv;
  }

  lemma WatchFailedKeepsInv(s: State, h: Handle)
    requires Inv(s) && h in s.w.m.live
    ensures Inv(s.(w := s.w.(m := s.w.m.Failed(h))))
  {
    FailedKeepsWellFormed(s.w.m, h, s.w.networks);
    var w' := s.w.(m := s.w.m.CancelWatch(s.w.m.live[h]));
    assert WorldOk(w') by { hide WellFormed; }
    CancellingDisturbsNone(s, s.w.m.live[h]);
    hide ActionOk, WorldOk, Consistent, Undisturbed;
    WorldStepKeepsInv(s, w');
  }

  function Erased(w: World, id: Id): World {
    w.(stored := w.stored - {id})
  }

  lemma ErasingReleasedKeepsWorld(w: World, id: Id)
    requires WorldOk(w) && id in w.m.released
    ensures WorldOk(Erased(w, id))
  {
    hide WellFormed;
  }

  lemma ErasingReleasedDisturbsNone(s: State, id: Id)
    requires Inv(s) && id in s.w.m.released
    ensures OthersUndisturbed(s, Erased(s.w, id), s.nextToken)
  {
    forall u | u in s.actions ensures Undisturbed(s.w, Erased(s.w, id), s.actions[u]) {
      assert ActionOk(s.w, s.actions[u]);
    }
  }

  lemma ReleaseErasedKeepsInv(s: State, id: Id)
    requires Inv(s) && id in s.w.m.released
    ensures Inv(s.(w := s.w.(stored := s.w.stored - {id})))
  {
    ErasingReleasedKeepsWorld(s.w, id);
    ErasingReleasedDisturbsNone(s, id);
    hide ActionOk, WorldOk, Consistent, Undisturbed;
    WorldStepKeepsInv(s, Erased(s.w, id));
  }

  lemma ClosedActionOk(w: World, a: Action)
    requires ActionOk(w, a) && w.m.active && WorldOk(w)
    ensures ActionOk(w.(m := w.m.Close()), a)
  {
    RemovalOnlyFrees(w.m.items, w.m.items.Keys, a.account, a.network);
    assert w.m.items - w.m.items.Keys == map[];
  }

  lemma CloseKeepsInv(s: State)
    requires Inv(s)
    ensures Inv(s.(w := s.w.(m := s.w.m.Close())))
  {
    if s.w.m.active {
      CloseKeepsWellFormed(s.w.m, s.w.networks);
      assert WorldOk(s.w.(m := s.w.m.Close()));
      forall u | u in s.actions ensures ActionOk(s.w.(m := s.w.m.Close()), s.actions[u]) {
        ClosedActionOk(s.w, s.actions[u]);
      }
      hide ActionOk, WorldOk, Consistent;
    }
  }

  lemma SwitchKeepsInv(s: State, current: NetworkId)
    requires Inv(s)
    ensures Inv(s.(w := s.w.(current := current)))
  {
    NetworksDisturbNone(s, s.nextToken, s.w.networks, current);
    hide ActionOk, WorldOk, Consistent, Undisturbed;
    WorldStepKeepsInv(s, s.w.(current := current));
  }

  lemma TickKeepsInv(s: State, now: int)
    requires Inv(s)
    ensures Inv(s.(w := s.w.(now := now)))
  {
    assert OthersUndisturbed(s, s.w.(now := now), s.nextToken) && WorldOk(s.w.(now := now));
    hide ActionOk, WorldOk, Consistent, Undisturbed;
    WorldStepKeepsInv(s, s.w.(now := now));
  }

  lemma HandlesAreOfFreeReservations(s: State, h: Handle)
    requires Inv(s)
    ensures h in s.w.m.live ==> s.w.m.live[h] in s.w.m.items && s.w.m.live[h] !in s.w.m.exclusive
    ensures h in s.w.m.armed ==> s.w.m.armed[h].id in s.w.m.items && s.w.m.armed[h].id !in s.w.m.exclusive
  {
    HeldReservationsAreCovered(s.w.m, s.w.networks);
  }

  lemma HandleStepKeepsInv(s: State, step: Step)
    requires Inv(s) && Enabled(s, step) && (step.Confirmed? || step.TimerFired?)
    ensures Inv(Next(s, step))
  {
    HandlesAreOfFreeReservations(s, step.h);
    if step.Confirmed? {
      ConfirmedKeepsWellFormed(s.w.m, step.h, s.w.networks);
      ReleasedKeepsInv(s, s.w.m.live[step.h]);
    } else {
      ExpiredKeepsWellFormed(s.w.m, step.h, s.w.networks);
      ReleasedKeepsInv(s, s.w.m.armed[step.h].id);
    }
  }

  /** Every step of the protocol keeps the invariant. */
  lemma StepKeepsInv(s: State, step: Step)
    requires Inv(s) && Enabled(s, step)
    ensures Inv(Next(s, step))
  {
    hide Inv;
    match step
    case StartAdd(network, account, amount, deployId) => TryEnterKeepsInv(s, s.AddAction(network, account, amount, deployId));
    case StartSubmit(account, amount) => TryEnterKeepsInv(s, s.SubmitAction(account, amount));
    case StartUpdate(id, network, account, amount, deployId) => StartUpdateKeepsInv(s, id, network, account, amount, deployId);
    case StartRemove(id) => StartRemoveKeepsInv(s, id);
    case StartCleanup(network) => TryEnterKeepsInv(s, s.CleanupAction(network));
    case BalanceRead(t, balance, newId) => BalanceReadKeepsInv(s, t, balance, newId);
    case SignatureRead(t, signature, newId) => SignatureReadKeepsInv(s, t, signature, newId);
    case RecordWritten(t, ok) => RecordWrittenKeepsInv(s, t, ok);
    case ResumeWritten(t) => ResumeWrittenKeepsInv(s, t);
    case NodeAnswered(t, answer) => NodeAnsweredKeepsInv(s, t, answer);
    case ResumeAnswered(t) => HoldKeepsInv(s, t);
    case RefusedErased(t, ok) => RefusedErasedKeepsInv(s, t, ok);
    case RemovedErased(t, ok) => RemovedErasedKeepsInv(s, t, ok);
    case ResumeDeleted(t) => ResumeDeletedKeepsInv(s, t);
    case LeaveSection(t) => LeaveSectionKeepsInv(s, t);
    case NetworkWritten(t, changed, removed, fallback) => NetworkWrittenKeepsInv(s, t, changed, removed, fallback);
    case ResumeConfigured(t) => ResumeConfiguredKeepsInv(s, t);
    case CleanedErased(t, ok) => CleanedErasedKeepsInv(s, t, ok);
    case Leave(t) => LeaveKeepsInv(s, t);
    case Confirmed(h) => HandleStepKeepsInv(s, step);
    case WatchFailed(h) => WatchFailedKeepsInv(s, h);
    case TimerFired(h) => HandleStepKeepsInv(s, step);
    case ReleaseErased(id) => ReleaseErasedKeepsInv(s, id);
    case Close => CloseKeepsInv(s);
    case SwitchNetwork(network) => SwitchKeepsInv(s, network);
    case Tick(now) => TickKeepsInv(s, now);
  }
}

/** The inductive invariant of the reservation protocol: what every running
    action relies on, and what holds of the wallet as a whole. */
module ReservationInvariant {
  import opened Common
  import opened OperationGuard
  import opened ReservationsManager
  import opened ReservedFunds
  import opened ReservationOperationGuard
  import opened ReservationProtocol

  ghost function Runs(actions: map<Token, Action>): Running<Owner> {
    map t | t in actions :: actions[t].GuardRun()
  }

  ghost predicate PhaseOfKind(a: Action) {
    (a.kind.Add? || a.kind.Submit? ==> a.delta == a.amount) &&
    (a.kind.Submit? ==> a.checkedOn == a.network) &&
    match a.kind
    case Add => a.phase.Balance? || a.phase.Writing? || a.phase.Written? || a.phase.Ending?
    case Update => a.phase.Balance? || a.phase.Writing? || a.phase.Written? || a.phase.Leaving? || a.phase.Ending?
    case Remove => a.phase.Deleting? || a.phase.Deleted? || a.phase.Leaving? || a.phase.Ending?
    case Submit => a.phase.Balance? || a.phase.Signing? || a.InFlight().Some? || a.phase.Ending?
    case Cleanup => a.phase.Configuring? || a.phase.Configured? || a.phase.Cleaning? || a.phase.Ending?
  }

  /** While an action's check is pending or passed, its account's reserved sum has
      not grown past the one captured, so the balance still covers the addition. */
  ghost predicate FundsOk(items: map<Id, Reservation>, a: Action) {
    a.ChecksFunds() && a.network == a.checkedOn ==>
      && Reserved(items, a.account, a.network) <= a.captured
      && (!a.phase.Balance? ==> a.captured + a.delta <= a.balance)
  }

  ghost predicate Carries(a: Action, r: Reservation) {
    r.accountId == a.account && r.networkId == a.network && r.pendingAmount == a.amount
  }

  ghost predicate FlightOk(w: World, a: Action) {
    a.InFlight().Some? ==>
      var r := a.InFlight().value;
      && Carries(a, r) && a.delta == a.amount
      && r.id in w.used && r.id !in w.m.items && r.id !in w.m.exclusive && r.id !in w.m.released
      && (a.phase.Written? || a.phase.Sent? || a.phase.Accepted? || a.phase.Undecided? ==> r.id in w.stored && w.stored[r.id] == r)
      && (a.phase.Writing? || a.phase.Written? ==> r.id !in w.sent)
      && (if a.phase.Releasing?
          then r.id in w.verdicts && (w.verdicts[r.id].Rejected? || (w.verdicts[r.id].NeverSent? && r.id !in w.sent))
          else r.id !in w.verdicts)
  }

  ghost predicate SectionOk(w: World, a: Action) {
    a.InSection() ==>
      && a.id in w.m.exclusive && a.id in w.used && a.id !in w.m.released && a.id != ""
      && ((a.phase.Writing? || a.phase.Written?) ==> a.phase.r.id == a.id && Carries(a, a.phase.r))
      && (w.m.active && (a.phase.Balance? || a.phase.Writing? || a.phase.Written?) ==>
            && a.id in w.m.items
            && w.m.items[a.id].accountId == a.account && w.m.items[a.id].networkId == a.network
            && a.delta == a.amount - w.m.items[a.id].pendingAmount)
      && (a.id in w.m.items && !a.phase.Written? && !a.phase.Deleted? ==> a.id in w.stored && w.stored[a.id] == w.m.items[a.id])
      && (a.id in w.m.items && a.phase.Written? ==> a.id in w.stored && w.stored[a.id] == a.phase.r)
      && (!a.phase.Leaving? ==> !IsCleaned(w, a.id) && (a.id in w.m.items ==> w.m.items[a.id].networkId == a.network))
      && (a.phase.Deleted? ==> a.id in w.verdicts && w.verdicts[a.id].RemovedByUser?)
  }

  ghost predicate IsCleaned(w: World, id: Id) {
    id !in w.m.items && id in w.verdicts && w.verdicts[id].NetworkCleaned?
  }

  ghost predicate CleaningOk(w: World, a: Action) {
    a.phase.Cleaning? ==>
      && a.phase.ids <= w.used
      && (forall id :: id in a.phase.ids ==> IsCleaned(w, id))
  }

  ghost predicate ActionOk(w: World, a: Action) {
    PhaseOfKind(a) && FundsOk(w.m.items, a) && FlightOk(w, a) && SectionOk(w, a) && CleaningOk(w, a)
  }

  /** Every held reservation outside the exclusive sections has its own record. */
  ghost predicate HeldAreStored(w: World) {
    forall id :: id in w.m.items && id !in w.m.exclusive ==> id in w.stored && w.stored[id] == w.m.items[id]
  }

  ghost predicate IdsAreUsed(w: World) {
    && w.m.items.Keys <= w.used && w.stored.Keys <= w.used && w.m.released <= w.used
    && w.sent <= w.used && w.verdicts.Keys <= w.used
    && w.m.released !! w.m.items.Keys
    && (forall id :: id in w.m.items && id in w.verdicts ==> w.verdicts[id].RemovedByUser?)
  }

  ghost predicate FlightsDiffer(actions: map<Token, Action>) {
    forall t, u :: t in actions && u in actions && t != u && actions[t].InFlight().Some? && actions[u].InFlight().Some? ==>
      actions[t].InFlight().value.id != actions[u].InFlight().value.id
  }

  ghost predicate SectionOwner(actions: map<Token, Action>, t: Token, id: Id) {
    t in actions && actions[t].InSection() && actions[t].id == id
  }

  ghost predicate SectionsAreOwned(exclusive: set<Id>, actions: map<Token, Action>) {
    forall id :: id in exclusive ==> exists t :: SectionOwner(actions, t, id)
  }

  /** A sent deploy keeps its record unless it was confirmed, expired, rejected by
      the node, removed by the user, or cleaned with its network. */
  ghost predicate SentAreRecorded(w: World) {
    forall id :: id in w.sent ==>
      id in w.stored || id in w.m.released || (id in w.verdicts && !w.verdicts[id].NeverSent?)
  }

  ghost predicate GuardOk(s: State) {
    Consistent(s.guard, Runs(s.actions)) && forall t :: t in s.actions ==> t < s.nextToken
  }

  ghost predicate WorldOk(w: World) {
    WellFormed(w.m, w.networks) && HeldAreStored(w) && IdsAreUsed(w) && SentAreRecorded(w)
  }

  ghost predicate ActionsOk(w: World, actions: map<Token, Action>) {
    forall t :: t in actions ==> ActionOk(w, actions[t])
  }

  ghost predicate Inv(s: State) {
    && GuardOk(s)
    && WorldOk(s.w)
    && FlightsDiffer(s.actions)
    && SectionsAreOwned(s.w.m.exclusive, s.actions)
    && ActionsOk(s.w, s.actions)
  }

  lemma InitHolds(s: State)
    requires Init(s)
    ensures Inv(s)
  {
    assert Runs(s.actions) == map[];
  }

  // ---- What the guard gives ----

  /** Two running actions on the same account and network are the same action. */
  lemma SameAccountSameAction(s: State, t: Token, u: Token)
    requires GuardOk(s) && t in s.actions && u in s.actions
    requires !s.actions[t].kind.Cleanup? && !s.actions[u].kind.Cleanup?
    requires s.actions[t].account == s.actions[u].account && s.actions[t].network == s.actions[u].network
    ensures t == u
  {
    var key := AccountKey(s.actions[t].network, s.actions[t].account);
    assert key in Runs(s.actions)[t].keys && key in Runs(s.actions)[u].keys;
  }

  lemma SameSectionSameAction(s: State, t: Token, u: Token)
    requires GuardOk(s) && t in s.actions && u in s.actions
    requires s.actions[t].InSection() && s.actions[u].InSection()
    requires s.actions[t].id == s.actions[u].id != ""
    ensures t == u
  {
    var key := ReservationKey(s.actions[t].id);
    assert key in Runs(s.actions)[t].keys && key in Runs(s.actions)[u].keys;
  }

  /** No action runs on a network while a cleanup of it does. */
  lemma CleanupRunsAlone(s: State, t: Token, u: Token)
    requires GuardOk(s) && t in s.actions && u in s.actions && s.actions[t].kind.Cleanup?
    requires s.actions[u].network == s.actions[t].network
    ensures t == u
  {
    var key := NetworkKey(s.actions[t].network);
    assert Runs(s.actions)[t].HasScope(key, Exclusive);
    assert Runs(s.actions)[u].HasScope(key, if s.actions[u].kind.Cleanup? then Exclusive else Shared);
  }

  lemma OwnersDiffer(s: State, t: Token, u: Token)
    requires Inv(s) && t in s.actions && u in s.actions && t != u
    ensures s.actions[t].OwnId().Some? ==> s.actions[t].OwnId() != s.actions[u].OwnId()
  {
    var a, b := s.actions[t], s.actions[u];
    assert ActionOk(s.w, a) && ActionOk(s.w, b);
    if a.InSection() && b.InSection() && a.id == b.id {
      SameSectionSameAction(s, t, u);
    }
  }

  // ---- What a running action relies on ----

  ghost predicate SameAt(w: World, w': World, id: Id) {
    && (id in w.m.items <==> id in w'.m.items) && (id in w.m.items ==> w.m.items[id] == w'.m.items[id])
    && (id in w.m.exclusive <==> id in w'.m.exclusive)
    && (id in w.m.released <==> id in w'.m.released)
    && (id in w.stored <==> id in w'.stored) && (id in w.stored ==> w.stored[id] == w'.stored[id])
    && (id in w.sent <==> id in w'.sent)
    && (id in w.verdicts <==> id in w'.verdicts) && (id in w.verdicts ==> w.verdicts[id] == w'.verdicts[id])
  }

  /** On its way out of a section an action only needs that its reservation, if
      still held, is as it was. */
  ghost predicate SameIfHeld(w: World, w': World, id: Id) {
    && (id in w'.m.items ==>
          && id in w.m.items && w'.m.items[id] == w.m.items[id]
          && (id in w.stored ==> id in w'.stored && w.stored[id] == w'.stored[id]))
    && (id in w.m.exclusive <==> id in w'.m.exclusive)
    && (id in w.m.released <==> id in w'.m.released)
  }

  ghost predicate Undisturbed(w: World, w': World, a: Action) {
    && w.used <= w'.used && w'.m.active == w.m.active
    && (a.OwnId().Some? ==>
          SameAt(w, w', a.OwnId().value) || (a.phase.Leaving? && SameIfHeld(w, w', a.OwnId().value)))
    && (a.ChecksFunds() ==>
          Reserved(w'.m.items, a.account, a.network) <= Reserved(w.m.items, a.account, a.network))
    && (a.phase.Cleaning? ==> forall id :: id in a.phase.ids ==> SameAt(w, w', id) || IsCleaned(w', id))
  }

  lemma UndisturbedStaysOk(w: World, w': World, a: Action)
    requires ActionOk(w, a) && Undisturbed(w, w', a)
    ensures ActionOk(w', a)
  {
    assert FlightOk(w', a);
    assert SectionOk(w', a);
    assert CleaningOk(w', a);
  }

  ghost predicate OthersUndisturbed(s: State, w': World, t: Token) {
    forall u :: u in s.actions && u != t ==> Undisturbed(s.w, w', s.actions[u])
  }

  /** A step that touches one reservation, owned by the stepping action or by no
      one, and frees or leaves the funds of all others, disturbs none of them. */
  lemma TouchingOneDisturbsNone(s: State, w': World, t: Token, id: Id)
    requires Inv(s) && s.w.used <= w'.used && w'.m.active == s.w.m.active
    requires forall i :: i != id ==> SameAt(s.w, w', i)
    requires forall u :: u in s.actions && u != t ==> s.actions[u].OwnId() != Some(id)
    requires forall u :: u in s.actions && u != t && s.actions[u].phase.Cleaning? ==>
               id !in s.actions[u].phase.ids || IsCleaned(w', id)
    requires forall u :: u in s.actions && u != t && s.actions[u].ChecksFunds() ==>
               Reserved(w'.m.items, s.actions[u].account, s.actions[u].network)
               <= Reserved(s.w.m.items, s.actions[u].account, s.actions[u].network)
    ensures OthersUndisturbed(s, w', t)
  {
    forall u | u in s.actions && u != t ensures Undisturbed(s.w, w', s.actions[u]) {
      assert ActionOk(s.w, s.actions[u]);
    }
  }

  /** The stepping action's own obligation and the world's; the rest follows. */
  lemma AssembleInv(s: State, t: Token, a: Action, w': World)
    requires Inv(s) && t in s.actions && OthersUndisturbed(s, w', t)
    requires a.GuardRun() == s.actions[t].GuardRun()
    requires ActionOk(w', a) && WorldOk(w')
    requires FlightsDiffer(s.actions[t := a]) && SectionsAreOwned(w'.m.exclusive, s.actions[t := a])
    ensures Inv(s.With(t, a, w'))
  {
    hide ActionOk, Undisturbed, WorldOk, FlightsDiffer, SectionsAreOwned, Consistent;
    assert Runs(s.actions[t := a]) == Runs(s.actions);
    forall u | u in s.actions && u != t ensures ActionOk(w', s.actions[u]) {
      UndisturbedStaysOk(s.w, w', s.actions[u]);
    }
  }
}

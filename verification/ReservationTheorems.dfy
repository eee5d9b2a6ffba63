/** What holds in every run of the reservation protocol. */
module ReservationTheorems {
  import opened Common
  import opened OperationGuard
  import opened ReservationsManager
  import opened ReservedFunds
  import opened ReservationOperationGuard
  import opened ReservationProtocol
  import opened ReservationInvariant
  import opened ReservationSteps

  /** A run: states and the steps between them, from an opened wallet on. */
  ghost predicate IsRun(states: seq<State>, steps: seq<Step>) {
    && |states| == |steps| + 1
    && Init(states[0])
    && forall i :: 0 <= i < |steps| ==> Enabled(states[i], steps[i]) && states[i + 1] == Next(states[i], steps[i])
  }

  lemma {:induction false} EveryReachableStateHasInv(states: seq<State>, steps: seq<Step>, i: nat)
    requires IsRun(states, steps) && i < |states|
    ensures Inv(states[i])
  {
    hide Enabled, Next, Init, Inv;
    if i == 0 {
      InitHolds(states[0]);
    } else {
      EveryReachableStateHasInv(states, steps, i - 1);
      StepKeepsInv(states[i - 1], steps[i - 1]);
    }
  }

  /** The selected network is always a configured one. */
  lemma {:induction false} SelectedIsConfigured(states: seq<State>, steps: seq<Step>, i: nat)
    requires IsRun(states, steps) && i < |states|
    ensures states[i].w.current in states[i].w.networks
  {
    hide Enabled, Next;
    if i > 0 {
      SelectedIsConfigured(states, steps, i - 1);
      StepKeepsSelected(states[i - 1], steps[i - 1]);
    }
  }

  lemma StepKeepsSelected(s: State, step: Step)
    requires Enabled(s, step) && s.w.current in s.w.networks
    ensures Next(s, step).w.current in Next(s, step).w.networks
  {
    hide Reserved, World.Duplicate, GuardState.Refuses, GuardState.Acquire, GuardState.Release;
    hide Manager.BeginExclusive, Manager.EndExclusive, Manager.Replace, Manager.Drop, Manager.RemoveByNetwork, Manager.Close, Manager.Add;
  }

  // ---- Funds ----

  /** The action whose reservation this step holds or replaces; a closed manager
      holds nothing. */
  ghost function Holder(s: State, step: Step): Option<Action>
    requires Enabled(s, step)
  {
    match step
    case ResumeWritten(t) => if s.w.m.active && !s.actions[t].kind.Submit? then Some(s.actions[t]) else None
    case ResumeAnswered(t) => if s.w.m.active then Some(s.actions[t]) else None
    case _ => None
  }

  /** After a reservation is held or replaced, everything reserved for its account
      and network fits in the balance the action read. */
  ghost predicate StaysCovered(s: State, step: Step)
    requires Enabled(s, step)
  {
    Holder(s, step).Some? ==>
      var a := Holder(s, step).value;
      Reserved(Next(s, step).w.m.items, a.account, a.network) <= a.balance
  }

  lemma HeldStaysCovered(s: State, step: Step)
    requires Inv(s) && Enabled(s, step) && Holder(s, step).Some?
    requires Holder(s, step).value.network == Holder(s, step).value.checkedOn
    ensures StaysCovered(s, step)
  {
    var a := s.actions[step.t];
    var r := a.phase.r;
    assert ActionOk(s.w, a);
    hide Inv, WorldOk, WellFormed;
    if a.kind.Update? {
      ReplacedStaysCovered(s, step.t);
    } else {
      HeldFits(s.w, a);
    }
  }

  lemma HeldFits(w: World, a: Action)
    requires ActionOk(w, a) && a.InFlight().Some? && a.ChecksFunds() && a.network == a.checkedOn && w.m.active && !a.phase.Balance?
    ensures Reserved(w.Hold(a.phase.r).m.items, a.account, a.network) <= a.balance
  {
    HoldTouchesOne(w, a.phase.r);
    ReservedWith(w.m.items, a.phase.r, a.account, a.network);
  }

  lemma ReplacedStaysCovered(s: State, t: Token)
    requires Inv(s) && t in s.actions && s.actions[t].kind.Update? && s.actions[t].phase.Written? && s.w.m.active
    requires s.actions[t].network == s.actions[t].checkedOn
    ensures Reserved(s.w.m.Replace(s.actions[t].phase.r).items, s.actions[t].account, s.actions[t].network) <= s.actions[t].balance
  {
    var a := s.actions[t];
    assert ActionOk(s.w, a);
    ReservedReplaced(s.w.m.items, a.phase.r, a.account, a.network);
  }

  /** In every run, whatever interleaves, transfers and deploys never reserve more
      than the balance they read; adds and updates neither, when the network they
      name is the one selected as they start. */
  lemma NeverOverReserved(states: seq<State>, steps: seq<Step>, i: nat)
    requires IsRun(states, steps) && i < |steps| && Holder(states[i], steps[i]).Some?
    requires Holder(states[i], steps[i]).value.kind.Submit?
             || Holder(states[i], steps[i]).value.network == Holder(states[i], steps[i]).value.checkedOn
    ensures StaysCovered(states[i], steps[i])
  {
    EveryReachableStateHasInv(states, steps, i);
    assert ActionOk(states[i].w, states[i].actions[steps[i].t]);
    HeldStaysCovered(states[i], steps[i]);
  }

  ghost predicate CheckProtects(network: NetworkId, checkedOn: NetworkId) {
    forall states, steps, i: nat ::
      IsRun(states, steps) && i < |steps| && Holder(states[i], steps[i]).Some?
      && Holder(states[i], steps[i]).value.network == network && Holder(states[i], steps[i]).value.checkedOn == checkedOn
      ==> StaysCovered(states[i], steps[i])
  }

  /** A wallet holding one reservation of 10 on `network`, while `selected` is the
      current network. */
  ghost function HoldingTen(network: NetworkId, selected: NetworkId): State {
    var r := Reservation("r", "a", network, "d", 10, 1);
    var m := Fresh.Track(r, 0, {network, selected});
    State(Idle<Owner>(), map[], 0, World(m, map["r" := r], selected, {network, selected}, 0, {"r"}, {}, map[]))
  }

  lemma HoldingTenIsInitial(network: NetworkId, selected: NetworkId)
    ensures Init(HoldingTen(network, selected))
    ensures var w := HoldingTen(network, selected).w;
            && w.m.items == map["r" := Reservation("r", "a", network, "d", 10, 1)] && w.m.active
            && w.current == selected && w.networks == {network, selected} && w.now == 0 && w.used == {"r"}
  {
    TrackKeepsWellFormed(Fresh, Reservation("r", "a", network, "d", 10, 1), 0, {network, selected});
  }

  /** The add of 10 on a network that is not selected, as it awaits the balance:
      it found nothing reserved on the selected network. */
  function ForeignAdd(network: NetworkId, selected: NetworkId): Action {
    Action(Add, network, "a", "e", "", 10, selected, 0, 10, 0, Balance)
  }

  lemma ForeignAddStarts(network: NetworkId, selected: NetworkId)
    requires network != selected
    ensures Enabled(HoldingTen(network, selected), StartAdd(network, "a", 10, "e"))
    ensures var s := Next(HoldingTen(network, selected), StartAdd(network, "a", 10, "e"));
            s.actions == map[0 := ForeignAdd(network, selected)] && s.w == HoldingTen(network, selected).w
  {
    hide Init;
    HoldingTenIsInitial(network, selected);
    ForeignReserved(HoldingTen(network, selected).w.m.items["r"], selected);
  }

  lemma ForeignAddPasses(s: State, network: NetworkId)
    requires s.actions == map[0 := ForeignAdd(network, s.w.current)] && "x" !in s.w.used
    ensures Enabled(s, BalanceRead(0, Some(10), "x"))
    ensures var x := Reservation("x", "a", network, "e", 10, s.w.now + RESERVATION_EXPIRATION_TIME);
            var s1 := Next(s, BalanceRead(0, Some(10), "x"));
            s1.actions == map[0 := ForeignAdd(network, s.w.current).(balance := 10, phase := Writing(x))]
            && s1.w == s.w.(used := s.w.used + {"x"})
  {}

  lemma ForeignAddIsWritten(s: State, a: Action)
    requires s.actions == map[0 := a] && a.kind.Add? && a.phase.Writing?
    ensures Enabled(s, RecordWritten(0, true))
    ensures var s1 := Next(s, RecordWritten(0, true));
            s1.actions == map[0 := a.(phase := Written(a.phase.r))] && s1.w.m == s.w.m && s1.w.networks == s.w.networks && s1.w.now == s.w.now
  {}

  lemma ForeignAddExceeds(s: State, x: Reservation, a: Action)
    requires s.actions == map[0 := a] && a.phase == Written(x) && a.kind.Add? && a.balance == 10
    requires x.accountId == a.account == "a" && x.networkId == a.network && x.pendingAmount == 10 && x.id == "x"
    requires s.w.m.active && x.networkId in s.w.networks && s.w.now < x.expirationTime
    requires s.w.m.items == map["r" := Reservation("r", "a", a.network, "d", 10, 1)]
    ensures Enabled(s, ResumeWritten(0)) && Holder(s, ResumeWritten(0)) == Some(a) && !StaysCovered(s, ResumeWritten(0))
  {
    ForeignHoldExceeds(s, x);
  }

  /** An add of 10 on a network that is not selected passes on a balance of 10,
      though 10 are reserved there already: 20 end up reserved. */
  lemma ForeignAddOverReserves(network: NetworkId, selected: NetworkId)
    requires network != selected
    ensures !CheckProtects(network, selected)
  {
    hide Init, Enabled, Next, HoldingTen, Holder, StaysCovered;
    var a := ForeignAdd(network, selected);
    var x := Reservation("x", "a", network, "e", 10, RESERVATION_EXPIRATION_TIME);
    var steps := [StartAdd(network, "a", 10, "e"), BalanceRead(0, Some(10), "x"), RecordWritten(0, true), ResumeWritten(0)];
    var s0 := HoldingTen(network, selected);
    HoldingTenIsInitial(network, selected);
    ForeignAddStarts(network, selected);
    var s1 := Next(s0, steps[0]);
    ForeignAddPasses(s1, network);
    var s2 := Next(s1, steps[1]);
    ForeignAddIsWritten(s2, a.(balance := 10, phase := Writing(x)));
    var s3 := Next(s2, steps[2]);
    ForeignAddExceeds(s3, x, a.(balance := 10, phase := Written(x)));
    var states := [s0, s1, s2, s3, Next(s3, steps[3])];
    assert IsRun(states, steps);
    assert Holder(states[3], steps[3]).Some?;
  }

  lemma ForeignReserved(r: Reservation, selected: NetworkId)
    requires r.networkId != selected
    ensures Reserved(map[r.id := r], r.accountId, selected) == 0
  {
    ReservedWith(map[], r, r.accountId, selected);
    assert map[][r.id := r] == map[r.id := r];
  }

  lemma ForeignHoldExceeds(s: State, x: Reservation)
    requires s.w.m.active && x.networkId in s.w.networks && s.w.now < x.expirationTime
    requires "r" in s.w.m.items && x.id !in s.w.m.items && s.w.m.items == map["r" := s.w.m.items["r"]]
    requires s.w.m.items["r"].id == "r" && s.w.m.items["r"].pendingAmount == x.pendingAmount == 10
    requires s.w.m.items["r"].accountId == x.accountId && s.w.m.items["r"].networkId == x.networkId
    ensures Reserved(s.w.Hold(x).m.items, x.accountId, x.networkId) == 20
  {
    var r := s.w.m.items["r"];
    ReservedWith(map[], r, x.accountId, x.networkId);
    assert map[][r.id := r] == s.w.m.items;
    ReservedWith(s.w.m.items, x, x.accountId, x.networkId);
  }

  /** The balance check protects reservations on `network` exactly when it is the
      network selected at the check. */
  lemma CheckProtectsIffSelected(network: NetworkId, checkedOn: NetworkId)
    ensures CheckProtects(network, checkedOn) <==> network == checkedOn
  {
    if network == checkedOn {
      forall states, steps, i: nat | IsRun(states, steps) && i < |steps| && Holder(states[i], steps[i]).Some?
        && Holder(states[i], steps[i]).value.network == network && Holder(states[i], steps[i]).value.checkedOn == checkedOn
        ensures StaysCovered(states[i], steps[i])
      {
        NeverOverReserved(states, steps, i);
      }
    } else {
      ForeignAddOverReserves(network, checkedOn);
    }
  }

  // ---- Records ----

  /** The step sends this action's deploy. */
  ghost predicate Sends(s: State, step: Step)
    requires Enabled(s, step)
  {
    step.ResumeWritten? && s.actions[step.t].kind.Submit? && s.w.m.active
  }

  lemma OnlySendingSends(s: State, step: Step)
    requires Enabled(s, step)
    ensures Next(s, step).w.sent == if Sends(s, step) then s.w.sent + {s.actions[step.t].phase.r.id} else s.w.sent
    ensures Sends(s, step) ==> Next(s, step).w.stored == s.w.stored
  {
    hide Reserved, World.Duplicate, GuardState.Refuses, GuardState.Acquire, GuardState.Release;
    hide Manager.BeginExclusive, Manager.EndExclusive, Manager.Replace, Manager.Drop, Manager.RemoveByNetwork, Manager.Close, Manager.Add;
  }

  /** A deploy is sent only while its own record is stored, and the record stays
      while the outcome is open or the reservation not yet held. */
  lemma NothingIsSentUnrecorded(states: seq<State>, steps: seq<Step>, i: nat, t: Token)
    requires IsRun(states, steps) && i < |steps| && t in states[i].actions
    requires (Sends(states[i], steps[i]) && steps[i].t == t)
             || states[i].actions[t].phase.Sent? || states[i].actions[t].phase.Accepted? || states[i].actions[t].phase.Undecided?
    ensures var r := states[i].actions[t].phase.r;
            r.id in states[i].w.stored && states[i].w.stored[r.id] == r
  {
    hide Inv, Init, ActionOk;
    EveryReachableStateHasInv(states, steps, i);
    RunningIsOk(states[i], t);
    SentIsStored(states[i].w, states[i].actions[t]);
  }

  lemma SentIsStored(w: World, a: Action)
    requires ActionOk(w, a)
    requires (a.kind.Submit? && a.phase.Written?) || a.phase.Sent? || a.phase.Accepted? || a.phase.Undecided?
    ensures a.phase.r.id in w.stored && w.stored[a.phase.r.id] == a.phase.r
  {}

  /** So whatever a run sends, its record is stored as it is sent. */
  lemma EverySendIsRecorded(states: seq<State>, steps: seq<Step>, i: nat, id: Id)
    requires IsRun(states, steps) && i < |steps| && id in states[i + 1].w.sent && id !in states[i].w.sent
    ensures Sends(states[i], steps[i]) && id in states[i].w.stored && states[i].w.stored[id] == states[i].actions[steps[i].t].phase.r
    ensures states[i + 1].w.stored == states[i].w.stored
  {
    OnlySendingSends(states[i], steps[i]);
    NothingIsSentUnrecorded(states, steps, i, steps[i].t);
  }

  /** The steps that delete records. */
  predicate Erases(step: Step) {
    step.RefusedErased? || step.RemovedErased? || step.CleanedErased? || step.ReleaseErased?
  }

  lemma OnlyErasingErases(s: State, step: Step)
    requires Enabled(s, step) && !Erases(step)
    ensures s.w.stored.Keys <= Next(s, step).w.stored.Keys
  {
    hide Reserved, World.Duplicate, GuardState.Refuses, GuardState.Acquire, GuardState.Release;
    hide Manager.BeginExclusive, Manager.EndExclusive, Manager.Replace, Manager.Drop, Manager.RemoveByNetwork, Manager.Close, Manager.Add;
  }

  /** Why a record may go: its reservation was confirmed or expired, its deploy
      never sent or rejected, the user removed it, or its network was cleaned. */
  ghost predicate HasReason(w: World, id: Id) {
    || id in w.m.released
    || (id in w.verdicts && (w.verdicts[id].NeverSent? ==> id !in w.sent))
  }

  /** What each erasing step erases, and that it changes nothing else but the
      verdict of a removal. */
  lemma WhatIsErased(s: State, step: Step, id: Id)
    requires Enabled(s, step) && Erases(step)
    requires id in s.w.stored && id !in Next(s, step).w.stored
    ensures var w := Next(s, step).w;
            w.m == s.w.m && w.sent == s.w.sent && (step.RemovedErased? || w.verdicts == s.w.verdicts)
    ensures step.ReleaseErased? ==> id in s.w.m.released
    ensures step.RemovedErased? ==> id in Next(s, step).w.verdicts && Next(s, step).w.verdicts[id].RemovedByUser?
    ensures step.RefusedErased? ==> step.t in s.actions && s.actions[step.t].phase.Releasing? && id == s.actions[step.t].phase.r.id
    ensures step.CleanedErased? ==> step.t in s.actions && s.actions[step.t].phase.Cleaning? && id in s.actions[step.t].phase.ids
  {}

  lemma ErasedWithReason(w: World, a: Action, id: Id)
    requires ActionOk(w, a)
    requires (a.phase.Releasing? && id == a.phase.r.id) || (a.phase.Cleaning? && id in a.phase.ids)
    ensures HasReason(w, id)
  {}

  lemma ErasingHasReason(s: State, step: Step, id: Id)
    requires ActionsOk(s.w, s.actions) && Enabled(s, step) && Erases(step)
    requires id in s.w.stored && id !in Next(s, step).w.stored
    ensures HasReason(Next(s, step).w, id)
  {
    WhatIsErased(s, step, id);
    hide Enabled, Next, ActionOk;
    if step.RefusedErased? || step.CleanedErased? {
      ErasedWithReason(s.w, s.actions[step.t], id);
    }
  }

  lemma LostRecordsHaveAReason(states: seq<State>, steps: seq<Step>, i: nat, id: Id)
    requires IsRun(states, steps) && i < |steps|
    requires id in states[i].w.stored && id !in states[i + 1].w.stored
    ensures HasReason(states[i + 1].w, id)
  {
    EveryReachableStateHasInv(states, steps, i);
    if Erases(steps[i]) {
      ErasingHasReason(states[i], steps[i], id);
    } else {
      OnlyErasingErases(states[i], steps[i]);
    }
  }

  ghost predicate HasOneOwner(actions: map<Token, Action>, id: Id) {
    exists t :: SectionOwner(actions, t, id) && (forall u :: SectionOwner(actions, u, id) ==> u == t)
  }

  /** In every reachable state: each held reservation outside the exclusive
      sections has its own record; a sent deploy keeps its record unless it was
      confirmed, expired, rejected, removed or cleaned; every exclusive section
      belongs to one running update or removal. */
  lemma ReachableRecordsAgree(states: seq<State>, steps: seq<Step>, i: nat)
    requires IsRun(states, steps) && i < |states|
    ensures HeldAreStored(states[i].w) && SentAreRecorded(states[i].w)
    ensures forall id :: id in states[i].w.m.exclusive ==> HasOneOwner(states[i].actions, id)
  {
    EveryReachableStateHasInv(states, steps, i);
    var s := states[i];
    forall id | id in s.w.m.exclusive ensures HasOneOwner(s.actions, id) {
      var t :| SectionOwner(s.actions, t, id);
      assert ActionOk(s.w, s.actions[t]);
      forall u | SectionOwner(s.actions, u, id) ensures u == t {
        SameSectionSameAction(s, t, u);
      }
    }
  }

  // ---- Timers and exclusion ----

  /** In every reachable state the timers are right (HeldReservationsAreCovered),
      and a closed manager has none and stays empty. */
  lemma ReachableTimersAreRight(states: seq<State>, steps: seq<Step>, i: nat)
    requires IsRun(states, steps) && i < |states|
    ensures var m := states[i].w.m;
            && WellFormed(m, states[i].w.networks)
            && (forall id :: id in m.items && id !in m.exclusive && m.items[id].networkId in states[i].w.networks ==>
                  exists h :: h in m.armed && m.armed[h] == Alarm(id, m.items[id].expirationTime)
                              && (forall g :: g in m.armed && m.armed[g].id == id ==> g == h))
            && (forall h :: h in m.armed ==> m.armed[h].id in m.items.Keys - m.exclusive)
            && (!m.active ==> m.items == map[] && m.armed == map[] && m.live == map[])
  {
    EveryReachableStateHasInv(states, steps, i);
    HeldReservationsAreCovered(states[i].w.m, states[i].w.networks);
  }

  lemma {:induction false} ClosedStaysClosed(states: seq<State>, steps: seq<Step>, i: nat, j: nat)
    requires IsRun(states, steps) && i <= j < |states| && !states[i].w.m.active
    ensures !states[j].w.m.active
  {
    hide Init, Enabled, Next;
    if i < j {
      ClosedStaysClosed(states, steps, i, j - 1);
      NoStepReopens(states[j - 1], steps[j - 1]);
    }
  }

  /** A closed manager stays empty, and nothing it left behind can still fire. */
  lemma ClosedStaysEmpty(states: seq<State>, steps: seq<Step>, i: nat, j: nat)
    requires IsRun(states, steps) && i <= j < |states| && !states[i].w.m.active
    ensures var m := states[j].w.m; !m.active && m.items == map[] && m.armed == map[] && m.live == map[]
  {
    ClosedStaysClosed(states, steps, i, j);
    ReachableTimersAreRight(states, steps, j);
  }

  /** The steps that change the manager. */
  predicate TouchesManager(step: Step) {
    step.StartUpdate? || step.StartRemove? || step.ResumeWritten? || step.ResumeAnswered? || step.ResumeDeleted?
    || step.LeaveSection? || step.ResumeConfigured? || step.Confirmed? || step.WatchFailed? || step.TimerFired? || step.Close?
  }

  lemma OtherStepsKeepManager(s: State, step: Step)
    requires Enabled(s, step) && !TouchesManager(step)
    ensures Next(s, step).w.m == s.w.m
  {}

  lemma NoStepReopens(s: State, step: Step)
    requires Enabled(s, step) && !s.w.m.active
    ensures !Next(s, step).w.m.active
  {
    if !TouchesManager(step) { OtherStepsKeepManager(s, step); }
    else if step.StartUpdate? || step.StartRemove? || step.LeaveSection? || step.ResumeConfigured? { NoSectionStepReopens(s, step); }
  }

  lemma NoSectionStepReopens(s: State, step: Step)
    requires Enabled(s, step) && !s.w.m.active
    requires step.StartUpdate? || step.StartRemove? || step.LeaveSection? || step.ResumeConfigured?
    ensures !Next(s, step).w.m.active
  {}

  /** No two running actions share an account and network, a deploy and network, or
      a reservation; and a network cleanup runs alone on its network. */
  lemma ReachableActionsExclude(states: seq<State>, steps: seq<Step>, i: nat, t: Token, u: Token)
    requires IsRun(states, steps) && i < |states|
    requires t in states[i].actions && u in states[i].actions && t != u
    ensures var a, b := states[i].actions[t], states[i].actions[u];
            && (a.network == b.network ==> !a.kind.Cleanup? && !b.kind.Cleanup? && a.account != b.account)
            && (a.network == b.network && a.deployId != "" ==> a.deployId != b.deployId)
            && (!a.kind.Cleanup? && !b.kind.Cleanup? && a.id != "" ==> a.id != b.id)
  {
    var s := states[i];
    EveryReachableStateHasInv(states, steps, i);
    var a, b := s.actions[t], s.actions[u];
    hide Inv, ActionOk, WorldOk, Consistent;
    if a.network == b.network {
      if a.kind.Cleanup? { CleanupRunsAlone(s, t, u); }
      if b.kind.Cleanup? { CleanupRunsAlone(s, u, t); }
      if a.account == b.account { SameAccountSameAction(s, t, u); }
    }
    if !a.kind.Cleanup? && !b.kind.Cleanup? {
      KeysExclude(s, t, u, DeployKey(a.network, a.deployId));
      KeysExclude(s, t, u, ReservationKey(a.id));
    }
  }

  lemma KeysExclude(s: State, t: Token, u: Token, key: string)
    requires GuardOk(s) && t in s.actions && u in s.actions && t != u
    ensures key in s.actions[t].GuardRun().keys ==> key !in s.actions[u].GuardRun().keys
  {
    assert key in Runs(s.actions)[t].keys && key in Runs(s.actions)[u].keys ==> t == u;
  }
}

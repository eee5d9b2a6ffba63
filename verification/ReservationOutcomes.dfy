/** What becomes of a reservation, over whole runs: that it is held when it should be,
    watched while it is, and gone for good once it goes. */
module ReservationOutcomes {
  import opened Common
  import opened OperationGuard
  import opened ReservationsManager
  import opened ReservedFunds
  import opened ReservationOperationGuard
  import opened ReservationProtocol
  import opened ReservationInvariant
  import opened ReservationSteps
  import opened ReservationTheorems
  import opened ReservationAdmission

  // ---- What a continuation holds ----

  /** The manager after a reservation is held: with it, unless it has expired on a
      network whose client can be created, and then it is released. */
  ghost predicate NowHolds(m: Manager, r: Reservation, now: int, known: set<NetworkId>, m': Manager) {
    if !m.active then m' == m
    else
      && m'.active && m'.exclusive == m.exclusive
      && if now < r.expirationTime || r.networkId !in known
         then m'.items == m.items[r.id := r] && m'.released == m.released
         else m'.items == m.items && m'.released == m.released + {r.id}
  }

  /** The step's action continues to hold its reservation: an add after its write, a
      submission once it is accepted or its outcome is unknown. */
  ghost predicate ContinuesToHold(s: State, step: Step) {
    match step
    case ResumeWritten(t) => t in s.actions && s.actions[t].phase.Written? && s.actions[t].kind.Add?
    case ResumeAnswered(t) => t in s.actions && (s.actions[t].phase.Accepted? || s.actions[t].phase.Undecided?)
    case _ => false
  }

  /** Such a step holds exactly the action's reservation, and nothing else changes. */
  lemma ContinuationHolds(s: State, step: Step)
    requires Inv(s) && ContinuesToHold(s, step)
    ensures Enabled(s, step)
    ensures var r, s' := s.actions[step.t].phase.r, Next(s, step);
            && NowHolds(s.w.m, r, s.w.now, s.w.networks, s'.w.m) && s'.w == s.w.(m := s'.w.m)
            && s'.actions == s.actions[step.t := s.actions[step.t].(phase := Ending)]
  {
    hide Inv;
    RunningIsOk(s, step.t);
    FlightIsNotHeld(s.w, s.actions[step.t]);
    TrackHolds(s.w.m, s.actions[step.t].phase.r, s.w.now, s.w.networks);
    hide ActionOk, Manager.Track;
  }

  lemma FlightIsNotHeld(w: World, a: Action)
    requires ActionOk(w, a)
    requires (a.kind.Add? && a.phase.Written?) || a.phase.Sent? || a.phase.Accepted? || a.phase.Undecided? || a.phase.Releasing?
    ensures a.phase.r.id !in w.m.items && a.InFlight() == Some(a.phase.r)
    ensures a.phase.r.id !in w.m.released && (a.phase.Releasing? <==> a.phase.r.id in w.verdicts)
  {}

  /** An update's continuation replaces the reservation it holds, if it still does. */
  lemma UpdateReplaces(s: State, t: Token)
    requires Inv(s) && t in s.actions && s.actions[t].phase.Written? && s.actions[t].kind.Update?
    ensures var r, s' := s.actions[t].phase.r, Next(s, ResumeWritten(t));
            && r.id == s.actions[t].id
            && s'.w.m == (if r.id in s.w.m.items then s.w.m.(items := s.w.m.items[r.id := r]) else s.w.m)
            && s'.w == s.w.(m := s'.w.m)
  {
    hide Inv;
    RunningIsOk(s, t);
  }

  // ---- Held until there is a reason ----

  /** The step replaces the reservation `id`. */
  ghost predicate Replaces(s: State, step: Step, id: Id) {
    step.ResumeWritten? && step.t in s.actions && s.actions[step.t].kind.Update? && s.actions[step.t].phase.Written?
    && s.actions[step.t].phase.r.id == id
  }

  /** The reservation is held, or it was confirmed, has expired, was removed, cleaned
      or refused. */
  ghost predicate HeldOrGone(w: World, id: Id) {
    id in w.m.items || id in w.m.released || id in w.verdicts
  }

  /** The steps that may change what is held. */
  predicate ChangesHeld(step: Step) {
    || step.ResumeWritten? || step.ResumeAnswered? || step.ResumeDeleted? || step.LeaveSection? || step.ResumeConfigured?
    || step.Confirmed? || step.TimerFired? || step.Close?
  }

  lemma OthersKeepHeld(s: State, step: Step)
    requires Enabled(s, step) && !ChangesHeld(step)
    ensures var m' := Next(s, step).w.m;
            && m'.items == s.w.m.items && m'.released == s.w.m.released && s.w.verdicts.Keys <= Next(s, step).w.verdicts.Keys
  {
    hide Reserved, World.Duplicate, GuardState.Refuses, GuardState.Acquire, GuardState.Release;
    hide Manager.BeginExclusive, Manager.EndExclusive, Manager.Failed, Manager.Add, Manager.Replace, Manager.Drop;
    hide Manager.RemoveByNetwork, Manager.Close, Manager.Confirmed, Manager.Expired;
    if step.StartUpdate? || step.StartRemove? { SectionKeepsItems(s.w.m, step.id); }
    if step.WatchFailed? { FailingKeepsItems(s.w.m, step.h); }
  }

  lemma FailingKeepsItems(m: Manager, h: Handle)
    requires h in m.live
    ensures m.Failed(h).items == m.items && m.Failed(h).released == m.released
  {}

  /** What a step does to what is held: nothing, or to one reservation, or to those of
      one network. */
  ghost predicate KeepsHeld(w: World, w': World, id: Id, replaced: bool) {
    && HeldOrGone(w', id) && (id !in w.m.items ==> id !in w'.m.items)
    && (id in w.m.released ==> id in w'.m.released) && (id in w.verdicts ==> id in w'.verdicts)
    && (id in w.m.items && id in w'.m.items && !replaced ==> w'.m.items[id] == w.m.items[id])
  }

  lemma WrittenKeepsHeld(s: State, t: Token, id: Id)
    requires Inv(s) && Enabled(s, ResumeWritten(t)) && HeldOrGone(s.w, id)
    ensures KeepsHeld(s.w, Next(s, ResumeWritten(t)).w, id, Replaces(s, ResumeWritten(t), id))
  {
    hide Inv, Manager.Add, Manager.Replace;
    RunningIsOk(s, t);
    KindOfWritten(s.w, s.actions[t]);
    match s.actions[t].kind
    case Add =>
      FlightIsNotHeld(s.w, s.actions[t]);
      ContinuationHolds(s, ResumeWritten(t));
    case Update => UpdateReplaces(s, t);
    case _ =>
  }

  lemma KindOfWritten(w: World, a: Action)
    requires ActionOk(w, a) && a.phase.Written?
    ensures a.kind.Add? || a.kind.Update? || a.kind.Submit?
  {}

  lemma AnsweredKeepsHeld(s: State, t: Token, id: Id)
    requires Inv(s) && Enabled(s, ResumeAnswered(t)) && HeldOrGone(s.w, id)
    ensures KeepsHeld(s.w, Next(s, ResumeAnswered(t)).w, id, false)
  {
    hide Inv, Manager.Add;
    RunningIsOk(s, t);
    FlightIsNotHeld(s.w, s.actions[t]);
    ContinuationHolds(s, ResumeAnswered(t));
  }

  lemma DeletedKeepsHeld(s: State, t: Token, id: Id)
    requires Inv(s) && Enabled(s, ResumeDeleted(t)) && HeldOrGone(s.w, id)
    ensures KeepsHeld(s.w, Next(s, ResumeDeleted(t)).w, id, false)
  {
    hide Inv;
    RunningIsOk(s, t);
  }

  lemma LeavingKeepsHeld(s: State, t: Token, id: Id)
    requires Inv(s) && Enabled(s, LeaveSection(t)) && HeldOrGone(s.w, id)
    ensures KeepsHeld(s.w, Next(s, LeaveSection(t)).w, id, false)
  {
    hide Inv, WellFormed, Manager.EndExclusive;
    InvIsWellFormed(s);
    if s.actions[t].id in s.w.m.items {
      EndExclusiveReleasesExpired(s.w.m, s.actions[t].id, s.w.now, s.w.networks);
    } else {
      assert s.w.m.EndExclusive(s.actions[t].id, s.w.now, s.w.networks).items == s.w.m.items
             && s.w.m.EndExclusive(s.actions[t].id, s.w.now, s.w.networks).released == s.w.m.released by {
        LeavingNothing(s.w.m, s.actions[t].id, s.w.now, s.w.networks);
      }
    }
  }

  lemma LeavingNothing(m: Manager, id: Id, now: int, known: set<NetworkId>)
    requires id !in m.items
    ensures m.EndExclusive(id, now, known) == m.(exclusive := m.exclusive - {id})
  {}

  lemma CleanupKeepsHeld(s: State, t: Token, id: Id)
    requires Enabled(s, ResumeConfigured(t)) && HeldOrGone(s.w, id)
    ensures KeepsHeld(s.w, Next(s, ResumeConfigured(t)).w, id, false)
  {}

  lemma RuntimeKeepsHeld(s: State, step: Step, id: Id)
    requires Inv(s) && Enabled(s, step) && (step.Confirmed? || step.TimerFired?) && HeldOrGone(s.w, id)
    ensures KeepsHeld(s.w, Next(s, step).w, id, false)
  {
    hide Inv, WellFormed, Manager.ReleaseHeld, Manager.Confirmed, Manager.Expired;
    InvIsWellFormed(s);
    if step.Confirmed? {
      ConfirmedKeepsWellFormed(s.w.m, step.h, s.w.networks);
      ReleasedFacts(s.w.m, s.w.m.live[step.h]);
    } else {
      ExpiredKeepsWellFormed(s.w.m, step.h, s.w.networks);
      ReleasedFacts(s.w.m, s.w.m.armed[step.h].id);
    }
  }

  /** Nothing but such a reason takes a held reservation from an active manager, and
      nothing but an update changes it. */
  lemma StepKeepsHeld(s: State, step: Step, id: Id)
    requires Inv(s) && Enabled(s, step) && HeldOrGone(s.w, id) && (step.Close? ==> !s.w.m.active)
    ensures KeepsHeld(s.w, Next(s, step).w, id, Replaces(s, step, id))
  {
    hide Inv, Enabled, Next, Replaces, HeldOrGone;
    match step
    case Close => ClosedKeepsHeld(s, id);
    case ResumeWritten(t) => WrittenKeepsHeld(s, t, id);
    case ResumeAnswered(t) => AnsweredKeepsHeld(s, t, id);
    case ResumeDeleted(t) => DeletedKeepsHeld(s, t, id);
    case LeaveSection(t) => LeavingKeepsHeld(s, t, id);
    case ResumeConfigured(t) => CleanupKeepsHeld(s, t, id);
    case Confirmed(_) => RuntimeKeepsHeld(s, step, id);
    case TimerFired(_) => RuntimeKeepsHeld(s, step, id);
    case _ => OtherStepKeepsHeld(s, step, id);
  }

  lemma OtherStepKeepsHeld(s: State, step: Step, id: Id)
    requires Enabled(s, step) && !ChangesHeld(step) && HeldOrGone(s.w, id)
    ensures KeepsHeld(s.w, Next(s, step).w, id, Replaces(s, step, id))
  {
    OthersKeepHeld(s, step);
    hide Next, Enabled, Replaces;
  }

  lemma ClosedKeepsHeld(s: State, id: Id)
    requires !s.w.m.active && HeldOrGone(s.w, id)
    ensures KeepsHeld(s.w, Next(s, Close).w, id, Replaces(s, Close, id))
  {}

  // ---- A sent deploy stays accounted for ----

  /** Action `t` carries this reservation, sent and not yet held. */
  ghost predicate Carrying(s: State, t: Token, r: Reservation) {
    && t in s.actions && s.actions[t].kind.Submit?
    && (s.actions[t].phase.Sent? || s.actions[t].phase.Accepted? || s.actions[t].phase.Undecided?) && s.actions[t].phase.r == r
  }

  /** Some update replaced the reservation from state `i` to state `j`. */
  ghost predicate Replaced(states: seq<State>, steps: seq<Step>, i: nat, j: nat, id: Id)
    requires |states| == |steps| + 1 && i <= j < |states|
  {
    exists k :: i <= k < j && Replaces(states[k], steps[k], id)
  }

  lemma SendingCarries(s: State, step: Step)
    requires Enabled(s, step) && Sends(s, step)
    ensures Carrying(Next(s, step), step.t, s.actions[step.t].phase.r)
  {}

  /** A step leaves every action alone that it does not belong to. */
  lemma OthersAreLeftAlone(s: State, step: Step, t: Token)
    requires Enabled(s, step) && t in s.actions && t < s.nextToken && !TakenBy(s, step, t)
    ensures t in Next(s, step).actions && Next(s, step).actions[t] == s.actions[t]
  {
    hide Reserved, World.Duplicate, World.Hold, GuardState.Refuses, GuardState.Acquire, GuardState.Release;
    hide Manager.BeginExclusive, Manager.EndExclusive, Manager.Replace, Manager.Drop, Manager.RemoveByNetwork, Manager.Close;
  }

  lemma RunningIsOld(s: State, t: Token)
    requires Inv(s) && t in s.actions
    ensures t < s.nextToken
  {
    InvKeepsGuard(s);
    hide Inv;
  }

  /** What is carried is carried on, held, released, or refused by the node. */
  lemma StepCarriesOn(s: State, step: Step, t: Token, r: Reservation)
    requires Inv(s) && Enabled(s, step) && Carrying(s, t, r) && s.w.m.active
    ensures var s' := Next(s, step);
            || Carrying(s', t, r)
            || (r.id in s'.w.m.items && s'.w.m.items[r.id] == r)
            || r.id in s'.w.m.released || r.id in s'.w.verdicts
    ensures Carrying(Next(s, step), t, r) || !Replaces(s, step, r.id)
  {
    hide Inv, Next;
    RunningIsOld(s, t);
    if TakenBy(s, step, t) {
      CarrierMoves(s, step, t, r);
    } else {
      OthersAreLeftAlone(s, step, t);
    }
  }

  lemma CarrierMoves(s: State, step: Step, t: Token, r: Reservation)
    requires Inv(s) && Enabled(s, step) && Carrying(s, t, r) && s.w.m.active && TakenBy(s, step, t)
    ensures var s' := Next(s, step);
            || Carrying(s', t, r)
            || (r.id in s'.w.m.items && s'.w.m.items[r.id] == r)
            || r.id in s'.w.m.released || r.id in s'.w.verdicts
    ensures !Replaces(s, step, r.id)
  {
    hide Inv;
    CarrierSteps(s, step, t, r);
    if step.ResumeAnswered? { ContinuationHolds(s, step); }
  }

  lemma CarrierSteps(s: State, step: Step, t: Token, r: Reservation)
    requires Enabled(s, step) && Carrying(s, t, r) && TakenBy(s, step, t)
    ensures step == ResumeAnswered(t) || (step.NodeAnswered? && step.t == t)
  {
    hide Next;
  }

  /** Where the reservation of a sent deploy may be. */
  ghost predicate AccountedFor(s: State, t: Token, r: Reservation, replaced: bool) {
    || Carrying(s, t, r)
    || (r.id in s.w.m.items && (s.w.m.items[r.id] == r || replaced))
    || r.id in s.w.m.released || r.id in s.w.verdicts
  }

  lemma {:induction false} ActiveBefore(states: seq<State>, steps: seq<Step>, i: nat, j: nat)
    requires IsRun(states, steps) && i <= j < |states| && states[j].w.m.active
    ensures states[i].w.m.active
  {
    hide Enabled, Next, Init;
    if i < j {
      if !states[j - 1].w.m.active { NoStepReopens(states[j - 1], steps[j - 1]); }
      ActiveBefore(states, steps, i, j - 1);
    }
  }

  lemma AccountedStays(s: State, step: Step, t: Token, r: Reservation, replaced: bool)
    requires Inv(s) && Enabled(s, step) && AccountedFor(s, t, r, replaced) && s.w.m.active && Next(s, step).w.m.active
    ensures AccountedFor(Next(s, step), t, r, replaced || Replaces(s, step, r.id))
  {
    hide Enabled, Next, Inv, Replaces, Carrying;
    if Carrying(s, t, r) {
      StepCarriesOn(s, step, t, r);
    } else {
      if step.Close? { ClosingEnds(s); }
      StepKeepsHeld(s, step, r.id);
    }
  }

  lemma ReplacedGrows(states: seq<State>, steps: seq<Step>, i: nat, j: nat, id: Id)
    requires |states| == |steps| + 1 && i < j < |states|
    ensures Replaced(states, steps, i, j, id) <==> Replaced(states, steps, i, j - 1, id) || Replaces(states[j - 1], steps[j - 1], id)
  {}

  lemma SentIsCarried(states: seq<State>, steps: seq<Step>, i: nat, t: Token, r: Reservation)
    requires IsRun(states, steps) && i < |steps|
    requires Sends(states[i], steps[i]) && steps[i].t == t && states[i].actions[t].phase.r == r
    ensures Carrying(states[i + 1], t, r)
  {
    SendingCarries(states[i], steps[i]);
  }

  /** In every run, once a deploy is sent and while the manager is active, the action
      carries its reservation, or it is held, as it was sent unless an update replaced
      it, or it was confirmed, has expired, was removed, cleaned or refused. */
  lemma {:induction false} SentIsAccountedFor(states: seq<State>, steps: seq<Step>, i: nat, j: nat, t: Token, r: Reservation)
    requires IsRun(states, steps) && i < j < |states| && states[j].w.m.active
    requires Sends(states[i], steps[i]) && steps[i].t == t && states[i].actions[t].phase.r == r
    ensures AccountedFor(states[j], t, r, Replaced(states, steps, i, j, r.id))
  {
    hide Enabled, Next, Init, Inv, Replaced, Sends, Carrying;
    if j == i + 1 {
      SentIsCarried(states, steps, i, t, r);
    } else {
      ActiveBefore(states, steps, j - 1, j);
      SentIsAccountedFor(states, steps, i, j - 1, t, r);
      EveryReachableStateHasInv(states, steps, j - 1);
      ReplacedGrows(states, steps, i, j, r.id);
      hide AccountedFor;
      AccountedStays(states[j - 1], steps[j - 1], t, r, Replaced(states, steps, i, j - 1, r.id));
    }
  }

  lemma ClosingEnds(s: State)
    ensures !Next(s, Close).w.m.active
  {}

  /** The same for what an add holds, or any other held reservation. */
  lemma {:induction false} HeldUntilAReason(states: seq<State>, steps: seq<Step>, i: nat, j: nat, id: Id)
    requires IsRun(states, steps) && i <= j < |states| && id in states[i].w.m.items && states[j].w.m.active
    ensures HeldOrGone(states[j].w, id)
    ensures id in states[j].w.m.items && !Replaced(states, steps, i, j, id) ==> states[j].w.m.items[id] == states[i].w.m.items[id]
  {
    hide Enabled, Next, Init, Inv, Replaces;
    if i < j {
      var s, step := states[j - 1], steps[j - 1];
      ActiveBefore(states, steps, j - 1, j);
      HeldUntilAReason(states, steps, i, j - 1, id);
      EveryReachableStateHasInv(states, steps, j - 1);
      assert step.Close? ==> !s.w.m.active by { if step.Close? { ClosingEnds(s); } }
      StepKeepsHeld(s, step, id);
      assert Replaced(states, steps, i, j - 1, id) || Replaces(s, step, id) ==> Replaced(states, steps, i, j, id);
    }
  }

  // ---- Erased for good ----

  /** The records this step deletes. */
  ghost function Erases(s: State, step: Step): set<Id>
    requires Enabled(s, step)
  {
    match step
    case RefusedErased(t, ok) => if ok then {s.actions[t].phase.r.id} else {}
    case RemovedErased(t, ok) => if ok then {s.actions[t].id} else {}
    case CleanedErased(t, ok) => if ok then s.actions[t].phase.ids else {}
    case ReleaseErased(id) => {id}
    case _ => {}
  }

  /** No record of this reservation is stored, and none is being written. */
  ghost predicate IsGone(s: State, id: Id) {
    && id in s.w.used && id !in s.w.stored
    && forall t :: t in s.actions && s.actions[t].phase.Writing? && !s.actions[t].kind.Update? ==> s.actions[t].phase.r.id != id
  }

  lemma OthersDoNotWrite(s: State, t: Token, id: Id)
    requires Inv(s) && t in s.actions && s.actions[t].phase.Writing? && !s.actions[t].kind.Update?
    requires id in s.w.m.released || id in s.w.verdicts || id in s.w.m.exclusive
    ensures s.actions[t].phase.r.id != id
  {
    hide Inv;
    RunningIsOk(s, t);
  }

  lemma ErasingIsDone(s: State, step: Step, id: Id)
    requires Inv(s) && Enabled(s, step) && id in Erases(s, step)
    ensures IsGone(Next(s, step), id)
  {
    InvHoldsWorld(s);
    EraserKnows(s, step, id);
    hide Inv;
    forall t | t in s.actions && s.actions[t].phase.Writing? && !s.actions[t].kind.Update? ensures s.actions[t].phase.r.id != id {
      OthersDoNotWrite(s, t, id);
    }
  }

  lemma EraserKnows(s: State, step: Step, id: Id)
    requires Inv(s) && Enabled(s, step) && id in Erases(s, step)
    ensures id in s.w.used && (id in s.w.m.released || id in s.w.verdicts || id in s.w.m.exclusive)
  {
    hide Inv;
    InvHoldsWorld(s);
    if !step.ReleaseErased? { RunningIsOk(s, step.t); }
  }

  lemma GoneStays(s: State, step: Step, id: Id)
    requires Enabled(s, step) && IsGone(s, id)
    ensures IsGone(Next(s, step), id)
  {
    hide Reserved, World.Duplicate, GuardState.Refuses, GuardState.Acquire, GuardState.Release;
    hide Manager.BeginExclusive, Manager.EndExclusive, Manager.Replace, Manager.Drop, Manager.RemoveByNetwork, Manager.Close;
    hide Manager.Add, Manager.Confirmed, Manager.Failed, Manager.Expired;
  }

  lemma {:induction false} GoneForGood(states: seq<State>, steps: seq<Step>, i: nat, j: nat, id: Id)
    requires IsRun(states, steps) && i <= j < |states| && IsGone(states[i], id)
    ensures IsGone(states[j], id)
  {
    hide Enabled, Next, Init, IsGone;
    if i < j {
      GoneForGood(states, steps, i, j - 1, id);
      GoneStays(states[j - 1], steps[j - 1], id);
    }
  }

  /** In every run a record that is deleted, because its reservation was refused,
      removed, cleaned, confirmed or expired, is gone from then on. */
  lemma ErasedStaysGone(states: seq<State>, steps: seq<Step>, i: nat, j: nat, id: Id)
    requires IsRun(states, steps) && i < j < |states| && id in Erases(states[i], steps[i])
    ensures id !in states[j].w.stored
  {
    EveryReachableStateHasInv(states, steps, i);
    ErasingIsDone(states[i], steps[i], id);
    hide Inv, Init, Enabled, Next;
    GoneForGood(states, steps, i + 1, j, id);
  }

  // ---- Asking ----

  ghost predicate IsRefused(s: State, run: Run<Owner>) {
    exists t :: t in s.actions && Conflict(s.actions[t].GuardRun(), run)
  }

  /** A held reservation, other than `but`, has this deploy on this network. */
  ghost predicate IsTaken(s: State, deployId: string, network: NetworkId, but: Id) {
    exists id :: id in s.w.m.items && id != but && s.w.m.items[id].deployId == deployId && s.w.m.items[id].networkId == network
  }

  lemma RefusedIff(s: State, run: Run<Owner>)
    requires Inv(s)
    ensures s.guard.Refuses(run) <==> IsRefused(s, run)
  {
    InvKeepsGuard(s);
    hide Inv, Conflict, Action.GuardRun, GuardState.Refuses, Consistent;
    RefusesExactlyConflicts(s.guard, Runs(s.actions), run);
    if t :| t in s.actions && Conflict(s.actions[t].GuardRun(), run) { assert Conflict(Runs(s.actions)[t], run); }
    if t :| t in Runs(s.actions) && Conflict(Runs(s.actions)[t], run) { assert Conflict(s.actions[t].GuardRun(), run); }
  }

  /** An add enters unless a running action is in its way, and then awaits its balance
      unless a held reservation has its deploy on its network. */
  lemma AddAwaitsItsBalance(s: State, network: NetworkId, account: AccountId, amount: nat, deployId: string)
    requires Inv(s)
    ensures var s' := Next(s, StartAdd(network, account, amount, deployId));
            if IsRefused(s, ActionRun(Add, network, account, deployId, "")) then s' == s
            else
              && s'.actions.Keys == s.actions.Keys + {s.nextToken} && s'.w == s.w
              && var a := s'.actions[s.nextToken];
                 (a.network == network && a.account == account && a.deployId == deployId && a.amount == amount && a.kind.Add?)
                 && (if IsTaken(s, deployId, network, "") then a.phase.Ending? else a.phase.Balance?)
  {
    RefusedIff(s, ActionRun(Add, network, account, deployId, ""));
  }

  /** A submission enters unless a running action is in its way, and awaits its balance;
      a cleanup enters likewise, and awaits its network's write. */
  lemma SubmissionAwaitsItsBalance(s: State, account: AccountId, amount: nat)
    requires Inv(s)
    ensures var s' := Next(s, StartSubmit(account, amount));
            if IsRefused(s, ActionRun(Submit, s.w.current, account, "", "")) then s' == s
            else
              && s'.actions.Keys == s.actions.Keys + {s.nextToken} && s'.w == s.w
              && var a := s'.actions[s.nextToken];
                 a.kind.Submit? && a.network == s.w.current && a.account == account && a.amount == amount && a.phase.Balance?
  {
    RefusedIff(s, ActionRun(Submit, s.w.current, account, "", ""));
    hide Inv;
  }

  lemma CleanupAwaitsItsNetwork(s: State, network: NetworkId)
    requires Inv(s)
    ensures var s' := Next(s, StartCleanup(network));
            if IsRefused(s, NetworkRun(network)) then s' == s
            else
              && s'.actions.Keys == s.actions.Keys + {s.nextToken} && s'.w == s.w
              && var a := s'.actions[s.nextToken];
                 a.kind.Cleanup? && a.network == network && a.phase.Configuring?
  {
    RefusedIff(s, NetworkRun(network));
    hide Inv;
  }

  /** An update enters unless a running action is in its way. It awaits its balance
      exactly if it names a held reservation, with its account and network, and no other
      held one has its deploy; it then has its section, and adds the difference. */
  lemma UpdateAwaitsItsBalance(s: State, id: Id, network: NetworkId, account: AccountId, amount: nat, deployId: string)
    requires Inv(s) && id != ""
    ensures var s' := Next(s, StartUpdate(id, network, account, amount, deployId));
            if IsRefused(s, ActionRun(Update, network, account, deployId, id)) then s' == s
            else
              && s'.actions.Keys == s.actions.Keys + {s.nextToken} && s'.w.m.items == s.w.m.items
              && s'.w.m.exclusive == (if id in s.w.m.items then s.w.m.exclusive + {id} else s.w.m.exclusive)
              && var a := s'.actions[s.nextToken];
                 && (a.phase.Balance? <==> id in s.w.m.items && s.w.m.items[id].accountId == account
                                           && s.w.m.items[id].networkId == network && !IsTaken(s, deployId, network, id))
                 && (a.phase.Balance? ==> a.delta == amount - s.w.m.items[id].pendingAmount)
  {
    hide Inv, Manager.BeginExclusive, GuardState.Refuses, GuardState.Acquire, Reserved, IsRefused;
    RefusedIff(s, ActionRun(Update, network, account, deployId, id));
    SectionKeepsItems(s.w.m, id);
  }

  /** A removal of a held reservation enters unless a running action is in its way. */
  lemma RemovalAwaitsItsRecord(s: State, id: Id)
    requires Inv(s) && id != ""
    ensures var s' := Next(s, StartRemove(id));
            if id !in s.w.m.items || IsRefused(s, ActionRun(Remove, s.w.m.items[id].networkId, s.w.m.items[id].accountId, "", id)) then s' == s
            else
              && s'.actions.Keys == s.actions.Keys + {s.nextToken} && s'.w.m.items == s.w.m.items
              && s'.w.m.exclusive == s.w.m.exclusive + {id}
              && s'.actions[s.nextToken].phase.Deleting? && s'.actions[s.nextToken].id == id
  {
    hide Inv, Manager.BeginExclusive, GuardState.Refuses, GuardState.Acquire, Reserved, IsRefused;
    if id in s.w.m.items { RefusedIff(s, ActionRun(Remove, s.w.m.items[id].networkId, s.w.m.items[id].accountId, "", id)); }
    SectionKeepsItems(s.w.m, id);
  }

  // ---- Failing ----

  /** The step reports a failure of what its action awaited. */
  ghost predicate Fails(step: Step) {
    match step
    case SignatureRead(_, signature, _) => signature.None?
    case RecordWritten(_, ok) => !ok
    case RefusedErased(_, ok) => !ok
    case RemovedErased(_, ok) => !ok
    case NetworkWritten(_, changed, removed, _) => !changed && !removed
    case CleanedErased(_, ok) => !ok
    case _ => false
  }

  /** A failure changes nothing, and its action is on its way out. */
  lemma FailureChangesNothing(s: State, step: Step)
    requires Inv(s) && Enabled(s, step) && Fails(step)
    ensures Next(s, step).w == s.w && Leaves(Next(s, step), step.t)
  {
    RunningIsOld(s, step.t);
    hide Inv;
  }

  /** A submission signed before the wallet closed, and not sent by then, is not sent:
      its record is to be deleted. */
  lemma UnsentIsReleased(s: State, t: Token)
    requires Enabled(s, ResumeWritten(t)) && s.actions[t].kind.Submit? && !s.w.m.active
    ensures var s' := Next(s, ResumeWritten(t));
            && s'.w.sent == s.w.sent && s'.w.m == s.w.m && s'.actions[t].phase == Releasing(s.actions[t].phase.r)
  {}

  /** A removed network is no longer configured, and another one is selected in its
      place if it was. */
  lemma RemovedNetworkIsGone(s: State, t: Token, changed: bool, fallback: NetworkId)
    requires Enabled(s, NetworkWritten(t, changed, true, fallback))
    ensures var n, w' := s.actions[t].network, Next(s, NetworkWritten(t, changed, true, fallback)).w;
            && w' == s.w.(networks := s.w.networks - {n}, current := w'.current)
            && w'.current == (if s.w.current == n then fallback else s.w.current) && (s.w.current == n ==> w'.current != n)
  {}

  /** A confirmation, and a timer that fires, release exactly their own reservation,
      with its watch and its timer; a failed watch ends alone. */
  lemma RuntimeReleases(s: State, step: Step)
    requires Inv(s) && Enabled(s, step) && (step.Confirmed? || step.TimerFired? || step.WatchFailed?)
    ensures var m, m' := s.w.m, Next(s, step).w.m;
            var id := if step.TimerFired? then m.armed[step.h].id else m.live[step.h];
            && Next(s, step) == s.(w := s.w.(m := m'))
            && m'.watchers.Keys == m.watchers.Keys - {id} && m'.exclusive == m.exclusive && m'.active == m.active
            && if step.WatchFailed? then m'.items == m.items && m'.released == m.released && m'.timers == m.timers
               else m'.items == m.items - {id} && m'.released == m.released + {id} && m'.timers.Keys == m.timers.Keys - {id}
  {
    hide Inv, WellFormed;
    InvIsWellFormed(s);
    var m := s.w.m;
    if step.Confirmed? {
      ConfirmedKeepsWellFormed(m, step.h, s.w.networks);
      ReleasedLinks(m, m.live[step.h]);
    } else if step.TimerFired? {
      ExpiredKeepsWellFormed(m, step.h, s.w.networks);
      ReleasedLinks(m, m.armed[step.h].id);
    }
    hide Manager.ReleaseHeld;
  }

  lemma ReleasedLinks(m: Manager, id: Id)
    ensures var p := m.ReleaseHeld(id);
            && p.items == m.items - {id} && p.released == m.released + {id} && p.exclusive == m.exclusive && p.active == m.active
            && p.watchers.Keys == m.watchers.Keys - {id} && p.timers.Keys == m.timers.Keys - {id}
  {
    hide Manager.CancelWatch, Manager.ClearExpiration;
    SuspendingKeepsTheRest(m, id);
    SuspendingKeepsTheRest(m.CancelWatch(id), id);
  }

  // ---- Watched while held ----

  /** Outside the sections, a held reservation on a configured network is watched. */
  ghost predicate IsWatched(w: World, id: Id) {
    id in w.m.items && id !in w.m.exclusive && w.m.items[id].networkId in w.networks ==> id in w.m.watchers
  }

  /** The step is the failure of this reservation's watch. */
  ghost predicate WatchFails(s: State, step: Step, id: Id) {
    step.WatchFailed? && step.h in s.w.m.live && s.w.m.live[step.h] == id
  }

  /** What a step leaves of the watch of `id`. */
  ghost predicate KeepsWatch(w: World, w': World, id: Id) {
    IsWatched(w, id) ==> IsWatched(w', id)
  }

  lemma HoldingKeepsWatch(s: State, step: Step, id: Id)
    requires Inv(s) && ContinuesToHold(s, step)
    ensures Enabled(s, step) && KeepsWatch(s.w, Next(s, step).w, id)
  {
    hide Inv;
    var r := s.actions[step.t].phase.r;
    RunningIsOk(s, step.t);
    FlightIsNotHeld(s.w, s.actions[step.t]);
    TrackHolds(s.w.m, r, s.w.now, s.w.networks);
    if id != r.id && id in s.w.m.watchers { TrackWatchesOthers(s.w.m, r, s.w.now, s.w.networks, id); }
    hide ActionOk, Manager.Track;
  }

  lemma TrackWatchesOthers(m: Manager, r: Reservation, now: int, known: set<NetworkId>, id: Id)
    requires id != r.id && id in m.watchers
    ensures id in m.Track(r, now, known).watchers
  {}

  lemma LeavingKeepsWatch(s: State, t: Token, id: Id)
    requires Inv(s) && Enabled(s, LeaveSection(t))
    ensures KeepsWatch(s.w, Next(s, LeaveSection(t)).w, id)
  {
    InvIsWellFormed(s);
    ClosedHoldsNothing(s.w.m, s.w.networks);
    EndExclusiveWatches(s.w.m, s.actions[t].id, s.w.now, s.w.networks, id);
    if s.actions[t].id in s.w.m.items {
      EndExclusiveReleasesExpired(s.w.m, s.actions[t].id, s.w.now, s.w.networks);
    } else {
      LeavingNothing(s.w.m, s.actions[t].id, s.w.now, s.w.networks);
    }
    hide Inv, WellFormed, Manager.EndExclusive;
  }

  lemma ClosedHoldsNothing(m: Manager, known: set<NetworkId>)
    requires WellFormed(m, known)
    ensures !m.active ==> m.items == map[]
    ensures forall i :: i in m.items ==> m.items[i].id == i
  {}

  lemma EndExclusiveWatches(m: Manager, id: Id, now: int, known: set<NetworkId>, i: Id)
    requires id in m.items ==> m.active && m.items[id].id == id
    ensures var e := m.EndExclusive(id, now, known);
            if i == id then id in e.items && e.items[id].networkId in known ==> id in e.watchers
            else i in m.watchers ==> i in e.watchers
  {}

  lemma RuntimeKeepsWatch(s: State, step: Step, id: Id)
    requires Inv(s) && Enabled(s, step) && (step.Confirmed? || step.TimerFired?)
    ensures KeepsWatch(s.w, Next(s, step).w, id)
  {
    hide Inv, WellFormed, Manager.ReleaseHeld, Manager.Confirmed, Manager.Expired;
    InvIsWellFormed(s);
    var gone := if step.Confirmed? then s.w.m.live[step.h] else s.w.m.armed[step.h].id;
    if step.Confirmed? {
      ConfirmedKeepsWellFormed(s.w.m, step.h, s.w.networks);
    } else {
      ExpiredKeepsWellFormed(s.w.m, step.h, s.w.networks);
    }
    ReleasedFacts(s.w.m, gone);
    ReleasedWatchers(s.w.m, gone);
  }

  lemma ReleasedWatchers(m: Manager, id: Id)
    ensures m.ReleaseHeld(id).watchers.Keys == m.watchers.Keys - {id}
  {}

  lemma GoingKeepsWatch(s: State, step: Step, id: Id)
    requires Enabled(s, step) && (step.ResumeDeleted? || step.ResumeConfigured? || step.Close?)
    ensures KeepsWatch(s.w, Next(s, step).w, id)
  {
    hide Manager.EndExclusive, Manager.Add, Manager.Replace, Manager.Confirmed, Manager.Expired, Manager.BeginExclusive;
  }

  lemma OthersKeepWatch(s: State, step: Step, id: Id)
    requires Enabled(s, step) && !WatchFails(s, step, id) && !ChangesHeld(step)
    ensures KeepsWatch(s.w, Next(s, step).w, id)
  {
    hide Reserved, World.Duplicate, GuardState.Refuses, GuardState.Acquire, GuardState.Release;
    hide Manager.BeginExclusive, Manager.EndExclusive, Manager.Failed, Manager.Add, Manager.Replace, Manager.Drop;
    hide Manager.RemoveByNetwork, Manager.Close, Manager.Confirmed, Manager.Expired;
    if step.StartUpdate? || step.StartRemove? { SectionWatches(s.w.m, step.id); }
    if step.WatchFailed? { FailingWatches(s.w.m, step.h); }
  }

  lemma SectionWatches(m: Manager, id: Id)
    ensures var e := m.BeginExclusive(id);
            e.items == m.items && e.exclusive == m.exclusive + {id} && e.watchers.Keys == m.watchers.Keys - {id}
  {}

  lemma FailingWatches(m: Manager, h: Handle)
    requires h in m.live
    ensures var f := m.Failed(h); f.items == m.items && f.exclusive == m.exclusive && f.watchers.Keys == m.watchers.Keys - {m.live[h]}
  {}

  lemma WrittenKeepsWatch(s: State, t: Token, id: Id)
    requires Inv(s) && Enabled(s, ResumeWritten(t))
    ensures KeepsWatch(s.w, Next(s, ResumeWritten(t)).w, id)
  {
    hide Inv;
    RunningIsOk(s, t);
    KindOfWritten(s.w, s.actions[t]);
    match s.actions[t].kind
    case Add => HoldingKeepsWatch(s, ResumeWritten(t), id);
    case Update => ReplacingKeepsWatch(s, t, id);
    case _ =>
  }

  lemma ReplacingKeepsWatch(s: State, t: Token, id: Id)
    requires Inv(s) && Enabled(s, ResumeWritten(t)) && s.actions[t].kind.Update?
    ensures KeepsWatch(s.w, Next(s, ResumeWritten(t)).w, id)
  {
    hide Inv;
    RunningIsOk(s, t);
    UpdateReplaces(s, t);
  }

  lemma StepKeepsWatch(s: State, step: Step, id: Id)
    requires Inv(s) && Enabled(s, step) && !WatchFails(s, step, id)
    ensures KeepsWatch(s.w, Next(s, step).w, id)
  {
    hide Inv, Next, KeepsWatch, WatchFails;
    match step
    case ResumeWritten(t) => WrittenKeepsWatch(s, t, id);
    case ResumeAnswered(_) => HoldingKeepsWatch(s, step, id);
    case LeaveSection(t) => LeavingKeepsWatch(s, t, id);
    case Confirmed(_) => RuntimeKeepsWatch(s, step, id);
    case TimerFired(_) => RuntimeKeepsWatch(s, step, id);
    case ResumeDeleted(_) => GoingKeepsWatch(s, step, id);
    case ResumeConfigured(_) => GoingKeepsWatch(s, step, id);
    case Close => GoingKeepsWatch(s, step, id);
    case _ => OthersKeepWatch(s, step, id);
  }

  lemma WatchedAtFirst(s: State, id: Id)
    requires Init(s)
    ensures IsWatched(s.w, id)
  {}

  /** In every run, outside the sections every held reservation on a configured network
      is watched, unless its watch failed. */
  lemma {:induction false} WatchedUnlessFailed(states: seq<State>, steps: seq<Step>, i: nat, id: Id)
    requires IsRun(states, steps) && i < |states|
    ensures IsWatched(states[i].w, id) || exists k :: 0 <= k < i && WatchFails(states[k], steps[k], id)
  {
    hide Enabled, Next, Init, Inv, IsWatched, WatchFails;
    if i == 0 {
      WatchedAtFirst(states[0], id);
    } else {
      WatchedUnlessFailed(states, steps, i - 1, id);
      EveryReachableStateHasInv(states, steps, i - 1);
      if !WatchFails(states[i - 1], steps[i - 1], id) { StepKeepsWatch(states[i - 1], steps[i - 1], id); }
    }
  }
}

/** What the balance check admits, over whole runs: an action is admitted on what was
    reserved when it started, and one that is refused has left nothing behind. */
module ReservationAdmission {
  import opened Common
  import opened OperationGuard
  import opened ReservationsManager
  import opened ReservedFunds
  import opened ReservationOperationGuard
  import opened ReservationProtocol
  import opened ReservationInvariant
  import opened ReservationSteps
  import opened ReservationTheorems

  /** The account a start charges, and what it adds to the sum reserved for it. */
  datatype Charge = Charge(account: AccountId, extra: int)

  ghost function ChargeOf(s: State, step: Step): Option<Charge> {
    match step
    case StartAdd(_, account, amount, _) => Some(Charge(account, amount))
    case StartSubmit(account, amount) => Some(Charge(account, amount))
    case StartUpdate(id, _, account, amount, _) =>
      if id in s.w.m.items then Some(Charge(account, amount - s.w.m.items[id].pendingAmount)) else None
    case _ => None
  }

  /** The step starts action `t`, or is taken by it. */
  ghost predicate Enters(s: State, step: Step, t: Token) {
    Enabled(s, step) && t !in s.actions && t in Next(s, step).actions
  }

  ghost predicate TakenBy(s: State, step: Step, t: Token) {
    Enters(s, step, t) ||
    match step
    case BalanceRead(u, _, _) => t == u
    case SignatureRead(u, _, _) => t == u
    case RecordWritten(u, _) => t == u
    case ResumeWritten(u) => t == u
    case NodeAnswered(u, _) => t == u
    case ResumeAnswered(u) => t == u
    case RefusedErased(u, _) => t == u
    case RemovedErased(u, _) => t == u
    case ResumeDeleted(u) => t == u
    case LeaveSection(u) => t == u
    case NetworkWritten(u, _, _, _) => t == u
    case ResumeConfigured(u) => t == u
    case CleanedErased(u, _) => t == u
    case Leave(u) => t == u
    case _ => false
  }

  /** Action `t` awaits its balance, exactly as it started. */
  ghost predicate Waits(s: State, t: Token, a: Action) {
    t in s.actions && s.actions[t] == a && a.phase.Balance?
  }

  /** Past its check, action `t` goes on towards its reservation. */
  ghost predicate Admitted(s: State, t: Token) {
    t in s.actions && (s.actions[t].phase.Writing? || s.actions[t].phase.Signing?)
  }

  /** Action `t` has ended, or is on its way out. */
  ghost predicate Leaves(s: State, t: Token) {
    t < s.nextToken && (t in s.actions ==> s.actions[t].phase.Leaving? || s.actions[t].phase.Ending?)
  }

  ghost predicate TokensGrow(s: State, s': State) {
    s.nextToken <= s'.nextToken && forall t :: t in s'.actions && t !in s.actions ==> t == s.nextToken < s'.nextToken
  }

  lemma StepGrows(s: State, step: Step)
    requires Enabled(s, step)
    ensures TokensGrow(s, Next(s, step))
  {
    hide Reserved, World.Duplicate, World.Hold, GuardState.Refuses, GuardState.Acquire, GuardState.Release;
    hide Manager.BeginExclusive, Manager.EndExclusive, Manager.Replace, Manager.Drop, Manager.RemoveByNetwork, Manager.Close;
  }

  lemma {:induction false} TokensOnlyGrow(states: seq<State>, steps: seq<Step>, i: nat, j: nat)
    requires IsRun(states, steps) && i <= j < |states|
    ensures states[i].nextToken <= states[j].nextToken
  {
    hide Enabled, Next, Init;
    if i < j {
      TokensOnlyGrow(states, steps, i, j - 1);
      StepGrows(states[j - 1], steps[j - 1]);
    }
  }

  // ---- One step ----

  /** No action comes back to its balance: it awaits it from its start on. */
  lemma BalanceIsAwaitedOnce(s: State, step: Step, t: Token)
    requires Enabled(s, step) && t in s.actions && t in Next(s, step).actions && Next(s, step).actions[t].phase.Balance?
    ensures t < s.nextToken ==> s.actions[t] == Next(s, step).actions[t] && !TakenBy(s, step, t)
  {
    hide Reserved, World.Duplicate, World.Hold, GuardState.Refuses, GuardState.Acquire, GuardState.Release;
    hide Manager.BeginExclusive, Manager.EndExclusive, Manager.Replace, Manager.Drop, Manager.RemoveByNetwork, Manager.Close;
  }

  lemma EntryIsStart(s: State, step: Step, t: Token)
    requires Enters(s, step, t) && Next(s, step).actions[t].phase.Balance?
    ensures step.StartAdd? || step.StartSubmit? || (step.StartUpdate? && step.id in s.w.m.items)
    ensures t == s.nextToken
  {
    hide Reserved, World.Duplicate;
  }

  lemma EnteredCaptures(s: State, step: Step, t: Token)
    requires Enters(s, step, t) && Next(s, step).actions[t].phase.Balance?
    ensures var s' := Next(s, step); var a := s'.actions[t];
            && ChargeOf(s, step).Some?
            && a.account == ChargeOf(s, step).value.account && a.delta == ChargeOf(s, step).value.extra
            && a.captured == Reserved(s.w.m.items, a.account, s.w.current) && a.checkedOn == s.w.current
            && s'.w.m.items == s.w.m.items && s'.w == s.w.(m := s'.w.m)
  {
    EntryIsStart(s, step, t);
    hide Reserved, World.Duplicate, Manager.CancelWatch, Manager.ClearExpiration;
    if step.StartUpdate? { SectionKeepsItems(s.w.m, step.id); }
  }

  lemma BalanceAdmits(s: State, t: Token, balance: int, newId: Id)
    requires Inv(s) && Enabled(s, BalanceRead(t, Some(balance), newId))
    ensures var a := s.actions[t];
            var s' := Next(s, BalanceRead(t, Some(balance), newId));
            && (Admitted(s', t) <==> a.captured + a.delta <= balance)
            && (Admitted(s', t) ==> s'.actions[t].network == a.network)
            && (a.network == a.checkedOn ==> Reserved(s.w.m.items, a.account, a.network) <= a.captured)
  {
    assert ActionOk(s.w, s.actions[t]);
    hide Inv, SectionOk, FlightOk, CleaningOk;
  }

  lemma LeavingStays(s: State, step: Step, t: Token)
    requires Enabled(s, step) && Leaves(s, t)
    ensures Leaves(Next(s, step), t)
  {
    hide Reserved, World.Duplicate, World.Hold, GuardState.Refuses, GuardState.Acquire, GuardState.Release;
    hide Manager.BeginExclusive, Manager.EndExclusive, Manager.Replace, Manager.Drop, Manager.RemoveByNetwork, Manager.Close;
  }

  /** The manager's items are as they were, or without the one that expired. */
  ghost predicate ItemsOrExpired(w: World, w': World) {
    || w'.m.items == w.m.items
    || exists id :: id in w.m.items && w.m.items[id].expirationTime <= w.now && w'.m.items == w.m.items - {id}
  }

  ghost predicate ChangesNothing(w: World, w': World) {
    ItemsOrExpired(w, w') && w' == w.(m := w'.m)
  }

  lemma InvIsWellFormed(s: State)
    requires Inv(s)
    ensures WellFormed(s.w.m, s.w.networks)
  {
    hide WellFormed, ActionsOk, GuardOk, FlightsDiffer, SectionsAreOwned;
  }

  lemma LeavingSteps(s: State, step: Step, t: Token)
    requires Enabled(s, step) && Leaves(s, t) && t in s.actions && TakenBy(s, step, t)
    ensures step == LeaveSection(t) || step == Leave(t)
  {
    hide Next;
  }

  lemma LeavingChangesNothing(s: State, step: Step, t: Token)
    requires WellFormed(s.w.m, s.w.networks) && Enabled(s, step) && Leaves(s, t) && t in s.actions && TakenBy(s, step, t)
    ensures ChangesNothing(s.w, Next(s, step).w)
  {
    hide WellFormed, Manager.Arm;
    LeavingSteps(s, step, t);
    if step == LeaveSection(t) && s.actions[t].id in s.w.m.items {
      EndExclusiveReleasesExpired(s.w.m, s.actions[t].id, s.w.now, s.w.networks);
    }
  }

  // ---- Runs ----

  /** From its start to its balance an action waits, and takes no step. */
  lemma {:induction false} WaitsFromStart(states: seq<State>, steps: seq<Step>, i: nat, j: nat, t: Token)
    requires IsRun(states, steps) && i < j < |states| && Enters(states[i], steps[i], t)
    requires t in states[j].actions && states[j].actions[t].phase.Balance?
    ensures forall k :: i < k <= j ==> Waits(states[k], t, states[j].actions[t])
    ensures forall k :: i < k < j ==> !TakenBy(states[k], steps[k], t)
    decreases j
  {
    hide Enabled, Next, Init, TakenBy;
    StepGrows(states[i], steps[i]);
    if i + 1 < j {
      TokensOnlyGrow(states, steps, i + 1, j - 1);
      StepGrows(states[j - 1], steps[j - 1]);
      BalanceIsAwaitedOnce(states[j - 1], steps[j - 1], t);
      WaitsFromStart(states, steps, i, j - 1, t);
    }
  }

  /** In every run the balance read admits an action exactly when it covers what was
      reserved for the account as the action started, with what the action adds; and
      then, whatever ran meanwhile, it covers what is reserved at that moment too. */
  lemma AdmittedIffCovered(states: seq<State>, steps: seq<Step>, i: nat, j: nat, t: Token, balance: int, newId: Id)
    requires IsRun(states, steps) && i < j < |steps| && Enters(states[i], steps[i], t)
    requires steps[j] == BalanceRead(t, Some(balance), newId)
    ensures ChargeOf(states[i], steps[i]).Some?
    ensures var c := ChargeOf(states[i], steps[i]).value;
            var on := states[i].w.current;
            && (Admitted(states[j + 1], t) <==> Reserved(states[i].w.m.items, c.account, on) + c.extra <= balance)
            && (Admitted(states[j + 1], t) && states[j + 1].actions[t].network == on ==>
                  Reserved(states[j].w.m.items, c.account, on) + c.extra <= balance)
  {
    EveryReachableStateHasInv(states, steps, j);
    WaitsFromStart(states, steps, i, j, t);
    assert Waits(states[i + 1], t, states[j].actions[t]);
    BalanceAdmits(states[j], t, balance, newId);
    EnteredCaptures(states[i], steps[i], t);
    hide *;
  }

  lemma {:induction false} LeavesForGood(states: seq<State>, steps: seq<Step>, j: nat, k: nat, t: Token)
    requires IsRun(states, steps) && j <= k < |states| && Leaves(states[j], t)
    ensures Leaves(states[k], t)
  {
    hide Enabled, Next, Init, Leaves;
    if j < k {
      LeavesForGood(states, steps, j, k - 1, t);
      LeavingStays(states[k - 1], steps[k - 1], t);
    }
  }

  lemma RefusedLeaves(states: seq<State>, steps: seq<Step>, j: nat, t: Token)
    requires IsRun(states, steps) && j < |steps| && steps[j].BalanceRead? && steps[j].t == t && !Admitted(states[j + 1], t)
    ensures t in states[j].actions && states[j].actions[t].phase.Balance?
    ensures Leaves(states[j + 1], t) && states[j + 1].w == states[j].w
  {
    hide Init, WorldOk, ActionsOk, FlightsDiffer, SectionsAreOwned;
    EveryReachableStateHasInv(states, steps, j);
  }

  /** An action takes its steps from its start on. */
  lemma TakenFromStart(states: seq<State>, steps: seq<Step>, i: nat, k: nat, t: Token)
    requires IsRun(states, steps) && i < |steps| && Enters(states[i], steps[i], t) && k < |steps| && TakenBy(states[k], steps[k], t)
    ensures i <= k
    ensures k == i || t in states[k].actions
  {
    EveryReachableStateHasInv(states, steps, k);
    StepGrows(states[i], steps[i]);
    StepGrows(states[k], steps[k]);
    if k < i {
      TokensOnlyGrow(states, steps, k + 1, i);
      TokensOnlyGrow(states, steps, k, i);
    } else if i < k {
      TokensOnlyGrow(states, steps, i + 1, k);
    }
  }

  /** A refused action, for want of cover or of a balance, changes no record, sends
      nothing and holds nothing: each of its steps, the first to the last, leaves all
      as it was, except that leaving its section may release what expired in it. */
  lemma RefusedChangesNothing(states: seq<State>, steps: seq<Step>, i: nat, j: nat, k: nat, t: Token)
    requires IsRun(states, steps) && i < j < |steps| && Enters(states[i], steps[i], t)
    requires steps[j].BalanceRead? && steps[j].t == t && !Admitted(states[j + 1], t)
    requires k < |steps| && TakenBy(states[k], steps[k], t)
    ensures ChangesNothing(states[k].w, states[k + 1].w)
  {
    hide Enabled, Next, Init, Inv, WellFormed, TakenBy, Leaves;
    TakenFromStart(states, steps, i, k, t);
    RefusedLeaves(states, steps, j, t);
    WaitsFromStart(states, steps, i, j, t);
    if k == i {
      assert Waits(states[i + 1], t, states[j].actions[t]);
      EnteredCaptures(states[i], steps[i], t);
    } else if k > j {
      LeavesForGood(states, steps, j + 1, k, t);
      EveryReachableStateHasInv(states, steps, k);
      assert WellFormed(states[k].w.m, states[k].w.networks) by { InvIsWellFormed(states[k]); }
      LeavingChangesNothing(states[k], steps[k], t);
    }
  }

  // ---- Through the client ----

  /** The client names the selected network in what it adds and updates. */
  ghost predicate NamesSelected(s: State, step: Step) {
    step.StartAdd? || step.StartUpdate? ==> step.network == s.w.current
  }

  ghost predicate ThroughClient(states: seq<State>, steps: seq<Step>)
    requires |states| == |steps| + 1
  {
    forall i :: 0 <= i < |steps| ==> NamesSelected(states[i], steps[i])
  }

  ghost predicate ChecksItsNetwork(a: Action) {
    a.kind.Add? || a.kind.Update? || a.kind.Submit? ==> a.network == a.checkedOn
  }

  lemma StepChecksItsNetwork(s: State, step: Step, t: Token)
    requires Enabled(s, step) && NamesSelected(s, step)
    requires forall u :: u in s.actions ==> ChecksItsNetwork(s.actions[u])
    requires t in Next(s, step).actions
    ensures ChecksItsNetwork(Next(s, step).actions[t])
  {
    hide Reserved, World.Duplicate, World.Hold, GuardState.Refuses, GuardState.Acquire, GuardState.Release;
    hide Manager.BeginExclusive, Manager.EndExclusive, Manager.Replace, Manager.Drop, Manager.RemoveByNetwork, Manager.Close;
  }

  lemma OpensIdle(s: State)
    requires Init(s)
    ensures s.actions == map[]
  {}

  lemma {:induction false} ClientChecksItsNetwork(states: seq<State>, steps: seq<Step>, i: nat, t: Token)
    requires IsRun(states, steps) && ThroughClient(states, steps) && i < |states| && t in states[i].actions
    ensures ChecksItsNetwork(states[i].actions[t])
    decreases i
  {
    hide Enabled, Next, Init, ChecksItsNetwork, NamesSelected;
    if i == 0 {
      OpensIdle(states[0]);
    } else {
      var s := states[i - 1];
      forall u | u in s.actions ensures ChecksItsNetwork(s.actions[u]) {
        ClientChecksItsNetwork(states, steps, i - 1, u);
      }
      StepChecksItsNetwork(s, steps[i - 1], t);
    }
  }

  lemma HolderChecksFunds(w: World, a: Action)
    requires ActionOk(w, a) && (a.phase.Written? || a.phase.Accepted? || a.phase.Undecided?)
    ensures a.kind.Add? || a.kind.Update? || a.kind.Submit?
  {}

  /** In runs driven by the client no action ever reserves more than the balance it
      read, without any condition. */
  lemma ClientNeverOverReserves(states: seq<State>, steps: seq<Step>, i: nat)
    requires IsRun(states, steps) && ThroughClient(states, steps) && i < |steps|
    ensures StaysCovered(states[i], steps[i])
  {
    hide Inv, Init, Next;
    if Holder(states[i], steps[i]).Some? {
      EveryReachableStateHasInv(states, steps, i);
      ClientChecksItsNetwork(states, steps, i, steps[i].t);
      RunningIsOk(states[i], steps[i].t);
      HolderChecksFunds(states[i].w, states[i].actions[steps[i].t]);
      NeverOverReserved(states, steps, i);
    }
  }
}

/** The adapter of one open wallet as its objects: the guard, the reservations
    manager, the table of records, and the frames of the suspended calls. A method
    is the code between two awaits, and is one step of the protocol. */
module ReservationAdapter {
  import opened Common
  import opened OperationGuard
  import opened ReservationsManager
  import opened ReservedFunds
  import opened ReservationOperationGuard
  import opened ReservationProtocol
  import opened ReservationInvariant
  import opened ReservationSteps

  class ReservationAdapterService {
    const operationsGuard: ConcurrentOperationGuard<Owner>
    const reservationsManager: TransactionReservationsManager
    var stored: map<Id, Reservation>
    var currentNetworkId: NetworkId
    var networks: set<NetworkId>
    var now: int
    var frames: map<Token, Action>
    ghost var used: set<Id>
    ghost var sent: set<Id>
    ghost var verdicts: map<Id, Verdict>

    ghost function World(): World
      reads this, reservationsManager
    {
      ReservationProtocol.World.World(reservationsManager.State(), stored, currentNetworkId, networks, now, used, sent, verdicts)
    }

    ghost function Snapshot(): State
      reads this, reservationsManager, operationsGuard
    {
      State(operationsGuard.State(), frames, operationsGuard.nextToken, World())
    }

    ghost predicate Valid()
      reads this, reservationsManager, operationsGuard
    {
      Inv(Snapshot()) && operationsGuard.Valid() && operationsGuard.running == Runs(frames)
    }

    /** The adapter over the restored reservations, all of them stored. */
    constructor (operationsGuard: ConcurrentOperationGuard<Owner>, reservationsManager: TransactionReservationsManager,
                 stored: map<Id, Reservation>, currentNetworkId: NetworkId, networks: set<NetworkId>, now: int)
      requires operationsGuard.State() == Idle<Owner>() && operationsGuard.running == map[] && operationsGuard.nextToken == 0
      requires operationsGuard.Valid() && reservationsManager.Valid(networks) && reservationsManager.exclusiveIds == {}
      requires reservationsManager.released !! reservationsManager.items.Keys
      requires forall id :: id in reservationsManager.items ==> id in stored && stored[id] == reservationsManager.items[id]
      requires currentNetworkId in networks && reservationsManager.watchers.Keys == reservationsManager.items.Keys
      ensures Init(Snapshot()) && Valid()
      ensures this.operationsGuard == operationsGuard && this.reservationsManager == reservationsManager
    {
      this.operationsGuard, this.reservationsManager := operationsGuard, reservationsManager;
      this.stored, this.currentNetworkId, this.networks, this.now := stored, currentNetworkId, networks, now;
      frames, used, sent, verdicts := map[], stored.Keys + reservationsManager.released, {}, map[];
      new;
      InitHolds(Snapshot());
      hide Inv;
    }

    /** Enter with a frame, unless the guard refuses. */
    method Enter(a: Action) returns (ok: bool)
      requires operationsGuard.Valid() && operationsGuard.running == Runs(frames)
      modifies this`frames, operationsGuard
      ensures ok == !old(operationsGuard.State()).Refuses(a.GuardRun())
      ensures operationsGuard.Valid() && operationsGuard.running == Runs(frames)
      ensures Snapshot() == old(Snapshot()).TryEnter(a, old(World()))
    {
      hide GuardState.Refuses, GuardState.Acquire, Action.GuardRun, Consistent;
      var r := operationsGuard.Begin(a.GuardRun());
      ok := r.Ok?;
      if ok {
        frames := frames[r.value := a];
        assert Runs(frames) == Runs(old(frames))[r.value := a.GuardRun()];
      }
    }

    method HasDuplicate(deployId: string, network: NetworkId, excluded: Id) returns (found: bool)
      ensures found == World().Duplicate(deployId, network, excluded)
    {
      var items := reservationsManager.items;
      found := exists id :: id in items && items[id].deployId == deployId && items[id].networkId == network && id != excluded;
    }

    // ---- Starting an action ----

    /** `add` up to its balance request. */
    method Add(network: NetworkId, account: AccountId, amount: nat, deployId: string) returns (ok: bool)
      requires Valid()
      modifies this`frames, operationsGuard
      ensures Valid() && Snapshot() == Next(old(Snapshot()), StartAdd(network, account, amount, deployId))
    {
      hide Inv, GuardState.Refuses, GuardState.Acquire, Action.GuardRun, Reserved, State.TryEnter;
      StepKeepsInv(Snapshot(), StartAdd(network, account, amount, deployId));
      var captured := GetReservedAmount(reservationsManager.items, account, currentNetworkId);
      var duplicate := HasDuplicate(deployId, network, "");
      var a := Action(Kind.Add, network, account, deployId, "", amount, currentNetworkId, captured, amount, 0,
                      if duplicate then Ending else Balance);
      assert a == Snapshot().AddAction(network, account, amount, deployId);
      ok := Enter(a);
    }

    /** `transfer` or `deploy` up to its balance request. */
    method Submit(account: AccountId, amount: nat) returns (ok: bool)
      requires Valid()
      modifies this`frames, operationsGuard
      ensures Valid() && Snapshot() == Next(old(Snapshot()), StartSubmit(account, amount))
    {
      hide Inv, GuardState.Refuses, GuardState.Acquire, Action.GuardRun, Reserved, State.TryEnter;
      StepKeepsInv(Snapshot(), StartSubmit(account, amount));
      var captured := GetReservedAmount(reservationsManager.items, account, currentNetworkId);
      var a := Action(Kind.Submit, currentNetworkId, account, "", "", amount, currentNetworkId, captured, amount, 0, Balance);
      assert a == Snapshot().SubmitAction(account, amount);
      ok := Enter(a);
    }

    /** Updating or removing the network: its exclusive scope, then the write. */
    method RunExclusiveNetworkAction(network: NetworkId) returns (ok: bool)
      requires Valid()
      modifies this`frames, operationsGuard
      ensures Valid() && Snapshot() == Next(old(Snapshot()), StartCleanup(network))
    {
      hide Inv, GuardState.Refuses, GuardState.Acquire, Action.GuardRun, State.TryEnter;
      StepKeepsInv(Snapshot(), StartCleanup(network));
      ok := Enter(Action(Cleanup, network, "", "", "", 0, currentNetworkId, 0, 0, 0, Configuring));
    }

    /** `remove` up to the record's deletion. */
    method Remove(id: Id) returns (ok: bool)
      requires Valid() && id != ""
      modifies this`frames, operationsGuard, reservationsManager
      ensures Valid() && Snapshot() == Next(old(Snapshot()), StartRemove(id))
    {
      hide Inv, GuardState.Refuses, GuardState.Acquire, Action.GuardRun, WellFormed, Manager.BeginExclusive;
      StepKeepsInv(Snapshot(), StartRemove(id));
      ManagerIsWellFormed();
      ok := id in reservationsManager.items;
      if !ok { return; }
      var target := reservationsManager.items[id];
      var a := Action(Kind.Remove, target.networkId, target.accountId, "", id, 0, currentNetworkId, 0, 0, 0, Deleting);
      ok := Enter(a);
      if ok { var _ := reservationsManager.BeginExclusive(id, networks); }
    }

    /** `update`: the exclusive section, then the checks inside it. */
    method Update(id: Id, network: NetworkId, account: AccountId, amount: nat, deployId: string) returns (ok: bool)
      requires Valid() && id != ""
      modifies this`frames, operationsGuard, reservationsManager
      ensures Valid() && Snapshot() == Next(old(Snapshot()), StartUpdate(id, network, account, amount, deployId))
    {
      hide Inv, GuardState.Refuses, GuardState.Acquire, Action.GuardRun, WellFormed, Manager.BeginExclusive, Reserved;
      StepKeepsInv(Snapshot(), StartUpdate(id, network, account, amount, deployId));
      ManagerIsWellFormed();
      var a := PlanUpdate(id, network, account, amount, deployId);
      hide State.UpdateAction;
      ok := Enter(a);
      if ok && !a.phase.Ending? { var _ := reservationsManager.BeginExclusive(id, networks); }
    }

    /** What update will do: the sum it captures, and whether its checks pass. */
    method PlanUpdate(id: Id, network: NetworkId, account: AccountId, amount: nat, deployId: string) returns (a: Action)
      ensures a == Snapshot().UpdateAction(id, network, account, amount, deployId)
      ensures !a.phase.Ending? ==> id in reservationsManager.items
    {
      hide Reserved;
      var captured := GetReservedAmount(reservationsManager.items, account, currentNetworkId);
      var duplicate := HasDuplicate(deployId, network, id);
      a := Action(Kind.Update, network, account, deployId, id, amount, currentNetworkId, captured, 0, 0, Ending);
      if id in reservationsManager.items {
        var r := reservationsManager.items[id];
        var valid := r.accountId == account && r.networkId == network && !duplicate;
        a := a.(delta := amount - r.pendingAmount, phase := if valid then Balance else Leaving);
      }
    }

    lemma ManagerIsWellFormed()
      requires Valid()
      ensures reservationsManager.Valid(networks)
    {
      hide Consistent, WellFormed;
    }

    // ---- Continuing one ----

    method SetFrame(t: Token, a: Action)
      requires t in frames && a.GuardRun() == frames[t].GuardRun() && operationsGuard.running == Runs(frames)
      modifies this`frames
      ensures frames == old(frames)[t := a] && operationsGuard.running == Runs(frames)
    {
      frames := frames[t := a];
      assert Runs(frames) == Runs(old(frames));
    }

    /** The balance arrives, or fails to: validateSufficientBalance decides. */
    method OnBalance(t: Token, balance: Option<int>, newId: Id)
      requires Valid() && Enabled(Snapshot(), BalanceRead(t, balance, newId))
      modifies this`frames, this`used
      ensures Valid() && Snapshot() == Next(old(Snapshot()), BalanceRead(t, balance, newId))
    {
      hide Inv, Consistent;
      StepKeepsInv(Snapshot(), BalanceRead(t, balance, newId));
      var a := frames[t];
      if balance.None? || balance.value - (a.captured + a.delta) < 0 {
        SetFrame(t, a.(phase := if a.kind.Update? then Leaving else Ending));
        return;
      }
      var expires := now + RESERVATION_EXPIRATION_TIME;
      if a.kind.Add? {
        var r := Reservation(newId, a.account, a.network, a.deployId, a.amount, expires);
        SetFrame(t, a.(balance := balance.value, phase := Writing(r)));
        used := used + {newId};
      } else if a.kind.Update? {
        var r := Reservation(a.id, a.account, a.network, a.deployId, a.amount, expires);
        SetFrame(t, a.(balance := balance.value, phase := Writing(r)));
      } else {
        SetFrame(t, a.(balance := balance.value, phase := Signing));
      }
    }

    method OnSignature(t: Token, signature: Option<string>, newId: Id)
      requires Valid() && Enabled(Snapshot(), SignatureRead(t, signature, newId))
      modifies this`frames, this`used
      ensures Valid() && Snapshot() == Next(old(Snapshot()), SignatureRead(t, signature, newId))
    {
      hide Inv, Consistent;
      StepKeepsInv(Snapshot(), SignatureRead(t, signature, newId));
      var a := frames[t];
      if signature.None? {
        SetFrame(t, a.(phase := Ending));
      } else {
        var r := Reservation(newId, a.account, a.network, signature.value, a.amount, now + RESERVATION_EXPIRATION_TIME);
        SetFrame(t, a.(phase := Writing(r)));
        used := used + {newId};
      }
    }

    /** persistReservation or updatePersistedReservation ends. */
    method OnRecordWritten(t: Token, ok: bool)
      requires Valid() && Enabled(Snapshot(), RecordWritten(t, ok))
      modifies this`frames, this`stored
      ensures Valid() && Snapshot() == Next(old(Snapshot()), RecordWritten(t, ok))
    {
      hide Inv, Consistent;
      StepKeepsInv(Snapshot(), RecordWritten(t, ok));
      var a := frames[t];
      var r := a.phase.r;
      if !ok || (a.kind.Update? && r.id !in stored) {
        SetFrame(t, a.(phase := if a.kind.Update? then Leaving else Ending));
      } else {
        stored := stored[r.id := r];
        SetFrame(t, a.(phase := Written(r)));
      }
    }

    /** After the write: an update replaces, an add holds, a submission is sent
        unless the manager has closed. */
    method AfterWrite(t: Token)
      requires Valid() && Enabled(Snapshot(), ResumeWritten(t))
      modifies this`frames, this`sent, this`verdicts, reservationsManager
      ensures Valid() && Snapshot() == Next(old(Snapshot()), ResumeWritten(t))
    {
      hide Inv, Consistent, WellFormed, Manager.Add;
      StepKeepsInv(Snapshot(), ResumeWritten(t));
      ManagerIsWellFormed();
      var a := frames[t];
      var r := a.phase.r;
      if a.kind.Update? {
        SetFrame(t, a.(phase := Leaving));
        var _ := reservationsManager.Replace(r, networks);
      } else if a.kind.Submit? {
        if reservationsManager.active {
          SetFrame(t, a.(phase := Sent(r)));
          sent := sent + {r.id};
        } else {
          SetFrame(t, a.(phase := Releasing(r)));
          verdicts := verdicts[r.id := NeverSent];
        }
      } else {
        SetFrame(t, a.(phase := Ending));
        var _ := reservationsManager.Add(r, now, networks);
      }
    }

    method OnNodeAnswer(t: Token, answer: Option<bool>)
      requires Valid() && Enabled(Snapshot(), NodeAnswered(t, answer))
      modifies this`frames, this`verdicts
      ensures Valid() && Snapshot() == Next(old(Snapshot()), NodeAnswered(t, answer))
    {
      hide Inv, Consistent;
      StepKeepsInv(Snapshot(), NodeAnswered(t, answer));
      var a := frames[t];
      var r := a.phase.r;
      if answer == Some(true) {
        SetFrame(t, a.(phase := Accepted(r)));
      } else if answer == Some(false) {
        SetFrame(t, a.(phase := Releasing(r)));
        verdicts := verdicts[r.id := Rejected];
      } else {
        SetFrame(t, a.(phase := Undecided(r)));
      }
    }

    /** reserveAndSubmit's end, or settleFailedSubmission without a verdict: hold. */
    method AfterAnswer(t: Token)
      requires Valid() && Enabled(Snapshot(), ResumeAnswered(t))
      modifies this`frames, reservationsManager
      ensures Valid() && Snapshot() == Next(old(Snapshot()), ResumeAnswered(t))
    {
      hide Inv, Consistent, WellFormed, Manager.Add;
      StepKeepsInv(Snapshot(), ResumeAnswered(t));
      var a := frames[t];
      SetFrame(t, a.(phase := Ending));
      var _ := reservationsManager.Add(a.phase.r, now, networks);
    }

    /** A refused submission's record is deleted, or stays when that fails. */
    method OnRefusedErased(t: Token, ok: bool)
      requires Valid() && Enabled(Snapshot(), RefusedErased(t, ok))
      modifies this`frames, this`stored
      ensures Valid() && Snapshot() == Next(old(Snapshot()), RefusedErased(t, ok))
    {
      hide Inv, Consistent;
      StepKeepsInv(Snapshot(), RefusedErased(t, ok));
      var a := frames[t];
      if ok { stored := stored - {a.phase.r.id}; }
      SetFrame(t, a.(phase := Ending));
    }

    method OnRemovedErased(t: Token, ok: bool)
      requires Valid() && Enabled(Snapshot(), RemovedErased(t, ok))
      modifies this`frames, this`stored, this`verdicts
      ensures Valid() && Snapshot() == Next(old(Snapshot()), RemovedErased(t, ok))
    {
      hide Inv, Consistent;
      StepKeepsInv(Snapshot(), RemovedErased(t, ok));
      var a := frames[t];
      if ok {
        stored := stored - {a.id};
        verdicts := verdicts[a.id := RemovedByUser];
        SetFrame(t, a.(phase := Deleted));
      } else {
        SetFrame(t, a.(phase := Leaving));
      }
    }

    method AfterDelete(t: Token)
      requires Valid() && Enabled(Snapshot(), ResumeDeleted(t))
      modifies this`frames, reservationsManager
      ensures Valid() && Snapshot() == Next(old(Snapshot()), ResumeDeleted(t))
    {
      hide Inv, Consistent, WellFormed, Manager.CancelWatch, Manager.ClearExpiration;
      StepKeepsInv(Snapshot(), ResumeDeleted(t));
      var a := frames[t];
      SetFrame(t, a.(phase := Leaving));
      reservationsManager.Untrack(a.id);
    }

    /** The exclusive section's `finally` block. */
    method LeaveExclusive(t: Token)
      requires Valid() && Enabled(Snapshot(), LeaveSection(t))
      modifies this`frames, reservationsManager
      ensures Valid() && Snapshot() == Next(old(Snapshot()), LeaveSection(t))
    {
      hide Inv, Consistent, WellFormed, Manager.EndExclusive;
      SectionIsHeld(t);
      StepKeepsInv(Snapshot(), LeaveSection(t));
      var a := frames[t];
      SetFrame(t, a.(phase := Ending));
      var _ := reservationsManager.EndExclusive(a.id, now, networks);
    }

    lemma SectionIsHeld(t: Token)
      requires Valid() && t in frames && frames[t].phase.Leaving?
      ensures reservationsManager.Valid(networks) && frames[t].id in reservationsManager.exclusiveIds
    {
      assert ActionOk(World(), frames[t]);
    }

    method OnNetworkWritten(t: Token, changed: bool, removed: bool, fallback: NetworkId)
      requires Valid() && Enabled(Snapshot(), NetworkWritten(t, changed, removed, fallback))
      modifies this`frames, this`networks, this`currentNetworkId
      ensures Valid() && Snapshot() == Next(old(Snapshot()), NetworkWritten(t, changed, removed, fallback))
    {
      hide Inv, Consistent;
      StepKeepsInv(Snapshot(), NetworkWritten(t, changed, removed, fallback));
      var a := frames[t];
      if removed {
        networks := networks - {a.network};
        if currentNetworkId == a.network { currentNetworkId := fallback; }
      }
      SetFrame(t, a.(phase := if changed || removed then Configured else Ending));
    }

    /** removeNetworkReservations up to the records' deletion. */
    method RemoveNetworkReservations(t: Token)
      requires Valid() && Enabled(Snapshot(), ResumeConfigured(t))
      modifies this`frames, this`verdicts, reservationsManager
      ensures Valid() && Snapshot() == Next(old(Snapshot()), ResumeConfigured(t))
    {
      hide Inv, Consistent, WellFormed, Manager.RemoveAll;
      StepKeepsInv(Snapshot(), ResumeConfigured(t));
      ManagerIsWellFormed();
      var a := frames[t];
      var ids := reservationsManager.RemoveByNetworkId(a.network, networks);
      verdicts := verdicts + map id | id in ids :: NetworkCleaned;
      SetFrame(t, a.(phase := Cleaning(ids)));
    }

    method OnCleanedErased(t: Token, ok: bool)
      requires Valid() && Enabled(Snapshot(), CleanedErased(t, ok))
      modifies this`frames, this`stored
      ensures Valid() && Snapshot() == Next(old(Snapshot()), CleanedErased(t, ok))
    {
      hide Inv, Consistent;
      StepKeepsInv(Snapshot(), CleanedErased(t, ok));
      var a := frames[t];
      if ok { stored := stored - a.phase.ids; }
      SetFrame(t, a.(phase := Ending));
    }

    /** The guard's `finally` block. */
    method Finish(t: Token)
      requires Valid() && Enabled(Snapshot(), Leave(t))
      modifies this`frames, operationsGuard
      ensures Valid() && Snapshot() == Next(old(Snapshot()), Leave(t))
    {
      hide Inv, Consistent, GuardState.Release, Action.GuardRun;
      StepKeepsInv(Snapshot(), Leave(t));
      operationsGuard.Settle(t);
      frames := frames - {t};
      assert Runs(frames) == Runs(old(frames)) - {t};
    }

    // ---- Between the actions ----

    method OnConfirmed(h: Handle)
      requires Valid() && Enabled(Snapshot(), Confirmed(h))
      modifies reservationsManager
      ensures Valid() && Snapshot() == Next(old(Snapshot()), Confirmed(h))
    {
      hide Inv, Consistent, WellFormed, Manager.ReleaseHeld, Manager.Confirmed;
      ManagerIsWellFormed();
      ConfirmedKeepsWellFormed(reservationsManager.State(), h, networks);
      StepKeepsInv(Snapshot(), Confirmed(h));
      reservationsManager.OnConfirmed(h, networks);
    }

    method OnWatchFailed(h: Handle)
      requires Valid() && Enabled(Snapshot(), WatchFailed(h))
      modifies reservationsManager
      ensures Valid() && Snapshot() == Next(old(Snapshot()), WatchFailed(h))
    {
      hide Inv, Consistent, WellFormed, Manager.CancelWatch, Manager.Failed;
      ManagerIsWellFormed();
      FailedKeepsWellFormed(reservationsManager.State(), h, networks);
      StepKeepsInv(Snapshot(), WatchFailed(h));
      reservationsManager.OnFailed(h, networks);
    }

    method OnTimer(h: Handle)
      requires Valid() && Enabled(Snapshot(), TimerFired(h))
      modifies reservationsManager
      ensures Valid() && Snapshot() == Next(old(Snapshot()), TimerFired(h))
    {
      hide Inv, Consistent, WellFormed, Manager.ReleaseHeld, Manager.Expired;
      ManagerIsWellFormed();
      ExpiredKeepsWellFormed(reservationsManager.State(), h, networks);
      StepKeepsInv(Snapshot(), TimerFired(h));
      reservationsManager.OnTimer(h, networks);
    }

    /** releaseFromStorage of a confirmed or expired reservation. */
    method OnReleaseErased(id: Id)
      requires Valid() && Enabled(Snapshot(), ReleaseErased(id))
      modifies this`stored
      ensures Valid() && Snapshot() == Next(old(Snapshot()), ReleaseErased(id))
    {
      hide Inv, Consistent;
      StepKeepsInv(Snapshot(), ReleaseErased(id));
      stored := stored - {id};
    }

    method Dispose()
      requires Valid()
      modifies reservationsManager
      ensures Valid() && Snapshot() == Next(old(Snapshot()), Step.Close)
    {
      hide Inv, Consistent, WellFormed, Manager.Close;
      ManagerIsWellFormed();
      StepKeepsInv(Snapshot(), Step.Close);
      reservationsManager.Close(networks);
    }
  }
}

/** Keys and scopes the reservation actions take in the operation guard. */
module ReservationOperationGuard {
  import opened Common
  import opened OperationGuard
  import opened ReservationsManager

  datatype Kind = Add | Update | Remove | Submit | Cleanup

  datatype Owner = Owner(action: Kind, networkId: NetworkId, accountId: Option<AccountId>)

  function AccountKey(network: NetworkId, account: AccountId): string {
    "RESERVATION:ACCOUNT:" + network + ":" + account
  }

  function DeployKey(network: NetworkId, deployId: string): string {
    "RESERVATION:DEPLOY:" + network + ":" + deployId
  }

  function ReservationKey(id: Id): string {
    "RESERVATION:" + id
  }

  function NetworkKey(network: NetworkId): string {
    "RESERVATION:NETWORK:" + network
  }

  /** An absent deploy or reservation id is the empty string: both are falsy. */
  function GuardedKeys(owner: Owner, network: NetworkId, account: AccountId, deployId: string, id: Id): map<string, Owner> {
    map[AccountKey(network, account) := owner]
    + (if deployId != "" then map[DeployKey(network, deployId) := owner] else map[])
    + (if id != "" then map[ReservationKey(id) := owner] else map[])
  }

  function ActionRun(kind: Kind, network: NetworkId, account: AccountId, deployId: string, id: Id): Run<Owner> {
    var owner := Owner(kind, network, Some(account));
    Run(GuardedKeys(owner, network, account, deployId, id), Some(Scope(NetworkKey(network), Shared, owner)))
  }

  function NetworkRun(network: NetworkId): Run<Owner> {
    Run(map[], Some(Scope(NetworkKey(network), Exclusive, Owner(Cleanup, network, None))))
  }
}

/** The reservation actions of one open wallet, interleaved. A step is the code
    between two awaits: it starts an action, resumes one, answers what one awaits,
    fires a timer or poller, or closes the wallet. */
module ReservationProtocol {
  import opened Common
  import opened OperationGuard
  import opened ReservationsManager
  import opened ReservedFunds
  import opened ReservationOperationGuard

  const RESERVATION_EXPIRATION_TIME := 5 * 60 * 1000

  /** What an action awaits, or which continuation of it is queued. */
  datatype Phase =
    | Balance                                // awaits getBalance
    | Signing                                // awaits the signature
    | Writing(r: Reservation)                // awaits the record's write
    | Written(r: Reservation)
    | Sent(r: Reservation)                   // awaits the node's answer
    | Accepted(r: Reservation)
    | Undecided(r: Reservation)              // failed without a verdict
    | Releasing(r: Reservation)              // awaits the refused record's deletion
    | Deleting                               // awaits the removed record's deletion
    | Deleted
    | Leaving                                // the exclusive section's finally block
    | Configuring                            // awaits the network's write
    | Configured
    | Cleaning(ids: set<Id>)                 // awaits the network's records' deletion
    | Ending                                 // the guard's finally block

  datatype Action = Action(
    kind: Kind, network: NetworkId, account: AccountId, deployId: string, id: Id,
    amount: nat,               // the payload's pendingAmount
    checkedOn: NetworkId,      // the network the balance check reads
    captured: int,             // reserved sum, read before the balance
    delta: int,                // what the check adds to it
    balance: int,              // the balance the check read
    phase: Phase)
  {
    function GuardRun(): Run<Owner> {
      if kind.Cleanup? then NetworkRun(network) else ActionRun(kind, network, account, deployId, id)
    }

    predicate InSection() {
      (kind.Update? || kind.Remove?) && !phase.Ending?
    }

    /** The new reservation of an add or a submission, before it is held. */
    function InFlight(): Option<Reservation> {
      if (kind.Add? || kind.Submit?) && (phase.Writing? || phase.Written? || phase.Sent? || phase.Accepted? || phase.Undecided? || phase.Releasing?)
      then Some(phase.r) else None
    }

    /** The reservation this action alone may touch. */
    function OwnId(): Option<Id> {
      if InSection() then Some(id) else if InFlight().Some? then Some(InFlight().value.id) else None
    }

    predicate ChecksFunds() {
      && !kind.Remove? && !kind.Cleanup?
      && (phase.Balance? || phase.Signing? || phase.Writing? || phase.Written? || phase.Sent? || phase.Accepted? || phase.Undecided?)
    }
  }

  /** Why a record may be gone, other than by confirmation or expiry. */
  datatype Verdict = Rejected | NeverSent | RemovedByUser | NetworkCleaned

  /** What the actions share: the manager, the table of records, the networks,
      the clock; and, for the statements, what has happened so far. */
  datatype World = World(
    m: Manager,
    stored: map<Id, Reservation>,
    current: NetworkId,
    networks: set<NetworkId>,
    now: int,
    used: set<Id>,                // every reservation id generated so far
    sent: set<Id>,                // reservations whose deploy was sent
    verdicts: map<Id, Verdict>)
  {
    ghost function Captured(account: AccountId): int {
      Reserved(m.items, account, current)
    }

    predicate Duplicate(deployId: string, network: NetworkId, excluded: Id) {
      exists id :: id in m.items && m.items[id].deployId == deployId && m.items[id].networkId == network && id != excluded
    }

    function NewReservation(a: Action, id: Id, deployId: string): Reservation {
      Reservation(id, a.account, a.network, deployId, a.amount, now + RESERVATION_EXPIRATION_TIME)
    }

    function Hold(r: Reservation): World {
      this.(m := m.Add(r, now, networks))
    }
  }

  datatype State = State(guard: GuardState<Owner>, actions: map<Token, Action>, nextToken: Token, w: World)
  {
    function With(t: Token, a: Action, w': World): State {
      this.(actions := actions[t := a], w := w')
    }

    function Enter(a: Action, w': World): State {
      State(guard.Acquire(a.GuardRun(), nextToken), actions[nextToken := a], nextToken + 1, w')
    }

    /** Acquire the guard and enter, or refuse and change nothing. */
    function TryEnter(a: Action, w': World): State {
      if guard.Refuses(a.GuardRun()) then this else Enter(a, w')
    }

    ghost function AddAction(network: NetworkId, account: AccountId, amount: nat, deployId: string): Action {
      Action(Add, network, account, deployId, "", amount, w.current, w.Captured(account), amount, 0,
             if w.Duplicate(deployId, network, "") then Ending else Balance)
    }

    ghost function SubmitAction(account: AccountId, amount: nat): Action {
      Action(Submit, w.current, account, "", "", amount, w.current, w.Captured(account), amount, 0, Balance)
    }

    /** `update` enters the exclusive section first and validates inside it; an
        unknown id throws before that. */
    ghost function UpdateAction(id: Id, network: NetworkId, account: AccountId, amount: nat, deployId: string): Action {
      var a := Action(Update, network, account, deployId, id, amount, w.current, w.Captured(account), 0, 0, Ending);
      if id !in w.m.items then a
      else
        var r := w.m.items[id];
        var valid := r.accountId == account && r.networkId == network && !w.Duplicate(deployId, network, id);
        a.(delta := amount - r.pendingAmount, phase := if valid then Balance else Leaving)
    }

    ghost function StartUpdate(id: Id, network: NetworkId, account: AccountId, amount: nat, deployId: string): State {
      var a := UpdateAction(id, network, account, amount, deployId);
      TryEnter(a, if a.phase.Ending? then w else w.(m := w.m.BeginExclusive(id)))
    }

    function RemoveAction(id: Id): Action
      requires id in w.m.items
    {
      Action(Remove, w.m.items[id].networkId, w.m.items[id].accountId, "", id, 0, w.current, 0, 0, 0, Deleting)
    }

    /** `remove` reads its target before it enters the guard; an unknown id throws. */
    function StartRemove(id: Id): State {
      if id !in w.m.items then this else TryEnter(RemoveAction(id), w.(m := w.m.BeginExclusive(id)))
    }

    function CleanupAction(network: NetworkId): Action {
      Action(Cleanup, network, "", "", "", 0, w.current, 0, 0, 0, Configuring)
    }

    /** The balance arrives, or fails to; an add then generates its id. */
    function BalanceRead(t: Token, balance: Option<int>, newId: Id): State
      requires t in actions && actions[t].phase.Balance? && newId !in w.used
    {
      var a := actions[t];
      if balance.None? || balance.value - (a.captured + a.delta) < 0 then
        With(t, a.(phase := if a.kind.Update? then Leaving else Ending), w)
      else
        var b := a.(balance := balance.value);
        match a.kind
        case Add => With(t, b.(phase := Writing(w.NewReservation(a, newId, a.deployId))), w.(used := w.used + {newId}))
        case Update => With(t, b.(phase := Writing(w.NewReservation(a, a.id, a.deployId))), w)
        case _ => With(t, b.(phase := Signing), w)
    }

    /** The deploy is signed, or not; its signature is the deploy id. */
    function SignatureRead(t: Token, signature: Option<string>, newId: Id): State
      requires t in actions && actions[t].phase.Signing? && newId !in w.used
    {
      var a := actions[t];
      if signature.None? then With(t, a.(phase := Ending), w)
      else With(t, a.(phase := Writing(w.NewReservation(a, newId, signature.value))), w.(used := w.used + {newId}))
    }

    /** The record is saved or updated, or the write failed. */
    function RecordWritten(t: Token, ok: bool): State
      requires t in actions && actions[t].phase.Writing?
    {
      var a := actions[t];
      var r := a.phase.r;
      if !ok || (a.kind.Update? && r.id !in w.stored) then With(t, a.(phase := if a.kind.Update? then Leaving else Ending), w)
      else With(t, a.(phase := Written(r)), w.(stored := w.stored[r.id := r]))
    }

    /** The continuation after a write: hold, replace, or send. */
    function ResumeWritten(t: Token): State
      requires t in actions && actions[t].phase.Written?
    {
      var a := actions[t];
      var r := a.phase.r;
      match a.kind
      case Update => With(t, a.(phase := Leaving), w.(m := w.m.Replace(r)))
      case Submit =>
        if w.m.active then With(t, a.(phase := Sent(r)), w.(sent := w.sent + {r.id}))
        else With(t, a.(phase := Releasing(r)), w.(verdicts := w.verdicts[r.id := NeverSent]))
      case _ => With(t, a.(phase := Ending), w.Hold(r))
    }

    /** The node accepts, rejects, or leaves the outcome unknown. */
    function NodeAnswered(t: Token, answer: Option<bool>): State
      requires t in actions && actions[t].phase.Sent?
    {
      var a := actions[t];
      var r := a.phase.r;
      match answer
      case Some(true) => With(t, a.(phase := Accepted(r)), w)
      case Some(false) => With(t, a.(phase := Releasing(r)), w.(verdicts := w.verdicts[r.id := Rejected]))
      case None => With(t, a.(phase := Undecided(r)), w)
    }

    /** An accepted or undecided submission is held. */
    function ResumeAnswered(t: Token): State
      requires t in actions && (actions[t].phase.Accepted? || actions[t].phase.Undecided?)
    {
      With(t, actions[t].(phase := Ending), w.Hold(actions[t].phase.r))
    }

    /** A refused submission's record is deleted; a failed deletion is only logged. */
    function RefusedErased(t: Token, ok: bool): State
      requires t in actions && actions[t].phase.Releasing?
    {
      var a := actions[t];
      With(t, a.(phase := Ending), if ok then w.(stored := w.stored - {a.phase.r.id}) else w)
    }

    function RemovedErased(t: Token, ok: bool): State
      requires t in actions && actions[t].phase.Deleting?
    {
      var a := actions[t];
      if !ok then With(t, a.(phase := Leaving), w)
      else With(t, a.(phase := Deleted), w.(stored := w.stored - {a.id}, verdicts := w.verdicts[a.id := RemovedByUser]))
    }

    function ResumeDeleted(t: Token): State
      requires t in actions && actions[t].phase.Deleted?
    {
      With(t, actions[t].(phase := Leaving), w.(m := w.m.Drop(actions[t].id)))
    }

    function LeaveSection(t: Token): State
      requires t in actions && actions[t].phase.Leaving?
    {
      With(t, actions[t].(phase := Ending), w.(m := w.m.EndExclusive(actions[t].id, w.now, w.networks)))
    }

    /** The network's new configuration is stored and applied; a removal may move
        the current network to another one. */
    function NetworkWritten(t: Token, changed: bool, removed: bool, fallback: NetworkId): State
      requires t in actions && actions[t].phase.Configuring?
    {
      var a := actions[t];
      var applied := if removed
        then w.(networks := w.networks - {a.network}, current := if w.current == a.network then fallback else w.current)
        else w;
      With(t, a.(phase := if changed || removed then Configured else Ending), applied)
    }

    function ResumeConfigured(t: Token): State
      requires t in actions && actions[t].phase.Configured?
    {
      var a := actions[t];
      var ids := w.m.OnNetwork(a.network);
      With(t, a.(phase := Cleaning(ids)),
           w.(m := w.m.RemoveByNetwork(a.network), verdicts := w.verdicts + map id | id in ids :: NetworkCleaned))
    }

    function CleanedErased(t: Token, ok: bool): State
      requires t in actions && actions[t].phase.Cleaning?
    {
      var a := actions[t];
      With(t, a.(phase := Ending), if ok then w.(stored := w.stored - a.phase.ids) else w)
    }

    /** The guard's finally block. */
    function Leave(t: Token): State
      requires t in actions && actions[t].phase.Ending?
    {
      this.(guard := guard.Release(actions[t].GuardRun(), t), actions := actions - {t})
    }
  }

  /** One step of the system, with everything the environment decides. */
  datatype Step =
    | StartAdd(network: NetworkId, account: AccountId, amount: nat, deployId: string)
    | StartSubmit(account: AccountId, amount: nat)
    | StartUpdate(id: Id, network: NetworkId, account: AccountId, amount: nat, deployId: string)
    | StartRemove(id: Id)
    | StartCleanup(network: NetworkId)
    | BalanceRead(t: Token, balance: Option<int>, newId: Id)
    | SignatureRead(t: Token, signature: Option<string>, newId: Id)
    | RecordWritten(t: Token, ok: bool)
    | ResumeWritten(t: Token)
    | NodeAnswered(t: Token, answer: Option<bool>)
    | ResumeAnswered(t: Token)
    | RefusedErased(t: Token, ok: bool)
    | RemovedErased(t: Token, ok: bool)
    | ResumeDeleted(t: Token)
    | LeaveSection(t: Token)
    | NetworkWritten(t: Token, changed: bool, removed: bool, fallback: NetworkId)
    | ResumeConfigured(t: Token)
    | CleanedErased(t: Token, ok: bool)
    | Leave(t: Token)
    | Confirmed(h: Handle)
    | WatchFailed(h: Handle)
    | TimerFired(h: Handle)
    | ReleaseErased(id: Id)       // releaseFromStorage of a confirmed or expired one
    | Close
    | SwitchNetwork(network: NetworkId)
    | Tick(now: int)

  ghost predicate Enabled(s: State, step: Step) {
    match step
    case StartUpdate(id, _, _, _, _) => id != ""
    case StartRemove(id) => id != ""
    case BalanceRead(t, _, newId) => t in s.actions && s.actions[t].phase.Balance? && newId !in s.w.used
    case SignatureRead(t, _, newId) => t in s.actions && s.actions[t].phase.Signing? && newId !in s.w.used
    case RecordWritten(t, _) => t in s.actions && s.actions[t].phase.Writing?
    case ResumeWritten(t) => t in s.actions && s.actions[t].phase.Written?
    case NodeAnswered(t, _) => t in s.actions && s.actions[t].phase.Sent?
    case ResumeAnswered(t) => t in s.actions && (s.actions[t].phase.Accepted? || s.actions[t].phase.Undecided?)
    case RefusedErased(t, _) => t in s.actions && s.actions[t].phase.Releasing?
    case RemovedErased(t, _) => t in s.actions && s.actions[t].phase.Deleting?
    case ResumeDeleted(t) => t in s.actions && s.actions[t].phase.Deleted?
    case LeaveSection(t) => t in s.actions && s.actions[t].phase.Leaving?
    case NetworkWritten(t, _, removed, fallback) =>
      && t in s.actions && s.actions[t].phase.Configuring?
      && (removed && s.w.current == s.actions[t].network ==> fallback in s.w.networks - {s.actions[t].network})
    case ResumeConfigured(t) => t in s.actions && s.actions[t].phase.Configured?
    case CleanedErased(t, _) => t in s.actions && s.actions[t].phase.Cleaning?
    case Leave(t) => t in s.actions && s.actions[t].phase.Ending?
    case Confirmed(h) => h in s.w.m.live
    case WatchFailed(h) => h in s.w.m.live
    case TimerFired(h) => h in s.w.m.armed && s.w.m.armed[h].due <= s.w.now
    case ReleaseErased(id) => id in s.w.m.released
    case SwitchNetwork(network) => network in s.w.networks
    case Tick(now) => s.w.now <= now
    case _ => true
  }

  ghost function Next(s: State, step: Step): State
    requires Enabled(s, step)
  {
    match step
    case StartAdd(network, account, amount, deployId) => s.TryEnter(s.AddAction(network, account, amount, deployId), s.w)
    case StartSubmit(account, amount) => s.TryEnter(s.SubmitAction(account, amount), s.w)
    case StartUpdate(id, network, account, amount, deployId) => s.StartUpdate(id, network, account, amount, deployId)
    case StartRemove(id) => s.StartRemove(id)
    case StartCleanup(network) => s.TryEnter(s.CleanupAction(network), s.w)
    case BalanceRead(t, balance, newId) => s.BalanceRead(t, balance, newId)
    case SignatureRead(t, signature, newId) => s.SignatureRead(t, signature, newId)
    case RecordWritten(t, ok) => s.RecordWritten(t, ok)
    case ResumeWritten(t) => s.ResumeWritten(t)
    case NodeAnswered(t, answer) => s.NodeAnswered(t, answer)
    case ResumeAnswered(t) => s.ResumeAnswered(t)
    case RefusedErased(t, ok) => s.RefusedErased(t, ok)
    case RemovedErased(t, ok) => s.RemovedErased(t, ok)
    case ResumeDeleted(t) => s.ResumeDeleted(t)
    case LeaveSection(t) => s.LeaveSection(t)
    case NetworkWritten(t, changed, removed, fallback) => s.NetworkWritten(t, changed, removed, fallback)
    case ResumeConfigured(t) => s.ResumeConfigured(t)
    case CleanedErased(t, ok) => s.CleanedErased(t, ok)
    case Leave(t) => s.Leave(t)
    case Confirmed(h) => s.(w := s.w.(m := s.w.m.Confirmed(h)))
    case WatchFailed(h) => s.(w := s.w.(m := s.w.m.Failed(h)))
    case TimerFired(h) => s.(w := s.w.(m := s.w.m.Expired(h)))
    case ReleaseErased(id) => s.(w := s.w.(stored := s.w.stored - {id}))
    case Close => s.(w := s.w.(m := s.w.m.Close()))
    case SwitchNetwork(network) => s.(w := s.w.(current := network))
    case Tick(now) => s.(w := s.w.(now := now))
  }

  /** The wallet just opened: its restored reservations are held, watched and stored, nothing
      runs, and the selected network is a configured one. */
  ghost predicate Init(s: State) {
    && s.guard == Idle<Owner>() && s.actions == map[] && s.nextToken == 0
    && WellFormed(s.w.m, s.w.networks) && s.w.m.exclusive == {} && s.w.m.released !! s.w.m.items.Keys
    && s.w.m.watchers.Keys == s.w.m.items.Keys
    && (forall id :: id in s.w.m.items ==> id in s.w.stored && s.w.stored[id] == s.w.m.items[id])
    && s.w.used == s.w.stored.Keys + s.w.m.released
    && s.w.sent == {} && s.w.verdicts == map[] && s.w.current in s.w.networks
  }
}

/** The client's lifecycle guard and the wallets in memory. `run` is three atomic
    sections: the call, the `finally` block of `track`, and the check of the
    generation; an exclusive action is its start, the end of its drain, and its own
    end. */
module LifecycleGuard {
  import opened Common

  type Token = nat
  type WalletId = string

  /** What an exclusive action is doing: a drain waits for the operations pending
      when it began, or for its timeout. */
  datatype Exclusive = Draining(awaited: set<Token>) | Drained(timedOut: bool)

  datatype Runtime = Runtime(
    generation: nat, pending: set<Token>, exclusive: Option<Exclusive>,
    wallets: map<WalletId, Token>)       // each wallet with the operation that published it
  {
    function Track(t: Token): Runtime { this.(pending := pending + {t}) }

    function Untrack(t: Token): Runtime { this.(pending := pending - {t}) }

    /** Wallet manager's `add`: the last step of creating, importing or opening. */
    function Publish(w: WalletId, t: Token): Runtime { this.(wallets := wallets[w := t]) }

    function Discard(w: WalletId): Runtime { this.(wallets := wallets - {w}) }

    /** resetRuntimeState: a new generation without wallets. */
    function Reset(): Runtime { this.(generation := generation + 1, wallets := map[]) }

    function BeginDrain(): Runtime {
      this.(exclusive := Some(if pending == {} then Drained(false) else Draining(pending)))
    }
  }

  // ---- Interleavings ----

  /** Where a call of `run` is: its operation runs, has published its wallet and sets
      it up, has settled, or has left the pending set. */
  datatype Phase =
    | Operating
    | Published(wallet: WalletId)
    | Settled(result: Option<WalletId>)
    | Untracked(result: Option<WalletId>)

  datatype Call = Call(started: nat, phase: Phase) {
    /** The wallet this call may still undo. */
    predicate MayUndo(w: WalletId) {
      || (phase.Published? && phase.wallet == w)
      || ((phase.Settled? || phase.Untracked?) && phase.result == Some(w))
    }
  }

  /** `calls` are the unsettled calls of `run`; `began` the generation each call
      started in, settled or not. */
  datatype State = State(runtime: Runtime, calls: map<Token, Call>, began: map<Token, nat>, next: Token)

  datatype Step =
    | StartRun
    | Publish(t: Token, w: WalletId)
    | Settle(t: Token, ok: bool)           // the operation, or its wallet's setup, ends
    | LeaveTrack(t: Token)
    | LeaveRun(t: Token)
    | CloseWallet(w: WalletId)
    | ResetAll                             // closeAllWallets, or closing the client
    | StartRemoveWallet(w: WalletId)
    | StartClearPersistence
    | EndDrain(timedOut: bool)
    | EndExclusive

  ghost predicate Enabled(s: State, step: Step) {
    match step
    case Publish(t, _) => t in s.calls && s.calls[t].phase.Operating?
    case Settle(t, _) => t in s.calls && (s.calls[t].phase.Operating? || s.calls[t].phase.Published?)
    case LeaveTrack(t) => t in s.calls && s.calls[t].phase.Settled?
    case LeaveRun(t) => t in s.calls && s.calls[t].phase.Untracked?
    case EndDrain(timedOut) =>
      s.runtime.exclusive.Some? && s.runtime.exclusive.value.Draining?
      && (timedOut || s.runtime.exclusive.value.awaited !! s.runtime.pending)
    case EndExclusive => s.runtime.exclusive.Some? && s.runtime.exclusive.value.Drained?
    case _ => true
  }

  ghost function Next(s: State, step: Step): State
    requires Enabled(s, step)
  {
    var r := s.runtime;
    match step
    case StartRun =>
      if r.exclusive.Some? then s
      else s.(runtime := r.Track(s.next), calls := s.calls[s.next := Call(r.generation, Operating)],
              began := s.began[s.next := r.generation], next := s.next + 1)
    case Publish(t, w) => s.(runtime := r.Publish(w, t), calls := s.calls[t := s.calls[t].(phase := Published(w))])
    case Settle(t, ok) =>
      var phase := s.calls[t].phase;
      var result := if phase.Published? && ok then Some(phase.wallet) else None;
      s.(runtime := if phase.Published? && !ok then r.Discard(phase.wallet) else r,
         calls := s.calls[t := s.calls[t].(phase := Settled(result))])
    case LeaveTrack(t) =>
      s.(runtime := r.Untrack(t), calls := s.calls[t := s.calls[t].(phase := Untracked(s.calls[t].phase.result))])
    case LeaveRun(t) =>
      var c := s.calls[t];
      s.(runtime := if c.started != r.generation && c.phase.result.Some? then r.Discard(c.phase.result.value) else r,
         calls := s.calls - {t})
    case CloseWallet(w) => s.(runtime := r.Discard(w))
    case ResetAll => s.(runtime := r.Reset())
    case StartRemoveWallet(w) =>
      if r.exclusive.Some? || w !in r.wallets then s else s.(runtime := r.Discard(w).BeginDrain())
    case StartClearPersistence => if r.exclusive.Some? then s else s.(runtime := r.Reset().BeginDrain())
    case EndDrain(timedOut) => s.(runtime := r.(exclusive := Some(Drained(timedOut))))
    case EndExclusive => s.(runtime := r.(exclusive := None))
  }

  ghost predicate Init(s: State) {
    s.runtime == Runtime(0, {}, None, map[]) && s.calls == map[] && s.began == map[] && s.next == 0
  }

  /** The guard with the wallets, and the calls of `run` in flight with their locals.
      Every method is one step of the machine. */
  class ClientLifecycleGuard {
    var generation: nat
    var pendingOperations: set<Token>
    var exclusive: Option<Exclusive>
    var walletManager: map<WalletId, Token>
    var calls: map<Token, Call>
    var nextToken: Token
    ghost var began: map<Token, nat>

    ghost function Snapshot(): State
      reads this
    {
      State(Runtime(generation, pendingOperations, exclusive, walletManager), calls, began, nextToken)
    }

    constructor ()
      ensures Init(Snapshot())
    {
      generation, pendingOperations, exclusive, walletManager := 0, {}, None, map[];
      calls, nextToken, began := map[], 0, map[];
    }

    /** The call of `run`, unless suspended: it is tracked, with the generation it
        will check against. */
    method BeginRun() returns (ok: bool, t: Token)
      modifies this`pendingOperations, this`calls, this`nextToken, this`began
      ensures Snapshot() == Next(old(Snapshot()), StartRun)
      ensures ok == old(exclusive).None? && (ok ==> t == old(nextToken) && t in pendingOperations)
    {
      t := nextToken;
      ok := exclusive.None?;
      if ok {
        nextToken := nextToken + 1;
        pendingOperations := pendingOperations + {t};
        calls, began := calls[t := Call(generation, Operating)], began[t := generation];
      }
    }

    /** Wallet manager's `add`, inside the operation. */
    method AddWallet(t: Token, w: WalletId)
      requires Enabled(Snapshot(), Publish(t, w))
      modifies this`walletManager, this`calls
      ensures Snapshot() == Next(old(Snapshot()), Publish(t, w))
    {
      walletManager := walletManager[w := t];
      calls := calls[t := calls[t].(phase := Published(w))];
    }

    /** The operation ends; a wallet whose setup failed is taken back. */
    method EndOperation(t: Token, ok: bool)
      requires Enabled(Snapshot(), Settle(t, ok))
      modifies this`walletManager, this`calls
      ensures Snapshot() == Next(old(Snapshot()), Settle(t, ok))
    {
      var result := None;
      if calls[t].phase.Published? {
        if ok { result := Some(calls[t].phase.wallet); } else { DiscardWallet(calls[t].phase.wallet); }
      }
      calls := calls[t := calls[t].(phase := Settled(result))];
    }

    /** The `finally` block of `track`. */
    method EndTrack(t: Token)
      requires Enabled(Snapshot(), LeaveTrack(t))
      modifies this`pendingOperations, this`calls
      ensures Snapshot() == Next(old(Snapshot()), LeaveTrack(t))
    {
      pendingOperations := pendingOperations - {t};
      calls := calls[t := calls[t].(phase := Untracked(calls[t].phase.result))];
    }

    method DiscardWallet(w: WalletId)
      modifies this`walletManager
      ensures Snapshot() == Next(old(Snapshot()), CloseWallet(w))
    {
      if w in walletManager { walletManager := walletManager - {w}; }
    }

    /** The rest of `run`: an operation of an older generation is undone. */
    method EndRun(t: Token) returns (ok: bool)
      requires Enabled(Snapshot(), LeaveRun(t))
      modifies this`walletManager, this`calls
      ensures Snapshot() == Next(old(Snapshot()), LeaveRun(t))
      ensures ok == (old(calls)[t].started == generation) && (ok ==> walletManager == old(walletManager))
    {
      var published := calls[t].phase.result;
      ok := calls[t].started == generation;
      if !ok && published.Some? { DiscardWallet(published.value); }
      calls := calls - {t};
    }

    method ResetRuntimeState()
      modifies this`generation, this`walletManager
      ensures Snapshot() == Next(old(Snapshot()), ResetAll)
    {
      generation := generation + 1;
      walletManager := map[];
    }

    /** removeWallet up to its drain; false when suspended or the wallet is unknown. */
    method BeginRemoveWallet(w: WalletId) returns (ok: bool)
      modifies this`walletManager, this`exclusive
      ensures Snapshot() == Next(old(Snapshot()), StartRemoveWallet(w))
      ensures ok == (old(exclusive).None? && w in old(walletManager))
      ensures ok ==> walletManager == old(walletManager) - {w} && exclusive.Some?
    {
      ok := exclusive.None? && w in walletManager;
      if ok {
        walletManager := walletManager - {w};
        BeginDrain();
      }
    }

    /** clearPersistence up to its drain; false when suspended. */
    method BeginClearPersistence() returns (ok: bool)
      modifies this`generation, this`walletManager, this`exclusive
      ensures Snapshot() == Next(old(Snapshot()), StartClearPersistence)
      ensures ok == old(exclusive).None? && (ok ==> walletManager == map[] && exclusive.Some?)
    {
      ok := exclusive.None?;
      if ok {
        ResetRuntimeState();
        BeginDrain();
      }
    }

    /** The drain takes the operations pending now; with none it is over. */
    method BeginDrain()
      modifies this`exclusive
      ensures Snapshot() == old(Snapshot()).(runtime := old(Snapshot()).runtime.BeginDrain())
    {
      exclusive := Some(if pendingOperations == {} then Drained(false) else Draining(pendingOperations));
    }

    method FinishDrain(timedOut: bool)
      requires Enabled(Snapshot(), EndDrain(timedOut))
      modifies this`exclusive
      ensures Snapshot() == Next(old(Snapshot()), EndDrain(timedOut))
    {
      exclusive := Some(Drained(timedOut));
    }

    method Resume()
      requires Enabled(Snapshot(), EndExclusive)
      modifies this`exclusive
      ensures Snapshot() == Next(old(Snapshot()), EndExclusive)
    {
      exclusive := None;
    }
  }

  /** Each pending operation is that of a call not yet past `track`. */
  ghost predicate CallsOk(s: State) {
    && (forall t :: t in s.runtime.pending <==> t in s.calls && !s.calls[t].phase.Untracked?)
    && (forall t :: t in s.calls ==> t in s.began && s.began[t] == s.calls[t].started && t < s.next)
    && (forall t :: t in s.began ==> s.began[t] <= s.runtime.generation && t < s.next)
  }

  /** A wallet in memory was published by a call that may still undo it, or that
      started in the current generation. */
  ghost predicate WalletsOk(s: State) {
    forall w :: w in s.runtime.wallets ==>
      var t := s.runtime.wallets[w];
      t in s.began && (s.began[t] == s.runtime.generation || (t in s.calls && s.calls[t].MayUndo(w)))
  }

  ghost predicate DrainOk(s: State) {
    s.runtime.exclusive.Some? ==>
      match s.runtime.exclusive.value
      case Draining(awaited) => s.runtime.pending <= awaited
      case Drained(timedOut) => timedOut || s.runtime.pending == {}
  }

  ghost predicate Inv(s: State) { CallsOk(s) && WalletsOk(s) && DrainOk(s) }

  lemma StepKeepsCalls(s: State, step: Step)
    requires Inv(s) && Enabled(s, step)
    ensures CallsOk(Next(s, step)) && DrainOk(Next(s, step))
  {}

  lemma StepKeepsWallets(s: State, step: Step)
    requires Inv(s) && Enabled(s, step)
    ensures WalletsOk(Next(s, step))
  {
    var s' := Next(s, step);
    forall w | w in s'.runtime.wallets
      ensures var t := s'.runtime.wallets[w];
              t in s'.began && (s'.began[t] == s'.runtime.generation || (t in s'.calls && s'.calls[t].MayUndo(w)))
    {
      if !step.Publish? || step.w != w { assert w in s.runtime.wallets; }
    }
  }

  // ---- Every run ----

  ghost predicate IsRun(states: seq<State>, steps: seq<Step>) {
    && |states| == |steps| + 1
    && Init(states[0])
    && forall i :: 0 <= i < |steps| ==> Enabled(states[i], steps[i]) && states[i + 1] == Next(states[i], steps[i])
  }

  lemma {:induction false} EveryReachableStateHasInv(states: seq<State>, steps: seq<Step>, i: nat)
    requires IsRun(states, steps) && i < |states|
    ensures Inv(states[i])
  {
    hide Enabled, Next;
    if i > 0 {
      EveryReachableStateHasInv(states, steps, i - 1);
      StepKeepsCalls(states[i - 1], steps[i - 1]);
      StepKeepsWallets(states[i - 1], steps[i - 1]);
    }
  }

  /** In every run, a wallet in memory was published by an operation that is still
      unsettled or that started in the current generation. */
  lemma WalletsAreCurrent(states: seq<State>, steps: seq<Step>, i: nat, w: WalletId)
    requires IsRun(states, steps) && i < |states| && w in states[i].runtime.wallets
    ensures var s := states[i];
            var t := s.runtime.wallets[w];
            t in s.began && (t in s.calls || s.began[t] == s.runtime.generation)
  {
    EveryReachableStateHasInv(states, steps, i);
  }

  /** When no call is unsettled, no wallet of an older generation is left. */
  lemma SettledLeavesNoStaleWallet(states: seq<State>, steps: seq<Step>, i: nat)
    requires IsRun(states, steps) && i < |states| && states[i].calls == map[]
    ensures var s := states[i];
            forall w :: w in s.runtime.wallets ==>
              s.runtime.wallets[w] in s.began && s.began[s.runtime.wallets[w]] == s.runtime.generation
  {
    EveryReachableStateHasInv(states, steps, i);
  }

  /** Once an exclusive action's drain has ended without timing out, no tracked
      operation is pending, and none starts, until that action ends. */
  lemma {:induction false} NothingPendingAfterDrain(states: seq<State>, steps: seq<Step>, i: nat, j: nat)
    requires IsRun(states, steps) && i <= j < |states| && states[i].runtime.exclusive == Some(Drained(false))
    requires forall k :: i <= k < j ==> !steps[k].EndExclusive?
    ensures states[j].runtime.exclusive == Some(Drained(false)) && states[j].runtime.pending == {}
  {
    if i < j { NothingPendingAfterDrain(states, steps, i, j - 1); }
    EveryReachableStateHasInv(states, steps, j);
  }

  // ---- What comes and goes ----

  /** The step forgets every wallet: closing all, closing the client, or clearing its
      storage unless suspended. */
  ghost predicate Resets(s: State, step: Step) {
    step.ResetAll? || (step.StartClearPersistence? && s.runtime.exclusive.None?)
  }

  /** Call `t` has started, and a reset came since. */
  ghost predicate IsOverrun(states: seq<State>, steps: seq<Step>, i: nat, t: Token)
    requires |states| == |steps| + 1 && i < |states|
  {
    exists j :: 0 <= j < i && ResetsBegun(states[j], steps[j], t)
  }

  ghost predicate ResetsBegun(s: State, step: Step, t: Token) {
    t in s.began && Resets(s, step)
  }

  lemma StepCountsResets(s: State, step: Step, t: Token)
    requires Inv(s) && Enabled(s, step)
    ensures var s' := Next(s, step);
            && (t in s.began ==> t in s'.began && s'.began[t] == s.began[t])
            && s'.runtime.generation == s.runtime.generation + (if Resets(s, step) then 1 else 0)
            && (t in s'.began && t !in s.began ==> s'.began[t] == s.runtime.generation && !Resets(s, step))
  {}

  /** A call's generation has passed exactly when a reset came since it started. */
  lemma {:induction false} OldIffOverrun(states: seq<State>, steps: seq<Step>, i: nat, t: Token)
    requires IsRun(states, steps) && i < |states| && t in states[i].began
    ensures states[i].began[t] != states[i].runtime.generation <==> IsOverrun(states, steps, i, t)
  {
    hide Enabled, Next, Init, Inv, Resets;
    EveryReachableStateHasInv(states, steps, i);
    if i == 0 {
      NoneBegun(states[0]);
    } else {
      var s, step := states[i - 1], steps[i - 1];
      EveryReachableStateHasInv(states, steps, i - 1);
      StepCountsResets(s, step, t);
      if t in s.began {
        OldIffOverrun(states, steps, i - 1, t);
        BegunIsNotNewer(s, t);
        if Resets(s, step) { assert ResetsBegun(states[i - 1], steps[i - 1], t); }
      } else {
        forall j | 0 <= j < i ensures !ResetsBegun(states[j], steps[j], t) { BegunStays(states, steps, j, i - 1, t); }
      }
    }
  }

  lemma NoneBegun(s: State)
    requires Init(s)
    ensures s.began == map[]
  {}

  lemma BegunIsNotNewer(s: State, t: Token)
    requires Inv(s) && t in s.began
    ensures s.began[t] <= s.runtime.generation
  {}

  lemma {:induction false} BegunStays(states: seq<State>, steps: seq<Step>, i: nat, j: nat, t: Token)
    requires IsRun(states, steps) && i <= j < |states|
    ensures t in states[i].began ==> t in states[j].began
  {
    hide Enabled, Next, Init, Inv;
    if i < j {
      BegunStays(states, steps, i, j - 1, t);
      EveryReachableStateHasInv(states, steps, j - 1);
      StepCountsResets(states[j - 1], steps[j - 1], t);
    }
  }

  /** Why a wallet may leave memory: it is closed or removed, all are reset, its
      setup failed, or the call that returns it was overrun by a reset. */
  ghost predicate HasReason(states: seq<State>, steps: seq<Step>, i: nat, w: WalletId)
    requires |states| == |steps| + 1 && i < |steps|
  {
    var s := states[i];
    match steps[i]
    case CloseWallet(v) => v == w
    case StartRemoveWallet(v) => v == w
    case Settle(t, ok) => !ok && t in s.calls && s.calls[t].phase == Published(w)
    case LeaveRun(t) => t in s.calls && s.calls[t].phase == Untracked(Some(w)) && IsOverrun(states, steps, i, t)
    case _ => Resets(s, steps[i])
  }

  /** In every run a wallet leaves memory for one of these reasons only, and a new one
      comes only by being published. */
  lemma WalletsLeaveForAReason(states: seq<State>, steps: seq<Step>, i: nat, w: WalletId)
    requires IsRun(states, steps) && i < |steps|
    ensures w in states[i].runtime.wallets && w !in states[i + 1].runtime.wallets ==> HasReason(states, steps, i, w)
    ensures w !in states[i].runtime.wallets && w in states[i + 1].runtime.wallets ==> steps[i].Publish? && steps[i].w == w
  {
    EveryReachableStateHasInv(states, steps, i);
    if steps[i].LeaveRun? { OldIffOverrun(states, steps, i, steps[i].t); }
    hide Init, IsOverrun;
  }

  /** What a call returns stays in memory exactly when no reset came since the call
      started; all other wallets stay in any case. */
  lemma ReturnedStaysIff(states: seq<State>, steps: seq<Step>, i: nat, t: Token, w: WalletId)
    requires IsRun(states, steps) && i < |steps| && steps[i] == LeaveRun(t)
    requires states[i].calls[t].phase == Untracked(Some(w))
    ensures w in states[i + 1].runtime.wallets <==> w in states[i].runtime.wallets && !IsOverrun(states, steps, i, t)
    ensures states[i + 1].runtime.wallets - {w} == states[i].runtime.wallets - {w}
  {
    EveryReachableStateHasInv(states, steps, i);
    OldIffOverrun(states, steps, i, t);
    hide Init, IsOverrun;
  }

  /** A wallet published before a reset is gone once its call is over. */
  lemma OverrunLeavesNothing(states: seq<State>, steps: seq<Step>, i: nat, t: Token)
    requires IsRun(states, steps) && i < |states| && t in states[i].began && IsOverrun(states, steps, i, t) && t !in states[i].calls
    ensures forall w :: w in states[i].runtime.wallets ==> states[i].runtime.wallets[w] != t
  {
    EveryReachableStateHasInv(states, steps, i);
    OldIffOverrun(states, steps, i, t);
    hide Init, IsOverrun;
  }

  ghost predicate Follows(states: seq<State>, steps: seq<Step>) {
    && |states| == |steps| + 1
    && forall i :: 0 <= i < |steps| ==> Enabled(states[i], steps[i]) && states[i + 1] == Next(states[i], steps[i])
  }

  /** A call that publishes its wallet, settles and returns with no step of another in
      between leaves its wallet in memory, and nothing else behind. */
  lemma PublishingCallCompletes(s: State, w: WalletId) returns (states: seq<State>)
    requires Inv(s) && s.runtime.exclusive.None?
    ensures Follows(states, [StartRun, Publish(s.next, w), Settle(s.next, true), LeaveTrack(s.next), LeaveRun(s.next)])
    ensures states[0] == s && forall i :: 1 <= i < 4 ==> s.next in states[i].runtime.pending
    ensures states[5].runtime == s.runtime.(wallets := s.runtime.wallets[w := s.next]) && states[5].calls == s.calls
  {
    var t := s.next;
    assert t !in s.calls && t !in s.runtime.pending;
    var s1 := Next(s, StartRun);
    var s2 := Next(s1, Publish(t, w));
    var s3 := Next(s2, Settle(t, true));
    var s4 := Next(s3, LeaveTrack(t));
    var s5 := Next(s4, LeaveRun(t));
    assert s.runtime.pending + {t} - {t} == s.runtime.pending;
    assert s.calls[t := Call(s.runtime.generation, Untracked(Some(w)))] - {t} == s.calls;
    hide Next, Enabled;
    states := [s, s1, s2, s3, s4, s5];
  }

  /** An exclusive action starts unless another runs; from then on until it ends no
      operation starts. */
  lemma ExclusiveSuspends(states: seq<State>, steps: seq<Step>, i: nat)
    requires IsRun(states, steps) && i < |steps|
    ensures var s, s' := states[i].runtime, states[i + 1].runtime;
            match steps[i]
            case StartRun => if s.exclusive.Some? then states[i + 1] == states[i] else s'.pending == s.pending + {states[i].next}
            case StartRemoveWallet(w) => s.exclusive.None? && w in s.wallets ==> s'.exclusive.Some? && s'.wallets == s.wallets - {w}
            case StartClearPersistence => s.exclusive.None? ==> s'.exclusive.Some? && s'.wallets == map[]
            case EndExclusive => s'.exclusive.None?
            case _ => s'.exclusive.Some? <==> s.exclusive.Some?
    ensures states[i].runtime.exclusive.None? && states[i + 1].runtime.exclusive.Some? ==>
              states[i + 1].runtime.exclusive.value
              == if states[i].runtime.pending == {} then Drained(false) else Draining(states[i].runtime.pending)
  {
    EveryReachableStateHasInv(states, steps, i);
  }
}

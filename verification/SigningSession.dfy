/** One timeout at a time, over the runtime's event loop. */
module AutoTimer {
  import opened Common

  type Handle = nat

  const LONGEST_DELAY := 0x7FFF_FFFF

  /** When a timeout set now will fire: the runtime turns a delay over 2^31-1 into 1. */
  function Due(now: int, delayMs: int): int {
    now + if delayMs > LONGEST_DELAY then 1 else delayMs
  }

  /** The timeouts still to fire, and the clock. */
  class EventLoop {
    var armed: map<Handle, int>
    var next: Handle
    var now: int

    constructor ()
      ensures armed == map[] && next == 0 && now == 0
    {
      armed, next, now := map[], 0, 0;
    }
  }

  class AutoTimerService {
    const delayMs: int
    const loop: EventLoop
    var timer: Option<Handle>

    constructor (delayMs: int, loop: EventLoop)
      ensures this.delayMs == delayMs && this.loop == loop && timer.None?
    {
      this.delayMs, this.loop, timer := delayMs, loop, None;
    }

    method Start()
      modifies this, loop
      ensures loop.now == old(loop.now)
      ensures var others := if old(timer).Some? then old(loop.armed) - {old(timer).value} else old(loop.armed);
              if delayMs <= 0 then timer.None? && loop.armed == others && loop.next == old(loop.next)
              else timer == Some(old(loop.next)) && loop.armed == others[old(loop.next) := Due(loop.now, delayMs)]
                   && loop.next == old(loop.next) + 1
    {
      Clear();
      if delayMs <= 0 { return; }
      timer := Some(loop.next);
      loop.armed := loop.armed[loop.next := Due(loop.now, delayMs)];
      loop.next := loop.next + 1;
    }

    method Clear()
      modifies this, loop`armed
      ensures timer.None?
      ensures loop.armed == if old(timer).Some? then old(loop.armed) - {old(timer).value} else old(loop.armed)
    {
      if timer.Some? {
        loop.armed := loop.armed - {timer.value};
        timer := None;
      }
    }

    /** The timeout fires; the owner's callback follows. */
    method Elapse()
      requires timer.Some? && timer.value in loop.armed
      modifies this, loop`armed
      ensures timer.None? && loop.armed == old(loop.armed) - {old(timer).value}
    {
      loop.armed := loop.armed - {timer.value};
      timer := None;
    }
  }
}

/** The unlocked secret of a signer: held for a limited time, wiped when it goes. */
module SigningSession {
  import opened Common
  import opened AutoTimer

  type Byte = b: int | 0 <= b < 256

  datatype Secret = Seed(phrase: string) | PrivateKey(key: array<Byte>)

  /** A session as a value: the generation, the secret held with its timeout, and
      the timeouts still to fire. */
  datatype Session = Session(generation: nat, held: Option<Held>, armed: map<Handle, int>, next: Handle) {
    function Release(): Session {
      if held.None? then this.(generation := generation + 1)
      else Session(generation + 1, None, armed - {held.value.timer}, next)
    }

    function Hold(current: nat, secret: Secret, dataKey: string, autoLockMs: int, now: int): Session {
      if current != generation then this
      else if autoLockMs <= 0 then Release()
      else
        var r := Release();
        Session(r.generation, Some(Held(secret, dataKey, r.next)), r.armed[r.next := Due(now, autoLockMs)], r.next + 1)
    }

    /** The timeout `h` fires. */
    function Elapse(h: Handle): Session
      requires h in armed
    {
      if held.Some? && held.value.timer == h then this.(armed := armed - {h}).Release() else this.(armed := armed - {h})
    }
  }

  datatype Held = Held(secret: Secret, dataKey: string, timer: Handle)

  datatype SessionState = SessionState(secret: Secret, dataKey: string, timer: AutoTimerService)

  ghost predicate IsWiped(key: array<Byte>)
    reads key
  {
    forall i :: 0 <= i < key.Length ==> key[i] == 0
  }

  class SigningSessionService {
    const loop: EventLoop
    var state: Option<SessionState>
    var generation: nat
    ghost var given: set<array<Byte>>      // every private key ever given to `hold`

    ghost function Timer(): set<AutoTimerService>
      reads this
    {
      if state.Some? then {state.value.timer} else {}
    }

    /** An active session has one timeout armed, its own; each key ever given is the
        one held, or zeroed. */
    ghost predicate Valid()
      reads this, loop, Timer(), given
    {
      && (state.Some? ==>
            var t := state.value.timer;
            t.loop == loop && t.timer.Some? && loop.armed.Keys == {t.timer.value} && t.timer.value < loop.next)
      && (state.None? ==> loop.armed == map[])
      && (forall k :: k in given ==> IsWiped(k) || (state.Some? && state.value.secret == PrivateKey(k)))
    }

    ghost function State(): Session
      requires Valid()
      reads this, loop, Timer(), given
    {
      Session(generation,
              if state.Some? then Some(Held(state.value.secret, state.value.dataKey, state.value.timer.timer.value)) else None,
              loop.armed, loop.next)
    }

    constructor (loop: EventLoop)
      requires loop.armed == map[]
      ensures Valid() && State() == Session(0, None, map[], loop.next) && given == {} && this.loop == loop
    {
      this.loop, state, generation, given := loop, None, 0, {};
    }

    static method WipeSecret(secret: Secret)
      modifies if secret.PrivateKey? then {secret.key} else {}
      ensures secret.PrivateKey? ==> IsWiped(secret.key)
    {
      if secret.PrivateKey? {
        var key := secret.key;
        for i := 0 to key.Length
          invariant forall j :: 0 <= j < i ==> key[j] == 0
        {
          key[i] := 0;
        }
      }
    }

    method Release()
      requires Valid()
      modifies this, loop, Timer(), if state.Some? && state.value.secret.PrivateKey? then {state.value.secret.key} else {}
      ensures Valid() && State() == old(State()).Release() && state.None?
      ensures given == old(given) && loop.now == old(loop.now)
      ensures forall k :: k in given ==> IsWiped(k)
    {
      generation := generation + 1;
      if state.None? { return; }
      state.value.timer.Clear();
      WipeSecret(state.value.secret);
      state := None;
      assert loop.armed == map[];
    }

    /** Refused, and the secret wiped, when the session was released since
        `currentGeneration` was read. */
    method Hold(currentGeneration: nat, secret: Secret, dataKey: string, autoLockMs: int) returns (ok: bool)
      requires Valid()
      modifies this, loop, Timer(), given, if secret.PrivateKey? then {secret.key} else {},
               if state.Some? && state.value.secret.PrivateKey? then {state.value.secret.key} else {}
      ensures Valid() && ok == (currentGeneration == old(generation))
      ensures State() == old(State()).Hold(currentGeneration, secret, dataKey, autoLockMs, old(loop.now))
      ensures given == old(given) + if secret.PrivateKey? then {secret.key} else {}
      ensures secret.PrivateKey? && (!ok || autoLockMs <= 0) ==> IsWiped(secret.key)
      ensures secret.PrivateKey? && ok && autoLockMs > 0 && old(state.None? || state.value.secret != secret) ==>
                secret.key[..] == old(secret.key[..])
    {
      if secret.PrivateKey? { given := given + {secret.key}; }
      if currentGeneration != generation {
        WipeSecret(secret);
        return false;
      }
      given := old(given);     // the new key is not held yet: it joins once the old one is released
      Release();
      if secret.PrivateKey? { given := given + {secret.key}; }
      if autoLockMs <= 0 {
        WipeSecret(secret);
        return true;
      }
      var timer := new AutoTimerService(autoLockMs, loop);
      state := Some(SessionState(secret, dataKey, timer));
      timer.Start();
      return true;
    }

    /** The event loop fires the session's timeout: the timer lets go of it, and the
        session is released. */
    method Elapse(h: Handle)
      requires Valid() && h in loop.armed
      modifies this, loop, Timer(), if state.Some? && state.value.secret.PrivateKey? then {state.value.secret.key} else {}
      ensures Valid() && State() == old(State()).Elapse(h) && state.None? && given == old(given)
      ensures forall k :: k in given ==> IsWiped(k)
    {
      var t := state.value.timer;
      t.Elapse();
      generation := generation + 1;
      WipeSecret(state.value.secret);
      state := None;
    }
  }

  // ---- Interleavings ----

  datatype Step =
    | DoRelease
    | DoHold(current: nat, secret: Secret, dataKey: string, autoLockMs: int, now: int)
    | Fire(h: Handle)

  ghost predicate Enabled(s: Session, step: Step) {
    step.Fire? ==> step.h in s.armed
  }

  ghost function Next(s: Session, step: Step): Session
    requires Enabled(s, step)
  {
    match step
    case DoRelease => s.Release()
    case DoHold(current, secret, dataKey, autoLockMs, now) => s.Hold(current, secret, dataKey, autoLockMs, now)
    case Fire(h) => s.Elapse(h)
  }

  ghost predicate IsRun(states: seq<Session>, steps: seq<Step>) {
    && |states| == |steps| + 1
    && states[0].held.None? && states[0].armed == map[]
    && forall i :: 0 <= i < |steps| ==> Enabled(states[i], steps[i]) && states[i + 1] == Next(states[i], steps[i])
  }

  /** This step activates the session. */
  ghost predicate Activates(s: Session, step: Step) {
    step.DoHold? && step.current == s.generation && step.autoLockMs > 0
  }

  /** A session without a secret has no timeout left. */
  lemma {:induction false} InactiveHasNoTimeout(states: seq<Session>, steps: seq<Step>, i: nat)
    requires IsRun(states, steps) && i < |states|
    ensures states[i].held.None? ==> states[i].armed == map[]
    ensures states[i].held.Some? ==> states[i].armed.Keys == {states[i].held.value.timer} && states[i].held.value.timer < states[i].next
  {
    if i > 0 { InactiveHasNoTimeout(states, steps, i - 1); }
  }

  /** This step ends an active session: a release, its timeout, or another hold that
      is not refused. */
  ghost predicate Ends(s: Session, step: Step) {
    step.DoRelease? || step.Fire? || (step.DoHold? && step.current == s.generation)
  }

  /** A session is active after exactly the holds that activate it and the steps that
      do not end it; one that was activated holds what the hold gave it. */
  lemma ActiveIff(states: seq<Session>, steps: seq<Step>, i: nat)
    requires IsRun(states, steps) && i < |steps|
    ensures states[i + 1].held.Some? <==>
              Activates(states[i], steps[i]) || (states[i].held.Some? && !Ends(states[i], steps[i]))
    ensures if Activates(states[i], steps[i])
            then states[i + 1].held.value.secret == steps[i].secret && states[i + 1].held.value.dataKey == steps[i].dataKey
            else states[i + 1].held.Some? ==> states[i + 1] == states[i]
  {
    InactiveHasNoTimeout(states, steps, i);
  }

  /** An active session holds the secret of the hold that last activated it, and its
      only timeout fires autoLockMs after that hold, neither earlier nor later; but
      after one millisecond when the runtime cannot count so far. */
  lemma {:induction false} ActiveLocksInTime(states: seq<Session>, steps: seq<Step>, i: nat) returns (j: nat)
    requires IsRun(states, steps) && i < |states| && states[i].held.Some?
    ensures j < i && Activates(states[j], steps[j])
    ensures var held := states[i].held.value;
            && held.secret == steps[j].secret && held.dataKey == steps[j].dataKey
            && states[i].armed.Keys == {held.timer}
            && states[i].armed[held.timer] - steps[j].now == if steps[j].autoLockMs < 0x8000_0000 then steps[j].autoLockMs else 1
    ensures forall k :: j < k <= i ==> states[k] == states[j + 1]
  {
    InactiveHasNoTimeout(states, steps, i - 1);
    if Activates(states[i - 1], steps[i - 1]) {
      j := i - 1;
    } else {
      assert states[i] == states[i - 1];
      j := ActiveLocksInTime(states, steps, i - 1);
    }
  }

  lemma {:induction false} GenerationGrows(states: seq<Session>, steps: seq<Step>, i: nat, j: nat)
    requires IsRun(states, steps) && i <= j < |states|
    ensures states[i].generation <= states[j].generation
  {
    if i < j { GenerationGrows(states, steps, i, j - 1); }
  }

  /** A hold that carries a generation read before a release, a firing of the
      session's timeout, or another accepted hold changes nothing. */
  lemma StaleHoldIsRefused(states: seq<Session>, steps: seq<Step>, read: nat, ended: nat, held: nat)
    requires IsRun(states, steps) && read <= ended < held < |steps|
    requires steps[held].DoHold? && steps[held].current == states[read].generation
    requires steps[ended].DoRelease? || steps[ended].Fire?
             || (steps[ended].DoHold? && steps[ended].current == states[ended].generation)
    ensures states[held + 1] == states[held]
  {
    GenerationGrows(states, steps, read, ended);
    InactiveHasNoTimeout(states, steps, ended);
    assert states[ended + 1].generation > states[ended].generation;
    GenerationGrows(states, steps, ended + 1, held);
  }
}

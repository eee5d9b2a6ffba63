/** One watch of a deploy's status: the flags its closures share, and the callbacks
    made so far. A tick is two atomic sections around the request to the node. */
module DeployStatusPoller {
  import opened Common

  datatype Status = Finalized | NotFinal

  datatype Callback = OnStatus(status: Status) | OnConfirmed | OnError

  /** What a caller's callback does before it returns. */
  datatype Reaction = Returns | Cancels | Throws

  datatype Done = Waiting | Resolved | Rejected

  datatype Watch = Watch(checking: bool, finished: bool, ticking: bool, calls: seq<Callback>, done: Done) {
    function Stop(): Watch {
      if finished then this else this.(finished := true, ticking := false)
    }

    function Notify(c: Callback): Watch { this.(calls := calls + [c]) }

    /** Terminal callbacks come once the watch has stopped; one that throws leaves
        `done` unsettled. */
    function Succeed(reaction: Reaction): Watch {
      if finished then this
      else
        var w := Stop().Notify(OnConfirmed);
        if reaction.Throws? then w else w.(done := Resolved)
    }

    function Fail(reaction: Reaction): Watch {
      if finished then this
      else
        var w := Stop().Notify(OnError);
        if reaction.Throws? then w else w.(done := Rejected)
    }

    /** The interval fires, or the watch starts. */
    function BeginTick(): Watch {
      if checking || finished then this else this.(checking := true)
    }

    /** The node answers. */
    function Answered(status: Status, onStatus: Reaction, terminal: Reaction, late: bool): Watch {
      var w :=
        if finished then this
        else
          var told := Notify(OnStatus(status));
          match onStatus
          case Throws => told.Fail(terminal)
          case _ =>
            var heard := if onStatus.Cancels? then told.Stop() else told;
            if status.Finalized? then heard.Succeed(terminal)
            else if late then heard.Fail(terminal)
            else heard;
      w.(checking := false)
    }

    function RequestFailed(terminal: Reaction): Watch {
      Fail(terminal).(checking := false)
    }
  }

  const Fresh := Watch(false, false, true, [], Waiting)

  class WatchService {
    var checking: bool
    var finished: bool
    var ticking: bool               // the interval is set
    var calls: seq<Callback>
    var done: Done

    ghost function State(): Watch
      reads this
    {
      Watch(checking, finished, ticking, calls, done)
    }

    constructor ()
      ensures State() == Fresh
    {
      checking, finished, ticking, calls, done := false, false, true, [], Waiting;
    }

    method Stop()
      modifies this
      ensures State() == Next(old(State()), Cancel)
    {
      if finished { return; }
      finished := true;
      ticking := false;
    }

    method Succeed(reaction: Reaction)
      modifies this
      ensures State() == old(State()).Succeed(reaction)
    {
      if finished { return; }
      Stop();
      calls := calls + [OnConfirmed];
      if reaction.Throws? { return; }
      done := Resolved;
    }

    method Fail(reaction: Reaction)
      modifies this
      ensures State() == old(State()).Fail(reaction)
    {
      if finished { return; }
      Stop();
      calls := calls + [OnError];
      if reaction.Throws? { return; }
      done := Rejected;
    }

    method BeginTick()
      modifies this
      ensures State() == Next(old(State()), Tick)
    {
      if checking || finished { return; }
      checking := true;
    }

    method Answer(status: Status, onStatus: Reaction, terminal: Reaction, late: bool)
      modifies this
      ensures State() == Next(old(State()), Step.Answer(status, onStatus, terminal, late))
    {
      if !finished {
        calls := calls + [OnStatus(status)];
        if onStatus.Throws? {
          Fail(terminal);
        } else {
          if onStatus.Cancels? { Stop(); }
          if status.Finalized? {
            Succeed(terminal);
          } else if late {
            Fail(terminal);
          }
        }
      }
      checking := false;
    }

    method RequestFails(terminal: Reaction)
      modifies this
      ensures State() == Next(old(State()), Step.RequestFails(terminal))
    {
      Fail(terminal);
      checking := false;
    }
  }

  // ---- Every run ----

  datatype Step =
    | Tick
    | Answer(status: Status, onStatus: Reaction, terminal: Reaction, late: bool)
    | RequestFails(terminal: Reaction)
    | Cancel

  ghost predicate Enabled(w: Watch, step: Step) {
    match step
    case Tick => w.ticking
    case Answer(_, _, _, _) => w.checking
    case RequestFails(_) => w.checking
    case Cancel => true
  }

  ghost function Next(w: Watch, step: Step): Watch {
    match step
    case Tick => w.BeginTick()
    case Answer(status, onStatus, terminal, late) => w.Answered(status, onStatus, terminal, late)
    case RequestFails(terminal) => w.RequestFailed(terminal)
    case Cancel => w.Stop()
  }

  ghost predicate IsRun(states: seq<Watch>, steps: seq<Step>) {
    && |states| == |steps| + 1
    && states[0] == Fresh
    && forall i :: 0 <= i < |steps| ==> Enabled(states[i], steps[i]) && states[i + 1] == Next(states[i], steps[i])
  }

  predicate IsTerminal(c: Callback) { !c.OnStatus? }

  /** Until the watch finishes there was no terminal callback; there is at most one,
      and it is the last callback of all. `done` settles only with it, the same way. */
  ghost predicate Sound(w: Watch) {
    && (w.ticking <==> !w.finished)
    && (forall i :: 0 <= i < |w.calls| && IsTerminal(w.calls[i]) ==> w.finished && i == |w.calls| - 1)
    && (w.done.Resolved? ==> w.calls != [] && w.calls[|w.calls| - 1] == OnConfirmed)
    && (w.done.Rejected? ==> w.calls != [] && w.calls[|w.calls| - 1] == OnError)
    && (OnConfirmed in w.calls ==> exists i :: 0 <= i < |w.calls| - 1 && w.calls[i] == OnStatus(Finalized))
  }

  lemma StepKeepsSound(w: Watch, step: Step)
    requires Sound(w) && Enabled(w, step)
    ensures Sound(Next(w, step)) && w.calls <= Next(w, step).calls
  {
    if step.Answer? && !w.finished {
      AnswerReports(w, step);
      AnswerKeepsSound(w, step);
    } else if step.RequestFails? && !w.finished {
      FailureIsReported(w, step);
      assert forall i :: 0 <= i < |w.calls| ==> Next(w, step).calls[i] == w.calls[i];
    }
  }

  lemma AnswerKeepsSound(w: Watch, step: Step)
    requires Sound(w) && !w.finished && step.Answer?
    ensures Sound(Next(w, step)) && w.calls <= Next(w, step).calls
  {
    var w', n := Next(w, step), |w.calls|;
    AnswerReports(w, step);
    assert w'.calls[n] == OnStatus(step.status);
    assert forall i :: 0 <= i < n ==> w'.calls[i] == w.calls[i];
  }

  lemma {:induction false} EveryWatchIsSound(states: seq<Watch>, steps: seq<Step>, i: nat)
    requires IsRun(states, steps) && i < |states|
    ensures Sound(states[i])
  {
    if i > 0 {
      EveryWatchIsSound(states, steps, i - 1);
      StepKeepsSound(states[i - 1], steps[i - 1]);
    }
  }

  /** An answer ends an unfinished watch exactly when the status is final, the
      deadline has passed, or the caller cancels or throws; it is confirmed exactly
      when it is final and the caller lets it be. */
  lemma AnswerEndsIff(w: Watch, step: Step)
    requires Sound(w) && !w.finished && step.Answer?
    ensures var w' := Next(w, step);
            && (w'.finished <==> step.status.Finalized? || step.late || !step.onStatus.Returns?)
            && (w'.calls[|w'.calls| - 1] == OnConfirmed <==> step.status.Finalized? && step.onStatus.Returns?)
            && !w'.checking
  {}

  /** Everything an answer reports: the status, and then the confirmation of a final
      one, or the error of a late one or of a callback that throws. */
  lemma AnswerReports(w: Watch, step: Step)
    requires Sound(w) && !w.finished && step.Answer?
    ensures var w' := Next(w, step);
            var terminal := if step.onStatus.Throws? then [OnError]
                            else if step.onStatus.Cancels? then []
                            else if step.status.Finalized? then [OnConfirmed]
                            else if step.late then [OnError] else [];
            && w'.calls == w.calls + [OnStatus(step.status)] + terminal
            && (terminal == [] || step.terminal.Throws? ==> w'.done == w.done)
            && (terminal == [OnConfirmed] && !step.terminal.Throws? ==> w'.done == Resolved)
            && (terminal == [OnError] && !step.terminal.Throws? ==> w'.done == Rejected)
  {}

  /** A failed request ends an unfinished watch with its error. */
  lemma FailureIsReported(w: Watch, step: Step)
    requires Sound(w) && !w.finished && step.RequestFails?
    ensures var w' := Next(w, step);
            && w'.finished && !w'.ticking && !w'.checking && w'.calls == w.calls + [OnError]
            && w'.done == if step.terminal.Throws? then w.done else Rejected
  {}

  /** Until it finishes, a watch asks the node at every tick that finds no request
      under way, and every request is answered or fails once. */
  lemma AsksUntilFinished(states: seq<Watch>, steps: seq<Step>, i: nat)
    requires IsRun(states, steps) && i < |steps| && !states[i].finished
    ensures states[i].ticking && (steps[i].Tick? ==> states[i + 1].checking && states[i + 1].calls == states[i].calls)
    ensures states[i].checking && (steps[i].Answer? || steps[i].RequestFails?) ==> |states[i + 1].calls| > |states[i].calls|
  {
    EveryWatchIsSound(states, steps, i);
  }

  /** In every run at most one terminal callback is made, a confirmation only after a
      finalized status. */
  lemma AtMostOneTerminal(states: seq<Watch>, steps: seq<Step>, i: nat, j: nat, k: nat)
    requires IsRun(states, steps) && i < |states|
    requires j < |states[i].calls| && k < |states[i].calls| && IsTerminal(states[i].calls[j]) && IsTerminal(states[i].calls[k])
    ensures j == k
    ensures states[i].calls[j] == OnConfirmed ==> OnStatus(Finalized) in states[i].calls
  {
    EveryWatchIsSound(states, steps, i);
  }

  /** Once the watch is cancelled, or has ended, no callback of any kind is made and
      `done` does not change. */
  lemma {:induction false} SilentOnceFinished(states: seq<Watch>, steps: seq<Step>, i: nat, j: nat)
    requires IsRun(states, steps) && i <= j < |states| && (states[i].finished || (i > 0 && steps[i - 1].Cancel?))
    ensures states[j].finished && states[j].calls == states[i].calls && states[j].done == states[i].done
  {
    if i < j { SilentOnceFinished(states, steps, i, j - 1); }
  }
}

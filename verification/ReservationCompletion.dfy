/** Reservation actions from start to end, when nothing is in their way: each leaves
    exactly what it was asked for. */
module ReservationCompletion {
  import opened Common
  import opened OperationGuard
  import opened ReservationsManager
  import opened ReservedFunds
  import opened ReservationOperationGuard
  import opened ReservationProtocol
  import opened ReservationInvariant
  import opened ReservationSteps
  import opened ReservationTheorems
  import opened ReservationAdmission
  import opened ReservationOutcomes

  ghost predicate Follows(states: seq<State>, steps: seq<Step>) {
    && |states| == |steps| + 1
    && forall i :: 0 <= i < |steps| ==> Enabled(states[i], steps[i]) && states[i + 1] == Next(states[i], steps[i])
  }

  /** Action `t` runs beside these others, over this world. */
  ghost predicate Stands(s: State, t: Token, a: Action, others: map<Token, Action>, w: World) {
    s.actions == others[t := a] && t !in others && s.w == w && Inv(s)
  }

  lemma StartsFresh(s: State)
    requires Inv(s)
    ensures s.nextToken !in s.actions
  {
    InvKeepsGuard(s);
    hide Inv;
  }

  /** A step of action `t` that moves it on to `b`, over the world `w'`. */
  lemma Moves(s: State, step: Step, t: Token, a: Action, others: map<Token, Action>, w: World, b: Action, w': World)
    requires Stands(s, t, a, others, w) && Enabled(s, step) && Next(s, step) == s.With(t, b, w')
    ensures Stands(Next(s, step), t, b, others, w')
  {
    hide Inv, Next, Enabled;
    StepKeepsInv(s, step);
  }

  lemma Entered(s: State, step: Step, a: Action, w': World)
    requires Inv(s) && Enabled(s, step) && Next(s, step) == s.Enter(a, w')
    ensures Stands(Next(s, step), s.nextToken, a, s.actions, w')
  {
    hide Inv, Next, Enabled;
    StartsFresh(s);
    StepKeepsInv(s, step);
  }

  lemma Left(s: State, t: Token, a: Action, others: map<Token, Action>, w: World)
    requires Stands(s, t, a, others, w) && a.phase.Ending?
    ensures Enabled(s, Leave(t)) && Next(s, Leave(t)).actions == others && Next(s, Leave(t)).w == w
  {
    hide Inv;
  }

  lemma WriteMoves(s: State, t: Token, a: Action, others: map<Token, Action>, w: World)
    requires Stands(s, t, a, others, w) && a.phase.Writing? && (a.kind.Update? ==> a.phase.r.id in w.stored)
    ensures Enabled(s, RecordWritten(t, true))
    ensures Stands(Next(s, RecordWritten(t, true)), t, a.(phase := Written(a.phase.r)), others, w.(stored := w.stored[a.phase.r.id := a.phase.r]))
  {
    hide Inv;
    Moves(s, RecordWritten(t, true), t, a, others, w, a.(phase := Written(a.phase.r)), w.(stored := w.stored[a.phase.r.id := a.phase.r]));
  }

  /** The continuation holds the reservation, and the action ends. */
  lemma HoldMoves(s: State, step: Step, t: Token, a: Action, others: map<Token, Action>, w: World) returns (w': World)
    requires Stands(s, t, a, others, w) && ContinuesToHold(s, step) && step.t == t
    ensures Enabled(s, step) && Stands(Next(s, step), t, a.(phase := Ending), others, w')
    ensures NowHolds(w.m, a.phase.r, w.now, w.networks, w'.m) && w' == w.(m := w'.m)
  {
    hide Inv, NowHolds, Next, Enabled, ContinuesToHold;
    ContinuationHolds(s, step);
    w' := Next(s, step).w;
    StepKeepsInv(s, step);
    assert others[t := a][t := a.(phase := Ending)] == others[t := a.(phase := Ending)];
  }

  /** An add that nothing is in the way of, whose amount the balance covers, ends with
      its reservation held and stored for five minutes, and nothing else changed. */
  lemma AddCompletes(s: State, network: NetworkId, account: AccountId, amount: nat, deployId: string, balance: int, id: Id)
      returns (states: seq<State>)
    requires Inv(s) && s.w.m.active && id !in s.w.used
    requires !IsRefused(s, ActionRun(Add, network, account, deployId, "")) && !IsTaken(s, deployId, network, "")
    requires Reserved(s.w.m.items, account, s.w.current) + amount <= balance
    ensures var t := s.nextToken;
            Follows(states, [StartAdd(network, account, amount, deployId), BalanceRead(t, Some(balance), id),
                             RecordWritten(t, true), ResumeWritten(t), Leave(t)])
    ensures var r := Reservation(id, account, network, deployId, amount, s.w.now + 5 * 60 * 1000);
            && states[0] == s && states[5].actions == s.actions
            && states[5].w == s.w.(m := states[5].w.m, stored := s.w.stored[id := r], used := s.w.used + {id})
            && NowHolds(s.w.m, r, s.w.now, s.w.networks, states[5].w.m)
  {
    hide Inv, Next, Enabled, NowHolds, Stands, IsRefused, IsTaken, Reserved;
    var t, others := s.nextToken, s.actions;
    var a := AddEnters(s, network, account, amount, deployId);
    var s1 := Next(s, StartAdd(network, account, amount, deployId));
    var b, w := CoveredMoves(s1, t, a, others, s.w, balance, id);
    var s2 := Next(s1, BalanceRead(t, Some(balance), id));
    WriteMoves(s2, t, b, others, w);
    var s3 := Next(s2, RecordWritten(t, true));
    var w3 := w.(stored := w.stored[id := b.phase.r]);
    assert ContinuesToHold(s3, ResumeWritten(t)) by { StandsThere(s3, t, b.(phase := Written(b.phase.r)), others, w3); }
    var w4 := HoldMoves(s3, ResumeWritten(t), t, b.(phase := Written(b.phase.r)), others, w3);
    var s4 := Next(s3, ResumeWritten(t));
    Left(s4, t, b.(phase := Ending), others, w4);
    var s5 := Next(s4, Leave(t));
    states := [s, s1, s2, s3, s4, s5];
  }

  lemma StandsThere(s: State, t: Token, a: Action, others: map<Token, Action>, w: World)
    requires Stands(s, t, a, others, w)
    ensures t in s.actions && s.actions[t] == a
  {
    hide Inv;
  }

  lemma AddEnters(s: State, network: NetworkId, account: AccountId, amount: nat, deployId: string) returns (a: Action)
    requires Inv(s)
    requires !IsRefused(s, ActionRun(Add, network, account, deployId, "")) && !IsTaken(s, deployId, network, "")
    ensures Enabled(s, StartAdd(network, account, amount, deployId))
    ensures Stands(Next(s, StartAdd(network, account, amount, deployId)), s.nextToken, a, s.actions, s.w)
    ensures a == Action(Add, network, account, deployId, "", amount, s.w.current, Reserved(s.w.m.items, account, s.w.current), amount, 0, Balance)
  {
    hide Inv, Reserved, GuardState.Refuses, GuardState.Acquire;
    a := s.AddAction(network, account, amount, deployId);
    RefusedIff(s, ActionRun(Add, network, account, deployId, ""));
    Entered(s, StartAdd(network, account, amount, deployId), a, s.w);
  }

  lemma CoveredMoves(s: State, t: Token, a: Action, others: map<Token, Action>, w: World, balance: int, id: Id)
      returns (b: Action, w': World)
    requires Stands(s, t, a, others, w) && a.kind.Add? && a.phase.Balance? && a.captured + a.delta <= balance && id !in w.used
    ensures Enabled(s, BalanceRead(t, Some(balance), id))
    ensures Stands(Next(s, BalanceRead(t, Some(balance), id)), t, b, others, w')
    ensures b == a.(balance := balance, phase := Writing(Reservation(id, a.account, a.network, a.deployId, a.amount, w.now + 5 * 60 * 1000)))
    ensures w' == w.(used := w.used + {id})
  {
    hide Inv;
    b := a.(balance := balance, phase := Writing(Reservation(id, a.account, a.network, a.deployId, a.amount, w.now + 5 * 60 * 1000)));
    w' := w.(used := w.used + {id});
    Moves(s, BalanceRead(t, Some(balance), id), t, a, others, w, b, w');
  }

  // A submission.

  lemma SubmissionEnters(s: State, account: AccountId, amount: nat) returns (a: Action)
    requires Inv(s) && !IsRefused(s, ActionRun(Submit, s.w.current, account, "", ""))
    ensures Enabled(s, StartSubmit(account, amount))
    ensures Stands(Next(s, StartSubmit(account, amount)), s.nextToken, a, s.actions, s.w)
    ensures a == Action(Submit, s.w.current, account, "", "", amount, s.w.current, Reserved(s.w.m.items, account, s.w.current), amount, 0, Balance)
  {
    hide Inv, Reserved, GuardState.Refuses, GuardState.Acquire;
    a := s.SubmitAction(account, amount);
    RefusedIff(s, ActionRun(Submit, s.w.current, account, "", ""));
    Entered(s, StartSubmit(account, amount), a, s.w);
  }

  /** The balance covers it, and it is signed: its record is to be written. */
  lemma SignedMoves(s: State, t: Token, a: Action, others: map<Token, Action>, w: World, balance: int, other: Id, signature: string, id: Id)
      returns (b: Action, w': World)
    requires Stands(s, t, a, others, w) && a.kind.Submit? && a.phase.Balance? && a.captured + a.delta <= balance
    requires other !in w.used && id !in w.used
    ensures var step := BalanceRead(t, Some(balance), other);
            && Enabled(s, step) && Enabled(Next(s, step), SignatureRead(t, Some(signature), id))
            && Stands(Next(Next(s, step), SignatureRead(t, Some(signature), id)), t, b, others, w')
    ensures b == a.(balance := balance, phase := Writing(Reservation(id, a.account, a.network, signature, a.amount, w.now + 5 * 60 * 1000)))
    ensures w' == w.(used := w.used + {id})
  {
    hide Inv;
    var step := BalanceRead(t, Some(balance), other);
    var c := a.(balance := balance, phase := Signing);
    b := a.(balance := balance, phase := Writing(Reservation(id, a.account, a.network, signature, a.amount, w.now + 5 * 60 * 1000)));
    w' := w.(used := w.used + {id});
    Moves(s, step, t, a, others, w, c, w);
    Moves(Next(s, step), SignatureRead(t, Some(signature), id), t, c, others, w, b, w');
  }

  lemma SentMoves(s: State, t: Token, a: Action, others: map<Token, Action>, w: World)
    requires Stands(s, t, a, others, w) && a.kind.Submit? && a.phase.Written? && w.m.active
    ensures Enabled(s, ResumeWritten(t))
    ensures Stands(Next(s, ResumeWritten(t)), t, a.(phase := Sent(a.phase.r)), others, w.(sent := w.sent + {a.phase.r.id}))
  {
    hide Inv;
    Moves(s, ResumeWritten(t), t, a, others, w, a.(phase := Sent(a.phase.r)), w.(sent := w.sent + {a.phase.r.id}));
  }

  lemma AnswerMoves(s: State, t: Token, a: Action, others: map<Token, Action>, w: World, answer: Option<bool>)
    requires Stands(s, t, a, others, w) && a.phase.Sent? && answer != Some(false)
    ensures Enabled(s, NodeAnswered(t, answer))
    ensures Stands(Next(s, NodeAnswered(t, answer)), t,
                   a.(phase := if answer.Some? then Accepted(a.phase.r) else Undecided(a.phase.r)), others, w)
  {
    hide Inv;
    Moves(s, NodeAnswered(t, answer), t, a, others, w, a.(phase := if answer.Some? then Accepted(a.phase.r) else Undecided(a.phase.r)), w);
  }

  lemma RejectionMoves(s: State, t: Token, a: Action, others: map<Token, Action>, w: World)
    requires Stands(s, t, a, others, w) && a.phase.Sent?
    ensures Enabled(s, NodeAnswered(t, Some(false)))
    ensures Stands(Next(s, NodeAnswered(t, Some(false))), t, a.(phase := Releasing(a.phase.r)), others,
                   w.(verdicts := w.verdicts[a.phase.r.id := Rejected]))
  {
    hide Inv;
    Moves(s, NodeAnswered(t, Some(false)), t, a, others, w, a.(phase := Releasing(a.phase.r)), w.(verdicts := w.verdicts[a.phase.r.id := Rejected]));
  }

  lemma RefusalMoves(s: State, t: Token, a: Action, others: map<Token, Action>, w: World)
    requires Stands(s, t, a, others, w) && a.phase.Releasing?
    ensures Enabled(s, RefusedErased(t, true))
    ensures Stands(Next(s, RefusedErased(t, true)), t, a.(phase := Ending), others, w.(stored := w.stored - {a.phase.r.id}))
  {
    hide Inv;
    Moves(s, RefusedErased(t, true), t, a, others, w, a.(phase := Ending), w.(stored := w.stored - {a.phase.r.id}));
  }

  /** The submission, up to its send: its record is stored before. */
  lemma SubmissionIsSent(s: State, account: AccountId, amount: nat, balance: int, other: Id, signature: string, id: Id)
      returns (states: seq<State>, b: Action, w: World)
    requires Inv(s) && s.w.m.active && id !in s.w.used && other !in s.w.used
    requires !IsRefused(s, ActionRun(Submit, s.w.current, account, "", ""))
    requires Reserved(s.w.m.items, account, s.w.current) + amount <= balance
    ensures var t := s.nextToken;
            Follows(states, [StartSubmit(account, amount), BalanceRead(t, Some(balance), other), SignatureRead(t, Some(signature), id),
                             RecordWritten(t, true), ResumeWritten(t)])
    ensures var r := Reservation(id, account, s.w.current, signature, amount, s.w.now + 5 * 60 * 1000);
            && states[0] == s && Stands(states[5], s.nextToken, b, s.actions, w)
            && b.kind.Submit? && b.phase == Sent(r)
            && w == s.w.(stored := s.w.stored[id := r], used := s.w.used + {id}, sent := s.w.sent + {id})
  {
    hide Inv, Next, Enabled, Stands, IsRefused, Reserved;
    var t, others := s.nextToken, s.actions;
    var a := SubmissionEnters(s, account, amount);
    var s1 := Next(s, StartSubmit(account, amount));
    var c, w3 := SignedMoves(s1, t, a, others, s.w, balance, other, signature, id);
    var s2 := Next(s1, BalanceRead(t, Some(balance), other));
    var s3 := Next(s2, SignatureRead(t, Some(signature), id));
    WriteMoves(s3, t, c, others, w3);
    var s4 := Next(s3, RecordWritten(t, true));
    var r := c.phase.r;
    var w4 := w3.(stored := w3.stored[id := r]);
    SentMoves(s4, t, c.(phase := Written(r)), others, w4);
    var s5 := Next(s4, ResumeWritten(t));
    b, w := c.(phase := Sent(r)), w4.(sent := w4.sent + {id});
    states := [s, s1, s2, s3, s4, s5];
  }

  /** A submission that is accepted, or whose outcome stays unknown, ends with its
      reservation held and stored; one that is rejected leaves neither. */
  lemma SubmissionCompletes(s: State, t: Token, b: Action, others: map<Token, Action>, w: World, answer: Option<bool>)
      returns (states: seq<State>)
    requires Stands(s, t, b, others, w) && b.kind.Submit? && b.phase.Sent? && w.m.active
    ensures Follows(states, [NodeAnswered(t, answer), if answer == Some(false) then RefusedErased(t, true) else ResumeAnswered(t), Leave(t)])
    ensures states[0] == s && states[3].actions == others
    ensures if answer == Some(false)
            then states[3].w == w.(stored := w.stored - {b.phase.r.id}, verdicts := w.verdicts[b.phase.r.id := Rejected])
            else NowHolds(w.m, b.phase.r, w.now, w.networks, states[3].w.m) && states[3].w == w.(m := states[3].w.m)
  {
    hide Inv, Next, Enabled, Stands, NowHolds;
    var s1, s2, w2;
    if answer == Some(false) {
      var r := b.phase.r;
      RejectionMoves(s, t, b, others, w);
      s1 := Next(s, NodeAnswered(t, answer));
      RefusalMoves(s1, t, b.(phase := Releasing(r)), others, w.(verdicts := w.verdicts[r.id := Rejected]));
      s2 := Next(s1, RefusedErased(t, true));
      w2 := w.(stored := w.stored - {r.id}, verdicts := w.verdicts[r.id := Rejected]);
    } else {
      AnswerMoves(s, t, b, others, w, answer);
      s1 := Next(s, NodeAnswered(t, answer));
      var c := b.(phase := if answer.Some? then Accepted(b.phase.r) else Undecided(b.phase.r));
      assert ContinuesToHold(s1, ResumeAnswered(t)) by { StandsThere(s1, t, c, others, w); }
      w2 := HoldMoves(s1, ResumeAnswered(t), t, c, others, w);
      s2 := Next(s1, ResumeAnswered(t));
    }
    Left(s2, t, b.(phase := Ending), others, w2);
    states := [s, s1, s2, Next(s2, Leave(t))];
  }

  // An update, a removal, a cleanup.

  lemma UpdateEnters(s: State, id: Id, network: NetworkId, account: AccountId, amount: nat, deployId: string) returns (a: Action, w: World)
    requires Inv(s) && id != "" && id in s.w.m.items && !IsRefused(s, ActionRun(Update, network, account, deployId, id))
    requires s.w.m.items[id].accountId == account && s.w.m.items[id].networkId == network && !IsTaken(s, deployId, network, id)
    ensures Enabled(s, StartUpdate(id, network, account, amount, deployId))
    ensures Stands(Next(s, StartUpdate(id, network, account, amount, deployId)), s.nextToken, a, s.actions, w)
    ensures a == Action(Update, network, account, deployId, id, amount, s.w.current, Reserved(s.w.m.items, account, s.w.current),
                        amount - s.w.m.items[id].pendingAmount, 0, Balance)
    ensures w == s.w.(m := w.m) && w.m.items == s.w.m.items && w.m.exclusive == s.w.m.exclusive + {id}
    ensures w.m.released == s.w.m.released && w.m.active == s.w.m.active
  {
    hide Inv, Reserved, GuardState.Refuses, GuardState.Acquire, Manager.BeginExclusive;
    var step := StartUpdate(id, network, account, amount, deployId);
    a := s.UpdateAction(id, network, account, amount, deployId);
    w := s.w.(m := s.w.m.BeginExclusive(id));
    RefusedIff(s, ActionRun(Update, network, account, deployId, id));
    SectionKeepsItems(s.w.m, id);
    Entered(s, step, a, w);
  }

  lemma UpdateCoveredMoves(s: State, t: Token, a: Action, others: map<Token, Action>, w: World, balance: int, other: Id) returns (b: Action)
    requires Stands(s, t, a, others, w) && a.kind.Update? && a.phase.Balance? && a.captured + a.delta <= balance && other !in w.used
    ensures Enabled(s, BalanceRead(t, Some(balance), other))
    ensures Stands(Next(s, BalanceRead(t, Some(balance), other)), t, b, others, w)
    ensures b == a.(balance := balance, phase := Writing(Reservation(a.id, a.account, a.network, a.deployId, a.amount, w.now + 5 * 60 * 1000)))
  {
    hide Inv;
    b := a.(balance := balance, phase := Writing(Reservation(a.id, a.account, a.network, a.deployId, a.amount, w.now + 5 * 60 * 1000)));
    Moves(s, BalanceRead(t, Some(balance), other), t, a, others, w, b, w);
  }

  lemma ReplaceMoves(s: State, t: Token, a: Action, others: map<Token, Action>, w: World) returns (w': World)
    requires Stands(s, t, a, others, w) && a.kind.Update? && a.phase.Written? && a.phase.r.id in w.m.items
    ensures Enabled(s, ResumeWritten(t)) && Stands(Next(s, ResumeWritten(t)), t, a.(phase := Leaving), others, w')
    ensures w' == w.(m := w.m.(items := w.m.items[a.phase.r.id := a.phase.r]))
  {
    hide Inv;
    UpdateReplaces(s, t);
    w' := w.(m := w.m.(items := w.m.items[a.phase.r.id := a.phase.r]));
    Moves(s, ResumeWritten(t), t, a, others, w, a.(phase := Leaving), w');
  }

  /** Leaving its section, an action rearms what is held and has not expired. */
  lemma SectionEnds(s: State, t: Token, a: Action, others: map<Token, Action>, w: World) returns (w': World)
    requires Stands(s, t, a, others, w) && a.phase.Leaving?
    ensures Enabled(s, LeaveSection(t)) && Enabled(Next(s, LeaveSection(t)), Leave(t))
    ensures var s' := Next(Next(s, LeaveSection(t)), Leave(t)); s'.actions == others && s'.w == w'
    ensures w' == w.(m := w'.m) && w'.m.exclusive == w.m.exclusive - {a.id}
    ensures a.id !in w.m.items || w.now < w.m.items[a.id].expirationTime ==> w'.m.items == w.m.items && w'.m.released == w.m.released
  {
    hide Inv, Manager.EndExclusive, WellFormed;
    w' := w.(m := w.m.EndExclusive(a.id, w.now, w.networks));
    Moves(s, LeaveSection(t), t, a, others, w, a.(phase := Ending), w');
    Left(Next(s, LeaveSection(t)), t, a.(phase := Ending), others, w');
    InvIsWellFormed(s);
    if a.id in w.m.items {
      EndExclusiveReleasesExpired(w.m, a.id, w.now, w.networks);
    } else {
      LeavingNothing(w.m, a.id, w.now, w.networks);
    }
  }

  /** An update that nothing is in the way of, whose difference the balance covers,
      ends with its reservation replaced in memory and in storage, no longer in a
      section, and no other touched. */
  lemma UpdateCompletes(s: State, id: Id, network: NetworkId, account: AccountId, amount: nat, deployId: string, balance: int, other: Id)
      returns (states: seq<State>)
    requires Inv(s) && id != "" && id in s.w.m.items && id in s.w.stored && other !in s.w.used
    requires !IsRefused(s, ActionRun(Update, network, account, deployId, id)) && !IsTaken(s, deployId, network, id)
    requires s.w.m.items[id].accountId == account && s.w.m.items[id].networkId == network
    requires Reserved(s.w.m.items, account, s.w.current) + amount - s.w.m.items[id].pendingAmount <= balance
    ensures var t := s.nextToken;
            Follows(states, [StartUpdate(id, network, account, amount, deployId), BalanceRead(t, Some(balance), other),
                             RecordWritten(t, true), ResumeWritten(t), LeaveSection(t), Leave(t)])
    ensures var r, w' := Reservation(id, account, network, deployId, amount, s.w.now + 5 * 60 * 1000), states[6].w;
            && states[0] == s && states[6].actions == s.actions
            && w' == s.w.(m := w'.m, stored := s.w.stored[id := r])
            && w'.m.items == s.w.m.items[id := r] && w'.m.released == s.w.m.released
            && w'.m.exclusive == s.w.m.exclusive - {id}
  {
    hide Inv, Next, Enabled, Stands, IsRefused, IsTaken, Reserved;
    var t, others := s.nextToken, s.actions;
    var a, w1 := UpdateEnters(s, id, network, account, amount, deployId);
    var s1 := Next(s, StartUpdate(id, network, account, amount, deployId));
    var b := UpdateCoveredMoves(s1, t, a, others, w1, balance, other);
    var s2 := Next(s1, BalanceRead(t, Some(balance), other));
    WriteMoves(s2, t, b, others, w1);
    var s3 := Next(s2, RecordWritten(t, true));
    var r := b.phase.r;
    var w3 := w1.(stored := w1.stored[id := r]);
    var w4 := ReplaceMoves(s3, t, b.(phase := Written(r)), others, w3);
    var s4 := Next(s3, ResumeWritten(t));
    var w5 := SectionEnds(s4, t, b.(phase := Leaving), others, w4);
    var s5 := Next(s4, LeaveSection(t));
    assert s.w.m.exclusive + {id} - {id} == s.w.m.exclusive - {id};
    states := [s, s1, s2, s3, s4, s5, Next(s5, Leave(t))];
  }

  lemma RemovalEnters(s: State, id: Id) returns (a: Action, w: World)
    requires Inv(s) && id != "" && id in s.w.m.items
    requires !IsRefused(s, ActionRun(Remove, s.w.m.items[id].networkId, s.w.m.items[id].accountId, "", id))
    ensures Enabled(s, StartRemove(id)) && Stands(Next(s, StartRemove(id)), s.nextToken, a, s.actions, w)
    ensures a.id == id && a.kind.Remove? && a.phase.Deleting?
    ensures w == s.w.(m := w.m) && w.m.items == s.w.m.items && w.m.exclusive == s.w.m.exclusive + {id} && w.m.released == s.w.m.released
  {
    hide Inv, GuardState.Refuses, GuardState.Acquire, Manager.BeginExclusive;
    a, w := s.RemoveAction(id), s.w.(m := s.w.m.BeginExclusive(id));
    RefusedIff(s, ActionRun(Remove, s.w.m.items[id].networkId, s.w.m.items[id].accountId, "", id));
    SectionKeepsItems(s.w.m, id);
    Entered(s, StartRemove(id), a, w);
  }

  lemma DeletionMoves(s: State, t: Token, a: Action, others: map<Token, Action>, w: World)
    requires Stands(s, t, a, others, w) && a.phase.Deleting?
    ensures Enabled(s, RemovedErased(t, true))
    ensures Stands(Next(s, RemovedErased(t, true)), t, a.(phase := Deleted), others,
                   w.(stored := w.stored - {a.id}, verdicts := w.verdicts[a.id := RemovedByUser]))
  {
    hide Inv;
    Moves(s, RemovedErased(t, true), t, a, others, w, a.(phase := Deleted),
          w.(stored := w.stored - {a.id}, verdicts := w.verdicts[a.id := RemovedByUser]));
  }

  lemma DropMoves(s: State, t: Token, a: Action, others: map<Token, Action>, w: World) returns (w': World)
    requires Stands(s, t, a, others, w) && a.phase.Deleted?
    ensures Enabled(s, ResumeDeleted(t)) && Stands(Next(s, ResumeDeleted(t)), t, a.(phase := Leaving), others, w')
    ensures w' == w.(m := w'.m) && w'.m.items == w.m.items - {a.id} && w'.m.released == w.m.released && w'.m.exclusive == w.m.exclusive
  {
    hide Inv, Manager.CancelWatch, Manager.ClearExpiration;
    w' := w.(m := w.m.Drop(a.id));
    Moves(s, ResumeDeleted(t), t, a, others, w, a.(phase := Leaving), w');
    DropsOne(w.m, a.id);
  }

  lemma DropsOne(m: Manager, id: Id)
    ensures var d := m.Drop(id); d.items == m.items - {id} && d.released == m.released && d.exclusive == m.exclusive
  {}

  /** A removal that nothing is in the way of ends with its reservation gone from memory
      and storage, and no other touched. */
  lemma RemovalCompletes(s: State, id: Id) returns (states: seq<State>)
    requires Inv(s) && id != "" && id in s.w.m.items
    requires !IsRefused(s, ActionRun(Remove, s.w.m.items[id].networkId, s.w.m.items[id].accountId, "", id))
    ensures var t := s.nextToken;
            Follows(states, [StartRemove(id), RemovedErased(t, true), ResumeDeleted(t), LeaveSection(t), Leave(t)])
    ensures var w' := states[5].w;
            && states[0] == s && states[5].actions == s.actions
            && w' == s.w.(m := w'.m, stored := s.w.stored - {id}, verdicts := s.w.verdicts[id := RemovedByUser])
            && w'.m.items == s.w.m.items - {id} && w'.m.released == s.w.m.released && w'.m.exclusive == s.w.m.exclusive - {id}
  {
    hide Inv, Next, Enabled, Stands, IsRefused;
    var t, others := s.nextToken, s.actions;
    var a, w1 := RemovalEnters(s, id);
    var s1 := Next(s, StartRemove(id));
    DeletionMoves(s1, t, a, others, w1);
    var s2 := Next(s1, RemovedErased(t, true));
    var w3 := DropMoves(s2, t, a.(phase := Deleted), others,
                        w1.(stored := w1.stored - {id}, verdicts := w1.verdicts[id := RemovedByUser]));
    var s3 := Next(s2, ResumeDeleted(t));
    var w4 := SectionEnds(s3, t, a.(phase := Leaving), others, w3);
    var s4 := Next(s3, LeaveSection(t));
    assert s.w.m.exclusive + {id} - {id} == s.w.m.exclusive - {id};
    states := [s, s1, s2, s3, s4, Next(s4, Leave(t))];
  }

  lemma CleanupEnters(s: State, network: NetworkId) returns (a: Action)
    requires Inv(s) && !IsRefused(s, NetworkRun(network))
    ensures Enabled(s, StartCleanup(network)) && Stands(Next(s, StartCleanup(network)), s.nextToken, a, s.actions, s.w)
    ensures a.network == network && a.phase.Configuring?
  {
    hide Inv, GuardState.Refuses, GuardState.Acquire;
    a := s.CleanupAction(network);
    RefusedIff(s, NetworkRun(network));
    Entered(s, StartCleanup(network), a, s.w);
  }

  lemma NetworkMoves(s: State, t: Token, a: Action, others: map<Token, Action>, w: World)
    requires Stands(s, t, a, others, w) && a.phase.Configuring?
    ensures Enabled(s, NetworkWritten(t, true, false, ""))
    ensures Stands(Next(s, NetworkWritten(t, true, false, "")), t, a.(phase := Configured), others, w)
  {
    hide Inv;
    Moves(s, NetworkWritten(t, true, false, ""), t, a, others, w, a.(phase := Configured), w);
  }

  lemma CleaningMoves(s: State, t: Token, a: Action, others: map<Token, Action>, w: World) returns (w': World)
    requires Stands(s, t, a, others, w) && a.phase.Configured?
    ensures var gone := set id | id in w.m.items && w.m.items[id].networkId == a.network;
            && Enabled(s, ResumeConfigured(t))
            && Stands(Next(s, ResumeConfigured(t)), t, a.(phase := Cleaning(gone)), others, w')
            && w' == w.(m := w'.m, verdicts := w'.verdicts) && w'.m.items == w.m.items - gone && w'.m.released == w.m.released
  {
    hide Inv;
    var gone := w.m.OnNetwork(a.network);
    w' := w.(m := w.m.RemoveByNetwork(a.network), verdicts := w.verdicts + map id | id in gone :: NetworkCleaned);
    Moves(s, ResumeConfigured(t), t, a, others, w, a.(phase := Cleaning(gone)), w');
  }

  lemma CleanedMoves(s: State, t: Token, a: Action, others: map<Token, Action>, w: World)
    requires Stands(s, t, a, others, w) && a.phase.Cleaning?
    ensures Enabled(s, CleanedErased(t, true))
    ensures Stands(Next(s, CleanedErased(t, true)), t, a.(phase := Ending), others, w.(stored := w.stored - a.phase.ids))
  {
    hide Inv;
    Moves(s, CleanedErased(t, true), t, a, others, w, a.(phase := Ending), w.(stored := w.stored - a.phase.ids));
  }

  /** A cleanup after its network's change leaves no reservation of that network, in
      memory or in storage of those held, and touches no other. */
  lemma CleanupCompletes(s: State, network: NetworkId) returns (states: seq<State>)
    requires Inv(s) && !IsRefused(s, NetworkRun(network))
    ensures var t := s.nextToken;
            Follows(states, [StartCleanup(network), NetworkWritten(t, true, false, ""), ResumeConfigured(t), CleanedErased(t, true), Leave(t)])
    ensures var gone := set id | id in s.w.m.items && s.w.m.items[id].networkId == network;
            var w' := states[5].w;
            && states[0] == s && states[5].actions == s.actions
            && w' == s.w.(m := w'.m, stored := s.w.stored - gone, verdicts := w'.verdicts)
            && w'.m.items == s.w.m.items - gone && w'.m.released == s.w.m.released
  {
    hide Inv, Next, Enabled, Stands, IsRefused;
    var t, others := s.nextToken, s.actions;
    var a := CleanupEnters(s, network);
    var s1 := Next(s, StartCleanup(network));
    NetworkMoves(s1, t, a, others, s.w);
    var s2 := Next(s1, NetworkWritten(t, true, false, ""));
    var w3 := CleaningMoves(s2, t, a.(phase := Configured), others, s.w);
    var s3 := Next(s2, ResumeConfigured(t));
    var gone := set id | id in s.w.m.items && s.w.m.items[id].networkId == network;
    CleanedMoves(s3, t, a.(phase := Cleaning(gone)), others, w3);
    var s4 := Next(s3, CleanedErased(t, true));
    Left(s4, t, a.(phase := Ending), others, w3.(stored := w3.stored - gone));
    states := [s, s1, s2, s3, s4, Next(s4, Leave(t))];
  }
}

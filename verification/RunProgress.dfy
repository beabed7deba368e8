/** What confirmations and cancellations bring about: a staging wait ends within a few steps of its worker. */
module RunProgress {
  import opened Wrappers
  import opened RunManager
  import opened RunSteps
  import opened RunInvariant
  import opened RunControl

  /** How many of the actions are steps of the run's worker. */
  function WorkSteps(actions: seq<Action>, run: RunId): nat {
    if |actions| == 0 then 0
    else
      var n := |actions| - 1;
      WorkSteps(actions[..n], run) + WorkStep(actions[n], run)
  }

  function WorkStep(a: Action, run: RunId): nat { if a.Work? && a.run == run then 1 else 0 }

  predicate InWait(s: State, run: RunId, w: nat) {
    && run in s.workers && run in s.disk && w < |s.shared.waiters|
    && match s.workers[run]
       case Waiting(v) => v == w
       case TimedOut(v) => v == w
       case Woken(v) => v == w
       case Confirmed(v) => v == w
       case Leaving(v, _) => v == w
       case _ => false
  }

  // ----- confirmations

  /** The run's worker is in the wait on w, whose event is set and whose overrides are o, and not cancelled. */
  ghost predicate Heard(s: State, run: RunId, w: nat, o: Overrides) {
    && InWait(s, run, w) && run !in s.shared.cancelled
    && s.shared.waiters[w].event && s.shared.waiters[w].overrides == Some(o)
    && (s.workers[run].Leaving? ==> s.workers[run].overrides == Some(o))
  }

  /** How many steps of its worker separate an answered wait from its return. */
  function StepsToReturn(pc: Worker): nat {
    match pc
    case TimedOut(_) => 5
    case Waiting(_) => 4
    case Woken(_) => 3
    case Confirmed(_) => 2
    case Leaving(_, _) => 1
    case _ => 0
  }

  /** An accepted confirmation that reaches a worker before it has passed its check is heard. */
  lemma ConfirmationIsHeard(s: State, run: RunId, w: nat, o: Overrides)
    requires Inv(s) && InWait(s, run, w) && run !in s.shared.cancelled
    requires s.workers[run].Waiting? || s.workers[run].TimedOut? || s.workers[run].Woken? || s.workers[run].Confirmed?
    ensures Step(s, ConfirmStaging(run, o)).Some? && Heard(Step(s, ConfirmStaging(run, o)).value, run, w, o)
  {
  }

  /** The worker of an answered wait always has a step to take. */
  lemma HeardWorkerCanStep(s: State, run: RunId, w: nat, o: Overrides)
    requires Heard(s, run, w, o)
    ensures exists step :: StepWorker(s, run, step).Some?
  {
    var pc := s.workers[run];
    var step := if pc.Waiting? then Wait else if pc.TimedOut? || pc.Woken? then CheckFlag
                else if pc.Confirmed? then TakeOverrides else Leave;
    assert StepWorker(s, run, step).Some?;
  }

  /** Whatever happens next, the wait is still answered, and nearer to its return if its own worker moved, or it has
    * returned. */
  lemma StepKeepsHeard(s: State, a: Action, run: RunId, w: nat, o: Overrides)
    requires Heard(s, run, w, o) && Step(s, a).Some? && run !in Step(s, a).value.shared.cancelled
    requires !(a.ConfirmStaging? && a.run == run) && WaitersRegistered(s)
    ensures var t := Step(s, a).value;
            if Heard(t, run, w, o) then
              StepsToReturn(t.workers[run]) + WorkStep(a, run) <= StepsToReturn(s.workers[run])
            else t.history == s.history + [Returned(run, w, o)]
  {
    if a.Work? && a.run == run {
      OwnStepKeepsHeard(s, a.step, run, w, o);
    } else {
      OtherStepKeepsHeard(s, a, run, w, o);
    }
  }

  lemma OwnStepKeepsHeard(s: State, step: WorkerStep, run: RunId, w: nat, o: Overrides)
    requires Heard(s, run, w, o) && StepWorker(s, run, step).Some?
    ensures var t := StepWorker(s, run, step).value;
            if Heard(t, run, w, o) then StepsToReturn(t.workers[run]) + 1 == StepsToReturn(s.workers[run])
            else t.history == s.history + [Returned(run, w, o)]
  {
  }

  /** Nothing that the wait on w depends on has changed. */
  ghost predicate SameWait(s: State, t: State, run: RunId, w: nat)
    requires run in s.workers && w < |s.shared.waiters|
  {
    && run in t.workers && t.workers[run] == s.workers[run] && s.disk.Keys <= t.disk.Keys
    && w < |t.shared.waiters| && t.shared.waiters[w].overrides == s.shared.waiters[w].overrides
    && (s.shared.waiters[w].event ==> t.shared.waiters[w].event)
  }

  lemma OthersWork(s: State, other: RunId, step: WorkerStep, run: RunId, w: nat)
    requires other != run && run in s.workers && w < |s.shared.waiters| && StepWorker(s, other, step).Some?
    ensures SameWait(s, StepWorker(s, other, step).value, run, w)
  {
  }

  lemma OthersConfirmed(s: State, other: RunId, o: Overrides, run: RunId, w: nat)
    requires other != run && WaitersRegistered(s) && InWait(s, run, w) && HasWaiter(s.shared, other)
    ensures SameWait(s, Step(s, ConfirmStaging(other, o)).value, run, w)
  {
    assert InAwait(s.workers[other]) && s.shared.waiters[s.shared.waiting[other]].run == other;
    assert InAwait(s.workers[run]) && s.shared.waiters[w].run == run;
  }

  lemma RequestProceeds(s: State, id: nat, run: RunId, w: nat)
    requires run in s.workers && w < |s.shared.waiters| && Step(s, Proceed(id)).Some?
    ensures SameWait(s, Step(s, Proceed(id)).value, run, w)
  {
    RequestStep(s, s.requests[id], run, w);
  }

  lemma RequestStep(s: State, r: Request, run: RunId, w: nat)
    requires run in s.workers && w < |s.shared.waiters| && StepRequest(s, r).Some?
    ensures SameWait(s, StepRequest(s, r).value.0, run, w)
  {
  }

  lemma OtherStepKeepsHeard(s: State, a: Action, run: RunId, w: nat, o: Overrides)
    requires Heard(s, run, w, o) && Step(s, a).Some? && run !in Step(s, a).value.shared.cancelled
    requires !(a.ConfirmStaging? && a.run == run) && !(a.Work? && a.run == run) && WaitersRegistered(s)
    ensures Heard(Step(s, a).value, run, w, o) && Step(s, a).value.workers[run] == s.workers[run]
  {
    match a
    case Work(other, step) => OthersWork(s, other, step, run, w);
    case ConfirmStaging(other, overrides) => OthersConfirmed(s, other, overrides, run, w);
    case Proceed(id) => RequestProceeds(s, id, run, w);
    case _ => assert SameWait(s, Step(s, a).value, run, w);
  }

  lemma HistoryGrows(s: State, a: Action, e: Event)
    requires e in s.history && Step(s, a).Some?
    ensures e in Step(s, a).value.history
  {
  }

  /** The wait has returned, or is nearer to it than it was in s by the k steps its worker has made since. */
  ghost predicate Progressed(s: State, t: State, run: RunId, w: nat, o: Overrides, k: nat)
    requires run in s.workers
  {
    || Returned(run, w, o) in t.history
    || (Heard(t, run, w, o) && StepsToReturn(t.workers[run]) + k <= StepsToReturn(s.workers[run]))
  }

  lemma StepProgresses(t: State, a: Action, run: RunId, w: nat, o: Overrides)
    requires WaitersRegistered(t) && Step(t, a).Some? && run !in Step(t, a).value.shared.cancelled
    requires !(a.ConfirmStaging? && a.run == run)
    ensures Heard(t, run, w, o) ==> Progressed(t, Step(t, a).value, run, w, o, WorkStep(a, run))
    ensures Returned(run, w, o) in t.history ==> Returned(run, w, o) in Step(t, a).value.history
  {
    if Heard(t, run, w, o) { StepKeepsHeard(t, a, run, w, o); }
    if Returned(run, w, o) in t.history { HistoryGrows(t, a, Returned(run, w, o)); }
  }

  lemma ProgressAdds(s: State, t: State, u: State, run: RunId, w: nat, o: Overrides, j: nat, k: nat)
    requires run in s.workers && Progressed(s, t, run, w, o, j)
    requires Heard(t, run, w, o) ==> Progressed(t, u, run, w, o, k)
    requires Returned(run, w, o) in t.history ==> Returned(run, w, o) in u.history
    ensures Progressed(s, u, run, w, o, j + k)
  {
  }

  lemma ProgressCarries(s: State, t: State, a: Action, run: RunId, w: nat, o: Overrides, j: nat)
    requires run in s.workers && Progressed(s, t, run, w, o, j)
    requires WaitersRegistered(t) && Step(t, a).Some? && run !in Step(t, a).value.shared.cancelled
    requires !(a.ConfirmStaging? && a.run == run)
    ensures Progressed(s, Step(t, a).value, run, w, o, j + WorkStep(a, run))
  {
    StepProgresses(t, a, run, w, o);
    ProgressAdds(s, t, Step(t, a).value, run, w, o, j, WorkStep(a, run));
  }

  lemma RunRegisters(s: State, actions: seq<Action>)
    requires Inv(s) && RunFrom(s, actions).Some?
    ensures WaitersRegistered(RunFrom(s, actions).value)
  {
    RunKeepsInv(s, actions);
  }

  /**
   * Once a confirmation has been heard, the run not being cancelled and no other confirmation following, the
   * worker returns with those overrides after at most five steps of its own, whatever else goes on in between.
   */
  lemma {:induction false} HeardConfirmationReturns(s: State, actions: seq<Action>, run: RunId, w: nat, o: Overrides)
    requires Inv(s) && Heard(s, run, w, o) && RunFrom(s, actions).Some?
    requires run !in RunFrom(s, actions).value.shared.cancelled
    requires forall a :: a in actions && a.ConfirmStaging? ==> a.run != run
    ensures Progressed(s, RunFrom(s, actions).value, run, w, o, WorkSteps(actions, run))
    decreases |actions|
  {
    if |actions| != 0 {
      var n := |actions| - 1;
      var a, before := actions[n], RunFrom(s, actions[..n]).value;
      StepKeepsCancelled(before, a);
      HeardConfirmationReturns(s, actions[..n], run, w, o);
      RunRegisters(s, actions[..n]);
      ProgressCarries(s, before, a, run, w, o, WorkSteps(actions[..n], run));
    }
  }

  function Answer(run: RunId, o: Overrides): seq<Action> {
    [ConfirmStaging(run, o), Work(run, Wait), Work(run, CheckFlag), Work(run, TakeOverrides), Work(run, Leave)]
  }

  /** A confirmation accepted while the worker waits is followed, step by step, by its return. */
  lemma ConfirmationIsReturned(s: State, run: RunId, w: nat, o: Overrides)
    requires Inv(s) && run in s.workers && s.workers[run] == Waiting(w) && run !in s.shared.cancelled
    ensures RunFrom(s, Answer(run, o)).Some?
    ensures var t := RunFrom(s, Answer(run, o)).value;
            && t.workers[run] == Working && run !in t.shared.waiting
            && t.history == s.history + [Accepted(run, w, o), PassedCheck(run, w), Returned(run, w, o)]
  {
    AnswerIsAccepted(s, run, w, o);
    AnswerReturns(s, Log(s.(shared := Confirm(s.shared, run, o)), Accepted(run, w, o)), run, w, o);
  }

  lemma AnswerReturns(s: State, s1: State, run: RunId, w: nat, o: Overrides)
    requires Step(s, ConfirmStaging(run, o)) == Some(s1)
    requires Heard(s1, run, w, o) && s1.workers[run] == Waiting(w)
    ensures RunFrom(s, Answer(run, o)).Some?
    ensures var t := RunFrom(s, Answer(run, o)).value;
            && t.workers == s1.workers[run := Working] && run !in t.shared.waiting
            && t.history == s1.history + [PassedCheck(run, w), Returned(run, w, o)]
  {
    var s2 := Move(s1, run, Woken(w));
    var s3 := Log(Move(s2, run, Confirmed(w)), PassedCheck(run, w));
    var s4 := Move(s3, run, Leaving(w, Some(o)));
    AnswerRuns(s, s1, s2, s3, s4, run, w, o);
  }

  lemma AnswerRuns(s: State, s1: State, s2: State, s3: State, s4: State, run: RunId, w: nat, o: Overrides)
    requires Step(s, ConfirmStaging(run, o)) == Some(s1)
    requires Heard(s1, run, w, o) && s1.workers[run] == Waiting(w)
    requires s2 == Move(s1, run, Woken(w)) && s3 == Log(Move(s2, run, Confirmed(w)), PassedCheck(run, w))
    requires s4 == Move(s3, run, Leaving(w, Some(o)))
    ensures RunFrom(s, Answer(run, o))
         == Some(Log(Move(s4.(shared := CloseWaiter(s4.shared, run)), run, Working), Returned(run, w, o)))
  {
    AnsweredSteps(s1, s2, s3, s4, run, w, o);
    AnswerPrefixes(run, o);
    Extend(s, [], s, ConfirmStaging(run, o));
    Extend(s, Answer(run, o)[..1], s1, Work(run, Wait));
    Extend(s, Answer(run, o)[..2], s2, Work(run, CheckFlag));
    Extend(s, Answer(run, o)[..3], s3, Work(run, TakeOverrides));
    Extend(s, Answer(run, o)[..4], s4, Work(run, Leave));
  }

  lemma AnswerPrefixes(run: RunId, o: Overrides)
    ensures var all := Answer(run, o);
            && all[..1] == [] + [ConfirmStaging(run, o)] && all[..2] == all[..1] + [Work(run, Wait)]
            && all[..3] == all[..2] + [Work(run, CheckFlag)] && all[..4] == all[..3] + [Work(run, TakeOverrides)]
            && all == all[..4] + [Work(run, Leave)]
  {
  }

  lemma AnswerIsAccepted(s: State, run: RunId, w: nat, o: Overrides)
    requires Inv(s) && run in s.workers && s.workers[run] == Waiting(w) && run !in s.shared.cancelled
    ensures var t := Log(s.(shared := Confirm(s.shared, run, o)), Accepted(run, w, o));
            && Step(s, ConfirmStaging(run, o)) == Some(t)
            && Heard(t, run, w, o) && t.workers[run] == Waiting(w)
  {
    ConfirmationIsHeard(s, run, w, o);
  }

  lemma AnsweredSteps(s1: State, s2: State, s3: State, s4: State, run: RunId, w: nat, o: Overrides)
    requires Heard(s1, run, w, o) && s1.workers[run] == Waiting(w)
    requires s2 == Move(s1, run, Woken(w)) && s3 == Log(Move(s2, run, Confirmed(w)), PassedCheck(run, w))
    requires s4 == Move(s3, run, Leaving(w, Some(o)))
    ensures StepWorker(s1, run, Wait) == Some(s2) && StepWorker(s2, run, CheckFlag) == Some(s3)
    ensures StepWorker(s3, run, TakeOverrides) == Some(s4)
    ensures StepWorker(s4, run, Leave)
         == Some(Log(Move(s4.(shared := CloseWaiter(s4.shared, run)), run, Working), Returned(run, w, o)))
  {
  }

  lemma Extend(s: State, actions: seq<Action>, t: State, a: Action)
    requires RunFrom(s, actions) == Some(t)
    ensures RunFrom(s, actions + [a]) == Step(t, a)
  {
    assert (actions + [a])[..|actions|] == actions;
  }

  // ----- cancellations

  /** How many steps of its worker separate a cancelled wait from its end. */
  function StepsToLeave(pc: Worker): nat {
    match pc
    case Waiting(_) => 3
    case TimedOut(_) => 2
    case Woken(_) => 2
    case Confirmed(_) => 2
    case Leaving(_, _) => 1
    case _ => 0
  }

  lemma CancelledStep(s: State, a: Action, run: RunId, w: nat)
    requires run in s.shared.cancelled && run in s.workers && run in s.disk && w < |s.shared.waiters|
    requires Step(s, a).Some?
    ensures var t := Step(s, a).value;
            && run in t.shared.cancelled && run in t.workers && run in t.disk && w < |t.shared.waiters|
            && (InWait(t, run, w) ==> InWait(s, run, w))
            && (InWait(t, run, w) ==>
                  StepsToLeave(t.workers[run]) + WorkStep(a, run) <= StepsToLeave(s.workers[run]))
  {
    StepKeepsCancelled(s, a);
    if a.Work? && a.run == run {
      CancelledOwnStep(s, a.step, run, w);
    } else {
      OthersLeaveIt(s, a, run, w);
    }
  }

  lemma CancelledOwnStep(s: State, step: WorkerStep, run: RunId, w: nat)
    requires run in s.shared.cancelled && run in s.workers && run in s.disk && w < |s.shared.waiters|
    requires StepWorker(s, run, step).Some?
    ensures var t := StepWorker(s, run, step).value;
            && run in t.workers && run in t.disk && w < |t.shared.waiters|
            && (InWait(t, run, w) ==> InWait(s, run, w))
            && (InWait(t, run, w) ==> StepsToLeave(t.workers[run]) + 1 <= StepsToLeave(s.workers[run]))
  {
  }

  lemma OthersLeaveIt(s: State, a: Action, run: RunId, w: nat)
    requires run in s.workers && w < |s.shared.waiters| && Step(s, a).Some? && !(a.Work? && a.run == run)
    ensures var t := Step(s, a).value;
            && run in t.workers && t.workers[run] == s.workers[run] && s.disk.Keys <= t.disk.Keys
            && w < |t.shared.waiters|
  {
    match a
    case Work(other, step) => OthersWork(s, other, step, run, w);
    case Proceed(id) => RequestProceeds(s, id, run, w);
    case _ =>
  }

  /** A cancelled wait is over after at most three steps of its worker, whether or not anything wakes it. */
  lemma {:induction false} CancelledWaitEnds(s: State, actions: seq<Action>, run: RunId, w: nat)
    requires run in s.shared.cancelled && InWait(s, run, w) && RunFrom(s, actions).Some?
    ensures var t := RunFrom(s, actions).value;
            && run in t.shared.cancelled && run in t.workers && run in t.disk && w < |t.shared.waiters|
            && (InWait(t, run, w) ==>
                  StepsToLeave(t.workers[run]) + WorkSteps(actions, run) <= StepsToLeave(s.workers[run]))
    decreases |actions|
  {
    if |actions| != 0 {
      var n := |actions| - 1;
      CancelledWaitEnds(s, actions[..n], run, w);
      CancelledStep(RunFrom(s, actions[..n]).value, actions[n], run, w);
    }
  }

  // ----- cancel requests

  ghost predicate InRange(r: Request) {
    match r
    case FirstRead(_, i) => i <= 4
    case SecondRead(_, i, _) => i <= 4
    case _ => true
  }

  /** The most steps that separate a cancel request from its answer. */
  function StepsToAnswer(r: Request): int {
    match r
    case FirstRead(_, i) => 13 - i
    case Lookup(_) => 8
    case HaveEvent(_) => 2
    case Notify(_) => 1
    case SecondRead(_, i, _) => 7 - i
    case Marking(_, _) => 1
    case Answered(_, _) => 0
  }

  /** A request that has no answer yet can always go on, and is then nearer to it. */
  lemma RequestCanProceed(s: State, id: nat)
    requires Inv(s) && id in s.requests && InRange(s.requests[id]) && !s.requests[id].Answered?
    ensures Step(s, Proceed(id)).Some?
    ensures var next := Step(s, Proceed(id)).value.requests[id];
            InRange(next) && 0 <= StepsToAnswer(next) < StepsToAnswer(s.requests[id])
  {
    assert RequestSound(s, s.requests[id]);
  }

  function Turns(actions: seq<Action>, id: nat): nat {
    if |actions| == 0 then 0
    else
      var n := |actions| - 1;
      Turns(actions[..n], id) + if actions[n] == Proceed(id) then 1 else 0
  }

  lemma StepNearsAnswer(s: State, a: Action, id: nat)
    requires Inv(s) && id in s.requests && InRange(s.requests[id]) && Step(s, a).Some?
    ensures var t := Step(s, a).value;
            && id in t.requests && InRange(t.requests[id])
            && StepsToAnswer(t.requests[id]) + (if a == Proceed(id) then 1 else 0) <= StepsToAnswer(s.requests[id])
  {
    if a == Proceed(id) {
      RequestCanProceed(s, id);
    } else {
      RequestsRemain(s, a, id);
      OtherRequestsStay(s, a, id);
    }
  }

  lemma RequestsRemain(s: State, a: Action, id: nat)
    requires id in s.requests && Step(s, a).Some?
    ensures id in Step(s, a).value.requests
  {
  }

  /** Every turn a request gets brings it nearer to its answer, whatever else goes on in between. */
  lemma {:induction false} RequestNearsAnswer(s: State, actions: seq<Action>, id: nat)
    requires Inv(s) && id in s.requests && InRange(s.requests[id]) && RunFrom(s, actions).Some?
    ensures var t := RunFrom(s, actions).value;
            && id in t.requests && InRange(t.requests[id])
            && StepsToAnswer(t.requests[id]) + Turns(actions, id) <= StepsToAnswer(s.requests[id])
    decreases |actions|
  {
    if |actions| != 0 {
      var n := |actions| - 1;
      RequestNearsAnswer(s, actions[..n], id);
      RunKeepsInv(s, actions[..n]);
      StepNearsAnswer(RunFrom(s, actions[..n]).value, actions[n], id);
    }
  }

  /** A cancel request has its answer after at most thirteen turns from when it was made. */
  lemma RequestIsAnswered(s: State, id: nat, run: RunId, actions: seq<Action>)
    requires Inv(s) && Step(s, Ask(id, run)).Some? && RunFrom(Step(s, Ask(id, run)).value, actions).Some?
    ensures var t := RunFrom(Step(s, Ask(id, run)).value, actions).value;
            && id in t.requests && Turns(actions, id) <= 13
            && (Turns(actions, id) == 13 ==> t.requests[id].Answered?)
  {
    var asked := Step(s, Ask(id, run)).value;
    AskKeepsInv(s, id, run, asked);
    RequestNearsAnswer(asked, actions, id);
  }
}

/** What holds of staging confirmations, cancels and status over all interleavings. */
module RunControl {
  import opened RunManager
  import opened RunSteps
  import opened RunInvariant

  // ----- staging confirmations, over all interleavings

  /**
   * Whenever a staging wait has returned normally, a confirmation with those very overrides had been
   * accepted on that waiter, and that waiter had found the cancel flag unset.
   */
  lemma StagingReturnsOnlyAcceptedOverrides(disk: map<RunId, set<File>>, actions: seq<Action>, i: nat)
    requires RunFrom(Initial(disk), actions).Some?
    requires var h := RunFrom(Initial(disk), actions).value.history; i < |h| && h[i].Returned?
    ensures var h := RunFrom(Initial(disk), actions).value.history;
            && Accepted(h[i].run, h[i].w, h[i].overrides) in h[..i]
            && PassedCheck(h[i].run, h[i].w) in h[..i]
  {
    InitialIsSound(disk);
    RunKeepsInv(Initial(disk), actions);
  }

  /** The run is cancelled and the waiter has not passed its check. */
  ghost predicate CancelledBeforeCheck(s: State, run: RunId, w: nat) {
    run in s.shared.cancelled && PassedCheck(run, w) !in s.history
  }

  lemma StepKeepsCancelledBeforeCheck(s: State, a: Action, run: RunId, w: nat)
    requires CancelledBeforeCheck(s, run, w) && Step(s, a).Some?
    ensures CancelledBeforeCheck(Step(s, a).value, run, w)
  {
  }

  /** Once a run is cancelled before a waiter passes its check, no confirmation makes that waiter return. */
  lemma {:induction false} CancelWinsBeforeCheck(s: State, actions: seq<Action>, run: RunId, w: nat)
    requires Inv(s) && CancelledBeforeCheck(s, run, w) && RunFrom(s, actions).Some?
    ensures var t := RunFrom(s, actions).value;
            CancelledBeforeCheck(t, run, w) && forall o :: Returned(run, w, o) !in t.history
    decreases |actions|
  {
    var t := RunFrom(s, actions).value;
    RunKeepsInv(s, actions);
    if |actions| != 0 {
      var n := |actions| - 1;
      CancelWinsBeforeCheck(s, actions[..n], run, w);
      StepKeepsCancelledBeforeCheck(RunFrom(s, actions[..n]).value, actions[n], run, w);
    }
    forall o ensures Returned(run, w, o) !in t.history { ReturnedMeansChecked(t.history, run, w, o); }
  }

  lemma ReturnedMeansChecked(h: seq<Event>, run: RunId, w: nat, o: Overrides)
    requires HistoryJustified(h) && PassedCheck(run, w) !in h
    ensures Returned(run, w, o) !in h
  {
  }

  /** A run has a registered waiter exactly while its worker stands inside the wait. */
  lemma WaiterIsAlwaysDeregistered(disk: map<RunId, set<File>>, actions: seq<Action>, run: RunId)
    requires RunFrom(Initial(disk), actions).Some?
    ensures var s := RunFrom(Initial(disk), actions).value;
            run in s.shared.waiting <==> run in s.workers && InAwait(s.workers[run])
  {
    InitialIsSound(disk);
    RunKeepsInv(Initial(disk), actions);
  }

  // ----- status, over all interleavings

  lemma StatusOfFiles(files: set<File>)
    ensures TerminalStatus(GetStatus(files)) <==> TerminalFiles(files) != {}
    ensures GetStatus(files) == Completed <==> Manifest in files
    ensures GetStatus(files) == Status.Running <==> forall i :: 0 <= i < 4 ==> FileAt(i) !in files
    ensures forall i :: 0 <= i < 4 && FileAt(i) in files && (forall k :: 0 <= k < i ==> FileAt(k) !in files) ==>
              GetStatus(files) == Meaning(FileAt(i))
  {
    assert FileAt(0) == Manifest && FileAt(1) == CancelledFile && FileAt(2) == ErrorFile && FileAt(3) == Pending;
    if TerminalFiles(files) != {} {
      var f :| f in TerminalFiles(files);
    } else {
      assert Manifest !in TerminalFiles(files) && CancelledFile !in TerminalFiles(files)
        && ErrorFile !in TerminalFiles(files);
    }
  }

  /** Once a run's worker has exited, the status read from its files is terminal. */
  lemma ExitedRunsAreTerminal(disk: map<RunId, set<File>>, actions: seq<Action>, run: RunId)
    requires RunFrom(Initial(disk), actions).Some?
    requires var s := RunFrom(Initial(disk), actions).value; run in s.workers && s.workers[run] == Exited
    ensures var s := RunFrom(Initial(disk), actions).value; run in s.disk && TerminalStatus(GetStatus(s.disk[run]))
  {
    InitialIsSound(disk);
    RunKeepsInv(Initial(disk), actions);
    StatusOfFiles(RunFrom(Initial(disk), actions).value.disk[run]);
  }

  /** A run without an outcome is awaiting confirmation from when its worker writes the request until it clears it. */
  lemma PendingIsShown(s: State, run: RunId)
    requires run in s.disk && TerminalFiles(s.disk[run]) == {}
    ensures var t := Step(s, Work(run, WritePending));
            t.Some? ==> GetStatus(t.value.disk[run]) == AwaitingConfirmation
    ensures var t := Step(s, Work(run, ClearPending)); t.Some? ==> GetStatus(t.value.disk[run]) == Status.Running
  {
    StatusOfFiles(s.disk[run]);
  }

  /** What a worker records shows in the status: its outcome, unless something stronger is already on disk. */
  lemma RecordedOutcomeIsStatus(s: State, run: RunId)
    requires Inv(s) && Step(s, Work(run, Record)).Some?
    ensures var before, after := s.disk[run], Step(s, Work(run, Record)).value.disk[run];
            match s.workers[run].outcome
            case Normally => GetStatus(after) == Completed && after == before
            case ByCancel => GetStatus(after) == if Manifest in before then Completed else Cancelled
            case ByError => GetStatus(after) == if TerminalStatus(GetStatus(before)) then GetStatus(before) else Failed
  {
  }

  /** Only a run whose cancel flag is set ends as cancelled. */
  ghost predicate CancelledOnRequest(s: State) {
    forall run :: run in s.workers && s.workers[run] == Ending(ByCancel) ==> run in s.shared.cancelled
  }

  lemma StepKeepsCancelledOnRequest(s: State, a: Action)
    requires CancelledOnRequest(s) && Step(s, a).Some?
    ensures CancelledOnRequest(Step(s, a).value)
  {
    StepKeepsCancelled(s, a);
    if a.Work? {
      WorkKeepsCancelledOnRequest(s, a.run, a.step);
    }
  }

  lemma WorkKeepsCancelledOnRequest(s: State, run: RunId, step: WorkerStep)
    requires CancelledOnRequest(s) && StepWorker(s, run, step).Some?
    ensures CancelledOnRequest(StepWorker(s, run, step).value)
  {
  }

  lemma {:induction false} RunsAreCancelledOnRequest(disk: map<RunId, set<File>>, actions: seq<Action>)
    requires RunFrom(Initial(disk), actions).Some?
    ensures CancelledOnRequest(RunFrom(Initial(disk), actions).value)
    decreases |actions|
  {
    if |actions| != 0 {
      var n := |actions| - 1;
      RunsAreCancelledOnRequest(disk, actions[..n]);
      StepKeepsCancelledOnRequest(RunFrom(Initial(disk), actions[..n]).value, actions[n]);
    }
  }

  lemma StepKeepsTerminalFiles(s: State, a: Action, run: RunId)
    requires run in s.disk && Step(s, a).Some?
    ensures run in Step(s, a).value.disk && TerminalFiles(s.disk[run]) <= TerminalFiles(Step(s, a).value.disk[run])
  {
  }

  lemma {:induction false} RunKeepsTerminalFiles(s: State, actions: seq<Action>, run: RunId)
    requires run in s.disk && RunFrom(s, actions).Some?
    ensures var t := RunFrom(s, actions).value;
            run in t.disk && TerminalFiles(s.disk[run]) <= TerminalFiles(t.disk[run])
    decreases |actions|
  {
    if |actions| != 0 {
      var n := |actions| - 1;
      RunKeepsTerminalFiles(s, actions[..n], run);
      StepKeepsTerminalFiles(RunFrom(s, actions[..n]).value, actions[n], run);
    }
  }

  /** From any state on: a terminal status stays terminal, and completed stays completed. */
  lemma TerminalStatusIsClosed(s: State, actions: seq<Action>, run: RunId)
    requires run in s.disk && RunFrom(s, actions).Some?
    ensures var t := RunFrom(s, actions).value;
            && run in t.disk
            && (TerminalStatus(GetStatus(s.disk[run])) ==> TerminalStatus(GetStatus(t.disk[run])))
            && (GetStatus(s.disk[run]) == Completed ==> GetStatus(t.disk[run]) == Completed)
  {
    RunKeepsTerminalFiles(s, actions, run);
    var t := RunFrom(s, actions).value;
    StatusOfFiles(s.disk[run]);
    StatusOfFiles(t.disk[run]);
    if Manifest in s.disk[run] { assert Manifest in TerminalFiles(s.disk[run]); }
  }

  /**
   * A cancel request never marks as orphaned a run that this process was already tracking when the
   * request looked it up: by the time the run can be missed, its outcome is on disk.
   */
  lemma TrackedRunIsNeverOrphaned(disk: map<RunId, set<File>>, actions: seq<Action>, id: nat)
    requires RunFrom(Initial(disk), actions).Some? && id in RunFrom(Initial(disk), actions).value.requests
    ensures var r := RunFrom(Initial(disk), actions).value.requests[id]; r.Marking? ==> !r.known
  {
    InitialIsSound(disk);
    RunKeepsInv(Initial(disk), actions);
    var s := RunFrom(Initial(disk), actions).value;
    assert RequestSound(s, s.requests[id]);
  }

  // ----- what a cancel request is told

  /** A terminal answer is what the files say, and stays so; the answer "running" means that the flag is set. */
  ghost predicate AnswerHolds(s: State, r: Request) {
    r.Answered? ==>
      && r.run in s.disk
      && (TerminalStatus(r.status) ==> TerminalFiles(s.disk[r.run]) != {})
      && (r.status == Status.Running ==> r.run in s.shared.cancelled)
  }

  ghost predicate AnswersHold(s: State) {
    forall id :: id in s.requests ==> AnswerHolds(s, s.requests[id])
  }

  lemma StepKeepsCancelled(s: State, a: Action)
    requires Step(s, a).Some?
    ensures s.shared.cancelled <= Step(s, a).value.shared.cancelled
  {
  }

  lemma AnswerStays(s: State, a: Action, r: Request)
    requires AnswerHolds(s, r) && Step(s, a).Some?
    ensures AnswerHolds(Step(s, a).value, r)
  {
    if r.Answered? {
      StepKeepsTerminalFiles(s, a, r.run);
      StepKeepsCancelled(s, a);
    }
  }

  lemma AnswerIsGiven(s: State, id: nat)
    requires Inv(s) && Step(s, Proceed(id)).Some?
    ensures var t := Step(s, Proceed(id)).value; AnswerHolds(t, t.requests[id])
  {
    var r := s.requests[id];
    assert RequestSound(s, r);
    if (r.FirstRead? || r.SecondRead?) && r.i < 3 && FileAt(r.i) in s.disk[r.run] {
      assert FileAt(r.i) in TerminalFiles(s.disk[r.run]);
    }
    if r.Marking? {
      assert CancelledFile in TerminalFiles(Step(s, Proceed(id)).value.disk[r.run]);
    }
  }

  lemma OtherRequestsStay(s: State, a: Action, id: nat)
    requires Step(s, a).Some? && id in Step(s, a).value.requests && a != Proceed(id)
    ensures if id in s.requests then Step(s, a).value.requests[id] == s.requests[id]
            else Step(s, a).value.requests[id].FirstRead?
  {
  }

  /** Over every interleaving, whatever a cancel request was answered holds from then on. */
  lemma {:induction false} AnswersAreTrue(disk: map<RunId, set<File>>, actions: seq<Action>)
    requires RunFrom(Initial(disk), actions).Some?
    ensures AnswersHold(RunFrom(Initial(disk), actions).value)
    decreases |actions|
  {
    if |actions| != 0 {
      var n := |actions| - 1;
      var a, before := actions[n], RunFrom(Initial(disk), actions[..n]).value;
      var after := RunFrom(Initial(disk), actions).value;
      AnswersAreTrue(disk, actions[..n]);
      InitialIsSound(disk);
      RunKeepsInv(Initial(disk), actions[..n]);
      forall id | id in after.requests ensures AnswerHolds(after, after.requests[id]) {
        AnswerAfterStep(before, a, id);
      }
    }
  }

  lemma AnswerAfterStep(s: State, a: Action, id: nat)
    requires Inv(s) && AnswersHold(s) && Step(s, a).Some? && id in Step(s, a).value.requests
    ensures AnswerHolds(Step(s, a).value, Step(s, a).value.requests[id])
  {
    if a == Proceed(id) {
      AnswerIsGiven(s, id);
    } else {
      OtherRequestsStay(s, a, id);
      if id in s.requests { AnswerStays(s, a, s.requests[id]); }
    }
  }
}

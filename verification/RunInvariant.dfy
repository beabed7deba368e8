/**
 * What every step of the run state machine keeps.
 *
 * Waiters: one is registered for a run exactly while its worker is inside the staging wait, its event is
 * set only by a confirmation or after the cancel flag, and its overrides come from a confirmation.  The
 * history: every normal return was preceded by its accepted confirmation and by a check that found the
 * flag unset.  Status: a run is tracked until its outcome is on disk, and a cancel request that saw the
 * run tracked will still meet a terminal file.  Each kind of step has its own lemma.
 */
module RunInvariant {
  import opened Wrappers
  import opened RunManager
  import opened RunSteps

  ghost predicate InAwait(pc: Worker) {
    pc.Waiting? || pc.TimedOut? || pc.Woken? || pc.Confirmed? || pc.Leaving?
  }

  /** A waiter is registered for a run exactly while its worker is between registering and leaving. */
  ghost predicate WaitersRegistered(s: State) {
    && (forall run :: run in s.workers && InAwait(s.workers[run]) ==>
          && run in s.shared.waiting
          && s.shared.waiting[run] == s.workers[run].w
          && s.workers[run].w < |s.shared.waiters|
          && s.shared.waiters[s.workers[run].w].run == run)
    && (forall run :: run in s.shared.waiting ==> run in s.workers && InAwait(s.workers[run]))
  }

  /**
   * A waiter's event is set only by a confirmation or after the cancel flag; its overrides come from a
   * confirmation.
   */
  ghost predicate WaitersExplained(s: State) {
    forall w :: 0 <= w < |s.shared.waiters| ==>
      var c := s.shared.waiters[w];
      && (c.event ==> c.overrides.Some? || c.run in s.shared.cancelled)
      && (c.overrides.Some? ==> Accepted(c.run, w, c.overrides.value) in s.history)
  }

  ghost predicate ReturnJustified(s: State, run: RunId, pc: Worker) {
    match pc
    case Woken(w) => w < |s.shared.waiters| && s.shared.waiters[w].event
    case Confirmed(w) =>
      w < |s.shared.waiters| && s.shared.waiters[w].overrides.Some? && PassedCheck(run, w) in s.history
    case Leaving(w, o) => o.Some? ==> Accepted(run, w, o.value) in s.history && PassedCheck(run, w) in s.history
    case _ => true
  }

  /** A worker on its way to return has passed the flag check and holds accepted overrides. */
  ghost predicate ReturnsJustified(s: State) {
    forall run :: run in s.workers ==> ReturnJustified(s, run, s.workers[run])
  }

  /** Every normal return was preceded by its accepted confirmation and by a check that found the flag unset. */
  ghost predicate HistoryJustified(h: seq<Event>) {
    forall i :: 0 <= i < |h| && h[i].Returned? ==>
      Accepted(h[i].run, h[i].w, h[i].overrides) in h[..i] && PassedCheck(h[i].run, h[i].w) in h[..i]
  }

  /** A run is tracked until its outcome is on disk. */
  ghost predicate OutcomesRecorded(s: State) {
    && s.workers.Keys <= s.disk.Keys
    && (forall run :: run in s.shared.active <==>
          run in s.workers && !s.workers[run].Created? && !s.workers[run].Exited?)
    && (forall run :: run in s.workers && (s.workers[run].Popping? || s.workers[run].Exited?) ==>
          TerminalFiles(s.disk[run]) != {})
    && (forall run :: run in s.workers && s.workers[run] == Ending(Normally) ==> Manifest in s.disk[run])
  }

  /** Some terminal file is still ahead of a reader at position i. */
  ghost predicate TerminalAhead(files: set<File>, i: nat) {
    exists k :: i <= k < 3 && FileAt(k) in files
  }

  ghost predicate RequestSound(s: State, r: Request) {
    && r.run in s.disk
    && match r
       case SecondRead(run, i, known) => known ==> TerminalAhead(s.disk[run], i)
       case Marking(run, known) => !known
       case Notify(run) => run in s.shared.cancelled
       case _ => true
  }

  ghost predicate RequestsSound(s: State) {
    forall id :: id in s.requests ==> RequestSound(s, s.requests[id])
  }

  ghost predicate Inv(s: State) {
    WaitersRegistered(s) && WaitersExplained(s) && ReturnsJustified(s) && HistoryJustified(s.history)
    && OutcomesRecorded(s) && RequestsSound(s)
  }

  lemma InitialIsSound(disk: map<RunId, set<File>>)
    ensures Inv(Initial(disk))
  {
  }

  lemma CreateKeepsInv(s: State, run: RunId, t: State)
    requires Inv(s) && Step(s, Create(run)) == Some(t)
    ensures Inv(t)
  {
  }

  lemma HistoryExtends(h: seq<Event>, e: Event)
    requires HistoryJustified(h)
    requires e.Returned? ==> Accepted(e.run, e.w, e.overrides) in h && PassedCheck(e.run, e.w) in h
    ensures HistoryJustified(h + [e])
    ensures forall x :: x in h ==> x in h + [e]
  {
    forall i | 0 <= i < |h + [e]| && (h + [e])[i].Returned?
      ensures var x := (h + [e])[i];
              Accepted(x.run, x.w, x.overrides) in (h + [e])[..i] && PassedCheck(x.run, x.w) in (h + [e])[..i]
    {
      if i < |h| {
        assert (h + [e])[..i] == h[..i] && (h + [e])[i] == h[i];
      } else {
        assert (h + [e])[..i] == h;
      }
    }
  }

  lemma ConfirmKeepsInv(s: State, run: RunId, overrides: Overrides, t: State)
    requires Inv(s) && Step(s, ConfirmStaging(run, overrides)) == Some(t)
    ensures Inv(t)
  {
    var e := Accepted(run, s.shared.waiting[run], overrides);
    LoggingKeeps(s, e);
    HandingOverKeeps(Log(s, e), run, overrides);
  }

  lemma HandingOverKeeps(s: State, run: RunId, overrides: Overrides)
    requires Inv(s) && HasWaiter(s.shared, run) && Accepted(run, s.shared.waiting[run], overrides) in s.history
    ensures Inv(s.(shared := Confirm(s.shared, run, overrides)))
  {
    var t := s.(shared := Confirm(s.shared, run, overrides));
    forall r | r in t.workers ensures ReturnJustified(t, r, t.workers[r]) {
      assert ReturnJustified(s, r, s.workers[r]);
    }
    forall id | id in t.requests ensures RequestSound(t, t.requests[id]) {
      assert RequestSound(s, s.requests[id]);
    }
  }

  lemma CancelAllKeepsInv(s: State, run: RunId, t: State)
    requires Inv(s) && Step(s, CancelAllReaches(run)) == Some(t)
    ensures Inv(t)
  {
  }

  lemma AskKeepsInv(s: State, id: nat, run: RunId, t: State)
    requires Inv(s) && Step(s, Ask(id, run)) == Some(t)
    ensures Inv(t)
  {
  }

  lemma TerminalStillAhead(files: set<File>, i: nat)
    requires TerminalAhead(files, i) && i < 4 && FileAt(i) !in files
    ensures TerminalAhead(files, i + 1)
  {
  }

  lemma TrackedUntilRecorded(s: State, run: RunId)
    requires Inv(s) && Tracked(s, run) && run !in s.shared.active
    ensures run in s.disk && TerminalAhead(s.disk[run], 0)
  {
    assert FileAt(0) == Manifest && FileAt(1) == CancelledFile && FileAt(2) == ErrorFile;
  }

  lemma WakingKeeps(s: State, run: RunId)
    requires Inv(s) && run in s.shared.cancelled
    ensures Inv(s.(shared := Wake(s.shared, run)))
  {
    var t := s.(shared := Wake(s.shared, run));
    forall r | r in t.workers ensures ReturnJustified(t, r, t.workers[r]) {
      assert ReturnJustified(s, r, s.workers[r]);
    }
    forall id | id in t.requests ensures RequestSound(t, t.requests[id]) {
      assert RequestSound(s, s.requests[id]);
    }
  }

  /** The step keeps everything but the requests, and leaves the stepping request sound. */
  lemma RequestStepKeeps(s: State, r: Request)
    requires Inv(s) && RequestSound(s, r) && StepRequest(s, r).Some?
    ensures Inv(StepRequest(s, r).value.0)
    ensures RequestSound(StepRequest(s, r).value.0, StepRequest(s, r).value.1)
  {
    match r
    case Lookup(run) => if Tracked(s, run) && run !in s.shared.active { TrackedUntilRecorded(s, run); }
    case SecondRead(run, i, known) =>
      if known && i < 4 && FileAt(i) !in s.disk[run] { TerminalStillAhead(s.disk[run], i); }
    case Marking(run, known) => MarkingKeeps(s, run);
    case Notify(run) => WakingKeeps(s, run);
    case _ =>
  }

  /** Files are only added, so what readers and workers rely on stays. */
  lemma MarkingKeeps(s: State, run: RunId)
    requires Inv(s) && run in s.disk
    ensures Inv(Write(s, run, CancelledFile))
  {
    WritingKeeps(s, run, {CancelledFile});
  }

  lemma WritingKeeps(s: State, run: RunId, files: set<File>)
    requires Inv(s) && run in s.disk
    ensures Inv(s.(disk := s.disk[run := s.disk[run] + files]))
  {
    var t := s.(disk := s.disk[run := s.disk[run] + files]);
    forall id | id in t.requests ensures RequestSound(t, t.requests[id]) {
      assert RequestSound(s, t.requests[id]);
    }
    assert TerminalFiles(s.disk[run]) <= TerminalFiles(t.disk[run]);
  }

  lemma ProceedKeepsInv(s: State, id: nat, t: State)
    requires Inv(s) && Step(s, Proceed(id)) == Some(t)
    ensures Inv(t)
  {
    RequestStepKeeps(s, s.requests[id]);
    var next := StepRequest(s, s.requests[id]).value;
    assert forall r: Request :: RequestSound(next.0.(requests := next.0.requests[id := next.1]), r) <==>
      RequestSound(next.0, r);
  }

  lemma LoggingKeeps(s: State, e: Event)
    requires Inv(s)
    requires e.Returned? ==> Accepted(e.run, e.w, e.overrides) in s.history && PassedCheck(e.run, e.w) in s.history
    ensures Inv(Log(s, e)) && e in Log(s, e).history
  {
    HistoryExtends(s.history, e);
    var t := Log(s, e);
    assert e in t.history;
    forall run | run in t.workers ensures ReturnJustified(t, run, t.workers[run]) {
      assert ReturnJustified(s, run, s.workers[run]);
    }
    forall id | id in t.requests ensures RequestSound(t, t.requests[id]) {
      assert RequestSound(s, s.requests[id]);
    }
  }

  /** Moving a worker's program counter within a phase, to a place that is itself justified. */
  lemma MovingKeeps(s: State, run: RunId, pc: Worker)
    requires Inv(s) && run in s.workers && ReturnJustified(s, run, pc)
    requires InAwait(pc) <==> InAwait(s.workers[run])
    requires InAwait(pc) ==> pc.w == s.workers[run].w
    requires !s.workers[run].Created? && !s.workers[run].Exited?
    requires !pc.Created? && !pc.Popping? && !pc.Exited? && (pc == Ending(Normally) ==> Manifest in s.disk[run])
    ensures Inv(Move(s, run, pc))
  {
    var t := Move(s, run, pc);
    forall id | id in t.requests ensures RequestSound(t, t.requests[id]) {
      assert RequestSound(s, s.requests[id]);
    }
    forall r | r in t.workers ensures ReturnJustified(t, r, t.workers[r]) {
      if r != run { assert ReturnJustified(s, r, s.workers[r]); }
    }
  }

  lemma MovingStepKeepsInv(s: State, run: RunId, step: WorkerStep, t: State)
    requires Inv(s) && StepWorker(s, run, step) == Some(t)
    requires step in {Start, Wait, TakeOverrides, RaiseCancelled, RaiseError, Finish}
    ensures Inv(t)
  {
    assert ReturnJustified(s, run, s.workers[run]);
    MovingKeeps(s, run, t.workers[run]);
  }

  lemma CheckKeepsInv(s: State, run: RunId, t: State)
    requires Inv(s) && StepWorker(s, run, CheckFlag) == Some(t)
    ensures Inv(t)
  {
    var pc := s.workers[run];
    assert ReturnJustified(s, run, pc);
    if pc.Woken? && run !in s.shared.cancelled {
      var e := PassedCheck(run, pc.w);
      LoggingKeeps(s, e);
      MovingKeeps(Log(s, e), run, Confirmed(pc.w));
      assert t == Move(Log(s, e), run, Confirmed(pc.w));
    } else {
      MovingKeeps(s, run, t.workers[run]);
    }
  }

  lemma RegisterKeepsInv(s: State, run: RunId, t: State)
    requires Inv(s) && StepWorker(s, run, Register) == Some(t)
    ensures Inv(t)
  {
  }

  lemma PopKeepsInv(s: State, run: RunId, t: State)
    requires Inv(s) && StepWorker(s, run, Pop) == Some(t)
    ensures Inv(t)
  {
    forall id | id in t.requests ensures RequestSound(t, t.requests[id]) {
      assert RequestSound(s, s.requests[id]);
    }
  }

  lemma FilesKeepInv(s: State, run: RunId, step: WorkerStep, t: State)
    requires Inv(s) && StepWorker(s, run, step) == Some(t) && step in {WritePending, Finalize}
    ensures Inv(t)
  {
    WritingKeeps(s, run, {if step.Finalize? then Manifest else Pending});
  }

  lemma ClearKeepsInv(s: State, run: RunId, t: State)
    requires Inv(s) && StepWorker(s, run, ClearPending) == Some(t)
    ensures Inv(t)
  {
    forall id | id in t.requests ensures RequestSound(t, t.requests[id]) {
      assert RequestSound(s, t.requests[id]);
    }
    assert TerminalFiles(s.disk[run]) == TerminalFiles(t.disk[run]);
  }

  lemma RecordKeepsInv(s: State, run: RunId, t: State)
    requires Inv(s) && StepWorker(s, run, Record) == Some(t)
    ensures Inv(t)
  {
    var outcome := s.workers[run].outcome;
    var written := s.(disk := s.disk[run := s.disk[run] + OutcomeFile(outcome)]);
    WritingKeeps(s, run, OutcomeFile(outcome));
    var file := match outcome { case Normally => Manifest case ByCancel => CancelledFile case ByError => ErrorFile };
    assert file in TerminalFiles(written.disk[run]);
    RecordedKeeps(written, run);
  }

  lemma RecordedKeeps(s: State, run: RunId)
    requires Inv(s) && run in s.workers && s.workers[run].Ending? && TerminalFiles(s.disk[run]) != {}
    ensures Inv(Move(s, run, Popping))
  {
  }

  lemma AwaitKeepsInv(s: State, run: RunId, t: State)
    requires Inv(s) && StepWorker(s, run, Await) == Some(t)
    ensures Inv(t)
  {
    forall r | r in t.workers ensures ReturnJustified(t, r, t.workers[r]) {
      assert ReturnJustified(s, r, s.workers[r]);
    }
    forall id | id in t.requests ensures RequestSound(t, t.requests[id]) {
      assert RequestSound(s, s.requests[id]);
    }
  }

  lemma DeregisteringKeeps(s: State, run: RunId)
    requires Inv(s) && run in s.workers && s.workers[run].Leaving?
    ensures Inv(Move(s.(shared := CloseWaiter(s.shared, run)), run, Working))
  {
  }

  lemma LeaveKeepsInv(s: State, run: RunId, t: State)
    requires Inv(s) && StepWorker(s, run, Leave) == Some(t)
    ensures Inv(t)
  {
    var pc := s.workers[run];
    assert ReturnJustified(s, run, pc);
    DeregisteringKeeps(s, run);
    if pc.overrides.Some? {
      LoggingKeeps(Move(s.(shared := CloseWaiter(s.shared, run)), run, Working),
        Returned(run, pc.w, pc.overrides.value));
    }
  }

  lemma WorkKeepsInv(s: State, run: RunId, step: WorkerStep, t: State)
    requires Inv(s) && StepWorker(s, run, step) == Some(t)
    ensures Inv(t)
  {
    match step
    case Register => RegisterKeepsInv(s, run, t);
    case Pop => PopKeepsInv(s, run, t);
    case WritePending => FilesKeepInv(s, run, step, t);
    case Finalize => FilesKeepInv(s, run, step, t);
    case ClearPending => ClearKeepsInv(s, run, t);
    case Await => AwaitKeepsInv(s, run, t);
    case CheckFlag => CheckKeepsInv(s, run, t);
    case Leave => LeaveKeepsInv(s, run, t);
    case Record => RecordKeepsInv(s, run, t);
    case _ => MovingStepKeepsInv(s, run, step, t);
  }

  lemma StepKeepsInv(s: State, a: Action, t: State)
    requires Inv(s) && Step(s, a) == Some(t)
    ensures Inv(t)
  {
    match a
    case Create(run) => CreateKeepsInv(s, run, t);
    case Work(run, step) => WorkKeepsInv(s, run, step, t);
    case ConfirmStaging(run, overrides) => ConfirmKeepsInv(s, run, overrides, t);
    case CancelAllReaches(run) => CancelAllKeepsInv(s, run, t);
    case Ask(id, run) => AskKeepsInv(s, id, run, t);
    case Proceed(id) => ProceedKeepsInv(s, id, t);
  }

  lemma {:induction false} RunKeepsInv(s: State, actions: seq<Action>)
    requires Inv(s) && RunFrom(s, actions).Some?
    ensures Inv(RunFrom(s, actions).value)
  {
    if |actions| != 0 {
      var t := RunFrom(s, actions[..|actions| - 1]).value;
      RunKeepsInv(s, actions[..|actions| - 1]);
      StepKeepsInv(t, actions[|actions| - 1], RunFrom(s, actions).value);
    }
  }
}

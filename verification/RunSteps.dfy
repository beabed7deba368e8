/** Worker threads, staging confirmations, cancel requests and status files, as atomic steps. */
module RunSteps {
  import opened Wrappers
  import opened RunManager

  datatype File = Manifest | CancelledFile | ErrorFile | Pending

  datatype Status = Completed | Cancelled | Failed | AwaitingConfirmation | Running

  datatype Outcome = Normally | ByCancel | ByError

  /** Where a run's worker thread stands; w is the waiter it made. */
  datatype Worker =
    | Created                                       // run directory made, not tracked yet
    | Queued
    | Working
    | Waiting(w: nat)                               // about to wait on its event
    | TimedOut(w: nat)                              // the wait timed out; about to look at the cancel flag
    | Woken(w: nat)                                 // the event was set; about to look at the cancel flag
    | Confirmed(w: nat)                             // the flag was unset; about to read the overrides
    | Leaving(w: nat, overrides: Option<Overrides>) // about to deregister; None when raising
    | Ending(outcome: Outcome)                      // work has returned or raised; about to record it
    | Popping                                       // recorded; about to drop the cancel event
    | Exited

  /** Where a cancel request stands; i is the next status file to look for. */
  datatype Request =
    | FirstRead(run: RunId, i: nat)
    | Lookup(run: RunId)
    | HaveEvent(run: RunId)
    | Notify(run: RunId)
    | SecondRead(run: RunId, i: nat, known: bool)   // known: the run had been tracked before the lookup
    | Marking(run: RunId, known: bool)
    | Answered(run: RunId, status: Status)

  /** What happened to a waiter, in order. */
  datatype Event =
    | Accepted(run: RunId, w: nat, overrides: Overrides)
    | PassedCheck(run: RunId, w: nat)               // its cancel flag was looked at and unset
    | Returned(run: RunId, w: nat, overrides: Overrides)

  datatype State = State(
    shared: Shared,
    workers: map<RunId, Worker>,
    requests: map<nat, Request>,
    disk: map<RunId, set<File>>,
    history: seq<Event>)

  /** The order in which get_status looks for files, and what each means. */
  function FileAt(i: nat): File
    requires i < 4
  {
    if i == 0 then Manifest else if i == 1 then CancelledFile else if i == 2 then ErrorFile else Pending
  }

  function Meaning(f: File): Status {
    match f
    case Manifest => Completed
    case CancelledFile => Cancelled
    case ErrorFile => Failed
    case Pending => AwaitingConfirmation
  }

  function GetStatus(files: set<File>): Status {
    if Manifest in files then Completed
    else if CancelledFile in files then Cancelled
    else if ErrorFile in files then Failed
    else if Pending in files then AwaitingConfirmation
    else Running
  }

  predicate TerminalStatus(s: Status) { s == Completed || s == Cancelled || s == Failed }

  function TerminalFiles(files: set<File>): set<File> { files * {Manifest, CancelledFile, ErrorFile} }

  // ----- the steps

  datatype WorkerStep =
    | Register | Start | WritePending | ClearPending | Finalize | Await | Wait | CheckFlag | TakeOverrides | Leave
    | RaiseCancelled | RaiseError | Finish | Record | Pop

  datatype Action =
    | Create(run: RunId)
    | Work(run: RunId, step: WorkerStep)
    | ConfirmStaging(run: RunId, overrides: Overrides)
    | CancelAllReaches(run: RunId)
    | Ask(id: nat, run: RunId)
    | Proceed(id: nat)

  function Move(s: State, run: RunId, pc: Worker): State { s.(workers := s.workers[run := pc]) }

  function Write(s: State, run: RunId, f: File): State
    requires run in s.disk
  {
    s.(disk := s.disk[run := s.disk[run] + {f}])
  }

  function Log(s: State, e: Event): State { s.(history := s.history + [e]) }

  function OutcomeFile(o: Outcome): set<File> {
    match o
    case Normally => {}
    case ByCancel => {CancelledFile}
    case ByError => {ErrorFile}
  }

  /** One step of a run's worker; None when the worker is not at a point where the step can happen. */
  function StepWorker(s: State, run: RunId, step: WorkerStep): Option<State> {
    if run !in s.workers || run !in s.disk then None
    else
      var pc := s.workers[run];
      match step
      case Register => if pc.Created? then Some(Move(s.(shared := Activate(s.shared, run)), run, Queued)) else None
      case Start => if pc.Queued? then Some(Move(s, run, Working)) else None
      case WritePending => if pc.Working? then Some(Write(s, run, Pending)) else None
      case ClearPending =>
        if pc.Working? then Some(s.(disk := s.disk[run := s.disk[run] - {Pending}])) else None
      case Finalize => if pc.Working? then Some(Write(s, run, Manifest)) else None
      case Await =>
        if pc.Working? then Some(Move(s.(shared := OpenWaiter(s.shared, run)), run, Waiting(|s.shared.waiters|)))
          else None
      case Wait =>
        if pc.Waiting? && pc.w < |s.shared.waiters| then
          Some(Move(s, run, if s.shared.waiters[pc.w].event then Woken(pc.w) else TimedOut(pc.w)))
        else None
      case CheckFlag =>
        var flag := run in s.shared.cancelled;
        if pc.TimedOut? then Some(Move(s, run, if flag then Leaving(pc.w, None) else Waiting(pc.w)))
        else if pc.Woken? then
          Some(if flag then Move(s, run, Leaving(pc.w, None))
            else Log(Move(s, run, Confirmed(pc.w)), PassedCheck(run, pc.w)))
        else None
      case TakeOverrides =>
        if pc.Confirmed? && pc.w < |s.shared.waiters| then
          var o := s.shared.waiters[pc.w].overrides;
          Some(Move(s, run, Leaving(pc.w, Some(if o.Some? then o.value else map[]))))
        else None
      case Leave =>
        if pc.Leaving? then
          var left := Move(s.(shared := CloseWaiter(s.shared, run)), run, Working);
          Some(if pc.overrides.Some? then Log(left, Returned(run, pc.w, pc.overrides.value)) else left)
        else None
      case RaiseCancelled =>
        if pc.Working? && run in s.shared.cancelled then Some(Move(s, run, Ending(ByCancel))) else None
      case RaiseError => if pc.Working? then Some(Move(s, run, Ending(ByError))) else None
      case Finish => if pc.Working? && Manifest in s.disk[run] then Some(Move(s, run, Ending(Normally))) else None
      case Record =>
        if pc.Ending? then Some(Move(s.(disk := s.disk[run := s.disk[run] + OutcomeFile(pc.outcome)]), run, Popping))
          else None
      case Pop => if pc.Popping? then Some(Move(s.(shared := Deactivate(s.shared, run)), run, Exited)) else None
  }

  function Tracked(s: State, run: RunId): bool { run in s.workers && !s.workers[run].Created? }

  function StepRequest(s: State, r: Request): Option<(State, Request)> {
    match r
    case FirstRead(run, i) =>
      if run !in s.disk || i > 4 then None
      else if i == 4 then Some((s, Lookup(run)))
      else if FileAt(i) in s.disk[run] then Some((s, Answered(run, Meaning(FileAt(i)))))
      else Some((s, FirstRead(run, i + 1)))
    case Lookup(run) =>
      Some((s, if run in s.shared.active then HaveEvent(run) else SecondRead(run, 0, Tracked(s, run))))
    case HaveEvent(run) => Some((s.(shared := SetCancelled(s.shared, run)), Notify(run)))
    case Notify(run) => Some((s.(shared := Wake(s.shared, run)), Answered(run, Running)))
    case SecondRead(run, i, known) =>
      if run !in s.disk || i > 4 then None
      else if i == 4 then Some((s, Marking(run, known)))
      else if FileAt(i) in s.disk[run] then Some((s, Answered(run, Meaning(FileAt(i)))))
      else Some((s, SecondRead(run, i + 1, known)))
    case Marking(run, known) =>
      if run !in s.disk then None else Some((Write(s, run, CancelledFile), Answered(run, Cancelled)))
    case Answered(run, status) => None
  }

  function Step(s: State, a: Action): Option<State> {
    match a
    case Create(run) =>
      if run in s.disk || run in s.workers then None
      else Some(Move(s.(disk := s.disk[run := {}]), run, Created))
    case Work(run, step) => StepWorker(s, run, step)
    case ConfirmStaging(run, overrides) =>
      if !HasWaiter(s.shared, run) then None
      else Some(Log(s.(shared := Confirm(s.shared, run, overrides)), Accepted(run, s.shared.waiting[run], overrides)))
    case CancelAllReaches(run) =>
      if run in s.shared.active then Some(s.(shared := SetCancelled(s.shared, run))) else None
    case Ask(id, run) =>
      if id in s.requests || run !in s.disk then None else Some(s.(requests := s.requests[id := FirstRead(run, 0)]))
    case Proceed(id) =>
      if id !in s.requests then None
      else
        match StepRequest(s, s.requests[id])
        case None => None
        case Some(next) => Some(next.0.(requests := next.0.requests[id := next.1]))
  }

  /** A freshly started process over whatever run directories earlier processes left behind. */
  function Initial(disk: map<RunId, set<File>>): State {
    State(Shared({}, {}, map[], []), map[], map[], disk, [])
  }

  /** The state after a list of actions, or None if one of them could not happen. */
  function RunFrom(s: State, actions: seq<Action>): Option<State> {
    if |actions| == 0 then Some(s)
    else
      match RunFrom(s, actions[..|actions| - 1])
      case None => None
      case Some(t) => Step(t, actions[|actions| - 1])
  }
}

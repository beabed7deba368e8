/** The state that request threads and worker threads share, and the critical sections that change it. */
module RunManager {
  import opened Wrappers

  type RunId = string

  type Overrides = map<string, string>

  /** A staging waiter: its event, and the overrides an accepted confirmation has put into it. */
  datatype Waiter = Waiter(run: RunId, event: bool, overrides: Option<Overrides>)

  /**
   * active: the runs with an entry in _cancel_events.  cancelled: the runs whose cancel event is set; the
   * event object outlives its entry.  waiting: _staging_waiters.  waiters: every waiter made so far.
   */
  datatype Shared = Shared(active: set<RunId>, cancelled: set<RunId>, waiting: map<RunId, nat>, waiters: seq<Waiter>)

  function Activate(s: Shared, run: RunId): Shared { s.(active := s.active + {run}) }

  function Deactivate(s: Shared, run: RunId): Shared { s.(active := s.active - {run}) }

  function SetCancelled(s: Shared, run: RunId): Shared { s.(cancelled := s.cancelled + {run}) }

  function OpenWaiter(s: Shared, run: RunId): Shared {
    s.(waiting := s.waiting[run := |s.waiters|], waiters := s.waiters + [Waiter(run, false, None)])
  }

  function CloseWaiter(s: Shared, run: RunId): Shared { s.(waiting := s.waiting - {run}) }

  function HasWaiter(s: Shared, run: RunId): bool { run in s.waiting && s.waiting[run] < |s.waiters| }

  /** Sets the event of the run's waiter, if it has one. */
  function Wake(s: Shared, run: RunId): Shared {
    if !HasWaiter(s, run) then s
    else
      var w := s.waiting[run];
      s.(waiters := s.waiters[w := s.waiters[w].(event := true)])
  }

  /** Hands overrides to the run's waiter and wakes it, if it has one. */
  function Confirm(s: Shared, run: RunId, overrides: Overrides): Shared {
    if !HasWaiter(s, run) then s
    else
      var w := s.waiting[run];
      s.(waiters := s.waiters[w := s.waiters[w].(overrides := Some(overrides), event := true)])
  }

  /** The manager object; its methods are the sections each thread runs without interruption. */
  class Manager {
    var cancelEvents: map<RunId, bool>  // present while the run is tracked; true once its event is set
    var finishedCancelled: set<RunId>   // runs no longer tracked whose event was set
    var stagingWaiters: map<RunId, nat>
    var waiters: seq<Waiter>

    ghost function Snapshot(): Shared
      reads this
    {
      Shared(cancelEvents.Keys, finishedCancelled + (set r | r in cancelEvents && cancelEvents[r]), stagingWaiters,
        waiters)
    }

    ghost predicate Valid()
      reads this
    {
      && (forall r :: r in stagingWaiters ==> stagingWaiters[r] < |waiters|)
      && cancelEvents.Keys !! finishedCancelled
    }

    constructor ()
      ensures Valid() && Snapshot() == Shared({}, {}, map[], [])
    {
      cancelEvents, finishedCancelled, stagingWaiters, waiters := map[], {}, map[], [];
    }

    method RegisterRun(run: RunId)
      requires Valid() && run !in Snapshot().active && run !in Snapshot().cancelled
      modifies this
      ensures Valid() && Snapshot() == Activate(old(Snapshot()), run)
    {
      cancelEvents := cancelEvents[run := false];
    }

    method ForgetRun(run: RunId)
      requires Valid()
      modifies this
      ensures Valid() && Snapshot() == Deactivate(old(Snapshot()), run)
    {
      if run in cancelEvents {
        if cancelEvents[run] { finishedCancelled := finishedCancelled + {run}; }
        cancelEvents := cancelEvents - {run};
      }
    }

    /** The whole of cancel(), as one thread sees it when nobody interleaves. */
    method Cancel(run: RunId) returns (signalled: bool)
      requires Valid()
      modifies this
      ensures Valid() && signalled == (run in old(Snapshot()).active)
      ensures Snapshot() == if signalled then Wake(SetCancelled(old(Snapshot()), run), run) else old(Snapshot())
      ensures signalled ==> cancelEvents == old(cancelEvents)[run := true]
      ensures stagingWaiters == old(stagingWaiters) && |waiters| == |old(waiters)|
      ensures forall w :: 0 <= w < |waiters| ==>
        && waiters[w].run == old(waiters)[w].run && waiters[w].overrides == old(waiters)[w].overrides
        && waiters[w].event == (old(waiters)[w].event
                                || (signalled && run in stagingWaiters && stagingWaiters[run] == w))
    {
      if run !in cancelEvents { return false; }
      cancelEvents := cancelEvents[run := true];
      if run in stagingWaiters {
        var w := stagingWaiters[run];
        waiters := waiters[w := waiters[w].(event := true)];
      }
      signalled := true;
    }

    /** Signals every tracked run; unlike Cancel it wakes no waiter. */
    method CancelAll()
      requires Valid()
      modifies this
      ensures Valid()
      ensures Snapshot() == old(Snapshot()).(cancelled := old(Snapshot()).cancelled + old(Snapshot()).active)
      ensures cancelEvents.Keys == old(cancelEvents).Keys && forall r :: r in cancelEvents ==> cancelEvents[r]
    {
      cancelEvents := map r | r in cancelEvents :: true;
    }

    method ConfirmStaging(run: RunId, overrides: Overrides) returns (accepted: bool)
      requires Valid()
      modifies this
      ensures Valid() && accepted == HasWaiter(old(Snapshot()), run)
      ensures Snapshot() == Confirm(old(Snapshot()), run, overrides)
      ensures accepted <==> run in stagingWaiters
      ensures accepted ==>
        && |waiters| == |old(waiters)|
        && waiters[stagingWaiters[run]].event && waiters[stagingWaiters[run]].overrides == Some(overrides)
        && waiters[stagingWaiters[run]].run == old(waiters)[stagingWaiters[run]].run
        && forall w :: 0 <= w < |waiters| && w != stagingWaiters[run] ==> waiters[w] == old(waiters)[w]
      ensures !accepted ==> waiters == old(waiters)
      ensures stagingWaiters == old(stagingWaiters) && cancelEvents == old(cancelEvents)
    {
      if run !in stagingWaiters { return false; }
      var w := stagingWaiters[run];
      waiters := waiters[w := waiters[w].(overrides := Some(overrides), event := true)];
      accepted := true;
    }

    method RegisterWaiter(run: RunId) returns (w: nat)
      requires Valid()
      modifies this
      ensures Valid() && w == |old(Snapshot()).waiters| && Snapshot() == OpenWaiter(old(Snapshot()), run)
    {
      w := |waiters|;
      waiters := waiters + [Waiter(run, false, None)];
      stagingWaiters := stagingWaiters[run := w];
    }

    method RemoveWaiter(run: RunId)
      requires Valid()
      modifies this
      ensures Valid() && Snapshot() == CloseWaiter(old(Snapshot()), run)
    {
      stagingWaiters := stagingWaiters - {run};
    }
  }
}

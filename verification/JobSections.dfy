/** The provider job: one worker thread, at most one watchdog thread, the thread that starts the job,
    and any number of concurrent cancel, join and destroy calls, all sharing one `JobState`.

    The fields guarded by the job's mutexes and its atomics are a value, `Shared`; every critical
    section and every atomic access is a function on it. `JobMachine` interleaves those sections,
    one per step, over all threads; class `JobState` performs them on real fields. */
module JobSections {
  import opened Prelude

  type HookId = nat

  datatype Outcome = Succeeded | Failed | Cancelled

  /** JobState as the threads see it. `hasDataset` says whether on_dataset is non-null. */
  datatype Shared = Shared(
    gate: bool,
    cancelled: bool,
    datasetNotified: bool,
    terminalFired: bool,
    hook: Option<HookId>,
    hookFired: bool,
    hookRunning: bool,
    watchdogStop: bool,
    joinInProgress: bool,
    joined: bool,
    hasDataset: bool)

  function Fresh(hasDataset: bool): Shared {
    Shared(false, false, false, false, None, false, false, false, false, false, hasDataset)
  }

  /** Critical section of requestCancel: whether the caller takes the hook, and the state it leaves. */
  predicate HookClaimable(s: Shared) {
    !s.hookFired && s.hook.Some?
  }

  function ClaimHook(s: Shared): Shared {
    if HookClaimable(s) then s.(hookFired := true, hookRunning := true, hook := None) else s
  }

  /** Critical section of onCancel: whether the registering thread has to run the hook itself. */
  predicate RunsOwnHook(s: Shared) {
    s.cancelled && !s.hookFired
  }

  function RegisterHook(s: Shared, h: HookId): Shared {
    if !s.cancelled then s.(hook := Some(h)) else s.(hookFired := true)
  }

  /** What disarmHook does before it waits. */
  function Disarm(s: Shared): Shared {
    s.(hook := None, hookFired := true)
  }

  /** notifyDataset: whether on_dataset is called, the exchange having been made. */
  predicate CallsDataset(s: Shared) {
    !s.datasetNotified && s.hasDataset
  }

  datatype JoinRole = AlreadyJoined | Waiter | RealJoiner

  /** First critical section of jobJoin. */
  function RoleOf(s: Shared): JoinRole {
    if s.joined then AlreadyJoined else if s.joinInProgress then Waiter else RealJoiner
  }

  /** The fields of JobState and its critical sections, in place. */
  class JobState {
    var gate: bool
    var cancelled: bool
    var datasetNotified: bool
    var terminalFired: bool
    var cancelHook: Option<HookId>
    var hookFired: bool
    var hookRunning: bool
    var watchdogStop: bool
    var joinInProgress: bool
    var joined: bool
    const hasDataset: bool

    function View(): Shared
      reads this
    {
      Shared(gate, cancelled, datasetNotified, terminalFired, cancelHook, hookFired, hookRunning,
             watchdogStop, joinInProgress, joined, hasDataset)
    }

    constructor (hasDataset: bool)
      ensures View() == Fresh(hasDataset)
    {
      this.hasDataset := hasDataset;
      gate, cancelled, datasetNotified, terminalFired := false, false, false, false;
      cancelHook, hookFired, hookRunning := None, false, false;
      watchdogStop, joinInProgress, joined := false, false, false;
    }

    method ReleaseGate()
      modifies this
      ensures View() == old(View()).(gate := true)
    {
      gate := true;
    }

    method StoreCancelled()
      modifies this
      ensures View() == old(View()).(cancelled := true)
    {
      cancelled := true;
    }

    method TakeHook() returns (hook: Option<HookId>)
      modifies this
      ensures View() == ClaimHook(old(View()))
      ensures hook == if !old(hookFired) && old(cancelHook).Some? then old(cancelHook) else None
      ensures hook.Some? ==> hookFired && hookRunning && cancelHook.None?
    {
      hook := None;
      if !hookFired && cancelHook.Some? {
        hookFired := true;
        hookRunning := true;
        hook := cancelHook;
        cancelHook := None;
      }
    }

    method HookReturned()
      modifies this
      ensures View() == old(View()).(hookRunning := false)
    {
      hookRunning := false;
    }

    method OnCancelSection(h: HookId) returns (runNow: bool)
      modifies this
      ensures View() == RegisterHook(old(View()), h)
      ensures !old(cancelled) ==> !runNow && cancelHook == Some(h) && hookFired == old(hookFired)
      ensures old(cancelled) ==> runNow == !old(hookFired) && hookFired && cancelHook == old(cancelHook)
    {
      if !cancelled {
        cancelHook := Some(h);
        return false;
      }
      if hookFired {
        return false;
      }
      hookFired := true;
      runNow := true;
    }

    method DisarmSection() returns (mayProceed: bool)
      modifies this
      ensures View() == Disarm(old(View())) && mayProceed == !old(hookRunning) && cancelHook.None? && hookFired
    {
      cancelHook := None;
      hookFired := true;
      mayProceed := !hookRunning;
    }

    method NotifyExchange() returns (call: bool)
      modifies this
      ensures View() == old(View()).(datasetNotified := true) && call == (!old(datasetNotified) && hasDataset)
    {
      var was := datasetNotified;
      datasetNotified := true;
      call := !was && hasDataset;
    }

    method TerminalExchange() returns (call: bool)
      modifies this
      ensures View() == old(View()).(terminalFired := true) && call == !old(terminalFired)
    {
      var was := terminalFired;
      terminalFired := true;
      call := !was;
    }

    method SetWatchdogStop(stop: bool)
      modifies this
      ensures View() == old(View()).(watchdogStop := stop)
    {
      watchdogStop := stop;
    }

    method JoinSection() returns (role: JoinRole)
      modifies this
      ensures role == if old(joined) then AlreadyJoined else if old(joinInProgress) then Waiter else RealJoiner
      ensures View() == if role.RealJoiner? then old(View()).(joinInProgress := true) else old(View())
    {
      if joined {
        return AlreadyJoined;
      }
      if joinInProgress {
        return Waiter;
      }
      joinInProgress := true;
      role := RealJoiner;
    }

    method PublishJoined()
      modifies this
      ensures View() == old(View()).(joined := true)
    {
      joined := true;
    }
  }
}

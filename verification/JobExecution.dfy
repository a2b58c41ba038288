/** The sections performed on a real JobState, in the order of any run: object and machine stay in step. */
module JobExecution {
  import opened Prelude
  import opened JobSections
  import opened JobMachine

  /** Which way the thread goes on after its section, as the machine has it. */
  predicate GoesOn(s: State, st: Step)
    requires Next(s, st).Some?
  {
    var t := Next(s, st).value;
    match st
    case WorkerStops(DisarmLock) => t.th.worker.StopWatchdog?
    case WorkerStops(TerminalSwap) => t.th.worker.InTerminal?
    case BodyHooks(OnCancel(_)) => t.th.worker == Body(InOwnHook)
    case BodyNotifies(NotifyDataset) => t.th.worker == Body(InDataset)
    case Cancelling(i, CancelSection) => t.calls[i].pc.RunningHook?
    case JoiningCall(i, JoinSection) => t.calls[i].pc.JoinWorker?
    case _ => true
  }

  method PerformShutdown(job: JobState, ghost s: State, a: ShutdownStep) returns (answer: bool)
    requires job.View() == s.sh && NextShutdown(s, a).Some?
    modifies job
    ensures job.View() == NextShutdown(s, a).value.sh && answer == GoesOn(s, WorkerStops(a))
  {
    answer := true;
    match a {
      case DisarmLock => answer := job.DisarmSection();
      case SignalWatchdog => job.SetWatchdogStop(true);
      case TerminalSwap => answer := job.TerminalExchange();
      case _ =>
    }
  }

  method PerformCancel(job: JobState, ghost s: State, i: nat, a: CancelStep) returns (answer: bool, hook: Option<HookId>)
    requires job.View() == s.sh && NextCancel(s, i, a).Some?
    modifies job
    ensures job.View() == NextCancel(s, i, a).value.sh && answer == GoesOn(s, Cancelling(i, a))
    // The hook handed out is the one the machine records as run.
    ensures NextCancel(s, i, a).value.hist.hooksRun == s.hist.hooksRun + if hook.Some? then [hook.value] else []
  {
    answer, hook := true, None;
    match a {
      case CancelStores => job.StoreCancelled();
      case CancelSection =>
        hook := job.TakeHook();
        answer := hook.Some?;
      case HookReturns =>
      case HookCleared => job.HookReturned();
    }
  }

  method PerformJoin(job: JobState, ghost s: State, i: nat, a: JoinStep) returns (answer: bool)
    requires job.View() == s.sh && NextJoin(s, i, a).Some?
    modifies job
    ensures job.View() == NextJoin(s, i, a).value.sh && answer == GoesOn(s, JoiningCall(i, a))
  {
    answer := true;
    match a {
      case JoinSection =>
        var role := job.JoinSection();
        answer := role.RealJoiner?;
      case JoinPublishes => job.PublishJoined();
      case _ =>
    }
  }

  /** One step: the section its thread performs leaves the object as the machine says, and its answer sends
      the thread the way the machine goes. */
  method Perform(job: JobState, ghost s: State, st: Step) returns (answer: bool)
    requires job.View() == s.sh && Next(s, st).Some?
    modifies job
    ensures job.View() == Next(s, st).value.sh && answer == GoesOn(s, st)
  {
    answer := true;
    match st {
      case Starting(OpenGate) => job.ReleaseGate();
      case WorkerStops(a) => answer := PerformShutdown(job, s, a);
      case BodyHooks(OnCancel(h)) => answer := job.OnCancelSection(h);
      case BodyNotifies(NotifyDataset) => answer := job.NotifyExchange();
      case BodyArms(Arm) => job.SetWatchdogStop(true);
      case BodyArms(ArmCleared) => job.SetWatchdogStop(false);
      case Cancelling(i, a) =>
        var hook;
        answer, hook := PerformCancel(job, s, i, a);
      case JoiningCall(i, a) => answer := PerformJoin(job, s, i, a);
      case _ =>
    }
  }

  /** Whatever the interleaving, performing its sections one after the other leaves one JobState as the machine
      has it. So everything proved of the shared state of every run holds of the object. */
  method PerformRun(hasDataset: bool, steps: seq<Step>) returns (job: JobState)
    requires Run(hasDataset, steps).Some?
    ensures fresh(job) && job.View() == Run(hasDataset, steps).value.sh
  {
    job := new JobState(hasDataset);
    ghost var s := Init(hasDataset);
    assert steps[..0] == [];
    for n := 0 to |steps|
      invariant Run(hasDataset, steps[..n]) == Some(s) && job.View() == s.sh
      invariant fresh(job)
    {
      NextPrefix(hasDataset, steps, n);
      var _ := Perform(job, s, steps[n]);
      s := Next(s, steps[n]).value;
    }
    assert steps[..|steps|] == steps;
  }

  lemma NextPrefix(hasDataset: bool, steps: seq<Step>, n: nat)
    requires Run(hasDataset, steps).Some? && n < |steps|
    ensures Run(hasDataset, steps[..n]).Some?
    ensures Next(Run(hasDataset, steps[..n]).value, steps[n]).Some?
    ensures Run(hasDataset, steps[..n + 1]) == Next(Run(hasDataset, steps[..n]).value, steps[n])
  {
    PrefixRuns(hasDataset, steps, n + 1);
    assert steps[..n + 1][..n] == steps[..n];
  }

  lemma {:induction false} PrefixRuns(hasDataset: bool, steps: seq<Step>, n: nat)
    requires Run(hasDataset, steps).Some? && n <= |steps|
    ensures Run(hasDataset, steps[..n]).Some?
    decreases |steps|
  {
    if n == |steps| {
      assert steps[..n] == steps;
    } else {
      assert steps[..|steps| - 1][..n] == steps[..n];
      PrefixRuns(hasDataset, steps[..|steps| - 1], n);
    }
  }
}

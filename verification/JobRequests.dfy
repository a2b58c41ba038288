/** What a request to the job is bound to bring about: a cancellation is seen, and an armed watchdog can expire. */
module JobRequests {
  import opened JobSections
  import opened JobMachine
  import opened JobInvariants

  // ---------- cancellation ----------

  /** A cancel that is past its first part, or a destroy that is. */
  predicate HasCancelled(c: Call) {
    c.pc in {CancelLock, RunningHook, ClearRunning, CancelReturned} || (c.who == Destroyer && !c.pc.CancelStore?)
  }

  ghost predicate CancelsAreStored(s: State) {
    forall i :: 0 <= i < |s.calls| && HasCancelled(s.calls[i]) ==> s.sh.cancelled
  }

  lemma EntryKeepsStored(s: State, a: EntryStep)
    requires CancelsAreStored(s) && NextEntry(s, a).Some?
    ensures CancelsAreStored(NextEntry(s, a).value)
  {
    var t := NextEntry(s, a).value;
    assert forall i :: 0 <= i < |s.calls| ==> t.calls[i] == s.calls[i];
  }

  lemma CancelKeepsStored(s: State, i: nat, a: CancelStep)
    requires CancelsAreStored(s) && NextCancel(s, i, a).Some?
    ensures CancelsAreStored(NextCancel(s, i, a).value)
  {
    assert s.calls[i].pc != CancelStore ==> HasCancelled(s.calls[i]);
  }

  lemma JoinKeepsStored(s: State, i: nat, a: JoinStep)
    requires CancelsAreStored(s) && NextJoin(s, i, a).Some?
    ensures CancelsAreStored(NextJoin(s, i, a).value)
  {
    assert s.calls[i].who == Destroyer ==> HasCancelled(s.calls[i]);
  }

  lemma NextKeepsStored(s: State, st: Step)
    requires CancelsAreStored(s) && Next(s, st).Some?
    ensures CancelsAreStored(Next(s, st).value)
  {
    match st
    case Entering(a) => EntryKeepsStored(s, a);
    case Cancelling(i, a) => CancelKeepsStored(s, i, a);
    case JoiningCall(i, a) => JoinKeepsStored(s, i, a);
    case _ => OthersKeepCalls(s, st);
  }

  lemma OthersKeepCalls(s: State, st: Step)
    requires Next(s, st).Some? && !st.Entering? && !st.Cancelling? && !st.JoiningCall?
    ensures Next(s, st).value.calls == s.calls
  {
  }

  /** Whoever has come back from requestCancel, and whoever destroys the job, by the time it joins and frees it, has left the job
      cancelled, in every run; and the job stays cancelled. */
  lemma {:induction false} CancelTakesHold(hasDataset: bool, steps: seq<Step>, i: nat)
    requires Run(hasDataset, steps).Some? && i < |Run(hasDataset, steps).value.calls|
    ensures var s := Run(hasDataset, steps).value;
            s.calls[i].pc.CancelReturned? || (s.calls[i].who == Destroyer && !s.calls[i].pc.CancelStore?) ==> s.sh.cancelled
  {
    AllRunsStore(hasDataset, steps);
  }

  lemma {:induction false} AllRunsStore(hasDataset: bool, steps: seq<Step>)
    requires Run(hasDataset, steps).Some?
    ensures CancelsAreStored(Run(hasDataset, steps).value)
    decreases |steps|
  {
    if steps != [] {
      var last := |steps| - 1;
      AllRunsStore(hasDataset, steps[..last]);
      NextKeepsStored(Run(hasDataset, steps[..last]).value, steps[last]);
    }
  }

  // ---------- the watchdog ----------

  /** The stop flag is down but while the worker arms a watchdog or is past the body. */
  predicate FlagIsDown(s: State) {
    match s.th.worker
    case NotSpawned => !s.sh.watchdogStop
    case AtGate => !s.sh.watchdogStop
    case CheckCancelled => !s.sh.watchdogStop
    case Body(pc) => pc !in {ArmJoin, ArmReset} ==> !s.sh.watchdogStop
    case _ => true
  }

  lemma StartKeepsFlag(s: State, a: StartStep)
    requires FlagIsDown(s) && NextStart(s, a).Some? && Inv(s)
    ensures FlagIsDown(NextStart(s, a).value)
  {
  }

  lemma RunKeepsFlag(s: State, a: RunStep)
    requires FlagIsDown(s) && NextRun(s, a).Some?
    ensures FlagIsDown(NextRun(s, a).value)
  {
  }

  lemma ShutdownKeepsFlag(s: State, a: ShutdownStep)
    requires FlagIsDown(s) && NextShutdown(s, a).Some?
    ensures FlagIsDown(NextShutdown(s, a).value)
  {
  }

  lemma HookKeepsFlag(s: State, a: HookStep)
    requires FlagIsDown(s) && NextHook(s, a).Some?
    ensures FlagIsDown(NextHook(s, a).value)
  {
  }

  lemma DatasetKeepsFlag(s: State, a: DatasetStep)
    requires FlagIsDown(s) && NextDataset(s, a).Some?
    ensures FlagIsDown(NextDataset(s, a).value)
  {
  }

  lemma ArmKeepsFlag(s: State, a: ArmStep)
    requires FlagIsDown(s) && NextArm(s, a).Some?
    ensures FlagIsDown(NextArm(s, a).value)
  {
  }

  lemma WatchdogKeepsFlag(s: State, a: WatchdogStep)
    requires FlagIsDown(s) && NextWatchdog(s, a).Some?
    ensures FlagIsDown(NextWatchdog(s, a).value)
  {
  }

  lemma EntryKeepsFlag(s: State, a: EntryStep)
    requires FlagIsDown(s) && NextEntry(s, a).Some?
    ensures FlagIsDown(NextEntry(s, a).value)
  {
  }

  lemma CancelKeepsFlag(s: State, i: nat, a: CancelStep)
    requires FlagIsDown(s) && NextCancel(s, i, a).Some?
    ensures FlagIsDown(NextCancel(s, i, a).value)
  {
  }

  lemma JoinKeepsFlag(s: State, i: nat, a: JoinStep)
    requires FlagIsDown(s) && NextJoin(s, i, a).Some?
    ensures FlagIsDown(NextJoin(s, i, a).value)
  {
  }

  lemma NextKeepsFlag(s: State, st: Step)
    requires Inv(s) && FlagIsDown(s) && Next(s, st).Some?
    ensures FlagIsDown(Next(s, st).value)
  {
    match st
    case Starting(a) => StartKeepsFlag(s, a);
    case WorkerRuns(a) => RunKeepsFlag(s, a);
    case WorkerStops(a) => ShutdownKeepsFlag(s, a);
    case BodyHooks(a) => HookKeepsFlag(s, a);
    case BodyNotifies(a) => DatasetKeepsFlag(s, a);
    case BodyArms(a) => ArmKeepsFlag(s, a);
    case WatchdogRuns(a) => WatchdogKeepsFlag(s, a);
    case Entering(a) => EntryKeepsFlag(s, a);
    case Cancelling(i, a) => CancelKeepsFlag(s, i, a);
    case JoiningCall(i, a) => JoinKeepsFlag(s, i, a);
  }

  lemma {:induction false} FlagStaysDown(hasDataset: bool, steps: seq<Step>)
    requires Run(hasDataset, steps).Some?
    ensures FlagIsDown(Run(hasDataset, steps).value)
    decreases |steps|
  {
    if steps != [] {
      var last := |steps| - 1;
      FlagStaysDown(hasDataset, steps[..last]);
      RunInv(hasDataset, steps[..last]);
      NextKeepsFlag(Run(hasDataset, steps[..last]).value, steps[last]);
    }
  }

  /** As long as the body runs, a watchdog it has armed expires when its time is up, and does not end before. */
  lemma ArmedWatchdogExpires(hasDataset: bool, steps: seq<Step>)
    requires Run(hasDataset, steps).Some?
    requires var s := Run(hasDataset, steps).value; s.th.worker.Body? && s.th.worker.pc in {Running, InDataset, InOwnHook} && s.th.watchdog.Waiting?
    ensures var s := Run(hasDataset, steps).value;
            && Next(s, WatchdogRuns(WatchdogStops)).None?
            && Next(s, WatchdogRuns(WatchdogExpires)).Some?
            && Next(s, WatchdogRuns(WatchdogExpires)).value.th.watchdog == InExpire
  {
    FlagStaysDown(hasDataset, steps);
  }
}

/** What every interleaving of a job keeps. */
module JobInvariants {
  import opened Prelude
  import opened JobSections
  import opened JobMachine

  predicate BeforeDisarm(s: State) {
    s.th.worker.NotSpawned? || s.th.worker.AtGate? || s.th.worker.CheckCancelled? || s.th.worker.Body?
  }

  predicate TerminalBegun(s: State) {
    s.th.worker.InTerminal? || s.th.worker.Exited?
  }

  predicate HookOn(c: Call) {
    c.pc.RunningHook? || c.pc.ClearRunning?
  }

  predicate Joining(c: Call) {
    c.pc.JoinWorker? || c.pc.JoinPublish?
  }

  /** Nothing happens before start() has reached the point the protocol allows. */
  ghost predicate StartInv(s: State) {
    && (s.th.starter.NotStarted? || s.th.starter.SpawnFailed? ==> s.th.worker.NotSpawned?)
    && (s.th.starter.Spawned? || s.th.starter.Populated? ==> s.th.worker.AtGate?)
    && (s.th.starter.Started? ==> !s.th.worker.NotSpawned?)
    && (s.th.outJob <==> s.th.starter.Populated? || s.th.starter.Started?)
    && (s.sh.gate <==> s.th.starter.Started?)
    && (!s.th.starter.Started? ==>
          && s.calls == [] && s.th.watchdog.NoThread?
          && |s.hist.hooksRun| == 0 && s.hist.datasetCalls == 0 && s.hist.terminalCalls == 0)
  }

  /** The hook slot: claimed at most once, by whoever sets `hookFired` before the disarm. */
  ghost predicate HookInv(s: State) {
    && |s.hist.hooksRun| <= 1
    && (|s.hist.hooksRun| == 1 ==> s.sh.hookFired)
    && (BeforeDisarm(s) && s.sh.hookFired ==> |s.hist.hooksRun| == 1 && s.sh.cancelled)
    && (!BeforeDisarm(s) && !s.th.worker.DisarmEnter? ==> s.sh.hookFired && s.sh.hook.None?)
    && (s.hist.cancelPassed ==> s.sh.cancelled)
    && (s.hist.cancelPassed && BeforeDisarm(s) ==> s.sh.hookFired || s.sh.hook.None?)
    && (s.hist.registered && BeforeDisarm(s) ==> s.sh.hookFired || s.sh.hook.Some?)
    && (s.th.worker == Body(InOwnHook) ==> !s.sh.hookRunning && s.sh.hookFired)
    && (s.sh.hookRunning ==> s.sh.hookFired)
    && (!BeforeDisarm(s) && !s.th.worker.DisarmEnter? && !s.th.worker.DisarmWait? ==> !s.sh.hookRunning)
  }

  ghost predicate TerminalInv(s: State) {
    && (s.sh.terminalFired <==> TerminalBegun(s))
    && s.hist.terminalCalls == (if TerminalBegun(s) then 1 else 0)
    && (s.th.result.Some? <==> !BeforeDisarm(s))
    && (s.th.result.Some? && !s.hist.bodyStarted ==> s.th.result == Some(Cancelled) && s.sh.cancelled)
    && (s.th.worker.Body? ==> s.hist.bodyStarted)
    && (s.th.worker.NotSpawned? || s.th.worker.AtGate? || s.th.worker.CheckCancelled? ==> !s.hist.bodyStarted)
    && s.hist.datasetCalls == (if s.sh.datasetNotified && s.sh.hasDataset then 1 else 0)
  }

  ghost predicate WatchdogInv(s: State) {
    && (!s.th.watchdog.NoThread? ==>
          || s.th.worker.Body? || s.th.worker.DisarmEnter? || s.th.worker.DisarmWait?
          || s.th.worker.StopWatchdog? || s.th.worker.JoinWatchdog?)
    && (s.th.worker == Body(ArmReset) || s.th.worker == Body(ArmSpawn) ==> s.th.watchdog.NoThread?)
    && (s.th.worker == Body(ArmAwait) ==> !s.th.watchdog.NoThread?)
    && (s.th.watchdog.Created? ==> s.th.worker == Body(ArmAwait))
    && (s.th.worker == Body(ArmJoin) || s.th.worker.JoinWatchdog? ==> s.sh.watchdogStop)
  }

  /** One caller joins the thread; `joined` is published after it. */
  ghost predicate JoinInv(s: State) {
    && (s.sh.joinInProgress && !s.sh.joined <==> s.own.joiner.CallNo?)
    && (s.sh.joined ==> s.sh.joinInProgress && s.th.worker.Exited?)
    && s.hist.realJoins == (if s.sh.joinInProgress then 1 else 0)
    && (s.own.joiner.CallNo? ==> s.own.joiner.index < |s.calls|)
  }

  ghost predicate OwnerInv(s: State) {
    && (s.sh.hookRunning <==> s.own.hookOwner.CallNo?)
    && (s.own.hookOwner.CallNo? ==> s.own.hookOwner.index < |s.calls|)
    && (s.own.destroyer.CallNo? ==> s.own.destroyer.index < |s.calls|)
    && (s.th.freed <==>
          || s.th.starter.SpawnFailed?
          || (s.own.destroyer.CallNo? && s.calls[s.own.destroyer.index].pc.DestroyReturned?))
  }

  ghost predicate ProgressInv(s: State) {
    StartInv(s) && TerminalInv(s) && WatchdogInv(s) && JoinInv(s)
  }

  ghost predicate SlotInv(s: State) {
    HookInv(s) && OwnerInv(s)
  }

  /** Call number `i`: the points it can be at, by the thread that makes it, and what those points
      say of the shared state. Only `hookOwner` is inside the hook, only `joiner` joins the worker. */
  ghost predicate CallOk(s: State, i: nat)
    requires i < |s.calls|
  {
    var c := s.calls[i];
    && (HookOn(c) <==> s.own.hookOwner == CallNo(i))
    && (c.pc.CancelLock? || HookOn(c) ==> s.sh.cancelled)
    && (Joining(c) <==> s.own.joiner == CallNo(i))
    && (c.pc.JoinPublish? ==> s.th.worker.Exited?)
    && (c.pc.JoinWait? ==> s.sh.joinInProgress)
    && (c.pc.JoinReturned? && !OnWorkerThread(c.who) ==> s.sh.joined)
    && (c.pc.FreeState? || c.pc.DestroyReturned? ==> s.sh.joined && c.who == Destroyer)
    && (c.pc.JoinEnter? || c.pc.JoinWait? || Joining(c) ==> !OnWorkerThread(c.who))
    && (c.who.InHook? ==> !HookOn(c))
    && (c.who.InHook? && Active(c) ==> HookRunsOn(s, c.who.onWorker))
    && (c.pc.CancelReturned? || c.pc.JoinReturned? ==> c.who != Destroyer)
    && (c.pc.JoinReturned? ==> c.who == External || OnWorkerThread(c.who))
    && (c.who == Destroyer <==> s.own.destroyer == CallNo(i))
    && (c.who == External && Active(c) ==> s.own.destroyer.Nobody?)
    && (c.who == OnWatchdog && Active(c) ==> s.th.watchdog.InExpire?)
    && (c.who == OnWorker && Active(c) ==> WorkerInUserCode(s))
  }

  ghost predicate CallsInv(s: State) {
    forall i :: 0 <= i < |s.calls| ==> CallOk(s, i)
  }

  ghost predicate Inv(s: State) {
    ProgressInv(s) && SlotInv(s) && CallsInv(s)
  }

  lemma InitInv(hasDataset: bool)
    ensures Inv(Init(hasDataset))
  {
  }

  lemma StartKeeps(s: State, a: StartStep)
    requires Inv(s) && NextStart(s, a).Some?
    ensures Inv(NextStart(s, a).value)
  {
  }

  lemma RunKeepsThreads(s: State, a: RunStep)
    requires Inv(s) && NextRun(s, a).Some?
    ensures ProgressInv(NextRun(s, a).value) && SlotInv(NextRun(s, a).value)
  {
  }

  lemma RunKeeps(s: State, a: RunStep)
    requires Inv(s) && NextRun(s, a).Some?
    ensures Inv(NextRun(s, a).value)
  {
    var t := NextRun(s, a).value;
    RunKeepsThreads(s, a);
    forall k | 0 <= k < |t.calls| ensures CallOk(t, k) {
      assert CallOk(s, k);
    }
  }

  lemma DatasetKeepsProgress(s: State, a: DatasetStep)
    requires ProgressInv(s) && NextDataset(s, a).Some?
    ensures ProgressInv(NextDataset(s, a).value)
  {
  }

  lemma DatasetKeepsSlots(s: State, a: DatasetStep)
    requires SlotInv(s) && NextDataset(s, a).Some?
    ensures SlotInv(NextDataset(s, a).value)
  {
  }

  lemma DatasetKeeps(s: State, a: DatasetStep)
    requires Inv(s) && NextDataset(s, a).Some?
    ensures Inv(NextDataset(s, a).value)
  {
    var t := NextDataset(s, a).value;
    DatasetKeepsProgress(s, a);
    DatasetKeepsSlots(s, a);
    forall k | 0 <= k < |t.calls| ensures CallOk(t, k) {
      assert CallOk(s, k);
    }
  }

  lemma ArmKeepsTerminal(s: State, a: ArmStep)
    requires ProgressInv(s) && NextArm(s, a).Some?
    ensures StartInv(NextArm(s, a).value) && TerminalInv(NextArm(s, a).value)
  {
  }

  lemma ArmKeepsJoin(s: State, a: ArmStep)
    requires ProgressInv(s) && NextArm(s, a).Some?
    ensures WatchdogInv(NextArm(s, a).value) && JoinInv(NextArm(s, a).value)
  {
  }

  lemma ArmKeepsSlots(s: State, a: ArmStep)
    requires SlotInv(s) && NextArm(s, a).Some?
    ensures SlotInv(NextArm(s, a).value)
  {
  }

  lemma ArmKeeps(s: State, a: ArmStep)
    requires Inv(s) && NextArm(s, a).Some?
    ensures Inv(NextArm(s, a).value)
  {
    var t := NextArm(s, a).value;
    ArmKeepsTerminal(s, a);
    ArmKeepsJoin(s, a);
    ArmKeepsSlots(s, a);
    forall k | 0 <= k < |t.calls| ensures CallOk(t, k) {
      assert CallOk(s, k);
    }
  }

  lemma WatchdogKeepsThreads(s: State, a: WatchdogStep)
    requires Inv(s) && NextWatchdog(s, a).Some?
    ensures ProgressInv(NextWatchdog(s, a).value) && SlotInv(NextWatchdog(s, a).value)
  {
  }

  lemma WatchdogKeeps(s: State, a: WatchdogStep)
    requires Inv(s) && NextWatchdog(s, a).Some?
    ensures Inv(NextWatchdog(s, a).value)
  {
    var t := NextWatchdog(s, a).value;
    WatchdogKeepsThreads(s, a);
    forall k | 0 <= k < |t.calls| ensures CallOk(t, k) {
      assert CallOk(s, k);
    }
  }

  lemma ShutdownKeepsProgress(s: State, a: ShutdownStep)
    requires Inv(s) && NextShutdown(s, a).Some?
    ensures ProgressInv(NextShutdown(s, a).value)
  {
  }

  lemma ShutdownKeepsSlots(s: State, a: ShutdownStep)
    requires Inv(s) && NextShutdown(s, a).Some?
    ensures SlotInv(NextShutdown(s, a).value)
  {
  }

  lemma ShutdownKeepsCall(s: State, a: ShutdownStep, k: nat)
    requires Inv(s) && NextShutdown(s, a).Some? && k < |NextShutdown(s, a).value.calls|
    ensures CallOk(NextShutdown(s, a).value, k)
  {
    assert CallOk(s, k);
  }

  lemma ShutdownKeeps(s: State, a: ShutdownStep)
    requires Inv(s) && NextShutdown(s, a).Some?
    ensures Inv(NextShutdown(s, a).value)
  {
    ShutdownKeepsProgress(s, a);
    ShutdownKeepsSlots(s, a);
    forall k | 0 <= k < |NextShutdown(s, a).value.calls| { ShutdownKeepsCall(s, a, k); }
  }

  lemma HookKeepsProgress(s: State, a: HookStep)
    requires Inv(s) && NextHook(s, a).Some?
    ensures ProgressInv(NextHook(s, a).value)
  {
  }

  lemma HookKeepsSlots(s: State, a: HookStep)
    requires Inv(s) && NextHook(s, a).Some?
    ensures SlotInv(NextHook(s, a).value)
  {
  }

  lemma HookKeepsCall(s: State, a: HookStep, k: nat)
    requires Inv(s) && NextHook(s, a).Some? && k < |NextHook(s, a).value.calls|
    ensures CallOk(NextHook(s, a).value, k)
  {
    assert CallOk(s, k);
  }

  lemma HookKeeps(s: State, a: HookStep)
    requires Inv(s) && NextHook(s, a).Some?
    ensures Inv(NextHook(s, a).value)
  {
    HookKeepsProgress(s, a);
    HookKeepsSlots(s, a);
    forall k | 0 <= k < |NextHook(s, a).value.calls| { HookKeepsCall(s, a, k); }
  }

  lemma EntryKeepsProgress(s: State, a: EntryStep)
    requires Inv(s) && NextEntry(s, a).Some?
    ensures ProgressInv(NextEntry(s, a).value)
  {
  }

  lemma EntryKeepsSlots(s: State, a: EntryStep)
    requires Inv(s) && NextEntry(s, a).Some?
    ensures SlotInv(NextEntry(s, a).value)
  {
  }

  lemma EntryKeepsCall(s: State, a: EntryStep, k: nat)
    requires Inv(s) && NextEntry(s, a).Some? && k < |NextEntry(s, a).value.calls|
    ensures CallOk(NextEntry(s, a).value, k)
  {
    assert k < |s.calls| ==> CallOk(s, k);
  }

  lemma EntryKeeps(s: State, a: EntryStep)
    requires Inv(s) && NextEntry(s, a).Some?
    ensures Inv(NextEntry(s, a).value)
  {
    EntryKeepsProgress(s, a);
    EntryKeepsSlots(s, a);
    forall k | 0 <= k < |NextEntry(s, a).value.calls| { EntryKeepsCall(s, a, k); }
  }

  lemma CancelKeepsTerminal(s: State, i: nat, a: CancelStep)
    requires StartInv(s) && TerminalInv(s) && NextCancel(s, i, a).Some?
    ensures StartInv(NextCancel(s, i, a).value) && TerminalInv(NextCancel(s, i, a).value)
  {
  }

  lemma CancelKeepsJoin(s: State, i: nat, a: CancelStep)
    requires WatchdogInv(s) && JoinInv(s) && NextCancel(s, i, a).Some?
    ensures WatchdogInv(NextCancel(s, i, a).value) && JoinInv(NextCancel(s, i, a).value)
  {
  }

  lemma CancelKeepsSlots(s: State, i: nat, a: CancelStep)
    requires Inv(s) && NextCancel(s, i, a).Some?
    ensures SlotInv(NextCancel(s, i, a).value)
  {
    assert CallOk(s, i);
  }

  lemma CancelKeepsOwn(s: State, i: nat, a: CancelStep)
    requires Inv(s) && NextCancel(s, i, a).Some?
    ensures i < |s.calls| && CallOk(NextCancel(s, i, a).value, i)
  {
    assert CallOk(s, i);
  }

  lemma CancelKeepsOther(s: State, i: nat, a: CancelStep, k: nat)
    requires Inv(s) && NextCancel(s, i, a).Some? && k < |s.calls| && k != i
    ensures CallOk(NextCancel(s, i, a).value, k)
  {
    assert CallOk(s, i) && CallOk(s, k);
  }

  lemma CancelKeeps(s: State, i: nat, a: CancelStep)
    requires Inv(s) && NextCancel(s, i, a).Some?
    ensures Inv(NextCancel(s, i, a).value)
  {
    CancelKeepsTerminal(s, i, a);
    CancelKeepsJoin(s, i, a);
    CancelKeepsSlots(s, i, a);
    CancelKeepsOwn(s, i, a);
    forall k | 0 <= k < |s.calls| && k != i { CancelKeepsOther(s, i, a, k); }
  }

  lemma JoinKeepsProgress(s: State, i: nat, a: JoinStep)
    requires Inv(s) && NextJoin(s, i, a).Some?
    ensures ProgressInv(NextJoin(s, i, a).value)
  {
    assert CallOk(s, i);
  }

  lemma JoinKeepsSlots(s: State, i: nat, a: JoinStep)
    requires Inv(s) && NextJoin(s, i, a).Some?
    ensures SlotInv(NextJoin(s, i, a).value)
  {
    assert CallOk(s, i);
  }

  lemma JoinKeepsCall(s: State, i: nat, a: JoinStep, k: nat)
    requires Inv(s) && NextJoin(s, i, a).Some? && k < |NextJoin(s, i, a).value.calls|
    ensures CallOk(NextJoin(s, i, a).value, k)
  {
    assert CallOk(s, i);
    assert CallOk(s, k);
  }

  lemma JoinKeeps(s: State, i: nat, a: JoinStep)
    requires Inv(s) && NextJoin(s, i, a).Some?
    ensures Inv(NextJoin(s, i, a).value)
  {
    JoinKeepsProgress(s, i, a);
    JoinKeepsSlots(s, i, a);
    forall k | 0 <= k < |NextJoin(s, i, a).value.calls| { JoinKeepsCall(s, i, a, k); }
  }

  lemma NextKeeps(s: State, st: Step)
    requires Inv(s) && Next(s, st).Some?
    ensures Inv(Next(s, st).value)
  {
    match st
    case Starting(a) => StartKeeps(s, a);
    case WorkerRuns(a) => RunKeeps(s, a);
    case WorkerStops(a) => ShutdownKeeps(s, a);
    case BodyHooks(a) => HookKeeps(s, a);
    case BodyNotifies(a) => DatasetKeeps(s, a);
    case BodyArms(a) => ArmKeeps(s, a);
    case WatchdogRuns(a) => WatchdogKeeps(s, a);
    case Entering(a) => EntryKeeps(s, a);
    case Cancelling(i, a) => CancelKeeps(s, i, a);
    case JoiningCall(i, a) => JoinKeeps(s, i, a);
  }

  /** Every state of every run satisfies the invariant. */
  lemma {:induction false} RunInv(hasDataset: bool, steps: seq<Step>)
    requires Run(hasDataset, steps).Some?
    ensures Inv(Run(hasDataset, steps).value)
  {
    if steps != [] {
      RunInv(hasDataset, steps[..|steps| - 1]);
      NextKeeps(Run(hasDataset, steps[..|steps| - 1]).value, steps[|steps| - 1]);
    }
  }
}

/** The promises of the job, for every run. */
module JobTheorems {
  import opened Prelude
  import opened JobSections
  import opened JobMachine
  import opened JobInvariants

  /** Some callback, hook or on_expire is executing, or has executed. */
  predicate AnyCallback(s: State) {
    || |s.hist.hooksRun| > 0 || s.hist.datasetCalls > 0 || s.hist.terminalCalls > 0
    || s.th.watchdog.InExpire?
  }

  /** A hook claimed by a canceller, or run by the body itself, has not returned yet. */
  predicate HookExecuting(s: State) {
    || s.th.worker == Body(InOwnHook)
    || exists i :: 0 <= i < |s.calls| && s.calls[i].pc.RunningHook?
  }

  predicate DatasetExecuting(s: State) {
    s.th.worker == Body(InDataset)
  }

  predicate ExpireExecuting(s: State) {
    s.th.watchdog.InExpire?
  }

  /** No callback of any kind precedes the release of the gate, by when out_job is populated. */
  lemma NoCallbackBeforeGate(hasDataset: bool, steps: seq<Step>)
    requires Run(hasDataset, steps).Some?
    ensures var s := Run(hasDataset, steps).value;
            AnyCallback(s) ==> s.sh.gate && s.th.outJob
  {
    RunInv(hasDataset, steps);
  }

  /** on_dataset fires at most once, and never if it is null; on_terminal fires exactly once by the time the
      worker is gone; from the moment on_terminal is entered no hook, on_dataset or on_expire is executing. */
  lemma TerminalIsLast(hasDataset: bool, steps: seq<Step>)
    requires Run(hasDataset, steps).Some?
    ensures var s := Run(hasDataset, steps).value;
            && s.hist.datasetCalls == (if s.sh.datasetNotified && s.sh.hasDataset then 1 else 0)
            && s.hist.terminalCalls == (if TerminalBegun(s) then 1 else 0)
            && (TerminalBegun(s) ==> !HookExecuting(s) && !DatasetExecuting(s) && !ExpireExecuting(s))
  {
    RunInv(hasDataset, steps);
    var s := Run(hasDataset, steps).value;
    forall i | 0 <= i < |s.calls| && s.calls[i].pc.RunningHook? ensures s.sh.hookRunning {
      assert CallOk(s, i);
    }
  }

  /** The outcome is set once, by the way the body ended: its own result, FAILED if it threw, or
      CANCELLED without running it if the cancellation came first; on_terminal reports that. */
  lemma TerminalReportsTheBody(s: State, st: Step)
    requires Inv(s) && Next(s, st).Some?
    ensures TerminalBegun(s) ==> s.th.result.Some? && Next(s, st).value.th.result == s.th.result
    ensures TerminalBegun(s) && !s.hist.bodyStarted ==> s.th.result == Some(Cancelled) && s.sh.cancelled
    ensures s.hist.bodyStarted && s.th.result.None? && Next(s, st).value.th.result.Some? ==>
              (st.WorkerRuns? && st.run.BodyReturns? && Next(s, st).value.th.result == Some(st.run.outcome))
              || (st == WorkerRuns(BodyThrows) && Next(s, st).value.th.result == Some(Failed))
  {
    ResultStep(s, st);
  }

  lemma ResultStep(s: State, st: Step)
    requires Inv(s) && Next(s, st).Some?
    ensures Next(s, st).value.th.result != s.th.result ==> st.WorkerRuns? && BeforeDisarm(s)
  {
  }

  /** Cancelled before the body was started. */
  predicate Skipped(s: State) {
    s.sh.cancelled && !s.hist.bodyStarted
  }

  lemma CancelledStaysSkipped(s: State, st: Step)
    requires Skipped(s) && Next(s, st).Some?
    ensures Skipped(Next(s, st).value)
  {
  }

  /** A cancellation that is stored before the worker looks keeps the body from ever
      starting. */
  lemma {:induction false} EarlyCancelSkipsTheBody(hasDataset: bool, steps: seq<Step>, more: seq<Step>)
    requires Run(hasDataset, steps).Some? && Run(hasDataset, steps + more).Some?
    requires Skipped(Run(hasDataset, steps).value)
    ensures Skipped(Run(hasDataset, steps + more).value)
  {
    if more == [] {
      assert steps + more == steps;
    } else {
      LastStep(hasDataset, steps, more);
      EarlyCancelSkipsTheBody(hasDataset, steps, more[..|more| - 1]);
      CancelledStaysSkipped(Run(hasDataset, steps + more[..|more| - 1]).value, more[|more| - 1]);
    }
  }

  lemma LastStep(hasDataset: bool, steps: seq<Step>, more: seq<Step>)
    requires |more| > 0 && Run(hasDataset, steps + more).Some?
    ensures var before := Run(hasDataset, steps + more[..|more| - 1]);
            before.Some? && Run(hasDataset, steps + more) == Next(before.value, more[|more| - 1])
  {
    var all := steps + more;
    assert all[..|all| - 1] == steps + more[..|more| - 1];
  }

  /** One step past the start of on_terminal: no count moves and the phase is kept. */
  lemma AfterTerminalStep(s: State, st: Step)
    requires Inv(s) && TerminalBegun(s) && Next(s, st).Some?
    ensures var t := Next(s, st).value;
            && TerminalBegun(t)
            && |t.hist.hooksRun| == |s.hist.hooksRun|
            && t.hist.datasetCalls == s.hist.datasetCalls
            && t.hist.terminalCalls == s.hist.terminalCalls
  {
  }

  /** Once on_terminal has been entered, no continuation of the run starts another callback. */
  lemma {:induction false} NothingAfterTerminal(hasDataset: bool, steps: seq<Step>, more: seq<Step>)
    requires Run(hasDataset, steps).Some? && TerminalBegun(Run(hasDataset, steps).value)
    requires Run(hasDataset, steps + more).Some?
    ensures var s, t := Run(hasDataset, steps).value, Run(hasDataset, steps + more).value;
            && TerminalBegun(t)
            && |t.hist.hooksRun| == |s.hist.hooksRun|
            && t.hist.datasetCalls == s.hist.datasetCalls
            && t.hist.terminalCalls == s.hist.terminalCalls
  {
    if more == [] {
      assert steps + more == steps;
    } else {
      var before := steps + more[..|more| - 1];
      LastStep(hasDataset, steps, more);
      NothingAfterTerminal(hasDataset, steps, more[..|more| - 1]);
      RunInv(hasDataset, before);
      AfterTerminalStep(Run(hasDataset, before).value, more[|more| - 1]);
    }
  }

  /** At most one hook is invoked per job; none is executing once disarmHook has returned; and while
      the body runs, a completed non-empty onCancel together with a completed cancelling section
      leave exactly one hook claimed. */
  lemma HookClaimedOnce(hasDataset: bool, steps: seq<Step>)
    requires Run(hasDataset, steps).Some?
    ensures var s := Run(hasDataset, steps).value;
            && |s.hist.hooksRun| <= 1
            && (!BeforeDisarm(s) && !s.th.worker.DisarmEnter? && !s.th.worker.DisarmWait? ==> !HookExecuting(s))
            && (s.th.worker.Body? && s.hist.registered && s.hist.cancelPassed ==> |s.hist.hooksRun| == 1)
  {
    RunInv(hasDataset, steps);
    var s := Run(hasDataset, steps).value;
    forall i | 0 <= i < |s.calls| && s.calls[i].pc.RunningHook? ensures s.sh.hookRunning {
      assert CallOk(s, i);
    }
  }

  /** At most one caller joins the thread object; whoever else returns from jobJoin, other than the
      worker itself, returns after on_terminal has returned. */
  lemma JoinsWaitForTerminal(hasDataset: bool, steps: seq<Step>, i: nat)
    requires Run(hasDataset, steps).Some? && i < |Run(hasDataset, steps).value.calls|
    ensures var s := Run(hasDataset, steps).value;
            && s.hist.realJoins <= 1
            && (s.calls[i].pc.JoinReturned? && !OnWorkerThread(s.calls[i].who) ==>
                  s.th.worker.Exited? && s.hist.terminalCalls == 1)
  {
    RunInv(hasDataset, steps);
    assert CallOk(Run(hasDataset, steps).value, i);
  }

  /** A join made on the worker's own thread, from the body, from a callback or from a hook that the worker is
      running, is over as soon as it is made: in no state of any run does the worker wait for itself. */
  lemma SelfJoinReturnsAtOnce(hasDataset: bool, steps: seq<Step>, who: Caller, i: nat)
    requires Run(hasDataset, steps).Some? && OnWorkerThread(who)
    ensures var s := Run(hasDataset, steps).value;
            && (MayCall(s, who) ==>
                  Next(s, Entering(NewJoin(who))) == Some(s.(calls := s.calls + [Call(who, JoinReturned)])))
            && (i < |s.calls| && s.calls[i].who == who ==>
                  !s.calls[i].pc.JoinEnter? && !s.calls[i].pc.JoinWait? && !Joining(s.calls[i]))
  {
    RunInv(hasDataset, steps);
    assert i < |Run(hasDataset, steps).value.calls| ==> CallOk(Run(hasDataset, steps).value, i);
  }

  ghost predicate AllOver(s: State) {
    && s.th.starter.Started? && s.th.worker.Exited? && s.th.watchdog.NoThread?
    && s.own.destroyer.CallNo?
    && (forall i :: 0 <= i < |s.calls| ==> !Active(s.calls[i]))
  }

  lemma FreedMeansOver(s: State)
    requires Inv(s) && s.th.freed && s.th.starter.Started?
    ensures AllOver(s)
  {
    assert CallOk(s, s.own.destroyer.index);
    forall i | 0 <= i < |s.calls| ensures !Active(s.calls[i]) {
      assert CallOk(s, i);
    }
  }

  lemma NobodyEnters(s: State, a: EntryStep)
    requires Inv(s) && AllOver(s)
    ensures NextEntry(s, a).None?
  {
  }

  lemma NobodyMoves(s: State, st: Step)
    requires AllOver(s) && !st.Entering?
    ensures Next(s, st).None?
  {
    match st
    case Cancelling(i, a) => NoCallMoves(s, i);
    case JoiningCall(i, a) => NoCallMoves(s, i);
    case _ =>
  }

  lemma NoCallMoves(s: State, i: nat)
    requires AllOver(s)
    ensures forall a :: NextCancel(s, i, a).None?
    ensures forall a :: NextJoin(s, i, a).None?
  {
    assert i < |s.calls| ==> !Active(s.calls[i]);
  }

  /** When a started job is freed, the worker and the watchdog are gone, no call is inside it, and
      nothing can happen to it any more. */
  lemma FreedIsFinal(hasDataset: bool, steps: seq<Step>, st: Step)
    requires Run(hasDataset, steps).Some?
    requires Run(hasDataset, steps).value.th.freed && Run(hasDataset, steps).value.th.starter.Started?
    ensures AllOver(Run(hasDataset, steps).value) && Next(Run(hasDataset, steps).value, st).None?
  {
    var s := Run(hasDataset, steps).value;
    RunInv(hasDataset, steps);
    FreedMeansOver(s);
    if st.Entering? {
      NobodyEnters(s, st.entry);
    } else {
      NobodyMoves(s, st);
    }
  }

  lemma ExpiryNeedsNoStop(s: State, st: Step)
    requires Next(s, st).Some? && !s.th.watchdog.InExpire? && Next(s, st).value.th.watchdog.InExpire?
    ensures st == WatchdogRuns(WatchdogExpires) && !s.sh.watchdogStop
  {
    match st
    case WatchdogRuns(a) =>
    case _ => OnlyWatchdogExpires(s, st);
  }

  lemma OnlyWatchdogExpires(s: State, st: Step)
    requires Next(s, st).Some? && !st.WatchdogRuns? && Next(s, st).value.th.watchdog.InExpire?
    ensures s.th.watchdog.InExpire?
  {
  }

  /** While the worker waits for a watchdog to end, to arm another or to fire on_terminal, no on_expire starts. */
  lemma StoppedWatchdogStaysQuiet(hasDataset: bool, steps: seq<Step>, st: Step)
    requires Run(hasDataset, steps).Some? && Next(Run(hasDataset, steps).value, st).Some?
    requires var w := Run(hasDataset, steps).value.th.worker; w == Body(ArmJoin) || w.JoinWatchdog?
    ensures Next(Run(hasDataset, steps).value, st).value.th.watchdog.InExpire? ==> Run(hasDataset, steps).value.th.watchdog.InExpire?
  {
    RunInv(hasDataset, steps);
    var s := Run(hasDataset, steps).value;
    if !s.th.watchdog.InExpire? && Next(s, st).value.th.watchdog.InExpire? {
      ExpiryNeedsNoStop(s, st);
    }
  }

  /** The requests that are always served: a host that holds the job may cancel and join at any time and, when none
      of its calls is under way, destroy; whatever callback is running may cancel and join if it is not already
      doing so. */
  lemma RequestsAreServed(s: State)
    ensures s.th.starter.Started? && s.own.destroyer.Nobody? ==>
              && Next(s, Entering(NewCancel(External))) == Some(s.(calls := s.calls + [Call(External, CancelStore)]))
              && Next(s, Entering(NewJoin(External))) == Some(s.(calls := s.calls + [Call(External, JoinEnter)]))
              && (Idle(s, External) ==> Next(s, Entering(NewDestroy)).Some?)
    ensures WorkerInUserCode(s) && Idle(s, OnWorker) ==>
              Next(s, Entering(NewCancel(OnWorker))).Some? && Next(s, Entering(NewJoin(OnWorker))).Some?
    ensures s.th.watchdog.InExpire? && Idle(s, OnWatchdog) ==>
              Next(s, Entering(NewCancel(OnWatchdog))).Some? && Next(s, Entering(NewJoin(OnWatchdog))).Some?
    ensures forall onWorker :: HookRunsOn(s, onWorker) && HookIdle(s) ==>
              Next(s, Entering(NewCancel(InHook(onWorker)))).Some? && Next(s, Entering(NewJoin(InHook(onWorker)))).Some?
  {
  }

  /** The body may at any time register a hook, notify, arm a watchdog and return. */
  lemma BodyRequestsAreServed(s: State, h: HookId, outcome: Outcome)
    requires BodyAt(s, Running)
    ensures Next(s, BodyHooks(OnCancel(h))).Some? && Next(s, BodyNotifies(NotifyDataset)).Some? && Next(s, BodyArms(Arm)).Some?
    ensures Next(s, WorkerRuns(BodyReturns(outcome))).Some? && Next(s, WorkerRuns(BodyThrows)).Some?
    ensures s.sh.hasDataset && !s.sh.datasetNotified ==> Next(s, BodyNotifies(NotifyDataset)).value.th.worker == Body(InDataset)
  {
  }

  /** A failed spawn hands out nothing and calls nothing back. */
  lemma FailedSpawnIsSilent(hasDataset: bool, steps: seq<Step>, st: Step)
    requires Run(hasDataset, steps).Some? && Run(hasDataset, steps).value.th.starter.SpawnFailed?
    ensures var s := Run(hasDataset, steps).value;
            s.th.freed && !s.th.outJob && !AnyCallback(s) && Next(s, st).None?
  {
    RunInv(hasDataset, steps);
  }
}

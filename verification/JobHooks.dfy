/** Which hook runs: the one registered last, as the steps of the run tell it. */
module JobHooks {
  import opened Prelude
  import opened JobSections
  import opened JobMachine
  import opened JobInvariants

  /** The argument of the last onCancel among the steps. */
  function LastRegistered(steps: seq<Step>): Option<HookId> {
    if |steps| == 0 then None
    else
      match steps[|steps| - 1]
      case BodyHooks(OnCancel(h)) => Some(h)
      case _ => LastRegistered(steps[..|steps| - 1])
  }

  /** A hook that can still be claimed is the last one registered. */
  predicate SlotHolds(s: State, last: Option<HookId>) {
    s.sh.hook.Some? && !s.sh.hookFired ==> s.sh.hook == last
  }

  predicate Registers(st: Step) {
    st.BodyHooks? && st.hook.OnCancel?
  }

  predicate Claims(s: State, t: State) {
    |t.hist.hooksRun| > |s.hist.hooksRun|
  }

  predicate SameSlot(s: State, t: State) {
    t.sh.hook == s.sh.hook && t.sh.hookFired == s.sh.hookFired
  }

  lemma StartLeavesSlot(s: State, a: StartStep)
    requires NextStart(s, a).Some?
    ensures SameSlot(s, NextStart(s, a).value)
  {
  }

  lemma RunLeavesSlot(s: State, a: RunStep)
    requires NextRun(s, a).Some?
    ensures SameSlot(s, NextRun(s, a).value)
  {
  }

  lemma DatasetLeavesSlot(s: State, a: DatasetStep)
    requires NextDataset(s, a).Some?
    ensures SameSlot(s, NextDataset(s, a).value)
  {
  }

  lemma ArmLeavesSlot(s: State, a: ArmStep)
    requires NextArm(s, a).Some?
    ensures SameSlot(s, NextArm(s, a).value)
  {
  }

  lemma WatchdogLeavesSlot(s: State, a: WatchdogStep)
    requires NextWatchdog(s, a).Some?
    ensures SameSlot(s, NextWatchdog(s, a).value)
  {
  }

  lemma EntryLeavesSlot(s: State, a: EntryStep)
    requires NextEntry(s, a).Some?
    ensures SameSlot(s, NextEntry(s, a).value)
  {
  }

  lemma StopsKeepSlot(s: State, a: ShutdownStep, last: Option<HookId>)
    requires SlotHolds(s, last) && NextShutdown(s, a).Some?
    ensures SlotHolds(NextShutdown(s, a).value, last)
  {
  }

  lemma CancelKeepsSlot(s: State, i: nat, a: CancelStep, last: Option<HookId>)
    requires SlotHolds(s, last) && NextCancel(s, i, a).Some?
    ensures SlotHolds(NextCancel(s, i, a).value, last)
  {
  }

  lemma JoinLeavesSlot(s: State, i: nat, a: JoinStep)
    requires NextJoin(s, i, a).Some?
    ensures SameSlot(s, NextJoin(s, i, a).value)
  {
  }

  lemma OthersKeepSlot(s: State, st: Step, last: Option<HookId>)
    requires SlotHolds(s, last) && Next(s, st).Some? && !Registers(st)
    ensures SlotHolds(Next(s, st).value, last)
  {
    match st
    case Starting(a) => StartLeavesSlot(s, a);
    case WorkerRuns(a) => RunLeavesSlot(s, a);
    case WorkerStops(a) => StopsKeepSlot(s, a, last);
    case BodyHooks(a) =>
    case BodyNotifies(a) => DatasetLeavesSlot(s, a);
    case BodyArms(a) => ArmLeavesSlot(s, a);
    case WatchdogRuns(a) => WatchdogLeavesSlot(s, a);
    case Entering(a) => EntryLeavesSlot(s, a);
    case Cancelling(i, a) => CancelKeepsSlot(s, i, a, last);
    case JoiningCall(i, a) => JoinLeavesSlot(s, i, a);
  }

  /** A canceller claims what the slot holds. */
  lemma CancellerTakesSlot(s: State, st: Step, last: Option<HookId>)
    requires SlotHolds(s, last) && Next(s, st).Some? && !Registers(st)
    ensures var t := Next(s, st).value;
            if Claims(s, t) then last.Some? && t.hist.hooksRun == s.hist.hooksRun + [last.value] && st.Cancelling? && st.cancel.CancelSection?
            else t.hist.hooksRun == s.hist.hooksRun
  {
  }

  /** A registration replaces what was there, or, after the cancellation, runs its own hook or nothing. */
  lemma RegistrationReplaces(s: State, h: HookId)
    requires NextHook(s, OnCancel(h)).Some?
    ensures var t := NextHook(s, OnCancel(h)).value;
            && SlotHolds(t, Some(h))
            && t.hist.hooksRun == (if s.sh.cancelled && !s.sh.hookFired then s.hist.hooksRun + [h] else s.hist.hooksRun)
            && (!s.sh.cancelled ==> t.sh.hook == Some(h))
  {
  }

  lemma LastStep(hasDataset: bool, steps: seq<Step>)
    requires |steps| > 0 && Run(hasDataset, steps).Some?
    ensures var before := Run(hasDataset, steps[..|steps| - 1]);
            before.Some? && Run(hasDataset, steps) == Next(before.value, steps[|steps| - 1])
  {
  }

  lemma {:induction false} SlotHoldsLast(hasDataset: bool, steps: seq<Step>)
    requires Run(hasDataset, steps).Some?
    ensures SlotHolds(Run(hasDataset, steps).value, LastRegistered(steps))
  {
    if |steps| > 0 {
      var init, st := steps[..|steps| - 1], steps[|steps| - 1];
      LastStep(hasDataset, steps);
      SlotHoldsLast(hasDataset, init);
      if Registers(st) {
        RegistrationReplaces(Run(hasDataset, init).value, st.hook.h);
      } else {
        OthersKeepSlot(Run(hasDataset, init).value, st, LastRegistered(init));
      }
    }
  }

  /** Whatever claims a hook, the hook is the argument of the last onCancel so far; a registrant that claims is
      itself that last onCancel. */
  lemma ClaimedIsLastRegistered(hasDataset: bool, steps: seq<Step>)
    requires |steps| > 0 && Run(hasDataset, steps).Some?
    ensures var s, t := Run(hasDataset, steps[..|steps| - 1]).value, Run(hasDataset, steps).value;
            if Claims(s, t) then LastRegistered(steps).Some? && t.hist.hooksRun == s.hist.hooksRun + [LastRegistered(steps).value]
            else t.hist.hooksRun == s.hist.hooksRun
  {
    var init, st := steps[..|steps| - 1], steps[|steps| - 1];
    LastStep(hasDataset, steps);
    SlotHoldsLast(hasDataset, init);
    if Registers(st) {
      RegistrationReplaces(Run(hasDataset, init).value, st.hook.h);
    } else {
      CancellerTakesSlot(Run(hasDataset, init).value, st, LastRegistered(init));
    }
  }

  /** Over every run: a hook that was run was claimed at one step, by a canceller or by its registrant, and is the
      argument of the last onCancel up to that step. */
  lemma {:induction false} HookRunIsLastRegistered(hasDataset: bool, steps: seq<Step>) returns (k: nat)
    requires Run(hasDataset, steps).Some? && |Run(hasDataset, steps).value.hist.hooksRun| > 0
    ensures k < |steps| && Some(Run(hasDataset, steps).value.hist.hooksRun[0]) == LastRegistered(steps[..k + 1])
    ensures (steps[k].Cancelling? && steps[k].cancel.CancelSection?)
            || steps[k] == BodyHooks(OnCancel(Run(hasDataset, steps).value.hist.hooksRun[0]))
  {
    var init, st := steps[..|steps| - 1], steps[|steps| - 1];
    LastStep(hasDataset, steps);
    ClaimedIsLastRegistered(hasDataset, steps);
    if |Run(hasDataset, init).value.hist.hooksRun| > 0 {
      k := HookRunIsLastRegistered(hasDataset, init);
      assert init[..k + 1] == steps[..k + 1];
    } else {
      k := |steps| - 1;
      assert steps[..k + 1] == steps;
      SlotHoldsLast(hasDataset, init);
      if !Registers(st) {
        CancellerTakesSlot(Run(hasDataset, init).value, st, LastRegistered(init));
      }
    }
  }
}

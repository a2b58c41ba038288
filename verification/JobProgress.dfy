/** When a job settles: exactly if nobody joins it from inside a callback the worker has to wait for.

    A move is a step that needs no new request. Unless somebody joins from inside, an unsettled job always has one:
    a call that is not waiting can go on, else the watchdog, else the worker, else whoever waits for the worker. A
    rank falls with every move, so moves come to an end. And a join from inside stays where it is for ever. */
module JobProgress {
  import opened Prelude
  import opened JobSections
  import opened JobMachine
  import opened JobInvariants

  /** A move that needs no new request by the host or the body: the implementation's own steps, the
      return of user code, and the watchdog's timeout. */
  predicate IsProgress(st: Step) {
    match st
    case BodyHooks(a) => a.OwnHookReturns?
    case BodyNotifies(a) => a.DatasetReturns?
    case BodyArms(a) => !a.Arm?
    case Entering(_) => false
    case _ => true
  }

  /** Nothing is left to do: the job failed to start, or it ended and every call has returned. */
  predicate Settled(s: State) {
    || s.th.starter.SpawnFailed?
    || (s.th.starter.Started? && s.th.worker.Exited? && s.th.watchdog.NoThread?
        && forall i :: 0 <= i < |s.calls| ==> !Active(s.calls[i]))
  }

  predicate Enabled(s: State, st: Step) {
    IsProgress(st) && Next(s, st).Some?
  }

  predicate Blocking(c: Call) {
    c.pc.JoinWait? || c.pc.JoinWorker?
  }

  /** The move of a call that is neither over nor waiting for another thread. */
  function CallMove(c: Call, i: nat): Step {
    match c.pc
    case CancelStore => Cancelling(i, CancelStores)
    case CancelLock => Cancelling(i, CancelSection)
    case RunningHook => Cancelling(i, HookReturns)
    case ClearRunning => Cancelling(i, HookCleared)
    case JoinEnter => JoiningCall(i, JoinSection)
    case JoinPublish => JoiningCall(i, JoinPublishes)
    case _ => JoiningCall(i, Delete)
  }

  lemma CallCanMove(s: State, i: nat)
    requires i < |s.calls| && Active(s.calls[i]) && !Blocking(s.calls[i])
    requires s.calls[i].pc.RunningHook? ==> HookIdle(s)
    ensures Enabled(s, CallMove(s.calls[i], i))
  {
  }

  /** The move of the worker when no call of its own is under way. */
  function WorkerMove(w: Worker): Step {
    match w
    case AtGate => WorkerRuns(AcquireGate)
    case CheckCancelled => WorkerRuns(ReadCancelled)
    case Body(pc) =>
      (match pc
       case Running => WorkerRuns(BodyReturns(Succeeded))
       case InDataset => BodyNotifies(DatasetReturns)
       case InOwnHook => BodyHooks(OwnHookReturns)
       case ArmJoin => BodyArms(ArmJoined)
       case ArmReset => BodyArms(ArmCleared)
       case ArmSpawn => BodyArms(ArmCreated(true))
       case ArmAwait => BodyArms(ArmAcknowledged))
    case DisarmEnter => WorkerStops(DisarmLock)
    case DisarmWait => WorkerStops(DisarmWake)
    case StopWatchdog => WorkerStops(SignalWatchdog)
    case JoinWatchdog => WorkerStops(WatchdogJoined)
    case FireTerminal => WorkerStops(TerminalSwap)
    case _ => WorkerStops(TerminalReturns)
  }

  // ---------- joins from inside ----------

  /** A join under way in on_expire, or in a hook run by another thread than the worker. The worker waits for
      these callbacks to return before it ends, and the join waits for the worker. */
  predicate JoinsFromInside(c: Call) {
    && (c.pc.JoinEnter? || c.pc.JoinWait? || Joining(c))
    && (c.who.OnWatchdog? || c.who == InHook(false))
  }

  predicate SelfBlocked(s: State) {
    exists i :: 0 <= i < |s.calls| && JoinsFromInside(s.calls[i])
  }

  /** The worker cannot have ended: somebody inside waits for it. */
  lemma InsideMeansUnfinished(s: State, i: nat)
    requires Inv(s) && i < |s.calls| && JoinsFromInside(s.calls[i])
    ensures s.th.starter.Started? && !TerminalBegun(s) && !s.sh.joined && !s.calls[i].pc.JoinPublish?
  {
    assert CallOk(s, i);
  }

  lemma InsideJoinStays(s: State, st: Step, i: nat)
    requires Inv(s) && i < |s.calls| && JoinsFromInside(s.calls[i]) && Next(s, st).Some?
    ensures i < |Next(s, st).value.calls| && JoinsFromInside(Next(s, st).value.calls[i])
  {
    InsideMeansUnfinished(s, i);
    match st
    case Cancelling(k, a) => InsideJoinOutlivesCancel(s, k, a, i);
    case JoiningCall(k, a) => InsideJoinOutlivesJoin(s, k, a, i);
    case Entering(a) =>
    case _ => OthersKeepCalls(s, st);
  }

  lemma OthersKeepCalls(s: State, st: Step)
    requires Next(s, st).Some? && !st.Cancelling? && !st.JoiningCall? && !st.Entering?
    ensures Next(s, st).value.calls == s.calls
  {
  }

  lemma InsideJoinOutlivesCancel(s: State, k: nat, a: CancelStep, i: nat)
    requires i < |s.calls| && JoinsFromInside(s.calls[i]) && NextCancel(s, k, a).Some?
    ensures NextCancel(s, k, a).value.calls[i] == s.calls[i]
  {
  }

  lemma InsideJoinOutlivesJoin(s: State, k: nat, a: JoinStep, i: nat)
    requires Inv(s) && i < |s.calls| && JoinsFromInside(s.calls[i]) && NextJoin(s, k, a).Some?
    requires !TerminalBegun(s) && !s.sh.joined && !s.calls[i].pc.JoinPublish?
    ensures JoinsFromInside(NextJoin(s, k, a).value.calls[i])
  {
  }

  /** Such a join never returns, and the job never ends: on_terminal is never called. */
  lemma {:induction false} SelfBlockedForever(hasDataset: bool, steps: seq<Step>, more: seq<Step>, i: nat)
    requires Run(hasDataset, steps).Some? && Run(hasDataset, steps + more).Some?
    requires i < |Run(hasDataset, steps).value.calls| && JoinsFromInside(Run(hasDataset, steps).value.calls[i])
    ensures var t := Run(hasDataset, steps + more).value;
            && i < |t.calls| && JoinsFromInside(t.calls[i])
            && !t.th.worker.Exited? && t.hist.terminalCalls == 0 && !Settled(t)
  {
    var all := steps + more;
    RunInv(hasDataset, all);
    if more == [] {
      assert all == steps;
    } else {
      assert all[..|all| - 1] == steps + more[..|more| - 1];
      RunInv(hasDataset, all[..|all| - 1]);
      SelfBlockedForever(hasDataset, steps, more[..|more| - 1], i);
      InsideJoinStays(Run(hasDataset, all[..|all| - 1]).value, all[|all| - 1], i);
    }
    InsideMeansUnfinished(Run(hasDataset, all).value, i);
  }

  /** A run into it, in three parts: the job is started, its body arms a watchdog, the watchdog expires and
      on_expire joins the job. */
  const STARTED_RUN: seq<Step> := [Starting(SpawnWorker(true)), Starting(PopulateOutJob), Starting(OpenGate), WorkerRuns(AcquireGate)]
  const ARMING_RUN: seq<Step> := [WorkerRuns(ReadCancelled), BodyArms(Arm), BodyArms(ArmJoined), BodyArms(ArmCleared)]
  const EXPIRING_RUN: seq<Step> :=
    [BodyArms(ArmCreated(true)), WatchdogRuns(WatchdogLocks), BodyArms(ArmAcknowledged), WatchdogRuns(WatchdogExpires)]

  function StartedJob(hasDataset: bool): State {
    Init(hasDataset).(sh := Fresh(hasDataset).(gate := true),
                      th := Threads(Started, true, CheckCancelled, NoThread, None, false))
  }

  function ArmingJob(hasDataset: bool): State {
    StartedJob(hasDataset).(th := Threads(Started, true, Body(ArmSpawn), NoThread, None, false),
                            hist := Init(hasDataset).hist.(bodyStarted := true))
  }

  function ExpiringJob(hasDataset: bool): State {
    ArmingJob(hasDataset).(th := Threads(Started, true, Body(Running), InExpire, None, false))
  }

  lemma TwoSteps(hasDataset: bool, steps: seq<Step>, s: State, first: Step, second: Step, t: State)
    requires Run(hasDataset, steps) == Some(s)
    requires Next(s, first).Some? && Next(Next(s, first).value, second) == Some(t)
    ensures Run(hasDataset, steps + [first, second]) == Some(t)
  {
    OneStep(hasDataset, steps, first);
    OneStep(hasDataset, steps + [first], second);
    assert steps + [first, second] == steps + [first] + [second];
  }

  lemma FourSteps(hasDataset: bool, steps: seq<Step>, s: State, four: seq<Step>, mid: State, t: State)
    requires Run(hasDataset, steps) == Some(s) && |four| == 4
    requires Next(s, four[0]).Some? && Next(Next(s, four[0]).value, four[1]) == Some(mid)
    requires Next(mid, four[2]).Some? && Next(Next(mid, four[2]).value, four[3]) == Some(t)
    ensures Run(hasDataset, steps + four) == Some(t)
  {
    TwoSteps(hasDataset, steps, s, four[0], four[1], mid);
    TwoSteps(hasDataset, steps + [four[0], four[1]], mid, four[2], four[3], t);
    TwoAndTwo(steps, four);
  }

  lemma TwoAndTwo(steps: seq<Step>, four: seq<Step>)
    requires |four| == 4
    ensures steps + four == steps + [four[0], four[1]] + [four[2], four[3]]
  {
  }

  lemma OneStep(hasDataset: bool, steps: seq<Step>, st: Step)
    requires Run(hasDataset, steps).Some?
    ensures Run(hasDataset, steps + [st]) == Next(Run(hasDataset, steps).value, st)
  {
    assert (steps + [st])[..|steps|] == steps;
  }

  lemma StartingRun(hasDataset: bool)
    ensures Run(hasDataset, [] + STARTED_RUN) == Some(StartedJob(hasDataset))
  {
    var mid := Next(Next(Init(hasDataset), STARTED_RUN[0]).value, STARTED_RUN[1]).value;
    FourSteps(hasDataset, [], Init(hasDataset), STARTED_RUN, mid, StartedJob(hasDataset));
  }

  lemma ArmingRun(hasDataset: bool, steps: seq<Step>)
    requires Run(hasDataset, steps) == Some(StartedJob(hasDataset))
    ensures Run(hasDataset, steps + ARMING_RUN) == Some(ArmingJob(hasDataset))
  {
    var mid := Next(Next(StartedJob(hasDataset), ARMING_RUN[0]).value, ARMING_RUN[1]).value;
    FourSteps(hasDataset, steps, StartedJob(hasDataset), ARMING_RUN, mid, ArmingJob(hasDataset));
  }

  lemma ExpiringRun(hasDataset: bool, steps: seq<Step>)
    requires Run(hasDataset, steps) == Some(ArmingJob(hasDataset))
    ensures Run(hasDataset, steps + EXPIRING_RUN) == Some(ExpiringJob(hasDataset))
  {
    var mid := Next(Next(ArmingJob(hasDataset), EXPIRING_RUN[0]).value, EXPIRING_RUN[1]).value;
    FourSteps(hasDataset, steps, ArmingJob(hasDataset), EXPIRING_RUN, mid, ExpiringJob(hasDataset));
  }

  lemma JoinFromExpire(s: State)
    requires s.th.watchdog.InExpire? && s.calls == []
    ensures Next(s, Entering(NewJoin(OnWatchdog))).Some? && SelfBlocked(Next(s, Entering(NewJoin(OnWatchdog))).value)
  {
    assert MayCall(s, OnWatchdog);
    assert JoinsFromInside(Next(s, Entering(NewJoin(OnWatchdog))).value.calls[0]);
  }

  lemma JoinFromExpireBlocks(hasDataset: bool)
    ensures var steps := STARTED_RUN + ARMING_RUN + EXPIRING_RUN;
            var s := Run(hasDataset, steps + [Entering(NewJoin(OnWatchdog))]);
            s.Some? && SelfBlocked(s.value)
  {
    StartingRun(hasDataset);
    assert [] + STARTED_RUN == STARTED_RUN;
    ArmingRun(hasDataset, STARTED_RUN);
    ExpiringRun(hasDataset, STARTED_RUN + ARMING_RUN);
    OneStep(hasDataset, STARTED_RUN + ARMING_RUN + EXPIRING_RUN, Entering(NewJoin(OnWatchdog)));
    JoinFromExpire(ExpiringJob(hasDataset));
  }

  /** Only a new request starts one. */
  lemma NoMoveStartsInsideJoin(s: State, st: Step, i: nat)
    requires Inv(s) && Enabled(s, st)
    requires i < |Next(s, st).value.calls| && JoinsFromInside(Next(s, st).value.calls[i])
    ensures i < |s.calls| && JoinsFromInside(s.calls[i])
  {
    match st
    case Cancelling(k, a) => NoCancelStartsInsideJoin(s, k, a, i);
    case JoiningCall(k, a) => NoJoinStartsInsideJoin(s, k, a, i);
    case _ => OthersKeepCalls(s, st);
  }

  lemma NoCancelStartsInsideJoin(s: State, k: nat, a: CancelStep, i: nat)
    requires i < |s.calls| && NextCancel(s, k, a).Some? && JoinsFromInside(NextCancel(s, k, a).value.calls[i])
    ensures JoinsFromInside(s.calls[i])
  {
  }

  lemma NoJoinStartsInsideJoin(s: State, k: nat, a: JoinStep, i: nat)
    requires i < |s.calls| && NextJoin(s, k, a).Some? && JoinsFromInside(NextJoin(s, k, a).value.calls[i])
    ensures JoinsFromInside(s.calls[i])
  {
  }

  // ---------- everything else moves ----------

  /** Every call left is waiting, and none of them from inside. */
  ghost predicate OnlyWaiting(s: State) {
    !SelfBlocked(s) && forall i :: 0 <= i < |s.calls| && Active(s.calls[i]) ==> Blocking(s.calls[i])
  }

  lemma NestedCallsAreOver(s: State)
    requires Inv(s) && OnlyWaiting(s)
    ensures Idle(s, OnWorker) && Idle(s, OnWatchdog) && HookIdle(s)
  {
    forall i | 0 <= i < |s.calls| && !s.calls[i].who.External? && !s.calls[i].who.Destroyer?
      ensures !Active(s.calls[i])
    {
      assert CallOk(s, i);
      assert !JoinsFromInside(s.calls[i]);
    }
  }

  lemma WorkerCanMove(s: State)
    requires Inv(s) && OnlyWaiting(s) && s.th.starter.Started? && !s.th.worker.Exited?
    requires s.th.watchdog.NoThread? || s.th.watchdog.Finished?
    ensures Enabled(s, WorkerMove(s.th.worker))
  {
    NestedCallsAreOver(s);
    assert HookOwnerOk(s);
  }

  ghost predicate HookOwnerOk(s: State) {
    s.own.hookOwner.CallNo? && s.own.hookOwner.index < |s.calls| ==> CallOk(s, s.own.hookOwner.index)
  }

  lemma WatchdogCanMove(s: State) returns (st: Step)
    requires Inv(s) && OnlyWaiting(s)
    requires !s.th.watchdog.NoThread? && !s.th.watchdog.Finished?
    ensures Enabled(s, st)
  {
    NestedCallsAreOver(s);
    if s.th.watchdog.Created? {
      st := WatchdogRuns(WatchdogLocks);
    } else if s.th.watchdog.InExpire? {
      st := WatchdogRuns(ExpireReturns);
    } else if s.sh.watchdogStop {
      st := WatchdogRuns(WatchdogStops);
    } else {
      st := WatchdogRuns(WatchdogExpires);
    }
  }

  /** With the worker gone, a blocked call, or the call it waits for, can move. */
  lemma JoinCanMove(s: State, i: nat) returns (st: Step)
    requires Inv(s) && s.th.worker.Exited? && i < |s.calls| && Blocking(s.calls[i])
    ensures Enabled(s, st)
  {
    assert CallOk(s, i);
    if s.calls[i].pc.JoinWorker? {
      st := JoiningCall(i, WorkerJoined);
    } else if s.sh.joined {
      st := JoiningCall(i, JoinWakes);
    } else {
      var k := s.own.joiner.index;
      assert CallOk(s, k);
      if s.calls[k].pc.JoinWorker? {
        st := JoiningCall(k, WorkerJoined);
      } else {
        st := CallMove(s.calls[k], k);
      }
    }
  }

  /** Deadlock freedom: an unsettled job that nobody joins from inside always has an enabled move that needs no
      new request. */
  lemma NeverStuck(hasDataset: bool, steps: seq<Step>) returns (st: Step)
    requires Run(hasDataset, steps).Some?
    requires !Settled(Run(hasDataset, steps).value) && !SelfBlocked(Run(hasDataset, steps).value)
    ensures Enabled(Run(hasDataset, steps).value, st)
  {
    RunInv(hasDataset, steps);
    st := SomeMove(Run(hasDataset, steps).value);
  }

  /** A call that is neither over nor waiting can move, or a call made in the hook it runs can. */
  lemma SomeCallMoves(s: State, i: nat) returns (st: Step)
    requires Inv(s) && !SelfBlocked(s) && i < |s.calls| && Active(s.calls[i]) && !Blocking(s.calls[i])
    ensures Enabled(s, st)
  {
    if s.calls[i].pc.RunningHook? && !HookIdle(s) {
      var k :| 0 <= k < |s.calls| && s.calls[k].who.InHook? && Active(s.calls[k]);
      assert CallOk(s, k);
      assert !JoinsFromInside(s.calls[k]);
      CallCanMove(s, k);
      st := CallMove(s.calls[k], k);
    } else {
      CallCanMove(s, i);
      st := CallMove(s.calls[i], i);
    }
  }

  lemma SomeMove(s: State) returns (st: Step)
    requires Inv(s) && !Settled(s) && !SelfBlocked(s)
    ensures Enabled(s, st)
  {
    if s.th.starter.NotStarted? {
      st := Starting(SpawnWorker(true));
    } else if s.th.starter.Spawned? {
      st := Starting(PopulateOutJob);
    } else if s.th.starter.Populated? {
      st := Starting(OpenGate);
    } else if i :| 0 <= i < |s.calls| && Active(s.calls[i]) && !Blocking(s.calls[i]) {
      st := SomeCallMoves(s, i);
    } else if !s.th.watchdog.NoThread? && !s.th.watchdog.Finished? {
      st := WatchdogCanMove(s);
    } else if !s.th.worker.Exited? {
      WorkerCanMove(s);
      st := WorkerMove(s.th.worker);
    } else {
      var i :| 0 <= i < |s.calls| && Active(s.calls[i]);
      st := JoinCanMove(s, i);
    }
  }

  // Every progress move lowers a rank, so they cannot go on for ever.

  function StarterRank(x: Starter): nat {
    match x
    case NotStarted => 3
    case Spawned => 2
    case Populated => 1
    case _ => 0
  }

  function WorkerRank(w: Worker): nat {
    match w
    case NotSpawned => 10
    case AtGate => 9
    case CheckCancelled => 8
    case Body(pc) =>
      (match pc
       case ArmJoin => 14
       case ArmReset => 13
       case ArmSpawn => 12
       case Running => 7
       case _ => 8)
    case DisarmEnter => 6
    case DisarmWait => 5
    case StopWatchdog => 4
    case JoinWatchdog => 3
    case FireTerminal => 2
    case InTerminal => 1
    case Exited => 0
  }

  function WatchdogRank(x: Watchdog): nat {
    match x
    case Created => 3
    case Waiting => 2
    case InExpire => 1
    case _ => 0
  }

  function CallRank(c: Call): nat {
    match c.pc
    case CancelStore => 8
    case CancelLock => 7
    case RunningHook => 6
    case ClearRunning => 5
    case JoinEnter => 4
    case JoinWait => 3
    case JoinWorker => 3
    case JoinPublish => 2
    case FreeState => 1
    case _ => 0
  }

  function CallsRank(calls: seq<Call>): nat {
    if calls == [] then 0 else CallsRank(calls[..|calls| - 1]) + CallRank(calls[|calls| - 1])
  }

  function Rank(s: State): nat {
    StarterRank(s.th.starter) + WorkerRank(s.th.worker) + WatchdogRank(s.th.watchdog) + CallsRank(s.calls)
  }

  lemma {:induction false} CallsRankUpdate(calls: seq<Call>, i: nat, c: Call)
    requires i < |calls|
    ensures CallsRank(calls[i := c]) == CallsRank(calls) - CallRank(calls[i]) + CallRank(c)
  {
    var last := |calls| - 1;
    if i == last {
      assert calls[i := c][..last] == calls[..last];
    } else {
      assert calls[i := c][..last] == calls[..last][i := c];
      CallsRankUpdate(calls[..last], i, c);
    }
  }

  lemma RunMoveLowersRank(s: State, a: RunStep)
    requires NextRun(s, a).Some?
    ensures Rank(NextRun(s, a).value) < Rank(s)
  {
    assert NextRun(s, a).value.calls == s.calls;
  }

  lemma ShutdownMoveLowersRank(s: State, a: ShutdownStep)
    requires NextShutdown(s, a).Some?
    ensures Rank(NextShutdown(s, a).value) < Rank(s)
  {
    assert NextShutdown(s, a).value.calls == s.calls;
  }

  lemma ThreadMoveLowersRank(s: State, st: Step)
    requires Inv(s) && Enabled(s, st) && !st.WorkerRuns? && !st.WorkerStops? && !st.Cancelling? && !st.JoiningCall?
    ensures Rank(Next(s, st).value) < Rank(s)
  {
    assert Next(s, st).value.calls == s.calls;
  }

  lemma CancelMoveLowersRank(s: State, i: nat, a: CancelStep)
    requires NextCancel(s, i, a).Some?
    ensures Rank(NextCancel(s, i, a).value) < Rank(s)
  {
    var t := NextCancel(s, i, a).value;
    assert t.th == s.th && t.calls == s.calls[i := t.calls[i]];
    CallsRankUpdate(s.calls, i, t.calls[i]);
  }

  lemma JoinMoveLowersRank(s: State, i: nat, a: JoinStep)
    requires NextJoin(s, i, a).Some?
    ensures Rank(NextJoin(s, i, a).value) < Rank(s)
  {
    var t := NextJoin(s, i, a).value;
    assert t.calls == s.calls[i := t.calls[i]];
    CallsRankUpdate(s.calls, i, t.calls[i]);
  }

  lemma MoveLowersRank(s: State, st: Step)
    requires Inv(s) && Enabled(s, st)
    ensures Rank(Next(s, st).value) < Rank(s)
  {
    match st
    case Cancelling(i, a) => CancelMoveLowersRank(s, i, a);
    case JoiningCall(i, a) => JoinMoveLowersRank(s, i, a);
    case WorkerRuns(a) => RunMoveLowersRank(s, a);
    case WorkerStops(a) => ShutdownMoveLowersRank(s, a);
    case _ => ThreadMoveLowersRank(s, st);
  }

  /** A run that only makes progress moves is no longer than the rank of its first state. When it can go no
      further the job is settled, every call has returned and on_terminal was delivered exactly once, if and
      only if nobody was joining from inside. */
  lemma {:induction false} EveryProgressRunSettles(s: State, moves: seq<Step>, t: State)
    requires Inv(s) && ProgressPath(s, moves, t)
    ensures |moves| <= Rank(s) && Inv(t)
    ensures SelfBlocked(t) <==> SelfBlocked(s)
    ensures (forall st :: !Enabled(t, st)) ==>
              && (Settled(t) <==> !SelfBlocked(s))
              && (Settled(t) && t.th.starter.Started? ==> t.hist.terminalCalls == 1)
    decreases |moves|
  {
    if moves == [] {
      if i :| 0 <= i < |t.calls| && JoinsFromInside(t.calls[i]) {
        InsideMeansUnfinished(t, i);
      } else if !Settled(t) {
        var st := SomeMove(t);
        assert Enabled(t, st);
      }
    } else {
      NextKeeps(s, moves[0]);
      MoveLowersRank(s, moves[0]);
      MoveKeepsBlocked(s, moves[0]);
      EveryProgressRunSettles(Next(s, moves[0]).value, moves[1..], t);
    }
  }

  lemma MoveKeepsBlocked(s: State, st: Step)
    requires Inv(s) && Enabled(s, st)
    ensures SelfBlocked(Next(s, st).value) <==> SelfBlocked(s)
  {
    var t := Next(s, st).value;
    if i :| 0 <= i < |s.calls| && JoinsFromInside(s.calls[i]) {
      InsideJoinStays(s, st, i);
    }
    if i :| 0 <= i < |t.calls| && JoinsFromInside(t.calls[i]) {
      NoMoveStartsInsideJoin(s, st, i);
    }
  }

  ghost predicate ProgressPath(s: State, moves: seq<Step>, t: State)
    decreases |moves|
  {
    if moves == [] then s == t
    else Enabled(s, moves[0]) && ProgressPath(Next(s, moves[0]).value, moves[1..], t)
  }
}

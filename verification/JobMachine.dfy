/** All interleavings of the threads of one job. */
module JobMachine {
  import opened Prelude
  import opened JobSections

  /** startJob after its argument checks. */
  datatype Starter = NotStarted | Spawned | Populated | Started | SpawnFailed

  /** Where the body thread is while the body runs. The Arm states are armWatchdog, from the join of
      the previous watchdog to the acknowledgement of the new one. */
  datatype BodyPc = Running | InDataset | InOwnHook | ArmJoin | ArmReset | ArmSpawn | ArmAwait

  datatype Worker =
    | NotSpawned | AtGate | CheckCancelled | Body(pc: BodyPc)
    | DisarmEnter | DisarmWait | StopWatchdog | JoinWatchdog | FireTerminal | InTerminal | Exited

  datatype Watchdog = NoThread | Created | Waiting | InExpire | Finished

  /** Where an API call is made. Calls made by callbacks nest inside their thread: `OnWorker` in the body or a
      callback it is in, `OnWatchdog` in on_expire, `InHook` in a hook that a cancelling call is running, be it
      on the worker or on another thread. */
  datatype Caller = External | OnWorker | OnWatchdog | InHook(onWorker: bool) | Destroyer

  datatype CallPc =
    | CancelStore | CancelLock | RunningHook | ClearRunning
    | JoinEnter | JoinWait | JoinWorker | JoinPublish | FreeState
    | CancelReturned | JoinReturned | DestroyReturned

  datatype Call = Call(who: Caller, pc: CallPc)

  /** `Owners` and `History` only record: `hookOwner`, `joiner` and `destroyer` name the call that is
      inside the hook, that joins the worker, that destroys the job; `registered` and `cancelPassed`
      record that a non-empty onCancel, or a cancelling critical section, has completed;
      `hooksRun` lists the hooks claimed, to be run by the canceller or by the body itself; `datasetCalls` ..
      `realJoins` count. */
  datatype Owner = Nobody | CallNo(index: nat)

  datatype Threads = Threads(
    starter: Starter,
    outJob: bool,
    worker: Worker,
    watchdog: Watchdog,
    result: Option<Outcome>,
    freed: bool)

  datatype Owners = Owners(hookOwner: Owner, joiner: Owner, destroyer: Owner)

  datatype History = History(
    bodyStarted: bool,
    registered: bool,
    cancelPassed: bool,
    hooksRun: seq<HookId>,
    datasetCalls: nat,
    terminalCalls: nat,
    realJoins: nat)

  datatype State = State(sh: Shared, th: Threads, calls: seq<Call>, own: Owners, hist: History)

  function Init(hasDataset: bool): State {
    State(Fresh(hasDataset), Threads(NotStarted, false, NotSpawned, NoThread, None, false), [],
          Owners(Nobody, Nobody, Nobody), History(false, false, false, [], 0, 0, 0))
  }

  /** startJob. */
  datatype StartStep = SpawnWorker(ok: bool) | PopulateOutJob | OpenGate

  /** run(), up to the end of the body. */
  datatype RunStep = AcquireGate | ReadCancelled | BodyReturns(outcome: Outcome) | BodyThrows

  /** run(), from disarmHook to the return of on_terminal. */
  datatype ShutdownStep = DisarmLock | DisarmWake | SignalWatchdog | WatchdogJoined | TerminalSwap | TerminalReturns

  /** JobControl::onCancel and notifyDataset. */
  datatype HookStep = OnCancel(h: HookId) | OwnHookReturns

  datatype DatasetStep = NotifyDataset | DatasetReturns

  /** JobControl::armWatchdog, whose first part is stopWatchdog. */
  datatype ArmStep = Arm | ArmJoined | ArmCleared | ArmCreated(ok: bool) | ArmAcknowledged

  /** The watchdog thread; its timed wait ends on the stop flag or on the timeout. */
  datatype WatchdogStep = WatchdogLocks | WatchdogStops | WatchdogExpires | ExpireReturns

  datatype EntryStep = NewCancel(who: Caller) | NewJoin(who: Caller) | NewDestroy

  /** requestCancel. */
  datatype CancelStep = CancelStores | CancelSection | HookReturns | HookCleared

  /** jobJoin, and the delete that ends jobDestroy. */
  datatype JoinStep = JoinSection | JoinWakes | WorkerJoined | JoinPublishes | Delete

  /** One step of one thread. Steps of a call carry its number. */
  datatype Step =
    | Starting(start: StartStep)
    | WorkerRuns(run: RunStep)
    | WorkerStops(shutdown: ShutdownStep)
    | BodyHooks(hook: HookStep)
    | BodyNotifies(dataset: DatasetStep)
    | BodyArms(arm: ArmStep)
    | WatchdogRuns(watch: WatchdogStep)
    | Entering(entry: EntryStep)
    | Cancelling(i: nat, cancel: CancelStep)
    | JoiningCall(i: nat, join: JoinStep)

  predicate Active(c: Call) {
    !c.pc.CancelReturned? && !c.pc.JoinReturned? && !c.pc.DestroyReturned?
  }

  /** No call by this kind of caller is under way. */
  predicate Idle(s: State, who: Caller) {
    forall i :: 0 <= i < |s.calls| && s.calls[i].who == who ==> !Active(s.calls[i])
  }

  /** No call made inside the hook is under way. */
  predicate HookIdle(s: State) {
    Idle(s, InHook(true)) && Idle(s, InHook(false))
  }

  /** A cancelling call is running the hook, on the worker or on another thread. */
  predicate HookRunsOn(s: State, onWorker: bool) {
    && s.own.hookOwner.CallNo? && s.own.hookOwner.index < |s.calls|
    && s.calls[s.own.hookOwner.index].pc.RunningHook?
    && onWorker == OnWorkerThread(s.calls[s.own.hookOwner.index].who)
  }

  /** The call is made by the worker's own thread, as jobJoin can tell from the thread id. */
  predicate OnWorkerThread(who: Caller) {
    who == OnWorker || who == InHook(true)
  }

  /** The worker is executing code of the provider or the host, which may call back into the job. */
  predicate WorkerInUserCode(s: State) {
    (s.th.worker.Body? && s.th.worker.pc in {Running, InDataset, InOwnHook}) || s.th.worker.InTerminal?
  }

  /** A caller may enter the API: the job has been handed out, the thread it names is running user
      code and not already inside a call; destroy is the last external call, and is made alone. */
  predicate MayCall(s: State, who: Caller) {
    match who
    case External => s.th.starter.Started? && s.own.destroyer.Nobody?
    case OnWorker => WorkerInUserCode(s) && Idle(s, OnWorker)
    case OnWatchdog => s.th.watchdog.InExpire? && Idle(s, OnWatchdog)
    case InHook(onWorker) => HookRunsOn(s, onWorker) && HookIdle(s)
    case Destroyer => s.th.starter.Started? && s.own.destroyer.Nobody? && Idle(s, External)
  }

  /** The body thread itself is executing the body, not a nested call. */
  predicate BodyAt(s: State, pc: BodyPc) {
    s.th.worker == Body(pc) && Idle(s, OnWorker)
  }

  predicate CallAt(s: State, i: nat, pc: CallPc) {
    i < |s.calls| && s.calls[i].pc == pc
  }

  function Moved(calls: seq<Call>, i: nat, pc: CallPc): seq<Call>
    requires i < |calls|
  {
    calls[i := Call(calls[i].who, pc)]
  }

  /** Where a finished cancel or join leaves its caller: destroy goes on to its next part. */
  function AfterCancel(who: Caller): CallPc {
    if who == Destroyer then JoinEnter else CancelReturned
  }

  function AfterJoin(who: Caller): CallPc {
    if who == Destroyer then FreeState else JoinReturned
  }

  /** One step of the job, if its thread can take it now. A cancellation is never withdrawn. */
  function Next(s: State, st: Step): (r: Option<State>)
    ensures r.Some? && s.sh.cancelled ==> r.value.sh.cancelled
  {
    match st
    case Starting(a) => NextStart(s, a)
    case WorkerRuns(a) => NextRun(s, a)
    case WorkerStops(a) => NextShutdown(s, a)
    case BodyHooks(a) => NextHook(s, a)
    case BodyNotifies(a) => NextDataset(s, a)
    case BodyArms(a) => NextArm(s, a)
    case WatchdogRuns(a) => NextWatchdog(s, a)
    case Entering(a) => NextEntry(s, a)
    case Cancelling(i, a) => NextCancel(s, i, a)
    case JoiningCall(i, a) => NextJoin(s, i, a)
  }

  function NextStart(s: State, a: StartStep): (r: Option<State>)
    ensures r.Some? && s.sh.cancelled ==> r.value.sh.cancelled
  {
    match a
    case SpawnWorker(ok) =>
      if !s.th.starter.NotStarted? then None
      else if ok then Some(s.(th := s.th.(starter := Spawned, worker := AtGate)))
      else Some(s.(th := s.th.(starter := SpawnFailed, freed := true)))
    case PopulateOutJob =>
      if s.th.starter.Spawned? then Some(s.(th := s.th.(starter := Populated, outJob := true))) else None
    case OpenGate =>
      if s.th.starter.Populated? then Some(s.(th := s.th.(starter := Started), sh := s.sh.(gate := true))) else None
  }

  function NextRun(s: State, a: RunStep): (r: Option<State>)
    ensures r.Some? && s.sh.cancelled ==> r.value.sh.cancelled
  {
    match a
    case AcquireGate =>
      if s.th.worker.AtGate? && s.sh.gate then Some(s.(th := s.th.(worker := CheckCancelled))) else None
    case ReadCancelled =>
      if !s.th.worker.CheckCancelled? then None
      else if s.sh.cancelled then Some(s.(th := s.th.(worker := DisarmEnter, result := Some(Cancelled))))
      else Some(s.(th := s.th.(worker := Body(Running)), hist := s.hist.(bodyStarted := true)))
    case BodyReturns(o) =>
      if BodyAt(s, Running) then Some(s.(th := s.th.(worker := DisarmEnter, result := Some(o)))) else None
    case BodyThrows =>
      if BodyAt(s, Running) then Some(s.(th := s.th.(worker := DisarmEnter, result := Some(Failed)))) else None
  }

  function NextShutdown(s: State, a: ShutdownStep): (r: Option<State>)
    ensures r.Some? && s.sh.cancelled ==> r.value.sh.cancelled
  {
    match a
    case DisarmLock =>
      if !s.th.worker.DisarmEnter? then None
      else Some(s.(sh := Disarm(s.sh), th := s.th.(worker := if s.sh.hookRunning then DisarmWait else StopWatchdog)))
    case DisarmWake =>
      if s.th.worker.DisarmWait? && !s.sh.hookRunning then Some(s.(th := s.th.(worker := StopWatchdog))) else None
    case SignalWatchdog =>
      if s.th.worker.StopWatchdog? then Some(s.(sh := s.sh.(watchdogStop := true), th := s.th.(worker := JoinWatchdog))) else None
    case WatchdogJoined =>
      if s.th.worker.JoinWatchdog? && (s.th.watchdog.NoThread? || s.th.watchdog.Finished?)
      then Some(s.(th := s.th.(watchdog := NoThread, worker := FireTerminal))) else None
    case TerminalSwap =>
      if !s.th.worker.FireTerminal? then None
      else if s.sh.terminalFired then Some(s.(th := s.th.(worker := Exited)))
      else Some(s.(sh := s.sh.(terminalFired := true), th := s.th.(worker := InTerminal),
                   hist := s.hist.(terminalCalls := s.hist.terminalCalls + 1)))
    case TerminalReturns =>
      if s.th.worker.InTerminal? && Idle(s, OnWorker) then Some(s.(th := s.th.(worker := Exited))) else None
  }

  function NextHook(s: State, a: HookStep): (r: Option<State>)
    ensures r.Some? && s.sh.cancelled ==> r.value.sh.cancelled
  {
    match a
    case OnCancel(h) =>
      if !BodyAt(s, Running) then None
      else if RunsOwnHook(s.sh) then
        Some(s.(sh := RegisterHook(s.sh, h), th := s.th.(worker := Body(InOwnHook)),
                hist := s.hist.(registered := true, hooksRun := s.hist.hooksRun + [h])))
      else Some(s.(sh := RegisterHook(s.sh, h), hist := s.hist.(registered := true)))
    case OwnHookReturns =>
      if BodyAt(s, InOwnHook) then Some(s.(th := s.th.(worker := Body(Running)))) else None
  }

  function NextDataset(s: State, a: DatasetStep): (r: Option<State>)
    ensures r.Some? && s.sh.cancelled ==> r.value.sh.cancelled
  {
    match a
    case NotifyDataset =>
      if !BodyAt(s, Running) then None
      else if CallsDataset(s.sh) then
        Some(s.(sh := s.sh.(datasetNotified := true), th := s.th.(worker := Body(InDataset)),
                hist := s.hist.(datasetCalls := s.hist.datasetCalls + 1)))
      else Some(s.(sh := s.sh.(datasetNotified := true)))
    case DatasetReturns =>
      if BodyAt(s, InDataset) then Some(s.(th := s.th.(worker := Body(Running)))) else None
  }

  function NextArm(s: State, a: ArmStep): (r: Option<State>)
    ensures r.Some? && s.sh.cancelled ==> r.value.sh.cancelled
  {
    match a
    case Arm =>
      if BodyAt(s, Running) then Some(s.(sh := s.sh.(watchdogStop := true), th := s.th.(worker := Body(ArmJoin)))) else None
    case ArmJoined =>
      if BodyAt(s, ArmJoin) && (s.th.watchdog.NoThread? || s.th.watchdog.Finished?)
      then Some(s.(th := s.th.(watchdog := NoThread, worker := Body(ArmReset)))) else None
    case ArmCleared =>
      if BodyAt(s, ArmReset) then Some(s.(sh := s.sh.(watchdogStop := false), th := s.th.(worker := Body(ArmSpawn)))) else None
    case ArmCreated(ok) =>
      // A thread that cannot be created throws back into the body.
      if !BodyAt(s, ArmSpawn) then None
      else if ok then Some(s.(th := s.th.(watchdog := Created, worker := Body(ArmAwait))))
      else Some(s.(th := s.th.(worker := Body(Running))))
    case ArmAcknowledged =>
      if BodyAt(s, ArmAwait) && !s.th.watchdog.Created? then Some(s.(th := s.th.(worker := Body(Running)))) else None
  }

  function NextWatchdog(s: State, a: WatchdogStep): (r: Option<State>)
    ensures r.Some? && s.sh.cancelled ==> r.value.sh.cancelled
  {
    match a
    case WatchdogLocks =>
      if s.th.watchdog.Created? then Some(s.(th := s.th.(watchdog := Waiting))) else None
    case WatchdogStops =>
      if s.th.watchdog.Waiting? && s.sh.watchdogStop then Some(s.(th := s.th.(watchdog := Finished))) else None
    case WatchdogExpires =>
      if s.th.watchdog.Waiting? && !s.sh.watchdogStop then Some(s.(th := s.th.(watchdog := InExpire))) else None
    case ExpireReturns =>
      if s.th.watchdog.InExpire? && Idle(s, OnWatchdog) then Some(s.(th := s.th.(watchdog := Finished))) else None
  }

  function NextEntry(s: State, a: EntryStep): (r: Option<State>)
    ensures r.Some? && s.sh.cancelled ==> r.value.sh.cancelled
    ensures r.Some? ==> r.value.th == s.th && r.value.sh == s.sh && r.value.hist == s.hist
  {
    match a
    case NewCancel(who) =>
      if who != Destroyer && MayCall(s, who) then Some(s.(calls := s.calls + [Call(who, CancelStore)])) else None
    case NewJoin(who) =>
      // The self-join guard: a join on the worker's thread returns at once.
      if who != Destroyer && MayCall(s, who)
      then Some(s.(calls := s.calls + [Call(who, if OnWorkerThread(who) then JoinReturned else JoinEnter)])) else None
    case NewDestroy =>
      if MayCall(s, Destroyer)
      then Some(s.(calls := s.calls + [Call(Destroyer, CancelStore)], own := s.own.(destroyer := CallNo(|s.calls|)))) else None
  }

  function NextCancel(s: State, i: nat, a: CancelStep): (r: Option<State>)
    ensures r.Some? && s.sh.cancelled ==> r.value.sh.cancelled
    ensures r.Some? ==> r.value.th == s.th && |r.value.calls| == |s.calls|
  {
    match a
    case CancelStores =>
      if CallAt(s, i, CancelStore) then Some(s.(calls := Moved(s.calls, i, CancelLock), sh := s.sh.(cancelled := true))) else None
    case CancelSection =>
      if !CallAt(s, i, CancelLock) then None
      else if HookClaimable(s.sh) then
        Some(s.(calls := Moved(s.calls, i, RunningHook), sh := ClaimHook(s.sh), own := s.own.(hookOwner := CallNo(i)),
               hist := s.hist.(cancelPassed := true, hooksRun := s.hist.hooksRun + [s.sh.hook.value])))
      else
        Some(s.(calls := Moved(s.calls, i, AfterCancel(s.calls[i].who)), hist := s.hist.(cancelPassed := true)))
    case HookReturns =>
      if CallAt(s, i, RunningHook) && HookIdle(s) then Some(s.(calls := Moved(s.calls, i, ClearRunning))) else None
    case HookCleared =>
      if CallAt(s, i, ClearRunning)
      then Some(s.(calls := Moved(s.calls, i, AfterCancel(s.calls[i].who)), sh := s.sh.(hookRunning := false), own := s.own.(hookOwner := Nobody)))
      else None
  }

  function NextJoin(s: State, i: nat, a: JoinStep): (r: Option<State>)
    ensures r.Some? && s.sh.cancelled ==> r.value.sh.cancelled
    ensures r.Some? ==> r.value.th.(freed := s.th.freed) == s.th && |r.value.calls| == |s.calls|
  {
    match a
    case JoinSection =>
      if !CallAt(s, i, JoinEnter) then None
      else
        (match RoleOf(s.sh)
         case AlreadyJoined => Some(s.(calls := Moved(s.calls, i, AfterJoin(s.calls[i].who))))
         case Waiter => Some(s.(calls := Moved(s.calls, i, JoinWait)))
         case RealJoiner =>
           Some(s.(calls := Moved(s.calls, i, JoinWorker), sh := s.sh.(joinInProgress := true), own := s.own.(joiner := CallNo(i)),
                  hist := s.hist.(realJoins := s.hist.realJoins + 1))))
    case JoinWakes =>
      if CallAt(s, i, JoinWait) && s.sh.joined then Some(s.(calls := Moved(s.calls, i, AfterJoin(s.calls[i].who)))) else None
    case WorkerJoined =>
      if CallAt(s, i, JoinWorker) && s.th.worker.Exited? then Some(s.(calls := Moved(s.calls, i, JoinPublish))) else None
    case JoinPublishes =>
      if CallAt(s, i, JoinPublish)
      then Some(s.(calls := Moved(s.calls, i, AfterJoin(s.calls[i].who)), sh := s.sh.(joined := true), own := s.own.(joiner := Nobody)))
      else None
    case Delete =>
      if CallAt(s, i, FreeState) then Some(s.(calls := Moved(s.calls, i, DestroyReturned), th := s.th.(freed := true))) else None
  }

  /** The state after a whole run, if every step of it was enabled. */
  function Run(hasDataset: bool, steps: seq<Step>): Option<State> {
    if steps == [] then Some(Init(hasDataset))
    else
      match Run(hasDataset, steps[..|steps| - 1])
      case None => None
      case Some(s) => Next(s, steps[|steps| - 1])
  }
}

/** The request-addressed artifact cache: any number of processes publish, read and clean up one
    directory, coordinated only by one try-lock per identity, one partial file per identity and
    process, and one rename. Every filesystem access is one step. */
module CacheMachine {
  import opened Prelude
  import opened FileLocks

  type Digest = nat
  type Content = nat
  type Pid = nat

  /** The validator, as a predicate on a file's bytes; a missing file never passes it. */
  type Validator = (Digest, Content) -> bool

  datatype PartialName = PartialName(digest: Digest, pid: Pid)

  /** Where one use of the cache is. The recorded contents are history: `was` is the artifact when the
      write began, `mine` what the writer last put in its partial, `seen` the artifact when the hit
      was granted; a conversion is `disturbed` once another process has taken the lock it let go of. */
  datatype Activity =
    | Writing(was: Option<Content>, mine: Option<Content>)
    | Committing(was: Option<Content>, c: Content)
    | Published(c: Content)
    | Converting(c: Content, disturbed: bool)
    | Reacquiring
    | Rechecking
    | Looking
    | Validating
    | HasHit(seen: Option<Content>)
    | Leasing
    | Evicting
    | Sweeping(victim: Pid)
    | Finished

  datatype Agent = Agent(pid: Pid, digest: Digest, act: Activity)

  /** Agents are numbered by their lock handle. */
  datatype State = State(
    artifacts: map<Digest, Content>,
    partials: map<PartialName, Content>,
    locks: map<Digest, LockState>,
    agents: seq<Agent>)

  function Init(artifacts: map<Digest, Content>, partials: map<PartialName, Content>): State {
    State(artifacts, partials, map[], [])
  }

  function Get<K, V>(m: map<K, V>, k: K): Option<V> {
    if k in m then Some(m[k]) else None
  }

  function LockOf(s: State, d: Digest): LockState {
    if d in s.locks then s.locks[d] else Free
  }

  predicate NeedsExclusive(a: Activity) {
    a.Writing? || a.Committing? || a.Published? || a.Evicting? || a.Sweeping?
  }

  predicate NeedsShared(a: Activity) {
    a.Rechecking? || a.Validating? || a.HasHit? || a.Leasing?
  }

  function PartialOf(a: Agent): PartialName {
    PartialName(a.digest, a.pid)
  }

  /** Taking the exclusive lock of `d` interrupts any conversion of the same lock. */
  function Disturb(a: Agent, d: Digest): Agent {
    if a.digest == d && a.act.Converting? then a.(act := Converting(a.act.c, true)) else a
  }

  function DisturbAll(agents: seq<Agent>, d: Digest): (r: seq<Agent>)
    ensures |r| == |agents| && forall i :: 0 <= i < |r| ==> r[i] == Disturb(agents[i], d)
  {
    seq(|agents|, i requires 0 <= i < |agents| => Disturb(agents[i], d))
  }

  /** A new agent that starts by winning the exclusive lock. */
  function EnterExclusive(s: State, a: Agent): Option<State> {
    if !Available(LockOf(s, a.digest), true) then None
    else Some(s.(locks := s.locks[a.digest := ExclusiveBy(|s.agents|)], agents := DisturbAll(s.agents, a.digest) + [a]))
  }

  function EnterShared(s: State, a: Agent): Option<State> {
    if !Available(LockOf(s, a.digest), false) then None
    else Some(s.(locks := s.locks[a.digest := Take(LockOf(s, a.digest), |s.agents|, false)], agents := s.agents + [a]))
  }

  function Becomes(s: State, i: nat, act: Activity): State
    requires i < |s.agents|
  {
    s.(agents := s.agents[i := s.agents[i].(act := act)])
  }

  /** Agent `i` takes the shared lock and goes on, or goes elsewhere without it. */
  function TryShared(s: State, i: nat, won: Activity, lost: Activity): State
    requires i < |s.agents|
  {
    var d := s.agents[i].digest;
    if Available(LockOf(s, d), false)
    then Becomes(s, i, won).(locks := s.locks[d := Take(LockOf(s, d), i, false)])
    else Becomes(s, i, lost)
  }

  /** Agent `i` lets go of its lock. */
  function Release(s: State, i: nat, act: Activity): State
    requires i < |s.agents|
  {
    var d := s.agents[i].digest;
    Becomes(s, i, act).(locks := s.locks[d := Drop(LockOf(s, d), {i})])
  }

  /** Every failure before the rename, and abort: remove the partial, release the lock. */
  function GiveUp(s: State, i: nat): State
    requires i < |s.agents|
  {
    Release(s, i, Finished).(partials := s.partials - {PartialOf(s.agents[i])})
  }

  datatype Entry =
    | BeginWrite | Lookup | AcquireReadLease | BeginEvict | BeginSweep(victim: Pid)

  datatype WriterStep =
    | WritePartial(c: Content) | Abort | CommitValidate | SyncFails | RenameFails | Rename

  /** commit, after the rename: the exclusive lock becomes the hit's lease. */
  datatype HandoffStep = ConvertUnlock | ConvertRelock | Reacquire | Recheck

  datatype ReaderStep = LookupLock | LookupValidate | ReleaseLease

  datatype CleanerStep = RemoveArtifact | RemovePartial | LeaveVictim

  datatype Step =
    | Enter(pid: Pid, digest: Digest, entry: Entry)
    | Write(i: nat, w: WriterStep)
    | Handoff(i: nat, h: HandoffStep)
    | Read(i: nat, r: ReaderStep)
    | Clean(i: nat, c: CleanerStep)
    | Crash(pid: Pid)

  function Next(valid: Validator, s: State, st: Step): Option<State> {
    match st
    case Enter(pid, d, e) => NextEnter(s, pid, d, e)
    case Write(i, w) => if i < |s.agents| then NextWrite(valid, s, i, w) else None
    case Handoff(i, h) => if i < |s.agents| then NextHandoff(s, i, h) else None
    case Read(i, r) => if i < |s.agents| then NextRead(valid, s, i, r) else None
    case Clean(i, c) => if i < |s.agents| then NextClean(s, i, c) else None
    case Crash(pid) => Some(AfterCrash(s, pid))
  }

  function NextEnter(s: State, pid: Pid, d: Digest, e: Entry): Option<State> {
    match e
    case BeginWrite =>
      EnterExclusive(s, Agent(pid, d, Writing(Get(s.artifacts, d), Get(s.partials, PartialName(d, pid)))))
    case Lookup =>
      if d in s.artifacts then Some(s.(agents := s.agents + [Agent(pid, d, Looking)])) else None
    case AcquireReadLease => EnterShared(s, Agent(pid, d, Leasing))
    case BeginEvict => EnterExclusive(s, Agent(pid, d, Evicting))
    case BeginSweep(victim) => EnterExclusive(s, Agent(pid, d, Sweeping(victim)))
  }

  function NextWrite(valid: Validator, s: State, i: nat, w: WriterStep): Option<State>
    requires i < |s.agents|
  {
    var a := s.agents[i];
    match w
    case WritePartial(c) =>
      if a.act.Writing?
      then Some(Becomes(s, i, Writing(a.act.was, Some(c))).(partials := s.partials[PartialOf(a) := c])) else None
    case Abort => if a.act.Writing? then Some(GiveUp(s, i)) else None
    case CommitValidate =>
      if !a.act.Writing? then None
      else if PartialOf(a) in s.partials && valid(a.digest, s.partials[PartialOf(a)])
      then Some(Becomes(s, i, Committing(a.act.was, s.partials[PartialOf(a)])))
      else Some(GiveUp(s, i))
    case SyncFails => if a.act.Committing? then Some(GiveUp(s, i)) else None
    case RenameFails => if a.act.Committing? then Some(GiveUp(s, i)) else None
    case Rename =>
      if a.act.Committing? && PartialOf(a) in s.partials
      then Some(Becomes(s, i, Published(a.act.c)).(
                  artifacts := s.artifacts[a.digest := s.partials[PartialOf(a)]],
                  partials := s.partials - {PartialOf(a)}))
      else None
  }

  function NextHandoff(s: State, i: nat, h: HandoffStep): Option<State>
    requires i < |s.agents|
  {
    var a := s.agents[i];
    match h
    case ConvertUnlock => if a.act.Published? then Some(Release(s, i, Converting(a.act.c, false))) else None
    case ConvertRelock =>
      if a.act.Converting?
      then Some(TryShared(s, i, HasHit(Get(s.artifacts, a.digest)), Reacquiring)) else None
    case Reacquire => if a.act.Reacquiring? then Some(TryShared(s, i, Rechecking, Finished)) else None
    case Recheck =>
      if !a.act.Rechecking? then None
      else if a.digest in s.artifacts then Some(Becomes(s, i, HasHit(Get(s.artifacts, a.digest))))
      else Some(Release(s, i, Finished))
  }

  function NextRead(valid: Validator, s: State, i: nat, r: ReaderStep): Option<State>
    requires i < |s.agents|
  {
    var a := s.agents[i];
    match r
    case LookupLock => if a.act.Looking? then Some(TryShared(s, i, Validating, Finished)) else None
    case LookupValidate =>
      if !a.act.Validating? then None
      else if a.digest in s.artifacts && valid(a.digest, s.artifacts[a.digest])
      then Some(Becomes(s, i, HasHit(Get(s.artifacts, a.digest))))
      else Some(Release(s, i, Finished))
    case ReleaseLease => if a.act.HasHit? || a.act.Leasing? then Some(Release(s, i, Finished)) else None
  }

  function NextClean(s: State, i: nat, c: CleanerStep): Option<State>
    requires i < |s.agents|
  {
    var a := s.agents[i];
    match c
    case RemoveArtifact =>
      if a.act.Evicting? then Some(s.(artifacts := s.artifacts - {a.digest})) else None
    case RemovePartial =>
      if a.act.Sweeping? then Some(s.(partials := s.partials - {PartialName(a.digest, a.act.victim)})) else None
    case LeaveVictim => if a.act.Evicting? || a.act.Sweeping? then Some(Release(s, i, Finished)) else None
  }

  function HandlesOf(s: State, pid: Pid): set<Handle> {
    set i | 0 <= i < |s.agents| && s.agents[i].pid == pid
  }

  /** The operating system closes every handle of a dying process; its files stay as they are. */
  function AfterCrash(s: State, pid: Pid): State {
    s.(locks := map d | d in s.locks :: Drop(s.locks[d], HandlesOf(s, pid)),
       agents := seq(|s.agents|, i requires 0 <= i < |s.agents| =>
                       if s.agents[i].pid == pid then s.agents[i].(act := Finished) else s.agents[i]))
  }

  function Run(valid: Validator, s0: State, steps: seq<Step>): Option<State> {
    if steps == [] then Some(s0)
    else
      match Run(valid, s0, steps[..|steps| - 1])
      case None => None
      case Some(s) => Next(valid, s, steps[|steps| - 1])
  }
}

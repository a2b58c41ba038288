/** The promises of the cache, for every run. */
module CacheTheorems {
  import opened Prelude
  import opened FileLocks
  import opened CacheMachine
  import opened CacheInvariants

  // ---------- one agent, one step ----------

  /** The agent whose own step this is, if it is one of a single agent. */
  predicate MovedBy(st: Step, i: nat) {
    match st
    case Write(k, _) => k == i
    case Handoff(k, _) => k == i
    case Read(k, _) => k == i
    case Clean(k, _) => k == i
    case _ => false
  }

  lemma EnterMovesNoHolder(s: State, pid: Pid, d: Digest, e: Entry, i: nat)
    requires NextEnter(s, pid, d, e).Some? && i < |s.agents|
    ensures i < |NextEnter(s, pid, d, e).value.agents|
    ensures NextEnter(s, pid, d, e).value.agents[i] in {s.agents[i], Disturb(s.agents[i], d)}
  {
  }

  lemma OthersLeaveAgent(valid: Validator, s: State, st: Step, i: nat)
    requires Next(valid, s, st).Some? && i < |s.agents| && !MovedBy(st, i) && !st.Enter? && !st.Crash?
    ensures i < |Next(valid, s, st).value.agents| && Next(valid, s, st).value.agents[i] == s.agents[i]
  {
  }

  /** Holding a lease: what one step of anybody can do to it is end it, by release or by a crash of
      its own process. */
  lemma HitKeptOrOver(valid: Validator, s: State, st: Step, i: nat)
    requires Next(valid, s, st).Some? && i < |s.agents| && s.agents[i].act.HasHit?
    ensures i < |Next(valid, s, st).value.agents|
    ensures var a := Next(valid, s, st).value.agents[i];
            a == s.agents[i] || a == s.agents[i].(act := Finished)
  {
    match st
    case Enter(pid, d, e) => EnterMovesNoHolder(s, pid, d, e, i);
    case Crash(pid) =>
    case _ =>
      if MovedBy(st, i) {
        OwnStepEndsHit(valid, s, st, i);
      } else {
        OthersLeaveAgent(valid, s, st, i);
      }
  }

  lemma OwnStepEndsHit(valid: Validator, s: State, st: Step, i: nat)
    requires Next(valid, s, st).Some? && i < |s.agents| && s.agents[i].act.HasHit? && MovedBy(st, i)
    ensures Next(valid, s, st) == Some(Release(s, i, Finished))
  {
  }

  lemma FinishedForGood(valid: Validator, s: State, st: Step, i: nat)
    requires Next(valid, s, st).Some? && i < |s.agents| && s.agents[i].act.Finished?
    ensures i < |Next(valid, s, st).value.agents| && Next(valid, s, st).value.agents[i] == s.agents[i]
  {
    match st
    case Enter(pid, d, e) => EnterMovesNoHolder(s, pid, d, e, i);
    case Crash(pid) =>
    case _ =>
      if MovedBy(st, i) {
        FinishedHasNoStep(valid, s, st, i);
      } else {
        OthersLeaveAgent(valid, s, st, i);
      }
  }

  lemma FinishedHasNoStep(valid: Validator, s: State, st: Step, i: nat)
    requires i < |s.agents| && s.agents[i].act.Finished? && MovedBy(st, i)
    ensures Next(valid, s, st).None?
  {
  }

  // ---------- leases ----------

  lemma {:induction false} HitSurvives(valid: Validator, artifacts: map<Digest, Content>,
                                       partials: map<PartialName, Content>,
                                       steps: seq<Step>, more: seq<Step>, i: nat)
    requires ArtifactsValid(valid, artifacts)
    requires Run(valid, Init(artifacts, partials), steps).Some?
    requires Run(valid, Init(artifacts, partials), steps + more).Some?
    requires i < |Run(valid, Init(artifacts, partials), steps).value.agents|
    requires Run(valid, Init(artifacts, partials), steps).value.agents[i].act.HasHit?
    ensures i < |Run(valid, Init(artifacts, partials), steps + more).value.agents|
    ensures var a := Run(valid, Init(artifacts, partials), steps).value.agents[i];
            var b := Run(valid, Init(artifacts, partials), steps + more).value.agents[i];
            b == a || b == a.(act := Finished)
  {
    if more == [] {
      assert steps + more == steps;
    } else {
      var all := steps + more;
      assert all[..|all| - 1] == steps + more[..|more| - 1];
      HitSurvives(valid, artifacts, partials, steps, more[..|more| - 1], i);
      RunInv(valid, artifacts, partials, all[..|all| - 1]);
      var u := Run(valid, Init(artifacts, partials), all[..|all| - 1]).value;
      if u.agents[i].act.HasHit? {
        HitKeptOrOver(valid, u, all[|all| - 1], i);
      } else {
        FinishedForGood(valid, u, all[|all| - 1], i);
      }
    }
  }

  /** While a lease is held the file it names is unchanged since the hit was granted, whatever other writers,
      readers, cleaners and crashes have done in between; and it is there and valid if it was there then. For
      when it was not, see `EveryHitProtectedExactly`. */
  lemma LeaseProtects(valid: Validator, artifacts: map<Digest, Content>, partials: map<PartialName, Content>,
                      steps: seq<Step>, more: seq<Step>, i: nat)
    requires ArtifactsValid(valid, artifacts)
    requires Run(valid, Init(artifacts, partials), steps).Some?
    requires Run(valid, Init(artifacts, partials), steps + more).Some?
    requires i < |Run(valid, Init(artifacts, partials), steps).value.agents|
    requires Run(valid, Init(artifacts, partials), steps).value.agents[i].act.HasHit?
    ensures i < |Run(valid, Init(artifacts, partials), steps + more).value.agents|
    ensures var s := Run(valid, Init(artifacts, partials), steps).value;
            var t := Run(valid, Init(artifacts, partials), steps + more).value;
            var d := s.agents[i].digest;
            t.agents[i].act.HasHit? ==>
              && t.agents[i] == s.agents[i]
              && Get(t.artifacts, d) == Get(s.artifacts, d) == s.agents[i].act.seen
              && (s.agents[i].act.seen.Some? ==> d in t.artifacts && valid(d, t.artifacts[d]))
  {
    RunInv(valid, artifacts, partials, steps);
    RunInv(valid, artifacts, partials, steps + more);
    HitSurvives(valid, artifacts, partials, steps, more, i);
    assert AgentOk(valid, Run(valid, Init(artifacts, partials), steps).value, i);
    assert AgentOk(valid, Run(valid, Init(artifacts, partials), steps + more).value, i);
  }

  /** The shared try of a conversion that succeeds although its artifact is gone. */
  predicate LossyGrant(s: State, st: Step) {
    && st.Handoff? && st.h.ConvertRelock? && st.i < |s.agents| && s.agents[st.i].act.Converting?
    && Available(LockOf(s, s.agents[st.i].digest), false) && s.agents[st.i].digest !in s.artifacts
  }

  /** The header's contract: a conversion during which somebody else had the lock does not report success. */
  predicate KeepsContract(s: State, st: Step) {
    st.Handoff? && st.h.ConvertRelock? && st.i < |s.agents| && s.agents[st.i].act.Converting? && s.agents[st.i].act.disturbed ==>
      !Available(LockOf(s, s.agents[st.i].digest), false)
  }

  /** Nobody loses the artifact but by an interruption: what is lossy breaks the contract. */
  lemma LossyBreaksContract(valid: Validator, s: State, st: Step)
    requires Inv(valid, s) && LossyGrant(s, st)
    ensures s.agents[st.i].act.disturbed && !KeepsContract(s, st)
  {
    assert AgentOk(valid, s, st.i);
  }

  lemma HitsAreGranted(valid: Validator, s: State, st: Step, i: nat)
    requires Next(valid, s, st).Some? && i < |Next(valid, s, st).value.agents| && Next(valid, s, st).value.agents[i].act.HasHit?
    requires i >= |s.agents| || !s.agents[i].act.HasHit?
    ensures i < |s.agents| && st in {Handoff(i, ConvertRelock), Handoff(i, Recheck), Read(i, LookupValidate)}
  {
    if i >= |s.agents| {
      NewcomersHaveNoHit(valid, s, st, i);
    }
    match st
    case Enter(pid, d, e) => EnterMovesNoHolder(s, pid, d, e, i);
    case Crash(pid) =>
    case _ =>
      if MovedBy(st, i) {
        OwnStepGrants(valid, s, st, i);
      } else {
        OthersLeaveAgent(valid, s, st, i);
      }
  }

  lemma NewcomersHaveNoHit(valid: Validator, s: State, st: Step, i: nat)
    requires Next(valid, s, st).Some? && |s.agents| <= i < |Next(valid, s, st).value.agents|
    ensures !Next(valid, s, st).value.agents[i].act.HasHit?
  {
  }

  lemma OwnStepGrants(valid: Validator, s: State, st: Step, i: nat)
    requires Next(valid, s, st).Some? && MovedBy(st, i) && i < |s.agents|
    ensures !s.agents[i].act.HasHit? && Next(valid, s, st).value.agents[i].act.HasHit? ==>
              st in {Handoff(i, ConvertRelock), Handoff(i, Recheck), Read(i, LookupValidate)}
  {
  }

  /** A hit is granted without its artifact exactly by a lossy conversion: not by lookup, not by a conversion that
      nobody interrupted, which grants what was published, and not by the fallback, which looks again. */
  lemma HitMissesItsArtifactExactly(valid: Validator, s: State, st: Step, i: nat)
    requires Inv(valid, s) && Next(valid, s, st).Some?
    requires i < |Next(valid, s, st).value.agents| && Next(valid, s, st).value.agents[i].act.HasHit?
    requires i >= |s.agents| || !s.agents[i].act.HasHit?
    ensures var t := Next(valid, s, st).value;
            && Get(t.artifacts, t.agents[i].digest) == t.agents[i].act.seen
            && (t.agents[i].act.seen.None? <==> LossyGrant(s, st))
            && (st == Handoff(i, ConvertRelock) && !s.agents[i].act.disturbed ==> t.agents[i].act.seen == Some(s.agents[i].act.c))
  {
    HitsAreGranted(valid, s, st, i);
    assert AgentOk(valid, s, i);
  }

  /** The artifact of a hit is there, valid, and what the hit was granted for. */
  predicate Protected(valid: Validator, s: State, a: Agent) {
    a.digest in s.artifacts && valid(a.digest, s.artifacts[a.digest]) && a.act.HasHit? && a.act.seen == Some(s.artifacts[a.digest])
  }

  ghost predicate AllProtected(valid: Validator, s: State) {
    forall i :: 0 <= i < |s.agents| && s.agents[i].act.HasHit? ==> Protected(valid, s, s.agents[i])
  }

  lemma ProtectionKept(valid: Validator, s: State, st: Step)
    requires Inv(valid, s) && AllProtected(valid, s) && Next(valid, s, st).Some? && !LossyGrant(s, st)
    ensures AllProtected(valid, Next(valid, s, st).value)
  {
    var t := Next(valid, s, st).value;
    NextKeeps(valid, s, st);
    forall i | 0 <= i < |t.agents| && t.agents[i].act.HasHit? ensures Protected(valid, t, t.agents[i]) {
      assert AgentOk(valid, t, i);
      if i < |s.agents| && s.agents[i].act.HasHit? {
        HitKeptOrOver(valid, s, st, i);
      } else {
        HitMissesItsArtifactExactly(valid, s, st, i);
      }
    }
  }

  lemma LossyGrantLosesProtection(valid: Validator, s: State, st: Step)
    requires LossyGrant(s, st) && Next(valid, s, st).Some?
    ensures !AllProtected(valid, Next(valid, s, st).value)
  {
    var t := Next(valid, s, st).value;
    assert t.agents[st.i].act.HasHit? && !Protected(valid, t, t.agents[st.i]);
  }

  // The states along a run.

  function StateAt(valid: Validator, s0: State, steps: seq<Step>, k: nat): State
    requires Run(valid, s0, steps).Some? && k <= |steps|
  {
    PrefixRuns(valid, s0, steps, k);
    Run(valid, s0, steps[..k]).value
  }

  lemma {:induction false} PrefixRuns(valid: Validator, s0: State, steps: seq<Step>, k: nat)
    requires Run(valid, s0, steps).Some? && k <= |steps|
    ensures Run(valid, s0, steps[..k]).Some?
    decreases |steps|
  {
    if k == |steps| {
      assert steps[..k] == steps;
    } else {
      assert steps[..|steps| - 1][..k] == steps[..k];
      PrefixRuns(valid, s0, steps[..|steps| - 1], k);
    }
  }

  lemma NextState(valid: Validator, s0: State, steps: seq<Step>, k: nat)
    requires Run(valid, s0, steps).Some? && k < |steps|
    ensures Next(valid, StateAt(valid, s0, steps, k), steps[k]) == Some(StateAt(valid, s0, steps, k + 1))
  {
    PrefixRuns(valid, s0, steps, k + 1);
    assert steps[..k + 1][..k] == steps[..k];
  }

  ghost predicate ProtectedThroughout(valid: Validator, s0: State, steps: seq<Step>)
    requires Run(valid, s0, steps).Some?
  {
    forall k :: 0 <= k <= |steps| ==> AllProtected(valid, StateAt(valid, s0, steps, k))
  }

  lemma {:induction false} ProtectedSoFar(valid: Validator, artifacts: map<Digest, Content>,
                                          partials: map<PartialName, Content>, steps: seq<Step>, k: nat)
    requires ArtifactsValid(valid, artifacts) && Run(valid, Init(artifacts, partials), steps).Some? && k <= |steps|
    requires forall j :: 0 <= j < |steps| ==> !LossyGrant(StateAt(valid, Init(artifacts, partials), steps, j), steps[j])
    ensures AllProtected(valid, StateAt(valid, Init(artifacts, partials), steps, k))
  {
    var s0 := Init(artifacts, partials);
    if k == 0 {
      assert steps[..0] == [];
    } else {
      ProtectedSoFar(valid, artifacts, partials, steps, k - 1);
      PrefixRuns(valid, s0, steps, k - 1);
      RunInv(valid, artifacts, partials, steps[..k - 1]);
      NextState(valid, s0, steps, k - 1);
      ProtectionKept(valid, StateAt(valid, s0, steps, k - 1), steps[k - 1]);
    }
  }

  /** Every hit of a run is protected for as long as it is held if and only if no step of the run was a lossy
      conversion. */
  lemma EveryHitProtectedExactly(valid: Validator, artifacts: map<Digest, Content>,
                                 partials: map<PartialName, Content>, steps: seq<Step>)
    requires ArtifactsValid(valid, artifacts) && Run(valid, Init(artifacts, partials), steps).Some?
    ensures ProtectedThroughout(valid, Init(artifacts, partials), steps) <==>
            forall k :: 0 <= k < |steps| ==> !LossyGrant(StateAt(valid, Init(artifacts, partials), steps, k), steps[k])
  {
    var s0 := Init(artifacts, partials);
    if k :| 0 <= k < |steps| && LossyGrant(StateAt(valid, s0, steps, k), steps[k]) {
      NextState(valid, s0, steps, k);
      LossyGrantLosesProtection(valid, StateAt(valid, s0, steps, k), steps[k]);
    } else {
      forall k | 0 <= k <= |steps| ensures AllProtected(valid, StateAt(valid, s0, steps, k)) {
        ProtectedSoFar(valid, artifacts, partials, steps, k);
      }
    }
  }

  /** So the header's contract is enough: however often others win the lock between the two halves of a
      conversion, if no such conversion reports success, the lease of every hit protects its artifact. */
  lemma ContractProtectsEveryHit(valid: Validator, artifacts: map<Digest, Content>,
                                 partials: map<PartialName, Content>, steps: seq<Step>)
    requires ArtifactsValid(valid, artifacts) && Run(valid, Init(artifacts, partials), steps).Some?
    requires forall k :: 0 <= k < |steps| ==> KeepsContract(StateAt(valid, Init(artifacts, partials), steps, k), steps[k])
    ensures ProtectedThroughout(valid, Init(artifacts, partials), steps)
  {
    var s0 := Init(artifacts, partials);
    forall k | 0 <= k < |steps| ensures !LossyGrant(StateAt(valid, s0, steps, k), steps[k]) {
      PrefixRuns(valid, s0, steps, k);
      RunInv(valid, artifacts, partials, steps[..k]);
      if LossyGrant(StateAt(valid, s0, steps, k), steps[k]) {
        LossyBreaksContract(valid, StateAt(valid, s0, steps, k), steps[k]);
      }
    }
    EveryHitProtectedExactly(valid, artifacts, partials, steps);
  }

  /** Every file ever visible at an artifact path passes the validator for its digest. */
  lemma VisibleArtifactsAreValid(valid: Validator, artifacts: map<Digest, Content>,
                                 partials: map<PartialName, Content>, steps: seq<Step>, d: Digest)
    requires ArtifactsValid(valid, artifacts) && Run(valid, Init(artifacts, partials), steps).Some?
    ensures var s := Run(valid, Init(artifacts, partials), steps).value;
            d in s.artifacts ==> valid(d, s.artifacts[d])
  {
    RunInv(valid, artifacts, partials, steps);
  }

  predicate LiveWriter(a: Agent) {
    a.act.Writing? || a.act.Committing?
  }

  /** At most one writer per identity is live, and nobody holds a lease on it meanwhile. */
  lemma OneWriter(valid: Validator, artifacts: map<Digest, Content>, partials: map<PartialName, Content>,
                  steps: seq<Step>, i: nat, k: nat)
    requires ArtifactsValid(valid, artifacts) && Run(valid, Init(artifacts, partials), steps).Some?
    requires var s := Run(valid, Init(artifacts, partials), steps).value;
             && i < |s.agents| && k < |s.agents| && i != k && s.agents[i].digest == s.agents[k].digest
             && LiveWriter(s.agents[i])
    ensures var s := Run(valid, Init(artifacts, partials), steps).value;
            !LiveWriter(s.agents[k]) && !s.agents[k].act.HasHit? && !s.agents[k].act.Evicting?
  {
    RunInv(valid, artifacts, partials, steps);
    var s := Run(valid, Init(artifacts, partials), steps).value;
    assert AgentOk(valid, s, i) && AgentOk(valid, s, k);
  }

  /** A live transaction finds its partial as it wrote it, and the artifact as it was at the start. */
  lemma WriterUndisturbed(valid: Validator, artifacts: map<Digest, Content>, partials: map<PartialName, Content>,
                          steps: seq<Step>, i: nat)
    requires ArtifactsValid(valid, artifacts) && Run(valid, Init(artifacts, partials), steps).Some?
    requires i < |Run(valid, Init(artifacts, partials), steps).value.agents|
    ensures var s := Run(valid, Init(artifacts, partials), steps).value;
            var a := s.agents[i];
            && (a.act.Writing? ==> Get(s.partials, PartialOf(a)) == a.act.mine && Get(s.artifacts, a.digest) == a.act.was)
            && (a.act.Committing? ==>
                  Get(s.partials, PartialOf(a)) == Some(a.act.c) && Get(s.artifacts, a.digest) == a.act.was)
  {
    RunInv(valid, artifacts, partials, steps);
    assert AgentOk(valid, Run(valid, Init(artifacts, partials), steps).value, i);
  }

  /** `mine` is what this writer last wrote, and `was` never changes: nobody else's step moves them. */
  lemma WriterRecordsItsOwn(valid: Validator, s: State, st: Step, i: nat)
    requires Inv(valid, s) && Next(valid, s, st).Some? && i < |s.agents| && s.agents[i].act.Writing?
    ensures var a := Next(valid, s, st).value.agents[i].act;
            && (a.Writing? ==> a.was == s.agents[i].act.was)
            && (a.Writing? && !(st.Write? && st.i == i) ==> a == s.agents[i].act)
            && (a.Writing? && st.Write? && st.i == i ==> st.w.WritePartial? && a.mine == Some(st.w.c))
            && (a.Committing? ==> a.was == s.agents[i].act.was && Some(a.c) == s.agents[i].act.mine)
  {
    match st
    case Enter(pid, d, e) => EnterMovesNoHolder(s, pid, d, e, i);
    case Crash(pid) =>
    case _ =>
      if MovedBy(st, i) {
        WriterMoves(valid, s, st, i);
      } else {
        OthersLeaveAgent(valid, s, st, i);
      }
  }

  lemma WriterMoves(valid: Validator, s: State, st: Step, i: nat)
    requires Inv(valid, s) && Next(valid, s, st).Some? && i < |s.agents| && s.agents[i].act.Writing? && MovedBy(st, i)
    ensures var a := Next(valid, s, st).value.agents[i].act;
            && st.Write?
            && (a.Writing? ==> st.w.WritePartial? && a == Writing(s.agents[i].act.was, Some(st.w.c)))
            && (a.Committing? ==> a.was == s.agents[i].act.was && Some(a.c) == s.agents[i].act.mine)
  {
    assert AgentOk(valid, s, i);
  }

  /** Abort, a rejected partial, a failed fsync and a failed rename leave the artifact as it was when
      the write began, remove the partial and free the lock. */
  lemma FailureLeavesArtifact(valid: Validator, s: State, i: nat, w: WriterStep)
    requires Inv(valid, s) && i < |s.agents| && LiveWriter(s.agents[i]) && NextWrite(valid, s, i, w).Some?
    requires NextWrite(valid, s, i, w).value.agents[i].act.Finished?
    ensures var t := NextWrite(valid, s, i, w).value;
            && t.artifacts == s.artifacts
            && Get(t.artifacts, s.agents[i].digest) == s.agents[i].act.was
            && t.partials == s.partials - {PartialOf(s.agents[i])}
            && LockOf(t, s.agents[i].digest) == Free
  {
    assert AgentOk(valid, s, i);
    assert NextWrite(valid, s, i, w).value == GiveUp(s, i);
  }

  /** So does a crash of the writer, except that its partial stays behind for the sweep. */
  lemma CrashLeavesArtifact(valid: Validator, s: State, i: nat)
    requires Inv(valid, s) && i < |s.agents| && LiveWriter(s.agents[i])
    ensures var t := AfterCrash(s, s.agents[i].pid);
            && t.artifacts == s.artifacts
            && Get(t.artifacts, s.agents[i].digest) == s.agents[i].act.was
            && t.partials == s.partials
            && LockOf(t, s.agents[i].digest) == Free
  {
    assert AgentOk(valid, s, i);
  }

  /** The rename publishes exactly the bytes that were validated. */
  lemma RenamePublishesValidated(valid: Validator, s: State, i: nat)
    requires Inv(valid, s) && i < |s.agents| && s.agents[i].act.Committing?
    ensures var t := Next(valid, s, Write(i, Rename));
            && t.Some?
            && t.value.artifacts == s.artifacts[s.agents[i].digest := s.agents[i].act.c]
            && valid(s.agents[i].digest, s.agents[i].act.c)
            && PartialOf(s.agents[i]) !in t.value.partials
  {
    assert AgentOk(valid, s, i);
  }

  /** Locks die with their process: if everybody at work on an identity is gone, its lock is free. */
  lemma DeadHoldersBlockNobody(valid: Validator, s: State, d: Digest)
    requires Inv(valid, s)
    requires forall i :: 0 <= i < |s.agents| && s.agents[i].digest == d ==> s.agents[i].act.Finished?
    ensures LockOf(s, d) == Free
  {
    assert LockOk(s, d);
    var l := LockOf(s, d);
    if l.SharedBy? {
      var h :| h in l.holders;
      assert Holds(l, h);
    } else if l.ExclusiveBy? {
      assert Holds(l, l.holder);
    }
  }

  /** A run of three processes in which the conversion of the writer's lock is interrupted by an
      eviction that is over before the shared lock is taken: the shared try then succeeds, commit
      does not look for the file, and its hit names an artifact that is gone. */
  lemma InterruptedConversionCanLoseTheArtifact(valid: Validator, d: Digest, c: Content)
    requires valid(d, c)
    ensures var s := Run(valid, Init(map[], map[]), InterruptedRun(d, c));
            && s.Some?
            && s.value.agents[0] == Agent(1, d, HasHit(None))
            && d !in s.value.artifacts
  {
    var s0 := Init(map[], map[]);
    var steps := InterruptedRun(d, c);
    var s1 := Next(valid, s0, steps[0]).value;
    var s2 := Next(valid, s1, steps[1]).value;
    var s3 := Next(valid, s2, steps[2]).value;
    var s4 := Next(valid, s3, steps[3]).value;
    var s5 := Next(valid, s4, steps[4]).value;
    var s6 := Next(valid, s5, steps[5]).value;
    var s7 := Next(valid, s6, steps[6]).value;
    var s8 := Next(valid, s7, steps[7]).value;
    var s9 := Next(valid, s8, steps[8]).value;
    assert s9.agents[0] == Agent(1, d, HasHit(None));
    RunUnrolls(valid, s0, steps, [s0, s1, s2, s3, s4, s5, s6, s7, s8, s9]);
  }

  function InterruptedRun(d: Digest, c: Content): seq<Step> {
    [Enter(1, d, BeginWrite), Write(0, WritePartial(c)), Write(0, CommitValidate), Write(0, Rename),
     Handoff(0, ConvertUnlock), Enter(2, d, BeginEvict), Clean(1, RemoveArtifact), Clean(1, LeaveVictim),
     Handoff(0, ConvertRelock)]
  }

  /** A run given with all its intermediate states. */
  lemma {:induction false} RunUnrolls(valid: Validator, s0: State, steps: seq<Step>, states: seq<State>)
    requires |states| == |steps| + 1 && states[0] == s0
    requires forall i :: 0 <= i < |steps| ==> Next(valid, states[i], steps[i]) == Some(states[i + 1])
    ensures Run(valid, s0, steps) == Some(states[|steps|])
  {
    if steps != [] {
      RunUnrolls(valid, s0, steps[..|steps| - 1], states[..|steps|]);
    }
  }
}

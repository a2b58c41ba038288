/** What each use of the cache comes to when nobody interferes, and why a lookup can miss. */
module CacheOutcomes {
  import opened Prelude
  import opened FileLocks
  import opened CacheMachine
  import opened CacheInvariants
  import opened CacheTheorems

  // ---------- lookups ----------

  /** The steps of a lookup by the next agent, taken with nobody between them. */
  function LookupSteps(s: State, pid: Pid, d: Digest): seq<Step> {
    [Enter(pid, d, Lookup), Read(|s.agents|, LookupLock), Read(|s.agents|, LookupValidate)]
  }

  /** A lookup of an artifact that is there hits if and only if the validator passes it, provided nobody holds its
      lock exclusively; the hit holds the shared lock, a miss holds nothing, and the directory stays as it is. */
  lemma LookupHitsExactly(valid: Validator, s: State, pid: Pid, d: Digest)
    requires Inv(valid, s) && d in s.artifacts && forall h :: LockOf(s, d) != ExclusiveBy(h)
    ensures Run(valid, s, LookupSteps(s, pid, d)).Some?
    ensures var t := Run(valid, s, LookupSteps(s, pid, d)).value;
            var i := |s.agents|;
            && |t.agents| == i + 1 && t.artifacts == s.artifacts && t.partials == s.partials
            && (t.agents[i].act == HasHit(Some(s.artifacts[d])) <==> valid(d, s.artifacts[d]))
            && (t.agents[i].act.HasHit? ==> LockOf(t, d).SharedBy? && Holds(LockOf(t, d), i))
            && (!t.agents[i].act.HasHit? ==> t.agents[i].act.Finished? && !Holds(LockOf(t, d), i))
  {
    var i, steps := |s.agents|, LookupSteps(s, pid, d);
    assert LockOk(s, d);
    TriesSucceedExactly(LockOf(s, d));
    var s1 := Next(valid, s, steps[0]).value;
    assert s1.agents[i] == Agent(pid, d, Looking);
    var s2 := Next(valid, s1, steps[1]).value;
    assert s2.agents[i] == Agent(pid, d, Validating) && s2.artifacts == s.artifacts;
    var s3 := Next(valid, s2, steps[2]).value;
    RunUnrolls(valid, s, steps, [s, s1, s2, s3]);
  }

  /** What makes a lookup miss at a step: its process dies, somebody holds the lock exclusively, or the file is
      absent or fails the validator. */
  predicate Misses(valid: Validator, s: State, st: Step, i: nat)
    requires i < |s.agents|
  {
    var d := s.agents[i].digest;
    || st == Crash(s.agents[i].pid)
    || (st == Read(i, LookupLock) && LockOf(s, d).ExclusiveBy?)
    || (st == Read(i, LookupValidate) && (d !in s.artifacts || !valid(d, s.artifacts[d])))
  }

  predicate LooksUp(a: Activity) {
    a.Looking? || a.Validating?
  }

  /** The step at which a lookup is over: it hits a valid artifact, or misses for a reason. */
  predicate EndsLookup(valid: Validator, s: State, st: Step, t: State, i: nat)
    requires i < |s.agents| && i < |t.agents|
  {
    var d := s.agents[i].digest;
    if t.agents[i].act.HasHit? then d in s.artifacts && valid(d, s.artifacts[d]) && t.agents[i].act.seen == Some(s.artifacts[d])
    else t.agents[i].act.Finished? && Misses(valid, s, st, i)
  }

  /** A lookup leaves its two states only with a hit on a valid artifact, or by a miss with its reason. */
  lemma LookupEndsRightly(valid: Validator, s: State, st: Step, i: nat)
    requires Inv(valid, s) && Next(valid, s, st).Some? && i < |s.agents| && LooksUp(s.agents[i].act)
    ensures i < |Next(valid, s, st).value.agents|
    ensures LooksUp(Next(valid, s, st).value.agents[i].act) || EndsLookup(valid, s, st, Next(valid, s, st).value, i)
  {
    match st
    case Enter(pid, d, e) => EnterMovesNoHolder(s, pid, d, e, i);
    case Crash(pid) =>
    case _ =>
      if MovedBy(st, i) {
        OwnLookupStep(valid, s, st, i);
      } else {
        OthersLeaveAgent(valid, s, st, i);
      }
  }

  lemma OwnLookupStep(valid: Validator, s: State, st: Step, i: nat)
    requires Inv(valid, s) && Next(valid, s, st).Some? && i < |s.agents| && LooksUp(s.agents[i].act) && MovedBy(st, i)
    ensures var t := Next(valid, s, st).value;
            var d := s.agents[i].digest;
            && i < |t.agents| && st in {Read(i, LookupLock), Read(i, LookupValidate)}
            && (t.agents[i].act.Validating? <==> st == Read(i, LookupLock) && forall h :: LockOf(s, d) != ExclusiveBy(h))
            && (t.agents[i].act.HasHit? <==> st == Read(i, LookupValidate) && d in s.artifacts && valid(d, s.artifacts[d]))
            && (t.agents[i].act.HasHit? ==> t.agents[i].act.seen == Some(s.artifacts[d]))
            && (t.agents[i].act.Validating? || t.agents[i].act.HasHit? || t.agents[i].act.Finished?)
  {
    assert AgentOk(valid, s, i);
    var l := LockOf(s, s.agents[i].digest);
    assert LockOk(s, s.agents[i].digest);
    TriesSucceedExactly(l);
  }

  /** Agent `i` is looking up at this point of the run. */
  ghost predicate LookingAt(valid: Validator, s0: State, steps: seq<Step>, i: nat, k: nat)
    requires Run(valid, s0, steps).Some? && k <= |steps|
  {
    var s := StateAt(valid, s0, steps, k);
    i < |s.agents| && LooksUp(s.agents[i].act)
  }

  ghost predicate OverAt(valid: Validator, s0: State, steps: seq<Step>, i: nat, k: nat)
    requires Run(valid, s0, steps).Some? && k < |steps|
  {
    var s, t := StateAt(valid, s0, steps, k), StateAt(valid, s0, steps, k + 1);
    i < |s.agents| && i < |t.agents| && EndsLookup(valid, s, steps[k], t, i)
  }

  lemma LookupGoesOn(valid: Validator, artifacts: map<Digest, Content>, partials: map<PartialName, Content>, steps: seq<Step>,
                     i: nat, k: nat)
    requires ArtifactsValid(valid, artifacts) && Run(valid, Init(artifacts, partials), steps).Some? && k < |steps|
    requires LookingAt(valid, Init(artifacts, partials), steps, i, k)
    ensures LookingAt(valid, Init(artifacts, partials), steps, i, k + 1) || OverAt(valid, Init(artifacts, partials), steps, i, k)
  {
    var s0 := Init(artifacts, partials);
    PrefixRuns(valid, s0, steps, k);
    RunInv(valid, artifacts, partials, steps[..k]);
    NextState(valid, s0, steps, k);
    LookupEndsRightly(valid, StateAt(valid, s0, steps, k), steps[k], i);
  }

  lemma {:induction false} FirstEnd(valid: Validator, s0: State, steps: seq<Step>, i: nat, j: nat, n: nat) returns (k: nat)
    requires Run(valid, s0, steps).Some? && j <= n <= |steps|
    requires LookingAt(valid, s0, steps, i, j) && !LookingAt(valid, s0, steps, i, n)
    requires forall m :: 0 <= m < |steps| && LookingAt(valid, s0, steps, i, m) ==>
               LookingAt(valid, s0, steps, i, m + 1) || OverAt(valid, s0, steps, i, m)
    ensures j <= k < n && OverAt(valid, s0, steps, i, k)
    decreases n - j
  {
    if LookingAt(valid, s0, steps, i, j + 1) {
      k := FirstEnd(valid, s0, steps, i, j + 1, n);
    } else {
      k := j;
    }
  }

  /** In every run, a lookup that is over has hit, or there is the step at which it missed, with the reason. */
  lemma LookupIsOver(valid: Validator, artifacts: map<Digest, Content>, partials: map<PartialName, Content>,
                     steps: seq<Step>, i: nat, j: nat, n: nat)
    returns (k: nat)
    requires ArtifactsValid(valid, artifacts) && Run(valid, Init(artifacts, partials), steps).Some? && j <= n <= |steps|
    requires LookingAt(valid, Init(artifacts, partials), steps, i, j) && !LookingAt(valid, Init(artifacts, partials), steps, i, n)
    ensures j <= k < n && OverAt(valid, Init(artifacts, partials), steps, i, k)
  {
    var s0 := Init(artifacts, partials);
    forall m | 0 <= m < |steps| && LookingAt(valid, s0, steps, i, m)
      ensures LookingAt(valid, s0, steps, i, m + 1) || OverAt(valid, s0, steps, i, m)
    {
      LookupGoesOn(valid, artifacts, partials, steps, i, m);
    }
    k := FirstEnd(valid, s0, steps, i, j, n);
  }

  // ---------- writers ----------

  function WriteSteps(s: State, pid: Pid, d: Digest, c: Content): seq<Step> {
    [Enter(pid, d, BeginWrite), Write(|s.agents|, WritePartial(c)), Write(|s.agents|, CommitValidate)]
  }

  /** A write on a free identity that nobody disturbs: the bytes are accepted exactly if the validator passes them;
      rejected, the directory is as before but for the writer's own partial. */
  lemma WriteIsJudgedExactly(valid: Validator, s: State, pid: Pid, d: Digest, c: Content)
    requires Inv(valid, s) && forall h :: !Holds(LockOf(s, d), h)
    ensures Run(valid, s, WriteSteps(s, pid, d, c)).Some?
    ensures var t := Run(valid, s, WriteSteps(s, pid, d, c)).value;
            var i, name := |s.agents|, PartialName(d, pid);
            && |t.agents| == i + 1 && t.artifacts == s.artifacts
            && (valid(d, c) ==> t.agents[i] == Agent(pid, d, Committing(Get(s.artifacts, d), c)) && t.partials == s.partials[name := c])
            && (!valid(d, c) ==> t.agents[i] == Agent(pid, d, Finished) && t.partials == s.partials - {name} && LockOf(t, d) == Free)
  {
    var i, steps := |s.agents|, WriteSteps(s, pid, d, c);
    assert LockOk(s, d);
    TriesSucceedExactly(LockOf(s, d));
    var s1 := Next(valid, s, steps[0]).value;
    assert s1.agents[i].act.Writing? && LockOf(s1, d) == ExclusiveBy(i);
    var s2 := Next(valid, s1, steps[1]).value;
    assert s2.partials == s.partials[PartialName(d, pid) := c];
    var s3 := Next(valid, s2, steps[2]).value;
    RunUnrolls(valid, s, steps, [s, s1, s2, s3]);
  }

  /** From there, undisturbed, the bytes are published and leased. */
  lemma PublishGoesThrough(valid: Validator, s: State, i: nat)
    requires Inv(valid, s) && i < |s.agents| && s.agents[i].act.Committing?
    ensures var a := s.agents[i];
            var steps := [Write(i, Rename), Handoff(i, ConvertUnlock), Handoff(i, ConvertRelock)];
            && Run(valid, s, steps).Some?
            && var t := Run(valid, s, steps).value;
            && i < |t.agents| && t.agents[i] == a.(act := HasHit(Some(a.act.c)))
            && t.artifacts == s.artifacts[a.digest := a.act.c] && t.partials == s.partials - {PartialOf(a)}
            && LockOf(t, a.digest) == SharedBy({i})
  {
    var steps := [Write(i, Rename), Handoff(i, ConvertUnlock), Handoff(i, ConvertRelock)];
    assert AgentOk(valid, s, i);
    var s1 := Next(valid, s, steps[0]).value;
    assert s1.agents[i].act.Published? && LockOf(s1, s.agents[i].digest) == ExclusiveBy(i);
    var s2 := Next(valid, s1, steps[1]).value;
    assert s2.agents[i].act.Converting? && LockOf(s2, s.agents[i].digest) == Free;
    var s3 := Next(valid, s2, steps[2]).value;
    RunUnrolls(valid, s, steps, [s, s1, s2, s3]);
  }

  /** A lost conversion: the lease is taken again exactly if nobody holds the lock exclusively, and then it is a hit
      exactly if the artifact is there. */
  lemma FallbackLooksAgain(valid: Validator, s: State, i: nat)
    requires Inv(valid, s) && i < |s.agents| && s.agents[i].act.Reacquiring?
    ensures var d := s.agents[i].digest;
            && Next(valid, s, Handoff(i, Reacquire)).Some?
            && var t := Next(valid, s, Handoff(i, Reacquire)).value;
            && i < |t.agents| && t.artifacts == s.artifacts
            && (t.agents[i].act.Rechecking? <==> forall h :: LockOf(s, d) != ExclusiveBy(h))
            && (!t.agents[i].act.Rechecking? ==> t.agents[i].act.Finished?)
            && (t.agents[i].act.Rechecking? ==>
                  && Next(valid, t, Handoff(i, Recheck)).Some?
                  && var u := Next(valid, t, Handoff(i, Recheck)).value;
                  i < |u.agents| && u.agents[i].act == if d in s.artifacts then HasHit(Some(s.artifacts[d])) else Finished)
  {
    assert LockOk(s, s.agents[i].digest);
    TriesSucceedExactly(LockOf(s, s.agents[i].digest));
  }

  /** A conversion is won exactly if nobody holds the lock exclusively, with what is then at the path; a lost one goes on to take a
      lease anew. */
  lemma ConversionIsWonExactly(valid: Validator, s: State, i: nat)
    requires Inv(valid, s) && i < |s.agents| && s.agents[i].act.Converting?
    ensures var d := s.agents[i].digest;
            && Next(valid, s, Handoff(i, ConvertRelock)).Some?
            && var t := Next(valid, s, Handoff(i, ConvertRelock)).value;
            && i < |t.agents| && t.artifacts == s.artifacts && t.partials == s.partials
            && ((forall h :: LockOf(s, d) != ExclusiveBy(h)) ==>
                  t.agents[i].act == HasHit(Get(s.artifacts, d)) && LockOf(t, d).SharedBy? && Holds(LockOf(t, d), i))
            && ((exists h :: LockOf(s, d) == ExclusiveBy(h)) ==> t.agents[i].act == Reacquiring && LockOf(t, d) == LockOf(s, d))
  {
    assert LockOk(s, s.agents[i].digest);
    TriesSucceedExactly(LockOf(s, s.agents[i].digest));
  }

  /** What is always possible: a writer may fill its partial again, commit and abort; a commit may fail to sync and to rename; a
      lease may be released, and a cleaner may leave its victim alone. Each of these but filling and a commit that passes lets go of the
      lock, and leaves the artifacts as they are. */
  lemma OwnStepsArePossible(valid: Validator, s: State, i: nat, c: Content)
    requires Inv(valid, s) && i < |s.agents|
    ensures var a := s.agents[i].act;
            && (a.Writing? ==> Next(valid, s, Write(i, WritePartial(c))).Some? && Next(valid, s, Write(i, CommitValidate)).Some?)
            && (a.Writing? ==> LetsGo(s, Next(valid, s, Write(i, Abort)), i))
            && (a.Committing? ==> LetsGo(s, Next(valid, s, Write(i, SyncFails)), i) && LetsGo(s, Next(valid, s, Write(i, RenameFails)), i))
            && (a.HasHit? || a.Leasing? ==> LetsGo(s, Next(valid, s, Read(i, ReleaseLease)), i))
            && (a.Evicting? || a.Sweeping? ==> LetsGo(s, Next(valid, s, Clean(i, LeaveVictim)), i))
  {
  }

  ghost predicate LetsGo(s: State, next: Option<State>, i: nat)
    requires i < |s.agents|
  {
    && next.Some? && i < |next.value.agents| && next.value.agents[i].act.Finished?
    && next.value.artifacts == s.artifacts && !Holds(LockOf(next.value, s.agents[i].digest), i)
    && forall h :: h != i ==> (Holds(LockOf(next.value, s.agents[i].digest), h) <==> Holds(LockOf(s, s.agents[i].digest), h))
  }

  // ---------- who may start ----------

  /** Writers, evictors and sweepers start exactly if nobody holds the lock, a read lease is had exactly if nobody
      holds it exclusively, and a lookup starts exactly if the artifact is there. */
  lemma StartsExactly(valid: Validator, s: State, pid: Pid, d: Digest, victim: Pid)
    requires Inv(valid, s)
    ensures Next(valid, s, Enter(pid, d, BeginWrite)).Some? <==> forall h :: !Holds(LockOf(s, d), h)
    ensures Next(valid, s, Enter(pid, d, BeginEvict)).Some? <==> forall h :: !Holds(LockOf(s, d), h)
    ensures Next(valid, s, Enter(pid, d, BeginSweep(victim))).Some? <==> forall h :: !Holds(LockOf(s, d), h)
    ensures Next(valid, s, Enter(pid, d, AcquireReadLease)).Some? <==> forall h :: LockOf(s, d) != ExclusiveBy(h)
    ensures Next(valid, s, Enter(pid, d, Lookup)).Some? <==> d in s.artifacts
  {
    assert LockOk(s, d);
    TriesSucceedExactly(LockOf(s, d));
  }

  /** An evictor removes its artifact and nothing else, a sweeper the partial of its victim and nothing else. */
  lemma CleanersRemoveTheirOwn(valid: Validator, s: State, i: nat)
    requires Inv(valid, s) && i < |s.agents|
    ensures s.agents[i].act.Evicting? ==>
              && Next(valid, s, Clean(i, RemoveArtifact)).Some?
              && var t := Next(valid, s, Clean(i, RemoveArtifact)).value;
              && t.partials == s.partials && s.agents[i].digest !in t.artifacts
              && forall d :: d != s.agents[i].digest ==> Get(t.artifacts, d) == Get(s.artifacts, d)
    ensures s.agents[i].act.Sweeping? ==>
              && Next(valid, s, Clean(i, RemovePartial)).Some?
              && var t := Next(valid, s, Clean(i, RemovePartial)).value;
              var name := PartialName(s.agents[i].digest, s.agents[i].act.victim);
              && t.artifacts == s.artifacts && name !in t.partials
              && forall n :: n != name ==> Get(t.partials, n) == Get(s.partials, n)
  {
  }
}

/** What every interleaving of processes keeps, crashes included. */
module CacheInvariants {
  import opened Prelude
  import opened FileLocks
  import opened CacheMachine

  ghost predicate ArtifactsValid(valid: Validator, artifacts: map<Digest, Content>) {
    forall d :: d in artifacts ==> valid(d, artifacts[d])
  }

  /** Agent `i` holds the lock its activity needs, and the files it relies on are as it left them. */
  ghost predicate AgentOk(valid: Validator, s: State, i: nat)
    requires i < |s.agents|
  {
    var a := s.agents[i];
    var l := LockOf(s, a.digest);
    var now := Get(s.artifacts, a.digest);
    var partial := Get(s.partials, PartialOf(a));
    && (NeedsExclusive(a.act) ==> l == ExclusiveBy(i))
    && (NeedsShared(a.act) ==> l.SharedBy? && i in l.holders)
    && (match a.act
        case Writing(was, mine) => now == was && partial == mine
        case Committing(was, c) => now == was && partial == Some(c) && valid(a.digest, c)
        case Published(c) => now == Some(c)
        case Converting(c, disturbed) => !disturbed ==> now == Some(c) && !l.ExclusiveBy?
        case HasHit(seen) => now == seen
        case _ => true)
  }

  /** Only a live agent that needs it holds a lock, so a crash never leaves one behind. */
  ghost predicate HoldersLive(s: State, d: Digest) {
    forall h: Handle :: Holds(LockOf(s, d), h) ==>
      && h < |s.agents| && s.agents[h].digest == d
      && (NeedsExclusive(s.agents[h].act) || NeedsShared(s.agents[h].act))
  }

  ghost predicate LockOk(s: State, d: Digest) {
    HoldersLive(s, d) && (LockOf(s, d).SharedBy? ==> LockOf(s, d).holders != {})
  }

  ghost predicate Inv(valid: Validator, s: State) {
    && ArtifactsValid(valid, s.artifacts)
    && (forall i :: 0 <= i < |s.agents| ==> AgentOk(valid, s, i))
    && (forall d :: LockOk(s, d))
  }

  lemma InitInv(valid: Validator, artifacts: map<Digest, Content>, partials: map<PartialName, Content>)
    requires ArtifactsValid(valid, artifacts)
    ensures Inv(valid, Init(artifacts, partials))
  {
  }

  lemma EnterKeepsAgents(valid: Validator, s: State, pid: Pid, d: Digest, e: Entry, i: nat)
    requires Inv(valid, s) && NextEnter(s, pid, d, e).Some? && i < |NextEnter(s, pid, d, e).value.agents|
    ensures AgentOk(valid, NextEnter(s, pid, d, e).value, i)
  {
    assert i < |s.agents| ==> AgentOk(valid, s, i);
  }

  lemma EnterKeepsLock(valid: Validator, s: State, pid: Pid, d: Digest, e: Entry, k: Digest)
    requires Inv(valid, s) && NextEnter(s, pid, d, e).Some?
    ensures LockOk(NextEnter(s, pid, d, e).value, k)
  {
    var t := NextEnter(s, pid, d, e).value;
    assert LockOk(s, k);
    forall h: Handle | Holds(LockOf(t, k), h) ensures h < |t.agents| { }
  }

  lemma EnterKeeps(valid: Validator, s: State, pid: Pid, d: Digest, e: Entry)
    requires Inv(valid, s) && NextEnter(s, pid, d, e).Some?
    ensures Inv(valid, NextEnter(s, pid, d, e).value)
  {
    forall i | 0 <= i < |NextEnter(s, pid, d, e).value.agents| { EnterKeepsAgents(valid, s, pid, d, e, i); }
    forall k { EnterKeepsLock(valid, s, pid, d, e, k); }
  }

  lemma WriteKeepsOwn(valid: Validator, s: State, i: nat, w: WriterStep)
    requires Inv(valid, s) && i < |s.agents| && NextWrite(valid, s, i, w).Some?
    ensures i < |NextWrite(valid, s, i, w).value.agents| && AgentOk(valid, NextWrite(valid, s, i, w).value, i)
  {
    assert AgentOk(valid, s, i);
  }

  lemma WriteKeepsOther(valid: Validator, s: State, i: nat, w: WriterStep, k: nat)
    requires Inv(valid, s) && i < |s.agents| && NextWrite(valid, s, i, w).Some? && k < |s.agents| && k != i
    ensures k < |NextWrite(valid, s, i, w).value.agents| && AgentOk(valid, NextWrite(valid, s, i, w).value, k)
  {
    assert AgentOk(valid, s, i) && AgentOk(valid, s, k);
  }

  lemma WriteKeeps(valid: Validator, s: State, i: nat, w: WriterStep)
    requires Inv(valid, s) && i < |s.agents| && NextWrite(valid, s, i, w).Some?
    ensures Inv(valid, NextWrite(valid, s, i, w).value)
  {
    var t := NextWrite(valid, s, i, w).value;
    assert AgentOk(valid, s, i);
    WriteKeepsOwn(valid, s, i, w);
    forall k | 0 <= k < |s.agents| && k != i { WriteKeepsOther(valid, s, i, w, k); }
    forall d ensures LockOk(t, d) {
      assert LockOk(s, d);
      forall h: Handle | Holds(LockOf(t, d), h) ensures h < |t.agents| { }
    }
  }

  lemma HandoffKeepsOwn(valid: Validator, s: State, i: nat, h: HandoffStep)
    requires Inv(valid, s) && i < |s.agents| && NextHandoff(s, i, h).Some?
    ensures i < |NextHandoff(s, i, h).value.agents| && AgentOk(valid, NextHandoff(s, i, h).value, i)
  {
    assert AgentOk(valid, s, i);
  }

  lemma HandoffKeepsOther(valid: Validator, s: State, i: nat, h: HandoffStep, k: nat)
    requires Inv(valid, s) && i < |s.agents| && NextHandoff(s, i, h).Some? && k < |s.agents| && k != i
    ensures k < |NextHandoff(s, i, h).value.agents| && AgentOk(valid, NextHandoff(s, i, h).value, k)
  {
    assert AgentOk(valid, s, i) && AgentOk(valid, s, k);
  }

  lemma HandoffKeeps(valid: Validator, s: State, i: nat, h: HandoffStep)
    requires Inv(valid, s) && i < |s.agents| && NextHandoff(s, i, h).Some?
    ensures Inv(valid, NextHandoff(s, i, h).value)
  {
    var t := NextHandoff(s, i, h).value;
    assert AgentOk(valid, s, i);
    HandoffKeepsOwn(valid, s, i, h);
    forall k | 0 <= k < |s.agents| && k != i { HandoffKeepsOther(valid, s, i, h, k); }
    forall d ensures LockOk(t, d) {
      assert LockOk(s, d);
      forall h: Handle | Holds(LockOf(t, d), h) ensures h < |t.agents| { }
    }
  }

  lemma ReadKeepsOwn(valid: Validator, s: State, i: nat, r: ReaderStep)
    requires Inv(valid, s) && i < |s.agents| && NextRead(valid, s, i, r).Some?
    ensures i < |NextRead(valid, s, i, r).value.agents| && AgentOk(valid, NextRead(valid, s, i, r).value, i)
  {
    assert AgentOk(valid, s, i);
  }

  lemma ReadKeepsOther(valid: Validator, s: State, i: nat, r: ReaderStep, k: nat)
    requires Inv(valid, s) && i < |s.agents| && NextRead(valid, s, i, r).Some? && k < |s.agents| && k != i
    ensures k < |NextRead(valid, s, i, r).value.agents| && AgentOk(valid, NextRead(valid, s, i, r).value, k)
  {
    assert AgentOk(valid, s, i) && AgentOk(valid, s, k);
  }

  lemma ReadKeeps(valid: Validator, s: State, i: nat, r: ReaderStep)
    requires Inv(valid, s) && i < |s.agents| && NextRead(valid, s, i, r).Some?
    ensures Inv(valid, NextRead(valid, s, i, r).value)
  {
    var t := NextRead(valid, s, i, r).value;
    assert AgentOk(valid, s, i);
    ReadKeepsOwn(valid, s, i, r);
    forall k | 0 <= k < |s.agents| && k != i { ReadKeepsOther(valid, s, i, r, k); }
    forall d ensures LockOk(t, d) {
      assert LockOk(s, d);
      forall h: Handle | Holds(LockOf(t, d), h) ensures h < |t.agents| { }
    }
  }

  lemma CleanKeeps(valid: Validator, s: State, i: nat, c: CleanerStep)
    requires Inv(valid, s) && i < |s.agents| && NextClean(s, i, c).Some?
    ensures Inv(valid, NextClean(s, i, c).value)
  {
    var t := NextClean(s, i, c).value;
    assert AgentOk(valid, s, i);
    forall k | 0 <= k < |t.agents| ensures AgentOk(valid, t, k) {
      assert AgentOk(valid, s, k);
    }
    forall d ensures LockOk(t, d) {
      assert LockOk(s, d);
      forall h: Handle | Holds(LockOf(t, d), h) ensures h < |t.agents| { }
    }
  }

  lemma CrashKeeps(valid: Validator, s: State, pid: Pid)
    requires Inv(valid, s)
    ensures Inv(valid, AfterCrash(s, pid))
  {
    var t := AfterCrash(s, pid);
    forall k | 0 <= k < |t.agents| ensures AgentOk(valid, t, k) {
      assert AgentOk(valid, s, k);
    }
    forall d ensures LockOk(t, d) {
      assert LockOk(s, d);
      forall h: Handle | Holds(LockOf(t, d), h) ensures h < |t.agents| { }
    }
  }

  lemma NextKeeps(valid: Validator, s: State, st: Step)
    requires Inv(valid, s) && Next(valid, s, st).Some?
    ensures Inv(valid, Next(valid, s, st).value)
  {
    match st
    case Enter(pid, d, e) => EnterKeeps(valid, s, pid, d, e);
    case Write(i, w) => WriteKeeps(valid, s, i, w);
    case Handoff(i, h) => HandoffKeeps(valid, s, i, h);
    case Read(i, r) => ReadKeeps(valid, s, i, r);
    case Clean(i, c) => CleanKeeps(valid, s, i, c);
    case Crash(pid) => CrashKeeps(valid, s, pid);
  }

  /** Every state of every run satisfies the invariant, if the run starts from a directory whose
      artifacts all pass the validator and in which nobody is at work. */
  lemma {:induction false} RunInv(valid: Validator, artifacts: map<Digest, Content>,
                                  partials: map<PartialName, Content>, steps: seq<Step>)
    requires ArtifactsValid(valid, artifacts) && Run(valid, Init(artifacts, partials), steps).Some?
    ensures Inv(valid, Run(valid, Init(artifacts, partials), steps).value)
  {
    if steps == [] {
      InitInv(valid, artifacts, partials);
    } else {
      RunInv(valid, artifacts, partials, steps[..|steps| - 1]);
      NextKeeps(valid, Run(valid, Init(artifacts, partials), steps[..|steps| - 1]).value, steps[|steps| - 1]);
    }
  }
}

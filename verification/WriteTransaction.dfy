/** One write transaction as the object its process holds: the calls that the steps of CacheMachine split up.
    What other processes do in between is given: `converting` and `retrying` say how they leave the lock and the
    artifacts before the two shared tries. */
module WriteTransactions {
  import opened Prelude
  import opened FileLocks
  import CacheMachine

  type Digest = CacheMachine.Digest
  type Content = CacheMachine.Content
  type Validator = CacheMachine.Validator
  type PartialName = CacheMachine.PartialName

  /** The two kinds of files of the cache root. */
  class Directory {
    var artifacts: map<Digest, Content>
    var partials: map<PartialName, Content>

    constructor ()
      ensures artifacts == map[] && partials == map[]
    {
      artifacts, partials := map[], map[];
    }
  }

  datatype Shared = Shared(lock: LockState, artifacts: map<Digest, Content>)

  /** What other processes make of the artifacts this one leaves them with, and of the identity's lock. */
  type Others = map<Digest, Content> -> Shared

  /** A hit names the artifact's path; `found` is what the path holds when the lease is won. */
  datatype Outcome = AlreadyFinished | Rejected | LeaseLost | Vanished | Hit(found: Option<Content>)

  class WriteTransaction {
    const directory: Directory
    const name: PartialName
    const lock: FileLock
    var finished: bool

    /** An unfinished transaction is alone on its identity. */
    ghost predicate Valid()
      reads this, lock, lock.file
    {
      lock.Valid() && (!finished ==> lock.handle >= 0 && lock.file.state == ExclusiveBy(lock.handle))
    }

    /** beginWrite, once the exclusive lock was won. */
    constructor (directory: Directory, name: PartialName, lock: FileLock)
      requires lock.Valid() && lock.handle >= 0 && lock.file.state == ExclusiveBy(lock.handle)
      ensures Valid() && !finished
      ensures this.directory == directory && this.name == name && this.lock == lock
    {
      this.directory, this.name, this.lock, finished := directory, name, lock, false;
    }

    function Partial(): Option<Content>
      reads this, directory
    {
      if name in directory.partials then Some(directory.partials[name]) else None
    }

    /** A missing validator or a missing file passes nothing. */
    predicate Passes(validator: Option<Validator>)
      reads this, directory
    {
      validator.Some? && Partial().Some? && validator.value(name.digest, Partial().value)
    }

    /** Every way out before the rename. */
    method GiveUp()
      requires lock.Valid()
      modifies directory, lock, lock.file
      ensures lock.Valid() && lock.handle == RELEASED
      ensures directory.artifacts == old(directory.artifacts) && directory.partials == old(directory.partials) - {name}
      ensures lock.file.state == if old(lock.handle) == RELEASED then old(lock.file.state)
                                 else Drop(old(lock.file.state), {old(lock.handle)})
    {
      directory.partials := directory.partials - {name};
      lock.Release();
    }

    method Abort()
      requires Valid()
      modifies this, directory, lock, lock.file
      ensures Valid() && finished
      ensures directory.artifacts == old(directory.artifacts)
      ensures old(finished) ==> directory.partials == old(directory.partials) && lock.file.state == old(lock.file.state)
      ensures !old(finished) ==> directory.partials == old(directory.partials) - {name} && lock.file.state == Free
    {
      if finished {
        return;
      }
      finished := true;
      GiveUp();
    }

    /** Validate, sync and rename; nothing is published unless all three succeed, and what is published is
        what was validated. */
    method Publish(validator: Option<Validator>, syncs: bool, renames: bool) returns (published: bool)
      requires Valid() && !finished
      modifies this, directory, lock, lock.file
      ensures finished && lock.Valid() && published == (old(Passes(validator)) && syncs && renames)
      ensures directory.partials == old(directory.partials) - {name}
      ensures published ==>
                && directory.artifacts == old(directory.artifacts)[name.digest := old(Partial()).value]
                && lock.handle == old(lock.handle) && lock.file.state == ExclusiveBy(lock.handle)
      ensures !published ==> directory.artifacts == old(directory.artifacts) && lock.file.state == Free && lock.handle == RELEASED
    {
      finished := true;
      if !Passes(validator) || !syncs || !renames {
        GiveUp();
        return false;
      }
      directory.artifacts := directory.artifacts[name.digest := directory.partials[name]];
      directory.partials := directory.partials - {name};
      published := true;
    }

    function Artifact(artifacts: map<Digest, Content>): Option<Content> {
      if name.digest in artifacts then Some(artifacts[name.digest]) else None
    }

    /** From the artifacts at the start of the handoff to those at its end, and the outcome between them. */
    predicate HandedOff(r: Outcome, before: map<Digest, Content>, converting: Others, retrying: Others,
                        after: map<Digest, Content>)
    {
      var left := converting(before);
      var again := retrying(left.artifacts);
      if Available(left.lock, false) then r == Hit(Artifact(left.artifacts)) && after == left.artifacts
      else
        && after == again.artifacts
        && (r.LeaseLost? <==> !Available(again.lock, false))
        && (r.Vanished? <==> Available(again.lock, false) && Artifact(after).None?)
        && (r.Hit? <==> Available(again.lock, false) && Artifact(after).Some?)
        && (r.Hit? ==> r.found == Artifact(after))
    }

    /** A hit finds no file exactly if the conversion succeeded after others had removed it; it finds what was
        published if the conversion succeeded and others left it. */
    lemma HitFinds(r: Outcome, before: map<Digest, Content>, converting: Others, retrying: Others, after: map<Digest, Content>)
      requires HandedOff(r, before, converting, retrying, after) && r.Hit?
      ensures r.found.None? <==> Available(converting(before).lock, false) && name.digest !in converting(before).artifacts
      ensures Available(converting(before).lock, false) && Artifact(converting(before).artifacts) == Artifact(before) ==>
                r.found == Artifact(before)
    {
    }

    /** The exclusive lock becomes the lease of the hit. A conversion that succeeds does not look at the
        artifact: it grants whatever others left, which is what was published if they left it. Failing that, a
        lease is taken anew and the file is looked for under it, so that this hit does find one. */
    method Handoff(converting: Others, retrying: Others, h: Handle)
      returns (r: Outcome, lease: Option<FileLock>)
      requires finished && lock.Valid() && lock.handle >= 0
      requires forall m :: LeftByOthers(converting(m).lock, lock.handle)
      requires forall m :: !Holds(retrying(m).lock, h)
      modifies lock, lock.file, directory
      ensures directory.partials == old(directory.partials)
      ensures r.Hit? <==> lease.Some?
      ensures r.Hit? ==> && r.found == Artifact(directory.artifacts) && lease.value.Valid()
                         && lease.value.file == lock.file && lease.value.handle >= 0 && lock.file.state.SharedBy?
      ensures HandedOff(r, old(directory.artifacts), converting, retrying, directory.artifacts)
      ensures r.LeaseLost? ==> lock.file.state == retrying(converting(old(directory.artifacts)).artifacts).lock
      ensures r.Vanished? ==>
                var left := retrying(converting(old(directory.artifacts)).artifacts).lock;
                !Holds(lock.file.state, h) && forall k :: Holds(left, k) ==> Holds(lock.file.state, k)
    {
      var left := converting(directory.artifacts);
      var converted := lock.DowngradeToShared(left.lock);
      directory.artifacts := left.artifacts;
      if converted {
        return Hit(Artifact(directory.artifacts)), Some(lock);
      }
      left := retrying(directory.artifacts);
      lock.file.state := left.lock;
      directory.artifacts := left.artifacts;
      var again := TryAcquire(lock.file, h, false, true);
      if again.Err? {
        return LeaseLost, None;
      }
      if Artifact(directory.artifacts).None? {
        again.value.Release();
        return Vanished, None;
      }
      r, lease := Hit(Artifact(directory.artifacts)), Some(again.value);
    }

    method Commit(validator: Option<Validator>, syncs: bool, renames: bool, converting: Others, retrying: Others, h: Handle)
      returns (r: Outcome, lease: Option<FileLock>)
      requires Valid()
      requires lock.handle >= 0 ==> forall m :: LeftByOthers(converting(m).lock, lock.handle)
      requires forall m :: !Holds(retrying(m).lock, h)
      modifies this, directory, lock, lock.file
      ensures finished && (r.Hit? <==> lease.Some?)
      ensures old(finished) ==> r == AlreadyFinished && directory.artifacts == old(directory.artifacts)
                                && directory.partials == old(directory.partials) && lock.file.state == old(lock.file.state)
      // Rejected: the artifact stays as it was, the partial is gone, the lock is free.
      ensures !old(finished) ==> (r.Rejected? <==> !(old(Passes(validator)) && syncs && renames))
      ensures r.Rejected? ==> directory.artifacts == old(directory.artifacts)
                              && directory.partials == old(directory.partials) - {name} && lock.file.state == Free
      // Published: others first see the validated bytes in place; the outcome tells what they made of them.
      ensures !old(finished) && !r.Rejected? ==>
                && directory.partials == old(directory.partials) - {name}
                && HandedOff(r, old(directory.artifacts)[name.digest := old(Partial()).value], converting, retrying, directory.artifacts)
      ensures r.Hit? ==> && r.found == Artifact(directory.artifacts) && lease.value.Valid() && lease.value.handle >= 0
                         && lock.file.state.SharedBy?
    {
      if finished {
        return AlreadyFinished, None;
      }
      var published := Publish(validator, syncs, renames);
      if !published {
        return Rejected, None;
      }
      r, lease := Handoff(converting, retrying, h);
    }
  }
}

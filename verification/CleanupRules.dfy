/** What cleanup does with each file, answer by answer. */
module CleanupRules {
  import opened Prelude
  import opened CacheCleanup

  // ---------- the scan ----------

  /** Candidates are the artifacts that are regular files of a known size; one whose stamp cannot be read has the earliest there is. */
  predicate Scanned(e: Entry, c: Candidate) {
    && e.regular == Some(true) && e.kind == ArtifactFile && e.size == Some(c.size) && e.file == c.file
    && (e.stamp == Some(c.stamp) || (e.stamp == None && c.stamp == -0x8000_0000_0000_0000))
  }

  lemma {:induction false} CandidatesExactly(entries: seq<Entry>, c: Candidate)
    ensures c in CandidatesOf(entries) <==> exists e :: e in entries && Scanned(e, c)
  {
    if entries != [] {
      var last := |entries| - 1;
      CandidatesExactly(entries[..last], c);
      assert entries == entries[..last] + [entries[last]];
      assert Scanned(entries[last], c) <==> IsCandidate(entries[last]) && c == CandidateOf(entries[last]);
    }
  }

  /** So it is tried before every file with a later stamp. */
  lemma UnreadableStampGoesFirst(victims: seq<Candidate>, candidates: seq<Candidate>, i: nat, j: nat)
    requires IsStampOrder(victims, candidates) && i < |victims| && j < |victims|
    requires victims[i].stamp == -0x8000_0000_0000_0000 && victims[j].stamp != victims[i].stamp
    ensures i < j
  {
  }

  /** A partial is stale from the orphan age on. */
  lemma {:induction false} StaleExactly(entries: seq<Entry>, policy: Policy, f: nat)
    ensures f in StalePartialsOf(entries, policy) <==> exists e :: e in entries && IsOldPartial(e, policy.orphanAge) && e.file == f
  {
    StaleWasSeen(entries, policy, f);
    forall e ensures IsOldPartial(e, policy.orphanAge) <==> IsStalePartial(e, policy) {
    }
  }

  predicate IsOldPartial(e: Entry, orphanAge: int) {
    e.regular == Some(true) && e.kind == PartialFile && e.age.Some? && !(e.age.value < orphanAge)
  }

  /** What could not be read of a file that matters: its type, the age of a partial, the size of an artifact. */
  lemma ScanErrorExactly(e: Entry)
    ensures ScanError(e) <==>
              match e.regular
              case None => true
              case Some(false) => false
              case Some(true) => (match e.kind case PartialFile => e.age == None case ArtifactFile => e.size == None case OtherFile => false)
  {
  }

  // ---------- one victim ----------

  /** The first question whose answer is not the scanned one, if there is one: the lock, the type, the size, the stamp, the removal. */
  datatype Stop = AtLock | AtType | AtSize | AtStamp | AtRemoval | Nowhere

  function StopsAt(victim: Candidate, seen: Observation): Stop {
    if seen.lock != Acquired then AtLock
    else if seen.regular != Answer(true) then AtType
    else if seen.size != Answer(victim.size) then AtSize
    else if seen.stamp != Answer(victim.stamp) then AtStamp
    else if seen.removal != Answer(true) then AtRemoval
    else Nowhere
  }

  /** A victim is removed exactly if nothing stops it; otherwise the answer that stopped it tells its fate. */
  lemma FateExactly(victim: Candidate, seen: Observation)
    ensures FateOf(victim, seen) ==
            match StopsAt(victim, seen)
            case AtLock => (if seen.lock == Contended then LockHeld else LockFailed)
            case AtType => Stopped(seen.regular)
            case AtSize => Stopped(seen.size)
            case AtStamp => Stopped(seen.stamp)
            case AtRemoval => (if seen.removal == Failed then RemoveFailed else Gone)
            case Nowhere => Removed
  {
  }

  function Stopped<T>(q: Query<T>): Fate {
    match q
    case Answer(_) => Changed
    case Missing => Gone
    case Failed => Unreadable
  }

  /** An error is noted for a lock that failed but was not held, for a question that failed, and for a stamp file that could not be
      removed after its artifact; never for what was missing, changed or held. */
  lemma EvictionErrorExactly(victim: Candidate, seen: Observation)
    ensures EvictionError(victim, seen) <==>
            match StopsAt(victim, seen)
            case AtLock => seen.lock == LockError
            case AtType => seen.regular == Failed
            case AtSize => seen.size == Failed
            case AtStamp => seen.stamp == Failed
            case AtRemoval => seen.removal == Failed
            case Nowhere => !seen.touchRemoval.Answer?
  {
    FateExactly(victim, seen);
  }

  /** Only a removed victim changes the figures: its bytes leave the total, and join the free space and what was reclaimed. */
  lemma TriedExactly(victim: Candidate, seen: Observation, before: Tracked)
    requires victim.size <= before.total && before.reclaimed + victim.size <= UINT64_MAX
    requires before.available.Some? ==> before.available.value + victim.size <= UINT64_MAX
    ensures var bytes := if StopsAt(victim, seen) == Nowhere then victim.size else 0;
            var t := Tried(victim, seen, before);
            && t.total == before.total - bytes && t.reclaimed == before.reclaimed + bytes
            && (before.available.Some? ==> t.available == Some(before.available.value + bytes))
            && (before.available.None? ==> t.available.None?)
  {
  }

  // ---------- stale partials ----------

  /** Removed exactly if the identity is free and the partial still a regular file, still as old, and removable. */
  lemma {:induction false} SweptExactly(partials: seq<nat>, seen: seq<PartialSeen>, policy: Policy, f: nat)
    requires |seen| == |partials|
    ensures f in SweptFiles(partials, seen, policy, |seen|) <==>
              exists i :: 0 <= i < |seen| && partials[i] == f && IsRemoved(seen[i], policy.orphanAge)
  {
    forall p ensures IsRemoved(p, policy.orphanAge) <==> Swept(p, policy) {
    }
  }

  predicate IsRemoved(p: PartialSeen, orphanAge: int) {
    p.lock == Acquired && p.regular == Answer(true) && p.age.Answer? && !(p.age.value < orphanAge) && p.removal == Answer(true)
  }

  /** An error is noted for the first question that failed, unless the partial was held, gone, no file or too young. */
  lemma SweepErrorExactly(p: PartialSeen, policy: Policy)
    ensures SweepError(p, policy) <==>
              if p.lock != Acquired then p.lock == LockError
              else if p.regular != Answer(true) then p.regular == Failed
              else if !p.age.Answer? then p.age == Failed
              else p.age.value >= policy.orphanAge && p.removal == Failed
  {
  }
}

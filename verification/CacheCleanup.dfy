/** cleanup(): the directory scan and the eviction of the oldest artifacts until both budgets hold. */
module CacheCleanup {
  import opened Prelude

  // What the file system answers is given: one `Entry` per directory entry, one `Observation` per victim, one
  // `PartialSeen` per stale partial, and std::sort as any function that puts candidates in stamp order.

  datatype Policy = Policy(maxTotalBytes: uint64, minFreeBytes: uint64, orphanAge: int)

  datatype CleanupResult = CleanupResult(
    bytesScanned: uint64,
    bytesReclaimed: uint64,
    bytesHeldOverTarget: uint64,
    targetMet: bool,
    hadErrors: bool)

  datatype Candidate = Candidate(file: nat, size: uint64, stamp: int64)

  function SaturatedAdd(a: uint64, b: uint64): uint64 {
    if b > UINT64_MAX - a then UINT64_MAX else a + b
  }

  function Capped(n: nat): uint64 {
    if n > UINT64_MAX then UINT64_MAX else n
  }

  // ---------- the scan ----------

  datatype Kind = ArtifactFile | PartialFile | OtherFile

  /** A directory entry as the scan sees it; an absent value is a query that failed. An artifact whose
      stamp cannot be read counts as the oldest. */
  datatype Entry = Entry(file: nat, regular: Option<bool>, kind: Kind, size: Option<uint64>, stamp: Option<int64>, age: Option<int>)

  /** Ticks of the file clock are 64 bits. */
  const STAMP_MIN: int64 := INT64_MIN

  predicate IsCandidate(e: Entry) {
    e.regular == Some(true) && e.kind.ArtifactFile? && e.size.Some?
  }

  function CandidateOf(e: Entry): Candidate
    requires IsCandidate(e)
  {
    Candidate(e.file, e.size.value, if e.stamp.Some? then e.stamp.value else STAMP_MIN)
  }

  predicate IsStalePartial(e: Entry, policy: Policy) {
    e.regular == Some(true) && e.kind.PartialFile? && e.age.Some? && e.age.value >= policy.orphanAge
  }

  function CandidatesOf(entries: seq<Entry>): seq<Candidate> {
    if entries == [] then []
    else
      var e := entries[|entries| - 1];
      CandidatesOf(entries[..|entries| - 1]) + if IsCandidate(e) then [CandidateOf(e)] else []
  }

  function StalePartialsOf(entries: seq<Entry>, policy: Policy): seq<nat> {
    if entries == [] then []
    else
      var e := entries[|entries| - 1];
      StalePartialsOf(entries[..|entries| - 1], policy) + if IsStalePartial(e, policy) then [e.file] else []
  }

  function TotalSize(candidates: seq<Candidate>): nat {
    if candidates == [] then 0
    else TotalSize(candidates[..|candidates| - 1]) + candidates[|candidates| - 1].size
  }

  /** An error is noted for an entry whose type, age or size cannot be read. */
  predicate ScanError(e: Entry) {
    || e.regular.None?
    || (e.regular == Some(true) && e.kind.PartialFile? && e.age.None?)
    || (e.regular == Some(true) && e.kind.ArtifactFile? && e.size.None?)
  }

  predicate ScanErrors(entries: seq<Entry>, n: nat)
    requires n <= |entries|
    ensures ScanErrors(entries, n) <==> exists i :: 0 <= i < n && ScanError(entries[i])
  {
    n > 0 && (ScanError(entries[n - 1]) || ScanErrors(entries, n - 1))
  }

  lemma NextCandidate(entries: seq<Entry>, n: nat, policy: Policy)
    requires n < |entries|
    ensures CandidatesOf(entries[..n + 1]) ==
            CandidatesOf(entries[..n]) + if IsCandidate(entries[n]) then [CandidateOf(entries[n])] else []
    ensures StalePartialsOf(entries[..n + 1], policy) ==
            StalePartialsOf(entries[..n], policy) + if IsStalePartial(entries[n], policy) then [entries[n].file] else []
  {
    assert entries[..n + 1][..n] == entries[..n];
  }

  lemma NextTotal(candidates: seq<Candidate>, c: Candidate)
    ensures TotalSize(candidates + [c]) == TotalSize(candidates) + c.size
  {
    assert (candidates + [c])[..|candidates|] == candidates;
  }

  method ScanRoot(entries: seq<Entry>, policy: Policy)
    returns (candidates: seq<Candidate>, stalePartials: seq<nat>, total: uint64, hadErrors: bool)
    ensures candidates == CandidatesOf(entries)
    ensures stalePartials == StalePartialsOf(entries, policy)
    ensures total == Capped(TotalSize(candidates))
    ensures hadErrors <==> exists i :: 0 <= i < |entries| && ScanError(entries[i])
  {
    candidates, stalePartials, total, hadErrors := [], [], 0, false;
    for n := 0 to |entries|
      invariant candidates == CandidatesOf(entries[..n])
      invariant stalePartials == StalePartialsOf(entries[..n], policy)
      invariant total == Capped(TotalSize(candidates))
      invariant hadErrors <==> ScanErrors(entries, n)
    {
      var e := entries[n];
      NextCandidate(entries, n, policy);
      if e.regular != Some(true) {
        hadErrors := hadErrors || e.regular.None?;
      } else if e.kind.PartialFile? {
        hadErrors := hadErrors || e.age.None?;
        if e.age.Some? && e.age.value >= policy.orphanAge {
          stalePartials := stalePartials + [e.file];
        }
      } else if e.kind.ArtifactFile? {
        if e.size.None? {
          hadErrors := true;
        } else {
          total := SaturatedAdd(total, e.size.value);
          var c := Candidate(e.file, e.size.value, if e.stamp.Some? then e.stamp.value else STAMP_MIN);
          NextTotal(candidates, c);
          candidates := candidates + [c];
        }
      }
    }
    assert entries[..|entries|] == entries;
  }

  // ---------- the order of eviction ----------

  predicate SortedByStamp(s: seq<Candidate>) {
    forall i, j :: 0 <= i < j < |s| ==> s[i].stamp <= s[j].stamp
  }

  /** What std::sort promises; the order among equal stamps is left open. */
  predicate IsStampOrder(victims: seq<Candidate>, candidates: seq<Candidate>) {
    SortedByStamp(victims) && multiset(victims) == multiset(candidates)
  }

  lemma {:induction false} TotalSizeConcat(s: seq<Candidate>, t: seq<Candidate>)
    ensures TotalSize(s + t) == TotalSize(s) + TotalSize(t)
  {
    if t == [] {
      assert s + t == s;
    } else {
      assert (s + t)[..|s + t| - 1] == s + t[..|t| - 1];
      TotalSizeConcat(s, t[..|t| - 1]);
    }
  }

  lemma {:induction false} Without(t: seq<Candidate>, k: nat)
    requires k < |t|
    ensures TotalSize(t) == TotalSize(t[..k] + t[k + 1..]) + t[k].size
    ensures multiset(t[..k] + t[k + 1..]) == multiset(t) - multiset{t[k]}
  {
    assert t == t[..k] + ([t[k]] + t[k + 1..]);
    TotalSizeConcat(t[..k], [t[k]] + t[k + 1..]);
    TotalSizeConcat([t[k]], t[k + 1..]);
    TotalSizeConcat(t[..k], t[k + 1..]);
    assert [t[k]][..0] == [];
  }

  lemma {:induction false} TotalSizeOfPermutation(s: seq<Candidate>, t: seq<Candidate>)
    requires multiset(s) == multiset(t)
    ensures |s| == |t| && TotalSize(s) == TotalSize(t)
  {
    assert |s| == |multiset(s)| == |multiset(t)| == |t|;
    if s != [] {
      var last := |s| - 1;
      assert s[last] in multiset(t);
      var k :| 0 <= k < |t| && t[k] == s[last];
      Without(t, k);
      Without(s, last);
      assert s[..last] + s[last + 1..] == s[..last];
      TotalSizeOfPermutation(s[..last], t[..k] + t[k + 1..]);
    }
  }

  // ---------- one victim ----------

  /** The answer to a file-system query: a value, a missing file, or another failure. */
  datatype Query<+T> = Answer(value: T) | Missing | Failed

  datatype LockAnswer = Acquired | Contended | LockError

  /** Everything trying one victim may see, in the order it is asked. */
  datatype Observation = Observation(
    lock: LockAnswer,
    regular: Query<bool>,
    size: Query<uint64>,
    stamp: Query<int64>,
    removal: Query<bool>,
    touchRemoval: Query<bool>)

  datatype Tracked = Tracked(total: uint64, available: Option<uint64>, reclaimed: uint64, hadErrors: bool)

  /** The victim is free and, as far as can be read, the file that was scanned. */
  predicate Untouched(victim: Candidate, seen: Observation) {
    && seen.lock.Acquired?
    && seen.regular == Answer(true)
    && seen.size == Answer(victim.size)
    && seen.stamp == Answer(victim.stamp)
  }

  predicate Evicted(victim: Candidate, seen: Observation) {
    Untouched(victim, seen) && seen.removal == Answer(true)
  }

  /** What became of a victim that was tried. */
  datatype Fate = Removed | LockHeld | LockFailed | Gone | Changed | Unreadable | RemoveFailed

  /** The first answer that is not the one the scan had. */
  function Obstacle<T>(q: Query<T>): Fate {
    match q
    case Answer(_) => Changed
    case Missing => Gone
    case Failed => Unreadable
  }

  function FateOf(victim: Candidate, seen: Observation): (f: Fate)
    ensures f.Removed? <==> Evicted(victim, seen)
    ensures f.RemoveFailed? <==> Untouched(victim, seen) && seen.removal.Failed?
    ensures f.LockHeld? <==> seen.lock.Contended?
    ensures f.LockFailed? <==> seen.lock.LockError?
  {
    if !seen.lock.Acquired? then if seen.lock.Contended? then LockHeld else LockFailed
    else if seen.regular != Answer(true) then Obstacle(seen.regular)
    else if seen.size != Answer(victim.size) then Obstacle(seen.size)
    else if seen.stamp != Answer(victim.stamp) then Obstacle(seen.stamp)
    else if seen.removal == Answer(true) then Removed
    else if seen.removal.Failed? then RemoveFailed
    else Gone
  }

  /** An error is noted for what could not be locked, read or removed, and for a stamp file left behind. */
  predicate EvictionError(victim: Candidate, seen: Observation) {
    var f := FateOf(victim, seen);
    f.LockFailed? || f.Unreadable? || f.RemoveFailed? || (f.Removed? && !seen.touchRemoval.Answer?)
  }

  /** The unsigned total after subtracting: it wraps below zero. */
  function WrapSub(total: uint64, bytes: nat): uint64 {
    (total - bytes) % TWO_TO_THE_64
  }

  function Credited(available: Option<uint64>, bytes: nat): Option<uint64> {
    if available.Some? then Some(Capped(available.value + bytes)) else None
  }

  /** The tracked figures once `bytes` were removed, whatever the pieces. */
  function After(start: Tracked, bytes: nat, hadErrors: bool): Tracked {
    Tracked(WrapSub(start.total, bytes), Credited(start.available, bytes), Capped(start.reclaimed + bytes), hadErrors)
  }

  lemma AfterTwice(start: Tracked, first: nat, second: nat, e: bool, f: bool)
    ensures After(After(start, first, e), second, f) == After(start, first + second, f)
  {
    WrapTwice(start.total, first, second);
    CappedTwice(start.reclaimed + first, second);
    if start.available.Some? {
      CappedTwice(start.available.value + first, second);
    }
  }

  lemma WrapTwice(total: uint64, first: nat, second: nat)
    ensures WrapSub(WrapSub(total, first), second) == WrapSub(total, first + second)
  {
    var laps := (total - first) / TWO_TO_THE_64;
    assert WrapSub(total, first) == total - first - laps * TWO_TO_THE_64;
    LapsDoNotCount(total - first - second, laps);
  }

  lemma LapsDoNotCount(x: int, laps: int)
    ensures (x - laps * TWO_TO_THE_64) % TWO_TO_THE_64 == x % TWO_TO_THE_64
  {
    var q := x / TWO_TO_THE_64;
    assert x == q * TWO_TO_THE_64 + x % TWO_TO_THE_64;
    assert x - laps * TWO_TO_THE_64 == (q - laps) * TWO_TO_THE_64 + x % TWO_TO_THE_64;
  }

  function Tried(victim: Candidate, seen: Observation, before: Tracked): Tracked {
    After(before, if Evicted(victim, seen) then victim.size else 0, before.hadErrors || EvictionError(victim, seen))
  }

  method TryVictim(victim: Candidate, seen: Observation, before: Tracked) returns (t: Tracked, fate: Fate)
    ensures t == Tried(victim, seen, before) && fate == FateOf(victim, seen)
  {
    t := before;
    if !seen.lock.Acquired? {
      t := t.(hadErrors := t.hadErrors || !seen.lock.Contended?);
      return t, if seen.lock.Contended? then LockHeld else LockFailed;
    }
    if seen.regular != Answer(true) {
      t := t.(hadErrors := t.hadErrors || seen.regular.Failed?);
      return t, Obstacle(seen.regular);
    }
    if !seen.size.Answer? {
      t := t.(hadErrors := t.hadErrors || seen.size.Failed?);
      return t, Obstacle(seen.size);
    }
    if seen.size.value != victim.size {
      return t, Changed;
    }
    if !seen.stamp.Answer? {
      t := t.(hadErrors := t.hadErrors || seen.stamp.Failed?);
      return t, Obstacle(seen.stamp);
    }
    if seen.stamp.value != victim.stamp {
      return t, Changed;
    }
    if !seen.removal.Answer? {
      t := t.(hadErrors := t.hadErrors || seen.removal.Failed?);
      return t, if seen.removal.Failed? then RemoveFailed else Gone;
    }
    if !seen.removal.value {
      return t, Gone;
    }
    t := t.(total := if victim.size <= t.total then t.total - victim.size else t.total - victim.size + TWO_TO_THE_64);
    if t.available.Some? {
      t := t.(available := Some(SaturatedAdd(t.available.value, victim.size)));
    }
    t := t.(reclaimed := SaturatedAdd(t.reclaimed, victim.size));
    t := t.(hadErrors := t.hadErrors || !seen.touchRemoval.Answer?);
    fate := Removed;
  }

  // ---------- the eviction loop ----------

  function BytesOverTarget(total: uint64, available: Option<uint64>, policy: Policy): uint64 {
    var sizeExcess := if total > policy.maxTotalBytes then total - policy.maxTotalBytes else 0;
    var freeDeficit :=
      if available.Some? && available.value < policy.minFreeBytes then policy.minFreeBytes - available.value else 0;
    if sizeExcess >= freeDeficit then sizeExcess else freeDeficit
  }

  /** Bytes removed by the first `k` tries. */
  function RemovedBytes(victims: seq<Candidate>, seen: seq<Observation>, k: nat): nat
    requires k <= |victims| == |seen|
  {
    if k == 0 then 0
    else RemovedBytes(victims, seen, k - 1) + if Evicted(victims[k - 1], seen[k - 1]) then victims[k - 1].size else 0
  }

  lemma {:induction false} RemovedBytesBound(victims: seq<Candidate>, seen: seq<Observation>, k: nat)
    requires k <= |victims| == |seen|
    ensures RemovedBytes(victims, seen, k) <= TotalSize(victims[..k]) <= TotalSize(victims)
    decreases |victims|, k
  {
    if k == |victims| {
      assert victims[..k] == victims;
    } else {
      var last := |victims| - 1;
      assert victims[..last][..k] == victims[..k];
      RemovedBytesBound(victims[..last], seen[..last], k);
      SamePrefixRemoves(victims, seen, k);
    }
    if k > 0 {
      RemovedBytesBound(victims, seen, k - 1);
      assert victims[..k][..k - 1] == victims[..k - 1];
    }
  }

  lemma SamePrefixRemoves(victims: seq<Candidate>, seen: seq<Observation>, k: nat)
    requires k < |victims| == |seen|
    ensures RemovedBytes(victims, seen, k) == RemovedBytes(victims[..|victims| - 1], seen[..|seen| - 1], k)
  {
  }

  predicate OverTarget(start: Tracked, policy: Policy, removed: nat) {
    BytesOverTarget(WrapSub(start.total, removed), Credited(start.available, removed), policy) > 0
  }

  function Excess(t: Tracked, policy: Policy): uint64 {
    BytesOverTarget(t.total, t.available, policy)
  }

  /** The outcome of the eviction loop after `tried` tries from the figures `start`. */
  predicate EvictionEnded(victims: seq<Candidate>, seen: seq<Observation>, start: Tracked, policy: Policy,
                          tried: nat, result: CleanupResult)
    requires tried <= |victims| == |seen|
  {
    var removed := RemovedBytes(victims, seen, tried);
    && (forall k :: 0 <= k < tried ==> OverTarget(start, policy, RemovedBytes(victims, seen, k)))
    && (tried < |victims| ==> result.targetMet)
    && (result.targetMet <==> !OverTarget(start, policy, removed))
    && result.bytesHeldOverTarget ==
         BytesOverTarget(WrapSub(start.total, removed), Credited(start.available, removed), policy)
    && result.bytesReclaimed == Capped(start.reclaimed + removed)
    && (result.hadErrors <==> start.hadErrors || ErrorNoted(victims, seen, tried))
  }

  /** The tracked figures after `k` tries, try by try. */
  function TrackedAt(start: Tracked, victims: seq<Candidate>, seen: seq<Observation>, k: nat): Tracked
    requires k <= |victims| == |seen|
  {
    if k == 0 then start else Tried(victims[k - 1], seen[k - 1], TrackedAt(start, victims, seen, k - 1))
  }

  lemma {:induction false} TrackedAtIsAfter(start: Tracked, victims: seq<Candidate>, seen: seq<Observation>, k: nat)
    requires k <= |victims| == |seen|
    ensures TrackedAt(start, victims, seen, k) ==
            After(start, RemovedBytes(victims, seen, k), start.hadErrors || ErrorNoted(victims, seen, k))
  {
    if k > 0 {
      TrackedAtIsAfter(start, victims, seen, k - 1);
      var now := if Evicted(victims[k - 1], seen[k - 1]) then victims[k - 1].size else 0;
      AfterTwice(start, RemovedBytes(victims, seen, k - 1), now, start.hadErrors || ErrorNoted(victims, seen, k - 1),
                 start.hadErrors || ErrorNoted(victims, seen, k));
    }
  }

  predicate ErrorNoted(victims: seq<Candidate>, seen: seq<Observation>, k: nat)
    requires k <= |victims| == |seen|
    ensures ErrorNoted(victims, seen, k) <==> exists i :: 0 <= i < k && EvictionError(victims[i], seen[i])
  {
    k > 0 && (EvictionError(victims[k - 1], seen[k - 1]) || ErrorNoted(victims, seen, k - 1))
  }

  /** What became of the victims tried so far, in order. */
  predicate Trace(victims: seq<Candidate>, seen: seq<Observation>, fates: seq<Fate>)
    requires |victims| == |seen|
  {
    |fates| <= |victims| && forall k :: 0 <= k < |fates| ==> fates[k] == FateOf(victims[k], seen[k])
  }

  /** Tries the victims oldest first, each only while still over target, and stops at the first moment
      both budgets hold. Free space is asked for once, and only when a free-space budget is set. */
  method EvictUntilUnderBudget(victims: seq<Candidate>, scanned: uint64, space: Option<uint64>, policy: Policy,
                               before: CleanupResult, seen: seq<Observation>)
    returns (result: CleanupResult, fates: seq<Fate>)
    requires |seen| == |victims|
    ensures Trace(victims, seen, fates)
    ensures policy.minFreeBytes != 0 && space.None? ==>
              fates == [] && result == before.(targetMet := false, hadErrors := true)
    ensures policy.minFreeBytes == 0 || space.Some? ==>
              EvictionEnded(victims, seen, StartOf(scanned, space, policy, before), policy, |fates|, result)
    ensures result.bytesScanned == before.bytesScanned
  {
    fates := [];
    if policy.minFreeBytes != 0 && space.None? {
      result := before.(targetMet := false, hadErrors := true);
      return;
    }
    var t := StartOf(scanned, space, policy, before);
    ghost var start := t;
    while |fates| < |victims| && Excess(t, policy) != 0
      invariant Trace(victims, seen, fates)
      invariant t == TrackedAt(start, victims, seen, |fates|)
      invariant forall k :: 0 <= k < |fates| ==> Excess(TrackedAt(start, victims, seen, k), policy) > 0
    {
      var fate;
      t, fate := TryVictim(victims[|fates|], seen[|fates|], t);
      fates := fates + [fate];
    }
    var over := Excess(t, policy);
    result := CleanupResult(before.bytesScanned, t.reclaimed, over, over == 0, t.hadErrors);
    LoopEnds(start, victims, seen, policy, |fates|, t, result);
  }

  lemma OverTargetAt(start: Tracked, victims: seq<Candidate>, seen: seq<Observation>, policy: Policy, n: nat)
    requires n <= |victims| == |seen|
    ensures forall k :: 0 <= k <= n ==>
              (OverTarget(start, policy, RemovedBytes(victims, seen, k)) <==> Excess(TrackedAt(start, victims, seen, k), policy) > 0)
  {
    forall k | 0 <= k <= n
      ensures OverTarget(start, policy, RemovedBytes(victims, seen, k)) <==> Excess(TrackedAt(start, victims, seen, k), policy) > 0
    {
      TrackedAtIsAfter(start, victims, seen, k);
    }
  }

  lemma LoopEnds(start: Tracked, victims: seq<Candidate>, seen: seq<Observation>, policy: Policy, n: nat, t: Tracked,
                 result: CleanupResult)
    requires n <= |victims| == |seen| && t == TrackedAt(start, victims, seen, n)
    requires forall k :: 0 <= k < n ==> Excess(TrackedAt(start, victims, seen, k), policy) > 0
    requires n < |victims| ==> Excess(t, policy) == 0
    requires result.bytesReclaimed == t.reclaimed && result.bytesHeldOverTarget == Excess(t, policy)
    requires result.targetMet == (Excess(t, policy) == 0) && result.hadErrors == t.hadErrors
    ensures EvictionEnded(victims, seen, start, policy, n, result)
  {
    OverTargetAt(start, victims, seen, policy, n);
    TrackedAtIsAfter(start, victims, seen, n);
  }

  function StartOf(scanned: uint64, space: Option<uint64>, policy: Policy, before: CleanupResult): Tracked {
    Tracked(scanned, if policy.minFreeBytes != 0 then space else None, before.bytesReclaimed, before.hadErrors)
  }

  // ---------- what the loop promises ----------

  /** With sizes that sum below 2^64 the tracked total never wraps: at every moment it is the scanned
      total less what was removed. */
  lemma TrackedTotalIsExact(candidates: seq<Candidate>, victims: seq<Candidate>, seen: seq<Observation>, k: nat)
    requires IsStampOrder(victims, candidates) && TotalSize(candidates) <= UINT64_MAX
    requires k <= |victims| == |seen|
    ensures WrapSub(Capped(TotalSize(candidates)), RemovedBytes(victims, seen, k)) ==
            TotalSize(candidates) - RemovedBytes(victims, seen, k)
  {
    TotalSizeOfPermutation(victims, candidates);
    RemovedBytesBound(victims, seen, k);
  }

  /** At which moments the total is exact, whatever the sizes: always if they sum below 2^64; past that the scan has
      saturated, and only a sum one short of a multiple of 2^64 comes right again, once little enough is left. */
  lemma TrackedTotalIsExactWhen(candidates: seq<Candidate>, victims: seq<Candidate>, seen: seq<Observation>, k: nat)
    requires IsStampOrder(victims, candidates) && k <= |victims| == |seen|
    ensures WrapSub(Capped(TotalSize(candidates)), RemovedBytes(victims, seen, k)) ==
            TotalSize(candidates) - RemovedBytes(victims, seen, k)
            <==>
            || TotalSize(candidates) <= UINT64_MAX
            || (TotalSize(candidates) % TWO_TO_THE_64 == UINT64_MAX
                && TotalSize(candidates) - RemovedBytes(victims, seen, k) <= UINT64_MAX)
  {
    TotalSizeOfPermutation(victims, candidates);
    RemovedBytesBound(victims, seen, k);
    ExactWhen(TotalSize(candidates), RemovedBytes(victims, seen, k));
  }

  lemma ExactWhen(total: nat, removed: nat)
    requires removed <= total
    ensures WrapSub(Capped(total), removed) == total - removed <==>
            total <= UINT64_MAX || (total % TWO_TO_THE_64 == UINT64_MAX && total - removed <= UINT64_MAX)
  {
  }

  /** Some subtraction among the first `k` tries went below zero. */
  predicate Underflows(start: Tracked, victims: seq<Candidate>, seen: seq<Observation>, k: nat)
    requires k <= |victims| == |seen|
  {
    k > 0 && (Underflows(start, victims, seen, k - 1)
              || (Evicted(victims[k - 1], seen[k - 1]) && victims[k - 1].size > TrackedAt(start, victims, seen, k - 1).total))
  }

  /** The subtraction wraps by step `k` if and only if more has been removed than the total it started from. */
  lemma {:induction false} UnderflowsExactly(start: Tracked, victims: seq<Candidate>, seen: seq<Observation>, k: nat)
    requires k <= |victims| == |seen|
    ensures Underflows(start, victims, seen, k) <==> RemovedBytes(victims, seen, k) > start.total
  {
    if k > 0 {
      UnderflowsExactly(start, victims, seen, k - 1);
      TrackedAtIsAfter(start, victims, seen, k - 1);
    }
  }

  /** It does wrap, past that sum: three files of the largest size a file can have make the scan saturate, and when
      all three are removed the tracked total is above 2^63. */
  lemma TrackedTotalCanWrap(gone: Observation)
    requires Evicted(Candidate(0, INT64_MAX, 0), gone)
    ensures var victims := [Candidate(0, INT64_MAX, 0), Candidate(1, INT64_MAX, 0), Candidate(2, INT64_MAX, 0)];
            var seen := [gone, gone, gone];
            && TotalSize(victims) == RemovedBytes(victims, seen, 3) == 3 * INT64_MAX
            && WrapSub(Capped(TotalSize(victims)), RemovedBytes(victims, seen, 3)) == TWO_TO_THE_63 + 2
  {
    var victims := [Candidate(0, INT64_MAX, 0), Candidate(1, INT64_MAX, 0), Candidate(2, INT64_MAX, 0)];
    var seen := [gone, gone, gone];
    assert victims[..2] == [victims[0], victims[1]] && victims[..2][..1] == [victims[0]] && victims[..2][..1][..0] == [];
    assert TotalSize([victims[0]]) == INT64_MAX;
    assert TotalSize(victims[..2]) == 2 * INT64_MAX;
    assert RemovedBytes(victims, seen, 1) == INT64_MAX;
    assert RemovedBytes(victims, seen, 2) == 2 * INT64_MAX;
  }

  /** What an older file that is still there may be excused by. */
  predicate Excused(f: Fate) {
    f.Removed? || f.LockHeld? || f.Gone? || f.Changed? || f.Unreadable?
  }

  /** A victim that failed although nobody stood in the way: its lock or its removal gave an error. */
  predicate FailedOutright(victim: Candidate, seen: Observation) {
    seen.lock.LockError? || (Untouched(victim, seen) && seen.removal.Failed?)
  }

  predicate AllOlderExcused(victims: seq<Candidate>, fates: seq<Fate>, e: nat)
    requires e < |fates| <= |victims|
  {
    forall k :: 0 <= k < |victims| && victims[k].stamp < victims[e].stamp ==> k < e && Excused(fates[k])
  }

  /** When a victim was evicted, a budget was exceeded although everything removed before it was gone. */
  lemma EvictedOnlyWhenNeeded(candidates: seq<Candidate>, victims: seq<Candidate>, seen: seq<Observation>, start: Tracked,
                              policy: Policy, tried: nat, result: CleanupResult, e: nat)
    requires IsStampOrder(victims, candidates) && tried <= |victims| == |seen|
    requires EvictionEnded(victims, seen, start, policy, tried, result)
    requires e < tried && start.total == TotalSize(candidates)
    ensures || start.total - RemovedBytes(victims, seen, e) > policy.maxTotalBytes
            || (start.available.Some? && start.available.value + RemovedBytes(victims, seen, e) < policy.minFreeBytes)
  {
    TotalSizeOfPermutation(victims, candidates);
    RemovedBytesBound(victims, seen, e);
    TargetMetMeansBothBudgets(start, policy, RemovedBytes(victims, seen, e));
  }

  /** Oldest first. When a victim was evicted, every strictly older candidate had been tried. Each of these was removed,
      lock-held, or found changed, missing or unreadable if and only if none of them failed to be locked or removed;
      and if one did, an error is reported. */
  lemma OlderFaredFirst(candidates: seq<Candidate>, victims: seq<Candidate>, seen: seq<Observation>, start: Tracked,
                        policy: Policy, fates: seq<Fate>, result: CleanupResult, e: nat)
    requires IsStampOrder(victims, candidates) && |victims| == |seen| && Trace(victims, seen, fates)
    requires EvictionEnded(victims, seen, start, policy, |fates|, result)
    requires e < |fates| && fates[e].Removed?
    ensures forall c :: c in candidates && c.stamp < victims[e].stamp ==> exists k :: 0 <= k < e && victims[k] == c
    ensures AllOlderExcused(victims, fates, e) <==>
            forall k :: 0 <= k < |victims| && victims[k].stamp < victims[e].stamp ==> !FailedOutright(victims[k], seen[k])
    ensures !result.hadErrors ==> AllOlderExcused(victims, fates, e)
  {
    forall c | c in candidates && c.stamp < victims[e].stamp {
      OlderIsBefore(candidates, victims, c, e);
    }
    forall k | 0 <= k < |victims| && victims[k].stamp < victims[e].stamp {
      OlderFate(victims, seen, fates, e, k);
    }
    if k :| 0 <= k < |victims| && victims[k].stamp < victims[e].stamp && FailedOutright(victims[k], seen[k]) {
      assert ErrorNoted(victims, seen, |fates|);
    }
  }

  lemma OlderIsBefore(candidates: seq<Candidate>, victims: seq<Candidate>, c: Candidate, e: nat)
    requires IsStampOrder(victims, candidates) && e < |victims| && c in candidates && c.stamp < victims[e].stamp
    ensures exists k :: 0 <= k < e && victims[k] == c
  {
    assert c in multiset(victims);
    var k :| 0 <= k < |victims| && victims[k] == c;
    assert k < e;
  }

  lemma OlderFate(victims: seq<Candidate>, seen: seq<Observation>, fates: seq<Fate>, e: nat, k: nat)
    requires SortedByStamp(victims) && |victims| == |seen| && Trace(victims, seen, fates) && e < |fates|
    requires k < |victims| && victims[k].stamp < victims[e].stamp
    ensures k < e
    ensures Excused(fates[k]) <==> !FailedOutright(victims[k], seen[k])
    ensures FailedOutright(victims[k], seen[k]) ==> EvictionError(victims[k], seen[k])
  {
  }

  /** `targetMet` says exactly that both budgets hold on the tracked figures. */
  lemma TargetMetMeansBothBudgets(start: Tracked, policy: Policy, removed: nat)
    requires removed <= start.total
    ensures !OverTarget(start, policy, removed) <==>
              && start.total - removed <= policy.maxTotalBytes
              && (start.available.Some? ==> start.available.value + removed >= policy.minFreeBytes)
  {
  }

  // ---------- stale partials ----------

  /** Everything sweeping one stale partial may see, in the order it is asked. */
  datatype PartialSeen = PartialSeen(
    lock: LockAnswer,
    regular: Query<bool>,
    age: Query<int>,
    size: Option<uint64>,
    removal: Query<bool>)

  /** The partial is removed: nobody works on its identity, and it is still there and still old. */
  predicate Swept(p: PartialSeen, policy: Policy) {
    && p.lock.Acquired?
    && p.regular == Answer(true)
    && p.age.Answer? && p.age.value >= policy.orphanAge
    && p.removal == Answer(true)
  }

  /** What could not be locked, read or removed, unless it was simply missing. */
  predicate SweepError(p: PartialSeen, policy: Policy) {
    || p.lock.LockError?
    || (p.lock.Acquired? && p.regular.Failed?)
    || (p.lock.Acquired? && p.regular == Answer(true) && p.age.Failed?)
    || (p.lock.Acquired? && p.regular == Answer(true) && p.age.Answer? && p.age.value >= policy.orphanAge && p.removal.Failed?)
  }

  function SweptBytes(seen: seq<PartialSeen>, policy: Policy, n: nat): nat
    requires n <= |seen|
  {
    if n == 0 then 0
    else
      var p := seen[n - 1];
      SweptBytes(seen, policy, n - 1) + if Swept(p, policy) && p.size.Some? then p.size.value else 0
  }

  predicate SweepErrors(seen: seq<PartialSeen>, policy: Policy, n: nat)
    requires n <= |seen|
    ensures SweepErrors(seen, policy, n) <==> exists i :: 0 <= i < n && SweepError(seen[i], policy)
  {
    n > 0 && (SweepError(seen[n - 1], policy) || SweepErrors(seen, policy, n - 1))
  }

  /** The files that the sweep of the first `n` removes. */
  function SweptFiles(partials: seq<nat>, seen: seq<PartialSeen>, policy: Policy, n: nat): (files: seq<nat>)
    requires n <= |partials| == |seen|
    ensures forall f :: f in files <==> exists i :: 0 <= i < n && partials[i] == f && Swept(seen[i], policy)
  {
    if n == 0 then []
    else SweptFiles(partials, seen, policy, n - 1) + if Swept(seen[n - 1], policy) then [partials[n - 1]] else []
  }

  method SweepPartial(p: PartialSeen, policy: Policy, before: CleanupResult) returns (result: CleanupResult, removed: bool)
    ensures removed == Swept(p, policy)
    ensures result == before.(
                        bytesReclaimed := Capped(before.bytesReclaimed + if removed && p.size.Some? then p.size.value else 0),
                        hadErrors := before.hadErrors || SweepError(p, policy))
  {
    result, removed := before, false;
    if !p.lock.Acquired? {
      result := result.(hadErrors := result.hadErrors || !p.lock.Contended?);
      return;
    }
    if p.regular != Answer(true) {
      result := result.(hadErrors := result.hadErrors || p.regular.Failed?);
      return;
    }
    if !p.age.Answer? {
      result := result.(hadErrors := result.hadErrors || p.age.Failed?);
      return;
    }
    if p.age.value < policy.orphanAge {
      return;
    }
    result := result.(hadErrors := result.hadErrors || p.removal.Failed?);
    removed := p.removal == Answer(true);
    if removed && p.size.Some? {
      result := result.(bytesReclaimed := SaturatedAdd(result.bytesReclaimed, p.size.value));
    }
  }

  method RemoveStalePartials(partials: seq<nat>, policy: Policy, seen: seq<PartialSeen>, before: CleanupResult)
    returns (result: CleanupResult, removed: seq<nat>)
    requires |seen| == |partials|
    ensures removed == SweptFiles(partials, seen, policy, |seen|)
    ensures result == before.(bytesReclaimed := Capped(before.bytesReclaimed + SweptBytes(seen, policy, |seen|)),
                              hadErrors := before.hadErrors || SweepErrors(seen, policy, |seen|))
  {
    result, removed := before, [];
    for n := 0 to |seen|
      invariant removed == SweptFiles(partials, seen, policy, n)
      invariant result == before.(bytesReclaimed := Capped(before.bytesReclaimed + SweptBytes(seen, policy, n)),
                                  hadErrors := before.hadErrors || SweepErrors(seen, policy, n))
    {
      var gone;
      result, gone := SweepPartial(seen[n], policy, result);
      if gone {
        removed := removed + [partials[n]];
      }
    }
  }

  /** A partial is only ever removed when it was old in the scan, and then old again with its identity free. */
  lemma SweptWasStaleTwice(entries: seq<Entry>, policy: Policy, seen: seq<PartialSeen>, f: nat)
    requires |seen| == |StalePartialsOf(entries, policy)|
    requires f in SweptFiles(StalePartialsOf(entries, policy), seen, policy, |seen|)
    ensures exists e :: e in entries && e.file == f && IsStalePartial(e, policy)
    ensures exists i :: 0 <= i < |seen| && StalePartialsOf(entries, policy)[i] == f && Swept(seen[i], policy)
  {
    StaleWasSeen(entries, policy, f);
  }

  lemma {:induction false} StaleWasSeen(entries: seq<Entry>, policy: Policy, f: nat)
    ensures f in StalePartialsOf(entries, policy) <==> exists e :: e in entries && e.file == f && IsStalePartial(e, policy)
  {
    if entries != [] {
      var last := |entries| - 1;
      StaleWasSeen(entries[..last], policy, f);
      assert entries == entries[..last] + [entries[last]];
    }
  }

  // ---------- the whole of cleanup ----------

  datatype Root = NoRoot | RootMissing | RootUnusable | RootListed(entries: seq<Entry>, listingFailed: bool)

  function Above(a: nat, b: nat): nat {
    if a > b then a - b else 0
  }

  /** What a caller may read off the result of a cleanup that could ask everything it needed. */
  predicate Concluded(candidates: seq<Candidate>, victims: seq<Candidate>, seen: seq<Observation>, space: Option<uint64>,
                      policy: Policy, swept: nat, errorsBefore: bool, tried: nat, result: CleanupResult)
    requires tried <= |victims| == |seen| && (policy.minFreeBytes == 0 || space.Some?)
  {
    var removed := RemovedBytes(victims, seen, tried);
    && result.bytesReclaimed == Capped(swept + removed)
    && (result.hadErrors <==> errorsBefore || ErrorNoted(victims, seen, tried))
    && (result.targetMet <==> result.bytesHeldOverTarget == 0)
    // Not met: every candidate was tried.
    && (!result.targetMet ==> tried == |victims|)
    // Sizes that fit: what is held over target is what is left too much, or what is free too little.
    && (TotalSize(candidates) <= UINT64_MAX ==>
          result.bytesHeldOverTarget ==
          var tooMuch := Above(TotalSize(candidates), policy.maxTotalBytes + removed);
          var tooLittle := if policy.minFreeBytes != 0 then Above(policy.minFreeBytes, space.value + removed) else 0;
          if tooMuch >= tooLittle then tooMuch else tooLittle)
  }

  lemma EndedIsConcluded(candidates: seq<Candidate>, victims: seq<Candidate>, seen: seq<Observation>,
                         space: Option<uint64>, policy: Policy, swept: nat, before: CleanupResult, tried: nat,
                         result: CleanupResult)
    requires IsStampOrder(victims, candidates) && tried <= |victims| == |seen|
    requires policy.minFreeBytes == 0 || space.Some?
    requires before.bytesReclaimed == Capped(swept)
    requires EvictionEnded(victims, seen, StartOf(Capped(TotalSize(candidates)), space, policy, before), policy, tried, result)
    ensures Concluded(candidates, victims, seen, space, policy, swept, before.hadErrors, tried, result)
  {
    var removed := RemovedBytes(victims, seen, tried);
    CappedTwice(swept, removed);
    if TotalSize(candidates) <= UINT64_MAX {
      TotalSizeOfPermutation(victims, candidates);
      RemovedBytesBound(victims, seen, tried);
      HeldWithoutWrap(TotalSize(candidates), removed, if policy.minFreeBytes != 0 then space else None, policy);
    }
  }

  lemma HeldWithoutWrap(total: uint64, removed: nat, available: Option<uint64>, policy: Policy)
    requires removed <= total && (policy.minFreeBytes != 0 <==> available.Some?)
    ensures BytesOverTarget(WrapSub(total, removed), Credited(available, removed), policy) ==
            var tooMuch := Above(total, policy.maxTotalBytes + removed);
            var tooLittle := if policy.minFreeBytes != 0 then Above(policy.minFreeBytes, available.value + removed) else 0;
            if tooMuch >= tooLittle then tooMuch else tooLittle
  {
    assert WrapSub(total, removed) == total - removed;
  }

  method Cleanup(root: Root, space: Option<uint64>, policy: Policy, order: seq<Candidate> -> seq<Candidate>,
                 partialsSeen: seq<PartialSeen>, seen: seq<Observation>)
    returns (result: CleanupResult, swept: seq<nat>, fates: seq<Fate>)
    requires forall s :: IsStampOrder(order(s), s)
    requires root.RootListed? ==> |seen| == |order(CandidatesOf(root.entries))|
    requires root.RootListed? ==> |partialsSeen| == |StalePartialsOf(root.entries, policy)|
    ensures !root.RootListed? || root.listingFailed ==> swept == [] && fates == []
    ensures root.NoRoot? || root.RootMissing? ==> result == CleanupResult(0, 0, 0, true, false)
    ensures root.RootUnusable? ==>
              result == CleanupResult(0, 0, 0, policy.maxTotalBytes == UINT64_MAX && policy.minFreeBytes == 0, true)
    ensures root.RootListed? && root.listingFailed ==> result == CleanupResult(0, 0, 0, false, true)
    ensures root.RootListed? && !root.listingFailed ==>
              var candidates := CandidatesOf(root.entries);
              var freed := SweptBytes(partialsSeen, policy, |partialsSeen|);
              var errors := ScanErrors(root.entries, |root.entries|) || SweepErrors(partialsSeen, policy, |partialsSeen|);
              && swept == SweptFiles(StalePartialsOf(root.entries, policy), partialsSeen, policy, |partialsSeen|)
              && Trace(order(candidates), seen, fates)
              && result.bytesScanned == Capped(TotalSize(candidates))
              && (policy.minFreeBytes != 0 && space.None? ==>
                    fates == [] && result == CleanupResult(result.bytesScanned, Capped(freed), 0, false, true))
              && (policy.minFreeBytes == 0 || space.Some? ==>
                    Concluded(candidates, order(candidates), seen, space, policy, freed, errors, |fates|, result))
  {
    result, swept, fates := CleanupResult(0, 0, 0, true, false), [], [];
    if root.NoRoot? || root.RootMissing? {
      return;
    }
    if root.RootUnusable? {
      var hasBudget := policy.maxTotalBytes != UINT64_MAX || policy.minFreeBytes != 0;
      result := result.(targetMet := !hasBudget, hadErrors := true);
      return;
    }
    var candidates, stale, total, scanErrors := ScanRoot(root.entries, policy);
    result := result.(hadErrors := scanErrors);
    if root.listingFailed {
      result := result.(targetMet := false, hadErrors := true);
      return;
    }
    result := result.(bytesScanned := total);
    result, swept := RemoveStalePartials(stale, policy, partialsSeen, result);
    ghost var before := result;
    result, fates := EvictUntilUnderBudget(order(candidates), total, space, policy, result, seen);
    if policy.minFreeBytes == 0 || space.Some? {
      EndedIsConcluded(candidates, order(candidates), seen, space, policy,
                       SweptBytes(partialsSeen, policy, |partialsSeen|), before, |fates|, result);
    }
  }

  lemma CappedTwice(a: nat, b: nat)
    ensures Capped(Capped(a) + b) == Capped(a + b)
  {
  }
}

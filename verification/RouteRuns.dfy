/** Whole runs of resolutions and invalidations, while what probing gives changes at the invalidations. */
module RouteRuns {
  import opened Prelude
  import opened ParserClaimCatalog
  import opened ParserRouteResolver

  datatype Op =
    | ResolveOp(request: Request, entries: seq<Entry>, pins: Pins, lookup: Option<ConfigLookup>, sorter: Sorter, hasProbe: bool)
    | CatalogChanged(after: Probe)
    | PinsChanged(after: Probe)
    | ConfigChanged(providerId: string, after: Probe)

  datatype ProbeRecord = ProbeRecord(route: Route, key: Key)

  /** What the resolver knows, what probing would give now, and every probe since an invalidation that covers it. */
  datatype World = World(memory: Memory, probe: Probe, probes: seq<ProbeRecord>)

  function Records(route: Route, keys: seq<Key>): (r: seq<ProbeRecord>)
    ensures |r| == |keys| && forall i :: 0 <= i < |keys| ==> r[i] == ProbeRecord(route, keys[i])
  {
    seq(|keys|, i requires 0 <= i < |keys| => ProbeRecord(route, keys[i]))
  }

  function Uncovered(probes: seq<ProbeRecord>, providerId: string): (r: seq<ProbeRecord>)
    ensures forall p :: p in r <==> p in probes && p.key.id.providerId != providerId
  {
    if |probes| == 0 then []
    else (if probes[0].key.id.providerId == providerId then [] else [probes[0]]) + Uncovered(probes[1..], providerId)
  }

  function ResolvedBy(w: World, op: Op): Resolved
    requires op.ResolveOp?
  {
    Resolve(w.memory, if op.hasProbe then Some(w.probe) else None, op.request, op.entries, op.pins, op.lookup, op.sorter)
  }

  function Step(w: World, op: Op): World {
    match op
    case ResolveOp(request, _, _, _, _, _) =>
      var r := ResolvedBy(w, op);
      World(r.memory, w.probe, w.probes + Records(request.route, r.probed))
    case CatalogChanged(after) => World(NOTHING_KNOWN, after, [])
    case PinsChanged(after) => World(NOTHING_KNOWN, after, [])
    case ConfigChanged(providerId, after) =>
      World(Memory(DropProvider(w.memory.scalar, providerId), DropProvider(w.memory.objects, providerId), w.memory.reported),
            after, Uncovered(w.probes, providerId))
  }

  /** The probe outcome is a function of route and key as long as no invalidation covers the key. */
  ghost predicate Allowed(w: World, op: Op) {
    op.ConfigChanged? ==>
      forall route: Route, key: Key :: key.id.providerId != op.providerId ==> op.after(route, key) == w.probe(route, key)
  }

  ghost predicate RunAllowed(w: World, ops: seq<Op>)
    decreases |ops|
  {
    |ops| == 0 || (Allowed(w, ops[0]) && RunAllowed(Step(w, ops[0]), ops[1..]))
  }

  function RunAll(w: World, ops: seq<Op>): World
    decreases |ops|
  {
    if |ops| == 0 then w else RunAll(Step(w, ops[0]), ops[1..])
  }

  /** The answers of a run, one for each resolution. */
  function Answers(w: World, ops: seq<Op>): seq<Result<Resolution, ResolveError>>
    decreases |ops|
  {
    if |ops| == 0 then []
    else (if ops[0].ResolveOp? then [ResolvedBy(w, ops[0]).result] else []) + Answers(Step(w, ops[0]), ops[1..])
  }

  /** The answers a resolver without memory would give to the same run. */
  function AnswersUncached(probe: Probe, ops: seq<Op>): seq<Result<Resolution, ResolveError>>
    decreases |ops|
  {
    if |ops| == 0 then []
    else
      match ops[0]
      case ResolveOp(request, entries, pins, lookup, sorter, hasProbe) =>
        [ResolveUncached(if hasProbe then Some(probe) else None, request, entries, pins, lookup, sorter)] + AnswersUncached(probe, ops[1..])
      case CatalogChanged(after) => AnswersUncached(after, ops[1..])
      case PinsChanged(after) => AnswersUncached(after, ops[1..])
      case ConfigChanged(_, after) => AnswersUncached(after, ops[1..])
  }

  predicate NoRepeats(probes: seq<ProbeRecord>) {
    forall i, j :: 0 <= i < j < |probes| ==> probes[i] != probes[j]
  }

  ghost predicate RemembersProbes(w: World, route: Route) {
    forall key :: ProbeRecord(route, key) in w.probes ==> key in KeysOf(CacheOf(w.memory, route))
  }

  /** Both caches are sound for what probing gives now, and every probe still covered is remembered. */
  ghost predicate Inv(w: World) {
    && CacheSound(w.memory.scalar, w.probe, Scalar)
    && CacheSound(w.memory.objects, w.probe, Object)
    && RemembersProbes(w, Scalar) && RemembersProbes(w, Object)
    && NoRepeats(w.probes)
  }

  lemma {:induction false} DropKeepsSound(cache: seq<Cached>, before: Probe, after: Probe, route: Route, providerId: string)
    requires CacheSound(cache, before, route)
    requires forall key: Key :: key.id.providerId != providerId ==> after(route, key) == before(route, key)
    ensures CacheSound(DropProvider(cache, providerId), after, route)
  {
    if |cache| > 0 {
      forall i | 0 <= i < |cache| - 1 ensures cache[1..][i] == cache[i + 1] {
      }
      DropKeepsSound(cache[1..], before, after, route, providerId);
      var rest := DropProvider(cache[1..], providerId);
      forall i | 0 <= i < |rest| ensures rest[i].key != cache[0].key {
        assert rest[i] in cache[1..];
      }
    }
  }

  lemma {:induction false} UncoveredHasNoRepeats(probes: seq<ProbeRecord>, providerId: string)
    requires NoRepeats(probes)
    ensures NoRepeats(Uncovered(probes, providerId))
  {
    if |probes| > 0 {
      forall i | 0 <= i < |probes| - 1 ensures probes[1..][i] == probes[i + 1] {
      }
      UncoveredHasNoRepeats(probes[1..], providerId);
      var rest := Uncovered(probes[1..], providerId);
      forall i | 0 <= i < |rest| ensures rest[i] != probes[0] {
        assert rest[i] in probes[1..];
      }
    }
  }

  lemma KeyRemembered(cache: seq<Cached>, key: Key, providerId: string)
    requires key in KeysOf(cache) && key.id.providerId != providerId
    ensures key in KeysOf(DropProvider(cache, providerId))
  {
    var i :| 0 <= i < |cache| && cache[i].key == key;
    var kept := DropProvider(cache, providerId);
    assert cache[i] in kept;
    var j :| 0 <= j < |kept| && kept[j] == cache[i];
    assert KeysOf(kept)[j] == key;
  }

  /** Adding the probes of a walk: none of them was on record. */
  lemma NewProbesAreNew(probes: seq<ProbeRecord>, route: Route, before: seq<Key>, probed: seq<Key>)
    requires NoRepeats(probes)
    requires forall i, j :: 0 <= i < j < |before + probed| ==> (before + probed)[i] != (before + probed)[j]
    requires forall key :: ProbeRecord(route, key) in probes ==> key in before
    ensures NoRepeats(probes + Records(route, probed))
  {
    var all := probes + Records(route, probed);
    forall i, j | 0 <= i < j < |all| ensures all[i] != all[j] {
      if i < |probes| <= j {
        var key := probed[j - |probes|];
        forall x | 0 <= x < |before| ensures before[x] != key {
          assert (before + probed)[x] != (before + probed)[|before| + j - |probes|];
        }
        assert key !in before && all[j] == ProbeRecord(route, key);
      } else if i >= |probes| {
        assert (before + probed)[|before| + i - |probes|] != (before + probed)[|before| + j - |probes|];
      }
    }
  }

  lemma SoundKeysDiffer(cache: seq<Cached>, probe: Probe, route: Route)
    requires CacheSound(cache, probe, route)
    ensures forall i, j :: 0 <= i < j < |cache| ==> KeysOf(cache)[i] != KeysOf(cache)[j]
  {
  }

  /** One resolution answers as without memory. */
  lemma ResolveAnswers(w: World, op: Op)
    requires Inv(w) && op.ResolveOp?
    ensures ResolvedBy(w, op).result ==
            ResolveUncached(if op.hasProbe then Some(w.probe) else None, op.request, op.entries, op.pins, op.lookup, op.sorter)
  {
    var name := NormalizeTypeName(op.request.encoding, op.request.typeName);
    if op.hasProbe && name.Some? {
      var candidates := Ordered(op.entries, op.request, name.value, op.pins, op.sorter);
      WalkIsUncached(w.probe, candidates, op.request, name.value, op.lookup, CacheOf(w.memory, op.request.route));
    }
  }

  /** What a resolution must leave behind to keep the invariant. */
  ghost predicate CachesFollow(w: World, r: Resolved, route: Route) {
    && CacheSound(CacheOf(r.memory, route), w.probe, route)
    && KeysOf(CacheOf(r.memory, route)) == KeysOf(CacheOf(w.memory, route)) + r.probed
    && r.memory == WithCache(w.memory, route, CacheOf(r.memory, route)).(reported := r.memory.reported)
  }

  lemma ResolveCaches(w: World, op: Op)
    requires Inv(w) && op.ResolveOp?
    ensures CachesFollow(w, ResolvedBy(w, op), op.request.route)
  {
    var name := NormalizeTypeName(op.request.encoding, op.request.typeName);
    if op.hasProbe && name.Some? {
      var candidates := Ordered(op.entries, op.request, name.value, op.pins, op.sorter);
      WalkIsUncached(w.probe, candidates, op.request, name.value, op.lookup, CacheOf(w.memory, op.request.route));
    }
  }

  lemma CachesKeepInv(w: World, r: Resolved, route: Route)
    requires Inv(w) && CachesFollow(w, r, route)
    ensures Inv(World(r.memory, w.probe, w.probes + Records(route, r.probed)))
  {
    var before := KeysOf(CacheOf(w.memory, route));
    SoundKeysDiffer(CacheOf(r.memory, route), w.probe, route);
    NewProbesAreNew(w.probes, route, before, r.probed);
    RecordsRemembered(w.probes, route, before, r.probed);
  }

  lemma ResolveKeeps(w: World, op: Op)
    requires Inv(w) && op.ResolveOp?
    ensures Inv(Step(w, op))
  {
    ResolveCaches(w, op);
    CachesKeepInv(w, ResolvedBy(w, op), op.request.route);
  }

  lemma RecordsRemembered(probes: seq<ProbeRecord>, route: Route, before: seq<Key>, probed: seq<Key>)
    requires forall key :: ProbeRecord(route, key) in probes ==> key in before
    ensures forall key :: ProbeRecord(route, key) in probes + Records(route, probed) ==> key in before + probed
    ensures forall other: Route, key :: other != route && ProbeRecord(other, key) in probes + Records(route, probed) ==>
              ProbeRecord(other, key) in probes
  {
    var added := Records(route, probed);
    forall other: Route, key | ProbeRecord(other, key) in added ensures other == route && key in probed {
      var i :| 0 <= i < |added| && added[i] == ProbeRecord(other, key);
      assert probed[i] == key;
    }
  }

  lemma ConfigKeeps(w: World, op: Op)
    requires Inv(w) && op.ConfigChanged? && Allowed(w, op)
    ensures Inv(Step(w, op))
  {
    DropKeepsSound(w.memory.scalar, w.probe, op.after, Scalar, op.providerId);
    DropKeepsSound(w.memory.objects, w.probe, op.after, Object, op.providerId);
    UncoveredHasNoRepeats(w.probes, op.providerId);
    var after := Step(w, op);
    forall route: Route, key | ProbeRecord(route, key) in after.probes ensures key in KeysOf(CacheOf(after.memory, route)) {
      assert ProbeRecord(route, key) in w.probes;
      KeyRemembered(CacheOf(w.memory, route), key, op.providerId);
    }
  }

  lemma StepKeeps(w: World, op: Op)
    requires Inv(w) && Allowed(w, op)
    ensures Inv(Step(w, op))
  {
    match op
    case ResolveOp(_, _, _, _, _, _) => ResolveKeeps(w, op);
    case CatalogChanged(_) =>
    case PinsChanged(_) =>
    case ConfigChanged(_, _) => ConfigKeeps(w, op);
  }

  /** Over every run the cached resolver gives the answers of one that probes every time. */
  lemma {:induction false} CachedRefinesUncached(w: World, ops: seq<Op>)
    requires Inv(w) && RunAllowed(w, ops)
    ensures Answers(w, ops) == AnswersUncached(w.probe, ops)
    ensures Inv(RunAll(w, ops))
    decreases |ops|
  {
    if |ops| > 0 {
      StepKeeps(w, ops[0]);
      if ops[0].ResolveOp? {
        ResolveAnswers(w, ops[0]);
      }
      CachedRefinesUncached(Step(w, ops[0]), ops[1..]);
    }
  }

  /** From the start, no route and key is probed twice between invalidations that cover it. */
  lemma ProbedAtMostOnce(probe: Probe, ops: seq<Op>)
    requires RunAllowed(World(NOTHING_KNOWN, probe, []), ops)
    ensures NoRepeats(RunAll(World(NOTHING_KNOWN, probe, []), ops).probes)
    ensures Answers(World(NOTHING_KNOWN, probe, []), ops) == AnswersUncached(probe, ops)
  {
    CachedRefinesUncached(World(NOTHING_KNOWN, probe, []), ops);
  }
}

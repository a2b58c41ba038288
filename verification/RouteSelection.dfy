/** Catalog, ranking and cached resolver together: over whole sessions the best-ranked acceptor wins. */
module RouteSelection {
  import opened Prelude
  import opened ParserClaimCatalog
  import opened ParserRouteResolver
  import opened RouteRuns

  predicate IsAcceptor(probe: Probe, entries: seq<Entry>, request: Request, name: string, pin: Option<string>,
                    lookup: Option<ConfigLookup>, e: Entry)
  {
    e in entries && Matches(e.claim, request, name, pin) && Takes(probe, e, request, name, lookup)
  }

  /** Accepts, and precedes everyone else who does. */
  ghost predicate BestAcceptor(probe: Probe, entries: seq<Entry>, request: Request, name: string, pin: Option<string>,
                               lookup: Option<ConfigLookup>, e: Entry)
  {
    && IsAcceptor(probe, entries, request, name, pin, lookup, e)
    && forall other :: IsAcceptor(probe, entries, request, name, pin, lookup, other) && other != e ==> Precedes(e, other)
  }

  /** An answer as it should be: the best acceptor wins, and without a winner nobody accepts. A configuration that
      cannot be looked up is an error and no answer. */
  ghost predicate Rightly(probe: Probe, entries: seq<Entry>, request: Request, pins: Pins, lookup: Option<ConfigLookup>,
                          r: Result<Resolution, ResolveError>)
  {
    r.Ok? ==>
      var name := NormalizeTypeName(request.encoding, request.typeName);
      var pin := PinFor(pins, request.route);
      && name.Some?
      && (r.value.winner.Some? ==>
            exists e: Entry :: e.claim == r.value.winner.value && BestAcceptor(probe, entries, request, name.value, pin, lookup, e))
      && (r.value.winner.None? ==> forall e :: !IsAcceptor(probe, entries, request, name.value, pin, lookup, e))
  }

  lemma BestAcceptorIsUnique(probe: Probe, entries: seq<Entry>, request: Request, name: string, pin: Option<string>,
                             lookup: Option<ConfigLookup>, e: Entry, f: Entry)
    requires BestAcceptor(probe, entries, request, name, pin, lookup, e)
    requires BestAcceptor(probe, entries, request, name, pin, lookup, f)
    ensures e == f
  {
    PrecedesIsStrictOrder(e, f, e);
  }

  lemma {:induction false} NoWinnerMeansRefused(probe: Probe, candidates: seq<Entry>, request: Request, name: string,
                                               lookup: Option<ConfigLookup>)
    requires WalkUncached(probe, candidates, request, name, lookup).NoneAccepted?
    ensures forall e :: e in candidates ==> !Takes(probe, e, request, name, lookup)
    decreases |candidates|
  {
    if |candidates| > 0 {
      NoWinnerMeansRefused(probe, candidates[1..], request, name, lookup);
      assert candidates == [candidates[0]] + candidates[1..];
    }
  }

  lemma FirstAcceptorIsBest(probe: Probe, candidates: seq<Entry>, entries: seq<Entry>, request: Request, name: string,
                            pin: Option<string>, lookup: Option<ConfigLookup>)
    requires IsRanked(candidates) && forall e :: e in candidates <==> e in entries && Matches(e.claim, request, name, pin)
    requires WalkUncached(probe, candidates, request, name, lookup).Winner?
    ensures exists e: Entry :: e.claim == WalkUncached(probe, candidates, request, name, lookup).claim
                               && BestAcceptor(probe, entries, request, name, pin, lookup, e)
  {
    var i := WinnerIsFirstAcceptor(probe, candidates, request, name, lookup);
    forall other | IsAcceptor(probe, entries, request, name, pin, lookup, other) && other != candidates[i]
      ensures Precedes(candidates[i], other)
    {
      var j :| 0 <= j < |candidates| && candidates[j] == other;
      assert !Refuses(probe, other, request, name, lookup);
    }
    assert BestAcceptor(probe, entries, request, name, pin, lookup, candidates[i]);
  }

  /** Whatever the sort, the best acceptor of an ordered catalog wins. */
  lemma BestAcceptorWins(probe: Probe, entries: seq<Entry>, request: Request, pins: Pins, lookup: Option<ConfigLookup>, sorter: Sorter)
    requires CatalogOk(entries) && Sorts(sorter)
    ensures Rightly(probe, entries, request, pins, lookup, ResolveUncached(Some(probe), request, entries, pins, lookup, sorter))
  {
    var name := NormalizeTypeName(request.encoding, request.typeName);
    if name.Some? {
      var pin := PinFor(pins, request.route);
      var candidates := Ordered(entries, request, name.value, pins, sorter);
      AdmissionOrderIsIrrelevant(entries, entries, request, name.value, pin, candidates, candidates);
      var found := WalkUncached(probe, candidates, request, name.value, lookup);
      if found.Winner? {
        FirstAcceptorIsBest(probe, candidates, entries, request, name.value, pin, lookup);
      } else if found.NoneAccepted? {
        NoWinnerMeansRefused(probe, candidates, request, name.value, lookup);
      }
    }
  }

  /** The same claims admitted in another order, and another sort, give the same answer. */
  lemma AnswerIgnoresOrder(probe: Option<Probe>, a: seq<Entry>, b: seq<Entry>, request: Request, pins: Pins,
                           lookup: Option<ConfigLookup>, s: Sorter, t: Sorter)
    requires CatalogOk(a) && multiset(a) == multiset(b) && Sorts(s) && Sorts(t)
    ensures ResolveUncached(probe, request, a, pins, lookup, s) == ResolveUncached(probe, request, b, pins, lookup, t)
  {
    var name := NormalizeTypeName(request.encoding, request.typeName);
    if name.Some? {
      AdmissionOrderIsIrrelevant(a, b, request, name.value, PinFor(pins, request.route),
                                 Ordered(a, request, name.value, pins, s), Ordered(b, request, name.value, pins, t));
    }
  }

  // ---------- sessions ----------

  /** What a host does: it changes the catalog, the pins or a provider's configuration, each time telling the
      resolver, and asks. Probing may give something else after each change. */
  datatype Event =
    | ChangeCatalog(change: Change, after: Probe)
    | MovePins(after: Probe)
    | Reconfigure(providerId: string, after: Probe)
    | Ask(request: Request, pins: Pins, lookup: Option<ConfigLookup>, sorter: Sorter)

  /** The session as the resolver sees it: every question is about the catalog of that moment. */
  function OpsOf(c: Catalog, events: seq<Event>): seq<Op>
    decreases |events|
  {
    if |events| == 0 then []
    else
      match events[0]
      case ChangeCatalog(change, after) => [CatalogChanged(after)] + OpsOf(Apply(c, change), events[1..])
      case MovePins(after) => [PinsChanged(after)] + OpsOf(c, events[1..])
      case Reconfigure(providerId, after) => [ConfigChanged(providerId, after)] + OpsOf(c, events[1..])
      case Ask(request, pins, lookup, sorter) => [ResolveOp(request, c.entries, pins, lookup, sorter, true)] + OpsOf(c, events[1..])
  }

  ghost predicate AllSort(events: seq<Event>) {
    forall i :: 0 <= i < |events| && events[i].Ask? ==> Sorts(events[i].sorter)
  }

  /** Each answer is right for the catalog and the probe of its moment. */
  ghost predicate AllRightly(c: Catalog, probe: Probe, events: seq<Event>, answers: seq<Result<Resolution, ResolveError>>)
    decreases |events|
  {
    if |events| == 0 then answers == []
    else
      match events[0]
      case ChangeCatalog(change, after) => AllRightly(Apply(c, change), after, events[1..], answers)
      case MovePins(after) => AllRightly(c, after, events[1..], answers)
      case Reconfigure(_, after) => AllRightly(c, after, events[1..], answers)
      case Ask(request, pins, lookup, _) =>
        |answers| > 0 && Rightly(probe, c.entries, request, pins, lookup, answers[0]) && AllRightly(c, probe, events[1..], answers[1..])
  }

  lemma {:induction false} UncachedAnswersRightly(c: Catalog, probe: Probe, events: seq<Event>)
    requires CatalogOk(c.entries) && AllSort(events)
    ensures AllRightly(c, probe, events, AnswersUncached(probe, OpsOf(c, events)))
    decreases |events|
  {
    if |events| > 0 {
      var ops := OpsOf(c, events);
      match events[0]
      case ChangeCatalog(change, after) =>
        ApplyKeeps(c, change);
        assert ops[1..] == OpsOf(Apply(c, change), events[1..]);
        UncachedAnswersRightly(Apply(c, change), after, events[1..]);
      case MovePins(after) =>
        assert ops[1..] == OpsOf(c, events[1..]);
        UncachedAnswersRightly(c, after, events[1..]);
      case Reconfigure(_, after) =>
        assert ops[1..] == OpsOf(c, events[1..]);
        UncachedAnswersRightly(c, after, events[1..]);
      case Ask(request, pins, lookup, sorter) =>
        assert ops[1..] == OpsOf(c, events[1..]);
        UncachedAnswersRightly(c, probe, events[1..]);
        BestAcceptorWins(probe, c.entries, request, pins, lookup, sorter);
        FirstAnswer(probe, ops);
    }
  }

  lemma FirstAnswer(probe: Probe, ops: seq<Op>)
    requires |ops| > 0 && ops[0].ResolveOp? && ops[0].hasProbe
    ensures var answers := AnswersUncached(probe, ops);
            && |answers| > 0
            && answers[0] == ResolveUncached(Some(probe), ops[0].request, ops[0].entries, ops[0].pins, ops[0].lookup, ops[0].sorter)
            && answers[1..] == AnswersUncached(probe, ops[1..])
  {
  }

  /** In every session that starts with an empty catalog and an empty cache, whatever is admitted, removed, pinned,
      reconfigured and asked in whatever order, each answer of the caching resolver is right for its moment. */
  lemma SessionAnswersRightly(probe: Probe, events: seq<Event>)
    requires AllSort(events) && RunAllowed(World(NOTHING_KNOWN, probe, []), OpsOf(Catalog([], 0), events))
    ensures AllRightly(Catalog([], 0), probe, events, Answers(World(NOTHING_KNOWN, probe, []), OpsOf(Catalog([], 0), events)))
  {
    CachedRefinesUncached(World(NOTHING_KNOWN, probe, []), OpsOf(Catalog([], 0), events));
    UncachedAnswersRightly(Catalog([], 0), probe, events);
  }
}

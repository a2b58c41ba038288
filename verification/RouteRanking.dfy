/** What the resolver decides, in the words of the claims and the requests themselves. */
module RouteRanking {
  import opened Prelude
  import opened Orderings
  import opened ParserClaimCatalog
  import opened ParserRouteResolver
  import opened RouteSelection

  // ---------- the ranking ----------

  /** Which of two claims is asked first. */
  predicate Outranks(a: ParserClaim, b: ParserClaim) {
    if (a.typeName == "*") != (b.typeName == "*") then b.typeName == "*"
    else if a.provenance != b.provenance then a.provenance == Bundled || b.provenance == FolderDrop
    else if a.priority != b.priority then a.priority > b.priority
    else if a.providerId != b.providerId then Before(a.providerId, b.providerId)
    else Before(a.claimId, b.claimId)
  }

  lemma IdentityBefore(a: Identity, b: Identity)
    ensures CompareIdentity(a, b) == Less <==>
              if a.providerId != b.providerId then Before(a.providerId, b.providerId) else Before(a.claimId, b.claimId)
  {
    LexIsDictionary(a.providerId, b.providerId);
    LexIsDictionary(a.claimId, b.claimId);
    LexEqualIsSame(a.providerId, b.providerId);
  }

  /** An exact name goes before a wildcard, whatever else the claims say. */
  lemma ExactGoesFirst(a: Entry, b: Entry)
    requires a.claim.typeName != "*" && b.claim.typeName == "*"
    ensures Precedes(a, b) && !Precedes(b, a)
  {
  }

  /** Of two exact names or two wildcards, bundled goes before marketplace and marketplace before a dropped folder. */
  lemma BetterSourceGoesFirst(a: Entry, b: Entry)
    requires (a.claim.typeName == "*") == (b.claim.typeName == "*")
    requires (a.claim.provenance, b.claim.provenance) in {(Bundled, Marketplace), (Bundled, FolderDrop), (Marketplace, FolderDrop)}
    ensures Precedes(a, b) && !Precedes(b, a)
  {
  }

  /** From the same source the higher priority goes first. */
  lemma HigherPriorityGoesFirst(a: Entry, b: Entry)
    requires (a.claim.typeName == "*") == (b.claim.typeName == "*") && a.claim.provenance == b.claim.provenance
    requires a.claim.priority > b.claim.priority
    ensures Precedes(a, b) && !Precedes(b, a)
  {
  }

  /** At the same priority the provider and then the claim that comes first in a dictionary. */
  lemma SmallerIdentityGoesFirst(a: Entry, b: Entry)
    requires (a.claim.typeName == "*") == (b.claim.typeName == "*") && a.claim.provenance == b.claim.provenance
    requires a.claim.priority == b.claim.priority
    ensures Precedes(a, b) <==>
              if a.claim.providerId != b.claim.providerId then Before(a.claim.providerId, b.claim.providerId)
              else Before(a.claim.claimId, b.claim.claimId)
  {
    IdentityBefore(IdentityOf(a.claim), IdentityOf(b.claim));
  }

  lemma PrecedesIsOutranks(a: Entry, b: Entry)
    ensures Precedes(a, b) <==> Outranks(a.claim, b.claim)
  {
    IdentityBefore(IdentityOf(a.claim), IdentityOf(b.claim));
  }

  // ---------- which claims are asked ----------

  /** Bit 0 of the flags is the scalar route, bit 1 the object route. */
  predicate OffersRoute(flags: uint16, route: Route) {
    match route
    case Scalar => flags % 2 == 1
    case Object => flags / 2 % 2 == 1
  }

  /** A claim is left out for another encoding, for a route it does not offer, for a name that is neither its own nor any, for a
      schema it does not list, and for not being the pinned provider's; and for nothing else. */
  lemma LeftOutExactly(claim: ParserClaim, request: Request, name: string, pin: Option<string>)
    ensures !Matches(claim, request, name, pin) <==>
              || claim.encoding != request.encoding
              || !OffersRoute(claim.routeFlags, request.route)
              || claim.typeName !in {"*", name}
              || (claim.schemaDigests != {} && request.schemaDigest !in claim.schemaDigests)
              || pin !in {None, Some(claim.providerId)}
  {
  }

  /** The pin of one route is not asked for the other. */
  lemma PinOfRoute(scalarPin: Option<string>, objectPin: Option<string>)
    ensures PinFor(Pins(scalarPin, objectPin), Scalar) == scalarPin
    ensures PinFor(Pins(scalarPin, objectPin), Object) == objectPin
  {
  }

  // ---------- what is remembered ----------

  /** Two questions share a remembered answer exactly if they agree on the claim's identity, the generation it was admitted in, the
      encoding, the type, the schema and the configuration of its provider. */
  lemma KeysAgreeExactly(a: Entry, q: Request, m: string, c: Config, b: Entry, r: Request, n: string, d: Config)
    ensures KeyOf(a, q, m, c) == KeyOf(b, r, n, d) <==>
              && a.claim.providerId == b.claim.providerId && a.claim.claimId == b.claim.claimId && a.generation == b.generation
              && q.encoding == r.encoding && m == n && q.schemaDigest == r.schemaDigest && c.digest == d.digest
  {
  }

  /** An answer counts as what it says; an exception, and an answer that is none of the three, count as errors. */
  lemma AnswersSettle(answer: Answer)
    ensures Settle(answer) == Accept <==> answer == Accepts
    ensures Settle(answer) == Decline <==> answer == Declines
    ensures Settle(answer) == Error <==> answer in {Fails, Throws, OutOfRange}
  {
  }

  /** Without a lookup every configuration is empty; with one it is what the lookup gives for the provider. */
  lemma ConfigIsLookedUp(lookup: ConfigLookup, providerId: string)
    ensures ConfigOf(None, providerId) == Some(Config("", "")) && ConfigOf(Some(lookup), providerId) == lookup(providerId)
  {
  }

  // ---------- the winner ----------

  /** Its configuration is there, and probed with it the provider accepts. */
  predicate Accepting(probe: Probe, e: Entry, request: Request, name: string, lookup: Option<ConfigLookup>) {
    var config := if lookup.None? then Some(Config("", "")) else lookup.value(e.claim.providerId);
    && config.Some?
    && probe(request.route, Key(Identity(e.claim.providerId, e.claim.claimId), e.generation, request.encoding, name,
                                request.schemaDigest, config.value.digest)) == Accepts
  }

  /** In the catalog, not left out, and accepting. */
  predicate Contends(probe: Probe, entries: seq<Entry>, request: Request, name: string, pin: Option<string>,
                     lookup: Option<ConfigLookup>, e: Entry)
  {
    && e in entries && Accepting(probe, e, request, name, lookup)
    && e.claim.encoding == request.encoding && OffersRoute(e.claim.routeFlags, request.route)
    && e.claim.typeName in {"*", name}
    && (e.claim.schemaDigests == {} || request.schemaDigest in e.claim.schemaDigests)
    && pin in {None, Some(e.claim.providerId)}
  }

  lemma AcceptorContends(probe: Probe, entries: seq<Entry>, request: Request, name: string, pin: Option<string>,
                         lookup: Option<ConfigLookup>, e: Entry)
    ensures IsAcceptor(probe, entries, request, name, pin, lookup, e) <==> Contends(probe, entries, request, name, pin, lookup, e)
  {
    LeftOutExactly(e.claim, request, name, pin);
  }

  /** Nobody who contends outranks the winner: it outranks all the others. Without a winner nobody contends. */
  lemma NobodyOutranksWinner(probe: Probe, entries: seq<Entry>, request: Request, pins: Pins, lookup: Option<ConfigLookup>,
                             sorter: Sorter, name: string, other: Entry)
    requires CatalogOk(entries) && Sorts(sorter) && NormalizeTypeName(request.encoding, request.typeName) == Some(name)
    requires Contends(probe, entries, request, name, PinFor(pins, request.route), lookup, other)
    ensures var r := ResolveUncached(Some(probe), request, entries, pins, lookup, sorter);
            r.Ok? ==> r.value.winner.Some? && (r.value.winner.value == other.claim || Outranks(r.value.winner.value, other.claim))
  {
    var r := ResolveUncached(Some(probe), request, entries, pins, lookup, sorter);
    var pin := PinFor(pins, request.route);
    BestAcceptorWins(probe, entries, request, pins, lookup, sorter);
    AcceptorContends(probe, entries, request, name, pin, lookup, other);
    if r.Ok? && r.value.winner.Some? {
      var e: Entry :| e.claim == r.value.winner.value && BestAcceptor(probe, entries, request, name, pin, lookup, e);
      PrecedesIsOutranks(e, other);
    }
  }

  /** And the winner contends itself. */
  lemma WinnerContends(probe: Probe, entries: seq<Entry>, request: Request, pins: Pins, lookup: Option<ConfigLookup>,
                       sorter: Sorter)
    requires CatalogOk(entries) && Sorts(sorter)
    ensures var r := ResolveUncached(Some(probe), request, entries, pins, lookup, sorter);
            r.Ok? && r.value.winner.Some? ==>
              var name := NormalizeTypeName(request.encoding, request.typeName);
              && name.Some?
              && exists e: Entry :: e.claim == r.value.winner.value
                                    && Contends(probe, entries, request, name.value, PinFor(pins, request.route), lookup, e)
  {
    var r := ResolveUncached(Some(probe), request, entries, pins, lookup, sorter);
    BestAcceptorWins(probe, entries, request, pins, lookup, sorter);
    if r.Ok? && r.value.winner.Some? {
      var name := NormalizeTypeName(request.encoding, request.typeName).value;
      var pin := PinFor(pins, request.route);
      var e: Entry :| e.claim == r.value.winner.value && BestAcceptor(probe, entries, request, name, pin, lookup, e);
      AcceptorContends(probe, entries, request, name, pin, lookup, e);
    }
  }

  // ---------- without a winner ----------

  /** The status says why there is no winner, and all candidates are listed in the order in which they are asked. */
  predicate TellsWhy(r: Resolution, asked: seq<Entry>, pin: Option<string>) {
    && |r.ordered| == |asked|
    && (forall i :: 0 <= i < |asked| ==> r.ordered[i] == Identity(asked[i].claim.providerId, asked[i].claim.claimId))
    && (r.status == Selected <==> r.winner.Some?)
    && (r.status == NoCandidates <==> r.winner.None? && asked == [] && pin.None?)
    && (r.status == PinnedProviderUnavailable <==> r.winner.None? && asked == [] && pin.Some?)
    && (r.status == NoProviderAccepted <==> r.winner.None? && asked != [] && pin.None?)
    && (r.status == PinnedProviderRejected <==> r.winner.None? && asked != [] && pin.Some?)
  }

  lemma ConclusionTellsWhy(found: Found, asked: seq<Entry>, pin: Option<string>)
    requires found.Winner? ==> asked != []
    ensures Conclude(found, asked, pin).Ok? ==> TellsWhy(Conclude(found, asked, pin).value, asked, pin)
  {
  }

  /** Those asked are those not left out, each once, the higher ranked before the lower. */
  ghost predicate AreAsked(asked: seq<Entry>, entries: seq<Entry>, request: Request, name: string, pin: Option<string>) {
    && (forall e :: e in asked <==> e in entries && Matches(e.claim, request, name, pin))
    && forall i, j :: 0 <= i < j < |asked| ==> Outranks(asked[i].claim, asked[j].claim)
  }

  lemma StatusTellsWhy(probe: Probe, entries: seq<Entry>, request: Request, pins: Pins, lookup: Option<ConfigLookup>, sorter: Sorter)
    returns (asked: seq<Entry>)
    requires CatalogOk(entries) && Sorts(sorter)
    ensures var r := ResolveUncached(Some(probe), request, entries, pins, lookup, sorter);
            var name := NormalizeTypeName(request.encoding, request.typeName);
            r.Ok? ==>
              && name.Some?
              && AreAsked(asked, entries, request, name.value, PinFor(pins, request.route))
              && TellsWhy(r.value, asked, PinFor(pins, request.route))
  {
    var name := NormalizeTypeName(request.encoding, request.typeName);
    asked := [];
    if name.Some? {
      var pin := PinFor(pins, request.route);
      asked := Ordered(entries, request, name.value, pins, sorter);
      RankedAreAsked(asked, entries, request, name.value, pin);
      var found := WalkUncached(probe, asked, request, name.value, lookup);
      ConclusionTellsWhy(found, asked, pin);
    }
  }

  lemma RankedAreAsked(asked: seq<Entry>, entries: seq<Entry>, request: Request, name: string, pin: Option<string>)
    requires CatalogOk(entries) && IsSortOf(asked, Matching(entries, request, name, pin))
    ensures AreAsked(asked, entries, request, name, pin)
  {
    AdmissionOrderIsIrrelevant(entries, entries, request, name, pin, asked, asked);
    forall i, j | 0 <= i < j < |asked| ensures Outranks(asked[i].claim, asked[j].claim) {
      PrecedesIsOutranks(asked[i], asked[j]);
    }
  }

  /** The three errors: no probe, no proper type name, and a configuration that cannot be had, of a provider everybody before whom
      has refused. */
  lemma ErrorsTellWhy(probe: Option<Probe>, entries: seq<Entry>, request: Request, pins: Pins, lookup: Option<ConfigLookup>, sorter: Sorter)
    ensures var r := ResolveUncached(probe, request, entries, pins, lookup, sorter);
            var name := NormalizeTypeName(request.encoding, request.typeName);
            && (r == Err(NoProbe) <==> probe.None?)
            && (r == Err(BadTypeName) <==> probe.Some? && name.None?)
            && (r.Err? && r.error.ConfigFailed? ==>
                  && probe.Some? && name.Some? && lookup.Some? && lookup.value(r.error.providerId).None?
                  && var asked := Ordered(entries, request, name.value, pins, sorter);
                     exists i :: 0 <= i < |asked| && asked[i].claim.providerId == r.error.providerId
                                 && forall j :: 0 <= j < i ==> Refuses(probe.value, asked[j], request, name.value, lookup))
  {
    var name := NormalizeTypeName(request.encoding, request.typeName);
    if probe.Some? && name.Some? {
      var asked := Ordered(entries, request, name.value, pins, sorter);
      if WalkUncached(probe.value, asked, request, name.value, lookup).LookupFailed? {
        var i := FailsAfterRefusals(probe.value, asked, request, name.value, lookup);
      }
    }
  }

  lemma {:induction false} FailsAfterRefusals(probe: Probe, candidates: seq<Entry>, request: Request, name: string,
                                             lookup: Option<ConfigLookup>)
    returns (i: nat)
    requires WalkUncached(probe, candidates, request, name, lookup).LookupFailed?
    ensures i < |candidates| && lookup.Some? && lookup.value(candidates[i].claim.providerId).None?
    ensures candidates[i].claim.providerId == WalkUncached(probe, candidates, request, name, lookup).providerId
    ensures forall j :: 0 <= j < i ==> Refuses(probe, candidates[j], request, name, lookup)
    decreases |candidates|
  {
    if ConfigOf(lookup, candidates[0].claim.providerId).None? {
      i := 0;
    } else {
      i := FailsAfterRefusals(probe, candidates[1..], request, name, lookup);
      forall j | 0 <= j < i + 1 ensures Refuses(probe, candidates[j], request, name, lookup) {
        assert j > 0 ==> candidates[j] == candidates[1..][j - 1];
      }
      i := i + 1;
    }
  }

  // ---------- ambiguities ----------

  /** A tie: somebody else was asked about by name as the winner was, or as a wildcard too, from the same source and with the same
      priority, and lost by its identity alone. */
  lemma TiedExactly(candidates: seq<Entry>, winner: ParserClaim)
    ensures IsTied(candidates, winner) <==>
              exists i :: 0 <= i < |candidates| && LostByName(candidates[i].claim, winner)
  {
    forall i | 0 <= i < |candidates|
      ensures LostByName(candidates[i].claim, winner) <==>
              CompareIdentity(EntryIdentity(candidates[i]), IdentityOf(winner)) == Greater && SamePolicyRank(winner, candidates[i].claim)
    {
      IdentityBefore(IdentityOf(winner), EntryIdentity(candidates[i]));
      IdentityOrder(IdentityOf(winner), EntryIdentity(candidates[i]), IdentityOf(winner));
    }
  }

  predicate LostByName(loser: ParserClaim, winner: ParserClaim) {
    && (loser.typeName == "*" <==> winner.typeName == "*") && loser.provenance == winner.provenance && loser.priority == winner.priority
    && Outranks(winner, loser) && (loser.providerId != winner.providerId || loser.claimId != winner.claimId)
  }

  /** It is reported if it was not before, once, for this request and this winner; nothing else ever is. */
  lemma ReportedExactly(reported: seq<Ambiguity>, candidates: seq<Entry>, request: Request, name: string, found: Found, a: Ambiguity)
    ensures a in Report(reported, candidates, request, name, found) <==>
              || a in reported
              || (&& found.Winner? && IsTied(candidates, found.claim)
                  && a == Ambiguity(request.encoding, name, request.schemaDigest, request.route,
                                    Identity(found.claim.providerId, found.claim.claimId)))
    ensures a in reported ==> multiset(Report(reported, candidates, request, name, found))[a] == multiset(reported)[a]
    ensures multiset(Report(reported, candidates, request, name, found))[a] <= multiset(reported)[a] + 1
  {
  }
}

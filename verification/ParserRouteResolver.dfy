/** Route resolution: the ranking of the matching claims, the probing in rank order with its caches, and the
    proof that the caches never change an answer. */
module ParserRouteResolver {
  import opened Prelude
  import opened Orderings
  import opened ParserClaimCatalog

  // ---------- requests ----------

  datatype Route = Scalar | Object

  datatype Pins = Pins(scalarProvider: Option<string>, objectProvider: Option<string>)

  function PinFor(pins: Pins, route: Route): Option<string> {
    if route.Scalar? then pins.scalarProvider else pins.objectProvider
  }

  datatype Request = Request(encoding: string, typeName: string, schemaDigest: string, route: Route)

  predicate ServesRoute(flags: uint16, route: Route) {
    if route.Scalar? then flags % 2 == 1 else HasObjectRoute(flags)
  }

  /** The claim covers the request, whose normalised type name is `name`, and the pin allows its provider. */
  predicate Matches(claim: ParserClaim, request: Request, name: string, pin: Option<string>) {
    && claim.encoding == request.encoding && ServesRoute(claim.routeFlags, request.route)
    && (claim.typeName == "*" || claim.typeName == name)
    && (claim.schemaDigests == {} || request.schemaDigest in claim.schemaDigests)
    && (pin.Some? ==> claim.providerId == pin.value)
  }

  // ---------- rank ----------

  function Tier(provenance: Provenance): int {
    match provenance
    case FolderDrop => 0
    case Marketplace => 1
    case Bundled => 2
  }

  function CompareIdentity(a: Identity, b: Identity): Ordering {
    Then(CompareLex(a.providerId, b.providerId), CompareLex(a.claimId, b.claimId))
  }

  function IsExact(claim: ParserClaim): int {
    if claim.typeName != "*" then 1 else 0
  }

  /** Exact names before wildcards, higher tiers first, higher priorities first, then by identity. */
  function CompareRank(a: ParserClaim, b: ParserClaim): Ordering {
    Then(CompareInt(IsExact(b), IsExact(a)),
         Then(CompareInt(Tier(b.provenance), Tier(a.provenance)),
              Then(CompareInt(b.priority, a.priority), CompareIdentity(IdentityOf(a), IdentityOf(b)))))
  }

  predicate Precedes(a: Entry, b: Entry) {
    CompareRank(a.claim, b.claim) == Less
  }

  lemma IdentityOrder(a: Identity, b: Identity, c: Identity)
    ensures CompareIdentity(b, a) == Flip(CompareIdentity(a, b))
    ensures CompareIdentity(a, b) == Equal <==> a == b
    ensures CompareIdentity(a, b) == Less && CompareIdentity(b, c) == Less ==> CompareIdentity(a, c) == Less
  {
    LexFlips(a.providerId, b.providerId);
    LexFlips(a.claimId, b.claimId);
    LexEqualIsSame(a.providerId, b.providerId);
    LexEqualIsSame(a.claimId, b.claimId);
    LexEqualIsSame(b.providerId, c.providerId);
    LexEqualIsSame(b.claimId, c.claimId);
    if CompareIdentity(a, b) == Less && CompareIdentity(b, c) == Less {
      LexTransitive(a.providerId, b.providerId, c.providerId);
      if a.providerId == b.providerId == c.providerId {
        LexTransitive(a.claimId, b.claimId, c.claimId);
      }
    }
  }

  /** A strict order on entries, total on different identities. */
  lemma PrecedesIsStrictOrder(a: Entry, b: Entry, c: Entry)
    ensures !Precedes(a, a)
    ensures Precedes(a, b) ==> !Precedes(b, a)
    ensures EntryIdentity(a) != EntryIdentity(b) ==> Precedes(a, b) || Precedes(b, a)
    ensures Precedes(a, b) && Precedes(b, c) ==> Precedes(a, c)
  {
    IdentityOrder(EntryIdentity(a), EntryIdentity(a), EntryIdentity(a));
    IdentityOrder(EntryIdentity(a), EntryIdentity(b), EntryIdentity(c));
  }

  // ---------- the ordered candidates ----------

  function Matching(entries: seq<Entry>, request: Request, name: string, pin: Option<string>): (r: seq<Entry>)
    ensures forall e :: e in r <==> e in entries && Matches(e.claim, request, name, pin)
    ensures multiset(r) <= multiset(entries)
  {
    if |entries| == 0 then []
    else
      var rest := Matching(entries[..|entries| - 1], request, name, pin);
      var last := entries[|entries| - 1];
      assert entries == entries[..|entries| - 1] + [last];
      if Matches(last.claim, request, name, pin) then rest + [last] else rest
  }

  predicate IsRanked(s: seq<Entry>) {
    forall i, j :: 0 <= i < j < |s| ==> Precedes(s[i], s[j])
  }

  /** What std::sort promises: a permutation in which nothing stands before what precedes it. */
  ghost predicate IsSortOf(sorted: seq<Entry>, s: seq<Entry>) {
    multiset(sorted) == multiset(s) && forall i, j :: 0 <= i < j < |sorted| ==> !Precedes(sorted[j], sorted[i])
  }

  lemma {:induction false} MatchingKeepsUnique(entries: seq<Entry>, request: Request, name: string, pin: Option<string>)
    requires UniqueIdentities(entries)
    ensures UniqueIdentities(Matching(entries, request, name, pin))
  {
    if |entries| > 0 {
      var init := entries[..|entries| - 1];
      MatchingKeepsUnique(init, request, name, pin);
      var rest := Matching(init, request, name, pin);
      forall i | 0 <= i < |rest| ensures EntryIdentity(rest[i]) != EntryIdentity(entries[|entries| - 1]) {
        assert rest[i] in init;
      }
    }
  }

  lemma {:induction false} UniqueIsPermuted(s: seq<Entry>, t: seq<Entry>)
    requires UniqueIdentities(s) && multiset(s) == multiset(t)
    ensures UniqueIdentities(t)
  {
    forall i, j | 0 <= i < j < |t| ensures EntryIdentity(t[i]) != EntryIdentity(t[j]) {
      if EntryIdentity(t[i]) == EntryIdentity(t[j]) {
        assert t[i] in multiset(s) && t[j] in multiset(s);
        var x :| 0 <= x < |s| && s[x] == t[i];
        var y :| 0 <= y < |s| && s[y] == t[j];
        assert x == y;
        TwiceInMultiset(t, i, j);
        OnceInMultiset(s, x);
      }
    }
  }

  lemma TwiceInMultiset(t: seq<Entry>, i: nat, j: nat)
    requires i < j < |t| && t[i] == t[j]
    ensures multiset(t)[t[i]] >= 2
  {
    assert t == t[..j] + [t[j]] + t[j + 1..];
    assert t[i] in t[..j];
  }

  lemma OnceInMultiset(s: seq<Entry>, x: nat)
    requires x < |s| && UniqueIdentities(s)
    ensures multiset(s)[s[x]] == 1
  {
    assert s == s[..x] + [s[x]] + s[x + 1..];
    assert s[x] !in s[..x] && s[x] !in s[x + 1..];
  }

  lemma SortIsRanked(sorted: seq<Entry>, s: seq<Entry>)
    requires UniqueIdentities(s) && IsSortOf(sorted, s)
    ensures IsRanked(sorted)
  {
    UniqueIsPermuted(s, sorted);
    forall i, j | 0 <= i < j < |sorted| ensures Precedes(sorted[i], sorted[j]) {
      PrecedesIsStrictOrder(sorted[i], sorted[j], sorted[j]);
    }
  }

  /** Two rankings of the same entries are the same sequence. */
  lemma {:induction false} RankingIsUnique(s: seq<Entry>, t: seq<Entry>)
    requires IsRanked(s) && IsRanked(t) && multiset(s) == multiset(t)
    ensures s == t
    decreases |s|
  {
    assert |s| == |multiset(s)| == |multiset(t)| == |t|;
    if |s| > 0 {
      FirstsAgree(s, t);
      assert s == [s[0]] + s[1..] && t == [t[0]] + t[1..];
      assert multiset(s[1..]) == multiset(s) - multiset{s[0]} == multiset(t) - multiset{t[0]} == multiset(t[1..]);
      RankingIsUnique(s[1..], t[1..]);
    }
  }

  lemma FirstsAgree(s: seq<Entry>, t: seq<Entry>)
    requires IsRanked(s) && IsRanked(t) && multiset(s) == multiset(t) && |s| > 0 && |t| > 0
    ensures s[0] == t[0]
  {
    assert s[0] in multiset(t) && t[0] in multiset(s);
    var i :| 0 <= i < |t| && t[i] == s[0];
    var j :| 0 <= j < |s| && s[j] == t[0];
    if i > 0 {
      assert Precedes(t[0], t[i]);
      assert j > 0 ==> Precedes(s[0], s[j]);
      PrecedesIsStrictOrder(s[0], t[0], t[0]);
    }
  }

  lemma {:induction false} MatchingOfMultiset(a: seq<Entry>, b: seq<Entry>, request: Request, name: string, pin: Option<string>)
    requires multiset(a) == multiset(b) && UniqueIdentities(a)
    ensures multiset(Matching(a, request, name, pin)) == multiset(Matching(b, request, name, pin))
  {
    UniqueIsPermuted(a, b);
    MatchingKeepsUnique(a, request, name, pin);
    MatchingKeepsUnique(b, request, name, pin);
    var s, t := Matching(a, request, name, pin), Matching(b, request, name, pin);
    forall e ensures multiset(s)[e] == multiset(t)[e] {
      assert e in a <==> e in multiset(a);
      assert e in b <==> e in multiset(b);
      if e in s {
        var x :| 0 <= x < |s| && s[x] == e;
        var y :| 0 <= y < |t| && t[y] == e;
        OnceInMultiset(s, x);
        OnceInMultiset(t, y);
      }
    }
  }

  /** The candidates are exactly the matching claims in strict rank order, whatever order they were admitted
      in and whichever way the sort went about it. */
  lemma AdmissionOrderIsIrrelevant(a: seq<Entry>, b: seq<Entry>, request: Request, name: string, pin: Option<string>,
                                   s: seq<Entry>, t: seq<Entry>)
    requires CatalogOk(a) && multiset(a) == multiset(b)
    requires IsSortOf(s, Matching(a, request, name, pin)) && IsSortOf(t, Matching(b, request, name, pin))
    ensures s == t && IsRanked(s)
    ensures forall e :: e in s <==> e in a && Matches(e.claim, request, name, pin)
  {
    MatchingOfMultiset(a, b, request, name, pin);
    MatchingKeepsUnique(a, request, name, pin);
    UniqueIsPermuted(Matching(a, request, name, pin), Matching(b, request, name, pin));
    SortIsRanked(s, Matching(a, request, name, pin));
    SortIsRanked(t, Matching(b, request, name, pin));
    RankingIsUnique(s, t);
    forall e ensures e in s <==> e in Matching(a, request, name, pin) {
      assert e in s <==> e in multiset(s);
      assert e in Matching(a, request, name, pin) <==> e in multiset(Matching(a, request, name, pin));
    }
  }

  method CollectMatching(entries: seq<Entry>, request: Request, name: string, pin: Option<string>) returns (candidates: seq<Entry>)
    ensures candidates == Matching(entries, request, name, pin)
  {
    candidates := [];
    for i := 0 to |entries|
      invariant candidates == Matching(entries[..i], request, name, pin)
    {
      var claim := entries[i].claim;
      assert entries[..i + 1][..i] == entries[..i];
      if claim.encoding != request.encoding || !ServesRoute(claim.routeFlags, request.route) {
        continue;
      }
      if claim.typeName != "*" && claim.typeName != name {
        continue;
      }
      if claim.schemaDigests != {} && request.schemaDigest !in claim.schemaDigests {
        continue;
      }
      if pin.Some? && claim.providerId != pin.value {
        continue;
      }
      candidates := candidates + [entries[i]];
    }
    assert entries[..|entries|] == entries;
  }

  /** A sort, given as any function with the promise of std::sort. */
  type Sorter = seq<Entry> -> seq<Entry>

  ghost predicate Sorts(sorter: Sorter) {
    forall s :: IsSortOf(sorter(s), s)
  }

  function Ordered(entries: seq<Entry>, request: Request, name: string, pins: Pins, sorter: Sorter): seq<Entry> {
    sorter(Matching(entries, request, name, PinFor(pins, request.route)))
  }

  // ---------- probes and their cache ----------

  /** What a probe callback does; all but accepting and declining counts as a failure. */
  datatype Answer = Accepts | Declines | Fails | Throws | OutOfRange

  datatype Decision = Accept | Decline | Error

  function Settle(answer: Answer): Decision {
    match answer
    case Accepts => Accept
    case Declines => Decline
    case _ => Error
  }

  datatype Config = Config(json: string, digest: string)

  /** Looking up a provider's config may fail; without a lookup every config is empty. */
  type ConfigLookup = string -> Option<Config>

  function ConfigOf(lookup: Option<ConfigLookup>, providerId: string): Option<Config> {
    if lookup.None? then Some(Config("", "")) else lookup.value(providerId)
  }

  /** Under what a probe result is remembered. */
  datatype Key = Key(id: Identity, generation: nat, encoding: string, typeName: string, schemaDigest: string, configDigest: string)

  function KeyOf(candidate: Entry, request: Request, name: string, config: Config): Key {
    Key(EntryIdentity(candidate), candidate.generation, request.encoding, name, request.schemaDigest, config.digest)
  }

  /** What probing gives at this time, for each route and key. */
  type Probe = (Route, Key) -> Answer

  datatype Cached = Cached(key: Key, decision: Decision)

  function Lookup(cache: seq<Cached>, key: Key): Option<Decision> {
    if |cache| == 0 then None
    else if cache[0].key == key then Some(cache[0].decision)
    else Lookup(cache[1..], key)
  }

  method FindCached(cache: seq<Cached>, key: Key) returns (r: Option<Decision>)
    ensures r == Lookup(cache, key)
  {
    assert cache[0..] == cache;
    for i := 0 to |cache|
      invariant Lookup(cache[i..], key) == Lookup(cache, key)
    {
      assert cache[i..][0] == cache[i] && cache[i..][1..] == cache[i + 1..];
      if cache[i].key == key {
        return Some(cache[i].decision);
      }
    }
    r := None;
  }

  // ---------- resolving ----------

  datatype Status = Selected | NoCandidates | NoProviderAccepted | PinnedProviderUnavailable | PinnedProviderRejected

  datatype Resolution = Resolution(status: Status, winner: Option<ParserClaim>, ordered: seq<Identity>)

  datatype ResolveError = NoProbe | BadTypeName | ConfigFailed(providerId: string)

  datatype Found = Winner(claim: ParserClaim) | NoneAccepted | LookupFailed(providerId: string)

  /** The first acceptor in rank order when every candidate is probed. */
  function WalkUncached(probe: Probe, candidates: seq<Entry>, request: Request, name: string, lookup: Option<ConfigLookup>): Found
    decreases |candidates|
  {
    if |candidates| == 0 then NoneAccepted
    else
      var config := ConfigOf(lookup, candidates[0].claim.providerId);
      if config.None? then LookupFailed(candidates[0].claim.providerId)
      else if Settle(probe(request.route, KeyOf(candidates[0], request, name, config.value))).Accept? then Winner(candidates[0].claim)
      else WalkUncached(probe, candidates[1..], request, name, lookup)
  }

  datatype Walked = Walked(found: Found, cache: seq<Cached>, probed: seq<Key>)

  /** The same walk with a cache: what it finds, the cache after it, and the keys it did probe. */
  function Walk(probe: Probe, candidates: seq<Entry>, request: Request, name: string, lookup: Option<ConfigLookup>, cache: seq<Cached>): Walked
    decreases |candidates|
  {
    if |candidates| == 0 then Walked(NoneAccepted, cache, [])
    else
      var config := ConfigOf(lookup, candidates[0].claim.providerId);
      if config.None? then Walked(LookupFailed(candidates[0].claim.providerId), cache, [])
      else
        var key := KeyOf(candidates[0], request, name, config.value);
        var cached := Lookup(cache, key);
        var decision := if cached.Some? then cached.value else Settle(probe(request.route, key));
        var known := if cached.Some? then cache else cache + [Cached(key, decision)];
        var now := if cached.Some? then [] else [key];
        if decision.Accept? then Walked(Winner(candidates[0].claim), known, now)
        else
          var rest := Walk(probe, candidates[1..], request, name, lookup, known);
          Walked(rest.found, rest.cache, now + rest.probed)
  }

  /** One turn of the walk, from candidate `i` on. */
  lemma WalkNext(probe: Probe, candidates: seq<Entry>, i: nat, request: Request, name: string, lookup: Option<ConfigLookup>, cache: seq<Cached>)
    requires i < |candidates|
    ensures var w := Walk(probe, candidates[i..], request, name, lookup, cache);
            var config := ConfigOf(lookup, candidates[i].claim.providerId);
            if config.None? then w == Walked(LookupFailed(candidates[i].claim.providerId), cache, [])
            else
              var key := KeyOf(candidates[i], request, name, config.value);
              var cached := Lookup(cache, key);
              var decision := if cached.Some? then cached.value else Settle(probe(request.route, key));
              var known := if cached.Some? then cache else cache + [Cached(key, decision)];
              var now := if cached.Some? then [] else [key];
              var rest := Walk(probe, candidates[i + 1..], request, name, lookup, known);
              w == if decision.Accept? then Walked(Winner(candidates[i].claim), known, now)
                   else Walked(rest.found, rest.cache, now + rest.probed)
  {
    assert candidates[i..][0] == candidates[i] && candidates[i..][1..] == candidates[i + 1..];
  }

  function Conclude(found: Found, candidates: seq<Entry>, pin: Option<string>): Result<Resolution, ResolveError> {
    var ordered := seq(|candidates|, i requires 0 <= i < |candidates| => EntryIdentity(candidates[i]));
    match found
    case LookupFailed(providerId) => Err(ConfigFailed(providerId))
    case Winner(claim) => Ok(Resolution(Selected, Some(claim), ordered))
    case NoneAccepted =>
      if |candidates| == 0 then Ok(Resolution(if pin.Some? then PinnedProviderUnavailable else NoCandidates, None, ordered))
      else Ok(Resolution(if pin.Some? then PinnedProviderRejected else NoProviderAccepted, None, ordered))
  }

  /** A resolver that remembers nothing. */
  function ResolveUncached(probe: Option<Probe>, request: Request, entries: seq<Entry>, pins: Pins, lookup: Option<ConfigLookup>,
                           sorter: Sorter): Result<Resolution, ResolveError>
  {
    var name := NormalizeTypeName(request.encoding, request.typeName);
    if probe.None? then Err(NoProbe)
    else if name.None? then Err(BadTypeName)
    else
      var candidates := Ordered(entries, request, name.value, pins, sorter);
      Conclude(WalkUncached(probe.value, candidates, request, name.value, lookup), candidates, PinFor(pins, request.route))
  }

  // ---------- what a cache may hold ----------

  /** Every remembered decision is the one probing would give now, and no key is remembered twice. */
  ghost predicate CacheSound(cache: seq<Cached>, probe: Probe, route: Route) {
    && (forall i :: 0 <= i < |cache| ==> cache[i].decision == Settle(probe(route, cache[i].key)))
    && (forall i, j :: 0 <= i < j < |cache| ==> cache[i].key != cache[j].key)
  }

  lemma {:induction false} LookupFinds(cache: seq<Cached>, key: Key)
    ensures Lookup(cache, key).Some? <==> exists i :: 0 <= i < |cache| && cache[i].key == key
    ensures Lookup(cache, key).Some? ==> Cached(key, Lookup(cache, key).value) in cache
  {
    if |cache| > 0 {
      LookupFinds(cache[1..], key);
      if Lookup(cache[1..], key).Some? {
        var i :| 0 <= i < |cache[1..]| && cache[1..][i].key == key;
        assert cache[i + 1].key == key;
      }
      forall i | 0 < i < |cache| && cache[i].key == key ensures cache[1..][i - 1].key == key {
      }
    }
  }

  function KeysOf(cache: seq<Cached>): (keys: seq<Key>)
    ensures |keys| == |cache| && forall i :: 0 <= i < |cache| ==> keys[i] == cache[i].key
  {
    seq(|cache|, i requires 0 <= i < |cache| => cache[i].key)
  }

  lemma RememberingIsSound(cache: seq<Cached>, key: Key, probe: Probe, route: Route)
    requires CacheSound(cache, probe, route) && forall i :: 0 <= i < |cache| ==> cache[i].key != key
    ensures CacheSound(cache + [Cached(key, Settle(probe(route, key)))], probe, route)
    ensures KeysOf(cache + [Cached(key, Settle(probe(route, key)))]) == KeysOf(cache) + [key]
  {
  }

  /** What a walk over a sound cache comes to: what probing everyone finds, a sound cache, and in it exactly the
      keys it probed besides the known ones. */
  ghost predicate WalksAsUncached(probe: Probe, candidates: seq<Entry>, request: Request, name: string,
                                  lookup: Option<ConfigLookup>, cache: seq<Cached>)
  {
    var w := Walk(probe, candidates, request, name, lookup, cache);
    && w.found == WalkUncached(probe, candidates, request, name, lookup)
    && CacheSound(w.cache, probe, request.route)
    && KeysOf(w.cache) == KeysOf(cache) + w.probed
  }

  /** The first candidate's decision, and the cache with it. */
  lemma FirstDecision(probe: Probe, request: Request, key: Key, cache: seq<Cached>) returns (known: seq<Cached>, now: seq<Key>)
    requires CacheSound(cache, probe, request.route)
    ensures var cached := Lookup(cache, key);
            && known == (if cached.Some? then cache else cache + [Cached(key, Settle(probe(request.route, key)))])
            && now == (if cached.Some? then [] else [key])
            && (cached.Some? ==> cached.value == Settle(probe(request.route, key)))
    ensures CacheSound(known, probe, request.route) && KeysOf(known) == KeysOf(cache) + now
  {
    LookupFinds(cache, key);
    if Lookup(cache, key).Some? {
      known, now := cache, [];
    } else {
      known, now := cache + [Cached(key, Settle(probe(request.route, key)))], [key];
      RememberingIsSound(cache, key, probe, request.route);
    }
  }

  lemma {:induction false} WalkIsUncached(probe: Probe, candidates: seq<Entry>, request: Request, name: string,
                                         lookup: Option<ConfigLookup>, cache: seq<Cached>)
    requires CacheSound(cache, probe, request.route)
    ensures WalksAsUncached(probe, candidates, request, name, lookup, cache)
    decreases |candidates|
  {
    if |candidates| > 0 {
      var config := ConfigOf(lookup, candidates[0].claim.providerId);
      if config.Some? {
        var key := KeyOf(candidates[0], request, name, config.value);
        var known, now := FirstDecision(probe, request, key, cache);
        if !Settle(probe(request.route, key)).Accept? {
          WalkIsUncached(probe, candidates[1..], request, name, lookup, known);
          Regroup(KeysOf(cache), now, Walk(probe, candidates[1..], request, name, lookup, known).probed);
        }
      }
    }
  }

  /** The winner is the first acceptor in rank order, and a claim the pin allows. */
  lemma {:induction false} WinnerIsFirstAcceptor(probe: Probe, candidates: seq<Entry>, request: Request, name: string,
                                                lookup: Option<ConfigLookup>)
    returns (i: nat)
    requires WalkUncached(probe, candidates, request, name, lookup).Winner?
    ensures i < |candidates| && candidates[i].claim == WalkUncached(probe, candidates, request, name, lookup).claim
    ensures Takes(probe, candidates[i], request, name, lookup)
    ensures forall j :: 0 <= j < i ==> Refuses(probe, candidates[j], request, name, lookup)
    decreases |candidates|
  {
    if Takes(probe, candidates[0], request, name, lookup) {
      i := 0;
    } else {
      i := WinnerIsFirstAcceptor(probe, candidates[1..], request, name, lookup);
      forall j | 0 <= j < i + 1 ensures Refuses(probe, candidates[j], request, name, lookup) {
        assert j > 0 ==> candidates[j] == candidates[1..][j - 1];
      }
      i := i + 1;
    }
  }

  predicate Takes(probe: Probe, candidate: Entry, request: Request, name: string, lookup: Option<ConfigLookup>) {
    var config := ConfigOf(lookup, candidate.claim.providerId);
    config.Some? && Settle(probe(request.route, KeyOf(candidate, request, name, config.value))).Accept?
  }

  /** Was asked, and declined or failed. */
  predicate Refuses(probe: Probe, candidate: Entry, request: Request, name: string, lookup: Option<ConfigLookup>) {
    var config := ConfigOf(lookup, candidate.claim.providerId);
    config.Some? && !Settle(probe(request.route, KeyOf(candidate, request, name, config.value))).Accept?
  }

  /** With a pin nothing but the pinned provider is ever selected; without an acceptor nothing is. */
  lemma SelectionRespectsPin(probe: Probe, request: Request, entries: seq<Entry>, pins: Pins, lookup: Option<ConfigLookup>, sorter: Sorter)
    requires Sorts(sorter)
    ensures var r := ResolveUncached(Some(probe), request, entries, pins, lookup, sorter);
            r.Ok? && r.value.winner.Some? ==>
              PinFor(pins, request.route).Some? ==> r.value.winner.value.providerId == PinFor(pins, request.route).value
  {
    var r := ResolveUncached(Some(probe), request, entries, pins, lookup, sorter);
    if r.Ok? && r.value.winner.Some? {
      var name := NormalizeTypeName(request.encoding, request.typeName).value;
      var matching := Matching(entries, request, name, PinFor(pins, request.route));
      var candidates := Ordered(entries, request, name, pins, sorter);
      var i := WinnerIsFirstAcceptor(probe, candidates, request, name, lookup);
      assert IsSortOf(sorter(matching), matching);
      assert candidates[i] in multiset(candidates);
      assert candidates[i] in matching;
    }
  }

  // ---------- the resolver object ----------

  /** An ambiguity that was reported: the request and the winner. */
  datatype Ambiguity = Ambiguity(encoding: string, typeName: string, schemaDigest: string, route: Route, winner: Identity)

  datatype Memory = Memory(scalar: seq<Cached>, objects: seq<Cached>, reported: seq<Ambiguity>)

  const NOTHING_KNOWN := Memory([], [], [])

  function CacheOf(m: Memory, route: Route): seq<Cached> {
    if route.Scalar? then m.scalar else m.objects
  }

  function WithCache(m: Memory, route: Route, cache: seq<Cached>): Memory {
    if route.Scalar? then m.(scalar := cache) else m.(objects := cache)
  }

  predicate SamePolicyRank(a: ParserClaim, b: ParserClaim) {
    (a.typeName == "*") == (b.typeName == "*") && a.provenance == b.provenance && a.priority == b.priority
  }

  /** A candidate of the same rank lost to the winner by identity alone. */
  predicate IsTied(candidates: seq<Entry>, winner: ParserClaim) {
    exists i :: 0 <= i < |candidates| &&
      CompareIdentity(EntryIdentity(candidates[i]), IdentityOf(winner)) == Greater && SamePolicyRank(winner, candidates[i].claim)
  }

  function Report(reported: seq<Ambiguity>, candidates: seq<Entry>, request: Request, name: string, found: Found): seq<Ambiguity> {
    if !found.Winner? || !IsTied(candidates, found.claim) then reported
    else
      var ambiguity := Ambiguity(request.encoding, name, request.schemaDigest, request.route, IdentityOf(found.claim));
      if ambiguity in reported then reported else reported + [ambiguity]
  }

  datatype Resolved = Resolved(result: Result<Resolution, ResolveError>, memory: Memory, probed: seq<Key>)

  function Resolve(m: Memory, probe: Option<Probe>, request: Request, entries: seq<Entry>, pins: Pins,
                   lookup: Option<ConfigLookup>, sorter: Sorter): Resolved
  {
    var name := NormalizeTypeName(request.encoding, request.typeName);
    if probe.None? then Resolved(Err(NoProbe), m, [])
    else if name.None? then Resolved(Err(BadTypeName), m, [])
    else
      var candidates := Ordered(entries, request, name.value, pins, sorter);
      var w := Walk(probe.value, candidates, request, name.value, lookup, CacheOf(m, request.route));
      Resolved(Conclude(w.found, candidates, PinFor(pins, request.route)),
               WithCache(m, request.route, w.cache).(reported := Report(m.reported, candidates, request, name.value, w.found)),
               w.probed)
  }

  function DropProvider(cache: seq<Cached>, providerId: string): (r: seq<Cached>)
    ensures forall c :: c in r <==> c in cache && c.key.id.providerId != providerId
  {
    if |cache| == 0 then []
    else (if cache[0].key.id.providerId == providerId then [] else [cache[0]]) + DropProvider(cache[1..], providerId)
  }

  method EraseFromCache(cache: seq<Cached>, providerId: string) returns (kept: seq<Cached>)
    ensures kept == DropProvider(cache, providerId)
  {
    kept := [];
    assert cache[0..] == cache;
    for i := 0 to |cache|
      invariant kept + DropProvider(cache[i..], providerId) == DropProvider(cache, providerId)
    {
      DropNext(kept, cache, providerId, i);
      if cache[i].key.id.providerId != providerId {
        kept := kept + [cache[i]];
      }
    }
  }

  lemma DropNext(kept: seq<Cached>, cache: seq<Cached>, providerId: string, i: nat)
    requires i < |cache|
    ensures kept + DropProvider(cache[i..], providerId) ==
            (if cache[i].key.id.providerId == providerId then kept else kept + [cache[i]]) + DropProvider(cache[i + 1..], providerId)
  {
    assert cache[i..][0] == cache[i] && cache[i..][1..] == cache[i + 1..];
  }

  method FindTied(candidates: seq<Entry>, winner: ParserClaim) returns (tied: bool)
    ensures tied <==> IsTied(candidates, winner)
  {
    for i := 0 to |candidates|
      invariant forall j :: 0 <= j < i ==>
        !(CompareIdentity(EntryIdentity(candidates[j]), IdentityOf(winner)) == Greater && SamePolicyRank(winner, candidates[j].claim))
    {
      if CompareIdentity(EntryIdentity(candidates[i]), IdentityOf(winner)) == Greater && SamePolicyRank(winner, candidates[i].claim) {
        return true;
      }
    }
    tied := false;
  }

  class RouteResolver {
    var scalarCache: seq<Cached>
    var objectCache: seq<Cached>
    var reported: seq<Ambiguity>

    function Known(): Memory
      reads this
    {
      Memory(scalarCache, objectCache, reported)
    }

    constructor ()
      ensures Known() == NOTHING_KNOWN
    {
      scalarCache, objectCache, reported := [], [], [];
    }

    method Remember(route: Route, entry: Cached)
      modifies this
      ensures Known() == WithCache(old(Known()), route, CacheOf(old(Known()), route) + [entry])
    {
      if route.Scalar? {
        scalarCache := scalarCache + [entry];
      } else {
        objectCache := objectCache + [entry];
      }
    }

    /** Asks the cache first and remembers what it had to probe. */
    method Decide(probe: Probe, route: Route, key: Key) returns (decision: Decision, ghost probed: seq<Key>)
      modifies this
      ensures var cached := Lookup(CacheOf(old(Known()), route), key);
              && decision == (if cached.Some? then cached.value else Settle(probe(route, key)))
              && probed == (if cached.Some? then [] else [key])
              && Known() == if cached.Some? then old(Known())
                            else WithCache(old(Known()), route, CacheOf(old(Known()), route) + [Cached(key, decision)])
    {
      var cached := FindCached(if route.Scalar? then scalarCache else objectCache, key);
      if cached.Some? {
        decision, probed := cached.value, [];
      } else {
        decision, probed := Settle(probe(route, key)), [key];
        Remember(route, Cached(key, decision));
      }
    }

    /** The loop over the candidates in rank order. */
    method ProbeInOrder(probe: Probe, candidates: seq<Entry>, request: Request, name: string, lookup: Option<ConfigLookup>)
      returns (found: Found, ghost probed: seq<Key>)
      modifies this
      ensures var w := Walk(probe, candidates, request, name, lookup, CacheOf(old(Known()), request.route));
              found == w.found && probed == w.probed && Known() == WithCache(old(Known()), request.route, w.cache)
    {
      found, probed := NoneAccepted, [];
      ghost var start := Known();
      ghost var cache := CacheOf(start, request.route);
      ghost var whole := Walk(probe, candidates, request, name, lookup, cache);
      assert candidates[0..] == candidates;
      for i := 0 to |candidates|
        invariant Known() == WithCache(start, request.route, cache)
        invariant var rest := Walk(probe, candidates[i..], request, name, lookup, cache);
                  whole == Walked(rest.found, rest.cache, probed + rest.probed)
      {
        WalkNext(probe, candidates, i, request, name, lookup, cache);
        var config := ConfigOf(lookup, candidates[i].claim.providerId);
        if config.None? {
          return LookupFailed(candidates[i].claim.providerId), probed;
        }
        var decision;
        ghost var now;
        decision, now := Decide(probe, request.route, KeyOf(candidates[i], request, name, config.value));
        cache := CacheOf(Known(), request.route);
        if decision.Accept? {
          return Winner(candidates[i].claim), probed + now;
        }
        Regroup(probed, now, Walk(probe, candidates[i + 1..], request, name, lookup, cache).probed);
        probed := probed + now;
      }
    }

    method ResolveRoute(probe: Option<Probe>, request: Request, entries: seq<Entry>, pins: Pins,
                        lookup: Option<ConfigLookup>, sorter: Sorter)
      returns (result: Result<Resolution, ResolveError>, ghost probed: seq<Key>)
      modifies this
      ensures Resolved(result, Known(), probed) == Resolve(old(Known()), probe, request, entries, pins, lookup, sorter)
    {
      probed := [];
      if probe.None? {
        return Err(NoProbe), probed;
      }
      var normalized := NormalizeTypeName(request.encoding, request.typeName);
      if normalized.None? {
        return Err(BadTypeName), probed;
      }
      var name, pin := normalized.value, PinFor(pins, request.route);
      var matching := CollectMatching(entries, request, name, pin);
      var candidates := sorter(matching);
      var found;
      found, probed := ProbeInOrder(probe.value, candidates, request, name, lookup);
      if found.Winner? {
        var tied := FindTied(candidates, found.claim);
        if tied {
          var ambiguity := Ambiguity(request.encoding, name, request.schemaDigest, request.route, IdentityOf(found.claim));
          if ambiguity !in reported {
            reported := reported + [ambiguity];
          }
        }
      }
      result := Conclude(found, candidates, pin);
    }

    /** A change of the catalog or of the pins forgets everything. */
    method ClearAll()
      modifies this
      ensures Known() == NOTHING_KNOWN
    {
      scalarCache, objectCache, reported := [], [], [];
    }

    method InvalidateProviderConfig(providerId: string)
      modifies this
      ensures Known() == Memory(DropProvider(old(scalarCache), providerId), DropProvider(old(objectCache), providerId), old(reported))
    {
      scalarCache := EraseFromCache(scalarCache, providerId);
      objectCache := EraseFromCache(objectCache, providerId);
    }
  }
}

/** The catalog of parser claims: type-name normalisation, validation, and admission of whole batches. Claims
    arrive already decoded. */
module ParserClaimCatalog {
  import opened Prelude
  import opened Strings

  // ---------- type names ----------

  const ENCODINGS: seq<string> :=
    ["bson", "cbor", "data_tamer", "json", "msgpack", "omgidl", "protobuf", "ros1", "ros1msg", "ros2", "ros2msg"]

  predicate IsRegistered(encoding: string) {
    encoding in ENCODINGS
  }

  predicate IsIdentifierStart(c: char) {
    'A' <= c <= 'Z' || 'a' <= c <= 'z' || c == '_'
  }

  predicate IsIdentifierContinuation(c: char) {
    IsIdentifierStart(c) || '0' <= c <= '9'
  }

  predicate IsComponent(s: string) {
    |s| > 0 && IsIdentifierStart(s[0]) && forall i :: 1 <= i < |s| ==> IsIdentifierContinuation(s[i])
  }

  /** Identifiers between dots. */
  predicate IsProtobufFullName(name: string) {
    AllComponents(Split(name))
  }

  /** The loop over the components; an empty name, or one that ends in a dot, has no last component. */
  method CheckProtobufFullName(name: string) returns (ok: bool)
    ensures ok <==> IsProtobufFullName(name)
  {
    var start := 0;
    ghost var done: seq<string> := [];
    ghost var whole := Split(name);
    assert name[0..] == name;
    while start < |name|
      invariant start <= |name| && done + Split(name[start..]) == whole
      invariant AllComponents(done)
      decreases |name| - start
    {
      var end := Find(name, '.', start);
      NextPart(name, start, end);
      var component := name[start..end];
      if !IsComponent(component) {
        NotAllComponents(done, Split(name[start..]));
        return false;
      }
      OneMoreComponent(done, component);
      if end == |name| {
        return true;
      }
      start := end + 1;
      Regroup(done, [component], Split(name[start..]));
      done := done + [component];
    }
    assert Split(name[start..]) == [""];
    NotAllComponents(done, [""]);
    ok := false;
  }

  predicate AllComponents(parts: seq<string>) {
    forall part :: part in parts ==> IsComponent(part)
  }

  lemma NotAllComponents(done: seq<string>, rest: seq<string>)
    requires |rest| > 0 && !IsComponent(rest[0])
    ensures !AllComponents(done + rest)
  {
    assert (done + rest)[|done|] == rest[0];
  }

  lemma OneMoreComponent(parts: seq<string>, part: string)
    requires AllComponents(parts) && IsComponent(part)
    ensures AllComponents(parts + [part])
  {
  }

  /** pkg/Type becomes pkg/msg/Type; pkg/msg/Type stays. */
  function NormalizeRos2(t: string): Option<string> {
    var first := Find(t, '/', 0);
    if first == |t| || first == 0 || first + 1 == |t| then None
    else
      var second := Find(t, '/', first + 1);
      if second == |t| then Some(t[..first] + "/msg/" + t[first + 1..])
      else if t[first + 1..second] != "msg" || second + 1 == |t| || Find(t, '/', second + 1) < |t| then None
      else Some(t)
  }

  function NormalizeProtobuf(t: string): Option<string>
    requires |t| > 0
  {
    var name := if t[0] == '.' then t[1..] else t;
    if IsProtobufFullName(name) then Some(name) else None
  }

  function NormalizeTypeName(encoding: string, t: string): Option<string> {
    if !IsRegistered(encoding) || |t| == 0 then None
    else if t == "*" then Some(t)
    else if encoding == "ros2msg" then NormalizeRos2(t)
    else if encoding == "protobuf" then NormalizeProtobuf(t)
    else Some(t)
  }

  /** A ros2msg name between its slashes. */
  predicate IsRosPart(s: string) {
    |s| > 0 && '/' !in s
  }

  lemma LongRosForm(pkg: string, name: string)
    requires IsRosPart(pkg) && IsRosPart(name)
    ensures NormalizeRos2(pkg + "/msg/" + name) == Some(pkg + "/msg/" + name)
  {
    var t := pkg + "/msg/" + name;
    FindSkips(t, '/', 0, |pkg|);
    FindSkips(t, '/', |pkg| + 1, |pkg| + 4);
    assert t[|pkg| + 1..|pkg| + 4] == "msg";
    FindSkips(t, '/', |pkg| + 5, |t|);
  }

  /** Both spellings of a ros2msg type normalise to the long one. */
  lemma RosSpellingsAgree(pkg: string, name: string)
    requires IsRosPart(pkg) && IsRosPart(name)
    ensures NormalizeRos2(pkg + "/" + name) == NormalizeRos2(pkg + "/msg/" + name) == Some(pkg + "/msg/" + name)
  {
    LongRosForm(pkg, name);
    var t := pkg + "/" + name;
    FindSkips(t, '/', 0, |pkg|);
    FindSkips(t, '/', |pkg| + 1, |t|);
    assert t[..|pkg|] == pkg && t[|pkg| + 1..] == name;
  }

  /** Whatever ros2msg name is accepted has the long form. */
  lemma RosNamesAreLong(t: string) returns (pkg: string, name: string)
    requires NormalizeRos2(t).Some?
    ensures IsRosPart(pkg) && IsRosPart(name) && NormalizeRos2(t).value == pkg + "/msg/" + name
  {
    var first := Find(t, '/', 0);
    var second := Find(t, '/', first + 1);
    pkg := t[..first];
    if second == |t| {
      name := t[first + 1..];
    } else {
      name := t[second + 1..];
      assert t == t[..first] + "/" + t[first + 1..second] + "/" + t[second + 1..];
    }
  }

  lemma ProtobufNameIsFixed(t: string)
    requires |t| > 0 && NormalizeProtobuf(t).Some?
    ensures var name := NormalizeProtobuf(t).value; |name| > 0 && name[0] != '.' && NormalizeProtobuf(name) == Some(name)
  {
    var name := NormalizeProtobuf(t).value;
    var dot := Find(name, '.', 0);
    assert Split(name)[0] == name[..dot];
    assert IsComponent(Split(name)[0]);
  }

  /** Every name that normalisation gives is a fixed point of it. */
  lemma NormalizedIsFixed(encoding: string, t: string)
    requires NormalizeTypeName(encoding, t).Some?
    ensures var name := NormalizeTypeName(encoding, t).value; NormalizeTypeName(encoding, name) == Some(name)
  {
    if t != "*" && encoding == "ros2msg" {
      var pkg, name := RosNamesAreLong(t);
      LongRosForm(pkg, name);
    } else if t != "*" && encoding == "protobuf" {
      ProtobufNameIsFixed(t);
    }
  }

  // ---------- claims ----------

  datatype Provenance = FolderDrop | Marketplace | Bundled

  const OBJECT_FLAG: uint16 := 2

  datatype ParserClaim = ParserClaim(
    encoding: string,
    typeName: string,
    routeFlags: uint16,
    objectType: Option<uint16>,
    schemaDigests: set<string>,
    providerId: string,
    claimId: string,
    priority: int32,
    provenance: Provenance)

  datatype Identity = Identity(providerId: string, claimId: string)

  function IdentityOf(claim: ParserClaim): Identity {
    Identity(claim.providerId, claim.claimId)
  }

  /** The builtin object types that have a name of their own; 2 and 12 are not assigned. */
  predicate IsKnownObjectType(code: uint16) {
    code == 1 || 3 <= code <= 11 || 13 <= code <= 20
  }

  predicate IsHex(c: char) {
    '0' <= c <= '9' || 'a' <= c <= 'f' || 'A' <= c <= 'F'
  }

  predicate IsSchemaDigest(s: string) {
    |s| == 71 && s[..7] == "sha256:" && forall i :: 7 <= i < 71 ==> IsHex(s[i])
  }

  /** Flag bits 1 and 2 only, at least one of them. */
  predicate AreRouteFlags(flags: uint16) {
    1 <= flags <= 3
  }

  predicate HasObjectRoute(flags: uint16) {
    flags / OBJECT_FLAG % 2 == 1
  }

  function ValidateClaim(claim: ParserClaim): Option<ParserClaim> {
    var name := NormalizeTypeName(claim.encoding, claim.typeName);
    if |claim.providerId| == 0 || |claim.claimId| == 0 || claim.priority < -1000 || claim.priority > 1000 || name.None? then None
    else
      var normalized := claim.(typeName := name.value);
      if !AreRouteFlags(claim.routeFlags) then None
      else if name.value == "*" && HasObjectRoute(claim.routeFlags) then None
      else if HasObjectRoute(claim.routeFlags) != claim.objectType.Some? then None
      else if claim.objectType.Some? && !IsKnownObjectType(claim.objectType.value) then None
      else if exists digest :: digest in claim.schemaDigests && !IsSchemaDigest(digest) then None
      else Some(normalized)
  }

  /** An admitted claim: validation would leave it as it is. */
  predicate IsValidated(claim: ParserClaim) {
    ValidateClaim(claim) == Some(claim)
  }

  lemma ValidationSettles(claim: ParserClaim)
    requires ValidateClaim(claim).Some?
    ensures IsValidated(ValidateClaim(claim).value)
  {
    NormalizedIsFixed(claim.encoding, claim.typeName);
  }

  // ---------- the catalog ----------

  datatype Entry = Entry(claim: ParserClaim, generation: nat)

  function EntryIdentity(e: Entry): Identity {
    IdentityOf(e.claim)
  }

  predicate UniqueIdentities(entries: seq<Entry>) {
    forall i, j :: 0 <= i < j < |entries| ==> EntryIdentity(entries[i]) != EntryIdentity(entries[j])
  }

  /** What every reachable catalog keeps: one claim an identity, each with a normalised type name. */
  predicate CatalogOk(entries: seq<Entry>) {
    UniqueIdentities(entries) && forall e :: e in entries ==> IsValidated(e.claim)
  }

  predicate HasIdentity(entries: seq<Entry>, id: Identity) {
    exists i :: 0 <= i < |entries| && EntryIdentity(entries[i]) == id
  }

  /** The entries with the whole batch added, or nothing if one claim of it is invalid or a duplicate. */
  function Admit(entries: seq<Entry>, batch: seq<ParserClaim>, provenance: Provenance, generation: nat): Option<seq<Entry>>
    decreases |batch|
  {
    if |batch| == 0 then Some(entries)
    else
      var claim := ValidateClaim(batch[0].(provenance := provenance));
      if claim.None? || HasIdentity(entries, IdentityOf(claim.value)) then None
      else Admit(entries + [Entry(claim.value, generation)], batch[1..], provenance, generation)
  }

  lemma {:induction false} AdmitKeeps(entries: seq<Entry>, batch: seq<ParserClaim>, provenance: Provenance, generation: nat)
    requires CatalogOk(entries) && Admit(entries, batch, provenance, generation).Some?
    ensures var after := Admit(entries, batch, provenance, generation).value;
            CatalogOk(after) && entries <= after && |after| == |entries| + |batch|
    decreases |batch|
  {
    if |batch| > 0 {
      ValidationSettles(batch[0].(provenance := provenance));
      var claim := ValidateClaim(batch[0].(provenance := provenance)).value;
      AdmitKeeps(entries + [Entry(claim, generation)], batch[1..], provenance, generation);
    }
  }

  /** Which claim of a batch lands where: in order, validated, with the host's provenance and generation. */
  lemma {:induction false} AdmittedInOrder(entries: seq<Entry>, batch: seq<ParserClaim>, provenance: Provenance, generation: nat, k: nat)
    requires k < |batch| && Admit(entries, batch, provenance, generation).Some?
    ensures var after := Admit(entries, batch, provenance, generation).value;
            var claim := ValidateClaim(batch[k].(provenance := provenance));
            |after| == |entries| + |batch| && entries <= after && claim.Some? &&
            after[|entries| + k] == Entry(claim.value, generation) && after[|entries| + k].claim.provenance == provenance
    decreases |batch|
  {
    var claim := ValidateClaim(batch[0].(provenance := provenance)).value;
    var more := entries + [Entry(claim, generation)];
    if |batch| == 1 {
      assert batch[1..] == [];
    } else {
      AdmittedInOrder(more, batch[1..], provenance, generation, if k == 0 then 0 else k - 1);
      assert Admit(more, batch[1..], provenance, generation).value[|entries|] == more[|entries|];
    }
  }

  function Without(entries: seq<Entry>, providerId: string): (r: seq<Entry>)
    ensures forall e :: e in r <==> e in entries && e.claim.providerId != providerId
    ensures |r| <= |entries|
  {
    if |entries| == 0 then []
    else
      (if entries[0].claim.providerId == providerId then [] else [entries[0]]) + Without(entries[1..], providerId)
  }

  lemma {:induction false} WithoutKeeps(entries: seq<Entry>, providerId: string)
    requires CatalogOk(entries)
    ensures CatalogOk(Without(entries, providerId))
  {
    if |entries| > 0 {
      WithoutKeeps(entries[1..], providerId);
      var rest := Without(entries[1..], providerId);
      forall i | 0 <= i < |rest| ensures EntryIdentity(rest[i]) != EntryIdentity(entries[0]) {
        assert rest[i] in entries[1..];
      }
    }
  }

  lemma {:induction false} NothingErased(entries: seq<Entry>, providerId: string)
    ensures |Without(entries, providerId)| == |entries| <==> Without(entries, providerId) == entries
  {
    if |entries| > 0 {
      NothingErased(entries[1..], providerId);
      assert entries == [entries[0]] + entries[1..];
    }
  }

  lemma WithoutNext(kept: seq<Entry>, entries: seq<Entry>, providerId: string, i: nat)
    requires i < |entries|
    ensures kept + Without(entries[i..], providerId) ==
            (if entries[i].claim.providerId == providerId then kept else kept + [entries[i]]) + Without(entries[i + 1..], providerId)
  {
    assert entries[i..][0] == entries[i] && entries[i..][1..] == entries[i + 1..];
  }

  // ---------- runs ----------

  datatype Catalog = Catalog(entries: seq<Entry>, generation: nat)

  datatype Change =
    | AdmitBatch(batch: seq<ParserClaim>, provenance: Provenance, providerGeneration: nat)
    | RemoveProvider(providerId: string)
    | ClearAll

  function Bumped(c: Catalog, entries: seq<Entry>, changed: bool): Catalog {
    Catalog(entries, if changed then c.generation + 1 else c.generation)
  }

  function Apply(c: Catalog, change: Change): Catalog {
    match change
    case AdmitBatch(batch, provenance, providerGeneration) =>
      var after := Admit(c.entries, batch, provenance, providerGeneration);
      if after.None? then c else Bumped(c, after.value, |batch| > 0)
    case RemoveProvider(providerId) =>
      var after := Without(c.entries, providerId);
      if |after| == |c.entries| then c else Bumped(c, after, true)
    case ClearAll =>
      if |c.entries| == 0 then c else Bumped(c, [], true)
  }

  function Run(c: Catalog, changes: seq<Change>): Catalog
    decreases |changes|
  {
    if |changes| == 0 then c else Run(Apply(c, changes[0]), changes[1..])
  }

  /** One change keeps the catalog in order, and the generation rises exactly when the claims change. */
  lemma ApplyKeeps(c: Catalog, change: Change)
    requires CatalogOk(c.entries)
    ensures CatalogOk(Apply(c, change).entries)
    ensures Apply(c, change).generation == c.generation + if Apply(c, change).entries != c.entries then 1 else 0
  {
    match change
    case AdmitBatch(batch, provenance, providerGeneration) =>
      if Admit(c.entries, batch, provenance, providerGeneration).Some? {
        AdmitKeeps(c.entries, batch, provenance, providerGeneration);
      }
    case RemoveProvider(providerId) =>
      WithoutKeeps(c.entries, providerId);
      NothingErased(c.entries, providerId);
    case ClearAll =>
  }

  /** Over every run from an ordered catalog, identities stay unique, type names stay normalised, and a
      generation that has not risen means the claims are the same. */
  lemma {:induction false} RunKeeps(c: Catalog, changes: seq<Change>)
    requires CatalogOk(c.entries)
    ensures CatalogOk(Run(c, changes).entries)
    ensures Run(c, changes).generation >= c.generation
    ensures Run(c, changes).generation == c.generation ==> Run(c, changes).entries == c.entries
    decreases |changes|
  {
    if |changes| > 0 {
      ApplyKeeps(c, changes[0]);
      RunKeeps(Apply(c, changes[0]), changes[1..]);
    }
  }

  // ---------- the catalog object ----------

  class ClaimCatalog {
    var entries: seq<Entry>
    var generation: nat

    function Value(): Catalog
      reads this
    {
      Catalog(entries, generation)
    }

    constructor ()
      ensures Value() == Catalog([], 0)
    {
      entries, generation := [], 0;
    }

    /** Validates the whole batch before any of it is stored. */
    method AdmitClaims(batch: seq<ParserClaim>, provenance: Provenance, providerGeneration: nat) returns (ok: bool)
      modifies this
      ensures ok <==> Admit(old(entries), batch, provenance, providerGeneration).Some?
      ensures Value() == Apply(old(Value()), AdmitBatch(batch, provenance, providerGeneration))
      ensures !ok ==> Value() == old(Value())
    {
      var admitted := entries;
      assert batch[0..] == batch;
      for index := 0 to |batch|
        invariant Value() == old(Value())
        invariant Admit(entries, batch, provenance, providerGeneration) ==
                  Admit(admitted, batch[index..], provenance, providerGeneration)
      {
        assert batch[index..][0] == batch[index] && batch[index..][1..] == batch[index + 1..];
        var validated := ValidateClaim(batch[index].(provenance := provenance));
        if validated.None? {
          return false;
        }
        var present := AlreadyPresent(admitted, IdentityOf(validated.value));
        if present {
          return false;
        }
        admitted := admitted + [Entry(validated.value, providerGeneration)];
      }
      entries := admitted;
      if |batch| > 0 {
        generation := generation + 1;
      }
      ok := true;
    }

    method RemoveClaims(providerId: string) returns (changed: bool)
      modifies this
      ensures Value() == Apply(old(Value()), RemoveProvider(providerId))
      ensures changed <==> |entries| != |old(entries)|
    {
      var prior := |entries|;
      NothingErased(entries, providerId);
      entries := EraseProvider(entries, providerId);
      changed := |entries| != prior;
      if changed {
        generation := generation + 1;
      }
    }

    method Clear()
      modifies this
      ensures Value() == Apply(old(Value()), ClearAll)
    {
      if |entries| == 0 {
        return;
      }
      entries := [];
      generation := generation + 1;
    }
  }

  method AlreadyPresent(entries: seq<Entry>, id: Identity) returns (found: bool)
    ensures found <==> HasIdentity(entries, id)
  {
    for i := 0 to |entries|
      invariant forall j :: 0 <= j < i ==> EntryIdentity(entries[j]) != id
    {
      if EntryIdentity(entries[i]) == id {
        return true;
      }
    }
    found := false;
  }

  method EraseProvider(entries: seq<Entry>, providerId: string) returns (kept: seq<Entry>)
    ensures kept == Without(entries, providerId)
  {
    kept := [];
    assert entries[0..] == entries;
    for i := 0 to |entries|
      invariant kept + Without(entries[i..], providerId) == Without(entries, providerId)
    {
      WithoutNext(kept, entries, providerId, i);
      if entries[i].claim.providerId != providerId {
        kept := kept + [entries[i]];
      }
    }
  }
}

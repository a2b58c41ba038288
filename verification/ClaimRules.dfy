/** Which claims and names a catalog takes, condition by condition. */
module ClaimRules {
  import opened Prelude
  import opened Strings
  import opened ParserClaimCatalog

  // ---------- type names ----------

  lemma RegisteredEncodings()
    ensures forall e :: e in ["bson", "cbor", "data_tamer", "json", "msgpack", "omgidl"] ==> IsRegistered(e)
    ensures forall e :: e in ["protobuf", "ros1", "ros1msg", "ros2", "ros2msg"] ==> IsRegistered(e)
    ensures |ENCODINGS| == 11
  {
  }

  /** A name of an encoding nobody registered, and an empty one, are refused; a wildcard stays; and only two encodings have rules. */
  lemma NamesOfEncodings(encoding: string, t: string)
    ensures (encoding !in ENCODINGS || t == "") ==> NormalizeTypeName(encoding, t) == None
    ensures encoding in ENCODINGS ==> NormalizeTypeName(encoding, "*") == Some("*")
    ensures encoding in ENCODINGS && t !in {"", "*"} ==>
              NormalizeTypeName(encoding, t) == (if encoding == "ros2msg" then NormalizeRos2(t)
                                                 else if encoding == "protobuf" then NormalizeProtobuf(t) else Some(t))
  {
  }

  /** pkg/name and pkg/msg/name, with something on either side and no other slash, are the names of ROS 2 messages. */
  predicate IsRosSpelling(t: string, pkg: string, name: string) {
    IsRosPart(pkg) && IsRosPart(name) && (t == pkg + "/" + name || t == pkg + "/msg/" + name)
  }

  lemma RosNamesExactly(t: string)
    ensures NormalizeRos2(t).Some? <==> exists pkg, name :: IsRosSpelling(t, pkg, name)
  {
    if NormalizeRos2(t).Some? {
      var pkg, name := SpellingOf(t);
    }
    forall pkg, name | IsRosSpelling(t, pkg, name) ensures NormalizeRos2(t).Some? {
      RosSpellingsAgree(pkg, name);
    }
  }

  lemma SpellingOf(t: string) returns (pkg: string, name: string)
    requires NormalizeRos2(t).Some?
    ensures IsRosSpelling(t, pkg, name)
  {
    var first := Find(t, '/', 0);
    var second := Find(t, '/', first + 1);
    pkg, name := t[..first], if second == |t| then t[first + 1..] else t[second + 1..];
    if second == |t| {
      assert t == pkg + "/" + name;
    } else {
      assert t == pkg + ("/" + t[first + 1..second] + "/") + name;
      assert "/" + t[first + 1..second] + "/" == "/msg/";
    }
  }

  /** A protobuf name is identifiers between dots; one dot in front of them is dropped. */
  lemma ProtobufNamesExactly(t: string, name: string)
    requires |t| > 0
    ensures NormalizeProtobuf(t) == Some(name) <==> IsProtobufFullName(name) && (t == name || t == "." + name)
  {
    if IsProtobufFullName(name) && t == name {
      FullNameStarts(name);
    }
    if t[0] == '.' {
      assert t == "." + t[1..];
    }
    if IsProtobufFullName(name) && t == "." + name {
      assert t[1..] == name;
    }
  }

  lemma FullNameStarts(name: string)
    requires IsProtobufFullName(name)
    ensures |name| > 0 && name[0] != '.'
  {
    var dot := Find(name, '.', 0);
    assert Split(name)[0] == name[..dot];
    assert IsComponent(Split(name)[0]);
  }

  // ---------- claims ----------

  /** "sha256:" and 64 hexadecimal digits. */
  lemma DigestsExactly(s: string)
    ensures IsSchemaDigest(s) <==>
              exists hex: string :: s == "sha256:" + hex && |hex| == 64
                                    && forall i :: 0 <= i < 64 ==> '0' <= hex[i] <= '9' || 'a' <= hex[i] <= 'f' || 'A' <= hex[i] <= 'F'
  {
    if IsSchemaDigest(s) {
      assert s == "sha256:" + s[7..];
    }
    forall hex: string | s == "sha256:" + hex && |hex| == 64
                         && forall i :: 0 <= i < 64 ==> '0' <= hex[i] <= '9' || 'a' <= hex[i] <= 'f' || 'A' <= hex[i] <= 'F'
      ensures IsSchemaDigest(s)
    {
      assert s[..7] == "sha256:";
      forall i | 7 <= i < 71 ensures IsHex(s[i]) {
        assert s[i] == hex[i - 7];
      }
    }
  }

  /** A claim is taken exactly if it has a provider and a name of its own, a priority from -1000 to 1000, a proper type name, the scalar
      route or the object route or both, an object type if and only if it has the object route, one that is known, no object route for
      a wildcard, and proper digests. */
  lemma ClaimIsTakenExactly(claim: ParserClaim)
    ensures var name := NormalizeTypeName(claim.encoding, claim.typeName);
            ValidateClaim(claim).Some? <==>
              && claim.providerId != "" && claim.claimId != "" && -1000 <= claim.priority <= 1000
              && name.Some?
              && claim.routeFlags in {1, 2, 3}
              && (claim.objectType.Some? <==> claim.routeFlags in {2, 3})
              && (claim.objectType.Some? ==> claim.objectType.value in {1, 3, 4, 5, 6, 7, 8, 9, 10, 11, 13, 14, 15, 16, 17, 18, 19, 20})
              && (name.value == "*" ==> claim.routeFlags == 1)
              && forall digest :: digest in claim.schemaDigests ==> IsSchemaDigest(digest)
  {
  }

  /** And it is taken as it is, but for its normalised name. */
  lemma ClaimIsTakenAsItIs(claim: ParserClaim)
    requires ValidateClaim(claim).Some?
    ensures ValidateClaim(claim).value == claim.(typeName := NormalizeTypeName(claim.encoding, claim.typeName).value)
  {
  }

  // ---------- batches ----------

  function Hosted(claim: ParserClaim, provenance: Provenance): ParserClaim {
    claim.(provenance := provenance)
  }

  /** Nobody in the catalog or earlier in the batch has the identity of claim k. */
  predicate IsNew(entries: seq<Entry>, batch: seq<ParserClaim>, k: nat)
    requires k < |batch|
  {
    && (forall e :: e in entries ==> EntryIdentity(e) != IdentityOf(batch[k]))
    && forall j :: 0 <= j < k ==> IdentityOf(batch[j]) != IdentityOf(batch[k])
  }

  /** A batch is admitted exactly if every claim of it is taken and new. */
  lemma {:induction false} BatchIsAdmittedExactly(entries: seq<Entry>, batch: seq<ParserClaim>, provenance: Provenance, generation: nat)
    ensures Admit(entries, batch, provenance, generation).Some? <==>
              forall k :: 0 <= k < |batch| ==> ValidateClaim(Hosted(batch[k], provenance)).Some? && IsNew(entries, batch, k)
    decreases |batch|
  {
    if |batch| > 0 {
      var claim := ValidateClaim(Hosted(batch[0], provenance));
      if claim.Some? && !HasIdentity(entries, IdentityOf(claim.value)) {
        var more := entries + [Entry(claim.value, generation)];
        BatchIsAdmittedExactly(more, batch[1..], provenance, generation);
        forall k | 0 < k < |batch| ensures IsNew(entries, batch, k) <==> IsNew(more, batch[1..], k - 1) {
          LaterIsNew(entries, more, batch, k, claim.value, generation);
        }
        forall k | 0 < k < |batch| ensures batch[k] == batch[1..][k - 1] {
        }
        FirstIsNew(entries, batch);
        LaterAgree(entries, more, batch, provenance);
      } else if claim.Some? {
        FirstIsNew(entries, batch);
      }
    }
  }

  lemma LaterAgree(entries: seq<Entry>, more: seq<Entry>, batch: seq<ParserClaim>, provenance: Provenance)
    requires |batch| > 0 && IsNew(entries, batch, 0) && ValidateClaim(Hosted(batch[0], provenance)).Some?
    requires forall k :: 0 < k < |batch| ==> (IsNew(entries, batch, k) <==> IsNew(more, batch[1..], k - 1))
    ensures (forall k :: 0 <= k < |batch| ==> ValidateClaim(Hosted(batch[k], provenance)).Some? && IsNew(entries, batch, k)) <==>
            (forall k :: 0 <= k < |batch[1..]| ==> ValidateClaim(Hosted(batch[1..][k], provenance)).Some? && IsNew(more, batch[1..], k))
  {
    if forall k :: 0 <= k < |batch[1..]| ==> ValidateClaim(Hosted(batch[1..][k], provenance)).Some? && IsNew(more, batch[1..], k) {
      forall k | 0 < k < |batch| ensures ValidateClaim(Hosted(batch[k], provenance)).Some? && IsNew(entries, batch, k) {
        assert batch[1..][k - 1] == batch[k] && IsNew(more, batch[1..], k - 1);
      }
    }
    if forall k :: 0 <= k < |batch| ==> ValidateClaim(Hosted(batch[k], provenance)).Some? && IsNew(entries, batch, k) {
      forall k | 0 <= k < |batch[1..]| ensures ValidateClaim(Hosted(batch[1..][k], provenance)).Some? && IsNew(more, batch[1..], k) {
        assert batch[1..][k] == batch[k + 1] && IsNew(entries, batch, k + 1);
      }
    }
  }

  lemma FirstIsNew(entries: seq<Entry>, batch: seq<ParserClaim>)
    requires |batch| > 0
    ensures IsNew(entries, batch, 0) <==> !HasIdentity(entries, IdentityOf(batch[0]))
  {
  }

  lemma LaterIsNew(entries: seq<Entry>, more: seq<Entry>, batch: seq<ParserClaim>, k: nat, first: ParserClaim, generation: nat)
    requires 0 < k < |batch| && IdentityOf(first) == IdentityOf(batch[0]) && more == entries + [Entry(first, generation)]
    ensures IsNew(entries, batch, k) <==> IsNew(more, batch[1..], k - 1)
  {
    var rest := batch[1..];
    assert rest[k - 1] == batch[k];
    if IsNew(entries, batch, k) {
      forall j | 0 <= j < k - 1 ensures IdentityOf(rest[j]) != IdentityOf(rest[k - 1]) {
        assert rest[j] == batch[j + 1];
      }
    }
    if IsNew(more, rest, k - 1) {
      forall e | e in entries ensures EntryIdentity(e) != IdentityOf(batch[k]) {
        assert e in more;
      }
      assert Entry(first, generation) in more;
      forall j | 0 <= j < k ensures IdentityOf(batch[j]) != IdentityOf(batch[k]) {
        if j > 0 {
          assert rest[j - 1] == batch[j];
        }
      }
    }
  }

  /** Removing a provider keeps everybody else's claims, in their order. */
  lemma {:induction false} OthersStayInOrder(entries: seq<Entry>, providerId: string, x: Entry, y: Entry)
    requires x.claim.providerId != providerId && y.claim.providerId != providerId
    ensures StandsBefore(entries, x, y) <==> StandsBefore(Without(entries, providerId), x, y)
    decreases |entries|
  {
    if |entries| > 0 {
      OthersStayInOrder(entries[1..], providerId, x, y);
      var rest := Without(entries[1..], providerId);
      StandsBeforeNext(entries, x, y);
      if entries[0].claim.providerId != providerId {
        var all := Without(entries, providerId);
        assert all[1..] == rest;
        StandsBeforeNext(all, x, y);
      } else {
        assert [] + rest == rest;
      }
    }
  }

  ghost predicate StandsBefore(entries: seq<Entry>, x: Entry, y: Entry) {
    exists i, j :: 0 <= i < j < |entries| && entries[i] == x && entries[j] == y
  }

  lemma StandsBeforeNext(entries: seq<Entry>, x: Entry, y: Entry)
    requires |entries| > 0
    ensures StandsBefore(entries, x, y) <==> (entries[0] == x && y in entries[1..]) || StandsBefore(entries[1..], x, y)
  {
    var rest := entries[1..];
    if StandsBefore(entries, x, y) {
      var i, j :| 0 <= i < j < |entries| && entries[i] == x && entries[j] == y;
      assert rest[j - 1] == y;
      if i > 0 {
        assert rest[i - 1] == x;
      }
    }
    if entries[0] == x && y in rest {
      var j :| 0 <= j < |rest| && rest[j] == y;
      assert entries[j + 1] == y;
    }
    if StandsBefore(rest, x, y) {
      var i, j :| 0 <= i < j < |rest| && rest[i] == x && rest[j] == y;
      assert entries[i + 1] == x && entries[j + 1] == y;
    }
  }
}

/** What acceptance of records and export packages means. */
module DomainTheorems {
  import opened Prelude
  import opened JsonValue
  import opened CanonicalOrder
  import opened CanonicalJson
  import opened SameValueFacts
  import opened SovereignDomain

  /** Two different byte strings with one digest. */
  predicate CollisionAt(h: Bytes -> string, a: Bytes, b: Bytes) { a != b && h(a) == h(b) }

  /** Equal values, unless their canonical bytes collide. */
  ghost predicate SameOrCollision(c: Crypto, v: Json, w: Json) {
    SameValue(v, w) || CollisionAt(c.hash, Canon(v), Canon(w))
  }

  lemma EqString(v: Json, s: string)
    ensures Eq(v, Str(s)) <==> v == Str(s)
  {
  }

  lemma {:induction false} EqualDigests(c: Crypto, v: Json, w: Json)
    requires WellFormed(v) && WellFormed(w) && Sha(c, v) == Sha(c, w)
    ensures SameOrCollision(c, v, w)
  {
    CanonEquality(v, w);
  }

  lemma {:induction false} PartsWellFormed(record: Entries)
    requires WellFormed(Obj(record)) && Get(record, "signature").Obj?
    ensures WellFormed(Body(record)) && WellFormed(Get(record, "signature"))
    ensures WellFormed(Header(Get(record, "signature").entries))
  {
    WithoutWellFormed(record, {"signature"});
    GetWellFormed(record, "signature");
    WithoutWellFormed(Get(record, "signature").entries, {"signature"});
  }

  /** The digest an accepted record's signed header commits to. */
  lemma {:induction false} HeaderCommits(c: Crypto, record: Json, identity: Json)
    requires VerifyRecord(c, record, identity)
    ensures Get(Header(Get(record.entries, "signature").entries).entries, "payload_sha256")
            == Str(Sha(c, Body(record.entries)))
  {
    var sig := Get(record.entries, "signature").entries;
    WithoutGet(sig, {"signature"}, "payload_sha256");
    EqString(Get(sig, "payload_sha256"), Sha(c, Body(record.entries)));
  }

  /** One signed header speaks for one body: records accepted with equal headers have equal bodies. */
  lemma {:induction false} HeaderBindsBody(c: Crypto, r1: Json, r2: Json, id1: Json, id2: Json)
    requires WellFormed(r1) && WellFormed(r2) && VerifyRecord(c, r1, id1) && VerifyRecord(c, r2, id2)
    requires SameValue(Header(Get(r1.entries, "signature").entries), Header(Get(r2.entries, "signature").entries))
    ensures SameOrCollision(c, Body(r1.entries), Body(r2.entries))
  {
    PartsWellFormed(r1.entries);
    PartsWellFormed(r2.entries);
    HeaderCommits(c, r1, id1);
    HeaderCommits(c, r2, id2);
    SameGet(Header(Get(r1.entries, "signature").entries).entries,
            Header(Get(r2.entries, "signature").entries).entries, "payload_sha256");
    EqualDigests(c, Body(r1.entries), Body(r2.entries));
  }

  // ----- ideal signatures -----

  ghost predicate Listed(identity: Json, key: string) {
    && identity.Obj? && Elements(Get(identity.entries, "verification_methods")).Some?
    && var ms := Elements(Get(identity.entries, "verification_methods")).value;
    && exists i :: 0 <= i < |ms| && ms[i].Obj? && Get(ms[i].entries, "public_key") == Str(key)
  }

  /** Some key of the identity signed the canonical bytes of this dict. */
  ghost predicate Attests(c: Crypto, identity: Json, header: Entries) {
    exists key: string, sig: string :: Listed(identity, key) && c.verifies(key, sig, Canon(Obj(header)))
  }

  ghost predicate DigestIssued(c: Crypto, issued: set<Json>, digest: Json) {
    exists b :: b in issued && WellFormed(b) && digest == Str(Sha(c, b))
  }

  /** Unforgeability: a payload digest that the identity's keys sign is that of a body in issued. */
  ghost predicate SignsOnly(c: Crypto, identity: Json, issued: set<Json>) {
    forall h: Entries :: WellFormed(Obj(h)) && Attests(c, identity, h) && Get(h, "payload_sha256").Str?
      ==> DigestIssued(c, issued, Get(h, "payload_sha256"))
  }

  ghost predicate Issued(c: Crypto, issued: set<Json>, body: Json) {
    exists b :: b in issued && SameOrCollision(c, b, body)
  }

  lemma {:induction false} FoundIsListed(ms: seq<Json>, keyId: Json)
    requires FindMethod(ms, keyId).Found?
    ensures exists i :: 0 <= i < |ms| && ms[i].Obj? && ms[i].entries == FindMethod(ms, keyId).key
  {
    if !Eq(Get(ms[0].entries, "key_id"), keyId) {
      FoundIsListed(ms[1..], keyId);
      var i :| 0 <= i < |ms[1..]| && ms[1..][i].Obj? && ms[1..][i].entries == FindMethod(ms, keyId).key;
      assert ms[i + 1] == ms[1..][i];
    }
  }

  lemma {:induction false} AcceptedIsAttested(c: Crypto, record: Json, identity: Json)
    requires VerifyRecord(c, record, identity)
    ensures Attests(c, identity, Header(Get(record.entries, "signature").entries).entries)
  {
    var sig := Get(record.entries, "signature").entries;
    var ms := Elements(Get(identity.entries, "verification_methods")).value;
    var key := FindMethod(ms, Get(sig, "key_id")).key;
    FoundIsListed(ms, Get(sig, "key_id"));
    assert Listed(identity, Get(key, "public_key").s);
  }

  /** An accepted record was issued under the identity. */
  lemma {:induction false} AcceptedWasIssued(c: Crypto, record: Json, identity: Json, issued: set<Json>)
    requires WellFormed(record) && VerifyRecord(c, record, identity) && SignsOnly(c, identity, issued)
    ensures Issued(c, issued, Body(record.entries))
  {
    var h := Header(Get(record.entries, "signature").entries).entries;
    AcceptedIsAttested(c, record, identity);
    HeaderCommits(c, record, identity);
    PartsWellFormed(record.entries);
    DigestWasIssued(c, h, Body(record.entries), identity, issued);
  }

  lemma {:induction false} DigestWasIssued(c: Crypto, h: Entries, body: Json, identity: Json, issued: set<Json>)
    requires SignsOnly(c, identity, issued) && Attests(c, identity, h) && WellFormed(Obj(h)) && WellFormed(body)
    requires Get(h, "payload_sha256") == Str(Sha(c, body))
    ensures Issued(c, issued, body)
  {
    assert DigestIssued(c, issued, Get(h, "payload_sha256"));
    var b :| b in issued && WellFormed(b) && Get(h, "payload_sha256") == Str(Sha(c, b));
    EqualDigests(c, b, body);
  }

  /** The record names the root, and what it says about it was issued under the identity. */
  ghost predicate RootIssued(c: Crypto, issued: set<Json>, root: Json, record: Entries) {
    Eq(Get(record, "entity_root"), root) && Issued(c, issued, Body(record))
  }

  lemma {:induction false} WithoutIssued(c: Crypto, issued: set<Json>, root: Json, record: Entries, ks: set<string>,
                                         identity: Json)
    requires WellFormed(Obj(record)) && "entity_root" !in ks && SignsOnly(c, identity, issued)
    requires Eq(Get(record, "entity_root"), root) && VerifyRecord(c, Obj(Without(record, ks)), identity)
    ensures RootIssued(c, issued, root, Without(record, ks))
  {
    WithoutWellFormed(record, ks);
    WithoutGet(record, ks, "entity_root");
    AcceptedWasIssued(c, Obj(Without(record, ks)), identity, issued);
  }

  /** The part of a listed node that the root signs. */
  function SignedNode(node: Entries): Entries { Without(Without(node, {"effective_status"}), AUTHORIZATION_EXTRAS) }

  function SignedRevocation(rev: Entries): Entries { Without(rev, REVOCATION_EXTRAS) }

  lemma {:induction false} AuthorizationIssued(c: Crypto, issued: set<Json>, root: Json, m: Entries, identity: Json)
    requires WellFormed(Obj(m)) && AuthorizationOk(c, m, identity, root) && SignsOnly(c, identity, issued)
    ensures RootIssued(c, issued, root, Without(m, AUTHORIZATION_EXTRAS))
  {
    WithoutIssued(c, issued, root, m, AUTHORIZATION_EXTRAS, identity);
  }

  lemma {:induction false} RevocationIssued(c: Crypto, issued: set<Json>, root: Json, m: Entries, identity: Json)
    requires WellFormed(Obj(m)) && RevocationOk(c, m, identity, root) && SignsOnly(c, identity, issued)
    ensures RootIssued(c, issued, root, SignedRevocation(m))
  {
    WithoutIssued(c, issued, root, m, REVOCATION_EXTRAS, identity);
  }

  lemma {:induction false} ServiceIssued(c: Crypto, issued: set<Json>, root: Json, m: Entries, identity: Json)
    requires WellFormed(Obj(m)) && ServiceOk(c, m, identity, root) && SignsOnly(c, identity, issued)
    ensures RootIssued(c, issued, root, m)
  {
    AcceptedWasIssued(c, Obj(m), identity, issued);
  }

  /** A listed node and its revocation, if it has one, were issued under the identity. */
  ghost predicate NodeIssued(c: Crypto, issued: set<Json>, root: Json, node: Json) {
    && node.Obj? && RootIssued(c, issued, root, SignedNode(node.entries))
    && var rev := Get(node.entries, "revocation");
    && (Truthy(rev) ==> rev.Obj? && RootIssued(c, issued, root, SignedRevocation(rev.entries)))
  }

  lemma {:induction false} NodeIsIssued(c: Crypto, issued: set<Json>, root: Json, node: Json, identity: Json)
    requires WellFormed(node) && NodeOk(c, node, identity, root) && SignsOnly(c, identity, issued)
    ensures NodeIssued(c, issued, root, node)
  {
    WithoutWellFormed(node.entries, {"effective_status"});
    AuthorizationIssued(c, issued, root, Without(node.entries, {"effective_status"}), identity);
    GetWellFormed(node.entries, "revocation");
    var rev := Get(node.entries, "revocation");
    if Truthy(rev) { RevocationIssued(c, issued, root, rev.entries, identity); }
  }

  function Nodes(pkg: Json): seq<Json>
    requires Parts(pkg) && Elements(Get(SnapshotOf(pkg).entries, "nodes")).Some?
  {
    Elements(Get(SnapshotOf(pkg).entries, "nodes")).value
  }

  function Services(pkg: Json): seq<Json>
    requires Parts(pkg) && Elements(Get(SnapshotOf(pkg).entries, "services")).Some?
  {
    Elements(Get(SnapshotOf(pkg).entries, "services")).value
  }

  lemma ElementWellFormed(es: Entries, k: string, i: nat)
    requires WellFormed(Obj(es)) && Elements(Get(es, k)).Some? && i < |Elements(Get(es, k)).value|
    ensures WellFormed(Elements(Get(es, k)).value[i])
  {
  }

  lemma {:induction false} PackagePartsWellFormed(pkg: Json)
    requires WellFormed(pkg) && Parts(pkg)
    ensures WellFormed(IdentityOf(pkg)) && WellFormed(SnapshotOf(pkg)) && WellFormed(ManifestOf(pkg))
  {
    GetWellFormed(pkg.entries, "identity_manifest");
    GetWellFormed(pkg.entries, "domain_snapshot");
    GetWellFormed(pkg.entries, "export_manifest");
  }

  ghost predicate ListedIssued(c: Crypto, issued: set<Json>, root: Json, service: Json) {
    service.Obj? && RootIssued(c, issued, root, service.entries)
  }

  /** Every node of an accepted package, with its revocation, was issued under its identity. */
  lemma {:induction false} NodesAreIssued(c: Crypto, pkg: Json, issued: set<Json>)
    requires WellFormed(pkg) && ExportOk(c, pkg) && SignsOnly(c, IdentityOf(pkg), issued)
    ensures forall i :: 0 <= i < |Nodes(pkg)| ==> NodeIssued(c, issued, EntityOf(pkg), Nodes(pkg)[i])
  {
    PackagePartsWellFormed(pkg);
    forall i | 0 <= i < |Nodes(pkg)| ensures NodeIssued(c, issued, EntityOf(pkg), Nodes(pkg)[i]) {
      ElementWellFormed(SnapshotOf(pkg).entries, "nodes", i);
      NodeIsIssued(c, issued, EntityOf(pkg), Nodes(pkg)[i], IdentityOf(pkg));
    }
  }

  /** So was every service. */
  lemma {:induction false} ServicesAreIssued(c: Crypto, pkg: Json, issued: set<Json>)
    requires WellFormed(pkg) && ExportOk(c, pkg) && SignsOnly(c, IdentityOf(pkg), issued)
    ensures forall i :: 0 <= i < |Services(pkg)| ==> ListedIssued(c, issued, EntityOf(pkg), Services(pkg)[i])
  {
    PackagePartsWellFormed(pkg);
    forall i | 0 <= i < |Services(pkg)| ensures ListedIssued(c, issued, EntityOf(pkg), Services(pkg)[i]) {
      ElementWellFormed(SnapshotOf(pkg).entries, "services", i);
      ServiceIssued(c, issued, EntityOf(pkg), Services(pkg)[i].entries, IdentityOf(pkg));
    }
  }

  /** So was its name claim, and the export manifest itself. */
  lemma {:induction false} ManifestAndNameIssued(c: Crypto, pkg: Json, issued: set<Json>)
    requires WellFormed(pkg) && ExportOk(c, pkg) && SignsOnly(c, IdentityOf(pkg), issued)
    ensures RootIssued(c, issued, EntityOf(pkg), ManifestOf(pkg).entries)
    ensures Truthy(Get(SnapshotOf(pkg).entries, "name_claim"))
            ==> RootIssued(c, issued, EntityOf(pkg), Get(SnapshotOf(pkg).entries, "name_claim").entries)
  {
    PackagePartsWellFormed(pkg);
    AcceptedWasIssued(c, ManifestOf(pkg), IdentityOf(pkg), issued);
    var nc := Get(SnapshotOf(pkg).entries, "name_claim");
    GetWellFormed(SnapshotOf(pkg).entries, "name_claim");
    if Truthy(nc) { AcceptedWasIssued(c, nc, IdentityOf(pkg), issued); }
  }

  /** The signed part of an export manifest fixes the identity and the snapshot of every package carrying it. */
  lemma {:induction false} ManifestFixesExport(c: Crypto, p1: Json, p2: Json)
    requires WellFormed(p1) && WellFormed(p2) && ExportOk(c, p1) && ExportOk(c, p2)
    requires SameValue(Body(ManifestOf(p1).entries), Body(ManifestOf(p2).entries))
    ensures SameOrCollision(c, IdentityOf(p1), IdentityOf(p2))
    ensures SameOrCollision(c, SnapshotOf(p1), SnapshotOf(p2))
  {
    PackagePartsWellFormed(p1);
    PackagePartsWellFormed(p2);
    SameDigestField(c, ManifestOf(p1).entries, ManifestOf(p2).entries, "identity_manifest_sha256", IdentityOf(p1),
                    IdentityOf(p2));
    SameDigestField(c, ManifestOf(p1).entries, ManifestOf(p2).entries, "domain_snapshot_sha256", SnapshotOf(p1),
                    SnapshotOf(p2));
  }

  lemma {:induction false} SameDigestField(c: Crypto, m1: Entries, m2: Entries, field: string, v1: Json, v2: Json)
    requires WellFormed(Obj(m1)) && WellFormed(Obj(m2)) && SameValue(Body(m1), Body(m2)) && field != "signature"
    requires WellFormed(v1) && WellFormed(v2)
    requires Eq(Get(m1, field), Str(Sha(c, v1))) && Eq(Get(m2, field), Str(Sha(c, v2)))
    ensures SameOrCollision(c, v1, v2)
  {
    WithoutWellFormed(m1, {"signature"});
    WithoutWellFormed(m2, {"signature"});
    SameGet(Without(m1, {"signature"}), Without(m2, {"signature"}), field);
    WithoutGet(m1, {"signature"}, field);
    WithoutGet(m2, {"signature"}, field);
    EqString(Get(m1, field), Sha(c, v1));
    EqString(Get(m2, field), Sha(c, v2));
    EqualDigests(c, v1, v2);
  }

  /** Packages whose manifests carry equal signed headers are one package up to a hash collision. */
  lemma {:induction false} HeaderFixesExport(c: Crypto, p1: Json, p2: Json)
    requires WellFormed(p1) && WellFormed(p2) && ExportOk(c, p1) && ExportOk(c, p2)
    requires SameValue(Header(Get(ManifestOf(p1).entries, "signature").entries),
                       Header(Get(ManifestOf(p2).entries, "signature").entries))
    ensures || CollisionAt(c.hash, Canon(Body(ManifestOf(p1).entries)), Canon(Body(ManifestOf(p2).entries)))
            || (SameOrCollision(c, IdentityOf(p1), IdentityOf(p2))
                && SameOrCollision(c, SnapshotOf(p1), SnapshotOf(p2)))
  {
    PackagePartsWellFormed(p1);
    PackagePartsWellFormed(p2);
    HeaderBindsBody(c, ManifestOf(p1), ManifestOf(p2), IdentityOf(p1), IdentityOf(p2));
    if SameValue(Body(ManifestOf(p1).entries), Body(ManifestOf(p2).entries)) { ManifestFixesExport(c, p1, p2); }
  }

  // ----- the guards of an accepted export -----

  /** An active Ed25519 key that the identity lists itself signed the identity. */
  ghost predicate SelfSigned(c: Crypto, identity: Json) {
    && Listed(identity, SelfKey(identity))
    && Get(SelfMethod(identity), "status") == Str("active") && Get(SelfMethod(identity), "algorithm") == Str("Ed25519")
    && exists sig: string :: c.verifies(SelfKey(identity), sig, Canon(Body(identity.entries)))
  }

  /** The method an identity names in its own signature, and its key. */
  function SelfMethod(identity: Json): Entries {
    if !identity.Obj? || !Get(identity.entries, "signature").Obj? then []
    else
      var found := SigningMethod(identity.entries, Get(Get(identity.entries, "signature").entries, "key_id"));
      if found.Found? then found.key else []
  }

  function SelfKey(identity: Json): string {
    if Get(SelfMethod(identity), "public_key").Str? then Get(SelfMethod(identity), "public_key").s else ""
  }

  lemma {:induction false} IdentityIsSelfSigned(c: Crypto, identity: Json)
    requires VerifyIdentity(c, identity)
    ensures SelfSigned(c, identity)
  {
    var sig := Get(identity.entries, "signature").entries;
    WithoutGet(identity.entries, {"signature"}, "verification_methods");
    var ms := Elements(Get(identity.entries, "verification_methods")).value;
    FoundIsListed(ms, Get(sig, "key_id"));
    assert c.verifies(SelfKey(identity), Get(sig, "signature").s, Canon(Body(identity.entries)));
  }

  /** One root and one domain throughout, under an identity that signed itself, with no outside authority asked for. */
  ghost predicate Whole(c: Crypto, pkg: Json)
    requires Parts(pkg)
  {
    var snap, manifest := SnapshotOf(pkg).entries, ManifestOf(pkg).entries;
    var domain := Get(snap, "domain").entries;
    && SelfSigned(c, IdentityOf(pkg))
    && Eq(Get(domain, "entity_root"), EntityOf(pkg)) && Eq(Get(manifest, "entity_root"), EntityOf(pkg))
    && Eq(Get(manifest, "domain_id"), Get(domain, "domain_id"))
    && (forall k :: k in {"dns_authority_required", "btg_authority_required", "cloud_host_required"}
          ==> !Truthy(Get(snap, k)))
    && (forall k :: k in {"dns_required_for_interpretation", "proprietary_btg_database_required"} ==>
          !Truthy(Get(manifest, k)))
  }

  lemma {:induction false} ExportIsWhole(c: Crypto, pkg: Json)
    requires ExportOk(c, pkg)
    ensures Whole(c, pkg)
  {
    IdentityIsSelfSigned(c, IdentityOf(pkg));
  }

  /**
   The package digest fixes the whole package: accepted packages with equal digests are equal, or their bytes collide.
   */
  lemma {:induction false} PackageHashFixesPackage(c: Crypto, p1: Json, p2: Json)
    requires WellFormed(p1) && WellFormed(p2) && ExportOk(c, p1) && ExportOk(c, p2)
    requires Eq(Get(p1.entries, "package_sha256"), Get(p2.entries, "package_sha256"))
    ensures || SameValue(p1, p2)
            || CollisionAt(c.hash, Canon(Obj(Without(p1.entries, {"package_sha256"}))),
                           Canon(Obj(Without(p2.entries, {"package_sha256"}))))
  {
    var b1, b2 := Without(p1.entries, {"package_sha256"}), Without(p2.entries, {"package_sha256"});
    WithoutWellFormed(p1.entries, {"package_sha256"});
    WithoutWellFormed(p2.entries, {"package_sha256"});
    EqString(Get(p1.entries, "package_sha256"), Sha(c, Obj(b1)));
    EqString(Get(p2.entries, "package_sha256"), Sha(c, Obj(b2)));
    EqString(Get(p1.entries, "package_sha256"), Sha(c, Obj(b2)));
    EqualDigests(c, Obj(b1), Obj(b2));
    if SameValue(Obj(b1), Obj(b2)) { SameWithField(p1.entries, p2.entries, "package_sha256"); }
  }

  lemma {:induction false} SameWithField(a: Entries, b: Entries, field: string)
    requires WellFormed(Obj(a)) && WellFormed(Obj(b)) && Get(a, field) == Get(b, field) != Null
    requires SameValue(Obj(Without(a, {field})), Obj(Without(b, {field})))
    ensures SameValue(Obj(a), Obj(b))
  {
    WithoutKeys(a, {field});
    WithoutKeys(b, {field});
    forall k ensures Has(a, k) == Has(b, k) && (Has(a, k) ==> SameValue(Get(a, k), Get(b, k))) {
      SameGet(Without(a, {field}), Without(b, {field}), k);
      WithoutGet(a, {field}, k);
      WithoutGet(b, {field}, k);
      if k == field {
        HasValue(a, k);
        HasValue(b, k);
        GetWellFormed(a, k);
        SameRefl(Get(a, k));
      }
    }
    SameFromGets(a, b);
  }

  lemma HasValue(es: Entries, k: string)
    requires Get(es, k) != Null
    ensures Has(es, k)
  {
  }

  // ----- the signed vectors -----

  /** The part of the material that a vector's signature speaks for. */
  function SignedPart(v: Vector, m: Entries): Entries {
    match v
    case NodeAuthorization => Without(m, AUTHORIZATION_EXTRAS)
    case NodeRevocation => Without(m, REVOCATION_EXTRAS)
    case _ => m
  }

  /**
   What validate accepts as a claim, node, revocation or service names the identity's root and was issued under it.
   */
  lemma {:induction false} ValidatedIsIssued(c: Crypto, v: Vector, m: Json, identity: Json, issued: set<Json>)
    requires v in {NameClaim, NodeAuthorization, NodeRevocation, ServiceManifest}
    requires WellFormed(m) && SignsOnly(c, identity, issued) && Validated(c, v, m, identity) == Some(true)
    ensures m.Obj? && RootOf(identity).Some? && RootIssued(c, issued, RootOf(identity).value, SignedPart(v, m.entries))
  {
    var root := RootOf(identity).value;
    match v
    case NodeAuthorization => AuthorizationIssued(c, issued, root, m.entries, identity);
    case NodeRevocation => RevocationIssued(c, issued, root, m.entries, identity);
    case ServiceManifest => ServiceIssued(c, issued, root, m.entries, identity);
    case _ => AcceptedWasIssued(c, m, identity, issued);
  }

  /** One accepted pair of a resolution proof. */
  predicate PairAccepted(c: Crypto, pair: Json, proof: Entries, identity: Json, root: Json) {
    && pair.Obj? && Get(pair.entries, "node").Obj? && Get(pair.entries, "service").Obj?
    && PairBound(proof, Get(pair.entries, "node").entries, Get(pair.entries, "service").entries, root)
    && AuthorizationOk(c, Get(pair.entries, "node").entries, identity, root)
    && ServiceOk(c, Get(pair.entries, "service").entries, identity, root)
  }

  lemma StepAccepts(c: Crypto, ok: bool, pair: Json, proof: Entries, identity: Json, root: Json)
    requires PairStep(c, ok, pair, proof, identity, root) == Some(true)
    ensures ok && PairAccepted(c, pair, proof, identity, root)
  {
  }

  lemma {:induction false} RestAccepted(c: Crypto, ok: bool, pairs: seq<Json>, proof: Entries, identity: Json,
                                        root: Json)
    requires PairsOk(c, ok, pairs, proof, identity, root) == Some(true) && pairs != []
    ensures var step := PairStep(c, ok, pairs[0], proof, identity, root);
            step.Some? && PairsOk(c, step.value, pairs[1..], proof, identity, root) == Some(true)
  {
  }

  lemma {:induction false} FirstAccepted(c: Crypto, ok: bool, pairs: seq<Json>, proof: Entries, identity: Json,
                                         root: Json)
    requires PairsOk(c, ok, pairs, proof, identity, root) == Some(true) && pairs != []
    ensures PairAccepted(c, pairs[0], proof, identity, root)
  {
    RestAccepted(c, ok, pairs, proof, identity, root);
    TrueAtStart(c, PairStep(c, ok, pairs[0], proof, identity, root).value, pairs[1..], proof, identity, root);
    StepAccepts(c, ok, pairs[0], proof, identity, root);
  }

  lemma {:induction false} TrueAtStart(c: Crypto, ok: bool, pairs: seq<Json>, proof: Entries, identity: Json,
                                       root: Json)
    requires PairsOk(c, ok, pairs, proof, identity, root) == Some(true)
    ensures ok
  {
    if pairs != [] && !ok { TrueAtStart(c, false, pairs[1..], proof, identity, root); }
  }

  /** The loop arrives at every pair with a flag from which it ends in True. */
  lemma {:induction false} PairReached(c: Crypto, ok: bool, pairs: seq<Json>, proof: Entries, identity: Json,
                                       root: Json, i: nat) returns (reached: bool)
    requires PairsOk(c, ok, pairs, proof, identity, root) == Some(true) && i < |pairs|
    ensures PairsOk(c, reached, pairs[i..], proof, identity, root) == Some(true)
  {
    if i == 0 {
      assert pairs[0..] == pairs;
      reached := ok;
    } else {
      RestAccepted(c, ok, pairs, proof, identity, root);
      assert pairs[1..][i - 1..] == pairs[i..];
      reached := PairReached(c, PairStep(c, ok, pairs[0], proof, identity, root).value, pairs[1..], proof, identity,
                             root, i - 1);
    }
  }

  lemma {:induction false} ProofPairs(c: Crypto, proof: Entries, identity: Json, root: Json, i: nat)
    requires ProofOk(c, proof, identity, root) == Some(true)
    requires Get(proof, "services").Arr? && i < |Get(proof, "services").items|
    ensures PairAccepted(c, Get(proof, "services").items[i], proof, identity, root)
  {
    var pairs := Get(proof, "services").items;
    var reached := PairReached(c, ProofHead(proof, root), pairs, proof, identity, root, i);
    FirstAccepted(c, reached, pairs[i..], proof, identity, root);
  }

  /** In an accepted resolution proof, node and service of every pair are bound and issued under the identity. */
  lemma {:induction false} ProofPairIssued(c: Crypto, proof: Json, identity: Json, root: Json, issued: set<Json>,
                                           i: nat)
    requires WellFormed(proof) && proof.Obj? && SignsOnly(c, identity, issued)
    requires ProofOk(c, proof.entries, identity, root) == Some(true)
    requires Get(proof.entries, "services").Arr? && i < |Get(proof.entries, "services").items|
    ensures var pair := Get(proof.entries, "services").items[i];
            && PairAccepted(c, pair, proof.entries, identity, root)
            && RootIssued(c, issued, root, Without(Get(pair.entries, "node").entries, AUTHORIZATION_EXTRAS))
            && RootIssued(c, issued, root, Get(pair.entries, "service").entries)
  {
    var pairs := Get(proof.entries, "services").items;
    ProofPairs(c, proof.entries, identity, root, i);
    GetWellFormed(proof.entries, "services");
    PairIssued(c, pairs[i], proof.entries, identity, root, issued);
  }

  lemma {:induction false} PairIssued(c: Crypto, pair: Json, proof: Entries, identity: Json, root: Json,
                                      issued: set<Json>)
    requires WellFormed(pair) && SignsOnly(c, identity, issued) && PairAccepted(c, pair, proof, identity, root)
    ensures RootIssued(c, issued, root, Without(Get(pair.entries, "node").entries, AUTHORIZATION_EXTRAS))
    ensures RootIssued(c, issued, root, Get(pair.entries, "service").entries)
  {
    GetWellFormed(pair.entries, "node");
    GetWellFormed(pair.entries, "service");
    AuthorizationIssued(c, issued, root, Get(pair.entries, "node").entries, identity);
    ServiceIssued(c, issued, root, Get(pair.entries, "service").entries, identity);
  }
}

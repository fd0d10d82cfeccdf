/** A whole domain as its root builds it: identity, nodes, services, name, manifest and package, and a proof over it. */
module HonestPackages {
  import opened Prelude
  import opened JsonValue
  import opened CanonicalOrder
  import opened CanonicalJson
  import opened SameValueFacts
  import opened SovereignDomain
  import opened DomainTheorems
  import opened DomainMeaning
  import opened HonestDomain

  // ----- the identity -----

  datatype Root = Root(entityId: string, keyId: string, publicKey: string, signature: string)

  function Method(r: Root): Entries {
    [Entry("key_id", Str(r.keyId)), Entry("algorithm", Str("Ed25519")), Entry("status", Str("active")),
     Entry("public_key", Str(r.publicKey))]
  }

  function IdentityFields(r: Root): Entries {
    [Entry("schema", Str("sovereign-entity-manifest-v2")), Entry("entity_id", Str(r.entityId)),
     Entry("verification_methods", Arr([Obj(Method(r))]))]
  }

  function SelfStamp(r: Root): Entries { [Entry("key_id", Str(r.keyId)), Entry("signature", Str(r.signature))] }

  function Identity(r: Root): Entries { IdentityFields(r) + [Entry("signature", Obj(SelfStamp(r)))] }

  ghost predicate HonestRoot(c: Crypto, r: Root) { c.verifies(r.publicKey, r.signature, Canon(Obj(IdentityFields(r)))) }

  lemma {:induction false} IdentityHolds(r: Root)
    ensures var identity := Identity(r);
            && Get(identity, "schema") == Str("sovereign-entity-manifest-v2")
            && Get(identity, "entity_id") == Str(r.entityId) && Has(identity, "entity_id")
            && Get(identity, "verification_methods") == Arr([Obj(Method(r))])
            && Get(identity, "signature") == Obj(SelfStamp(r)) && Without(identity, {"signature"}) == IdentityFields(r)
  {
    FieldsAt(Identity(r), ["schema", "entity_id", "verification_methods", "signature"]);
    var keys := ["schema", "entity_id", "verification_methods", "signature"];
    assert keys[0] == "schema" && keys[1] == "entity_id" && keys[2] == "verification_methods" && keys[3] == "signature";
    WithoutAppended(IdentityFields(r), [Entry("signature", Obj(SelfStamp(r)))], {"signature"});
  }

  lemma {:induction false} MethodHolds(r: Root)
    ensures var key, stamp := Method(r), SelfStamp(r);
            && Get(key, "key_id") == Str(r.keyId) && Get(key, "algorithm") == Str("Ed25519")
            && Get(key, "status") == Str("active") && Get(key, "public_key") == Str(r.publicKey)
            && Get(stamp, "key_id") == Str(r.keyId) && Get(stamp, "signature") == Str(r.signature)
  {
    var keys := ["key_id", "algorithm", "status", "public_key"];
    assert keys[0] == "key_id" && keys[1] == "algorithm" && keys[2] == "status" && keys[3] == "public_key";
    FieldsAt(Method(r), keys);
    var stampKeys := ["key_id", "signature"];
    assert stampKeys[0] == "key_id" && stampKeys[1] == "signature";
    FieldsAt(SelfStamp(r), stampKeys);
  }

  /** The root's one key is found under its id. */
  lemma {:induction false} RootKey(r: Root)
    ensures KeyAt(Identity(r), Str(r.keyId), 0) && MethodAt(Identity(r), 0) == Method(r)
  {
    IdentityHolds(r);
    MethodHolds(r);
    EqItself(Str(r.keyId));
  }

  lemma {:induction false} IdentityIsVouched(c: Crypto, r: Root)
    requires HonestRoot(c, r)
    ensures VouchesItself(c, Identity(r))
  {
    IdentityHolds(r);
    MethodHolds(r);
    RootKey(r);
    assert KeySigned(c, MethodAt(Identity(r), 0), SelfStamp(r), Canon(Obj(Without(Identity(r), {"signature"}))));
  }

  // ----- nodes and services -----

  datatype NodeEntry = NodeEntry(signed: Signed, effective: Option<string>, revocation: Option<Signed>)

  function NodeExtras(c: Crypto, n: NodeEntry, id: Json): Entries {
    (if n.effective.Some? then [Entry("effective_status", Str(n.effective.value))] else [])
    + if n.revocation.Some? then [Entry("revocation", Obj(Record(c, n.revocation.value, id)))] else []
  }

  function NodeDict(c: Crypto, n: NodeEntry, id: Json): Entries { Record(c, n.signed, id) + NodeExtras(c, n, id) }

  function NodeList(c: Crypto, nodes: seq<NodeEntry>, id: Json): (r: seq<Json>)
    ensures |r| == |nodes| && forall i :: 0 <= i < |r| ==> r[i] == Obj(NodeDict(c, nodes[i], id))
  {
    if nodes == [] then [] else [Obj(NodeDict(c, nodes[0], id))] + NodeList(c, nodes[1..], id)
  }

  function ServiceList(c: Crypto, services: seq<Signed>, id: Json): (r: seq<Json>)
    ensures |r| == |services| && forall i :: 0 <= i < |r| ==> r[i] == Obj(Record(c, services[i], id))
  {
    if services == [] then [] else [Obj(Record(c, services[0], id))] + ServiceList(c, services[1..], id)
  }

  ghost predicate HonestEntry(c: Crypto, n: NodeEntry, identity: Entries) {
    && HonestNode(c, n.signed, identity)
    && (n.revocation.Some? ==> HonestRevocation(c, n.revocation.value, identity))
  }

  lemma {:induction false} ExtrasHold(c: Crypto, n: NodeEntry, id: Json)
    ensures var extras := NodeExtras(c, n, id);
            && Within(extras, NODE_EXTRAS)
            && Get(extras, "revocation")
               == (if n.revocation.Some? then Obj(Record(c, n.revocation.value, id)) else Null)
            && Get(extras, "effective_status") == (if n.effective.Some? then Str(n.effective.value) else Null)
            && (Has(extras, "effective_status") <==> n.effective.Some?)
  {
    var first := if n.effective.Some? then [Entry("effective_status", Str(n.effective.value))] else [];
    var second := if n.revocation.Some? then [Entry("revocation", Obj(Record(c, n.revocation.value, id)))] else [];
    GetConcat(first, second, "revocation");
    GetConcat(first, second, "effective_status");
  }

  lemma {:induction false} NodeFields(c: Crypto, n: NodeEntry, identity: Entries, k: string)
    requires HonestEntry(c, n, identity) && k in NODE_EXTRAS
    ensures var id := Get(identity, "entity_id");
            && Get(NodeDict(c, n, id), k) == Get(NodeExtras(c, n, id), k)
            && Has(NodeDict(c, n, id), k) == Has(NodeExtras(c, n, id), k)
  {
    var id := Get(identity, "entity_id");
    RecordAvoids(c, n.signed, id, NODE_EXTRAS);
    AvoidsHas(Record(c, n.signed, id), NODE_EXTRAS, k);
    GetConcat(Record(c, n.signed, id), NodeExtras(c, n, id), k);
  }

  lemma {:induction false} WithoutWithin(es: Entries, ks: set<string>, some: set<string>)
    requires Within(es, ks)
    ensures Within(Without(es, some), ks)
  {
    if es != [] { WithoutWithin(es[1..], ks, some); }
  }

  lemma {:induction false} WithoutEffective(c: Crypto, n: NodeEntry, identity: Entries)
    requires HonestEntry(c, n, identity)
    ensures var id := Get(identity, "entity_id");
            && Without(NodeDict(c, n, id), {"effective_status"})
               == Record(c, n.signed, id) + Without(NodeExtras(c, n, id), {"effective_status"})
            && Within(Without(NodeExtras(c, n, id), {"effective_status"}), NODE_EXTRAS)
  {
    var id := Get(identity, "entity_id");
    ExtrasHold(c, n, id);
    RecordAvoids(c, n.signed, id, {"effective_status"});
    WithoutConcat(Record(c, n.signed, id), NodeExtras(c, n, id), {"effective_status"});
    WithoutNone(Record(c, n.signed, id), {"effective_status"});
    WithoutWithin(NodeExtras(c, n, id), NODE_EXTRAS, {"effective_status"});
  }

  lemma {:induction false} RevocationIsListed(c: Crypto, s: Signed, identity: Entries)
    requires HonestRevocation(c, s, identity)
    ensures SignedRevoked(c, Record(c, s, Get(identity, "entity_id")), identity)
  {
    RevocationIsSigned(c, s, [], identity);
    assert Record(c, s, Get(identity, "entity_id")) + [] == Record(c, s, Get(identity, "entity_id"));
  }

  /** An honest node is listed as an active one. */
  lemma {:induction false} NodeIsListed(c: Crypto, n: NodeEntry, identity: Entries)
    requires HonestEntry(c, n, identity)
    ensures ListedNode(c, Obj(NodeDict(c, n, Get(identity, "entity_id"))), identity)
  {
    var id := Get(identity, "entity_id");
    var node, extras := NodeDict(c, n, id), Without(NodeExtras(c, n, id), {"effective_status"});
    assert ActiveAuthorization(c, Without(node, {"effective_status"}), identity) by {
      WithoutEffective(c, n, identity);
      NodeIsActive(c, n.signed, extras, identity);
    }
    ExtrasHold(c, n, id);
    NodeFields(c, n, identity, "revocation");
    if n.revocation.Some? { RevocationIsListed(c, n.revocation.value, identity); }
  }

  // ----- the package -----

  function DomainDict(id: Json, domainId: string): Entries {
    [Entry("entity_root", id), Entry("domain_id", Str(domainId))]
  }

  function Snapshot(c: Crypto, id: Json, domainId: string, name: Signed, nodes: seq<NodeEntry>, services: seq<Signed>)
    : Entries
  {
    [Entry("domain", Obj(DomainDict(id, domainId))), Entry("name_claim", Obj(Record(c, name, id))),
     Entry("nodes", Arr(NodeList(c, nodes, id))), Entry("services", Arr(ServiceList(c, services, id)))]
  }

  function ManifestFields(c: Crypto, identity: Entries, snap: Entries, domainId: string): Entries {
    [Entry("entity_root", Get(identity, "entity_id")), Entry("domain_id", Str(domainId)),
     Entry("identity_manifest_sha256", Str(c.hash(Canon(Obj(identity))))),
     Entry("domain_snapshot_sha256", Str(c.hash(Canon(Obj(snap)))))]
  }

  function PackageBody(identity: Entries, snap: Entries, manifest: Entries): Entries {
    [Entry("schema", Str("entity-domain-export-package-v1")), Entry("identity_manifest", Obj(identity)),
     Entry("domain_snapshot", Obj(snap)), Entry("export_manifest", Obj(manifest))]
  }

  function Package(c: Crypto, identity: Entries, snap: Entries, manifest: Entries): Entries {
    var body := PackageBody(identity, snap, manifest);
    body + [Entry("package_sha256", Str(c.hash(Canon(Obj(body)))))]
  }

  lemma {:induction false} PackageHolds(c: Crypto, identity: Entries, snap: Entries, manifest: Entries)
    ensures var pkg := Package(c, identity, snap, manifest);
            && Get(pkg, "schema") == Str("entity-domain-export-package-v1")
            && Get(pkg, "identity_manifest") == Obj(identity) && Get(pkg, "domain_snapshot") == Obj(snap)
            && Get(pkg, "export_manifest") == Obj(manifest)
            && Get(pkg, "package_sha256") == Str(c.hash(Canon(Obj(PackageBody(identity, snap, manifest)))))
  {
    var keys := ["schema", "identity_manifest", "domain_snapshot", "export_manifest", "package_sha256"];
    FieldsAt(Package(c, identity, snap, manifest), keys);
    assert keys[0] == "schema" && keys[1] == "identity_manifest" && keys[2] == "domain_snapshot";
    assert keys[3] == "export_manifest" && keys[4] == "package_sha256";
  }

  /** Without its digest a package is what the digest was taken of. */
  lemma {:induction false} PackageWithout(c: Crypto, identity: Entries, snap: Entries, manifest: Entries)
    ensures Without(Package(c, identity, snap, manifest), {"package_sha256"}) == PackageBody(identity, snap, manifest)
  {
    var body := PackageBody(identity, snap, manifest);
    WithoutAppended(body, [Entry("package_sha256", Str(c.hash(Canon(Obj(body)))))], {"package_sha256"});
  }

  lemma {:induction false} SnapshotHolds(c: Crypto, id: Json, domainId: string, name: Signed, nodes: seq<NodeEntry>,
                                         services: seq<Signed>)
    ensures var snap := Snapshot(c, id, domainId, name, nodes, services);
            && Get(snap, "domain") == Obj(DomainDict(id, domainId))
            && Get(snap, "name_claim") == Obj(Record(c, name, id)) && Get(snap, "nodes") == Arr(NodeList(c, nodes, id))
            && Get(snap, "services") == Arr(ServiceList(c, services, id))
            && !Truthy(Get(snap, "dns_authority_required")) && !Truthy(Get(snap, "btg_authority_required"))
            && !Truthy(Get(snap, "cloud_host_required"))
  {
    var keys := ["domain", "name_claim", "nodes", "services"];
    FieldsAt(Snapshot(c, id, domainId, name, nodes, services), keys);
    assert keys[0] == "domain" && keys[1] == "name_claim" && keys[2] == "nodes" && keys[3] == "services";
    NotDemanded(Snapshot(c, id, domainId, name, nodes, services), keys, "dns_authority_required");
    NotDemanded(Snapshot(c, id, domainId, name, nodes, services), keys, "btg_authority_required");
    NotDemanded(Snapshot(c, id, domainId, name, nodes, services), keys, "cloud_host_required");
  }

  lemma {:induction false} DomainHolds(id: Json, domainId: string)
    ensures var domain := DomainDict(id, domainId);
            Get(domain, "entity_root") == id && Get(domain, "domain_id") == Str(domainId) && Has(domain, "domain_id")
  {
    var keys := ["entity_root", "domain_id"];
    FieldsAt(DomainDict(id, domainId), keys);
    assert keys[0] == "entity_root" && keys[1] == "domain_id";
  }

  /** Everything the root signs for one domain. */
  ghost predicate HonestDomainOf(c: Crypto, identity: Entries, name: Signed, nodes: seq<NodeEntry>,
                                 services: seq<Signed>)
  {
    && HonestName(c, name, identity)
    && (forall i :: 0 <= i < |nodes| ==> HonestEntry(c, nodes[i], identity))
    && (forall i :: 0 <= i < |services| ==> HonestService(c, services[i], identity))
  }

  lemma {:induction false} SnapshotIsListed(c: Crypto, identity: Entries, domainId: string, name: Signed,
                                            nodes: seq<NodeEntry>, services: seq<Signed>)
    requires HonestDomainOf(c, identity, name, nodes, services)
    ensures SnapshotLists(c, Snapshot(c, Get(identity, "entity_id"), domainId, name, nodes, services), identity)
  {
    var id := Get(identity, "entity_id");
    SnapshotHolds(c, id, domainId, name, nodes, services);
    NameIsSigned(c, name, identity);
    forall i | 0 <= i < |nodes| ensures ListedNode(c, NodeList(c, nodes, id)[i], identity) {
      NodeIsListed(c, nodes[i], identity);
    }
    forall i | 0 <= i < |services| ensures ListedService(c, ServiceList(c, services, id)[i], identity) {
      ServiceIsPlain(c, services[i], identity);
    }
  }

  /** A manifest that commits to a domain of the identity. */
  ghost predicate Commits(c: Crypto, identity: Entries, snap: Entries, record: Entries, domainId: string) {
    && Get(record, "entity_root") == Get(identity, "entity_id") && Get(record, "domain_id") == Str(domainId)
    && Get(record, "identity_manifest_sha256") == Str(c.hash(Canon(Obj(identity))))
    && Get(record, "domain_snapshot_sha256") == Str(c.hash(Canon(Obj(snap))))
    && !Truthy(Get(record, "dns_required_for_interpretation"))
    && !Truthy(Get(record, "proprietary_btg_database_required"))
  }

  lemma {:induction false} NotDemanded(es: Entries, keys: seq<string>, k: string)
    requires Spells(es, keys) && k !in keys
    ensures !Truthy(Get(es, k))
  {
    forall i | 0 <= i < |es| ensures es[i].key != k { assert keys[i] in keys; }
    GetMissing(es, k);
  }

  const MANIFEST_KEYS :=
    ["entity_root", "domain_id", "identity_manifest_sha256", "domain_snapshot_sha256", "signature"]

  lemma {:induction false} ManifestCommits(c: Crypto, identity: Entries, snap: Entries, domainId: string,
                                           record: Entries)
    requires Spells(record, MANIFEST_KEYS) && record[..4] == ManifestFields(c, identity, snap, domainId)
    ensures Commits(c, identity, snap, record, domainId)
  {
    var keys := MANIFEST_KEYS;
    FieldsAt(record, keys);
    assert keys[0] == "entity_root" && keys[1] == "domain_id";
    assert keys[2] == "identity_manifest_sha256" && keys[3] == "domain_snapshot_sha256";
    assert forall i :: 0 <= i < 4 ==> record[i] == record[..4][i];
    NotDemanded(record, keys, "dns_required_for_interpretation");
    NotDemanded(record, keys, "proprietary_btg_database_required");
  }

  lemma {:induction false} CommittedWhen(c: Crypto, identity: Entries, snap: Entries, domain: Entries,
                                         record: Entries, domainId: string)
    requires Commits(c, identity, snap, record, domainId) && Vouches(c, record, Obj(identity))
    requires !Truthy(Get(snap, "dns_authority_required")) && !Truthy(Get(snap, "btg_authority_required"))
    requires !Truthy(Get(snap, "cloud_host_required"))
    requires Get(domain, "entity_root") == Get(identity, "entity_id") && Get(domain, "domain_id") == Str(domainId)
    ensures Committed(c, identity, snap, domain, record)
  {
    EqItself(Get(identity, "entity_id"));
    EqItself(Str(domainId));
  }

  lemma {:induction false} ManifestSpells(c: Crypto, manifest: Signed, identity: Entries, snap: Entries,
                                          domainId: string)
    requires manifest.fields == ManifestFields(c, identity, snap, domainId)
    ensures var record := Record(c, manifest, Get(identity, "entity_id"));
            Spells(record, MANIFEST_KEYS) && record[..4] == ManifestFields(c, identity, snap, domainId)
  {
    assert Record(c, manifest, Get(identity, "entity_id"))[..4] == manifest.fields;
  }

  lemma {:induction false} ManifestIsCommitted(c: Crypto, identity: Entries, snap: Entries, domain: Entries,
                                               domainId: string, manifest: Signed, record: Entries)
    requires SignedUnder(c, manifest, identity) && manifest.fields == ManifestFields(c, identity, snap, domainId)
    requires record == Record(c, manifest, Get(identity, "entity_id"))
    requires !Truthy(Get(snap, "dns_authority_required")) && !Truthy(Get(snap, "btg_authority_required"))
    requires !Truthy(Get(snap, "cloud_host_required"))
    requires Get(domain, "entity_root") == Get(identity, "entity_id") && Get(domain, "domain_id") == Str(domainId)
    ensures Committed(c, identity, snap, domain, record)
  {
    ManifestSpells(c, manifest, identity, snap, domainId);
    ManifestCommits(c, identity, snap, domainId, record);
    RecordIsVouched(c, manifest, identity);
    CommittedWhen(c, identity, snap, domain, record, domainId);
  }

  /** The package an honest root builds of its domain is accepted. */
  method VerifyHonestExport(c: Crypto, r: Root, domainId: string, name: Signed, nodes: seq<NodeEntry>,
                            services: seq<Signed>, manifest: Signed) returns (accepted: bool)
    requires HonestRoot(c, r) && HonestDomainOf(c, Identity(r), name, nodes, services)
    requires SignedUnder(c, manifest, Identity(r))
    requires manifest.fields
             == ManifestFields(c, Identity(r), Snapshot(c, Str(r.entityId), domainId, name, nodes, services), domainId)
    ensures accepted
  {
    var id, identity := Str(r.entityId), Identity(r);
    var snap := Snapshot(c, id, domainId, name, nodes, services);
    var pkg := Package(c, identity, snap, Record(c, manifest, id));
    IdentityHolds(r);
    IdentityIsVouched(c, r);
    PackageHolds(c, identity, snap, Record(c, manifest, id));
    PackageWithout(c, identity, snap, Record(c, manifest, id));
    SnapshotHolds(c, id, domainId, name, nodes, services);
    DomainHolds(id, domainId);
    SnapshotIsListed(c, identity, domainId, name, nodes, services);
    ManifestIsCommitted(c, identity, snap, DomainDict(id, domainId), domainId, manifest, Record(c, manifest, id));
    ExportExactly(c, Obj(pkg));
    assert SoundPackage(c, Obj(pkg));
    accepted := VerifyExport(c, Obj(pkg));
  }

  // ----- a resolution proof -----

  function Pair(c: Crypto, n: NodeEntry, service: Signed, id: Json): Json {
    Obj([Entry("node", Obj(NodeDict(c, n, id))), Entry("service", Obj(Record(c, service, id)))])
  }

  function PairList(c: Crypto, pairs: seq<(NodeEntry, Signed)>, id: Json): (r: seq<Json>)
    ensures |r| == |pairs| && forall i :: 0 <= i < |r| ==> r[i] == Pair(c, pairs[i].0, pairs[i].1, id)
  {
    if pairs == [] then [] else [Pair(c, pairs[0].0, pairs[0].1, id)] + PairList(c, pairs[1..], id)
  }

  function Proof(c: Crypto, id: Json, domainId: string, pairs: seq<(NodeEntry, Signed)>): Entries {
    [Entry("schema", Str("entity-resolution-proof-v1")), Entry("entity_root", id), Entry("domain_id", Str(domainId)),
     Entry("resolver_is_authority", Bool(false)), Entry("dns_used_as_authority", Bool(false)),
     Entry("services", Arr(PairList(c, pairs, id)))]
  }

  /** An active node of the domain and one of its services. */
  ghost predicate HonestPair(c: Crypto, n: NodeEntry, service: Signed, identity: Entries, domainId: string) {
    && HonestEntry(c, n, identity) && (n.effective.Some? ==> n.effective.value == "ACTIVE")
    && HonestService(c, service, identity)
    && Get(n.signed.fields, "domain_id") == Str(domainId) && Get(service.fields, "domain_id") == Str(domainId)
    && Get(n.signed.fields, "node_id") == Get(service.fields, "node_id")
  }

  lemma {:induction false} ProofHolds(c: Crypto, id: Json, domainId: string, pairs: seq<(NodeEntry, Signed)>)
    ensures var proof := Proof(c, id, domainId, pairs);
            && Get(proof, "schema") == Str("entity-resolution-proof-v1") && Get(proof, "entity_root") == id
            && Get(proof, "domain_id") == Str(domainId) && Get(proof, "resolver_is_authority") == Bool(false)
            && Get(proof, "dns_used_as_authority") == Bool(false)
            && Get(proof, "services") == Arr(PairList(c, pairs, id))
  {
    var keys := ["schema", "entity_root", "domain_id", "resolver_is_authority", "dns_used_as_authority", "services"];
    FieldsAt(Proof(c, id, domainId, pairs), keys);
    assert keys[0] == "schema" && keys[1] == "entity_root" && keys[2] == "domain_id";
    assert keys[3] == "resolver_is_authority" && keys[4] == "dns_used_as_authority" && keys[5] == "services";
  }

  lemma {:induction false} PairHolds(c: Crypto, n: NodeEntry, service: Signed, id: Json)
    ensures var pair := Pair(c, n, service, id).entries;
            Get(pair, "node") == Obj(NodeDict(c, n, id)) && Get(pair, "service") == Obj(Record(c, service, id))
  {
    var keys := ["node", "service"];
    FieldsAt(Pair(c, n, service, id).entries, keys);
    assert keys[0] == "node" && keys[1] == "service";
  }

  /** Fields that nothing is appended under are those the node was signed with. */
  lemma {:induction false} SignedFields(c: Crypto, n: NodeEntry, identity: Entries, k: string)
    requires HonestEntry(c, n, identity) && k !in NODE_EXTRAS && k != "signature"
    ensures Get(NodeDict(c, n, Get(identity, "entity_id")), k) == Get(n.signed.fields, k)
  {
    var id := Get(identity, "entity_id");
    RecordAvoids(c, n.signed, id, NODE_EXTRAS);
    ExtrasHold(c, n, id);
    AppendedFields(Record(c, n.signed, id), NodeExtras(c, n, id), NODE_EXTRAS, k);
    RecordFields(c, n.signed, id, k);
  }

  lemma {:induction false} PairBinds(c: Crypto, n: NodeEntry, service: Signed, identity: Entries, domainId: string)
    requires HonestPair(c, n, service, identity, domainId)
    ensures var node, svc := NodeDict(c, n, Get(identity, "entity_id")), Record(c, service, Get(identity, "entity_id"));
            && Get(node, "domain_id") == Str(domainId) == Get(svc, "domain_id")
            && Get(node, "node_id") == Get(svc, "node_id")
            && (Has(node, "effective_status") ==> Get(node, "effective_status") == Str("ACTIVE"))
  {
    var id := Get(identity, "entity_id");
    SignedFields(c, n, identity, "domain_id");
    SignedFields(c, n, identity, "node_id");
    RecordFields(c, service, id, "domain_id");
    RecordFields(c, service, id, "node_id");
    ExtrasHold(c, n, id);
    NodeFields(c, n, identity, "effective_status");
  }

  lemma {:induction false} PairIsProven(c: Crypto, n: NodeEntry, service: Signed, identity: Entries, domainId: string,
                                        proof: Entries)
    requires HonestPair(c, n, service, identity, domainId) && Get(proof, "domain_id") == Str(domainId)
    ensures ProvenPair(c, Pair(c, n, service, Get(identity, "entity_id")), proof, identity)
  {
    var id := Get(identity, "entity_id");
    PairHolds(c, n, service, id);
    ExtrasHold(c, n, id);
    NodeIsActive(c, n.signed, NodeExtras(c, n, id), identity);
    ServiceIsPlain(c, service, identity);
    PairBinds(c, n, service, identity, domainId);
    EqItself(Str(domainId));
    EqItself(Get(service.fields, "node_id"));
    EqItself(Get(Record(c, service, id), "node_id"));
  }

  /** A resolution proof over honest pairs is accepted. */
  method ValidateHonestProof(c: Crypto, identity: Entries, domainId: string, pairs: seq<(NodeEntry, Signed)>)
    returns (r: Option<bool>)
    requires identity != []
    requires forall i :: 0 <= i < |pairs| ==> HonestPair(c, pairs[i].0, pairs[i].1, identity, domainId)
    ensures r == Some(true)
  {
    var id := Get(identity, "entity_id");
    var proof := Proof(c, id, domainId, pairs);
    ProofHolds(c, id, domainId, pairs);
    EqItself(id);
    forall i | 0 <= i < |pairs| ensures ProvenPair(c, PairList(c, pairs, id)[i], proof, identity) {
      PairIsProven(c, pairs[i].0, pairs[i].1, identity, domainId, proof);
    }
    ProofExactly(c, proof, identity);
    r := Validate(c, ResolutionProof, Obj(proof), Obj(identity));
  }
}

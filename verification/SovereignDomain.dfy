/**
 Verification of identities, signed records, resolution proofs and domain export packages.
 The hash and the signature scheme are parameters; a reading that raises an exception gives None,
 except where the caller turns every exception into a refusal.
 */
module SovereignDomain {
  import opened Prelude
  import opened JsonValue
  import opened CanonicalOrder
  import opened CanonicalJson

  /**
   hash: SHA-256 in hex. verifies(key, signature, message): Ed25519 on base64 texts.
   toInt: Python's int() on a JSON value, None where it raises.
   */
  datatype Crypto = Crypto(hash: Bytes -> string, verifies: (string, string, Bytes) -> bool, toInt: Json -> Option<int>)

  function Sha(c: Crypto, v: Json): string { c.hash(Canon(v)) }

  // ----- Python equality, where True == 1 and False == 0 -----

  function Plain(v: Json): Json
    decreases v, 1
  {
    match v
    case Bool(b) => Num(if b then 1 else 0)
    case Arr(items) => Arr(PlainItems(items))
    case Obj(es) => Obj(PlainEntries(es))
    case _ => v
  }

  function PlainItems(items: seq<Json>): (r: seq<Json>)
    ensures |r| == |items| && forall i :: 0 <= i < |r| ==> r[i] == Plain(items[i])
    decreases items, 0
  {
    if items == [] then [] else [Plain(items[0])] + PlainItems(items[1..])
  }

  function PlainEntries(es: Entries): (r: Entries)
    ensures |r| == |es| && forall i :: 0 <= i < |r| ==> r[i] == Entry(es[i].key, Plain(es[i].value))
    decreases es, 0
  {
    if es == [] then [] else [Entry(es[0].key, Plain(es[0].value))] + PlainEntries(es[1..])
  }

  predicate Eq(v: Json, w: Json) { Normal(Plain(v)) == Normal(Plain(w)) }

  /** d.get(k, default) */
  function GetOr(es: Entries, k: string, default: Json): Json { if Has(es, k) then Get(es, k) else default }

  // ----- signatures -----

  datatype Lookup = Raised | Missing | Found(key: Entries)

  /** The first method with that key id; an entry that is not a dict raises. */
  function FindMethod(methods: seq<Json>, keyId: Json): Lookup {
    if methods == [] then Missing
    else if !methods[0].Obj? then Raised
    else if Eq(Get(methods[0].entries, "key_id"), keyId) then Found(methods[0].entries)
    else FindMethod(methods[1..], keyId)
  }

  function SigningMethod(identity: Entries, keyId: Json): Lookup {
    var methods := Get(identity, "verification_methods");
    if !Truthy(methods) then Missing
    else if methods.Arr? then FindMethod(methods.items, keyId)
    else Raised
  }

  predicate Ed25519Signed(c: Crypto, key: Entries, sig: Entries, message: Bytes) {
    && Get(key, "algorithm") == Str("Ed25519")
    && Get(key, "public_key").Str? && Get(sig, "signature").Str?
    && c.verifies(Get(key, "public_key").s, Get(sig, "signature").s, message)
  }

  predicate ActiveKeySigned(c: Crypto, found: Lookup, sig: Entries, message: Bytes) {
    found.Found? && Get(found.key, "status") == Str("active") && Ed25519Signed(c, found.key, sig, message)
  }

  predicate VerifyIdentity(c: Crypto, identity: Json) {
    && identity.Obj?
    && Get(identity.entries, "schema") == Str("sovereign-entity-manifest-v2")
    && var sig := Get(identity.entries, "signature");
    && sig.Obj?
    && var body := Without(identity.entries, {"signature"});
    && ActiveKeySigned(c, SigningMethod(body, Get(sig.entries, "key_id")), sig.entries, Canon(Obj(body)))
  }

  /** The part of a record its signature speaks for. */
  function Body(record: Entries): Json { Obj(Without(record, {"signature"})) }

  /** The signed header: everything in the signature but the signature bytes. */
  function Header(sig: Entries): Json { Obj(Without(sig, {"signature"})) }

  predicate VerifyRecord(c: Crypto, record: Json, identity: Json) {
    && record.Obj? && identity.Obj?
    && var sig := Get(record.entries, "signature");
    && sig.Obj?
    && var found := SigningMethod(identity.entries, Get(sig.entries, "key_id"));
    && found.Found?
    && Eq(Get(sig.entries, "entity_id"), Get(identity.entries, "entity_id"))
    && Eq(Get(sig.entries, "payload_sha256"), Str(Sha(c, Body(record.entries))))
    && Ed25519Signed(c, found.key, sig.entries, Canon(Header(sig.entries)))
  }

  // ----- the vectors of validate -----

  datatype Vector =
    | EntityRoot | NameClaim | NodeAuthorization | NodeRevocation | ServiceManifest
    | RelayAuthorization | DomainRestore | ResolutionProof | DomainExport
    | Rollback | RollbackDetection | StaleState | StaleHistory | Unsupported

  /** identity.get('entity_id') if identity else None */
  function RootOf(identity: Json): Option<Json> {
    if !Truthy(identity) then Some(Null)
    else if identity.Obj? then Some(Get(identity.entries, "entity_id"))
    else None
  }

  const AUTHORIZATION_EXTRAS := {"effective_status", "revocation"}
  const REVOCATION_EXTRAS := {"entity_root_unchanged", "historical_evidence_preserved", "status"}

  predicate Claimed(es: Entries, schema: string, root: Json) {
    Get(es, "schema") == Str(schema) && Eq(Get(es, "entity_root"), root)
  }

  predicate NameClaimOk(c: Crypto, m: Entries, identity: Json, root: Json) {
    Claimed(m, "entity-name-claim-v1", root) && VerifyRecord(c, Obj(m), identity)
  }

  predicate AuthorizationOk(c: Crypto, m: Entries, identity: Json, root: Json) {
    && Claimed(m, "entity-node-authorization-v1", root) && Get(m, "status") == Str("ACTIVE")
    && VerifyRecord(c, Obj(Without(m, AUTHORIZATION_EXTRAS)), identity)
  }

  predicate RevocationOk(c: Crypto, m: Entries, identity: Json, root: Json) {
    && Claimed(m, "entity-node-revocation-v1", root)
    && VerifyRecord(c, Obj(Without(m, REVOCATION_EXTRAS)), identity)
  }

  predicate ServiceOk(c: Crypto, m: Entries, identity: Json, root: Json) {
    && Claimed(m, "entity-service-manifest-v1", root) && Get(m, "provider_authority_inferred") == Bool(false)
    && VerifyRecord(c, Obj(m), identity)
  }

  predicate RelayOk(m: Entries) {
    && Get(m, "relay_is_authority") == Bool(false)
    && GetOr(m, "relay_is_owner", Bool(false)) == Bool(false)
    && GetOr(m, "relay_is_licensor", Bool(false)) == Bool(false)
  }

  /** The version under either of two names, zero when there is neither. */
  function VersionOf(c: Crypto, m: Entries, domainName: string, name: string): Option<int> {
    c.toInt(GetOr(m, domainName, GetOr(m, name, Num(0))))
  }

  /** The versions a rollback vector compares: the known one and the presented one. */
  function RollbackVersions(c: Crypto, m: Entries): Option<(int, int)> {
    match (VersionOf(c, m, "known_domain_version", "known_version"),
           VersionOf(c, m, "presented_domain_version", "presented_version"))
    case (Some(known), Some(shown)) => Some((known, shown))
    case _ => None
  }

  function RollbackOk(c: Crypto, m: Entries, detection: bool): Option<bool> {
    match RollbackVersions(c, m)
    case None => None
    case Some((known, shown)) =>
      Some(if detection then shown < known && Get(m, "expected") == Str("REJECT_CURRENT") else shown >= known)
  }

  /** The service manifest is at least as new as the version known. */
  function StaleOk(c: Crypto, m: Entries): Option<bool> {
    var svc, known := OrEmpty(Get(m, "service_manifest")), Get(m, "known_current_version");
    if !svc.Obj? then None
    else
      match (c.toInt(GetOr(svc.entries, "manifest_version", Num(0))), c.toInt(if Truthy(known) then known else Num(0)))
      case (Some(shown), Some(least)) => Some(shown >= least)
      case _ => None
  }

  /** v or {} */
  function OrEmpty(v: Json): Json { if Truthy(v) then v else Obj([]) }

  predicate ActiveNode(node: Entries) {
    GetOr(node, "effective_status", Get(node, "status")) == Str("ACTIVE")
  }

  /** One pair of a resolution proof binds one active node of the root and domain to one of its services. */
  predicate PairBound(proof: Entries, node: Entries, service: Entries, root: Json) {
    && Eq(Get(node, "entity_root"), root) && Eq(Get(service, "entity_root"), root)
    && Eq(Get(node, "domain_id"), Get(proof, "domain_id")) && Eq(Get(proof, "domain_id"), Get(service, "domain_id"))
    && Eq(Get(node, "node_id"), Get(service, "node_id")) && ActiveNode(node)
  }

  /** One turn of the loop over pairs: the new value of ok, or None where it raises. */
  function PairStep(c: Crypto, ok: bool, pair: Json, proof: Entries, identity: Json, root: Json): Option<bool> {
    if !pair.Obj? then None
    else
      var node, service := OrEmpty(Get(pair.entries, "node")), OrEmpty(Get(pair.entries, "service"));
      if !ok then Some(false)
      else if !node.Obj? then None
      else if !Eq(Get(node.entries, "entity_root"), root) then Some(false)
      else if !service.Obj? then None
      else Some(&& PairBound(proof, node.entries, service.entries, root)
                && AuthorizationOk(c, node.entries, identity, root)
                && ServiceOk(c, service.entries, identity, root))
  }

  function PairsOk(c: Crypto, ok: bool, pairs: seq<Json>, proof: Entries, identity: Json, root: Json): Option<bool> {
    if pairs == [] then Some(ok)
    else
      match PairStep(c, ok, pairs[0], proof, identity, root)
      case None => None
      case Some(b) => PairsOk(c, b, pairs[1..], proof, identity, root)
  }

  predicate ProofHead(m: Entries, root: Json) {
    && Claimed(m, "entity-resolution-proof-v1", root)
    && Get(m, "resolver_is_authority") == Bool(false) && Get(m, "dns_used_as_authority") == Bool(false)
  }

  function ProofOk(c: Crypto, m: Entries, identity: Json, root: Json): Option<bool> {
    var services := Get(m, "services");
    if !Truthy(services) then Some(ProofHead(m, root))
    else if services.Arr? then PairsOk(c, ProofHead(m, root), services.items, m, identity, root)
    else None
  }

  // ----- export packages -----

  predicate NodeOk(c: Crypto, node: Json, identity: Json, root: Json) {
    && node.Obj?
    && AuthorizationOk(c, Without(node.entries, {"effective_status"}), identity, root)
    && var rev := Get(node.entries, "revocation");
    && (Truthy(rev) ==> rev.Obj? && RevocationOk(c, rev.entries, identity, root))
  }

  /** A list that a loop walks: missing or empty counts as no elements, anything else must be a list. */
  function Elements(v: Json): Option<seq<Json>> {
    if !Truthy(v) then Some([]) else if v.Arr? then Some(v.items) else None
  }

  predicate ServiceListed(c: Crypto, svc: Json, identity: Json, root: Json) {
    svc.Obj? && ServiceOk(c, svc.entries, identity, root)
  }

  predicate NodesOk(c: Crypto, v: Json, identity: Json, root: Json) {
    && Elements(v).Some?
    && forall i :: 0 <= i < |Elements(v).value| ==> NodeOk(c, Elements(v).value[i], identity, root)
  }

  predicate ServicesOk(c: Crypto, v: Json, identity: Json, root: Json) {
    && Elements(v).Some?
    && forall i :: 0 <= i < |Elements(v).value| ==> ServiceListed(c, Elements(v).value[i], identity, root)
  }

  predicate NameOk(c: Crypto, v: Json, identity: Json, root: Json) {
    Truthy(v) ==> v.Obj? && NameClaimOk(c, v.entries, identity, root)
  }

  /** Every claim in the snapshot holds under the identity. */
  predicate SnapshotOk(c: Crypto, snap: Entries, identity: Json, root: Json) {
    && NameOk(c, Get(snap, "name_claim"), identity, root)
    && NodesOk(c, Get(snap, "nodes"), identity, root)
    && ServicesOk(c, Get(snap, "services"), identity, root)
  }

  /** The export manifest is the root's and commits to this identity and this snapshot. */
  predicate ManifestOk(c: Crypto, manifest: Entries, identity: Json, snap: Json, root: Json, domainId: Json) {
    && Eq(Get(manifest, "entity_root"), root) && Eq(Get(manifest, "domain_id"), domainId)
    && !Truthy(Get(manifest, "dns_required_for_interpretation"))
    && !Truthy(Get(manifest, "proprietary_btg_database_required"))
    && Eq(Get(manifest, "identity_manifest_sha256"), Str(Sha(c, identity)))
    && Eq(Get(manifest, "domain_snapshot_sha256"), Str(Sha(c, snap)))
    && VerifyRecord(c, Obj(manifest), identity)
  }

  /** The three parts of a package, read with the checks that guard the reading. */
  predicate Parts(pkg: Json) {
    && pkg.Obj? && Get(pkg.entries, "schema") == Str("entity-domain-export-package-v1")
    && Get(pkg.entries, "identity_manifest").Obj? && Has(Get(pkg.entries, "identity_manifest").entries, "entity_id")
    && Get(pkg.entries, "export_manifest").Obj?
    && var snap := Get(pkg.entries, "domain_snapshot");
    && snap.Obj? && Get(snap.entries, "domain").Obj? && Has(Get(snap.entries, "domain").entries, "domain_id")
  }

  function IdentityOf(pkg: Json): Json requires Parts(pkg) { Get(pkg.entries, "identity_manifest") }
  function SnapshotOf(pkg: Json): Json requires Parts(pkg) { Get(pkg.entries, "domain_snapshot") }
  function ManifestOf(pkg: Json): Json requires Parts(pkg) { Get(pkg.entries, "export_manifest") }
  function EntityOf(pkg: Json): Json requires Parts(pkg) { Get(IdentityOf(pkg).entries, "entity_id") }

  predicate ExportHead(c: Crypto, pkg: Json) {
    && Parts(pkg)
    && var snap := SnapshotOf(pkg).entries;
    && var domain := Get(snap, "domain").entries;
    && VerifyIdentity(c, IdentityOf(pkg))
    && Eq(Get(domain, "entity_root"), EntityOf(pkg))
    && !Truthy(Get(snap, "dns_authority_required")) && !Truthy(Get(snap, "btg_authority_required"))
    && !Truthy(Get(snap, "cloud_host_required"))
    && ManifestOk(c, ManifestOf(pkg).entries, IdentityOf(pkg), SnapshotOf(pkg), EntityOf(pkg), Get(domain, "domain_id"))
  }

  predicate PackageHash(c: Crypto, pkg: Entries) {
    Eq(Get(pkg, "package_sha256"), Str(Sha(c, Obj(Without(pkg, {"package_sha256"})))))
  }

  predicate ExportOk(c: Crypto, pkg: Json) {
    && ExportHead(c, pkg)
    && SnapshotOk(c, SnapshotOf(pkg).entries, IdentityOf(pkg), EntityOf(pkg))
    && PackageHash(c, pkg.entries)
  }

  /** A walk over a list, leaving at the first element that fails. */
  method VerifyEach(elements: seq<Json>, ok: Json -> bool) returns (accepted: bool)
    ensures accepted <==> forall i :: 0 <= i < |elements| ==> ok(elements[i])
  {
    for i := 0 to |elements|
      invariant forall k :: 0 <= k < i ==> ok(elements[k])
    {
      if !ok(elements[i]) { return false; }
    }
    accepted := true;
  }

  method VerifyNodes(c: Crypto, v: Json, identity: Json, root: Json) returns (accepted: bool)
    ensures accepted <==> NodesOk(c, v, identity, root)
  {
    var nodes := Elements(v);
    if nodes.None? { return false; }
    accepted := VerifyEach(nodes.value, node => NodeOk(c, node, identity, root));
  }

  method VerifyServices(c: Crypto, v: Json, identity: Json, root: Json) returns (accepted: bool)
    ensures accepted <==> ServicesOk(c, v, identity, root)
  {
    var services := Elements(v);
    if services.None? { return false; }
    accepted := VerifyEach(services.value, svc => ServiceListed(c, svc, identity, root));
  }

  method VerifyExport(c: Crypto, pkg: Json) returns (accepted: bool)
    ensures accepted <==> ExportOk(c, pkg)
  {
    accepted := ExportHead(c, pkg);
    if accepted {
      var snap, identity, root := SnapshotOf(pkg).entries, IdentityOf(pkg), EntityOf(pkg);
      accepted := NameOk(c, Get(snap, "name_claim"), identity, root);
      if accepted { accepted := VerifyNodes(c, Get(snap, "nodes"), identity, root); }
      if accepted { accepted := VerifyServices(c, Get(snap, "services"), identity, root); }
      if accepted { accepted := PackageHash(c, pkg.entries); }
    }
  }

  /** What validate answers, or None where it raises. */
  function Validated(c: Crypto, v: Vector, material: Json, identity: Json): Option<bool> {
    match RootOf(identity)
    case None => None
    case Some(root) =>
      if v.EntityRoot? then Some(VerifyIdentity(c, material))
      else if v.DomainExport? then Some(ExportOk(c, material))
      else if v.Unsupported? then Some(false)
      else if !material.Obj? then None
      else
        var m := material.entries;
        match v
        case NameClaim => Some(NameClaimOk(c, m, identity, root))
        case NodeAuthorization => Some(AuthorizationOk(c, m, identity, root))
        case NodeRevocation => Some(RevocationOk(c, m, identity, root))
        case ServiceManifest => Some(ServiceOk(c, m, identity, root))
        case RelayAuthorization => Some(RelayOk(m))
        case DomainRestore => Some(Get(m, "same_identity_required") == Bool(true) && Eq(Get(m, "entity_root"), root))
        case Rollback => RollbackOk(c, m, false)
        case RollbackDetection => RollbackOk(c, m, true)
        case StaleState => StaleOk(c, m)
        case StaleHistory => Some(Get(m, "current_authority") == Bool(false))
        case _ => ProofOk(c, m, identity, root)
  }

  /** Where the versions can be read, a rollback is detected exactly when it is refused and its refusal was expected. */
  lemma RollbackVectorsAgree(c: Crypto, m: Json, identity: Json)
    requires RootOf(identity).Some? && m.Obj? && RollbackVersions(c, m.entries).Some?
    ensures Validated(c, RollbackDetection, m, identity) == Some(true)
            <==> Validated(c, Rollback, m, identity) == Some(false)
                 && Get(m.entries, "expected") == Str("REJECT_CURRENT")
  {
  }

  method Validate(c: Crypto, v: Vector, material: Json, identity: Json) returns (r: Option<bool>)
    ensures r == Validated(c, v, material, identity)
  {
    var root := RootOf(identity);
    if root.None? { return None; }
    if v.DomainExport? {
      var accepted := VerifyExport(c, material);
      return Some(accepted);
    }
    if !v.ResolutionProof? || !material.Obj? { return Validated(c, v, material, identity); }
    var m := material.entries;
    var ok := ProofHead(m, root.value);
    var services := Elements(Get(m, "services"));
    if services.None? { return None; }
    var pairs := services.value;
    for i := 0 to |pairs|
      invariant ProofOk(c, m, identity, root.value) == PairsOk(c, ok, pairs[i..], m, identity, root.value)
    {
      assert pairs[i..][0] == pairs[i] && pairs[i..][1..] == pairs[i + 1..];
      var step := PairStep(c, ok, pairs[i], m, identity, root.value);
      if step.None? { return None; }
      ok := step.value;
    }
    r := Some(ok);
  }
}

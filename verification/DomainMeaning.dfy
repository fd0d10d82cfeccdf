/** What acceptance of identities, records, resolution proofs and packages means, spelt out field by field. */
module DomainMeaning {
  import opened Prelude
  import opened JsonValue
  import opened CanonicalOrder
  import opened CanonicalJson
  import opened SameValueFacts
  import opened SovereignDomain
  import opened DomainTheorems

  // ----- Python equality and truth -----

  /** Equality against a text, a number, a truth value and nothing; True is 1 and False is 0. */
  lemma {:induction false} EqPlain(v: Json, s: string, n: int)
    ensures Eq(v, Str(s)) <==> v == Str(s)
    ensures Eq(v, Num(n)) <==> v == Num(n) || (v == Bool(true) && n == 1) || (v == Bool(false) && n == 0)
    ensures Eq(v, Null) <==> v == Null
  {
  }

  lemma {:induction false} EqItself(v: Json)
    ensures Eq(v, v)
  {
  }

  /** What counts as false. */
  lemma {:induction false} FalsyValues(v: Json)
    ensures !Truthy(v) <==> v in {Null, Bool(false), Num(0), Str(""), Arr([]), Obj([])}
  {
  }

  // ----- signatures -----

  /** The i-th verification method is the first with that key id, and the ones before it are dicts. */
  ghost predicate KeyAt(identity: Entries, keyId: Json, i: int) {
    && Get(identity, "verification_methods").Arr?
    && var ms := Get(identity, "verification_methods").items;
    && 0 <= i < |ms| && ms[i].Obj? && Eq(Get(ms[i].entries, "key_id"), keyId)
    && forall j :: 0 <= j < i ==> ms[j].Obj? && !Eq(Get(ms[j].entries, "key_id"), keyId)
  }

  function MethodAt(identity: Entries, i: int): Entries {
    var methods := Get(identity, "verification_methods");
    if methods.Arr? && 0 <= i < |methods.items| && methods.items[i].Obj? then methods.items[i].entries else []
  }

  /** The method is an Ed25519 key whose signature on the message the stamp carries. */
  ghost predicate KeySigned(c: Crypto, key: Entries, stamp: Entries, message: Bytes) {
    && Get(key, "algorithm") == Str("Ed25519") && Get(key, "public_key").Str? && Get(stamp, "signature").Str?
    && c.verifies(Get(key, "public_key").s, Get(stamp, "signature").s, message)
  }

  /** The record's signature names the identity and the record's digest, and a key of the identity made it. */
  ghost predicate Vouches(c: Crypto, record: Entries, identity: Json) {
    && identity.Obj? && Get(record, "signature").Obj?
    && var stamp := Get(record, "signature").entries;
    && Eq(Get(stamp, "entity_id"), Get(identity.entries, "entity_id"))
    && Get(stamp, "payload_sha256") == Str(c.hash(Canon(Obj(Without(record, {"signature"})))))
    && exists i :: && KeyAt(identity.entries, Get(stamp, "key_id"), i)
                   && KeySigned(c, MethodAt(identity.entries, i), stamp, Canon(Obj(Without(stamp, {"signature"}))))
  }

  lemma {:induction false} FindIs(ms: seq<Json>, keyId: Json, i: nat)
    requires i < |ms| && ms[i].Obj? && Eq(Get(ms[i].entries, "key_id"), keyId)
    requires forall j :: 0 <= j < i ==> ms[j].Obj? && !Eq(Get(ms[j].entries, "key_id"), keyId)
    ensures FindMethod(ms, keyId) == Found(ms[i].entries)
  {
    if i > 0 {
      assert ms[0].Obj? && !Eq(Get(ms[0].entries, "key_id"), keyId);
      var rest := ms[1..];
      assert forall j :: 0 <= j < |rest| ==> rest[j] == ms[j + 1];
      FindIs(rest, keyId, i - 1);
    }
  }

  lemma {:induction false} FindFirst(ms: seq<Json>, keyId: Json) returns (i: nat)
    requires FindMethod(ms, keyId).Found?
    ensures i < |ms| && ms[i].Obj? && Eq(Get(ms[i].entries, "key_id"), keyId)
    ensures FindMethod(ms, keyId) == Found(ms[i].entries)
    ensures forall j :: 0 <= j < i ==> ms[j].Obj? && !Eq(Get(ms[j].entries, "key_id"), keyId)
  {
    i := 0;
    if !Eq(Get(ms[0].entries, "key_id"), keyId) {
      var rest := ms[1..];
      var k := FindFirst(rest, keyId);
      i := k + 1;
      assert forall j :: 0 < j < |ms| ==> ms[j] == rest[j - 1];
    }
  }

  lemma {:induction false} SigningIs(identity: Entries, keyId: Json, i: int)
    requires KeyAt(identity, keyId, i)
    ensures SigningMethod(identity, keyId) == Found(MethodAt(identity, i))
  {
    FindIs(Get(identity, "verification_methods").items, keyId, i);
  }

  /** The key used is the first method with the key id, and there is one exactly when the walk finds one. */
  lemma {:induction false} SigningExactly(identity: Entries, keyId: Json) returns (i: int)
    requires SigningMethod(identity, keyId).Found?
    ensures KeyAt(identity, keyId, i) && SigningMethod(identity, keyId) == Found(MethodAt(identity, i))
  {
    i := FindFirst(Get(identity, "verification_methods").items, keyId);
  }

  /** Record verification means just that. */
  lemma {:induction false} VerifyRecordExactly(c: Crypto, record: Entries, identity: Json)
    ensures VerifyRecord(c, Obj(record), identity) <==> Vouches(c, record, identity)
  {
    if identity.Obj? && Get(record, "signature").Obj? {
      var stamp := Get(record, "signature").entries;
      EqString(Get(stamp, "payload_sha256"), Sha(c, Body(record)));
      if VerifyRecord(c, Obj(record), identity) {
        var i := SigningExactly(identity.entries, Get(stamp, "key_id"));
      }
      if Vouches(c, record, identity) {
        var i :| KeyAt(identity.entries, Get(stamp, "key_id"), i)
          && KeySigned(c, MethodAt(identity.entries, i), stamp, Canon(Obj(Without(stamp, {"signature"}))));
        SigningIs(identity.entries, Get(stamp, "key_id"), i);
      }
    }
  }

  /** An identity is accepted when an active key of its own, under the key id it names, signed all of it. */
  ghost predicate VouchesItself(c: Crypto, identity: Entries) {
    && Get(identity, "schema") == Str("sovereign-entity-manifest-v2") && Get(identity, "signature").Obj?
    && var stamp := Get(identity, "signature").entries;
    && exists i :: && KeyAt(identity, Get(stamp, "key_id"), i) && Get(MethodAt(identity, i), "status") == Str("active")
                   && KeySigned(c, MethodAt(identity, i), stamp, Canon(Obj(Without(identity, {"signature"}))))
  }

  lemma {:induction false} VerifyIdentityExactly(c: Crypto, identity: Entries)
    ensures VerifyIdentity(c, Obj(identity)) <==> VouchesItself(c, identity)
  {
    if Get(identity, "signature").Obj? {
      var stamp := Get(identity, "signature").entries;
      WithoutGet(identity, {"signature"}, "verification_methods");
      var body := Without(identity, {"signature"});
      assert SigningMethod(body, Get(stamp, "key_id")) == SigningMethod(identity, Get(stamp, "key_id"));
      if VerifyIdentity(c, Obj(identity)) {
        var i := SigningExactly(identity, Get(stamp, "key_id"));
      }
      if VouchesItself(c, identity) {
        var i :| KeyAt(identity, Get(stamp, "key_id"), i) && Get(MethodAt(identity, i), "status") == Str("active")
          && KeySigned(c, MethodAt(identity, i), stamp, Canon(Obj(body)));
        SigningIs(identity, Get(stamp, "key_id"), i);
      }
    }
  }

  // ----- the signed vectors, spelt out -----

  ghost predicate Names(m: Entries, schema: string, identity: Entries) {
    Get(m, "schema") == Str(schema) && Eq(Get(m, "entity_root"), Get(identity, "entity_id"))
  }

  ghost predicate ActiveAuthorization(c: Crypto, m: Entries, identity: Entries) {
    && Names(m, "entity-node-authorization-v1", identity) && Get(m, "status") == Str("ACTIVE")
    && Vouches(c, Without(m, {"effective_status", "revocation"}), Obj(identity))
  }

  ghost predicate PlainService(c: Crypto, m: Entries, identity: Entries) {
    && Names(m, "entity-service-manifest-v1", identity) && Get(m, "provider_authority_inferred") == Bool(false)
    && Vouches(c, m, Obj(identity))
  }

  ghost predicate SignedRevoked(c: Crypto, m: Entries, identity: Entries) {
    && Names(m, "entity-node-revocation-v1", identity)
    && Vouches(c, Without(m, {"status", "entity_root_unchanged", "historical_evidence_preserved"}), Obj(identity))
  }

  ghost predicate SignedName(c: Crypto, m: Entries, identity: Entries) {
    Names(m, "entity-name-claim-v1", identity) && Vouches(c, m, Obj(identity))
  }

  lemma {:induction false} RecordVectors(c: Crypto, m: Entries, identity: Entries)
    ensures var root := Get(identity, "entity_id");
            && (AuthorizationOk(c, m, Obj(identity), root) <==> ActiveAuthorization(c, m, identity))
            && (ServiceOk(c, m, Obj(identity), root) <==> PlainService(c, m, identity))
            && (RevocationOk(c, m, Obj(identity), root) <==> SignedRevoked(c, m, identity))
            && (NameClaimOk(c, m, Obj(identity), root) <==> SignedName(c, m, identity))
  {
    VerifyRecordExactly(c, m, Obj(identity));
    VerifyRecordExactly(c, Without(m, AUTHORIZATION_EXTRAS), Obj(identity));
    VerifyRecordExactly(c, Without(m, REVOCATION_EXTRAS), Obj(identity));
    assert REVOCATION_EXTRAS == {"status", "entity_root_unchanged", "historical_evidence_preserved"};
  }

  lemma {:induction false} Dispatched(c: Crypto, v: Vector, m: Entries, identity: Entries)
    requires identity != []
    ensures var id, root, answer := Obj(identity), Get(identity, "entity_id"), Validated(c, v, Obj(m), Obj(identity));
            && (v.EntityRoot? ==> answer == Some(VerifyIdentity(c, Obj(m))))
            && (v.NameClaim? ==> answer == Some(NameClaimOk(c, m, id, root)))
            && (v.NodeAuthorization? ==> answer == Some(AuthorizationOk(c, m, id, root)))
            && (v.NodeRevocation? ==> answer == Some(RevocationOk(c, m, id, root)))
            && (v.ServiceManifest? ==> answer == Some(ServiceOk(c, m, id, root)))
            && (v.ResolutionProof? ==> answer == ProofOk(c, m, id, root))
  {
  }

  /** What validate accepts of each signed vector, for an identity that is a dict with something in it. */
  lemma {:induction false} ValidateExactly(c: Crypto, m: Entries, identity: Entries)
    requires identity != []
    ensures Validated(c, EntityRoot, Obj(m), Obj(identity)) == Some(VouchesItself(c, m))
    ensures Validated(c, NameClaim, Obj(m), Obj(identity)) == Some(SignedName(c, m, identity))
    ensures Validated(c, NodeAuthorization, Obj(m), Obj(identity)) == Some(ActiveAuthorization(c, m, identity))
    ensures Validated(c, NodeRevocation, Obj(m), Obj(identity)) == Some(SignedRevoked(c, m, identity))
    ensures Validated(c, ServiceManifest, Obj(m), Obj(identity)) == Some(PlainService(c, m, identity))
  {
    Dispatched(c, EntityRoot, m, identity);
    Dispatched(c, NameClaim, m, identity);
    Dispatched(c, NodeAuthorization, m, identity);
    Dispatched(c, NodeRevocation, m, identity);
    Dispatched(c, ServiceManifest, m, identity);
    VerifyIdentityExactly(c, m);
    RecordVectors(c, m, identity);
  }

  ghost predicate FalseOrMissing(m: Entries, k: string) { !Has(m, k) || Get(m, k) == Bool(false) }

  /** The vectors without a signature. */
  lemma {:induction false} PlainVectorsExactly(c: Crypto, m: Entries, identity: Entries)
    requires identity != []
    ensures Validated(c, RelayAuthorization, Obj(m), Obj(identity))
            == Some(&& Get(m, "relay_is_authority") == Bool(false)
                    && FalseOrMissing(m, "relay_is_owner") && FalseOrMissing(m, "relay_is_licensor"))
    ensures Validated(c, DomainRestore, Obj(m), Obj(identity))
            == Some(&& Get(m, "same_identity_required") == Bool(true)
                    && Eq(Get(m, "entity_root"), Get(identity, "entity_id")))
    ensures Validated(c, StaleHistory, Obj(m), Obj(identity)) == Some(Get(m, "current_authority") == Bool(false))
    ensures Validated(c, Unsupported, Obj(m), Obj(identity)) == Some(false)
  {
  }

  /** Versions as they are compared: the domain's name first, then the short name, then zero. */
  lemma {:induction false} VersionVectors(c: Crypto, m: Entries, identity: Entries, known: int, shown: int)
    requires identity != []
    requires c.toInt(if Has(m, "known_domain_version") then Get(m, "known_domain_version")
                     else if Has(m, "known_version") then Get(m, "known_version") else Num(0)) == Some(known)
    requires c.toInt(if Has(m, "presented_domain_version") then Get(m, "presented_domain_version")
                     else if Has(m, "presented_version") then Get(m, "presented_version") else Num(0)) == Some(shown)
    ensures Validated(c, Rollback, Obj(m), Obj(identity)) == Some(shown >= known)
    ensures Validated(c, RollbackDetection, Obj(m), Obj(identity))
            == Some(shown < known && Get(m, "expected") == Str("REJECT_CURRENT"))
  {
  }

  lemma {:induction false} StaleVector(c: Crypto, m: Entries, identity: Entries, svc: Entries, shown: int, known: int)
    requires identity != [] && svc != [] && Get(m, "service_manifest") == Obj(svc)
    requires c.toInt(if Has(svc, "manifest_version") then Get(svc, "manifest_version") else Num(0)) == Some(shown)
    requires c.toInt(if Truthy(Get(m, "known_current_version")) then Get(m, "known_current_version") else Num(0))
             == Some(known)
    ensures Validated(c, StaleState, Obj(m), Obj(identity)) == Some(shown >= known)
  {
  }

  // ----- accepted proofs and packages, spelt out -----

  /** A node counts as active by its effective status, or by its status where it has no effective one. */
  lemma ActiveNodeMeans(node: Entries)
    ensures ActiveNode(node)
            <==> var current := if Has(node, "effective_status") then "effective_status" else "status";
                 Get(node, current) == Str("ACTIVE")
  {
  }

  /** One node of the root and the domain, active now, with one of its services, both vouched for. */
  ghost predicate ProvenPair(c: Crypto, pair: Json, proof: Entries, identity: Entries) {
    && pair.Obj? && Get(pair.entries, "node").Obj? && Get(pair.entries, "service").Obj?
    && var node, service := Get(pair.entries, "node").entries, Get(pair.entries, "service").entries;
    && ActiveAuthorization(c, node, identity) && PlainService(c, service, identity)
    && Eq(Get(node, "domain_id"), Get(proof, "domain_id")) && Eq(Get(proof, "domain_id"), Get(service, "domain_id"))
    && Eq(Get(node, "node_id"), Get(service, "node_id"))
    && (Has(node, "effective_status") ==> Get(node, "effective_status") == Str("ACTIVE"))
  }

  ghost predicate ProvenHead(proof: Entries, identity: Entries) {
    && Names(proof, "entity-resolution-proof-v1", identity)
    && Get(proof, "resolver_is_authority") == Bool(false) && Get(proof, "dns_used_as_authority") == Bool(false)
  }

  lemma {:induction false} PairExactly(c: Crypto, pair: Json, proof: Entries, identity: Entries)
    ensures PairAccepted(c, pair, proof, Obj(identity), Get(identity, "entity_id"))
            <==> ProvenPair(c, pair, proof, identity)
  {
    if pair.Obj? && Get(pair.entries, "node").Obj? && Get(pair.entries, "service").Obj? {
      var node, service := Get(pair.entries, "node").entries, Get(pair.entries, "service").entries;
      RecordVectors(c, node, identity);
      RecordVectors(c, service, identity);
      ActiveNodeMeans(node);
    }
  }

  lemma {:induction false} StepTakes(c: Crypto, pair: Json, proof: Entries, identity: Json, root: Json)
    requires PairAccepted(c, pair, proof, identity, root)
    ensures PairStep(c, true, pair, proof, identity, root) == Some(true)
  {
    var node, service := Get(pair.entries, "node"), Get(pair.entries, "service");
    NonEmpty(node.entries, "schema");
    NonEmpty(service.entries, "schema");
  }

  lemma {:induction false} NonEmpty(es: Entries, k: string)
    requires Get(es, k) != Null
    ensures Truthy(Obj(es))
  {
  }

  lemma {:induction false} PairsTake(c: Crypto, pairs: seq<Json>, proof: Entries, identity: Json, root: Json)
    requires forall i :: 0 <= i < |pairs| ==> PairAccepted(c, pairs[i], proof, identity, root)
    ensures PairsOk(c, true, pairs, proof, identity, root) == Some(true)
  {
    if pairs != [] {
      StepTakes(c, pairs[0], proof, identity, root);
      PairsTake(c, pairs[1..], proof, identity, root);
    }
  }

  lemma {:induction false} AllPairsExactly(c: Crypto, proof: Entries, identity: Json, root: Json)
    requires Get(proof, "services").Arr?
    ensures ProofOk(c, proof, identity, root) == Some(true)
            <==> && ProofHead(proof, root)
                 && forall i :: 0 <= i < |Get(proof, "services").items| ==>
                      PairAccepted(c, Get(proof, "services").items[i], proof, identity, root)
  {
    var pairs := Get(proof, "services").items;
    if ProofOk(c, proof, identity, root) == Some(true) {
      if pairs != [] { TrueAtStart(c, ProofHead(proof, root), pairs, proof, identity, root); }
      forall i | 0 <= i < |pairs| ensures PairAccepted(c, pairs[i], proof, identity, root) {
        ProofPairs(c, proof, identity, root, i);
      }
    }
    if forall i :: 0 <= i < |pairs| ==> PairAccepted(c, pairs[i], proof, identity, root) {
      PairsTake(c, pairs, proof, identity, root);
    }
  }

  ghost predicate ProvenPairs(c: Crypto, proof: Entries, identity: Entries) {
    && Get(proof, "services").Arr?
    && forall i :: 0 <= i < |Get(proof, "services").items| ==>
         ProvenPair(c, Get(proof, "services").items[i], proof, identity)
  }

  lemma {:induction false} PairsExactly(c: Crypto, proof: Entries, identity: Entries)
    requires Get(proof, "services").Arr?
    ensures ProvenPairs(c, proof, identity)
            <==> forall i :: 0 <= i < |Get(proof, "services").items| ==>
                   PairAccepted(c, Get(proof, "services").items[i], proof, Obj(identity), Get(identity, "entity_id"))
  {
    var pairs := Get(proof, "services").items;
    forall i | 0 <= i < |pairs|
      ensures PairAccepted(c, pairs[i], proof, Obj(identity), Get(identity, "entity_id"))
              <==> ProvenPair(c, pairs[i], proof, identity)
    {
      PairExactly(c, pairs[i], proof, identity);
    }
  }

  /**
   A resolution proof is accepted exactly when its head is in order and its services are missing, or are a list of pairs
   in order.
   */
  lemma {:induction false} ProofExactly(c: Crypto, proof: Entries, identity: Entries)
    requires identity != []
    ensures Validated(c, ResolutionProof, Obj(proof), Obj(identity)) == Some(true)
            <==> && ProvenHead(proof, identity)
                 && (!Truthy(Get(proof, "services")) || ProvenPairs(c, proof, identity))
  {
    Dispatched(c, ResolutionProof, proof, identity);
    if Get(proof, "services").Arr? {
      AllPairsExactly(c, proof, Obj(identity), Get(identity, "entity_id"));
      PairsExactly(c, proof, identity);
    }
  }

  /** The loop cannot read the pair: a part that is neither missing nor a dict, met while it is still looked at. */
  ghost predicate Unreadable(pair: Entries, identity: Entries) {
    var node, service := Get(pair, "node"), Get(pair, "service");
    || (Truthy(node) && !node.Obj?)
    || (&& Truthy(service) && !service.Obj?
        && Eq(if Truthy(node) && node.Obj? then Get(node.entries, "entity_root") else Null, Get(identity, "entity_id")))
  }

  /** The loop raises at the i-th pair: it is no dict, or all before it were in order and it cannot be read. */
  ghost predicate RaisesAt(c: Crypto, ok: bool, pairs: seq<Json>, proof: Entries, identity: Entries, i: int) {
    && 0 <= i < |pairs|
    && (!pairs[i].Obj?
        || (&& ok && (forall j :: 0 <= j < i ==> ProvenPair(c, pairs[j], proof, identity))
            && Unreadable(pairs[i].entries, identity)))
  }

  lemma {:induction false} StepExactly(c: Crypto, ok: bool, pair: Json, proof: Entries, identity: Entries)
    ensures var step := PairStep(c, ok, pair, proof, Obj(identity), Get(identity, "entity_id"));
            && (step.None? <==> !pair.Obj? || (ok && Unreadable(pair.entries, identity)))
            && (step.Some? ==> (step.value <==> ok && ProvenPair(c, pair, proof, identity)))
  {
    var root := Get(identity, "entity_id");
    PairExactly(c, pair, proof, identity);
    if PairAccepted(c, pair, proof, Obj(identity), root) {
      StepTakes(c, pair, proof, Obj(identity), root);
    }
    if PairStep(c, ok, pair, proof, Obj(identity), root) == Some(true) {
      StepAccepts(c, ok, pair, proof, Obj(identity), root);
    }
  }

  lemma {:induction false} RaisesBehind(c: Crypto, ok: bool, pairs: seq<Json>, proof: Entries, identity: Entries,
                                        next: bool, rest: seq<Json>)
    requires pairs != [] && next == (ok && ProvenPair(c, pairs[0], proof, identity)) && rest == pairs[1..]
    ensures RaisesAt(c, ok, pairs, proof, identity, 0)
            <==> !pairs[0].Obj? || (ok && Unreadable(pairs[0].entries, identity))
    ensures forall i :: RaisesAt(c, next, rest, proof, identity, i)
              <==> i >= 0 && RaisesAt(c, ok, pairs, proof, identity, i + 1)
  {
    assert forall j :: 0 <= j < |rest| ==> rest[j] == pairs[j + 1];
    assert forall j :: 0 < j < |pairs| ==> pairs[j] == rest[j - 1];
  }

  lemma {:induction false} RaisesLater(c: Crypto, ok: bool, pairs: seq<Json>, proof: Entries, identity: Entries,
                                       next: bool, rest: seq<Json>)
    requires pairs != [] && next == (ok && ProvenPair(c, pairs[0], proof, identity)) && rest == pairs[1..]
    requires pairs[0].Obj? && !(ok && Unreadable(pairs[0].entries, identity))
    ensures (exists i :: RaisesAt(c, ok, pairs, proof, identity, i))
            <==> exists i :: RaisesAt(c, next, rest, proof, identity, i)
  {
    RaisesBehind(c, ok, pairs, proof, identity, next, rest);
    if i :| RaisesAt(c, ok, pairs, proof, identity, i) { assert RaisesAt(c, next, rest, proof, identity, i - 1); }
    if i :| RaisesAt(c, next, rest, proof, identity, i) { assert RaisesAt(c, ok, pairs, proof, identity, i + 1); }
  }

  lemma {:induction false} PairsRaise(c: Crypto, ok: bool, pairs: seq<Json>, proof: Entries, identity: Entries)
    ensures PairsOk(c, ok, pairs, proof, Obj(identity), Get(identity, "entity_id")).None?
            <==> exists i :: RaisesAt(c, ok, pairs, proof, identity, i)
  {
    if pairs != [] {
      var rest, next := pairs[1..], ok && ProvenPair(c, pairs[0], proof, identity);
      StepExactly(c, ok, pairs[0], proof, identity);
      if PairStep(c, ok, pairs[0], proof, Obj(identity), Get(identity, "entity_id")).None? {
        assert RaisesAt(c, ok, pairs, proof, identity, 0);
      } else {
        PairsRaise(c, next, rest, proof, identity);
        RaisesLater(c, ok, pairs, proof, identity, next, rest);
      }
    }
  }

  /** A resolution proof raises exactly when its services are no list, or the loop raises at one of them. */
  lemma {:induction false} ProofRaises(c: Crypto, proof: Entries, identity: Entries)
    requires identity != []
    ensures var services := Get(proof, "services");
            Validated(c, ResolutionProof, Obj(proof), Obj(identity)).None?
            <==> && Truthy(services)
                 && (!services.Arr?
                     || exists i :: RaisesAt(c, ProvenHead(proof, identity), services.items, proof, identity, i))
  {
    Dispatched(c, ResolutionProof, proof, identity);
    if Get(proof, "services").Arr? {
      PairsRaise(c, ProvenHead(proof, identity), Get(proof, "services").items, proof, identity);
    }
  }

  ghost predicate ListedNode(c: Crypto, node: Json, identity: Entries) {
    && node.Obj? && ActiveAuthorization(c, Without(node.entries, {"effective_status"}), identity)
    && var rev := Get(node.entries, "revocation");
    && (Truthy(rev) ==> rev.Obj? && SignedRevoked(c, rev.entries, identity))
  }

  ghost predicate ListedService(c: Crypto, service: Json, identity: Entries) {
    service.Obj? && PlainService(c, service.entries, identity)
  }

  lemma {:induction false} ListedExactly(c: Crypto, v: Json, identity: Entries)
    ensures var root := Get(identity, "entity_id");
            && (NodeOk(c, v, Obj(identity), root) <==> ListedNode(c, v, identity))
            && (ServiceListed(c, v, Obj(identity), root) <==> ListedService(c, v, identity))
  {
    if v.Obj? {
      RecordVectors(c, v.entries, identity);
      RecordVectors(c, Without(v.entries, {"effective_status"}), identity);
      var rev := Get(v.entries, "revocation");
      if rev.Obj? { RecordVectors(c, rev.entries, identity); }
    }
  }

  /** Every node of an accepted package is an active authorization, each service plain, and all are vouched for. */
  lemma {:induction false} ExportLists(c: Crypto, pkg: Json)
    requires ExportOk(c, pkg)
    ensures var identity, snap := IdentityOf(pkg).entries, SnapshotOf(pkg).entries;
            && (forall i :: 0 <= i < |Nodes(pkg)| ==> ListedNode(c, Nodes(pkg)[i], identity))
            && (forall i :: 0 <= i < |Services(pkg)| ==> ListedService(c, Services(pkg)[i], identity))
            && (Truthy(Get(snap, "name_claim")) ==>
                  Get(snap, "name_claim").Obj? && SignedName(c, Get(snap, "name_claim").entries, identity))
            && VouchesItself(c, identity) && Vouches(c, ManifestOf(pkg).entries, Obj(identity))
  {
    var identity, snap := IdentityOf(pkg).entries, SnapshotOf(pkg).entries;
    forall i | 0 <= i < |Nodes(pkg)| ensures ListedNode(c, Nodes(pkg)[i], identity) {
      ListedExactly(c, Nodes(pkg)[i], identity);
    }
    forall i | 0 <= i < |Services(pkg)| ensures ListedService(c, Services(pkg)[i], identity) {
      ListedExactly(c, Services(pkg)[i], identity);
    }
    if Get(snap, "name_claim").Obj? { RecordVectors(c, Get(snap, "name_claim").entries, identity); }
    VerifyIdentityExactly(c, identity);
    VerifyRecordExactly(c, ManifestOf(pkg).entries, Obj(identity));
  }

  /** A package with all its parts, under its schema. */
  ghost predicate Packed(pkg: Json) {
    && pkg.Obj? && Get(pkg.entries, "schema") == Str("entity-domain-export-package-v1")
    && Get(pkg.entries, "identity_manifest").Obj? && Has(Get(pkg.entries, "identity_manifest").entries, "entity_id")
    && Get(pkg.entries, "export_manifest").Obj? && Get(pkg.entries, "domain_snapshot").Obj?
    && var snap := Get(pkg.entries, "domain_snapshot").entries;
    && Get(snap, "domain").Obj? && Has(Get(snap, "domain").entries, "domain_id")
  }

  /** The domain and the manifest are the identity's, nothing outside is needed, and the manifest names both digests. */
  ghost predicate Committed(c: Crypto, identity: Entries, snap: Entries, domain: Entries, manifest: Entries) {
    && Eq(Get(domain, "entity_root"), Get(identity, "entity_id"))
    && Eq(Get(manifest, "entity_root"), Get(identity, "entity_id"))
    && Eq(Get(manifest, "domain_id"), Get(domain, "domain_id"))
    && !Truthy(Get(snap, "dns_authority_required")) && !Truthy(Get(snap, "btg_authority_required"))
    && !Truthy(Get(snap, "cloud_host_required")) && !Truthy(Get(manifest, "dns_required_for_interpretation"))
    && !Truthy(Get(manifest, "proprietary_btg_database_required"))
    && Get(manifest, "identity_manifest_sha256") == Str(c.hash(Canon(Obj(identity))))
    && Get(manifest, "domain_snapshot_sha256") == Str(c.hash(Canon(Obj(snap))))
    && Vouches(c, manifest, Obj(identity))
  }

  ghost predicate Listing(v: Json) { !Truthy(v) || v.Arr? }

  ghost predicate SnapshotLists(c: Crypto, snap: Entries, identity: Entries) {
    var name, nodes, services := Get(snap, "name_claim"), Get(snap, "nodes"), Get(snap, "services");
    && (Truthy(name) ==> name.Obj? && SignedName(c, name.entries, identity))
    && Listing(nodes) && (nodes.Arr? ==> forall i :: 0 <= i < |nodes.items| ==> ListedNode(c, nodes.items[i], identity))
    && Listing(services)
    && (services.Arr? ==> forall i :: 0 <= i < |services.items| ==> ListedService(c, services.items[i], identity))
  }

  lemma {:induction false} SnapshotExactly(c: Crypto, snap: Entries, identity: Entries)
    ensures SnapshotOk(c, snap, Obj(identity), Get(identity, "entity_id")) <==> SnapshotLists(c, snap, identity)
  {
    var name, nodes, services := Get(snap, "name_claim"), Get(snap, "nodes"), Get(snap, "services");
    if name.Obj? { RecordVectors(c, name.entries, identity); }
    if nodes.Arr? {
      forall i | 0 <= i < |nodes.items|
        ensures NodeOk(c, nodes.items[i], Obj(identity), Get(identity, "entity_id"))
                <==> ListedNode(c, nodes.items[i], identity)
      {
        ListedExactly(c, nodes.items[i], identity);
      }
    }
    if services.Arr? {
      forall i | 0 <= i < |services.items|
        ensures ServiceListed(c, services.items[i], Obj(identity), Get(identity, "entity_id"))
                <==> ListedService(c, services.items[i], identity)
      {
        ListedExactly(c, services.items[i], identity);
      }
    }
  }

  lemma {:induction false} ManifestExactly(c: Crypto, identity: Entries, snap: Entries, domain: Entries,
                                           manifest: Entries)
    ensures && Eq(Get(domain, "entity_root"), Get(identity, "entity_id"))
            && !Truthy(Get(snap, "dns_authority_required")) && !Truthy(Get(snap, "btg_authority_required"))
            && !Truthy(Get(snap, "cloud_host_required"))
            && ManifestOk(c, manifest, Obj(identity), Obj(snap), Get(identity, "entity_id"), Get(domain, "domain_id"))
            <==> Committed(c, identity, snap, domain, manifest)
  {
    VerifyRecordExactly(c, manifest, Obj(identity));
    EqString(Get(manifest, "identity_manifest_sha256"), Sha(c, Obj(identity)));
    EqString(Get(manifest, "domain_snapshot_sha256"), Sha(c, Obj(snap)));
  }

  /** A self-signed identity, a manifest and a snapshot that it vouches for, and the digest of the whole. */
  ghost predicate SoundPackage(c: Crypto, pkg: Json) {
    && Packed(pkg)
    && var identity, snap := Get(pkg.entries, "identity_manifest").entries, Get(pkg.entries, "domain_snapshot").entries;
    && VouchesItself(c, identity)
    && Committed(c, identity, snap, Get(snap, "domain").entries, Get(pkg.entries, "export_manifest").entries)
    && SnapshotLists(c, snap, identity)
    && Get(pkg.entries, "package_sha256") == Str(c.hash(Canon(Obj(Without(pkg.entries, {"package_sha256"})))))
  }

  lemma {:induction false} HeadParts(c: Crypto, pkg: Json, identity: Entries, snap: Entries, domain: Entries,
                                     manifest: Entries)
    requires Parts(pkg) && IdentityOf(pkg) == Obj(identity) && SnapshotOf(pkg) == Obj(snap)
    requires Get(snap, "domain") == Obj(domain) && ManifestOf(pkg) == Obj(manifest)
    ensures ExportHead(c, pkg) <==> VerifyIdentity(c, Obj(identity)) && Committed(c, identity, snap, domain, manifest)
  {
    ManifestExactly(c, identity, snap, domain, manifest);
  }

  lemma {:induction false} ExportParts(c: Crypto, pkg: Json, identity: Entries, snap: Entries, domain: Entries,
                                       manifest: Entries)
    requires Packed(pkg) && Get(pkg.entries, "identity_manifest") == Obj(identity)
    requires Get(pkg.entries, "domain_snapshot") == Obj(snap) && Get(snap, "domain") == Obj(domain)
    requires Get(pkg.entries, "export_manifest") == Obj(manifest)
    ensures ExportOk(c, pkg) <==>
              && VerifyIdentity(c, Obj(identity)) && Committed(c, identity, snap, domain, manifest)
              && SnapshotOk(c, snap, Obj(identity), Get(identity, "entity_id")) && PackageHash(c, pkg.entries)
  {
    HeadParts(c, pkg, identity, snap, domain, manifest);
  }

  /** Exactly the sound packages are accepted. */
  lemma {:induction false} ExportExactly(c: Crypto, pkg: Json)
    ensures ExportOk(c, pkg) <==> SoundPackage(c, pkg)
  {
    if Packed(pkg) {
      var identity, snap := Get(pkg.entries, "identity_manifest").entries, Get(pkg.entries, "domain_snapshot").entries;
      VerifyIdentityExactly(c, identity);
      ExportParts(c, pkg, identity, snap, Get(snap, "domain").entries, Get(pkg.entries, "export_manifest").entries);
      SnapshotExactly(c, snap, identity);
      EqString(Get(pkg.entries, "package_sha256"), Sha(c, Obj(Without(pkg.entries, {"package_sha256"}))));
    }
  }

  lemma {:induction false} NothingSigned(c: Crypto, record: Json, identity: Json)
    requires !Truthy(identity)
    ensures !VerifyRecord(c, record, identity)
  {
    if identity.Obj? { assert Get(identity.entries, "verification_methods") == Null; }
  }

  /** Without an identity nothing signed by one is accepted. */
  lemma {:induction false} WithoutIdentity(c: Crypto, m: Entries, identity: Json)
    requires !Truthy(identity)
    ensures Validated(c, NameClaim, Obj(m), identity) == Some(false) == Validated(c, ServiceManifest, Obj(m), identity)
    ensures Validated(c, NodeAuthorization, Obj(m), identity) == Some(false)
            && Validated(c, NodeRevocation, Obj(m), identity) == Some(false)
  {
    NothingSigned(c, Obj(m), identity);
    NothingSigned(c, Obj(Without(m, AUTHORIZATION_EXTRAS)), identity);
    NothingSigned(c, Obj(Without(m, REVOCATION_EXTRAS)), identity);
  }

  lemma OwnIdentityDispatched(c: Crypto, m: Json, identity: Json)
    requires RootOf(identity) == Some(Null)
    ensures Validated(c, EntityRoot, m, identity) == Some(VerifyIdentity(c, m))
  {
  }

  lemma ExportDispatched(c: Crypto, m: Json, identity: Json)
    requires RootOf(identity).Some?
    ensures Validated(c, DomainExport, m, identity) == Some(ExportOk(c, m))
  {
  }

  lemma OwnRestoreDispatched(c: Crypto, m: Entries, identity: Json)
    requires RootOf(identity) == Some(Null)
    ensures Validated(c, DomainRestore, Obj(m), identity)
            == Some(Get(m, "same_identity_required") == Bool(true) && Eq(Get(m, "entity_root"), Null))
  {
  }

  /** What carries its own identity is judged as ever, and only what names no root is restored. */
  lemma {:induction false} OwnIdentity(c: Crypto, m: Entries, identity: Json)
    requires !Truthy(identity)
    ensures Validated(c, EntityRoot, Obj(m), identity) == Some(VouchesItself(c, m))
    ensures Validated(c, DomainRestore, Obj(m), identity)
            == Some(Get(m, "same_identity_required") == Bool(true) && Get(m, "entity_root") == Null)
  {
    OwnIdentityDispatched(c, Obj(m), identity);
    OwnRestoreDispatched(c, m, identity);
    VerifyIdentityExactly(c, m);
    NullEq(Get(m, "entity_root"));
  }

  lemma {:induction false} NullEq(v: Json)
    ensures Eq(v, Null) <==> v == Null
  {
    EqPlain(v, "", 0);
  }

  /** An export is judged by its own identity, whatever identity it is validated under. */
  lemma {:induction false} ExportValidated(c: Crypto, pkg: Json, identity: Json)
    requires RootOf(identity).Some?
    ensures Validated(c, DomainExport, pkg, identity) == Some(SoundPackage(c, pkg))
  {
    ExportDispatched(c, pkg, identity);
    ExportExactly(c, pkg);
  }

  /** An identity that is neither missing nor a dict raises. */
  lemma StrangeIdentity(c: Crypto, v: Vector, m: Json, identity: Json)
    requires Truthy(identity) && !identity.Obj?
    ensures Validated(c, v, m, identity).None?
  {
  }
}

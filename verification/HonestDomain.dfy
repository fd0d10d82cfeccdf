/** Records, resolution proofs and export packages that an honest root builds and signs are accepted. */
module HonestDomain {
  import opened Prelude
  import opened JsonValue
  import opened CanonicalOrder
  import opened CanonicalJson
  import opened SameValueFacts
  import opened SovereignDomain
  import opened DomainTheorems
  import opened DomainMeaning

  // ----- dicts put together -----

  predicate Avoids(es: Entries, ks: set<string>) { forall i :: 0 <= i < |es| ==> es[i].key !in ks }

  predicate Within(es: Entries, ks: set<string>) { forall i :: 0 <= i < |es| ==> es[i].key in ks }

  lemma {:induction false} WithoutConcat(a: Entries, b: Entries, ks: set<string>)
    ensures Without(a + b, ks) == Without(a, ks) + Without(b, ks)
  {
    if a == [] {
      assert a + b == b;
    } else {
      assert (a + b)[0] == a[0] && (a + b)[1..] == a[1..] + b;
      WithoutConcat(a[1..], b, ks);
    }
  }

  lemma {:induction false} WithoutNone(es: Entries, ks: set<string>)
    requires Avoids(es, ks)
    ensures Without(es, ks) == es
  {
    if es != [] { WithoutNone(es[1..], ks); }
  }

  lemma {:induction false} WithoutAll(es: Entries, ks: set<string>)
    requires Within(es, ks)
    ensures Without(es, ks) == []
  {
    if es != [] { WithoutAll(es[1..], ks); }
  }

  lemma {:induction false} GetConcat(a: Entries, b: Entries, k: string)
    ensures Get(a + b, k) == if Has(a, k) then Get(a, k) else Get(b, k)
    ensures Has(a + b, k) <==> Has(a, k) || Has(b, k)
  {
    if a == [] {
      assert a + b == b;
    } else {
      assert (a + b)[0] == a[0] && (a + b)[1..] == a[1..] + b;
      GetConcat(a[1..], b, k);
    }
  }

  lemma {:induction false} AvoidsHas(es: Entries, ks: set<string>, k: string)
    requires Avoids(es, ks) && k in ks
    ensures !Has(es, k) && Get(es, k) == Null
  {
    if es != [] { AvoidsHas(es[1..], ks, k); }
  }

  /** Dropping what was appended gives the dict back. */
  lemma {:induction false} WithoutAppended(a: Entries, b: Entries, ks: set<string>)
    requires Avoids(a, ks) && Within(b, ks)
    ensures Without(a + b, ks) == a
  {
    WithoutConcat(a, b, ks);
    WithoutNone(a, ks);
    WithoutAll(b, ks);
  }

  // ----- signing a record -----

  /** Fields, the key id they are signed under and the signature made. */
  datatype Signed = Signed(fields: Entries, keyId: string, signature: string)

  /** The part of the stamp that is signed: key, signer and digest of the fields. */
  function StampHeader(c: Crypto, s: Signed, entityId: Json): Entries {
    [Entry("key_id", Str(s.keyId)), Entry("entity_id", entityId),
     Entry("payload_sha256", Str(c.hash(Canon(Obj(s.fields)))))]
  }

  function Record(c: Crypto, s: Signed, entityId: Json): Entries {
    s.fields + [Entry("signature", Obj(StampHeader(c, s, entityId) + [Entry("signature", Str(s.signature))]))]
  }

  /** The identity lists the key under its id, and its holder signed the header. */
  ghost predicate SignedUnder(c: Crypto, s: Signed, identity: Entries) {
    && Avoids(s.fields, {"signature"})
    && exists i :: && KeyAt(identity, Str(s.keyId), i) && Get(MethodAt(identity, i), "algorithm") == Str("Ed25519")
                   && Get(MethodAt(identity, i), "public_key").Str?
                   && c.verifies(Get(MethodAt(identity, i), "public_key").s, s.signature,
                                 Canon(Obj(StampHeader(c, s, Get(identity, "entity_id")))))
  }

  lemma {:induction false} StampFields(c: Crypto, s: Signed, entityId: Json)
    ensures var stamp := StampHeader(c, s, entityId) + [Entry("signature", Str(s.signature))];
            && Get(stamp, "key_id") == Str(s.keyId) && Get(stamp, "entity_id") == entityId
            && Get(stamp, "payload_sha256") == Str(c.hash(Canon(Obj(s.fields))))
            && Get(stamp, "signature") == Str(s.signature)
            && Without(stamp, {"signature"}) == StampHeader(c, s, entityId)
  {
    var header := StampHeader(c, s, entityId);
    assert Avoids(header, {"signature"});
    WithoutAppended(header, [Entry("signature", Str(s.signature))], {"signature"});
    assert UniqueKeys(header);
    GetAt(header, 0);
    GetAt(header, 1);
    GetAt(header, 2);
    assert HasKey(header, header[0].key) && HasKey(header, header[1].key) && HasKey(header, header[2].key);
    HasIsHasKey(header, "key_id");
    HasIsHasKey(header, "entity_id");
    HasIsHasKey(header, "payload_sha256");
    AvoidsHas(header, {"signature"}, "signature");
    GetConcat(header, [Entry("signature", Str(s.signature))], "key_id");
    GetConcat(header, [Entry("signature", Str(s.signature))], "entity_id");
    GetConcat(header, [Entry("signature", Str(s.signature))], "payload_sha256");
    GetConcat(header, [Entry("signature", Str(s.signature))], "signature");
  }

  /** A record built and signed so is vouched for. */
  lemma {:induction false} RecordIsVouched(c: Crypto, s: Signed, identity: Entries)
    requires SignedUnder(c, s, identity)
    ensures Vouches(c, Record(c, s, Get(identity, "entity_id")), Obj(identity))
  {
    var entityId := Get(identity, "entity_id");
    var record := Record(c, s, entityId);
    var stamp := StampHeader(c, s, entityId) + [Entry("signature", Str(s.signature))];
    StampFields(c, s, entityId);
    WithoutAppended(s.fields, [Entry("signature", Obj(stamp))], {"signature"});
    AvoidsHas(s.fields, {"signature"}, "signature");
    GetConcat(s.fields, [Entry("signature", Obj(stamp))], "signature");
    EqItself(entityId);
    var i :| KeyAt(identity, Str(s.keyId), i) && Get(MethodAt(identity, i), "algorithm") == Str("Ed25519")
      && Get(MethodAt(identity, i), "public_key").Str?
      && c.verifies(Get(MethodAt(identity, i), "public_key").s, s.signature, Canon(Obj(StampHeader(c, s, entityId))));
    assert KeySigned(c, MethodAt(identity, i), stamp, Canon(Obj(Without(stamp, {"signature"}))));
  }

  /** The fields of a record other than its signature are those it was built from. */
  lemma {:induction false} RecordFields(c: Crypto, s: Signed, entityId: Json, k: string)
    requires Avoids(s.fields, {"signature"}) && k != "signature"
    ensures Get(Record(c, s, entityId), k) == Get(s.fields, k) && Has(Record(c, s, entityId), k) == Has(s.fields, k)
  {
    var stamp := StampHeader(c, s, entityId) + [Entry("signature", Str(s.signature))];
    GetConcat(s.fields, [Entry("signature", Obj(stamp))], k);
    if !Has(s.fields, k) { HasNull(s.fields, k); }
  }

  lemma HasNull(es: Entries, k: string)
    requires !Has(es, k)
    ensures Get(es, k) == Null
  {
  }

  // ----- the four kinds of record -----

  /** Fields of a claim of that kind by the identity. */
  ghost predicate ClaimFields(fields: Entries, schema: string, identity: Entries) {
    Get(fields, "schema") == Str(schema) && Get(fields, "entity_root") == Get(identity, "entity_id")
  }

  /** What may be appended to a signed node authorization. */
  const NODE_EXTRAS := {"effective_status", "revocation"}

  ghost predicate HonestNode(c: Crypto, s: Signed, identity: Entries) {
    && SignedUnder(c, s, identity) && ClaimFields(s.fields, "entity-node-authorization-v1", identity)
    && Get(s.fields, "status") == Str("ACTIVE") && Avoids(s.fields, NODE_EXTRAS)
  }

  ghost predicate HonestService(c: Crypto, s: Signed, identity: Entries) {
    && SignedUnder(c, s, identity) && ClaimFields(s.fields, "entity-service-manifest-v1", identity)
    && Get(s.fields, "provider_authority_inferred") == Bool(false)
  }

  ghost predicate HonestName(c: Crypto, s: Signed, identity: Entries) {
    SignedUnder(c, s, identity) && ClaimFields(s.fields, "entity-name-claim-v1", identity)
  }

  const STATEMENTS := {"status", "entity_root_unchanged", "historical_evidence_preserved"}

  ghost predicate HonestRevocation(c: Crypto, s: Signed, identity: Entries) {
    && SignedUnder(c, s, identity) && ClaimFields(s.fields, "entity-node-revocation-v1", identity)
    && Avoids(s.fields, STATEMENTS)
  }

  lemma {:induction false} RecordNames(c: Crypto, s: Signed, schema: string, identity: Entries)
    requires Avoids(s.fields, {"signature"}) && ClaimFields(s.fields, schema, identity)
    ensures Names(Record(c, s, Get(identity, "entity_id")), schema, identity)
  {
    RecordFields(c, s, Get(identity, "entity_id"), "schema");
    RecordFields(c, s, Get(identity, "entity_id"), "entity_root");
    EqItself(Get(identity, "entity_id"));
  }

  /** A field of a record with something appended to it. */
  lemma {:induction false} AppendedFields(record: Entries, extras: Entries, ks: set<string>, k: string)
    requires Avoids(record, ks) && Within(extras, ks) && k !in ks
    ensures Get(record + extras, k) == Get(record, k) && Has(record + extras, k) == Has(record, k)
  {
    GetConcat(record, extras, k);
    if Has(extras, k) { WithinHas(extras, ks, k); }
    if !Has(record, k) { HasNull(record, k); }
    if !Has(extras, k) { HasNull(extras, k); }
  }

  lemma WithinHas(es: Entries, ks: set<string>, k: string)
    requires Within(es, ks) && Has(es, k)
    ensures k in ks
  {
  }

  lemma {:induction false} RecordAvoids(c: Crypto, s: Signed, entityId: Json, ks: set<string>)
    requires Avoids(s.fields, ks) && "signature" !in ks
    ensures Avoids(Record(c, s, entityId), ks)
  {
  }

  lemma {:induction false} NodeIsActive(c: Crypto, s: Signed, extras: Entries, identity: Entries)
    requires HonestNode(c, s, identity) && Within(extras, NODE_EXTRAS)
    ensures ActiveAuthorization(c, Record(c, s, Get(identity, "entity_id")) + extras, identity)
  {
    var record := Record(c, s, Get(identity, "entity_id"));
    RecordAvoids(c, s, Get(identity, "entity_id"), NODE_EXTRAS);
    RecordNames(c, s, "entity-node-authorization-v1", identity);
    RecordFields(c, s, Get(identity, "entity_id"), "status");
    AppendedFields(record, extras, NODE_EXTRAS, "schema");
    AppendedFields(record, extras, NODE_EXTRAS, "entity_root");
    AppendedFields(record, extras, NODE_EXTRAS, "status");
    WithoutAppended(record, extras, NODE_EXTRAS);
    RecordIsVouched(c, s, identity);
  }

  lemma {:induction false} ServiceIsPlain(c: Crypto, s: Signed, identity: Entries)
    requires HonestService(c, s, identity)
    ensures PlainService(c, Record(c, s, Get(identity, "entity_id")), identity)
  {
    RecordNames(c, s, "entity-service-manifest-v1", identity);
    RecordFields(c, s, Get(identity, "entity_id"), "provider_authority_inferred");
    RecordIsVouched(c, s, identity);
  }

  lemma {:induction false} NameIsSigned(c: Crypto, s: Signed, identity: Entries)
    requires HonestName(c, s, identity)
    ensures SignedName(c, Record(c, s, Get(identity, "entity_id")), identity)
  {
    RecordNames(c, s, "entity-name-claim-v1", identity);
    RecordIsVouched(c, s, identity);
  }

  lemma {:induction false} RevocationIsSigned(c: Crypto, s: Signed, extras: Entries, identity: Entries)
    requires HonestRevocation(c, s, identity) && Within(extras, STATEMENTS)
    ensures SignedRevoked(c, Record(c, s, Get(identity, "entity_id")) + extras, identity)
  {
    var record := Record(c, s, Get(identity, "entity_id"));
    RecordAvoids(c, s, Get(identity, "entity_id"), STATEMENTS);
    RecordNames(c, s, "entity-node-revocation-v1", identity);
    AppendedFields(record, extras, STATEMENTS, "schema");
    AppendedFields(record, extras, STATEMENTS, "entity_root");
    WithoutAppended(record, extras, STATEMENTS);
    RecordIsVouched(c, s, identity);
  }

  /** Validate answers True for each of them. */
  method ValidateHonest(c: Crypto, s: Signed, extras: Entries, identity: Entries, v: Vector) returns (r: Option<bool>)
    requires v.NodeAuthorization? ==> HonestNode(c, s, identity) && Within(extras, NODE_EXTRAS)
    requires v.NodeRevocation? ==> HonestRevocation(c, s, identity) && Within(extras, STATEMENTS)
    requires v.ServiceManifest? ==> HonestService(c, s, identity) && extras == []
    requires v.NameClaim? ==> HonestName(c, s, identity) && extras == []
    requires v in {NodeAuthorization, NodeRevocation, ServiceManifest, NameClaim} && identity != []
    ensures r == Some(true)
  {
    var material := Record(c, s, Get(identity, "entity_id")) + extras;
    r := Validate(c, v, Obj(material), Obj(identity));
    ValidateExactly(c, material, identity);
    assert extras == [] ==> material == Record(c, s, Get(identity, "entity_id"));
    match v {
      case NodeAuthorization => NodeIsActive(c, s, extras, identity);
      case NodeRevocation => RevocationIsSigned(c, s, extras, identity);
      case ServiceManifest => ServiceIsPlain(c, s, identity);
      case _ => NameIsSigned(c, s, identity);
    }
  }
}

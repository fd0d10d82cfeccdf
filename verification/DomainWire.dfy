/**
 Verification sees values, not their layout: what is accepted stays accepted after its keys are
 reordered, in particular after it was sent as canonical bytes and read back.
 */
module DomainWire {
  import opened Prelude
  import opened JsonValue
  import opened CanonicalOrder
  import opened CanonicalJson
  import opened SameValueFacts
  import opened SovereignDomain

  /** Two readings of one well-formed value. */
  ghost predicate Twins(v: Json, w: Json) { WellFormed(v) && WellFormed(w) && SameValue(v, w) }

  ghost predicate TwinDicts(a: Entries, b: Entries) { Twins(Obj(a), Obj(b)) }

  lemma {:induction false} PlainWellFormed(v: Json)
    requires WellFormed(v)
    ensures WellFormed(Plain(v))
  {
    match v
    case Arr(items) => forall i | 0 <= i < |items| ensures WellFormed(Plain(items[i])) { PlainWellFormed(items[i]); }
    case Obj(es) => forall i | 0 <= i < |es| ensures WellFormed(Plain(es[i].value)) { PlainWellFormed(es[i].value); }
    case _ =>
  }

  lemma {:induction false} PlainSame(v: Json, w: Json)
    requires SameValue(v, w)
    ensures SameValue(Plain(v), Plain(w))
    decreases v
  {
    match (v, w)
    case (Arr(a), Arr(b)) =>
      forall i | 0 <= i < |a| ensures SameValue(Plain(a[i]), Plain(b[i])) { PlainSame(a[i], b[i]); }
    case (Obj(a), Obj(b)) =>
      forall i, j | 0 <= i < |a| && 0 <= j < |b| && a[i].key == b[j].key
        ensures SameValue(Plain(a[i].value), Plain(b[j].value))
      {
        PlainSame(a[i].value, b[j].value);
      }
      PlainKeys(a, b);
      PlainKeys(b, a);
    case _ =>
  }

  lemma PlainKeys(a: Entries, b: Entries)
    requires forall i :: 0 <= i < |a| ==> HasKey(b, a[i].key)
    ensures forall i :: 0 <= i < |PlainEntries(a)| ==> HasKey(PlainEntries(b), PlainEntries(a)[i].key)
  {
  }

  lemma {:induction false} EqTwins(v: Json, v': Json, w: Json, w': Json)
    requires Twins(v, v') && Twins(w, w')
    ensures Eq(v, w) == Eq(v', w')
  {
    PlainWellFormed(v);
    PlainWellFormed(v');
    PlainWellFormed(w);
    PlainWellFormed(w');
    PlainSame(v, v');
    PlainSame(w, w');
    SameNormal(Plain(v), Plain(v'));
    SameNormal(Plain(w), Plain(w'));
  }

  lemma {:induction false} GetTwins(a: Entries, b: Entries, k: string)
    requires TwinDicts(a, b)
    ensures Twins(Get(a, k), Get(b, k)) && Has(a, k) == Has(b, k)
    ensures Truthy(Get(a, k)) == Truthy(Get(b, k))
  {
    SameGet(a, b, k);
    GetWellFormed(a, k);
    GetWellFormed(b, k);
    SameTruthy(Get(a, k), Get(b, k));
  }

  lemma {:induction false} WithoutTwins(a: Entries, b: Entries, ks: set<string>)
    requires TwinDicts(a, b)
    ensures TwinDicts(Without(a, ks), Without(b, ks))
  {
    SameWithout(a, b, ks);
    WithoutWellFormed(a, ks);
    WithoutWellFormed(b, ks);
  }

  lemma {:induction false} ShaTwins(c: Crypto, v: Json, w: Json)
    requires Twins(v, w)
    ensures Canon(v) == Canon(w) && Sha(c, v) == Sha(c, w)
  {
    CanonEquality(v, w);
  }

  lemma StrTwins(s: string)
    ensures Twins(Str(s), Str(s))
  {
  }

  // ----- signatures -----

  ghost predicate SameLookup(l: Lookup, l': Lookup) {
    l == l' || (l.Found? && l'.Found? && TwinDicts(l.key, l'.key))
  }

  lemma {:induction false} FindTwins(ms: seq<Json>, ms': seq<Json>, k: Json, k': Json)
    requires |ms| == |ms'| && (forall i :: 0 <= i < |ms| ==> Twins(ms[i], ms'[i])) && Twins(k, k')
    ensures SameLookup(FindMethod(ms, k), FindMethod(ms', k'))
  {
    if ms != [] && ms[0].Obj? {
      GetTwins(ms[0].entries, ms'[0].entries, "key_id");
      EqTwins(Get(ms[0].entries, "key_id"), Get(ms'[0].entries, "key_id"), k, k');
      FindTwins(ms[1..], ms'[1..], k, k');
    }
  }

  lemma {:induction false} SigningTwins(a: Entries, b: Entries, k: Json, k': Json)
    requires TwinDicts(a, b) && Twins(k, k')
    ensures SameLookup(SigningMethod(a, k), SigningMethod(b, k'))
  {
    GetTwins(a, b, "verification_methods");
    var ms, ms' := Get(a, "verification_methods"), Get(b, "verification_methods");
    if ms.Arr? { FindTwins(ms.items, ms'.items, k, k'); }
  }

  lemma {:induction false} SignedTwins(c: Crypto, key: Entries, key': Entries, sig: Entries, sig': Entries,
                                       message: Bytes)
    requires TwinDicts(key, key') && TwinDicts(sig, sig')
    ensures Ed25519Signed(c, key, sig, message) == Ed25519Signed(c, key', sig', message)
  {
    GetTwins(key, key', "algorithm");
    GetTwins(key, key', "public_key");
    GetTwins(sig, sig', "signature");
  }

  lemma {:induction false} HeaderTwins(c: Crypto, sig: Entries, sig': Entries, id: Entries, id': Entries)
    requires TwinDicts(sig, sig') && TwinDicts(id, id')
    ensures SameLookup(SigningMethod(id, Get(sig, "key_id")), SigningMethod(id', Get(sig', "key_id")))
    ensures Canon(Header(sig)) == Canon(Header(sig'))
    ensures Eq(Get(sig, "entity_id"), Get(id, "entity_id")) == Eq(Get(sig', "entity_id"), Get(id', "entity_id"))
  {
    GetTwins(sig, sig', "key_id");
    SigningTwins(id, id', Get(sig, "key_id"), Get(sig', "key_id"));
    WithoutTwins(sig, sig', {"signature"});
    ShaTwins(c, Header(sig), Header(sig'));
    GetTwins(sig, sig', "entity_id");
    GetTwins(id, id', "entity_id");
    EqTwins(Get(sig, "entity_id"), Get(sig', "entity_id"), Get(id, "entity_id"), Get(id', "entity_id"));
  }

  lemma {:induction false} DigestTwins(c: Crypto, a: Entries, a': Entries, k: string, v: Json, v': Json)
    requires TwinDicts(a, a') && Twins(v, v')
    ensures Eq(Get(a, k), Str(Sha(c, v))) == Eq(Get(a', k), Str(Sha(c, v')))
  {
    GetTwins(a, a', k);
    ShaTwins(c, v, v');
    StrTwins(Sha(c, v));
    EqTwins(Get(a, k), Get(a', k), Str(Sha(c, v)), Str(Sha(c, v')));
  }

  lemma {:induction false} RecordTwins(c: Crypto, r: Json, r': Json, id: Json, id': Json)
    requires Twins(r, r') && Twins(id, id')
    ensures VerifyRecord(c, r, id) == VerifyRecord(c, r', id')
  {
    if r.Obj? && id.Obj? {
      GetTwins(r.entries, r'.entries, "signature");
      if Get(r.entries, "signature").Obj? {
        var sig, sig' := Get(r.entries, "signature").entries, Get(r'.entries, "signature").entries;
        WithoutTwins(r.entries, r'.entries, {"signature"});
        HeaderTwins(c, sig, sig', id.entries, id'.entries);
        DigestTwins(c, sig, sig', "payload_sha256", Body(r.entries), Body(r'.entries));
        var l, l' := SigningMethod(id.entries, Get(sig, "key_id")), SigningMethod(id'.entries, Get(sig', "key_id"));
        if l.Found? {
          FoundTwins(c, l, l', id.entries, id'.entries, sig, sig');
          SignedTwins(c, l.key, l'.key, sig, sig', Canon(Header(sig)));
        }
      }
    }
  }

  /** A found method is well formed, so SameLookup makes twins of the two readings. */
  lemma {:induction false} FoundTwins(c: Crypto, l: Lookup, l': Lookup, id: Entries, id': Entries, sig: Entries,
                                      sig': Entries)
    requires TwinDicts(id, id') && TwinDicts(sig, sig') && l.Found? && SameLookup(l, l')
    requires l == SigningMethod(id, Get(sig, "key_id"))
    ensures l'.Found? && TwinDicts(l.key, l'.key)
  {
    GetWellFormed(id, "verification_methods");
    var ms := Get(id, "verification_methods").items;
    FoundWellFormed(ms, Get(sig, "key_id"));
    SameRefl(Obj(l.key));
  }

  lemma FoundWellFormed(ms: seq<Json>, k: Json)
    requires (forall i :: 0 <= i < |ms| ==> WellFormed(ms[i])) && FindMethod(ms, k).Found?
    ensures WellFormed(Obj(FindMethod(ms, k).key))
  {
  }

  lemma {:induction false} IdentityTwins(c: Crypto, id: Json, id': Json)
    requires Twins(id, id')
    ensures VerifyIdentity(c, id) == VerifyIdentity(c, id')
  {
    if id.Obj? {
      GetTwins(id.entries, id'.entries, "schema");
      GetTwins(id.entries, id'.entries, "signature");
      WithoutTwins(id.entries, id'.entries, {"signature"});
      if Get(id.entries, "signature").Obj? {
        SelfSignedTwins(c, Get(id.entries, "signature").entries, Get(id'.entries, "signature").entries,
                        Without(id.entries, {"signature"}), Without(id'.entries, {"signature"}));
      }
    }
  }

  lemma {:induction false} SelfSignedTwins(c: Crypto, sig: Entries, sig': Entries, body: Entries, body': Entries)
    requires TwinDicts(sig, sig') && TwinDicts(body, body')
    ensures ActiveKeySigned(c, SigningMethod(body, Get(sig, "key_id")), sig, Canon(Obj(body)))
            == ActiveKeySigned(c, SigningMethod(body', Get(sig', "key_id")), sig', Canon(Obj(body')))
  {
    ShaTwins(c, Obj(body), Obj(body'));
    HeaderTwins(c, sig, sig', body, body');
    var l, l' := SigningMethod(body, Get(sig, "key_id")), SigningMethod(body', Get(sig', "key_id"));
    if l.Found? {
      FoundTwins(c, l, l', body, body', sig, sig');
      ActiveTwins(c, l.key, l'.key, sig, sig', Canon(Obj(body)));
    }
  }

  lemma {:induction false} ActiveTwins(c: Crypto, key: Entries, key': Entries, sig: Entries, sig': Entries,
                                       message: Bytes)
    requires TwinDicts(key, key') && TwinDicts(sig, sig')
    ensures ActiveKeySigned(c, Found(key), sig, message) == ActiveKeySigned(c, Found(key'), sig', message)
  {
    GetTwins(key, key', "status");
    SignedTwins(c, key, key', sig, sig', message);
  }

  // ----- claims -----

  lemma {:induction false} ClaimedTwins(m: Entries, m': Entries, schema: string, root: Json, root': Json)
    requires TwinDicts(m, m') && Twins(root, root')
    ensures Claimed(m, schema, root) == Claimed(m', schema, root')
  {
    GetTwins(m, m', "schema");
    GetTwins(m, m', "entity_root");
    EqTwins(Get(m, "entity_root"), Get(m', "entity_root"), root, root');
  }

  lemma {:induction false} NameTwins(c: Crypto, m: Entries, m': Entries, id: Json, id': Json, root: Json, root': Json)
    requires TwinDicts(m, m') && Twins(id, id') && Twins(root, root')
    ensures NameClaimOk(c, m, id, root) == NameClaimOk(c, m', id', root')
  {
    ClaimedTwins(m, m', "entity-name-claim-v1", root, root');
    RecordTwins(c, Obj(m), Obj(m'), id, id');
  }

  lemma {:induction false} AuthorizationTwins(c: Crypto, m: Entries, m': Entries, id: Json, id': Json, root: Json,
                                              root': Json)
    requires TwinDicts(m, m') && Twins(id, id') && Twins(root, root')
    ensures AuthorizationOk(c, m, id, root) == AuthorizationOk(c, m', id', root')
  {
    ClaimedTwins(m, m', "entity-node-authorization-v1", root, root');
    GetTwins(m, m', "status");
    WithoutTwins(m, m', AUTHORIZATION_EXTRAS);
    RecordTwins(c, Obj(Without(m, AUTHORIZATION_EXTRAS)), Obj(Without(m', AUTHORIZATION_EXTRAS)), id, id');
  }

  lemma {:induction false} RevocationTwins(c: Crypto, m: Entries, m': Entries, id: Json, id': Json, root: Json,
                                           root': Json)
    requires TwinDicts(m, m') && Twins(id, id') && Twins(root, root')
    ensures RevocationOk(c, m, id, root) == RevocationOk(c, m', id', root')
  {
    ClaimedTwins(m, m', "entity-node-revocation-v1", root, root');
    WithoutTwins(m, m', REVOCATION_EXTRAS);
    RecordTwins(c, Obj(Without(m, REVOCATION_EXTRAS)), Obj(Without(m', REVOCATION_EXTRAS)), id, id');
  }

  lemma {:induction false} ServiceTwins(c: Crypto, m: Entries, m': Entries, id: Json, id': Json, root: Json,
                                        root': Json)
    requires TwinDicts(m, m') && Twins(id, id') && Twins(root, root')
    ensures ServiceOk(c, m, id, root) == ServiceOk(c, m', id', root')
  {
    ClaimedTwins(m, m', "entity-service-manifest-v1", root, root');
    GetTwins(m, m', "provider_authority_inferred");
    RecordTwins(c, Obj(m), Obj(m'), id, id');
  }

  lemma {:induction false} NodeTwins(c: Crypto, n: Json, n': Json, id: Json, id': Json, root: Json, root': Json)
    requires Twins(n, n') && Twins(id, id') && Twins(root, root')
    ensures NodeOk(c, n, id, root) == NodeOk(c, n', id', root')
  {
    if n.Obj? {
      WithoutTwins(n.entries, n'.entries, {"effective_status"});
      var m, m' := Without(n.entries, {"effective_status"}), Without(n'.entries, {"effective_status"});
      AuthorizationTwins(c, m, m', id, id', root, root');
      GetTwins(n.entries, n'.entries, "revocation");
      var rev, rev' := Get(n.entries, "revocation"), Get(n'.entries, "revocation");
      if rev.Obj? { RevocationTwins(c, rev.entries, rev'.entries, id, id', root, root'); }
    }
  }

  lemma {:induction false} NodesTwins(c: Crypto, v: Json, v': Json, id: Json, id': Json, root: Json, root': Json)
    requires Twins(v, v') && Twins(id, id') && Twins(root, root') && NodesOk(c, v, id, root)
    ensures NodesOk(c, v', id', root')
  {
    SameTruthy(v, v');
    if Truthy(v) {
      forall i | 0 <= i < |v'.items| ensures NodeOk(c, v'.items[i], id', root') {
        NodeTwins(c, v.items[i], v'.items[i], id, id', root, root');
        assert Elements(v).value[i] == v.items[i];
      }
    }
  }

  lemma {:induction false} ServicesTwins(c: Crypto, v: Json, v': Json, id: Json, id': Json, root: Json, root': Json)
    requires Twins(v, v') && Twins(id, id') && Twins(root, root') && ServicesOk(c, v, id, root)
    ensures ServicesOk(c, v', id', root')
  {
    SameTruthy(v, v');
    if Truthy(v) {
      forall i | 0 <= i < |v'.items| ensures ServiceListed(c, v'.items[i], id', root') {
        assert ServiceListed(c, Elements(v).value[i], id, root);
        assert Twins(v.items[i], v'.items[i]);
        ServiceTwins(c, v.items[i].entries, v'.items[i].entries, id, id', root, root');
      }
    }
  }

  lemma {:induction false} SnapshotTwins(c: Crypto, s: Entries, s': Entries, id: Json, id': Json, root: Json,
                                         root': Json)
    requires TwinDicts(s, s') && Twins(id, id') && Twins(root, root') && SnapshotOk(c, s, id, root)
    ensures SnapshotOk(c, s', id', root')
  {
    GetTwins(s, s', "name_claim");
    var nc, nc' := Get(s, "name_claim"), Get(s', "name_claim");
    if Truthy(nc) { NameTwins(c, nc.entries, nc'.entries, id, id', root, root'); }
    GetTwins(s, s', "nodes");
    NodesTwins(c, Get(s, "nodes"), Get(s', "nodes"), id, id', root, root');
    GetTwins(s, s', "services");
    ServicesTwins(c, Get(s, "services"), Get(s', "services"), id, id', root, root');
  }

  lemma {:induction false} ManifestTwins(c: Crypto, m: Entries, m': Entries, id: Json, id': Json, s: Json, s': Json,
                                         root: Json, root': Json, dom: Json, dom': Json)
    requires TwinDicts(m, m') && Twins(id, id') && Twins(s, s') && Twins(root, root') && Twins(dom, dom')
    requires ManifestOk(c, m, id, s, root, dom)
    ensures ManifestOk(c, m', id', s', root', dom')
  {
    GetTwins(m, m', "entity_root");
    EqTwins(Get(m, "entity_root"), Get(m', "entity_root"), root, root');
    GetTwins(m, m', "domain_id");
    EqTwins(Get(m, "domain_id"), Get(m', "domain_id"), dom, dom');
    GetTwins(m, m', "dns_required_for_interpretation");
    GetTwins(m, m', "proprietary_btg_database_required");
    DigestTwins(c, m, m', "identity_manifest_sha256", id, id');
    DigestTwins(c, m, m', "domain_snapshot_sha256", s, s');
    RecordTwins(c, Obj(m), Obj(m'), id, id');
  }

  lemma {:induction false} PartsTwins(p: Json, p': Json)
    requires Twins(p, p') && Parts(p)
    ensures Parts(p') && Twins(IdentityOf(p), IdentityOf(p')) && Twins(SnapshotOf(p), SnapshotOf(p'))
    ensures Twins(ManifestOf(p), ManifestOf(p')) && Twins(EntityOf(p), EntityOf(p'))
    ensures Twins(Get(SnapshotOf(p).entries, "domain"), Get(SnapshotOf(p').entries, "domain"))
  {
    GetTwins(p.entries, p'.entries, "schema");
    GetTwins(p.entries, p'.entries, "identity_manifest");
    GetTwins(p.entries, p'.entries, "domain_snapshot");
    GetTwins(p.entries, p'.entries, "export_manifest");
    GetTwins(IdentityOf(p).entries, Get(p'.entries, "identity_manifest").entries, "entity_id");
    var s, s' := SnapshotOf(p).entries, Get(p'.entries, "domain_snapshot").entries;
    GetTwins(s, s', "domain");
    GetTwins(Get(s, "domain").entries, Get(s', "domain").entries, "domain_id");
  }

  lemma {:induction false} HeadTwins(c: Crypto, p: Json, p': Json)
    requires Twins(p, p') && ExportHead(c, p)
    ensures ExportHead(c, p')
  {
    PartsTwins(p, p');
    var s, s' := SnapshotOf(p).entries, SnapshotOf(p').entries;
    var d, d' := Get(s, "domain").entries, Get(s', "domain").entries;
    IdentityTwins(c, IdentityOf(p), IdentityOf(p'));
    GetTwins(d, d', "entity_root");
    EqTwins(Get(d, "entity_root"), Get(d', "entity_root"), EntityOf(p), EntityOf(p'));
    GetTwins(s, s', "dns_authority_required");
    GetTwins(s, s', "btg_authority_required");
    GetTwins(s, s', "cloud_host_required");
    GetTwins(d, d', "domain_id");
    ManifestTwins(c, ManifestOf(p).entries, ManifestOf(p').entries, IdentityOf(p), IdentityOf(p'),
                  SnapshotOf(p), SnapshotOf(p'), EntityOf(p), EntityOf(p'), Get(d, "domain_id"), Get(d', "domain_id"));
  }

  /** Acceptance of an export package does not depend on the order of keys. */
  lemma {:induction false} ExportTwins(c: Crypto, p: Json, p': Json)
    requires Twins(p, p') && ExportOk(c, p)
    ensures ExportOk(c, p')
  {
    HeadTwins(c, p, p');
    PartsTwins(p, p');
    SnapshotTwins(c, SnapshotOf(p).entries, SnapshotOf(p').entries, IdentityOf(p), IdentityOf(p'), EntityOf(p),
                  EntityOf(p'));
    WithoutTwins(p.entries, p'.entries, {"package_sha256"});
    DigestTwins(c, p.entries, p'.entries, "package_sha256",
                Obj(Without(p.entries, {"package_sha256"})), Obj(Without(p'.entries, {"package_sha256"})));
  }

  /** A package is accepted by its sender exactly when it is accepted by whoever reads its canonical bytes. */
  lemma {:induction false} ExportSurvivesWire(c: Crypto, p: Json)
    requires WellFormed(p)
    ensures Loads(Canon(p)).Some? && (ExportOk(c, Loads(Canon(p)).value) <==> ExportOk(c, p))
  {
    LoadsCanon(p);
    NormalSame(p);
    if ExportOk(c, p) { ExportTwins(c, p, Normal(p)); }
    if ExportOk(c, Normal(p)) { ExportTwins(c, Normal(p), p); }
  }
}

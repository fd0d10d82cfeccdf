/** What a hello says, and that a client judges a server hello by its values alone. */
module HandshakeWire {
  import opened Prelude
  import opened JsonValue
  import opened CanonicalOrder
  import opened CanonicalJson
  import opened SameValueFacts
  import opened SovereignDomain
  import opened DomainTheorems
  import opened DomainWire
  import opened Framing
  import opened Handshake

  const CLIENT_KEYS := ["schema", "node_id", "service_id", "client_x25519_b64", "nonce"]

  /** A hello for the session: these five fields with the session's values, and no others. */
  ghost predicate HelloFor(m: Entries, s: Session) {
    && UniqueKeys(m) && |m| == 5
    && Has(m, "schema") && Get(m, "schema") == Str("entity-direct-hello-v1")
    && Has(m, "node_id") && SameValue(Get(m, "node_id"), Get(s.node, "node_id"))
    && Has(m, "service_id") && Get(m, "service_id") == Str(s.serviceId)
    && Has(m, "client_x25519_b64") && Get(m, "client_x25519_b64") == Str(s.clientKey)
    && Has(m, "nonce") && Get(m, "nonce") == Str(s.nonce)
  }

  lemma {:induction false} HelloHolds(s: Session)
    requires WellFormed(Obj(s.node))
    ensures HelloFor(ClientHello(s).entries, s) && WellFormed(ClientHello(s))
  {
    var hello, keys := ClientHello(s).entries, CLIENT_KEYS;
    assert keys[0] == "schema" && keys[1] == "node_id" && keys[2] == "service_id";
    assert keys[3] == "client_x25519_b64" && keys[4] == "nonce";
    FieldsAt(hello, keys);
    GetWellFormed(s.node, "node_id");
    SameRefl(Get(s.node, "node_id"));
  }

  ghost function KeysOf(es: Entries): set<string> { set e | e in es :: e.key }

  lemma {:induction false} SameSize(a: Entries, b: Entries)
    requires TwinDicts(a, b)
    ensures |a| == |b|
  {
    KeyCount(a);
    KeyCount(b);
    forall k ensures k in KeysOf(a) <==> k in KeysOf(b) {
      if i :| 0 <= i < |a| && a[i].key == k { assert HasKey(b, a[i].key); }
      if j :| 0 <= j < |b| && b[j].key == k { assert HasKey(a, b[j].key); }
    }
    assert KeysOf(a) == KeysOf(b);
  }

  lemma {:induction false} KeyCount(es: Entries)
    requires UniqueKeys(es)
    ensures |KeysOf(es)| == |es|
  {
    if es != [] {
      KeyCount(es[1..]);
      assert KeysOf(es) == KeysOf(es[1..]) + {es[0].key};
      assert es[0].key !in KeysOf(es[1..]);
    }
  }

  /** Any reading of a hello for a session is one. */
  lemma {:induction false} HelloForTwin(m: Entries, w: Entries, s: Session)
    requires HelloFor(m, s) && TwinDicts(m, w) && WellFormed(Obj(s.node))
    ensures HelloFor(w, s)
  {
    SameSize(m, w);
    GetTwins(m, w, "schema");
    GetTwins(m, w, "node_id");
    GetTwins(m, w, "service_id");
    GetTwins(m, w, "client_x25519_b64");
    GetTwins(m, w, "nonce");
    GetWellFormed(s.node, "node_id");
    SameFlip(Get(m, "node_id"), Get(w, "node_id"));
    SameTrans(Get(w, "node_id"), Get(m, "node_id"), Get(s.node, "node_id"));
  }

  lemma {:induction false} SameFlip(v: Json, w: Json)
    requires Twins(v, w)
    ensures SameValue(w, v)
  {
    SameNormal(v, w);
    SameNormal(w, v);
  }

  /** What the peer reads off the bytes of a sent hello: a hello for that session, with all behind it untouched. */
  lemma {:induction false} HelloArrives(s: Session, rest: Bytes)
    requires WellFormed(Obj(s.node)) && |Canon(ClientHello(s))| <= MAX_FRAME
    ensures var (received, left) := Receive(Frame(ClientHello(s)) + rest, MAX_FRAME);
            left == rest && received.Ok? && received.value.Obj? && HelloFor(received.value.entries, s)
  {
    var hello := ClientHello(s);
    HelloHolds(s);
    ReceiveSent(hello, rest, MAX_FRAME);
    NormalSame(hello);
    HelloForTwin(hello.entries, Normal(hello).entries, s);
  }

  // ----- judging values -----

  lemma {:induction false} PickTwins(a: Entries, b: Entries, keys: seq<string>)
    requires TwinDicts(a, b) && Distinct(keys)
    ensures TwinDicts(Pick(a, keys), Pick(b, keys))
  {
    PickWellFormed(a, keys);
    PickWellFormed(b, keys);
    var x, y := Pick(a, keys), Pick(b, keys);
    forall i | 0 <= i < |keys| ensures SameValue(x[i].value, y[i].value) && HasKey(x, keys[i]) && HasKey(y, keys[i]) {
      GetTwins(a, b, keys[i]);
      PickAt(a, keys, i);
      PickAt(b, keys, i);
      assert x[i].key == keys[i] && y[i].key == keys[i];
    }
  }

  lemma {:induction false} PickAt(es: Entries, keys: seq<string>, i: nat)
    requires i < |keys|
    ensures |Pick(es, keys)| == |keys| && Pick(es, keys)[i] == Entry(keys[i], Get(es, keys[i]))
  {
    if i > 0 { PickAt(es, keys[1..], i - 1); } else { PickLength(es, keys); }
  }

  lemma PickLength(es: Entries, keys: seq<string>)
    ensures |Pick(es, keys)| == |keys|
  {
  }

  /** The part of a hello that is signed: these seven of its fields. */
  function SevenFields(m: Entries): Entries {
    [Entry("schema", Get(m, "schema")), Entry("node_id", Get(m, "node_id")), Entry("service_id", Get(m, "service_id")),
     Entry("client_x25519_b64", Get(m, "client_x25519_b64")), Entry("server_x25519_b64", Get(m, "server_x25519_b64")),
     Entry("nonce", Get(m, "nonce")), Entry("created_at_ms", Get(m, "created_at_ms"))]
  }

  lemma {:induction false} HelloBodyIs(m: Entries)
    ensures HelloBody(m) == SevenFields(m)
  {
    PickIs(m, HELLO_KEYS, SevenFields(m));
  }

  ghost predicate Complete(m: Entries) {
    && Get(m, "schema") == Str("entity-direct-server-hello-v1") && Has(m, "node_id") && Has(m, "service_id")
    && Has(m, "client_x25519_b64") && Has(m, "server_x25519_b64") && Has(m, "nonce") && Has(m, "created_at_ms")
  }

  /** The hello repeats what the session asked. */
  ghost predicate Repeats(s: Session, m: Entries) {
    && Eq(Get(m, "node_id"), Get(s.node, "node_id")) && Get(m, "service_id") == Str(s.serviceId)
    && Get(m, "client_x25519_b64") == Str(s.clientKey) && Get(m, "nonce") == Str(s.nonce)
  }

  ghost predicate NamesDigest(c: Crypto, m: Entries) {
    && Get(m, "node_signature").Obj?
    && Get(Get(m, "node_signature").entries, "payload_sha256") == Str(c.hash(Canon(Obj(SevenFields(m)))))
  }

  /** The key the proof gives for the node and the signature of the hello are texts. */
  ghost predicate Texts(s: Session, m: Entries) {
    && Get(m, "node_signature").Obj? && Get(Get(m, "node_signature").entries, "signature_b64").Str?
    && Get(s.node, "public_key_b64").Str?
  }

  ghost predicate NodeSigned(c: Crypto, s: Session, m: Entries)
    requires Texts(s, m)
  {
    c.verifies(Get(s.node, "public_key_b64").s, Get(Get(m, "node_signature").entries, "signature_b64").s,
               Canon(Obj(SevenFields(m))))
  }

  lemma {:induction false} CompleteExactly(m: Entries)
    ensures Complete(m) <==> Get(m, "schema") == Str("entity-direct-server-hello-v1") && HasAll(m, HELLO_KEYS)
  {
    var ks := HELLO_KEYS;
    assert ks[0] == "schema" && ks[1] == "node_id" && ks[2] == "service_id" && ks[3] == "client_x25519_b64";
    assert ks[4] == "server_x25519_b64" && ks[5] == "nonce" && ks[6] == "created_at_ms";
    HasNonNull(m, "schema");
  }

  lemma HasNonNull(es: Entries, k: string)
    ensures Get(es, k) != Null ==> Has(es, k)
  {
  }

  lemma {:induction false} RepeatsExactly(s: Session, m: Entries)
    ensures Repeats(s, m) <==> Bound(s, HelloBody(m))
  {
    var ks := HELLO_KEYS;
    assert ks[1] == "node_id" && ks[2] == "service_id" && ks[3] == "client_x25519_b64" && ks[5] == "nonce";
    PickGet(m, ks, "node_id");
    PickGet(m, ks, "service_id");
    PickGet(m, ks, "client_x25519_b64");
    PickGet(m, ks, "nonce");
    EqString(Get(m, "service_id"), s.serviceId);
    EqString(Get(m, "client_x25519_b64"), s.clientKey);
    EqString(Get(m, "nonce"), s.nonce);
  }

  /** When a server hello is accepted, and which rule the one refused broke first. */
  lemma {:induction false} JudgeExactly(c: Crypto, s: Session, m: Entries)
    ensures var r := Judge(c, s, Obj(m));
            && (r.Ok? <==> Complete(m) && Repeats(s, m) && NamesDigest(c, m) && Texts(s, m) && NodeSigned(c, s, m))
            && (r.Ok? ==> r.value == SevenFields(m))
            && (r == Err(WrongSchema) <==> Get(m, "schema") != Str("entity-direct-server-hello-v1"))
            && (r == Err(Binding) <==> Complete(m) && !Repeats(s, m))
            && (r == Err(Hash) <==>
                  Complete(m) && Repeats(s, m) && Get(m, "node_signature").Obj? && !NamesDigest(c, m))
            && (r == Err(BadSignature) <==>
                  Complete(m) && Repeats(s, m) && NamesDigest(c, m) && Texts(s, m) && !NodeSigned(c, s, m))
  {
    HelloBodyIs(m);
    CompleteExactly(m);
    RepeatsExactly(s, m);
    var sig := Get(m, "node_signature");
    if sig.Obj? { EqString(Get(sig.entries, "payload_sha256"), Sha(c, Obj(HelloBody(m)))); }
  }

  lemma {:induction false} BoundTwins(s: Session, a: Entries, b: Entries)
    requires TwinDicts(a, b) && WellFormed(Obj(s.node))
    ensures Bound(s, a) == Bound(s, b)
  {
    GetTwins(a, b, "node_id");
    GetTwins(a, b, "service_id");
    GetTwins(a, b, "client_x25519_b64");
    GetTwins(a, b, "nonce");
    GetWellFormed(s.node, "node_id");
    SameRefl(Get(s.node, "node_id"));
    EqTwins(Get(a, "node_id"), Get(b, "node_id"), Get(s.node, "node_id"), Get(s.node, "node_id"));
    EqTwins(Get(a, "service_id"), Get(b, "service_id"), Str(s.serviceId), Str(s.serviceId));
    EqTwins(Get(a, "client_x25519_b64"), Get(b, "client_x25519_b64"), Str(s.clientKey), Str(s.clientKey));
    EqTwins(Get(a, "nonce"), Get(b, "nonce"), Str(s.nonce), Str(s.nonce));
  }

  ghost predicate SameVerdict(r: Result<Entries, HelloError>, r': Result<Entries, HelloError>) {
    match (r, r')
    case (Ok(body), Ok(body')) => TwinDicts(body, body')
    case (Err(e), Err(e')) => e == e'
    case _ => false
  }

  /** What is judged of the signature on a body. */
  predicate DigestNamed(c: Crypto, sig: Entries, body: Entries) {
    Eq(Get(sig, "payload_sha256"), Str(Sha(c, Obj(body))))
  }

  lemma {:induction false} SignatureTwins(c: Crypto, sig: Entries, sig': Entries, x: Entries, y: Entries)
    requires TwinDicts(sig, sig') && TwinDicts(x, y)
    ensures DigestNamed(c, sig, x) == DigestNamed(c, sig', y) && Canon(Obj(x)) == Canon(Obj(y))
    ensures Get(sig, "signature_b64") == Get(sig', "signature_b64")
            || (!Get(sig, "signature_b64").Str? && !Get(sig', "signature_b64").Str?)
  {
    ShaTwins(c, Obj(x), Obj(y));
    DigestTwins(c, sig, sig', "payload_sha256", Obj(x), Obj(y));
    GetTwins(sig, sig', "signature_b64");
  }

  lemma {:induction false} HeadsAgree(s: Session, a: Entries, b: Entries)
    requires TwinDicts(a, b) && WellFormed(Obj(s.node))
    ensures Get(a, "schema") == Get(b, "schema") || (!Get(a, "schema").Str? && !Get(b, "schema").Str?)
    ensures HasAll(a, HELLO_KEYS) == HasAll(b, HELLO_KEYS) && Bound(s, HelloBody(a)) == Bound(s, HelloBody(b))
  {
    GetTwins(a, b, "schema");
    forall k ensures Has(a, k) == Has(b, k) { GetTwins(a, b, k); }
    HelloKeysDistinct();
    PickTwins(a, b, HELLO_KEYS);
    BoundTwins(s, HelloBody(a), HelloBody(b));
  }

  lemma {:induction false} SameJudgement(c: Crypto, s: Session, a: Entries, b: Entries)
    requires Get(a, "schema") == Get(b, "schema") || (!Get(a, "schema").Str? && !Get(b, "schema").Str?)
    requires HasAll(a, HELLO_KEYS) == HasAll(b, HELLO_KEYS) && Bound(s, HelloBody(a)) == Bound(s, HelloBody(b))
    requires Get(a, "node_signature").Obj? == Get(b, "node_signature").Obj?
    requires Get(a, "node_signature").Obj? ==>
               var sig, sig' := Get(a, "node_signature").entries, Get(b, "node_signature").entries;
               && DigestNamed(c, sig, HelloBody(a)) == DigestNamed(c, sig', HelloBody(b))
               && Canon(Obj(HelloBody(a))) == Canon(Obj(HelloBody(b)))
               && (Get(sig, "signature_b64") == Get(sig', "signature_b64")
                   || (!Get(sig, "signature_b64").Str? && !Get(sig', "signature_b64").Str?))
    ensures match (Judge(c, s, Obj(a)), Judge(c, s, Obj(b)))
            case (Ok(x), Ok(y)) => x == HelloBody(a) && y == HelloBody(b)
            case (Err(e), Err(e')) => e == e'
            case _ => false
  {
  }

  /** The verdict on a server hello, the error included, does not depend on the order of its keys. */
  lemma {:induction false} JudgeTwins(c: Crypto, s: Session, a: Entries, b: Entries)
    requires TwinDicts(a, b) && WellFormed(Obj(s.node))
    ensures SameVerdict(Judge(c, s, Obj(a)), Judge(c, s, Obj(b)))
  {
    HelloKeysDistinct();
    PickTwins(a, b, HELLO_KEYS);
    HeadsAgree(s, a, b);
    GetTwins(a, b, "node_signature");
    var sig, sig' := Get(a, "node_signature"), Get(b, "node_signature");
    if sig.Obj? { SignatureTwins(c, sig.entries, sig'.entries, HelloBody(a), HelloBody(b)); }
    SameJudgement(c, s, a, b);
  }
}

/** The node's side of the direct handshake, and the two sides together. */
module NodeRuntime {
  import opened Prelude
  import opened JsonValue
  import opened CanonicalOrder
  import opened CanonicalJson
  import opened SameValueFacts
  import opened SovereignDomain
  import opened DomainTheorems
  import opened DomainWire
  import opened Framing
  import opened Handshake
  import opened HandshakeWire

  /** NotDict: the hello has no fields. Unsent: the answer does not fit a frame. */
  datatype Refusal = Unread(error: FrameError) | NotDict | InvalidHello | Replay | Unsent

  /** What an admitted hello asks for. */
  datatype Greeting = Greeting(serviceId: string, nonce: string, clientKey: string)

  /** str(v or ''); text is Python's str() on what is not a text. */
  function Text(text: Json -> string, v: Json): string {
    if !Truthy(v) then "" else if v.Str? then v.s else text(v)
  }

  /** The hello a node admits, given the nonces it has seen. */
  function Hear(nodeId: string, services: set<string>, seen: set<string>, text: Json -> string, hello: Json)
    : Result<Greeting, Refusal>
  {
    if !hello.Obj? then Err(NotDict)
    else
      var m := hello.entries;
      var serviceId, nonce := Text(text, Get(m, "service_id")), Text(text, Get(m, "nonce"));
      if Get(m, "schema") != Str("entity-direct-hello-v1") || Get(m, "node_id") != Str(nodeId) || serviceId !in services
      then Err(InvalidHello)
      else if nonce == "" || nonce in seen then Err(Replay)
      else Ok(Greeting(serviceId, nonce, Text(text, Get(m, "client_x25519_b64"))))
  }

  function AnswerBody(nodeId: string, g: Greeting, serverKey: string, now: int): Entries {
    [Entry("schema", Str("entity-direct-server-hello-v1")), Entry("node_id", Str(nodeId)),
     Entry("service_id", Str(g.serviceId)), Entry("client_x25519_b64", Str(g.clientKey)),
     Entry("server_x25519_b64", Str(serverKey)), Entry("nonce", Str(g.nonce)), Entry("created_at_ms", Num(now))]
  }

  /** NodeKeyMaterial.sign */
  function SignatureOn(c: Crypto, sign: Bytes -> string, body: Entries): Entries {
    [Entry("suite", Str("Ed25519")), Entry("signature_b64", Str(sign(Canon(Obj(body))))),
     Entry("payload_sha256", Str(Sha(c, Obj(body))))]
  }

  function Answer(c: Crypto, sign: Bytes -> string, body: Entries): Entries {
    body + [Entry("node_signature", Obj(SignatureOn(c, sign, body)))]
  }

  class EntityNodeRuntime {
    const nodeId: string
    const sign: Bytes -> string
    var services: set<string>
    var seen: set<string>

    constructor (nodeId: string, sign: Bytes -> string, services: set<string>)
      ensures this.nodeId == nodeId && this.sign == sign && this.services == services && seen == {}
    {
      this.nodeId, this.sign, this.services, seen := nodeId, sign, services, {};
    }

    /** One connection up to the data phase: read a hello, note its nonce, answer it. */
    method Handle(c: Crypto, sock: Socket, text: Json -> string, serverKey: string, now: int)
      returns (r: Result<Greeting, Refusal>)
      modifies this`seen, sock
      ensures var (received, rest) := Receive(old(sock.incoming), MAX_FRAME);
              && sock.incoming == rest
              && match received
                 case Err(e) => r == Err(Unread(e)) && seen == old(seen) && sock.outgoing == old(sock.outgoing)
                 case Ok(hello) =>
                   match Hear(nodeId, services, old(seen), text, hello)
                   case Err(e) => r == Err(e) && seen == old(seen) && sock.outgoing == old(sock.outgoing)
                   case Ok(g) =>
                     var answer := Obj(Answer(c, sign, AnswerBody(nodeId, g, serverKey, now)));
                     && seen == old(seen) + {g.nonce}
                     && if |Canon(answer)| < LENGTH_LIMIT
                        then r == Ok(g) && sock.outgoing == old(sock.outgoing) + Frame(answer)
                        else r == Err(Unsent) && sock.outgoing == old(sock.outgoing)
    {
      var received := sock.RecvFrame();
      if received.Err? { return Err(Unread(received.error)); }
      r := Hear(nodeId, services, seen, text, received.value);
      if r.Ok? {
        seen := seen + {r.value.nonce};
        var sent := sock.SendFrame(Obj(Answer(c, sign, AnswerBody(nodeId, r.value, serverKey, now))));
        if !sent { r := Err(Unsent); }
      }
    }
  }

  /** A hello is admitted exactly when it is for this node, one of its services and a nonce not seen before. */
  lemma {:induction false} HeardExactly(nodeId: string, services: set<string>, seen: set<string>, text: Json -> string,
                                        m: Entries, serviceId: string, nonce: string)
    requires Get(m, "service_id") == Str(serviceId) && Get(m, "nonce") == Str(nonce)
    ensures Hear(nodeId, services, seen, text, Obj(m)).Ok?
            <==> && Get(m, "schema") == Str("entity-direct-hello-v1") && Get(m, "node_id") == Str(nodeId)
                 && serviceId in services && nonce != "" && nonce !in seen
    ensures Hear(nodeId, services, seen + {nonce}, text, Obj(m)).Err?
    ensures forall g :: Hear(nodeId, services, seen, text, Obj(m)) == Ok(g) ==>
              g.serviceId == serviceId && g.nonce == nonce
  {
  }

  /** Without a nonce no hello is admitted. */
  lemma NonceNeeded(nodeId: string, services: set<string>, seen: set<string>, text: Json -> string, hello: Json)
    requires hello.Obj? ==> !Truthy(Get(hello.entries, "nonce"))
    ensures Hear(nodeId, services, seen, text, hello).Err?
  {
  }

  // ----- many connections to one node -----

  /** The nonces seen after several hellos. */
  function SeenAfter(nodeId: string, services: set<string>, text: Json -> string, hellos: seq<Json>): set<string> {
    if hellos == [] then {}
    else
      var last := |hellos| - 1;
      var seen := SeenAfter(nodeId, services, text, hellos[..last]);
      match Hear(nodeId, services, seen, text, hellos[last])
      case Ok(g) => seen + {g.nonce}
      case Err(_) => seen
  }

  /** What a new node answers to the i-th of the hellos it gets. */
  function Heard(nodeId: string, services: set<string>, text: Json -> string, hellos: seq<Json>, i: nat)
    : Result<Greeting, Refusal>
    requires i < |hellos|
  {
    Hear(nodeId, services, SeenAfter(nodeId, services, text, hellos[..i]), text, hellos[i])
  }

  lemma {:induction false} NonceIsSeen(nodeId: string, services: set<string>, text: Json -> string, hellos: seq<Json>,
                                       i: nat)
    requires i < |hellos| && Heard(nodeId, services, text, hellos, i).Ok?
    ensures Heard(nodeId, services, text, hellos, i).value.nonce in SeenAfter(nodeId, services, text, hellos)
  {
    var last := |hellos| - 1;
    if i < last {
      assert hellos[..last][..i] == hellos[..i];
      NonceIsSeen(nodeId, services, text, hellos[..last], i);
    }
  }

  /** No nonce is admitted twice, however many hellos arrive in between. */
  lemma {:induction false} AdmittedOnce(nodeId: string, services: set<string>, text: Json -> string, hellos: seq<Json>,
                                        i: nat, j: nat)
    requires i < j < |hellos|
    requires Heard(nodeId, services, text, hellos, i).Ok? && Heard(nodeId, services, text, hellos, j).Ok?
    ensures Heard(nodeId, services, text, hellos, i).value.nonce != Heard(nodeId, services, text, hellos, j).value.nonce
  {
    assert hellos[..j][..i] == hellos[..i];
    NonceIsSeen(nodeId, services, text, hellos[..j], i);
  }

  // ----- both sides -----

  /** The signer holds the key the session expects of its node. */
  ghost predicate HoldsKey(c: Crypto, s: Session, sign: Bytes -> string) {
    Get(s.node, "public_key_b64").Str? && forall m :: c.verifies(Get(s.node, "public_key_b64").s, sign(m), m)
  }

  lemma {:induction false} SignatureHolds(c: Crypto, sign: Bytes -> string, body: Entries)
    ensures var sig := SignatureOn(c, sign, body);
            && Get(sig, "signature_b64") == Str(sign(Canon(Obj(body))))
            && Get(sig, "payload_sha256") == Str(Sha(c, Obj(body))) && WellFormed(Obj(sig))
  {
    var keys := ["suite", "signature_b64", "payload_sha256"];
    assert keys[1] == "signature_b64" && keys[2] == "payload_sha256";
    FieldsAt(SignatureOn(c, sign, body), keys);
  }

  /** The answer to the hello a session sent is accepted by that session. */
  lemma {:induction false} AnswerAccepted(c: Crypto, s: Session, nodeId: string, sign: Bytes -> string, g: Greeting,
                                          serverKey: string, now: int)
    requires HoldsKey(c, s, sign) && Get(s.node, "node_id") == Str(nodeId)
    requires g == Greeting(s.serviceId, s.nonce, s.clientKey)
    ensures var body := AnswerBody(nodeId, g, serverKey, now);
            Judge(c, s, Obj(Answer(c, sign, body))) == Ok(body)
  {
    var body := AnswerBody(nodeId, g, serverKey, now);
    var sig := SignatureOn(c, sign, body);
    ServerFields(body, Entry("node_signature", Obj(sig)), Answer(c, sign, body));
    BodyFields(s, body);
    SignatureHolds(c, sign, body);
    AcceptsWhen(c, s, Answer(c, sign, body), body, sig);
  }

  /** A dict of these keys, each with a value that is well formed. */
  lemma {:induction false} SpeltWellFormed(es: Entries, keys: seq<string>)
    requires Distinct(keys) && Spells(es, keys) && forall i :: 0 <= i < |es| ==> WellFormed(es[i].value)
    ensures WellFormed(Obj(es))
  {
    FieldsAt(es, keys);
  }

  lemma {:induction false} BodyIsFlat(nodeId: string, g: Greeting, serverKey: string, now: int)
    ensures var body := AnswerBody(nodeId, g, serverKey, now);
            Spells(body, HELLO_KEYS) && forall i :: 0 <= i < 7 ==> body[i].value.Str? || body[i].value.Num?
  {
  }

  lemma {:induction false} AnswerWellFormed(c: Crypto, sign: Bytes -> string, body: Entries)
    requires Spells(body, HELLO_KEYS) && forall i :: 0 <= i < 7 ==> body[i].value.Str? || body[i].value.Num?
    ensures WellFormed(Obj(Answer(c, sign, body)))
  {
    SignatureHolds(c, sign, body);
    HelloKeysDistinct();
    assert forall i :: 0 <= i < 7 ==> HELLO_KEYS[i] != "node_signature";
    SpeltWellFormed(Answer(c, sign, body), HELLO_KEYS + ["node_signature"]);
  }

  /** It is accepted as well when it was sent as a frame and read back. */
  lemma {:induction false} AnswerArrives(c: Crypto, s: Session, nodeId: string, sign: Bytes -> string, g: Greeting,
                                         serverKey: string, now: int, rest: Bytes)
    requires HoldsKey(c, s, sign) && Get(s.node, "node_id") == Str(nodeId) && WellFormed(Obj(s.node))
    requires g == Greeting(s.serviceId, s.nonce, s.clientKey)
    requires |Canon(Obj(Answer(c, sign, AnswerBody(nodeId, g, serverKey, now))))| <= MAX_FRAME
    ensures var body := AnswerBody(nodeId, g, serverKey, now);
            var (received, left) := Receive(Frame(Obj(Answer(c, sign, body))) + rest, MAX_FRAME);
            && left == rest && received.Ok? && Judge(c, s, received.value).Ok?
            && TwinDicts(body, Judge(c, s, received.value).value)
  {
    var body := AnswerBody(nodeId, g, serverKey, now);
    var answer := Obj(Answer(c, sign, body));
    AnswerAccepted(c, s, nodeId, sign, g, serverKey, now);
    BodyIsFlat(nodeId, g, serverKey, now);
    AnswerWellFormed(c, sign, body);
    ReceiveSent(answer, rest, MAX_FRAME);
    NormalSame(answer);
    JudgeTwins(c, s, answer.entries, Normal(answer).entries);
  }

  lemma {:induction false} HelloIsHeard(s: Session, m: Entries, nodeId: string, services: set<string>,
                                        seen: set<string>, text: Json -> string)
    requires HelloFor(m, s) && Get(s.node, "node_id") == Str(nodeId)
    requires s.serviceId in services && s.nonce != "" && s.nonce !in seen
    ensures Hear(nodeId, services, seen, text, Obj(m)) == Ok(Greeting(s.serviceId, s.nonce, s.clientKey))
  {
  }

  /** The selected service is one the node runs, and the node holds the key the proof names for it. */
  ghost predicate RunBy(c: Crypto, s: Session, nodeId: string, sign: Bytes -> string, services: set<string>) {
    && HoldsKey(c, s, sign) && Get(s.node, "node_id") == Str(nodeId) && s.serviceId in services
    && WellFormed(Obj(s.node))
  }

  /** What the node sends to a peer whose hello it admits. */
  method HandleHello(c: Crypto, runtime: EntityNodeRuntime, text: Json -> string, serverKey: string, now: int,
                     hello: Bytes, ghost g: Greeting) returns (answer: Bytes)
    requires var (received, left) := Receive(hello, MAX_FRAME);
             received.Ok? && Hear(runtime.nodeId, runtime.services, runtime.seen, text, received.value) == Ok(g)
    requires |Canon(Obj(Answer(c, runtime.sign, AnswerBody(runtime.nodeId, g, serverKey, now))))| < LENGTH_LIMIT
    modifies runtime
    ensures answer == [] + Frame(Obj(Answer(c, runtime.sign, AnswerBody(runtime.nodeId, g, serverKey, now))))
    ensures runtime.seen == old(runtime.seen) + {g.nonce} && runtime.services == old(runtime.services)
  {
    var peer := new Socket(hello);
    var r := runtime.Handle(c, peer, text, serverKey, now);
    answer := peer.outgoing;
  }

  /** A client with a new nonce connects to the node it selected: the node reads just what was sent, and both agree. */
  method ConnectToNode(c: Crypto, runtime: EntityNodeRuntime, text: Json -> string, serverKey: string, now: int,
                       proof: Entries, serviceId: string, clientKey: string, nonce: string)
    returns (r: Result<(Session, Entries), HelloError>)
    requires Select(proof, serviceId, clientKey, nonce).Ok?
    requires RunBy(c, Select(proof, serviceId, clientKey, nonce).value, runtime.nodeId, runtime.sign, runtime.services)
    requires nonce != "" && nonce !in runtime.seen
    requires |Canon(ClientHello(Select(proof, serviceId, clientKey, nonce).value))| <= MAX_FRAME
    requires var g := Greeting(serviceId, nonce, clientKey);
             |Canon(Obj(Answer(c, runtime.sign, AnswerBody(runtime.nodeId, g, serverKey, now))))| <= MAX_FRAME
    modifies runtime
    ensures r.Ok? && r.value.0 == Select(proof, serviceId, clientKey, nonce).value
    ensures var body := r.value.1;
            && Get(body, "node_id") == Str(runtime.nodeId) && Get(body, "service_id") == Str(serviceId)
            && Get(body, "client_x25519_b64") == Str(clientKey) && Get(body, "nonce") == Str(nonce)
            && Get(body, "server_x25519_b64") == Str(serverKey) && Get(body, "created_at_ms") == Num(now)
    ensures runtime.seen == old(runtime.seen) + {nonce} && runtime.services == old(runtime.services)
  {
    var s := Select(proof, serviceId, clientKey, nonce).value;
    ghost var g := Greeting(serviceId, nonce, clientKey);
    SelectExactly(proof, serviceId, clientKey, nonce);
    HelloIsAdmitted(s, runtime.nodeId, runtime.services, runtime.seen, text);
    var answer := HandleHello(c, runtime, text, serverKey, now, Frame(ClientHello(s)), g);
    AnswerIsJudged(c, s, runtime.nodeId, runtime.sign, g, serverKey, now);
    var sock := new Socket(answer);
    r := Connect(c, sock, proof, serviceId, clientKey, nonce);
    assert sock.outgoing == Frame(ClientHello(s));
    BodyReads(runtime.nodeId, g, serverKey, now, r.value.1);
  }

  lemma {:induction false} HelloIsAdmitted(s: Session, nodeId: string, services: set<string>, seen: set<string>,
                                           text: Json -> string)
    requires Get(s.node, "node_id") == Str(nodeId) && WellFormed(Obj(s.node))
    requires s.serviceId in services && s.nonce != "" && s.nonce !in seen && |Canon(ClientHello(s))| <= MAX_FRAME
    ensures var (received, left) := Receive(Frame(ClientHello(s)), MAX_FRAME);
            && received.Ok? && left == []
            && Hear(nodeId, services, seen, text, received.value) == Ok(Greeting(s.serviceId, s.nonce, s.clientKey))
  {
    HelloArrives(s, []);
    assert Frame(ClientHello(s)) + [] == Frame(ClientHello(s));
    var heard := Receive(Frame(ClientHello(s)), MAX_FRAME).0.value;
    HelloIsHeard(s, heard.entries, nodeId, services, seen, text);
  }

  lemma {:induction false} AnswerIsJudged(c: Crypto, s: Session, nodeId: string, sign: Bytes -> string, g: Greeting,
                                          serverKey: string, now: int)
    requires HoldsKey(c, s, sign) && Get(s.node, "node_id") == Str(nodeId) && WellFormed(Obj(s.node))
    requires g == Greeting(s.serviceId, s.nonce, s.clientKey)
    requires |Canon(Obj(Answer(c, sign, AnswerBody(nodeId, g, serverKey, now))))| <= MAX_FRAME
    ensures var body := AnswerBody(nodeId, g, serverKey, now);
            var (received, left) := Receive([] + Frame(Obj(Answer(c, sign, body))), MAX_FRAME);
            && left == [] && received.Ok? && Judge(c, s, received.value).Ok?
            && TwinDicts(body, Judge(c, s, received.value).value)
  {
    AnswerArrives(c, s, nodeId, sign, g, serverKey, now, []);
    var frame := Frame(Obj(Answer(c, sign, AnswerBody(nodeId, g, serverKey, now))));
    assert frame + [] == frame == [] + frame;
  }

  lemma {:induction false} FieldRead(a: Entries, body: Entries, i: nat)
    requires TwinDicts(a, body) && Spells(a, HELLO_KEYS) && i < 7 && (a[i].value.Str? || a[i].value.Num?)
    ensures Get(body, HELLO_KEYS[i]) == a[i].value
  {
    HelloKeysDistinct();
    FieldsAt(a, HELLO_KEYS);
    GetTwins(a, body, HELLO_KEYS[i]);
  }

  lemma {:induction false} BodyReads(nodeId: string, g: Greeting, serverKey: string, now: int, body: Entries)
    requires TwinDicts(AnswerBody(nodeId, g, serverKey, now), body)
    ensures && Get(body, "node_id") == Str(nodeId) && Get(body, "service_id") == Str(g.serviceId)
            && Get(body, "client_x25519_b64") == Str(g.clientKey) && Get(body, "nonce") == Str(g.nonce)
            && Get(body, "server_x25519_b64") == Str(serverKey) && Get(body, "created_at_ms") == Num(now)
  {
    var a := AnswerBody(nodeId, g, serverKey, now);
    BodyIsFlat(nodeId, g, serverKey, now);
    assert HELLO_KEYS[1] == "node_id" && HELLO_KEYS[2] == "service_id" && HELLO_KEYS[3] == "client_x25519_b64";
    assert HELLO_KEYS[4] == "server_x25519_b64" && HELLO_KEYS[5] == "nonce" && HELLO_KEYS[6] == "created_at_ms";
    FieldRead(a, body, 1);
    FieldRead(a, body, 2);
    FieldRead(a, body, 3);
    FieldRead(a, body, 4);
    FieldRead(a, body, 5);
    FieldRead(a, body, 6);
  }
}

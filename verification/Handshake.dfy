/**
 The client side of the direct handshake: choosing the one service of a resolution proof, sending a hello
 and judging the server hello. Runs of many sessions follow, over a network that may deliver any message
 to any session any number of times.
 */
module Handshake {
  import opened Prelude
  import opened JsonValue
  import opened CanonicalOrder
  import opened CanonicalJson
  import opened Framing
  import opened SovereignDomain
  import opened SameValueFacts
  import opened DomainTheorems

  datatype HelloError = NoService | NodeInactive | Malformed | WrongSchema | Binding | Hash | BadSignature | Transport

  /** The parties and the fresh values of one request. */
  datatype Session = Session(node: Entries, service: Entries, serviceId: string, clientKey: string, nonce: string)

  // ----- choosing the service -----

  function ServiceOf(pair: Json): Json
    requires pair.Obj?
  {
    OrEmpty(Get(pair.entries, "service"))
  }

  /** The pairs offering the service, or None where a reading raises. */
  function Matches(pairs: seq<Json>, serviceId: string): Option<seq<Json>> {
    if pairs == [] then Some([])
    else if !pairs[0].Obj? || !ServiceOf(pairs[0]).Obj? then None
    else
      match Matches(pairs[1..], serviceId)
      case None => None
      case Some(rest) =>
        Some((if Eq(Get(ServiceOf(pairs[0]).entries, "service_id"), Str(serviceId)) then [pairs[0]] else []) + rest)
  }

  function Select(proof: Entries, serviceId: string, clientKey: string, nonce: string): Result<Session, HelloError> {
    match Elements(Get(proof, "services"))
    case None => Err(Malformed)
    case Some(pairs) =>
      match Matches(pairs, serviceId)
      case None => Err(Malformed)
      case Some(found) =>
        if |found| != 1 then Err(NoService)
        else if !found[0].Obj? then Err(Malformed)
        else
          var service, node := Get(found[0].entries, "service"), Get(found[0].entries, "node");
          if !service.Obj? || !node.Obj? || !Has(service.entries, "endpoint") then Err(Malformed)
          else if !ActiveNode(node.entries) then Err(NodeInactive)
          else if !Has(node.entries, "node_id") then Err(Malformed)
          else Ok(Session(node.entries, service.entries, serviceId, clientKey, nonce))
  }

  /** A pair whose service is a dict, or missing. */
  ghost predicate Legible(pair: Json) {
    pair.Obj? && (Get(pair.entries, "service").Obj? || !Truthy(Get(pair.entries, "service")))
  }

  ghost predicate Readable(pairs: seq<Json>) { forall i :: 0 <= i < |pairs| ==> Legible(pairs[i]) }

  ghost predicate Offers(pair: Json, serviceId: string) {
    && pair.Obj? && Get(pair.entries, "service").Obj?
    && Get(Get(pair.entries, "service").entries, "service_id") == Str(serviceId)
  }

  lemma {:induction false} ServiceRead(pair: Json, serviceId: string)
    ensures Legible(pair) <==> pair.Obj? && ServiceOf(pair).Obj?
    ensures Legible(pair) ==>
              (Offers(pair, serviceId) <==> Get(ServiceOf(pair).entries, "service_id") == Str(serviceId))
  {
    if Legible(pair) && !Truthy(Get(pair.entries, "service")) {
      assert Get([], "service_id") == Null;
    }
  }

  ghost predicate OnlyOffer(pairs: seq<Json>, serviceId: string, i: int) {
    && 0 <= i < |pairs| && Offers(pairs[i], serviceId)
    && forall j :: 0 <= j < |pairs| && Offers(pairs[j], serviceId) ==> j == i
  }

  ghost predicate NoOffer(pairs: seq<Json>, serviceId: string) {
    forall j :: 0 <= j < |pairs| ==> !Offers(pairs[j], serviceId)
  }

  /** An active node with an id, and a service with an endpoint. */
  ghost predicate Usable(pair: Json) {
    && pair.Obj? && Get(pair.entries, "service").Obj? && Has(Get(pair.entries, "service").entries, "endpoint")
    && Get(pair.entries, "node").Obj? && ActiveNode(Get(pair.entries, "node").entries)
    && Has(Get(pair.entries, "node").entries, "node_id")
  }

  /** A service with an endpoint, at a node that is not active. */
  ghost predicate Inactive(pair: Json) {
    && pair.Obj? && Get(pair.entries, "service").Obj? && Has(Get(pair.entries, "service").entries, "endpoint")
    && Get(pair.entries, "node").Obj? && !ActiveNode(Get(pair.entries, "node").entries)
  }

  /** The session is for what the caller asked for: that service, offered by an active node. */
  ghost predicate Requested(s: Session, serviceId: string, clientKey: string, nonce: string) {
    && s.serviceId == serviceId && s.clientKey == clientKey && s.nonce == nonce
    && Get(s.service, "service_id") == Str(serviceId) && ActiveNode(s.node)
  }

  lemma {:induction false} OfferAtFront(pairs: seq<Json>, serviceId: string)
    requires pairs != []
    ensures NoOffer(pairs, serviceId) <==> !Offers(pairs[0], serviceId) && NoOffer(pairs[1..], serviceId)
    ensures OnlyOffer(pairs, serviceId, 0) <==> Offers(pairs[0], serviceId) && NoOffer(pairs[1..], serviceId)
    ensures forall i :: i > 0 ==>
              (OnlyOffer(pairs, serviceId, i)
               <==> !Offers(pairs[0], serviceId) && OnlyOffer(pairs[1..], serviceId, i - 1))
  {
    var rest := pairs[1..];
    assert forall j :: 0 <= j < |rest| ==> rest[j] == pairs[j + 1];
    assert forall j :: 0 < j < |pairs| ==> pairs[j] == rest[j - 1];
  }

  /** The filter can be read off when every pair can, and finds none or one when none or one pair offers the service. */
  lemma {:induction false} MatchesAre(pairs: seq<Json>, serviceId: string)
    ensures Matches(pairs, serviceId).Some? <==> Readable(pairs)
    ensures Readable(pairs) ==>
              && (Matches(pairs, serviceId).value == [] <==> NoOffer(pairs, serviceId))
              && (|Matches(pairs, serviceId).value| == 1 <==> exists i :: OnlyOffer(pairs, serviceId, i))
              && (forall i :: OnlyOffer(pairs, serviceId, i) ==> Matches(pairs, serviceId).value == [pairs[i]])
  {
    if pairs != [] {
      var rest := pairs[1..];
      MatchesAre(rest, serviceId);
      OfferAtFront(pairs, serviceId);
      ServiceRead(pairs[0], serviceId);
      assert Readable(pairs) <==> Legible(pairs[0]) && Readable(rest) by {
        assert forall j :: 0 <= j < |rest| ==> rest[j] == pairs[j + 1];
      }
      if Readable(pairs) { FrontMatch(pairs, serviceId); }
    }
  }

  lemma {:induction false} FrontMatch(pairs: seq<Json>, serviceId: string)
    requires pairs != [] && Legible(pairs[0]) && Matches(pairs[1..], serviceId).Some?
    requires var rest := Matches(pairs[1..], serviceId).value;
             && (rest == [] <==> NoOffer(pairs[1..], serviceId))
             && (|rest| == 1 <==> exists i :: OnlyOffer(pairs[1..], serviceId, i))
             && (forall i :: OnlyOffer(pairs[1..], serviceId, i) ==> rest == [pairs[1..][i]])
    ensures var found := Matches(pairs, serviceId).value;
            && (found == [] <==> NoOffer(pairs, serviceId))
            && (|found| == 1 <==> exists i :: OnlyOffer(pairs, serviceId, i))
            && (forall i :: OnlyOffer(pairs, serviceId, i) ==> found == [pairs[i]])
  {
    ServiceRead(pairs[0], serviceId);
    EqString(Get(ServiceOf(pairs[0]).entries, "service_id"), serviceId);
    OfferAtFront(pairs, serviceId);
    if Offers(pairs[0], serviceId) {
      if NoOffer(pairs[1..], serviceId) { assert OnlyOffer(pairs, serviceId, 0); }
    } else if i :| OnlyOffer(pairs[1..], serviceId, i) {
      assert OnlyOffer(pairs, serviceId, i + 1);
    }
  }

  /** A session opens exactly when every pair can be read, one alone offers the service, and that one is usable. */
  lemma {:induction false} SelectExactly(proof: Entries, serviceId: string, clientKey: string, nonce: string)
    ensures var r, list := Select(proof, serviceId, clientKey, nonce), Elements(Get(proof, "services"));
            && (r.Ok? <==> && list.Some? && Readable(list.value)
                           && exists i :: OnlyOffer(list.value, serviceId, i) && Usable(list.value[i]))
            && (r == Err(NoService) <==> && list.Some? && Readable(list.value)
                                         && !exists i :: OnlyOffer(list.value, serviceId, i))
            && (r == Err(NodeInactive) <==>
                  && list.Some? && Readable(list.value)
                  && exists i :: OnlyOffer(list.value, serviceId, i) && Inactive(list.value[i]))
            && (r.Ok? ==> Requested(r.value, serviceId, clientKey, nonce))
            && (r.Ok? ==> forall i :: OnlyOffer(list.value, serviceId, i) ==>
                  && list.value[i].Obj? && Get(list.value[i].entries, "node") == Obj(r.value.node)
                  && Get(list.value[i].entries, "service") == Obj(r.value.service))
  {
    var list := Elements(Get(proof, "services"));
    if list.Some? {
      MatchesAre(list.value, serviceId);
      if i :| OnlyOffer(list.value, serviceId, i) {
        assert forall j :: OnlyOffer(list.value, serviceId, j) ==> j == i;
      }
    }
  }

  function ClientHello(s: Session): Json {
    Obj([Entry("schema", Str("entity-direct-hello-v1")), Entry("node_id", Get(s.node, "node_id")),
         Entry("service_id", Str(s.serviceId)), Entry("client_x25519_b64", Str(s.clientKey)),
         Entry("nonce", Str(s.nonce))])
  }

  // ----- judging the server hello -----

  const HELLO_KEYS: seq<string> :=
    ["schema", "node_id", "service_id", "client_x25519_b64", "server_x25519_b64", "nonce", "created_at_ms"]

  predicate HasAll(es: Entries, keys: seq<string>) {
    forall i :: 0 <= i < |keys| ==> Has(es, keys[i])
  }

  /** {k: server[k] for k in keys} */
  function Pick(es: Entries, keys: seq<string>): Entries {
    if keys == [] then [] else [Entry(keys[0], Get(es, keys[0]))] + Pick(es, keys[1..])
  }

  function HelloBody(server: Entries): Entries { Pick(server, HELLO_KEYS) }

  predicate Bound(s: Session, body: Entries) {
    && Eq(Get(body, "node_id"), Get(s.node, "node_id"))
    && Eq(Get(body, "service_id"), Str(s.serviceId))
    && Eq(Get(body, "client_x25519_b64"), Str(s.clientKey))
    && Eq(Get(body, "nonce"), Str(s.nonce))
  }

  function KeyText(s: Session): string {
    if Get(s.node, "public_key_b64").Str? then Get(s.node, "public_key_b64").s else ""
  }

  /** The body of an accepted server hello. */
  function Judge(c: Crypto, s: Session, server: Json): Result<Entries, HelloError> {
    if !server.Obj? then Err(Malformed)
    else if Get(server.entries, "schema") != Str("entity-direct-server-hello-v1") then Err(WrongSchema)
    else if !HasAll(server.entries, HELLO_KEYS) then Err(Malformed)
    else
      var body := HelloBody(server.entries);
      var sig := Get(server.entries, "node_signature");
      if !Bound(s, body) then Err(Binding)
      else if !sig.Obj? then Err(Malformed)
      else if !Eq(Get(sig.entries, "payload_sha256"), Str(Sha(c, Obj(body)))) then Err(Hash)
      else if !Get(s.node, "public_key_b64").Str? || !Get(sig.entries, "signature_b64").Str? then Err(Malformed)
      else if !c.verifies(KeyText(s), Get(sig.entries, "signature_b64").s, Canon(Obj(body))) then Err(BadSignature)
      else Ok(body)
  }

  /** What an accepted hello vouches for: all of the session, under the node's key. */
  ghost predicate Vouched(c: Crypto, s: Session, body: Entries) {
    && Get(body, "schema") == Str("entity-direct-server-hello-v1")
    && Eq(Get(body, "node_id"), Get(s.node, "node_id")) && Get(body, "service_id") == Str(s.serviceId)
    && Get(body, "client_x25519_b64") == Str(s.clientKey) && Get(body, "nonce") == Str(s.nonce)
    && Get(s.node, "public_key_b64") == Str(KeyText(s))
    && exists sig: string :: c.verifies(KeyText(s), sig, Canon(Obj(body)))
  }

  lemma {:induction false} PickGet(es: Entries, keys: seq<string>, k: string)
    ensures Get(Pick(es, keys), k) == if k in keys then Get(es, k) else Null
  {
    if keys != [] {
      PickGet(es, keys[1..], k);
      assert keys == [keys[0]] + keys[1..];
    }
  }

  /** The body is the signed part of the hello, whose digest and signature the hello carries. */
  lemma {:induction false} JudgedHello(c: Crypto, s: Session, server: Json)
    requires Judge(c, s, server).Ok?
    ensures server.Obj? && Get(server.entries, "node_signature").Obj?
    ensures var body, sig := Judge(c, s, server).value, Get(server.entries, "node_signature").entries;
            && Vouched(c, s, body)
            && (forall k :: k in HELLO_KEYS ==> Get(body, k) == Get(server.entries, k))
            && Get(sig, "payload_sha256") == Str(Sha(c, Obj(body)))
            && Get(sig, "signature_b64").Str? && c.verifies(KeyText(s), Get(sig, "signature_b64").s, Canon(Obj(body)))
  {
    var body, sig := Judge(c, s, server).value, Get(server.entries, "node_signature").entries;
    forall k | k in HELLO_KEYS ensures Get(body, k) == Get(server.entries, k) {
      PickGet(server.entries, HELLO_KEYS, k);
    }
    assert "schema" == HELLO_KEYS[0];
    EqString(Get(body, "service_id"), s.serviceId);
    EqString(Get(body, "client_x25519_b64"), s.clientKey);
    EqString(Get(body, "nonce"), s.nonce);
    EqString(Get(sig, "payload_sha256"), Sha(c, Obj(body)));
  }

  lemma {:induction false} AcceptsWhen(c: Crypto, s: Session, server: Entries, body: Entries, sig: Entries)
    requires Get(server, "schema") == Str("entity-direct-server-hello-v1") && HasAll(server, HELLO_KEYS)
    requires HelloBody(server) == body && Bound(s, body) && Get(server, "node_signature") == Obj(sig)
    requires Get(sig, "payload_sha256") == Str(Sha(c, Obj(body))) && Get(sig, "signature_b64").Str?
    requires Get(s.node, "public_key_b64").Str?
    requires c.verifies(KeyText(s), Get(sig, "signature_b64").s, Canon(Obj(body)))
    ensures Judge(c, s, Obj(server)) == Ok(body)
  {
    EqString(Get(sig, "payload_sha256"), Sha(c, Obj(body)));
  }

  /** The hello a node answers with. */
  function ServerHello(c: Crypto, s: Session, serverKey: Json, created: Json, signature: string): Json {
    var body := ServerBody(s, serverKey, created);
    Obj(body + [Entry("node_signature", Obj([Entry("payload_sha256", Str(Sha(c, Obj(body)))),
                                             Entry("signature_b64", Str(signature))]))])
  }

  function ServerBody(s: Session, serverKey: Json, created: Json): Entries {
    [Entry("schema", Str("entity-direct-server-hello-v1")), Entry("node_id", Get(s.node, "node_id")),
     Entry("service_id", Str(s.serviceId)), Entry("client_x25519_b64", Str(s.clientKey)),
     Entry("server_x25519_b64", serverKey), Entry("nonce", Str(s.nonce)), Entry("created_at_ms", created)]
  }

  /** An honest node is accepted: its answer to this session, signed with its key, opens the data phase. */
  lemma {:induction false} HonestHelloAccepted(c: Crypto, s: Session, serverKey: Json, created: Json, signature: string)
    requires Get(s.node, "public_key_b64").Str?
    requires c.verifies(KeyText(s), signature, Canon(Obj(ServerBody(s, serverKey, created))))
    ensures Judge(c, s, ServerHello(c, s, serverKey, created, signature)) == Ok(ServerBody(s, serverKey, created))
  {
    var body := ServerBody(s, serverKey, created);
    var server := ServerHello(c, s, serverKey, created, signature).entries;
    ServerFields(body, server[7], server);
    BodyFields(s, body);
    SignatureFields(Sha(c, Obj(body)), signature);
    AcceptsWhen(c, s, server, body, server[7].value.entries);
  }

  lemma {:induction false} HelloKeysDistinct()
    ensures Distinct(HELLO_KEYS)
  {
  }

  lemma {:induction false} BodyFields(s: Session, body: Entries)
    requires Spells(body, HELLO_KEYS)
    requires body[1].value == Get(s.node, "node_id") && body[2].value == Str(s.serviceId)
    requires body[3].value == Str(s.clientKey) && body[5].value == Str(s.nonce)
    ensures Bound(s, body)
  {
    HelloKeysDistinct();
    FieldsAt(body, HELLO_KEYS);
    assert HELLO_KEYS[1] == "node_id" && HELLO_KEYS[2] == "service_id";
    assert HELLO_KEYS[3] == "client_x25519_b64" && HELLO_KEYS[5] == "nonce";
  }

  lemma {:induction false} ServerFields(body: Entries, sig: Entry, server: Entries)
    requires Spells(body, HELLO_KEYS) && sig.key == "node_signature" && server == body + [sig]
    ensures HelloBody(server) == body && HasAll(server, HELLO_KEYS)
    ensures Get(server, "node_signature") == sig.value && Get(server, "schema") == body[0].value
  {
    var keys := HELLO_KEYS + ["node_signature"];
    HelloKeysDistinct();
    assert forall i :: 0 <= i < 7 ==> HELLO_KEYS[i] != "node_signature";
    FieldsAt(server, keys);
    assert keys[7] == "node_signature" && keys[0] == "schema" && forall i :: 0 <= i < 7 ==> keys[i] == HELLO_KEYS[i];
    PickIs(server, HELLO_KEYS, body);
  }

  lemma {:induction false} SignatureFields(digest: string, signature: string)
    ensures var sig := [Entry("payload_sha256", Str(digest)), Entry("signature_b64", Str(signature))];
            Get(sig, "payload_sha256") == Str(digest) && Get(sig, "signature_b64") == Str(signature)
  {
    var sig := [Entry("payload_sha256", Str(digest)), Entry("signature_b64", Str(signature))];
    assert UniqueKeys(sig);
    GetAt(sig, 0);
    GetAt(sig, 1);
  }

  lemma {:induction false} PickIs(es: Entries, keys: seq<string>, body: Entries)
    requires |body| == |keys| && forall i :: 0 <= i < |keys| ==> body[i] == Entry(keys[i], Get(es, keys[i]))
    ensures Pick(es, keys) == body
  {
    if keys != [] {
      PickIs(es, keys[1..], body[1..]);
      assert body == [body[0]] + body[1..];
    }
  }

  /** The exchange up to the data phase over one socket. */
  method Connect(c: Crypto, sock: Socket, proof: Entries, serviceId: string, clientKey: string, nonce: string)
    returns (r: Result<(Session, Entries), HelloError>)
    modifies sock
    ensures match Select(proof, serviceId, clientKey, nonce)
            case Err(e) => r == Err(e) && sock.incoming == old(sock.incoming) && sock.outgoing == old(sock.outgoing)
            case Ok(s) =>
              if |Canon(ClientHello(s))| >= LENGTH_LIMIT then
                r == Err(Transport) && sock.incoming == old(sock.incoming) && sock.outgoing == old(sock.outgoing)
              else
                var (received, rest) := Receive(old(sock.incoming), MAX_FRAME);
                && sock.outgoing == old(sock.outgoing) + Frame(ClientHello(s)) && sock.incoming == rest
                && (received.Err? ==> r == Err(Transport))
                && (received.Ok? ==>
                      match Judge(c, s, received.value)
                      case Err(e) => r == Err(e)
                      case Ok(body) => r == Ok((s, body)))
    ensures r.Ok? ==> Requested(r.value.0, serviceId, clientKey, nonce) && Vouched(c, r.value.0, r.value.1)
  {
    var selected := Select(proof, serviceId, clientKey, nonce);
    if selected.Err? { return Err(selected.error); }
    var s := selected.value;
    var sent := sock.SendFrame(ClientHello(s));
    if !sent { return Err(Transport); }
    var server := sock.RecvFrame();
    if server.Err? { return Err(Transport); }
    var judged := Judge(c, s, server.value);
    match judged {
      case Err(e) => r := Err(e);
      case Ok(body) =>
        SelectExactly(proof, serviceId, clientKey, nonce);
        JudgedHello(c, s, server.value);
        r := Ok((s, body));
    }
  }

  // ----- runs of many sessions -----

  /** Data: the hello that opened the data phase and its signed body. */
  datatype Phase = Waiting | Data(hello: Json, body: Entries) | Failed

  datatype Client = Client(session: Session, phase: Phase)

  /** All sessions so far, and every (key, message) some holder of a node key ever signed. */
  datatype World = World(clients: seq<Client>, signed: set<(string, Bytes)>)

  datatype Event =
    | Open(proof: Entries, serviceId: string, clientKey: string, nonce: string)
    | Sign(key: string, message: Bytes)
    | Deliver(i: nat, server: Json)

  ghost predicate FreshNonce(w: World, nonce: string) {
    forall i :: 0 <= i < |w.clients| ==> w.clients[i].session.nonce != nonce
  }

  function SignatureOf(server: Json): Json {
    if server.Obj? && Get(server.entries, "node_signature").Obj?
    then Get(Get(server.entries, "node_signature").entries, "signature_b64") else Null
  }

  /** Unforgeability: the signature text on a message in transit verifies only for what a holder of the key signed. */
  ghost predicate Genuine(c: Crypto, w: World, server: Json) {
    SignatureOf(server).Str? ==>
      forall key, message :: c.verifies(key, SignatureOf(server).s, message) ==> (key, message) in w.signed
  }

  ghost predicate Possible(c: Crypto, w: World, e: Event) {
    match e
    case Open(_, _, _, nonce) => FreshNonce(w, nonce)
    case Sign(_, _) => true
    case Deliver(i, server) => i < |w.clients| && WellFormed(server) && Genuine(c, w, server)
  }

  /** What a session waiting for its hello becomes. */
  function Answered(c: Crypto, s: Session, server: Json): Client {
    Client(s, match Judge(c, s, server) case Ok(body) => Data(server, body) case Err(_) => Failed)
  }

  function Step(c: Crypto, w: World, e: Event): World {
    match e
    case Open(proof, serviceId, clientKey, nonce) =>
      (match Select(proof, serviceId, clientKey, nonce)
       case Err(_) => w
       case Ok(s) => w.(clients := w.clients + [Client(s, Waiting)]))
    case Sign(key, message) => w.(signed := w.signed + {(key, message)})
    case Deliver(i, server) =>
      if i < |w.clients| && w.clients[i].phase.Waiting? then
        w.(clients := w.clients[i := Answered(c, w.clients[i].session, server)])
      else w
  }

  /** end is reached from start by these events. */
  ghost predicate Reaches(c: Crypto, start: World, events: seq<Event>, end: World)
    decreases |events|
  {
    if events == [] then start == end
    else Possible(c, start, events[0]) && Reaches(c, Step(c, start, events[0]), events[1..], end)
  }

  const EMPTY := World([], {})

  /** The session accepted the hello it entered the data phase with, and a holder of its node's key signed that. */
  ghost predicate Admitted(c: Crypto, w: World, client: Client) {
    client.phase.Data? ==>
      && Judge(c, client.session, client.phase.hello) == Ok(client.phase.body)
      && (KeyText(client.session), Canon(Obj(client.phase.body))) in w.signed
      && WellFormed(Obj(client.phase.body))
  }

  ghost predicate Inv(c: Crypto, w: World) {
    && (forall i, j :: 0 <= i < j < |w.clients| ==> w.clients[i].session.nonce != w.clients[j].session.nonce)
    && (forall i :: 0 <= i < |w.clients| ==> Admitted(c, w, w.clients[i]))
  }

  lemma {:induction false} PickWellFormed(es: Entries, keys: seq<string>)
    requires WellFormed(Obj(es)) && forall i, j :: 0 <= i < j < |keys| ==> keys[i] != keys[j]
    ensures WellFormed(Obj(Pick(es, keys))) && |Pick(es, keys)| == |keys|
    ensures forall i :: 0 <= i < |keys| ==> Pick(es, keys)[i].key == keys[i]
  {
    if keys != [] {
      GetWellFormed(es, keys[0]);
      PickWellFormed(es, keys[1..]);
      var tail := Pick(es, keys[1..]);
      assert forall i :: 0 <= i < |tail| ==> tail[i].key == keys[i + 1];
    }
  }

  lemma {:induction false} AnsweredIsAdmitted(c: Crypto, w: World, s: Session, server: Json)
    requires WellFormed(server) && Genuine(c, w, server)
    ensures Admitted(c, w, Answered(c, s, server))
  {
    if Judge(c, s, server).Ok? {
      PickWellFormed(server.entries, HELLO_KEYS);
      JudgedHello(c, s, server);
    }
  }

  lemma {:induction false} StepKeepsInv(c: Crypto, w: World, e: Event)
    requires Inv(c, w) && Possible(c, w, e)
    ensures Inv(c, Step(c, w, e))
  {
    var w' := Step(c, w, e);
    if e.Deliver? && w.clients[e.i].phase.Waiting? { AnsweredIsAdmitted(c, w, w.clients[e.i].session, e.server); }
    forall i | 0 <= i < |w'.clients| ensures Admitted(c, w', w'.clients[i]) {
      if i < |w.clients| { assert Admitted(c, w, w.clients[i]); }
    }
  }

  lemma {:induction false} RunKeepsInv(c: Crypto, start: World, events: seq<Event>, end: World)
    requires Inv(c, start) && Reaches(c, start, events, end)
    ensures Inv(c, end)
    decreases |events|
  {
    if events != [] {
      StepKeepsInv(c, start, events[0]);
      RunKeepsInv(c, Step(c, start, events[0]), events[1..], end);
    }
  }

  /** In every run, a session in the data phase holds a hello for itself, signed by a holder of its node's key. */
  lemma {:induction false} DataPhaseIsBound(c: Crypto, events: seq<Event>, w: World, i: nat)
    requires Reaches(c, EMPTY, events, w) && i < |w.clients| && w.clients[i].phase.Data?
    ensures var s, body := w.clients[i].session, w.clients[i].phase.body;
            (KeyText(s), Canon(Obj(body))) in w.signed && Vouched(c, s, body)
  {
    RunKeepsInv(c, EMPTY, events, w);
    assert Admitted(c, w, w.clients[i]);
    JudgedHello(c, w.clients[i].session, w.clients[i].phase.hello);
  }

  /** With fresh nonces no signed hello admits two sessions. */
  lemma {:induction false} HelloAdmitsOne(c: Crypto, events: seq<Event>, w: World, i: nat, j: nat)
    requires Reaches(c, EMPTY, events, w) && i < |w.clients| && j < |w.clients|
    requires w.clients[i].phase.Data? && w.clients[j].phase.Data?
    requires Canon(Obj(w.clients[i].phase.body)) == Canon(Obj(w.clients[j].phase.body))
    ensures i == j
  {
    RunKeepsInv(c, EMPTY, events, w);
    assert Admitted(c, w, w.clients[i]) && Admitted(c, w, w.clients[j]);
    var a, b := w.clients[i].phase.body, w.clients[j].phase.body;
    CanonEquality(Obj(a), Obj(b));
    SameGet(a, b, "nonce");
    JudgedHello(c, w.clients[i].session, w.clients[i].phase.hello);
    JudgedHello(c, w.clients[j].session, w.clients[j].phase.hello);
  }

  // ----- the key of a session comes from the proof -----

  /** The pair Select takes is the one of the proof's pairs that offers the service. */
  lemma {:induction false} SelectedPair(proof: Entries, serviceId: string, clientKey: string, nonce: string)
    returns (i: nat)
    requires Select(proof, serviceId, clientKey, nonce).Ok?
    ensures Get(proof, "services").Arr? && OnlyOffer(Get(proof, "services").items, serviceId, i)
    ensures var s, pair := Select(proof, serviceId, clientKey, nonce).value, Get(proof, "services").items[i];
            && Get(pair.entries, "node") == Obj(s.node) && Get(pair.entries, "service") == Obj(s.service)
            && Requested(s, serviceId, clientKey, nonce)
  {
    SelectExactly(proof, serviceId, clientKey, nonce);
    i :| OnlyOffer(Elements(Get(proof, "services")).value, serviceId, i);
  }

  /**
   The node of the session, active and with its key, and the requested service were issued under the root's identity.
   */
  ghost predicate Authorised(c: Crypto, issued: set<Json>, root: Json, s: Session) {
    && RootIssued(c, issued, root, Without(s.node, AUTHORIZATION_EXTRAS))
    && RootIssued(c, issued, root, s.service)
    && Get(Without(s.node, AUTHORIZATION_EXTRAS), "public_key_b64") == Get(s.node, "public_key_b64")
    && Eq(Get(s.node, "node_id"), Get(s.service, "node_id"))
    && Get(s.service, "service_id") == Str(s.serviceId) && ActiveNode(s.node)
  }

  ghost predicate AcceptedProof(c: Crypto, proof: Entries, identity: Json, root: Json) {
    WellFormed(Obj(proof)) && ProofOk(c, proof, identity, root) == Some(true)
  }

  lemma {:induction false} SelectedAuthorised(c: Crypto, proof: Entries, identity: Json, root: Json, issued: set<Json>,
                                              serviceId: string, clientKey: string, nonce: string)
    requires AcceptedProof(c, proof, identity, root) && SignsOnly(c, identity, issued)
    requires Select(proof, serviceId, clientKey, nonce).Ok?
    ensures Authorised(c, issued, root, Select(proof, serviceId, clientKey, nonce).value)
  {
    var s := Select(proof, serviceId, clientKey, nonce).value;
    var i := SelectedPair(proof, serviceId, clientKey, nonce);
    ProofPairIssued(c, Obj(proof), identity, root, issued, i);
    PairSameNode(c, Get(proof, "services").items[i], proof, identity, root, s);
    AuthorisedWhen(c, issued, root, s);
  }

  lemma {:induction false} AuthorisedWhen(c: Crypto, issued: set<Json>, root: Json, s: Session)
    requires RootIssued(c, issued, root, Without(s.node, AUTHORIZATION_EXTRAS))
    requires RootIssued(c, issued, root, s.service) && Eq(Get(s.node, "node_id"), Get(s.service, "node_id"))
    requires Get(s.service, "service_id") == Str(s.serviceId) && ActiveNode(s.node)
    ensures Authorised(c, issued, root, s)
  {
    WithoutGet(s.node, AUTHORIZATION_EXTRAS, "public_key_b64");
  }

  lemma {:induction false} PairSameNode(c: Crypto, pair: Json, proof: Entries, identity: Json, root: Json, s: Session)
    requires PairAccepted(c, pair, proof, identity, root)
    requires Get(pair.entries, "node") == Obj(s.node) && Get(pair.entries, "service") == Obj(s.service)
    ensures Eq(Get(s.node, "node_id"), Get(s.service, "node_id"))
  {
  }

  /** Sessions are only ever added, and their parties never change. */
  lemma {:induction false} SessionsPersist(c: Crypto, start: World, events: seq<Event>, end: World)
    requires Reaches(c, start, events, end)
    ensures |start.clients| <= |end.clients|
    ensures forall i :: 0 <= i < |start.clients| ==> end.clients[i].session == start.clients[i].session
    decreases |events|
  {
    if events != [] {
      SessionsPersist(c, Step(c, start, events[0]), events[1..], end);
    }
  }

  /** Every session of a run was selected from the proof of one of its Open events. */
  lemma {:induction false} OpenedFrom(c: Crypto, start: World, events: seq<Event>, end: World, i: nat)
    returns (e: Event)
    requires Reaches(c, start, events, end) && |start.clients| <= i < |end.clients|
    ensures e in events && e.Open?
    ensures Select(e.proof, e.serviceId, e.clientKey, e.nonce) == Ok(end.clients[i].session)
    decreases |events|
  {
    var next := Step(c, start, events[0]);
    if i < |next.clients| {
      SessionsPersist(c, next, events[1..], end);
      e := events[0];
    } else {
      e := OpenedFrom(c, next, events[1..], end, i);
    }
  }

  /**
   When every proof used in a run was accepted, a session in the data phase talks to a holder of an authorised key.
   */
  lemma {:induction false} DataPhaseIsAuthorised(c: Crypto, events: seq<Event>, w: World, i: nat, identity: Json,
                                                 root: Json, issued: set<Json>)
    requires Reaches(c, EMPTY, events, w) && i < |w.clients| && w.clients[i].phase.Data?
    requires SignsOnly(c, identity, issued)
    requires forall e :: e in events && e.Open? ==> AcceptedProof(c, e.proof, identity, root)
    ensures var s := w.clients[i].session;
            && Authorised(c, issued, root, s) && (KeyText(s), Canon(Obj(w.clients[i].phase.body))) in w.signed
            && exists e :: e in events && e.Open? && Requested(s, e.serviceId, e.clientKey, e.nonce)
  {
    DataPhaseIsBound(c, events, w, i);
    var e := OpenedFrom(c, EMPTY, events, w, i);
    SelectedAuthorised(c, e.proof, identity, root, issued, e.serviceId, e.clientKey, e.nonce);
    var j := SelectedPair(e.proof, e.serviceId, e.clientKey, e.nonce);
  }
}

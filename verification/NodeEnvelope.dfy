/**
 Envelopes passed between independent nodes. An envelope is a dict sent as canonical bytes and read back by the
 receiver, which appends a hop to its lineage and records a receipt. Times and node ids are arguments.
 */
module NodeEnvelope {
  import opened Prelude
  import opened JsonValue
  import opened CanonicalOrder
  import opened CanonicalJson
  import opened SameValueFacts

  const SCHEMA := "entity-independent-node/envelope/v1"

  function Sha(hash: Bytes -> string, v: Json): string { hash(Canon(v)) }

  function MakeEnvelope(hash: Bytes -> string, payload: Json, nodeId: string, now: string): Entries {
    var d := Str(Sha(hash, payload));
    [Entry("schema", Str(SCHEMA)), Entry("origin_sha256", d), Entry("object_sha256", d), Entry("object", payload),
     Entry("lineage", Arr([])), Entry("sender_node_id", Str(nodeId)), Entry("created_at", Str(now))]
  }

  datatype Verdict = Verified | WrongSchema | ObjectHashMismatch | MissingOrigin | LineageNotList

  function VerifyEnv(hash: Bytes -> string, e: Entries): Verdict {
    if Get(e, "schema") != Str(SCHEMA) then WrongSchema
    else if Get(e, "object_sha256") != Str(Sha(hash, Get(e, "object"))) then ObjectHashMismatch
    else if !Truthy(Get(e, "origin_sha256")) then MissingOrigin
    else if !Get(e, "lineage").Arr? then LineageNotList
    else Verified
  }

  datatype Receipt = Receipt(pass: bool, receiver: string, sender: Json, objectSha: Json, originSha: Json, depth: nat)

  /** len(env.get("lineage", [])), or None where it raises. */
  function Depth(e: Entries): Option<nat> {
    if !Has(e, "lineage") then Some(0)
    else
      match Get(e, "lineage")
      case Arr(items) => Some(|items|)
      case Str(s) => Some(|s|)
      case Obj(es) => Some(|es|)
      case _ => None
  }

  function ReceiptOf(pass: bool, e: Entries, receiver: string): Option<Receipt> {
    match Depth(e)
    case None => None
    case Some(n) =>
      Some(Receipt(pass, receiver, Get(e, "sender_node_id"), Get(e, "object_sha256"), Get(e, "origin_sha256"), n))
  }

  function Hop(e: Entries, nodeId: string, now: string): Json {
    Obj([Entry("from_node_id", Get(e, "sender_node_id")), Entry("to_node_id", Str(nodeId)),
         Entry("received_at", Str(now)), Entry("object_sha256", Get(e, "object_sha256")),
         Entry("origin_sha256", Get(e, "origin_sha256"))])
  }

  /** The envelope after a hop, before the receipt's digest is put in. */
  function Extended(e: Entries, nodeId: string, now: string): Entries
    requires Get(e, "lineage").Arr?
  {
    Put(Put(e, "lineage", Arr(Get(e, "lineage").items + [Hop(e, nodeId, now)])), "sender_node_id", Str(nodeId))
  }

  datatype Reply = Reply(status: nat, receipt: Option<Receipt>, envelope: Option<Entries>)

  /** receive; receiptSha is the digest of the receipt written. */
  function Receive(hash: Bytes -> string, e: Entries, nodeId: string, now: string, receiptSha: string): Reply {
    if VerifyEnv(hash, e) != Verified then Reply(400, ReceiptOf(false, e, nodeId), None)
    else
      var out := Extended(e, nodeId, now);
      Reply(200, ReceiptOf(true, out, nodeId), Some(Put(out, "last_receipt_sha256", Str(receiptSha))))
  }

  /** What the other end reads of canonical bytes. */
  function Wire(v: Json): Option<Json> { Loads(Canon(v)) }

  class IndependentNode {
    const hash: Bytes -> string
    const nodeId: string
    var receipts: seq<Receipt>

    constructor (hash: Bytes -> string, nodeId: string)
      ensures this.hash == hash && this.nodeId == nodeId && receipts == []
    {
      this.hash, this.nodeId, receipts := hash, nodeId, [];
    }

    /** Verify, append the hop to a copy, write the receipt. */
    method ReceiveEnvelope(e: Entries, now: string, receiptSha: string) returns (r: Reply)
      modifies this
      ensures r == Receive(hash, e, nodeId, now, receiptSha)
      ensures receipts == old(receipts) + if r.receipt.Some? then [r.receipt.value] else []
    {
      var out := e;
      var pass := VerifyEnv(hash, e) == Verified;
      if pass {
        var hop := Hop(e, nodeId, now);
        out := Put(out, "lineage", Arr(Get(e, "lineage").items + [hop]));
        out := Put(out, "sender_node_id", Str(nodeId));
      }
      var receipt := ReceiptOf(pass, out, nodeId);
      if receipt.Some? { receipts := receipts + [receipt.value]; }
      if !pass { return Reply(400, receipt, None); }
      out := Put(out, "last_receipt_sha256", Str(receiptSha));
      r := Reply(200, receipt, Some(out));
    }
  }

  /** cmd_send: what the sender puts on the wire, or None where it refuses. A plain value is wrapped first. */
  function SendStep(hash: Bytes -> string, raw: Json, nodeId: string, now: string): Option<Json> {
    var e := if raw.Obj? && Get(raw.entries, "schema") == Str(SCHEMA) then raw.entries
             else MakeEnvelope(hash, raw, nodeId, now);
    if VerifyEnv(hash, e) != Verified then None else Some(Obj(Put(e, "sender_node_id", Str(nodeId))))
  }

  // ----- one envelope -----

  ghost predicate Digests(hash: Bytes -> string) { forall b :: hash(b) != "" }

  ghost predicate HopRepeats(x: Json, digest: string) {
    && x.Obj? && Get(x.entries, "object_sha256") == Str(digest) && Get(x.entries, "origin_sha256") == Str(digest)
  }

  /** The envelope carries the object, both digests are the object's, and so are those of each of its n hops. */
  ghost predicate Carries(hash: Bytes -> string, e: Entries, payload: Json, n: nat) {
    && WellFormed(Obj(e)) && WellFormed(payload) && SameValue(Get(e, "object"), payload)
    && Get(e, "schema") == Str(SCHEMA)
    && Get(e, "object_sha256") == Str(Sha(hash, payload)) && Get(e, "origin_sha256") == Str(Sha(hash, payload))
    && Get(e, "lineage").Arr? && |Get(e, "lineage").items| == n
    && forall i :: 0 <= i < n ==> HopRepeats(Get(e, "lineage").items[i], Sha(hash, payload))
  }

  lemma {:induction false} CarriesVerifies(hash: Bytes -> string, e: Entries, payload: Json, n: nat)
    requires Digests(hash) && Carries(hash, e, payload, n)
    ensures VerifyEnv(hash, e) == Verified
  {
    GetWellFormed(e, "object");
    CanonEquality(Get(e, "object"), payload);
  }

  lemma {:induction false} MakeCarries(hash: Bytes -> string, payload: Json, nodeId: string, now: string)
    requires WellFormed(payload)
    ensures Carries(hash, MakeEnvelope(hash, payload, nodeId, now), payload, 0)
  {
    SameRefl(payload);
    EnvelopeFields(MakeEnvelope(hash, payload, nodeId, now));
  }

  const ENVELOPE_KEYS: seq<string> :=
    ["schema", "origin_sha256", "object_sha256", "object", "lineage", "sender_node_id", "created_at"]

  lemma {:induction false} EnvelopeFields(e: Entries)
    requires Spells(e, ENVELOPE_KEYS) && forall i :: 0 <= i < |e| ==> WellFormed(e[i].value)
    ensures WellFormed(Obj(e)) && Get(e, "schema") == e[0].value && Get(e, "origin_sha256") == e[1].value
    ensures Get(e, "object_sha256") == e[2].value && Get(e, "object") == e[3].value && Get(e, "lineage") == e[4].value
  {
    EnvelopeKeysDistinct();
    FieldsAt(e, ENVELOPE_KEYS);
    assert ENVELOPE_KEYS[0] == "schema" && ENVELOPE_KEYS[1] == "origin_sha256" && ENVELOPE_KEYS[2] == "object_sha256";
    assert ENVELOPE_KEYS[3] == "object" && ENVELOPE_KEYS[4] == "lineage";
  }

  lemma {:induction false} EnvelopeKeysDistinct()
    ensures Distinct(ENVELOPE_KEYS)
  {
  }

  /** Putting a field that none of the checks reads. */
  lemma {:induction false} PutKeepsCarrying(hash: Bytes -> string, e: Entries, payload: Json, n: nat, k: string,
                                            v: string)
    requires Carries(hash, e, payload, n) && k !in {"schema", "object", "object_sha256", "origin_sha256", "lineage"}
    ensures Carries(hash, Put(e, k, Str(v)), payload, n)
  {
    PutWellFormed(e, k, Str(v));
    PutGet(e, k, Str(v), "schema");
    PutGet(e, k, Str(v), "object");
    PutGet(e, k, Str(v), "object_sha256");
    PutGet(e, k, Str(v), "origin_sha256");
    PutGet(e, k, Str(v), "lineage");
  }

  lemma {:induction false} PutWellFormed(e: Entries, k: string, v: Json)
    requires WellFormed(Obj(e)) && WellFormed(v)
    ensures WellFormed(Obj(Put(e, k, v)))
  {
    PutKeys(e, k, v);
    PutEntries(e, k, v);
  }

  lemma PutEntries(e: Entries, k: string, v: Json)
    requires WellFormed(v) && forall i :: 0 <= i < |e| ==> WellFormed(e[i].value)
    ensures forall i :: 0 <= i < |Put(e, k, v)| ==> WellFormed(Put(e, k, v)[i].value)
  {
  }

  /** Canonical transport keeps everything that is checked. */
  lemma {:induction false} WireCarries(hash: Bytes -> string, e: Entries, payload: Json, n: nat)
    requires Carries(hash, e, payload, n)
    ensures Wire(Obj(e)).Some? && Wire(Obj(e)).value.Obj? && Carries(hash, Wire(Obj(e)).value.entries, payload, n)
    ensures SameValue(Get(Wire(Obj(e)).value.entries, "lineage"), Get(e, "lineage"))
  {
    LoadsCanon(Obj(e));
    NormalSame(Obj(e));
    var w := Normal(Obj(e)).entries;
    SameGet(w, e, "lineage");
    SameCarries(hash, w, e, payload, n);
  }

  /** Carrying does not depend on the order of keys. */
  lemma {:induction false} SameCarries(hash: Bytes -> string, w: Entries, e: Entries, payload: Json, n: nat)
    requires Carries(hash, e, payload, n) && WellFormed(Obj(w)) && SameValue(Obj(w), Obj(e))
    ensures Carries(hash, w, payload, n)
  {
    SameGet(w, e, "schema");
    SameGet(w, e, "object");
    SameGet(w, e, "object_sha256");
    SameGet(w, e, "origin_sha256");
    SameGet(w, e, "lineage");
    GetWellFormed(w, "object");
    GetWellFormed(e, "object");
    GetWellFormed(w, "lineage");
    GetWellFormed(e, "lineage");
    SameTrans(Get(w, "object"), Get(e, "object"), payload);
    SameHops(Get(w, "lineage"), Get(e, "lineage"), Sha(hash, payload));
  }

  lemma {:induction false} SameHops(x: Json, y: Json, digest: string)
    requires x.Arr? && y.Arr? && WellFormed(x) && WellFormed(y) && SameValue(x, y)
    requires forall i :: 0 <= i < |y.items| ==> HopRepeats(y.items[i], digest)
    ensures |x.items| == |y.items| && forall i :: 0 <= i < |x.items| ==> HopRepeats(x.items[i], digest)
  {
    forall i | 0 <= i < |x.items| ensures HopRepeats(x.items[i], digest) { SameHop(x.items[i], y.items[i], digest); }
  }

  lemma {:induction false} SameHop(x: Json, y: Json, digest: string)
    requires WellFormed(x) && WellFormed(y) && SameValue(x, y) && HopRepeats(y, digest)
    ensures HopRepeats(x, digest)
  {
    SameGet(x.entries, y.entries, "object_sha256");
    SameGet(x.entries, y.entries, "origin_sha256");
  }

  lemma {:induction false} ExtendedCarries(hash: Bytes -> string, e: Entries, payload: Json, n: nat, nodeId: string,
                                           now: string)
    requires Carries(hash, e, payload, n)
    ensures var out := Extended(e, nodeId, now);
            && Carries(hash, out, payload, n + 1) && Get(out, "sender_node_id") == Str(nodeId)
            && Get(out, "lineage").items == Get(e, "lineage").items + [Hop(e, nodeId, now)]
  {
    var hop := Hop(e, nodeId, now);
    var longer := Arr(Get(e, "lineage").items + [hop]);
    HopOf(hash, e, payload, n, nodeId, now);
    LongerCarries(hash, e, payload, n, hop);
    var e1 := Put(e, "lineage", longer);
    PutKeepsCarrying(hash, e1, payload, n + 1, "sender_node_id", nodeId);
    PutGet(e, "lineage", longer, "lineage");
    PutGet(e1, "sender_node_id", Str(nodeId), "lineage");
    PutGet(e1, "sender_node_id", Str(nodeId), "sender_node_id");
  }

  /** A receive adds exactly one hop, which repeats the digests, and its receipt records the new length. */
  lemma {:induction false} ReceiveCarries(hash: Bytes -> string, e: Entries, payload: Json, n: nat, nodeId: string,
                                          now: string, receiptSha: string)
    requires Digests(hash) && Carries(hash, e, payload, n)
    ensures var r := Receive(hash, e, nodeId, now, receiptSha);
            && r.status == 200 && r.envelope.Some? && Carries(hash, r.envelope.value, payload, n + 1)
            && Get(r.envelope.value, "lineage").items == Get(e, "lineage").items + [Hop(e, nodeId, now)]
            && r.receipt
               == Some(Receipt(true, nodeId, Str(nodeId), Str(Sha(hash, payload)), Str(Sha(hash, payload)), n + 1))
  {
    CarriesVerifies(hash, e, payload, n);
    ExtendedCarries(hash, e, payload, n, nodeId, now);
    var out := Extended(e, nodeId, now);
    PutKeepsCarrying(hash, out, payload, n + 1, "last_receipt_sha256", receiptSha);
    PutGet(out, "last_receipt_sha256", Str(receiptSha), "lineage");
    HasLineage(out);
  }

  lemma HasLineage(e: Entries)
    requires Get(e, "lineage").Arr?
    ensures Depth(e) == Some(|Get(e, "lineage").items|)
  {
  }

  lemma {:induction false} HopOf(hash: Bytes -> string, e: Entries, payload: Json, n: nat, nodeId: string, now: string)
    requires Carries(hash, e, payload, n)
    ensures WellFormed(Hop(e, nodeId, now)) && HopRepeats(Hop(e, nodeId, now), Sha(hash, payload))
  {
    GetWellFormed(e, "sender_node_id");
    HopFields(Get(e, "sender_node_id"), nodeId, now, Sha(hash, payload));
  }

  lemma {:induction false} HopFields(from: Json, nodeId: string, now: string, digest: string)
    requires WellFormed(from)
    ensures var hop := [Entry("from_node_id", from), Entry("to_node_id", Str(nodeId)), Entry("received_at", Str(now)),
                        Entry("object_sha256", Str(digest)), Entry("origin_sha256", Str(digest))];
            WellFormed(Obj(hop)) && HopRepeats(Obj(hop), digest)
  {
    var hop := [Entry("from_node_id", from), Entry("to_node_id", Str(nodeId)), Entry("received_at", Str(now)),
                Entry("object_sha256", Str(digest)), Entry("origin_sha256", Str(digest))];
    assert UniqueKeys(hop);
    GetAt(hop, 3);
    GetAt(hop, 4);
  }

  lemma {:induction false} LongerCarries(hash: Bytes -> string, e: Entries, payload: Json, n: nat, hop: Json)
    requires Carries(hash, e, payload, n) && WellFormed(hop) && HopRepeats(hop, Sha(hash, payload))
    ensures Carries(hash, Put(e, "lineage", Arr(Get(e, "lineage").items + [hop])), payload, n + 1)
  {
    var longer := Arr(Get(e, "lineage").items + [hop]);
    GetWellFormed(e, "lineage");
    PutWellFormed(e, "lineage", longer);
    PutGet(e, "lineage", longer, "schema");
    PutGet(e, "lineage", longer, "object");
    PutGet(e, "lineage", longer, "object_sha256");
    PutGet(e, "lineage", longer, "origin_sha256");
    PutGet(e, "lineage", longer, "lineage");
  }

  /** An envelope whose object alone was changed is rejected, here and after transport, unless the digests collide. */
  lemma {:induction false} ChangedObjectRejected(hash: Bytes -> string, e: Entries, payload: Json, n: nat, other: Json)
    requires Digests(hash) && Carries(hash, e, payload, n) && WellFormed(other)
    ensures VerifyEnv(hash, Put(e, "object", other)) == Verified
            <==> SameValue(other, payload) || (Canon(other) != Canon(payload) && Sha(hash, other) == Sha(hash, payload))
    ensures VerifyEnv(hash, Put(e, "object", other)) in {Verified, ObjectHashMismatch}
  {
    PutGet(e, "object", other, "schema");
    PutGet(e, "object", other, "object");
    PutGet(e, "object", other, "object_sha256");
    PutGet(e, "object", other, "origin_sha256");
    PutGet(e, "object", other, "lineage");
    CanonEquality(other, payload);
  }

  lemma {:induction false} SameVerdict(hash: Bytes -> string, w: Entries, e: Entries)
    requires WellFormed(Get(w, "object")) && WellFormed(Get(e, "object"))
    requires Get(w, "schema") == Get(e, "schema") && Get(w, "object_sha256") == Get(e, "object_sha256")
    requires SameValue(Get(w, "object"), Get(e, "object"))
    requires VerifyEnv(hash, e) == ObjectHashMismatch
    ensures VerifyEnv(hash, w) == ObjectHashMismatch
  {
    CanonEquality(Get(w, "object"), Get(e, "object"));
  }

  /** A mismatch between object and digest is still seen after transport. */
  lemma {:induction false} WireVerdict(hash: Bytes -> string, e: Entries)
    requires WellFormed(Obj(e)) && VerifyEnv(hash, e) == ObjectHashMismatch && Get(e, "object_sha256").Str?
    ensures Wire(Obj(e)).Some? && Wire(Obj(e)).value.Obj?
            && VerifyEnv(hash, Wire(Obj(e)).value.entries) == ObjectHashMismatch
  {
    LoadsCanon(Obj(e));
    NormalSame(Obj(e));
    var w := Normal(Obj(e)).entries;
    SameGet(w, e, "schema");
    SameGet(w, e, "object");
    SameGet(w, e, "object_sha256");
    GetWellFormed(w, "object");
    GetWellFormed(e, "object");
    SameVerdict(hash, w, e);
  }

  lemma {:induction false} MismatchRefused(hash: Bytes -> string, e: Entries, nodeId: string, now: string,
                                           receiptSha: string)
    requires VerifyEnv(hash, e) == ObjectHashMismatch
    ensures SendStep(hash, Obj(e), nodeId, now).None? && Receive(hash, e, nodeId, now, receiptSha).status == 400
  {
  }

  /** Nobody sends or accepts it, before or after transport. */
  lemma {:induction false} TamperedIsRefused(hash: Bytes -> string, e: Entries, payload: Json, n: nat, other: Json,
                                             nodeId: string, now: string, receiptSha: string)
    requires Digests(hash) && Carries(hash, e, payload, n) && WellFormed(other)
    requires !SameValue(other, payload) && Sha(hash, other) != Sha(hash, payload)
    ensures var bad := Put(e, "object", other);
            && SendStep(hash, Obj(bad), nodeId, now).None?
            && Receive(hash, bad, nodeId, now, receiptSha).status == 400
            && Wire(Obj(bad)).Some? && Wire(Obj(bad)).value.Obj?
            && Receive(hash, Wire(Obj(bad)).value.entries, nodeId, now, receiptSha).status == 400
  {
    ChangedObjectRejected(hash, e, payload, n, other);
    PutWellFormed(e, "object", other);
    PutGet(e, "object", other, "schema");
    PutGet(e, "object", other, "object_sha256");
    var bad := Put(e, "object", other);
    WireVerdict(hash, bad);
    MismatchRefused(hash, bad, nodeId, now, receiptSha);
    MismatchRefused(hash, Wire(Obj(bad)).value.entries, nodeId, now, receiptSha);
  }

  // ----- runs over many nodes -----

  /** An envelope in someone's hands, the object it was made from, its number of receives and its ancestor. */
  datatype Held = Held(envelope: Entries, payload: Json, receives: nat, parent: Option<nat>)

  datatype Event =
    | Make(payload: Json, nodeId: string, now: string)
    | Send(i: nat, sender: string, receiver: string, now: string, receiptSha: string)

  /** One hop: the sender's bytes, the receiver's reply, and the reply's bytes back. */
  function Hopped(hash: Bytes -> string, e: Entries, sender: string, receiver: string, now: string, receiptSha: string)
    : Option<(Entries, Receipt)>
  {
    match SendStep(hash, Obj(e), sender, now)
    case None => None
    case Some(sent) =>
      match Wire(sent)
      case None => None
      case Some(arrived) =>
        if !arrived.Obj? then None
        else
          var r := Receive(hash, arrived.entries, receiver, now, receiptSha);
          if r.envelope.None? || r.receipt.None? then None
          else
            match Wire(Obj(r.envelope.value))
            case None => None
            case Some(back) => if back.Obj? then Some((back.entries, r.receipt.value)) else None
  }

  datatype World = World(held: seq<Held>, receipts: seq<Receipt>)

  function Step(hash: Bytes -> string, w: World, e: Event): World {
    match e
    case Make(o, nodeId, now) => w.(held := w.held + [Held(MakeEnvelope(hash, o, nodeId, now), o, 0, None)])
    case Send(i, sender, receiver, now, receiptSha) =>
      if i >= |w.held| then w
      else
        match Hopped(hash, w.held[i].envelope, sender, receiver, now, receiptSha)
        case None => w
        case Some((out, receipt)) =>
          World(w.held + [Held(out, w.held[i].payload, w.held[i].receives + 1, Some(i))], w.receipts + [receipt])
  }

  function Run(hash: Bytes -> string, events: seq<Event>): World
    decreases |events|
  {
    if events == [] then World([], [])
    else Step(hash, Run(hash, events[..|events| - 1]), events[|events| - 1])
  }

  ghost predicate WellFormedMakes(events: seq<Event>) { forall e :: e in events && e.Make? ==> WellFormed(e.payload) }

  /** b starts with the hops of a and has one more. */
  ghost predicate ExtendsByOne(a: Json, b: Json) {
    && a.Arr? && b.Arr? && |b.items| == |a.items| + 1
    && forall i :: 0 <= i < |a.items| ==> SameValue(b.items[i], a.items[i])
  }

  /** Where an envelope came from: made with no receives, or one hop after its parent. */
  ghost predicate Descends(held: seq<Held>, i: nat)
    requires i < |held|
  {
    match held[i].parent
    case None => held[i].receives == 0
    case Some(p) =>
      && p < i && held[p].payload == held[i].payload && held[i].receives == held[p].receives + 1
      && ExtendsByOne(Get(held[p].envelope, "lineage"), Get(held[i].envelope, "lineage"))
  }

  ghost predicate RecordsHop(hash: Bytes -> string, x: Held, r: Receipt) {
    && r.pass && x.parent.Some? && r.depth == x.receives
    && r.objectSha == Str(Sha(hash, x.payload)) && r.originSha == Str(Sha(hash, x.payload))
  }

  /** A receipt that passed records the digests and the number of receives of some envelope a hop produced. */
  ghost predicate ReceiptOk(hash: Bytes -> string, held: seq<Held>, r: Receipt) {
    exists i :: 0 <= i < |held| && RecordsHop(hash, held[i], r)
  }

  ghost predicate AllCarry(hash: Bytes -> string, held: seq<Held>) {
    forall i :: 0 <= i < |held| ==> Carries(hash, held[i].envelope, held[i].payload, held[i].receives)
  }

  ghost predicate AllDescend(held: seq<Held>) { forall i :: 0 <= i < |held| ==> Descends(held, i) }

  ghost predicate Sound(hash: Bytes -> string, w: World) {
    && AllCarry(hash, w.held) && AllDescend(w.held)
    && (forall r :: r in w.receipts ==> ReceiptOk(hash, w.held, r))
  }

  /** Sending puts a carrying envelope on the wire, lineage and all. */
  lemma {:induction false} SendCarries(hash: Bytes -> string, e: Entries, payload: Json, n: nat, sender: string,
                                       now: string)
    requires Digests(hash) && Carries(hash, e, payload, n)
    ensures var s := SendStep(hash, Obj(e), sender, now);
            && s.Some? && Wire(s.value).Some? && Wire(s.value).value.Obj?
            && Carries(hash, Wire(s.value).value.entries, payload, n)
            && SameValue(Get(Wire(s.value).value.entries, "lineage"), Get(e, "lineage"))
  {
    CarriesVerifies(hash, e, payload, n);
    PutKeepsCarrying(hash, e, payload, n, "sender_node_id", sender);
    PutGet(e, "sender_node_id", Str(sender), "lineage");
    WireCarries(hash, Put(e, "sender_node_id", Str(sender)), payload, n);
  }

  lemma {:induction false} LineageExtends(x: Json, y: Json, out: Json, z: Json, hop: Json)
    requires x.Arr? && y.Arr? && out.Arr? && z.Arr? && WellFormed(x) && WellFormed(y) && WellFormed(z)
    requires SameValue(y, x) && out.items == y.items + [hop] && SameValue(z, out)
    ensures ExtendsByOne(x, z)
  {
    forall i | 0 <= i < |x.items| ensures SameValue(z.items[i], x.items[i]) {
      assert out.items[i] == y.items[i];
      SameTrans(z.items[i], y.items[i], x.items[i]);
    }
  }

  /** A hop from a carrying envelope always succeeds. */
  lemma {:induction false} HopCarries(hash: Bytes -> string, e: Entries, payload: Json, n: nat, sender: string,
                                      receiver: string, now: string, receiptSha: string)
    requires Digests(hash) && Carries(hash, e, payload, n)
    ensures var r := Hopped(hash, e, sender, receiver, now, receiptSha);
            && r.Some? && Carries(hash, r.value.0, payload, n + 1)
            && ExtendsByOne(Get(e, "lineage"), Get(r.value.0, "lineage"))
            && r.value.1
               == Receipt(true, receiver, Str(receiver), Str(Sha(hash, payload)), Str(Sha(hash, payload)), n + 1)
  {
    SendCarries(hash, e, payload, n, sender, now);
    var arrived := Wire(SendStep(hash, Obj(e), sender, now).value).value.entries;
    ReceiveCarries(hash, arrived, payload, n, receiver, now, receiptSha);
    var out := Receive(hash, arrived, receiver, now, receiptSha).envelope.value;
    WireCarries(hash, out, payload, n + 1);
    HoppedIs(hash, e, sender, receiver, now, receiptSha);
    HopExtends(hash, e, arrived, out, Wire(Obj(out)).value.entries, payload, n, Hop(arrived, receiver, now));
  }

  /** A hop composed of its steps, where each of them succeeds. */
  lemma {:induction false} HoppedIs(hash: Bytes -> string, e: Entries, sender: string, receiver: string, now: string,
                                    receiptSha: string)
    requires var sent := SendStep(hash, Obj(e), sender, now);
             && sent.Some? && Wire(sent.value).Some? && Wire(sent.value).value.Obj?
             && var r := Receive(hash, Wire(sent.value).value.entries, receiver, now, receiptSha);
             && r.envelope.Some? && r.receipt.Some?
             && Wire(Obj(r.envelope.value)).Some? && Wire(Obj(r.envelope.value)).value.Obj?
    ensures var arrived := Wire(SendStep(hash, Obj(e), sender, now).value).value.entries;
            var r := Receive(hash, arrived, receiver, now, receiptSha);
            Hopped(hash, e, sender, receiver, now, receiptSha)
            == Some((Wire(Obj(r.envelope.value)).value.entries, r.receipt.value))
  {
  }

  lemma {:induction false} HopExtends(hash: Bytes -> string, e: Entries, arrived: Entries, out: Entries, back: Entries,
                                      payload: Json, n: nat, hop: Json)
    requires Carries(hash, e, payload, n) && Carries(hash, arrived, payload, n)
    requires Carries(hash, out, payload, n + 1) && Carries(hash, back, payload, n + 1)
    requires SameValue(Get(arrived, "lineage"), Get(e, "lineage"))
             && SameValue(Get(back, "lineage"), Get(out, "lineage"))
    requires Get(out, "lineage").items == Get(arrived, "lineage").items + [hop]
    ensures ExtendsByOne(Get(e, "lineage"), Get(back, "lineage"))
  {
    GetWellFormed(e, "lineage");
    GetWellFormed(arrived, "lineage");
    GetWellFormed(back, "lineage");
    LineageExtends(Get(e, "lineage"), Get(arrived, "lineage"), Get(out, "lineage"), Get(back, "lineage"), hop);
  }

  /** In every run: digests, lineage lengths, ancestry and receipts are as they should be. */
  lemma {:induction false} RunIsSound(hash: Bytes -> string, events: seq<Event>)
    requires Digests(hash) && WellFormedMakes(events)
    ensures Sound(hash, Run(hash, events))
    decreases |events|
  {
    if events != [] {
      var n := |events| - 1;
      RunIsSound(hash, events[..n]);
      StepIsSound(hash, Run(hash, events[..n]), events[n]);
    }
  }

  lemma {:induction false} StepIsSound(hash: Bytes -> string, w: World, e: Event)
    requires Digests(hash) && (e.Make? ==> WellFormed(e.payload)) && Sound(hash, w)
    ensures Sound(hash, Step(hash, w, e))
  {
    match e
    case Make(o, nodeId, now) =>
      MakeCarries(hash, o, nodeId, now);
      AddHeld(hash, w, Held(MakeEnvelope(hash, o, nodeId, now), o, 0, None));
    case Send(i, sender, receiver, now, receiptSha) =>
      if i < |w.held| {
        var p := w.held[i];
        HopCarries(hash, p.envelope, p.payload, p.receives, sender, receiver, now, receiptSha);
        var r := Hopped(hash, p.envelope, sender, receiver, now, receiptSha).value;
        AddHop(hash, w, i, r.0, r.1);
      }
  }

  lemma {:induction false} AddHeld(hash: Bytes -> string, w: World, x: Held)
    requires Sound(hash, w) && Carries(hash, x.envelope, x.payload, x.receives) && Descends(w.held + [x], |w.held|)
    ensures Sound(hash, w.(held := w.held + [x]))
  {
    var held := w.held + [x];
    forall i | 0 <= i < |held| ensures Descends(held, i) {
      if i < |w.held| { assert Descends(w.held, i); }
    }
    forall r | r in w.receipts ensures ReceiptOk(hash, held, r) {
      var i :| 0 <= i < |w.held| && RecordsHop(hash, w.held[i], r);
      assert RecordsHop(hash, held[i], r);
    }
  }

  lemma {:induction false} AddHop(hash: Bytes -> string, w: World, i: nat, out: Entries, receipt: Receipt)
    requires Sound(hash, w) && i < |w.held|
    requires Carries(hash, out, w.held[i].payload, w.held[i].receives + 1)
    requires ExtendsByOne(Get(w.held[i].envelope, "lineage"), Get(out, "lineage"))
    requires RecordsHop(hash, Held(out, w.held[i].payload, w.held[i].receives + 1, Some(i)), receipt)
    ensures Sound(hash, World(w.held + [Held(out, w.held[i].payload, w.held[i].receives + 1, Some(i))],
                              w.receipts + [receipt]))
  {
    var x := Held(out, w.held[i].payload, w.held[i].receives + 1, Some(i));
    var held := w.held + [x];
    assert Descends(held, |w.held|);
    AddHeld(hash, w, x);
    assert RecordsHop(hash, held[|w.held|], receipt);
  }
}

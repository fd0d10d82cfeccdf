/** What a made envelope, a verdict, a hop and a rejection say, field by field. */
module EnvelopeMeaning {
  import opened Prelude
  import opened JsonValue
  import opened CanonicalOrder
  import opened CanonicalJson
  import opened SameValueFacts
  import opened NodeEnvelope

  /** When an envelope is verified, and which check the one refused failed first. */
  lemma {:induction false} VerdictExactly(hash: Bytes -> string, e: Entries)
    ensures var schemaOk := Get(e, "schema") == Str("entity-independent-node/envelope/v1");
            var objectOk := Get(e, "object_sha256") == Str(hash(Canon(Get(e, "object"))));
            var originOk := Get(e, "origin_sha256") !in {Null, Bool(false), Num(0), Str(""), Arr([]), Obj([])};
            VerifyEnv(hash, e)
            == if !schemaOk then WrongSchema else if !objectOk then ObjectHashMismatch
               else if !originOk then MissingOrigin else if !Get(e, "lineage").Arr? then LineageNotList else Verified
  {
    var origin := Get(e, "origin_sha256");
    assert Truthy(origin) <==> origin !in {Null, Bool(false), Num(0), Str(""), Arr([]), Obj([])};
  }

  /** A made envelope has these seven fields. */
  lemma {:induction false} MadeEnvelope(hash: Bytes -> string, payload: Json, nodeId: string, now: string)
    ensures var e := MakeEnvelope(hash, payload, nodeId, now);
            && UniqueKeys(e) && |e| == 7 && Get(e, "schema") == Str("entity-independent-node/envelope/v1")
            && Get(e, "origin_sha256") == Str(hash(Canon(payload))) == Get(e, "object_sha256")
            && Get(e, "object") == payload && Get(e, "lineage") == Arr([])
            && Get(e, "sender_node_id") == Str(nodeId) && Get(e, "created_at") == Str(now)
  {
    EnvelopeKeysDistinct();
    FieldsAt(MakeEnvelope(hash, payload, nodeId, now), ENVELOPE_KEYS);
    assert ENVELOPE_KEYS[0] == "schema" && ENVELOPE_KEYS[1] == "origin_sha256" && ENVELOPE_KEYS[2] == "object_sha256";
    assert ENVELOPE_KEYS[3] == "object" && ENVELOPE_KEYS[4] == "lineage";
    assert ENVELOPE_KEYS[5] == "sender_node_id" && ENVELOPE_KEYS[6] == "created_at";
  }

  /** An envelope that is not verified is answered with 400, a failing receipt that repeats it, and no envelope. */
  lemma {:induction false} RejectionExactly(hash: Bytes -> string, e: Entries, nodeId: string, now: string,
                                            receiptSha: string)
    requires VerifyEnv(hash, e) != Verified
    ensures var r := Receive(hash, e, nodeId, now, receiptSha);
            && r.status == 400 && r.envelope.None?
            && (r.receipt.Some? <==> !Has(e, "lineage") || Get(e, "lineage").Arr? || Get(e, "lineage").Str?
                                     || Get(e, "lineage").Obj?)
            && (r.receipt.Some? ==>
                  && !r.receipt.value.pass && r.receipt.value.receiver == nodeId
                  && r.receipt.value.sender == Get(e, "sender_node_id")
                  && r.receipt.value.objectSha == Get(e, "object_sha256")
                  && r.receipt.value.originSha == Get(e, "origin_sha256"))
            && (r.receipt.Some? ==>
                  r.receipt.value.depth == match Get(e, "lineage") case Arr(items) => |items| case Str(s) => |s|
                                                                   case Obj(es) => |es| case _ => 0)
  {
    if Get(e, "lineage") != Null { HasValue(e, "lineage"); }
  }

  lemma HasValue(e: Entries, k: string)
    requires Get(e, k) != Null
    ensures Has(e, k)
  {
  }

  /** A value that is no envelope is sent as one made for it, naming the sender; an envelope is sent if it verifies. */
  lemma {:induction false} SentExactly(hash: Bytes -> string, raw: Json, sender: string, now: string)
    ensures var s := SendStep(hash, raw, sender, now);
            var wrapped := raw.Obj? && Get(raw.entries, "schema") == Str("entity-independent-node/envelope/v1");
            && (wrapped ==> (s.Some? <==> VerifyEnv(hash, raw.entries) == Verified))
            && (wrapped && s.Some? ==> s.value == Obj(Put(raw.entries, "sender_node_id", Str(sender))))
            && (!wrapped && WellFormed(raw) && Digests(hash) ==>
                  s.Some? && s.value.Obj? && Carries(hash, s.value.entries, raw, 0)
                  && Get(s.value.entries, "sender_node_id") == Str(sender))
  {
    if WellFormed(raw) && Digests(hash) {
      var made := MakeEnvelope(hash, raw, sender, now);
      MakeCarries(hash, raw, sender, now);
      CarriesVerifies(hash, made, raw, 0);
      PutKeepsCarrying(hash, made, raw, 0, "sender_node_id", sender);
      PutGet(made, "sender_node_id", Str(sender), "sender_node_id");
    }
  }

  // ----- a hop -----

  /** The hop names where the envelope came from, where it went, when, and what it carried. */
  ghost predicate HopNames(x: Json, sender: string, receiver: string, now: string, digest: string) {
    && x.Obj? && Get(x.entries, "from_node_id") == Str(sender) && Get(x.entries, "to_node_id") == Str(receiver)
    && Get(x.entries, "received_at") == Str(now)
    && Get(x.entries, "object_sha256") == Str(digest) && Get(x.entries, "origin_sha256") == Str(digest)
  }

  lemma {:induction false} WireGet(e: Entries, k: string)
    requires WellFormed(Obj(e))
    ensures Wire(Obj(e)).Some? && Wire(Obj(e)).value.Obj? && WellFormed(Wire(Obj(e)).value)
    ensures var w := Wire(Obj(e)).value.entries;
            SameValue(Get(w, k), Get(e, k)) && WellFormed(Get(w, k)) && WellFormed(Get(e, k))
  {
    LoadsCanon(Obj(e));
    NormalSame(Obj(e));
    SameGet(Normal(Obj(e)).entries, e, k);
    GetWellFormed(Normal(Obj(e)).entries, k);
    GetWellFormed(e, k);
  }

  lemma {:induction false} NamedHop(e: Entries, sender: string, receiver: string, now: string, digest: string)
    requires Get(e, "sender_node_id") == Str(sender)
    requires Get(e, "object_sha256") == Str(digest) && Get(e, "origin_sha256") == Str(digest)
    ensures HopNames(Hop(e, receiver, now), sender, receiver, now, digest) && WellFormed(Hop(e, receiver, now))
  {
    var keys := ["from_node_id", "to_node_id", "received_at", "object_sha256", "origin_sha256"];
    assert keys[0] == "from_node_id" && keys[1] == "to_node_id" && keys[2] == "received_at";
    assert keys[3] == "object_sha256" && keys[4] == "origin_sha256";
    FieldsAt(Hop(e, receiver, now).entries, keys);
  }

  lemma {:induction false} HopSurvives(x: Json, y: Json, sender: string, receiver: string, now: string, digest: string)
    requires WellFormed(x) && WellFormed(y) && SameValue(x, y) && HopNames(y, sender, receiver, now, digest)
    ensures HopNames(x, sender, receiver, now, digest)
  {
    SameGet(x.entries, y.entries, "from_node_id");
    SameGet(x.entries, y.entries, "to_node_id");
    SameGet(x.entries, y.entries, "received_at");
    SameGet(x.entries, y.entries, "object_sha256");
    SameGet(x.entries, y.entries, "origin_sha256");
  }

  /** The fields a hop writes. */
  const WRITTEN := {"lineage", "sender_node_id", "last_receipt_sha256"}

  lemma {:induction false} ReceivedFields(hash: Bytes -> string, e: Entries, payload: Json, n: nat, nodeId: string,
                                          now: string, receiptSha: string, k: string)
    requires Digests(hash) && Carries(hash, e, payload, n)
    ensures var r := Receive(hash, e, nodeId, now, receiptSha);
            && r.envelope.Some? && Get(r.envelope.value, "sender_node_id") == Str(nodeId)
            && Get(r.envelope.value, "last_receipt_sha256") == Str(receiptSha)
            && (k !in WRITTEN ==> Get(r.envelope.value, k) == Get(e, k))
  {
    CarriesVerifies(hash, e, payload, n);
    var lineage := Arr(Get(e, "lineage").items + [Hop(e, nodeId, now)]);
    var e1, e2 := Put(e, "lineage", lineage), Extended(e, nodeId, now);
    PutGet(e, "lineage", lineage, k);
    PutGet(e1, "sender_node_id", Str(nodeId), "sender_node_id");
    PutGet(e1, "sender_node_id", Str(nodeId), k);
    PutGet(e2, "last_receipt_sha256", Str(receiptSha), "sender_node_id");
    PutGet(e2, "last_receipt_sha256", Str(receiptSha), "last_receipt_sha256");
    PutGet(e2, "last_receipt_sha256", Str(receiptSha), k);
  }

  lemma {:induction false} ArrivedFields(hash: Bytes -> string, e: Entries, payload: Json, n: nat, sender: string,
                                         now: string, k: string)
    requires Digests(hash) && Carries(hash, e, payload, n)
    ensures var sent := SendStep(hash, Obj(e), sender, now);
            && sent.Some? && Wire(sent.value).Some? && Wire(sent.value).value.Obj?
            && var arrived := Wire(sent.value).value.entries;
            && WellFormed(Obj(arrived)) && Get(arrived, "sender_node_id") == Str(sender)
            && (k != "sender_node_id" ==> SameValue(Get(arrived, k), Get(e, k)) && WellFormed(Get(arrived, k)))
  {
    CarriesVerifies(hash, e, payload, n);
    PutWellFormed(e, "sender_node_id", Str(sender));
    var sent := Put(e, "sender_node_id", Str(sender));
    PutGet(e, "sender_node_id", Str(sender), "sender_node_id");
    PutGet(e, "sender_node_id", Str(sender), k);
    WireGet(sent, "sender_node_id");
    WireGet(sent, k);
  }

  /**
   After a send from one node to another the new last hop names both, the envelope names the receiver as its sender
   and the receipt, and every field a hop does not write is what it was.
   */
  lemma {:induction false} SendNamesBoth(hash: Bytes -> string, e: Entries, payload: Json, n: nat, sender: string,
                                         receiver: string, now: string, receiptSha: string, k: string)
    requires Digests(hash) && Carries(hash, e, payload, n)
    ensures var r := Hopped(hash, e, sender, receiver, now, receiptSha);
            && r.Some? && var out := r.value.0;
            && Get(out, "lineage").Arr? && |Get(out, "lineage").items| == n + 1
            && HopNames(Get(out, "lineage").items[n], sender, receiver, now, hash(Canon(payload)))
            && Get(out, "sender_node_id") == Str(receiver) && Get(out, "last_receipt_sha256") == Str(receiptSha)
            && (k !in WRITTEN ==> SameValue(Get(out, k), Get(e, k)))
  {
    var digest := Sha(hash, payload);
    HopCarries(hash, e, payload, n, sender, receiver, now, receiptSha);
    SendCarries(hash, e, payload, n, sender, now);
    ArrivedFields(hash, e, payload, n, sender, now, k);
    var arrived := Wire(SendStep(hash, Obj(e), sender, now).value).value.entries;
    ReceiveCarries(hash, arrived, payload, n, receiver, now, receiptSha);
    ReceivedFields(hash, arrived, payload, n, receiver, now, receiptSha, k);
    var out := Receive(hash, arrived, receiver, now, receiptSha).envelope.value;
    WireCarries(hash, out, payload, n + 1);
    HoppedIs(hash, e, sender, receiver, now, receiptSha);
    NamedHop(arrived, sender, receiver, now, digest);
    BackFields(out, Wire(Obj(out)).value.entries, Hop(arrived, receiver, now), n, sender, receiver, now, digest);
    if k !in WRITTEN { FieldBack(e, arrived, out, k); }
    WireGet(out, "sender_node_id");
    WireGet(out, "last_receipt_sha256");
  }

  lemma {:induction false} BackFields(out: Entries, back: Entries, hop: Json, n: nat, sender: string, receiver: string,
                                      now: string, digest: string)
    requires WellFormed(Obj(out)) && Wire(Obj(out)) == Some(Obj(back)) && WellFormed(hop)
    requires Get(out, "lineage").Arr? && |Get(out, "lineage").items| == n + 1 && Get(out, "lineage").items[n] == hop
    requires HopNames(hop, sender, receiver, now, digest)
    ensures Get(back, "lineage").Arr? && |Get(back, "lineage").items| == n + 1
    ensures HopNames(Get(back, "lineage").items[n], sender, receiver, now, digest)
  {
    WireGet(out, "lineage");
    HopSurvives(Get(back, "lineage").items[n], hop, sender, receiver, now, digest);
  }

  lemma {:induction false} FieldBack(e: Entries, arrived: Entries, out: Entries, k: string)
    requires WellFormed(Obj(e)) && WellFormed(Obj(out)) && Get(out, k) == Get(arrived, k)
    requires WellFormed(Get(arrived, k)) && SameValue(Get(arrived, k), Get(e, k))
    ensures Wire(Obj(out)).Some? && Wire(Obj(out)).value.Obj?
    ensures SameValue(Get(Wire(Obj(out)).value.entries, k), Get(e, k))
  {
    WireGet(out, k);
    GetWellFormed(e, k);
    SameTrans(Get(Wire(Obj(out)).value.entries, k), Get(arrived, k), Get(e, k));
  }
}

/**
 Canonical JSON bytes: sorted keys, compact separators, UTF-8. They are read back as the same value,
 and two values have equal bytes exactly when they are equal up to the order of object keys.
 */
module CanonicalJson {
  import opened Prelude
  import opened JsonValue
  import opened CanonicalOrder
  import opened JsonText
  import opened Utf8

  /** json.dumps(v, sort_keys=True, separators=(',', ':'), ensure_ascii=False).encode() */
  function Canon(v: Json): Bytes { Encode(Print(Normal(v))) }

  /** json.loads(b.decode()) */
  function Loads(b: Bytes): Option<Json> {
    match Decode(b)
    case None => None
    case Some(s) => Parse(s)
  }

  lemma {:induction false} NormalSame(v: Json)
    requires WellFormed(v)
    ensures WellFormed(Normal(v)) && SameValue(Normal(v), v) && SameValue(v, Normal(v))
    ensures Normal(Normal(v)) == Normal(v)
  {
    NormalIsCanonical(v);
    CanonicalIsWellFormed(Normal(v));
    NormalOfCanonical(Normal(v));
    SameNormal(Normal(v), v);
    SameNormal(v, Normal(v));
  }

  /** The printer is faithful: reading canonical bytes gives the value back, its keys sorted. */
  lemma {:induction false} LoadsCanon(v: Json)
    requires WellFormed(v)
    ensures Loads(Canon(v)) == Some(Normal(v)) && SameValue(Normal(v), v)
  {
    NormalSame(v);
    DecodeEncoded(Print(Normal(v)));
    ParsePrinted(Normal(v));
  }

  /** Equal canonical bytes mean equal values, and the other way round. */
  lemma {:induction false} CanonEquality(v: Json, w: Json)
    requires WellFormed(v) && WellFormed(w)
    ensures Canon(v) == Canon(w) <==> SameValue(v, w)
  {
    LoadsCanon(v);
    LoadsCanon(w);
    SameNormal(v, w);
  }

  /** What is read from bytes is well formed, so the theorems apply to anything received. */
  lemma {:induction false} LoadsWellFormed(b: Bytes)
    ensures Loads(b).Some? ==> WellFormed(Loads(b).value)
  {
    if Decode(b).Some? { ReadWellFormed(SkipSpace(Decode(b).value)); }
  }

  lemma CanonNonEmpty(v: Json)
    ensures |Canon(v)| >= 1
  {
  }

  /** Sending canonical bytes through a reader does not change the canonical bytes. */
  lemma {:induction false} CanonStable(v: Json)
    requires WellFormed(v)
    ensures Loads(Canon(v)).Some? && Canon(Loads(Canon(v)).value) == Canon(v)
  {
    LoadsCanon(v);
    NormalSame(v);
  }
}

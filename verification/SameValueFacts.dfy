/** Dict operations do not see the order of keys. */
module SameValueFacts {
  import opened JsonValue
  import opened CanonicalOrder

  lemma SameRefl(v: Json)
    requires WellFormed(v)
    ensures SameValue(v, v)
  {
  }

  lemma SameTrans(u: Json, v: Json, w: Json)
    requires WellFormed(u) && WellFormed(v) && WellFormed(w) && SameValue(u, v) && SameValue(v, w)
    ensures SameValue(u, w)
  {
  }

  lemma {:induction false} SameTruthy(v: Json, w: Json)
    requires SameValue(v, w)
    ensures Truthy(v) == Truthy(w)
  {
    match (v, w)
    case (Obj(a), Obj(b)) =>
      if a != [] { assert HasKey(b, a[0].key); }
      if b != [] { assert HasKey(a, b[0].key); }
    case _ =>
  }

  /** Reading a key of equal dicts gives equal values. */
  lemma {:induction false} SameGet(a: Entries, b: Entries, k: string)
    requires UniqueKeys(a) && UniqueKeys(b) && SameValue(Obj(a), Obj(b))
    ensures SameValue(Get(a, k), Get(b, k)) && Has(a, k) == Has(b, k)
  {
    HasIsHasKey(a, k);
    HasIsHasKey(b, k);
    if HasKey(b, k) {
      var j :| 0 <= j < |b| && b[j].key == k;
      assert HasKey(a, b[j].key);
    }
    if HasKey(a, k) {
      var i :| 0 <= i < |a| && a[i].key == k;
      assert HasKey(b, a[i].key);
      var j :| 0 <= j < |b| && b[j].key == k;
      GetAt(a, i);
      GetAt(b, j);
    } else {
      GetMissing(a, k);
      GetMissing(b, k);
    }
  }

  /** Dicts whose keys read the same are equal. */
  lemma {:induction false} SameFromGets(a: Entries, b: Entries)
    requires UniqueKeys(a) && UniqueKeys(b)
    requires forall k :: Has(a, k) == Has(b, k)
    requires forall k :: Has(a, k) ==> SameValue(Get(a, k), Get(b, k))
    ensures SameValue(Obj(a), Obj(b))
  {
    forall k ensures HasKey(a, k) <==> Has(a, k) { HasIsHasKey(a, k); }
    forall k ensures HasKey(b, k) <==> Has(b, k) { HasIsHasKey(b, k); }
    forall i | 0 <= i < |a| ensures HasKey(b, a[i].key) { assert HasKey(a, a[i].key); assert Has(a, a[i].key); }
    forall j | 0 <= j < |b| ensures HasKey(a, b[j].key) { assert HasKey(b, b[j].key); assert Has(b, b[j].key); }
    forall i, j | 0 <= i < |a| && 0 <= j < |b| && a[i].key == b[j].key ensures SameValue(a[i].value, b[j].value) {
      GetAt(a, i);
      GetAt(b, j);
      assert HasKey(a, a[i].key);
    }
  }

  lemma {:induction false} WithoutKeys(es: Entries, ks: set<string>)
    requires UniqueKeys(es)
    ensures UniqueKeys(Without(es, ks))
    ensures forall k :: HasKey(Without(es, ks), k) <==> HasKey(es, k) && k !in ks
  {
    if es != [] {
      var tail := es[1..];
      assert forall i :: 0 <= i < |tail| ==> tail[i] == es[i + 1];
      WithoutKeys(tail, ks);
      assert es == [es[0]] + tail;
      forall k ensures HasKey(Without(es, ks), k) <==> HasKey(es, k) && k !in ks {
        KeysOfCons(es[0], tail, k);
        if es[0].key !in ks { KeysOfCons(es[0], Without(tail, ks), k); }
      }
      assert !HasKey(tail, es[0].key);
    }
  }

  lemma {:induction false} WithoutWellFormed(es: Entries, ks: set<string>)
    requires WellFormed(Obj(es))
    ensures WellFormed(Obj(Without(es, ks)))
  {
    WithoutKeys(es, ks);
    WithoutValues(es, ks);
  }

  lemma WithoutValues(es: Entries, ks: set<string>)
    requires forall i :: 0 <= i < |es| ==> WellFormed(es[i].value)
    ensures forall i :: 0 <= i < |Without(es, ks)| ==> WellFormed(Without(es, ks)[i].value)
  {
  }

  lemma {:induction false} SameWithout(a: Entries, b: Entries, ks: set<string>)
    requires UniqueKeys(a) && UniqueKeys(b) && SameValue(Obj(a), Obj(b))
    ensures SameValue(Obj(Without(a, ks)), Obj(Without(b, ks)))
  {
    WithoutKeys(a, ks);
    WithoutKeys(b, ks);
    var a', b' := Without(a, ks), Without(b, ks);
    forall k ensures Has(a', k) == Has(b', k) && (Has(a', k) ==> SameValue(Get(a', k), Get(b', k))) {
      SameGet(a, b, k);
      WithoutGet(a, ks, k);
      WithoutGet(b, ks, k);
    }
    SameFromGets(a', b');
  }

  lemma GetWellFormed(es: Entries, k: string)
    requires WellFormed(Obj(es))
    ensures WellFormed(Get(es, k))
  {
  }

  predicate Distinct(keys: seq<string>) { forall i, j :: 0 <= i < j < |keys| ==> keys[i] != keys[j] }

  /** A dict written with these keys in this order. */
  ghost predicate Spells(es: Entries, keys: seq<string>) {
    |es| == |keys| && forall i :: 0 <= i < |keys| ==> es[i].key == keys[i]
  }

  lemma {:induction false} FieldsAt(es: Entries, keys: seq<string>)
    requires Distinct(keys) && Spells(es, keys)
    ensures UniqueKeys(es) && forall i :: 0 <= i < |keys| ==> Get(es, keys[i]) == es[i].value && Has(es, keys[i])
  {
    forall i | 0 <= i < |keys| ensures Get(es, keys[i]) == es[i].value && Has(es, keys[i]) {
      GetAt(es, i);
      HasIsHasKey(es, keys[i]);
    }
  }
}

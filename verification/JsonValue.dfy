/**
 JSON values as Python's json module holds them: a dict keeps its insertion order, has unique
 keys, and two dicts are equal whatever their order. Floats are not part of the model.
 */
module JsonValue {
  import opened Prelude

  datatype Json =
    | Null
    | Bool(b: bool)
    | Num(n: int)
    | Str(s: string)
    | Arr(items: seq<Json>)
    | Obj(entries: seq<Entry>)

  /** One key of a dict with its value. */
  datatype Entry = Entry(key: string, value: Json)

  type Entries = seq<Entry>

  ghost predicate UniqueKeys(es: Entries) {
    forall i, j :: 0 <= i < j < |es| ==> es[i].key != es[j].key
  }

  /** Every object inside v has unique keys, as every Python dict has. */
  ghost predicate WellFormed(v: Json) {
    match v
    case Arr(items) => forall i :: 0 <= i < |items| ==> WellFormed(items[i])
    case Obj(es) => UniqueKeys(es) && forall i :: 0 <= i < |es| ==> WellFormed(es[i].value)
    case _ => true
  }

  ghost predicate HasKey(es: Entries, k: string) {
    exists i :: 0 <= i < |es| && es[i].key == k
  }

  /** Equality of values: arrays position by position, objects key by key in any order. */
  ghost predicate SameValue(v: Json, w: Json)
    decreases v
  {
    match (v, w)
    case (Arr(a), Arr(b)) =>
      |a| == |b| && forall i :: 0 <= i < |a| ==> SameValue(a[i], b[i])
    case (Obj(a), Obj(b)) =>
      && (forall i :: 0 <= i < |a| ==> HasKey(b, a[i].key))
      && (forall j :: 0 <= j < |b| ==> HasKey(a, b[j].key))
      && (forall i, j :: 0 <= i < |a| && 0 <= j < |b| && a[i].key == b[j].key ==> SameValue(a[i].value, b[j].value))
    case _ => v == w && !v.Arr? && !v.Obj?
  }

  // ----- dict operations -----

  /** d.get(k), where a missing key and a null both read as None. */
  function Get(es: Entries, k: string): Json {
    if es == [] then Null
    else if es[0].key == k then es[0].value
    else Get(es[1..], k)
  }

  /** k in d */
  predicate Has(es: Entries, k: string) {
    es != [] && (es[0].key == k || Has(es[1..], k))
  }

  /** d[k] = v: an existing key keeps its place, a new one is appended. */
  function Put(es: Entries, k: string, v: Json): Entries {
    if es == [] then [Entry(k, v)]
    else if es[0].key == k then [Entry(k, v)] + es[1..]
    else [es[0]] + Put(es[1..], k, v)
  }

  /** {k: v for k, v in d.items() if k not in ks} */
  function Without(es: Entries, ks: set<string>): Entries {
    if es == [] then []
    else if es[0].key in ks then Without(es[1..], ks)
    else [es[0]] + Without(es[1..], ks)
  }

  /** Python truth of a JSON value. */
  predicate Truthy(v: Json) {
    match v
    case Null => false
    case Bool(b) => b
    case Num(n) => n != 0
    case Str(s) => s != ""
    case Arr(items) => items != []
    case Obj(es) => es != []
  }

  // ----- facts about dicts -----

  lemma HasIsHasKey(es: Entries, k: string)
    ensures Has(es, k) <==> HasKey(es, k)
  {
  }

  /** With unique keys, get returns the value of the one entry with that key. */
  lemma {:induction false} GetAt(es: Entries, i: nat)
    requires UniqueKeys(es) && i < |es|
    ensures Get(es, es[i].key) == es[i].value
  {
    if i > 0 {
      assert es[1..][i - 1] == es[i];
      GetAt(es[1..], i - 1);
    }
  }

  lemma GetMissing(es: Entries, k: string)
    requires !HasKey(es, k)
    ensures Get(es, k) == Null
  {
  }

  lemma {:induction false} PutKeys(es: Entries, k: string, v: Json)
    requires UniqueKeys(es)
    ensures UniqueKeys(Put(es, k, v))
    ensures forall x :: HasKey(Put(es, k, v), x) <==> x == k || HasKey(es, x)
    ensures HasKey(es, k) ==> |Put(es, k, v)| == |es|
  {
    if es != [] && es[0].key != k {
      PutKeys(es[1..], k, v);
      var tail := Put(es[1..], k, v);
      assert Put(es, k, v) == [es[0]] + tail;
      forall x ensures HasKey(Put(es, k, v), x) <==> x == es[0].key || HasKey(tail, x) { KeysOfCons(es[0], tail, x); }
      forall x ensures HasKey(es, x) <==> x == es[0].key || HasKey(es[1..], x) {
        KeysOfCons(es[0], es[1..], x);
        assert es == [es[0]] + es[1..];
      }
      assert !HasKey(es[1..], es[0].key);
      assert !HasKey(tail, es[0].key);
    } else if es != [] {
      assert es == [es[0]] + es[1..];
      forall x ensures HasKey(Put(es, k, v), x) <==> x == k || HasKey(es, x) {
        KeysOfCons(es[0], es[1..], x);
        KeysOfCons(Entry(k, v), es[1..], x);
      }
    } else {
      assert Put(es, k, v)[0].key == k;
    }
  }

  lemma {:induction false} KeysOfCons(e: Entry, es: Entries, x: string)
    ensures HasKey([e] + es, x) <==> x == e.key || HasKey(es, x)
  {
    var all := [e] + es;
    assert all[0] == e;
    if HasKey(es, x) {
      var i :| 0 <= i < |es| && es[i].key == x;
      assert all[i + 1].key == x;
    }
    if HasKey(all, x) && x != e.key {
      var i :| 0 <= i < |all| && all[i].key == x;
      assert es[i - 1].key == x;
    }
  }

  lemma PutGet(es: Entries, k: string, v: Json, x: string)
    ensures Get(Put(es, k, v), x) == if x == k then v else Get(es, x)
    ensures Has(Put(es, k, v), x) <==> x == k || Has(es, x)
  {
  }

  lemma WithoutGet(es: Entries, ks: set<string>, x: string)
    ensures Get(Without(es, ks), x) == if x in ks then Null else Get(es, x)
    ensures Has(Without(es, ks), x) <==> x !in ks && Has(es, x)
  {
  }
}

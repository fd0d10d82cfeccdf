/** Sorted keys: the order Python gives strings, insertion sort by key, and the normal form of a value. */
module CanonicalOrder {
  import opened JsonValue

  // ----- code point order of strings -----

  predicate Less(a: string, b: string) {
    b != "" && (a == "" || a[0] < b[0] || (a[0] == b[0] && Less(a[1..], b[1..])))
  }

  /** Code point order spelt out: a is a proper prefix of b, or smaller at the first place where they differ. */
  ghost predicate Before(a: string, b: string) {
    || (|a| < |b| && a == b[..|a|])
    || exists k :: 0 <= k < |a| && k < |b| && a[..k] == b[..k] && a[k] < b[k]
  }

  lemma {:induction false} LessMeansBefore(a: string, b: string)
    ensures Less(a, b) <==> Before(a, b)
  {
    if a != "" && b != "" {
      LessMeansBefore(a[1..], b[1..]);
      BeforeAtFront(a, b);
    }
  }

  lemma {:induction false} BeforeAtFront(a: string, b: string)
    requires a != "" && b != ""
    ensures Before(a, b) <==> a[0] < b[0] || (a[0] == b[0] && Before(a[1..], b[1..]))
  {
    if Before(a, b) && a[0] == b[0] { BeforeBehind(a, b); }
    if Before(a, b) && a[0] != b[0] { FirstDiffers(a, b); }
    if a[0] < b[0] { assert a[..0] == b[..0]; }
    if a[0] == b[0] && Before(a[1..], b[1..]) { BeforeInFront(a, b); }
  }

  lemma {:induction false} BeforeBehind(a: string, b: string)
    requires a != "" && b != "" && a[0] == b[0] && Before(a, b)
    ensures Before(a[1..], b[1..])
  {
    var x, y := a[1..], b[1..];
    if |a| < |b| && a == b[..|a|] {
      assert x == y[..|x|];
    } else {
      var k :| 0 <= k < |a| && k < |b| && a[..k] == b[..k] && a[k] < b[k];
      assert x[..k - 1] == a[..k][1..] && y[..k - 1] == b[..k][1..];
      assert x[k - 1] < y[k - 1];
    }
  }

  lemma {:induction false} BeforeInFront(a: string, b: string)
    requires a != "" && b != "" && a[0] == b[0] && Before(a[1..], b[1..])
    ensures Before(a, b)
  {
    var x, y := a[1..], b[1..];
    if |x| < |y| && x == y[..|x|] {
      assert a == [a[0]] + x && b[..|a|] == [b[0]] + y[..|x|];
    } else {
      var k :| 0 <= k < |x| && k < |y| && x[..k] == y[..k] && x[k] < y[k];
      assert a[..k + 1] == [a[0]] + x[..k] && b[..k + 1] == [b[0]] + y[..k];
      assert a[k + 1] < b[k + 1];
    }
  }

  lemma {:induction false} FirstDiffers(a: string, b: string)
    requires a != "" && b != "" && a[0] != b[0] && Before(a, b)
    ensures a[0] < b[0]
  {
    assert !(|a| < |b| && a == b[..|a|]);
    var k :| 0 <= k < |a| && k < |b| && a[..k] == b[..k] && a[k] < b[k];
  }

  lemma LessTrichotomy(a: string, b: string)
    ensures a == b || Less(a, b) || Less(b, a)
  {
  }

  lemma LessIrreflexive(a: string)
    ensures !Less(a, a)
  {
  }

  lemma LessTransitive(a: string, b: string, c: string)
    requires Less(a, b) && Less(b, c)
    ensures Less(a, c)
  {
  }

  // ----- sorting the entries of one object -----

  /** Keys strictly ascending. */
  ghost predicate Sorted(es: Entries) {
    forall i, j :: 0 <= i < j < |es| ==> Less(es[i].key, es[j].key)
  }

  function InsertByKey(e: Entry, es: Entries): Entries {
    if es == [] || Less(e.key, es[0].key) then [e] + es
    else [es[0]] + InsertByKey(e, es[1..])
  }

  /** sorted(d.items()) on unique keys. */
  function SortByKey(es: Entries): Entries {
    if es == [] then [] else InsertByKey(es[0], SortByKey(es[1..]))
  }

  lemma InsertMembers(e: Entry, es: Entries)
    ensures |InsertByKey(e, es)| == |es| + 1
    ensures forall x :: x in InsertByKey(e, es) <==> x == e || x in es
  {
  }

  lemma {:induction false} InsertSorted(e: Entry, es: Entries)
    requires Sorted(es) && forall i :: 0 <= i < |es| ==> es[i].key != e.key
    ensures Sorted(InsertByKey(e, es))
  {
    if es != [] {
      if Less(e.key, es[0].key) {
        forall j | 0 < j < |es| ensures Less(e.key, es[j].key) { LessTransitive(e.key, es[0].key, es[j].key); }
      } else {
        LessTrichotomy(e.key, es[0].key);
        InsertSorted(e, es[1..]);
        InsertMembers(e, es[1..]);
        var tail := InsertByKey(e, es[1..]);
        forall j | 0 <= j < |tail| ensures Less(es[0].key, tail[j].key) {
          assert tail[j] in tail;
          if tail[j] != e {
            var k :| 0 <= k < |es[1..]| && es[1..][k] == tail[j];
            assert es[k + 1] == tail[j];
          }
        }
      }
    }
  }

  /** Sorting keeps exactly the same entries and orders them strictly. */
  lemma {:induction false} SortCorrect(es: Entries)
    requires UniqueKeys(es)
    ensures Sorted(SortByKey(es)) && |SortByKey(es)| == |es|
    ensures forall x :: x in SortByKey(es) <==> x in es
  {
    if es != [] {
      assert forall i :: 0 <= i < |es[1..]| ==> es[1..][i] == es[i + 1];
      SortCorrect(es[1..]);
      var tail := SortByKey(es[1..]);
      forall i | 0 <= i < |tail| ensures tail[i].key != es[0].key {
        assert tail[i] in es[1..];
        var k :| 0 <= k < |es[1..]| && es[1..][k] == tail[i];
        assert es[k + 1].key == tail[i].key;
      }
      InsertSorted(es[0], tail);
      InsertMembers(es[0], tail);
      assert forall x :: x in es <==> x == es[0] || x in es[1..];
    }
  }

  lemma {:induction false} SortedIsUnique(es: Entries)
    requires Sorted(es)
    ensures UniqueKeys(es)
  {
    forall i, j | 0 <= i < j < |es| ensures es[i].key != es[j].key { LessIrreflexive(es[i].key); }
  }

  /** Two strictly sorted lists with the same entries are the same list. */
  lemma {:induction false} SortedSameMembers(a: Entries, b: Entries)
    requires Sorted(a) && Sorted(b) && forall x :: x in a <==> x in b
    ensures a == b
  {
    if b != [] { assert b[0] in b; }
    if a != [] {
      assert a[0] in b;
      if a[0] != b[0] {
        var i :| 0 <= i < |b| && b[i] == a[0];
        var j :| 0 <= j < |a| && a[j] == b[0];
        LessTransitive(a[0].key, b[0].key, a[0].key);
        LessIrreflexive(a[0].key);
      }
      TailMembers(a);
      TailMembers(b);
      SortedSameMembers(a[1..], b[1..]);
      assert a == [a[0]] + a[1..] && b == [b[0]] + b[1..];
    }
  }

  lemma {:induction false} TailMembers(a: Entries)
    requires a != [] && Sorted(a)
    ensures Sorted(a[1..])
    ensures forall x :: x in a[1..] <==> x in a && x != a[0]
  {
    SortedIsUnique(a);
    forall x ensures x in a[1..] <==> x in a && x != a[0] {
      if x in a && x != a[0] {
        var i :| 0 <= i < |a| && a[i] == x;
        assert a[1..][i - 1] == x;
      }
      if x in a[1..] {
        var i :| 0 <= i < |a[1..]| && a[1..][i] == x;
        assert a[i + 1] == x && a[0].key != a[i + 1].key;
      }
    }
  }

  // ----- normal form -----

  /** v with the entries of every object, at every depth, sorted by key. */
  function Normal(v: Json): Json
    decreases v, 1
  {
    match v
    case Arr(items) => Arr(NormalItems(items))
    case Obj(es) => Obj(SortByKey(NormalEntries(es)))
    case _ => v
  }

  function NormalItems(items: seq<Json>): (r: seq<Json>)
    ensures |r| == |items|
    ensures forall i :: 0 <= i < |r| ==> r[i] == Normal(items[i])
    decreases items, 0
  {
    if items == [] then [] else [Normal(items[0])] + NormalItems(items[1..])
  }

  function NormalEntries(es: Entries): (r: Entries)
    ensures |r| == |es|
    ensures forall i :: 0 <= i < |r| ==> r[i] == Entry(es[i].key, Normal(es[i].value))
    decreases es, 0
  {
    if es == [] then [] else [Entry(es[0].key, Normal(es[0].value))] + NormalEntries(es[1..])
  }

  /** The keys of every object inside v are strictly ascending. */
  ghost predicate Canonical(v: Json) {
    match v
    case Arr(items) => forall i :: 0 <= i < |items| ==> Canonical(items[i])
    case Obj(es) => Sorted(es) && forall i :: 0 <= i < |es| ==> Canonical(es[i].value)
    case _ => true
  }

  /** The keys of every object inside v ascend in code point order, spelt out. */
  ghost predicate KeysAscend(v: Json) {
    match v
    case Arr(items) => forall i :: 0 <= i < |items| ==> KeysAscend(items[i])
    case Obj(es) =>
      && (forall i, j :: 0 <= i < j < |es| ==> Before(es[i].key, es[j].key))
      && forall i :: 0 <= i < |es| ==> KeysAscend(es[i].value)
    case _ => true
  }

  lemma {:induction false} CanonicalAscends(v: Json)
    requires Canonical(v)
    ensures KeysAscend(v)
  {
    match v
    case Arr(items) => forall i | 0 <= i < |items| ensures KeysAscend(items[i]) { CanonicalAscends(items[i]); }
    case Obj(es) =>
      forall i, j | 0 <= i < j < |es| ensures Before(es[i].key, es[j].key) { LessMeansBefore(es[i].key, es[j].key); }
      forall i | 0 <= i < |es| ensures KeysAscend(es[i].value) { CanonicalAscends(es[i].value); }
    case _ =>
  }

  /** The normal form has ascending keys at every depth. */
  lemma NormalAscends(v: Json)
    requires WellFormed(v)
    ensures KeysAscend(Normal(v))
  {
    NormalIsCanonical(v);
    CanonicalAscends(Normal(v));
  }

  lemma {:induction false} CanonicalIsWellFormed(v: Json)
    requires Canonical(v)
    ensures WellFormed(v)
  {
    match v
    case Arr(items) => forall i | 0 <= i < |items| ensures WellFormed(items[i]) { CanonicalIsWellFormed(items[i]); }
    case Obj(es) =>
      SortedIsUnique(es);
      forall i | 0 <= i < |es| ensures WellFormed(es[i].value) { CanonicalIsWellFormed(es[i].value); }
    case _ =>
  }

  lemma {:induction false} NormalIsCanonical(v: Json)
    requires WellFormed(v)
    ensures Canonical(Normal(v))
  {
    match v
    case Arr(items) =>
      forall i | 0 <= i < |items| ensures Canonical(Normal(items[i])) { NormalIsCanonical(items[i]); }
    case Obj(es) =>
      var ns := NormalEntries(es);
      SortCorrect(ns);
      var sorted := SortByKey(ns);
      forall i | 0 <= i < |sorted| ensures Canonical(sorted[i].value) {
        assert sorted[i] in ns;
        var k :| 0 <= k < |ns| && ns[k] == sorted[i];
        NormalIsCanonical(es[k].value);
      }
    case _ =>
  }

  /** Sorting what is sorted changes nothing. */
  lemma {:induction false} NormalOfCanonical(v: Json)
    requires Canonical(v)
    ensures Normal(v) == v
  {
    match v
    case Arr(items) =>
      forall i | 0 <= i < |items| ensures Normal(items[i]) == items[i] { NormalOfCanonical(items[i]); }
      assert NormalItems(items) == items;
    case Obj(es) =>
      forall i | 0 <= i < |es| ensures Normal(es[i].value) == es[i].value { NormalOfCanonical(es[i].value); }
      assert NormalEntries(es) == es;
      SortedIsUnique(es);
      SortCorrect(es);
      SortedSameMembers(SortByKey(es), es);
    case _ =>
  }

  /** Equal up to key order, seen from the normal forms. */
  lemma {:induction false} SameNormal(v: Json, w: Json)
    requires WellFormed(v) && WellFormed(w)
    ensures SameValue(v, w) <==> Normal(v) == Normal(w)
    decreases v
  {
    match (v, w)
    case (Arr(a), Arr(b)) => SameNormalItems(a, b);
    case (Obj(a), Obj(b)) =>
      forall i, j | 0 <= i < |a| && 0 <= j < |b|
        ensures SameValue(a[i].value, b[j].value) <==> Normal(a[i].value) == Normal(b[j].value)
      {
        SameNormal(a[i].value, b[j].value);
      }
      SameNormalEntries(a, b);
    case _ =>
  }

  lemma {:induction false} SameNormalItems(a: seq<Json>, b: seq<Json>)
    requires forall i :: 0 <= i < |a| ==> WellFormed(a[i])
    requires forall i :: 0 <= i < |b| ==> WellFormed(b[i])
    ensures SameValue(Arr(a), Arr(b)) <==> NormalItems(a) == NormalItems(b)
    decreases a
  {
    if |a| == |b| {
      forall i | 0 <= i < |a| ensures SameValue(a[i], b[i]) <==> Normal(a[i]) == Normal(b[i]) {
        SameNormal(a[i], b[i]);
      }
      if NormalItems(a) == NormalItems(b) {
        forall i | 0 <= i < |a| ensures SameValue(a[i], b[i]) { assert NormalItems(a)[i] == NormalItems(b)[i]; }
      }
    } else {
      assert |NormalItems(a)| != |NormalItems(b)|;
    }
  }

  ghost predicate ValuesMatch(a: Entries, b: Entries) {
    forall i, j :: 0 <= i < |a| && 0 <= j < |b|
      ==> (SameValue(a[i].value, b[j].value) <==> Normal(a[i].value) == Normal(b[j].value))
  }

  /** The normal entries are the same, in order, exactly when the objects have the same keys with matching values. */
  lemma {:induction false} SameNormalEntries(a: Entries, b: Entries)
    requires UniqueKeys(a) && UniqueKeys(b) && ValuesMatch(a, b)
    ensures SameValue(Obj(a), Obj(b)) <==> SortByKey(NormalEntries(a)) == SortByKey(NormalEntries(b))
  {
    if SameValue(Obj(a), Obj(b)) { EntriesSort(a, b); }
    if SortByKey(NormalEntries(a)) == SortByKey(NormalEntries(b)) {
      SortCorrect(NormalEntries(a));
      SortCorrect(NormalEntries(b));
      EntriesMatch(a, b);
    }
  }

  /** Every key of a is in b, with a value of the same normal form. */
  ghost predicate Carried(a: Entries, b: Entries) {
    && (forall i :: 0 <= i < |a| ==> HasKey(b, a[i].key))
    && (forall i, j :: 0 <= i < |a| && 0 <= j < |b| && a[i].key == b[j].key
          ==> Normal(a[i].value) == Normal(b[j].value))
  }

  lemma {:induction false} SameCarried(a: Entries, b: Entries)
    requires ValuesMatch(a, b) && SameValue(Obj(a), Obj(b))
    ensures Carried(a, b) && Carried(b, a)
  {
  }

  lemma {:induction false} EntriesSort(a: Entries, b: Entries)
    requires UniqueKeys(a) && UniqueKeys(b) && ValuesMatch(a, b) && SameValue(Obj(a), Obj(b))
    ensures SortByKey(NormalEntries(a)) == SortByKey(NormalEntries(b))
  {
    SameCarried(a, b);
    CarriedSort(a, b);
  }

  lemma {:induction false} CarriedSort(a: Entries, b: Entries)
    requires UniqueKeys(a) && UniqueKeys(b) && Carried(a, b) && Carried(b, a)
    ensures SortByKey(NormalEntries(a)) == SortByKey(NormalEntries(b))
  {
    var na, nb := NormalEntries(a), NormalEntries(b);
    SortCorrect(na);
    SortCorrect(nb);
    forall x | x in na ensures x in nb { EntryCarried(a, b, x); }
    forall x | x in nb ensures x in na { EntryCarried(b, a, x); }
    SortedSameMembers(SortByKey(na), SortByKey(nb));
  }

  lemma EntryCarried(a: Entries, b: Entries, x: Entry)
    requires Carried(a, b)
    requires x in NormalEntries(a)
    ensures x in NormalEntries(b)
  {
  }

  lemma {:induction false} EntriesMatch(a: Entries, b: Entries)
    requires UniqueKeys(a) && UniqueKeys(b)
    requires forall x :: x in NormalEntries(a) <==> x in NormalEntries(b)
    requires ValuesMatch(a, b)
    ensures SameValue(Obj(a), Obj(b))
  {
    forall i | 0 <= i < |a| ensures HasKey(b, a[i].key) { var _ := EntryAt(a, b, i); }
    forall j | 0 <= j < |b| ensures HasKey(a, b[j].key) { var _ := EntryAt(b, a, j); }
    forall i, j | 0 <= i < |a| && 0 <= j < |b| && a[i].key == b[j].key ensures SameValue(a[i].value, b[j].value) {
      var k := EntryAt(a, b, i);
      assert k == j;
    }
  }

  lemma {:induction false} EntryAt(a: Entries, b: Entries, i: nat) returns (k: nat)
    requires i < |a| && forall x :: x in NormalEntries(a) ==> x in NormalEntries(b)
    ensures k < |b| && b[k].key == a[i].key && Normal(b[k].value) == Normal(a[i].value)
  {
    var na, nb := NormalEntries(a), NormalEntries(b);
    assert na[i] in na;
    assert na[i] in nb;
    k :| 0 <= k < |nb| && nb[k] == na[i];
  }
}

/**
 The display symbol of an instrument: base, rights class code and series. Which characters are
 alphanumeric, and how text is put in upper case, are parameters.
 */
module InstrumentSymbol {
  import opened Prelude
  import opened JsonText

  datatype Alphabet = Alphabet(alnum: char -> bool, upper: string -> string)

  /** The separators the symbol is built with are not alphanumeric. */
  ghost predicate Sane(a: Alphabet) { !a.alnum('-') && !a.alnum('_') && !a.alnum(' ') }

  predicate NoDash(s: string) { forall i :: 0 <= i < |s| ==> s[i] != '-' }

  function Take(s: string, n: nat): string { if |s| <= n then s else s[..n] }

  // ----- words -----

  predicate Words(ws: seq<string>) { forall i :: 0 <= i < |ws| ==> ws[i] != "" }

  predicate DashFree(ws: seq<string>) { forall i :: 0 <= i < |ws| ==> NoDash(ws[i]) }

  /** The characters of s that keep holds of. */
  function Filter(s: string, keep: char -> bool): string {
    if s == "" then "" else (if keep(s[0]) then [s[0]] else "") + Filter(s[1..], keep)
  }

  function RunLength(s: string, keep: char -> bool): (k: nat)
    ensures k <= |s| && forall i :: 0 <= i < k ==> keep(s[i])
  {
    if s == "" || !keep(s[0]) then 0 else 1 + RunLength(s[1..], keep)
  }

  /** The maximal runs of kept characters. */
  function Runs(s: string, keep: char -> bool): (r: seq<string>)
    ensures Words(r)
    decreases |s|
  {
    if s == "" then []
    else if !keep(s[0]) then Runs(s[1..], keep)
    else
      var k := RunLength(s, keep);
      [s[..k]] + Runs(s[k..], keep)
  }

  function Joined(words: seq<string>, sep: string): string {
    if words == [] then "" else if |words| == 1 then words[0] else words[0] + sep + Joined(words[1..], sep)
  }

  function Initials(words: seq<string>): (r: string)
    requires Words(words)
    ensures |r| == |words| && forall i :: 0 <= i < |words| ==> r[i] == words[i][0]
  {
    if words == [] then "" else [words[0][0]] + Initials(words[1..])
  }

  function Useful(words: seq<string>, ignored: set<string>): (r: seq<string>)
    requires Words(words)
    ensures Words(r) && (DashFree(words) ==> DashFree(r))
  {
    if words == [] then [] else (if words[0] in ignored then [] else [words[0]]) + Useful(words[1..], ignored)
  }

  /** Letters and digits, other runs collapsed to one underscore. */
  function Token(a: Alphabet, value: string): string { Joined(Runs(a.upper(value), a.alnum), "_") }

  // ----- base -----

  datatype Asset = Asset(shortName: string, dcoCode: string, title: string)

  const IGNORED := {"BLACKMORE", "INDUSTRIAL", "REAL", "TIME", "THE", "AND", "OF",
                    "ASSET", "DATASET", "ENGINE", "DIGITAL", "ROBOTICS"}

  function TitleWords(a: Alphabet, title: string): (r: seq<string>)
    ensures Words(r)
  {
    var words := Runs(a.upper(if title == "" then "ASSET" else title), a.alnum);
    var kept := Useful(words, IGNORED);
    if kept == [] then words else kept
  }

  function WordsBase(useful: seq<string>): string
    requires Words(useful)
  {
    if |useful| == 1 then Take(useful[0], 10)
    else
      var first := if |useful| <= 5 then useful else useful[..5];
      var initials := Initials(first);
      if |initials| >= 3 then initials else Take(Joined(useful, ""), 10)
  }

  function BaseSymbol(a: Alphabet, asset: Asset): string {
    var short := Filter(a.upper(asset.shortName), a.alnum);
    var code := Filter(a.upper(asset.dcoCode), a.alnum);
    if asset.shortName != "" && short != "" then Take(short, 10)
    else if asset.dcoCode != "" && code != "" then Take(code, 10)
    else
      var base := Take(WordsBase(TitleWords(a, asset.title)), 10);
      if base == "" then "ASSET" else base
  }

  // ----- class code -----

  const KNOWN: map<string, string> := map[
    "EVALUATION" := "EVL", "RUNTIME_USE" := "RUN", "INFERENCE" := "INF", "TRAINING" := "TRN",
    "COMPUTE_TO_DATA" := "CTD", "ENTERPRISE_API" := "API", "COMMERCIAL_DERIVATIVE" := "CDR",
    "OEM_EMBEDDED" := "OEM", "FIELD_OF_USE" := "FOU", "REDISTRIBUTION" := "RED",
    "SYNTHETIC_DERIVED_DATA" := "SDD", "CONTRIBUTOR_PARTICIPATION" := "CTR", "COMMERCIAL" := "COM",
    "DERIVATIVE" := "DER", "EXECUTION" := "EXE", "CONTROL" := "CTL", "ACCESS" := "ACC",
    "INSPECTION" := "INSP", "BUNDLED_RIGHTS" := "BND", "ASSET_TRANSFER" := "OWN"]

  const REGIONAL := "REGIONAL_EXCLUSIVITY_"

  predicate IsRegional(token: string) { REGIONAL <= token }

  function Dashed(s: string): (r: string)
    ensures |r| == |s|
  {
    if s == "" then "" else [if s[0] == '_' then '-' else s[0]] + Dashed(s[1..])
  }

  /** The code of a class that is neither regional nor in the known list. */
  function PlainCode(token: string): string {
    var words := Runs(token, c => c != '_');
    if words == [] then "RGT"
    else if |words| == 1 then Take(words[0], 5)
    else Take(Initials(words), 5)
  }

  function ClassCode(token: string): string {
    if IsRegional(token) then "REX-" + Dashed(token[|REGIONAL|..])
    else if token in KNOWN then KNOWN[token]
    else PlainCode(token)
  }

  // ----- symbol -----

  function SeriesSuffix(series: nat): string { if series > 1 then "-S" + Digits(series) else "" }

  function FullSymbol(base: string, code: string, series: nat): string { base + "-" + code + SeriesSuffix(series) }

  /** The generated symbol for a chosen class, cut at 32 characters. */
  function Symbol(a: Alphabet, asset: Asset, rightsClass: string, series: nat): string {
    if rightsClass == "" then ""
    else Take(FullSymbol(BaseSymbol(a, asset), ClassCode(Token(a, rightsClass)), series), 32)
  }

  predicate SeriesInRange(series: nat) { 1 <= series <= 999999 }

  // ----- lengths and characters -----

  lemma FilterKept(s: string, keep: char -> bool)
    ensures forall i :: 0 <= i < |Filter(s, keep)| ==> keep(Filter(s, keep)[i])
  {
  }

  lemma JoinedNoDash(words: seq<string>, sep: string)
    requires NoDash(sep) && DashFree(words)
    ensures NoDash(Joined(words, sep))
  {
  }

  lemma RunsDashFree(s: string, keep: char -> bool)
    requires NoDash(s) || !keep('-')
    ensures DashFree(Runs(s, keep))
    decreases |s|
  {
  }

  lemma {:induction false} WordsBaseShape(useful: seq<string>)
    requires Words(useful) && DashFree(useful)
    ensures NoDash(WordsBase(useful))
  {
    JoinedNoDash(useful, "");
    forall i | 0 <= i < |useful| ensures useful[i][0] != '-' { assert NoDash(useful[i]); }
  }

  /** The base has one to ten characters, none of them a dash. */
  lemma {:induction false} BaseShape(a: Alphabet, asset: Asset)
    requires Sane(a)
    ensures 1 <= |BaseSymbol(a, asset)| <= 10 && NoDash(BaseSymbol(a, asset))
  {
    FilterKept(a.upper(asset.shortName), a.alnum);
    FilterKept(a.upper(asset.dcoCode), a.alnum);
    RunsDashFree(a.upper(if asset.title == "" then "ASSET" else asset.title), a.alnum);
    WordsBaseShape(TitleWords(a, asset.title));
  }

  lemma {:induction false} TokenNoDash(a: Alphabet, value: string)
    requires Sane(a)
    ensures NoDash(Token(a, value))
  {
    RunsDashFree(a.upper(value), a.alnum);
    JoinedNoDash(Runs(a.upper(value), a.alnum), "_");
  }

  lemma {:induction false} PlainCodeShape(token: string)
    requires NoDash(token)
    ensures |PlainCode(token)| <= 5 && NoDash(PlainCode(token))
  {
    var words := Runs(token, c => c != '_');
    RunsDashFree(token, c => c != '_');
    forall i | 0 <= i < |words| ensures words[i][0] != '-' { assert NoDash(words[i]); }
  }

  /** A class code that is not regional has at most five characters, none of them a dash. */
  lemma {:induction false} CodeShape(token: string)
    requires NoDash(token) && !IsRegional(token)
    ensures |ClassCode(token)| <= 5 && NoDash(ClassCode(token))
  {
    PlainCodeShape(token);
    if token in KNOWN { KnownCodes(token); }
  }

  lemma KnownCodes(token: string)
    requires token in KNOWN
    ensures |KNOWN[token]| <= 4 && NoDash(KNOWN[token])
  {
  }

  function Power10(k: nat): nat { if k == 0 then 1 else 10 * Power10(k - 1) }

  lemma {:induction false} DigitsBound(n: nat, k: nat)
    requires k > 0 && n < Power10(k)
    ensures |Digits(n)| <= k
  {
    if n >= 10 { DigitsBound(n / 10, k - 1); }
  }

  lemma {:induction false} SuffixLength(series: nat)
    requires SeriesInRange(series)
    ensures |SeriesSuffix(series)| <= 8
  {
    assert Power10(6) == 1000000;
    DigitsBound(series, 6);
  }

  lemma {:induction false} SuffixInjective(s: nat, t: nat)
    requires s >= 1 && t >= 1 && SeriesSuffix(s) == SeriesSuffix(t)
    ensures s == t
  {
    if s > 1 && t > 1 {
      assert SeriesSuffix(s)[2..] == Digits(s) && SeriesSuffix(t)[2..] == Digits(t);
      NumberOfDigits(s);
      NumberOfDigits(t);
    }
  }

  // ----- decoding -----

  function DashAt(s: string): (k: nat)
    ensures k <= |s| && (forall i :: 0 <= i < k ==> s[i] != '-') && (k < |s| ==> s[k] == '-')
  {
    if s == "" || s[0] == '-' then 0 else 1 + DashAt(s[1..])
  }

  function AllDigits(s: string): bool { forall i :: 0 <= i < |s| ==> IsDigit(s[i]) }

  /** Class code and series. */
  function DecodeRest(rest: string): Option<(string, nat)> {
    var e := DashAt(rest);
    if e == |rest| then Some((rest, 1))
    else if |rest| < e + 2 || !AllDigits(rest[e + 2..]) then None
    else Some((rest[..e], NumberOf(rest[e + 2..])))
  }

  /** Base, class code and series read back from a symbol. */
  function DecodeSymbol(s: string): Option<(string, string, nat)> {
    var d := DashAt(s);
    if d == |s| then None
    else
      match DecodeRest(s[d + 1..])
      case None => None
      case Some((code, series)) => Some((s[..d], code, series))
  }

  lemma {:induction false} FirstDash(x: string, y: string)
    requires NoDash(x) && (y == "" || y[0] == '-')
    ensures DashAt(x + y) == |x|
  {
    if x == "" {
      assert x + y == y;
    } else {
      FirstDash(x[1..], y);
      assert (x + y)[1..] == x[1..] + y;
    }
  }

  lemma {:induction false} DecodeTail(code: string, series: nat)
    requires NoDash(code) && series >= 1
    ensures DecodeRest(code + SeriesSuffix(series)) == Some((code, series))
  {
    var rest := code + SeriesSuffix(series);
    FirstDash(code, SeriesSuffix(series));
    if series > 1 {
      assert rest[..|code|] == code && rest[|code| + 2..] == Digits(series);
      NumberOfDigits(series);
    } else {
      assert rest == code;
    }
  }

  lemma {:induction false} SplitAtDash(base: string, tail: string)
    requires NoDash(base)
    ensures DashAt(base + "-" + tail) == |base|
    ensures (base + "-" + tail)[..|base|] == base && (base + "-" + tail)[|base| + 1..] == tail
  {
    FirstDash(base, "-" + tail);
    assert base + ("-" + tail) == base + "-" + tail;
  }

  lemma FourParts(a: string, b: string, c: string, d: string)
    ensures a + b + c + d == a + b + (c + d)
  {
  }

  lemma {:induction false} DecodeFull(base: string, code: string, series: nat)
    requires NoDash(base) && NoDash(code) && series >= 1
    ensures DecodeSymbol(FullSymbol(base, code, series)) == Some((base, code, series))
  {
    var suffix := SeriesSuffix(series);
    FourParts(base, "-", code, suffix);
    SplitAtDash(base, code + suffix);
    DecodeTail(code, series);
    DecodeParts(base, code + suffix, code, series);
  }

  lemma {:induction false} DecodeParts(base: string, tail: string, code: string, series: nat)
    requires DashAt(base + "-" + tail) == |base| && DecodeRest(tail) == Some((code, series))
    requires (base + "-" + tail)[..|base|] == base && (base + "-" + tail)[|base| + 1..] == tail
    ensures DecodeSymbol(base + "-" + tail) == Some((base, code, series))
  {
  }

  /** Outside the regional classes the symbol has at most 24 characters and gives back all its parts. */
  lemma {:induction false} SymbolDecodes(a: Alphabet, asset: Asset, rightsClass: string, series: nat)
    requires Sane(a) && SeriesInRange(series) && rightsClass != "" && !IsRegional(Token(a, rightsClass))
    ensures |Symbol(a, asset, rightsClass, series)| <= 24
    ensures DecodeSymbol(Symbol(a, asset, rightsClass, series))
            == Some((BaseSymbol(a, asset), ClassCode(Token(a, rightsClass)), series))
  {
    BaseShape(a, asset);
    TokenNoDash(a, rightsClass);
    CodeShape(Token(a, rightsClass));
    SuffixLength(series);
    DecodeFull(BaseSymbol(a, asset), ClassCode(Token(a, rightsClass)), series);
  }

  // ----- regional classes -----

  function RegionalSymbol(base: string, region: string, series: nat): string {
    Take(FullSymbol(base, "REX-" + Dashed(region), series), 32)
  }

  lemma RegionalIs(a: Alphabet, asset: Asset, rightsClass: string, series: nat)
    requires rightsClass != "" && IsRegional(Token(a, rightsClass))
    ensures Symbol(a, asset, rightsClass, series)
            == RegionalSymbol(BaseSymbol(a, asset), Token(a, rightsClass)[|REGIONAL|..], series)
  {
  }

  lemma DigitsPrefix(n: nat, d: nat)
    requires n >= 1 && d < 10
    ensures Digits(10 * n + d) == Digits(n) + [(d + 48) as char]
  {
  }

  lemma FiveDigits()
    ensures |Digits(10000)| == 5
  {
  }

  lemma CutMeets(head: string, x: string, y: string)
    requires |head| >= 32
    ensures Take(head + x, 32) == Take(head + y, 32)
  {
  }

  /** One cut symbol for two series, once base and region leave no room for the last digit. */
  lemma {:induction false} CutCollision(base: string, region: string)
    requires |base| + |region| > 19
    ensures RegionalSymbol(base, region, 100000) == RegionalSymbol(base, region, 100001)
  {
    FiveDigits();
    DigitsPrefix(10000, 0);
    DigitsPrefix(10000, 1);
    var code := "REX-" + Dashed(region);
    var head := base + "-" + code + "-S" + Digits(10000);
    assert FullSymbol(base, code, 100000) == head + "0";
    assert FullSymbol(base, code, 100001) == head + "1";
    CutMeets(head, "0", "1");
  }

  ghost predicate SeriesSeparated(base: string, region: string) {
    forall s: nat, t: nat | SeriesInRange(s) && SeriesInRange(t) ::
      RegionalSymbol(base, region, s) == RegionalSymbol(base, region, t) ==> s == t
  }

  /** All series of a regional class have their own symbol exactly when base and region total at most 19 characters. */
  lemma {:induction false} RegionalSeriesDistinct(base: string, region: string)
    ensures SeriesSeparated(base, region) <==> |base| + |region| <= 19
  {
    var code := "REX-" + Dashed(region);
    if |base| + |region| <= 19 {
      forall s: nat, t: nat | SeriesInRange(s) && SeriesInRange(t)
        && RegionalSymbol(base, region, s) == RegionalSymbol(base, region, t) ensures s == t
      {
        SuffixLength(s);
        SuffixLength(t);
        var p := base + "-" + code;
        assert FullSymbol(base, code, s)[|p|..] == SeriesSuffix(s)
               && FullSymbol(base, code, t)[|p|..] == SeriesSuffix(t);
        SuffixInjective(s, t);
      }
    } else {
      CutCollision(base, region);
      assert SeriesInRange(100000) && SeriesInRange(100001);
    }
  }

  /** A region code of at most nine characters always leaves room, whatever the asset. */
  lemma {:induction false} ShortRegionsDistinct(a: Alphabet, asset: Asset, rightsClass: string, s: nat, t: nat)
    requires Sane(a) && SeriesInRange(s) && SeriesInRange(t) && rightsClass != "" && IsRegional(Token(a, rightsClass))
    requires |Token(a, rightsClass)| <= |REGIONAL| + 9
    requires Symbol(a, asset, rightsClass, s) == Symbol(a, asset, rightsClass, t)
    ensures s == t
  {
    BaseShape(a, asset);
    RegionalIs(a, asset, rightsClass, s);
    RegionalIs(a, asset, rightsClass, t);
    RegionalSeriesDistinct(BaseSymbol(a, asset), Token(a, rightsClass)[|REGIONAL|..]);
  }

  lemma {:induction false} DashedConcat(x: string, y: string)
    ensures Dashed(x + y) == Dashed(x) + Dashed(y)
  {
    if x == "" {
      assert x + y == y;
    } else {
      DashedConcat(x[1..], y);
      assert (x + y)[1..] == x[1..] + y;
    }
  }

  lemma DashedDigits(ds: string)
    requires AllDigits(ds)
    ensures Dashed(ds) == ds
  {
  }

  /** The region name that prints like a region in a series. */
  function Marked(region: string, series: nat): string { if series > 1 then region + "_S" + Digits(series) else region }

  lemma {:induction false} DashedMark(region: string, series: nat)
    ensures Dashed(Marked(region, series)) == Dashed(region) + SeriesSuffix(series)
  {
    if series > 1 {
      DashedConcat(region, "_S" + Digits(series));
      DashedConcat("_S", Digits(series));
      DashedDigits(Digits(series));
      assert region + "_S" + Digits(series) == region + ("_S" + Digits(series));
      assert Dashed("_S") == "-S";
    }
  }

  lemma {:induction false} DashedInjective(x: string, y: string)
    requires NoDash(x) && NoDash(y) && Dashed(x) == Dashed(y)
    ensures x == y
  {
    if x != "" {
      assert Dashed(x)[0] == Dashed(y)[0] && Dashed(x)[1..] == Dashed(x[1..]) && Dashed(y)[1..] == Dashed(y[1..]);
      DashedInjective(x[1..], y[1..]);
      assert x == [x[0]] + x[1..] && y == [y[0]] + y[1..];
    }
  }

  lemma {:induction false} MarkedNoDash(region: string, series: nat)
    requires NoDash(region)
    ensures NoDash(Marked(region, series))
  {
  }

  /** A series mark is read off the end: it starts at the last underscore. */
  lemma {:induction false} MarkAtEnd(r1: string, s1: nat, r2: string, s2: nat)
    requires s1 > 1 && s2 > 1 && Marked(r1, s1) == Marked(r2, s2)
    ensures r1 == r2 && s1 == s2
  {
    MarkNotShorter(r1, s1, r2, s2);
    MarkNotShorter(r2, s2, r1, s1);
    var x, y := Marked(r1, s1), Marked(r2, s2);
    assert r1 == x[..|r1|] && r2 == y[..|r2|];
    assert Digits(s1) == x[|r1| + 2..] && Digits(s2) == y[|r2| + 2..];
    NumberOfDigits(s1);
    NumberOfDigits(s2);
  }

  lemma {:induction false} MarkNotShorter(r1: string, s1: nat, r2: string, s2: nat)
    requires s1 > 1 && s2 > 1 && Marked(r1, s1) == Marked(r2, s2)
    ensures |r1| >= |r2|
  {
    var x := Marked(r1, s1);
    assert forall j :: |r1| < j < |x| ==> x[j] != '_';
    assert Marked(r2, s2)[|r2|] == '_';
  }

  /**
   Uncut regional symbols coincide exactly for equal base, region and series, or when one is in no series and its
   region is the other's with the series mark.
   */
  lemma {:induction false} RegionsCoincide(b1: string, r1: string, s1: nat, b2: string, r2: string, s2: nat)
    requires NoDash(b1) && NoDash(b2) && NoDash(r1) && NoDash(r2) && s1 >= 1 && s2 >= 1
    ensures FullSymbol(b1, "REX-" + Dashed(r1), s1) == FullSymbol(b2, "REX-" + Dashed(r2), s2)
            <==> b1 == b2 && (|| (r1 == r2 && s1 == s2)
                              || (s1 == 1 && s2 > 1 && r1 == r2 + "_S" + Digits(s2))
                              || (s2 == 1 && s1 > 1 && r2 == r1 + "_S" + Digits(s1)))
  {
    RegionalText(b1, r1, s1);
    RegionalText(b2, r2, s2);
    var t1, t2 := "REX-" + Dashed(Marked(r1, s1)), "REX-" + Dashed(Marked(r2, s2));
    SplitAtDash(b1, t1);
    SplitAtDash(b2, t2);
    assert t1[4..] == Dashed(Marked(r1, s1)) && t2[4..] == Dashed(Marked(r2, s2));
    MarkedNoDash(r1, s1);
    MarkedNoDash(r2, s2);
    if Dashed(Marked(r1, s1)) == Dashed(Marked(r2, s2)) { DashedInjective(Marked(r1, s1), Marked(r2, s2)); }
    if s1 > 1 && s2 > 1 && Marked(r1, s1) == Marked(r2, s2) { MarkAtEnd(r1, s1, r2, s2); }
  }

  lemma {:induction false} RegionalText(base: string, region: string, series: nat)
    ensures FullSymbol(base, "REX-" + Dashed(region), series) == base + "-" + ("REX-" + Dashed(Marked(region, series)))
  {
    DashedMark(region, series);
    assert base + "-" + ("REX-" + Dashed(region)) + SeriesSuffix(series)
        == base + "-" + ("REX-" + (Dashed(region) + SeriesSuffix(series)));
  }

  predicate Uncut(a: Alphabet, asset: Asset, rightsClass: string, series: nat) {
    |FullSymbol(BaseSymbol(a, asset), ClassCode(Token(a, rightsClass)), series)| <= 32
  }

  /** Two symbols of one asset's regional classes, neither of them cut, coincide exactly so. */
  lemma {:induction false} RegionsAmbiguous(a: Alphabet, asset: Asset, c1: string, s1: nat, c2: string, s2: nat)
    requires Sane(a) && SeriesInRange(s1) && SeriesInRange(s2) && c1 != "" && c2 != ""
    requires IsRegional(Token(a, c1)) && IsRegional(Token(a, c2))
    requires Uncut(a, asset, c1, s1) && Uncut(a, asset, c2, s2)
    ensures var r1, r2 := Token(a, c1)[|REGIONAL|..], Token(a, c2)[|REGIONAL|..];
            Symbol(a, asset, c1, s1) == Symbol(a, asset, c2, s2)
            <==> || (r1 == r2 && s1 == s2)
                 || (s1 == 1 && s2 > 1 && r1 == r2 + "_S" + Digits(s2))
                 || (s2 == 1 && s1 > 1 && r2 == r1 + "_S" + Digits(s1))
  {
    var base, r1, r2 := BaseSymbol(a, asset), Token(a, c1)[|REGIONAL|..], Token(a, c2)[|REGIONAL|..];
    BaseShape(a, asset);
    TokenNoDash(a, c1);
    TokenNoDash(a, c2);
    RegionsCoincide(base, r1, s1, base, r2, s2);
  }

  /** Such regions exist: EU_S2 in its first series and EU in its second have one symbol, for every asset. */
  lemma {:induction false} RegionsMeet(a: Alphabet, asset: Asset, c1: string, c2: string)
    requires Sane(a) && c1 != "" && c2 != "" && Token(a, c1) == REGIONAL + "EU_S2" && Token(a, c2) == REGIONAL + "EU"
    ensures Symbol(a, asset, c1, 1) == Symbol(a, asset, c2, 2)
  {
    BaseShape(a, asset);
    assert Token(a, c1)[|REGIONAL|..] == "EU_S2" && Token(a, c2)[|REGIONAL|..] == "EU" && Digits(2) == "2";
    assert "EU_S2" == "EU" + "_S" + Digits(2);
    RegionsAmbiguous(a, asset, c1, 1, c2, 2);
  }
}

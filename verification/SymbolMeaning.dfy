/** The parts of a symbol, each said without the function that computes it, and a symbol spelt out. */
module SymbolMeaning {
  import opened Prelude
  import opened JsonText
  import opened InstrumentSymbol

  function Least(a: nat, b: nat): nat { if a < b then a else b }

  /** The first n characters of s, or all of them. */
  predicate Cut(r: string, s: string, n: nat) { r <= s && |r| == Least(|s|, n) }

  // ----- words -----

  /** Filtering goes character by character. */
  lemma {:induction false} FilterConcat(x: string, y: string, keep: char -> bool)
    ensures Filter(x + y, keep) == Filter(x, keep) + Filter(y, keep)
  {
    if x == "" {
      assert x + y == y;
    } else {
      var s, first := x + y, if keep(x[0]) then [x[0]] else "";
      assert s[0] == x[0] && s[1..] == x[1..] + y;
      FilterConcat(x[1..], y, keep);
      assert Filter(s, keep) == first + Filter(s[1..], keep);
      assert Filter(x, keep) == first + Filter(x[1..], keep);
    }
  }

  lemma FilterOne(c: char, keep: char -> bool)
    ensures Filter([c], keep) == if keep(c) then [c] else ""
  {
  }

  /** A text without separators is one word, or none if it is empty. */
  lemma {:induction false} OneWord(s: string, keep: char -> bool)
    requires forall i :: 0 <= i < |s| ==> keep(s[i])
    ensures Runs(s, keep) == if s == "" then [] else [s]
    ensures RunLength(s, keep) == |s|
  {
    if s != "" {
      OneWord(s[1..], keep);
      assert s[..|s|] == s && s[|s|..] == "";
    }
  }

  lemma {:induction false} RunBefore(x: string, c: char, y: string, keep: char -> bool)
    requires !keep(c)
    ensures RunLength(x + [c] + y, keep) == RunLength(x, keep)
  {
    var s := x + [c] + y;
    if x == "" {
      assert s[0] == c;
    } else {
      RunBefore(x[1..], c, y, keep);
      assert s[0] == x[0] && s[1..] == x[1..] + [c] + y;
    }
  }

  /** A separator parts the words before it from those behind it. */
  lemma {:induction false} WordsApart(x: string, c: char, y: string, keep: char -> bool)
    requires !keep(c)
    ensures Runs(x + [c] + y, keep) == Runs(x, keep) + Runs(y, keep)
    decreases |x|
  {
    var s := x + [c] + y;
    if x == "" {
      assert s[0] == c && s[1..] == y;
    } else if !keep(x[0]) {
      assert s[0] == x[0] && s[1..] == x[1..] + [c] + y;
      WordsApart(x[1..], c, y, keep);
    } else {
      RunBefore(x, c, y, keep);
      var k := RunLength(x, keep);
      assert s[0] == x[0] && s[..k] == x[..k] && s[k..] == x[k..] + [c] + y;
      WordsApart(x[k..], c, y, keep);
    }
  }

  /** The words that are not ignored, in their order. */
  lemma {:induction false} UsefulConcat(ws: seq<string>, vs: seq<string>, ignored: set<string>)
    requires Words(ws) && Words(vs)
    ensures Useful(ws + vs, ignored) == Useful(ws, ignored) + Useful(vs, ignored)
  {
    if ws == [] {
      assert ws + vs == vs;
    } else {
      var all, first := ws + vs, if ws[0] in ignored then [] else [ws[0]];
      assert all[0] == ws[0] && all[1..] == ws[1..] + vs;
      UsefulConcat(ws[1..], vs, ignored);
      assert Useful(all, ignored) == first + Useful(all[1..], ignored);
      assert Useful(ws, ignored) == first + Useful(ws[1..], ignored);
    }
  }

  lemma UsefulOne(w: string, ignored: set<string>)
    requires w != ""
    ensures Useful([w], ignored) == if w in ignored then [] else [w]
  {
  }

  // ----- base -----

  /** The words of a title a base is made of: those not ignored, or all of them if each one is. */
  function BaseWords(a: Alphabet, title: string): seq<string> {
    var words := Runs(a.upper(if title == "" then "ASSET" else title), a.alnum);
    var kept := Useful(words, {"BLACKMORE", "INDUSTRIAL", "REAL", "TIME", "THE", "AND", "OF", "ASSET", "DATASET",
                               "ENGINE", "DIGITAL", "ROBOTICS"});
    if kept != [] then kept else words
  }

  /** One word is cut, two are put together and cut, more give their initials, up to five; no word gives ASSET. */
  ghost predicate TitleBase(base: string, ws: seq<string>) {
    match |ws|
    case 0 => base == "ASSET"
    case 1 => Cut(base, ws[0], 10)
    case 2 => Cut(base, ws[0] + ws[1], 10)
    case _ => |base| == Least(|ws|, 5) && forall i :: 0 <= i < |base| ==> base[i..i + 1] == Take(ws[i], 1)
  }

  lemma {:induction false} WordsBaseIs(ws: seq<string>)
    requires Words(ws) && ws != []
    ensures TitleBase(WordsBase(ws), ws) && 1 <= |WordsBase(ws)| <= 10
  {
    if |ws| == 2 {
      assert Joined(ws[1..], "") == ws[1] && Joined(ws, "") == ws[0] + ws[1];
    }
    forall i | 0 <= i < |ws| ensures Take(ws[i], 1) == [ws[i][0]] { FirstOf(ws[i]); }
  }

  /** The short name comes first, then the code, then the title, whichever has a letter or digit to show. */
  lemma {:induction false} BaseExactly(a: Alphabet, asset: Asset)
    ensures var base := BaseSymbol(a, asset);
            var short, code := Filter(a.upper(asset.shortName), a.alnum), Filter(a.upper(asset.dcoCode), a.alnum);
            if asset.shortName != "" && short != "" then Cut(base, short, 10)
            else if asset.dcoCode != "" && code != "" then Cut(base, code, 10)
            else TitleBase(base, BaseWords(a, asset.title))
  {
    var ws := TitleWords(a, asset.title);
    assert ws == BaseWords(a, asset.title);
    if ws != [] { WordsBaseIs(ws); }
  }

  // ----- class code -----

  lemma {:induction false} KnownTable1()
    ensures KNOWN["EVALUATION"] == "EVL"
    ensures KNOWN["RUNTIME_USE"] == "RUN"
    ensures KNOWN["INFERENCE"] == "INF"
    ensures KNOWN["TRAINING"] == "TRN"
    ensures KNOWN["COMPUTE_TO_DATA"] == "CTD"
  {
  }

  lemma {:induction false} KnownTable2()
    ensures KNOWN["ENTERPRISE_API"] == "API"
    ensures KNOWN["COMMERCIAL_DERIVATIVE"] == "CDR"
    ensures KNOWN["OEM_EMBEDDED"] == "OEM"
    ensures KNOWN["FIELD_OF_USE"] == "FOU"
    ensures KNOWN["REDISTRIBUTION"] == "RED"
  {
  }

  lemma {:induction false} KnownTable3()
    ensures KNOWN["SYNTHETIC_DERIVED_DATA"] == "SDD"
    ensures KNOWN["CONTRIBUTOR_PARTICIPATION"] == "CTR"
    ensures KNOWN["COMMERCIAL"] == "COM"
    ensures KNOWN["DERIVATIVE"] == "DER"
    ensures KNOWN["EXECUTION"] == "EXE"
  {
  }

  lemma {:induction false} KnownTable4()
    ensures KNOWN["CONTROL"] == "CTL"
    ensures KNOWN["ACCESS"] == "ACC"
    ensures KNOWN["INSPECTION"] == "INSP"
    ensures KNOWN["BUNDLED_RIGHTS"] == "BND"
    ensures KNOWN["ASSET_TRANSFER"] == "OWN"
  {
  }

  lemma {:induction false} RegionalStarts(token: string)
    requires IsRegional(token)
    ensures |token| >= 3 && token[0] == 'R' && token[2] == 'G'
  {
    assert token[0] == REGIONAL[0] && token[2] == REGIONAL[2];
  }

  /** A known class has the code the list gives it. */
  lemma {:induction false} KnownClass(token: string)
    requires token in KNOWN
    ensures ClassCode(token) == KNOWN[token]
  {
    assert |token| >= 3 && (token[0] != 'R' || token[2] != 'G');
    if IsRegional(token) {
      RegionalStarts(token);
      assert false;
    }
  }

  /** A regional class: REX and its region with dashes for underscores. */
  lemma {:induction false} RegionalCode(region: string)
    ensures var code := ClassCode("REGIONAL_EXCLUSIVITY_" + region);
            && |code| == 4 + |region| && code[..4] == "REX-"
            && forall i :: 0 <= i < |region| ==> code[i + 4] == if region[i] == '_' then '-' else region[i]
  {
    var token := REGIONAL + region;
    assert REGIONAL <= token && token[|REGIONAL|..] == region;
    DashedAt(region);
    DashedBehind(region, ClassCode(token));
  }

  lemma DashedBehind(region: string, code: string)
    requires code == "REX-" + Dashed(region)
    ensures |code| == 4 + |region| && code[..4] == "REX-"
    ensures forall i :: 0 <= i < |region| ==> code[i + 4] == Dashed(region)[i]
  {
  }

  /** A class that is neither regional nor known: the cut word, or the initials of the words between underscores. */
  lemma {:induction false} OtherCode(token: string)
    requires !("REGIONAL_EXCLUSIVITY_" <= token) && token !in KNOWN
    ensures var code, words := ClassCode(token), Runs(token, c => c != '_');
            match |words|
            case 0 => code == "RGT"
            case 1 => Cut(code, words[0], 5)
            case _ => |code| == Least(|words|, 5) && forall i :: 0 <= i < |code| ==> code[i..i + 1] == Take(words[i], 1)
  {
    InitialsCut(Runs(token, c => c != '_'));
  }

  lemma {:induction false} InitialsCut(words: seq<string>)
    requires Words(words)
    ensures var code := Take(Initials(words), 5);
            |code| == Least(|words|, 5) && forall i :: 0 <= i < |code| ==> code[i..i + 1] == Take(words[i], 1)
  {
    var code := Take(Initials(words), 5);
    forall i | 0 <= i < |code| ensures code[i..i + 1] == Take(words[i], 1) {
      assert code[i..i + 1] == [words[i][0]];
      FirstOf(words[i]);
    }
  }

  lemma FirstOf(word: string)
    requires word != ""
    ensures Take(word, 1) == [word[0]]
  {
  }

  lemma {:induction false} DashedAt(s: string)
    ensures forall i :: 0 <= i < |s| ==> Dashed(s)[i] == if s[i] == '_' then '-' else s[i]
  {
    if s != "" { DashedAt(s[1..]); }
  }

  // ----- symbol -----

  /** The parts in their order, the series from the second on, and nothing beyond 32 characters. */
  lemma {:induction false} SymbolExactly(a: Alphabet, asset: Asset, rightsClass: string, series: nat)
    requires rightsClass != ""
    ensures var base, code := BaseSymbol(a, asset), ClassCode(Token(a, rightsClass));
            Cut(Symbol(a, asset, rightsClass, series),
                if series <= 1 then base + "-" + code else base + "-" + code + "-S" + Digits(series), 32)
  {
    var base, code := BaseSymbol(a, asset), ClassCode(Token(a, rightsClass));
    assert base + "-" + code + "" == base + "-" + code;
    assert base + "-" + code + ("-S" + Digits(series)) == base + "-" + code + "-S" + Digits(series);
  }

  /** Capital letters and digits, as they come. */
  function Capitals(): Alphabet { Alphabet(c => 'A' <= c <= 'Z' || '0' <= c <= '9', s => s) }

  lemma {:induction false} AllKept(s: string, keep: char -> bool)
    requires forall i :: 0 <= i < |s| ==> keep(s[i])
    ensures Filter(s, keep) == s
  {
    if s != "" { AllKept(s[1..], keep); }
  }

  lemma {:induction false} ShortBase(a: Alphabet, asset: Asset)
    requires asset.shortName == a.upper(asset.shortName) && 1 <= |asset.shortName| <= 10
    requires forall i :: 0 <= i < |asset.shortName| ==> a.alnum(asset.shortName[i])
    ensures BaseSymbol(a, asset) == asset.shortName
  {
    AllKept(asset.shortName, a.alnum);
  }

  lemma {:induction false} OneToken(a: Alphabet, value: string)
    requires value == a.upper(value) && value != "" && forall i :: 0 <= i < |value| ==> a.alnum(value[i])
    ensures Token(a, value) == value
  {
    OneWord(value, a.alnum);
  }

  lemma {:induction false} SymbolOf(a: Alphabet, asset: Asset, rightsClass: string, series: nat, full: string)
    requires BaseSymbol(a, asset) == "ABC" && Token(a, rightsClass) == "TRAINING" && rightsClass != ""
    requires full == FullSymbol("ABC", "TRN", series) && |full| <= 32
    ensures Symbol(a, asset, rightsClass, series) == full
  {
    KnownTable1();
    KnownClass("TRAINING");
  }

  lemma {:induction false} SeriesTexts()
    ensures FullSymbol("ABC", "TRN", 1) == "ABC-TRN" && FullSymbol("ABC", "TRN", 7) == "ABC-TRN-S7"
  {
    assert Digits(7) == "7";
  }

  /** A short name, a class and a series, and the symbol shown for them. */
  lemma {:induction false} TrainingSymbol(dcoCode: string, title: string)
    ensures Symbol(Capitals(), Asset("ABC", dcoCode, title), "TRAINING", 1) == "ABC-TRN"
    ensures Symbol(Capitals(), Asset("ABC", dcoCode, title), "TRAINING", 7) == "ABC-TRN-S7"
  {
    var a, asset := Capitals(), Asset("ABC", dcoCode, title);
    ShortBase(a, asset);
    OneToken(a, "TRAINING");
    SeriesTexts();
    SymbolOf(a, asset, "TRAINING", 1, "ABC-TRN");
    SymbolOf(a, asset, "TRAINING", 7, "ABC-TRN-S7");
  }
}

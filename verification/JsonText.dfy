/**
 The text of a JSON value with compact separators and ensure_ascii off, and a reader for the RFC 8259
 grammar restricted to integers.
 */
module JsonText {
  import opened Prelude
  import opened JsonValue

  // ----- decimal integers -----

  predicate IsDigit(c: char) { '0' <= c <= '9' }

  function Digits(n: nat): (s: string)
    ensures s != "" && (forall i :: 0 <= i < |s| ==> IsDigit(s[i]))
    ensures n > 0 ==> s[0] != '0'
  {
    if n < 10 then [(n + 48) as char] else Digits(n / 10) + [(n % 10 + 48) as char]
  }

  function Decimal(n: int): string {
    if n < 0 then "-" + Digits(-n) else Digits(n)
  }

  /** The number a run of digits denotes. */
  function NumberOf(ds: string): nat
    requires forall i :: 0 <= i < |ds| ==> IsDigit(ds[i])
  {
    if ds == "" then 0
    else
      assert IsDigit(ds[|ds| - 1]);
      NumberOf(ds[..|ds| - 1]) * 10 + (ds[|ds| - 1] as int - 48)
  }

  /** How many digits s starts with. */
  function DigitRun(s: string): (k: nat)
    ensures k <= |s| && (forall i :: 0 <= i < k ==> IsDigit(s[i]))
    ensures k < |s| ==> !IsDigit(s[k])
  {
    if s == "" || !IsDigit(s[0]) then 0 else 1 + DigitRun(s[1..])
  }

  lemma {:induction false} NumberOfDigits(n: nat)
    ensures NumberOf(Digits(n)) == n
  {
    if n >= 10 {
      NumberOfDigits(n / 10);
      assert Digits(n)[..|Digits(n)| - 1] == Digits(n / 10);
    }
  }

  lemma {:induction false} DigitRunIs(ds: string, rest: string)
    requires forall i :: 0 <= i < |ds| ==> IsDigit(ds[i])
    requires rest == "" || !IsDigit(rest[0])
    ensures DigitRun(ds + rest) == |ds|
  {
    if ds == "" {
      assert ds + rest == rest;
    } else {
      DigitRunIs(ds[1..], rest);
      assert (ds + rest)[0] == ds[0] && (ds + rest)[1..] == ds[1..] + rest;
    }
  }

  // ----- strings -----

  function HexDigit(d: nat): char
    requires d < 16
  {
    if d < 10 then (d + 48) as char else (d + 87) as char
  }

  function HexValue(c: char): Option<nat> {
    if '0' <= c <= '9' then Some(c as int - 48)
    else if 'a' <= c <= 'f' then Some(c as int - 87)
    else if 'A' <= c <= 'F' then Some(c as int - 55)
    else None
  }

  /** The four hex digits s starts with. */
  function Hex4(s: string): (r: Option<nat>)
    ensures r.Some? ==> |s| >= 4 && r.value < 0x10000
  {
    if |s| < 4 then None
    else match (HexValue(s[0]), HexValue(s[1]), HexValue(s[2]), HexValue(s[3]))
      case (Some(a), Some(b), Some(c), Some(d)) =>
        if a < 16 && b < 16 && c < 16 && d < 16 then Some(((a * 16 + b) * 16 + c) * 16 + d) else None
      case _ => None
  }

  const BACKSPACE := '\U{0008}'
  const FORM_FEED := '\U{000C}'

  function EscapeChar(c: char): (r: string)
    ensures r != "" && (r[0] == '\\' || r == [c])
  {
    if c == '"' then "\\\""
    else if c == '\\' then "\\\\"
    else if c == '\n' then "\\n"
    else if c == '\r' then "\\r"
    else if c == '\t' then "\\t"
    else if c == FORM_FEED then "\\f"
    else if c == BACKSPACE then "\\b"
    else if c < ' ' then "\\u00" + [HexDigit(c as int / 16), HexDigit(c as int % 16)]
    else [c]
  }

  function Escape(s: string): string {
    if s == "" then "" else EscapeChar(s[0]) + Escape(s[1..])
  }

  function Quote(s: string): string { "\"" + Escape(s) + "\"" }

  /** The character a backslash escape stands for; s starts after the backslash. */
  function Unescape(s: string): (r: Option<(char, string)>)
    ensures r.Some? ==> |r.value.1| < |s|
  {
    if s == "" then None
    else if s[0] in "\"\\/" then Some((s[0], s[1..]))
    else if s[0] == 'n' then Some(('\n', s[1..]))
    else if s[0] == 'r' then Some(('\r', s[1..]))
    else if s[0] == 't' then Some(('\t', s[1..]))
    else if s[0] == 'f' then Some((FORM_FEED, s[1..]))
    else if s[0] == 'b' then Some((BACKSPACE, s[1..]))
    else if s[0] == 'u' then
      match Hex4(s[1..])
      case None => None
      case Some(u) =>
        if u < 0xD800 || 0xE000 <= u then Some((u as char, s[5..]))
        else if u < 0xDC00 && |s| >= 11 && s[5] == '\\' && s[6] == 'u' then
          match Hex4(s[7..])
          case Some(l) =>
            if 0xDC00 <= l < 0xE000
            then Some((((u - 0xD800) * 0x400 + (l - 0xDC00) + 0x10000) as char, s[11..]))
            else None
          case None => None
        else None
    else None
  }

  /** The characters up to the closing quote; s starts after the opening one. */
  function ReadChars(s: string): (r: Option<(string, string)>)
    ensures r.Some? ==> |r.value.1| < |s|
    decreases |s|
  {
    if s == "" then None
    else if s[0] == '"' then Some(("", s[1..]))
    else
      var first := if s[0] == '\\' then Unescape(s[1..])
                   else if s[0] < ' ' then None
                   else Some((s[0], s[1..]));
      match first
      case None => None
      case Some((c, after)) =>
        match ReadChars(after)
        case None => None
        case Some((cs, rest)) => Some(([c] + cs, rest))
  }

  predicate LowerHex(c: char) { '0' <= c <= '9' || 'a' <= c <= 'f' }

  /**
   Only quotes, backslashes and control characters are escaped: five controls by a letter, the others by u00 and two
   lower-case hex digits of their code.
   */
  lemma {:induction false} EscapedExactly(c: char)
    ensures EscapeChar(c) == [c] <==> c >= ' ' && c != '"' && c != '\\'
    ensures EscapeChar('"') == "\\\"" && EscapeChar('\\') == "\\\\"
    ensures EscapeChar('\n') == "\\n" && EscapeChar('\r') == "\\r" && EscapeChar('\t') == "\\t"
    ensures EscapeChar('\U{000C}') == "\\f" && EscapeChar('\U{0008}') == "\\b"
    ensures c < ' ' && c !in "\n\r\t\U{000C}\U{0008}" ==>
              && |EscapeChar(c)| == 6 && EscapeChar(c)[..4] == "\\u00"
              && LowerHex(EscapeChar(c)[4]) && LowerHex(EscapeChar(c)[5]) && Hex4(EscapeChar(c)[2..]) == Some(c as int)
  {
    if c < ' ' && c !in "\n\r\t\U{000C}\U{0008}" {
      var h, l := c as int / 16, c as int % 16;
      var digits := EscapeChar(c)[2..];
      assert digits == "00" + [HexDigit(h), HexDigit(l)];
      assert HexValue(digits[0]) == Some(0) && HexValue(digits[1]) == Some(0);
      assert HexValue(digits[2]) == Some(h) && HexValue(digits[3]) == Some(l);
    }
  }

  lemma UnescapeEscaped(c: char, rest: string)
    requires EscapeChar(c)[0] == '\\'
    ensures Unescape((EscapeChar(c) + rest)[1..]) == Some((c, rest))
  {
  }

  lemma {:induction false} ReadOne(c: char, tail: string, cs: string, rest: string)
    requires ReadChars(tail) == Some((cs, rest))
    ensures ReadChars(EscapeChar(c) + tail) == Some(([c] + cs, rest))
  {
    if EscapeChar(c)[0] == '\\' {
      UnescapeEscaped(c, tail);
    } else {
      assert (EscapeChar(c) + tail)[1..] == tail;
    }
  }

  lemma FrontFirst(front: string, back: string, rest: string)
    ensures front + back + "\"" + rest == front + (back + "\"" + rest)
  {
  }

  lemma {:induction false} ReadEscaped(s: string, rest: string)
    ensures ReadChars(Escape(s) + "\"" + rest) == Some((s, rest))
  {
    if s == "" {
      assert Escape(s) + "\"" + rest == "\"" + rest;
    } else {
      FrontFirst(EscapeChar(s[0]), Escape(s[1..]), rest);
      ReadEscaped(s[1..], rest);
      ReadOne(s[0], Escape(s[1..]) + "\"" + rest, s[1..], rest);
      assert [s[0]] + s[1..] == s;
    }
  }

  // ----- values -----

  function Print(v: Json): string
    decreases v, 1
  {
    match v
    case Null => "null"
    case Bool(b) => if b then "true" else "false"
    case Num(n) => Decimal(n)
    case Str(s) => Quote(s)
    case Arr(items) => "[" + PrintItems(items) + "]"
    case Obj(es) => "{" + PrintEntries(es) + "}"
  }

  function PrintItems(items: seq<Json>): string
    decreases items, 0
  {
    if items == [] then ""
    else Print(items[0]) + (if |items| == 1 then "" else "," + PrintItems(items[1..]))
  }

  function PrintEntries(es: Entries): string
    decreases es, 0
  {
    if es == [] then ""
    else Quote(es[0].key) + ":" + Print(es[0].value) + (if |es| == 1 then "" else "," + PrintEntries(es[1..]))
  }

  // ----- no space between tokens -----

  /** Where a scan of JSON text stands: outside a string, inside one, or after a backslash in one. */
  datatype Scan = Outside | Inside | Escaping

  /** The scan after s, or None at a space outside a string. */
  function ScanOf(s: string, at: Scan): Option<Scan> {
    if s == "" then Some(at)
    else
      match at
      case Escaping => ScanOf(s[1..], Inside)
      case Inside => ScanOf(s[1..], if s[0] == '"' then Outside else if s[0] == '\\' then Escaping else Inside)
      case Outside => if IsSpace(s[0]) then None else ScanOf(s[1..], if s[0] == '"' then Inside else Outside)
  }

  lemma {:induction false} ScanConcat(x: string, y: string, at: Scan)
    requires ScanOf(x, at).Some?
    ensures ScanOf(x + y, at) == ScanOf(y, ScanOf(x, at).value)
  {
    if x == "" {
      assert x + y == y;
    } else {
      assert (x + y)[0] == x[0] && (x + y)[1..] == x[1..] + y;
      ScanConcat(x[1..], y, match at
                            case Escaping => Inside
                            case Inside => if x[0] == '"' then Outside else if x[0] == '\\' then Escaping else Inside
                            case Outside => if x[0] == '"' then Inside else Outside);
    }
  }

  lemma {:induction false} ScanEscaped(s: string)
    ensures ScanOf(Escape(s), Inside) == Some(Inside)
  {
    if s != "" {
      ScanEscaped(s[1..]);
      ScanEscapedChar(s[0]);
      ScanConcat(EscapeChar(s[0]), Escape(s[1..]), Inside);
    }
  }

  lemma {:induction false} ScanEscapedChar(c: char)
    ensures ScanOf(EscapeChar(c), Inside) == Some(Inside)
  {
    EscapedExactly(c);
    var e := EscapeChar(c);
    if e != [c] {
      assert e[1..][1..] == e[2..];
      ScanPlain(e[2..]);
      assert ScanOf(e, Inside) == ScanOf(e[1..], Escaping) == ScanOf(e[2..], Inside);
    }
  }

  lemma {:induction false} ScanPlain(t: string)
    requires forall i :: 0 <= i < |t| ==> t[i] != '"' && t[i] != '\\'
    ensures ScanOf(t, Inside) == Some(Inside)
  {
    if t != "" { ScanPlain(t[1..]); }
  }

  lemma {:induction false} ScanQuote(s: string)
    ensures ScanOf(Quote(s), Outside) == Some(Outside)
  {
    ScanEscaped(s);
    ScanConcat("\"", Escape(s) + "\"", Outside);
    ScanConcat(Escape(s), "\"", Inside);
    assert Quote(s) == "\"" + (Escape(s) + "\"");
  }

  lemma {:induction false} ScanDigits(n: nat)
    ensures ScanOf(Digits(n), Outside) == Some(Outside)
  {
    if n >= 10 {
      ScanDigits(n / 10);
      ScanConcat(Digits(n / 10), [(n % 10 + 48) as char], Outside);
    }
  }

  lemma {:induction false} ScanDecimal(n: int)
    ensures ScanOf(Decimal(n), Outside) == Some(Outside)
  {
    if n < 0 {
      ScanDigits(-n);
      ScanConcat("-", Digits(-n), Outside);
    } else {
      ScanDigits(n);
    }
  }

  /** Printed text has no space outside strings, and every string in it is closed. */
  lemma {:induction false} PrintIsCompact(v: Json)
    ensures ScanOf(Print(v), Outside) == Some(Outside)
    decreases v, 1
  {
    match v
    case Null =>
      ScanWord("null");
    case Bool(b) =>
      ScanWord(if b then "true" else "false");
    case Num(n) => ScanDecimal(n);
    case Str(s) => ScanQuote(s);
    case Arr(items) =>
      ItemsAreCompact(items);
      ScanBracketed("[", PrintItems(items), "]");
    case Obj(es) =>
      EntriesAreCompact(es);
      ScanBracketed("{", PrintEntries(es), "}");
  }

  lemma {:induction false} ScanWord(w: string)
    requires forall i :: 0 <= i < |w| ==> !IsSpace(w[i]) && w[i] != '"'
    ensures ScanOf(w, Outside) == Some(Outside)
  {
    if w != "" { ScanWord(w[1..]); }
  }

  lemma {:induction false} ScanBracketed(open: string, inner: string, close: string)
    requires open in {"[", "{"} && close in {"]", "}"} && ScanOf(inner, Outside) == Some(Outside)
    ensures ScanOf(open + inner + close, Outside) == Some(Outside)
  {
    ScanWord(open);
    ScanWord(close);
    ScanConcat(open, inner, Outside);
    ScanConcat(open + inner, close, Outside);
  }

  lemma {:induction false} ItemsAreCompact(items: seq<Json>)
    ensures ScanOf(PrintItems(items), Outside) == Some(Outside)
    decreases items, 0
  {
    if items != [] {
      PrintIsCompact(items[0]);
      if |items| > 1 {
        ItemsAreCompact(items[1..]);
        ScanWord(",");
        ScanConcat(",", PrintItems(items[1..]), Outside);
        ScanConcat(Print(items[0]), "," + PrintItems(items[1..]), Outside);
      } else {
        assert PrintItems(items) == Print(items[0]);
      }
    }
  }

  lemma {:induction false} EntriesAreCompact(es: Entries)
    ensures ScanOf(PrintEntries(es), Outside) == Some(Outside)
    decreases es, 0
  {
    if es != [] {
      PrintIsCompact(es[0].value);
      ScanMember(es[0].key, Print(es[0].value));
      var member := Quote(es[0].key) + ":" + Print(es[0].value);
      if |es| > 1 {
        EntriesAreCompact(es[1..]);
        ScanWord(",");
        ScanConcat(",", PrintEntries(es[1..]), Outside);
        ScanConcat(member, "," + PrintEntries(es[1..]), Outside);
      } else {
        assert PrintEntries(es) == member;
      }
    }
  }

  lemma {:induction false} ScanMember(k: string, text: string)
    requires ScanOf(text, Outside) == Some(Outside)
    ensures ScanOf(Quote(k) + ":" + text, Outside) == Some(Outside)
  {
    ScanQuote(k);
    ScanWord(":");
    ScanConcat(Quote(k), ":", Outside);
    ScanConcat(Quote(k) + ":", text, Outside);
  }

  predicate IsSpace(c: char) { c == ' ' || c == '\t' || c == '\n' || c == '\r' }

  function SkipSpace(s: string): (r: string)
    ensures |r| <= |s|
  {
    if s != "" && IsSpace(s[0]) then SkipSpace(s[1..]) else s
  }

  /** A fraction or an exponent follows, so the number is a float. */
  predicate FloatFollows(s: string) {
    || (|s| > 1 && s[0] == '.' && IsDigit(s[1]))
    || (|s| > 1 && s[0] in "eE" && IsDigit(s[1]))
    || (|s| > 2 && s[0] in "eE" && s[1] in "+-" && IsDigit(s[2]))
  }

  function ReadNatural(t: string): (r: Option<(nat, string)>)
    ensures r.Some? ==> |r.value.1| < |t|
  {
    var k := if t != "" && t[0] == '0' then 1 else DigitRun(t);
    if k == 0 || FloatFollows(t[k..]) then None
    else
      assert forall i :: 0 <= i < k ==> IsDigit(t[i]);
      Some((NumberOf(t[..k]), t[k..]))
  }

  function ReadNumber(s: string): (r: Option<(Json, string)>)
    ensures r.Some? ==> |r.value.1| < |s|
  {
    var negative := s != "" && s[0] == '-';
    match ReadNatural(if negative then s[1..] else s)
    case None => None
    case Some((n, rest)) => Some((Num(if negative then -(n as int) else n), rest))
  }

  /** dict(pairs): a repeated key keeps its first place and takes its last value. */
  function DictOf(pairs: Entries): Entries {
    if pairs == [] then []
    else Put(DictOf(pairs[..|pairs| - 1]), pairs[|pairs| - 1].key, pairs[|pairs| - 1].value)
  }

  function ReadValue(s: string): (r: Option<(Json, string)>)
    ensures r.Some? ==> |r.value.1| < |s|
    decreases |s|, 1
  {
    if s == "" then None
    else if s[0] == '"' then
      match ReadChars(s[1..])
      case None => None
      case Some((cs, rest)) => Some((Str(cs), rest))
    else if s[0] == '[' then
      var t := SkipSpace(s[1..]);
      if t != "" && t[0] == ']' then Some((Arr([]), t[1..]))
      else
        match ReadItems(t)
        case None => None
        case Some((items, rest)) => Some((Arr(items), rest))
    else if s[0] == '{' then
      var t := SkipSpace(s[1..]);
      if t != "" && t[0] == '}' then Some((Obj([]), t[1..]))
      else
        match ReadEntries(t)
        case None => None
        case Some((pairs, rest)) => Some((Obj(DictOf(pairs)), rest))
    else if s[0] == 'n' then if "null" <= s then Some((Null, s[4..])) else None
    else if s[0] == 't' then if "true" <= s then Some((Bool(true), s[4..])) else None
    else if s[0] == 'f' then if "false" <= s then Some((Bool(false), s[5..])) else None
    else ReadNumber(s)
  }

  /** One or more values separated by commas, and the closing bracket. */
  function ReadItems(s: string): (r: Option<(seq<Json>, string)>)
    ensures r.Some? ==> |r.value.1| < |s|
    decreases |s|, 2
  {
    match ReadValue(s)
    case None => None
    case Some((v, after)) =>
      var t := SkipSpace(after);
      if t == "" then None
      else if t[0] == ']' then Some(([v], t[1..]))
      else if t[0] != ',' then None
      else
        match ReadItems(SkipSpace(t[1..]))
        case None => None
        case Some((vs, rest)) => Some(([v] + vs, rest))
  }

  /** One or more keys with values separated by commas, and the closing brace. */
  function ReadEntries(s: string): (r: Option<(Entries, string)>)
    ensures r.Some? ==> |r.value.1| < |s|
    decreases |s|, 2
  {
    if s == "" || s[0] != '"' then None
    else
      match ReadChars(s[1..])
      case None => None
      case Some((k, afterKey)) =>
        var colon := SkipSpace(afterKey);
        if colon == "" || colon[0] != ':' then None
        else
          match ReadValue(SkipSpace(colon[1..]))
          case None => None
          case Some((v, after)) =>
            var t := SkipSpace(after);
            if t == "" then None
            else if t[0] == '}' then Some(([Entry(k, v)], t[1..]))
            else if t[0] != ',' then None
            else
              match ReadEntries(SkipSpace(t[1..]))
              case None => None
              case Some((es, rest)) => Some(([Entry(k, v)] + es, rest))
  }

  /** json.loads on text: one value with nothing but space around it. */
  function Parse(s: string): Option<Json> {
    match ReadValue(SkipSpace(s))
    case None => None
    case Some((v, rest)) => if SkipSpace(rest) == "" then Some(v) else None
  }

  // ----- reading back what was printed -----

  /** The text does not carry a number on: no digit, fraction or exponent. */
  predicate Delimited(rest: string) { (rest == "" || !IsDigit(rest[0])) && !FloatFollows(rest) }

  /** How a printed value starts. */
  lemma PrintStart(v: Json)
    ensures Print(v) != "" && !IsSpace(Print(v)[0]) && Print(v)[0] != ']'
  {
  }

  lemma {:induction false} ReadDigits(n: nat, rest: string)
    requires Delimited(rest)
    ensures ReadNatural(Digits(n) + rest) == Some((n, rest))
  {
    var ds := Digits(n);
    var t := ds + rest;
    assert t[0] == ds[0] && IsDigit(ds[0]);
    DigitRunIs(ds, rest);
    assert t[..|ds|] == ds && t[|ds|..] == rest;
    NumberOfDigits(n);
  }

  lemma {:induction false} ReadPositive(n: nat, rest: string)
    requires Delimited(rest)
    ensures ReadValue(Digits(n) + rest) == Some((Num(n), rest))
  {
    var s := Digits(n) + rest;
    ReadDigits(n, rest);
    assert s[0] == Digits(n)[0] && IsDigit(s[0]);
    NumberValue(s);
  }

  lemma {:induction false} ReadNegative(n: nat, rest: string)
    requires Delimited(rest)
    ensures ReadValue("-" + Digits(n) + rest) == Some((Num(-(n as int)), rest))
  {
    var s := "-" + Digits(n) + rest;
    ReadDigits(n, rest);
    assert s == ['-'] + (Digits(n) + rest);
    assert s[0] == '-' && s[1..] == Digits(n) + rest;
    NumberValue(s);
  }

  lemma {:induction false} ReadDecimal(n: int, rest: string)
    requires Delimited(rest)
    ensures ReadValue(Decimal(n) + rest) == Some((Num(n), rest))
  {
    if n < 0 { ReadNegative(-n, rest); } else { ReadPositive(n, rest); }
  }

  lemma {:induction false} NumberValue(s: string)
    requires s != "" && (s[0] == '-' || IsDigit(s[0]))
    ensures ReadValue(s) == ReadNumber(s)
  {
  }

  lemma {:induction false} ReadQuoted(x: string, rest: string)
    ensures ReadValue(Quote(x) + rest) == Some((Str(x), rest))
  {
    var s := Quote(x) + rest;
    ReadEscaped(x, rest);
    assert s[1..] == Escape(x) + "\"" + rest;
  }

  lemma {:induction false} ReadLiteral(v: Json, rest: string)
    requires v.Null? || v.Bool?
    ensures ReadValue(Print(v) + rest) == Some((v, rest))
  {
  }

  lemma {:induction false} DictOfUnique(es: Entries)
    requires UniqueKeys(es)
    ensures DictOf(es) == es
  {
    if es != [] {
      var front, last := es[..|es| - 1], es[|es| - 1];
      DictOfUnique(front);
      PutNew(front, last);
      assert front + [last] == es;
    }
  }

  lemma PutNew(es: Entries, e: Entry)
    requires !HasKey(es, e.key)
    ensures Put(es, e.key, e.value) == es + [e]
  {
  }

  lemma {:induction false} ReadArray(items: seq<Json>, t: string, rest: string)
    requires t != "" && !IsSpace(t[0]) && t[0] != ']' && ReadItems(t) == Some((items, rest))
    ensures ReadValue("[" + t) == Some((Arr(items), rest))
  {
  }

  lemma {:induction false} ReadObject(es: Entries, t: string, rest: string)
    requires t != "" && t[0] == '"' && ReadEntries(t) == Some((es, rest)) && UniqueKeys(es)
    ensures ReadValue("{" + t) == Some((Obj(es), rest))
  {
    assert ("{" + t)[1..] == t;
    DictOfUnique(es);
  }

  lemma {:induction false} ReadEmpty(rest: string)
    ensures ReadValue("[]" + rest) == Some((Arr([]), rest))
    ensures ReadValue("{}" + rest) == Some((Obj([]), rest))
  {
  }

  lemma {:induction false} ReadLastItem(s: string, v: Json, rest: string)
    requires ReadValue(s) == Some((v, "]" + rest))
    ensures ReadItems(s) == Some(([v], rest))
  {
  }

  lemma {:induction false} ReadNextItem(s: string, v: Json, t: string, vs: seq<Json>, rest: string)
    requires ReadValue(s) == Some((v, "," + t)) && t != "" && !IsSpace(t[0]) && ReadItems(t) == Some((vs, rest))
    ensures ReadItems(s) == Some(([v] + vs, rest))
  {
  }

  lemma {:induction false} ReadLastEntry(s: string, k: string, v: Json, u: string, rest: string)
    requires s != "" && s[0] == '"' && ReadChars(s[1..]) == Some((k, ":" + u))
    requires u != "" && !IsSpace(u[0]) && ReadValue(u) == Some((v, "}" + rest))
    ensures ReadEntries(s) == Some(([Entry(k, v)], rest))
  {
  }

  lemma {:induction false} ReadNextEntry(s: string, k: string, v: Json, u: string, t: string, es: Entries, rest: string)
    requires s != "" && s[0] == '"' && ReadChars(s[1..]) == Some((k, ":" + u))
    requires u != "" && !IsSpace(u[0]) && ReadValue(u) == Some((v, "," + t))
    requires t != "" && !IsSpace(t[0]) && ReadEntries(t) == Some((es, rest))
    ensures ReadEntries(s) == Some(([Entry(k, v)] + es, rest))
  {
    assert SkipSpace(":" + u) == ":" + u && (":" + u)[1..] == u && SkipSpace(u) == u;
    assert SkipSpace("," + t) == "," + t && ("," + t)[1..] == t && SkipSpace(t) == t;
  }

  lemma QuotedThen(word: string, u: string)
    ensures var s := "\"" + word + "\"" + ":" + u;
            s[0] == '"' && s[1..] == word + "\"" + (":" + u)
  {
  }

  lemma {:induction false} PrintedThen(v: Json, after: string)
    ensures var u := Print(v) + after;
            u != "" && !IsSpace(u[0])
  {
    PrintStart(v);
    assert (Print(v) + after)[0] == Print(v)[0];
  }

  lemma {:induction false} ReadKey(k: string, v: Json, after: string)
    ensures var u := Print(v) + after;
            && u != "" && !IsSpace(u[0])
            && (Quote(k) + ":" + u)[0] == '"' && ReadChars((Quote(k) + ":" + u)[1..]) == Some((k, ":" + u))
  {
    var u := Print(v) + after;
    PrintedThen(v, after);
    QuotedThen(Escape(k), u);
    ReadEscaped(k, ":" + u);
  }

  lemma {:induction false} ReadPrintedArray(items: seq<Json>, rest: string)
    requires items != [] ==> ReadItems(PrintItems(items) + "]" + rest) == Some((items, rest))
    ensures ReadValue(Print(Arr(items)) + rest) == Some((Arr(items), rest))
  {
    if items == [] {
      ReadEmpty(rest);
      assert Print(Arr(items)) + rest == "[]" + rest;
    } else {
      var t := PrintItems(items) + "]" + rest;
      assert Print(Arr(items)) + rest == "[" + t;
      ItemsStart(items, rest);
      ReadArray(items, t, rest);
    }
  }

  lemma {:induction false} ReadPrintedObject(es: Entries, rest: string)
    requires UniqueKeys(es) && (es != [] ==> ReadEntries(PrintEntries(es) + "}" + rest) == Some((es, rest)))
    ensures ReadValue(Print(Obj(es)) + rest) == Some((Obj(es), rest))
  {
    if es == [] {
      ReadEmpty(rest);
      assert Print(Obj(es)) + rest == "{}" + rest;
    } else {
      var t := PrintEntries(es) + "}" + rest;
      EntriesStart(es, rest);
      ReadObject(es, t, rest);
      ObjectText(es, rest);
    }
  }

  lemma {:induction false} ObjectText(es: Entries, rest: string)
    ensures Print(Obj(es)) + rest == "{" + (PrintEntries(es) + "}" + rest)
  {
  }

  lemma LastText(key: string, value: string, rest: string)
    ensures key + ":" + value + "}" + rest == key + ":" + (value + ("}" + rest))
  {
  }

  lemma PrintLastEntry(k: string, v: Json)
    ensures PrintEntries([Entry(k, v)]) == Quote(k) + ":" + Print(v)
  {
  }

  lemma {:induction false} ReadSingleEntry(k: string, v: Json, rest: string)
    requires ReadValue(Print(v) + ("}" + rest)) == Some((v, "}" + rest))
    ensures ReadEntries(PrintEntries([Entry(k, v)]) + "}" + rest) == Some(([Entry(k, v)], rest))
  {
    var after := "}" + rest;
    PrintLastEntry(k, v);
    LastText(Quote(k), Print(v), rest);
    ReadKey(k, v, after);
    ReadLastEntry(Quote(k) + ":" + (Print(v) + after), k, v, Print(v) + after, rest);
  }

  lemma NextText(key: string, value: string, more: string, rest: string)
    ensures key + ":" + value + ("," + more) + "}" + rest == key + ":" + (value + ("," + (more + "}" + rest)))
  {
  }

  lemma {:induction false} EntriesText(es: Entries, rest: string)
    requires |es| > 1
    ensures PrintEntries(es) + "}" + rest
            == Quote(es[0].key) + ":" + (Print(es[0].value) + ("," + (PrintEntries(es[1..]) + "}" + rest)))
  {
    NextText(Quote(es[0].key), Print(es[0].value), PrintEntries(es[1..]), rest);
  }

  lemma {:induction false} EntriesStart(es: Entries, rest: string)
    requires es != []
    ensures (PrintEntries(es) + "}" + rest)[0] == '"'
  {
  }

  lemma {:induction false} ReadFirstEntry(es: Entries, t: string, rest: string)
    requires |es| > 1 && t == PrintEntries(es[1..]) + "}" + rest
    requires ReadEntries(t) == Some((es[1..], rest))
    requires ReadValue(Print(es[0].value) + ("," + t)) == Some((es[0].value, "," + t))
    ensures ReadEntries(PrintEntries(es) + "}" + rest) == Some((es, rest))
  {
    EntriesText(es, rest);
    EntriesStart(es[1..], rest);
    ReadKey(es[0].key, es[0].value, "," + t);
    assert [es[0]] + es[1..] == es;
    ReadNextEntry(PrintEntries(es) + "}" + rest, es[0].key, es[0].value, Print(es[0].value) + ("," + t), t, es[1..],
                  rest);
  }

  /** Reading a printed value gives the value back and leaves what follows it, which must not carry a number on. */
  lemma {:induction false} ReadPrinted(v: Json, rest: string)
    requires WellFormed(v) && (v.Num? ==> Delimited(rest))
    ensures ReadValue(Print(v) + rest) == Some((v, rest))
    decreases v, 1
  {
    match v
    case Null => ReadLiteral(v, rest);
    case Bool(b) => ReadLiteral(v, rest);
    case Num(n) => ReadDecimal(n, rest);
    case Str(x) => ReadQuoted(x, rest);
    case Arr(items) =>
      if items != [] { ReadPrintedItems(items, rest); }
      ReadPrintedArray(items, rest);
    case Obj(es) =>
      if es != [] { ReadPrintedEntries(es, rest); }
      ReadPrintedObject(es, rest);
  }

  lemma {:induction false} ItemsText(items: seq<Json>, rest: string)
    requires |items| > 1
    ensures PrintItems(items) + "]" + rest == Print(items[0]) + ("," + (PrintItems(items[1..]) + "]" + rest))
  {
  }

  lemma {:induction false} ItemsStart(items: seq<Json>, rest: string)
    requires items != []
    ensures var t := PrintItems(items) + "]" + rest; t != "" && !IsSpace(t[0]) && t[0] != ']'
  {
    PrintStart(items[0]);
    assert PrintItems(items)[0] == Print(items[0])[0];
  }

  lemma {:induction false} ReadPrintedItems(items: seq<Json>, rest: string)
    requires items != [] && forall i :: 0 <= i < |items| ==> WellFormed(items[i])
    ensures ReadItems(PrintItems(items) + "]" + rest) == Some((items, rest))
    decreases items, 0
  {
    if |items| == 1 {
      assert PrintItems(items) + "]" + rest == Print(items[0]) + ("]" + rest);
      ReadPrinted(items[0], "]" + rest);
      ReadLastItem(Print(items[0]) + ("]" + rest), items[0], rest);
      assert items == [items[0]];
    } else {
      var t := PrintItems(items[1..]) + "]" + rest;
      ReadPrinted(items[0], "," + t);
      ReadPrintedItems(items[1..], rest);
      ReadFirstItem(items, t, rest);
    }
  }

  lemma {:induction false} ReadFirstItem(items: seq<Json>, t: string, rest: string)
    requires |items| > 1 && t == PrintItems(items[1..]) + "]" + rest && ReadItems(t) == Some((items[1..], rest))
    requires ReadValue(Print(items[0]) + ("," + t)) == Some((items[0], "," + t))
    ensures ReadItems(PrintItems(items) + "]" + rest) == Some((items, rest))
  {
    ItemsText(items, rest);
    ItemsStart(items[1..], rest);
    assert [items[0]] + items[1..] == items;
    ReadNextItem(PrintItems(items) + "]" + rest, items[0], t, items[1..], rest);
  }

  lemma {:induction false} ReadPrintedEntries(es: Entries, rest: string)
    requires es != [] && forall i :: 0 <= i < |es| ==> WellFormed(es[i].value)
    ensures ReadEntries(PrintEntries(es) + "}" + rest) == Some((es, rest))
    decreases es, 0
  {
    if |es| == 1 {
      ReadPrinted(es[0].value, "}" + rest);
      ReadSingleEntry(es[0].key, es[0].value, rest);
      assert es == [Entry(es[0].key, es[0].value)];
    } else {
      var t := PrintEntries(es[1..]) + "}" + rest;
      ReadPrinted(es[0].value, "," + t);
      ReadPrintedEntries(es[1..], rest);
      ReadFirstEntry(es, t, rest);
    }
  }

  lemma {:induction false} ParsePrinted(v: Json)
    requires WellFormed(v)
    ensures Parse(Print(v)) == Some(v)
  {
    PrintStart(v);
    ReadPrinted(v, "");
    assert Print(v) + "" == Print(v);
  }

  // ----- what the reader returns is a dict at every level -----

  /** A key is in the dict when some pair has it, and holds the value of the last pair that has it. */
  lemma {:induction false} DictOfLast(pairs: Entries, i: nat)
    requires i < |pairs| && forall j :: i < j < |pairs| ==> pairs[j].key != pairs[i].key
    ensures Get(DictOf(pairs), pairs[i].key) == pairs[i].value && Has(DictOf(pairs), pairs[i].key)
  {
    var front, last := pairs[..|pairs| - 1], pairs[|pairs| - 1];
    PutGet(DictOf(front), last.key, last.value, pairs[i].key);
    if i < |front| { DictOfLast(front, i); }
  }

  lemma {:induction false} DictOfKeys(pairs: Entries, k: string)
    ensures Has(DictOf(pairs), k) <==> HasKey(pairs, k)
  {
    if pairs != [] {
      var front, last := pairs[..|pairs| - 1], pairs[|pairs| - 1];
      PutGet(DictOf(front), last.key, last.value, k);
      DictOfKeys(front, k);
      assert pairs == front + [last];
      assert HasKey(pairs, k) <==> HasKey(front, k) || k == last.key by {
        if HasKey(front, k) {
          var i :| 0 <= i < |front| && front[i].key == k;
          assert pairs[i].key == k;
        }
        if last.key == k { assert pairs[|front|].key == k; }
      }
    }
  }

  /** An object read from text holds under each key the last value given for it. */
  lemma {:induction false} ReadKeepsLast(s: string, i: nat)
    requires s != "" && s[0] == '{' && ReadEntries(SkipSpace(s[1..])).Some?
    requires var pairs := ReadEntries(SkipSpace(s[1..])).value.0;
             i < |pairs| && forall j :: i < j < |pairs| ==> pairs[j].key != pairs[i].key
    ensures var pairs := ReadEntries(SkipSpace(s[1..])).value.0;
            && ReadValue(s).Some? && ReadValue(s).value.0.Obj?
            && Get(ReadValue(s).value.0.entries, pairs[i].key) == pairs[i].value
            && forall k :: Has(ReadValue(s).value.0.entries, k) <==> HasKey(pairs, k)
  {
    var pairs := ReadEntries(SkipSpace(s[1..])).value.0;
    DictOfLast(pairs, i);
    forall k ensures Has(DictOf(pairs), k) <==> HasKey(pairs, k) { DictOfKeys(pairs, k); }
  }

  lemma {:induction false} DictOfWellFormed(pairs: Entries)
    requires forall i :: 0 <= i < |pairs| ==> WellFormed(pairs[i].value)
    ensures WellFormed(Obj(DictOf(pairs)))
  {
    if pairs != [] {
      var front, last := pairs[..|pairs| - 1], pairs[|pairs| - 1];
      DictOfWellFormed(front);
      PutKeys(DictOf(front), last.key, last.value);
      PutValues(DictOf(front), last.key, last.value);
    }
  }

  lemma PutValues(es: Entries, k: string, v: Json)
    requires WellFormed(v) && forall i :: 0 <= i < |es| ==> WellFormed(es[i].value)
    ensures forall i :: 0 <= i < |Put(es, k, v)| ==> WellFormed(Put(es, k, v)[i].value)
  {
  }

  lemma {:induction false} ReadWellFormed(s: string)
    ensures ReadValue(s).Some? ==> WellFormed(ReadValue(s).value.0)
    decreases |s|, 1
  {
    if s != "" && s[0] == '[' {
      ReadItemsWellFormed(SkipSpace(s[1..]));
    } else if s != "" && s[0] == '{' {
      var t := SkipSpace(s[1..]);
      ReadEntriesWellFormed(t);
      if ReadEntries(t).Some? { DictOfWellFormed(ReadEntries(t).value.0); }
    }
  }

  lemma {:induction false} ReadItemsWellFormed(s: string)
    ensures ReadItems(s).Some? ==> forall i :: 0 <= i < |ReadItems(s).value.0| ==> WellFormed(ReadItems(s).value.0[i])
    decreases |s|, 2
  {
    ReadWellFormed(s);
    if ReadValue(s).Some? {
      var t := SkipSpace(ReadValue(s).value.1);
      if t != "" && t[0] == ',' { ReadItemsWellFormed(SkipSpace(t[1..])); }
    }
  }

  lemma {:induction false} ReadEntriesWellFormed(s: string)
    ensures ReadEntries(s).Some?
            ==> forall i :: 0 <= i < |ReadEntries(s).value.0| ==> WellFormed(ReadEntries(s).value.0[i].value)
    decreases |s|, 2
  {
    if s != "" && s[0] == '"' && ReadChars(s[1..]).Some? {
      var colon := SkipSpace(ReadChars(s[1..]).value.1);
      if colon != "" && colon[0] == ':' {
        var u := SkipSpace(colon[1..]);
        ReadWellFormed(u);
        if ReadValue(u).Some? {
          var t := SkipSpace(ReadValue(u).value.1);
          if t != "" && t[0] == ',' { ReadEntriesWellFormed(SkipSpace(t[1..])); }
        }
      }
    }
  }
}

/** The exact bytes of one value, and readings of text that the printer never writes. */
module CanonicalExamples {
  import opened Prelude
  import opened JsonValue
  import opened CanonicalOrder
  import opened JsonText
  import opened Utf8
  import opened CanonicalJson

  // ----- bytes of plain text -----

  predicate IsAscii(s: string) { forall i :: 0 <= i < |s| ==> s[i] < '\U{0080}' }

  /** One byte for each character. */
  function Ascii(s: string): (b: Bytes)
    requires IsAscii(s)
    ensures |b| == |s| && forall i :: 0 <= i < |b| ==> b[i] as int == s[i] as int
  {
    if s == "" then [] else [s[0] as int] + Ascii(s[1..])
  }

  /** Text below U+0080 is its own encoding. */
  lemma {:induction false} AsciiIsPlain(s: string)
    requires IsAscii(s)
    ensures Encode(s) == Ascii(s)
  {
    if s != "" { AsciiIsPlain(s[1..]); }
  }

  lemma {:induction false} EncodeConcat(x: string, y: string)
    ensures Encode(x + y) == Encode(x) + Encode(y)
  {
    if x == "" {
      assert x + y == y;
    } else {
      EncodeConcat(x[1..], y);
      assert (x + y)[0] == x[0] && (x + y)[1..] == x[1..] + y;
    }
  }

  /** One character of each longer form. */
  lemma {:induction false} LongerForms()
    ensures EncodeChar('\U{00E9}') == [0xC3, 0xA9] && EncodeChar('\U{20AC}') == [0xE2, 0x82, 0xAC]
    ensures EncodeChar('\U{1F600}') == [0xF0, 0x9F, 0x98, 0x80]
  {
  }

  lemma {:induction false} EncodeOne(c: char)
    ensures Encode([c]) == EncodeChar(c)
  {
    assert [c][1..] == "" && Encode("") == [];
  }

  // ----- one value -----

  const WORD := "\U{00E9}\n\"\U{001F}\U{1F600}"
  const LIST := [Num(-120), Bool(true), Null]

  /** The key b was written first. */
  const SAMPLE := Obj([Entry("b", Arr(LIST)), Entry("a", Str(WORD))])

  lemma {:induction false} SampleNormal()
    ensures Normal(SAMPLE) == Obj([Entry("a", Str(WORD)), Entry("b", Arr(LIST))])
  {
    assert NormalItems(LIST) == LIST;
    var x, y := SAMPLE.entries[0], SAMPLE.entries[1];
    assert NormalEntries([x, y]) == [x, y];
    assert [x, y][1..] == [y] && [y][1..] == [];
    assert SortByKey([y]) == [y];
    assert !Less("b", "a");
    assert InsertByKey(x, [y]) == [y] + InsertByKey(x, []);
  }

  lemma {:induction false} EscapeCons(c: char, s: string)
    ensures Escape([c] + s) == EscapeChar(c) + Escape(s)
  {
    assert ([c] + s)[1..] == s;
  }

  lemma {:induction false} EscapedWord()
    ensures Escape(WORD) == "\U{00E9}" + "\\n\\\"\\u001f" + "\U{1F600}"
  {
    EscapeCons('\U{1F600}', "");
    EscapeCons('\U{001F}', "\U{1F600}");
    EscapeCons('"', "\U{001F}\U{1F600}");
    EscapeCons('\n', "\"\U{001F}\U{1F600}");
    EscapeCons('\U{00E9}', "\n\"\U{001F}\U{1F600}");
    assert ['\U{1F600}'] + "" == "\U{1F600}";
    assert ['\U{001F}'] + "\U{1F600}" == "\U{001F}\U{1F600}";
    assert ['"'] + "\U{001F}\U{1F600}" == "\"\U{001F}\U{1F600}";
    assert ['\n'] + "\"\U{001F}\U{1F600}" == "\n\"\U{001F}\U{1F600}";
    assert ['\U{00E9}'] + "\n\"\U{001F}\U{1F600}" == WORD;
  }

  lemma {:induction false} PrintCons(v: Json, rest: seq<Json>)
    requires rest != []
    ensures PrintItems([v] + rest) == Print(v) + "," + PrintItems(rest)
  {
    assert ([v] + rest)[1..] == rest;
  }

  lemma {:induction false} PrintedNumber()
    ensures Decimal(-120) == "-120"
  {
    assert Digits(12) == Digits(1) + "2" && Digits(120) == Digits(12) + "0";
  }

  lemma {:induction false} PrintedList()
    ensures Print(Arr(LIST)) == "[-120,true,null]"
  {
    PrintedNumber();
    PrintCons(Num(-120), [Bool(true), Null]);
    PrintCons(Bool(true), [Null]);
    assert [Bool(true)] + [Null] == [Bool(true), Null] && [Num(-120)] + [Bool(true), Null] == LIST;
    assert PrintItems([Null]) == "null";
  }

  lemma {:induction false} PrintTwo(k: string, v: Json, l: string, w: Json)
    ensures Print(Obj([Entry(k, v), Entry(l, w)]))
            == "{" + (Quote(k) + ":" + Print(v) + ("," + (Quote(l) + ":" + Print(w)))) + "}"
  {
    var es := [Entry(k, v), Entry(l, w)];
    assert es[1..] == [Entry(l, w)];
    PrintLastEntry(l, w);
    assert PrintEntries(es) == Quote(k) + ":" + Print(v) + ("," + PrintEntries(es[1..]));
  }

  lemma {:induction false} QuotedLetter(c: char)
    requires 'a' <= c <= 'z'
    ensures Quote([c]) == "\"" + [c] + "\""
  {
    EscapeCons(c, "");
    assert [c] + "" == [c];
  }

  lemma {:induction false} Assembled(first: string, second: string, word: string, list: string, text: string)
    requires first == "\"a\"" && second == "\"b\""
    requires text == "{" + (first + ":" + ("\"" + word + "\"") + ("," + (second + ":" + list))) + "}"
    ensures text == "{\"a\":\"" + word + ("\",\"b\":" + list + "}")
  {
  }

  lemma PrintedWord(word: string)
    ensures Print(Str(word)) == "\"" + Escape(word) + "\""
  {
  }

  lemma {:induction false} PrintedPair(word: string, list: Json, a: string, b: string)
    requires a == "a" && b == "b"
    ensures Print(Obj([Entry(a, Str(word)), Entry(b, list)]))
            == "{\"a\":\"" + Escape(word) + ("\",\"b\":" + Print(list) + "}")
  {
    QuotedLetter('a');
    QuotedLetter('b');
    PrintTwo(a, Str(word), b, list);
    PrintedWord(word);
    Assembled(Quote(a), Quote(b), Escape(word), Print(list), Print(Obj([Entry(a, Str(word)), Entry(b, list)])));
  }

  lemma {:induction false} SampleText()
    ensures Print(Normal(SAMPLE)) == "{\"a\":\"" + Escape(WORD) + ("\",\"b\":" + Print(Arr(LIST)) + "}")
  {
    SampleNormal();
    PrintedPair(WORD, Arr(LIST), "a", "b");
  }

  lemma {:induction false} EncodedText(word: string, tail: string)
    requires word == "\U{00E9}" + "\\n\\\"\\u001f" + "\U{1F600}" && tail == "\",\"b\":[-120,true,null]}"
    ensures Encode("{\"a\":\"" + word + tail)
            == Ascii("{\"a\":\"") + ([0xC3, 0xA9] + Ascii("\\n\\\"\\u001f") + [0xF0, 0x9F, 0x98, 0x80])
               + Ascii("\",\"b\":[-120,true,null]}")
  {
    LongerForms();
    EncodeOne('\U{00E9}');
    EncodeOne('\U{1F600}');
    EncodeParts("{\"a\":\"", "\U{00E9}", "\\n\\\"\\u001f", "\U{1F600}", tail);
  }

  /** Keys in order, no spaces, the two short escapes and one by code, and the other characters in UTF-8. */
  lemma {:induction false} SampleBytes()
    ensures Canon(SAMPLE) == Ascii("{\"a\":\"")
                             + ([0xC3, 0xA9] + Ascii("\\n\\\"\\u001f") + [0xF0, 0x9F, 0x98, 0x80])
                             + Ascii("\",\"b\":[-120,true,null]}")
  {
    var tail := "\",\"b\":" + Print(Arr(LIST)) + "}";
    SampleText();
    EscapedWord();
    PrintedList();
    TailText(Print(Arr(LIST)), tail);
    EncodedText(Escape(WORD), tail);
  }

  lemma {:induction false} TailText(list: string, tail: string)
    requires list == "[-120,true,null]" && tail == "\",\"b\":" + list + "}"
    ensures tail == "\",\"b\":[-120,true,null]}"
  {
  }

  lemma {:induction false} EncodeParts(a: string, b: string, c: string, d: string, e: string)
    requires IsAscii(a) && IsAscii(c) && IsAscii(e)
    ensures Encode(a + (b + c + d) + e) == Ascii(a) + (Encode(b) + Ascii(c) + Encode(d)) + Ascii(e)
  {
    AsciiIsPlain(a);
    AsciiIsPlain(c);
    AsciiIsPlain(e);
    EncodeConcat(b, c);
    EncodeConcat(b + c, d);
    EncodeConcat(a, b + c + d);
    EncodeConcat(a + (b + c + d), e);
  }

  // ----- reading what the printer never writes -----

  /** Space before a value does not matter. */
  lemma {:induction false} LeadingSpace(c: char, s: string)
    requires c == ' ' || c == '\n' || c == '\t' || c == '\r'
    ensures Parse([c] + s) == Parse(s)
  {
    assert ([c] + s)[1..] == s;
  }

  /** The sixteen digits in either case, and the number four of them spell. */
  lemma {:induction false} HexSpelt(s: string, a: nat, b: nat, c: nat, d: nat)
    requires |s| >= 4 && a < 16 && b < 16 && c < 16 && d < 16
    requires IsHex(s[0], a) && IsHex(s[1], b) && IsHex(s[2], c) && IsHex(s[3], d)
    ensures Hex4(s) == Some(a * 0x1000 + b * 0x100 + c * 0x10 + d)
  {
    HexSpeltOnce(s[0], a);
    HexSpeltOnce(s[1], b);
    HexSpeltOnce(s[2], c);
    HexSpeltOnce(s[3], d);
  }

  predicate IsHex(c: char, d: nat)
    requires d < 16
  {
    c == "0123456789abcdef"[d] || c == "0123456789ABCDEF"[d]
  }

  lemma {:induction false} HexSpeltOnce(c: char, d: nat)
    requires d < 16 && IsHex(c, d)
    ensures HexValue(c) == Some(d)
  {
    var small, large := "0123456789abcdef", "0123456789ABCDEF";
    assert forall i :: 0 <= i < 10 ==> small[i] as int == 48 + i && large[i] as int == 48 + i;
    assert forall i :: 10 <= i < 16 ==> small[i] as int == 87 + i && large[i] as int == 55 + i;
  }

  /** Four hex digits of either case name a character that is not a surrogate. */
  lemma {:induction false} EscapeByCode(hex: string, code: nat, rest: string)
    requires |hex| == 4 && Hex4(hex) == Some(code) && (code < 0xD800 || 0xE000 <= code)
    ensures Unescape("u" + hex + rest) == Some((code as char, rest))
  {
    var s := "u" + hex + rest;
    assert s[1..][..4] == hex && s[5..] == rest;
    HexPrefix(hex, rest);
    assert s[1..] == hex + rest;
  }

  lemma {:induction false} HexPrefix(hex: string, rest: string)
    requires |hex| == 4
    ensures Hex4(hex + rest) == Hex4(hex)
  {
    assert (hex + rest)[0] == hex[0] && (hex + rest)[1] == hex[1];
    assert (hex + rest)[2] == hex[2] && (hex + rest)[3] == hex[3];
  }

  /** Two surrogates, high and low, name the one character beyond U+FFFF that they encode. */
  lemma {:induction false} EscapeByPair(high: string, h: nat, low: string, l: nat, rest: string)
    requires |high| == 4 && Hex4(high) == Some(h) && 0xD800 <= h < 0xDC00
    requires |low| == 4 && Hex4(low) == Some(l) && 0xDC00 <= l < 0xE000
    ensures Unescape("u" + high + "\\u" + low + rest)
            == Some(((0x10000 + (h - 0xD800) * 0x400 + (l - 0xDC00)) as char, rest))
  {
    var s := "u" + high + "\\u" + low + rest;
    HexPrefix(high, "\\u" + low + rest);
    HexPrefix(low, rest);
    assert s[1..] == high + ("\\u" + low + rest) && s[7..] == low + rest && s[11..] == rest;
    assert s[5] == '\\' && s[6] == 'u';
  }
}

/** The UTF-8 encoding of RFC 3629 and its strict decoder. */
module Utf8 {
  import opened Prelude

  function EncodeChar(c: char): (b: Bytes)
    ensures 1 <= |b| <= 4
  {
    var n := c as int;
    if n < 0x80 then [n]
    else if n < 0x800 then [0xC0 + n / 0x40, 0x80 + n % 0x40]
    else if n < 0x10000 then [0xE0 + n / 0x1000, 0x80 + n / 0x40 % 0x40, 0x80 + n % 0x40]
    else [0xF0 + n / 0x40000, 0x80 + n / 0x1000 % 0x40, 0x80 + n / 0x40 % 0x40, 0x80 + n % 0x40]
  }

  function Encode(s: string): Bytes {
    if s == "" then [] else EncodeChar(s[0]) + Encode(s[1..])
  }

  predicate Continues(b: Bytes, from: nat, to: nat) {
    to <= |b| && forall i :: from <= i < to ==> 0x80 <= b[i] < 0xC0
  }

  /** The six payload bits of a continuation byte. */
  function Low(b: Byte): int { b as int - 0x80 }

  /** The character with code point n, if there is one of at least that size. */
  function Scalar(n: int, least: nat): (r: Option<char>)
    ensures r.Some? <==> (least <= n < 0xD800 || (least <= n && 0xE000 <= n < 0x110000))
    ensures r.Some? ==> r.value as int == n
  {
    if least <= n && (0 <= n < 0xD800 || 0xE000 <= n < 0x110000) then Some(n as char) else None
  }

  function WithRest(c: Option<char>, rest: Bytes): Option<(char, Bytes)> {
    match c
    case None => None
    case Some(x) => Some((x, rest))
  }

  /** The first character of b and what follows it; overlong forms and surrogates are refused. */
  function DecodeChar(b: Bytes): (r: Option<(char, Bytes)>)
    ensures r.Some? ==> |r.value.1| < |b|
  {
    if b == [] then None
    else if b[0] < 0x80 then WithRest(Scalar(b[0], 0), b[1..])
    else if 0xC2 <= b[0] < 0xE0 && Continues(b, 1, 2) then
      WithRest(Scalar((b[0] as int - 0xC0) * 0x40 + Low(b[1]), 0x80), b[2..])
    else if 0xE0 <= b[0] < 0xF0 && Continues(b, 1, 3) then
      WithRest(Scalar((b[0] as int - 0xE0) * 0x1000 + Low(b[1]) * 0x40 + Low(b[2]), 0x800), b[3..])
    else if 0xF0 <= b[0] < 0xF5 && Continues(b, 1, 4) then
      WithRest(Scalar((b[0] as int - 0xF0) * 0x40000 + Low(b[1]) * 0x1000 + Low(b[2]) * 0x40 + Low(b[3]), 0x10000),
               b[4..])
    else None
  }

  function Decode(b: Bytes): Option<string>
    decreases |b|
  {
    if b == [] then Some("")
    else
      match DecodeChar(b)
      case None => None
      case Some((c, rest)) =>
        match Decode(rest)
        case None => None
        case Some(s) => Some([c] + s)
  }

  /** The base-64 digits of a code point. */
  lemma {:induction false} Digits64(n: nat)
    ensures n == n / 0x40 * 0x40 + n % 0x40
    ensures n / 0x40 == n / 0x1000 * 0x40 + n / 0x40 % 0x40
    ensures n / 0x1000 == n / 0x40000 * 0x40 + n / 0x1000 % 0x40
  {
    assert n / 0x1000 == n / 0x40 / 0x40 && n / 0x40000 == n / 0x1000 / 0x40;
  }

  lemma {:induction false} DecodeEncodedChar(c: char, rest: Bytes)
    ensures DecodeChar(EncodeChar(c) + rest) == Some((c, rest))
  {
    var e := EncodeChar(c);
    var b := e + rest;
    assert b[|e|..] == rest;
    assert b[0] == e[0] && (|e| > 1 ==> b[1] == e[1]) && (|e| > 2 ==> b[2] == e[2]) && (|e| > 3 ==> b[3] == e[3]);
    assert Continues(b, 1, |e|);
    Digits64(c as int);
  }

  lemma {:induction false} Split2(h: int, l: int)
    requires 0 <= l < 0x40
    ensures (h * 0x40 + l) / 0x40 == h && (h * 0x40 + l) % 0x40 == l
  {
  }

  lemma {:induction false} EncodeTwo(h: nat, l: nat, c: char)
    requires 2 <= h < 0x20 && l < 0x40 && c as int == h * 0x40 + l
    ensures EncodeChar(c) == [0xC0 + h, 0x80 + l]
  {
    Split2(h, l);
  }

  lemma {:induction false} EncodeThree(h: nat, m: nat, l: nat, c: char)
    requires h < 0x10 && m < 0x40 && l < 0x40 && c as int == h * 0x1000 + m * 0x40 + l && c as int >= 0x800
    ensures EncodeChar(c) == [0xE0 + h, 0x80 + m, 0x80 + l]
  {
    Split2(h * 0x40 + m, l);
    Split2(h, m);
    assert c as int / 0x1000 == c as int / 0x40 / 0x40;
  }

  lemma {:induction false} EncodeFour(t: nat, h: nat, m: nat, l: nat, c: char)
    requires t < 5 && h < 0x40 && m < 0x40 && l < 0x40
    requires c as int == t * 0x40000 + h * 0x1000 + m * 0x40 + l && c as int >= 0x10000
    ensures EncodeChar(c) == [0xF0 + t, 0x80 + h, 0x80 + m, 0x80 + l]
  {
    var n := c as int;
    Split2((t * 0x40 + h) * 0x40 + m, l);
    Split2(t * 0x40 + h, m);
    Split2(t, h);
    assert n / 0x1000 == n / 0x40 / 0x40 && n / 0x40000 == n / 0x1000 / 0x40;
  }

  lemma {:induction false} EncodeDecodedChar(b: Bytes)
    requires DecodeChar(b).Some?
    ensures EncodeChar(DecodeChar(b).value.0) + DecodeChar(b).value.1 == b
  {
    var c := DecodeChar(b).value.0;
    if b[0] < 0x80 {
      assert b == [b[0]] + b[1..];
    } else if b[0] < 0xE0 {
      EncodeTwo(b[0] as int - 0xC0, Low(b[1]), c);
      assert b == [b[0], b[1]] + b[2..];
    } else if b[0] < 0xF0 {
      EncodeThree(b[0] as int - 0xE0, Low(b[1]), Low(b[2]), c);
      assert b == [b[0], b[1], b[2]] + b[3..];
    } else {
      EncodeFour(b[0] as int - 0xF0, Low(b[1]), Low(b[2]), Low(b[3]), c);
      assert b == [b[0], b[1], b[2], b[3]] + b[4..];
    }
  }

  lemma {:induction false} DecodeEncoded(s: string)
    ensures Decode(Encode(s)) == Some(s)
  {
    if s != "" {
      DecodeEncodedChar(s[0], Encode(s[1..]));
      DecodeEncoded(s[1..]);
      assert [s[0]] + s[1..] == s;
    }
  }

  /** The decoder accepts nothing but encodings, so no two byte strings decode alike. */
  lemma {:induction false} EncodeDecoded(b: Bytes)
    requires Decode(b).Some?
    ensures Encode(Decode(b).value) == b
    decreases |b|
  {
    if b != [] {
      var rest := DecodeChar(b).value.1;
      EncodeDecodedChar(b);
      EncodeDecoded(rest);
      var s := Decode(b).value;
      assert s[1..] == Decode(rest).value;
    }
  }
}

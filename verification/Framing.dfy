/**
 Length-prefixed frames over a byte stream that may be delivered in pieces of any size.
 A Socket holds what the peer will still deliver before it closes, and what was sent to the peer.
 */
module Framing {
  import opened Prelude
  import opened JsonValue
  import opened CanonicalOrder
  import opened CanonicalJson

  const MAX_FRAME: nat := 4 * 1024 * 1024
  const MAX_CHUNK: nat := 65536
  const LENGTH_LIMIT: nat := 0x1_0000_0000

  /** Closed: the peer closed first. Size: the length field is refused. Unreadable: not JSON text. */
  datatype FrameError = Closed | Size | Unreadable

  /** struct.pack('!I', n) */
  function Length4(n: nat): Bytes
    requires n < LENGTH_LIMIT
  {
    [n / 0x100_0000, n / 0x1_0000 % 0x100, n / 0x100 % 0x100, n % 0x100]
  }

  function LengthOf(b: Bytes): nat
    requires |b| == 4
  {
    ((b[0] * 0x100 + b[1] as int) * 0x100 + b[2] as int) * 0x100 + b[3] as int
  }

  function Frame(v: Json): Bytes
    requires |Canon(v)| < LENGTH_LIMIT
  {
    Length4(|Canon(v)|) + Canon(v)
  }

  /** What one receive makes of a stream: its outcome and the bytes left. */
  function Receive(b: Bytes, maxSize: nat): (Result<Json, FrameError>, Bytes) {
    if |b| < 4 then (Err(Closed), [])
    else
      var size := LengthOf(b[..4]);
      if size < 1 || size > maxSize then (Err(Size), b[4..])
      else if |b| < 4 + size then (Err(Closed), [])
      else
        match Loads(b[4..4 + size])
        case None => (Err(Unreadable), b[4 + size..])
        case Some(v) => (Ok(v), b[4 + size..])
  }

  lemma {:induction false} HeadRead(stream: Bytes, head: Bytes, rest: Bytes, maxSize: nat)
    requires |head| == 4 && stream == head + rest
    ensures stream[..4] == head && stream[4..] == rest
    ensures LengthOf(head) < 1 || LengthOf(head) > maxSize ==> Receive(stream, maxSize) == (Err(Size), rest)
  {
  }

  lemma {:induction false} DataCut(stream: Bytes, head: Bytes, data: Bytes, maxSize: nat)
    requires |head| == 4 && stream == head + data && |data| < LengthOf(head) && 1 <= LengthOf(head) <= maxSize
    ensures Receive(stream, maxSize) == (Err(Closed), [])
  {
    HeadRead(stream, head, data, maxSize);
  }

  lemma {:induction false} DataRead(stream: Bytes, head: Bytes, data: Bytes, rest: Bytes, maxSize: nat)
    requires |head| == 4 && stream == head + (data + rest) && |data| == LengthOf(head) && 1 <= |data| <= maxSize
    ensures Receive(stream, maxSize) == (match Loads(data) case None => Err(Unreadable) case Some(v) => Ok(v), rest)
  {
    HeadRead(stream, head, data + rest, maxSize);
    assert stream[4..4 + |data|] == data && stream[4 + |data|..] == rest;
  }

  class Socket {
    var incoming: Bytes
    var outgoing: Bytes

    constructor (incoming: Bytes)
      ensures this.incoming == incoming && outgoing == []
    {
      this.incoming, outgoing := incoming, [];
    }

    /** Any non-empty piece of what is to come, at most n bytes; empty only at the end of the stream. */
    method Recv(n: nat) returns (part: Bytes)
      requires n > 0
      modifies this`incoming
      ensures part + incoming == old(incoming)
      ensures |part| <= n && (part == [] <==> old(incoming) == [])
    {
      if incoming == [] { return []; }
      var k :| 1 <= k <= n && k <= |incoming|;
      part := incoming[..k];
      incoming := incoming[k..];
    }

    /** Fails, sending nothing, when the length does not fit its four bytes. */
    method SendFrame(v: Json) returns (sent: bool)
      modifies this`outgoing
      ensures sent <==> |Canon(v)| < LENGTH_LIMIT
      ensures outgoing == old(outgoing) + if sent then Frame(v) else []
    {
      var raw := Canon(v);
      sent := |raw| < LENGTH_LIMIT;
      if sent { outgoing := outgoing + (Length4(|raw|) + raw); }
    }

    /** Whatever pieces arrive, the outcome and the bytes consumed are those of Receive. */
    method RecvFrame(maxSize: nat := MAX_FRAME) returns (r: Result<Json, FrameError>)
      modifies this`incoming
      ensures (r, incoming) == Receive(old(incoming), maxSize)
    {
      ghost var stream := incoming;
      var head := [];
      while |head| < 4
        invariant |head| <= 4 && head + incoming == stream
      {
        var part := Recv(4 - |head|);
        if part == [] { return Err(Closed); }
        head := head + part;
      }
      HeadRead(stream, head, incoming, maxSize);
      var size := LengthOf(head);
      if size < 1 || size > maxSize { return Err(Size); }
      var data := [];
      while |data| < size
        invariant |data| <= size && head + (data + incoming) == stream
      {
        var part := Recv(if MAX_CHUNK < size - |data| then MAX_CHUNK else size - |data|);
        if part == [] {
          DataCut(stream, head, data, maxSize);
          return Err(Closed);
        }
        data := data + part;
      }
      DataRead(stream, head, data, incoming, maxSize);
      match Loads(data)
      case None => r := Err(Unreadable);
      case Some(v) => r := Ok(v);
    }
  }

  lemma {:induction false} LengthRoundTrip(n: nat)
    requires n < LENGTH_LIMIT
    ensures |Length4(n)| == 4 && LengthOf(Length4(n)) == n
  {
    assert n / 0x1_0000 == n / 0x100_0000 * 0x100 + n / 0x1_0000 % 0x100;
    assert n / 0x100 == n / 0x1_0000 * 0x100 + n / 0x100 % 0x100;
  }

  /** Big-endian: the first byte is the highest, and any four bytes are those of the length they read as. */
  lemma {:induction false} LengthIsBigEndian(n: nat, b: Bytes)
    requires n < LENGTH_LIMIT && |b| == 4
    ensures forall i :: 0 <= i < 4 ==> Length4(n)[i] as int == n / Power256(3 - i) % 256
    ensures LengthOf(b) == b[0] * Power256(3) + b[1] * Power256(2) + b[2] * Power256(1) + b[3] * Power256(0)
  {
    assert Power256(1) == 256 && Power256(2) == 0x1_0000 && Power256(3) == 0x100_0000;
    assert n / 0x100_0000 < 256;
    forall i | 0 <= i < 4 ensures Length4(n)[i] as int == n / Power256(3 - i) % 256 {
      if i == 0 { assert Length4(n)[0] as int == n / 0x100_0000; }
    }
  }

  function Power256(k: nat): (p: nat)
    ensures p > 0
  {
    if k == 0 then 1 else 256 * Power256(k - 1)
  }

  /** A sent value is received, with sorted keys and nothing else consumed, exactly when it fits the limit. */
  lemma {:induction false} ReceiveSent(v: Json, rest: Bytes, maxSize: nat)
    requires WellFormed(v) && |Canon(v)| < LENGTH_LIMIT
    ensures |Canon(v)| <= maxSize ==> Receive(Frame(v) + rest, maxSize) == (Ok(Normal(v)), rest)
    ensures |Canon(v)| > maxSize ==> Receive(Frame(v) + rest, maxSize) == (Err(Size), Canon(v) + rest)
  {
    var n := |Canon(v)|;
    var b := Frame(v) + rest;
    LengthRoundTrip(n);
    CanonNonEmpty(v);
    LoadsCanon(v);
    assert b == Length4(n) + (Canon(v) + rest);
    assert b[..4] == Length4(n) && b[4..] == Canon(v) + rest;
    assert b[4..4 + n] == Canon(v) && b[4 + n..] == rest;
  }

  /** A length of zero is refused like one above the limit, and what follows it is left. */
  lemma {:induction false} ZeroLength(rest: Bytes, maxSize: nat)
    ensures Receive([0, 0, 0, 0] + rest, maxSize) == (Err(Size), rest)
  {
    var b: Bytes := [0, 0, 0, 0] + rest;
    assert b[..4] == [0, 0, 0, 0] && b[4..] == rest;
  }

  /** A stream cut inside a frame yields no value. */
  lemma {:induction false} CutFrame(v: Json, cut: nat, maxSize: nat)
    requires |Canon(v)| < LENGTH_LIMIT && |Canon(v)| <= maxSize && cut < |Frame(v)|
    ensures Receive(Frame(v)[..cut], maxSize) == (Err(Closed), [])
  {
    LengthRoundTrip(|Canon(v)|);
    CanonNonEmpty(v);
    var b := Frame(v)[..cut];
    if cut >= 4 { assert b[..4] == Length4(|Canon(v)|); }
  }

  // ----- whole streams -----

  ghost predicate Sendable(vs: seq<Json>, maxSize: nat) {
    forall i :: 0 <= i < |vs| ==> WellFormed(vs[i]) && |Canon(vs[i])| <= maxSize
  }

  /** The bytes of several sends. */
  function Frames(vs: seq<Json>): Bytes
    requires forall i :: 0 <= i < |vs| ==> |Canon(vs[i])| < LENGTH_LIMIT
  {
    if vs == [] then [] else Frame(vs[0]) + Frames(vs[1..])
  }

  /** The outcomes of k receives in a row and the bytes they leave. */
  function ReceiveMany(b: Bytes, k: nat, maxSize: nat): (seq<Result<Json, FrameError>>, Bytes)
    decreases k
  {
    if k == 0 then ([], b)
    else
      var (r, rest) := Receive(b, maxSize);
      var (rs, end) := ReceiveMany(rest, k - 1, maxSize);
      ([r] + rs, end)
  }

  /** The sent values as a reader returns them. */
  function Delivered(vs: seq<Json>): (r: seq<Result<Json, FrameError>>)
    ensures |r| == |vs| && forall i :: 0 <= i < |vs| ==> r[i] == Ok(Normal(vs[i]))
  {
    if vs == [] then [] else [Ok(Normal(vs[0]))] + Delivered(vs[1..])
  }

  /** As many receives as there were sends return the sent values in order and consume exactly their bytes. */
  lemma {:induction false} ReceiveAllSent(vs: seq<Json>, rest: Bytes, maxSize: nat)
    requires Sendable(vs, maxSize) && maxSize < LENGTH_LIMIT
    ensures ReceiveMany(Frames(vs) + rest, |vs|, maxSize) == (Delivered(vs), rest)
  {
    if vs == [] {
      assert Frames(vs) + rest == rest;
    } else {
      var more := Frames(vs[1..]) + rest;
      assert Frames(vs) + rest == Frame(vs[0]) + more;
      ReceiveSent(vs[0], more, maxSize);
      ReceiveAllSent(vs[1..], rest, maxSize);
    }
  }

  /** The bytes determine the messages: equal streams carry equally many values, equal in turn. */
  lemma {:induction false} StreamDeterminesValues(vs: seq<Json>, ws: seq<Json>, maxSize: nat)
    requires Sendable(vs, maxSize) && Sendable(ws, maxSize) && maxSize < LENGTH_LIMIT
    requires Frames(vs) == Frames(ws) && |vs| <= |ws|
    ensures |vs| == |ws| && forall i :: 0 <= i < |vs| ==> SameValue(vs[i], ws[i])
  {
    var k := |vs|;
    ReceiveAllSent(vs, [], maxSize);
    FramesSplit(ws, k);
    assert Frames(vs) + [] == Frames(ws[..k]) + Frames(ws[k..]);
    ReceiveAllSent(ws[..k], Frames(ws[k..]), maxSize);
    NoFrames(ws[k..]);
    assert ws[..k] == ws;
    DeliveredSame(vs, ws);
  }

  lemma NoFrames(vs: seq<Json>)
    requires forall i :: 0 <= i < |vs| ==> |Canon(vs[i])| < LENGTH_LIMIT
    requires Frames(vs) == []
    ensures vs == []
  {
  }

  lemma {:induction false} DeliveredSame(vs: seq<Json>, ws: seq<Json>)
    requires Delivered(vs) == Delivered(ws)
    requires forall i :: 0 <= i < |vs| ==> WellFormed(vs[i])
    requires forall i :: 0 <= i < |ws| ==> WellFormed(ws[i])
    ensures |vs| == |ws| && forall i :: 0 <= i < |vs| ==> SameValue(vs[i], ws[i])
  {
    forall i | 0 <= i < |vs| ensures SameValue(vs[i], ws[i]) {
      assert Delivered(vs)[i] == Delivered(ws)[i];
      SameNormal(vs[i], ws[i]);
    }
  }

  lemma {:induction false} FramesSplit(vs: seq<Json>, k: nat)
    requires k <= |vs| && forall i :: 0 <= i < |vs| ==> |Canon(vs[i])| < LENGTH_LIMIT
    ensures Frames(vs) == Frames(vs[..k]) + Frames(vs[k..])
  {
    if k > 0 {
      assert vs[..k][1..] == vs[1..][..k - 1] && vs[k..] == vs[1..][k - 1..];
      FramesSplit(vs[1..], k - 1);
    } else {
      assert vs[0..] == vs;
    }
  }
}

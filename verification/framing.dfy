/** The framed wire between host and VM agent: internal/protocol/protocol.go. */
module Framing {
  import opened Wrappers
  import opened Octets

  const MAX_PAYLOAD: nat := 10 * 1024 * 1024
  const HEADER: nat := 9

  const MSG_CONNECT_ACK: byte := 0x02
  const MSG_DATA: byte := 0x03
  const MSG_CLOSE: byte := 0x04
  const MSG_ERROR: byte := 0x05
  const MSG_CONNECT_DIRECT: byte := 0x06

  type ConnID = n: nat | n < 0x1_0000_0000

  datatype Message = Message(kind: byte, connID: ConnID, payload: Bytes)

  /** type, connection id, payload length modulo 2^32, payload. */
  function Encode(m: Message): (r: Bytes)
    ensures |r| == HEADER + |m.payload|
  {
    [m.kind] + BigEndian(m.connID, 4) + BigEndian(|m.payload|, 4) + m.payload
  }

  datatype ReadError = EndOfStream | ShortHeader | TooLarge(size: nat) | ShortPayload

  /** The first message of a byte stream and what follows it, or why there is none. */
  function Decode(s: Bytes): Result<(Message, Bytes), ReadError> {
    if s == [] then Err(EndOfStream)
    else if |s| < HEADER then Err(ShortHeader)
    else
      var n := Value(s[5..9]);
      if n > MAX_PAYLOAD then Err(TooLarge(n))
      else if |s| < HEADER + n then Err(ShortPayload)
      else
        ConnIDInRange(s[1..5]);
        Ok((Message(s[0], Value(s[1..5]), s[HEADER..HEADER + n]), s[HEADER + n..]))
  }

  lemma ConnIDInRange(bs: Bytes)
    requires |bs| == 4
    ensures Value(bs) < 0x1_0000_0000
  {
    ValueBound(bs);
    Ranges();
  }

  /* ---------- one frame ---------- */

  /** The number four bytes spell, most significant first. */
  function Number(a: int, b: int, c: int, d: int): int {
    0x100_0000 * a + 0x1_0000 * b + 0x100 * c + d
  }

  lemma FourDigits(bs: Bytes)
    requires |bs| == 4
    ensures Value(bs) == Number(bs[0], bs[1], bs[2], bs[3])
  {
    var a: int, b: int, c: int := bs[0], bs[1], bs[2];
    assert bs[..3][..2] == bs[..2] && bs[..2][..1] == bs[..1] && bs[..1][..0] == [];
    assert Value(bs[..1]) == a;
    assert Value(bs[..2]) == a * 256 + b;
    assert Value(bs[..3]) == (a * 256 + b) * 256 + c;
  }

  /** A frame byte by byte: the type, then the id and the length, most significant byte first, then the payload. */
  lemma FrameBytes(m: Message)
    ensures var s := Encode(m);
      && |s| == 9 + |m.payload| && s[0] == m.kind && s[9..] == m.payload
      && Number(s[1], s[2], s[3], s[4]) == m.connID
      && Number(s[5], s[6], s[7], s[8]) == |m.payload| % 0x1_0000_0000
  {
    var s := Encode(m);
    HeaderOf(m, []);
    assert s + [] == s;
    FourDigits(s[1..5]);
    FourDigits(s[5..9]);
  }

  lemma HeaderOf(m: Message, rest: Bytes)
    ensures var s := Encode(m) + rest;
      && s[0] == m.kind && Value(s[1..5]) == m.connID
      && Value(s[5..9]) == |m.payload| % 0x1_0000_0000
      && s[HEADER..] == m.payload + rest
  {
    var s := Encode(m) + rest;
    assert s[1..5] == BigEndian(m.connID, 4);
    assert s[5..9] == BigEndian(|m.payload|, 4);
    ValueOfBigEndian(m.connID, 4);
    ValueOfBigEndian(|m.payload|, 4);
    Ranges();
  }

  /** A frame in front of anything reads back as itself exactly when its payload is at most 10 MiB. The
      limit is also what makes it safe that the length field holds the length modulo 2^32. */
  lemma FrameRoundTripIff(m: Message, rest: Bytes)
    ensures Decode(Encode(m) + rest) == Ok((m, rest)) <==> |m.payload| <= MAX_PAYLOAD
  {
    var s := Encode(m) + rest;
    HeaderOf(m, rest);
    if |m.payload| <= MAX_PAYLOAD {
      assert s[HEADER..HEADER + |m.payload|] == s[HEADER..][..|m.payload|] == m.payload;
      assert s[HEADER + |m.payload|..] == s[HEADER..][|m.payload|..] == rest;
    } else {
      var n := |m.payload| % 0x1_0000_0000;
      assert n <= MAX_PAYLOAD ==> n != |m.payload|;
    }
  }

  /** A frame cut short anywhere is an error, and reads as a clean end of stream only when nothing of it
      is there. */
  lemma StrictPrefixIsAnError(m: Message, k: nat)
    requires |m.payload| <= MAX_PAYLOAD && k < |Encode(m)|
    ensures Decode(Encode(m)[..k]).Err?
    ensures Decode(Encode(m)[..k]).error.EndOfStream? <==> k == 0
  {
    if k >= HEADER {
      HeaderOf(m, []);
      assert Encode(m) + [] == Encode(m);
      assert Encode(m)[..k][5..9] == Encode(m)[5..9];
    }
  }

  /* ---------- a stream of frames ---------- */

  function EncodeAll(ms: seq<Message>): Bytes {
    if ms == [] then [] else Encode(ms[0]) + EncodeAll(ms[1..])
  }

  /** Every message up to the first error, and that error. */
  function DecodeAll(s: Bytes): (seq<Message>, ReadError)
    decreases |s|
  {
    match Decode(s)
    case Err(e) => ([], e)
    case Ok((m, rest)) => var (ms, e) := DecodeAll(rest); ([m] + ms, e)
  }

  ghost predicate Sendable(ms: seq<Message>) {
    forall i :: 0 <= i < |ms| ==> |ms[i].payload| <= MAX_PAYLOAD
  }

  lemma DecodeAllFirst(s: Bytes, m: Message, rest: Bytes)
    requires Decode(s) == Ok((m, rest))
    ensures DecodeAll(s).0 == [m] + DecodeAll(rest).0 && DecodeAll(s).1 == DecodeAll(rest).1
  {}

  lemma EncodeAllFirst(ms: seq<Message>, rest: Bytes)
    requires ms != []
    ensures EncodeAll(ms) + rest == Encode(ms[0]) + (EncodeAll(ms[1..]) + rest)
  {
    assert (Encode(ms[0]) + EncodeAll(ms[1..])) + rest == Encode(ms[0]) + (EncodeAll(ms[1..]) + rest);
  }

  lemma HeadAndTail<T>(xs: seq<T>, ys: seq<T>)
    requires xs != []
    ensures xs + ys == [xs[0]] + (xs[1..] + ys)
  {}

  /** Whatever follows a list of frames, reading yields that list and then whatever the rest yields. */
  lemma {:induction false} StreamRoundTrip(ms: seq<Message>, rest: Bytes)
    requires Sendable(ms)
    ensures DecodeAll(EncodeAll(ms) + rest).0 == ms + DecodeAll(rest).0
    ensures DecodeAll(EncodeAll(ms) + rest).1 == DecodeAll(rest).1
    decreases |ms|
  {
    if ms == [] {
      assert EncodeAll(ms) + rest == rest;
    } else {
      var tail := EncodeAll(ms[1..]) + rest;
      StreamRoundTrip(ms[1..], rest);
      FrameRoundTripIff(ms[0], tail);
      DecodeAllFirst(Encode(ms[0]) + tail, ms[0], tail);
      EncodeAllFirst(ms, rest);
      HeadAndTail(ms, DecodeAll(rest).0);
    }
  }

  /** A stream of whole frames, possibly cut in the middle of one more, reads as exactly the whole ones;
      only an uncut stream ends cleanly. */
  lemma TruncatedStream(ms: seq<Message>, last: Message, k: nat)
    requires Sendable(ms) && |last.payload| <= MAX_PAYLOAD && k < |Encode(last)|
    ensures var (read, e) := DecodeAll(EncodeAll(ms) + Encode(last)[..k]);
      read == ms && (e.EndOfStream? <==> k == 0)
  {
    StreamRoundTrip(ms, Encode(last)[..k]);
    StrictPrefixIsAnError(last, k);
  }

  /* ---------- the code ---------- */

  method EncodeFrame(m: Message) returns (buf: array<byte>)
    ensures fresh(buf) && buf[..] == Encode(m)
  {
    buf := new byte[HEADER + |m.payload|];
    buf[0] := m.kind;
    Copy(buf, 1, BigEndian(m.connID, 4));
    Copy(buf, 5, BigEndian(|m.payload|, 4));
    if |m.payload| > 0 {
      Copy(buf, HEADER, m.payload);
    }
  }

  function Flatten(chunks: seq<Bytes>): Bytes {
    if chunks == [] then [] else chunks[0] + Flatten(chunks[1..])
  }

  /** A reader that hands out its bytes in pieces of its own choosing, empty pieces included. */
  class Reader {
    var chunks: seq<Bytes>

    ghost function Pending(): Bytes
      reads this
    {
      Flatten(chunks)
    }

    constructor (chunks: seq<Bytes>)
      ensures Pending() == Flatten(chunks)
    {
      this.chunks := chunks;
    }

    /** At most n bytes, from the front piece only. */
    method Read(n: nat) returns (b: Bytes, eof: bool)
      requires n > 0
      modifies this
      ensures |b| <= n && b + Pending() == old(Pending())
      ensures eof ==> old(Pending()) == []
      ensures !eof ==> |b| > 0 || |chunks| < |old(chunks)|
      ensures |chunks| <= |old(chunks)|
    {
      if chunks == [] {
        return [], true;
      }
      var front := chunks[0];
      if |front| <= n {
        chunks := chunks[1..];
        return front, false;
      }
      assert front == front[..n] + front[n..];
      chunks := [front[n..]] + chunks[1..];
      return front[..n], false;
    }

    /** io.ReadFull: exactly n bytes, or everything that was left and failure. */
    method ReadFull(n: nat) returns (buf: Bytes, ok: bool)
      modifies this
      ensures ok <==> |old(Pending())| >= n
      ensures ok ==> buf == old(Pending())[..n] && Pending() == old(Pending())[n..]
      ensures !ok ==> buf == old(Pending()) && Pending() == []
    {
      buf := [];
      while |buf| < n
        invariant |buf| <= n && buf + Pending() == old(Pending())
        decreases n - |buf|, |chunks|
      {
        var b, eof := Read(n - |buf|);
        buf := buf + b;
        if eof {
          return buf, false;
        }
      }
      ok := true;
    }

    /** However the bytes are chunked, this reads the first message of their concatenation. */
    method ReadMessage() returns (r: Result<Message, ReadError>)
      modifies this
      ensures match Decode(old(Pending()))
              case Ok((m, rest)) => r == Ok(m) && Pending() == rest
              case Err(e) => r == Err(e)
    {
      ghost var s := Pending();
      var header, ok := ReadFull(HEADER);
      if !ok {
        return Err(if header == [] then EndOfStream else ShortHeader);
      }
      assert header[1..5] == s[1..5] && header[5..9] == s[5..9];
      var payloadLen := Value(header[5..9]);
      if payloadLen > MAX_PAYLOAD {
        return Err(TooLarge(payloadLen));
      }
      var payload := [];
      if payloadLen > 0 {
        payload, ok := ReadFull(payloadLen);
        if !ok {
          return Err(ShortPayload);
        }
      }
      assert payload == s[HEADER..HEADER + payloadLen];
      ConnIDInRange(header[1..5]);
      return Ok(Message(header[0], Value(header[1..5]), payload));
    }

    /** The reading side of both main loops: message after message until the first error. */
    method ReadUntilError() returns (ms: seq<Message>, e: ReadError)
      modifies this
      ensures (ms, e) == DecodeAll(old(Pending()))
    {
      ms := [];
      assert ms + DecodeAll(Pending()).0 == DecodeAll(Pending()).0;
      while true
        invariant DecodeAll(old(Pending())).0 == ms + DecodeAll(Pending()).0
        invariant DecodeAll(old(Pending())).1 == DecodeAll(Pending()).1
        decreases |Pending()|
      {
        ghost var s := Pending();
        var r := ReadMessage();
        match r {
          case Err(err) =>
            assert DecodeAll(s).0 == [] && DecodeAll(s).1 == err;
            assert ms + [] == ms;
            return ms, err;
          case Ok(m) =>
            DecodeAllFirst(s, m, Pending());
            assert ms + DecodeAll(s).0 == (ms + [m]) + DecodeAll(Pending()).0;
            ms := ms + [m];
        }
      }
    }
  }

  /* ---------- the connect payload ---------- */

  const COLON: byte := 58

  function ConnectPayload(network: Bytes, address: Bytes): Bytes {
    network + [COLON] + address
  }

  /** Splits at the first colon. */
  method ParseConnectPayload(payload: Bytes) returns (r: Option<(Bytes, Bytes)>)
    ensures r == Parsed(payload)
  {
    for i := 0 to |payload|
      invariant COLON !in payload[..i]
    {
      if payload[i] == COLON {
        assert payload == ConnectPayload(payload[..i], payload[i + 1..]);
        ParsedConnect(payload[..i], payload[i + 1..]);
        return Some((payload[..i], payload[i + 1..]));
      }
    }
    assert payload[..|payload|] == payload;
    ParsedIffColon(payload);
    return None;
  }

  lemma {:induction false} ParsedIffColon(payload: Bytes)
    ensures Parsed(payload).Some? <==> COLON in payload
  {
    if payload != [] {
      ParsedIffColon(payload[1..]);
      assert payload == [payload[0]] + payload[1..];
    }
  }

  function Parsed(payload: Bytes): Option<(Bytes, Bytes)> {
    if payload == [] then None
    else if payload[0] == COLON then Some(([], payload[1..]))
    else match Parsed(payload[1..])
         case None => None
         case Some((n, a)) => Some(([payload[0]] + n, a))
  }

  lemma {:induction false} ParsedConnect(network: Bytes, address: Bytes)
    requires COLON !in network
    ensures Parsed(ConnectPayload(network, address)) == Some((network, address))
  {
    var p := ConnectPayload(network, address);
    if network == [] {
      assert p[1..] == address;
    } else {
      assert p[1..] == ConnectPayload(network[1..], address);
      ParsedConnect(network[1..], address);
      assert [p[0]] + network[1..] == network;
    }
  }

  lemma {:induction false} ParsedHasNoColon(payload: Bytes)
    ensures Parsed(payload).Some? ==> COLON !in Parsed(payload).value.0
  {
    if payload != [] && payload[0] != COLON { ParsedHasNoColon(payload[1..]); }
  }

  /** The agent dials what the host asked for exactly when the network name holds no colon; the address
      may hold any number of them. */
  lemma ConnectRoundTripIff(network: Bytes, address: Bytes)
    ensures Parsed(ConnectPayload(network, address)) == Some((network, address)) <==> COLON !in network
  {
    if COLON !in network {
      ParsedConnect(network, address);
    } else {
      ParsedHasNoColon(ConnectPayload(network, address));
    }
  }
}

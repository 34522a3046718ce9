/** The binary form of data-channel messages: internal/backend/ssm/datachannel/message.go. Deserialize
    un-swaps the message id with an append that writes into the middle of its own input; the model keeps
    that write, and the theorems say what it does to the message. */
module ClientMessages {
  import opened Octets
  import opened Wrappers

  const HEADER_LENGTH: nat := 116
  const SPACE: byte := 32

  const TYPE_OFFSET: nat := 4
  const SCHEMA_OFFSET: nat := 36
  const CREATED_OFFSET: nat := 40
  const SEQUENCE_OFFSET: nat := 48
  const FLAGS_OFFSET: nat := 56
  const ID_OFFSET: nat := 64
  const DIGEST_OFFSET: nat := 80
  const PAYLOAD_TYPE_OFFSET: nat := 112
  const PAYLOAD_LENGTH_OFFSET: nat := 116
  const PAYLOAD_OFFSET: nat := 120

  type u32 = n: nat | n < 0x1_0000_0000
  type u64 = n: nat | n < 0x1_0000_0000_0000_0000
  type i64 = n: int | -0x8000_0000_0000_0000 <= n < 0x8000_0000_0000_0000
  type Uuid = b: Bytes | |b| == 16 witness [0, 0, 0, 0, 0, 0, 0, 0, 0, 0, 0, 0, 0, 0, 0, 0]

  datatype ClientMessage = ClientMessage(
    headerLength: u32, messageType: Bytes, schemaVersion: u32, createdDate: u64, sequenceNumber: i64,
    flags: u64, messageID: Uuid, payloadDigest: Bytes, payloadType: u32, payloadLength: u32, payload: Bytes)

  datatype Failure = TooShort | PayloadTooShort

  function Unsigned(n: i64): u64 {
    if n < 0 then n + 0x1_0000_0000_0000_0000 else n
  }

  function Signed(n: u64): i64 {
    if n >= 0x8000_0000_0000_0000 then n - 0x1_0000_0000_0000_0000 else n
  }

  function Fill(b: byte, n: nat): (r: Bytes)
    ensures |r| == n && forall i :: 0 <= i < n ==> r[i] == b
  {
    if n == 0 then [] else Fill(b, n - 1) + [b]
  }

  function TrimRight(bs: Bytes): (r: Bytes)
    ensures |r| <= |bs| && (r != [] ==> r[|r| - 1] != SPACE)
  {
    if bs != [] && bs[|bs| - 1] == SPACE then TrimRight(bs[..|bs| - 1]) else bs
  }

  /** Thirty-two bytes: the type, cut off or padded with spaces. */
  function Padded(messageType: Bytes): Bytes {
    Splice(Fill(SPACE, 32), 0, messageType)
  }

  /** The length Serialize allocates; below 120 its fixed-offset writes would panic. */
  function TotalLength(m: ClientMessage): nat {
    4 + m.headerLength + m.payloadLength
  }

  /** The fields before the message id, write by write. */
  function WrittenFront(m: ClientMessage): (r: Bytes)
    requires TotalLength(m) >= PAYLOAD_OFFSET
    ensures |r| == TotalLength(m)
  {
    var b1 := Splice(Fill(0, TotalLength(m)), 0, BigEndian(m.headerLength, 4));
    var b2 := Splice(b1, TYPE_OFFSET, Padded(m.messageType));
    var b3 := Splice(b2, SCHEMA_OFFSET, BigEndian(m.schemaVersion, 4));
    var b4 := Splice(b3, CREATED_OFFSET, BigEndian(m.createdDate, 8));
    var b5 := Splice(b4, SEQUENCE_OFFSET, BigEndian(Unsigned(m.sequenceNumber), 8));
    Splice(b5, FLAGS_OFFSET, BigEndian(m.flags, 8))
  }

  /** Serialize, write by write. */
  function Wire(m: ClientMessage): (r: Bytes)
    requires TotalLength(m) >= PAYLOAD_OFFSET
    ensures |r| == TotalLength(m)
  {
    var b7 := Splice(WrittenFront(m), ID_OFFSET, m.messageID[8..] + m.messageID[..8]);
    var b8 := Splice(b7, DIGEST_OFFSET, m.payloadDigest);
    var b9 := Splice(b8, PAYLOAD_TYPE_OFFSET, BigEndian(m.payloadType, 4));
    var b10 := Splice(b9, PAYLOAD_LENGTH_OFFSET, BigEndian(m.payloadLength, 4));
    Splice(b10, PAYLOAD_OFFSET, m.payload)
  }

  method Serialize(m: ClientMessage) returns (buf: array<byte>)
    requires TotalLength(m) >= PAYLOAD_OFFSET
    ensures fresh(buf) && buf[..] == Wire(m)
  {
    buf := new byte[TotalLength(m)](_ => 0);
    assert buf[..] == Fill(0, TotalLength(m));
    Copy(buf, 0, BigEndian(m.headerLength, 4));
    Copy(buf, TYPE_OFFSET, Padded(m.messageType));
    Copy(buf, SCHEMA_OFFSET, BigEndian(m.schemaVersion, 4));
    Copy(buf, CREATED_OFFSET, BigEndian(m.createdDate, 8));
    Copy(buf, SEQUENCE_OFFSET, BigEndian(Unsigned(m.sequenceNumber), 8));
    Copy(buf, FLAGS_OFFSET, BigEndian(m.flags, 8));
    Copy(buf, ID_OFFSET, m.messageID[8..] + m.messageID[..8]);
    Copy(buf, DIGEST_OFFSET, m.payloadDigest);
    Copy(buf, PAYLOAD_TYPE_OFFSET, BigEndian(m.payloadType, 4));
    Copy(buf, PAYLOAD_LENGTH_OFFSET, BigEndian(m.payloadLength, 4));
    Copy(buf, PAYLOAD_OFFSET, m.payload);
  }

  function U32At(bs: Bytes, at: nat): u32
    requires at + 4 <= |bs|
  {
    ValueBound(bs[at..at + 4]);
    Ranges();
    Value(bs[at..at + 4])
  }

  function U64At(bs: Bytes, at: nat): u64
    requires at + 8 <= |bs|
  {
    ValueBound(bs[at..at + 8]);
    Ranges();
    Value(bs[at..at + 8])
  }

  /** The input after the append: the eight bytes behind the id are overwritten by its first eight. */
  function Clobbered(data: Bytes): (r: Bytes)
    requires |data| >= PAYLOAD_OFFSET
    ensures |r| == |data|
  {
    Splice(data, DIGEST_OFFSET, data[ID_OFFSET..ID_OFFSET + 8])
  }

  /** Deserialize on the bytes as they are after the append. */
  function Parse(data: Bytes): Result<ClientMessage, Failure> {
    if |data| < PAYLOAD_OFFSET then Err(TooShort)
    else
      var d := Clobbered(data);
      var start := U32At(d, 0) + 4;
      var n := U32At(d, PAYLOAD_LENGTH_OFFSET);
      if |d| < start + n then Err(PayloadTooShort)
      else
        Ok(ClientMessage(U32At(d, 0), TrimRight(d[TYPE_OFFSET..SCHEMA_OFFSET]), U32At(d, SCHEMA_OFFSET),
                         U64At(d, CREATED_OFFSET), Signed(U64At(d, SEQUENCE_OFFSET)), U64At(d, FLAGS_OFFSET),
                         d[ID_OFFSET + 8..DIGEST_OFFSET + 8], d[DIGEST_OFFSET..PAYLOAD_TYPE_OFFSET],
                         U32At(d, PAYLOAD_TYPE_OFFSET), n, d[start..start + n]))
  }

  method Deserialize(data: array<byte>) returns (r: Result<ClientMessage, Failure>)
    modifies data
    ensures r == Parse(old(data[..]))
    ensures data[..] == if data.Length < PAYLOAD_OFFSET then old(data[..]) else Clobbered(old(data[..]))
  {
    if data.Length < PAYLOAD_OFFSET {
      return Err(TooShort);
    }
    ghost var d := Clobbered(data[..]);
    UnclobberedFields(data[..]);
    var headerLength: nat := U32At(data[..], 0);
    var messageType := TrimRight(data[TYPE_OFFSET..SCHEMA_OFFSET]);
    var schemaVersion := U32At(data[..], SCHEMA_OFFSET);
    var createdDate := U64At(data[..], CREATED_OFFSET);
    var sequenceNumber := Signed(U64At(data[..], SEQUENCE_OFFSET));
    var flags := U64At(data[..], FLAGS_OFFSET);
    Copy(data, DIGEST_OFFSET, data[ID_OFFSET..ID_OFFSET + 8]);
    assert data[..] == d;
    var messageID := data[ID_OFFSET + 8..DIGEST_OFFSET + 8];
    var payloadDigest := data[DIGEST_OFFSET..PAYLOAD_TYPE_OFFSET];
    var payloadType := U32At(data[..], PAYLOAD_TYPE_OFFSET);
    var payloadLength := U32At(data[..], PAYLOAD_LENGTH_OFFSET);
    var payloadStart := headerLength + 4;
    if data.Length < payloadStart + payloadLength {
      return Err(PayloadTooShort);
    }
    return Ok(ClientMessage(headerLength, messageType, schemaVersion, createdDate, sequenceNumber, flags,
                            messageID, payloadDigest, payloadType, payloadLength,
                            data[payloadStart..payloadStart + payloadLength]));
  }

  /** The append touches none of the fields read before it. */
  lemma UnclobberedFields(data: Bytes)
    requires |data| >= PAYLOAD_OFFSET
    ensures forall lo, hi :: 0 <= lo <= hi <= DIGEST_OFFSET ==> Clobbered(data)[lo..hi] == data[lo..hi]
  {}

  /* ---------- the round trip ---------- */

  /** The fields before the message id, laid end to end. */
  function Front(m: ClientMessage): (r: Bytes)
    ensures |r| == ID_OFFSET
  {
    BigEndian(m.headerLength, 4) + Padded(m.messageType) + BigEndian(m.schemaVersion, 4)
    + BigEndian(m.createdDate, 8) + BigEndian(Unsigned(m.sequenceNumber), 8) + BigEndian(m.flags, 8)
  }

  /** The id with its halves swapped, and what follows. */
  function Back(m: ClientMessage): Bytes {
    m.messageID[8..] + m.messageID[..8] + m.payloadDigest + BigEndian(m.payloadType, 4)
    + BigEndian(m.payloadLength, 4) + m.payload
  }

  /** What a well-made message is on the wire. */
  function Layout(m: ClientMessage): Bytes {
    Front(m) + Back(m)
  }

  /** The lengths agree: a 32-byte digest, the constant header length, and the true payload length. */
  ghost predicate WellMade(m: ClientMessage) {
    m.headerLength == HEADER_LENGTH && |m.payloadDigest| == 32 && m.payloadLength == |m.payload|
  }

  lemma Append(prefix: Bytes, z: nat, src: Bytes)
    requires |src| <= z
    ensures Splice(prefix + Fill(0, z), |prefix|, src) == prefix + src + Fill(0, z - |src|)
  {}

  lemma ThreeWrites(front: Bytes, z: nat, a: Bytes, b: Bytes, c: Bytes)
    requires |a| + |b| + |c| <= z
    ensures var at := |front|;
      Splice(Splice(Splice(front + Fill(0, z), at, a), at + |a|, b), at + |a| + |b|, c)
      == front + (a + b + c) + Fill(0, z - |a| - |b| - |c|)
  {
    Append(front, z, a);
    Append(front + a, z - |a|, b);
    Append(front + a + b, z - |a| - |b|, c);
    assert ((front + a) + b) + c == front + (a + b + c);
  }

  lemma NothingInFront(bs: Bytes)
    ensures [] + bs == bs
  {}

  lemma FirstThreeWrites(z: nat, a: Bytes, b: Bytes, c: Bytes)
    requires |a| + |b| + |c| <= z
    ensures Splice(Splice(Splice(Fill(0, z), 0, a), |a|, b), |a| + |b|, c)
            == a + b + c + Fill(0, z - |a| - |b| - |c|)
  {
    NothingInFront(Fill(0, z));
    NothingInFront(a + b + c);
    ThreeWrites([], z, a, b, c);
  }

  lemma SixWrites(z: nat, a: Bytes, b: Bytes, c: Bytes, d: Bytes, e: Bytes, f: Bytes)
    requires |a| + |b| + |c| + |d| + |e| + |f| <= z
    ensures var p := a + b + c;
      var half := Splice(Splice(Splice(Fill(0, z), 0, a), |a|, b), |a| + |b|, c);
      Splice(Splice(Splice(half, |p|, d), |p| + |d|, e), |p| + |d| + |e|, f)
      == p + (d + e + f) + Fill(0, z - |p| - |d| - |e| - |f|)
  {
    FirstThreeWrites(z, a, b, c);
    ThreeWrites(a + b + c, z - |a + b + c|, d, e, f);
  }

  lemma FrontIsWritten(m: ClientMessage)
    requires TotalLength(m) >= PAYLOAD_OFFSET
    ensures WrittenFront(m) == Front(m) + Fill(0, TotalLength(m) - ID_OFFSET)
  {
    SixWrites(TotalLength(m), BigEndian(m.headerLength, 4), Padded(m.messageType), BigEndian(m.schemaVersion, 4),
              BigEndian(m.createdDate, 8), BigEndian(Unsigned(m.sequenceNumber), 8), BigEndian(m.flags, 8));
    FrontInHalves(m);
  }

  lemma FrontInHalves(m: ClientMessage)
    ensures Front(m) == (BigEndian(m.headerLength, 4) + Padded(m.messageType) + BigEndian(m.schemaVersion, 4))
                      + (BigEndian(m.createdDate, 8) + BigEndian(Unsigned(m.sequenceNumber), 8) + BigEndian(m.flags, 8))
  {
    SixInHalves(BigEndian(m.headerLength, 4), Padded(m.messageType), BigEndian(m.schemaVersion, 4),
                BigEndian(m.createdDate, 8), BigEndian(Unsigned(m.sequenceNumber), 8), BigEndian(m.flags, 8));
  }

  lemma SixInHalves(a: Bytes, b: Bytes, c: Bytes, d: Bytes, e: Bytes, f: Bytes)
    ensures a + b + c + d + e + f == (a + b + c) + (d + e + f)
  {}

  lemma WireIsLayout(m: ClientMessage)
    requires WellMade(m)
    ensures Wire(m) == Layout(m)
  {
    var z, front := TotalLength(m), Front(m);
    FrontIsWritten(m);
    var id := m.messageID[8..] + m.messageID[..8];
    var kind, size := BigEndian(m.payloadType, 4), BigEndian(m.payloadLength, 4);
    ThreeWrites(front, z - 64, id, m.payloadDigest, kind);
    var p := front + (id + m.payloadDigest + kind);
    ThreeWrites(p, z - 116, size, m.payload, []);
    SixInHalves(id, m.payloadDigest, kind, size, m.payload, []);
    assert Fill(0, 0) == [] && size + m.payload + [] == size + m.payload;
    TwoThenTwo(front, id + m.payloadDigest + kind, size + m.payload);
    assert (id + m.payloadDigest + kind) + (size + m.payload) == Back(m);
  }

  lemma TwoThenTwo(a: Bytes, b: Bytes, c: Bytes)
    ensures (a + b) + c + [] == a + (b + c)
  {}

  lemma InFront(front: Bytes, back: Bytes, lo: nat, hi: nat)
    requires lo <= hi <= |front|
    ensures (front + back)[lo..hi] == front[lo..hi]
  {}

  lemma InBack(front: Bytes, back: Bytes, lo: nat, hi: nat)
    requires lo <= hi <= |back|
    ensures (front + back)[|front| + lo..|front| + hi] == back[lo..hi]
  {}

  lemma FrontFields(m: ClientMessage)
    ensures var w := Front(m);
      && w[0..4] == BigEndian(m.headerLength, 4)
      && w[TYPE_OFFSET..SCHEMA_OFFSET] == Padded(m.messageType)
      && w[SCHEMA_OFFSET..CREATED_OFFSET] == BigEndian(m.schemaVersion, 4)
      && w[CREATED_OFFSET..SEQUENCE_OFFSET] == BigEndian(m.createdDate, 8)
      && w[SEQUENCE_OFFSET..FLAGS_OFFSET] == BigEndian(Unsigned(m.sequenceNumber), 8)
      && w[FLAGS_OFFSET..ID_OFFSET] == BigEndian(m.flags, 8)
  {
    var p := BigEndian(m.headerLength, 4) + Padded(m.messageType) + BigEndian(m.schemaVersion, 4);
    var q := BigEndian(m.createdDate, 8) + BigEndian(Unsigned(m.sequenceNumber), 8) + BigEndian(m.flags, 8);
    FrontInHalves(m);
    InFront(p, q, 0, 4);
    InFront(p, q, TYPE_OFFSET, SCHEMA_OFFSET);
    InFront(p, q, SCHEMA_OFFSET, CREATED_OFFSET);
    InBack(p, q, 0, 8);
    InBack(p, q, 8, 16);
    InBack(p, q, 16, 24);
  }

  lemma BackFields(m: ClientMessage)
    requires WellMade(m)
    ensures var w := Back(m);
      && |w| == PAYLOAD_OFFSET - ID_OFFSET + |m.payload|
      && w[..8] == m.messageID[8..] && w[8..16] == m.messageID[..8]
      && w[16..48] == m.payloadDigest
      && w[48..52] == BigEndian(m.payloadType, 4) && w[52..56] == BigEndian(m.payloadLength, 4)
      && w[56..] == m.payload
  {}

  lemma LayoutHeader(m: ClientMessage)
    ensures var w := Layout(m);
      && |w| >= ID_OFFSET
      && w[0..4] == BigEndian(m.headerLength, 4)
      && w[TYPE_OFFSET..SCHEMA_OFFSET] == Padded(m.messageType)
      && w[SCHEMA_OFFSET..CREATED_OFFSET] == BigEndian(m.schemaVersion, 4)
      && w[CREATED_OFFSET..SEQUENCE_OFFSET] == BigEndian(m.createdDate, 8)
      && w[SEQUENCE_OFFSET..FLAGS_OFFSET] == BigEndian(Unsigned(m.sequenceNumber), 8)
      && w[FLAGS_OFFSET..ID_OFFSET] == BigEndian(m.flags, 8)
  {
    var p, q := Front(m), Back(m);
    FrontFields(m);
    InFront(p, q, 0, 4);
    InFront(p, q, TYPE_OFFSET, SCHEMA_OFFSET);
    InFront(p, q, SCHEMA_OFFSET, CREATED_OFFSET);
    InFront(p, q, CREATED_OFFSET, SEQUENCE_OFFSET);
    InFront(p, q, SEQUENCE_OFFSET, FLAGS_OFFSET);
    InFront(p, q, FLAGS_OFFSET, ID_OFFSET);
  }

  lemma BehindTheFront(front: Bytes, back: Bytes)
    requires |front| == ID_OFFSET && |back| >= PAYLOAD_OFFSET - ID_OFFSET
    ensures var w := front + back;
      && |w| == ID_OFFSET + |back|
      && w[ID_OFFSET..ID_OFFSET + 8] == back[..8] && w[ID_OFFSET + 8..DIGEST_OFFSET] == back[8..16]
      && w[DIGEST_OFFSET..PAYLOAD_TYPE_OFFSET] == back[16..48]
      && w[PAYLOAD_TYPE_OFFSET..PAYLOAD_LENGTH_OFFSET] == back[48..52]
      && w[PAYLOAD_LENGTH_OFFSET..PAYLOAD_OFFSET] == back[52..56]
      && w[PAYLOAD_OFFSET..] == back[56..]
  {
    InBack(front, back, 0, 8);
    InBack(front, back, 8, 16);
    InBack(front, back, 16, 48);
    InBack(front, back, 48, 52);
    InBack(front, back, 52, 56);
    InBack(front, back, 56, |back|);
  }

  lemma LayoutBody(m: ClientMessage)
    requires WellMade(m)
    ensures var w := Layout(m);
      && |w| == PAYLOAD_OFFSET + |m.payload|
      && w[ID_OFFSET..ID_OFFSET + 8] == m.messageID[8..]
      && w[ID_OFFSET + 8..DIGEST_OFFSET] == m.messageID[..8]
      && w[DIGEST_OFFSET..PAYLOAD_TYPE_OFFSET] == m.payloadDigest
      && w[PAYLOAD_TYPE_OFFSET..PAYLOAD_LENGTH_OFFSET] == BigEndian(m.payloadType, 4)
      && w[PAYLOAD_LENGTH_OFFSET..PAYLOAD_OFFSET] == BigEndian(m.payloadLength, 4)
      && w[PAYLOAD_OFFSET..] == m.payload
  {
    BackFields(m);
    BehindTheFront(Front(m), Back(m));
  }

  /** The type fits its field and does not end in the padding character. */
  ghost predicate TypeFits(messageType: Bytes) {
    |messageType| <= 32 && (messageType != [] ==> messageType[|messageType| - 1] != SPACE)
  }

  lemma {:induction false} TrimFill(bs: Bytes, n: nat)
    requires bs != [] ==> bs[|bs| - 1] != SPACE
    ensures TrimRight(bs + Fill(SPACE, n)) == bs
  {
    if n == 0 {
      assert bs + Fill(SPACE, 0) == bs;
    } else {
      TrimFill(bs, n - 1);
      assert (bs + Fill(SPACE, n))[..|bs| + n - 1] == bs + Fill(SPACE, n - 1);
    }
  }

  lemma TypeRoundTrip(messageType: Bytes)
    requires TypeFits(messageType)
    ensures TrimRight(Padded(messageType)) == messageType
  {
    TrimFill(messageType, 32 - |messageType|);
    assert Padded(messageType) == messageType + Fill(SPACE, 32 - |messageType|);
  }

  /** What Deserialize leaves in the digest: the last eight id bytes, then the digest from byte 8 on. */
  function Damaged(m: ClientMessage): Bytes
    requires |m.payloadDigest| == 32
  {
    m.messageID[8..] + m.payloadDigest[8..]
  }

  /** Nor anything from eight bytes behind the id on. */
  lemma BehindTheAppend(data: Bytes, lo: nat, hi: nat)
    requires |data| >= PAYLOAD_OFFSET && DIGEST_OFFSET + 8 <= lo <= hi <= |data|
    ensures Clobbered(data)[lo..hi] == data[lo..hi]
  {
    forall i | lo <= i < hi ensures Clobbered(data)[i] == data[i] {}
  }

  lemma TheAppend(data: Bytes)
    requires |data| >= PAYLOAD_OFFSET
    ensures Clobbered(data)[DIGEST_OFFSET..DIGEST_OFFSET + 8] == data[ID_OFFSET..ID_OFFSET + 8]
  {}

  lemma Joined(s: Bytes, lo: nat, mid: nat, hi: nat)
    requires lo <= mid <= hi <= |s|
    ensures s[lo..hi] == s[lo..mid] + s[mid..hi] && s[mid..hi] == s[lo..hi][mid - lo..]
  {}

  /** The append's write, seen field by field. */
  lemma ClobberedFields(data: Bytes)
    requires |data| >= PAYLOAD_OFFSET
    ensures var d := Clobbered(data);
      && d[ID_OFFSET + 8..DIGEST_OFFSET + 8] == data[ID_OFFSET + 8..DIGEST_OFFSET] + data[ID_OFFSET..ID_OFFSET + 8]
      && d[DIGEST_OFFSET..PAYLOAD_TYPE_OFFSET]
         == data[ID_OFFSET..ID_OFFSET + 8] + data[DIGEST_OFFSET..PAYLOAD_TYPE_OFFSET][8..]
      && d[PAYLOAD_TYPE_OFFSET..PAYLOAD_LENGTH_OFFSET] == data[PAYLOAD_TYPE_OFFSET..PAYLOAD_LENGTH_OFFSET]
      && d[PAYLOAD_LENGTH_OFFSET..PAYLOAD_OFFSET] == data[PAYLOAD_LENGTH_OFFSET..PAYLOAD_OFFSET]
      && d[PAYLOAD_OFFSET..] == data[PAYLOAD_OFFSET..]
  {
    var d := Clobbered(data);
    TheAppend(data);
    UnclobberedFields(data);
    Joined(d, ID_OFFSET + 8, DIGEST_OFFSET, DIGEST_OFFSET + 8);
    BehindTheAppend(data, DIGEST_OFFSET + 8, PAYLOAD_TYPE_OFFSET);
    Joined(d, DIGEST_OFFSET, DIGEST_OFFSET + 8, PAYLOAD_TYPE_OFFSET);
    Joined(data, DIGEST_OFFSET, DIGEST_OFFSET + 8, PAYLOAD_TYPE_OFFSET);
    BehindTheAppend(data, PAYLOAD_TYPE_OFFSET, PAYLOAD_LENGTH_OFFSET);
    BehindTheAppend(data, PAYLOAD_LENGTH_OFFSET, PAYLOAD_OFFSET);
    BehindTheAppend(data, PAYLOAD_OFFSET, |data|);
    assert d[PAYLOAD_OFFSET..|d|] == d[PAYLOAD_OFFSET..] && data[PAYLOAD_OFFSET..|data|] == data[PAYLOAD_OFFSET..];
  }

  lemma U32RoundTrip(bs: Bytes, at: nat, n: u32)
    requires at + 4 <= |bs| && bs[at..at + 4] == BigEndian(n, 4)
    ensures U32At(bs, at) == n
  {
    FourBytes(n);
  }

  lemma U64RoundTrip(bs: Bytes, at: nat, n: u64)
    requires at + 8 <= |bs| && bs[at..at + 8] == BigEndian(n, 8)
    ensures U64At(bs, at) == n
  {
    EightBytes(n);
  }

  lemma FrontSurvives(m: ClientMessage)
    requires WellMade(m) && TypeFits(m.messageType)
    ensures var d := Clobbered(Wire(m));
      && U32At(d, 0) == m.headerLength && TrimRight(d[TYPE_OFFSET..SCHEMA_OFFSET]) == m.messageType
      && U32At(d, SCHEMA_OFFSET) == m.schemaVersion && U64At(d, CREATED_OFFSET) == m.createdDate
      && Signed(U64At(d, SEQUENCE_OFFSET)) == m.sequenceNumber && U64At(d, FLAGS_OFFSET) == m.flags
  {
    var w := Wire(m);
    var d := Clobbered(w);
    WireIsLayout(m);
    LayoutHeader(m);
    UnclobberedFields(w);
    TypeRoundTrip(m.messageType);
    U32RoundTrip(d, 0, m.headerLength);
    U32RoundTrip(d, SCHEMA_OFFSET, m.schemaVersion);
    U64RoundTrip(d, CREATED_OFFSET, m.createdDate);
    U64RoundTrip(d, SEQUENCE_OFFSET, Unsigned(m.sequenceNumber));
    U64RoundTrip(d, FLAGS_OFFSET, m.flags);
  }

  lemma BackSurvivesButDigest(m: ClientMessage)
    requires WellMade(m)
    ensures var d := Clobbered(Wire(m));
      && d[ID_OFFSET + 8..DIGEST_OFFSET + 8] == m.messageID
      && d[DIGEST_OFFSET..PAYLOAD_TYPE_OFFSET] == Damaged(m)
      && U32At(d, PAYLOAD_TYPE_OFFSET) == m.payloadType && U32At(d, PAYLOAD_LENGTH_OFFSET) == m.payloadLength
      && |d| == PAYLOAD_OFFSET + m.payloadLength && d[PAYLOAD_OFFSET..] == m.payload
  {
    var w := Wire(m);
    var d := Clobbered(w);
    WireIsLayout(m);
    LayoutBody(m);
    ClobberedFields(w);
    U32RoundTrip(d, PAYLOAD_TYPE_OFFSET, m.payloadType);
    U32RoundTrip(d, PAYLOAD_LENGTH_OFFSET, m.payloadLength);
    assert m.messageID[..8] + m.messageID[8..] == m.messageID;
  }

  /** Every field survives the wire except the first eight digest bytes, which become id bytes 8 to 15. */
  lemma RoundTripButDigest(m: ClientMessage)
    requires WellMade(m) && TypeFits(m.messageType)
    ensures Parse(Wire(m)) == Ok(m.(payloadDigest := Damaged(m)))
  {
    var d := Clobbered(Wire(m));
    FrontSurvives(m);
    BackSurvivesButDigest(m);
    assert d[PAYLOAD_OFFSET..PAYLOAD_OFFSET + m.payloadLength] == d[PAYLOAD_OFFSET..];
  }

  /** The full round trip returns the message unchanged exactly when the lengths agree, the type fits, and
      the first eight digest bytes happen to equal the last eight id bytes. */
  lemma RoundTripIff(m: ClientMessage)
    requires m.headerLength == HEADER_LENGTH
    ensures Parse(Wire(m)) == Ok(m)
            <==> WellMade(m) && TypeFits(m.messageType) && m.payloadDigest[..8] == m.messageID[8..]
  {
    if WellMade(m) && TypeFits(m.messageType) {
      RoundTripButDigest(m);
      assert Damaged(m)[..8] == m.messageID[8..];
      if m.payloadDigest[..8] == m.messageID[8..] {
        assert Damaged(m) == m.payloadDigest[..8] + m.payloadDigest[8..] == m.payloadDigest;
      }
    } else if Parse(Wire(m)) == Ok(m) {
      ParsedIsWellMade(Wire(m), m);
    }
  }

  lemma ParsedIsWellMade(data: Bytes, m: ClientMessage)
    requires Parse(data) == Ok(m) && m.headerLength == HEADER_LENGTH
    ensures WellMade(m) && TypeFits(m.messageType)
  {}

  /* ---------- the messages the channel sends ---------- */

  /** input_stream_data */
  const INPUT_STREAM_MESSAGE: Bytes :=
    [105, 110, 112, 117, 116, 95, 115, 116, 114, 101, 97, 109, 95, 100, 97, 116, 97]

  const PAYLOAD_TYPE_OUTPUT: u32 := 1

  /** The message built around a payload, given its digest, a fresh id and the clock. */
  function NewInputStreamMessage(payload: Bytes, seq_: i64, digest: Bytes, id: Uuid, created: u64): ClientMessage {
    ClientMessage(HEADER_LENGTH, INPUT_STREAM_MESSAGE, 1, created, seq_, 0, id, digest, PAYLOAD_TYPE_OUTPUT,
                  |payload| % 0x1_0000_0000, payload)
  }

  /** Only by chance does a sent data message come back as it was: exactly if the first eight bytes of its digest
      are the last eight of its id. */
  lemma InputMessageIntactIff(payload: Bytes, n: i64, digest: Bytes, id: Uuid, created: u64)
    requires |digest| == 32 && |payload| < 0x1_0000_0000
    ensures var m := NewInputStreamMessage(payload, n, digest, id, created);
      Parse(Wire(m)) == Ok(m) <==> digest[..8] == id[8..]
  {
    var m := NewInputStreamMessage(payload, n, digest, id, created);
    assert TypeFits(INPUT_STREAM_MESSAGE) && WellMade(m);
    RoundTripIff(m);
  }

  lemma DifferentFirstByte(payload: Bytes, n: i64, digest: Bytes, id: Uuid, created: u64)
    requires |digest| == 32 && |payload| < 0x1_0000_0000 && digest[0] != id[8]
    ensures var m := NewInputStreamMessage(payload, n, digest, id, created); Parse(Wire(m)) != Ok(m)
  {
    assert digest[..8][0] != id[8..][0];
    InputMessageIntactIff(payload, n, digest, id, created);
  }

  /** A message that does not. */
  lemma DamagedMessageExists()
    ensures var m := NewInputStreamMessage([1], 0, Fill(1, 32), Fill(2, 16), 0); Parse(Wire(m)) != Ok(m)
  {
    DifferentFirstByte([1], 0, Fill(1, 32), Fill(2, 16), 0);
  }

  /** A sent data message keeps its type, number, id and payload over the wire exactly when the payload
      is shorter than 4 GiB; beyond that the length field wraps. */
  lemma InputMessageSurvivesIff(payload: Bytes, n: i64, digest: Bytes, id: Uuid, created: u64)
    requires |digest| == 32
    ensures var m := NewInputStreamMessage(payload, n, digest, id, created);
      Parse(Wire(m)) == Ok(m.(payloadDigest := Damaged(m))) <==> |payload| < 0x1_0000_0000
  {
    var m := NewInputStreamMessage(payload, n, digest, id, created);
    assert TypeFits(INPUT_STREAM_MESSAGE);
    if |payload| < 0x1_0000_0000 {
      RoundTripButDigest(m);
    } else if Parse(Wire(m)) == Ok(m.(payloadDigest := Damaged(m))) {
      ParsedIsWellMade(Wire(m), m.(payloadDigest := Damaged(m)));
    }
  }

  lemma SmallNumbers()
    ensures BigEndian(116, 4) == [0, 0, 0, 116] && BigEndian(1, 4) == [0, 0, 0, 1]
    ensures BigEndian(0, 8) == [0, 0, 0, 0, 0, 0, 0, 0]
  {
    assert BigEndian(0, 2) == [0, 0];
    assert BigEndian(0, 4) == [0, 0, 0, 0];
    assert BigEndian(0, 6) == [0, 0, 0, 0, 0, 0];
  }

  lemma HeaderBytes(m: ClientMessage)
    requires WellMade(m)
    ensures var w := Wire(m);
      && |w| == 120 + |m.payload|
      && w[0..4] == BigEndian(116, 4) && w[4..36] == Padded(m.messageType)
      && w[36..40] == BigEndian(m.schemaVersion, 4) && w[40..48] == BigEndian(m.createdDate, 8)
      && w[48..56] == BigEndian(Unsigned(m.sequenceNumber), 8) && w[56..64] == BigEndian(m.flags, 8)
  {
    WireIsLayout(m);
    LayoutHeader(m);
  }

  lemma EightBytes(n: u64)
    ensures Value(BigEndian(n, 8)) == n
  {
    ValueOfBigEndian(n, 8);
    Ranges();
  }

  lemma FourBytes(n: u32)
    ensures Value(BigEndian(n, 4)) == n
  {
    ValueOfBigEndian(n, 4);
    Ranges();
  }

  lemma DateAndNumber(m: ClientMessage)
    requires WellMade(m)
    ensures var w := Wire(m);
      && |w| == 120 + |m.payload|
      && Value(w[40..48]) == m.createdDate && Value(w[48..56]) == Unsigned(m.sequenceNumber)
  {
    HeaderBytes(m);
    EightBytes(m.createdDate);
    EightBytes(Unsigned(m.sequenceNumber));
  }

  lemma BodyBytes(m: ClientMessage)
    requires WellMade(m)
    ensures var w := Wire(m);
      && |w| == 120 + |m.payload|
      && w[64..72] == m.messageID[8..] && w[72..80] == m.messageID[..8] && w[80..112] == m.payloadDigest
      && w[112..116] == BigEndian(m.payloadType, 4) && w[116..120] == BigEndian(|m.payload|, 4)
      && w[120..] == m.payload
  {
    WireIsLayout(m);
    LayoutBody(m);
  }

  /** What a data message is on the wire, byte by byte: the header length, after the name version 1, the date, the
      number, and no flags. */
  lemma InputMessageHeader(payload: Bytes, n: i64, digest: Bytes, id: Uuid, created: u64)
    requires |digest| == 32 && |payload| < 0x1_0000_0000
    ensures var w := Wire(NewInputStreamMessage(payload, n, digest, id, created));
      && |w| == 120 + |payload|
      && w[0..4] == [0, 0, 0, 116] && w[36..40] == [0, 0, 0, 1] && w[56..64] == [0, 0, 0, 0, 0, 0, 0, 0]
      && Value(w[40..48]) == created && Value(w[48..56]) == (if n < 0 then n + 0x1_0000_0000_0000_0000 else n)
  {
    HeaderBytes(NewInputStreamMessage(payload, n, digest, id, created));
    DateAndNumber(NewInputStreamMessage(payload, n, digest, id, created));
    SmallNumbers();
  }

  /** Then the halves of the id swapped, the digest, payload type 1, the length and the payload. */
  lemma InputMessageBody(payload: Bytes, n: i64, digest: Bytes, id: Uuid, created: u64)
    requires |digest| == 32 && |payload| < 0x1_0000_0000
    ensures var w := Wire(NewInputStreamMessage(payload, n, digest, id, created));
      && |w| == 120 + |payload|
      && w[64..72] == id[8..] && w[72..80] == id[..8] && w[80..112] == digest
      && w[112..116] == [0, 0, 0, 1] && Value(w[116..120]) == |payload| && w[120..] == payload
  {
    BodyBytes(NewInputStreamMessage(payload, n, digest, id, created));
    SmallNumbers();
    FourBytes(|payload|);
  }
}

/** What a Read returns, and that reading on returns everything. */
module MuxReads {
  import opened Octets
  import opened Framing
  import opened MuxSpec
  import MuxTheorems

  /** data is as much of front as n bytes hold. */
  predicate Fills(data: Bytes, front: Bytes, n: nat) {
    data <= front && |data| <= n && (|data| == n || data == front)
  }

  /** Left-overs first, then the front chunk; the end only on a closed connection, with nothing left over and
      nothing queued unless the chunk came in too late; a timeout exactly on an open and empty one. */
  lemma ReadReturns(c: Conn, n: nat, race: bool)
    ensures var (c', r) := RacingRead(c, n, race);
      && (c.remaining != [] ==>
            r.Got? && Fills(r.data, c.remaining, n) && r.data + c'.remaining == c.remaining && c'.readBuf == c.readBuf)
      && (c.remaining == [] && c.readBuf != [] && !(race && c.closed) ==>
            r.Got? && Fills(r.data, c.readBuf[0], n) && r.data + c'.remaining == c.readBuf[0]
            && c'.readBuf == c.readBuf[1..])
      && (r.EndOfFile? <==> c.closed && c.remaining == [] && (race || c.readBuf == []))
      && (r.TimedOut? <==> !c.closed && c.remaining == [] && c.readBuf == [])
      && (!r.Got? ==> c' == c)
  {}

  function Reads(k: ConnID, ns: seq<nat>): seq<Action>
    decreases |ns|
  {
    if ns == [] then [] else [Read(k, ns[0], false)] + Reads(k, ns[1..])
  }

  /** How many Reads may be needed: one for each byte, and one for each chunk, which may be empty. */
  function Effort(c: Conn): nat {
    |Rest(c)| + |c.readBuf|
  }

  /** A Read into a buffer that is not empty makes progress while there is anything to read. */
  lemma ReadProgress(c: Conn, n: nat)
    requires n > 0
    ensures var (c', r) := RacingRead(c, n, false);
      if Effort(c) == 0 then !r.Got? && c' == c else r.Got? && Effort(c') < Effort(c)
  {
    MuxTheorems.ReadConserves(c, n, false);
    ReadReturns(c, n, false);
    if c.readBuf != [] { assert Rest(c) == c.remaining + (c.readBuf[0] + Flatten(c.readBuf[1..])); }
  }

  lemma NothingLeft(c: Conn)
    ensures Effort(c) == 0 <==> c.remaining == [] && c.readBuf == []
  {}

  ghost predicate Positive(ns: seq<nat>) {
    forall i :: 0 <= i < |ns| ==> ns[i] > 0
  }

  lemma FirstRead(m: Mux, k: ConnID, n: nat, rest: seq<Action>)
    requires k in m.conns && Legal(Next(m, Read(k, n, false)), rest)
    ensures var a := Read(k, n, false); var m' := Next(m, a);
      && Legal(m, [a] + rest) && After(m, [a] + rest) == After(m', rest)
      && MuxTheorems.ReadBytes(m, [a] + rest, k) == MuxTheorems.Returned(m, a, k) + MuxTheorems.ReadBytes(m', rest, k)
  {
    MuxTheorems.FirstAction(m, Read(k, n, false), rest);
    assert ([Read(k, n, false)] + rest)[1..] == rest;
  }

  /** Enough Reads into buffers of any sizes return exactly what the connection holds, and leave it empty. */
  lemma {:induction false} ReadingOnReturnsTheRest(m: Mux, k: ConnID, ns: seq<nat>)
    requires k in m.conns && Positive(ns) && |ns| >= Effort(m.conns[k])
    ensures Legal(m, Reads(k, ns)) && MuxTheorems.ReadBytes(m, Reads(k, ns), k) == Rest(m.conns[k])
    ensures var e := After(m, Reads(k, ns)); k in e.conns && Effort(e.conns[k]) == 0
    decreases |ns|
  {
    if ns == [] {
      NothingLeft(m.conns[k]);
    } else {
      var c, m' := m.conns[k], Next(m, Read(k, ns[0], false));
      ReadProgress(c, ns[0]);
      MuxTheorems.ReadConserves(c, ns[0], false);
      ReadingOnReturnsTheRest(m', k, ns[1..]);
      FirstRead(m, k, ns[0], Reads(k, ns[1..]));
    }
  }

  lemma {:induction false} InTwoParts(m: Mux, r1: seq<Action>, r2: seq<Action>, k: ConnID)
    requires Legal(m, r1) && Legal(After(m, r1), r2)
    ensures Legal(m, r1 + r2)
    ensures MuxTheorems.ReadBytes(m, r1 + r2, k)
            == MuxTheorems.ReadBytes(m, r1, k) + MuxTheorems.ReadBytes(After(m, r1), r2, k)
    decreases |r1|
  {
    if r1 == [] {
      assert r1 + r2 == r2;
    } else {
      assert (r1 + r2)[1..] == r1[1..] + r2;
      InTwoParts(Next(m, r1[0]), r1[1..], r2, k);
    }
  }

  /** From the acknowledgement on, whatever happens: reading on after any run returns the whole stream of the
      connection, every byte of it and nothing else. */
  lemma ReadersGetTheirWholeStream(m: Mux, ack: Message, run: seq<Action>, k: ConnID, ns: seq<nat>)
    requires k in m.pending && m.pending[k].None? && CanHandle(m, ack, false)
    requires ack.kind == MSG_CONNECT_ACK && ack.connID == k
    requires Legal(Received(m, ack, false), run) && MuxTheorems.NoAck(run, k) && Positive(ns)
    requires var e := After(Received(m, ack, false), run); k in e.conns ==> |ns| >= Effort(e.conns[k])
    ensures var m1, whole := Received(m, ack, false), run + Reads(k, ns);
      Legal(m1, whole) && MuxTheorems.ReadBytes(m1, whole, k) == MuxTheorems.Stream(run, k, m.dead)
  {
    var m1 := Received(m, ack, false);
    MuxTheorems.EachReaderGetsItsOwnStream(m, ack, run, k);
    ReadingOnReturnsTheRest(After(m1, run), k, ns);
    InTwoParts(m1, run, Reads(k, ns), k);
  }
}

/** What the multiplexer guarantees about every run: each connection reads exactly its own stream, and a
    dead transport stays dead. */
module MuxTheorems {
  import opened Wrappers
  import opened Octets
  import opened Framing
  import opened MuxSpec

  /* ---------- demultiplexing ---------- */

  /** What a step returns to the reader of connection k. */
  function Returned(m: Mux, a: Action, k: ConnID): Bytes
    requires Enabled(m, a)
  {
    if a.Read? && a.id == k && RacingRead(m.conns[k], a.n, a.race).1.Got?
    then RacingRead(m.conns[k], a.n, a.race).1.data
    else []
  }

  /** Everything Read returned on connection k. */
  function ReadBytes(m: Mux, run: seq<Action>, k: ConnID): Bytes
    requires Legal(m, run)
    decreases |run|
  {
    if run == [] then [] else Returned(m, run[0], k) + ReadBytes(Next(m, run[0]), run[1..], k)
  }

  /** Steps that end connection k's stream; whether the end of the read loop does depends on whether the
      mux had been stopped before. */
  predicate Ends(a: Action, k: ConnID, dead: bool) {
    match a
    case Recv(x, _) => x.connID == k && (x.kind == MSG_CLOSE || x.kind == MSG_ERROR)
    case Close(id, _) => id == k
    case ReadLoopStops(_) => !dead
    case PingFails(_) => true
    case _ => false
  }

  predicate Stops(a: Action) {
    a.ReadLoopStops? || a.PingFails? || a.CloseMux?
  }

  predicate Carries(a: Action, k: ConnID) {
    a.Recv? && a.x.kind == MSG_DATA && a.x.connID == k && !a.drop
  }

  /** The payloads of the Data frames for k before the first step that ends k, read off the run alone. */
  function Stream(run: seq<Action>, k: ConnID, dead: bool): Bytes
    decreases |run|
  {
    if run == [] || Ends(run[0], k, dead) then []
    else (if Carries(run[0], k) then run[0].x.payload else [])
         + Stream(run[1..], k, dead || Stops(run[0]))
  }

  predicate Acks(a: Action, k: ConnID) {
    a.Recv? && a.x.kind == MSG_CONNECT_ACK && a.x.connID == k
  }

  predicate NoAck(run: seq<Action>, k: ConnID) {
    forall i {:trigger Acks(run[i], k)} :: 0 <= i < |run| ==> !Acks(run[i], k)
  }

  lemma {:induction false} FlattenAppend(chunks: seq<Bytes>, last: Bytes)
    ensures Flatten(chunks + [last]) == Flatten(chunks) + last
  {
    if chunks == [] {
      assert Flatten([last]) == last + [];
    } else {
      FlattenAppend(chunks[1..], last);
      assert (chunks + [last])[1..] == chunks[1..] + [last];
      assert chunks[0] + (Flatten(chunks[1..]) + last) == Flatten(chunks) + last;
    }
  }

  /** A read moves bytes from the connection to its reader: none appear, none are lost. */
  lemma ReadConserves(c: Conn, n: nat, race: bool)
    ensures var (c', r) := RacingRead(c, n, race);
      && (if r.Got? then r.data else []) + Rest(c') == Rest(c)
      && c'.closed == c.closed && |c'.readBuf| <= |c.readBuf|
  {
    var (c', r) := RacingRead(c, n, race);
    if r.Got? && c.remaining != [] {
      assert c.remaining == r.data + c'.remaining;
    } else if r.Got? {
      assert c.readBuf[0] == r.data + c'.remaining;
    }
  }

  /** What handling a message other than an acknowledgement for k does to connection k. */
  lemma HandlingAt(m: Mux, x: Message, drop: bool, k: ConnID)
    requires k in m.conns && !(x.kind == MSG_CONNECT_ACK && x.connID == k)
    ensures var (c, m') := (m.conns[k], Received(m, x, drop));
      && k in m'.conns && m'.dead == m.dead
      && m'.conns[k].readBuf == c.readBuf + (if x.kind == MSG_DATA && x.connID == k && !drop && !c.closed
                                             then [x.payload] else [])
      && m'.conns[k].remaining == c.remaining
      && (c.closed ==> m'.conns[k].closed)
      && (x.connID != k || x.kind == MSG_DATA ==> m'.conns[k].closed == c.closed)
      && (x.connID == k && (x.kind == MSG_CLOSE || x.kind == MSG_ERROR)
          ==> m'.conns[k].closed || m'.loop == Exited)
  {}

  /** A step other than an acknowledgement keeps connection k's bytes. */
  lemma StepConserves(m: Mux, a: Action, k: ConnID)
    requires Enabled(m, a) && k in m.conns && !Acks(a, k) && |m.conns[k].readBuf| <= READ_BUF
    ensures var m' := Next(m, a);
      && k in m'.conns && |m'.conns[k].readBuf| <= READ_BUF
      && Returned(m, a, k) + Rest(m'.conns[k])
         == Rest(m.conns[k]) + (if Carries(a, k) && !m.conns[k].closed then a.x.payload else [])
  {
    if a.Read? && a.id == k {
      ReadConserves(m.conns[k], a.n, a.race);
    } else if a.Recv? {
      RecvConserves(m, a.x, a.drop, k);
    }
  }

  lemma RecvConserves(m: Mux, x: Message, drop: bool, k: ConnID)
    requires CanHandle(m, x, drop) && k in m.conns && !(x.kind == MSG_CONNECT_ACK && x.connID == k)
    requires |m.conns[k].readBuf| <= READ_BUF
    ensures var m' := Received(m, x, drop);
      && k in m'.conns && |m'.conns[k].readBuf| <= READ_BUF
      && Rest(m'.conns[k]) == Rest(m.conns[k]) + (if x.kind == MSG_DATA && x.connID == k && !drop && !m.conns[k].closed
                                                  then x.payload else [])
  {
    var c := m.conns[k];
    HandlingAt(m, x, drop, k);
    FlattenAppend(c.readBuf, x.payload);
    assert c.remaining + (Flatten(c.readBuf) + x.payload) == Rest(c) + x.payload;
    assert c.readBuf + [] == c.readBuf && Rest(c) + [] == Rest(c);
  }

  /** Whether connection k is closed after a step. */
  lemma StepCloses(m: Mux, a: Action, k: ConnID)
    requires Enabled(m, a) && k in m.conns && !Acks(a, k)
    ensures k in Next(m, a).conns
    ensures Next(m, a).dead == (m.dead || Stops(a))
    ensures m.conns[k].closed ==> Next(m, a).conns[k].closed
    ensures !m.conns[k].closed && !Ends(a, k, m.dead) ==> !Next(m, a).conns[k].closed
    ensures Ends(a, k, m.dead) ==> Next(m, a).conns[k].closed || Next(m, a).loop == Exited
  {
    if a.Recv? {
      RecvCloses(m, a.x, a.drop, k);
    } else if a.Read? && a.id == k {
      ReadConserves(m.conns[k], a.n, a.race);
    }
  }

  lemma RecvCloses(m: Mux, x: Message, drop: bool, k: ConnID)
    requires k in m.conns && !(x.kind == MSG_CONNECT_ACK && x.connID == k)
    ensures var m' := Received(m, x, drop); var end := x.connID == k && (x.kind == MSG_CLOSE || x.kind == MSG_ERROR);
      && k in m'.conns && m'.dead == m.dead
      && (m.conns[k].closed ==> m'.conns[k].closed)
      && (!m.conns[k].closed && !end ==> !m'.conns[k].closed)
      && (end ==> m'.conns[k].closed || m'.loop == Exited)
  {
    HandlingAt(m, x, drop, k);
  }

  lemma AfterExit(m: Mux, run: seq<Action>, k: ConnID)
    requires Legal(m, run) && m.loop == Exited
    ensures Stream(run, k, m.dead) == []
    decreases |run|
  {
    if run != [] && !Ends(run[0], k, m.dead) {
      assert Next(m, run[0]).loop == Exited;
      assert Next(m, run[0]).dead == (m.dead || Stops(run[0]));
      AfterExit(Next(m, run[0]), run[1..], k);
    }
  }

  lemma Append4(a: Bytes, b: Bytes, r0: Bytes, r1: Bytes, end: Bytes, c: Bytes, rest: Bytes)
    requires a + r1 == r0 + c && b + end == r1 + rest
    ensures (a + b) + end == r0 + (c + rest)
  {
    assert (a + b) + end == a + (b + end) == (a + r1) + rest == r0 + (c + rest);
  }

  /** Demultiplexing inverts multiplexing: over every run without a new acknowledgement for k, what was read
      on k, then what is left over, then what is queued, is what was there before followed by the stream for
      k in the run. Other connections contribute nothing, and at most 256 chunks are queued. */
  lemma {:induction false} Demultiplexed(m: Mux, run: seq<Action>, k: ConnID)
    requires Legal(m, run) && k in m.conns && |m.conns[k].readBuf| <= READ_BUF && NoAck(run, k)
    ensures k in After(m, run).conns && |After(m, run).conns[k].readBuf| <= READ_BUF
    ensures ReadBytes(m, run, k) + Rest(After(m, run).conns[k])
            == Rest(m.conns[k]) + (if m.conns[k].closed then [] else Stream(run, k, m.dead))
    decreases |run|
  {
    var open := !m.conns[k].closed;
    if run == [] {
      assert [] + Rest(m.conns[k]) == Rest(m.conns[k]) + [];
    } else {
      var a, m' := run[0], Next(m, run[0]);
      assert !Acks(run[0], k);
      assert forall i {:trigger Acks(run[1..][i], k)} :: 0 <= i < |run[1..]| ==>
               run[1..][i] == run[i + 1] && !Acks(run[i + 1], k);
      StepConserves(m, a, k);
      StepCloses(m, a, k);
      Demultiplexed(m', run[1..], k);
      var carried := if Carries(a, k) && open then a.x.payload else [];
      var rest := if m'.conns[k].closed then [] else Stream(run[1..], k, m'.dead);
      Append4(Returned(m, a, k), ReadBytes(m', run[1..], k), Rest(m.conns[k]), Rest(m'.conns[k]),
              Rest(After(m', run[1..]).conns[k]), carried, rest);
      if Ends(a, k, m.dead) && m'.loop == Exited { AfterExit(m', run[1..], k); }
      assert open && Ends(a, k, m.dead) ==> carried + rest == [];
    }
  }

  /** From the acknowledgement on: the connection starts empty, so its reader gets a prefix of its stream
      and nothing else. */
  lemma EachReaderGetsItsOwnStream(m: Mux, ack: Message, run: seq<Action>, k: ConnID)
    requires k in m.pending && m.pending[k].None? && CanHandle(m, ack, false)
    requires ack.kind == MSG_CONNECT_ACK && ack.connID == k
    requires Legal(Received(m, ack, false), run) && NoAck(run, k)
    ensures var m1 := Received(m, ack, false);
      && k in After(m1, run).conns
      && ReadBytes(m1, run, k) + Rest(After(m1, run).conns[k]) == Stream(run, k, m.dead)
      && ReadBytes(m1, run, k) <= Stream(run, k, m.dead)
  {
    var m1 := Received(m, ack, false);
    assert m1.conns[k] == FRESH_CONN && m1.dead == m.dead && Rest(FRESH_CONN) == [];
    Demultiplexed(m1, run, k);
    assert [] + Stream(run, k, m.dead) == Stream(run, k, m.dead);
  }

  /* ---------- the death of the transport ---------- */

  ghost predicate AllClosed(m: Mux) {
    forall id :: id in m.conns ==> m.conns[id].closed
  }

  ghost predicate AllAnswered(m: Mux) {
    forall id :: id in m.pending ==> m.pending[id].Some?
  }

  ghost predicate Buried(m: Mux) {
    m.dead && m.loop == Exited && AllClosed(m) && AllAnswered(m)
  }

  /** m' may differ from m only in bytes already received and in Dials that came back. */
  ghost predicate Inert(m: Mux, m': Mux) {
    && m'.out == m.out && m'.nextConnID == m.nextConnID && m'.conns.Keys == m.conns.Keys
    && m'.pending.Keys <= m.pending.Keys
    && (forall id :: id in m'.pending ==> m'.pending[id] == m.pending[id])
  }

  lemma BuriedStep(m: Mux, a: Action)
    requires Buried(m) && Enabled(m, a)
    ensures Buried(Next(m, a)) && Inert(m, Next(m, a))
  {
    if a.Read? { ReadConserves(m.conns[a.id], a.n, a.race); }
  }

  lemma {:induction false} BuriedForever(m: Mux, run: seq<Action>)
    requires Buried(m) && Legal(m, run)
    ensures Buried(After(m, run)) && Inert(m, After(m, run))
    decreases |run|
  {
    if run != [] {
      BuriedStep(m, run[0]);
      BuriedForever(Next(m, run[0]), run[1..]);
    }
  }

  /** When the read loop finds the transport dead, whatever happens afterwards: every connection is closed,
      none is ever registered again, every Dial still waiting can come back with an error, no later Dial
      does anything, and nothing more is written. */
  lemma TransportDeath(m: Mux, reason: Bytes, run: seq<Action>)
    requires !m.dead && Enabled(m, ReadLoopStops(reason)) && Legal(Next(m, ReadLoopStops(reason)), run)
    ensures var end := After(Next(m, ReadLoopStops(reason)), run);
      && (forall id :: !Registered(end, id)) && end.conns.Keys == m.conns.Keys
      && (forall id :: id in end.pending ==>
            && id in m.pending
            && CanFinish(end, id, Answered(if m.pending[id].Some? then m.pending[id].value else Refused(reason))))
      && (forall network, address, writeOk :: DialStarted(end, network, address, writeOk) == end)
      && end.out == m.out
  {
    var m' := Next(m, ReadLoopStops(reason));
    assert Buried(m') && m'.conns.Keys == m.conns.Keys && m'.pending.Keys == m.pending.Keys;
    BuriedForever(m', run);
  }

  /** closeOnce: on a closed connection every way of closing it changes nothing. */
  lemma ClosingTwiceIsOnce(m: Mux, id: ConnID, writeOk: bool, again: bool)
    requires id in m.conns
    ensures var once := LocallyClosed(m, id, writeOk);
      LocallyClosed(once, id, again) == once && RemoteClosed(once, id) == once
    ensures var once := RemoteClosed(m, id);
      LocallyClosed(once, id, again) == once && RemoteClosed(once, id) == once
    ensures !Registered(LocallyClosed(m, id, writeOk), id) && !Registered(RemoteClosed(m, id), id)
  {}

  ghost predicate Idle(m: Mux) {
    m.dead && m.pending == map[] && AllClosed(m)
  }

  lemma {:induction false} IdleForever(m: Mux, run: seq<Action>)
    requires Idle(m) && Legal(m, run)
    ensures AllClosed(After(m, run))
    decreases |run|
  {
    if run != [] {
      var a := run[0];
      if a.Read? { ReadConserves(m.conns[a.id], a.n, a.race); }
      assert Idle(Next(m, a));
      IdleForever(Next(m, a), run[1..]);
    }
  }

  ghost predicate StaysClosed(m: Mux) {
    forall run :: Legal(m, run) ==> AllClosed(After(m, run))
  }

  /** A missing pong is a weaker end: the read loop may still be handling one acknowledgement. All
      connections stay closed exactly when the loop was already gone or no Dial was waiting. */
  lemma PingDeathIsFinalIff(m: Mux, reason: Bytes)
    requires Enabled(m, PingFails(reason))
    ensures StaysClosed(Next(m, PingFails(reason))) <==> m.loop == Exited || m.pending == map[]
  {
    var m' := Next(m, PingFails(reason));
    if m.loop == Exited {
      forall run | Legal(m', run) ensures AllClosed(After(m', run)) { BuriedForever(m', run); }
    } else if m.pending == map[] {
      forall run | Legal(m', run) ensures AllClosed(After(m', run)) { IdleForever(m', run); }
    } else {
      var id :| id in m.pending;
      AckAfterStop(m', id);
    }
  }

  lemma FirstAction(m: Mux, a: Action, rest: seq<Action>)
    requires Enabled(m, a) && Legal(Next(m, a), rest)
    ensures Legal(m, [a] + rest) && After(m, [a] + rest) == After(Next(m, a), rest)
  {
    assert ([a] + rest)[1..] == rest;
  }

  /** That acknowledgement, from the start: a Dial, the missing pong, and only then the answer. */
  lemma LateAckIsReached()
    ensures var run := [DialStart([], [], true), PingFails([]), Recv(Message(MSG_CONNECT_ACK, 1, []), false)];
      Legal(NEW_MUX, run) && After(NEW_MUX, run).dead && Registered(After(NEW_MUX, run), 1)
  {
    var dial, ping, ack := DialStart([], [], true), PingFails([]), Recv(Message(MSG_CONNECT_ACK, 1, []), false);
    var m1 := Next(NEW_MUX, dial);
    var m2 := Next(m1, ping);
    assert m1.pending == map[1 := None];
    assert CanHandle(m2, ack.x, false);
    FirstAction(m2, ack, []);
    FirstAction(m1, ping, [ack] + []);
    FirstAction(NEW_MUX, dial, [ping] + ([ack] + []));
    assert [dial] + ([ping] + ([ack] + [])) == [dial, ping, ack];
  }

  /** Stopped with every connection closed and the loop gone. */
  lemma {:induction false} ExitedForever(m: Mux, run: seq<Action>)
    requires m.dead && m.loop == Exited && AllClosed(m) && Legal(m, run)
    ensures AllClosed(After(m, run))
    decreases |run|
  {
    if run != [] {
      var a := run[0];
      if a.Read? { ReadConserves(m.conns[a.id], a.n, a.race); }
      ExitedForever(Next(m, a), run[1..]);
    }
  }

  lemma AckAfterStop(m: Mux, id: ConnID)
    requires m.dead && m.loop != Exited && id in m.pending
    ensures !StaysClosed(m)
  {
    var late := [Recv(Message(MSG_CONNECT_ACK, id, []), false)];
    assert Legal(m, late);
    assert After(m, late) == Next(m, late[0]);
    assert After(m, late).conns[id] == FRESH_CONN;
  }

  /** Closing the mux itself closes no connection. It leaves all of them closed for good exactly when they
      were closed before, and the read loop was gone or no Dial was waiting. */
  lemma CloseIsFinalIff(m: Mux)
    ensures StaysClosed(Next(m, CloseMux)) <==> AllClosed(m) && (m.loop == Exited || m.pending == map[])
  {
    var m' := Next(m, CloseMux);
    if !AllClosed(m) {
      assert Legal(m', []) && After(m', []) == m' && !AllClosed(m');
    } else if m.loop == Exited {
      forall run | Legal(m', run) ensures AllClosed(After(m', run)) { ExitedForever(m', run); }
    } else if m.pending == map[] {
      forall run | Legal(m', run) ensures AllClosed(After(m', run)) { IdleForever(m', run); }
    } else {
      var id :| id in m.pending;
      AckAfterStop(m', id);
    }
  }

  /** A step by which connection k could end, or be replaced by another. */
  predicate Touches(a: Action, k: ConnID) {
    (a.Close? && a.id == k) || (a.Recv? && a.x.connID == k && a.x.kind in {MSG_CLOSE, MSG_ERROR, MSG_CONNECT_ACK})
  }

  /** What that means for a connection open at that moment: unless its holder closes it, or a close, an error or
      another acknowledgement for it was already being handled, it stays registered however the run goes on,
      even after the read loop ended. */
  lemma {:induction false} CloseStrandsConnections(m: Mux, run: seq<Action>, k: ConnID)
    requires m.dead && Registered(m, k) && Legal(m, run)
    requires forall a <- run :: !Touches(a, k)
    ensures Registered(After(m, run), k)
    decreases |run|
  {
    if run != [] {
      assert run[0] in run;
      StepCloses(m, run[0], k);
      CloseStrandsConnections(Next(m, run[0]), run[1..], k);
    }
  }

  lemma RegisteredByAck(m: Mux, x: Message, drop: bool, k: ConnID)
    requires !Registered(m, k) && Registered(Received(m, x, drop), k)
    ensures x.kind == MSG_CONNECT_ACK && x.connID == k && k in m.pending
    ensures Received(m, x, drop).conns[k] == FRESH_CONN
  {}

  /** Results of Dials: a waiting Dial is told that it is connected only together with its registration. */
  lemma NothingRegistersButAnAcknowledgedDial(m: Mux, a: Action, k: ConnID)
    requires Enabled(m, a) && !Registered(m, k) && Registered(Next(m, a), k)
    ensures Acks(a, k) && k in m.pending && Next(m, a).conns[k] == FRESH_CONN
  {
    if a.Recv? {
      RegisteredByAck(m, a.x, a.drop, k);
    } else if a.Read? {
      ReadConserves(m.conns[a.id], a.n, a.race);
    }
  }
}

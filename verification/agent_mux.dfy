/** AgentMux and MuxConn as the objects they are in internal/mux/agent_mux.go, each method proved to be the
    corresponding step of MuxSpec. */
module AgentMuxObject {
  import opened Wrappers
  import opened Octets
  import opened Framing
  import opened MuxSpec

  datatype ConnResult = ConnOf(conn: MuxConn) | Failure(reason: Bytes)

  datatype ReadStatus = Fine | Eof | Timeout

  class MuxConn {
    const id: ConnID
    const mux: AgentMux
    var readBuf: seq<Bytes>
    var remaining: Bytes
    var closed: bool

    constructor (id: ConnID, mux: AgentMux)
      ensures this.id == id && this.mux == mux && Value() == FRESH_CONN
    {
      this.id, this.mux := id, mux;
      readBuf, remaining, closed := [], [], false;
    }

    ghost function Value(): Conn
      reads this
    {
      Conn(readBuf, remaining, closed)
    }

    /** Fills b from the front; the bytes behind what was read keep their value. late: what is queued came
        after the first select had found nothing, and the second select prefers the end. */
    method Read(b: array<byte>, late: bool) returns (n: nat, status: ReadStatus)
      modifies this`readBuf, this`remaining, b
      ensures Value() == RacingRead(old(Value()), b.Length, late).0
      ensures match RacingRead(old(Value()), b.Length, late).1
              case Got(data) =>
                status == Fine && n == |data| && n <= b.Length && b[..n] == data && b[n..] == old(b[..])[n..]
              case EndOfFile => status == Eof && n == 0 && b[..] == old(b[..])
              case TimedOut => status == Timeout && n == 0 && b[..] == old(b[..])
      ensures old(remaining) != [] ==> status == Fine && n == Min(b.Length, |old(remaining)|)
      ensures old(remaining) == [] && old(readBuf) != [] && !(late && old(closed))
              ==> status == Fine && n == Min(b.Length, |old(readBuf)[0]|)
    {
      if |remaining| > 0 {
        n := Min(b.Length, |remaining|);
        Copy(b, 0, remaining);
        remaining := remaining[n..];
        return n, Fine;
      }
      if late && closed {
        return 0, Eof;
      }
      if |readBuf| > 0 {
        var data := readBuf[0];
        readBuf := readBuf[1..];
        n := Min(b.Length, |data|);
        Copy(b, 0, data);
        if n < |data| {
          remaining := data[n..];
        }
        return n, Fine;
      }
      return 0, if closed then Eof else Timeout;
    }

    method Write(data: Bytes, writeOk: bool) returns (ok: bool)
      requires mux.Valid() && mux.Newest(this)
      modifies mux`out
      ensures mux.Valid() && mux.Value() == Written(old(mux.Value()), id, data, writeOk)
      ensures ok <==> !closed && writeOk
    {
      if closed {
        return false;
      }
      ok := mux.WriteMessage(Message(MSG_DATA, id, data), writeOk);
    }

    /** The one-shot close: the flag, the done channel and the map entry. */
    method CloseFromRemote()
      requires mux.Valid() && mux.Newest(this)
      modifies this`closed, mux`conns
      ensures mux.Valid() && mux.Value() == RemoteClosed(old(mux.Value()), id)
      ensures mux.conns == old(mux.conns) - {id}
    {
      if !closed {
        closed := true;
        mux.UnregisterConn(id);
        assert mux.Conns() == old(mux.Conns())[id := Value()];
      }
    }

    /** The same, and the agent is told. */
    method Close(writeOk: bool)
      requires mux.Valid() && mux.Newest(this)
      modifies this`closed, mux`conns, mux`out
      ensures mux.Valid() && mux.Value() == LocallyClosed(old(mux.Value()), id, writeOk)
    {
      if !closed {
        CloseFromRemote();
        var _ := mux.WriteMessage(Message(MSG_CLOSE, id, []), writeOk);
      }
    }
  }

  class AgentMux {
    var nextConnID: ConnID
    var pending: map<ConnID, Option<ConnResult>>
    var conns: map<ConnID, MuxConn>
    var dead: bool
    var out: seq<Message>
    /** The newest MuxConn made for each id, registered or not. */
    ghost var made: map<ConnID, MuxConn>

    constructor ()
      ensures Valid() && Value() == NEW_MUX
    {
      nextConnID, pending, conns, dead, out, made := 0, map[], map[], false, [], map[];
    }

    /** conns holds exactly the connections that are not closed. */
    ghost predicate Valid()
      reads this, made.Values
    {
      && (forall id :: id in made ==> made[id].id == id && made[id].mux == this)
      && (forall id :: id in conns <==> id in made && !made[id].closed)
      && (forall id :: id in conns ==> conns[id] == made[id])
      && (forall id :: id in pending && pending[id].Some? && pending[id].value.ConnOf?
            ==> pending[id].value.conn.id == id)
    }

    ghost predicate Newest(c: MuxConn)
      reads this
    {
      c.id in made && made[c.id] == c
    }

    static ghost function ResultOf(slot: Option<ConnResult>): Option<DialResult> {
      match slot
      case None => None
      case Some(ConnOf(_)) => Some(Connected)
      case Some(Failure(reason)) => Some(Refused(reason))
    }

    static ghost function Results(slots: map<ConnID, Option<ConnResult>>): map<ConnID, Option<DialResult>> {
      map id | id in slots :: ResultOf(slots[id])
    }

    static lemma ResultsUpdate(slots: map<ConnID, Option<ConnResult>>, id: ConnID, slot: Option<ConnResult>)
      ensures Results(slots[id := slot]) == Results(slots)[id := ResultOf(slot)]
      ensures Results(slots - {id}) == Results(slots) - {id}
    {}

    ghost function Conns(): map<ConnID, Conn>
      reads this, made.Values
    {
      map id | id in made :: made[id].Value()
    }

    /** The state as a value; where the read loop stands is not a field. */
    ghost function Value(): Mux
      reads this, made.Values
    {
      Mux(nextConnID, Results(pending), Conns(), dead, Running, out)
    }

    method WriteMessage(x: Message, writeOk: bool) returns (ok: bool)
      requires Valid()
      modifies this`out
      ensures Valid() && ok == writeOk
      ensures Value() == if writeOk then old(Value()).(out := old(out) + [x]) else old(Value())
    {
      if writeOk {
        out := out + [x];
      }
      ok := writeOk;
    }

    method UnregisterConn(id: ConnID)
      modifies this`conns
      ensures conns == old(conns) - {id}
    {
      conns := conns - {id};
    }

    /** A fresh id and its empty result channel. */
    method AddPending() returns (connID: ConnID)
      requires Valid()
      modifies this`nextConnID, this`pending
      ensures Valid() && connID == NextID(old(nextConnID))
      ensures Value() == old(Value()).(nextConnID := connID, pending := old(Value()).pending[connID := None])
    {
      nextConnID := (nextConnID + 1) % 0x1_0000_0000;
      connID := nextConnID;
      ResultsUpdate(pending, connID, None);
      pending := pending[connID := None];
      assert Conns() == old(Conns());
    }

    method RemovePending(connID: ConnID)
      requires Valid()
      modifies this`pending
      ensures Valid() && Value() == old(Value()).(pending := old(Value()).pending - {connID})
    {
      ResultsUpdate(pending, connID, None);
      pending := pending - {connID};
      assert Conns() == old(Conns());
    }

    /** Dial up to the point where it waits for its result. */
    method DialStart(network: Bytes, address: Bytes, writeOk: bool) returns (r: Option<ConnID>)
      requires Valid()
      modifies this`nextConnID, this`pending, this`out
      ensures Valid() && Value() == DialStarted(old(Value()), network, address, writeOk)
      ensures r == if old(dead) || !writeOk then None else Some(NextID(old(nextConnID)))
    {
      if dead {
        return None;
      }
      var connID := AddPending();
      var ok := WriteMessage(ConnectDirect(connID, network, address), writeOk);
      if !ok {
        RemovePending(connID);
        assert old(Value()).pending[connID := None] - {connID} == old(Value()).pending - {connID};
        return None;
      }
      return Some(connID);
    }

    /** Dial from there on: outcome is the case its select takes. */
    method DialFinish(connID: ConnID, outcome: DialOutcome) returns (r: Option<MuxConn>)
      requires Valid() && CanFinish(Value(), connID, outcome)
      modifies this`pending
      ensures Valid()
      ensures Value() == old(Value()).(pending := old(Value()).pending - {connID})
      ensures r.Some? <==> outcome == Answered(Connected)
      ensures r.Some? ==> r.value.id == connID
    {
      r := None;
      if outcome.Answered? {
        assert ResultOf(pending[connID]) == Some(outcome.result);
        var result := pending[connID].value;
        if result.ConnOf? {
          r := Some(result.conn);
        }
      }
      RemovePending(connID);
    }

    /** blocked: the result channel was full, and the read loop waits on it for ever. */
    method Deliver(connID: ConnID, result: ConnResult) returns (blocked: bool)
      requires Valid() && connID in pending && (result.ConnOf? ==> result.conn.id == connID)
      modifies this`pending
      ensures Valid() && (blocked <==> old(pending[connID]).Some?)
      ensures pending == if blocked then old(pending) else old(pending)[connID := Some(result)]
      ensures Value() == old(Value()).(pending := if blocked then old(Value()).pending
                                                  else old(Value()).pending[connID := ResultOf(Some(result))])
    {
      blocked := pending[connID].Some?;
      if !blocked {
        ResultsUpdate(pending, connID, Some(result));
        pending := pending[connID := Some(result)];
        assert Conns() == old(Conns());
      }
    }

    /** newMuxConn and its registration. */
    method RegisterConn(connID: ConnID) returns (conn: MuxConn)
      requires Valid()
      modifies this`conns, this`made
      ensures Valid() && fresh(conn) && conn.id == connID && made == old(made)[connID := conn]
      ensures Value() == old(Value()).(conns := old(Value()).conns[connID := FRESH_CONN])
    {
      conn := new MuxConn(connID, this);
      conns := conns[connID := conn];
      made := made[connID := conn];
      assert Conns() == old(Conns())[connID := FRESH_CONN];
    }

    method HandleConnectAck(connID: ConnID) returns (blocked: bool)
      requires Valid()
      modifies this`conns, this`made, this`pending
      ensures Valid()
      ensures forall id :: id in made ==> (id in old(made) && made[id] == old(made)[id]) || fresh(made[id])
      ensures var spec := OnConnectAck(old(Value()), connID);
        Value() == spec.(loop := Running) && (blocked <==> spec.loop == Exited)
    {
      if connID !in pending {
        return false;
      }
      var conn := RegisterConn(connID);
      blocked := Deliver(connID, ConnOf(conn));
    }

    /** A full queue is where the code waits; drop is the case of the select that gives up on a dead mux. */
    method HandleData(connID: ConnID, payload: Bytes, drop: bool)
      requires Valid() && CanHandle(Value(), Message(MSG_DATA, connID, payload), drop)
      modifies made.Values
      ensures Valid() && Value() == OnData(old(Value()), connID, payload, drop)
    {
      if connID !in conns {
        return;
      }
      var conn := conns[connID];
      if !drop {
        conn.readBuf := conn.readBuf + [payload];
      }
    }

    method HandleClose(connID: ConnID)
      requires Valid()
      modifies this`conns, made.Values
      ensures Valid() && Value() == RemoteClosed(old(Value()), connID)
    {
      if connID in conns {
        conns[connID].CloseFromRemote();
      }
    }

    method HandleError(connID: ConnID, reason: Bytes) returns (blocked: bool)
      requires Valid()
      modifies this`pending, this`conns, made.Values
      ensures Valid()
      ensures var spec := OnError(old(Value()), connID, reason);
        Value() == spec.(loop := Running) && (blocked <==> spec.loop == Exited)
    {
      blocked := false;
      if connID in pending {
        blocked := Deliver(connID, Failure(reason));
        if blocked {
          return;
        }
      }
      if connID in conns {
        conns[connID].CloseFromRemote();
      }
    }

    /** Fails every waiting Dial that has no result yet. */
    method FailPending(reason: Bytes)
      requires Valid()
      modifies this`pending
      ensures Valid()
      ensures var was := old(Value());
        Value() == was.(pending := map id | id in was.pending :: Failed(was.pending[id], reason))
    {
      var todo := pending.Keys;
      while todo != {}
        invariant todo <= pending.Keys == old(pending.Keys)
        invariant forall id :: id in pending ==>
                    pending[id] == if id !in todo && old(pending)[id].None? then Some(Failure(reason))
                                   else old(pending)[id]
        decreases todo
      {
        var id :| id in todo;
        if pending[id].None? {
          pending := pending[id := Some(Failure(reason))];
        }
        todo := todo - {id};
      }
      assert Conns() == old(Conns());
    }

    static ghost function ClosedExcept(conns: map<ConnID, Conn>, open: set<ConnID>): map<ConnID, Conn> {
      map id | id in conns :: conns[id].(closed := conns[id].closed || id !in open)
    }

    static lemma CloseOneMore(conns: map<ConnID, Conn>, open: set<ConnID>, id: ConnID, m: Mux)
      requires id in open && id in conns && m.conns == ClosedExcept(conns, open)
      ensures RemoteClosed(m, id).conns == ClosedExcept(conns, open - {id})
    {}

    /** closeFromRemote on a snapshot of the registered connections. */
    method CloseAll()
      requires Valid()
      modifies this`conns, made.Values
      ensures Valid()
      ensures var was := old(Value());
        Value() == was.(conns := map id | id in was.conns :: was.conns[id].(closed := true))
    {
      var snapshot := conns;
      var todo := snapshot.Keys;
      ghost var before := Value();
      assert ClosedExcept(before.conns, todo) == before.conns;
      while todo != {}
        invariant Valid() && todo == conns.Keys && todo <= snapshot.Keys
        invariant Value() == before.(conns := ClosedExcept(before.conns, todo))
        decreases todo
      {
        var id :| id in todo;
        CloseOneMore(before.conns, todo, id, Value());
        snapshot[id].CloseFromRemote();
        todo := todo - {id};
      }
    }

    /** cancel, and the transport is closed; no connection is. */
    method Close()
      requires Valid()
      modifies this`dead
      ensures Valid() && Value() == old(Value()).(dead := true)
    {
      dead := true;
      assert Conns() == old(Conns());
    }

    method DeclareDead(reason: Bytes)
      requires Valid()
      modifies this`pending, this`conns, this`dead, made.Values
      ensures Valid() && Value() == DeclaredDead(old(Value()), reason)
    {
      FailPending(reason);
      CloseAll();
      Close();
    }

    /** The read loop's dispatch. */
    method HandleMessage(x: Message, drop: bool) returns (blocked: bool)
      requires Valid() && CanHandle(Value(), x, drop)
      modifies this`pending, this`conns, this`made, made.Values
      ensures Valid()
      ensures forall id :: id in made ==> (id in old(made) && made[id] == old(made)[id]) || fresh(made[id])
      ensures var spec := Handled(old(Value()), x, drop);
        Value() == spec.(loop := Running) && (blocked <==> spec.loop == Exited)
    {
      blocked := false;
      if x.kind == MSG_CONNECT_ACK {
        blocked := HandleConnectAck(x.connID);
      } else if x.kind == MSG_DATA {
        HandleData(x.connID, x.payload, drop);
      } else if x.kind == MSG_CLOSE {
        HandleClose(x.connID);
      } else if x.kind == MSG_ERROR {
        blocked := HandleError(x.connID, x.payload);
      }
    }

    /** Whether the handler of x gets through without waiting. */
    method Fits(x: Message) returns (fits: bool)
      requires Valid()
      ensures fits <==> CanHandle(Value(), x, false)
    {
      if x.kind == MSG_DATA && x.connID in conns {
        return |conns[x.connID].readBuf| < READ_BUF;
      }
      if (x.kind == MSG_CONNECT_ACK || x.kind == MSG_ERROR) && x.connID in pending && !dead {
        return pending[x.connID].None?;
      }
      return true;
    }

    /** One turn of the read loop on a live mux: goOn after a message was handled, waits when the next one
        would have to wait, neither when the reader failed and the transport was declared dead. */
    method Turn(r: Reader, reason: Bytes) returns (goOn: bool, waits: bool)
      requires Valid() && !dead
      modifies this, made.Values, r
      ensures Valid()
      ensures forall id :: id in made ==> (id in old(made) && made[id] == old(made)[id]) || fresh(made[id])
      ensures goOn ==> !waits && |r.Pending()| < |old(r.Pending())|
                       && TurnTaken(old(Value()), DecodeAll(old(r.Pending())).0, Value(), DecodeAll(r.Pending()).0)
      ensures waits ==> HandledAll(old(Value()), DecodeAll(old(r.Pending())).0).None?
      ensures !goOn && !waits ==> DecodeAll(old(r.Pending())).0 == [] && Value() == DeclaredDead(old(Value()), reason)
    {
      ghost var stream := r.Pending();
      var msg := r.ReadMessage();
      if msg.Err? {
        DeclareDead(reason);
        return false, false;
      }
      DecodeAllFirst(stream, msg.value, r.Pending());
      goOn := HandleNext(msg.value, DecodeAll(r.Pending()).0);
      waits := !goOn;
    }

    /** Handles x if it fits; rest is what the transport holds behind it. */
    method HandleNext(x: Message, ghost rest: seq<Message>) returns (fits: bool)
      requires Valid() && !dead
      modifies this`pending, this`conns, this`made, made.Values
      ensures Valid()
      ensures forall id :: id in made ==> (id in old(made) && made[id] == old(made)[id]) || fresh(made[id])
      ensures fits ==> TurnTaken(old(Value()), [x] + rest, Value(), rest)
      ensures !fits ==> HandledAll(old(Value()), [x] + rest).None?
    {
      HandledAllFirst(Value(), x, rest);
      fits := Fits(x);
      if fits {
        var _ := HandleMessage(x, false);
      }
    }

    /** readLoop on a transport nobody else disturbs: message after message until the reader fails, then
        the transport is declared dead. waits: the next message had to wait for a Read or a Dial, which
        never come. */
    method ReadLoop(r: Reader, reason: Bytes) returns (waits: bool)
      requires Valid()
      modifies this, made.Values, r
      ensures Valid()
      ensures var end := HandledAll(old(Value()), DecodeAll(old(r.Pending())).0);
        && (waits <==> end.None?)
        && (!waits ==> Value() == if end.value.dead then end.value else DeclaredDead(end.value, reason))
    {
      ghost var goal := HandledAll(Value(), DecodeAll(r.Pending()).0);
      while !dead
        invariant Valid()
        invariant forall id :: id in made ==> (id in old(made) && made[id] == old(made)[id]) || fresh(made[id])
        invariant goal == HandledAll(Value(), DecodeAll(r.Pending()).0)
        decreases |r.Pending()|
      {
        var goOn;
        goOn, waits := Turn(r, reason);
        if !goOn {
          return;
        }
      }
      return false;
    }
  }

  /** The messages handled one after the other, or None if one of them would have to wait. */
  ghost function HandledAll(m: Mux, xs: seq<Message>): Option<Mux>
    decreases |xs|
  {
    if m.dead || xs == [] then Some(m)
    else if !CanHandle(m, xs[0], false) then None
    else HandledAll(Handled(m, xs[0], false).(loop := Running), xs[1..])
  }

  lemma HandledAllFirst(m: Mux, x: Message, rest: seq<Message>)
    requires !m.dead
    ensures HandledAll(m, [x] + rest)
            == if CanHandle(m, x, false) then HandledAll(Handled(m, x, false).(loop := Running), rest) else None
  {
    assert ([x] + rest)[1..] == rest;
  }

  ghost predicate TurnTaken(m: Mux, xs: seq<Message>, m': Mux, xs': seq<Message>) {
    HandledAll(m', xs') == HandledAll(m, xs)
  }
}

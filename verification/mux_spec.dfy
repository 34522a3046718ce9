/** The host-side multiplexer as a state machine over values: internal/mux/agent_mux.go. Every handler,
    every Dial half and every method of a connection is one step. */
module MuxSpec {
  import opened Wrappers
  import opened Octets
  import opened Framing

  const READ_BUF: nat := 256

  /** A MuxConn: chunks queued by the read loop, what a short Read left over, and whether the one-shot
      close has run. */
  datatype Conn = Conn(readBuf: seq<Bytes>, remaining: Bytes, closed: bool)

  const FRESH_CONN := Conn([], [], false)

  /** connResult: what the read loop hands to a waiting Dial. */
  datatype DialResult = Connected | Refused(reason: Bytes)

  /** How a waiting Dial comes back. */
  datatype DialOutcome = Cancelled | MuxClosed | Answered(result: DialResult)

  /** The read loop notices cancellation only between messages, so when the mux is stopped from outside it
      may still handle one message. */
  datatype ReadLoop = Running | LastMessage | Exited

  /** pending holds, per waiting Dial, its one-slot result channel. conns holds the newest MuxConn made for
      each id; it is in the code's conns map exactly while it is not closed. out is everything the
      transport accepted. */
  datatype Mux = Mux(nextConnID: ConnID, pending: map<ConnID, Option<DialResult>>, conns: map<ConnID, Conn>,
                     dead: bool, loop: ReadLoop, out: seq<Message>)

  const NEW_MUX := Mux(0, map[], map[], false, Running, [])

  predicate Registered(m: Mux, id: ConnID) {
    id in m.conns && !m.conns[id].closed
  }

  function Rest(c: Conn): Bytes {
    c.remaining + Flatten(c.readBuf)
  }

  /* ---------- Dial ---------- */

  function NextID(id: ConnID): ConnID {
    (id + 1) % 0x1_0000_0000
  }

  function ConnectDirect(id: ConnID, network: Bytes, address: Bytes): Message {
    Message(MSG_CONNECT_DIRECT, id, ConnectPayload(network, address))
  }

  /** Up to the point where Dial waits. On a stopped mux nothing happens; on a failed write the pending
      entry is removed again. */
  function DialStarted(m: Mux, network: Bytes, address: Bytes, writeOk: bool): Mux {
    var id := NextID(m.nextConnID);
    if m.dead then m
    else if writeOk then m.(nextConnID := id, pending := m.pending[id := None],
                            out := m.out + [ConnectDirect(id, network, address)])
    else m.(nextConnID := id, pending := m.pending - {id})
  }

  predicate CanFinish(m: Mux, id: ConnID, outcome: DialOutcome) {
    && id in m.pending
    && (outcome.MuxClosed? ==> m.dead)
    && (outcome.Answered? ==> m.pending[id] == Some(outcome.result))
  }

  /* ---------- the read loop ---------- */

  function RemoteClosed(m: Mux, id: ConnID): Mux {
    if Registered(m, id) then m.(conns := m.conns[id := m.conns[id].(closed := true)]) else m
  }

  /** respCh <- result: a full channel blocks the loop for good, as its Dial never reads a second time. */
  function Answer(m: Mux, id: ConnID, result: DialResult): Mux
    requires id in m.pending
  {
    if m.pending[id].None? then m.(pending := m.pending[id := Some(result)]) else m.(loop := Exited)
  }

  function OnConnectAck(m: Mux, id: ConnID): Mux {
    if id in m.pending then Answer(m.(conns := m.conns[id := FRESH_CONN]), id, Connected) else m
  }

  function Queued(c: Conn, payload: Bytes): Conn {
    c.(readBuf := c.readBuf + [payload])
  }

  function OnData(m: Mux, id: ConnID, payload: Bytes, drop: bool): Mux {
    if Registered(m, id) && !drop then m.(conns := m.conns[id := Queued(m.conns[id], payload)]) else m
  }

  function OnError(m: Mux, id: ConnID, reason: Bytes): Mux {
    if id !in m.pending then RemoteClosed(m, id)
    else if m.pending[id].None? then RemoteClosed(Answer(m, id, Refused(reason)), id)
    else Answer(m, id, Refused(reason))
  }

  function Handled(m: Mux, x: Message, drop: bool): Mux {
    if x.kind == MSG_CONNECT_ACK then OnConnectAck(m, x.connID)
    else if x.kind == MSG_DATA then OnData(m, x.connID, x.payload, drop)
    else if x.kind == MSG_CLOSE then RemoteClosed(m, x.connID)
    else if x.kind == MSG_ERROR then OnError(m, x.connID, x.payload)
    else m
  }

  /** A queue with room takes the data; a stopped mux may drop it; otherwise the read loop waits. An answer
      for a Dial that was already told it is connected would block the loop. */
  predicate CanHandle(m: Mux, x: Message, drop: bool) {
    && m.loop != Exited
    && (drop ==> m.dead)
    && (x.kind == MSG_DATA && Registered(m, x.connID) && !drop ==> |m.conns[x.connID].readBuf| < READ_BUF)
    && ((x.kind == MSG_CONNECT_ACK || x.kind == MSG_ERROR) && x.connID in m.pending && !m.dead
        ==> m.pending[x.connID].None?)
  }

  function Received(m: Mux, x: Message, drop: bool): Mux {
    var h := Handled(m, x, drop);
    if m.loop == LastMessage then h.(loop := Exited) else h
  }

  /* ---------- the end of the transport ---------- */

  function Failed(slot: Option<DialResult>, reason: Bytes): Option<DialResult> {
    if slot.None? then Some(Refused(reason)) else slot
  }

  function DeclaredDead(m: Mux, reason: Bytes): Mux {
    m.(pending := map id | id in m.pending :: Failed(m.pending[id], reason),
       conns := map id | id in m.conns :: m.conns[id].(closed := true),
       dead := true)
  }

  function Stopping(loop: ReadLoop): ReadLoop {
    if loop == Running then LastMessage else loop
  }

  /* ---------- a connection ---------- */

  datatype ReadResult = Got(data: Bytes) | EndOfFile | TimedOut

  function Min(a: nat, b: nat): nat {
    if a < b then a else b
  }

  /** Read into n bytes: left-overs first, then one queued chunk, then the end. */
  function ReadStep(c: Conn, n: nat): (Conn, ReadResult) {
    if c.remaining != [] then
      var k := Min(n, |c.remaining|);
      (c.(remaining := c.remaining[k..]), Got(c.remaining[..k]))
    else if c.readBuf != [] then
      var data := c.readBuf[0];
      var k := Min(n, |data|);
      (c.(readBuf := c.readBuf[1..], remaining := data[k..]), Got(data[..k]))
    else (c, if c.closed then EndOfFile else TimedOut)
  }

  /** The last select of Read may report the end although a chunk was queued since the first one. */
  function RacingRead(c: Conn, n: nat, race: bool): (Conn, ReadResult) {
    if race && c.closed && c.remaining == [] then (c, EndOfFile) else ReadStep(c, n)
  }

  function Written(m: Mux, id: ConnID, data: Bytes, writeOk: bool): Mux
    requires id in m.conns
  {
    if !m.conns[id].closed && writeOk then m.(out := m.out + [Message(MSG_DATA, id, data)]) else m
  }

  function LocallyClosed(m: Mux, id: ConnID, writeOk: bool): Mux
    requires id in m.conns
  {
    if m.conns[id].closed then m
    else m.(conns := m.conns[id := m.conns[id].(closed := true)],
            out := if writeOk then m.out + [Message(MSG_CLOSE, id, [])] else m.out)
  }

  /* ---------- runs ---------- */

  datatype Action =
    | DialStart(network: Bytes, address: Bytes, writeOk: bool)
    | DialFinish(id: ConnID, outcome: DialOutcome)
    | Recv(x: Message, drop: bool)
    | Read(id: ConnID, n: nat, race: bool)
    | Write(id: ConnID, data: Bytes, writeOk: bool)
    | Close(id: ConnID, writeOk: bool)
    | ReadLoopStops(reason: Bytes)
    | PingFails(reason: Bytes)
    | CloseMux

  predicate Enabled(m: Mux, a: Action) {
    match a
    case DialStart(_, _, _) => true
    case DialFinish(id, outcome) => CanFinish(m, id, outcome)
    case Recv(x, drop) => CanHandle(m, x, drop)
    case Read(id, _, _) => id in m.conns
    case Write(id, _, _) => id in m.conns
    case Close(id, _) => id in m.conns
    case ReadLoopStops(_) => m.loop != Exited
    case PingFails(_) => !m.dead
    case CloseMux => true
  }

  function Next(m: Mux, a: Action): Mux
    requires Enabled(m, a)
  {
    match a
    case DialStart(network, address, writeOk) => DialStarted(m, network, address, writeOk)
    case DialFinish(id, _) => m.(pending := m.pending - {id})
    case Recv(x, drop) => Received(m, x, drop)
    case Read(id, n, race) => m.(conns := m.conns[id := RacingRead(m.conns[id], n, race).0])
    case Write(id, data, writeOk) => Written(m, id, data, writeOk)
    case Close(id, writeOk) => LocallyClosed(m, id, writeOk)
    case ReadLoopStops(reason) => (if m.dead then m else DeclaredDead(m, reason)).(loop := Exited)
    case PingFails(reason) => DeclaredDead(m, reason).(loop := Stopping(m.loop))
    case CloseMux => m.(dead := true, loop := Stopping(m.loop))
  }

  predicate Legal(m: Mux, run: seq<Action>)
    decreases |run|
  {
    run != [] ==> Enabled(m, run[0]) && Legal(Next(m, run[0]), run[1..])
  }

  function After(m: Mux, run: seq<Action>): Mux
    requires Legal(m, run)
    decreases |run|
  {
    if run == [] then m else After(Next(m, run[0]), run[1..])
  }
}

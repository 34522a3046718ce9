/** Host and agent joined by two FIFO links. Each end's log of accepted writes is the link; the other end has
    handled a prefix of it. A frame over the size limit is never handled: it ends the reading side. */
module Tunnel {
  import opened Wrappers
  import opened Octets
  import opened Framing
  import opened MuxSpec
  import opened AgentSpec

  /** The remaining fields after downRead are a history no step consults: how many Dials took an id, what
      each id was dialled to, and per id the bytes the host's reader got, the host's writer wrote, and the
      target sent. */
  datatype System = System(
    host: Mux, agent: Agent, upRead: nat, downRead: nat,
    dials: nat, requests: map<ConnID, Target>, read: map<ConnID, Bytes>, written: map<ConnID, Bytes>,
    sourced: map<ConnID, Bytes>)

  const INIT := System(NEW_MUX, NEW_AGENT, 0, 0, 0, map[], map[], map[], map[])

  function At(m: map<ConnID, Bytes>, k: ConnID): Bytes {
    if k in m then m[k] else []
  }

  function Extend(m: map<ConnID, Bytes>, k: ConnID, more: Bytes): map<ConnID, Bytes> {
    m[k := At(m, k) + more]
  }

  /** drop is used by HostReceives only; the message is the next one on the link. */
  datatype Step =
    | Host(a: MuxSpec.Action)
    | HostReceives(drop: bool)
    | AgentReceives(taken: nat, reason: Bytes, writeOk: bool)
    | TargetDialled(id: ConnID, success: bool, reason: Bytes, writeOk: bool)
    | TargetSends(id: ConnID, data: Bytes, writeOk: bool, closeOk: bool)
    | TargetEnds(id: ConnID, closeOk: bool)

  predicate Can(s: System, st: Step) {
    match st
    case Host(a) => !a.Recv? && Enabled(s.host, a) && (a.DialStart? ==> s.dials + 1 < 0x1_0000_0000)
    case HostReceives(drop) => 
      && s.downRead < |s.agent.out| && |s.agent.out[s.downRead].payload| <= MAX_PAYLOAD
      && CanHandle(s.host, s.agent.out[s.downRead], drop)
    case AgentReceives(_, _, _) => !s.agent.stopped && s.upRead < |s.host.out|
    case TargetDialled(id, _, _, _) => id in s.agent.dialing
    case TargetSends(id, data, _, _) => Reading(s.agent, id) && |data| <= READ_CHUNK
    case TargetEnds(id, _) => Reading(s.agent, id)
  }

  function Do(s: System, st: Step): System
    requires Can(s, st)
  {
    match st
    case Host(a) => HostDoes(s, a)
    case HostReceives(drop) =>
      s.(host := Received(s.host, s.agent.out[s.downRead], drop), downRead := s.downRead + 1)
    case AgentReceives(taken, reason, writeOk) =>
      var x := s.host.out[s.upRead];
      s.(agent := AgentReceived(s.agent, x, taken, reason, writeOk),
         upRead := if |x.payload| > MAX_PAYLOAD then s.upRead else s.upRead + 1)
    case TargetDialled(id, success, reason, writeOk) =>
      s.(agent := Dialled(s.agent, id, success, reason, writeOk))
    case TargetSends(id, data, writeOk, closeOk) =>
      s.(agent := Forwarded(s.agent, id, data, writeOk, closeOk), sourced := Extend(s.sourced, id, data))
    case TargetEnds(id, closeOk) => s.(agent := Ended(s.agent, id, closeOk))
  }

  function HostDoes(s: System, a: MuxSpec.Action): System
    requires Enabled(s.host, a)
  {
    var s1 := s.(host := Next(s.host, a));
    match a
    case DialStart(network, address, _) =>
      if s.host.dead then s1
      else s1.(dials := s.dials + 1, requests := s.requests[NextID(s.host.nextConnID) := Target(network, address)])
    case Read(id, n, race) =>
      var r := RacingRead(s.host.conns[id], n, race).1;
      if r.Got? then s1.(read := Extend(s.read, id, r.data)) else s1
    case Write(id, data, writeOk) =>
      if writeOk && !s.host.conns[id].closed then s1.(written := Extend(s.written, id, data)) else s1
    case _ => s1
  }

  predicate Run(s: System, run: seq<Step>)
    decreases |run|
  {
    run != [] ==> Can(s, run[0]) && Run(Do(s, run[0]), run[1..])
  }

  function End(s: System, run: seq<Step>): System
    requires Run(s, run)
    decreases |run|
  {
    if run == [] then s else End(Do(s, run[0]), run[1..])
  }

  /* ---------- one connection's part of a link ---------- */

  /** The messages of a link that belong to connection k. */
  function Of(log: seq<Message>, k: ConnID): seq<Message> {
    if log == [] then []
    else
      var last := log[|log| - 1];
      Of(log[..|log| - 1], k) + (if last.connID == k then [last] else [])
  }

  function DataBytes(xs: seq<Message>): Bytes {
    if xs == [] then []
    else
      var last := xs[|xs| - 1];
      DataBytes(xs[..|xs| - 1]) + (if last.kind == MSG_DATA then last.payload else [])
  }

  predicate IsAnswer(x: Message) {
    x.kind == MSG_CONNECT_ACK || x.kind == MSG_ERROR
  }

  /** What the agent may have said about one connection: nothing, one error, or one acknowledgement followed
      by data, and a close at the very end. */
  ghost predicate DownShape(down: seq<Message>) {
    && (forall i :: 0 < i < |down| ==> down[i].kind == MSG_DATA || down[i].kind == MSG_CLOSE)
    && (down != [] ==> IsAnswer(down[0]))
    && (|down| > 1 ==> down[0].kind == MSG_CONNECT_ACK)
    && (forall i :: 0 <= i < |down| - 1 ==> down[i].kind != MSG_CLOSE)
  }

  predicate Acked(down: seq<Message>) {
    down != [] && down[0].kind == MSG_CONNECT_ACK
  }

  /** What the host may have said about one connection: one request, then anything but requests. */
  ghost predicate UpShape(up: seq<Message>, k: ConnID, requests: map<ConnID, Target>) {
    && (up != [] ==>
          && k in requests && up[0].kind == MSG_CONNECT_DIRECT
          && up[0].payload == ConnectPayload(requests[k].network, requests[k].address))
    && (forall i :: 0 < i < |up| ==> up[i].kind == MSG_DATA || up[i].kind == MSG_CLOSE)
  }

  ghost predicate HasClose(xs: seq<Message>) {
    exists i :: 0 <= i < |xs| && xs[i].kind == MSG_CLOSE
  }

  /* ---------- the invariant for connection k ---------- */

  ghost predicate Global(s: System) {
    && s.upRead <= |s.host.out| && s.downRead <= |s.agent.out| && s.host.nextConnID == s.dials
    && (s.host.dead <==> s.host.loop != Running)
  }

  /** Connection k as the host holds it: the Dial waiting for it, its MuxConn, and the state of the mux. */
  datatype HostView = HostView(waiting: Option<Option<DialResult>>, conn: Option<Conn>, dead: bool, loop: ReadLoop)

  /** Connection k as the agent holds it: the dial under way, its Connection, and whether the map lists it. */
  datatype AgentView = AgentView(dialing: Option<Target>, conn: Option<Connection>, listed: bool)

  function Lookup<T>(m: map<ConnID, T>, k: ConnID): Option<T> {
    if k in m then Some(m[k]) else None
  }

  function HostAt(m: Mux, k: ConnID): HostView {
    HostView(Lookup(m.pending, k), Lookup(m.conns, k), m.dead, m.loop)
  }

  function AgentAt(a: Agent, k: ConnID): AgentView {
    AgentView(Lookup(a.dialing, k), Lookup(a.conns, k), k in a.connections)
  }

  /** An id not yet taken has left no trace; one without a connection has sent its request at most; one that
      is open has sent no close. */
  ghost predicate HostSent(taken: bool, up: seq<Message>, h: HostView) {
    && (!taken ==> up == [] && h.waiting.None? && h.conn.None?)
    && (h.conn.None? ==> |up| <= 1)
    && (h.conn.None? || !h.conn.value.closed ==> !HasClose(up))
  }

  predicate Taken(k: ConnID, dials: nat) {
    1 <= k <= dials
  }

  ghost predicate Asked(x: Message, target: Target) {
    Parsed(x.payload) == Some((target.network, target.address))
  }

  /** Where the request for a connection has got to at the agent. seen is what the agent has handled. */
  ghost predicate AgentSide(seen: seq<Message>, down: seq<Message>, v: AgentView) {
    && DownShape(down)
    && (seen == [] ==> v.dialing.None? && v.conn.None? && down == [])
    && (v.dialing.Some? ==> v.conn.None? && down == [] && seen != [] && Asked(seen[0], v.dialing.value))
    && (v.conn.Some? ==> seen != [] && Asked(seen[0], v.conn.value.target))
    && (v.conn.Some? ==> down == [] || Acked(down))
    && (v.conn.Some? && (down == [] || v.conn.value.closedOnce)
        ==> !v.conn.value.reading && !v.conn.value.writable)
    && (v.conn.None? || !v.conn.value.closedOnce ==> !HasClose(down))
    && (Acked(down) ==> v.conn.Some?)
    && (v.listed ==> v.conn.Some?)
  }

  /** A connection exists, and a Dial is told so, only after an acknowledgement was handled; while the
      transport lives nothing but an answer resolves a Dial. */
  ghost predicate HostSide(seen: seq<Message>, h: HostView) {
    && (h.conn.Some? ==> Acked(seen))
    && (h.waiting == Some(Some(Connected)) ==> Acked(seen))
    && (h.waiting.Some? && h.waiting.value.Some? && !h.dead ==> seen != [])
  }

  ghost predicate ReadOk(seen: seq<Message>, read: Bytes, h: HostView) {
    && (h.conn.None? ==> read == [])
    && (h.conn.Some? ==>
          && read + Rest(h.conn.value) <= DataBytes(seen)
          && (!h.conn.value.closed && h.loop != Exited ==> read + Rest(h.conn.value) == DataBytes(seen)))
  }

  ghost predicate SourcedOk(down: seq<Message>, sourced: Bytes, v: AgentView) {
    && DataBytes(down) <= sourced
    && (v.conn.None? ==> sourced == [])
    && (v.conn.Some? && v.conn.value.reading ==> DataBytes(down) == sourced)
  }

  ghost predicate GivenOk(seen: seq<Message>, v: AgentView) {
    v.conn.Some? ==>
      && v.conn.value.got <= DataBytes(seen)
      && (v.listed && v.conn.value.writable ==> v.conn.value.got == DataBytes(seen))
      && (v.listed <==> !HasClose(seen))
  }

  ghost predicate HostOk(up: seq<Message>, seen: seq<Message>, taken: bool, read: Bytes, h: HostView) {
    HostSent(taken, up, h) && HostSide(seen, h) && ReadOk(seen, read, h)
  }

  ghost predicate AgentOk(seen: seq<Message>, down: seq<Message>, sourced: Bytes, v: AgentView) {
    AgentSide(seen, down, v) && SourcedOk(down, sourced, v) && GivenOk(seen, v)
  }

  ghost predicate HostHalf(k: ConnID, m: Mux, seen: seq<Message>, taken: bool, read: Bytes, written: Bytes,
                           requests: map<ConnID, Target>) {
    && UpShape(Of(m.out, k), k, requests) && written == DataBytes(Of(m.out, k))
    && HostOk(Of(m.out, k), seen, taken, read, HostAt(m, k))
  }

  ghost predicate AgentHalf(k: ConnID, a: Agent, seen: seq<Message>, sourced: Bytes) {
    AgentOk(seen, Of(a.out, k), sourced, AgentAt(a, k))
  }

  ghost predicate Inv(s: System, k: ConnID) {
    && Global(s)
    && HostHalf(k, s.host, Of(s.agent.out[..s.downRead], k), Taken(k, s.dials), At(s.read, k), At(s.written, k),
                s.requests)
    && AgentHalf(k, s.agent, Of(s.host.out[..s.upRead], k), At(s.sourced, k))
  }

  ghost predicate InvAll(s: System) {
    forall k :: Inv(s, k)
  }
}

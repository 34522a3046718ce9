/** The VM-side agent as a state machine over values: internal/agent/agent.go. Every message handled, every
    finished dial and every turn of a connection's read loop is one step. */
module AgentSpec {
  import opened Octets
  import opened Framing
  import opened MuxSpec

  const READ_CHUNK: nat := 32 * 1024

  datatype Target = Target(network: Bytes, address: Bytes)

  /** A Connection: the target it was dialled to, whether its read loop is running, whether the target still
      accepts bytes, whether its one-shot Close has run, and what the target was given. */
  datatype Connection = Connection(target: Target, reading: bool, writable: bool, closedOnce: bool, got: Bytes)

  /** connections are the ids in the code's map, conns the newest Connection made for each id, dialing the
      dials under way, and out everything the transport accepted. stopped: the main loop has returned. */
  datatype Agent = Agent(dialing: map<ConnID, Target>, connections: set<ConnID>, conns: map<ConnID, Connection>,
                         stopped: bool, out: seq<Message>)

  const NEW_AGENT := Agent(map[], {}, map[], false, [])

  function Sent(out: seq<Message>, x: Message, writeOk: bool): seq<Message> {
    if writeOk then out + [x] else out
  }

  /** NewErrorMessage: the code's digit, a colon, the reason. */
  function ErrorMessage(id: ConnID, digit: byte, reason: Bytes): Message {
    Message(MSG_ERROR, id, [digit, COLON] + reason)
  }

  const PARSE_FAILED: byte := 49
  const DIAL_FAILED: byte := 50

  function OnConnectDirect(a: Agent, id: ConnID, payload: Bytes, reason: Bytes, writeOk: bool): Agent {
    match Parsed(payload)
    case None => a.(out := Sent(a.out, ErrorMessage(id, PARSE_FAILED, reason), writeOk))
    case Some((network, address)) => a.(dialing := a.dialing[id := Target(network, address)])
  }

  /** The connection is stored before the acknowledgement is written; if that write fails its socket is
      closed, but it stays in the map and its Close has not run. */
  function Dialled(a: Agent, id: ConnID, success: bool, reason: Bytes, writeOk: bool): Agent
    requires id in a.dialing
  {
    if success then
      a.(dialing := a.dialing - {id}, connections := a.connections + {id},
         conns := a.conns[id := Connection(a.dialing[id], writeOk, writeOk, false, [])],
         out := Sent(a.out, Message(MSG_CONNECT_ACK, id, []), writeOk))
    else
      a.(dialing := a.dialing - {id}, out := Sent(a.out, ErrorMessage(id, DIAL_FAILED, reason), writeOk))
  }

  /** A target that takes fewer bytes than offered has failed. */
  function Given(c: Connection, payload: Bytes, taken: nat): Connection {
    if c.writable then c.(got := c.got + payload[..Min(taken, |payload|)], writable := taken >= |payload|) else c
  }

  function OnAgentData(a: Agent, id: ConnID, payload: Bytes, taken: nat): Agent {
    if id in a.connections && id in a.conns then a.(conns := a.conns[id := Given(a.conns[id], payload, taken)])
    else a
  }

  /** Connection.Close. */
  function Ended(a: Agent, id: ConnID, writeOk: bool): Agent
    requires id in a.conns
  {
    if a.conns[id].closedOnce then a
    else a.(conns := a.conns[id := a.conns[id].(reading := false, writable := false, closedOnce := true)],
            out := Sent(a.out, Message(MSG_CLOSE, id, []), writeOk))
  }

  function OnAgentClose(a: Agent, id: ConnID, writeOk: bool): Agent {
    if id in a.connections && id in a.conns then Ended(a.(connections := a.connections - {id}), id, writeOk)
    else a
  }

  /** A frame over the size limit makes ReadMessage fail and Run return. */
  function AgentReceived(a: Agent, x: Message, taken: nat, reason: Bytes, writeOk: bool): Agent {
    if |x.payload| > MAX_PAYLOAD then a.(stopped := true)
    else if x.kind == MSG_CONNECT_DIRECT then OnConnectDirect(a, x.connID, x.payload, reason, writeOk)
    else if x.kind == MSG_DATA then OnAgentData(a, x.connID, x.payload, taken)
    else if x.kind == MSG_CLOSE then OnAgentClose(a, x.connID, writeOk)
    else a
  }

  /** One turn of a connection's read loop: forward what the target sent, or give up. */
  function Forwarded(a: Agent, id: ConnID, data: Bytes, writeOk: bool, closeOk: bool): Agent
    requires id in a.conns
  {
    if writeOk then a.(out := a.out + [Message(MSG_DATA, id, data)]) else Ended(a, id, closeOk)
  }

  predicate Reading(a: Agent, id: ConnID) {
    id in a.conns && a.conns[id].reading
  }
}

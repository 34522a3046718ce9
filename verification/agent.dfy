/** Agent and Connection as the objects they are in internal/agent/agent.go, each method proved to be the
    corresponding step of AgentSpec. */
module AgentObject {
  import opened Octets
  import opened Framing
  import opened Wrappers
  import AgentSpec

  type Target = AgentSpec.Target

  class Connection {
    const id: ConnID
    const target: Target
    const agent: Agent
    var reading: bool
    var writable: bool
    var closedOnce: bool
    var got: Bytes

    constructor (id: ConnID, target: Target, agent: Agent)
      ensures this.id == id && this.target == target && this.agent == agent
      ensures Value() == AgentSpec.Connection(target, true, true, false, [])
    {
      this.id, this.target, this.agent := id, target, agent;
      reading, writable, closedOnce, got := true, true, false, [];
    }

    ghost function Value(): AgentSpec.Connection
      reads this
    {
      AgentSpec.Connection(target, reading, writable, closedOnce, got)
    }

    /** The target takes the first taken bytes of payload; fewer than offered is an error. */
    method WriteTarget(payload: Bytes, taken: nat) returns (ok: bool)
      modifies this`got, this`writable
      ensures Value() == AgentSpec.Given(old(Value()), payload, taken)
      ensures ok <==> old(writable) && taken >= |payload|
    {
      if !writable {
        return false;
      }
      if taken >= |payload| {
        got := got + payload;
        return true;
      }
      got, writable := got + payload[..taken], false;
      return false;
    }

    method CloseSocket()
      modifies this`reading, this`writable
      ensures Value() == old(Value()).(reading := false, writable := false)
    {
      reading, writable := false, false;
    }

    method Close(writeOk: bool)
      requires agent.Valid() && agent.Newest(this)
      modifies this`reading, this`writable, this`closedOnce, agent`out
      ensures agent.Valid() && agent.Value() == AgentSpec.Ended(old(agent.Value()), id, writeOk)
    {
      if !closedOnce {
        closedOnce := true;
        CloseSocket();
        assert agent.Conns() == old(agent.Conns())[id := Value()];
        agent.WriteMessage(Message(MSG_CLOSE, id, []), writeOk);
      }
    }

    /** One turn of the read loop: the target sent data, which is forwarded or ends the connection. */
    method Forward(data: Bytes, writeOk: bool, closeOk: bool)
      requires agent.Valid() && agent.Newest(this) && reading
      modifies this`reading, this`writable, this`closedOnce, agent`out
      ensures agent.Valid() && agent.Value() == AgentSpec.Forwarded(old(agent.Value()), id, data, writeOk, closeOk)
    {
      agent.WriteMessage(Message(MSG_DATA, id, data), writeOk);
      if !writeOk {
        Close(closeOk);
      }
    }
  }

  class Agent {
    var connections: map<ConnID, Connection>
    var out: seq<Message>
    /** The dials under way, each in a goroutine of its own. */
    ghost var dialing: map<ConnID, Target>
    /** The newest Connection made for each id. */
    ghost var made: map<ConnID, Connection>

    constructor ()
      ensures Valid() && Value() == AgentSpec.NEW_AGENT
    {
      connections, out, dialing, made := map[], [], map[], map[];
    }

    ghost predicate Valid()
      reads this, made.Values
    {
      && (forall id :: id in made ==> made[id].id == id && made[id].agent == this)
      && (forall id :: id in connections ==> id in made && connections[id] == made[id])
    }

    ghost predicate Newest(c: Connection)
      reads this
    {
      c.id in made && made[c.id] == c
    }

    ghost function Conns(): map<ConnID, AgentSpec.Connection>
      reads this, made.Values
    {
      map id | id in made :: made[id].Value()
    }

    ghost function Value(): AgentSpec.Agent
      reads this, made.Values
    {
      AgentSpec.Agent(dialing, connections.Keys, Conns(), false, out)
    }

    method WriteMessage(x: Message, writeOk: bool)
      requires Valid()
      modifies this`out
      ensures Valid() && out == AgentSpec.Sent(old(out), x, writeOk)
      ensures Value() == old(Value()).(out := out)
    {
      if writeOk {
        out := out + [x];
      }
      assert Conns() == old(Conns());
    }

    method HandleConnectDirect(id: ConnID, payload: Bytes, reason: Bytes, writeOk: bool) returns (ok: bool)
      requires Valid()
      modifies this`out, this`dialing
      ensures Valid() && Value() == AgentSpec.OnConnectDirect(old(Value()), id, payload, reason, writeOk)
      ensures ok <==> Parsed(payload).Some?
    {
      var parsed := ParseConnectPayload(payload);
      if parsed.None? {
        WriteMessage(AgentSpec.ErrorMessage(id, AgentSpec.PARSE_FAILED, reason), writeOk);
        return false;
      }
      dialing := dialing[id := AgentSpec.Target(parsed.value.0, parsed.value.1)];
      return true;
    }

    method StoreConnection(id: ConnID, target: Target) returns (c: Connection)
      requires Valid()
      modifies this`connections, this`made
      ensures Valid() && fresh(c) && c.id == id && made == old(made)[id := c]
      ensures c.Value() == AgentSpec.Connection(target, true, true, false, [])
      ensures Value() == old(Value()).(connections := old(Value()).connections + {id},
                                       conns := old(Value()).conns[id := c.Value()])
    {
      c := new Connection(id, target, this);
      connections := connections[id := c];
      made := made[id := c];
      assert Conns() == old(Conns())[id := c.Value()];
    }

    /** A connection whose acknowledgement could not be written: its socket goes, its map entry stays. */
    method Abandon(c: Connection)
      requires Valid() && Newest(c)
      modifies c`reading, c`writable
      ensures Valid() && c.Value() == old(c.Value()).(reading := false, writable := false)
      ensures Value() == old(Value()).(conns := old(Value()).conns[c.id := c.Value()])
    {
      c.CloseSocket();
      assert Conns() == old(Conns())[c.id := c.Value()];
    }

    /** The acknowledgement for a connection just stored. */
    method Acknowledge(c: Connection, writeOk: bool)
      requires Valid() && Newest(c)
      modifies this`out, c`reading, c`writable
      ensures Valid()
      ensures c.Value() == if writeOk then old(c.Value()) else old(c.Value()).(reading := false, writable := false)
      ensures Value() == old(Value()).(conns := old(Value()).conns[c.id := c.Value()],
                                       out := AgentSpec.Sent(old(out), Message(MSG_CONNECT_ACK, c.id, []), writeOk))
    {
      WriteMessage(Message(MSG_CONNECT_ACK, c.id, []), writeOk);
      if writeOk {
        assert Conns() == Conns()[c.id := c.Value()];
      } else {
        Abandon(c);
      }
    }

    static lemma UpdatedTwice(m: map<ConnID, AgentSpec.Connection>, id: ConnID, a: AgentSpec.Connection,
                              b: AgentSpec.Connection)
      ensures m[id := a][id := b] == m[id := b]
    {}

    /** dialAndConnect from where the dialer returned. */
    method DialAndConnect(id: ConnID, target: Target, success: bool, reason: Bytes, writeOk: bool)
      requires Valid() && id in dialing && dialing[id] == target
      modifies this
      ensures Valid() && Value() == AgentSpec.Dialled(old(Value()), id, success, reason, writeOk)
    {
      dialing := dialing - {id};
      assert Conns() == old(Conns());
      if success {
        var c := StoreConnection(id, target);
        ghost var stored := c.Value();
        Acknowledge(c, writeOk);
        UpdatedTwice(old(Conns()), id, stored, c.Value());
      } else {
        WriteMessage(AgentSpec.ErrorMessage(id, AgentSpec.DIAL_FAILED, reason), writeOk);
      }
    }

    method HandleData(id: ConnID, payload: Bytes, taken: nat) returns (ok: bool)
      requires Valid()
      modifies made.Values
      ensures Valid() && Value() == AgentSpec.OnAgentData(old(Value()), id, payload, taken)
      ensures ok <==> id in connections && old(id in made && made[id].writable) && taken >= |payload|
    {
      if id !in connections {
        return false;
      }
      ok := connections[id].WriteTarget(payload, taken);
      assert Conns() == old(Conns())[id := connections[id].Value()];
    }

    method HandleClose(id: ConnID, writeOk: bool)
      requires Valid()
      modifies this`connections, this`out, made.Values
      ensures Valid() && Value() == AgentSpec.OnAgentClose(old(Value()), id, writeOk)
    {
      if id in connections {
        var c := connections[id];
        connections := connections - {id};
        assert Conns() == old(Conns());
        c.Close(writeOk);
      }
    }

    /** One message of at most the size ReadMessage lets through; taken, reason and writeOk are what the
        target and the transport do. */
    method HandleMessage(x: Message, taken: nat, reason: Bytes, writeOk: bool)
      requires Valid() && |x.payload| <= MAX_PAYLOAD
      modifies this`connections, this`out, this`dialing, made.Values
      ensures Valid() && Value() == AgentSpec.AgentReceived(old(Value()), x, taken, reason, writeOk)
    {
      if x.kind == MSG_CONNECT_DIRECT {
        var _ := HandleConnectDirect(x.connID, x.payload, reason, writeOk);
      } else if x.kind == MSG_DATA {
        var _ := HandleData(x.connID, x.payload, taken);
      } else if x.kind == MSG_CLOSE {
        HandleClose(x.connID, writeOk);
      }
    }

    /** One turn of the main loop: the message handled, or why there is none. */
    method Turn(r: Reader, reply: Reply) returns (e: Option<ReadError>)
      requires Valid()
      modifies this`connections, this`out, this`dialing, made.Values, r
      ensures Valid()
      ensures match Decode(old(r.Pending()))
              case Err(err) => e == Some(err) && Value() == old(Value())
              case Ok((x, rest)) =>
                && e == None && r.Pending() == rest && |rest| < |old(r.Pending())|
                && Value() == AgentSpec.AgentReceived(old(Value()), x, reply.taken, reply.reason, reply.writeOk)
    {
      ghost var stream := r.Pending();
      var msg := r.ReadMessage();
      match msg {
        case Err(err) => return Some(err);
        case Ok(x) =>
          DecodedFits(stream, x, r.Pending());
          HandleMessage(x, reply.taken, reply.reason, reply.writeOk);
          return None;
      }
    }

    /** The main loop on a transport nobody else disturbs: message after message until the reader fails.
        replies[i] is what the surroundings answer to message i, or nothing goes wrong if there is none. */
    method Run(r: Reader, replies: seq<Reply>) returns (e: ReadError)
      requires Valid()
      modifies this, made.Values, r
      ensures Valid()
      ensures (Value(), e) == RunToTheEnd(old(Value()), old(r.Pending()), replies)
    {
      var left := replies;
      ghost var goal := RunToTheEnd(Value(), r.Pending(), replies);
      while true
        invariant Valid() && made == old(made)
        invariant RunToTheEnd(Value(), r.Pending(), left) == goal
        decreases |r.Pending()|
      {
        var (reply, later) := NextReply(left);
        var stop := Turn(r, reply);
        if stop.Some? {
          return stop.value;
        }
        left := later;
      }
    }
  }

  /** How the target and the transport behave while one message is handled. */
  datatype Reply = Reply(taken: nat, reason: Bytes, writeOk: bool)

  const SMOOTH: Reply := Reply(MAX_PAYLOAD, [], true)

  function NextReply(replies: seq<Reply>): (Reply, seq<Reply>) {
    if replies == [] then (SMOOTH, []) else (replies[0], replies[1..])
  }

  function Handled(a: AgentSpec.Agent, x: Message, reply: Reply): AgentSpec.Agent {
    AgentSpec.AgentReceived(a, x, reply.taken, reply.reason, reply.writeOk)
  }

  /** The bytes of the transport handled message by message, up to the first error. */
  function RunToTheEnd(a: AgentSpec.Agent, s: Bytes, replies: seq<Reply>): (AgentSpec.Agent, ReadError)
    decreases |s|
  {
    match Decode(s)
    case Err(e) => (a, e)
    case Ok((x, rest)) => RunToTheEnd(Handled(a, x, NextReply(replies).0), rest, NextReply(replies).1)
  }

  /** The messages handled one after the other. */
  function HandledInTurn(a: AgentSpec.Agent, xs: seq<Message>, replies: seq<Reply>): AgentSpec.Agent
    decreases |xs|
  {
    if xs == [] then a else HandledInTurn(Handled(a, xs[0], NextReply(replies).0), xs[1..], NextReply(replies).1)
  }

  /** The main loop sees exactly the messages the host sent, in order: on the encodings of any list of messages
      within the size limit, cut off anywhere in one more, it ends in the state of handling that list. */
  lemma {:induction false} RunHandlesWhatWasSent(a: AgentSpec.Agent, xs: seq<Message>, last: Message, k: nat,
                                                 replies: seq<Reply>)
    requires Sendable(xs) && |last.payload| <= MAX_PAYLOAD && k < |Encode(last)|
    ensures var (end, e) := RunToTheEnd(a, EncodeAll(xs) + Encode(last)[..k], replies);
      end == HandledInTurn(a, xs, replies) && (e.EndOfStream? <==> k == 0)
    decreases |xs|
  {
    var cut := Encode(last)[..k];
    if xs == [] {
      assert EncodeAll(xs) + cut == cut;
      StrictPrefixIsAnError(last, k);
    } else {
      EncodeAllFirst(xs, cut);
      FrameRoundTripIff(xs[0], EncodeAll(xs[1..]) + cut);
      RunHandlesWhatWasSent(Handled(a, xs[0], NextReply(replies).0), xs[1..], last, k, NextReply(replies).1);
    }
  }

  /** What ReadMessage lets through is within the limit. */
  lemma DecodedFits(s: Bytes, x: Message, rest: Bytes)
    requires Decode(s) == Ok((x, rest))
    ensures |x.payload| <= MAX_PAYLOAD
  {}
}

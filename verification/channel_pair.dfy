/** Two whole channel ends joined by their wires, each sending, resending, receiving and acknowledging by the
    very steps of the class Channel. One run of the pair is two runs of Delivery, one in each direction: so what
    Delivery calls the network is what the ends put on their wires, and its acknowledgements are the ids those
    wires name. */
module ChannelPair {
  import opened ChannelSpec
  import opened Octets
  import opened Wrappers
  import opened ReceiverFacts
  import opened Delivery
  import opened DeliveryInvariant
  import DeliveryTheorems
  import Rto

  /** One end, its clock, and the message ids it has drawn. */
  datatype Node = Node(end: End, clock: int, used: set<MessageId>)

  datatype Pair = Pair(near: Node, far: Node)

  datatype NodeAction =
    | Send(payload: Bytes, id: MessageId, now: int, wsOk: bool)
    | Tick(now: int, wsOk: bool)
    | Receive(m: Message, env: Env)

  datatype PairAction = PairAction(atNear: bool, act: NodeAction)

  /** The peer runs the mirror image of this code: what one end writes as input the other takes as output. */
  function Mirrored(m: Message): Message {
    if m.mtype.InputStream? then m.(mtype := OutputStream) else m
  }

  /** Anything the peer ever wrote may arrive, any number of times. */
  predicate NodeEnabled(x: Node, peer: Node, a: NodeAction) {
    match a
    case Send(_, id, now, _) => id !in x.used && x.clock <= now
    case Tick(now, _) => x.clock <= now
    case Receive(m, env) => m in peer.end.wire && x.clock <= env.now
  }

  function NodeNext(x: Node, a: NodeAction): Node {
    match a
    case Send(payload, id, now, wsOk) => Node(SendStep(x.end, Output, payload, id, now, wsOk), now, x.used + {id})
    case Tick(now, wsOk) => x.(end := TickStep(x.end, now, wsOk).0, clock := now)
    case Receive(m, env) => x.(end := Process(x.end, Mirrored(m), env).0, clock := env.now)
  }

  predicate PairEnabled(p: Pair, a: PairAction) {
    if a.atNear then NodeEnabled(p.near, p.far, a.act) else NodeEnabled(p.far, p.near, a.act)
  }

  function PairNext(p: Pair, a: PairAction): Pair {
    if a.atNear then p.(near := NodeNext(p.near, a.act)) else p.(far := NodeNext(p.far, a.act))
  }

  predicate PairLegal(p: Pair, run: seq<PairAction>)
    decreases |run|
  {
    run != [] ==> PairEnabled(p, run[0]) && PairLegal(PairNext(p, run[0]), run[1..])
  }

  function PairAfter(p: Pair, run: seq<PairAction>): Pair
    decreases |run|
  {
    if run == [] then p else PairAfter(PairNext(p, run[0]), run[1..])
  }

  /** Right after the handshake, an end that sends from number base and expects number peerBase. */
  function Opened(base: int, peerBase: int, clock: int, start: Rto.Settled): Node {
    Node(End(Sender(base, map[], [], start), Fresh(peerBase), [], true, false), clock, {})
  }

  /* ---------- a run of the pair as two runs of Delivery ---------- */

  function AsSender(a: NodeAction): seq<Action> {
    match a
    case Send(payload, id, now, wsOk) => [SendData(payload, id, now, wsOk)]
    case Tick(now, wsOk) => [ResendTick(now, wsOk)]
    case Receive(m, env) =>
      if m.mtype.Acknowledge? && m.acked.Some? then [AckArrives(m.acked.value, env.now)] else []
  }

  function AsReceiver(a: NodeAction): seq<Action> {
    if a.Receive? && a.m.mtype.InputStream? then [MessageArrives(a.m, a.env.ackOk)] else []
  }

  /** What the run means for the direction that starts at the near end, or at the far one. */
  function Project(run: seq<PairAction>, fromNear: bool): seq<Action> {
    if run == [] then []
    else (if run[0].atNear == fromNear then AsSender(run[0].act) else AsReceiver(run[0].act))
         + Project(run[1..], fromNear)
  }

  /** An acknowledgement of id is on the wire. */
  ghost predicate Names(wire: seq<Message>, id: MessageId) {
    exists x :: x in wire && x.mtype.Acknowledge? && x.acked == Some(id)
  }

  ghost predicate Plain(wire: seq<Message>) {
    forall x <- wire :: x.mtype.InputStream? || (x.mtype.Acknowledge? && x.acked.Some?)
  }

  function Inputs(wire: seq<Message>): set<Message> {
    set x | x in wire && x.mtype.InputStream?
  }

  /** The input messages on the wire are the network. */
  ghost predicate Carries(wire: seq<Message>, net: set<Message>) {
    forall m :: m in wire && m.mtype.InputStream? <==> m in net
  }

  function MirroredAll(incoming: map<int, Message>): map<int, Message> {
    map n | n in incoming :: Mirrored(incoming[n])
  }

  ghost predicate Mirrors(r': Receiver, r: Receiver) {
    r' == r.(incoming := MirroredAll(r.incoming))
  }

  predicate IsData(m: Message) {
    m.mtype.InputStream? && m.ptype.Output?
  }

  /** x is the sending end of s. */
  ghost predicate Sends(x: Node, s: System) {
    && x.end.snd == s.snd && s.clock <= x.clock && SentIds(s.sent) <= x.used
    && Carries(x.end.wire, s.net) && Plain(x.end.wire) && !x.end.closed
    && (forall m <- s.net :: IsData(m)) && (forall e <- s.snd.outgoing :: IsData(e.content))
  }

  /** y is the receiving end of s. */
  ghost predicate Receives(y: Node, s: System) {
    Mirrors(y.end.rcv, s.rcv) && forall id :: id in s.acks <==> Names(y.end.wire, id)
  }

  /** The direction from x to y is s. */
  ghost predicate Link(x: Node, y: Node, s: System) {
    Sends(x, s) && Receives(y, s)
  }

  /* ---------- the receiver half ---------- */

  lemma MirroredWithout(incoming: map<int, Message>, n: int)
    ensures MirroredAll(incoming - {n}) == MirroredAll(incoming) - {n}
  {}

  lemma {:induction false} DrainMirrors(r': Receiver, r: Receiver)
    requires Mirrors(r', r)
    ensures Mirrors(Drain(r'), Drain(r))
    decreases |r.incoming|
  {
    if r.expected in r.incoming {
      var m := r.incoming[r.expected];
      MirroredWithout(r.incoming, r.expected);
      assert |(r.incoming - {r.expected}).Keys| < |r.incoming.Keys| by {
        assert (r.incoming - {r.expected}).Keys == r.incoming.Keys - {r.expected};
      }
      var next := Receiver(r.expected + 1, r.incoming - {r.expected}, r.output + Delivered(m));
      DrainMirrors(next.(incoming := MirroredAll(next.incoming)), next);
    }
  }

  lemma AcceptMirrors(r': Receiver, r: Receiver, m: Message)
    requires Mirrors(r', r)
    ensures Mirrors(Accept(r', Mirrored(m)), Accept(r, m))
  {
    if m.seqNum == r.expected {
      var next := Receiver(r.expected + 1, r.incoming, r.output + Delivered(m));
      DrainMirrors(next.(incoming := MirroredAll(next.incoming)), next);
    } else if m.seqNum > r.expected {
      assert MirroredAll(r.incoming[m.seqNum := m]) == MirroredAll(r.incoming)[m.seqNum := Mirrored(m)];
    }
  }

  /* ---------- wires ---------- */

  lemma OneMoreInput(wire: seq<Message>, net: set<Message>, m: Message)
    requires Carries(wire, net) && m.mtype.InputStream?
    ensures Carries(wire + [m], net + {m})
    ensures forall id :: Names(wire + [m], id) <==> Names(wire, id)
    ensures Plain(wire) ==> Plain(wire + [m])
  {
    forall id ensures Names(wire + [m], id) <==> Names(wire, id) {
      if Names(wire, id) {
        var x :| x in wire && x.mtype.Acknowledge? && x.acked == Some(id);
        assert x in wire + [m];
      }
    }
  }

  lemma OneMoreAck(wire: seq<Message>, net: set<Message>, m: Message)
    requires Carries(wire, net) && m.mtype.Acknowledge? && m.acked.Some?
    ensures Carries(wire + [m], net)
    ensures forall id :: Names(wire + [m], id) <==> Names(wire, id) || id == m.acked.value
    ensures Plain(wire) ==> Plain(wire + [m])
  {
    forall id ensures Names(wire + [m], id) <==> Names(wire, id) || id == m.acked.value {
      if Names(wire, id) {
        var x :| x in wire && x.mtype.Acknowledge? && x.acked == Some(id);
        assert x in wire + [m];
      }
      if id == m.acked.value { assert m in wire + [m]; }
    }
  }

  /* ---------- one step, seen from either direction ---------- */

  /** What the step of a node puts on its wire. */
  lemma SendWrites(x: Node, payload: Bytes, id: MessageId, now: int, wsOk: bool)
    ensures var x' := NodeNext(x, Send(payload, id, now, wsOk));
      var m := Message(InputStream, id, x.end.snd.sendSeqNum, Output, payload, None);
      && x'.end.wire == (if wsOk then x.end.wire + [m] else x.end.wire)
      && x'.end.rcv == x.end.rcv && x'.end.closed == x.end.closed
  {}

  lemma SendSends(x: Node, s: System, payload: Bytes, id: MessageId, now: int, wsOk: bool)
    requires Sends(x, s) && x.clock <= now
    ensures Sends(NodeNext(x, Send(payload, id, now, wsOk)), NextSend(s, payload, id, now, wsOk))
  {
    var m := Message(InputStream, id, x.end.snd.sendSeqNum, Output, payload, None);
    SendWrites(x, payload, id, now, wsOk);
    OneMoreInput(x.end.wire, s.net, m);
    SentGrows(s.sent, m);
  }

  lemma SendReceives(x: Node, t: System, payload: Bytes, id: MessageId, now: int, wsOk: bool)
    requires Receives(x, t)
    ensures Receives(NodeNext(x, Send(payload, id, now, wsOk)), t)
  {
    SendWrites(x, payload, id, now, wsOk);
    OneMoreNames(x.end.wire, Message(InputStream, id, x.end.snd.sendSeqNum, Output, payload, None));
  }

  lemma OneMoreNames(wire: seq<Message>, m: Message)
    requires m.mtype.InputStream?
    ensures forall id :: Names(wire + [m], id) <==> Names(wire, id)
  {
    OneMoreInput(wire, Inputs(wire), m);
  }

  lemma TickWrites(x: Node, now: int, wsOk: bool)
    requires !x.end.closed
    ensures var x', tick := NodeNext(x, Tick(now, wsOk)), TickOutcome(x.end.snd, now, wsOk);
      && x'.end.wire == (if tick.Resent? then x.end.wire + [tick.content] else x.end.wire)
      && x'.end.snd == Ticked(x.end.snd, now, wsOk) && x'.end.rcv == x.end.rcv && !x'.end.closed
      && x'.clock == now && x'.used == x.used
  {}

  lemma TickSends(x: Node, s: System, now: int, wsOk: bool)
    requires Sends(x, s) && x.clock <= now
    ensures Sends(NodeNext(x, Tick(now, wsOk)), NextTick(s, now, wsOk))
  {
    TickWrites(x, now, wsOk);
    var tick := TickOutcome(s.snd, now, wsOk);
    if tick.Resent? { OneMoreInput(x.end.wire, s.net, tick.content); }
  }

  lemma TickReceives(x: Node, t: System, now: int, wsOk: bool)
    requires Receives(x, t) && !x.end.closed
    requires forall e <- x.end.snd.outgoing :: IsData(e.content)
    ensures Receives(NodeNext(x, Tick(now, wsOk)), t)
  {
    TickWrites(x, now, wsOk);
    var tick := TickOutcome(x.end.snd, now, wsOk);
    if tick.Resent? { OneMoreNames(x.end.wire, tick.content); }
  }

  lemma AckKeepsData(s: Sender, id: MessageId, now: int)
    requires forall e <- s.outgoing :: IsData(e.content)
    ensures forall e <- Acked(s, id, now).outgoing :: IsData(e.content)
  {}

  lemma AckSends(x: Node, s: System, m: Message, env: Env)
    requires Sends(x, s) && m.mtype.Acknowledge? && m.acked.Some? && x.clock <= env.now
    ensures Sends(NodeNext(x, Receive(m, env)), NextAck(s, m.acked.value, env.now))
  {
    AckKeepsData(s.snd, m.acked.value, env.now);
  }

  lemma AckReceives(x: Node, t: System, m: Message, env: Env)
    requires Receives(x, t) && m.mtype.Acknowledge?
    ensures Receives(NodeNext(x, Receive(m, env)), t)
  {}

  /** What an end does with data: its own acknowledgement on the wire, and the sequencing. */
  lemma DataIsProcessed(x: Node, m: Message, env: Env)
    requires IsData(m)
    ensures var x' := NodeNext(x, Receive(m, env));
      && x'.end.snd == x.end.snd && x'.end.closed == x.end.closed && x'.clock == env.now && x'.used == x.used
      && x'.end.wire == (if env.ackOk then x.end.wire + [Message(Acknowledge, env.ackId, 0, Output, [], Some(m.id))]
                         else x.end.wire)
      && x'.end.rcv == (if env.ackOk then Accept(x.end.rcv, Mirrored(m)) else x.end.rcv)
  {}

  lemma DataReceives(x: Node, t: System, m: Message, env: Env)
    requires Receives(x, t) && IsData(m)
    ensures Receives(NodeNext(x, Receive(m, env)), NextArrival(t, m, env.ackOk))
  {
    DataIsProcessed(x, m, env);
    AcceptMirrors(x.end.rcv, t.rcv, m);
    OneMoreAck(x.end.wire, Inputs(x.end.wire), Message(Acknowledge, env.ackId, 0, Output, [], Some(m.id)));
  }

  lemma DataSends(x: Node, s: System, m: Message, env: Env)
    requires Sends(x, s) && IsData(m) && x.clock <= env.now
    ensures Sends(NodeNext(x, Receive(m, env)), s)
  {
    DataIsProcessed(x, m, env);
    OneMoreAck(x.end.wire, s.net, Message(Acknowledge, env.ackId, 0, Output, [], Some(m.id)));
  }

  /* ---------- the simulation ---------- */

  lemma SendLinks(x: Node, y: Node, s: System, t: System, payload: Bytes, id: MessageId, now: int, wsOk: bool)
    requires Link(x, y, s) && Link(y, x, t) && id !in x.used && x.clock <= now
    ensures Enabled(s, SendData(payload, id, now, wsOk))
    ensures var x' := NodeNext(x, Send(payload, id, now, wsOk));
      Link(x', y, Next(s, SendData(payload, id, now, wsOk))) && Link(y, x', t)
  {
    SendSends(x, s, payload, id, now, wsOk);
    SendReceives(x, t, payload, id, now, wsOk);
  }

  lemma TickLinks(x: Node, y: Node, s: System, t: System, now: int, wsOk: bool)
    requires Link(x, y, s) && Link(y, x, t) && x.clock <= now
    ensures Enabled(s, ResendTick(now, wsOk))
    ensures var x' := NodeNext(x, Tick(now, wsOk));
      Link(x', y, Next(s, ResendTick(now, wsOk))) && Link(y, x', t)
  {
    TickSends(x, s, now, wsOk);
    TickReceives(x, t, now, wsOk);
  }

  lemma AckLinks(x: Node, y: Node, s: System, t: System, m: Message, env: Env)
    requires Link(x, y, s) && Link(y, x, t) && m in y.end.wire && x.clock <= env.now
    requires m.mtype.Acknowledge? && m.acked.Some?
    ensures Enabled(s, AckArrives(m.acked.value, env.now))
    ensures var x' := NodeNext(x, Receive(m, env));
      Link(x', y, Next(s, AckArrives(m.acked.value, env.now))) && Link(y, x', t)
  {
    assert Names(y.end.wire, m.acked.value);
    AckSends(x, s, m, env);
    AckReceives(x, t, m, env);
  }

  lemma DataLinks(x: Node, y: Node, s: System, t: System, m: Message, env: Env)
    requires Link(x, y, s) && Link(y, x, t) && m in y.end.wire && m.mtype.InputStream? && x.clock <= env.now
    ensures Enabled(t, MessageArrives(m, env.ackOk))
    ensures var x' := NodeNext(x, Receive(m, env));
      Link(x', y, s) && Link(y, x', Next(t, MessageArrives(m, env.ackOk)))
  {
    DataReceives(x, t, m, env);
    DataSends(x, s, m, env);
  }

  lemma JustOne(s: System, a: Action)
    requires Enabled(s, a)
    ensures Legal(s, [a]) && After(s, [a]) == Next(s, a)
  {
    assert [a][1..] == [];
  }

  /** One step of x: at most one step of each direction. */
  lemma StepLinks(x: Node, y: Node, s: System, t: System, a: NodeAction)
    requires Link(x, y, s) && Link(y, x, t) && NodeEnabled(x, y, a)
    ensures var out, back := AsSender(a), AsReceiver(a);
      && Legal(s, out) && Legal(t, back)
      && Link(NodeNext(x, a), y, After(s, out)) && Link(y, NodeNext(x, a), After(t, back))
  {
    match a
    case Send(payload, id, now, wsOk) =>
      SendLinks(x, y, s, t, payload, id, now, wsOk);
      JustOne(s, SendData(payload, id, now, wsOk));
    case Tick(now, wsOk) =>
      TickLinks(x, y, s, t, now, wsOk);
      JustOne(s, ResendTick(now, wsOk));
    case Receive(m, env) => ReceiveLinks(x, y, s, t, m, env);
  }

  lemma ReceiveLinks(x: Node, y: Node, s: System, t: System, m: Message, env: Env)
    requires Link(x, y, s) && Link(y, x, t) && m in y.end.wire && x.clock <= env.now
    ensures var a := Receive(m, env); var out, back := AsSender(a), AsReceiver(a);
      && Legal(s, out) && Legal(t, back)
      && Link(NodeNext(x, a), y, After(s, out)) && Link(y, NodeNext(x, a), After(t, back))
  {
    if m.mtype.InputStream? {
      DataLinks(x, y, s, t, m, env);
      JustOne(t, MessageArrives(m, env.ackOk));
    } else {
      AckLinks(x, y, s, t, m, env);
      JustOne(s, AckArrives(m.acked.value, env.now));
    }
  }

  lemma {:induction false} InTwoParts(s: System, r1: seq<Action>, r2: seq<Action>)
    requires Legal(s, r1) && Legal(After(s, r1), r2)
    ensures Legal(s, r1 + r2) && After(s, r1 + r2) == After(After(s, r1), r2)
    decreases |r1|
  {
    if r1 == [] {
      assert r1 + r2 == r2;
    } else {
      assert (r1 + r2)[1..] == r1[1..] + r2;
      InTwoParts(Next(s, r1[0]), r1[1..], r2);
    }
  }

  lemma {:induction false} RunLinks(p: Pair, run: seq<PairAction>, s: System, t: System)
    requires PairLegal(p, run) && Link(p.near, p.far, s) && Link(p.far, p.near, t)
    ensures Legal(s, Project(run, true)) && Legal(t, Project(run, false))
    ensures var e := PairAfter(p, run);
      Link(e.near, e.far, After(s, Project(run, true))) && Link(e.far, e.near, After(t, Project(run, false)))
    decreases |run|
  {
    if run != [] {
      var a := run[0].act;
      if run[0].atNear {
        StepLinks(p.near, p.far, s, t, a);
        RunLinks(PairNext(p, run[0]), run[1..], After(s, AsSender(a)), After(t, AsReceiver(a)));
        InTwoParts(s, AsSender(a), Project(run[1..], true));
        InTwoParts(t, AsReceiver(a), Project(run[1..], false));
      } else {
        StepLinks(p.far, p.near, t, s, a);
        RunLinks(PairNext(p, run[0]), run[1..], After(s, AsReceiver(a)), After(t, AsSender(a)));
        InTwoParts(s, AsReceiver(a), Project(run[1..], true));
        InTwoParts(t, AsSender(a), Project(run[1..], false));
      }
    }
  }

  lemma OpenedLinks(b1: int, b2: int, c1: int, c2: int, start1: Rto.Settled, start2: Rto.Settled)
    ensures Link(Opened(b1, b2, c1, start1), Opened(b2, b1, c2, start2), Init(b1, c1, start1))
  {
    assert MirroredAll(map[]) == map[];
  }

  /** Every run of the two ends is a run of Delivery in each direction at once: the same sender halves, the same
      deliveries, the input messages on an end's wire are exactly the network of its direction, and the ids
      named by the acknowledgements on the other's wire are exactly its acknowledgements. */
  lemma TwoDeliveries(b1: int, b2: int, c1: int, c2: int, start1: Rto.Settled, start2: Rto.Settled,
                      run: seq<PairAction>)
    requires PairLegal(Pair(Opened(b1, b2, c1, start1), Opened(b2, b1, c2, start2)), run)
    ensures Legal(Init(b1, c1, start1), Project(run, true)) && Legal(Init(b2, c2, start2), Project(run, false))
    ensures var p := PairAfter(Pair(Opened(b1, b2, c1, start1), Opened(b2, b1, c2, start2)), run);
      && Link(p.near, p.far, After(Init(b1, c1, start1), Project(run, true)))
      && Link(p.far, p.near, After(Init(b2, c2, start2), Project(run, false)))
  {
    OpenedLinks(b1, b2, c1, c2, start1, start2);
    OpenedLinks(b2, b1, c2, c1, start2, start1);
    RunLinks(Pair(Opened(b1, b2, c1, start1), Opened(b2, b1, c2, start2)), run, Init(b1, c1, start1),
             Init(b2, c2, start2));
  }

  /* ---------- what follows for the ends themselves ---------- */

  /** The payloads handed to SendInputData at one end, in order. */
  function GivenAt(run: seq<PairAction>, near: bool): seq<Bytes> {
    if run == [] then []
    else (if run[0].atNear == near && run[0].act.Send? then [run[0].act.payload] else []) + GivenAt(run[1..], near)
  }

  lemma GivenFirst(a: Action, rest: seq<Action>)
    ensures DeliveryTheorems.Given([a] + rest)
            == (if a.SendData? then [a.payload] else []) + DeliveryTheorems.Given(rest)
  {
    assert ([a] + rest)[1..] == rest;
  }

  lemma {:induction false} GivenIsProjected(run: seq<PairAction>, near: bool)
    ensures DeliveryTheorems.Given(Project(run, near)) == GivenAt(run, near)
    decreases |run|
  {
    if run != [] {
      var rest := Project(run[1..], near);
      GivenIsProjected(run[1..], near);
      var part := if run[0].atNear == near then AsSender(run[0].act) else AsReceiver(run[0].act);
      if part == [] {
        assert part + rest == rest;
      } else {
        GivenFirst(part[0], rest);
        assert part == [part[0]];
      }
    }
  }

  /** Both directions at once: after every run, what either end's callback was given is a prefix of what was
      handed to the other end, in order and without repeats. */
  lemma PairDelivers(b1: int, b2: int, c1: int, c2: int, start1: Rto.Settled, start2: Rto.Settled,
                     run: seq<PairAction>)
    requires PairLegal(Pair(Opened(b1, b2, c1, start1), Opened(b2, b1, c2, start2)), run)
    ensures var p := PairAfter(Pair(Opened(b1, b2, c1, start1), Opened(b2, b1, c2, start2)), run);
      p.far.end.rcv.output <= GivenAt(run, true) && p.near.end.rcv.output <= GivenAt(run, false)
  {
    TwoDeliveries(b1, b2, c1, c2, start1, start2, run);
    DeliveryTheorems.DeliveredIsPrefix(b1, c1, start1, Project(run, true));
    DeliveryTheorems.DeliveredIsPrefix(b2, c2, start2, Project(run, false));
    GivenIsProjected(run, true);
    GivenIsProjected(run, false);
  }

  /* ---------- one exchange ---------- */

  lemma {:induction false} DrainOnlyAdds(r: Receiver)
    ensures r.output <= Drain(r).output
    decreases |r.incoming|
  {
    if r.expected in r.incoming {
      assert |(r.incoming - {r.expected}).Keys| < |r.incoming.Keys| by {
        assert (r.incoming - {r.expected}).Keys == r.incoming.Keys - {r.expected};
      }
      DrainOnlyAdds(Receiver(r.expected + 1, r.incoming - {r.expected},
                             r.output + Delivered(r.incoming[r.expected])));
    }
  }

  /** What SendInputData puts on the wire, and the difference the websocket's answer makes. */
  lemma SendIsOnTheWireIff(c: End, payload: Bytes, id: MessageId, now: int, wsOk: bool)
    ensures var c1 := SendStep(c, Output, payload, id, now, wsOk);
      && (wsOk <==> c1.wire != c.wire)
      && (wsOk ==> c1.wire == c.wire + [Message(InputStream, id, c.snd.sendSeqNum, Output, payload, None)])
      && c1.snd.sendSeqNum == c.snd.sendSeqNum + 1 && id in c1.snd.pending
      && c1.snd.outgoing != [] && c1.snd.outgoing[|c1.snd.outgoing| - 1].messageID == id
  {
    if wsOk { assert |SendStep(c, Output, payload, id, now, wsOk).wire| == |c.wire| + 1; }
  }

  lemma LastIsFound(outgoing: seq<StreamingMessage>, e: StreamingMessage)
    requires forall x <- outgoing :: x.messageID != e.messageID
    ensures IndexOf(outgoing + [e], e.messageID) == |outgoing|
  {
    forall i | 0 <= i < |outgoing| ensures (outgoing + [e])[i].messageID != e.messageID {
      assert outgoing[i] in outgoing;
    }
    assert (outgoing + [e])[|outgoing|] == e;
  }

  /** A message sent into a working websocket, processed by a peer that expects it, and the peer's last word
      processed in turn: the payload is delivered, and the sender is as it was but for the number taken. */
  lemma OneExchange(c: End, peer: End, payload: Bytes, id: MessageId, now: int, peerEnv: Env, env: Env)
    requires peerEnv.ackOk && peer.rcv.expected == c.snd.sendSeqNum
    requires |c.snd.outgoing| < OUTGOING_MESSAGE_BUFFER_CAPACITY && id !in c.snd.pending
    requires forall e <- c.snd.outgoing :: e.messageID != id
    ensures var c1 := SendStep(c, Output, payload, id, now, true);
      && c1.wire != []
      && var (peer1, err1) := Process(peer, Mirrored(c1.wire[|c1.wire| - 1]), peerEnv);
         && !err1 && peer.rcv.output + [payload] <= peer1.rcv.output && peer1.wire != []
         && var (c2, err2) := Process(c1, peer1.wire[|peer1.wire| - 1], env);
            && !err2 && c2.snd.pending == c.snd.pending && c2.snd.outgoing == c.snd.outgoing
            && c2.snd.sendSeqNum == c.snd.sendSeqNum + 1
  {
    var m := Message(InputStream, id, c.snd.sendSeqNum, Output, payload, None);
    var e := StreamingMessage(m, m.seqNum, id, now, 0);
    LastIsFound(c.snd.outgoing, e);
    DrainOnlyAdds(Receiver(peer.rcv.expected + 1, peer.rcv.incoming, peer.rcv.output + Delivered(m)));
    var c1 := SendStep(c, Output, payload, id, now, true);
    assert c1.snd.outgoing == c.snd.outgoing + [e] && c1.wire[|c1.wire| - 1] == m;
    assert c1.snd.outgoing[..|c.snd.outgoing|] + c1.snd.outgoing[|c.snd.outgoing| + 1..] == c.snd.outgoing;
    assert c1.snd.pending - {id} == c.snd.pending;
    var peer1 := Process(peer, Mirrored(m), peerEnv).0;
    assert peer1.wire == peer.wire + [Message(Acknowledge, peerEnv.ackId, 0, Output, [], Some(id))];
  }

  /** A handshake request is acknowledged by name and then answered under the next number. */
  lemma HandshakeIsAnswered(c: End, m: Message, env: Env)
    requires IsStream(m) && m.ptype.HandshakeRequest? && env.ackOk && env.response.Some?
    ensures var (c1, err) := Process(c, m, env);
      var ack := Message(Acknowledge, env.ackId, 0, Output, [], Some(m.id));
      var answer := Message(InputStream, env.responseId, c.snd.sendSeqNum, HandshakeResponse, env.response.value, None);
      && c1.wire == c.wire + [ack] + (if env.responseOk then [answer] else [])
      && err == !env.responseOk && c1.rcv == c.rcv
      && c1.snd.sendSeqNum == c.snd.sendSeqNum + 1 && env.responseId in c1.snd.pending
      && c1.snd.pending[env.responseId].message == answer
  {}

  predicate IsStream(m: Message) {
    m.mtype.InputStream? || m.mtype.OutputStream?
  }

  /** When ProcessMessage returns an error: an acknowledgement that cannot be read, a stream message whose own
      acknowledgement was refused, a handshake request without an answer or with one that was refused, a close
      that fails; and nothing else. A refused acknowledgement leaves the end as it was. */
  lemma ProcessFailsIff(c: End, m: Message, env: Env)
    ensures var (c1, err) := Process(c, m, env);
      && (err <==>
            || (m.mtype.Acknowledge? && m.acked.None?)
            || (IsStream(m) && !env.ackOk)
            || (IsStream(m) && m.ptype.HandshakeRequest? && (env.response.None? || !env.responseOk))
            || (m.mtype.ChannelClosed? && !env.closeOk))
      && (IsStream(m) && !env.ackOk ==> c1 == c)
  {}

  /** Input from the peer that belongs to no handshake goes straight to the callback, whatever its number, and
      leaves the sequencing alone. */
  lemma InputGoesStraightOn(c: End, m: Message, env: Env)
    requires m.mtype.InputStream? && env.ackOk && !m.ptype.HandshakeRequest? && !m.ptype.HandshakeComplete?
    ensures var c1 := Process(c, m, env).0;
      && c1.rcv.output == c.rcv.output + [m.payload] && c1.rcv.expected == c.rcv.expected
      && c1.rcv.incoming == c.rcv.incoming && c1.snd == c.snd
  {}

  function NodeAfter(x: Node, acts: seq<NodeAction>): Node
    decreases |acts|
  {
    if acts == [] then x else NodeAfter(NodeNext(x, acts[0]), acts[1..])
  }

  lemma ProcessKeepsClosed(c: End, m: Message, env: Env)
    requires m.mtype.ChannelClosed? || c.closed
    ensures Process(c, m, env).0.closed
  {}

  lemma ClosedStays(x: Node, a: NodeAction)
    requires x.end.closed
    ensures NodeNext(x, a).end.closed
  {}

  /** A ChannelClosed message ends the resending for good, whatever is done to the end afterwards. */
  lemma ClosedForGood(x: Node, m: Message, env: Env, acts: seq<NodeAction>, now: int, wsOk: bool)
    requires m.mtype.ChannelClosed?
    ensures var e := NodeAfter(x.(end := Process(x.end, m, env).0), acts).end;
      TickStep(e, now, wsOk) == (e, Idle)
  {
    var y := x.(end := Process(x.end, m, env).0);
    ProcessKeepsClosed(x.end, m, env);
    StaysClosed(y, acts);
  }

  lemma {:induction false} StaysClosed(x: Node, acts: seq<NodeAction>)
    requires x.end.closed
    ensures NodeAfter(x, acts).end.closed
    decreases |acts|
  {
    if acts != [] {
      ClosedStays(x, acts[0]);
      StaysClosed(NodeNext(x, acts[0]), acts[1..]);
    }
  }
}

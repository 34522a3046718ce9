/** What the tunnel guarantees about every run of host, agent and the two links between them. */
module TunnelTheorems {
  import opened Wrappers
  import opened Octets
  import opened Framing
  import opened MuxSpec
  import opened AgentSpec
  import opened Tunnel
  import opened TunnelInvariant
  import MuxTheorems

  ghost predicate Reached(s: System) {
    exists run :: Run(INIT, run) && End(INIT, run) == s
  }

  lemma ReachedInv(s: System)
    requires Reached(s)
    ensures InvAll(s)
  {
    var run :| Run(INIT, run) && End(INIT, run) == s;
    EveryRunKeepsInv(run);
  }

  /* ---------- answers ---------- */

  lemma {:induction false} FirstOf(log: seq<Message>, k: ConnID) returns (i: nat)
    requires Of(log, k) != []
    ensures i < |log| && log[i] == Of(log, k)[0]
  {
    var before := log[..|log| - 1];
    if Of(before, k) != [] {
      i := FirstOf(before, k);
    } else {
      i := |log| - 1;
      assert [] + [log[i]] == [log[i]];
    }
  }

  /** Where message j stands among its connection's messages. */
  lemma PlaceOf(log: seq<Message>, j: nat, k: ConnID)
    requires j < |log| && log[j].connID == k
    ensures |Of(log[..j], k)| < |Of(log, k)| && Of(log, k)[|Of(log[..j], k)|] == log[j]
  {
    OfNext(log, j, k);
  }

  lemma LaterPlace(log: seq<Message>, i: nat, j: nat, k: ConnID)
    requires i < j < |log| && log[i].connID == k
    ensures |Of(log[..j], k)| > |Of(log[..i], k)|
  {
    assert log[..j][..i] == log[..i];
    PlaceOf(log[..j], i, k);
  }

  /** The agent answers each request at most once: two messages for one connection are never both answers. */
  lemma AnsweredAtMostOnce(s: System, i: nat, j: nat)
    requires Reached(s) && i < j < |s.agent.out| && s.agent.out[i].connID == s.agent.out[j].connID
    ensures !IsAnswer(s.agent.out[j])
  {
    ReachedInv(s);
    var k := s.agent.out[j].connID;
    assert Inv(s, k);
    PlaceOf(s.agent.out, j, k);
    LaterPlace(s.agent.out, i, j, k);
  }

  /** Data and closes follow their connection's acknowledgement on the link, so the host handles it first. */
  lemma DataFollowsItsAck(s: System, j: nat)
    requires Reached(s) && j < |s.agent.out| && !IsAnswer(s.agent.out[j])
    ensures var log := s.agent.out;
      exists i: nat :: i < j && log[i].kind == MSG_CONNECT_ACK && log[i].connID == log[j].connID
  {
    ReachedInv(s);
    var k, log := s.agent.out[j].connID, s.agent.out;
    assert Inv(s, k);
    PlaceOf(log, j, k);
    assert Of(log[..j], k) != [];
    var i := FirstOf(log[..j], k);
    OfPrefix(log, j, k);
    assert log[i] == Of(log, k)[0];
    ConnIDOfFirst(log, k);
  }

  lemma {:induction false} ConnIDOfFirst(log: seq<Message>, k: ConnID)
    ensures forall x :: x in Of(log, k) ==> x.connID == k
  {
    if log != [] { ConnIDOfFirst(log[..|log| - 1], k); }
  }

  /* ---------- dial association ---------- */

  lemma RequestKept(s: System, st: Step, k: ConnID)
    requires Can(s, st) && Global(s) && k in s.requests && Taken(k, s.dials)
    ensures k in Do(s, st).requests && Do(s, st).requests[k] == s.requests[k] && Taken(k, Do(s, st).dials)
  {}

  lemma {:induction false} RequestStays(s: System, run: seq<Step>, k: ConnID)
    requires Run(s, run) && InvAll(s) && k in s.requests && Taken(k, s.dials)
    ensures var e := End(s, run); k in e.requests && e.requests[k] == s.requests[k]
    decreases |run|
  {
    if run != [] {
      assert Inv(s, k);
      RequestKept(s, run[0], k);
      DoKeepsInv(s, run[0]);
      RequestStays(Do(s, run[0]), run[1..], k);
    }
  }

  /** Host side of connection k: the Dial has been told it is connected, or the connection exists. */
  predicate Established(s: System, k: ConnID) {
    k in s.host.conns || (k in s.host.pending && s.host.pending[k] == Some(Connected))
  }

  /** What the agent dialled for k is what it parsed out of k's request. */
  lemma EstablishedMeansDialled(s: System, k: ConnID)
    requires InvAll(s) && Established(s, k)
    ensures k in s.agent.conns && k in s.requests
    ensures var (r, t) := (s.requests[k], s.agent.conns[k].target);
      Parsed(ConnectPayload(r.network, r.address)) == Some((t.network, t.address))
  {
    assert Inv(s, k);
    var h, v := HostAt(s.host, k), AgentAt(s.agent, k);
    assert h.conn.Some? || h.waiting == Some(Some(Connected));
    OfPrefix(s.agent.out, s.downRead, k);
    OfPrefix(s.host.out, s.upRead, k);
    assert Acked(Of(s.agent.out, k)) && v.conn.Some?;
    assert Of(s.host.out[..s.upRead], k)[0] == Of(s.host.out, k)[0];
    assert Asked(Of(s.host.out, k)[0], v.conn.value.target);
  }

  /** What the agent dialled for an established connection, seen from the request. */
  lemma EstablishedGoesWhereAsked(s: System, k: ConnID, network: Bytes, address: Bytes)
    requires InvAll(s) && k in s.requests && s.requests[k] == Target(network, address)
    ensures Established(s, k) ==>
              k in s.agent.conns && (s.agent.conns[k].target == Target(network, address) <==> COLON !in network)
  {
    if Established(s, k) {
      EstablishedMeansDialled(s, k);
      ConnectRoundTripIff(network, address);
    }
  }

  lemma DialTakesItsId(s: System, network: Bytes, address: Bytes)
    requires InvAll(s) && !s.host.dead && s.dials + 1 < 0x1_0000_0000
    ensures var s1, k := HostDoes(s, DialStart(network, address, true)), NextID(s.host.nextConnID);
      k in s1.requests && s1.requests[k] == Target(network, address) && Taken(k, s1.dials)
  {
    assert Inv(s, 0);
  }

  /** Take any run, any Dial in it and anything that happens afterwards: if that Dial's connection is ever
      established, the agent holds a connection for its id, and that connection goes to the network and
      address the Dial asked for exactly when the network's name has no colon. */
  lemma DialAssociation(s: System, network: Bytes, address: Bytes, run: seq<Step>)
    requires Reached(s) && !s.host.dead && Can(s, Host(DialStart(network, address, true)))
    requires Run(Do(s, Host(DialStart(network, address, true))), run)
    ensures var e, k := End(Do(s, Host(DialStart(network, address, true))), run), NextID(s.host.nextConnID);
      Established(e, k) ==>
        k in e.agent.conns && (e.agent.conns[k].target == Target(network, address) <==> COLON !in network)
  {
    ReachedInv(s);
    DialTakesItsId(s, network, address);
    DoKeepsInv(s, Host(DialStart(network, address, true)));
    RestOfTheRun(Do(s, Host(DialStart(network, address, true))), NextID(s.host.nextConnID), network, address, run);
  }

  lemma RestOfTheRun(s: System, k: ConnID, network: Bytes, address: Bytes, run: seq<Step>)
    requires InvAll(s) && k in s.requests && s.requests[k] == Target(network, address) && Taken(k, s.dials)
    requires Run(s, run)
    ensures var e := End(s, run);
      Established(e, k) ==>
        k in e.agent.conns && (e.agent.conns[k].target == Target(network, address) <==> COLON !in network)
  {
    RunKeepsInv(s, run);
    RequestStays(s, run, k);
    EstablishedGoesWhereAsked(End(s, run), k, network, address);
  }

  /* ---------- bytes ---------- */

  lemma {:induction false} OfSplit(log: seq<Message>, n: nat, k: ConnID)
    requires n <= |log|
    ensures Of(log, k) == Of(log[..n], k) + Of(log[n..], k)
  {
    if n < |log| {
      var before, last := log[..|log| - 1], log[|log| - 1];
      OfSplit(before, n, k);
      assert before[..n] == log[..n] && before[n..] + [last] == log[n..];
      OfAppend(before[n..], last, k);
    } else {
      assert log[..n] == log;
    }
  }

  lemma {:induction false} DataSplit(xs: seq<Message>, ys: seq<Message>)
    ensures DataBytes(xs + ys) == DataBytes(xs) + DataBytes(ys)
  {
    if ys == [] {
      assert xs + ys == xs;
    } else {
      var before := ys[..|ys| - 1];
      DataSplit(xs, before);
      assert xs + ys == (xs + before) + [ys[|ys| - 1]];
      assert (xs + ys)[..|xs + ys| - 1] == xs + before;
    }
  }

  /** Nothing on the way down is lost, reordered or mixed up: what the host's reader got is a prefix of what
      the target sent; while both ends are open, what was read, then what is held back at the host, then
      what is still on the link is all of it. */
  lemma DownstreamIsFaithful(s: System, k: ConnID)
    requires Reached(s)
    ensures At(s.read, k) <= At(s.sourced, k) && s.downRead <= |s.agent.out|
    ensures Registered(s.host, k) && s.host.loop != Exited && Reading(s.agent, k) ==>
              At(s.sourced, k) == At(s.read, k) + Rest(s.host.conns[k]) + DataBytes(Of(s.agent.out[s.downRead..], k))
  {
    ReachedInv(s);
    assert Inv(s, k);
    var seen, down := Of(s.agent.out[..s.downRead], k), Of(s.agent.out, k);
    OfPrefix(s.agent.out, s.downRead, k);
    OfSplit(s.agent.out, s.downRead, k);
    DataPrefix(seen, down);
    DataSplit(seen, Of(s.agent.out[s.downRead..], k));
    assert HostAt(s.host, k).conn.Some? <==> k in s.host.conns;
  }

  /** The same on the way up. */
  lemma UpstreamIsFaithful(s: System, k: ConnID)
    requires Reached(s) && k in s.agent.conns
    ensures s.agent.conns[k].got <= At(s.written, k) && s.upRead <= |s.host.out|
    ensures k in s.agent.connections && s.agent.conns[k].writable ==>
              At(s.written, k) == s.agent.conns[k].got + DataBytes(Of(s.host.out[s.upRead..], k))
  {
    ReachedInv(s);
    assert Inv(s, k);
    var seen, up := Of(s.host.out[..s.upRead], k), Of(s.host.out, k);
    OfPrefix(s.host.out, s.upRead, k);
    OfSplit(s.host.out, s.upRead, k);
    DataPrefix(seen, up);
    DataSplit(seen, Of(s.host.out[s.upRead..], k));
    assert AgentAt(s.agent, k).conn == Some(s.agent.conns[k]);
  }

  /* ---------- progress of the host's read loop ---------- */

  predicate QueueFull(s: System) {
    && s.downRead < |s.agent.out|
    && var x := s.agent.out[s.downRead];
       x.kind == MSG_DATA && Registered(s.host, x.connID) && |s.host.conns[x.connID].readBuf| >= READ_BUF
  }

  /** While the transport lives, the read loop can handle the next message exactly unless that is data for
      a connection whose queue is full. In particular no answer ever finds its Dial already answered. */
  lemma ReadLoopWaitsIff(s: System)
    requires Reached(s) && !s.host.dead && s.downRead < |s.agent.out|
    requires |s.agent.out[s.downRead].payload| <= MAX_PAYLOAD
    ensures Can(s, HostReceives(false)) <==> !QueueFull(s)
  {
    ReachedInv(s);
    var x := s.agent.out[s.downRead];
    var k := x.connID;
    assert Inv(s, k);
    var h, seen := HostAt(s.host, k), Of(s.agent.out[..s.downRead], k);
    NextForHost(s, k);
    assert IsAnswer(x) && k in s.host.pending ==> h.waiting == Some(s.host.pending[k]);
  }

  /** Steps by which a stalled connection's holder, or the end of the mux, frees the read loop. */
  predicate Frees(st: Step, k: ConnID) {
    && st.Host?
    && match st.a
       case Read(id, _, _) => id == k
       case Close(id, _) => id == k
       case ReadLoopStops(_) => true
       case PingFails(_) => true
       case CloseMux => true
       case _ => false
  }

  /** One reader that stops reading stops every connection: until its holder reads or closes it, or the mux
      ends, the host handles no further message for anyone. */
  lemma {:induction false} FullQueueStallsEveryone(s: System, run: seq<Step>)
    requires QueueFull(s) && !s.host.dead && Run(s, run)
    requires forall st :: st in run ==> !Frees(st, s.agent.out[s.downRead].connID)
    ensures End(s, run).downRead == s.downRead && QueueFull(End(s, run))
    decreases |run|
  {
    if run != [] {
      assert run[0] in run;
      StalledStep(s, run[0]);
      FullQueueStallsEveryone(Do(s, run[0]), run[1..]);
    }
  }

  lemma StalledStep(s: System, st: Step)
    requires QueueFull(s) && !s.host.dead && Can(s, st) && !Frees(st, s.agent.out[s.downRead].connID)
    ensures var s' := Do(s, st);
      && QueueFull(s') && !s'.host.dead && s'.downRead == s.downRead
      && s'.agent.out[s.downRead] == s.agent.out[s.downRead]
  {
    if st.Host? { StalledHost(s, st.a); } else if !st.HostReceives? { LogGrows(s, st); }
  }

  lemma StalledHost(s: System, a: MuxSpec.Action)
    requires QueueFull(s) && !s.host.dead && Can(s, Host(a)) && !Frees(Host(a), s.agent.out[s.downRead].connID)
    ensures var m, m', k := s.host, HostDoes(s, a).host, s.agent.out[s.downRead].connID;
      !m'.dead && k in m'.conns && m'.conns[k] == m.conns[k] && HostDoes(s, a).agent == s.agent
      && HostDoes(s, a).downRead == s.downRead
  {}

  lemma LogGrows(s: System, st: Step)
    requires Can(s, st) && !st.Host? && !st.HostReceives?
    ensures s.agent.out <= Do(s, st).agent.out && Do(s, st).host == s.host && Do(s, st).downRead == s.downRead
  {}

  /* ---------- the agent's map ---------- */

  /** Connection k was ended by the agent's side: closed at the host, which never sent a close for it. */
  ghost predicate EndedByPeer(s: System, k: ConnID) {
    ClosedUnasked(s.host, k)
  }

  ghost predicate ClosedUnasked(m: Mux, k: ConnID) {
    k in m.conns && m.conns[k].closed && !HasClose(Of(m.out, k))
  }

  lemma EndedByPeerStep(s: System, st: Step, k: ConnID)
    requires InvAll(s) && EndedByPeer(s, k) && Can(s, st)
    ensures EndedByPeer(Do(s, st), k)
  {
    match st
    case Host(a) => EndedByPeerHost(s, a, k);
    case HostReceives(drop) =>
      assert Inv(s, k);
      assert HostAt(s.host, k).conn == Some(s.host.conns[k]);
      NextForHost(s, k);
      var x := s.agent.out[s.downRead];
      MuxTheorems.HandlingAt(s.host, x, drop, k);
      ReceivingKeepsTheRest(s.host, x, drop);
    case _ =>
  }

  lemma HostWrites(m: Mux, a: MuxSpec.Action)
    requires Enabled(m, a) && Next(m, a).out != m.out
    ensures var out := Next(m, a).out;
      && |out| == |m.out| + 1 && out == m.out + [out[|m.out|]]
      && (out[|m.out|].kind == MSG_CLOSE ==> out[|m.out|].connID in m.conns && !m.conns[out[|m.out|].connID].closed)
  {
    if a.Recv? { ReceivingKeepsTheRest(m, a.x, a.drop); }
  }

  /** Whatever a step of the host writes, it is not a close for a connection already closed. */
  lemma NoCloseAfterEnd(m: Mux, a: MuxSpec.Action, k: ConnID)
    requires Enabled(m, a) && ClosedUnasked(m, k)
    ensures !HasClose(Of(Next(m, a).out, k))
  {
    var out := Next(m, a).out;
    if out != m.out {
      HostWrites(m, a);
      var x := out[|m.out|];
      OfAppend(m.out, x, k);
      CloseAppend(Of(m.out, k), x);
      assert Of(m.out, k) + [] == Of(m.out, k);
    }
  }

  lemma EndedByPeerHost(s: System, a: MuxSpec.Action, k: ConnID)
    requires EndedByPeer(s, k) && Can(s, Host(a))
    ensures EndedByPeer(HostDoes(s, a), k)
  {
    NoCloseAfterEnd(s.host, a, k);
    MuxTheorems.StepCloses(s.host, a, k);
  }

  lemma {:induction false} EndedByPeerStays(s: System, run: seq<Step>, k: ConnID)
    requires InvAll(s) && EndedByPeer(s, k) && Run(s, run)
    ensures InvAll(End(s, run)) && EndedByPeer(End(s, run), k)
    decreases |run|
  {
    if run != [] {
      EndedByPeerStep(s, run[0], k);
      DoKeepsInv(s, run[0]);
      EndedByPeerStays(Do(s, run[0]), run[1..], k);
    }
  }

  /** The agent forgets a connection exactly when it handles a close for it. */
  lemma ListedIff(s: System, k: ConnID)
    requires Reached(s) && k in s.agent.conns
    ensures s.upRead <= |s.host.out|
    ensures k in s.agent.connections <==> !HasClose(Of(s.host.out[..s.upRead], k))
  {
    ReachedInv(s);
    assert Inv(s, k);
    assert AgentAt(s.agent, k).conn == Some(s.agent.conns[k]);
  }

  /** But the host never confirms a close it receives: a connection ended by its target and learnt of by the
      host stays in the agent's map however the run goes on. */
  lemma TargetEndedConnectionsAreNeverForgotten(s: System, drop: bool, run: seq<Step>, k: ConnID)
    requires Reached(s) && Can(s, HostReceives(drop)) && Registered(s.host, k)
    requires s.agent.out[s.downRead].kind == MSG_CLOSE && s.agent.out[s.downRead].connID == k
    requires Run(Do(s, HostReceives(drop)), run)
    ensures var e := End(Do(s, HostReceives(drop)), run);
      k in e.agent.conns && k in e.agent.connections
  {
    ReachedInv(s);
    var s1 := Do(s, HostReceives(drop));
    assert Inv(s, k) && HostAt(s.host, k).conn == Some(s.host.conns[k]);
    DoKeepsInv(s, HostReceives(drop));
    EndedByPeerStays(s1, run, k);
    EndedByPeerIsListed(End(s1, run), k);
  }

  lemma EndedByPeerIsListed(s: System, k: ConnID)
    requires InvAll(s) && EndedByPeer(s, k)
    ensures k in s.agent.conns && k in s.agent.connections
  {
    assert Inv(s, k);
    ConnWasRequested(s, k);
    NoCloseBefore(s.host.out, s.upRead, k);
    assert AgentAt(s.agent, k).conn == Some(s.agent.conns[k]);
  }

  lemma NoCloseBefore(log: seq<Message>, n: nat, k: ConnID)
    requires n <= |log|
    ensures HasClose(Of(log[..n], k)) ==> HasClose(Of(log, k))
  {
    OfPrefix(log, n, k);
    if i :| 0 <= i < |Of(log[..n], k)| && Of(log[..n], k)[i].kind == MSG_CLOSE {
      assert Of(log, k)[i].kind == MSG_CLOSE;
    }
  }
}

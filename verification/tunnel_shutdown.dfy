/** An orderly end of a connection loses nothing: completeness of the downstream bytes over whole runs. */
module TunnelShutdown {
  import opened Octets
  import opened Framing
  import opened MuxSpec
  import opened AgentSpec
  import opened Tunnel
  import opened TunnelInvariant
  import MuxTheorems
  import TunnelTheorems

  /** A step that keeps connection k orderly: what its target sends can be forwarded, and while it is open at
      the host neither its holder nor the end of the mux closes it. */
  predicate Orderly(s: System, st: Step, k: ConnID) {
    match st
    case Host(a) => Registered(s.host, k) ==> !MuxTheorems.Stops(a) && !(a.Close? && a.id == k)
    case TargetSends(id, _, writeOk, _) => id == k ==> writeOk
    case _ => true
  }

  predicate OrderlyRun(s: System, run: seq<Step>, k: ConnID)
    requires Run(s, run)
    decreases |run|
  {
    run != [] ==> Orderly(s, run[0], k) && OrderlyRun(Do(s, run[0]), run[1..], k)
  }

  /** At the host nothing of connection k is lost so far, and only the agent's close has closed it. */
  ghost predicate Whole(m: Mux, k: ConnID, seen: seq<Message>, read: Bytes) {
    k in m.conns ==>
      && read + Rest(m.conns[k]) == DataBytes(seen)
      && (m.conns[k].closed ==> HasClose(seen))
      && (!m.conns[k].closed && m.dead ==> m.loop == Exited)
  }

  ghost predicate WholeSystem(s: System, k: ConnID) {
    && Global(s)
    && Whole(s.host, k, Of(s.agent.out[..s.downRead], k), At(s.read, k))
    && DataBytes(Of(s.agent.out, k)) == At(s.sourced, k)
  }

  /* ---------- the host ---------- */

  lemma NoNewConns(m: Mux, a: MuxSpec.Action)
    requires Enabled(m, a) && !a.Recv?
    ensures Next(m, a).conns.Keys == m.conns.Keys
  {}

  lemma HostKeepsWhole(m: Mux, a: MuxSpec.Action, k: ConnID, seen: seq<Message>, read: Bytes)
    requires Enabled(m, a) && !a.Recv? && k in m.conns && Whole(m, k, seen, read)
    requires Registered(m, k) ==> !MuxTheorems.Stops(a) && !(a.Close? && a.id == k)
    ensures Whole(Next(m, a), k, seen, read + MuxTheorems.Returned(m, a, k))
  {
    MuxTheorems.StepCloses(m, a, k);
    OthersKeepBytes(m, a, k);
    Moved(read, MuxTheorems.Returned(m, a, k), Rest(Next(m, a).conns[k]));
  }

  lemma Moved(read: Bytes, more: Bytes, rest: Bytes)
    ensures read + (more + rest) == (read + more) + rest
  {}

  lemma OthersKeepBytes(m: Mux, a: MuxSpec.Action, k: ConnID)
    requires Enabled(m, a) && !a.Recv? && k in m.conns
    ensures k in Next(m, a).conns
    ensures MuxTheorems.Returned(m, a, k) + Rest(Next(m, a).conns[k]) == Rest(m.conns[k])
    ensures Next(m, a).loop == m.loop || MuxTheorems.Stops(a)
  {
    if a.Read? && a.id == k {
      MuxTheorems.ReadConserves(m.conns[k], a.n, a.race);
    } else {
      assert Next(m, a).conns[k].readBuf == m.conns[k].readBuf && Next(m, a).conns[k].remaining == m.conns[k].remaining;
      assert [] + Rest(m.conns[k]) == Rest(m.conns[k]);
    }
  }

  /** What the bytes read of connection k become in the history. */
  lemma ReadHistory(s: System, a: MuxSpec.Action, k: ConnID)
    requires Can(s, Host(a))
    ensures At(HostDoes(s, a).read, k) == At(s.read, k) + MuxTheorems.Returned(s.host, a, k)
  {
    assert At(s.read, k) + [] == At(s.read, k);
  }

  lemma HostDoesNoMore(s: System, a: MuxSpec.Action)
    requires Can(s, Host(a))
    ensures HostDoes(s, a).host == Next(s.host, a) && HostDoes(s, a).agent == s.agent
    ensures HostDoes(s, a).downRead == s.downRead && HostDoes(s, a).sourced == s.sourced
    ensures HostDoes(s, a).upRead == s.upRead
  {}

  /** Data and the close of an open connection, and anything for another one. */
  lemma TrafficKeepsWhole(m: Mux, x: Message, drop: bool, k: ConnID, seen: seq<Message>, read: Bytes)
    requires CanHandle(m, x, drop) && k in m.conns && Whole(m, k, seen, read)
    requires m.dead ==> m.loop != Running
    requires x.connID == k ==> !HasClose(seen) && (x.kind == MSG_DATA || x.kind == MSG_CLOSE)
    ensures Whole(Received(m, x, drop), k, seen + (if x.connID == k then [x] else []), read)
  {
    var c, m' := m.conns[k], Received(m, x, drop);
    MuxTheorems.HandlingAt(m, x, drop, k);
    ReceivingKeepsTheRest(m, x, drop);
    assert c.readBuf + [] == c.readBuf && seen + [] == seen;
    if x.connID == k {
      DataAppend(seen, x);
      CloseAppend(seen, x);
      if x.kind == MSG_DATA {
        MuxTheorems.FlattenAppend(c.readBuf, x.payload);
        assert read + (c.remaining + (Flatten(c.readBuf) + x.payload)) == (read + Rest(c)) + x.payload;
      }
    }
  }

  /** The answer: a connection it makes starts empty. */
  lemma AnswerKeepsWhole(m: Mux, x: Message, drop: bool, k: ConnID)
    requires CanHandle(m, x, drop) && k !in m.conns && (m.dead ==> m.loop != Running)
    requires x.connID == k ==> IsAnswer(x)
    ensures Whole(Received(m, x, drop), k, if x.connID == k then [x] else [], [])
  {
    ReceivingKeepsTheRest(m, x, drop);
    if k in Received(m, x, drop).conns {
      MadeFresh(m, x, drop, k);
      FreshIsWhole(x);
    }
  }

  lemma MadeFresh(m: Mux, x: Message, drop: bool, k: ConnID)
    requires k !in m.conns && k in Received(m, x, drop).conns
    ensures x.connID == k && x.kind == MSG_CONNECT_ACK && Received(m, x, drop).conns[k] == FRESH_CONN
  {}

  lemma NothingHeld()
    ensures Rest(FRESH_CONN) == []
  {}

  lemma NoDataIn(x: Message)
    requires x.kind != MSG_DATA
    ensures DataBytes([x]) == []
  {
    var one := [x];
    assert one[..0] == [] && one[0] == x && |one| == 1;
    assert DataBytes([]) == [];
  }

  lemma FreshIsWhole(x: Message)
    requires x.kind == MSG_CONNECT_ACK
    ensures [] + Rest(FRESH_CONN) == DataBytes([x])
  {
    NothingHeld();
    NoDataIn(x);
  }

  /** A connection the host does not have cannot appear but by its own answer. */
  lemma StaysAway(m: Mux, x: Message, drop: bool, k: ConnID)
    requires k !in m.conns && (x.connID == k ==> x.kind == MSG_DATA || x.kind == MSG_CLOSE)
    ensures k !in Received(m, x, drop).conns
  {}

  /** A close is the last thing the agent says about a connection. */
  lemma NothingAfterClose(log: seq<Message>, n: nat, k: ConnID)
    requires n < |log| && log[n].connID == k && DownShape(Of(log, k))
    ensures !HasClose(Of(log[..n], k))
  {
    OfNext(log, n, k);
    var seen, down := Of(log[..n], k), Of(log, k);
    assert forall i :: 0 <= i < |seen| ==> seen[i] == down[i];
  }

  lemma HandlingKeepsWhole(m: Mux, log: seq<Message>, n: nat, drop: bool, k: ConnID, read: Bytes)
    requires n < |log| && DownShape(Of(log, k)) && HostMayGet(log[n], k, Of(log[..n], k))
    requires CanHandle(m, log[n], drop) && (m.dead ==> m.loop != Running) && Whole(m, k, Of(log[..n], k), read)
    requires k !in m.conns ==> read == []
    requires k in m.conns ==> Of(log[..n], k) != []
    ensures Whole(Received(m, log[n], drop), k, Of(log[..n + 1], k), read)
  {
    var x, seen := log[n], Of(log[..n], k);
    OfNext(log, n, k);
    if k in m.conns {
      if x.connID == k { NothingAfterClose(log, n, k); }
      TrafficKeepsWhole(m, x, drop, k, seen, read);
    } else if x.connID != k {
      OthersTrafficOk(m, x, drop, k);
      assert HostAt(m, k).conn.None? && HostAt(Received(m, x, drop), k).conn.None?;
    } else if seen == [] {
      AnswerKeepsWhole(m, x, drop, k);
      assert [] + [x] == [x];
    } else {
      StaysAway(m, x, drop, k);
    }
  }

  /** What the invariant says of connection k where the host is about to read. */
  lemma BeforeReceiving(s: System, k: ConnID)
    requires Inv(s, k) && s.downRead < |s.agent.out|
    ensures HostMayGet(s.agent.out[s.downRead], k, Of(s.agent.out[..s.downRead], k)) && DownShape(Of(s.agent.out, k))
    ensures if k in s.host.conns then Of(s.agent.out[..s.downRead], k) != [] else At(s.read, k) == []
    ensures s.host.dead ==> s.host.loop != Running
  {
    NextForHost(s, k);
    assert HostAt(s.host, k).conn.Some? <==> k in s.host.conns;
  }

  lemma ReceivingKeepsWhole(s: System, drop: bool, k: ConnID)
    requires Inv(s, k) && s.downRead < |s.agent.out| && CanHandle(s.host, s.agent.out[s.downRead], drop)
    requires Whole(s.host, k, Of(s.agent.out[..s.downRead], k), At(s.read, k))
    ensures Whole(Received(s.host, s.agent.out[s.downRead], drop), k, Of(s.agent.out[..s.downRead + 1], k),
                  At(s.read, k))
  {
    BeforeReceiving(s, k);
    HandlingKeepsWhole(s.host, s.agent.out, s.downRead, drop, k, At(s.read, k));
  }

  /* ---------- the agent ---------- */

  /** Apart from forwarding, nothing the agent writes about k is data. */
  lemma AgentKeepsData(s: System, st: Step, k: ConnID)
    requires Can(s, st) && (st.AgentReceives? || st.TargetDialled? || st.TargetEnds?)
    ensures s.agent.out <= Do(s, st).agent.out
    ensures DataBytes(Of(Do(s, st).agent.out, k)) == DataBytes(Of(s.agent.out, k))
  {
    var out, out' := s.agent.out, Do(s, st).agent.out;
    if out' != out {
      assert |out'| == |out| + 1 && out'[|out|].kind != MSG_DATA && out' == out + [out'[|out|]];
      OneMoreIsNotData(out, out'[|out|], k);
    }
  }

  lemma OneMoreIsNotData(out: seq<Message>, x: Message, k: ConnID)
    requires x.kind != MSG_DATA
    ensures DataBytes(Of(out + [x], k)) == DataBytes(Of(out, k))
  {
    OfAppend(out, x, k);
    DataAppend(Of(out, k), x);
    assert Of(out, k) + [] == Of(out, k);
  }

  lemma ForwardedData(a: Agent, id: ConnID, data: Bytes, writeOk: bool, closeOk: bool, k: ConnID)
    requires id in a.conns && (id == k ==> writeOk)
    ensures var out := Forwarded(a, id, data, writeOk, closeOk).out;
      a.out <= out && DataBytes(Of(out, k)) == DataBytes(Of(a.out, k)) + (if id == k then data else [])
  {
    var down := Of(a.out, k);
    assert DataBytes(down) + [] == DataBytes(down) && down + [] == down;
    if writeOk {
      OfAppend(a.out, Message(MSG_DATA, id, data), k);
      DataAppend(down, Message(MSG_DATA, id, data));
    } else if Ended(a, id, closeOk).out != a.out {
      OneMoreIsNotData(a.out, Message(MSG_CLOSE, id, []), k);
    }
  }

  lemma SeenStays(s: System, s': System, k: ConnID)
    requires Global(s) && s.agent.out <= s'.agent.out && s'.downRead == s.downRead
    ensures s'.downRead <= |s'.agent.out| && Of(s'.agent.out[..s'.downRead], k) == Of(s.agent.out[..s.downRead], k)
  {
    assert s'.agent.out[..s.downRead] == s.agent.out[..s.downRead];
  }

  /* ---------- runs ---------- */

  lemma AgentStepKeepsWhole(s: System, st: Step, k: ConnID)
    requires WholeSystem(s, k) && Can(s, st) && Orderly(s, st, k) && !st.Host? && !st.HostReceives?
    requires Global(Do(s, st))
    ensures WholeSystem(Do(s, st), k)
  {
    if st.TargetSends? {
      ForwardedData(s.agent, st.id, st.data, st.writeOk, st.closeOk, k);
      assert At(Do(s, st).sourced, k) == At(s.sourced, k) + (if st.id == k then st.data else []);
    } else {
      AgentKeepsData(s, st, k);
    }
    SeenStays(s, Do(s, st), k);
  }

  lemma HostStepKeepsWhole(s: System, a: MuxSpec.Action, k: ConnID)
    requires WholeSystem(s, k) && Can(s, Host(a)) && Orderly(s, Host(a), k) && Global(HostDoes(s, a))
    ensures WholeSystem(HostDoes(s, a), k)
  {
    ReadHistory(s, a, k);
    HostDoesNoMore(s, a);
    NoNewConns(s.host, a);
    if k in s.host.conns {
      HostKeepsWhole(s.host, a, k, Of(s.agent.out[..s.downRead], k), At(s.read, k));
    }
  }

  lemma StepKeepsWhole(s: System, st: Step, k: ConnID)
    requires InvAll(s) && WholeSystem(s, k) && Can(s, st) && Orderly(s, st, k)
    ensures InvAll(Do(s, st)) && WholeSystem(Do(s, st), k)
  {
    DoKeepsInv(s, st);
    assert Inv(Do(s, st), k);
    match st
    case Host(a) => HostStepKeepsWhole(s, a, k);
    case HostReceives(drop) =>
      assert Inv(s, k);
      ReceivingKeepsWhole(s, drop, k);
      assert Do(s, st).agent == s.agent && Do(s, st).read == s.read && Do(s, st).sourced == s.sourced;
    case _ => AgentStepKeepsWhole(s, st, k);
  }

  lemma {:induction false} RunKeepsWhole(s: System, run: seq<Step>, k: ConnID)
    requires InvAll(s) && WholeSystem(s, k) && Run(s, run) && OrderlyRun(s, run, k)
    ensures InvAll(End(s, run)) && WholeSystem(End(s, run), k)
    decreases |run|
  {
    if run != [] {
      StepKeepsWhole(s, run[0], k);
      RunKeepsWhole(Do(s, run[0]), run[1..], k);
    }
  }

  /** Over every run that is orderly for connection k: what its reader got, then what the host holds back,
      then what is on the link is everything its target sent. Once the agent's close has arrived nothing is
      on the link, so a reader that goes on until the end gets it all. */
  lemma OrderlyShutdownLosesNothing(run: seq<Step>, k: ConnID)
    requires Run(INIT, run) && OrderlyRun(INIT, run, k) && k in End(INIT, run).host.conns
    ensures var s := End(INIT, run);
      && s.downRead <= |s.agent.out|
      && At(s.sourced, k) == At(s.read, k) + Rest(s.host.conns[k]) + DataBytes(Of(s.agent.out[s.downRead..], k))
      && (s.host.conns[k].closed ==> At(s.sourced, k) == At(s.read, k) + Rest(s.host.conns[k]))
  {
    EveryRunKeepsInv([]);
    RunKeepsWhole(INIT, run, k);
    var s := End(INIT, run);
    assert Inv(s, k);
    TunnelTheorems.OfSplit(s.agent.out, s.downRead, k);
    TunnelTheorems.DataSplit(Of(s.agent.out[..s.downRead], k), Of(s.agent.out[s.downRead..], k));
    if s.host.conns[k].closed {
      CloseIsLast(Of(s.agent.out[..s.downRead], k), Of(s.agent.out[s.downRead..], k));
    }
  }

  ghost predicate CloseLast(xs: seq<Message>) {
    forall i :: 0 <= i < |xs| - 1 ==> xs[i].kind != MSG_CLOSE
  }

  lemma CloseIsLast(seen: seq<Message>, rest: seq<Message>)
    requires CloseLast(seen + rest) && HasClose(seen)
    ensures rest == [] && DataBytes(rest) == []
  {
    var i :| 0 <= i < |seen| && seen[i].kind == MSG_CLOSE;
    assert (seen + rest)[i].kind == MSG_CLOSE;
  }
}

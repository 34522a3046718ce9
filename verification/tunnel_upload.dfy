/** The way up over whole runs: a target that takes every write gets everything the host wrote. */
module TunnelUpload {
  import opened Wrappers
  import opened Octets
  import opened Framing
  import opened MuxSpec
  import opened AgentSpec
  import opened Tunnel
  import opened TunnelInvariant
  import TunnelRuns
  import TunnelShutdown
  import TunnelTheorems

  /** A step at which the target of k takes what it is given, and its side does not end the connection. */
  predicate Cooperates(s: System, st: Step, k: ConnID)
    requires Can(s, st)
  {
    match st
    case AgentReceives(taken, _, _) =>
      var x := s.host.out[s.upRead];
      x.connID == k && x.kind == MSG_DATA ==> taken >= |x.payload|
    case _ => !TunnelRuns.EndsTarget(st, k)
  }

  predicate CooperatingRun(s: System, run: seq<Step>, k: ConnID)
    requires Run(s, run)
    decreases |run|
  {
    run != [] ==> Cooperates(s, run[0], k) && CooperatingRun(Do(s, run[0]), run[1..], k)
  }

  /** The target was given all the data the agent handled, and still takes more while it is listed. */
  ghost predicate AllGiven(seen: seq<Message>, down: seq<Message>, v: AgentView) {
    v.conn.Some? ==>
      && v.conn.value.got == DataBytes(seen)
      && (v.listed && down != [] ==> v.conn.value.writable)
  }

  ghost predicate AgentGives(a: Agent, seen: seq<Message>, k: ConnID) {
    AllGiven(seen, Of(a.out, k), AgentAt(a, k))
  }

  ghost predicate Uploading(s: System, k: ConnID) {
    && Global(s) && TunnelShutdown.CloseLast(Of(s.host.out, k))
    && AgentGives(s.agent, Of(s.host.out[..s.upRead], k), k)
  }

  /* ---------- the host ---------- */

  /** The host writes about an id when it takes it, and then only while the connection is open. */
  lemma WhoWrites(m: Mux, a: MuxSpec.Action)
    requires Enabled(m, a) && Next(m, a).out != m.out
    ensures var out := Next(m, a).out;
      && |out| == |m.out| + 1 && out == m.out + [out[|m.out|]]
      && if a.DialStart? then !m.dead && out[|m.out|].connID == NextID(m.nextConnID)
         else Registered(m, out[|m.out|].connID)
  {
    if a.Recv? { ReceivingKeepsTheRest(m, a.x, a.drop); }
  }

  lemma OneMoreAtTheEnd(up: seq<Message>, x: Message)
    requires !HasClose(up)
    ensures TunnelShutdown.CloseLast(up + [x])
  {}

  /** So nothing about it follows its close. */
  lemma NextKeepsCloseLast(m: Mux, a: MuxSpec.Action, taken: bool, k: ConnID)
    requires Enabled(m, a) && HostSent(taken, Of(m.out, k), HostAt(m, k)) && TunnelShutdown.CloseLast(Of(m.out, k))
    requires a.DialStart? && !m.dead && NextID(m.nextConnID) == k ==> !taken
    ensures m.out <= Next(m, a).out && TunnelShutdown.CloseLast(Of(Next(m, a).out, k))
  {
    var out := Next(m, a).out;
    if out != m.out {
      WhoWrites(m, a);
      OneMoreKeepsCloseLast(m.out, out[|m.out|], k);
    }
  }

  lemma OneMoreKeepsCloseLast(out: seq<Message>, x: Message, k: ConnID)
    requires TunnelShutdown.CloseLast(Of(out, k)) && (x.connID == k ==> !HasClose(Of(out, k)))
    ensures TunnelShutdown.CloseLast(Of(out + [x], k))
  {
    OfAppend(out, x, k);
    if x.connID == k {
      OneMoreAtTheEnd(Of(out, k), x);
    } else {
      assert Of(out, k) + [] == Of(out, k);
    }
  }

  lemma WhatHostSent(s: System, k: ConnID)
    requires Inv(s, k)
    ensures HostSent(Taken(k, s.dials), Of(s.host.out, k), HostAt(s.host, k))
  {}

  lemma NextIsNotTaken(s: System, k: ConnID)
    requires Global(s) && s.dials + 1 < 0x1_0000_0000 && NextID(s.host.nextConnID) == k
    ensures !Taken(k, s.dials)
  {}

  lemma HostKeepsCloseLast(s: System, a: MuxSpec.Action, k: ConnID)
    requires Global(s) && HostSent(Taken(k, s.dials), Of(s.host.out, k), HostAt(s.host, k))
    requires Can(s, Host(a)) && TunnelShutdown.CloseLast(Of(s.host.out, k))
    ensures s.host.out <= Next(s.host, a).out && TunnelShutdown.CloseLast(Of(Next(s.host, a).out, k))
  {
    if a.DialStart? && NextID(s.host.nextConnID) == k { NextIsNotTaken(s, k); }
    NextKeepsCloseLast(s.host, a, Taken(k, s.dials), k);
  }

  /* ---------- the agent ---------- */

  lemma OthersLeaveGiven(a: Agent, a': Agent, seen: seq<Message>, k: ConnID)
    requires AgentGives(a, seen, k) && Of(a'.out, k) == Of(a.out, k) && AgentAt(a', k) == AgentAt(a, k)
    ensures AgentGives(a', seen, k)
  {}

  lemma RequestGives(a: Agent, x: Message, reason: Bytes, ok: bool, k: ConnID)
    requires x.connID == k && x.kind == MSG_CONNECT_DIRECT && AgentAt(a, k).conn.None?
    ensures AgentGives(OnConnectDirect(a, k, x.payload, reason, ok), [x], k)
  {
    RequestAt(a, k, x.payload, reason, ok, k);
  }

  lemma DataGives(a: Agent, x: Message, taken: nat, seen: seq<Message>, k: ConnID)
    requires AgentGives(a, seen, k) && x.connID == k && x.kind == MSG_DATA && taken >= |x.payload|
    requires var v := AgentAt(a, k); v.conn.Some? ==> v.listed && Of(a.out, k) != []
    requires AgentAt(a, k).listed ==> AgentAt(a, k).conn.Some?
    ensures AgentGives(OnAgentData(a, k, x.payload, taken), seen + [x], k)
  {
    DataAt(a, k, x.payload, taken, k);
    DataAppend(seen, x);
    assert x.payload[..|x.payload|] == x.payload;
  }

  lemma CloseGives(a: Agent, x: Message, ok: bool, seen: seq<Message>, k: ConnID)
    requires AgentGives(a, seen, k) && x.connID == k && x.kind == MSG_CLOSE
    requires AgentAt(a, k).conn.Some? ==> AgentAt(a, k).listed
    ensures AgentGives(OnAgentClose(a, k, ok), seen + [x], k)
  {
    DataAppend(seen, x);
    var b := a.(connections := a.connections - {k});
    if k in a.connections && k in a.conns { EndedAt(b, k, ok, k); }
  }

  /** A message the agent handles for k comes before any close for it, so the connection, if any, is listed. */
  lemma NotYetClosed(up: seq<Message>, seen: seq<Message>, x: Message)
    requires TunnelShutdown.CloseLast(up) && seen + [x] <= up
    ensures !HasClose(seen)
  {
    forall i | 0 <= i < |seen| ensures seen[i].kind != MSG_CLOSE { assert seen[i] == up[i]; }
  }

  lemma OwnMessageGives(a: Agent, x: Message, taken: nat, reason: Bytes, ok: bool, seen: seq<Message>,
                        sourced: Bytes, k: ConnID)
    requires AgentOk(seen, Of(a.out, k), sourced, AgentAt(a, k)) && AgentGives(a, seen, k) && !HasClose(seen)
    requires x.connID == k && AgentMayGet(x, k, seen, Of(a.out, k)) && |x.payload| <= MAX_PAYLOAD
    requires x.kind == MSG_DATA ==> taken >= |x.payload|
    ensures AgentGives(AgentReceived(a, x, taken, reason, ok), seen + [x], k)
  {
    if seen == [] {
      RequestGives(a, x, reason, ok, k);
      assert [] + [x] == [x];
    } else if x.kind == MSG_DATA {
      DataGives(a, x, taken, seen, k);
    } else {
      CloseGives(a, x, ok, seen, k);
    }
  }

  lemma MessageGives(a: Agent, log: seq<Message>, n: nat, taken: nat, reason: Bytes, ok: bool, sourced: Bytes,
                     k: ConnID)
    requires n < |log| && |log[n].payload| <= MAX_PAYLOAD && TunnelShutdown.CloseLast(Of(log, k))
    requires AgentHalf(k, a, Of(log[..n], k), sourced) && AgentGives(a, Of(log[..n], k), k)
    requires AgentMayGet(log[n], k, Of(log[..n], k), Of(a.out, k))
    requires log[n].connID == k && log[n].kind == MSG_DATA ==> taken >= |log[n].payload|
    ensures AgentGives(AgentReceived(a, log[n], taken, reason, ok), Of(log[..n + 1], k), k)
  {
    var x, seen := log[n], Of(log[..n], k);
    OfNext(log, n, k);
    if x.connID == k {
      NotYetClosed(Of(log, k), seen, x);
      OwnMessageGives(a, x, taken, reason, ok, seen, sourced, k);
    } else {
      OtherReceivedOk(a, x, taken, reason, ok, k);
      OthersLeaveGiven(a, AgentReceived(a, x, taken, reason, ok), seen, k);
      assert seen + [] == seen;
    }
  }

  lemma HandlingGives(s: System, taken: nat, reason: Bytes, ok: bool, k: ConnID)
    requires Inv(s, k) && Uploading(s, k) && s.upRead < |s.host.out|
    requires var x := s.host.out[s.upRead];
      |x.payload| <= MAX_PAYLOAD && (x.connID == k && x.kind == MSG_DATA ==> taken >= |x.payload|)
    ensures AgentGives(AgentReceived(s.agent, s.host.out[s.upRead], taken, reason, ok),
                       Of(s.host.out[..s.upRead + 1], k), k)
  {
    NextForAgent(s, k);
    MessageGives(s.agent, s.host.out, s.upRead, taken, reason, ok, At(s.sourced, k), k);
  }

  /** A finished dial: whether or not the acknowledgement could be written. */
  lemma DialledGives(a: Agent, id: ConnID, success: bool, reason: Bytes, ok: bool, seen: seq<Message>, k: ConnID)
    requires id in a.dialing && AgentGives(a, seen, k)
    requires id == k ==> AgentAt(a, k).conn.None? && Of(a.out, k) == [] && DataBytes(seen) == []
    ensures AgentGives(Dialled(a, id, success, reason, ok), seen, k)
  {
    var x := if success then Message(MSG_CONNECT_ACK, id, []) else ErrorMessage(id, DIAL_FAILED, reason);
    DialledAt(a, id, success, reason, ok, k);
    OfSent(a.out, x, ok, |a.out|, k);
    assert Dialled(a, id, success, reason, ok).out == Sent(a.out, x, ok) && Of(a.out, k) + [] == Of(a.out, k);
  }

  lemma EndedGives(a: Agent, id: ConnID, ok: bool, seen: seq<Message>, k: ConnID)
    requires id in a.conns && id != k && AgentGives(a, seen, k)
    ensures AgentGives(Ended(a, id, ok), seen, k)
  {
    EndedAt(a, id, ok, k);
    OfSent(a.out, Message(MSG_CLOSE, id, []), ok, |a.out|, k);
    assert Of(a.out, k) + [] == Of(a.out, k);
  }

  lemma ForwardedGives(a: Agent, id: ConnID, data: Bytes, ok: bool, closeOk: bool, seen: seq<Message>, k: ConnID)
    requires id in a.conns && (id == k ==> ok && Of(a.out, k) != []) && AgentGives(a, seen, k)
    ensures AgentGives(Forwarded(a, id, data, ok, closeOk), seen, k)
  {
    if ok {
      OfAppend(a.out, Message(MSG_DATA, id, data), k);
      assert Of(a.out, k) + [] == Of(a.out, k);
    } else {
      EndedGives(a, id, closeOk, seen, k);
    }
  }

  /* ---------- runs ---------- */

  /** What the agent's own steps do. */
  lemma TargetStepGives(s: System, st: Step, k: ConnID)
    requires Inv(s, k) && Uploading(s, k) && Can(s, st) && Cooperates(s, st, k)
    requires st.TargetDialled? || st.TargetSends? || st.TargetEnds?
    ensures AgentGives(Do(s, st).agent, Of(s.host.out[..s.upRead], k), k)
  {
    var a, seen, v := s.agent, Of(s.host.out[..s.upRead], k), AgentAt(s.agent, k);
    match st
    case TargetDialled(id, success, reason, ok) =>
      if id == k {
        assert v.dialing.Some?;
        OnlyTheRequest(s, k);
        OneRequestOnly(seen);
      }
      DialledGives(a, id, success, reason, ok, seen, k);
    case TargetSends(id, data, ok, closeOk) =>
      assert id == k ==> v.conn == Some(a.conns[k]);
      ForwardedGives(a, id, data, ok, closeOk, seen, k);
    case TargetEnds(id, ok) => EndedGives(a, id, ok, seen, k);
  }

  lemma HostStepUploads(s: System, s': System, k: ConnID)
    requires Uploading(s, k) && Global(s') && s'.agent == s.agent && s'.upRead == s.upRead
    requires s.host.out <= s'.host.out && TunnelShutdown.CloseLast(Of(s'.host.out, k))
    ensures Uploading(s', k)
  {
    assert s'.host.out[..s.upRead] == s.host.out[..s.upRead];
  }

  lemma StepUploads(s: System, st: Step, k: ConnID)
    requires Inv(s, k) && Uploading(s, k) && Can(s, st) && Cooperates(s, st, k) && Global(Do(s, st))
    ensures Uploading(Do(s, st), k)
  {
    match st
    case Host(a) =>
      WhatHostSent(s, k);
      HostKeepsCloseLast(s, a, k);
      TunnelShutdown.HostDoesNoMore(s, a);
      HostStepUploads(s, HostDoes(s, a), k);
    case HostReceives(drop) => ReceivingKeepsTheRest(s.host, s.agent.out[s.downRead], drop);
    case AgentReceives(taken, reason, ok) =>
      if |s.host.out[s.upRead].payload| <= MAX_PAYLOAD { HandlingGives(s, taken, reason, ok, k); }
    case _ => TargetStepGives(s, st, k);
  }

  lemma {:induction false} RunUploads(s: System, run: seq<Step>, k: ConnID)
    requires InvAll(s) && Uploading(s, k) && Run(s, run) && CooperatingRun(s, run, k)
    ensures InvAll(End(s, run)) && Uploading(End(s, run), k)
    decreases |run|
  {
    if run != [] {
      assert Inv(s, k);
      DoKeepsInv(s, run[0]);
      assert Inv(Do(s, run[0]), k);
      StepUploads(s, run[0], k);
      RunUploads(Do(s, run[0]), run[1..], k);
    }
  }

  /** Over every run in which the target of k takes its data and does not end the connection: what it got, then
      what is on the link is everything the host's writer wrote. Once the agent has handled the host's close the
      target got all of it. */
  lemma CooperativeTargetGetsEverything(run: seq<Step>, k: ConnID)
    requires Run(INIT, run) && CooperatingRun(INIT, run, k) && k in End(INIT, run).agent.conns
    ensures var s := End(INIT, run);
      && s.upRead <= |s.host.out|
      && At(s.written, k) == s.agent.conns[k].got + DataBytes(Of(s.host.out[s.upRead..], k))
      && (k !in s.agent.connections ==> At(s.written, k) == s.agent.conns[k].got)
  {
    EveryRunKeepsInv([]);
    RunUploads(INIT, run, k);
    AtTheEnd(End(INIT, run), k);
  }

  lemma AtTheEnd(s: System, k: ConnID)
    requires Inv(s, k) && Uploading(s, k) && k in s.agent.conns
    ensures At(s.written, k) == s.agent.conns[k].got + DataBytes(Of(s.host.out[s.upRead..], k))
    ensures k !in s.agent.connections ==> At(s.written, k) == s.agent.conns[k].got
  {
    var seen, rest := Of(s.host.out[..s.upRead], k), Of(s.host.out[s.upRead..], k);
    assert AgentAt(s.agent, k).conn == Some(s.agent.conns[k]);
    TunnelTheorems.OfSplit(s.host.out, s.upRead, k);
    TunnelTheorems.DataSplit(seen, rest);
    if k !in s.agent.connections { TunnelShutdown.CloseIsLast(seen, rest); }
  }

  /* ---------- such a run ---------- */

  lemma {:induction false} CooperatesOnceMore(s: System, run: seq<Step>, st: Step, k: ConnID)
    requires Run(s, run) && CooperatingRun(s, run, k) && Can(End(s, run), st) && Cooperates(End(s, run), st, k)
    ensures Run(s, run + [st]) && CooperatingRun(s, run + [st], k)
    decreases |run|
  {
    TunnelRuns.OneStepMore(s, run, st);
    if run == [] {
      assert [] + [st] == [st] && [st][1..] == [];
    } else {
      assert (run + [st])[1..] == run[1..] + [st];
      CooperatesOnceMore(Do(s, run[0]), run[1..], st, k);
    }
  }

  /** What a first connection writes, read and followed by its close. */
  const UPLOAD: seq<Step> := [
    Host(Write(TunnelRuns.FIRST, [7], true)), AgentReceives(1, [], true),
    Host(Close(TunnelRuns.FIRST, true)), AgentReceives(0, [], true)]

  /** The first connection with its request handled, up to what was written and read since. */
  ghost predicate Opened(s: System) {
    var k := TunnelRuns.FIRST;
    && k in s.host.conns && k in s.agent.connections && k in s.agent.conns && !s.agent.stopped
    && s.agent.conns[k].writable
  }

  lemma WriteIsGiven(s: System)
    requires Opened(s) && !s.host.conns[TunnelRuns.FIRST].closed && s.upRead == |s.host.out|
    requires s.agent.conns[TunnelRuns.FIRST].got == []
    ensures Can(s, UPLOAD[0]) && Cooperates(s, UPLOAD[0], TunnelRuns.FIRST)
    ensures var s1 := Do(s, UPLOAD[0]);
      && Can(s1, UPLOAD[1]) && Cooperates(s1, UPLOAD[1], TunnelRuns.FIRST)
      && var s2 := Do(s1, UPLOAD[1]);
         Opened(s2) && !s2.host.conns[TunnelRuns.FIRST].closed && s2.upRead == |s2.host.out|
         && s2.agent.conns[TunnelRuns.FIRST].got == [7]
  {}

  lemma CloseIsHandled(s: System)
    requires Opened(s) && !s.host.conns[TunnelRuns.FIRST].closed && s.upRead == |s.host.out|
    ensures Can(s, UPLOAD[2]) && Cooperates(s, UPLOAD[2], TunnelRuns.FIRST)
    ensures var s1 := Do(s, UPLOAD[2]);
      && Can(s1, UPLOAD[3]) && Cooperates(s1, UPLOAD[3], TunnelRuns.FIRST)
      && var s2 := Do(s1, UPLOAD[3]);
         TunnelRuns.FIRST in s2.agent.conns && TunnelRuns.FIRST !in s2.agent.connections
         && s2.agent.conns[TunnelRuns.FIRST].got == s.agent.conns[TunnelRuns.FIRST].got
  {}

  lemma MoreSteps(run: seq<Step>, st: Step, k: ConnID)
    requires Run(INIT, run) && CooperatingRun(INIT, run, k)
    requires Can(End(INIT, run), st) && Cooperates(End(INIT, run), st, k)
    ensures Run(INIT, run + [st]) && CooperatingRun(INIT, run + [st], k)
    ensures End(INIT, run + [st]) == Do(End(INIT, run), st)
  {
    CooperatesOnceMore(INIT, run, st, k);
    TunnelRuns.OneStepMore(INIT, run, st);
  }

  lemma DialCooperates()
    ensures Run(INIT, TunnelRuns.DIAL) && CooperatingRun(INIT, TunnelRuns.DIAL, TunnelRuns.FIRST)
    ensures End(INIT, TunnelRuns.DIAL) == TunnelRuns.AfterAck()
  {
    var d, k := TunnelRuns.DIAL, TunnelRuns.FIRST;
    TunnelRuns.RequestStep();
    MoreSteps([], d[0], k);
    TunnelRuns.RequestReadStep();
    MoreSteps([] + [d[0]], d[1], k);
    TunnelRuns.TargetDialledStep();
    MoreSteps([] + [d[0]] + [d[1]], d[2], k);
    TunnelRuns.AckStep();
    MoreSteps([] + [d[0]] + [d[1]] + [d[2]], d[3], k);
    assert d == [] + [d[0]] + [d[1]] + [d[2]] + [d[3]];
  }

  lemma TwoSteps(run: seq<Step>, first: Step, second: Step, k: ConnID)
    requires Run(INIT, run) && CooperatingRun(INIT, run, k)
    requires Can(End(INIT, run), first) && Cooperates(End(INIT, run), first, k)
    requires var s := Do(End(INIT, run), first); Can(s, second) && Cooperates(s, second, k)
    ensures var run' := run + [first] + [second];
      Run(INIT, run') && CooperatingRun(INIT, run', k) && End(INIT, run') == Do(Do(End(INIT, run), first), second)
  {
    MoreSteps(run, first, k);
    MoreSteps(run + [first], second, k);
  }

  lemma AckOpens()
    ensures var s := TunnelRuns.AfterAck();
      && Opened(s) && !s.host.conns[TunnelRuns.FIRST].closed && s.upRead == |s.host.out|
      && s.agent.conns[TunnelRuns.FIRST].got == []
  {}

  /** There is such a run, and it comes to the point where the close was handled. */
  lemma UploadIsReached()
    ensures var run := TunnelRuns.DIAL + [UPLOAD[0]] + [UPLOAD[1]] + [UPLOAD[2]] + [UPLOAD[3]];
      && Run(INIT, run) && CooperatingRun(INIT, run, TunnelRuns.FIRST)
      && var a := End(INIT, run).agent;
         TunnelRuns.FIRST !in a.connections && TunnelRuns.FIRST in a.conns && a.conns[TunnelRuns.FIRST].got == [7]
  {
    DialCooperates();
    AckOpens();
    WriteIsGiven(TunnelRuns.AfterAck());
    TwoSteps(TunnelRuns.DIAL, UPLOAD[0], UPLOAD[1], TunnelRuns.FIRST);
    var written := TunnelRuns.DIAL + [UPLOAD[0]] + [UPLOAD[1]];
    CloseIsHandled(End(INIT, written));
    TwoSteps(written, UPLOAD[2], UPLOAD[3], TunnelRuns.FIRST);
  }
}

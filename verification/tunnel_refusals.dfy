/** What a waiting Dial and a refused one can rely on: the request is on the link, and the reason is the agent's
    own, saying what went wrong there. */
module TunnelRefusals {
  import opened Wrappers
  import opened Octets
  import opened Framing
  import opened MuxSpec
  import opened AgentSpec
  import opened Tunnel
  import opened TunnelInvariant
  import TunnelShutdown
  import TunnelTheorems

  /** "1:" in front of the reason if the request could not be parsed, "2:" if the dial failed. */
  predicate Explains(request: Message, payload: Bytes) {
    |payload| >= 2 && payload[1] == 58 && payload[0] == if Parsed(request.payload).None? then 49 else 50
  }

  ghost predicate Explained(seen: seq<Message>, down: seq<Message>) {
    down != [] && down[0].kind == MSG_ERROR ==> seen != [] && Explains(seen[0], down[0].payload)
  }

  /** On a live mux a refusal is the one that came back. */
  ghost predicate Quoted(seen: seq<Message>, h: HostView) {
    !h.dead && h.waiting.Some? && h.waiting.value.Some? && h.waiting.value.value.Refused? ==>
      seen != [] && seen[0].kind == MSG_ERROR && seen[0].payload == h.waiting.value.value.reason
  }

  ghost predicate AskedFor(up: seq<Message>, h: HostView) {
    h.waiting.Some? ==> up != []
  }

  ghost predicate AgentTells(a: Agent, seen: seq<Message>, k: ConnID) {
    Explained(seen, Of(a.out, k))
  }

  ghost predicate HostHears(m: Mux, seen: seq<Message>, k: ConnID) {
    Quoted(seen, HostAt(m, k)) && AskedFor(Of(m.out, k), HostAt(m, k))
  }

  ghost predicate Told(s: System, k: ConnID) {
    && Global(s)
    && AgentTells(s.agent, Of(s.host.out[..s.upRead], k), k)
    && HostHears(s.host, Of(s.agent.out[..s.downRead], k), k)
  }

  /* ---------- the agent ---------- */

  lemma FirstStays(out: seq<Message>, out': seq<Message>, k: ConnID)
    requires out <= out' && Of(out, k) != []
    ensures Of(out', k) != [] && Of(out', k)[0] == Of(out, k)[0]
  {
    OfPrefix(out', |out|, k);
    assert out'[..|out|] == out;
  }

  lemma RequestTells(a: Agent, x: Message, reason: Bytes, ok: bool, k: ConnID)
    requires x.connID == k && Of(a.out, k) == []
    ensures AgentTells(OnConnectDirect(a, k, x.payload, reason, ok), [x], k)
  {
    RequestAt(a, k, x.payload, reason, ok, k);
    OfSent(a.out, ErrorMessage(k, PARSE_FAILED, reason), Parsed(x.payload).None? && ok, |a.out|, k);
  }

  lemma OwnMessageTells(a: Agent, x: Message, taken: nat, reason: Bytes, ok: bool, seen: seq<Message>,
                        sourced: Bytes, k: ConnID)
    requires AgentOk(seen, Of(a.out, k), sourced, AgentAt(a, k)) && AgentTells(a, seen, k)
    requires x.connID == k && AgentMayGet(x, k, seen, Of(a.out, k)) && |x.payload| <= MAX_PAYLOAD
    ensures AgentTells(AgentReceived(a, x, taken, reason, ok), seen + [x], k)
  {
    if seen == [] {
      RequestTells(a, x, reason, ok, k);
      assert [] + [x] == [x];
    } else {
      OwnReceivedOk(a, x, taken, reason, ok, seen, sourced, k);
      FirstStays(a.out, AgentReceived(a, x, taken, reason, ok).out, k);
    }
  }

  lemma MessageTells(a: Agent, log: seq<Message>, n: nat, taken: nat, reason: Bytes, ok: bool, sourced: Bytes,
                     k: ConnID)
    requires n < |log| && |log[n].payload| <= MAX_PAYLOAD
    requires AgentHalf(k, a, Of(log[..n], k), sourced) && AgentTells(a, Of(log[..n], k), k)
    requires AgentMayGet(log[n], k, Of(log[..n], k), Of(a.out, k))
    ensures AgentTells(AgentReceived(a, log[n], taken, reason, ok), Of(log[..n + 1], k), k)
  {
    var x, seen := log[n], Of(log[..n], k);
    OfNext(log, n, k);
    if x.connID == k {
      OwnMessageTells(a, x, taken, reason, ok, seen, sourced, k);
    } else {
      OtherReceivedOk(a, x, taken, reason, ok, k);
      assert seen + [] == seen;
    }
  }

  lemma HandlingTells(s: System, taken: nat, reason: Bytes, ok: bool, k: ConnID)
    requires Inv(s, k) && Told(s, k) && s.upRead < |s.host.out| && |s.host.out[s.upRead].payload| <= MAX_PAYLOAD
    ensures AgentTells(AgentReceived(s.agent, s.host.out[s.upRead], taken, reason, ok),
                       Of(s.host.out[..s.upRead + 1], k), k)
  {
    NextForAgent(s, k);
    MessageTells(s.agent, s.host.out, s.upRead, taken, reason, ok, At(s.sourced, k), k);
  }

  /** A dial that is over answers the request that was parsed. */
  lemma DialledTells(a: Agent, id: ConnID, success: bool, reason: Bytes, ok: bool, seen: seq<Message>, k: ConnID)
    requires id in a.dialing && AgentTells(a, seen, k)
    requires id == k ==> Of(a.out, k) == [] && seen != [] && Parsed(seen[0].payload).Some?
    ensures AgentTells(Dialled(a, id, success, reason, ok), seen, k)
  {
    var x := if success then Message(MSG_CONNECT_ACK, id, []) else ErrorMessage(id, DIAL_FAILED, reason);
    OfSent(a.out, x, ok, |a.out|, k);
    assert Dialled(a, id, success, reason, ok).out == Sent(a.out, x, ok) && Of(a.out, k) + [] == Of(a.out, k);
    assert [] + [x] == [x];
  }

  lemma LaterTells(a: Agent, a': Agent, x: Message, seen: seq<Message>, k: ConnID)
    requires AgentTells(a, seen, k) && (a'.out == a.out || a'.out == a.out + [x])
    requires x.connID == k ==> Of(a.out, k) != []
    ensures AgentTells(a', seen, k)
  {
    OfAppend(a.out, x, k);
    assert Of(a.out, k) + [] == Of(a.out, k);
  }

  /** What the invariant says where the target acts on its own. */
  ghost predicate WellPlaced(a: Agent, seen: seq<Message>, k: ConnID) {
    && (k in a.dialing ==> Of(a.out, k) == [] && seen != [] && Parsed(seen[0].payload).Some?)
    && (Reading(a, k) ==> Of(a.out, k) != [])
  }

  lemma TargetIsWellPlaced(s: System, k: ConnID)
    requires Inv(s, k)
    ensures WellPlaced(s.agent, Of(s.host.out[..s.upRead], k), k)
  {
    var v := AgentAt(s.agent, k);
    assert k in s.agent.dialing ==> v.dialing == Some(s.agent.dialing[k]);
    assert Reading(s.agent, k) ==> v.conn == Some(s.agent.conns[k]);
  }

  /* ---------- the host ---------- */

  lemma OwnAnswerHeard(m: Mux, x: Message, drop: bool, k: ConnID)
    requires HostHears(m, [], k) && x.connID == k && IsAnswer(x)
    ensures HostHears(Received(m, x, drop), [x], k)
  {
    ReceivingKeepsTheRest(m, x, drop);
    AckAt(m, k, k);
    RefusalAt(m, k, x.payload, k);
  }

  lemma TrafficHeard(m: Mux, x: Message, drop: bool, seen: seq<Message>, k: ConnID)
    requires HostHears(m, seen, k) && (x.connID == k ==> seen != [] && !IsAnswer(x))
    ensures HostHears(Received(m, x, drop), seen + (if x.connID == k then [x] else []), k)
  {
    ReceivingKeepsTheRest(m, x, drop);
    if x.connID == k {
      QueuedAt(m, k, x.payload, drop, k);
      ClosedAt(m, k, k);
    } else {
      OthersTrafficOk(m, x, drop, k);
      assert seen + [] == seen;
    }
  }

  lemma ReceivingHeard(m: Mux, log: seq<Message>, n: nat, drop: bool, k: ConnID)
    requires n < |log| && HostHears(m, Of(log[..n], k), k) && HostMayGet(log[n], k, Of(log[..n], k))
    ensures HostHears(Received(m, log[n], drop), Of(log[..n + 1], k), k)
  {
    var x, seen := log[n], Of(log[..n], k);
    OfNext(log, n, k);
    if x.connID == k && seen == [] {
      OwnAnswerHeard(m, x, drop, k);
      assert [] + [x] == [x];
    } else {
      TrafficHeard(m, x, drop, seen, k);
    }
  }

  lemma NextWaiting(m: Mux, a: MuxSpec.Action, k: ConnID)
    requires Enabled(m, a) && !a.Recv?
    ensures var h, h' := HostAt(m, k), HostAt(Next(m, a), k);
      h'.dead || h'.waiting == h.waiting || h'.waiting.None?
      || (h'.waiting == Some(None) && a.DialStart? && a.writeOk && NextID(m.nextConnID) == k)
    ensures var h, h' := HostAt(m, k), HostAt(Next(m, a), k);
      h'.waiting.Some? ==> h.waiting.Some? || (a.DialStart? && a.writeOk && !m.dead && NextID(m.nextConnID) == k)
    ensures m.dead ==> Next(m, a).dead
    ensures m.out <= Next(m, a).out
  {}

  lemma HostStepHeard(m: Mux, a: MuxSpec.Action, seen: seq<Message>, k: ConnID)
    requires Enabled(m, a) && !a.Recv? && HostHears(m, seen, k)
    ensures HostHears(Next(m, a), seen, k)
  {
    NextWaiting(m, a, k);
    if HostAt(m, k).waiting.Some? {
      FirstStays(m.out, Next(m, a).out, k);
    } else if HostAt(Next(m, a), k).waiting.Some? {
      OfAppend(m.out, ConnectDirect(k, a.network, a.address), k);
    }
  }

  /* ---------- runs ---------- */

  lemma HostStepTold(s: System, s': System, k: ConnID)
    requires Told(s, k) && Global(s') && s'.agent == s.agent && s'.upRead == s.upRead && s.host.out <= s'.host.out
    requires HostHears(s'.host, Of(s.agent.out[..s'.downRead], k), k)
    ensures Told(s', k)
  {
    assert s'.host.out[..s.upRead] == s.host.out[..s.upRead];
  }

  lemma AgentStepTold(s: System, s': System, k: ConnID)
    requires Told(s, k) && Global(s') && s'.host == s.host && s'.downRead == s.downRead && s.agent.out <= s'.agent.out
    requires AgentTells(s'.agent, Of(s.host.out[..s'.upRead], k), k)
    ensures Told(s', k)
  {
    assert s'.agent.out[..s.downRead] == s.agent.out[..s.downRead];
  }

  lemma HostTold(s: System, s': System, a: MuxSpec.Action, k: ConnID)
    requires Told(s, k) && Can(s, Host(a)) && s' == HostDoes(s, a) && Global(s')
    ensures Told(s', k)
  {
    TunnelShutdown.HostDoesNoMore(s, a);
    NextWaiting(s.host, a, k);
    HostStepHeard(s.host, a, Of(s.agent.out[..s.downRead], k), k);
    HostStepTold(s, s', k);
  }

  lemma ReceiveTold(s: System, s': System, drop: bool, k: ConnID)
    requires Told(s, k) && s.downRead < |s.agent.out| && Global(s')
    requires HostMayGet(s.agent.out[s.downRead], k, Of(s.agent.out[..s.downRead], k))
    requires s' == s.(host := Received(s.host, s.agent.out[s.downRead], drop), downRead := s.downRead + 1)
    ensures Told(s', k)
  {
    ReceivingHeard(s.host, s.agent.out, s.downRead, drop, k);
    ReceivingKeepsTheRest(s.host, s.agent.out[s.downRead], drop);
    HostStepTold(s, s', k);
  }

  lemma DialledTold(s: System, s': System, id: ConnID, success: bool, reason: Bytes, ok: bool, k: ConnID)
    requires Told(s, k) && WellPlaced(s.agent, Of(s.host.out[..s.upRead], k), k) && id in s.agent.dialing && Global(s')
    requires s' == s.(agent := Dialled(s.agent, id, success, reason, ok))
    ensures Told(s', k)
  {
    DialledTells(s.agent, id, success, reason, ok, Of(s.host.out[..s.upRead], k), k);
    AgentStepTold(s, s', k);
  }

  /** The target sends or ends: one more message about an acknowledged connection, if any. */
  lemma TargetTold(s: System, s': System, id: ConnID, x: Message, k: ConnID)
    requires Told(s, k) && x.connID == id && (id == k ==> Of(s.agent.out, k) != []) && Global(s')
    requires s'.agent.out == s.agent.out || s'.agent.out == s.agent.out + [x]
    requires s'.host == s.host && s'.upRead == s.upRead && s'.downRead == s.downRead
    ensures Told(s', k)
  {
    LaterTells(s.agent, s'.agent, x, Of(s.host.out[..s.upRead], k), k);
    AgentStepTold(s, s', k);
  }

  lemma SendsTold(s: System, s': System, id: ConnID, data: Bytes, ok: bool, closeOk: bool, k: ConnID)
    requires Told(s, k) && Reading(s.agent, id) && (id == k ==> Of(s.agent.out, k) != []) && Global(s')
    requires s' == s.(agent := Forwarded(s.agent, id, data, ok, closeOk), sourced := s'.sourced)
    ensures Told(s', k)
  {
    TargetTold(s, s', id, if ok then Message(MSG_DATA, id, data) else Message(MSG_CLOSE, id, []), k);
  }

  lemma AgentReceivesTold(s: System, s': System, st: Step, k: ConnID)
    requires Inv(s, k) && Told(s, k) && st.AgentReceives? && Can(s, st) && s' == Do(s, st) && Global(s')
    ensures Told(s', k)
  {
    if |s.host.out[s.upRead].payload| <= MAX_PAYLOAD { HandlingTells(s, st.taken, st.reason, st.writeOk, k); }
    TunnelTheorems.LogGrows(s, st);
    AgentStepTold(s, s', k);
  }

  lemma HostReceivesTold(s: System, s': System, st: Step, k: ConnID)
    requires Inv(s, k) && Told(s, k) && st.HostReceives? && Can(s, st) && s' == Do(s, st) && Global(s')
    ensures Told(s', k)
  {
    NextForHost(s, k);
    ReceiveTold(s, s', st.drop, k);
  }

  lemma TargetStepTold(s: System, s': System, st: Step, k: ConnID)
    requires Told(s, k) && WellPlaced(s.agent, Of(s.host.out[..s.upRead], k), k)
    requires st.TargetDialled? || st.TargetSends? || st.TargetEnds?
    requires Can(s, st) && s' == Do(s, st) && Global(s')
    ensures Told(s', k)
  {
    match st
    case TargetDialled(id, success, reason, ok) => DialledTold(s, s', id, success, reason, ok, k);
    case TargetSends(id, data, ok, closeOk) => SendsTold(s, s', id, data, ok, closeOk, k);
    case TargetEnds(id, ok) => TargetTold(s, s', id, Message(MSG_CLOSE, id, []), k);
  }

  lemma StepTold(s: System, s': System, st: Step, k: ConnID)
    requires Inv(s, k) && Told(s, k) && Can(s, st) && s' == Do(s, st) && Global(s')
    ensures Told(s', k)
  {
    match st
    case Host(a) => HostTold(s, s', a, k);
    case HostReceives(_) => HostReceivesTold(s, s', st, k);
    case AgentReceives(_, _, _) => AgentReceivesTold(s, s', st, k);
    case _ =>
      TargetIsWellPlaced(s, k);
      TargetStepTold(s, s', st, k);
  }

  lemma {:induction false} RunTold(s: System, run: seq<Step>, k: ConnID)
    requires InvAll(s) && Told(s, k) && Run(s, run)
    ensures Told(End(s, run), k)
    decreases |run|
  {
    if run != [] {
      assert Inv(s, k);
      DoKeepsInv(s, run[0]);
      assert Inv(Do(s, run[0]), k);
      StepTold(s, Do(s, run[0]), run[0], k);
      RunTold(Do(s, run[0]), run[1..], k);
    }
  }

  lemma ReachedTold(s: System, k: ConnID)
    requires TunnelTheorems.Reached(s)
    ensures Told(s, k)
  {
    var run :| Run(INIT, run) && End(INIT, run) == s;
    EveryRunKeepsInv([]);
    RunTold(INIT, run, k);
  }

  /** While a Dial waits its request is on the link, first of all that the host says about that id, and asks for
      what the Dial asked for. */
  lemma WaitingMeansAsked(s: System, k: ConnID)
    requires TunnelTheorems.Reached(s) && k in s.host.pending
    ensures k in s.requests && Of(s.host.out, k) != []
    ensures Of(s.host.out, k)[0].kind == MSG_CONNECT_DIRECT
    ensures Of(s.host.out, k)[0].payload == s.requests[k].network + [58] + s.requests[k].address
  {
    ReachedTold(s, k);
    TunnelTheorems.ReachedInv(s);
    assert Inv(s, k);
    assert HostAt(s.host, k).waiting == Some(s.host.pending[k]);
  }

  lemma RefusalCameBack(s: System, k: ConnID, reason: Bytes)
    requires Told(s, k) && !s.host.dead
    requires k in s.host.pending && s.host.pending[k] == Some(Refused(reason))
    ensures var down := Of(s.agent.out, k); down != [] && down[0].kind == MSG_ERROR && down[0].payload == reason
  {
    assert HostAt(s.host, k).waiting == Some(s.host.pending[k]);
    OfPrefix(s.agent.out, s.downRead, k);
  }

  lemma ErrorMeansDialFailed(s: System, k: ConnID)
    requires Told(s, k) && UpShape(Of(s.host.out, k), k, s.requests)
    requires var down := Of(s.agent.out, k); down != [] && down[0].kind == MSG_ERROR
    ensures [50, 58] <= Of(s.agent.out, k)[0].payload
  {
    var seen := Of(s.host.out[..s.upRead], k);
    OfPrefix(s.host.out, s.upRead, k);
    assert seen[0] == Of(s.host.out, k)[0];
    ParsedIffColon(seen[0].payload);
    assert seen[0].payload[|s.requests[k].network|] == 58;
  }

  lemma WhatHostAsked(s: System, k: ConnID)
    requires Inv(s, k)
    ensures UpShape(Of(s.host.out, k), k, s.requests)
  {}

  /** While the mux lives, a refused Dial was refused by the agent, and because its dial failed: the reason is
      the text of the agent's error message, and begins with "2:". No request of this host is ever unparsable. */
  lemma RefusedMeansDialFailed(s: System, k: ConnID, reason: Bytes)
    requires TunnelTheorems.Reached(s) && !s.host.dead
    requires k in s.host.pending && s.host.pending[k] == Some(Refused(reason))
    ensures exists i: nat :: i < |s.agent.out| && s.agent.out[i] == Message(MSG_ERROR, k, reason)
    ensures [50, 58] <= reason
  {
    ReachedTold(s, k);
    TunnelTheorems.ReachedInv(s);
    assert Inv(s, k);
    WhatHostAsked(s, k);
    RefusalCameBack(s, k, reason);
    ErrorMeansDialFailed(s, k);
    WhereItIs(s.agent.out, k);
  }

  lemma WhereItIs(log: seq<Message>, k: ConnID)
    requires Of(log, k) != []
    ensures exists i: nat :: i < |log| && log[i] == Of(log, k)[0] && log[i].connID == k
  {
    var i := TunnelTheorems.FirstOf(log, k);
    TunnelTheorems.ConnIDOfFirst(log, k);
    assert log[i] in Of(log, k);
  }

  lemma {:induction false} ParsedSplits(payload: Bytes)
    requires Parsed(payload).Some?
    ensures var (network, address) := Parsed(payload).value; network + [58] + address == payload && 58 !in network
  {
    if payload[0] == 58 {
      assert payload == [] + [58] + payload[1..];
    } else {
      ParsedSplits(payload[1..]);
      var (network, address) := Parsed(payload[1..]).value;
      assert payload == [payload[0]] + (network + [58] + address) == ([payload[0]] + network) + [58] + address;
    }
  }

  /** What the agent says to a request: an error "1:" exactly if there is no colon in it. */
  lemma RequestIsRefusedIff(a: Agent, id: ConnID, payload: Bytes, taken: nat, reason: Bytes, ok: bool)
    requires |payload| <= MAX_PAYLOAD
    ensures var a' := AgentReceived(a, Message(MSG_CONNECT_DIRECT, id, payload), taken, reason, ok);
      if 58 !in payload then
        a' == a.(out := a.out + (if ok then [Message(MSG_ERROR, id, [49, 58] + reason)] else []))
      else
        && a' == a.(dialing := a'.dialing) && id in a'.dialing
        && var t := a'.dialing[id]; t.network + [58] + t.address == payload && 58 !in t.network
  {
    ParsedIffColon(payload);
    if 58 in payload {
      ParsedSplits(payload);
    } else {
      assert a.out + [] == a.out;
    }
  }
}

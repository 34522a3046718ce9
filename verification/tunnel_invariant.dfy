/** Every run of the tunnel keeps its invariant, connection by connection. */
module TunnelInvariant {
  import opened Wrappers
  import opened Octets
  import opened Framing
  import opened MuxSpec
  import opened AgentSpec
  import opened Tunnel
  import MuxTheorems

  /* ---------- links ---------- */

  lemma OfAppend(log: seq<Message>, x: Message, k: ConnID)
    ensures Of(log + [x], k) == Of(log, k) + (if x.connID == k then [x] else [])
  {
    assert (log + [x])[..|log|] == log;
  }

  lemma {:induction false} OfPrefix(log: seq<Message>, n: nat, k: ConnID)
    requires n <= |log|
    ensures Of(log[..n], k) <= Of(log, k)
  {
    if n < |log| {
      OfPrefix(log[..|log| - 1], n, k);
      assert log[..|log| - 1][..n] == log[..n];
    } else {
      assert log[..n] == log;
    }
  }

  lemma OfNext(log: seq<Message>, n: nat, k: ConnID)
    requires n < |log|
    ensures Of(log[..n + 1], k) == Of(log[..n], k) + (if log[n].connID == k then [log[n]] else [])
    ensures Of(log[..n + 1], k) <= Of(log, k)
  {
    assert log[..n + 1] == log[..n] + [log[n]];
    OfAppend(log[..n], log[n], k);
    OfPrefix(log, n + 1, k);
  }

  /** A write that may have failed. */
  lemma OfSent(log: seq<Message>, x: Message, ok: bool, n: nat, k: ConnID)
    requires n <= |log|
    ensures Of(Sent(log, x, ok), k) == Of(log, k) + (if ok && x.connID == k then [x] else [])
    ensures Sent(log, x, ok)[..n] == log[..n] && n <= |Sent(log, x, ok)|
  {
    if ok { OfAppend(log, x, k); }
    assert Of(log, k) + [] == Of(log, k);
  }

  lemma DataAppend(xs: seq<Message>, x: Message)
    ensures x.kind == MSG_DATA ==> DataBytes(xs + [x]) == DataBytes(xs) + x.payload
    ensures x.kind != MSG_DATA ==> DataBytes(xs + [x]) == DataBytes(xs)
  {
    assert (xs + [x])[..|xs|] == xs;
  }

  lemma {:induction false} DataPrefix(xs: seq<Message>, ys: seq<Message>)
    requires xs <= ys
    ensures DataBytes(xs) <= DataBytes(ys)
  {
    if |xs| < |ys| {
      DataPrefix(xs, ys[..|ys| - 1]);
    } else {
      assert xs == ys;
    }
  }

  /* ---------- the agent's half ---------- */

  lemma OneRequestOnly(seen: seq<Message>)
    requires |seen| <= 1 && (seen != [] ==> seen[0].kind == MSG_CONNECT_DIRECT)
    ensures !HasClose(seen) && DataBytes(seen) == []
  {
    if seen != [] {
      assert seen == [] + [seen[0]];
      DataAppend([], seen[0]);
    }
  }

  /** A dial that is over: bound to what was asked, and announced if the write went through. */
  lemma DialledOk(seen: seq<Message>, down: seq<Message>, sourced: Bytes, v: AgentView, success: bool, x: Message,
                  ok: bool)
    requires AgentOk(seen, down, sourced, v) && v.dialing.Some?
    requires |seen| == 1 && seen[0].kind == MSG_CONNECT_DIRECT
    requires x.kind == if success then MSG_CONNECT_ACK else MSG_ERROR
    ensures AgentOk(seen, down + (if ok then [x] else []), sourced,
                    if success then AgentView(None, Some(Connection(v.dialing.value, ok, ok, false, [])), true)
                    else v.(dialing := None))
  {
    OneRequestOnly(seen);
    DataAppend(down, x);
    assert down + [] == down;
  }

  /** A connection's one-shot Close. */
  lemma EndedOk(seen: seq<Message>, down: seq<Message>, sourced: Bytes, v: AgentView, x: Message, ok: bool)
    requires AgentOk(seen, down, sourced, v) && v.conn.Some? && !v.conn.value.closedOnce
    requires Acked(down) && x.kind == MSG_CLOSE
    ensures AgentOk(seen, down + (if ok then [x] else []), sourced,
                    v.(conn := Some(v.conn.value.(reading := false, writable := false, closedOnce := true))))
  {
    DataAppend(down, x);
    assert down + [] == down;
  }

  lemma ForwardedOk(seen: seq<Message>, down: seq<Message>, sourced: Bytes, v: AgentView, x: Message)
    requires AgentOk(seen, down, sourced, v) && v.conn.Some? && v.conn.value.reading && x.kind == MSG_DATA
    ensures AgentOk(seen, down + [x], sourced + x.payload, v)
  {
    DataAppend(down, x);
    CloseAppend(down, x);
  }

  /** The request arrives: refused at once, or being dialled. */
  lemma RequestOk(down: seq<Message>, sourced: Bytes, v: AgentView, x: Message, refusal: Message, ok: bool)
    requires AgentOk([], down, sourced, v) && x.kind == MSG_CONNECT_DIRECT && refusal.kind == MSG_ERROR
    ensures var p := Parsed(x.payload);
      AgentOk([x], down + (if p.None? && ok then [refusal] else []), sourced,
              if p.None? then v else v.(dialing := Some(Target(p.value.0, p.value.1))))
  {
    OneRequestOnly([x]);
    DataAppend([], refusal);
    assert down == [] && down + [] == [] && down + [refusal] == [] + [refusal];
  }

  /** Data arrives: given to the target while the map lists the connection and the target accepts it. */
  lemma DataGivenOk(seen: seq<Message>, down: seq<Message>, sourced: Bytes, v: AgentView, x: Message, taken: nat)
    requires AgentOk(seen, down, sourced, v) && x.kind == MSG_DATA && seen != []
    ensures AgentOk(seen + [x], down, sourced,
                    if v.listed then v.(conn := Some(Given(v.conn.value, x.payload, taken))) else v)
  {
    DataAppend(seen, x);
    assert HasClose(seen + [x]) <==> HasClose(seen) by { CloseAppend(seen, x); }
  }

  lemma CloseAppend(seen: seq<Message>, x: Message)
    ensures HasClose(seen + [x]) <==> HasClose(seen) || x.kind == MSG_CLOSE
  {
    if i :| 0 <= i < |seen| && seen[i].kind == MSG_CLOSE { assert (seen + [x])[i].kind == MSG_CLOSE; }
    if x.kind == MSG_CLOSE { assert (seen + [x])[|seen|].kind == MSG_CLOSE; }
  }

  /** A close arrives: the map forgets the connection. */
  lemma CloseSeenOk(seen: seq<Message>, down: seq<Message>, sourced: Bytes, v: AgentView, x: Message)
    requires AgentOk(seen, down, sourced, v) && x.kind == MSG_CLOSE && seen != []
    ensures AgentOk(seen + [x], down, sourced, v.(listed := false))
  {
    DataAppend(seen, x);
    CloseAppend(seen, x);
  }

  /* ---------- what a step of the agent does to connection k ---------- */

  lemma DialledAt(a: Agent, id: ConnID, success: bool, reason: Bytes, ok: bool, k: ConnID)
    requires id in a.dialing
    ensures var a', v := Dialled(a, id, success, reason, ok), AgentAt(a, k);
      AgentAt(a', k) == if id != k then v
                        else if success then AgentView(None, Some(Connection(v.dialing.value, ok, ok, false, [])), true)
                        else v.(dialing := None)
  {}

  lemma EndedAt(a: Agent, id: ConnID, ok: bool, k: ConnID)
    requires id in a.conns
    ensures var v := AgentAt(a, k);
      AgentAt(Ended(a, id, ok), k)
      == if id == k then v.(conn := Some(v.conn.value.(reading := v.conn.value.reading && v.conn.value.closedOnce,
                                                       writable := v.conn.value.writable && v.conn.value.closedOnce,
                                                       closedOnce := true)))
         else v
  {}

  lemma RequestAt(a: Agent, id: ConnID, payload: Bytes, reason: Bytes, ok: bool, k: ConnID)
    ensures var a', v, p := OnConnectDirect(a, id, payload, reason, ok), AgentAt(a, k), Parsed(payload);
      && AgentAt(a', k) == (if id == k && p.Some? then v.(dialing := Some(Target(p.value.0, p.value.1))) else v)
      && a'.out == Sent(a.out, ErrorMessage(id, PARSE_FAILED, reason), p.None? && ok)
  {}

  lemma DataAt(a: Agent, id: ConnID, payload: Bytes, taken: nat, k: ConnID)
    requires AgentAt(a, k).listed ==> AgentAt(a, k).conn.Some?
    ensures var a', v := OnAgentData(a, id, payload, taken), AgentAt(a, k);
      && AgentAt(a', k) == (if id == k && v.listed then v.(conn := Some(Given(v.conn.value, payload, taken))) else v)
      && a'.out == a.out
  {}

  /* ---------- steps of the agent keep its half ---------- */

  lemma TargetDialledOk(a: Agent, id: ConnID, success: bool, reason: Bytes, ok: bool,
                        seen: seq<Message>, sourced: Bytes, k: ConnID)
    requires id in a.dialing && AgentOk(seen, Of(a.out, k), sourced, AgentAt(a, k))
    requires id == k ==> |seen| == 1 && seen[0].kind == MSG_CONNECT_DIRECT
    ensures var a' := Dialled(a, id, success, reason, ok);
      a.out <= a'.out && AgentOk(seen, Of(a'.out, k), sourced, AgentAt(a', k))
  {
    var a' := Dialled(a, id, success, reason, ok);
    var x := if success then Message(MSG_CONNECT_ACK, id, []) else ErrorMessage(id, DIAL_FAILED, reason);
    var v, down := AgentAt(a, k), Of(a.out, k);
    assert a'.out == Sent(a.out, x, ok);
    OfSent(a.out, x, ok, |a.out|, k);
    DialledAt(a, id, success, reason, ok, k);
    if id == k {
      DialledOk(seen, down, sourced, v, success, x, ok);
    } else {
      assert down + [] == down;
    }
  }

  lemma TargetEndsOk(a: Agent, id: ConnID, ok: bool, seen: seq<Message>, sourced: Bytes, k: ConnID)
    requires id in a.conns && (id == k ==> Acked(Of(a.out, k)))
    requires AgentOk(seen, Of(a.out, k), sourced, AgentAt(a, k))
    ensures var a' := Ended(a, id, ok);
      a.out <= a'.out && AgentOk(seen, Of(a'.out, k), sourced, AgentAt(a', k))
  {
    var x, down, v := Message(MSG_CLOSE, id, []), Of(a.out, k), AgentAt(a, k);
    OfSent(a.out, x, ok, |a.out|, k);
    EndedAt(a, id, ok, k);
    assert down + [] == down;
    if id == k && !a.conns[id].closedOnce {
      EndedOk(seen, down, sourced, v, x, ok);
    }
  }

  /** Bytes the target sent but the transport did not take are lost, and nothing follows them. */
  lemma LostOnTheWay(seen: seq<Message>, down: seq<Message>, sourced: Bytes, v: AgentView, data: Bytes)
    requires AgentOk(seen, down, sourced, v) && v.conn.Some? && !v.conn.value.reading
    ensures AgentOk(seen, down, sourced + data, v)
  {}

  lemma TargetSendsOk(a: Agent, id: ConnID, data: Bytes, ok: bool, closeOk: bool,
                      seen: seq<Message>, sourced: Bytes, k: ConnID)
    requires Reading(a, id) && AgentOk(seen, Of(a.out, k), sourced, AgentAt(a, k))
    ensures var a' := Forwarded(a, id, data, ok, closeOk);
      && a.out <= a'.out
      && AgentOk(seen, Of(a'.out, k), if id == k then sourced + data else sourced, AgentAt(a', k))
  {
    var x, down, v := Message(MSG_DATA, id, data), Of(a.out, k), AgentAt(a, k);
    assert id == k ==> v.conn == Some(a.conns[k]);
    if ok {
      OfAppend(a.out, x, k);
      assert down + [] == down;
      if id == k { ForwardedOk(seen, down, sourced, v, x); }
    } else {
      TargetEndsOk(a, id, closeOk, seen, sourced, k);
      EndedAt(a, id, closeOk, k);
      if id == k {
        var a' := Ended(a, id, closeOk);
        LostOnTheWay(seen, Of(a'.out, k), sourced, AgentAt(a', k), data);
      }
    }
  }

  lemma RequestReceivedOk(a: Agent, x: Message, reason: Bytes, ok: bool, sourced: Bytes, k: ConnID)
    requires AgentOk([], Of(a.out, k), sourced, AgentAt(a, k)) && x.connID == k && x.kind == MSG_CONNECT_DIRECT
    ensures var a' := OnConnectDirect(a, k, x.payload, reason, ok);
      a.out <= a'.out && AgentOk([x], Of(a'.out, k), sourced, AgentAt(a', k))
  {
    var refusal := ErrorMessage(k, PARSE_FAILED, reason);
    RequestAt(a, k, x.payload, reason, ok, k);
    OfSent(a.out, refusal, Parsed(x.payload).None? && ok, |a.out|, k);
    RequestOk(Of(a.out, k), sourced, AgentAt(a, k), x, refusal, ok);
  }

  lemma DataReceivedOk(a: Agent, x: Message, taken: nat, seen: seq<Message>, sourced: Bytes, k: ConnID)
    requires AgentOk(seen, Of(a.out, k), sourced, AgentAt(a, k)) && x.connID == k && x.kind == MSG_DATA && seen != []
    ensures var a' := OnAgentData(a, k, x.payload, taken);
      a.out <= a'.out && AgentOk(seen + [x], Of(a'.out, k), sourced, AgentAt(a', k))
  {
    DataAt(a, k, x.payload, taken, k);
    DataGivenOk(seen, Of(a.out, k), sourced, AgentAt(a, k), x, taken);
  }

  lemma CloseReceivedOk(a: Agent, x: Message, ok: bool, seen: seq<Message>, sourced: Bytes, k: ConnID)
    requires AgentOk(seen, Of(a.out, k), sourced, AgentAt(a, k)) && x.connID == k && x.kind == MSG_CLOSE && seen != []
    requires Acked(Of(a.out, k))
    ensures var a' := OnAgentClose(a, k, ok);
      a.out <= a'.out && AgentOk(seen + [x], Of(a'.out, k), sourced, AgentAt(a', k))
  {
    var b, v := a.(connections := a.connections - {k}), AgentAt(a, k);
    assert AgentAt(b, k) == v.(listed := false);
    CloseSeenOk(seen, Of(a.out, k), sourced, v, x);
    if k in a.connections {
      TargetEndsOk(b, k, ok, seen + [x], sourced, k);
    }
  }

  lemma OtherCloseOk(a: Agent, id: ConnID, ok: bool, k: ConnID)
    requires id != k
    ensures var a' := OnAgentClose(a, id, ok);
      a.out <= a'.out && Of(a'.out, k) == Of(a.out, k) && AgentAt(a', k) == AgentAt(a, k)
  {
    OfSent(a.out, Message(MSG_CLOSE, id, []), ok, |a.out|, k);
    assert Of(a.out, k) + [] == Of(a.out, k);
    if id in a.connections && id in a.conns {
      EndedAt(a.(connections := a.connections - {id}), id, ok, k);
    }
  }

  /** A message for another connection. */
  lemma OtherReceivedOk(a: Agent, x: Message, taken: nat, reason: Bytes, ok: bool, k: ConnID)
    requires x.connID != k
    ensures var a' := AgentReceived(a, x, taken, reason, ok);
      a.out <= a'.out && Of(a'.out, k) == Of(a.out, k) && AgentAt(a', k) == AgentAt(a, k)
  {
    if |x.payload| > MAX_PAYLOAD {
    } else if x.kind == MSG_CONNECT_DIRECT {
      RequestAt(a, x.connID, x.payload, reason, ok, k);
      OfSent(a.out, ErrorMessage(x.connID, PARSE_FAILED, reason), Parsed(x.payload).None? && ok, |a.out|, k);
      assert Of(a.out, k) + [] == Of(a.out, k);
    } else if x.kind == MSG_CLOSE {
      OtherCloseOk(a, x.connID, ok, k);
    }
  }

  /* ---------- steps of the agent keep the invariant ---------- */

  /** A step of the agent leaves the host's half alone. */
  lemma AgentStepKeeps(s: System, s': System, k: ConnID)
    requires Global(s)
    requires HostHalf(k, s.host, Of(s.agent.out[..s.downRead], k), Taken(k, s.dials), At(s.read, k), At(s.written, k),
                      s.requests)
    requires s.agent.out <= s'.agent.out && s'.upRead <= |s.host.out|
    requires s' == s.(agent := s'.agent, upRead := s'.upRead, sourced := s'.sourced)
    requires AgentHalf(k, s'.agent, Of(s.host.out[..s'.upRead], k), At(s'.sourced, k))
    ensures Inv(s', k)
  {
    assert s'.agent.out[..s.downRead] == s.agent.out[..s.downRead];
  }

  /** A request handled but not yet answered is all the host has sent for k. */
  lemma OnlyTheRequest(s: System, k: ConnID)
    requires Inv(s, k) && Of(s.agent.out, k) == [] && Of(s.host.out[..s.upRead], k) != []
    ensures var seen := Of(s.host.out[..s.upRead], k); |seen| == 1 && seen[0].kind == MSG_CONNECT_DIRECT
  {
    OfPrefix(s.agent.out, s.downRead, k);
    OfPrefix(s.host.out, s.upRead, k);
    assert HostAt(s.host, k).conn.None?;
  }

  /** The message the agent handles next, if it is for k: the request, or data or a close after it. */
  lemma NextForAgent(s: System, k: ConnID)
    requires Inv(s, k) && s.upRead < |s.host.out|
    ensures AgentMayGet(s.host.out[s.upRead], k, Of(s.host.out[..s.upRead], k), Of(s.agent.out, k))
  {
    var x, seen, up := s.host.out[s.upRead], Of(s.host.out[..s.upRead], k), Of(s.host.out, k);
    OfNext(s.host.out, s.upRead, k);
    OfPrefix(s.agent.out, s.downRead, k);
    assert x.connID == k ==> up[|seen|] == x;
  }

  ghost predicate AgentMayGet(x: Message, k: ConnID, seen: seq<Message>, down: seq<Message>) {
    x.connID == k ==>
      && (seen == [] ==> x.kind == MSG_CONNECT_DIRECT)
      && (seen != [] ==> (x.kind == MSG_DATA || x.kind == MSG_CLOSE) && Acked(down))
  }

  lemma OwnReceivedOk(a: Agent, x: Message, taken: nat, reason: Bytes, ok: bool, seen: seq<Message>, sourced: Bytes,
                      k: ConnID)
    requires AgentOk(seen, Of(a.out, k), sourced, AgentAt(a, k)) && x.connID == k && |x.payload| <= MAX_PAYLOAD
    requires seen == [] ==> x.kind == MSG_CONNECT_DIRECT
    requires seen != [] ==> (x.kind == MSG_DATA || x.kind == MSG_CLOSE) && Acked(Of(a.out, k))
    ensures var a' := AgentReceived(a, x, taken, reason, ok);
      a.out <= a'.out && AgentOk(seen + [x], Of(a'.out, k), sourced, AgentAt(a', k))
  {
    if seen == [] {
      RequestReceivedOk(a, x, reason, ok, sourced, k);
      assert [] + [x] == [x];
    } else if x.kind == MSG_DATA {
      DataReceivedOk(a, x, taken, seen, sourced, k);
    } else {
      CloseReceivedOk(a, x, ok, seen, sourced, k);
    }
  }

  lemma HandledMessageOk(a: Agent, log: seq<Message>, n: nat, taken: nat, reason: Bytes, ok: bool, sourced: Bytes,
                         k: ConnID)
    requires n < |log| && |log[n].payload| <= MAX_PAYLOAD && AgentHalf(k, a, Of(log[..n], k), sourced)
    requires AgentMayGet(log[n], k, Of(log[..n], k), Of(a.out, k))
    ensures var a' := AgentReceived(a, log[n], taken, reason, ok);
      a.out <= a'.out && AgentHalf(k, a', Of(log[..n + 1], k), sourced)
  {
    var x, seen := log[n], Of(log[..n], k);
    OfNext(log, n, k);
    if x.connID == k {
      OwnReceivedOk(a, x, taken, reason, ok, seen, sourced, k);
    } else {
      OtherReceivedOk(a, x, taken, reason, ok, k);
      assert seen + [] == seen;
    }
  }

  lemma HandledHalf(s: System, taken: nat, reason: Bytes, ok: bool, k: ConnID)
    requires Inv(s, k) && s.upRead < |s.host.out| && |s.host.out[s.upRead].payload| <= MAX_PAYLOAD
    ensures var a' := AgentReceived(s.agent, s.host.out[s.upRead], taken, reason, ok);
      s.agent.out <= a'.out && AgentHalf(k, a', Of(s.host.out[..s.upRead + 1], k), At(s.sourced, k))
  {
    NextForAgent(s, k);
    HandledMessageOk(s.agent, s.host.out, s.upRead, taken, reason, ok, At(s.sourced, k), k);
  }

  lemma AgentHandlesKeeps(s: System, s': System, taken: nat, reason: Bytes, ok: bool)
    requires InvAll(s) && s.upRead < |s.host.out| && |s.host.out[s.upRead].payload| <= MAX_PAYLOAD
    requires s' == s.(agent := AgentReceived(s.agent, s.host.out[s.upRead], taken, reason, ok), upRead := s.upRead + 1)
    ensures InvAll(s')
  {
    forall k ensures Inv(s', k) {
      assert Inv(s, k);
      HandledHalf(s, taken, reason, ok, k);
      AgentStepKeeps(s, s', k);
    }
  }

  lemma AgentStopsKeeps(s: System, s': System)
    requires InvAll(s) && s' == s.(agent := s.agent.(stopped := true))
    ensures InvAll(s')
  {
    forall k ensures Inv(s', k) {
      assert Inv(s, k);
      AgentStepKeeps(s, s', k);
    }
  }

  lemma TargetDialledKeeps(s: System, s': System, id: ConnID, success: bool, reason: Bytes, ok: bool)
    requires InvAll(s) && id in s.agent.dialing
    requires s' == s.(agent := Dialled(s.agent, id, success, reason, ok))
    ensures InvAll(s')
  {
    forall k ensures Inv(s', k) {
      assert Inv(s, k);
      if id == k {
        assert AgentAt(s.agent, k).dialing.Some?;
        OnlyTheRequest(s, k);
      }
      TargetDialledOk(s.agent, id, success, reason, ok, Of(s.host.out[..s.upRead], k), At(s.sourced, k), k);
      AgentStepKeeps(s, s', k);
    }
  }

  lemma TargetSendsKeeps(s: System, s': System, id: ConnID, data: Bytes, ok: bool, closeOk: bool)
    requires InvAll(s) && Reading(s.agent, id)
    requires s' == s.(agent := Forwarded(s.agent, id, data, ok, closeOk), sourced := Extend(s.sourced, id, data))
    ensures InvAll(s')
  {
    forall k ensures Inv(s', k) {
      assert Inv(s, k);
      TargetSendsOk(s.agent, id, data, ok, closeOk, Of(s.host.out[..s.upRead], k), At(s.sourced, k), k);
      AgentStepKeeps(s, s', k);
    }
  }

  lemma TargetEndsKeeps(s: System, s': System, id: ConnID, ok: bool)
    requires InvAll(s) && Reading(s.agent, id) && s' == s.(agent := Ended(s.agent, id, ok))
    ensures InvAll(s')
  {
    forall k ensures Inv(s', k) {
      assert Inv(s, k);
      assert id == k ==> AgentAt(s.agent, k).conn == Some(s.agent.conns[k]);
      TargetEndsOk(s.agent, id, ok, Of(s.host.out[..s.upRead], k), At(s.sourced, k), k);
      AgentStepKeeps(s, s', k);
    }
  }

  /* ---------- the host's half ---------- */

  function ClosedView(h: HostView): HostView {
    if h.conn.Some? then h.(conn := Some(h.conn.value.(closed := true))) else h
  }

  lemma ClosedOk(up: seq<Message>, seen: seq<Message>, taken: bool, read: Bytes, h: HostView)
    requires HostOk(up, seen, taken, read, h)
    ensures HostOk(up, seen, taken, read, ClosedView(h))
  {}

  lemma LoopExitedOk(up: seq<Message>, seen: seq<Message>, taken: bool, read: Bytes, h: HostView)
    requires HostOk(up, seen, taken, read, h)
    ensures HostOk(up, seen, taken, read, h.(loop := Exited))
  {}

  lemma DeadOk(up: seq<Message>, seen: seq<Message>, taken: bool, read: Bytes, h: HostView, reason: Bytes,
               loop: ReadLoop)
    requires HostOk(up, seen, taken, read, h) && (h.loop == Exited ==> loop == Exited)
    ensures HostOk(up, seen, taken, read, h.(dead := true, loop := loop))
    ensures h.waiting.Some? ==>
              HostOk(up, seen, taken, read,
                     h.(waiting := Some(Failed(h.waiting.value, reason)), dead := true, loop := loop))
  {}

  lemma AnswerRead(read: Bytes, h: HostView, x: Message)
    requires ReadOk([], read, h) && h.conn.None? && !(x.kind == MSG_DATA)
    ensures ReadOk([x], read, h) && ReadOk([x], read, h.(conn := Some(FRESH_CONN)))
  {
    DataAppend([], x);
    assert [] + [x] == [x];
    assert Rest(FRESH_CONN) == [] && read == [];
  }

  /** The first answer: acknowledged or refused, unless the Dial is gone. */
  lemma AnswerOk(up: seq<Message>, taken: bool, read: Bytes, h: HostView, x: Message)
    requires HostOk(up, [], taken, read, h) && x.kind == MSG_CONNECT_ACK
    ensures HostOk(up, [x], taken, read, h)
    ensures taken ==> HostOk(up, [x], taken, read, h.(waiting := Some(Some(Connected)), conn := Some(FRESH_CONN)))
    ensures taken ==> HostOk(up, [x], taken, read, h.(conn := Some(FRESH_CONN), loop := Exited))
  {
    AnswerRead(read, h, x);
    AnswerRead(read, h.(waiting := Some(Some(Connected))), x);
    AnswerRead(read, h.(loop := Exited), x);
  }

  lemma RefusalOk(up: seq<Message>, taken: bool, read: Bytes, h: HostView, x: Message, reason: Bytes)
    requires HostOk(up, [], taken, read, h) && x.kind == MSG_ERROR
    ensures HostOk(up, [x], taken, read, h)
    ensures taken ==> HostOk(up, [x], taken, read, h.(waiting := Some(Some(Refused(reason)))))
  {
    AnswerRead(read, h, x);
  }

  lemma QueuedRead(seen: seq<Message>, read: Bytes, h: HostView, x: Message)
    requires ReadOk(seen, read, h) && x.kind == MSG_DATA
    ensures h.conn.Some? && !h.conn.value.closed && h.loop != Exited ==>
              ReadOk(seen + [x], read, h.(conn := Some(Queued(h.conn.value, x.payload))))
    ensures h.conn.None? || h.conn.value.closed || h.loop == Exited ==> ReadOk(seen + [x], read, h)
    ensures ReadOk(seen + [x], read, h.(loop := Exited))
  {
    DataAppend(seen, x);
    if h.conn.Some? {
      var c := h.conn.value;
      MuxTheorems.FlattenAppend(c.readBuf, x.payload);
      assert read + Rest(Queued(c, x.payload)) == (read + Rest(c)) + x.payload;
    }
  }

  /** Data after the answer: queued while the connection is open. */
  lemma QueuedOk(up: seq<Message>, seen: seq<Message>, taken: bool, read: Bytes, h: HostView, x: Message)
    requires HostOk(up, seen, taken, read, h) && x.kind == MSG_DATA && seen != []
    ensures h.conn.Some? && !h.conn.value.closed && h.loop != Exited ==>
              HostOk(up, seen + [x], taken, read, h.(conn := Some(Queued(h.conn.value, x.payload))))
    ensures h.conn.None? || h.conn.value.closed || h.loop == Exited ==> HostOk(up, seen + [x], taken, read, h)
    ensures HostOk(up, seen + [x], taken, read, h.(loop := Exited))
  {
    QueuedRead(seen, read, h, x);
  }

  lemma CloseAfterOk(up: seq<Message>, seen: seq<Message>, taken: bool, read: Bytes, h: HostView, x: Message)
    requires HostOk(up, seen, taken, read, h) && x.kind == MSG_CLOSE && seen != []
    ensures HostOk(up, seen + [x], taken, read, h)
  {
    DataAppend(seen, x);
  }

  lemma ReadStepOk(up: seq<Message>, seen: seq<Message>, taken: bool, read: Bytes, h: HostView, n: nat, race: bool)
    requires HostOk(up, seen, taken, read, h) && h.conn.Some?
    ensures var (c, r) := RacingRead(h.conn.value, n, race);
      HostOk(up, seen, taken, if r.Got? then read + r.data else read, h.(conn := Some(c)))
  {
    var (c, r) := RacingRead(h.conn.value, n, race);
    MuxTheorems.ReadConserves(h.conn.value, n, race);
    if r.Got? { assert (read + r.data) + Rest(c) == read + (r.data + Rest(c)); }
    else { assert [] + Rest(c) == Rest(c); }
  }

  /* ---------- what a step of the host does to connection k ---------- */

  lemma AckAt(m: Mux, id: ConnID, k: ConnID)
    ensures var h := HostAt(m, k);
      HostAt(OnConnectAck(m, id), k)
      == if id == k then
           if h.waiting.None? then h
           else if h.waiting.value.None? then h.(waiting := Some(Some(Connected)), conn := Some(FRESH_CONN))
           else h.(conn := Some(FRESH_CONN), loop := Exited)
         else h.(loop := OnConnectAck(m, id).loop)
  {}

  lemma RefusalAt(m: Mux, id: ConnID, reason: Bytes, k: ConnID)
    ensures var h := HostAt(m, k);
      HostAt(OnError(m, id, reason), k)
      == if id == k then
           if h.waiting.None? then ClosedView(h)
           else if h.waiting.value.None? then ClosedView(h.(waiting := Some(Some(Refused(reason)))))
           else h.(loop := Exited)
         else h.(loop := OnError(m, id, reason).loop)
  {}

  lemma QueuedAt(m: Mux, id: ConnID, payload: Bytes, drop: bool, k: ConnID)
    ensures var h := HostAt(m, k);
      HostAt(OnData(m, id, payload, drop), k)
      == if id == k && h.conn.Some? && !h.conn.value.closed && !drop
         then h.(conn := Some(Queued(h.conn.value, payload))) else h
  {}

  lemma ClosedAt(m: Mux, id: ConnID, k: ConnID)
    ensures HostAt(RemoteClosed(m, id), k) == if id == k then ClosedView(HostAt(m, k)) else HostAt(m, k)
  {}

  /** Handlers touch the two tables only, and can end the loop. */
  predicate SameButTables(m: Mux, m': Mux) {
    && m'.out == m.out && m'.nextConnID == m.nextConnID && m'.dead == m.dead
    && (m'.loop == m.loop || m'.loop == Exited)
  }

  lemma ClosingKeepsTheRest(m: Mux, id: ConnID)
    ensures SameButTables(m, RemoteClosed(m, id)) && RemoteClosed(m, id).loop == m.loop
  {}

  lemma ErrorKeepsTheRest(m: Mux, id: ConnID, reason: Bytes)
    ensures SameButTables(m, OnError(m, id, reason))
  {
    ClosingKeepsTheRest(m, id);
    if id in m.pending { ClosingKeepsTheRest(Answer(m, id, Refused(reason)), id); }
  }

  lemma HandlingKeepsTheRest(m: Mux, x: Message, drop: bool)
    ensures SameButTables(m, Handled(m, x, drop))
  {
    ClosingKeepsTheRest(m, x.connID);
    ErrorKeepsTheRest(m, x.connID, x.payload);
  }

  lemma ReceivingKeepsTheRest(m: Mux, x: Message, drop: bool)
    ensures SameButTables(m, Received(m, x, drop))
    ensures m.loop == LastMessage ==> Received(m, x, drop).loop == Exited
  {
    HandlingKeepsTheRest(m, x, drop);
  }

  lemma LoopEitherWay(up: seq<Message>, seen: seq<Message>, taken: bool, read: Bytes, h: HostView, h': HostView)
    requires HostOk(up, seen, taken, read, h) && (h' == h || h' == h.(loop := Exited))
    ensures HostOk(up, seen, taken, read, h')
  {}

  lemma OwnAnswerOk(m: Mux, x: Message, up: seq<Message>, taken: bool, read: Bytes, k: ConnID)
    requires HostOk(up, [], taken, read, HostAt(m, k)) && x.connID == k && IsAnswer(x)
    ensures HostOk(up, [x], taken, read, HostAt(Handled(m, x, false), k))
  {
    var h := HostAt(m, k);
    if x.kind == MSG_CONNECT_ACK {
      AckAt(m, k, k);
      AnswerOk(up, taken, read, h, x);
    } else {
      RefusalAt(m, k, x.payload, k);
      RefusalOk(up, taken, read, h, x, x.payload);
      LoopExitedOk(up, [x], taken, read, h);
      ClosedOk(up, [x], taken, read, h);
      if taken { ClosedOk(up, [x], taken, read, h.(waiting := Some(Some(Refused(x.payload))))); }
    }
  }

  lemma OwnTrafficOk(m: Mux, x: Message, drop: bool, up: seq<Message>, seen: seq<Message>, taken: bool, read: Bytes,
                     k: ConnID)
    requires HostOk(up, seen, taken, read, HostAt(m, k)) && x.connID == k && seen != []
    requires (x.kind == MSG_DATA || x.kind == MSG_CLOSE) && m.loop != Exited && (drop ==> m.loop == LastMessage)
    ensures HostOk(up, seen + [x], taken, read, HostAt(Received(m, x, drop), k))
  {
    var h, m' := HostAt(m, k), Handled(m, x, drop);
    if x.kind == MSG_DATA {
      QueuedAt(m, k, x.payload, drop, k);
      QueuedOk(up, seen, taken, read, h, x);
      if !drop || h.conn.None? || h.conn.value.closed {
        LoopEitherWay(up, seen + [x], taken, read, HostAt(m', k), HostAt(Received(m, x, drop), k));
      }
    } else {
      ClosedAt(m, k, k);
      CloseAfterOk(up, seen, taken, read, h, x);
      ClosedOk(up, seen + [x], taken, read, h);
      LoopEitherWay(up, seen + [x], taken, read, HostAt(m', k), HostAt(Received(m, x, drop), k));
    }
  }

  lemma OthersTrafficOk(m: Mux, x: Message, drop: bool, k: ConnID)
    requires x.connID != k
    ensures var h, h' := HostAt(m, k), HostAt(Received(m, x, drop), k);
      h' == h || h' == h.(loop := Exited)
  {
    AckAt(m, x.connID, k);
    RefusalAt(m, x.connID, x.payload, k);
    QueuedAt(m, x.connID, x.payload, drop, k);
    ClosedAt(m, x.connID, k);
    ReceivingKeepsTheRest(m, x, drop);
  }

  /* ---------- steps of the host keep its half ---------- */

  lemma HandlingAnswers(m: Mux, x: Message, drop: bool)
    requires IsAnswer(x)
    ensures Received(m, x, drop) == Handled(m, x, false)
            || Received(m, x, drop) == Handled(m, x, false).(loop := Exited)
  {}

  lemma ReceivedOk(m: Mux, x: Message, drop: bool, up: seq<Message>, seen: seq<Message>, taken: bool, read: Bytes,
                   k: ConnID)
    requires HostOk(up, seen, taken, read, HostAt(m, k))
    requires m.loop != Exited && (drop ==> m.loop == LastMessage)
    requires HostMayGet(x, k, seen)
    ensures HostOk(up, seen + (if x.connID == k then [x] else []), taken, read, HostAt(Received(m, x, drop), k))
  {
    if x.connID != k {
      OthersTrafficOk(m, x, drop, k);
      LoopEitherWay(up, seen, taken, read, HostAt(m, k), HostAt(Received(m, x, drop), k));
      assert seen + [] == seen;
    } else if seen == [] {
      OwnAnswerOk(m, x, up, taken, read, k);
      HandlingAnswers(m, x, drop);
      LoopEitherWay(up, [x], taken, read, HostAt(Handled(m, x, false), k), HostAt(Received(m, x, drop), k));
      assert [] + [x] == [x];
    } else {
      OwnTrafficOk(m, x, drop, up, seen, taken, read, k);
    }
  }

  /** An id about to be taken has left no trace. */
  lemma DialOk(up: seq<Message>, seen: seq<Message>, read: Bytes, h: HostView, x: Message)
    requires HostOk(up, seen, false, read, h) && x.kind == MSG_CONNECT_DIRECT
    ensures up == [] && HostOk([], seen, true, read, h) && HostOk([x], seen, true, read, h.(waiting := Some(None)))
  {}

  lemma DialAt(m: Mux, network: Bytes, address: Bytes, ok: bool, k: ConnID)
    ensures var h, id := HostAt(m, k), NextID(m.nextConnID);
      HostAt(DialStarted(m, network, address, ok), k)
      == if m.dead || id != k then h else if ok then h.(waiting := Some(None)) else h.(waiting := None)
  {}

  lemma DialStartOk(m: Mux, network: Bytes, address: Bytes, ok: bool, seen: seq<Message>, taken: bool, taken': bool,
                    read: Bytes, written: Bytes, requests: map<ConnID, Target>, k: ConnID)
    requires HostHalf(k, m, seen, taken, read, written, requests) && !m.dead
    requires if NextID(m.nextConnID) == k then !taken && taken' else taken' == taken
    ensures var id := NextID(m.nextConnID);
      HostHalf(k, DialStarted(m, network, address, ok), seen, taken', read, written,
               requests[id := Target(network, address)])
  {
    var id := NextID(m.nextConnID);
    var x := ConnectDirect(id, network, address);
    var m' := DialStarted(m, network, address, ok);
    assert m'.out == if ok then m.out + [x] else m.out;
    OfAppend(m.out, x, k);
    DialAt(m, network, address, ok, k);
    if id == k {
      DialOk(Of(m.out, k), seen, read, HostAt(m, k), x);
      RequestShape(x, k, requests[id := Target(network, address)]);
      assert [] + [x] == [x];
    } else {
      assert Of(m.out, k) + [] == Of(m.out, k);
    }
  }

  lemma RequestShape(x: Message, k: ConnID, requests: map<ConnID, Target>)
    requires k in requests && x == ConnectDirect(k, requests[k].network, requests[k].address)
    ensures UpShape([x], k, requests) && UpShape([], k, requests) && DataBytes([x]) == []
  {
    DataAppend([], x);
    assert [] + [x] == [x];
  }

  lemma DialFinishOk(m: Mux, id: ConnID, seen: seq<Message>, taken: bool, read: Bytes, written: Bytes,
                     requests: map<ConnID, Target>, k: ConnID)
    requires HostHalf(k, m, seen, taken, read, written, requests)
    ensures HostHalf(k, m.(pending := m.pending - {id}), seen, taken, read, written, requests)
  {
    var h := HostAt(m, k);
    assert HostAt(m.(pending := m.pending - {id}), k) == if id == k then h.(waiting := None) else h;
  }

  lemma ReadOutOk(m: Mux, id: ConnID, n: nat, race: bool, seen: seq<Message>, taken: bool, read: Bytes, written: Bytes,
                  requests: map<ConnID, Target>, k: ConnID)
    requires HostHalf(k, m, seen, taken, read, written, requests) && id in m.conns
    ensures var (c, r) := RacingRead(m.conns[id], n, race);
      HostHalf(k, m.(conns := m.conns[id := c]), seen, taken, if id == k && r.Got? then read + r.data else read,
               written, requests)
  {
    var (c, r) := RacingRead(m.conns[id], n, race);
    var m', h := m.(conns := m.conns[id := c]), HostAt(m, k);
    assert HostAt(m', k) == if id == k then h.(conn := Some(c)) else h;
    if id == k {
      ReadStepOk(Of(m.out, k), seen, taken, read, h, n, race);
    }
  }

  lemma MoreSentOk(up: seq<Message>, seen: seq<Message>, taken: bool, read: Bytes, h: HostView, x: Message,
                   k: ConnID, requests: map<ConnID, Target>)
    requires HostOk(up, seen, taken, read, h) && UpShape(up, k, requests) && h.conn.Some? && up != []
    requires x.kind == MSG_DATA || (x.kind == MSG_CLOSE && h.conn.value.closed)
    ensures HostOk(up + [x], seen, taken, read, h) && UpShape(up + [x], k, requests)
  {
    CloseAppend(up, x);
  }

  lemma WriteOk(m: Mux, id: ConnID, data: Bytes, ok: bool, seen: seq<Message>, taken: bool, read: Bytes, written: Bytes,
                requests: map<ConnID, Target>, k: ConnID)
    requires HostHalf(k, m, seen, taken, read, written, requests) && id in m.conns
    requires id == k ==> Of(m.out, k) != []
    ensures HostHalf(k, Written(m, id, data, ok), seen, taken, read,
                     if id == k && ok && !m.conns[id].closed then written + data else written, requests)
  {
    var m', h, up := Written(m, id, data, ok), HostAt(m, k), Of(m.out, k);
    var x := Message(MSG_DATA, id, data);
    OfAppend(m.out, x, k);
    DataAppend(up, x);
    assert HostAt(m', k) == h && up + [] == up;
    if id == k { MoreSentOk(up, seen, taken, read, h, x, k, requests); }
  }

  lemma LocalCloseOk(m: Mux, id: ConnID, ok: bool, seen: seq<Message>, taken: bool, read: Bytes, written: Bytes,
                     requests: map<ConnID, Target>, k: ConnID)
    requires HostHalf(k, m, seen, taken, read, written, requests) && id in m.conns
    requires id == k ==> Of(m.out, k) != []
    ensures HostHalf(k, LocallyClosed(m, id, ok), seen, taken, read, written, requests)
  {
    var m', h, up := LocallyClosed(m, id, ok), HostAt(m, k), Of(m.out, k);
    var x := Message(MSG_CLOSE, id, []);
    OfAppend(m.out, x, k);
    DataAppend(up, x);
    assert HostAt(m', k) == (if id == k then ClosedView(h) else h) && up + [] == up;
    if id == k {
      ClosedOk(up, seen, taken, read, h);
      MoreSentOk(up, seen, taken, read, ClosedView(h), x, k, requests);
    }
  }

  lemma DeathOk(m: Mux, declared: bool, reason: Bytes, loop: ReadLoop, seen: seq<Message>, taken: bool, read: Bytes,
                written: Bytes, requests: map<ConnID, Target>, k: ConnID)
    requires HostHalf(k, m, seen, taken, read, written, requests) && (m.loop == Exited ==> loop == Exited)
    ensures HostHalf(k, (if declared then DeclaredDead(m, reason) else m).(dead := true, loop := loop), seen, taken,
                     read, written, requests)
  {
    var m' := (if declared then DeclaredDead(m, reason) else m).(dead := true, loop := loop);
    var h, up := HostAt(m, k), Of(m.out, k);
    DeadOk(up, seen, taken, read, h, reason, loop);
    var h1 := if declared && h.waiting.Some?
              then h.(waiting := Some(Failed(h.waiting.value, reason)), dead := true, loop := loop)
              else h.(dead := true, loop := loop);
    ClosedOk(up, seen, taken, read, h1);
    assert HostAt(m', k) == if declared then ClosedView(h1) else h1;
  }

  /* ---------- steps of the host keep the invariant ---------- */

  /** A step of the host leaves the agent's half alone. */
  lemma HostStepKeeps(s: System, s': System, k: ConnID)
    requires Global(s) && AgentHalf(k, s.agent, Of(s.host.out[..s.upRead], k), At(s.sourced, k))
    requires Global(s') && s'.agent == s.agent && s'.upRead == s.upRead && s'.sourced == s.sourced
    requires s.host.out <= s'.host.out
    requires HostHalf(k, s'.host, Of(s.agent.out[..s'.downRead], k), Taken(k, s'.dials), At(s'.read, k),
                      At(s'.written, k), s'.requests)
    ensures Inv(s', k)
  {
    assert s'.host.out[..s.upRead] == s.host.out[..s.upRead];
  }

  /** The message the host handles next, if it is for k: the answer, or data or a close after it. */
  lemma NextForHost(s: System, k: ConnID)
    requires Inv(s, k) && s.downRead < |s.agent.out|
    ensures HostMayGet(s.agent.out[s.downRead], k, Of(s.agent.out[..s.downRead], k))
  {
    var x, down := s.agent.out[s.downRead], Of(s.agent.out, k);
    OfNext(s.agent.out, s.downRead, k);
    assert DownShape(down);
    assert x.connID == k ==> down[|Of(s.agent.out[..s.downRead], k)|] == x;
  }

  ghost predicate HostMayGet(x: Message, k: ConnID, seen: seq<Message>) {
    x.connID == k ==>
      && (seen == [] ==> IsAnswer(x))
      && (seen != [] ==> x.kind == MSG_DATA || x.kind == MSG_CLOSE)
  }

  /** A connection the host has was requested and acknowledged. */
  lemma ConnWasRequested(s: System, k: ConnID)
    requires Inv(s, k) && k in s.host.conns
    ensures Acked(Of(s.agent.out, k)) && k in s.agent.conns
    ensures Of(s.host.out, k) != [] && Of(s.host.out[..s.upRead], k) != []
    ensures Of(s.host.out[..s.upRead], k)[0] == Of(s.host.out, k)[0]
  {
    assert HostAt(s.host, k).conn.Some?;
    OfPrefix(s.agent.out, s.downRead, k);
    OfPrefix(s.host.out, s.upRead, k);
  }

  lemma ReceivedHalf(m: Mux, log: seq<Message>, n: nat, drop: bool, up: seq<Message>, taken: bool, read: Bytes,
                     k: ConnID)
    requires n < |log| && HostOk(up, Of(log[..n], k), taken, read, HostAt(m, k))
    requires m.loop != Exited && (drop ==> m.loop == LastMessage) && HostMayGet(log[n], k, Of(log[..n], k))
    ensures HostOk(up, Of(log[..n + 1], k), taken, read, HostAt(Received(m, log[n], drop), k))
  {
    OfNext(log, n, k);
    ReceivedOk(m, log[n], drop, up, Of(log[..n], k), taken, read, k);
  }

  lemma NextReceivedHalf(s: System, drop: bool, k: ConnID)
    requires Inv(s, k) && s.downRead < |s.agent.out| && CanHandle(s.host, s.agent.out[s.downRead], drop)
    ensures HostOk(Of(s.host.out, k), Of(s.agent.out[..s.downRead + 1], k), Taken(k, s.dials), At(s.read, k),
                   HostAt(Received(s.host, s.agent.out[s.downRead], drop), k))
  {
    NextForHost(s, k);
    ReceivedHalf(s.host, s.agent.out, s.downRead, drop, Of(s.host.out, k), Taken(k, s.dials), At(s.read, k), k);
  }

  lemma HostReceivesKeeps(s: System, s': System, drop: bool)
    requires InvAll(s) && s.downRead < |s.agent.out| && CanHandle(s.host, s.agent.out[s.downRead], drop)
    requires s' == s.(host := Received(s.host, s.agent.out[s.downRead], drop), downRead := s.downRead + 1)
    ensures InvAll(s')
  {
    ReceivingKeepsTheRest(s.host, s.agent.out[s.downRead], drop);
    forall k ensures Inv(s', k) {
      assert Inv(s, k);
      NextReceivedHalf(s, drop, k);
      HostStepKeeps(s, s', k);
    }
  }

  lemma DialStartHalf(s: System, network: Bytes, address: Bytes, ok: bool, k: ConnID)
    requires Global(s) && s.dials + 1 < 0x1_0000_0000 && !s.host.dead
    requires HostHalf(k, s.host, Of(s.agent.out[..s.downRead], k), Taken(k, s.dials), At(s.read, k), At(s.written, k),
                      s.requests)
    ensures HostHalf(k, DialStarted(s.host, network, address, ok), Of(s.agent.out[..s.downRead], k),
                     Taken(k, s.dials + 1), At(s.read, k), At(s.written, k),
                     s.requests[NextID(s.host.nextConnID) := Target(network, address)])
  {
    var seen := Of(s.agent.out[..s.downRead], k);
    DialStartOk(s.host, network, address, ok, seen, Taken(k, s.dials), Taken(k, s.dials + 1), At(s.read, k),
                At(s.written, k), s.requests, k);
  }

  lemma DialStartKeeps(s: System, s': System, network: Bytes, address: Bytes, ok: bool)
    requires InvAll(s) && s.dials + 1 < 0x1_0000_0000 && !s.host.dead
    requires s' == s.(host := DialStarted(s.host, network, address, ok), dials := s.dials + 1,
                      requests := s.requests[NextID(s.host.nextConnID) := Target(network, address)])
    ensures InvAll(s')
  {
    forall k ensures Inv(s', k) {
      assert Inv(s, k);
      DialStartHalf(s, network, address, ok, k);
      HostStepKeeps(s, s', k);
    }
  }

  lemma DialFinishKeeps(s: System, s': System, id: ConnID)
    requires InvAll(s) && s' == s.(host := s.host.(pending := s.host.pending - {id}))
    ensures InvAll(s')
  {
    forall k ensures Inv(s', k) {
      assert Inv(s, k);
      var seen := Of(s.agent.out[..s.downRead], k);
      DialFinishOk(s.host, id, seen, Taken(k, s.dials), At(s.read, k), At(s.written, k), s.requests, k);
      HostStepKeeps(s, s', k);
    }
  }

  lemma ReadHalf(s: System, id: ConnID, n: nat, race: bool, k: ConnID)
    requires Inv(s, k) && id in s.host.conns
    ensures var (c, r) := RacingRead(s.host.conns[id], n, race);
      HostHalf(k, s.host.(conns := s.host.conns[id := c]), Of(s.agent.out[..s.downRead], k), Taken(k, s.dials),
               if id == k && r.Got? then At(s.read, k) + r.data else At(s.read, k), At(s.written, k), s.requests)
  {
    var seen := Of(s.agent.out[..s.downRead], k);
    ReadOutOk(s.host, id, n, race, seen, Taken(k, s.dials), At(s.read, k), At(s.written, k), s.requests, k);
  }

  lemma ReadKeeps(s: System, s': System, id: ConnID, n: nat, race: bool)
    requires InvAll(s) && id in s.host.conns
    requires var (c, r) := RacingRead(s.host.conns[id], n, race);
      s' == s.(host := s.host.(conns := s.host.conns[id := c]),
               read := if r.Got? then Extend(s.read, id, r.data) else s.read)
    ensures InvAll(s')
  {
    forall k ensures Inv(s', k) {
      assert Inv(s, k);
      ReadHalf(s, id, n, race, k);
      HostStepKeeps(s, s', k);
    }
  }

  lemma WrittenHalf(s: System, id: ConnID, data: Bytes, ok: bool, k: ConnID)
    requires Inv(s, k) && id in s.host.conns
    ensures HostHalf(k, Written(s.host, id, data, ok), Of(s.agent.out[..s.downRead], k), Taken(k, s.dials),
                     At(s.read, k),
                     if id == k && ok && !s.host.conns[id].closed then At(s.written, k) + data else At(s.written, k),
                     s.requests)
  {
    if id == k { ConnWasRequested(s, k); }
    var seen := Of(s.agent.out[..s.downRead], k);
    WriteOk(s.host, id, data, ok, seen, Taken(k, s.dials), At(s.read, k), At(s.written, k), s.requests, k);
  }

  lemma WriteKeeps(s: System, s': System, id: ConnID, data: Bytes, ok: bool)
    requires InvAll(s) && id in s.host.conns
    requires s' == s.(host := Written(s.host, id, data, ok),
                      written := if ok && !s.host.conns[id].closed then Extend(s.written, id, data) else s.written)
    ensures InvAll(s')
  {
    forall k ensures Inv(s', k) {
      assert Inv(s, k);
      WrittenHalf(s, id, data, ok, k);
      HostStepKeeps(s, s', k);
    }
  }

  lemma LocalCloseKeeps(s: System, s': System, id: ConnID, ok: bool)
    requires InvAll(s) && id in s.host.conns && s' == s.(host := LocallyClosed(s.host, id, ok))
    ensures InvAll(s')
  {
    forall k ensures Inv(s', k) {
      assert Inv(s, k);
      if id == k { ConnWasRequested(s, k); }
      var seen := Of(s.agent.out[..s.downRead], k);
      LocalCloseOk(s.host, id, ok, seen, Taken(k, s.dials), At(s.read, k), At(s.written, k), s.requests, k);
      HostStepKeeps(s, s', k);
    }
  }

  lemma DeathKeeps(s: System, s': System, declared: bool, reason: Bytes, loop: ReadLoop)
    requires InvAll(s) && loop != Running && (s.host.loop == Exited ==> loop == Exited)
    requires s' == s.(host := (if declared then DeclaredDead(s.host, reason) else s.host).(dead := true, loop := loop))
    ensures InvAll(s')
  {
    forall k ensures Inv(s', k) {
      assert Inv(s, k);
      var seen := Of(s.agent.out[..s.downRead], k);
      DeathOk(s.host, declared, reason, loop, seen, Taken(k, s.dials), At(s.read, k), At(s.written, k), s.requests, k);
      HostStepKeeps(s, s', k);
    }
  }

  /* ---------- every run ---------- */

  lemma HostDoesKeeps(s: System, a: MuxSpec.Action)
    requires InvAll(s) && Can(s, Host(a))
    ensures InvAll(HostDoes(s, a))
  {
    var s' := HostDoes(s, a);
    match a
    case DialStart(network, address, ok) => if !s.host.dead { DialStartKeeps(s, s', network, address, ok); }
    case DialFinish(id, _) => DialFinishKeeps(s, s', id);
    case Read(id, n, race) => ReadKeeps(s, s', id, n, race);
    case Write(id, data, ok) => WriteKeeps(s, s', id, data, ok);
    case Close(id, ok) => LocalCloseKeeps(s, s', id, ok);
    case ReadLoopStops(reason) => DeathKeeps(s, s', !s.host.dead, reason, Exited);
    case PingFails(reason) => DeathKeeps(s, s', true, reason, Stopping(s.host.loop));
    case CloseMux => DeathKeeps(s, s', false, [], Stopping(s.host.loop));
  }

  lemma DoKeepsInv(s: System, st: Step)
    requires InvAll(s) && Can(s, st)
    ensures InvAll(Do(s, st))
  {
    var s' := Do(s, st);
    match st
    case Host(a) => HostDoesKeeps(s, a);
    case HostReceives(drop) => HostReceivesKeeps(s, s', drop);
    case AgentReceives(taken, reason, ok) =>
      if |s.host.out[s.upRead].payload| > MAX_PAYLOAD { AgentStopsKeeps(s, s'); }
      else { AgentHandlesKeeps(s, s', taken, reason, ok); }
    case TargetDialled(id, success, reason, ok) => TargetDialledKeeps(s, s', id, success, reason, ok);
    case TargetSends(id, data, ok, closeOk) => TargetSendsKeeps(s, s', id, data, ok, closeOk);
    case TargetEnds(id, closeOk) => TargetEndsKeeps(s, s', id, closeOk);
  }

  lemma {:induction false} RunKeepsInv(s: System, run: seq<Step>)
    requires InvAll(s) && Run(s, run)
    ensures InvAll(End(s, run))
    decreases |run|
  {
    if run != [] {
      DoKeepsInv(s, run[0]);
      RunKeepsInv(Do(s, run[0]), run[1..]);
    }
  }

  /** Every run from the start, for every connection. */
  lemma EveryRunKeepsInv(run: seq<Step>)
    requires Run(INIT, run)
    ensures InvAll(End(INIT, run))
  {
    forall k ensures Inv(INIT, k) {}
    RunKeepsInv(INIT, run);
  }
}

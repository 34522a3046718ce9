/** Which Dials leave a connection behind: the id of a Dial that came back is registered later exactly if it was
    registered at that moment. */
module TunnelDials {
  import opened Wrappers
  import opened Framing
  import opened MuxSpec
  import opened Tunnel
  import opened TunnelInvariant
  import MuxTheorems
  import TunnelRuns
  import TunnelTheorems

  ghost predicate NeverRegistered(s: System, k: ConnID) {
    forall run :: Run(s, run) ==> !Registered(End(s, run).host, k)
  }

  /** Connection k is over: its id was taken, no Dial waits for it and it is not open. */
  predicate Over(m: Mux, dials: nat, k: ConnID) {
    k !in m.pending && !Registered(m, k) && Taken(k, dials)
  }

  /** A step of the mux makes nothing of an id that is not the next one. */
  lemma MuxKeepsOver(m: Mux, a: MuxSpec.Action, dials: nat, k: ConnID)
    requires Enabled(m, a) && Over(m, dials, k) && (a.DialStart? ==> NextID(m.nextConnID) != k)
    ensures Over(Next(m, a), dials, k)
  {
    StaysUnasked(m, a, k);
    if Registered(Next(m, a), k) { MuxTheorems.NothingRegistersButAnAcknowledgedDial(m, a, k); }
  }

  lemma ReceivingAsksNothing(m: Mux, x: Message, drop: bool)
    ensures Received(m, x, drop).pending.Keys == m.pending.Keys
  {}

  lemma StaysUnasked(m: Mux, a: MuxSpec.Action, k: ConnID)
    requires Enabled(m, a) && k !in m.pending && (a.DialStart? ==> NextID(m.nextConnID) != k)
    ensures k !in Next(m, a).pending
  {
    if a.Recv? { ReceivingAsksNothing(m, a.x, a.drop); }
  }

  lemma StepKeepsOver(s: System, st: Step, k: ConnID)
    requires Global(s) && Can(s, st) && Over(s.host, s.dials, k)
    ensures Over(Do(s, st).host, Do(s, st).dials, k)
  {
    match st
    case Host(a) => MuxKeepsOver(s.host, a, s.dials, k);
    case HostReceives(drop) => MuxKeepsOver(s.host, Recv(s.agent.out[s.downRead], drop), s.dials, k);
    case _ =>
  }

  lemma {:induction false} OverForever(s: System, run: seq<Step>, k: ConnID)
    requires InvAll(s) && Run(s, run) && Over(s.host, s.dials, k)
    ensures !Registered(End(s, run).host, k)
    decreases |run|
  {
    if run != [] {
      assert Inv(s, k);
      StepKeepsOver(s, run[0], k);
      DoKeepsInv(s, run[0]);
      OverForever(Do(s, run[0]), run[1..], k);
    }
  }

  lemma PendingIsTaken(s: System, k: ConnID)
    requires InvAll(s) && k in s.host.pending
    ensures Taken(k, s.dials)
  {
    assert Inv(s, k);
    assert HostAt(s.host, k).waiting.Some?;
  }

  /** However a Dial comes back, its id is registered in no continuation if and only if it is not registered
      then. So a Dial that returns without a connection leaves one behind exactly when it is registered. */
  lemma DialLeavesNothingIff(s: System, k: ConnID, outcome: DialOutcome)
    requires TunnelTheorems.Reached(s) && Can(s, Host(DialFinish(k, outcome)))
    ensures NeverRegistered(Do(s, Host(DialFinish(k, outcome))), k) <==> !Registered(s.host, k)
  {
    var s' := Do(s, Host(DialFinish(k, outcome)));
    TunnelTheorems.ReachedInv(s);
    PendingIsTaken(s, k);
    DoKeepsInv(s, Host(DialFinish(k, outcome)));
    if Registered(s.host, k) {
      assert Run(s', []) && Registered(End(s', []).host, k);
    } else {
      forall run | Run(s', run) ensures !Registered(End(s', run).host, k) { OverForever(s', run, k); }
    }
  }

  /* ---------- what the waiting Dial can see of it ---------- */

  /** A slot says connected only when the connection was made, and while the mux lives the converse holds. */
  predicate SlotOk(m: Mux, k: ConnID) {
    k in m.pending ==>
      && (m.pending[k] == Some(Connected) ==> k in m.conns)
      && (!m.dead && k in m.conns ==> m.pending[k] == Some(Connected))
  }

  lemma ReceivingKeepsSlot(m: Mux, x: Message, drop: bool, k: ConnID)
    requires CanHandle(m, x, drop) && SlotOk(m, k)
    ensures SlotOk(Received(m, x, drop), k)
  {}

  lemma MuxKeepsSlot(m: Mux, a: MuxSpec.Action, k: ConnID)
    requires Enabled(m, a) && SlotOk(m, k)
    requires a.DialStart? && NextID(m.nextConnID) == k ==> k !in m.conns
    ensures SlotOk(Next(m, a), k)
  {
    if a.Recv? { ReceivingKeepsSlot(m, a.x, a.drop, k); }
  }

  /** An id about to be taken has no connection. */
  lemma NextIsFresh(s: System, k: ConnID)
    requires InvAll(s) && s.dials + 1 < 0x1_0000_0000 && NextID(s.host.nextConnID) == k
    ensures k !in s.host.conns
  {
    assert Inv(s, k);
    assert HostAt(s.host, k).conn.None?;
  }

  lemma StepKeepsSlot(s: System, st: Step, k: ConnID)
    requires InvAll(s) && Can(s, st) && SlotOk(s.host, k)
    ensures SlotOk(Do(s, st).host, k)
  {
    match st
    case Host(a) =>
      if a.DialStart? && NextID(s.host.nextConnID) == k { NextIsFresh(s, k); }
      MuxKeepsSlot(s.host, a, k);
    case HostReceives(drop) => ReceivingKeepsSlot(s.host, s.agent.out[s.downRead], drop, k);
    case _ =>
  }

  lemma {:induction false} RunKeepsSlot(s: System, run: seq<Step>, k: ConnID)
    requires InvAll(s) && Run(s, run) && SlotOk(s.host, k)
    ensures SlotOk(End(s, run).host, k)
    decreases |run|
  {
    if run != [] {
      StepKeepsSlot(s, run[0], k);
      DoKeepsInv(s, run[0]);
      RunKeepsSlot(Do(s, run[0]), run[1..], k);
    }
  }

  lemma ReachedSlot(s: System, k: ConnID)
    requires TunnelTheorems.Reached(s)
    ensures SlotOk(s.host, k)
  {
    var run :| Run(INIT, run) && End(INIT, run) == s;
    EveryRunKeepsInv([]);
    RunKeepsSlot(INIT, run, k);
  }

  /** While the mux lives the result slot decides: nothing stays behind if and only if it does not say connected,
      or the connection was closed again since. */
  lemma SlotDecides(s: System, k: ConnID, outcome: DialOutcome)
    requires TunnelTheorems.Reached(s) && !s.host.dead && Can(s, Host(DialFinish(k, outcome)))
    ensures NeverRegistered(Do(s, Host(DialFinish(k, outcome))), k)
            <==> (s.host.pending[k] == Some(Connected) ==> k in s.host.conns && s.host.conns[k].closed)
  {
    ReachedSlot(s, k);
    DialLeavesNothingIff(s, k, outcome);
  }

  /* ---------- a second way to leave one ---------- */

  const CLOSED_UNDER_DIAL: seq<Step> :=
    TunnelRuns.DIAL + [Host(CloseMux)] + [Host(DialFinish(TunnelRuns.FIRST, MuxClosed))]

  /** Not only a cancelled Dial: one that returns because the mux was closed can leave a registered connection. */
  lemma ClosedMuxLeavesOne()
    ensures Run(INIT, CLOSED_UNDER_DIAL)
    ensures var s := End(INIT, CLOSED_UNDER_DIAL);
      s.host.pending == map[] && s.host.dead && Registered(s.host, TunnelRuns.FIRST)
  {
    TunnelRuns.DialRun();
    TunnelRuns.OneStepMore(INIT, TunnelRuns.DIAL, Host(CloseMux));
    TunnelRuns.OneStepMore(INIT, TunnelRuns.DIAL + [Host(CloseMux)], Host(DialFinish(TunnelRuns.FIRST, MuxClosed)));
  }
}

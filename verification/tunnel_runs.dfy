/** Runs of the tunnel from its start: that the situations the other theorems warn of are reached, and what
    becomes of a connection whose Dial was cancelled too late. */
module TunnelRuns {
  import opened Wrappers
  import opened Framing
  import opened MuxSpec
  import opened AgentSpec
  import opened Tunnel
  import opened TunnelInvariant
  import MuxTheorems
  import TunnelShutdown
  import TunnelTheorems

  /** A run in two parts. */
  lemma {:induction false} EndAppend(s: System, r1: seq<Step>, r2: seq<Step>)
    requires Run(s, r1)
    ensures Run(s, r1 + r2) <==> Run(End(s, r1), r2)
    ensures Run(s, r1 + r2) ==> End(s, r1 + r2) == End(End(s, r1), r2)
    decreases |r1|
  {
    if r1 == [] {
      assert r1 + r2 == r2;
    } else {
      assert (r1 + r2)[1..] == r1[1..] + r2;
      EndAppend(Do(s, r1[0]), r1[1..], r2);
    }
  }

  lemma OneStep(s: System, st: Step)
    requires Can(s, st)
    ensures Run(s, [st]) && End(s, [st]) == Do(s, st)
  {
    assert [st][1..] == [];
  }

  lemma OneStepMore(s: System, run: seq<Step>, st: Step)
    requires Run(s, run) && Can(End(s, run), st)
    ensures Run(s, run + [st]) && End(s, run + [st]) == Do(End(s, run), st)
  {
    OneStep(End(s, run), st);
    EndAppend(s, run, [st]);
  }

  lemma RunReaches(run: seq<Step>)
    requires Run(INIT, run)
    ensures TunnelTheorems.Reached(End(INIT, run))
  {}

  /* ---------- a first connection ---------- */

  const FIRST: ConnID := 1

  /** Up to the acknowledgement of a first Dial. */
  const DIAL: seq<Step> := [
    Host(DialStart([], [], true)), AgentReceives(0, [], true), TargetDialled(FIRST, true, [], true),
    HostReceives(false)]

  /** The first connection is open at both ends, n chunks wait for its reader, and the link is empty. */
  ghost predicate Waiting(s: System, n: nat) {
    && !s.host.dead && s.host.loop == Running
    && Registered(s.host, FIRST) && |s.host.conns[FIRST].readBuf| == n
    && s.downRead == |s.agent.out| && Reading(s.agent, FIRST) && !s.agent.conns[FIRST].closedOnce
  }

  function AfterRequest(): System {
    INIT.(host := NEW_MUX.(nextConnID := FIRST, pending := map[FIRST := None], out := [ConnectDirect(FIRST, [], [])]),
          dials := 1, requests := map[FIRST := Target([], [])])
  }

  function AfterRequestRead(): System {
    AfterRequest().(agent := NEW_AGENT.(dialing := map[FIRST := Target([], [])]), upRead := 1)
  }

  function AfterTargetDialled(): System {
    AfterRequestRead().(agent := Agent(map[], {FIRST}, map[FIRST := Connection(Target([], []), true, true, false, [])],
                                       false, [Message(MSG_CONNECT_ACK, FIRST, [])]))
  }

  function AfterAck(): System {
    AfterTargetDialled().(host := Mux(FIRST, map[FIRST := Some(Connected)], map[FIRST := FRESH_CONN], false, Running,
                                      [ConnectDirect(FIRST, [], [])]),
                          downRead := 1)
  }

  lemma RequestStep()
    ensures Can(INIT, DIAL[0]) && Do(INIT, DIAL[0]) == AfterRequest()
  {}

  lemma RequestReadStep()
    ensures Can(AfterRequest(), DIAL[1]) && Do(AfterRequest(), DIAL[1]) == AfterRequestRead()
  {
    ParsedConnect([], []);
    assert |ConnectPayload([], [])| == 1;
  }

  lemma TargetDialledStep()
    ensures Can(AfterRequestRead(), DIAL[2]) && Do(AfterRequestRead(), DIAL[2]) == AfterTargetDialled()
  {}

  lemma AckStep()
    ensures Can(AfterTargetDialled(), DIAL[3]) && Do(AfterTargetDialled(), DIAL[3]) == AfterAck()
  {}

  lemma DialRun()
    ensures Run(INIT, DIAL) && End(INIT, DIAL) == AfterAck()
  {
    RequestStep();
    OneStep(INIT, DIAL[0]);
    RequestReadStep();
    OneStepMore(INIT, [DIAL[0]], DIAL[1]);
    TargetDialledStep();
    OneStepMore(INIT, [DIAL[0]] + [DIAL[1]], DIAL[2]);
    AckStep();
    OneStepMore(INIT, [DIAL[0]] + [DIAL[1]] + [DIAL[2]], DIAL[3]);
    assert DIAL == [DIAL[0]] + [DIAL[1]] + [DIAL[2]] + [DIAL[3]];
  }

  /** The Dial returns: with its connection, or cancelled although the connection is registered. */
  function Dialled(cancelled: bool): seq<Step> {
    DIAL + [Host(DialFinish(FIRST, if cancelled then Cancelled else Answered(Connected)))]
  }

  /** A Dial cancelled after its acknowledgement was handled leaves a registered connection that no Dial is
      waiting for and nobody was given. */
  lemma DialReturns(cancelled: bool)
    ensures Run(INIT, Dialled(cancelled))
    ensures var s := End(INIT, Dialled(cancelled)); Waiting(s, 0) && s.host.pending == map[]
  {
    DialRun();
    OneStepMore(INIT, DIAL, Host(DialFinish(FIRST, if cancelled then Cancelled else Answered(Connected))));
  }

  /* ---------- the queue fills up ---------- */

  lemma SendOne(s: System, n: nat)
    requires Waiting(s, n)
    ensures var st := TargetSends(FIRST, [0], true, true);
      && Can(s, st)
      && var s' := Do(s, st);
         && s' == s.(agent := s'.agent, sourced := s'.sourced)
         && s'.agent == s.agent.(out := s.agent.out + [Message(MSG_DATA, FIRST, [0])])
  {}

  lemma QueueOne(s: System, n: nat)
    requires n < READ_BUF && Waiting(s.(downRead := s.downRead + 1), n) && s.downRead < |s.agent.out|
    requires s.agent.out[s.downRead] == Message(MSG_DATA, FIRST, [0])
    ensures Can(s, HostReceives(false)) && Waiting(Do(s, HostReceives(false)), n + 1)
    ensures Do(s, HostReceives(false)).host.pending == s.host.pending
  {}

  lemma OneChunk(s: System, n: nat)
    requires Waiting(s, n) && n < READ_BUF
    ensures var run := [TargetSends(FIRST, [0], true, true), HostReceives(false)];
      Run(s, run) && Waiting(End(s, run), n + 1) && End(s, run).host.pending == s.host.pending
  {
    var st := TargetSends(FIRST, [0], true, true);
    SendOne(s, n);
    OneStep(s, st);
    QueueOne(Do(s, st), n);
    OneStepMore(s, [st], HostReceives(false));
    assert [st] + [HostReceives(false)] == [st, HostReceives(false)];
  }

  function Chunks(n: nat): seq<Step> {
    if n == 0 then [] else Chunks(n - 1) + [TargetSends(FIRST, [0], true, true), HostReceives(false)]
  }

  lemma {:induction false} ManyChunks(s: System, n: nat)
    requires Waiting(s, 0) && n <= READ_BUF
    ensures Run(s, Chunks(n)) && Waiting(End(s, Chunks(n)), n) && End(s, Chunks(n)).host.pending == s.host.pending
  {
    if n > 0 {
      ManyChunks(s, n - 1);
      OneChunk(End(s, Chunks(n - 1)), n - 1);
      EndAppend(s, Chunks(n - 1), [TargetSends(FIRST, [0], true, true), HostReceives(false)]);
    }
  }

  /** 257 chunks that nobody reads. */
  function Flood(cancelled: bool): seq<Step> {
    Dialled(cancelled) + Chunks(READ_BUF) + [TargetSends(FIRST, [0], true, true)]
  }

  /** A full queue at the head of the link is reached, with the Dial answered or cancelled. */
  lemma FloodFillsTheQueue(cancelled: bool)
    ensures Run(INIT, Flood(cancelled))
    ensures var s := End(INIT, Flood(cancelled));
      && TunnelTheorems.QueueFull(s) && s.agent.out[s.downRead].connID == FIRST
      && !s.host.dead && s.host.pending == map[]
  {
    DialReturns(cancelled);
    ManyChunks(End(INIT, Dialled(cancelled)), READ_BUF);
    EndAppend(INIT, Dialled(cancelled), Chunks(READ_BUF));
    var s := End(INIT, Dialled(cancelled) + Chunks(READ_BUF));
    SendOne(s, READ_BUF);
    OneStepMore(INIT, Dialled(cancelled) + Chunks(READ_BUF), TargetSends(FIRST, [0], true, true));
  }

  /* ---------- a connection nobody holds ---------- */

  /** What only the holder of connection k can do. */
  predicate ByHolder(st: Step, k: ConnID) {
    && st.Host?
    && match st.a
       case Read(id, _, _) => id == k
       case Write(id, _, _) => id == k
       case Close(id, _) => id == k
       case _ => false
  }

  predicate EndsMux(st: Step) {
    st.Host? && MuxTheorems.Stops(st.a)
  }

  /** The agent's side ends connection k of its own accord. */
  predicate EndsTarget(st: Step, k: ConnID) {
    (st.TargetEnds? && st.id == k) || (st.TargetSends? && st.id == k && !st.writeOk)
  }

  ghost predicate Unheld(run: seq<Step>, k: ConnID) {
    forall st <- run :: !ByHolder(st, k) && !EndsMux(st)
  }

  /** The connection is open at the host, and the agent has said nothing to the contrary. */
  ghost predicate Lingers(s: System, k: ConnID) {
    Registered(s.host, k) && !HasClose(Of(s.agent.out, k))
  }

  /** An open connection is in the agent's map. */
  lemma OpenIsListed(s: System, k: ConnID)
    requires InvAll(s) && Registered(s.host, k)
    ensures k in s.agent.conns && k in s.agent.connections && !HasClose(Of(s.host.out, k))
    ensures s.upRead <= |s.host.out| && s.downRead <= |s.agent.out|
    ensures Of(s.host.out[..s.upRead], k) != [] && Of(s.agent.out[..s.downRead], k) != []
  {
    assert Inv(s, k);
    ConnWasRequested(s, k);
    assert HostAt(s.host, k).conn == Some(s.host.conns[k]);
    assert AgentAt(s.agent, k).conn == Some(s.agent.conns[k]);
    TunnelTheorems.NoCloseBefore(s.host.out, s.upRead, k);
  }

  lemma HostKeepsLingering(s: System, a: MuxSpec.Action, k: ConnID)
    requires Can(s, Host(a)) && Lingers(s, k) && !ByHolder(Host(a), k) && !EndsMux(Host(a))
    ensures Lingers(HostDoes(s, a), k)
  {
    MuxTheorems.StepCloses(s.host, a, k);
  }

  lemma ReceivingKeepsLingering(s: System, drop: bool, k: ConnID)
    requires InvAll(s) && Can(s, HostReceives(drop)) && Lingers(s, k)
    ensures Registered(Received(s.host, s.agent.out[s.downRead], drop), k)
  {
    var x := s.agent.out[s.downRead];
    OpenIsListed(s, k);
    assert Inv(s, k);
    NextForHost(s, k);
    TunnelTheorems.NoCloseBefore(s.agent.out, s.downRead + 1, k);
    OfNext(s.agent.out, s.downRead, k);
    CloseAppend(Of(s.agent.out[..s.downRead], k), x);
    MuxTheorems.HandlingAt(s.host, x, drop, k);
  }

  /** The host has sent no close for it, so the agent cannot be about to handle one. */
  lemma NoCloseForAgent(s: System, k: ConnID)
    requires InvAll(s) && Registered(s.host, k) && s.upRead < |s.host.out|
    ensures s.host.out[s.upRead].connID == k ==> s.host.out[s.upRead].kind == MSG_DATA
  {
    OpenIsListed(s, k);
    assert Inv(s, k);
    NextForAgent(s, k);
    TunnelTheorems.NoCloseBefore(s.host.out, s.upRead + 1, k);
    OfNext(s.host.out, s.upRead, k);
    CloseAppend(Of(s.host.out[..s.upRead], k), s.host.out[s.upRead]);
  }

  lemma OneMoreIsNotClose(out: seq<Message>, x: Message, k: ConnID)
    requires x.connID != k || x.kind != MSG_CLOSE
    ensures HasClose(Of(out + [x], k)) <==> HasClose(Of(out, k))
  {
    OfAppend(out, x, k);
    CloseAppend(Of(out, k), x);
    assert Of(out, k) + [] == Of(out, k);
  }

  lemma AgentKeepsLingering(s: System, st: Step, k: ConnID)
    requires Can(s, st) && !st.Host? && !st.HostReceives? && Lingers(s, k) && !EndsTarget(st, k)
    requires st.AgentReceives? && s.host.out[s.upRead].connID == k ==> s.host.out[s.upRead].kind == MSG_DATA
    ensures Lingers(Do(s, st), k)
  {
    var out, out' := s.agent.out, Do(s, st).agent.out;
    if out' != out {
      assert |out'| == |out| + 1 && out' == out + [out'[|out|]];
      assert out'[|out|].connID != k || out'[|out|].kind != MSG_CLOSE;
      OneMoreIsNotClose(out, out'[|out|], k);
    }
  }

  lemma StepKeepsLingering(s: System, st: Step, k: ConnID)
    requires InvAll(s) && Can(s, st) && Lingers(s, k)
    requires !ByHolder(st, k) && !EndsMux(st) && !EndsTarget(st, k)
    ensures Lingers(Do(s, st), k)
  {
    match st
    case Host(a) => HostKeepsLingering(s, a, k);
    case HostReceives(drop) => ReceivingKeepsLingering(s, drop, k);
    case AgentReceives(_, _, _) =>
      NoCloseForAgent(s, k);
      AgentKeepsLingering(s, st, k);
    case _ => AgentKeepsLingering(s, st, k);
  }

  /** A connection nobody holds stays registered at the host and listed at the agent, however the run goes on,
      for as long as the mux runs and the target does not end it. */
  lemma {:induction false} UnheldConnectionStays(s: System, run: seq<Step>, k: ConnID)
    requires InvAll(s) && Lingers(s, k) && Run(s, run) && Unheld(run, k)
    requires forall st <- run :: !EndsTarget(st, k)
    ensures var e := End(s, run); Registered(e.host, k) && k in e.agent.connections
    decreases |run|
  {
    if run == [] {
      OpenIsListed(s, k);
    } else {
      assert run[0] in run;
      StepKeepsLingering(s, run[0], k);
      DoKeepsInv(s, run[0]);
      UnheldConnectionStays(Do(s, run[0]), run[1..], k);
    }
  }

  /** Once its queue is full nobody can free the read loop any more: whatever its target and everyone else do,
      no message of any connection is handled until the mux ends. */
  lemma UnheldQueueStallsEveryone(s: System, run: seq<Step>)
    requires TunnelTheorems.QueueFull(s) && !s.host.dead && Run(s, run)
    requires Unheld(run, s.agent.out[s.downRead].connID)
    ensures End(s, run).downRead == s.downRead && TunnelTheorems.QueueFull(End(s, run))
  {
    forall st <- run ensures !TunnelTheorems.Frees(st, s.agent.out[s.downRead].connID) {
      assert !ByHolder(st, s.agent.out[s.downRead].connID) && !EndsMux(st);
    }
    TunnelTheorems.FullQueueStallsEveryone(s, run);
  }

  /** Both together, from the start: a Dial cancelled too late and a talkative target stop the whole tunnel
      until the mux ends. The connection has no holder, so no run contains a holder's step. */
  lemma CancelledDialStopsTheTunnel(rest: seq<Step>)
    requires Run(INIT, Flood(true) + rest) && Unheld(rest, FIRST)
    ensures Run(INIT, Flood(true)) && Unheld(Flood(true), FIRST)
    ensures End(INIT, Flood(true) + rest).downRead == End(INIT, Flood(true)).downRead
  {
    FloodFillsTheQueue(true);
    FloodIsUnheld();
    EndAppend(INIT, Flood(true), rest);
    UnheldQueueStallsEveryone(End(INIT, Flood(true)), rest);
  }

  lemma FloodIsUnheld()
    ensures Unheld(Flood(true), FIRST)
  {
    ChunksAreUnheld(READ_BUF);
  }

  lemma {:induction false} ChunksAreUnheld(n: nat)
    ensures Unheld(Chunks(n), FIRST)
  {
    if n > 0 { ChunksAreUnheld(n - 1); }
  }

  /* ---------- the other situations ---------- */

  /** The mux is closed while a connection is open. */
  lemma StrandedIsReached()
    ensures var run := Dialled(false) + [Host(CloseMux)];
      Run(INIT, run) && End(INIT, run).host.dead && Registered(End(INIT, run).host, FIRST)
  {
    DialReturns(false);
    OneStepMore(INIT, Dialled(false), Host(CloseMux));
  }

  /** A target ends its connection, and the close is the next message the host handles. */
  lemma TargetEndIsReached()
    ensures var run := Dialled(false) + [TargetEnds(FIRST, true)];
      && Run(INIT, run)
      && var s := End(INIT, run);
         && TunnelTheorems.Reached(s) && Can(s, HostReceives(false)) && Registered(s.host, FIRST)
         && s.agent.out[s.downRead] == Message(MSG_CLOSE, FIRST, [])
  {
    DialReturns(false);
    var run := Dialled(false) + [TargetEnds(FIRST, true)];
    OneStepMore(INIT, Dialled(false), TargetEnds(FIRST, true));
    RunReaches(run);
  }

  /** That run is orderly up to the point where the host has handled the close. */
  lemma TargetEndIsOrderly()
    ensures var run := Dialled(false) + [TargetEnds(FIRST, true), HostReceives(false)];
      Run(INIT, run) && TunnelShutdown.OrderlyRun(INIT, run, FIRST) && FIRST in End(INIT, run).host.conns
      && End(INIT, run).host.conns[FIRST].closed
  {
    TargetEndIsReached();
    var ended := Dialled(false) + [TargetEnds(FIRST, true)];
    OneStepMore(INIT, ended, HostReceives(false));
    assert ended + [HostReceives(false)] == Dialled(false) + [TargetEnds(FIRST, true), HostReceives(false)];
    QuietRunIsOrderly(INIT, ended + [HostReceives(false)], FIRST);
  }

  lemma {:induction false} QuietRunIsOrderly(s: System, run: seq<Step>, k: ConnID)
    requires Run(s, run)
    requires forall st <- run :: !EndsMux(st) && !ByHolder(st, k) && !st.TargetSends?
    ensures TunnelShutdown.OrderlyRun(s, run, k)
    decreases |run|
  {
    if run != [] {
      assert run[0] in run;
      QuietRunIsOrderly(Do(s, run[0]), run[1..], k);
    }
  }
}

/** Liveness of the data channel under cooperation: what a fault-free schedule achieves, and exactly which
    states can still be brought to full delivery. */
module Recovery {
  import opened ChannelSpec
  import opened Octets
  import opened Delivery
  import opened DeliveryInvariant
  import opened DeliveryTheorems
  import Rto

  /* ---------- runs in sequence ---------- */

  lemma {:induction false} AfterAppend(s: System, r1: seq<Action>, r2: seq<Action>)
    requires Legal(s, r1) && Legal(After(s, r1), r2)
    ensures Legal(s, r1 + r2) && After(s, r1 + r2) == After(After(s, r1), r2)
    decreases |r1|
  {
    if r1 == [] {
      assert r1 + r2 == r2;
    } else {
      assert (r1 + r2)[1..] == r1[1..] + r2;
      AfterAppend(Next(s, r1[0]), r1[1..], r2);
    }
  }

  lemma AfterOne(s: System, a: Action)
    requires Enabled(s, a)
    ensures Legal(s, [a]) && After(s, [a]) == Next(s, a)
  {
    assert [a][1..] == [];
  }

  /* ---------- one fault-free round ---------- */

  /** The clock has moved past the timeout of every buffered message. */
  ghost predicate Due(s: System, now: int) {
    && s.clock <= now
    && (forall i :: 0 <= i < |s.snd.outgoing| ==> now - s.snd.outgoing[i].lastSentTime > s.snd.estimator.rto)
  }

  /** Between s and t the head of the buffer arrived and was acknowledged, and nothing else was sent. */
  ghost predicate HeadDone(s: System, t: System) {
    && s.snd.outgoing != []
    && t.snd.outgoing == s.snd.outgoing[1..]
    && t.base == s.base && t.sent == s.sent && t.evicted == s.evicted
    && s.acked <= t.acked && s.net <= t.net && s.arrived.Keys <= t.arrived.Keys
    && s.snd.outgoing[0].messageID in t.acked
  }

  function Round(m: Message, now: int): seq<Action> {
    [ResendTick(now, true), MessageArrives(m, true), AckArrives(m.id, now)]
  }

  lemma HeadInStream(s: System)
    requires Inv(s) && s.snd.outgoing != []
    ensures var m := s.snd.outgoing[0].content;
      m.id == s.snd.outgoing[0].messageID && InStream(s.base, s.sent, m.seqNum, m)
  {
    FrontEntry(s.base, s.snd.sendSeqNum, s.sent, s.snd.outgoing, s.acked, s.evicted, s.resends, s.sentAt, s.clock);
  }

  lemma AfterTwo(s: System, a: Action, b: Action)
    requires Enabled(s, a) && Enabled(Next(s, a), b)
    ensures Legal(s, [a, b]) && After(s, [a, b]) == Next(Next(s, a), b)
  {
    assert [a, b][1..] == [b];
    AfterOne(Next(s, a), b);
  }

  lemma AckOfHead(s: Sender, id: MessageId, now: int)
    requires s.outgoing != [] && s.outgoing[0].messageID == id
    ensures Acked(s, id, now).outgoing == s.outgoing[1..]
    ensures s.outgoing[0].resendAttempt > 0 ==> Acked(s, id, now).estimator == s.estimator
  {
    assert IndexOf(s.outgoing, id) == 0;
  }

  /** The head arrives and its acknowledgement comes back. */
  lemma ArrivalAndAck(s: System, now: int)
    requires s.snd.outgoing != [] && s.clock <= now
    requires s.snd.outgoing[0].content in s.net && s.snd.outgoing[0].content.id == s.snd.outgoing[0].messageID
    ensures var m := s.snd.outgoing[0].content;
            var run := [MessageArrives(m, true), AckArrives(m.id, now)];
      && Legal(s, run)
      && var t := After(s, run);
         && HeadDone(s, t) && t.clock == now
         && (s.snd.outgoing[0].resendAttempt > 0 ==> t.snd.estimator == s.snd.estimator)
  {
    var m := s.snd.outgoing[0].content;
    AfterTwo(s, MessageArrives(m, true), AckArrives(m.id, now));
    AckOfHead(s.snd, m.id, now);
  }

  lemma OneRound(s: System, now: int)
    requires s.snd.outgoing != [] && s.clock <= now
    requires s.snd.outgoing[0].content.id == s.snd.outgoing[0].messageID
    requires now - s.snd.outgoing[0].lastSentTime > s.snd.estimator.rto
    requires s.snd.outgoing[0].resendAttempt < RESEND_MAX_ATTEMPT
    ensures var run := Round(s.snd.outgoing[0].content, now);
      Legal(s, run) && HeadDone(s, After(s, run)) && After(s, run).clock == now
      && After(s, run).snd.estimator == s.snd.estimator
  {
    var m := s.snd.outgoing[0].content;
    var tick := ResendTick(now, true);
    TickIsEither(s, now, true);
    var s1 := ResendingTick(s, now);
    assert Next(s, tick) == s1;
    ArrivalAndAck(s1, now);
    AfterOne(s, tick);
    var rest := [MessageArrives(m, true), AckArrives(m.id, now)];
    AfterAppend(s, [tick], rest);
    assert [tick] + rest == Round(m, now);
    assert s1.snd.outgoing[1..] == s.snd.outgoing[1..];
  }

  /* ---------- the fault-free schedule ---------- */

  /** For each buffered message in turn: resend it, let it arrive, return its acknowledgement. */
  function Schedule(outgoing: seq<StreamingMessage>, now: int): (run: seq<Action>)
    ensures |run| == 3 * |outgoing|
  {
    if outgoing == [] then [] else Round(outgoing[0].content, now) + Schedule(outgoing[1..], now)
  }

  ghost predicate HeadResendable(s: System) {
    s.snd.outgoing != [] ==> s.snd.outgoing[0].resendAttempt < RESEND_MAX_ATTEMPT
  }

  lemma DueAfterRound(s: System, t: System, now: int)
    requires Due(s, now) && HeadDone(s, t) && t.clock == now && t.snd.estimator == s.snd.estimator
    requires forall i :: 0 < i < |s.snd.outgoing| ==> s.snd.outgoing[i].resendAttempt == 0
    ensures Due(t, now) && HeadResendable(t)
  {
    assert forall i :: 0 <= i < |t.snd.outgoing| ==> t.snd.outgoing[i] == s.snd.outgoing[i + 1];
  }

  lemma {:induction false} ScheduleDrains(s: System, now: int)
    requires Inv(s) && Due(s, now) && HeadResendable(s)
    ensures var run := Schedule(s.snd.outgoing, now);
      && Legal(s, run)
      && var t := After(s, run);
         t.snd.outgoing == [] && t.sent == s.sent && t.base == s.base && t.evicted == s.evicted && s.acked <= t.acked
    decreases |s.snd.outgoing|
  {
    if s.snd.outgoing != [] {
      HeadInStream(s);
      OneRound(s, now);
      var round := Round(s.snd.outgoing[0].content, now);
      var s1 := After(s, round);
      RunKeepsInv(s, round);
      DueAfterRound(s, s1, now);
      ScheduleDrains(s1, now);
      AfterAppend(s, round, Schedule(s.snd.outgoing[1..], now));
    }
  }

  ghost predicate Distinct(sent: seq<Message>) {
    forall i, j :: 0 <= i < j < |sent| ==> sent[i].id != sent[j].id
  }

  predicate HasArrived(s: System, i: nat) {
    s.base + i in s.arrived
  }

  lemma AckedArrived(s: System, i: nat)
    requires Transported(s.base, s.sent, s.net, s.arrived) && Answered(s.arrived, s.acks, s.acked)
    requires Distinct(s.sent) && i < |s.sent| && s.sent[i].id in s.acked
    ensures HasArrived(s, i)
  {
    var n :| n in s.arrived && s.arrived[n].id == s.sent[i].id;
    assert InStream(s.base, s.sent, n, s.arrived[n]);
  }

  lemma AllArrivedIsAllDelivered(s: System)
    requires Inv(s) && forall i :: 0 <= i < |s.sent| ==> HasArrived(s, i)
    ensures s.rcv.output == Payloads(s.sent)
  {
    OutputIsPrefix(s);
    NextMissing(s, |s.rcv.output|);
  }

  lemma NextMissing(s: System, n: nat)
    requires s.rcv.expected == s.base + n && s.rcv.expected !in s.arrived
    ensures !HasArrived(s, n)
  {}

  /** With the buffer empty and no unacknowledged eviction, nothing is missing. */
  lemma EmptyBufferIsComplete(s: System)
    requires Inv(s) && s.snd.outgoing == [] && s.evicted <= s.acked
    ensures s.snd.pending == map[] && s.rcv.output == Payloads(s.sent)
  {
    forall i | 0 <= i < |s.sent| ensures HasArrived(s, i) {
      assert !Buffered(s.snd.outgoing, s.sent[i].id);
      AckedArrived(s, i);
    }
    AllArrivedIsAllDelivered(s);
    PendingIsUnacked(s.sent, s.snd.pending, s.acked);
    Split(s.base, s.sent, s.snd.outgoing, s.acked, s.evicted);
    assert s.snd.pending.Keys == {};
  }

  /** From any state of the invariant with no unacknowledged message evicted and a head that may still be
      resent, the schedule drains everything. */
  lemma ScheduleCompletes(s: System, now: int)
    requires Inv(s) && Due(s, now) && HeadResendable(s) && s.evicted <= s.acked
    ensures var run := Schedule(s.snd.outgoing, now);
      && Legal(s, run)
      && var t := After(s, run);
         t.snd.outgoing == [] && t.snd.pending == map[] && t.rcv.output == Payloads(s.sent)
  {
    ScheduleDrains(s, now);
    RunKeepsInv(s, Schedule(s.snd.outgoing, now));
    EmptyBufferIsComplete(After(s, Schedule(s.snd.outgoing, now)));
  }

  /** Recoverability: from every state a run can reach in which no unacknowledged message was evicted and
      the head may still be resent, the fault-free schedule (three actions per buffered message) is
      legal, empties both the buffer and pendingMessages, and ends with everything sent delivered. */
  lemma FaultFreeScheduleCompletes(base: int, clock: int, start: Rto.Settled, history: seq<Action>, now: int)
    requires Legal(Init(base, clock, start), history)
    requires var s := After(Init(base, clock, start), history);
      Due(s, now) && HeadResendable(s) && s.evicted <= s.acked
    ensures var s := After(Init(base, clock, start), history);
            var run := Schedule(s.snd.outgoing, now);
      && |run| == 3 * |s.snd.outgoing| && Legal(s, run)
      && var t := After(s, run);
         t.snd.outgoing == [] && t.snd.pending == map[] && t.rcv.output == Given(history)
  {
    EveryRunKeepsInv(base, clock, start, history);
    SentFromTheStart(base, clock, start, history);
    ScheduleCompletes(After(Init(base, clock, start), history), now);
  }

  /* ---------- exactly which states can still complete ---------- */

  /** The message numbered i is with the receiver, in the buffer, or was once on the wire. */
  predicate Obtainable(s: System, i: nat)
    requires i < |s.sent|
  {
    HasArrived(s, i) || Buffered(s.snd.outgoing, s.sent[i].id) || s.sent[i] in s.net
  }

  ghost predicate DistinctEntries(outgoing: seq<StreamingMessage>) {
    forall i, j :: 0 <= i < j < |outgoing| ==> outgoing[i].messageID != outgoing[j].messageID
  }

  lemma SendKeepsLost(s: System, payload: Bytes, id: MessageId, now: int, wsOk: bool, i: nat)
    requires DistinctEntries(s.snd.outgoing) && !WasSent(s.sent, id) && i < |s.sent| && !Obtainable(s, i)
    ensures !Obtainable(NextSend(s, payload, id, now, wsOk), i)
  {
    var m := InputMessage(s.snd.sendSeqNum, id, Output, payload);
    SentAt(s.sent, s.sent[i].id);
    EnqueueBuffered(s.snd.outgoing, StreamingMessage(m, m.seqNum, id, now, 0), s.sent[i].id);
  }

  lemma LostIsNotHead(s: System, i: nat)
    requires Inv(s) && i < |s.sent| && !Obtainable(s, i) && s.snd.outgoing != []
    ensures s.snd.outgoing[0].content != s.sent[i]
  {
    HeadInStream(s);
    BufferedAt(s.snd.outgoing, s.sent[i].id);
  }

  lemma ResendingTickKeepsLost(s: System, now: int, i: nat)
    requires i < |s.sent| && !Obtainable(s, i)
    requires s.snd.outgoing != [] && s.snd.outgoing[0].content != s.sent[i]
    ensures !Obtainable(ResendingTick(s, now), i)
  {
    SameIds(s.snd.outgoing, Bumped(s.snd.outgoing, now));
  }

  lemma TickKeepsLost(s: System, now: int, wsOk: bool, i: nat)
    requires i < |s.sent| && !Obtainable(s, i)
    requires s.snd.outgoing != [] ==> s.snd.outgoing[0].content != s.sent[i]
    ensures !Obtainable(NextTick(s, now, wsOk), i)
  {
    TickIsEither(s, now, wsOk);
    if TickOutcome(s.snd, now, wsOk).Resent? {
      ResendingTickKeepsLost(s, now, i);
    }
  }

  lemma ArrivalKeepsLost(s: System, m: Message, ackOk: bool, i: nat)
    requires Transported(s.base, s.sent, s.net, s.arrived) && m in s.net && i < |s.sent| && !Obtainable(s, i)
    ensures !Obtainable(NextArrival(s, m, ackOk), i)
  {
    assert InStream(s.base, s.sent, m.seqNum, m);
  }

  lemma RemovalKeepsUnbuffered(outgoing: seq<StreamingMessage>, id: MessageId, x: MessageId)
    requires DistinctEntries(outgoing) && !Buffered(outgoing, x)
    ensures var k := IndexOf(outgoing, id); k < |outgoing| ==> !Buffered(outgoing[..k] + outgoing[k + 1..], x)
  {
    var k := IndexOf(outgoing, id);
    if k < |outgoing| { WithoutBuffered(outgoing, k, x); }
  }

  lemma AckKeepsLost(s: System, id: MessageId, now: int, i: nat)
    requires DistinctEntries(s.snd.outgoing) && i < |s.sent| && !Obtainable(s, i)
    ensures !Obtainable(NextAck(s, id, now), i)
  {
    RemovalKeepsUnbuffered(s.snd.outgoing, id, s.sent[i].id);
  }

  /** A message that is none of these, as happens when it is evicted before any transmission succeeded,
      stays so in every continuation. */
  lemma LostStaysLost(s: System, a: Action, i: nat)
    requires Inv(s) && Enabled(s, a) && i < |s.sent| && !Obtainable(s, i)
    ensures i < |Next(s, a).sent| && !Obtainable(Next(s, a), i)
  {
    BufferIdsDistinct(s.base, s.snd.sendSeqNum, s.sent, s.snd.outgoing);
    match a
    case SendData(payload, id, now, wsOk) => SendKeepsLost(s, payload, id, now, wsOk, i);
    case ResendTick(now, wsOk) =>
      if s.snd.outgoing != [] { LostIsNotHead(s, i); }
      TickKeepsLost(s, now, wsOk, i);
    case MessageArrives(m, ackOk) => ArrivalKeepsLost(s, m, ackOk, i);
    case AckArrives(id, now) => AckKeepsLost(s, id, now, i);
  }

  lemma {:induction false} LostForever(s: System, run: seq<Action>, i: nat)
    requires Inv(s) && Legal(s, run) && i < |s.sent| && !Obtainable(s, i)
    ensures |After(s, run).rcv.output| <= i
    decreases |run|
  {
    if run == [] {
      OutputIsPrefix(s);
    } else {
      NextKeepsInv(s, run[0]);
      LostStaysLost(s, run[0], i);
      LostForever(Next(s, run[0]), run[1..], i);
    }
  }

  /** A head never accepted by the websocket has never been resent. */
  lemma UntransmittedHeadIsFresh(s: System)
    requires Inv(s) && s.snd.outgoing != [] && s.snd.outgoing[0].content !in s.net
    ensures s.snd.outgoing[0].resendAttempt == 0
  {
    HeadInStream(s);
    var m := s.snd.outgoing[0].content;
    assert s.sent[m.seqNum - s.base] == m;
    FrontEntry(s.base, s.snd.sendSeqNum, s.sent, s.snd.outgoing, s.acked, s.evicted, s.resends, s.sentAt, s.clock);
  }

  lemma StillBuffered(outgoing: seq<StreamingMessage>, id: MessageId)
    requires outgoing != [] && Buffered(outgoing, id) && id != outgoing[0].messageID
    ensures Buffered(outgoing[1..], id)
  {
    BufferedAt(outgoing, id);
    BufferedAt(outgoing[1..], id);
    var i :| 0 <= i < |outgoing| && outgoing[i].messageID == id;
    assert outgoing[1..][i - 1].messageID == id;
  }

  /** Clearing the head loses nothing: its message has arrived, and the others are where they were. */
  lemma ObtainableKept(s: System, t: System)
    requires HeadDone(s, t) && AllObtainable(s) && Distinct(t.sent)
    requires Transported(t.base, t.sent, t.net, t.arrived) && Answered(t.arrived, t.acks, t.acked)
    ensures AllObtainable(t)
  {
    forall i | 0 <= i < |t.sent| ensures Obtainable(t, i) {
      assert Obtainable(s, i);
      if t.sent[i].id in t.acked {
        AckedArrived(t, i);
      } else if Buffered(s.snd.outgoing, s.sent[i].id) {
        StillBuffered(s.snd.outgoing, s.sent[i].id);
      }
    }
  }

  lemma ClearHead(s: System) returns (run: seq<Action>)
    requires Inv(s) && s.snd.outgoing != []
    ensures Legal(s, run) && HeadDone(s, After(s, run))
  {
    var m := s.snd.outgoing[0].content;
    HeadInStream(s);
    if m in s.net {
      ArrivalAndAck(s, s.clock);
      run := [MessageArrives(m, true), AckArrives(m.id, s.clock)];
    } else {
      UntransmittedHeadIsFresh(s);
      var late := s.snd.outgoing[0].lastSentTime + s.snd.estimator.rto + 1;
      var now := if late < s.clock then s.clock else late;
      OneRound(s, now);
      run := Round(m, now);
    }
  }

  ghost predicate AllObtainable(s: System) {
    forall i :: 0 <= i < |s.sent| ==> Obtainable(s, i)
  }

  lemma {:induction false} ClearBuffer(s: System) returns (run: seq<Action>)
    requires Inv(s) && AllObtainable(s)
    ensures Legal(s, run)
    ensures var t := After(s, run);
      t.snd.outgoing == [] && t.sent == s.sent && t.base == s.base && AllObtainable(t)
    decreases |s.snd.outgoing|
  {
    run := [];
    if s.snd.outgoing != [] {
      var first := ClearHead(s);
      var s1 := After(s, first);
      RunKeepsInv(s, first);
      ObtainableKept(s, s1);
      var rest := ClearBuffer(s1);
      AfterAppend(s, first, rest);
      run := first + rest;
    }
  }

  /** Let the messages numbered from k on arrive, those that have not. */
  lemma {:induction false} DeliverRest(s: System, k: nat) returns (run: seq<Action>)
    requires k <= |s.sent|
    requires forall i :: 0 <= i < |s.sent| ==> s.sent[i].seqNum == s.base + i
    requires forall i :: 0 <= i < k ==> HasArrived(s, i)
    requires forall i :: k <= i < |s.sent| ==> HasArrived(s, i) || s.sent[i] in s.net
    ensures Legal(s, run)
    ensures var t := After(s, run);
      t.sent == s.sent && forall i :: 0 <= i < |t.sent| ==> HasArrived(t, i)
    decreases |s.sent| - k
  {
    run := [];
    if k < |s.sent| {
      if HasArrived(s, k) {
        run := DeliverRest(s, k + 1);
      } else {
        var a := MessageArrives(s.sent[k], true);
        AfterOne(s, a);
        var s1 := Next(s, a);
        assert forall i: nat :: HasArrived(s1, i) <==> HasArrived(s, i) || i == k;
        var rest := DeliverRest(s1, k + 1);
        AfterAppend(s, [a], rest);
        run := [a] + rest;
      }
    }
  }

  /** Some continuation delivers everything sent so far. */
  ghost predicate CanComplete(s: System) {
    exists run :: Legal(s, run) && Payloads(s.sent) <= After(s, run).rcv.output
  }

  lemma RestOfTheWay(s: System) returns (run: seq<Action>)
    requires Inv(s) && AllObtainable(s) && s.snd.outgoing == []
    ensures Legal(s, run) && After(s, run).sent == s.sent && After(s, run).rcv.output == Payloads(s.sent)
  {
    forall i | 0 <= i < |s.sent| ensures HasArrived(s, i) || s.sent[i] in s.net {
      assert Obtainable(s, i);
    }
    run := DeliverRest(s, 0);
    RunKeepsInv(s, run);
    AllArrivedIsAllDelivered(After(s, run));
  }

  lemma ObtainableCompletes(s: System)
    requires Inv(s) && AllObtainable(s)
    ensures CanComplete(s)
  {
    var first := ClearBuffer(s);
    RunKeepsInv(s, first);
    var rest := RestOfTheWay(After(s, first));
    AfterAppend(s, first, rest);
    assert Legal(s, first + rest);
  }

  lemma CompletesOnlyIfObtainable(s: System)
    requires Inv(s) && CanComplete(s)
    ensures AllObtainable(s)
  {
    var run :| Legal(s, run) && Payloads(s.sent) <= After(s, run).rcv.output;
    forall i | 0 <= i < |s.sent| ensures Obtainable(s, i) {
      if !Obtainable(s, i) { LostForever(s, run, i); }
    }
  }

  /** A reachable state can still be brought to full delivery if and only if every message sent is with
      the receiver, in the sender's buffer, or was accepted by the websocket at least once. */
  lemma CompletionIff(base: int, clock: int, start: Rto.Settled, history: seq<Action>)
    requires Legal(Init(base, clock, start), history)
    ensures var s := After(Init(base, clock, start), history);
      CanComplete(s) <==> forall i :: 0 <= i < |s.sent| ==> Obtainable(s, i)
  {
    var s := After(Init(base, clock, start), history);
    EveryRunKeepsInv(base, clock, start, history);
    if AllObtainable(s) {
      ObtainableCompletes(s);
    } else if CanComplete(s) {
      CompletesOnlyIfObtainable(s);
    }
  }

  /* ---------- completion does fail ---------- */

  function Tag(k: nat): (id: MessageId)
    ensures |id| == k
  {
    if k == 0 then [] else Tag(k - 1) + [0]
  }

  /** k messages sent while the websocket refuses everything. */
  function Refused(k: nat): seq<Action> {
    if k == 0 then [] else Refused(k - 1) + [SendData([], Tag(k), 0, false)]
  }

  ghost predicate AllRefused(s: System, k: nat) {
    && s.clock == 0 && s.net == {} && s.arrived == map[] && s.acked == {} && |s.sent| == k
    && |s.snd.outgoing| == (if k < OUTGOING_MESSAGE_BUFFER_CAPACITY then k else OUTGOING_MESSAGE_BUFFER_CAPACITY)
    && (forall id :: id in SentIds(s.sent) ==> |id| <= k)
    && (k > OUTGOING_MESSAGE_BUFFER_CAPACITY ==> s.evicted != {})
  }

  lemma RefusedOnce(s: System, k: nat)
    requires AllRefused(s, k)
    ensures Enabled(s, SendData([], Tag(k + 1), 0, false))
    ensures AllRefused(NextSend(s, [], Tag(k + 1), 0, false), k + 1)
  {
    var t := NextSend(s, [], Tag(k + 1), 0, false);
    SentGrows(s.sent, InputMessage(s.snd.sendSeqNum, Tag(k + 1), Output, []));
    assert forall id :: id in SentIds(t.sent) ==> |id| <= k + 1;
    if k >= OUTGOING_MESSAGE_BUFFER_CAPACITY {
      assert s.snd.outgoing[0].messageID in t.evicted;
    }
  }

  lemma RefusedStep(s: System, k: nat)
    requires AllRefused(s, k)
    ensures var run := [SendData([], Tag(k + 1), 0, false)];
      Legal(s, run) && AllRefused(After(s, run), k + 1)
  {
    RefusedOnce(s, k);
    AfterOne(s, SendData([], Tag(k + 1), 0, false));
  }

  lemma OneMoreRefused(run: seq<Action>, k: nat)
    requires Legal(Init(0, 0, Rto.INITIAL), run) && AllRefused(After(Init(0, 0, Rto.INITIAL), run), k)
    ensures var longer := run + [SendData([], Tag(k + 1), 0, false)];
      Legal(Init(0, 0, Rto.INITIAL), longer) && AllRefused(After(Init(0, 0, Rto.INITIAL), longer), k + 1)
  {
    RefusedStep(After(Init(0, 0, Rto.INITIAL), run), k);
    AfterAppend(Init(0, 0, Rto.INITIAL), run, [SendData([], Tag(k + 1), 0, false)]);
  }

  lemma {:induction false} RefusedRun(k: nat)
    ensures Legal(Init(0, 0, Rto.INITIAL), Refused(k)) && AllRefused(After(Init(0, 0, Rto.INITIAL), Refused(k)), k)
  {
    if k > 0 {
      RefusedRun(k - 1);
      OneMoreRefused(Refused(k - 1), k - 1);
    }
  }

  /** Overflow can lose a message for good: after 10001 refused sends no continuation whatever delivers
      all of them. */
  lemma OverflowCanLose()
    ensures var run := Refused(OUTGOING_MESSAGE_BUFFER_CAPACITY + 1);
      Legal(Init(0, 0, Rto.INITIAL), run) && !CanComplete(After(Init(0, 0, Rto.INITIAL), run))
  {
    var n := OUTGOING_MESSAGE_BUFFER_CAPACITY + 1;
    RefusedRun(n);
    EveryRunKeepsInv(0, 0, Rto.INITIAL, Refused(n));
    EvictionIsLoss(After(Init(0, 0, Rto.INITIAL), Refused(n)), n);
  }

  lemma EvictionIsLoss(s: System, n: nat)
    requires Inv(s) && AllRefused(s, n) && s.evicted != {}
    ensures !CanComplete(s)
  {
    var id :| id in s.evicted;
    SentAt(s.sent, id);
    var i :| 0 <= i < |s.sent| && s.sent[i].id == id;
    assert !Buffered(s.snd.outgoing, s.sent[i].id);
    assert !Obtainable(s, i);
    if CanComplete(s) { CompletesOnlyIfObtainable(s); }
  }
}

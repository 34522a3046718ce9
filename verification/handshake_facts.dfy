/** What HandshakeComplete does to a receiver that has already buffered data: line 468 of
    internal/backend/ssm/datachannel/channel.go sets the expected number and leaves the buffer alone. */
module HandshakeFacts {
  import opened ChannelSpec
  import opened Octets
  import opened ReceiverFacts
  import opened Wrappers
  import Rto

  /** What a receiver expecting base and holding held has received once ms has arrived. */
  function Gather(held: Arrived, base: int, ms: seq<Message>): Arrived {
    if ms == [] then held else Arrive(Gather(held, base, ms[..|ms| - 1]), base, ms[|ms| - 1])
  }

  /** ms goes on with the stream of held. */
  ghost predicate Continues(held: Arrived, ms: seq<Message>) {
    && OneStream(ms)
    && (forall i :: 0 <= i < |ms| && ms[i].seqNum in held ==> held[ms[i].seqNum] == ms[i])
  }

  /** Behind what it had delivered before, x has delivered exactly what the reference receiver of arrived
      delivers: the contiguous run from base, up to the first number missing. */
  ghost predicate Delivers(x: Receiver, before: seq<Bytes>, base: int, arrived: Arrived) {
    && before <= x.output
    && Contiguous(x.(output := x.output[|before|..]), base, arrived)
    && x.expected !in arrived
  }

  /** Whatever goes on to arrive, x delivers as the reference receiver does. */
  ghost predicate BehavesFresh(x: Receiver, before: seq<Bytes>, base: int, held: Arrived) {
    forall ms :: Continues(held, ms) ==> Delivers(AcceptAll(x, ms), before, base, Gather(held, base, ms))
  }

  /* ---------- a receiver in step ---------- */

  /** Entries below the expected number are dead weight; from there on the buffer holds what has arrived. */
  ghost predicate Holds(x: Receiver, before: seq<Bytes>, base: int, arrived: Arrived) {
    && before <= x.output
    && Contiguous(x.(output := x.output[|before|..]), base, arrived)
    && Above(x.incoming, x.expected) == Above(arrived, x.expected)
  }

  lemma HeldIff(x: Receiver, arrived: Arrived, k: int)
    requires Above(x.incoming, x.expected) == Above(arrived, x.expected) && k >= x.expected
    ensures k in x.incoming <==> k in arrived
    ensures k in arrived ==> x.incoming[k] == arrived[k]
  {
    assert k in x.incoming <==> k in Above(x.incoming, x.expected);
    assert k in arrived <==> k in Above(arrived, x.expected);
  }

  /** One delivery of the expected message. */
  lemma DeliverExpected(x: Receiver, before: seq<Bytes>, base: int, arrived: Arrived, incoming: map<int, Message>)
    requires DataOnly(arrived) && Holds(x, before, base, arrived) && x.expected in arrived
    requires Above(incoming, x.expected + 1) == Above(x.incoming, x.expected + 1)
    ensures Holds(Receiver(x.expected + 1, incoming, x.output + Delivered(arrived[x.expected])), before, base, arrived)
  {
    var m := arrived[x.expected];
    assert (x.output + [m.payload])[|before|..] == x.output[|before|..] + [m.payload];
    var next := x.expected + 1;
    forall k ensures k in Above(x.incoming, next) <==> k in Above(arrived, next) {
      if k >= next { HeldIff(x, arrived, k); }
    }
    forall k | k in Above(arrived, next) ensures x.incoming[k] == arrived[k] {
      HeldIff(x, arrived, k);
    }
    assert Above(x.incoming, next) == Above(arrived, next);
  }

  lemma {:induction false} DrainCatchesUp(x: Receiver, before: seq<Bytes>, base: int, arrived: Arrived)
    requires DataOnly(arrived) && Holds(x, before, base, arrived)
    ensures Holds(Drain(x), before, base, arrived) && Drain(x).expected !in arrived
    decreases |x.incoming|
  {
    HeldIff(x, arrived, x.expected);
    if x.expected in x.incoming {
      var left := x.incoming - {x.expected};
      assert left.Keys == x.incoming.Keys - {x.expected};
      assert Above(left, x.expected + 1) == Above(x.incoming, x.expected + 1);
      DeliverExpected(x, before, base, arrived, left);
      DrainCatchesUp(Receiver(x.expected + 1, left, x.output + Delivered(x.incoming[x.expected])), before, base,
                     arrived);
    }
  }

  lemma MoreArrived(x: Receiver, before: seq<Bytes>, base: int, arrived: Arrived, m: Message)
    requires DataOnly(arrived) && Holds(x, before, base, arrived) && Agrees(arrived, m) && m.seqNum >= x.expected
    ensures Holds(x.(incoming := x.incoming[m.seqNum := m]), before, base, Arrive(arrived, base, m))
    ensures DataOnly(Arrive(arrived, base, m))
  {
    var x', arrived' := x.(incoming := x.incoming[m.seqNum := m]), Arrive(arrived, base, m);
    forall k | k >= x.expected
      ensures k in x'.incoming <==> k in arrived'
      ensures k in arrived' ==> x'.incoming[k] == arrived'[k]
    {
      HeldIff(x, arrived, k);
    }
    assert Above(x'.incoming, x.expected) == Above(arrived', x.expected);
  }

  lemma AcceptCatchesUp(x: Receiver, before: seq<Bytes>, base: int, arrived: Arrived, m: Message)
    requires DataOnly(arrived) && Holds(x, before, base, arrived) && Agrees(arrived, m)
    requires x.expected !in arrived || m.seqNum == x.expected
    ensures var arrived' := Arrive(arrived, base, m);
      && Holds(Accept(x, m), before, base, arrived') && Accept(x, m).expected !in arrived' && DataOnly(arrived')
  {
    var arrived' := Arrive(arrived, base, m);
    if m.seqNum >= x.expected {
      MoreArrived(x, before, base, arrived, m);
    } else {
      assert arrived' == arrived;
    }
    if m.seqNum == x.expected {
      var x' := x.(incoming := x.incoming[m.seqNum := m]);
      assert Above(x.incoming, x.expected + 1) == Above(x'.incoming, x.expected + 1);
      DeliverExpected(x', before, base, arrived', x.incoming);
      DrainCatchesUp(Receiver(x.expected + 1, x.incoming, x.output + Delivered(m)), before, base, arrived');
    }
  }

  /* ---------- continuations ---------- */

  lemma {:induction false} GatherIsOneStream(held: Arrived, base: int, ms: seq<Message>)
    requires DataOnly(held) && Continues(held, ms)
    ensures DataOnly(Gather(held, base, ms))
    ensures forall k :: k in Gather(held, base, ms) ==>
              (k in held && Gather(held, base, ms)[k] == held[k]) || Gather(held, base, ms)[k] in ms
  {
    if ms != [] {
      GatherIsOneStream(held, base, ms[..|ms| - 1]);
    }
  }

  lemma NextAgrees(held: Arrived, base: int, ms: seq<Message>)
    requires DataOnly(held) && ms != [] && Continues(held, ms)
    ensures Continues(held, ms[..|ms| - 1])
    ensures Agrees(Gather(held, base, ms[..|ms| - 1]), ms[|ms| - 1])
    ensures DataOnly(Gather(held, base, ms[..|ms| - 1]))
  {
    var before, last := ms[..|ms| - 1], ms[|ms| - 1];
    assert OneStream(before);
    GatherIsOneStream(held, base, before);
    var g := Gather(held, base, before);
    if last.seqNum in g && g[last.seqNum] in before {
      var i :| 0 <= i < |before| && before[i] == g[last.seqNum];
      assert ms[i].seqNum == last.seqNum;
    }
  }

  lemma {:induction false} InStepStaysInStep(x: Receiver, before: seq<Bytes>, base: int, held: Arrived,
                                             ms: seq<Message>)
    requires DataOnly(held) && Holds(x, before, base, held) && x.expected !in held && Continues(held, ms)
    ensures Holds(AcceptAll(x, ms), before, base, Gather(held, base, ms))
    ensures AcceptAll(x, ms).expected !in Gather(held, base, ms)
  {
    if ms != [] {
      NextAgrees(held, base, ms);
      InStepStaysInStep(x, before, base, held, ms[..|ms| - 1]);
      AcceptCatchesUp(AcceptAll(x, ms[..|ms| - 1]), before, base, Gather(held, base, ms[..|ms| - 1]), ms[|ms| - 1]);
    }
  }

  lemma InStepBehavesFresh(x: Receiver, before: seq<Bytes>, base: int, held: Arrived)
    requires DataOnly(held) && Holds(x, before, base, held) && x.expected !in held
    ensures BehavesFresh(x, before, base, held)
  {
    forall ms | Continues(held, ms) ensures Delivers(AcceptAll(x, ms), before, base, Gather(held, base, ms)) {
      InStepStaysInStep(x, before, base, held, ms);
    }
  }

  /* ---------- HandshakeComplete ---------- */

  lemma CompletedHolds(r: Receiver, m: Message)
    requires DataOnly(r.incoming)
    ensures var b := m.seqNum + 1;
      && Holds(Completed(r, m), r.output, b, Above(r.incoming, b)) && DataOnly(Above(r.incoming, b))
      && (b in r.incoming <==> b in Above(r.incoming, b))
  {
    var b := m.seqNum + 1;
    assert Above(Above(r.incoming, b), b) == Above(r.incoming, b);
  }

  /** After HandshakeComplete the receiver delivers, in every continuation, what a fresh receiver of the
      buffered messages and the continuation delivers, exactly when the next message is not yet buffered.
      Buffered messages with lower or higher numbers do no harm. */
  lemma CompletedBehavesFreshIff(r: Receiver, m: Message)
    requires DataOnly(r.incoming)
    ensures var b := m.seqNum + 1;
      BehavesFresh(Completed(r, m), r.output, b, Above(r.incoming, b)) <==> b !in r.incoming
  {
    var b := m.seqNum + 1;
    var held := Above(r.incoming, b);
    CompletedHolds(r, m);
    if b !in r.incoming {
      InStepBehavesFresh(Completed(r, m), r.output, b, held);
    } else {
      assert Continues(held, []);
      assert !Delivers(AcceptAll(Completed(r, m), []), r.output, b, Gather(held, b, []));
    }
  }

  /* ---------- the stall, and its end ---------- */

  /** With the expected message already buffered nothing is delivered until it arrives again; what arrives
      meanwhile is kept. */
  lemma {:induction false} OvertakingMessageStalls(x: Receiver, before: seq<Bytes>, base: int, held: Arrived,
                                                   ms: seq<Message>)
    requires DataOnly(held) && Holds(x, before, base, held) && x.expected in held && Continues(held, ms)
    requires forall i :: 0 <= i < |ms| ==> ms[i].seqNum != x.expected
    ensures AcceptAll(x, ms).output == x.output && AcceptAll(x, ms).expected == x.expected
    ensures Holds(AcceptAll(x, ms), before, base, Gather(held, base, ms))
    ensures x.expected in Gather(held, base, ms) && Gather(held, base, ms)[x.expected] == held[x.expected]
  {
    if ms != [] {
      var prior, last := ms[..|ms| - 1], ms[|ms| - 1];
      NextAgrees(held, base, ms);
      OvertakingMessageStalls(x, before, base, held, prior);
      if last.seqNum > x.expected {
        MoreArrived(AcceptAll(x, prior), before, base, Gather(held, base, prior), last);
      } else {
        assert Arrive(Gather(held, base, prior), base, last) == Gather(held, base, prior);
      }
    }
  }

  lemma ReturnCatchesUp(x: Receiver, before: seq<Bytes>, base: int, arrived: Arrived)
    requires DataOnly(arrived) && Holds(x, before, base, arrived) && x.expected in arrived
    ensures var y := Accept(x, arrived[x.expected]);
      && Delivers(y, before, base, arrived) && BehavesFresh(y, before, base, arrived) && |y.output| > |x.output|
  {
    var again := arrived[x.expected];
    AcceptCatchesUp(x, before, base, arrived, again);
    assert Arrive(arrived, base, again) == arrived;
    InStepBehavesFresh(Accept(x, again), before, base, arrived);
    DrainOnlyAdds(Receiver(x.expected + 1, x.incoming, x.output + Delivered(again)));
  }

  /** When that message does arrive again the receiver has caught up, and behaves as a fresh one from then on:
      the stall costs time and no data. */
  lemma StallEndsWithTheMessage(x: Receiver, before: seq<Bytes>, base: int, held: Arrived, ms: seq<Message>)
    requires DataOnly(held) && Holds(x, before, base, held) && x.expected in held && Continues(held, ms)
    requires forall i :: 0 <= i < |ms| ==> ms[i].seqNum != x.expected
    ensures var y := AcceptAll(x, ms + [held[x.expected]]);
      && Delivers(y, before, base, Gather(held, base, ms))
      && BehavesFresh(y, before, base, Gather(held, base, ms))
      && |y.output| > |x.output|
  {
    OvertakingMessageStalls(x, before, base, held, ms);
    GatherIsOneStream(held, base, ms);
    assert (ms + [held[x.expected]])[..|ms|] == ms;
    ReturnCatchesUp(AcceptAll(x, ms), before, base, Gather(held, base, ms));
  }

  lemma {:induction false} DrainOnlyAdds(r: Receiver)
    ensures r.output <= Drain(r).output
    decreases |r.incoming|
  {
    if r.expected in r.incoming {
      assert (r.incoming - {r.expected}).Keys == r.incoming.Keys - {r.expected};
      DrainOnlyAdds(Receiver(r.expected + 1, r.incoming - {r.expected}, r.output + Delivered(r.incoming[r.expected])));
    }
  }

  /* ---------- it happens ---------- */

  /** The channel as NewDataChannel makes it. */
  const NEW_CHANNEL: End := End(Sender(0, map[], [], Rto.INITIAL), Receiver(0, map[], []), [], false, false)

  function DataMessage(n: int, id: MessageId, payload: Bytes): Message {
    Message(OutputStream, id, n, Output, payload, None)
  }

  function CompleteMessage(n: int, id: MessageId): Message {
    Message(OutputStream, id, n, HandshakeComplete, [], None)
  }

  /** A new channel, the data message numbered n + 1, and only then the HandshakeComplete numbered n: the
      channel now expects the very message it has buffered, and has delivered nothing. */
  lemma StallIsReached(n: nat, id: MessageId, id': MessageId, payload: Bytes, env: Env)
    requires env.ackOk
    ensures var c1 := Process(NEW_CHANNEL, DataMessage(n + 1, id, payload), env).0;
            var c := Process(c1, CompleteMessage(n, id'), env).0;
      && c.handshakeComplete && c.rcv.expected == n + 1 && n + 1 in c.rcv.incoming && c.rcv.output == []
      && Holds(c.rcv, [], n + 1, c.rcv.incoming) && DataOnly(c.rcv.incoming)
      && !BehavesFresh(c.rcv, [], n + 1, c.rcv.incoming)
  {
    var d := DataMessage(n + 1, id, payload);
    var r := Accept(NEW_CHANNEL.rcv, d);
    assert r == Receiver(0, map[n + 1 := d], []);
    CompletedBehavesFreshIff(r, CompleteMessage(n, id'));
    CompletedHolds(r, CompleteMessage(n, id'));
    assert Above(r.incoming, n + 1) == r.incoming;
  }
}

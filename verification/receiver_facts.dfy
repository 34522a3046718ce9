/** The receiver half refines a reference definition: its whole state is determined by the set of data
    messages that have arrived, whatever their order and multiplicity. */
module ReceiverFacts {
  import opened ChannelSpec

  /** Arrived messages by sequence number; a stream is a fixed assignment of messages to numbers. */
  type Arrived = map<int, Message>

  /** The receiver that started at base and has seen exactly the arrived messages: expected is the least
      number not seen, the output is the run below it, and what is buffered is precisely the rest. */
  ghost predicate Refines(r: Receiver, base: int, arrived: Arrived) {
    && Contiguous(r, base, arrived)
    && r.expected !in arrived
    && r.incoming == Above(arrived, r.expected)
  }

  ghost predicate Contiguous(r: Receiver, base: int, arrived: Arrived) {
    && base <= r.expected
    && (forall k :: base <= k < r.expected ==> k in arrived)
    && |r.output| == r.expected - base
    && (forall i :: 0 <= i < |r.output| ==> r.output[i] == arrived[base + i].payload)
  }

  /** The arrived messages from number k on. */
  function Above(arrived: Arrived, k: int): Arrived {
    map n | n in arrived && k <= n :: arrived[n]
  }

  /** Only data messages enter the sequenced stream after the handshake. */
  ghost predicate DataOnly(arrived: Arrived) {
    forall k <- arrived :: arrived[k].ptype.Output? && arrived[k].seqNum == k
  }

  lemma {:induction false} DrainRefines(r: Receiver, base: int, arrived: Arrived)
    requires DataOnly(arrived)
    requires Contiguous(r, base, arrived) && r.incoming == Above(arrived, r.expected)
    ensures Refines(Drain(r), base, arrived)
    decreases |r.incoming|
  {
    if r.expected in r.incoming {
      var next := Receiver(r.expected + 1, r.incoming - {r.expected},
                           r.output + Delivered(r.incoming[r.expected]));
      assert next.incoming.Keys == r.incoming.Keys - {r.expected};
      assert |next.incoming.Keys| < |r.incoming.Keys|;
      assert next.incoming == Above(arrived, next.expected);
      DrainRefines(next, base, arrived);
    }
  }

  /** What has arrived once m has arrived too; numbers below base are old and ignored. */
  function Arrive(arrived: Arrived, base: int, m: Message): Arrived {
    if base <= m.seqNum then arrived[m.seqNum := m] else arrived
  }

  /** m is a data message and repeats, rather than contradicts, anything already arrived. */
  ghost predicate Agrees(arrived: Arrived, m: Message) {
    m.ptype.Output? && (m.seqNum in arrived ==> arrived[m.seqNum] == m)
  }

  lemma AcceptRefines(r: Receiver, base: int, arrived: Arrived, m: Message)
    requires DataOnly(arrived) && Refines(r, base, arrived) && Agrees(arrived, m)
    ensures DataOnly(Arrive(arrived, base, m))
    ensures Refines(Accept(r, m), base, Arrive(arrived, base, m))
  {
    var arrived' := Arrive(arrived, base, m);
    if m.seqNum == r.expected {
      var next := Receiver(r.expected + 1, r.incoming, r.output + Delivered(m));
      assert next.incoming == Above(arrived', next.expected);
      DrainRefines(next, base, arrived');
    } else if m.seqNum > r.expected {
      assert Accept(r, m).incoming == Above(arrived', r.expected);
    } else {
      assert arrived' == arrived;
    }
  }

  /** The arrivals of a whole sequence of messages, oldest first. */
  function AcceptAll(r: Receiver, ms: seq<Message>): Receiver {
    if ms == [] then r else Accept(AcceptAll(r, ms[..|ms| - 1]), ms[|ms| - 1])
  }

  /** The reference: everything at or above base, by number. */
  function Collect(base: int, ms: seq<Message>): Arrived {
    if ms == [] then map[] else Arrive(Collect(base, ms[..|ms| - 1]), base, ms[|ms| - 1])
  }

  function Fresh(base: int): Receiver {
    Receiver(base, map[], [])
  }

  /** All messages of ms are data messages of one stream: equal numbers mean equal messages. */
  ghost predicate OneStream(ms: seq<Message>) {
    && (forall i :: 0 <= i < |ms| ==> ms[i].ptype.Output?)
    && (forall i, j :: 0 <= i < |ms| && 0 <= j < |ms| && ms[i].seqNum == ms[j].seqNum ==> ms[i] == ms[j])
  }

  lemma {:induction false} CollectIsTheSet(base: int, ms: seq<Message>)
    requires OneStream(ms)
    ensures DataOnly(Collect(base, ms))
    ensures forall k :: k in Collect(base, ms) <==>
              base <= k && exists i :: 0 <= i < |ms| && ms[i].seqNum == k
    ensures forall i :: 0 <= i < |ms| && base <= ms[i].seqNum ==> Collect(base, ms)[ms[i].seqNum] == ms[i]
  {
    if ms != [] {
      var before, last := ms[..|ms| - 1], ms[|ms| - 1];
      CollectIsTheSet(base, before);
      forall k
        ensures k in Collect(base, ms) <==> base <= k && exists i :: 0 <= i < |ms| && ms[i].seqNum == k
      {
        if base <= k && exists i :: 0 <= i < |ms| && ms[i].seqNum == k {
          var i :| 0 <= i < |ms| && ms[i].seqNum == k;
          if i < |ms| - 1 { assert before[i].seqNum == k; }
        }
        if k in Collect(base, ms) && k != last.seqNum {
          var i :| 0 <= i < |before| && before[i].seqNum == k;
          assert ms[i].seqNum == k;
        }
      }
      forall i | 0 <= i < |ms| && base <= ms[i].seqNum
        ensures Collect(base, ms)[ms[i].seqNum] == ms[i]
      {
        if i < |ms| - 1 { assert before[i] == ms[i]; }
      }
    }
  }

  /** Refinement over whole histories: after any sequence of arrivals, in any order and with any
      repetition, the receiver is the reference receiver of what arrived. */
  lemma {:induction false} ReceiverRefinement(base: int, ms: seq<Message>)
    requires OneStream(ms)
    ensures Refines(AcceptAll(Fresh(base), ms), base, Collect(base, ms))
  {
    if ms != [] {
      var before, last := ms[..|ms| - 1], ms[|ms| - 1];
      assert OneStream(before);
      ReceiverRefinement(base, before);
      CollectIsTheSet(base, before);
      if last.seqNum in Collect(base, before) {
        var i :| 0 <= i < |before| && before[i].seqNum == last.seqNum;
        assert ms[i] == ms[|ms| - 1] == last;
        assert Collect(base, before)[before[i].seqNum] == before[i];
      }
      AcceptRefines(AcceptAll(Fresh(base), before), base, Collect(base, before), last);
    }
  }

  /** The reference state is unique: two receivers of the same arrivals are equal in every field. */
  lemma RefinesDetermines(r: Receiver, r': Receiver, base: int, arrived: Arrived)
    requires Refines(r, base, arrived) && Refines(r', base, arrived)
    ensures r == r'
  {
    assert r.expected == r'.expected;
    assert r.output == r'.output;
  }

  function SetOf(ms: seq<Message>): set<Message> {
    set m | m in ms
  }

  /** Confluence: the final state depends only on the set of messages that arrived. */
  lemma Confluence(base: int, ms: seq<Message>, ms': seq<Message>)
    requires OneStream(ms) && OneStream(ms')
    requires SetOf(ms) == SetOf(ms')
    ensures AcceptAll(Fresh(base), ms) == AcceptAll(Fresh(base), ms')
  {
    ReceiverRefinement(base, ms);
    ReceiverRefinement(base, ms');
    CollectIsTheSet(base, ms);
    CollectIsTheSet(base, ms');
    var a, a' := Collect(base, ms), Collect(base, ms');
    CollectIncluded(base, ms, ms');
    CollectIncluded(base, ms', ms);
    assert forall k :: k in a <==> k in a';
    RefinesDetermines(AcceptAll(Fresh(base), ms), AcceptAll(Fresh(base), ms'), base, a);
  }

  lemma CollectIncluded(base: int, ms: seq<Message>, ms': seq<Message>)
    requires OneStream(ms) && OneStream(ms')
    requires SetOf(ms) <= SetOf(ms')
    ensures forall k :: k in Collect(base, ms) ==>
              k in Collect(base, ms') && Collect(base, ms)[k] == Collect(base, ms')[k]
  {
    CollectIsTheSet(base, ms);
    CollectIsTheSet(base, ms');
    forall k | k in Collect(base, ms)
      ensures k in Collect(base, ms') && Collect(base, ms)[k] == Collect(base, ms')[k]
    {
      var i :| 0 <= i < |ms| && ms[i].seqNum == k;
      assert ms[i] in SetOf(ms);
      assert ms[i] in SetOf(ms');
      var j :| 0 <= j < |ms'| && ms'[j] == ms[i];
    }
  }
}

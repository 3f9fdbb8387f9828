/** ReliableSend: numbering, the map of un-acked packets, resend and ack processing. */
module Sender {
  import opened Words
  import opened Packets

  datatype SendState = SendState(sendSeq: U32, queue: map<U32, Bytes>)

  const INITIAL := SendState(0, map[])

  // ---- Specification ----

  function EnqueueOne(st: SendState, payload: Bytes): SendState {
    SendState(Wrap(st.sendSeq + 1), st.queue[st.sendSeq := payload])
  }

  function EnqueueAll(st: SendState, payloads: seq<Bytes>): SendState {
    if payloads == [] then st
    else EnqueueOne(EnqueueAll(st, payloads[..|payloads| - 1]), payloads[|payloads| - 1])
  }

  /** The assertions of both `enqueue` overloads: payloads fit, and no number is reused while it
      is still un-acked. */
  ghost predicate MayEnqueue(st: SendState, payloads: seq<Bytes>) {
    forall i :: 0 <= i < |payloads| ==>
      && |payloads[i]| <= MAX_FRAGMENT_SIZE
      && KeyAt(st.sendSeq, i) !in st.queue
  }

  /** A datagram on the wire: the sequence number in front of the shared payload. */
  function Wire(seqNr: U32, payload: Bytes): Bytes {
    BE32(seqNr) + payload
  }

  function Wires(queue: map<U32, Bytes>, keys: set<U32>): set<Bytes>
    requires keys <= queue.Keys
  {
    set k | k in keys :: Wire(k, queue[k])
  }

  function ToSet<T>(xs: seq<T>): set<T> {
    set x | x in xs
  }

  function Acked(st: SendState, acks: seq<U32>): SendState {
    st.(queue := st.queue - ToSet(acks))
  }

  lemma ToSetSnoc<T>(xs: seq<T>, x: T)
    ensures ToSet(xs + [x]) == ToSet(xs) + {x}
  {
  }

  lemma WiresAdd(queue: map<U32, Bytes>, keys: set<U32>, k: U32)
    requires keys <= queue.Keys && k in queue
    ensures Wires(queue, keys + {k}) == Wires(queue, keys) + {Wire(k, queue[k])}
  {
  }

  // ---- The component ----

  class ReliableSend {
    var sendSequence: U32
    var sendQueue: map<U32, Bytes>

    ghost function State(): SendState
      reads this
    {
      SendState(sendSequence, sendQueue)
    }

    constructor ()
      ensures State() == INITIAL
    {
      sendSequence, sendQueue := 0, map[];
    }

    method EnqueuePacket(payload: Bytes)
      requires MayEnqueue(State(), [payload])
      modifies this
      ensures State() == EnqueueOne(old(State()), payload)
    {
      sendQueue := sendQueue[sendSequence := payload];
      sendSequence := Wrap(sendSequence + 1);
    }

    method EnqueuePackets(payloads: seq<Bytes>)
      requires MayEnqueue(State(), payloads)
      modifies this
      ensures State() == EnqueueAll(old(State()), payloads)
    {
      assert payloads[..0] == [];
      for i := 0 to |payloads|
        invariant State() == EnqueueAll(old(State()), payloads[..i])
      {
        assert payloads[..i + 1][..i] == payloads[..i];
        sendQueue := sendQueue[sendSequence := payloads[i]];
        sendSequence := Wrap(sendSequence + 1);
      }
      assert payloads[..|payloads|] == payloads;
    }

    /** ReliableSend::resend: every un-acked packet goes out once, behind its number. */
    method Resend() returns (sent: seq<Bytes>)
      ensures ToSet(sent) == Wires(sendQueue, sendQueue.Keys)
      ensures |sent| == |sendQueue|
    {
      sent := [];
      var todo := sendQueue.Keys;
      while todo != {}
        invariant todo <= sendQueue.Keys
        invariant ToSet(sent) == Wires(sendQueue, sendQueue.Keys - todo)
        invariant |sent| + |todo| == |sendQueue|
        decreases todo
      {
        var k :| k in todo;
        ToSetSnoc(sent, Wire(k, sendQueue[k]));
        WiresAdd(sendQueue, sendQueue.Keys - todo, k);
        sent := sent + [Wire(k, sendQueue[k])];
        assert sendQueue.Keys - (todo - {k}) == sendQueue.Keys - todo + {k};
        todo := todo - {k};
      }
    }

    /** ReliableSend::ackList. Unknown and repeated acks change nothing. */
    method AckList(acks: seq<U32>)
      modifies this`sendQueue
      ensures State() == Acked(old(State()), acks)
    {
      for i := 0 to |acks|
        invariant sendQueue == old(sendQueue) - ToSet(acks[..i])
      {
        sendQueue := sendQueue - {acks[i]};
        assert acks[..i + 1] == acks[..i] + [acks[i]];
        ToSetSnoc(acks[..i], acks[i]);
      }
      assert acks[..|acks|] == acks;
    }
  }

  // ---- Numbering ----

  /** A vector of packets gets consecutive numbers, in order, and nothing else changes. */
  lemma {:induction false} EnqueueAllNumbers(st: SendState, payloads: seq<Bytes>)
    requires |payloads| < CYCLE
    ensures Numbered(st, payloads, |payloads|, EnqueueAll(st, payloads))
  {
    if payloads == [] {
      assert KeyRange(st.sendSeq, 0) == {};
    } else {
      var n := |payloads| - 1;
      EnqueueAllNumbers(st, payloads[..n]);
      NumberOne(st, payloads, n, EnqueueAll(st, payloads[..n]));
    }
  }

  /** r is st with the first n payloads enqueued under consecutive numbers. */
  ghost predicate Numbered(st: SendState, payloads: seq<Bytes>, n: nat, r: SendState)
    requires n <= |payloads|
  {
    && r.sendSeq == KeyAt(st.sendSeq, n)
    && r.queue.Keys == st.queue.Keys + KeyRange(st.sendSeq, n)
    && (forall i :: 0 <= i < n ==> KeyAt(st.sendSeq, i) in r.queue && r.queue[KeyAt(st.sendSeq, i)] == payloads[i])
    && (forall k :: k in st.queue && k !in KeyRange(st.sendSeq, n) ==> r.queue[k] == st.queue[k])
  }

  lemma NumberOne(st: SendState, payloads: seq<Bytes>, n: nat, r: SendState)
    requires n < |payloads| < CYCLE && Numbered(st, payloads[..n], n, r)
    ensures Numbered(st, payloads, n + 1, EnqueueOne(r, payloads[n]))
  {
    KeyRangeSnoc(st.sendSeq, n);
    WrapAdd(st.sendSeq + n, 1);
    forall i | 0 <= i < n
      ensures KeyAt(st.sendSeq, i) != KeyAt(st.sendSeq, n)
    {
      KeysDistinct(st.sendSeq, i, n);
    }
  }
}

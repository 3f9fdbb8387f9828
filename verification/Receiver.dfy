/** ReliableRecv: the window filter, the two maps of held packets and fragments, and the
    in-order drain that a queued job performs. */
module Receiver {
  import opened Words
  import opened Packets
  import opened Reassembly

  /** How `receive` reads the data id. The source reads one id byte from every datagram; the
      sender writes one only into FIRST fragments. `OnFirstOnly` is the receive that matches the
      sender. */
  datatype IdMode = OnEveryFragment | OnFirstOnly

  datatype Entry = Entry(pack: RecvPacket, numFragments: U32)

  datatype RecvState = RecvState(recvSeq: U32, packets: map<U32, Entry>, fragments: Fragments)

  const INITIAL := RecvState(0, map[], map[])

  /** Outcome of `receive`: `SerializationError` is the path on which the original throws. */
  datatype ReceiveResult = SerializationError | Received(st: RecvState, jobAdded: bool)

  datatype DrainResult = DrainResult(st: RecvState, handled: seq<RecvPacket>)

  // ---- Specification ----

  /** The packet a datagram's tail (everything after the flags) is turned into. */
  function Unpack(mode: IdMode, flags: Byte, tail: Bytes): Option<RecvPacket> {
    if mode == OnFirstOnly && !HasBit(flags, FirstBit) then Some(RecvPacket(0, tail, flags))
    else if tail == [] then None
    else Some(RecvPacket(tail[0], tail[1..], flags))
  }

  /** `try_emplace`: an existing entry is kept. */
  function TryEmplace<K, V>(m: map<K, V>, k: K, v: V): map<K, V> {
    if k in m then m else m[k := v]
  }

  function ReceiveFragment(st: RecvState, seqNr: U32, pack: RecvPacket): RecvState {
    var held := st.fragments[seqNr := pack];
    match TryReassemble(held, seqNr)
    case None => st.(fragments := held)
    case Some(r) =>
      st.(fragments := r.rest,
          packets := TryEmplace(st.packets, r.begin, Entry(r.pack, Wrap(1 + Wrap(r.end - r.begin)))))
  }

  function ReceiveStep(mode: IdMode, st: RecvState, seqNr: U32, flags: Byte, tail: Bytes): ReceiveResult {
    if !IsSeqNewer(seqNr, st.recvSeq) then Received(st, false)
    else match Unpack(mode, flags, tail)
      case None => SerializationError
      case Some(pack) =>
        if HasBit(flags, FirstBit) && HasBit(flags, LastBit) then
          Received(st.(packets := TryEmplace(st.packets, seqNr, Entry(pack, 1))), true)
        else if seqNr in st.fragments then Received(st, false)
        else Received(ReceiveFragment(st, seqNr, pack), true)
  }

  /** proceedRecvQueue: hand over packets as long as the expected one is there. */
  function Drain(st: RecvState): DrainResult
    decreases |st.packets|
  {
    if st.recvSeq !in st.packets then DrainResult(st, [])
    else
      var entry := st.packets[st.recvSeq];
      assert (st.packets - {st.recvSeq}).Keys == st.packets.Keys - {st.recvSeq};
      var rest := Drain(RecvState(Wrap(st.recvSeq + entry.numFragments), st.packets - {st.recvSeq}, st.fragments));
      rest.(handled := [entry.pack] + rest.handled)
  }

  /** The walks from a new fragment end as long as some number is absent besides its own. */
  ghost predicate WalksEnd(f: Fragments, seqNr: U32) {
    exists k: U32 :: k !in f && k != seqNr
  }

  /** Whatever arrives, receive replaces nothing: a packet that is held stays, and a fragment that is
      held stays unless its message is complete. */
  lemma NeverReplaces(mode: IdMode, st: RecvState, seqNr: U32, flags: Byte, tail: Bytes)
    ensures var r := ReceiveStep(mode, st, seqNr, flags, tail);
            r.Received? ==>
              && r.st.recvSeq == st.recvSeq
              && (forall k :: k in st.packets ==> k in r.st.packets && r.st.packets[k] == st.packets[k])
              && (forall k :: k in st.fragments && k in r.st.fragments ==> r.st.fragments[k] == st.fragments[k])
              && (r.st != st ==> r.jobAdded)
  {
  }

  // ---- The component ----

  class ReliableRecv {
    const mode: IdMode
    var recvSequence: U32
    var orderedPackets: map<U32, Entry>
    var orderedFragments: Fragments
    var jobs: nat                    // proceedRecvQueue jobs handed to the job system
    var handled: seq<RecvPacket>     // packets given to handlePacket

    ghost function State(): RecvState
      reads this
    {
      RecvState(recvSequence, orderedPackets, orderedFragments)
    }

    constructor (mode: IdMode)
      ensures this.mode == mode && State() == INITIAL && jobs == 0 && handled == []
    {
      this.mode := mode;
      recvSequence, orderedPackets, orderedFragments := 0, map[], map[];
      jobs, handled := 0, [];
    }

    /** ReliableRecv::receive. `ok` is false where the original throws. */
    method Receive(seqNr: U32, flags: Byte, tail: Bytes) returns (ok: bool)
      requires WalksEnd(orderedFragments, seqNr)
      modifies this
      ensures handled == old(handled)
      ensures var r := ReceiveStep(mode, old(State()), seqNr, flags, tail);
              && ok == r.Received?
              && State() == (if ok then r.st else old(State()))
              && jobs == old(jobs) + (if ok && r.jobAdded then 1 else 0)
    {
      ok := true;
      if !IsSeqNewer(seqNr, recvSequence) {
        return;
      }
      var unpacked := Unpack(mode, flags, tail);
      if unpacked == None {
        return false;
      }
      var pack := unpacked.value;
      if HasBit(flags, FirstBit) && HasBit(flags, LastBit) {
        if seqNr !in orderedPackets {
          orderedPackets := orderedPackets[seqNr := Entry(pack, 1)];
        }
      } else {
        if seqNr in orderedFragments {
          return;
        }
        TakeFragment(seqNr, pack);
      }
      jobs := jobs + 1;
    }

    /** The branch of receive for a fragment that is not held yet. */
    method TakeFragment(seqNr: U32, pack: RecvPacket)
      requires WalksEnd(orderedFragments, seqNr)
      modifies this`orderedFragments, this`orderedPackets
      ensures State() == ReceiveFragment(old(State()), seqNr, pack)
    {
      ghost var absent: U32 :| absent !in orderedFragments && absent != seqNr;
      orderedFragments := orderedFragments[seqNr := pack];
      assert absent !in orderedFragments;
      var done: bool, finalPack: RecvPacket, seqBegin: U32, seqEnd: U32, rest: Fragments :=
        TryReassembleBigPacket(orderedFragments, seqNr);
      if done {
        orderedFragments := rest;
        if seqBegin !in orderedPackets {
          orderedPackets := orderedPackets[seqBegin := Entry(finalPack, Wrap(1 + Wrap(seqEnd - seqBegin)))];
        }
      }
    }

    /** ReliableRecv::proceedRecvQueue, run by one queued job. */
    method ProceedRecvQueue()
      requires jobs > 0
      modifies this
      ensures jobs == old(jobs) - 1
      ensures State() == Drain(old(State())).st
      ensures handled == old(handled) + Drain(old(State())).handled
    {
      jobs := jobs - 1;
      while recvSequence in orderedPackets
        invariant jobs == old(jobs) - 1
        invariant Drain(State()).st == Drain(old(State())).st
        invariant handled + Drain(State()).handled == old(handled) + Drain(old(State())).handled
        decreases |orderedPackets|
      {
        var entry := orderedPackets[recvSequence];
        ghost var rest := orderedPackets - {recvSequence};
        assert rest.Keys == orderedPackets.Keys - {recvSequence};
        assert handled + ([entry.pack] + Drain(RecvState(Wrap(recvSequence + entry.numFragments), rest, orderedFragments)).handled)
            == handled + [entry.pack] + Drain(RecvState(Wrap(recvSequence + entry.numFragments), rest, orderedFragments)).handled;
        handled := handled + [entry.pack];
        orderedPackets := orderedPackets - {recvSequence};
        recvSequence := Wrap(recvSequence + entry.numFragments);
      }
    }
  }
}

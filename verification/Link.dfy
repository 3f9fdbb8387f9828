/** Link::receive: header decoding, the ack that precedes delivery, and dispatch by stream
    type and channel. */
module Link {
  import opened Words
  import opened Chunking
  import opened Packets
  import opened Reassembly
  import opened Receiver
  import Sender
  import Acks

  datatype Parsed =
    | ReliableData(channel: Byte, seqNr: U32, flags: Byte, tail: Bytes)
    | AckData(channel: Byte, acks: seq<U32>)
    | OtherStream
    | Malformed

  function ParseDatagram(b: Bytes): Parsed {
    if |b| < MIN_HDR_SIZE then Malformed
    else if b[4] == RELIABLE_SEND then ReliableData(ChannelOf(b[5]), FromBE32(b[..4]), b[5], b[6..])
    else if b[4] == RELIABLE_ACK_SEND then
      match Acks.DecodeAcks(b[6..])
      case None => Malformed
      case Some(acks) => AckData(ChannelOf(b[5]), acks)
    else OtherStream
  }

  /** One end of a link, restricted to one channel: the components ReliableSend,
      ReliableAckSend and ReliableRecv, the proceedRecvQueue jobs outstanding, and the packets
      given to handlePacket. */
  datatype Endpoint = Endpoint(
    send: Sender.SendState, ackList: seq<U32>, recv: RecvState, jobs: nat, handled: seq<RecvPacket>)

  const FRESH := Endpoint(Sender.INITIAL, [], Receiver.INITIAL, 0, [])

  /** ReliableAckSend::addAck, the first locked section of a data datagram ... */
  function NoteAck(ep: Endpoint, seqNr: U32): Endpoint {
    ep.(ackList := ep.ackList + [seqNr])
  }

  /** ... and ReliableRecv::receive, the second. Other threads may act in between. */
  function TakeData(mode: IdMode, ep: Endpoint, seqNr: U32, flags: Byte, tail: Bytes): Endpoint {
    match ReceiveStep(mode, ep.recv, seqNr, flags, tail)
    case SerializationError => ep
    case Received(st, jobAdded) => ep.(recv := st, jobs := ep.jobs + (if jobAdded then 1 else 0))
  }

  function OnAcks(ep: Endpoint, acks: seq<U32>): Endpoint {
    ep.(send := Sender.Acked(ep.send, acks))
  }

  /** What Link::receive does up to and including addAck, to the components of one channel. */
  function ReceiveBegins(channel: Byte, ep: Endpoint, b: Bytes): Endpoint {
    match ParseDatagram(b)
    case ReliableData(c, seqNr, _, _) => if c == channel then NoteAck(ep, seqNr) else ep
    case _ => ep
  }

  /** What it does after that. */
  function ReceiveEnds(mode: IdMode, channel: Byte, ep: Endpoint, b: Bytes): Endpoint {
    match ParseDatagram(b)
    case ReliableData(c, seqNr, flags, tail) => if c == channel then TakeData(mode, ep, seqNr, flags, tail) else ep
    case AckData(c, acks) => if c == channel then OnAcks(ep, acks) else ep
    case _ => ep
  }

  /** proceedRecvQueue as run by one job. */
  function RunJob(ep: Endpoint): Endpoint
    requires ep.jobs > 0
  {
    var r := Drain(ep.recv);
    ep.(recv := r.st, jobs := ep.jobs - 1, handled := ep.handled + r.handled)
  }

  class Link {
    const mode: IdMode
    const sends: seq<Sender.ReliableSend>
    const ackSends: seq<Acks.ReliableAckSend>
    const recvs: seq<ReliableRecv>

    ghost predicate Valid() {
      && |sends| == |ackSends| == |recvs| == 8
      && (forall c, d :: 0 <= c < d < 8 ==>
            sends[c] != sends[d] && ackSends[c] != ackSends[d] && recvs[c] != recvs[d])
      && (forall c :: 0 <= c < 8 ==> recvs[c].mode == mode && ackSends[c].channel == c)
    }

    /** The components of one channel. */
    ghost function View(c: Byte): Endpoint
      requires Valid() && c < 8
      reads sends[c], ackSends[c], recvs[c]
    {
      Endpoint(sends[c].State(), ackSends[c].receivedPackets, recvs[c].State(), recvs[c].jobs, recvs[c].handled)
    }

    constructor (mode: IdMode)
      ensures Valid() && this.mode == mode
      ensures forall c :: 0 <= c < 8 ==> View(c) == FRESH
    {
      var ss: seq<Sender.ReliableSend>, ks: seq<Acks.ReliableAckSend>, rs: seq<ReliableRecv> := [], [], [];
      for i := 0 to 8
        invariant |ss| == |ks| == |rs| == i
        invariant forall c :: 0 <= c < i ==> fresh(ss[c]) && fresh(ks[c]) && fresh(rs[c])
        invariant forall c, d :: 0 <= c < d < i ==> ss[c] != ss[d] && ks[c] != ks[d] && rs[c] != rs[d]
        invariant forall c :: 0 <= c < i ==> rs[c].mode == mode && ks[c].channel == c && ks[c].receivedPackets == []
        invariant forall c :: 0 <= c < i ==>
                    ss[c].State() == Sender.INITIAL && rs[c].State() == Receiver.INITIAL && rs[c].jobs == 0 && rs[c].handled == []
      {
        var sender := new Sender.ReliableSend();
        var acks := new Acks.ReliableAckSend(i);
        var receiver := new ReliableRecv(mode);
        ss, ks, rs := ss + [sender], ks + [acks], rs + [receiver];
      }
      this.mode, sends, ackSends, recvs := mode, ss, ks, rs;
    }

    /** Link::receive, uninterrupted. At most the channel that the datagram names changes: data touches
        its receiver and its ack list, acks its sender, and anything else nothing. */
    method Receive(b: Bytes)
      requires Valid()
      requires forall c, n: U32 :: 0 <= c < 8 ==> WalksEnd(recvs[c].orderedFragments, n)
      modifies sends, ackSends, recvs
      ensures forall c :: 0 <= c < 8 ==>
                View(c) == ReceiveEnds(mode, c, ReceiveBegins(c, old(View(c)), b), b)
      ensures forall c :: 0 <= c < 8 && !Names(b, c) ==> View(c) == old(View(c))
      ensures forall c :: 0 <= c < 8 && Names(b, c) && b[4] == RELIABLE_SEND ==>
                View(c).send == old(View(c)).send && View(c).ackList == old(View(c)).ackList + [FromBE32(b[..4])]
      ensures forall c :: 0 <= c < 8 && Names(b, c) && b[4] == RELIABLE_SEND && |b| == MIN_HDR_SIZE && mode == OnEveryFragment ==>
                View(c) == old(View(c)).(ackList := View(c).ackList)   // no id to read: acked all the same
      ensures forall c :: 0 <= c < 8 && Names(b, c) && b[4] != RELIABLE_SEND ==>
                View(c) == old(View(c)).(send := View(c).send)
      ensures forall c, k :: 0 <= c < 8 && Names(b, c) && b[4] == RELIABLE_ACK_SEND ==>
                (k in View(c).send.queue <==> k in old(View(c)).send.queue && !Acks.Lists(b[6..], k))
    {
      if |b| < MIN_HDR_SIZE {
        return;
      }
      var seqNr: U32, compType, flags: Byte := FromBE32(b[..4]), b[4], b[5];
      var channel := ChannelOf(flags);
      if compType == RELIABLE_SEND {
        ReceiveData(channel, seqNr, flags, b[6..]);
      } else if compType == RELIABLE_ACK_SEND {
        ReceiveAcks(channel, b[6..]);
      }
    }

    /** An ack datagram: the sender of the channel, if the list can be read. */
    method ReceiveAcks(channel: Byte, tail: Bytes)
      requires Valid() && channel < 8
      modifies sends[channel]
      ensures View(channel) == match Acks.DecodeAcks(tail)
                               case None => old(View(channel))
                               case Some(acks) => OnAcks(old(View(channel)), acks)
      ensures forall k :: k in View(channel).send.queue <==> k in old(View(channel)).send.queue && !Acks.Lists(tail, k)
    {
      var acks := Acks.ReadAcks(tail);
      Acks.DecodesWholeNumbers(tail);
      Acks.ListsExactly(tail);
      if acks.Some? {
        sends[channel].AckList(acks.value);
      }
    }

    /** A data datagram: the ack first, then the packet. */
    method ReceiveData(channel: Byte, seqNr: U32, flags: Byte, tail: Bytes)
      requires Valid() && channel < 8 && WalksEnd(recvs[channel].orderedFragments, seqNr)
      modifies ackSends[channel], recvs[channel]
      ensures View(channel) == TakeData(mode, NoteAck(old(View(channel)), seqNr), seqNr, flags, tail)
    {
      ackSends[channel].AddAck(seqNr);
      var ok := recvs[channel].Receive(seqNr, flags, tail);
    }
  }

  // ---- Whom a datagram concerns ----

  /** The datagram has a header of a stream modelled here, and names the channel. */
  predicate Names(b: Bytes, c: Byte) {
    |b| >= MIN_HDR_SIZE && (b[4] == RELIABLE_SEND || b[4] == RELIABLE_ACK_SEND) && b[5] % 8 == c
  }

  /** A channel that a datagram does not name stays as it is. */
  lemma OtherChannelsStay(mode: IdMode, c: Byte, ep: Endpoint, b: Bytes)
    requires !Names(b, c)
    ensures ReceiveBegins(c, ep, b) == ep && ReceiveEnds(mode, c, ep, b) == ep
  {
  }

  /** The packets of one channel leave the others alone ... */
  lemma OtherChannelsOfData(mode: IdMode, c: Byte, ep: Endpoint, seqNr: U32, payload: Bytes)
    requires |payload| >= 2 && c != ChannelOf(payload[1])
    ensures ReceiveBegins(c, ep, Sender.Wire(seqNr, payload)) == ep
    ensures ReceiveEnds(mode, c, ep, Sender.Wire(seqNr, payload)) == ep
  {
    assert Sender.Wire(seqNr, payload)[5] == payload[1];
    OtherChannelsStay(mode, c, ep, Sender.Wire(seqNr, payload));
  }

  /** ... and so do its acks. */
  lemma OtherChannelsOfAcks(mode: IdMode, c: Byte, ep: Endpoint, channel: Byte, acks: seq<U32>)
    requires channel <= 7 && c != channel
    ensures ReceiveBegins(c, ep, Acks.AckDatagram(channel, acks)) == ep
    ensures ReceiveEnds(mode, c, ep, Acks.AckDatagram(channel, acks)) == ep
  {
    FlagsDecode(channel, false, true, true, true);
    assert Acks.AckDatagram(channel, acks)[5] == Acks.AckHeader(channel)[5];
    OtherChannelsStay(mode, c, ep, Acks.AckDatagram(channel, acks));
  }

  // ---- What the two kinds of datagram parse to ----

  lemma ParseData(seqNr: U32, payload: Bytes)
    requires |payload| >= 2 && payload[0] == RELIABLE_SEND
    ensures ParseDatagram(Sender.Wire(seqNr, payload))
         == ReliableData(ChannelOf(payload[1]), seqNr, payload[1], payload[2..])
  {
    var b := Sender.Wire(seqNr, payload);
    assert b[..4] == BE32(seqNr) && b[6..] == payload[2..];
    BERoundTrip32(seqNr);
  }

  lemma ParseAcks(channel: Byte, acks: seq<U32>)
    requires channel <= 7
    ensures ParseDatagram(Acks.AckDatagram(channel, acks)) == AckData(channel, acks)
    ensures |Acks.AckDatagram(channel, acks)| == MIN_HDR_SIZE + 4 * |acks|
  {
    var b := Acks.AckDatagram(channel, acks);
    assert b[6..] == Acks.EncodeAcks(acks);
    Acks.AcksRoundTrip(acks);
    FlagsDecode(channel, false, true, true, true);
  }

  function AcksIn(p: Parsed): seq<U32> {
    if p.AckData? then p.acks else []
  }

  /** The number 0 in front and the system bit set. */
  predicate SystemAcks(b: Bytes) {
    |b| >= MIN_HDR_SIZE && b[..4] == [0, 0, 0, 0] && HasBit(b[5], SystemBit)
  }

  lemma AcksAreSystem(channel: Byte, acks: seq<U32>)
    requires channel <= 7
    ensures SystemAcks(Acks.AckDatagram(channel, acks))
  {
    var b := Acks.AckDatagram(channel, acks);
    assert b[..4] == BE32(0) == [0, 0, 0, 0];
    assert b[5] == Acks.AckHeader(channel)[5];
    FlagsDecode(channel, false, true, true, true);
  }

  /** Ack batching: decoding the datagrams of one resend in order gives back exactly the list,
      on the same channel and marked as system traffic; none is empty, each is shorter than mtu + 4
      bytes, and all but the last have the mtu. */
  lemma AckBatching(channel: Byte, acks: seq<U32>, mtu: nat)
    requires channel <= 7
    ensures var ds := Acks.AckDatagrams(channel, acks, mtu);
            && Flatten(Map(d => AcksIn(ParseDatagram(d)), ds)) == acks
            && (forall i :: 0 <= i < |ds| ==>
                  && ParseDatagram(ds[i]).AckData? && ParseDatagram(ds[i]).channel == channel
                  && ParseDatagram(ds[i]).acks != []
                  && SystemAcks(ds[i])
                  && (mtu > MIN_HDR_SIZE ==> |ds[i]| < mtu + 4)
                  && (i < |ds| - 1 ==> |ds[i]| >= mtu))
  {
    var per := Acks.AcksPerDatagram(mtu);
    var batches := Chunks(acks, per);
    var ds := Acks.AckDatagrams(channel, acks, mtu);
    ChunksConserve(acks, per);
    ChunksSizes(acks, per);
    forall i | 0 <= i < |ds|
      ensures ParseDatagram(ds[i]) == AckData(channel, batches[i]) && |ds[i]| == MIN_HDR_SIZE + 4 * |batches[i]|
    {
      ParseAcks(channel, batches[i]);
    }
    forall i | 0 <= i < |ds|
      ensures SystemAcks(ds[i])
    {
      AcksAreSystem(channel, batches[i]);
    }
    assert Map(d => AcksIn(ParseDatagram(d)), ds) == batches;
  }
}

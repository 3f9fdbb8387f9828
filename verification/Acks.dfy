/** ReliableAckSend and ReliableAckRecv: acks are collected and sent in batches. */
module Acks {
  import opened Words
  import opened Chunking
  import opened Packets

  const INVALID_BYTE: Byte := 0xFF

  /** PacketHelper::beginUnfragmented (the overload that writes a sequence number). */
  function BeginUnfragmented(seqNr: U32, compType: Byte, dataId: Byte, channel: Byte, relay: bool, sysBit: bool): Bytes
    requires channel <= 7
  {
    BE32(seqNr) + [compType, MakeChannelAndFlags(channel, relay, sysBit, true, true)]
    + (if dataId != INVALID_BYTE then [dataId] else [])
  }

  function AckHeader(channel: Byte): (h: Bytes)
    requires channel <= 7
    ensures |h| == MIN_HDR_SIZE
  {
    BeginUnfragmented(0, RELIABLE_ACK_SEND, INVALID_BYTE, channel, false, true)
  }

  function EncodeAcks(acks: seq<U32>): Bytes {
    if acks == [] then [] else BE32(acks[0]) + EncodeAcks(acks[1..])
  }

  /** ReliableAckRecv::receive: read numbers until the read position meets the write position;
      `None` where the original throws. */
  function DecodeAcks(b: Bytes): Option<seq<U32>> {
    if b == [] then Some([])
    else if |b| < 4 then None
    else match DecodeAcks(b[4..])
      case None => None
      case Some(rest) => Some([FromBE32(b[..4])] + rest)
  }

  function AckDatagram(channel: Byte, acks: seq<U32>): Bytes
    requires channel <= 7
  {
    AckHeader(channel) + EncodeAcks(acks)
  }

  /** How many acks fit before the datagram reaches the mtu. */
  function AcksPerDatagram(mtu: nat): (n: nat)
    ensures n >= 1
    ensures MIN_HDR_SIZE + 4 * n >= mtu
    ensures n > 1 ==> MIN_HDR_SIZE + 4 * (n - 1) < mtu
  {
    if mtu <= MIN_HDR_SIZE + 4 then 1 else (mtu - MIN_HDR_SIZE + 3) / 4
  }

  function AckDatagramsOf(channel: Byte, batches: seq<seq<U32>>): seq<Bytes>
    requires channel <= 7
  {
    seq(|batches|, i requires 0 <= i < |batches| => AckDatagram(channel, batches[i]))
  }

  /** The datagrams of one ReliableAckSend::resend. */
  function AckDatagrams(channel: Byte, acks: seq<U32>, mtu: nat): seq<Bytes>
    requires channel <= 7
  {
    AckDatagramsOf(channel, Chunks(acks, AcksPerDatagram(mtu)))
  }

  // ---- Encoding ----

  lemma {:induction false} EncodeAcksSnoc(acks: seq<U32>, ack: U32)
    ensures EncodeAcks(acks + [ack]) == EncodeAcks(acks) + BE32(ack)
  {
    if acks == [] {
      assert [ack][1..] == [];
    } else {
      assert (acks + [ack])[1..] == acks[1..] + [ack];
      EncodeAcksSnoc(acks[1..], ack);
    }
  }

  lemma {:induction false} AcksRoundTrip(acks: seq<U32>)
    ensures DecodeAcks(EncodeAcks(acks)) == Some(acks)
    ensures |EncodeAcks(acks)| == 4 * |acks|
  {
    if acks != [] {
      AcksRoundTrip(acks[1..]);
      BERoundTrip32(acks[0]);
      var b := EncodeAcks(acks);
      assert b[..4] == BE32(acks[0]) && b[4..] == EncodeAcks(acks[1..]);
      assert acks == [acks[0]] + acks[1..];
    }
  }

  /** Exactly the bodies made of whole numbers can be read, and they are read number by number. */
  lemma {:induction false} DecodesWholeNumbers(b: Bytes)
    ensures DecodeAcks(b).Some? <==> |b| % 4 == 0
    ensures DecodeAcks(b).Some? ==>
              var acks := DecodeAcks(b).value;
              |b| == 4 * |acks| && forall i: nat :: i < |acks| ==> NumberAt(b, i) == Some(acks[i])
  {
    if |b| >= 4 {
      DecodesWholeNumbers(b[4..]);
      if DecodeAcks(b[4..]).Some? {
        var acks := DecodeAcks(b).value;
        forall i: nat | i < |acks|
          ensures NumberAt(b, i) == Some(acks[i])
        {
          if i > 0 {
            NumberAfter(b, i - 1);
          }
        }
      }
    }
  }

  /** The i-th number in the body of an ack datagram. */
  function NumberAt(b: Bytes, i: nat): Option<U32> {
    if 4 * i + 4 <= |b| then Some(FromBE32(b[4 * i..4 * i + 4])) else None
  }

  lemma NumberAfter(b: Bytes, i: nat)
    requires |b| >= 4
    ensures NumberAt(b, i + 1) == NumberAt(b[4..], i)
  {
    if 4 * i + 8 <= |b| {
      assert b[4..][4 * i..4 * i + 4] == b[4 * (i + 1)..4 * (i + 1) + 4];
    }
  }

  /** The body consists of whole numbers, and this is one of them. */
  ghost predicate Lists(b: Bytes, k: U32) {
    |b| % 4 == 0 && exists i: nat :: NumberAt(b, i) == Some(k)
  }

  lemma ListsExactly(b: Bytes)
    ensures forall k :: Lists(b, k) <==> DecodeAcks(b).Some? && k in DecodeAcks(b).value
  {
    DecodesWholeNumbers(b);
    forall k | DecodeAcks(b).Some? && k in DecodeAcks(b).value
      ensures Lists(b, k)
    {
      var acks := DecodeAcks(b).value;
      var i: nat :| i < |acks| && acks[i] == k;
      assert NumberAt(b, i) == Some(k);
    }
  }

  lemma AckDatagramSnoc(channel: Byte, acks: seq<U32>, ack: U32)
    requires channel <= 7
    ensures AckDatagram(channel, acks + [ack]) == AckDatagram(channel, acks) + BE32(ack)
    ensures |AckDatagram(channel, acks + [ack])| == MIN_HDR_SIZE + 4 * (|acks| + 1)
  {
    EncodeAcksSnoc(acks, ack);
    AcksRoundTrip(acks + [ack]);
  }

  lemma AckDatagramsSnoc(channel: Byte, batches: seq<seq<U32>>, acks: seq<U32>)
    requires channel <= 7
    ensures AckDatagramsOf(channel, batches + [acks]) == AckDatagramsOf(channel, batches) + [AckDatagram(channel, acks)]
  {
  }

  /** A full first batch splits off. */
  lemma ChunksFull<T>(first: seq<T>, rest: seq<T>, n: nat)
    requires |first| == n > 0
    ensures Chunks(first + rest, n) == [first] + Chunks(rest, n)
  {
    if rest == [] {
      assert first + rest == first;
    } else {
      assert (first + rest)[..n] == first && (first + rest)[n..] == rest;
    }
  }

  // ---- The component ----

  class ReliableAckSend {
    const channel: Byte
    var receivedPackets: seq<U32>

    constructor (channel: Byte)
      ensures this.channel == channel && receivedPackets == []
    {
      this.channel := channel;
      receivedPackets := [];
    }

    method AddAck(ack: U32)
      modifies this
      ensures receivedPackets == old(receivedPackets) + [ack]
    {
      receivedPackets := receivedPackets + [ack];
    }

    /** ReliableAckSend::resend. */
    method Resend(mtu: nat) returns (sent: seq<Bytes>)
      requires channel <= 7
      modifies this
      ensures sent == AckDatagrams(channel, old(receivedPackets), mtu)
      ensures receivedPackets == []
    {
      var bs := AckHeader(channel);
      var hasPendingWrites := false;
      sent := [];
      ghost var per := AcksPerDatagram(mtu);
      ghost var batches: seq<seq<U32>>, cur: seq<U32> := [], [];
      for i := 0 to |receivedPackets|
        invariant receivedPackets == old(receivedPackets)
        invariant bs == AckDatagram(channel, cur) && |cur| < per
        invariant hasPendingWrites <==> cur != []
        invariant sent == AckDatagramsOf(channel, batches)
        invariant Batched(receivedPackets, i, batches, cur, per)
      {
        var ack := receivedPackets[i];
        AckDatagramSnoc(channel, cur, ack);
        BatchOne(receivedPackets, i, batches, cur, per);
        bs := bs + BE32(ack);
        cur := cur + [ack];
        hasPendingWrites := true;
        if |bs| >= mtu {
          AckDatagramsSnoc(channel, batches, cur);
          sent := sent + [bs];
          bs := AckHeader(channel);
          hasPendingWrites := false;
          batches, cur := batches + [cur], [];
        }
      }
      BatchLast(receivedPackets, batches, cur, per);
      if hasPendingWrites {
        AckDatagramsSnoc(channel, batches, cur);
        sent := sent + [bs];
      }
      receivedPackets := [];
    }
  }

  /** The first i acks are in `batches` (full ones) and `cur`. */
  ghost predicate Batched(acks: seq<U32>, i: nat, batches: seq<seq<U32>>, cur: seq<U32>, per: nat)
    requires i <= |acks|
  {
    per > 0 && Flatten(batches) + cur == acks[..i] && forall j :: 0 <= j < |batches| ==> |batches[j]| == per
  }

  lemma BatchOne(acks: seq<U32>, i: nat, batches: seq<seq<U32>>, cur: seq<U32>, per: nat)
    requires i < |acks| && Batched(acks, i, batches, cur, per)
    ensures Batched(acks, i + 1, batches, cur + [acks[i]], per)
    ensures |cur| + 1 == per ==> Batched(acks, i + 1, batches + [cur + [acks[i]]], [], per)
  {
    assert acks[..i + 1] == acks[..i] + [acks[i]];
    FlattenSnoc(batches, cur + [acks[i]]);
  }

  lemma BatchLast(acks: seq<U32>, batches: seq<seq<U32>>, cur: seq<U32>, per: nat)
    requires Batched(acks, |acks|, batches, cur, per) && |cur| < per
    ensures Chunks(acks, per) == if cur == [] then batches else batches + [cur]
  {
    assert acks[..|acks|] == acks;
    FullBatches(batches, cur, per);
  }

  lemma {:induction false} FullBatches<T>(batches: seq<seq<T>>, cur: seq<T>, per: nat)
    requires per > 0 && |cur| < per && forall j :: 0 <= j < |batches| ==> |batches[j]| == per
    ensures Chunks(Flatten(batches) + cur, per) == if cur == [] then batches else batches + [cur]
  {
    if batches == [] {
      assert Flatten(batches) + cur == cur;
    } else {
      FullBatches(batches[1..], cur, per);
      assert Flatten(batches) + cur == batches[0] + (Flatten(batches[1..]) + cur);
      ChunksFull(batches[0], Flatten(batches[1..]) + cur, per);
    }
  }

  /** ReliableAckRecv::receive up to the call of ackList. */
  method ReadAcks(b: Bytes) returns (r: Option<seq<U32>>)
    ensures r == DecodeAcks(b)
  {
    var read := 0;
    var seqs: seq<U32> := [];
    assert b[0..] == b;
    assert forall rest: seq<U32> :: seqs + rest == rest;
    while read != |b|
      invariant 0 <= read <= |b|
      invariant DecodeAcks(b) == match DecodeAcks(b[read..])
                                 case None => None
                                 case Some(rest) => Some(seqs + rest)
      decreases |b| - read
    {
      if read + 4 > |b| {
        return None;
      }
      assert b[read..][4..] == b[read + 4..] && b[read..][..4] == b[read..read + 4];
      ghost var before := seqs;
      seqs := seqs + [FromBE32(b[read..read + 4])];
      assert forall rest :: before + ([FromBE32(b[read..read + 4])] + rest) == seqs + rest;
      read := read + 4;
    }
    assert seqs + [] == seqs;
    return Some(seqs);
  }
}

/** The reliable stream of one link and channel as a step system over a network that loses,
    duplicates and reorders datagrams. Everything the code keeps lives in the two endpoints and
    in the bytes under way; the remaining fields record, for every datagram, ack and map entry,
    which fragment of which message it stands for. */
module Stream {
  import opened Words
  import opened Chunking
  import opened Packets
  import opened Reassembly
  import opened Receiver
  import opened Layout
  import opened StreamReceiver
  import opened Link
  import Sender
  import Acks

  /** mode: how the receiver reads ids; channel and mtu of the link. */
  datatype Config = Config(mode: IdMode, channel: Byte, mtu: nat)

  /** A message as `sendReliable` gets it. The relay flag is off. */
  datatype Message = Message(id: Byte, sysBit: bool, serializers: seq<Bytes>)

  datatype Datagram = Datagram(slot: Slot, bytes: Bytes)
  datatype AckDatagram = AckDatagram(slots: seq<Slot>, bytes: Bytes)

  datatype Sys = Sys(
    src: Endpoint,              // sending end: src.send is used
    dst: Endpoint,              // receiving end: dst.recv, dst.ackList, dst.jobs, dst.handled
    net: set<Datagram>,         // data datagrams ever sent; any of them may arrive, any number of times
    ackNet: set<AckDatagram>,   // ack datagrams ever sent
    ms: Messages,               // fragments of every message enqueued so far
    p: Progress,                // what the receiver has, in terms of messages
    unacked: set<Slot>,         // what the sender's queue holds
    acks: seq<Slot>,            // what the receiver's ack list stands for
    hand: multiset<Datagram>)   // data datagrams whose Link::receive has added the ack but not yet called receive

  datatype Step =
    | Enqueue(msg: Message)
    | Resend
    | AddAck(d: Datagram)       // a data datagram arrives: Link::receive up to addAck
    | Receive(d: Datagram)      // the same call goes on: ReliableRecv::receive
    | Job
    | SendAcks
    | DeliverAcks(a: AckDatagram)

  function HeaderOf(cfg: Config, msg: Message): Header {
    Header(RELIABLE_SEND, msg.id, cfg.channel, false, msg.sysBit)
  }

  function PacketsOf(cfg: Config, msg: Message): seq<Bytes>
    requires cfg.channel <= 7
  {
    NormalPacket(HeaderOf(cfg, msg), Flatten(msg.serializers), MAX_FRAGMENT_SIZE)
  }

  const INITIAL := Sys(FRESH, FRESH, {}, {}, [], NOTHING, {}, [], multiset{})

  // ---- Steps ----

  function NewSlots(m: nat, n: nat): set<Slot> {
    set i: nat | i < n :: Slot(m, i)
  }

  function ApplyEnqueue(cfg: Config, s: Sys, msg: Message): Sys
    requires cfg.channel <= 7
  {
    var ps := PacketsOf(cfg, msg);
    s.(src := s.src.(send := Sender.EnqueueAll(s.src.send, ps)),
       ms := s.ms + [ps],
       unacked := s.unacked + NewSlots(|s.ms|, |ps|))
  }

  /** The datagram `resend` makes of the queue entry for slot t. */
  function DatagramFor(s: Sys, t: Slot): Datagram
    requires IsSlot(s.ms, t) && KeyOf(s.ms, t) in s.src.send.queue
  {
    Datagram(t, Sender.Wire(KeyOf(s.ms, t), s.src.send.queue[KeyOf(s.ms, t)]))
  }

  function ApplyResend(s: Sys): Sys {
    s.(net := s.net + set t | t in s.unacked && IsSlot(s.ms, t) && KeyOf(s.ms, t) in s.src.send.queue :: DatagramFor(s, t))
  }

  function ApplyAddAck(cfg: Config, s: Sys, d: Datagram): Sys {
    s.(dst := ReceiveBegins(cfg.channel, s.dst, d.bytes),
       acks := s.acks + [d.slot],
       hand := s.hand + multiset{d})
  }

  function ApplyReceive(cfg: Config, s: Sys, d: Datagram): Sys
    requires IsSlot(s.ms, d.slot)
  {
    s.(dst := ReceiveEnds(cfg.mode, cfg.channel, s.dst, d.bytes),
       p := Arrive(s.ms, s.p, d.slot),
       hand := s.hand - multiset{d})
  }

  function ApplyJob(s: Sys): Sys
    requires s.dst.jobs > 0
  {
    s.(dst := RunJob(s.dst), p := Advance(s.p))
  }

  function ApplySendAcks(cfg: Config, s: Sys): Sys
    requires cfg.channel <= 7
  {
    var batches := Chunks(s.acks, Acks.AcksPerDatagram(cfg.mtu));
    var bytes := Acks.AckDatagrams(cfg.channel, s.dst.ackList, cfg.mtu);
    s.(ackNet := s.ackNet + set i | 0 <= i < |batches| && i < |bytes| :: AckDatagram(batches[i], bytes[i]),
       dst := s.dst.(ackList := []),
       acks := [])
  }

  function ApplyDeliverAcks(cfg: Config, s: Sys, a: AckDatagram): Sys {
    s.(src := ReceiveEnds(cfg.mode, cfg.channel, s.src, a.bytes),
       unacked := s.unacked - Sender.ToSet(a.slots))
  }

  /** When a step may happen. Besides the code's own assertions this holds the environment
      assumptions: the sender stays within the receiver's horizon, a data datagram is at most
      3 * 2^30 behind and less than 2^30 ahead of the expected number when it arrives and when it
      is received, and no ack arrives after its number was reused. Nothing makes a datagram
      arrive, and any steps may come between its AddAck and its Receive. */
  ghost predicate Enabled(cfg: Config, s: Sys, step: Step)
    requires cfg.channel <= 7
  {
    match step
    case Enqueue(msg) =>
      && Sender.MayEnqueue(s.src.send, PacketsOf(cfg, msg))
      && Horizon(s.ms + [PacketsOf(cfg, msg)], s.p)
    case Resend => true
    case AddAck(d) => d in s.net && InWindow(s.ms, s.p, d.slot)
    case Receive(d) => d in s.hand && InWindow(s.ms, s.p, d.slot)
    case Job => s.dst.jobs > 0
    case SendAcks => true
    case DeliverAcks(a) => a in s.ackNet && forall t :: t in a.slots ==> Live(s.ms, t)
  }

  ghost function Apply(cfg: Config, s: Sys, step: Step): Sys
    requires cfg.channel <= 7 && Enabled(cfg, s, step)
  {
    match step
    case Enqueue(msg) => ApplyEnqueue(cfg, s, msg)
    case Resend => ApplyResend(s)
    case AddAck(d) => ApplyAddAck(cfg, s, d)
    case Receive(d) => ApplyReceive(cfg, s, d)
    case Job => ApplyJob(s)
    case SendAcks => ApplySendAcks(cfg, s)
    case DeliverAcks(a) => ApplyDeliverAcks(cfg, s, a)
  }

  /** A run: any sequence of enabled steps. */
  ghost predicate Legal(cfg: Config, s: Sys, steps: seq<Step>)
    requires cfg.channel <= 7
    decreases |steps|
  {
    steps == [] || (Enabled(cfg, s, steps[0]) && Legal(cfg, Apply(cfg, s, steps[0]), steps[1..]))
  }

  ghost function Exec(cfg: Config, s: Sys, steps: seq<Step>): Sys
    requires cfg.channel <= 7 && Legal(cfg, s, steps)
    decreases |steps|
  {
    if steps == [] then s else Exec(cfg, Apply(cfg, s, steps[0]), steps[1..])
  }

  // ---- The invariant ----

  /** Every packet of the stream is well formed and on the channel. */
  ghost predicate StreamOk(cfg: Config, ms: Messages) {
    && Shaped(ms) && NoneEmpty(ms)
    && forall t :: IsSlot(ms, t) ==> |ms[t.msg][t.idx]| >= 2 && ChannelOf(ms[t.msg][t.idx][1]) == cfg.channel
  }

  /** A fragment the receiver holds, has reassembled, or has delivered. */
  predicate Safe(p: Progress, t: Slot) {
    t.msg < p.done || t in p.parts || t.msg in p.ready
  }

  /** The fragments of the datagrams in hand. */
  function InHand(hand: multiset<Datagram>): set<Slot> {
    set d | d in hand :: d.slot
  }

  /** A fragment the receiving end has not lost: safe, or still in hand. */
  predicate Kept(p: Progress, held: set<Slot>, t: Slot) {
    Safe(p, t) || t in held
  }

  /** The receiver matches its progress, has handed over exactly the first messages in order,
      keeps no complete message in pieces, and has a job pending whenever the next one is ready. */
  ghost predicate RecvOk(cfg: Config, ms: Messages, p: Progress, dst: Endpoint) {
    && NoneEmpty(ms)
    && Matches(cfg.mode, ms, p, dst.recv)
    && Horizon(ms, p)
    && dst.handled == Wholes(cfg.mode, ms, 0, p.done)
    && (dst.jobs == 0 ==> p.done !in p.ready)
    && (forall m :: 0 <= m < |ms| && |ms[m]| > 1 ==> !Complete(ms, p.parts, m))
  }

  /** The sender's queue holds exactly the un-acked fragments, each under its number. */
  ghost predicate SendOk(ms: Messages, unacked: set<Slot>, st: Sender.SendState) {
    && st.sendSeq == Wrap(Total(ms))
    && (forall t :: t in unacked ==> Queued(ms, st, t))
    && (forall k :: k in st.queue ==> exists t :: t in unacked && KeyOf(ms, t) == k)
  }

  ghost predicate Queued(ms: Messages, st: Sender.SendState, t: Slot) {
    Live(ms, t) && KeyOf(ms, t) in st.queue && st.queue[KeyOf(ms, t)] == ms[t.msg][t.idx]
  }

  ghost predicate NetOk(ms: Messages, net: set<Datagram>) {
    forall d :: d in net ==> IsSlot(ms, d.slot) && d.bytes == Sender.Wire(KeyOf(ms, d.slot), ms[d.slot.msg][d.slot.idx])
  }

  /** No fragment is lost: each is still queued, or kept at the receiving end. */
  ghost predicate Conserved(ms: Messages, unacked: set<Slot>, p: Progress, held: set<Slot>) {
    forall t :: IsSlot(ms, t) ==> t in unacked || Kept(p, held, t)
  }

  /** The numbers of a list of fragments. */
  function Keys(ms: Messages, ts: seq<Slot>): (ks: seq<U32>)
    ensures |ks| == |ts|
  {
    seq(|ts|, i requires 0 <= i < |ts| => if IsSlot(ms, ts[i]) then KeyOf(ms, ts[i]) else 0)
  }

  /** Only kept fragments are acked. */
  ghost predicate AckedOk(ms: Messages, p: Progress, held: set<Slot>, ts: seq<Slot>) {
    forall t :: t in ts ==> IsSlot(ms, t) && Kept(p, held, t)
  }

  ghost predicate AckNetOk(cfg: Config, ms: Messages, p: Progress, held: set<Slot>, ackNet: set<AckDatagram>)
    requires cfg.channel <= 7
  {
    forall a :: a in ackNet ==> AckedOk(ms, p, held, a.slots) && a.bytes == Acks.AckDatagram(cfg.channel, Keys(ms, a.slots))
  }

  ghost predicate Inv(cfg: Config, s: Sys) {
    && cfg.channel <= 7
    && StreamOk(cfg, s.ms)
    && RecvOk(cfg, s.ms, s.p, s.dst)
    && SendOk(s.ms, s.unacked, s.src.send)
    && NetOk(s.ms, s.net)
    && (forall d :: d in s.hand ==> d in s.net)
    && Conserved(s.ms, s.unacked, s.p, InHand(s.hand))
    && AckedOk(s.ms, s.p, InHand(s.hand), s.acks) && s.dst.ackList == Keys(s.ms, s.acks)
    && AckNetOk(cfg, s.ms, s.p, InHand(s.hand), s.ackNet)
  }

  lemma InitialInv(cfg: Config)
    requires cfg.channel <= 7
    ensures Inv(cfg, INITIAL)
  {
    assert Keys([], []) == [];
  }

  // ---- Enqueue ----

  lemma PacketsShaped(cfg: Config, msg: Message)
    requires cfg.channel <= 7
    ensures ShapedMessage(PacketsOf(cfg, msg), RELIABLE_SEND)
    ensures forall i :: 0 <= i < |PacketsOf(cfg, msg)| ==>
              |PacketsOf(cfg, msg)[i]| >= 2 && ChannelOf(PacketsOf(cfg, msg)[i][1]) == cfg.channel
  {
    var h, data := HeaderOf(cfg, msg), Flatten(msg.serializers);
    var room := MAX_FRAGMENT_SIZE - MIN_HDR_SIZE;
    BodiesConserve(data, room);
    FragmentsShape(h, Bodies(data, room), room);
    FragmentsOnChannel(h, Bodies(data, room));
  }

  /** New messages do not disturb the places of old ones. */
  lemma AppendKeeps(ms: Messages, x: seq<Bytes>, t: Slot)
    requires IsSlot(ms, t)
    ensures IsSlot(ms + [x], t) && KeyOf(ms + [x], t) == KeyOf(ms, t) && SeqOf(ms + [x], t) == SeqOf(ms, t)
    ensures (ms + [x])[t.msg][t.idx] == ms[t.msg][t.idx]
  {
    StartAppend(ms, x, t.msg);
  }

  lemma EnqueueStream(cfg: Config, ms: Messages, x: seq<Bytes>)
    requires StreamOk(cfg, ms) && ShapedMessage(x, RELIABLE_SEND)
    requires forall i :: 0 <= i < |x| ==> |x[i]| >= 2 && ChannelOf(x[i][1]) == cfg.channel
    ensures StreamOk(cfg, ms + [x])
  {
    var after := ms + [x];
    forall m | 0 <= m < |after|
      ensures ShapedMessage(after[m], RELIABLE_SEND) && after[m] != []
    {
    }
    forall t | IsSlot(after, t)
      ensures |after[t.msg][t.idx]| >= 2 && ChannelOf(after[t.msg][t.idx][1]) == cfg.channel
    {
      if t.msg < |ms| {
        assert IsSlot(ms, t);
      }
    }
  }

  lemma EnqueueParts(mode: IdMode, ms: Messages, x: seq<Bytes>, parts: set<Slot>, f: Fragments)
    requires PartsMatch(mode, ms, parts, f)
    requires forall t :: t in parts ==> Live(ms + [x], t)
    ensures PartsMatch(mode, ms + [x], parts, f)
  {
    forall t | t in parts
      ensures IsSlot(ms, t) && KeyOf(ms + [x], t) == KeyOf(ms, t)
    {
      AppendKeeps(ms, x, t);
    }
  }

  lemma EnqueueReady(mode: IdMode, ms: Messages, x: seq<Bytes>, done: nat, ready: set<nat>, packets: map<U32, Entry>)
    requires ReadyMatch(mode, ms, done, ready, packets)
    ensures ReadyMatch(mode, ms + [x], done, ready, packets)
  {
    StartAppend(ms, x, done);
    forall m | m in ready
      ensures MsgKey(ms + [x], m) == MsgKey(ms, m) && Waiting(ms + [x], done, m) && Stored(mode, ms + [x], packets, m)
    {
      assert Waiting(ms, done, m) && Stored(mode, ms, packets, m);
      StartAppend(ms, x, m);
    }
  }

  lemma {:induction false} EnqueueWholes(mode: IdMode, ms: Messages, x: seq<Bytes>, a: nat, b: nat)
    requires NoneEmpty(ms) && x != [] && a <= b <= |ms|
    ensures Wholes(mode, ms + [x], a, b) == Wholes(mode, ms, a, b)
    decreases b - a
  {
    if a < b {
      EnqueueWholes(mode, ms, x, a + 1, b);
    }
  }

  lemma EnqueueRecv(cfg: Config, ms: Messages, x: seq<Bytes>, p: Progress, dst: Endpoint)
    requires RecvOk(cfg, ms, p, dst) && x != [] && Horizon(ms + [x], p)
    ensures RecvOk(cfg, ms + [x], p, dst)
  {
    StartAppend(ms, x, p.done);
    EnqueueParts(cfg.mode, ms, x, p.parts, dst.recv.fragments);
    EnqueueReady(cfg.mode, ms, x, p.done, p.ready, dst.recv.packets);
    EnqueueWholes(cfg.mode, ms, x, 0, p.done);
    forall m | 0 <= m < |ms + [x]| && |(ms + [x])[m]| > 1
      ensures !Complete(ms + [x], p.parts, m)
    {
      if m == |ms| {
        assert Slot(m, 0) !in p.parts;
      } else {
        assert !Complete(ms, p.parts, m);
      }
    }
  }

  /** Numbers still queued are not reused, so what is queued stays live. */
  lemma EnqueueKeepsLive(ms: Messages, x: seq<Bytes>, unacked: set<Slot>, st: Sender.SendState, t: Slot)
    requires SendOk(ms, unacked, st) && Sender.MayEnqueue(st, x) && t in unacked
    ensures Live(ms + [x], t)
  {
    assert Queued(ms, st, t);
    AppendKeeps(ms, x, t);
    TotalAppend(ms, x);
    ReusedAfter(ms, st, t, SeqOf(ms, t) + CYCLE - Total(ms));
  }

  /** How many packets later the number of t is used again. */
  lemma ReusedAfter(ms: Messages, st: Sender.SendState, t: Slot, i: int)
    requires IsSlot(ms, t) && st.sendSeq == Wrap(Total(ms)) && i == SeqOf(ms, t) + CYCLE - Total(ms)
    ensures KeyAt(st.sendSeq, i) == KeyOf(ms, t)
  {
    WrapAdd(Total(ms), i);
    WrapShift(SeqOf(ms, t), 1);
  }

  lemma NewSlotKey(ms: Messages, x: seq<Bytes>, st: Sender.SendState, i: nat)
    requires st.sendSeq == Wrap(Total(ms)) && i < |x|
    ensures IsSlot(ms + [x], Slot(|ms|, i)) && KeyOf(ms + [x], Slot(|ms|, i)) == KeyAt(st.sendSeq, i)
  {
    StartAppend(ms, x, |ms|);
    WrapAdd(Total(ms), i);
  }

  lemma EnqueueOld(ms: Messages, x: seq<Bytes>, unacked: set<Slot>, st: Sender.SendState, after: Sender.SendState, t: Slot)
    requires SendOk(ms, unacked, st) && Sender.MayEnqueue(st, x) && t in unacked
    requires Sender.Numbered(st, x, |x|, after)
    ensures Queued(ms + [x], after, t) && KeyOf(ms + [x], t) == KeyOf(ms, t)
  {
    assert Queued(ms, st, t);
    EnqueueKeepsLive(ms, x, unacked, st, t);
    AppendKeeps(ms, x, t);
    NotInRange(st, x, KeyOf(ms, t));
  }

  lemma EnqueueNew(ms: Messages, x: seq<Bytes>, st: Sender.SendState, after: Sender.SendState, i: nat)
    requires st.sendSeq == Wrap(Total(ms)) && i < |x| < CYCLE
    requires Sender.Numbered(st, x, |x|, after)
    ensures Queued(ms + [x], after, Slot(|ms|, i)) && KeyOf(ms + [x], Slot(|ms|, i)) == KeyAt(st.sendSeq, i)
  {
    NewSlotKey(ms, x, st, i);
    TotalAppend(ms, x);
    StartAppend(ms, x, |ms|);
  }

  lemma EnqueueKey(ms: Messages, x: seq<Bytes>, unacked: set<Slot>, st: Sender.SendState, after: Sender.SendState, k: U32)
    returns (t: Slot)
    requires SendOk(ms, unacked, st) && Sender.MayEnqueue(st, x) && |x| < CYCLE
    requires Sender.Numbered(st, x, |x|, after) && k in after.queue
    ensures t in unacked + NewSlots(|ms|, |x|) && IsSlot(ms + [x], t) && KeyOf(ms + [x], t) == k
  {
    if k in st.queue {
      t :| t in unacked && KeyOf(ms, t) == k;
      EnqueueOld(ms, x, unacked, st, after, t);
    } else {
      var i :| 0 <= i < |x| && k == KeyAt(st.sendSeq, i);
      EnqueueNew(ms, x, st, after, i);
      t := Slot(|ms|, i);
    }
  }

  lemma EnqueueSend(ms: Messages, x: seq<Bytes>, unacked: set<Slot>, st: Sender.SendState, after: Sender.SendState)
    requires SendOk(ms, unacked, st) && Sender.MayEnqueue(st, x) && |x| < CYCLE
    requires Sender.Numbered(st, x, |x|, after)
    ensures SendOk(ms + [x], unacked + NewSlots(|ms|, |x|), after)
  {
    var all := unacked + NewSlots(|ms|, |x|);
    forall t | t in all
      ensures Queued(ms + [x], after, t)
    {
      if t in unacked {
        EnqueueOld(ms, x, unacked, st, after, t);
      } else {
        EnqueueNew(ms, x, st, after, t.idx);
      }
    }
    forall k | k in after.queue
      ensures exists t :: t in all && KeyOf(ms + [x], t) == k
    {
      var t := EnqueueKey(ms, x, unacked, st, after, k);
    }
    TotalAppend(ms, x);
    WrapAdd(Total(ms), |x|);
  }

  lemma NotInRange(st: Sender.SendState, x: seq<Bytes>, k: U32)
    requires Sender.MayEnqueue(st, x) && k in st.queue
    ensures k !in KeyRange(st.sendSeq, |x|)
  {
  }

  lemma KeysAppend(ms: Messages, x: seq<Bytes>, ts: seq<Slot>)
    requires forall t :: t in ts ==> IsSlot(ms, t)
    ensures Keys(ms + [x], ts) == Keys(ms, ts)
  {
    forall i | 0 <= i < |ts|
      ensures Keys(ms + [x], ts)[i] == Keys(ms, ts)[i]
    {
      assert ts[i] in ts;
      AppendKeeps(ms, x, ts[i]);
    }
  }

  lemma EnqueueNet(cfg: Config, ms: Messages, x: seq<Bytes>, p: Progress, held: set<Slot>,
                   net: set<Datagram>, ackNet: set<AckDatagram>)
    requires cfg.channel <= 7 && NetOk(ms, net) && AckNetOk(cfg, ms, p, held, ackNet)
    ensures NetOk(ms + [x], net) && AckNetOk(cfg, ms + [x], p, held, ackNet)
  {
    forall d | d in net
      ensures IsSlot(ms + [x], d.slot)
      ensures d.bytes == Sender.Wire(KeyOf(ms + [x], d.slot), (ms + [x])[d.slot.msg][d.slot.idx])
    {
      AppendKeeps(ms, x, d.slot);
    }
    forall a | a in ackNet
      ensures AckedOk(ms + [x], p, held, a.slots) && Keys(ms + [x], a.slots) == Keys(ms, a.slots)
    {
      assert AckedOk(ms, p, held, a.slots);
      KeysAppend(ms, x, a.slots);
    }
  }

  lemma EnqueueConserved(ms: Messages, x: seq<Bytes>, unacked: set<Slot>, p: Progress, held: set<Slot>)
    requires Conserved(ms, unacked, p, held)
    ensures Conserved(ms + [x], unacked + NewSlots(|ms|, |x|), p, held)
  {
    forall t | IsSlot(ms + [x], t)
      ensures t in unacked + NewSlots(|ms|, |x|) || Kept(p, held, t)
    {
      if t.msg < |ms| {
        assert IsSlot(ms, t);
      } else {
        assert t == Slot(|ms|, t.idx);
      }
    }
  }

  lemma EnqueueInv(cfg: Config, s: Sys, msg: Message)
    requires Inv(cfg, s) && Enabled(cfg, s, Enqueue(msg))
    ensures Inv(cfg, ApplyEnqueue(cfg, s, msg))
  {
    var x := PacketsOf(cfg, msg);
    PacketsShaped(cfg, msg);
    TotalAppend(s.ms, x);
    StartAppend(s.ms, x, s.p.done);
    StartMonotone(s.ms, s.p.done, |s.ms|);
    EnqueueStream(cfg, s.ms, x);
    EnqueueRecv(cfg, s.ms, x, s.p, s.dst);
    Sender.EnqueueAllNumbers(s.src.send, x);
    EnqueueSend(s.ms, x, s.unacked, s.src.send, Sender.EnqueueAll(s.src.send, x));
    EnqueueNet(cfg, s.ms, x, s.p, InHand(s.hand), s.net, s.ackNet);
    EnqueueConserved(s.ms, x, s.unacked, s.p, InHand(s.hand));
    KeysAppend(s.ms, x, s.acks);
  }

  // ---- Resend ----

  lemma ResendInv(cfg: Config, s: Sys)
    requires Inv(cfg, s)
    ensures Inv(cfg, ApplyResend(s))
  {
    forall d | d in ApplyResend(s).net
      ensures IsSlot(s.ms, d.slot) && d.bytes == Sender.Wire(KeyOf(s.ms, d.slot), s.ms[d.slot.msg][d.slot.idx])
    {
      if d !in s.net {
        assert Queued(s.ms, s.src.send, d.slot);
      }
    }
  }

  /** The bytes put on the wire are exactly those of ReliableSend::resend. */
  lemma ResendIsResend(cfg: Config, s: Sys)
    requires Inv(cfg, s)
    ensures forall t :: t in s.unacked ==>
              && Queued(s.ms, s.src.send, t)
              && DatagramFor(s, t) in ApplyResend(s).net
              && DatagramFor(s, t).bytes in Sender.Wires(s.src.send.queue, s.src.send.queue.Keys)
    ensures forall b :: b in Sender.Wires(s.src.send.queue, s.src.send.queue.Keys) ==>
              exists t :: t in s.unacked && Queued(s.ms, s.src.send, t) && DatagramFor(s, t).bytes == b
  {
    forall b | b in Sender.Wires(s.src.send.queue, s.src.send.queue.Keys)
      ensures exists t :: t in s.unacked && Queued(s.ms, s.src.send, t) && DatagramFor(s, t).bytes == b
    {
      var k :| k in s.src.send.queue && b == Sender.Wire(k, s.src.send.queue[k]);
      var t :| t in s.unacked && KeyOf(s.ms, t) == k;
      assert Queued(s.ms, s.src.send, t) && DatagramFor(s, t).bytes == b;
    }
  }

  // ---- Arrival ----

  /** What was safe stays safe, and what arrives becomes safe. */
  lemma ArriveSafe(ms: Messages, p: Progress, s: Slot)
    requires IsSlot(ms, s)
    ensures Arrive(ms, p, s).done == p.done
    ensures Safe(Arrive(ms, p, s), s)
    ensures forall t :: Safe(p, t) ==> Safe(Arrive(ms, p, s), t)
  {
  }

  /** No message is left complete but in pieces. */
  lemma ArriveIncomplete(ms: Messages, p: Progress, s: Slot, m: nat)
    requires IsSlot(ms, s) && m < |ms| && |ms[m]| > 1 && !Complete(ms, p.parts, m)
    ensures !Complete(ms, Arrive(ms, p, s).parts, m)
  {
    var i: nat :| i < |ms[m]| && Slot(m, i) !in p.parts;
    var q := Arrive(ms, p, s);
    if m != s.msg {
      assert Slot(m, i) !in q.parts;
    } else if Complete(ms, p.parts + {s}, m) {
      assert Slot(m, i) !in q.parts;
    }
  }

  lemma ArriveHorizon(ms: Messages, p: Progress, s: Slot)
    requires IsSlot(ms, s) && Horizon(ms, p)
    ensures Horizon(ms, Arrive(ms, p, s))
  {
    if p.done <= s.msg {
      StartMonotone(ms, p.done, s.msg);
    }
  }

  lemma ReceiveRecv(cfg: Config, ms: Messages, p: Progress, dst: Endpoint, t: Slot)
    requires StreamOk(cfg, ms) && RecvOk(cfg, ms, p, dst) && InWindow(ms, p, t)
    ensures RecvOk(cfg, ms, Arrive(ms, p, t), TakeData(cfg.mode, dst, KeyOf(ms, t), ms[t.msg][t.idx][1], ms[t.msg][t.idx][2..]))
  {
    ReceiveRefines(cfg.mode, ms, p, dst.recv, t);
    ArriveSafe(ms, p, t);
    ArriveHorizon(ms, p, t);
    forall m | 0 <= m < |ms| && |ms[m]| > 1
      ensures !Complete(ms, Arrive(ms, p, t).parts, m)
    {
      ArriveIncomplete(ms, p, t, m);
    }
  }

  /** On its channel a datagram of the stream is acked and then received. */
  lemma DatagramBytes(cfg: Config, ms: Messages, ep: Endpoint, t: Slot)
    requires StreamOk(cfg, ms) && IsSlot(ms, t)
    ensures var payload := ms[t.msg][t.idx];
            var bytes := Sender.Wire(KeyOf(ms, t), payload);
            && |payload| >= 2
            && ReceiveBegins(cfg.channel, ep, bytes) == NoteAck(ep, KeyOf(ms, t))
            && ReceiveEnds(cfg.mode, cfg.channel, ep, bytes)
               == TakeData(cfg.mode, ep, KeyOf(ms, t), payload[1], payload[2..])
  {
    assert ShapedFragment(ms[t.msg][t.idx], RELIABLE_SEND, t.idx == 0, t.idx == |ms[t.msg]| - 1);
    ParseData(KeyOf(ms, t), ms[t.msg][t.idx]);
  }

  lemma KeysSnoc(ms: Messages, ts: seq<Slot>, t: Slot)
    requires IsSlot(ms, t)
    ensures Keys(ms, ts + [t]) == Keys(ms, ts) + [KeyOf(ms, t)]
  {
  }

  /** Acks and conservation survive whenever what is kept only grows. */
  lemma KeepingGrows(cfg: Config, ms: Messages, p: Progress, held: set<Slot>, q: Progress, held': set<Slot>,
                     unacked: set<Slot>, acks: seq<Slot>, ackNet: set<AckDatagram>)
    requires cfg.channel <= 7
    requires Conserved(ms, unacked, p, held) && AckedOk(ms, p, held, acks) && AckNetOk(cfg, ms, p, held, ackNet)
    requires forall t :: Kept(p, held, t) ==> Kept(q, held', t)
    ensures Conserved(ms, unacked, q, held') && AckedOk(ms, q, held', acks) && AckNetOk(cfg, ms, q, held', ackNet)
  {
    forall a | a in ackNet
      ensures AckedOk(ms, q, held', a.slots)
    {
      assert AckedOk(ms, p, held, a.slots);
    }
  }

  lemma TakeInHand(hand: multiset<Datagram>, d: Datagram)
    ensures InHand(hand + multiset{d}) == InHand(hand) + {d.slot}
  {
    assert d in hand + multiset{d};
  }

  lemma AddAckInv(cfg: Config, s: Sys, d: Datagram)
    requires Inv(cfg, s) && Enabled(cfg, s, AddAck(d))
    ensures Inv(cfg, ApplyAddAck(cfg, s, d))
  {
    DatagramBytes(cfg, s.ms, s.dst, d.slot);
    AckedInv(cfg, s, d, ApplyAddAck(cfg, s, d).dst);
  }

  /** If the fragment was put on the ack list, everything still holds. */
  lemma AckedInv(cfg: Config, s: Sys, d: Datagram, dst: Endpoint)
    requires Inv(cfg, s) && d in s.net && dst == NoteAck(s.dst, KeyOf(s.ms, d.slot))
    ensures Inv(cfg, s.(dst := dst, acks := s.acks + [d.slot], hand := s.hand + multiset{d}))
  {
    TakeInHand(s.hand, d);
    var held := InHand(s.hand);
    KeepingGrows(cfg, s.ms, s.p, held, s.p, held + {d.slot}, s.unacked, s.acks, s.ackNet);
    KeysSnoc(s.ms, s.acks, d.slot);
  }

  /** What a receive takes out of the hand is safe afterwards. */
  lemma ReceiveKeeps(ms: Messages, p: Progress, hand: multiset<Datagram>, d: Datagram)
    requires IsSlot(ms, d.slot)
    ensures forall t :: Kept(p, InHand(hand), t) ==> Kept(Arrive(ms, p, d.slot), InHand(hand - multiset{d}), t)
  {
    ArriveSafe(ms, p, d.slot);
    forall t | t in InHand(hand) && t != d.slot
      ensures t in InHand(hand - multiset{d})
    {
      var e :| e in hand && e.slot == t;
      assert e in hand - multiset{d};
    }
  }

  lemma ReceiveInv(cfg: Config, s: Sys, d: Datagram)
    requires Inv(cfg, s) && Enabled(cfg, s, Receive(d))
    ensures Inv(cfg, ApplyReceive(cfg, s, d))
  {
    var t := d.slot;
    DatagramBytes(cfg, s.ms, s.dst, t);
    ReceiveRecv(cfg, s.ms, s.p, s.dst, t);
    ReceivedInv(cfg, s, d, ApplyReceive(cfg, s, d).dst);
  }

  /** If the receiver took the fragment in hand, everything still holds. */
  lemma ReceivedInv(cfg: Config, s: Sys, d: Datagram, dst: Endpoint)
    requires Inv(cfg, s) && IsSlot(s.ms, d.slot)
    requires RecvOk(cfg, s.ms, Arrive(s.ms, s.p, d.slot), dst) && dst.ackList == s.dst.ackList
    ensures Inv(cfg, s.(dst := dst, p := Arrive(s.ms, s.p, d.slot), hand := s.hand - multiset{d}))
  {
    ReceiveKeeps(s.ms, s.p, s.hand, d);
    KeepingGrows(cfg, s.ms, s.p, InHand(s.hand), Arrive(s.ms, s.p, d.slot), InHand(s.hand - multiset{d}),
                 s.unacked, s.acks, s.ackNet);
  }

  // ---- Jobs ----

  lemma {:induction false} WholesJoin(mode: IdMode, ms: Messages, a: nat, b: nat, c: nat)
    requires NoneEmpty(ms) && a <= b <= c <= |ms|
    ensures Wholes(mode, ms, a, b) + Wholes(mode, ms, b, c) == Wholes(mode, ms, a, c)
    decreases b - a
  {
    if a < b {
      WholesJoin(mode, ms, a + 1, b, c);
    }
  }

  lemma JobRecv(cfg: Config, ms: Messages, p: Progress, dst: Endpoint)
    requires RecvOk(cfg, ms, p, dst) && dst.jobs > 0
    ensures RecvOk(cfg, ms, Advance(p), RunJob(dst))
    ensures Advance(p).done !in Advance(p).ready
    ensures forall t :: Safe(p, t) ==> Safe(Advance(p), t)
  {
    AdvanceFacts(p);
    DrainRefines(cfg.mode, ms, p, dst.recv);
    WholesJoin(cfg.mode, ms, 0, p.done, Advance(p).done);
  }

  lemma JobInv(cfg: Config, s: Sys)
    requires Inv(cfg, s) && s.dst.jobs > 0
    ensures Inv(cfg, ApplyJob(s))
  {
    JobRecv(cfg, s.ms, s.p, s.dst);
    KeepingGrows(cfg, s.ms, s.p, InHand(s.hand), Advance(s.p), InHand(s.hand), s.unacked, s.acks, s.ackNet);
  }

  // ---- Acks ----

  lemma {:induction false} ChunksOfKeys(ms: Messages, ts: seq<Slot>, n: nat)
    requires n > 0
    ensures |Chunks(Keys(ms, ts), n)| == |Chunks(ts, n)|
    ensures forall i :: 0 <= i < |Chunks(ts, n)| ==> Chunks(Keys(ms, ts), n)[i] == Keys(ms, Chunks(ts, n)[i])
  {
    if |ts| > n {
      ChunksOfKeys(ms, ts[n..], n);
      assert Keys(ms, ts)[..n] == Keys(ms, ts[..n]);
      assert Keys(ms, ts)[n..] == Keys(ms, ts[n..]);
    }
  }

  lemma ChunkMember<T>(xs: seq<T>, n: nat, i: nat, x: T)
    requires n > 0 && i < |Chunks(xs, n)| && x in Chunks(xs, n)[i]
    ensures x in xs
  {
    ChunksConserve(xs, n);
    FlattenMember(Chunks(xs, n), x);
  }

  lemma BatchKeys(cfg: Config, ms: Messages, p: Progress, held: set<Slot>, acks: seq<Slot>, i: nat)
    requires cfg.channel <= 7 && AckedOk(ms, p, held, acks)
    requires i < |Chunks(acks, Acks.AcksPerDatagram(cfg.mtu))|
    ensures var batch := Chunks(acks, Acks.AcksPerDatagram(cfg.mtu))[i];
            var bytes := Acks.AckDatagrams(cfg.channel, Keys(ms, acks), cfg.mtu);
            && i < |bytes| && bytes[i] == Acks.AckDatagram(cfg.channel, Keys(ms, batch))
            && AckedOk(ms, p, held, batch)
  {
    var per := Acks.AcksPerDatagram(cfg.mtu);
    ChunksOfKeys(ms, acks, per);
    forall t | t in Chunks(acks, per)[i]
      ensures t in acks
    {
      ChunkMember(acks, per, i, t);
    }
  }

  lemma SendAcksInv(cfg: Config, s: Sys)
    requires Inv(cfg, s)
    ensures Inv(cfg, ApplySendAcks(cfg, s))
  {
    var after := ApplySendAcks(cfg, s);
    forall a | a in after.ackNet
      ensures AckedOk(s.ms, s.p, InHand(s.hand), a.slots) && a.bytes == Acks.AckDatagram(cfg.channel, Keys(s.ms, a.slots))
    {
      if a !in s.ackNet {
        var batches := Chunks(s.acks, Acks.AcksPerDatagram(cfg.mtu));
        var bytes := Acks.AckDatagrams(cfg.channel, s.dst.ackList, cfg.mtu);
        var i :| 0 <= i < |batches| && i < |bytes| && a == AckDatagram(batches[i], bytes[i]);
        BatchKeys(cfg, s.ms, s.p, InHand(s.hand), s.acks, i);
      }
    }
    assert Keys(s.ms, []) == [];
  }

  lemma KeyInKeys(ms: Messages, ts: seq<Slot>, t: Slot)
    requires Live(ms, t) && forall u :: u in ts ==> Live(ms, u)
    ensures KeyOf(ms, t) in Keys(ms, ts) <==> t in ts
  {
    if KeyOf(ms, t) in Keys(ms, ts) {
      var i :| 0 <= i < |ts| && Keys(ms, ts)[i] == KeyOf(ms, t);
      assert ts[i] in ts;
      KeyInjective(ms, ts[i], t);
    }
    if t in ts {
      var i :| 0 <= i < |ts| && ts[i] == t;
      assert Keys(ms, ts)[i] == KeyOf(ms, t);
    }
  }

  lemma AckSend(ms: Messages, unacked: set<Slot>, st: Sender.SendState, ts: seq<Slot>)
    requires SendOk(ms, unacked, st) && forall u :: u in ts ==> Live(ms, u)
    ensures SendOk(ms, unacked - Sender.ToSet(ts), Sender.Acked(st, Keys(ms, ts)))
  {
    var after := Sender.Acked(st, Keys(ms, ts));
    forall t | t in unacked - Sender.ToSet(ts)
      ensures Queued(ms, after, t)
    {
      assert Queued(ms, st, t);
      KeyInKeys(ms, ts, t);
    }
    forall k | k in after.queue
      ensures exists t :: t in unacked - Sender.ToSet(ts) && KeyOf(ms, t) == k
    {
      var t :| t in unacked && KeyOf(ms, t) == k;
      assert Queued(ms, st, t);
      KeyInKeys(ms, ts, t);
      assert t in unacked - Sender.ToSet(ts);
    }
  }

  lemma DeliverAcksInv(cfg: Config, s: Sys, a: AckDatagram)
    requires Inv(cfg, s) && Enabled(cfg, s, DeliverAcks(a))
    ensures Inv(cfg, ApplyDeliverAcks(cfg, s, a))
  {
    ParseAcks(cfg.channel, Keys(s.ms, a.slots));
    AckSend(s.ms, s.unacked, s.src.send, a.slots);
    assert AckedOk(s.ms, s.p, InHand(s.hand), a.slots);
  }

  // ---- Runs ----

  lemma StepInv(cfg: Config, s: Sys, step: Step)
    requires Inv(cfg, s) && Enabled(cfg, s, step)
    ensures Inv(cfg, Apply(cfg, s, step))
  {
    match step
    case Enqueue(msg) => EnqueueInv(cfg, s, msg);
    case Resend => ResendInv(cfg, s);
    case AddAck(d) => AddAckInv(cfg, s, d);
    case Receive(d) => ReceiveInv(cfg, s, d);
    case Job => JobInv(cfg, s);
    case SendAcks => SendAcksInv(cfg, s);
    case DeliverAcks(a) => DeliverAcksInv(cfg, s, a);
  }

  lemma {:induction false} RunInv(cfg: Config, s: Sys, steps: seq<Step>)
    requires Inv(cfg, s) && Legal(cfg, s, steps)
    ensures Inv(cfg, Exec(cfg, s, steps))
    decreases |steps|
  {
    if steps != [] {
      StepInv(cfg, s, steps[0]);
      RunInv(cfg, Apply(cfg, s, steps[0]), steps[1..]);
    }
  }
}

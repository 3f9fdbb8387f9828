/** What the reliable stream does not guarantee, each with a run that shows it and the exact
    condition: numbers that are nowhere for a while, fragments that outlive their message, and
    what happens outside the horizon and the window. */
module StreamLimits {
  import opened Words
  import opened Chunking
  import opened Packets
  import opened Reassembly
  import opened Receiver
  import opened Layout
  import opened StreamReceiver
  import opened Link
  import opened Stream
  import opened StreamTheorems
  import opened StreamRecovery
  import Sender
  import Acks

  // ---- Sending one message ----

  /** The only message so far. */
  ghost predicate Sends(cfg: Config, s: Sys, msg: Message) {
    && cfg.channel <= 7 && s.ms == [PacketsOf(cfg, msg)]
    && forall i :: 0 <= i < |PacketsOf(cfg, msg)| ==> CanArrive(s, Slot(0, i))
  }

  lemma OneMessage(cfg: Config, msg: Message)
    requires cfg.channel <= 7 && |Flatten(msg.serializers)| <= 2 * ROOM
    ensures |PacketsOf(cfg, msg)| == if |Flatten(msg.serializers)| <= ROOM then 1 else 2
    ensures Enabled(cfg, Stream.INITIAL, Enqueue(msg))
  {
    var data := Flatten(msg.serializers);
    FragmentationConserves(HeaderOf(cfg, msg), data, MAX_FRAGMENT_SIZE);
    var x := PacketsOf(cfg, msg);
    assert Start([x], 1) == Start([x], 0) + |x|;
    assert [] + [x] == [x];
  }

  /** A message of one or two fragments is enqueued and sent. */
  lemma SendOne(cfg: Config, msg: Message) returns (steps: seq<Step>)
    requires cfg.channel <= 7 && |Flatten(msg.serializers)| <= 2 * ROOM
    ensures steps == [Enqueue(msg), Resend] && Legal(cfg, Stream.INITIAL, steps)
    ensures var s := Exec(cfg, Stream.INITIAL, steps);
            Inv(cfg, s) && Sends(cfg, s, msg) && s.p == NOTHING && s.acks == [] && s.hand == multiset{} && s.dst == FRESH
  {
    EnqueueFirst(cfg, msg);
    var s := Apply(cfg, Stream.INITIAL, Enqueue(msg));
    OneStep(cfg, Stream.INITIAL, Enqueue(msg));
    Then(cfg, Stream.INITIAL, [Enqueue(msg)], Resend);
    ResendInv(cfg, s);
    steps := [Enqueue(msg)] + [Resend];
    forall i | 0 <= i < |PacketsOf(cfg, msg)|
      ensures CanArrive(ApplyResend(s), Slot(0, i))
    {
      JustSent(cfg, s, Slot(0, i));
    }
  }

  lemma EnqueueFirst(cfg: Config, msg: Message)
    requires cfg.channel <= 7 && |Flatten(msg.serializers)| <= 2 * ROOM
    ensures Enabled(cfg, Stream.INITIAL, Enqueue(msg)) && |PacketsOf(cfg, msg)| <= 2
    ensures var s := Apply(cfg, Stream.INITIAL, Enqueue(msg));
            && Inv(cfg, s) && s.ms == [PacketsOf(cfg, msg)]
            && s.p == NOTHING && s.acks == [] && s.hand == multiset{} && s.dst == FRESH
            && forall i :: 0 <= i < |PacketsOf(cfg, msg)| ==> Slot(0, i) in s.unacked
  {
    OneMessage(cfg, msg);
    InitialInv(cfg);
    EnqueueInv(cfg, Stream.INITIAL, msg);
    assert [] + [PacketsOf(cfg, msg)] == [PacketsOf(cfg, msg)];
  }

  lemma JustSent(cfg: Config, s: Sys, t: Slot)
    requires Inv(cfg, s) && t in s.unacked && t.msg == 0 && t.idx < 2 && s.p.done == 0
    ensures CanArrive(ApplyResend(s), t)
  {
    assert Queued(s.ms, s.src.send, t);
    assert DatagramFor(s, t) in ApplyResend(s).net;
  }

  function DatagramOf(s: Sys, t: Slot): Datagram
    requires IsSlot(s.ms, t)
  {
    Datagram(t, Sender.Wire(KeyOf(s.ms, t), s.ms[t.msg][t.idx]))
  }

  // ---- An ack can overtake the packet it acknowledges ----

  /** Because Link::receive adds the ack and hands the packet on in two separate locked sections,
      an ack can be flushed, travel and erase the queued packet while the receiver does not have it
      yet. For every message of one fragment there is a run at whose end its number is in none of
      the four places. */
  lemma AckOvertakesPacket(cfg: Config, msg: Message) returns (steps: seq<Step>)
    requires cfg.channel <= 7 && |Flatten(msg.serializers)| <= ROOM
    ensures Legal(cfg, Stream.INITIAL, steps)
    ensures var s := Exec(cfg, Stream.INITIAL, steps);
            && IsSlot(s.ms, Slot(0, 0)) && !Placed(cfg, s, Slot(0, 0))
            && s.src.send.queue == map[] && s.dst.recv == Receiver.INITIAL
  {
    var a;
    steps, a := EarlyAck(cfg, msg);
    var s := Exec(cfg, Stream.INITIAL, steps);
    OnlySlotLive(cfg, s, a);
    Then(cfg, Stream.INITIAL, steps, DeliverAcks(a));
    steps := steps + [DeliverAcks(a)];
    EndOfOvertaking(cfg, steps, s, a, Slot(0, 0));
  }

  /** The number of the only fragment is on the ack list, and nobody has received it. */
  ghost predicate NotReceived(cfg: Config, s: Sys, steps: seq<Step>) {
    && Inv(cfg, s) && |s.ms| == 1 && |s.ms[0]| == 1 && s.dst.recv == Receiver.INITIAL
    && forall i :: 0 <= i < |steps| ==> !steps[i].Receive?
  }

  lemma ArrivedOnly(cfg: Config, msg: Message) returns (steps: seq<Step>)
    requires cfg.channel <= 7 && |Flatten(msg.serializers)| <= ROOM
    ensures Legal(cfg, Stream.INITIAL, steps)
    ensures var s := Exec(cfg, Stream.INITIAL, steps); NotReceived(cfg, s, steps) && s.acks == [Slot(0, 0)]
  {
    steps := SendOne(cfg, msg);
    OneMessage(cfg, msg);
    var s := Exec(cfg, Stream.INITIAL, steps);
    var d := DatagramOf(s, Slot(0, 0));
    ArriveOnly(cfg, s, d);
    Then(cfg, Stream.INITIAL, steps, AddAck(d));
    steps := steps + [AddAck(d)];
  }

  lemma ArriveOnly(cfg: Config, s: Sys, d: Datagram)
    requires Inv(cfg, s) && IsSlot(s.ms, d.slot) && d == DatagramOf(s, d.slot) && CanArrive(s, d.slot)
    ensures Enabled(cfg, s, AddAck(d))
    ensures var s' := Apply(cfg, s, AddAck(d));
            Inv(cfg, s') && s'.ms == s.ms && s'.acks == s.acks + [d.slot] && s'.dst.recv == s.dst.recv
  {
    AddAckInv(cfg, s, d);
    DatagramBytes(cfg, s.ms, s.dst, d.slot);
  }

  lemma EarlyAck(cfg: Config, msg: Message) returns (steps: seq<Step>, a: AckDatagram)
    requires cfg.channel <= 7 && |Flatten(msg.serializers)| <= ROOM
    ensures Legal(cfg, Stream.INITIAL, steps)
    ensures var s := Exec(cfg, Stream.INITIAL, steps);
            NotReceived(cfg, s, steps) && a in s.ackNet && Slot(0, 0) in a.slots
  {
    steps := ArrivedOnly(cfg, msg);
    a := Flush(cfg, Exec(cfg, Stream.INITIAL, steps), Slot(0, 0));
    Then(cfg, Stream.INITIAL, steps, SendAcks);
    steps := steps + [SendAcks];
  }

  lemma Flush(cfg: Config, s: Sys, t: Slot) returns (a: AckDatagram)
    requires Inv(cfg, s) && t in s.acks
    ensures var s' := ApplySendAcks(cfg, s);
            Inv(cfg, s') && a in s'.ackNet && t in a.slots && s'.ms == s.ms && s'.dst.recv == s.dst.recv
  {
    SendAcksInv(cfg, s);
    SendAcksKeeps(cfg, s, t);
    a :| a in ApplySendAcks(cfg, s).ackNet && t in a.slots;
  }

  lemma OnlySlotLive(cfg: Config, s: Sys, a: AckDatagram)
    requires Inv(cfg, s) && a in s.ackNet && |s.ms| == 1 && |s.ms[0]| == 1
    ensures forall t :: t in a.slots ==> Live(s.ms, t)
  {
    assert AckedOk(s.ms, s.p, InHand(s.hand), a.slots);
    assert Start(s.ms, 1) == Start(s.ms, 0) + 1;
  }

  lemma EndOfOvertaking(cfg: Config, steps: seq<Step>, s: Sys, a: AckDatagram, t: Slot)
    requires cfg.channel <= 7 && Legal(cfg, Stream.INITIAL, steps) && |steps| > 0
    requires Inv(cfg, s) && Enabled(cfg, s, DeliverAcks(a)) && |s.ms| == 1 && |s.ms[0]| == 1
    requires steps[|steps| - 1] == DeliverAcks(a) && t == Slot(0, 0) && t in a.slots
    requires forall i :: 0 <= i < |steps| ==> !steps[i].Receive?
    requires Exec(cfg, Stream.INITIAL, steps) == Apply(cfg, s, DeliverAcks(a))
    ensures var s' := Exec(cfg, Stream.INITIAL, steps);
            IsSlot(s'.ms, t) && !Placed(cfg, s', t) && s'.src.send.queue == map[] && s'.dst == s.dst
  {
    var last := |steps| - 1;
    assert steps[last].DeliverAcks? && t in steps[last].a.slots;
    assert IsSlot(s.ms, t);
    NowhereExactly(cfg, steps, t);
    LastAckEmptiesQueue(cfg, s, a);
  }

  lemma LastAckEmptiesQueue(cfg: Config, s: Sys, a: AckDatagram)
    requires Inv(cfg, s) && Enabled(cfg, s, DeliverAcks(a)) && |s.ms| == 1 && |s.ms[0]| == 1 && Slot(0, 0) in a.slots
    ensures Apply(cfg, s, DeliverAcks(a)).src.send.queue == map[]
  {
    var s' := Apply(cfg, s, DeliverAcks(a));
    DeliverAcksInv(cfg, s, a);
    forall u | u in s'.unacked
      ensures u == Slot(0, 0)
    {
      assert Queued(s'.ms, s'.src.send, u);
    }
    assert s'.unacked == {};
    EmptyQueue(cfg, s');
  }

  // ---- Fragments that outlive their message ----

  /** Every fragment held belongs to a message that is neither complete nor handed over. */
  ghost predicate NoStale(p: Progress) {
    forall t :: t in p.parts ==> p.done <= t.msg && t.msg !in p.ready
  }

  /** The step receives a fragment of a message of several fragments that has been put together and
      waits to be handed over. */
  ghost predicate Repeats(s: Sys, step: Step) {
    && step.Receive? && IsSlot(s.ms, step.d.slot) && |s.ms[step.d.slot.msg]| > 1
    && s.p.done <= step.d.slot.msg && step.d.slot.msg in s.p.ready
  }

  lemma ArriveStaleIff(ms: Messages, p: Progress, t: Slot)
    requires IsSlot(ms, t) && NoStale(p)
    requires forall u :: u in p.parts ==> IsSlot(ms, u) && |ms[u.msg]| > 1
    ensures NoStale(Arrive(ms, p, t)) <==> !(|ms[t.msg]| > 1 && p.done <= t.msg && t.msg in p.ready)
  {
    var q := Arrive(ms, p, t);
    if |ms[t.msg]| > 1 && p.done <= t.msg && t.msg in p.ready {
      var other := Slot(t.msg, if t.idx == 0 then 1 else 0);
      assert other !in p.parts + {t} && !Complete(ms, p.parts + {t}, t.msg);
      assert t in q.parts;
    }
  }

  /** One step leaves a stale fragment behind exactly when it receives such a repeat. */
  lemma StaleStepIff(cfg: Config, s: Sys, step: Step)
    requires Inv(cfg, s) && Enabled(cfg, s, step) && NoStale(s.p)
    ensures NoStale(Apply(cfg, s, step).p) <==> !Repeats(s, step)
  {
    match step
    case Receive(d) => ArriveStaleIff(s.ms, s.p, d.slot);
    case Job => AdvanceNoStale(s.p);
    case _ =>
  }

  lemma AdvanceNoStale(p: Progress)
    requires NoStale(p)
    ensures NoStale(Advance(p))
  {
    AdvanceFacts(p);
  }

  ghost predicate NeverStale(cfg: Config, s: Sys, steps: seq<Step>)
    requires cfg.channel <= 7 && Legal(cfg, s, steps)
    decreases |steps|
  {
    NoStale(s.p) && (steps == [] || NeverStale(cfg, Apply(cfg, s, steps[0]), steps[1..]))
  }

  ghost predicate NoRepeats(cfg: Config, s: Sys, steps: seq<Step>)
    requires cfg.channel <= 7 && Legal(cfg, s, steps)
    decreases |steps|
  {
    steps == [] || (!Repeats(s, steps[0]) && NoRepeats(cfg, Apply(cfg, s, steps[0]), steps[1..]))
  }

  lemma {:induction false} RunStaleIff(cfg: Config, s: Sys, steps: seq<Step>)
    requires Inv(cfg, s) && Legal(cfg, s, steps) && NoStale(s.p)
    ensures NeverStale(cfg, s, steps) <==> NoRepeats(cfg, s, steps)
    decreases |steps|
  {
    if steps != [] {
      StepInv(cfg, s, steps[0]);
      StaleStepIff(cfg, s, steps[0]);
      if !Repeats(s, steps[0]) {
        RunStaleIff(cfg, Apply(cfg, s, steps[0]), steps[1..]);
      }
    }
  }

  /** A run is free of stale fragments throughout if and only if no message of several fragments
      had a fragment received again between its completion and its hand-over. */
  lemma StaleExactly(cfg: Config, steps: seq<Step>)
    requires cfg.channel <= 7 && Legal(cfg, Stream.INITIAL, steps)
    ensures NeverStale(cfg, Stream.INITIAL, steps) <==> NoRepeats(cfg, Stream.INITIAL, steps)
  {
    InitialInv(cfg);
    RunStaleIff(cfg, Stream.INITIAL, steps);
  }

  /** Once its message has been handed over, a fragment that is held stays in the map for ever. */
  lemma StaleForEver(cfg: Config, s: Sys, steps: seq<Step>, t: Slot)
    requires Inv(cfg, s) && Legal(cfg, s, steps)
    requires t in s.p.parts && t.msg < s.p.done
    ensures var s' := Exec(cfg, s, steps);
            IsSlot(s'.ms, t) && KeyOf(s'.ms, t) in s'.dst.recv.fragments
  {
    RunInv(cfg, s, steps);
    StaleStays(cfg, s, steps, t);
  }

  lemma {:induction false} StaleStays(cfg: Config, s: Sys, steps: seq<Step>, t: Slot)
    requires cfg.channel <= 7 && Legal(cfg, s, steps)
    requires t in s.p.parts && t.msg < s.p.done
    ensures t in Exec(cfg, s, steps).p.parts
    decreases |steps|
  {
    if steps != [] {
      StaleStep(cfg, s, steps[0], t);
      StaleStays(cfg, Apply(cfg, s, steps[0]), steps[1..], t);
    }
  }

  lemma StaleStep(cfg: Config, s: Sys, step: Step, t: Slot)
    requires cfg.channel <= 7 && Enabled(cfg, s, step)
    requires t in s.p.parts && t.msg < s.p.done
    ensures t in Apply(cfg, s, step).p.parts && t.msg < Apply(cfg, s, step).p.done
  {
    AdvanceFacts(s.p);
  }

  // ---- A run that leaves one behind ----

  /** What arriving at once does, in a state of one sent message. */
  lemma ArriveIn(cfg: Config, msg: Message, steps: seq<Step>, i: nat) returns (longer: seq<Step>)
    requires cfg.channel <= 7 && Legal(cfg, Stream.INITIAL, steps) && i < |PacketsOf(cfg, msg)|
    requires var s := Exec(cfg, Stream.INITIAL, steps); Inv(cfg, s) && Sends(cfg, s, msg)
    ensures Legal(cfg, Stream.INITIAL, longer)
    ensures var s, s' := Exec(cfg, Stream.INITIAL, steps), Exec(cfg, Stream.INITIAL, longer);
            Inv(cfg, s') && Sends(cfg, s', msg) && s'.p == Arrive(s.ms, s.p, Slot(0, i)) && s'.hand == s.hand
  {
    var s := Exec(cfg, Stream.INITIAL, steps);
    var d := DatagramOf(s, Slot(0, i));
    assert CanArrive(s, Slot(0, i));
    var s' := ArriveOnce(cfg, s, d);
    var mid := Apply(cfg, s, AddAck(d));
    AddAckInv(cfg, s, d);
    ReceiveInv(cfg, mid, d);
    Then(cfg, Stream.INITIAL, steps, AddAck(d));
    Then(cfg, Stream.INITIAL, steps + [AddAck(d)], Receive(d));
    longer := steps + [AddAck(d)] + [Receive(d)];
  }

  /** For every message of two fragments: both arrive, the first arrives again, and the message is
      handed over. Its first fragment is then still in the map of fragments, under number 0, while
      number 2 is expected. */
  lemma StaleFragmentReached(cfg: Config, msg: Message) returns (steps: seq<Step>)
    requires cfg.channel <= 7 && ROOM < |Flatten(msg.serializers)| <= 2 * ROOM
    ensures Legal(cfg, Stream.INITIAL, steps)
    ensures var s, x := Exec(cfg, Stream.INITIAL, steps), PacketsOf(cfg, msg);
            && s.ms == [x] && |x| == 2 && s.p == Progress(1, {}, {Slot(0, 0)})
            && s.dst.recv == RecvState(2, map[], map[0 := Part(cfg.mode, x[0])])
            && s.dst.handled == [AsReceived(cfg, msg)]
  {
    OneMessage(cfg, msg);
    var ms := [PacketsOf(cfg, msg)];
    ThreeArrivals(ms);
    steps := SendOne(cfg, msg);
    steps := ArriveIn(cfg, msg, steps, 0);
    steps := ArriveIn(cfg, msg, steps, 1);
    steps := ArriveIn(cfg, msg, steps, 0);
    var s := Exec(cfg, Stream.INITIAL, steps);
    assert s.p == Progress(0, {0}, {Slot(0, 0)});
    Then(cfg, Stream.INITIAL, steps, Job);
    JobInv(cfg, s);
    steps := steps + [Job];
    AfterHandOver(cfg, msg, ApplyJob(s));
  }

  lemma ThreeArrivals(ms: Messages)
    requires |ms| == 1 && |ms[0]| == 2
    ensures var p1 := Arrive(ms, NOTHING, Slot(0, 0));
            var p2 := Arrive(ms, p1, Slot(0, 1));
            var p3 := Arrive(ms, p2, Slot(0, 0));
            p3 == Progress(0, {0}, {Slot(0, 0)}) && Advance(p3) == Progress(1, {}, {Slot(0, 0)})
  {
    var first, second := Slot(0, 0), Slot(0, 1);
    assert !Complete(ms, {first}, 0) by {
      assert second !in {first};
    }
    var p1 := Arrive(ms, NOTHING, first);
    assert p1 == Progress(0, {}, {first});
    assert Complete(ms, {first} + {second}, 0);
    var p2 := Arrive(ms, p1, second);
    assert p2 == Progress(0, {0}, {});
    var p3 := Arrive(ms, p2, first);
    assert p3 == Progress(0, {0}, {first});
    assert Handed(p3) == Progress(1, {}, {first});
    assert Advance(p3) == Advance(Handed(p3));
  }

  lemma AfterHandOver(cfg: Config, msg: Message, s: Sys)
    requires Inv(cfg, s) && s.ms == [PacketsOf(cfg, msg)] && |s.ms[0]| == 2
    requires s.p == Progress(1, {}, {Slot(0, 0)})
    ensures s.dst.recv == RecvState(2, map[], map[0 := Part(cfg.mode, PacketsOf(cfg, msg)[0])])
    ensures s.dst.handled == [AsReceived(cfg, msg)]
  {
    var t := Slot(0, 0);
    assert Start(s.ms, 1) == Start(s.ms, 0) + 2;
    PartLookup(cfg.mode, s.ms, s.p.parts, s.dst.recv.fragments, t);
    assert forall k :: k in s.dst.recv.fragments ==> k == 0;
    assert forall k :: k !in s.dst.recv.packets;
    FragmentThenReceive(cfg, msg);
    assert Wholes(cfg.mode, s.ms, 0, 1) == [Whole(cfg.mode, s.ms[0])] + Wholes(cfg.mode, s.ms, 1, 1);
  }

  // ---- Outside the horizon ----

  /** n packets of one fragment, each received under the expected number and drained. */
  function Singles(mode: IdMode, st: RecvState, flags: Byte, tail: Bytes, n: nat): RecvState {
    if n == 0 then st
    else
      var before := Singles(mode, st, flags, tail, n - 1);
      match ReceiveStep(mode, before, before.recvSeq, flags, tail)
      case SerializationError => before
      case Received(after, _) => Drain(after).st
  }

  lemma {:induction false} SinglesAdvance(mode: IdMode, st: RecvState, flags: Byte, tail: Bytes, n: nat)
    requires HasBit(flags, FirstBit) && HasBit(flags, LastBit) && tail != [] && st.packets == map[]
    ensures Singles(mode, st, flags, tail, n) == st.(recvSeq := KeyAt(st.recvSeq, n))
  {
    if n > 0 {
      SinglesAdvance(mode, st, flags, tail, n - 1);
      OneSingle(mode, Singles(mode, st, flags, tail, n - 1), flags, tail);
      WrapAdd(st.recvSeq + (n - 1), 1);
    }
  }

  lemma OneSingle(mode: IdMode, st: RecvState, flags: Byte, tail: Bytes)
    requires HasBit(flags, FirstBit) && HasBit(flags, LastBit) && tail != [] && st.packets == map[]
    ensures var r := ReceiveStep(mode, st, st.recvSeq, flags, tail);
            r.Received? && Drain(r.st).st == st.(recvSeq := Wrap(st.recvSeq + 1))
  {
    var pack := RecvPacket(tail[0], tail[1..], flags);
    var held := st.(packets := map[st.recvSeq := Entry(pack, 1)]);
    assert Unpack(mode, flags, tail) == Some(pack);
    DrainUnfold(held, pack, 1);
    assert held.packets - {held.recvSeq} == map[];
  }

  /** The horizon is needed. Leave the first fragment of a message behind, as StaleFragmentReached
      does, and let 2^32 - 2 more packets pass, so that number 0 comes up again for a message y of
      two fragments. Its first fragment is dropped without a job, and its second one completes a
      packet made of the old first fragment and the new second one. */
  lemma StaleFragmentCorrupts(cfg: Config, msg: Message, flags: Byte, tail: Bytes, y: seq<Bytes>)
    returns (steps: seq<Step>)
    requires cfg.channel <= 7 && ROOM < |Flatten(msg.serializers)| <= 2 * ROOM
    requires HasBit(flags, FirstBit) && HasBit(flags, LastBit) && tail != []
    requires ShapedMessage(y, RELIABLE_SEND) && |y| == 2
    ensures Legal(cfg, Stream.INITIAL, steps)
    ensures var x, st := PacketsOf(cfg, msg), Exec(cfg, Stream.INITIAL, steps).dst.recv;
            var wrapped := Singles(cfg.mode, st, flags, tail, CYCLE - 2);
            && |x| == 2 && |y[0]| >= 2 && |y[1]| >= 2 && wrapped.recvSeq == 0
            && ReceiveStep(cfg.mode, wrapped, 0, y[0][1], y[0][2..]) == Received(wrapped, false)
            && ReceiveStep(cfg.mode, wrapped, 1, y[1][1], y[1][2..])
               == Received(RecvState(0, map[0 := Entry(Whole(cfg.mode, [x[0], y[1]]), 2)], map[]), true)
  {
    steps := StaleFragmentReached(cfg, msg);
    var x, st := PacketsOf(cfg, msg), Exec(cfg, Stream.INITIAL, steps).dst.recv;
    SinglesAdvance(cfg.mode, st, flags, tail, CYCLE - 2);
    PacketsShaped(cfg, msg);
    MixedMessage(cfg.mode, x, y);
  }

  lemma MixedMessage(mode: IdMode, x: seq<Bytes>, y: seq<Bytes>)
    requires ShapedMessage(x, RELIABLE_SEND) && ShapedMessage(y, RELIABLE_SEND) && |x| == |y| == 2
    ensures var st := RecvState(0, map[], map[0 := Part(mode, x[0])]);
            && ReceiveStep(mode, st, 0, y[0][1], y[0][2..]) == Received(st, false)
            && ReceiveStep(mode, st, 1, y[1][1], y[1][2..])
               == Received(RecvState(0, map[0 := Entry(Whole(mode, [x[0], y[1]]), 2)], map[]), true)
  {
    var st := RecvState(0, map[], map[0 := Part(mode, x[0])]);
    assert ShapedFragment(x[0], RELIABLE_SEND, true, false);
    assert ShapedFragment(y[0], RELIABLE_SEND, true, false);
    assert ShapedFragment(y[1], RELIABLE_SEND, false, true);
    PartIsUnpacked(mode, y[0]);
    PartIsUnpacked(mode, y[1]);
    var f := st.fragments[1 := Part(mode, y[1])];
    assert f == map[0 := Part(mode, x[0]), 1 := Part(mode, y[1])];
    TwoReassemble(f, Part(mode, x[0]), Part(mode, y[1]));
    WholeOfTwo(mode, x[0], y[1]);
    Completed(st, 1, Part(mode, y[1]), Reassembled(Whole(mode, [x[0], y[1]]), 0, 1, map[]));
    assert IsSeqNewer(0, 0) && IsSeqNewer(1, 0) && Count(0, 1) == 2;
  }

  lemma WholeOfTwo(mode: IdMode, a: Bytes, b: Bytes)
    ensures Whole(mode, [a, b]) == RecvPacket(Part(mode, a).id, Part(mode, a).data + Part(mode, b).data, Part(mode, a).flags)
  {
    assert Joined(mode, [a, b], 2) == Joined(mode, [a, b], 1) + Part(mode, b).data;
    assert Joined(mode, [a, b], 1) == Joined(mode, [a, b], 0) + Part(mode, a).data;
  }

  lemma TwoReassemble(f: Fragments, a: RecvPacket, b: RecvPacket)
    requires f == map[0 := a, 1 := b]
    requires HasBit(a.flags, FirstBit) && !HasBit(b.flags, FirstBit) && HasBit(b.flags, LastBit)
    ensures TryReassemble(f, 1) == Some(Reassembled(RecvPacket(a.id, a.data + b.data, a.flags), 0, 1, map[]))
  {
    assert FindBegin(f, 1) == FindBegin(f - {1}, 0) == Some(0);
    assert FindEnd(f, 1) == Some(1);
    assert KeyAt(0, 0) == 0 && KeyAt(0, 1) == 1;
    assert DataRange(f, 0, 2) == DataRange(f, 0, 1) + b.data;
    assert DataRange(f, 0, 1) == DataRange(f, 0, 0) + a.data == a.data;
    assert Count(0, 1) == 2;
    assert KeyAt(0, 0) in KeyRange(0, 2) && KeyAt(0, 1) in KeyRange(0, 2);
    assert f - KeyRange(0, 2) == map[];
  }

  /** A stream of fewer than 2^32 numbers never leaves the horizon. */
  lemma ShortRunsStayInHorizon(ms: Messages, p: Progress)
    requires p.done <= |ms| && forall t :: t in p.parts ==> IsSlot(ms, t)
    requires Total(ms) < CYCLE
    ensures Horizon(ms, p)
  {
  }

  // ---- Outside the window ----

  /** A datagram 2^30 or more ahead of the expected number is acked and dropped. */
  lemma TooFarAheadIsAckedAndDropped(mode: IdMode, ep: Endpoint, ahead: int, flags: Byte, tail: Bytes)
    requires WINDOW <= ahead < CYCLE
    ensures var seqNr := Wrap(ep.recv.recvSeq + ahead);
            TakeData(mode, NoteAck(ep, seqNr), seqNr, flags, tail) == ep.(ackList := ep.ackList + [seqNr])
  {
    WrapSub(ep.recv.recvSeq + ahead, ep.recv.recvSeq);
  }

  /** The window is needed. Both ends are new, the sender enqueues 2^30 + 1 packets, and of what it
      then sends only the last packet arrives. The receiver keeps nothing of it and acks it, and when
      the ack arrives the packet is gone from the queue too. */
  lemma TooFarAheadIsLost(cfg: Config, payloads: seq<Bytes>)
    requires cfg.channel <= 7 && |payloads| == WINDOW + 1 && Sender.MayEnqueue(Sender.INITIAL, payloads)
    requires var last := payloads[WINDOW]; |last| >= 2 && last[0] == RELIABLE_SEND && ChannelOf(last[1]) == cfg.channel
    ensures var src := FRESH.(send := Sender.EnqueueAll(Sender.INITIAL, payloads));
            var wire := Sender.Wire(WINDOW, payloads[WINDOW]);
            var dst := ReceiveEnds(cfg.mode, cfg.channel, ReceiveBegins(cfg.channel, FRESH, wire), wire);
            var acks := Acks.AckDatagrams(cfg.channel, dst.ackList, cfg.mtu);
            && wire in Sender.Wires(src.send.queue, src.send.queue.Keys)
            && dst == FRESH.(ackList := [WINDOW]) && |acks| == 1
            && ReceiveEnds(cfg.mode, cfg.channel, src, acks[0]).send.queue == src.send.queue - {WINDOW}
  {
    var last := payloads[WINDOW];
    Sender.EnqueueAllNumbers(Sender.INITIAL, payloads);
    var queue := Sender.EnqueueAll(Sender.INITIAL, payloads).queue;
    assert KeyAt(0, WINDOW) == WINDOW && queue[WINDOW] == last;
    ParseData(WINDOW, last);
    TooFarAheadIsAckedAndDropped(cfg.mode, FRESH, WINDOW, last[1], last[2..]);
    ParseAcks(cfg.channel, [WINDOW]);
    OneAck(cfg, WINDOW);
  }

  lemma OneAck(cfg: Config, k: U32)
    requires cfg.channel <= 7
    ensures Acks.AckDatagrams(cfg.channel, [k], cfg.mtu) == [Acks.AckDatagram(cfg.channel, [k])]
    ensures Sender.ToSet([k]) == {k}
  {
    assert Chunks([k], Acks.AcksPerDatagram(cfg.mtu)) == [[k]];
  }

  // ---- Late acks ----

  /** n packets, each enqueued and acked. */
  function Rounds(st: Sender.SendState, payload: Bytes, n: nat): Sender.SendState {
    if n == 0 then st
    else
      var before := Rounds(st, payload, n - 1);
      Sender.Acked(Sender.EnqueueOne(before, payload), [before.sendSeq])
  }

  lemma {:induction false} RoundsAdvance(st: Sender.SendState, payload: Bytes, n: nat)
    requires st.queue == map[]
    ensures Rounds(st, payload, n) == Sender.SendState(KeyAt(st.sendSeq, n), map[])
  {
    if n > 0 {
      RoundsAdvance(st, payload, n - 1);
      var before := Rounds(st, payload, n - 1);
      WrapAdd(st.sendSeq + (n - 1), 1);
      assert map[before.sendSeq := payload] - Sender.ToSet([before.sendSeq]) == map[];
    }
  }

  /** Acks must not be late. After a run in which a message was sent and acked, let 2^32 - 1 more
      packets be sent and acked, so that number 0 comes up again, for a packet y. If the old ack
      datagram then arrives once more, y is gone from the queue before it was ever sent. */
  lemma LateAckLoses(cfg: Config, msg: Message, payload: Bytes, y: Bytes) returns (steps: seq<Step>, a: AckDatagram)
    requires cfg.channel <= 7 && |Flatten(msg.serializers)| <= ROOM
    ensures Legal(cfg, Stream.INITIAL, steps) && a in Exec(cfg, Stream.INITIAL, steps).ackNet
    ensures var src := Exec(cfg, Stream.INITIAL, steps).src;
            var later := Sender.EnqueueOne(Rounds(src.send, payload, CYCLE - 1), y);
            && src.send.queue == map[] && later.queue == map[0 := y]
            && ReceiveEnds(cfg.mode, cfg.channel, src.(send := later), a.bytes).send.queue == map[]
  {
    steps, a := EarlyAck(cfg, msg);
    var s := Exec(cfg, Stream.INITIAL, steps);
    OnlySlotLive(cfg, s, a);
    Then(cfg, Stream.INITIAL, steps, DeliverAcks(a));
    DeliverAcksInv(cfg, s, a);
    LastAckEmptiesQueue(cfg, s, a);
    steps := steps + [DeliverAcks(a)];
    OldAckErases(cfg, Apply(cfg, s, DeliverAcks(a)), a, payload, y);
  }

  lemma OldAckErases(cfg: Config, s: Sys, a: AckDatagram, payload: Bytes, y: Bytes)
    requires Inv(cfg, s) && a in s.ackNet && |s.ms| == 1 && |s.ms[0]| == 1 && Slot(0, 0) in a.slots && s.src.send.queue == map[]
    ensures var later := Sender.EnqueueOne(Rounds(s.src.send, payload, CYCLE - 1), y);
            && later.queue == map[0 := y]
            && ReceiveEnds(cfg.mode, cfg.channel, s.src.(send := later), a.bytes).send.queue == map[]
  {
    assert Start(s.ms, 1) == Start(s.ms, 0) + 1 && s.src.send.sendSeq == 1;
    RoundsAdvance(s.src.send, payload, CYCLE - 1);
    ParseAcks(cfg.channel, Keys(s.ms, a.slots));
    ZeroIsAcked(s.ms, a.slots);
    assert map[0 := y] - Sender.ToSet(Keys(s.ms, a.slots)) == map[];
  }

  lemma ZeroIsAcked(ms: Messages, ts: seq<Slot>)
    requires |ms| == 1 && |ms[0]| == 1 && Slot(0, 0) in ts
    ensures 0 in Keys(ms, ts)
  {
    var i :| 0 <= i < |ts| && ts[i] == Slot(0, 0);
    assert Keys(ms, ts)[i] == KeyOf(ms, Slot(0, 0)) == 0;
  }

  // ---- A torn message ----

  /** What happens to a receiver: a datagram is received, or a job drains. */
  datatype Event = Arrival(seqNr: U32, flags: Byte, tail: Bytes) | DrainJob

  function RunEvents(mode: IdMode, events: seq<Event>): DrainResult {
    if events == [] then DrainResult(Receiver.INITIAL, [])
    else
      var n := |events| - 1;
      var before := RunEvents(mode, events[..n]);
      match events[n]
      case Arrival(seqNr, flags, tail) =>
        (match ReceiveStep(mode, before.st, seqNr, flags, tail)
         case SerializationError => before
         case Received(st, _) => before.(st := st))
      case DrainJob => DrainResult(Drain(before.st).st, before.handled + Drain(before.st).handled)
  }

  /** Number 0 carries the first fragment of a message of several fragments, and number 1 a message
      of one fragment; the other numbers carry anything. */
  predicate TornStart(e: Event) {
    e.Arrival? ==>
      && (e.seqNr == 0 ==> HasBit(e.flags, FirstBit) && !HasBit(e.flags, LastBit))
      && (e.seqNr == 1 ==> HasBit(e.flags, FirstBit) && HasBit(e.flags, LastBit))
  }

  ghost predicate Wedged(st: RecvState) {
    && st.recvSeq == 0 && 0 !in st.packets && 1 !in st.fragments
    && (0 in st.fragments ==> HasBit(st.fragments[0].flags, FirstBit) && !HasBit(st.fragments[0].flags, LastBit))
  }

  /** Without number 1 the walk down reaches number 0 only from number 0. */
  lemma {:induction false} BeginsAtZero(f: Fragments, seqNr: U32)
    requires 1 !in f && FindBegin(f, seqNr) == Some(0)
    ensures seqNr == 0
    decreases |f|
  {
    if !HasBit(f[seqNr].flags, FirstBit) {
      assert (f - {seqNr}).Keys == f.Keys - {seqNr};
      BeginsAtZero(f - {seqNr}, Wrap(seqNr - 1));
    }
  }

  lemma NeverFromZero(f: Fragments, seqNr: U32)
    requires 1 !in f && (0 in f ==> !HasBit(f[0].flags, LastBit))
    ensures var r := TryReassemble(f, seqNr); r.Some? ==> r.value.begin != 0 && 1 !in r.value.rest
  {
    if FindBegin(f, seqNr) == Some(0) {
      BeginsAtZero(f, seqNr);
      assert FindEnd(f, 0) == None;
    }
  }

  lemma WedgedStep(mode: IdMode, st: RecvState, e: Event)
    requires Wedged(st) && TornStart(e) && e.Arrival?
    ensures var r := ReceiveStep(mode, st, e.seqNr, e.flags, e.tail); r.Received? ==> Wedged(r.st)
  {
    var u := Unpack(mode, e.flags, e.tail);
    if u.Some? && !(HasBit(e.flags, FirstBit) && HasBit(e.flags, LastBit)) {
      NeverFromZero(st.fragments[e.seqNr := u.value], e.seqNr);
    }
  }

  /** A stream that begins with a torn message, whose first fragment is followed by another message,
      is stuck for ever: whatever arrives and however often the jobs drain, nothing is handed over. */
  lemma {:induction false} TornMessageWedges(mode: IdMode, events: seq<Event>)
    requires forall i :: 0 <= i < |events| ==> TornStart(events[i])
    ensures RunEvents(mode, events).handled == [] && Wedged(RunEvents(mode, events).st)
  {
    if events != [] {
      var n := |events| - 1;
      TornMessageWedges(mode, events[..n]);
      if events[n].Arrival? {
        WedgedStep(mode, RunEvents(mode, events[..n]).st, events[n]);
      }
    }
  }
}

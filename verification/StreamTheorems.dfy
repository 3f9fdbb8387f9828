/** What the reliable stream guarantees over whole runs. */
module StreamTheorems {
  import opened Words
  import opened Chunking
  import opened Packets
  import opened Reassembly
  import opened Receiver
  import opened Layout
  import opened StreamReceiver
  import opened Stream
  import Acks

  // ---- What one message turns into ----

  const ROOM := MAX_FRAGMENT_SIZE - MIN_HDR_SIZE

  /** The message bytes that survive the id read, out of the first n fragment bodies: the
      receive that reads an id from every fragment swallows the first byte of each
      continuation. */
  function Surviving(mode: IdMode, bodies: seq<Bytes>, n: nat): Bytes
    requires n <= |bodies|
  {
    if n == 0 then []
    else
      var body := bodies[n - 1];
      Surviving(mode, bodies, n - 1)
      + (if mode == OnFirstOnly || n == 1 || body == [] then body else body[1..])
  }

  /** The packet that the receiver hands to handlePacket for a message. */
  function AsReceived(cfg: Config, msg: Message): RecvPacket
    requires cfg.channel <= 7
  {
    var data := Flatten(msg.serializers);
    var bodies := Bodies(data, ROOM);
    RecvPacket(msg.id, Surviving(cfg.mode, bodies, |bodies|),
               MakeChannelAndFlags(cfg.channel, false, msg.sysBit, true, |data| <= ROOM))
  }

  lemma PartOfFragment(mode: IdMode, h: Header, body: Bytes, first: bool, last: bool)
    requires h.channel <= 7 && (first || body != [])
    ensures var part := Part(mode, Fragment(h, body, first, last));
            && part.flags == MakeChannelAndFlags(h.channel, h.relay, h.sysBit, first, last)
            && (first ==> part.id == h.dataId)
            && part.data == (if first || mode == OnFirstOnly then body else body[1..])
  {
    FragmentShape(h, body, first, last);
    var p := Fragment(h, body, first, last);
    if !first {
      assert p[3..] == body[1..];
    }
  }

  lemma {:induction false} JoinedIsSurviving(mode: IdMode, h: Header, bodies: seq<Bytes>, n: nat)
    requires h.channel <= 7 && n <= |bodies|
    requires forall i :: 0 < i < |bodies| ==> bodies[i] != []
    ensures |FragmentsOf(h, bodies, true)| == |bodies|
    ensures Joined(mode, FragmentsOf(h, bodies, true), n) == Surviving(mode, bodies, n)
  {
    FragmentsOfAt(h, bodies, true);
    if n > 0 {
      JoinedIsSurviving(mode, h, bodies, n - 1);
      PartOfFragment(mode, h, bodies[n - 1], n == 1, n == |bodies|);
    }
  }

  /** Fragmenting a message and reassembling its fragments, through the receive of either mode,
      gives exactly AsReceived. */
  lemma FragmentThenReceive(cfg: Config, msg: Message)
    requires cfg.channel <= 7
    ensures PacketsOf(cfg, msg) != [] && Whole(cfg.mode, PacketsOf(cfg, msg)) == AsReceived(cfg, msg)
  {
    var h, data := HeaderOf(cfg, msg), Flatten(msg.serializers);
    var bodies := Bodies(data, ROOM);
    BodiesConserve(data, ROOM);
    FragmentsOfAt(h, bodies, true);
    JoinedIsSurviving(cfg.mode, h, bodies, |bodies|);
    PartOfFragment(cfg.mode, h, bodies[0], true, |bodies| == 1);
  }

  lemma {:induction false} SurvivingIntended(bodies: seq<Bytes>, n: nat)
    requires n <= |bodies|
    ensures Surviving(OnFirstOnly, bodies, n) == Flatten(bodies[..n])
  {
    if n > 0 {
      SurvivingIntended(bodies, n - 1);
      assert bodies[..n] == bodies[..n - 1] + [bodies[n - 1]];
      FlattenSnoc(bodies[..n - 1], bodies[n - 1]);
    }
  }

  /** With the id read on FIRST fragments only, id, channel and every byte come back. */
  lemma IntendedRoundTrip(cfg: Config, msg: Message)
    requires cfg.channel <= 7 && cfg.mode == OnFirstOnly
    ensures AsReceived(cfg, msg).id == msg.id
    ensures AsReceived(cfg, msg).data == Flatten(msg.serializers)
    ensures ChannelOf(AsReceived(cfg, msg).flags) == cfg.channel
    ensures HasBit(AsReceived(cfg, msg).flags, SystemBit) == msg.sysBit
  {
    var data := Flatten(msg.serializers);
    var bodies := Bodies(data, ROOM);
    BodiesConserve(data, ROOM);
    SurvivingIntended(bodies, |bodies|);
    assert bodies[..|bodies|] == bodies;
    FlagsDecode(cfg.channel, false, msg.sysBit, true, |data| <= ROOM);
  }

  lemma {:induction false} SurvivingLength(bodies: seq<Bytes>, n: nat)
    requires n <= |bodies| && forall i :: 0 < i < |bodies| ==> bodies[i] != []
    ensures |Surviving(OnEveryFragment, bodies, n)| == |Flatten(bodies[..n])| - (if n == 0 then 0 else n - 1)
  {
    if n > 0 {
      SurvivingLength(bodies, n - 1);
      assert bodies[..n] == bodies[..n - 1] + [bodies[n - 1]];
      FlattenSnoc(bodies[..n - 1], bodies[n - 1]);
    }
  }

  /** With `receive` as written, one byte is lost per continuation fragment, so a message comes
      back unchanged if and only if it fits one fragment. */
  lemma AsWrittenRoundTrip(cfg: Config, msg: Message)
    requires cfg.channel <= 7 && cfg.mode == OnEveryFragment
    ensures AsReceived(cfg, msg).id == msg.id
    ensures |AsReceived(cfg, msg).data| == |Flatten(msg.serializers)| - (|PacketsOf(cfg, msg)| - 1)
    ensures AsReceived(cfg, msg).data == Flatten(msg.serializers) <==> |Flatten(msg.serializers)| <= ROOM
  {
    var data := Flatten(msg.serializers);
    var bodies := Bodies(data, ROOM);
    BodiesConserve(data, ROOM);
    SurvivingLength(bodies, |bodies|);
    assert bodies[..|bodies|] == bodies;
    FragmentsOfAt(HeaderOf(cfg, msg), bodies, true);
    if |data| <= ROOM {
      assert Surviving(cfg.mode, bodies, 1) == Surviving(cfg.mode, bodies, 0) + bodies[0];
      assert bodies == [data];
    }
  }

  // ---- Safety of whole runs ----

  /** The messages enqueued by a run, in order. */
  function Enqueued(steps: seq<Step>): seq<Message> {
    if steps == [] then []
    else (if steps[0].Enqueue? then [steps[0].msg] else []) + Enqueued(steps[1..])
  }

  function AllPackets(cfg: Config, msgs: seq<Message>): Messages
    requires cfg.channel <= 7
  {
    seq(|msgs|, i requires 0 <= i < |msgs| => PacketsOf(cfg, msgs[i]))
  }

  function AllReceived(cfg: Config, msgs: seq<Message>): seq<RecvPacket>
    requires cfg.channel <= 7
  {
    seq(|msgs|, i requires 0 <= i < |msgs| => AsReceived(cfg, msgs[i]))
  }

  lemma {:induction false} RunMessages(cfg: Config, s: Sys, steps: seq<Step>)
    requires cfg.channel <= 7 && Legal(cfg, s, steps)
    ensures Exec(cfg, s, steps).ms == s.ms + AllPackets(cfg, Enqueued(steps))
    decreases |steps|
  {
    if steps != [] {
      var s' := Apply(cfg, s, steps[0]);
      RunMessages(cfg, s', steps[1..]);
      var later := AllPackets(cfg, Enqueued(steps[1..]));
      if steps[0].Enqueue? {
        assert AllPackets(cfg, Enqueued(steps)) == [PacketsOf(cfg, steps[0].msg)] + later;
        Regroup(s.ms, [PacketsOf(cfg, steps[0].msg)], later);
      } else {
        assert Enqueued(steps) == Enqueued(steps[1..]);
      }
    }
  }

  lemma {:induction false} WholesAreReceived(cfg: Config, msgs: seq<Message>, a: nat, b: nat)
    requires cfg.channel <= 7 && a <= b <= |msgs| && NoneEmpty(AllPackets(cfg, msgs))
    ensures Wholes(cfg.mode, AllPackets(cfg, msgs), a, b) == AllReceived(cfg, msgs)[a..b]
    decreases b - a
  {
    if a < b {
      WholesAreReceived(cfg, msgs, a + 1, b);
      FragmentThenReceive(cfg, msgs[a]);
      CutFirst(AllReceived(cfg, msgs), a, b);
    }
  }

  lemma CutFirst<T>(xs: seq<T>, a: nat, b: nat)
    requires a < b <= |xs|
    ensures xs[a..b] == [xs[a]] + xs[a + 1..b]
  {
  }

  /** In every run over a network that loses, duplicates and reorders datagrams, and for every
      interleaving of the drain jobs, the packets given to handlePacket are a prefix of the
      messages enqueued: in order, none skipped, none twice. */
  lemma DeliveryInOrder(cfg: Config, steps: seq<Step>)
    requires cfg.channel <= 7 && Legal(cfg, Stream.INITIAL, steps)
    ensures var s := Exec(cfg, Stream.INITIAL, steps);
            && s.p.done <= |Enqueued(steps)|
            && s.dst.handled == AllReceived(cfg, Enqueued(steps))[..s.p.done]
  {
    InitialInv(cfg);
    RunInv(cfg, Stream.INITIAL, steps);
    RunMessages(cfg, Stream.INITIAL, steps);
    var s, msgs := Exec(cfg, Stream.INITIAL, steps), Enqueued(steps);
    assert s.ms == AllPackets(cfg, msgs);
    WholesAreReceived(cfg, msgs, 0, s.p.done);
  }

  // ---- Where every number is ----

  /** The four places for a number: the send queue, the map of fragments, the map of packets, or
      below the expected number because its message was handed over. */
  ghost predicate Placed(cfg: Config, s: Sys, t: Slot)
    requires IsSlot(s.ms, t)
  {
    || (KeyOf(s.ms, t) in s.src.send.queue && s.src.send.queue[KeyOf(s.ms, t)] == s.ms[t.msg][t.idx])
    || HasArrived(cfg, s, t)
  }

  /** The last three of them. */
  ghost predicate HasArrived(cfg: Config, s: Sys, t: Slot)
    requires IsSlot(s.ms, t)
  {
    || (KeyOf(s.ms, t) in s.dst.recv.fragments
        && s.dst.recv.fragments[KeyOf(s.ms, t)] == Part(cfg.mode, s.ms[t.msg][t.idx]))
    || Stored(cfg.mode, s.ms, s.dst.recv.packets, t.msg)
    || t.msg < |s.dst.handled|
  }

  lemma {:induction false} WholesLength(mode: IdMode, ms: Messages, a: nat, b: nat)
    requires a <= b <= |ms| && NoneEmpty(ms)
    ensures |Wholes(mode, ms, a, b)| == b - a
    decreases b - a
  {
    if a < b {
      WholesLength(mode, ms, a + 1, b);
    }
  }

  lemma HandledCount(cfg: Config, s: Sys)
    requires Inv(cfg, s)
    ensures |s.dst.handled| == s.p.done <= |s.ms|
    ensures s.dst.recv.recvSeq == Wrap(Start(s.ms, s.p.done))
  {
    WholesLength(cfg.mode, s.ms, 0, s.p.done);
  }

  /** What the maps hold is what the bookkeeping says. */
  lemma ArrivedIsSafe(cfg: Config, s: Sys, t: Slot)
    requires Inv(cfg, s) && IsSlot(s.ms, t)
    ensures HasArrived(cfg, s, t) <==> Safe(s.p, t)
  {
    HandledCount(cfg, s);
    if t.msg >= s.p.done {
      MessageInHorizon(s.ms, s.p, t.msg);
      PartLookup(cfg.mode, s.ms, s.p.parts, s.dst.recv.fragments, t);
      ReadyLookup(cfg.mode, s.ms, s.p.done, s.p.ready, s.dst.recv.packets, t.msg);
      if t.msg in s.p.ready {
        assert Stored(cfg.mode, s.ms, s.dst.recv.packets, t.msg);
      }
    }
  }

  lemma QueuedIsUnacked(cfg: Config, s: Sys, t: Slot)
    requires Inv(cfg, s) && Live(s.ms, t)
    ensures KeyOf(s.ms, t) in s.src.send.queue <==> t in s.unacked
    ensures t in s.unacked ==> Queued(s.ms, s.src.send, t)
  {
    if KeyOf(s.ms, t) in s.src.send.queue {
      var u :| u in s.unacked && KeyOf(s.ms, u) == KeyOf(s.ms, t);
      assert Queued(s.ms, s.src.send, u);
      KeyInjective(s.ms, t, u);
    }
  }

  lemma PlacedIs(cfg: Config, s: Sys, t: Slot)
    requires Inv(cfg, s) && IsSlot(s.ms, t)
    ensures Placed(cfg, s, t) <==> t in s.unacked || Safe(s.p, t)
  {
    ArrivedIsSafe(cfg, s, t);
    if t.msg >= s.p.done {
      MessageInHorizon(s.ms, s.p, t.msg);
      QueuedIsUnacked(cfg, s, t);
    }
  }

  /** No number is lost: in every reachable state, each number ever assigned is in one of the four
      places, or a Link::receive that has acked it is about to hand it to the receiver. While no
      such call is under way it is in one of the four places. */
  lemma NothingLost(cfg: Config, steps: seq<Step>, t: Slot)
    requires cfg.channel <= 7 && Legal(cfg, Stream.INITIAL, steps)
    requires IsSlot(Exec(cfg, Stream.INITIAL, steps).ms, t)
    ensures var s := Exec(cfg, Stream.INITIAL, steps);
            && |s.dst.handled| <= |s.ms| && s.dst.recv.recvSeq == Wrap(Start(s.ms, |s.dst.handled|))
            && (Placed(cfg, s, t) || t in InHand(s.hand))
            && (s.hand == multiset{} ==> Placed(cfg, s, t))
  {
    InitialInv(cfg);
    RunInv(cfg, Stream.INITIAL, steps);
    var s := Exec(cfg, Stream.INITIAL, steps);
    HandledCount(cfg, s);
    PlacedIs(cfg, s, t);
    assert t in s.unacked || Kept(s.p, InHand(s.hand), t);
  }

  ghost predicate Arrives(steps: seq<Step>, t: Slot) {
    exists i :: 0 <= i < |steps| && steps[i].AddAck? && steps[i].d.slot == t
  }

  ghost predicate Receives(steps: seq<Step>, t: Slot) {
    exists i :: 0 <= i < |steps| && steps[i].Receive? && steps[i].d.slot == t
  }

  ghost predicate DeliversAck(steps: seq<Step>, t: Slot) {
    exists i :: 0 <= i < |steps| && steps[i].DeliverAcks? && t in steps[i].a.slots
  }

  /** A fragment becomes safe by being received, and in no other way. */
  lemma ArriveSafeIff(ms: Messages, p: Progress, s: Slot, t: Slot)
    requires IsSlot(ms, s) && (t.msg < |ms| ==> IsSlot(ms, t))
    ensures Safe(Arrive(ms, p, s), t) <==> Safe(p, t) || t == s
  {
    ArriveSafe(ms, p, s);
  }

  lemma StepSafe(cfg: Config, s: Sys, step: Step, t: Slot)
    requires cfg.channel <= 7 && Enabled(cfg, s, step) && (t.msg < |s.ms| ==> IsSlot(s.ms, t))
    ensures Safe(Apply(cfg, s, step).p, t) <==> Safe(s.p, t) || (step.Receive? && step.d.slot == t)
  {
    match step
    case Receive(d) => ArriveSafeIff(s.ms, s.p, d.slot, t);
    case Job => AdvanceFacts(s.p);
    case _ =>
  }

  lemma FirstOrLater(steps: seq<Step>, t: Slot)
    requires steps != []
    ensures Receives(steps, t) <==> (steps[0].Receive? && steps[0].d.slot == t) || Receives(steps[1..], t)
    ensures Arrives(steps, t) <==> (steps[0].AddAck? && steps[0].d.slot == t) || Arrives(steps[1..], t)
    ensures DeliversAck(steps, t) <==> (steps[0].DeliverAcks? && t in steps[0].a.slots) || DeliversAck(steps[1..], t)
  {
    LaterIndex(steps);
  }

  lemma LaterIndex<T>(xs: seq<T>)
    requires xs != []
    ensures forall i :: 0 <= i < |xs| - 1 ==> xs[1..][i] == xs[i + 1]
    ensures forall i :: 1 <= i < |xs| ==> xs[i] == xs[1..][i - 1]
  {
  }

  /** Messages keep their places as a run goes on. */
  lemma SlotEarlier(cfg: Config, s: Sys, steps: seq<Step>, t: Slot)
    requires cfg.channel <= 7 && Legal(cfg, s, steps) && IsSlot(Exec(cfg, s, steps).ms, t)
    ensures t.msg < |s.ms| ==> IsSlot(s.ms, t)
  {
    RunMessages(cfg, s, steps);
  }

  lemma {:induction false} RunSafe(cfg: Config, s: Sys, steps: seq<Step>, t: Slot)
    requires cfg.channel <= 7 && Legal(cfg, s, steps) && IsSlot(Exec(cfg, s, steps).ms, t)
    ensures Safe(Exec(cfg, s, steps).p, t) <==> Safe(s.p, t) || Receives(steps, t)
    decreases |steps|
  {
    if steps != [] {
      SlotEarlier(cfg, s, steps, t);
      StepSafe(cfg, s, steps[0], t);
      FirstOrLater(steps, t);
      RunSafe(cfg, Apply(cfg, s, steps[0]), steps[1..], t);
    }
  }

  lemma StepUnacked(cfg: Config, s: Sys, step: Step, t: Slot)
    requires Inv(cfg, s) && Enabled(cfg, s, step) && (t.msg < |s.ms| ==> IsSlot(s.ms, t))
    ensures var s' := Apply(cfg, s, step);
            (t.msg < |s'.ms| ==> IsSlot(s'.ms, t)) ==>
              (t in s'.unacked || t.msg >= |s'.ms| <==>
                (t in s.unacked || t.msg >= |s.ms|) && !(step.DeliverAcks? && t in step.a.slots))
  {
    match step
    case DeliverAcks(a) => assert AckedOk(s.ms, s.p, InHand(s.hand), a.slots);
    case Enqueue(msg) =>
      if t.msg == |s.ms| {
        assert t == Slot(|s.ms|, t.idx);
      }
    case _ =>
  }

  /** A number leaves the queue by being acked, and in no other way. */
  lemma {:induction false} RunUnacked(cfg: Config, s: Sys, steps: seq<Step>, t: Slot)
    requires Inv(cfg, s) && Legal(cfg, s, steps) && IsSlot(Exec(cfg, s, steps).ms, t)
    ensures t in Exec(cfg, s, steps).unacked <==> (t in s.unacked || t.msg >= |s.ms|) && !DeliversAck(steps, t)
    decreases |steps|
  {
    if steps != [] {
      var s' := Apply(cfg, s, steps[0]);
      StepInv(cfg, s, steps[0]);
      SlotEarlier(cfg, s, steps, t);
      SlotEarlier(cfg, s', steps[1..], t);
      StepUnacked(cfg, s, steps[0], t);
      FirstOrLater(steps, t);
      RunUnacked(cfg, s', steps[1..], t);
    }
  }

  /** Exactly when a number is nowhere: in every run, it is in none of the four places if and only
      if an ack for it has been delivered and its datagram has not been received. */
  lemma NowhereExactly(cfg: Config, steps: seq<Step>, t: Slot)
    requires cfg.channel <= 7 && Legal(cfg, Stream.INITIAL, steps)
    requires IsSlot(Exec(cfg, Stream.INITIAL, steps).ms, t)
    ensures !Placed(cfg, Exec(cfg, Stream.INITIAL, steps), t) <==> DeliversAck(steps, t) && !Receives(steps, t)
  {
    InitialInv(cfg);
    RunInv(cfg, Stream.INITIAL, steps);
    PlacedIs(cfg, Exec(cfg, Stream.INITIAL, steps), t);
    RunSafe(cfg, Stream.INITIAL, steps, t);
    RunUnacked(cfg, Stream.INITIAL, steps, t);
  }

  /** In every run, what an ack datagram erases from the send queue has arrived or is in hand; it
      has arrived if its datagram was received, and only then. */
  lemma AcksEraseOnlyKept(cfg: Config, steps: seq<Step>, a: AckDatagram, k: U32) returns (t: Slot)
    requires cfg.channel <= 7 && Legal(cfg, Stream.INITIAL, steps)
    requires var s := Exec(cfg, Stream.INITIAL, steps);
             Enabled(cfg, s, DeliverAcks(a)) && k in s.src.send.queue && k !in Apply(cfg, s, DeliverAcks(a)).src.send.queue
    ensures var s := Exec(cfg, Stream.INITIAL, steps);
            && IsSlot(s.ms, t) && KeyOf(s.ms, t) == k && s.src.send.queue[k] == s.ms[t.msg][t.idx]
            && (HasArrived(cfg, s, t) || t in InHand(s.hand))
            && (s.hand == multiset{} ==> HasArrived(cfg, s, t))
            && (HasArrived(cfg, s, t) <==> Receives(steps, t))
  {
    InitialInv(cfg);
    RunInv(cfg, Stream.INITIAL, steps);
    var s := Exec(cfg, Stream.INITIAL, steps);
    t := QueuedSlot(cfg, s, k);
    ErasedIsKept(cfg, s, a, t);
    ArrivedIsSafe(cfg, s, t);
    RunSafe(cfg, Stream.INITIAL, steps, t);
  }

  /** The fragment that a number in the send queue stands for. */
  lemma QueuedSlot(cfg: Config, s: Sys, k: U32) returns (t: Slot)
    requires Inv(cfg, s) && k in s.src.send.queue
    ensures t in s.unacked && Live(s.ms, t) && KeyOf(s.ms, t) == k && s.src.send.queue[k] == s.ms[t.msg][t.idx]
  {
    t :| t in s.unacked && KeyOf(s.ms, t) == k;
    assert Queued(s.ms, s.src.send, t);
  }

  /** What an ack datagram erases is kept at the receiving end. */
  lemma ErasedIsKept(cfg: Config, s: Sys, a: AckDatagram, t: Slot)
    requires Inv(cfg, s) && Enabled(cfg, s, DeliverAcks(a))
    ensures t in s.unacked && Live(s.ms, t) && KeyOf(s.ms, t) !in Apply(cfg, s, DeliverAcks(a)).src.send.queue ==>
              Kept(s.p, InHand(s.hand), t)
  {
    DeliverAcksInv(cfg, s, a);
    if Live(s.ms, t) {
      QueuedIsUnacked(cfg, Apply(cfg, s, DeliverAcks(a)), t);
    }
    assert AckedOk(s.ms, s.p, InHand(s.hand), a.slots);
  }

  /** No stuck message: when the expected number is a key of the map of packets a drain job is
      pending; no message whose numbers were not reused lies complete in the map of fragments; and
      every key of the map of packets is the start of a message inside the window. */
  lemma NothingStuck(cfg: Config, steps: seq<Step>)
    requires cfg.channel <= 7 && Legal(cfg, Stream.INITIAL, steps)
    ensures var s := Exec(cfg, Stream.INITIAL, steps);
            && |s.dst.handled| <= |s.ms|
            && (s.dst.recv.recvSeq in s.dst.recv.packets ==> s.dst.jobs > 0)
            && (forall m: nat :: AllLive(s.ms, m) && |s.ms[m]| > 1 ==> SomeFragmentAbsent(s.ms, s.dst.recv.fragments, m))
            && (forall k :: k in s.dst.recv.packets ==> StartsInWindow(s.ms, |s.dst.handled|, k))
  {
    InitialInv(cfg);
    RunInv(cfg, Stream.INITIAL, steps);
    var s := Exec(cfg, Stream.INITIAL, steps);
    HandledCount(cfg, s);
    DrainStep(cfg.mode, s.ms, s.p, s.dst.recv);
    forall m: nat | AllLive(s.ms, m) && |s.ms[m]| > 1
      ensures SomeFragmentAbsent(s.ms, s.dst.recv.fragments, m)
    {
      NotAllHeld(cfg, s, m);
    }
    forall k | k in s.dst.recv.packets
      ensures StartsInWindow(s.ms, s.p.done, k)
    {
      KeyStartsInWindow(cfg.mode, s.ms, s.p.done, s.p.ready, s.dst.recv.packets, k);
    }
  }

  /** k is the number of the first fragment of a message, not before `done` and inside the window. */
  ghost predicate StartsInWindow(ms: Messages, done: nat, k: U32)
    requires done <= |ms|
  {
    exists m :: done <= m < |ms| && MsgKey(ms, m) == k && Start(ms, m) < Start(ms, done) + WINDOW
  }

  lemma KeyStartsInWindow(mode: IdMode, ms: Messages, done: nat, ready: set<nat>, packets: map<U32, Entry>, k: U32)
    requires ReadyMatch(mode, ms, done, ready, packets) && k in packets
    ensures StartsInWindow(ms, done, k)
  {
    var m :| m in ready && MsgKey(ms, m) == k;
    assert Waiting(ms, done, m);
  }

  ghost predicate SomeFragmentAbsent(ms: Messages, f: Fragments, m: nat)
    requires m < |ms|
  {
    exists i :: 0 <= i < |ms[m]| && KeyOf(ms, Slot(m, i)) !in f
  }

  lemma NotAllHeld(cfg: Config, s: Sys, m: nat)
    requires Inv(cfg, s) && AllLive(s.ms, m) && |s.ms[m]| > 1
    ensures SomeFragmentAbsent(s.ms, s.dst.recv.fragments, m)
  {
    assert !Complete(s.ms, s.p.parts, m);
    var i: nat :| i < |s.ms[m]| && Slot(m, i) !in s.p.parts;
    PartLookup(cfg.mode, s.ms, s.p.parts, s.dst.recv.fragments, Slot(m, i));
  }

  // ---- One clean round drains the stream ----

  ghost predicate NoEnqueue(steps: seq<Step>) {
    forall i :: 0 <= i < |steps| ==> !steps[i].Enqueue?
  }

  lemma StepKept(cfg: Config, s: Sys, step: Step, t: Slot)
    requires Inv(cfg, s) && Enabled(cfg, s, step)
    requires Kept(s.p, InHand(s.hand), t) || (step.AddAck? && step.d.slot == t)
    ensures var s' := Apply(cfg, s, step); Kept(s'.p, InHand(s'.hand), t)
  {
    match step
    case AddAck(d) => TakeInHand(s.hand, d);
    case Receive(d) => ReceiveKeeps(s.ms, s.p, s.hand, d);
    case Job => JobRecv(cfg, s.ms, s.p, s.dst);
    case _ =>
  }

  /** What has arrived is kept from then on. */
  lemma {:induction false} RunKept(cfg: Config, s: Sys, steps: seq<Step>, t: Slot)
    requires Inv(cfg, s) && Legal(cfg, s, steps)
    requires Kept(s.p, InHand(s.hand), t) || Arrives(steps, t)
    ensures var s' := Exec(cfg, s, steps); Kept(s'.p, InHand(s'.hand), t)
    decreases |steps|
  {
    if steps != [] {
      StepInv(cfg, s, steps[0]);
      FirstOrLater(steps, t);
      if Kept(s.p, InHand(s.hand), t) || (steps[0].AddAck? && steps[0].d.slot == t) {
        StepKept(cfg, s, steps[0], t);
      }
      RunKept(cfg, Apply(cfg, s, steps[0]), steps[1..], t);
    }
  }

  /** If every fragment of the first n messages is safe and no job is pending, all n messages
      were handed over. */
  lemma AllSafeMeansDelivered(cfg: Config, s: Sys, n: nat)
    requires Inv(cfg, s) && n <= |s.ms| && s.dst.jobs == 0
    requires forall t :: IsSlot(s.ms, t) && t.msg < n ==> Safe(s.p, t)
    ensures s.p.done >= n
  {
    if s.p.done < |s.ms| {
      var t := NextIsMissing(cfg, s);
    }
  }

  /** With no job pending, some fragment of the next message has not come. */
  lemma NextIsMissing(cfg: Config, s: Sys) returns (t: Slot)
    requires Inv(cfg, s) && s.dst.jobs == 0 && s.p.done < |s.ms|
    ensures IsSlot(s.ms, t) && t.msg == s.p.done && !Safe(s.p, t)
  {
    var m := s.p.done;
    if |s.ms[m]| == 1 {
      t := Slot(m, 0);
    } else {
      assert !Complete(s.ms, s.p.parts, m);
      var i: nat :| i < |s.ms[m]| && Slot(m, i) !in s.p.parts;
      t := Slot(m, i);
    }
  }

  /** One clean round: if every un-acked fragment arrives at least once, in any order and with any
      duplicates and other steps in between, and in the end no call of Link::receive is half done
      and no drain job pending, then every message enqueued before the round was handed over. */
  lemma CleanRoundDelivers(cfg: Config, s: Sys, steps: seq<Step>)
    requires Inv(cfg, s) && Legal(cfg, s, steps) && AllArrive(s, steps)
    ensures var s' := Exec(cfg, s, steps);
            s'.hand == multiset{} && s'.dst.jobs == 0 ==>
            && |s.ms| <= s'.p.done <= |s'.ms| && NoneEmpty(s'.ms)
            && s'.dst.handled == Wholes(cfg.mode, s'.ms, 0, s'.p.done)
            && (NoEnqueue(steps) ==> s'.p.done == |s'.ms|)
  {
    var s' := Exec(cfg, s, steps);
    RunInv(cfg, s, steps);
    RunMessages(cfg, s, steps);
    if s'.hand == multiset{} && s'.dst.jobs == 0 {
      forall t | IsSlot(s'.ms, t) && t.msg < |s.ms|
        ensures Safe(s'.p, t)
      {
        assert IsSlot(s.ms, t);
        RunKept(cfg, s, steps, t);
      }
      AllSafeMeansDelivered(cfg, s', |s.ms|);
      if NoEnqueue(steps) {
        NothingEnqueued(steps);
      }
    }
  }

  /** Every un-acked fragment arrives at least once. */
  ghost predicate AllArrive(s: Sys, steps: seq<Step>) {
    forall t :: t in s.unacked ==> Arrives(steps, t)
  }

  lemma {:induction false} NothingEnqueued(steps: seq<Step>)
    requires NoEnqueue(steps)
    ensures Enqueued(steps) == []
  {
    if steps != [] {
      assert NoEnqueue(steps[1..]);
      NothingEnqueued(steps[1..]);
    }
  }

  // ---- The acks of a clean round empty the queue ----

  /** An ack for t waits in the list or is under way. */
  ghost predicate AckUnderWay(s: Sys, t: Slot) {
    t in s.acks || exists a :: a in s.ackNet && t in a.slots
  }

  lemma SendAcksKeeps(cfg: Config, s: Sys, t: Slot)
    requires Inv(cfg, s) && t in s.acks
    ensures AckUnderWay(ApplySendAcks(cfg, s), t)
  {
    var per := Acks.AcksPerDatagram(cfg.mtu);
    var batches := Chunks(s.acks, per);
    ChunksConserve(s.acks, per);
    FlattenMember(batches, t);
    var i :| 0 <= i < |batches| && t in batches[i];
    BatchKeys(cfg, s.ms, s.p, InHand(s.hand), s.acks, i);
    var bytes := Acks.AckDatagrams(cfg.channel, s.dst.ackList, cfg.mtu);
    assert AckDatagram(batches[i], bytes[i]) in ApplySendAcks(cfg, s).ackNet;
  }

  /** Every datagram that arrives is acked, stale ones included. */
  lemma {:induction false} RunAcks(cfg: Config, s: Sys, steps: seq<Step>, t: Slot)
    requires Inv(cfg, s) && Legal(cfg, s, steps)
    requires AckUnderWay(s, t) || Arrives(steps, t)
    ensures AckUnderWay(Exec(cfg, s, steps), t)
    decreases |steps|
  {
    if steps != [] {
      StepInv(cfg, s, steps[0]);
      FirstOrLater(steps, t);
      if AckUnderWay(s, t) || (steps[0].AddAck? && steps[0].d.slot == t) {
        StepAcks(cfg, s, steps[0], t);
      }
      RunAcks(cfg, Apply(cfg, s, steps[0]), steps[1..], t);
    }
  }

  lemma StepAcks(cfg: Config, s: Sys, step: Step, t: Slot)
    requires Inv(cfg, s) && Enabled(cfg, s, step)
    requires AckUnderWay(s, t) || (step.AddAck? && step.d.slot == t)
    ensures AckUnderWay(Apply(cfg, s, step), t)
  {
    if step.SendAcks? && t in s.acks {
      SendAcksKeeps(cfg, s, t);
    }
  }

  lemma EmptyQueue(cfg: Config, s: Sys)
    requires Inv(cfg, s) && s.unacked == {}
    ensures s.src.send.queue == map[]
  {
    assert forall k :: k !in s.src.send.queue;
  }

  /** If every un-acked fragment arrives, the ack list is then flushed, and every ack datagram
      under way that mentions a still queued fragment arrives, the sender's queue is empty. */
  lemma CleanRoundEmptiesQueue(cfg: Config, s: Sys, steps1: seq<Step>, steps2: seq<Step>)
    requires Inv(cfg, s) && Legal(cfg, s, steps1) && Legal(cfg, Exec(cfg, s, steps1), steps2)
    ensures var s1 := Exec(cfg, s, steps1);
            && NoEnqueue(steps1) && AllArrive(s, steps1) && s1.acks == []
            && NoEnqueue(steps2) && AllAcksArrive(s1, steps2) ==>
              Exec(cfg, s1, steps2).src.send.queue == map[]
  {
    if NoEnqueue(steps1) && AllArrive(s, steps1) && Exec(cfg, s, steps1).acks == []
       && NoEnqueue(steps2) && AllAcksArrive(Exec(cfg, s, steps1), steps2) {
      var s1 := Exec(cfg, s, steps1);
      var s2 := Exec(cfg, s1, steps2);
      RunInv(cfg, s, steps1);
      RunInv(cfg, s1, steps2);
      RunMessages(cfg, s, steps1);
      RunMessages(cfg, s1, steps2);
      NothingEnqueued(steps1);
      NothingEnqueued(steps2);
      forall t | IsSlot(s.ms, t)
        ensures t !in s2.unacked
      {
        RunUnacked(cfg, s1, steps2, t);
        RunUnacked(cfg, s, steps1, t);
        if t in s.unacked {
          RunAcks(cfg, s, steps1, t);
          if t in s1.unacked {
            var a :| a in s1.ackNet && t in a.slots;
            assert DeliversAck(steps2, t);
          }
        }
      }
      forall t | t in s2.unacked
        ensures IsSlot(s.ms, t)
      {
        assert Queued(s2.ms, s2.src.send, t);
      }
      assert s2.unacked == {};
      EmptyQueue(cfg, s2);
    }
  }

  /** Every ack under way for a queued fragment arrives. */
  ghost predicate AllAcksArrive(s: Sys, steps: seq<Step>) {
    forall a, t :: a in s.ackNet && t in a.slots && t in s.unacked ==> DeliversAck(steps, t)
  }

  // ---- The walks over the fragments end ----

  /** A number that was never given a fragment, or whose fragment is absent, is absent from the map. */
  lemma NextNumberIsAbsent(cfg: Config, s: Sys)
    requires Inv(cfg, s)
    ensures Wrap(Total(s.ms)) !in s.dst.recv.fragments
  {
    if Wrap(Total(s.ms)) in s.dst.recv.fragments {
      var u :| u in s.p.parts && KeyOf(s.ms, u) == Wrap(Total(s.ms));
      NotNextNumber(s.ms, u);
    }
  }

  lemma NotNextNumber(ms: Messages, u: Slot)
    requires IsSlot(ms, u) && Total(ms) < SeqOf(ms, u) + CYCLE
    ensures KeyOf(ms, u) != Wrap(Total(ms))
  {
    SlotBounds(ms, u, 0);
    if KeyOf(ms, u) == Wrap(Total(ms)) {
      WrapInjective(SeqOf(ms, u), Total(ms));
    }
  }

  /** Some fragment of the last message is absent, and its number is not the next one. */
  lemma LastMessageHasGap(cfg: Config, s: Sys) returns (k: U32)
    requires Inv(cfg, s) && s.p.done < |s.ms|
    ensures k !in s.dst.recv.fragments && k != Wrap(Total(s.ms))
  {
    var m := |s.ms| - 1;
    MessageInHorizon(s.ms, s.p, m);
    var i: nat := 0;
    if |s.ms[m]| > 1 {
      assert !Complete(s.ms, s.p.parts, m);
      i :| i < |s.ms[m]| && Slot(m, i) !in s.p.parts;
    }
    k := KeyOf(s.ms, Slot(m, i));
    PartLookup(cfg.mode, s.ms, s.p.parts, s.dst.recv.fragments, Slot(m, i));
    StartMonotone(s.ms, s.p.done, m);
    NotNextNumber(s.ms, Slot(m, i));
  }

  /** Whenever a datagram of the stream may be received, the walks of the receiver end: the component
      can be called there. */
  lemma WalksEndInRuns(cfg: Config, steps: seq<Step>, d: Datagram)
    requires cfg.channel <= 7 && Legal(cfg, Stream.INITIAL, steps)
    requires Enabled(cfg, Exec(cfg, Stream.INITIAL, steps), Receive(d))
    ensures var s := Exec(cfg, Stream.INITIAL, steps); WalksEnd(s.dst.recv.fragments, KeyOf(s.ms, d.slot))
  {
    InitialInv(cfg);
    RunInv(cfg, Stream.INITIAL, steps);
    var s := Exec(cfg, Stream.INITIAL, steps);
    NextNumberIsAbsent(cfg, s);
    if KeyOf(s.ms, d.slot) == Wrap(Total(s.ms)) {
      SlotBounds(s.ms, d.slot, 0);
      if s.p.done == |s.ms| {
        WrapInjective(SeqOf(s.ms, d.slot), Total(s.ms));
      }
      var k := LastMessageHasGap(cfg, s);
    }
  }
}

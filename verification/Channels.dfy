/** Both ends of one link with all eight channels and both directions at once. A datagram that arrives
    at an end is shown to the components of every channel there, and each end sends and receives on the
    same components. The module proves that the sixteen streams do not disturb each other: each of them
    is, step by step, the stream of module Stream on its own. */
module Channels {
  import opened Words
  import opened Packets
  import opened Receiver
  import opened Layout
  import opened StreamReceiver
  import opened Link
  import Sender
  import Acks
  import Stream
  import StreamTheorems

  type Channel = c: Byte | c < 8

  /** How the receiving ends read ids, and the mtu of the link. */
  datatype Setup = Setup(mode: IdMode, mtu: nat)

  function ConfigOf(setup: Setup, c: Channel): Stream.Config {
    Stream.Config(setup.mode, c, setup.mtu)
  }

  /** What Stream.Sys records of a stream besides the two endpoints. */
  datatype Track = Track(
    net: set<Stream.Datagram>, ackNet: set<Stream.AckDatagram>, ms: Messages, p: Progress,
    unacked: set<Slot>, acks: seq<Slot>, hand: multiset<Stream.Datagram>)

  /** The components of the eight channels at the near and at the far end, and the streams there (from
      near to far) and back. */
  datatype Pair = Pair(near: seq<Endpoint>, far: seq<Endpoint>, there: seq<Track>, back: seq<Track>)

  datatype Way = There | Back

  /** A step of the stream of one channel and direction. */
  datatype Move = Move(way: Way, c: Channel, step: Stream.Step)

  predicate Shaped(d: Pair) {
    |d.near| == |d.far| == |d.there| == |d.back| == 8
  }

  /** The same link, seen from the other end. */
  function Flip(d: Pair): Pair {
    Pair(d.far, d.near, d.back, d.there)
  }

  const NO_TRACK := TrackOf(Stream.INITIAL)
  const INITIAL := Pair(seq(8, _ => FRESH), seq(8, _ => FRESH), seq(8, _ => NO_TRACK), seq(8, _ => NO_TRACK))

  function TrackOf(s: Stream.Sys): Track {
    Track(s.net, s.ackNet, s.ms, s.p, s.unacked, s.acks, s.hand)
  }

  /** The stream of a channel from near to far: it has the sender of the near end and the receiver and
      the ack list of the far end. */
  function StreamThere(d: Pair, c: Channel): Stream.Sys
    requires Shaped(d)
  {
    var t := d.there[c];
    Stream.Sys(FRESH.(send := d.near[c].send), d.far[c].(send := Sender.INITIAL),
               t.net, t.ackNet, t.ms, t.p, t.unacked, t.acks, t.hand)
  }

  function From(d: Pair, way: Way): Pair {
    if way.There? then d else Flip(d)
  }

  function StreamOf(d: Pair, way: Way, c: Channel): Stream.Sys
    requires Shaped(d)
  {
    StreamThere(From(d, way), c)
  }

  // ---- Steps ----

  /** Link::receive up to addAck shows the datagram to every channel of an end ... */
  function AllBegin(ends: seq<Endpoint>, b: Bytes): (r: seq<Endpoint>)
    requires |ends| == 8
    ensures |r| == 8
  {
    seq(8, c requires 0 <= c < 8 => ReceiveBegins(c, ends[c], b))
  }

  /** ... and so does the rest of it. */
  function AllEnd(mode: IdMode, ends: seq<Endpoint>, b: Bytes): (r: seq<Endpoint>)
    requires |ends| == 8
    ensures |r| == 8
  {
    seq(8, c requires 0 <= c < 8 => ReceiveEnds(mode, c, ends[c], b))
  }

  ghost predicate Enabled(setup: Setup, d: Pair, m: Move)
    requires Shaped(d)
  {
    Stream.Enabled(ConfigOf(setup, m.c), StreamOf(d, m.way, m.c), m.step)
  }

  /** A step of a stream from near to far. */
  ghost function ActThere(setup: Setup, d: Pair, c: Channel, step: Stream.Step): (r: Pair)
    requires Shaped(d) && Stream.Enabled(ConfigOf(setup, c), StreamThere(d, c), step)
    ensures Shaped(r)
  {
    var s := Stream.Apply(ConfigOf(setup, c), StreamThere(d, c), step);
    var tracked := d.(there := d.there[c := TrackOf(s)]);
    match step
    case AddAck(g) => tracked.(far := AllBegin(d.far, g.bytes))
    case Receive(g) => tracked.(far := AllEnd(setup.mode, d.far, g.bytes))
    case DeliverAcks(a) => tracked.(near := AllEnd(setup.mode, d.near, a.bytes))
    case _ => tracked.(near := d.near[c := d.near[c].(send := s.src.send)],
                       far := d.far[c := s.dst.(send := d.far[c].send)])
  }

  ghost function Apply(setup: Setup, d: Pair, m: Move): (r: Pair)
    requires Shaped(d) && Enabled(setup, d, m)
    ensures Shaped(r)
  {
    From(ActThere(setup, From(d, m.way), m.c, m.step), m.way)
  }

  ghost predicate Legal(setup: Setup, d: Pair, moves: seq<Move>)
    requires Shaped(d)
    decreases |moves|
  {
    moves == [] || (Enabled(setup, d, moves[0]) && Legal(setup, Apply(setup, d, moves[0]), moves[1..]))
  }

  ghost function Exec(setup: Setup, d: Pair, moves: seq<Move>): (r: Pair)
    requires Shaped(d) && Legal(setup, d, moves)
    ensures Shaped(r)
    decreases |moves|
  {
    if moves == [] then d else Exec(setup, Apply(setup, d, moves[0]), moves[1..])
  }

  // ---- One step concerns one stream ----

  /** The sending part of an endpoint is not touched by data, and the rest of it not by acks. */
  lemma PartsApart(mode: IdMode, c: Byte, ep: Endpoint, b: Bytes, x: Sender.SendState)
    ensures ReceiveBegins(c, ep, b).send == ep.send
    ensures ReceiveBegins(c, ep.(send := x), b) == ReceiveBegins(c, ep, b).(send := x)
    ensures ParseDatagram(b).ReliableData? ==>
              && ReceiveEnds(mode, c, ep, b).send == ep.send
              && ReceiveEnds(mode, c, ep.(send := x), b) == ReceiveEnds(mode, c, ep, b).(send := x)
    ensures ParseDatagram(b).AckData? ==> ReceiveEnds(mode, c, ep, b).(send := x) == ep.(send := x)
  {
  }

  /** What data for channel c does at an end. */
  lemma DataAtEnd(mode: IdMode, ends: seq<Endpoint>, b: Bytes, c: Channel)
    requires |ends| == 8 && ParseDatagram(b).ReliableData? && ParseDatagram(b).channel == c
    ensures forall k: Channel :: AllBegin(ends, b)[k].send == ends[k].send && AllEnd(mode, ends, b)[k].send == ends[k].send
    ensures forall k: Channel :: k != c ==> AllBegin(ends, b)[k] == ends[k] && AllEnd(mode, ends, b)[k] == ends[k]
    ensures AllBegin(ends, b)[c].(send := Sender.INITIAL) == ReceiveBegins(c, ends[c].(send := Sender.INITIAL), b)
    ensures AllEnd(mode, ends, b)[c].(send := Sender.INITIAL) == ReceiveEnds(mode, c, ends[c].(send := Sender.INITIAL), b)
  {
    forall k: Channel
      ensures AllBegin(ends, b)[k].send == ends[k].send && AllEnd(mode, ends, b)[k].send == ends[k].send
    {
      PartsApart(mode, k, ends[k], b, Sender.INITIAL);
    }
    PartsApart(mode, c, ends[c], b, Sender.INITIAL);
  }

  /** What acks for channel c do at an end. */
  lemma AcksAtEnd(mode: IdMode, ends: seq<Endpoint>, b: Bytes, c: Channel)
    requires |ends| == 8 && ParseDatagram(b).AckData? && ParseDatagram(b).channel == c
    ensures forall k: Channel :: AllEnd(mode, ends, b)[k].(send := Sender.INITIAL) == ends[k].(send := Sender.INITIAL)
    ensures forall k: Channel :: k != c ==> AllEnd(mode, ends, b)[k] == ends[k]
    ensures FRESH.(send := AllEnd(mode, ends, b)[c].send) == ReceiveEnds(mode, c, FRESH.(send := ends[c].send), b)
  {
    forall k: Channel
      ensures AllEnd(mode, ends, b)[k].(send := Sender.INITIAL) == ends[k].(send := Sender.INITIAL)
    {
      PartsApart(mode, k, ends[k], b, Sender.INITIAL);
    }
  }

  ghost predicate Undisturbed(d: Pair, after: Pair, c: Channel)
    requires Shaped(d) && Shaped(after)
  {
    && (forall k: Channel :: k != c ==> StreamThere(after, k) == StreamThere(d, k))
    && (forall k: Channel :: StreamThere(Flip(after), k) == StreamThere(Flip(d), k))
  }

  /** A datagram of the stream is data, and of its channel. */
  lemma DataOf(cfg: Stream.Config, s: Stream.Sys, g: Stream.Datagram)
    requires Stream.Inv(cfg, s) && g in s.net
    ensures ParseDatagram(g.bytes).ReliableData? && ParseDatagram(g.bytes).channel == cfg.channel
  {
    var payload := s.ms[g.slot.msg][g.slot.idx];
    assert ShapedFragment(payload, RELIABLE_SEND, g.slot.idx == 0, g.slot.idx == |s.ms[g.slot.msg]| - 1);
    ParseData(KeyOf(s.ms, g.slot), payload);
  }

  lemma AcksOf(cfg: Stream.Config, s: Stream.Sys, a: Stream.AckDatagram)
    requires Stream.Inv(cfg, s) && a in s.ackNet
    ensures ParseDatagram(a.bytes).AckData? && ParseDatagram(a.bytes).channel == cfg.channel
  {
    ParseAcks(cfg.channel, Stream.Keys(s.ms, a.slots));
  }

  lemma AddAckAct(setup: Setup, d: Pair, c: Channel, g: Stream.Datagram)
    requires Shaped(d) && ParseDatagram(g.bytes).ReliableData? && ParseDatagram(g.bytes).channel == c
    requires Stream.Enabled(ConfigOf(setup, c), StreamThere(d, c), Stream.AddAck(g))
    ensures var after := ActThere(setup, d, c, Stream.AddAck(g));
      && StreamThere(after, c) == Stream.Apply(ConfigOf(setup, c), StreamThere(d, c), Stream.AddAck(g))
      && Undisturbed(d, after, c)
  {
    DataAtEnd(setup.mode, d.far, g.bytes, c);
  }

  lemma ReceiveAct(setup: Setup, d: Pair, c: Channel, g: Stream.Datagram)
    requires Shaped(d) && ParseDatagram(g.bytes).ReliableData? && ParseDatagram(g.bytes).channel == c
    requires Stream.Enabled(ConfigOf(setup, c), StreamThere(d, c), Stream.Receive(g))
    ensures var after := ActThere(setup, d, c, Stream.Receive(g));
      && StreamThere(after, c) == Stream.Apply(ConfigOf(setup, c), StreamThere(d, c), Stream.Receive(g))
      && Undisturbed(d, after, c)
  {
    DataAtEnd(setup.mode, d.far, g.bytes, c);
  }

  lemma DeliverAcksAct(setup: Setup, d: Pair, c: Channel, a: Stream.AckDatagram)
    requires Shaped(d) && ParseDatagram(a.bytes).AckData? && ParseDatagram(a.bytes).channel == c
    requires Stream.Enabled(ConfigOf(setup, c), StreamThere(d, c), Stream.DeliverAcks(a))
    ensures var after := ActThere(setup, d, c, Stream.DeliverAcks(a));
      && StreamThere(after, c) == Stream.Apply(ConfigOf(setup, c), StreamThere(d, c), Stream.DeliverAcks(a))
      && Undisturbed(d, after, c)
  {
    AcksAtEnd(setup.mode, d.near, a.bytes, c);
  }

  /** The other steps act on the components of one channel only. */
  lemma LocalAct(setup: Setup, d: Pair, c: Channel, step: Stream.Step)
    requires Shaped(d) && Stream.Enabled(ConfigOf(setup, c), StreamThere(d, c), step)
    requires step.Enqueue? || step.Resend? || step.Job? || step.SendAcks?
    ensures var after := ActThere(setup, d, c, step);
      && StreamThere(after, c) == Stream.Apply(ConfigOf(setup, c), StreamThere(d, c), step)
      && Undisturbed(d, after, c)
  {
  }

  /** A step is a step of its own stream and of no other. */
  lemma ActProjects(setup: Setup, d: Pair, c: Channel, step: Stream.Step)
    requires Shaped(d) && Stream.Inv(ConfigOf(setup, c), StreamThere(d, c))
    requires Stream.Enabled(ConfigOf(setup, c), StreamThere(d, c), step)
    ensures var after := ActThere(setup, d, c, step);
      && StreamThere(after, c) == Stream.Apply(ConfigOf(setup, c), StreamThere(d, c), step)
      && Undisturbed(d, after, c)
  {
    match step
    case AddAck(g) =>
      DataOf(ConfigOf(setup, c), StreamThere(d, c), g);
      AddAckAct(setup, d, c, g);
    case Receive(g) =>
      DataOf(ConfigOf(setup, c), StreamThere(d, c), g);
      ReceiveAct(setup, d, c, g);
    case DeliverAcks(a) =>
      AcksOf(ConfigOf(setup, c), StreamThere(d, c), a);
      DeliverAcksAct(setup, d, c, a);
    case _ => LocalAct(setup, d, c, step);
  }

  /** Every stream of the link is in order. */
  ghost predicate Inv(setup: Setup, d: Pair) {
    Shaped(d) && forall way: Way, c: Channel :: Stream.Inv(ConfigOf(setup, c), StreamOf(d, way, c))
  }

  lemma InitialInv(setup: Setup)
    ensures Inv(setup, INITIAL)
    ensures forall way: Way, c: Channel :: StreamOf(INITIAL, way, c) == Stream.INITIAL
  {
    forall way: Way, c: Channel
      ensures Stream.Inv(ConfigOf(setup, c), StreamOf(INITIAL, way, c))
    {
      Stream.InitialInv(ConfigOf(setup, c));
    }
  }

  lemma MoveProjects(setup: Setup, d: Pair, m: Move, way: Way, c: Channel)
    requires Inv(setup, d) && Enabled(setup, d, m)
    ensures StreamOf(Apply(setup, d, m), way, c)
         == if way == m.way && c == m.c then Stream.Apply(ConfigOf(setup, c), StreamOf(d, way, c), m.step)
            else StreamOf(d, way, c)
  {
    var here := From(d, m.way);
    ActProjects(setup, here, m.c, m.step);
    var after := ActThere(setup, here, m.c, m.step);
    if way == m.way {
      assert From(Apply(setup, d, m), way) == after;
    } else {
      assert From(Apply(setup, d, m), way) == Flip(after) && From(d, way) == Flip(here);
    }
  }

  lemma MoveInv(setup: Setup, d: Pair, m: Move)
    requires Inv(setup, d) && Enabled(setup, d, m)
    ensures Inv(setup, Apply(setup, d, m))
  {
    forall way: Way, c: Channel
      ensures Stream.Inv(ConfigOf(setup, c), StreamOf(Apply(setup, d, m), way, c))
    {
      MoveProjects(setup, d, m, way, c);
      if way == m.way && c == m.c {
        Stream.StepInv(ConfigOf(setup, c), StreamOf(d, way, c), m.step);
      }
    }
  }

  // ---- Runs ----

  /** The steps of one stream in a run of the link. */
  function StepsOf(moves: seq<Move>, way: Way, c: Channel): seq<Stream.Step> {
    if moves == [] then []
    else (if moves[0].way == way && moves[0].c == c then [moves[0].step] else []) + StepsOf(moves[1..], way, c)
  }

  lemma StepsOfCons(moves: seq<Move>, way: Way, c: Channel)
    requires moves != []
    ensures var steps, rest := StepsOf(moves, way, c), StepsOf(moves[1..], way, c);
      if moves[0].way == way && moves[0].c == c then steps != [] && steps[0] == moves[0].step && steps[1..] == rest
      else steps == rest
  {
  }

  /** A run of the link is a run of each of its streams. */
  lemma {:induction false} RunProjects(setup: Setup, d: Pair, moves: seq<Move>, way: Way, c: Channel)
    requires Inv(setup, d) && Legal(setup, d, moves)
    ensures Stream.Legal(ConfigOf(setup, c), StreamOf(d, way, c), StepsOf(moves, way, c))
    ensures StreamOf(Exec(setup, d, moves), way, c)
         == Stream.Exec(ConfigOf(setup, c), StreamOf(d, way, c), StepsOf(moves, way, c))
    decreases |moves|
  {
    if moves != [] {
      MoveInv(setup, d, moves[0]);
      MoveProjects(setup, d, moves[0], way, c);
      StepsOfCons(moves, way, c);
      RunProjects(setup, Apply(setup, d, moves[0]), moves[1..], way, c);
    }
  }

  ghost predicate EachLegal(setup: Setup, d: Pair, moves: seq<Move>)
    requires Shaped(d)
  {
    forall way: Way, c: Channel :: Stream.Legal(ConfigOf(setup, c), StreamOf(d, way, c), StepsOf(moves, way, c))
  }

  lemma FirstMove(setup: Setup, d: Pair, moves: seq<Move>)
    requires Inv(setup, d) && moves != [] && EachLegal(setup, d, moves)
    ensures Enabled(setup, d, moves[0]) && EachLegal(setup, Apply(setup, d, moves[0]), moves[1..])
  {
    StepsOfCons(moves, moves[0].way, moves[0].c);
    assert Stream.Legal(ConfigOf(setup, moves[0].c), StreamOf(d, moves[0].way, moves[0].c), StepsOf(moves, moves[0].way, moves[0].c));
    forall way: Way, c: Channel
      ensures Stream.Legal(ConfigOf(setup, c), StreamOf(Apply(setup, d, moves[0]), way, c), StepsOf(moves[1..], way, c))
    {
      MoveProjects(setup, d, moves[0], way, c);
      StepsOfCons(moves, way, c);
    }
  }

  lemma {:induction false} Interleaved(setup: Setup, d: Pair, moves: seq<Move>)
    requires Inv(setup, d) && EachLegal(setup, d, moves)
    ensures Legal(setup, d, moves)
    decreases |moves|
  {
    if moves != [] {
      FirstMove(setup, d, moves);
      MoveInv(setup, d, moves[0]);
      Interleaved(setup, Apply(setup, d, moves[0]), moves[1..]);
    }
  }

  /** The steps of each stream are a run of it alone. */
  ghost predicate EachAlone(setup: Setup, moves: seq<Move>) {
    forall way: Way, c: Channel :: Alone(setup, moves, way, c)
  }

  ghost predicate Alone(setup: Setup, moves: seq<Move>, way: Way, c: Channel) {
    Stream.Legal(ConfigOf(setup, c), Stream.INITIAL, StepsOf(moves, way, c))
  }

  lemma TogetherIfAlone(setup: Setup, moves: seq<Move>)
    requires EachAlone(setup, moves)
    ensures Legal(setup, INITIAL, moves)
  {
    InitialInv(setup);
    forall way: Way, c: Channel
      ensures Stream.Legal(ConfigOf(setup, c), StreamOf(INITIAL, way, c), StepsOf(moves, way, c))
    {
      assert Alone(setup, moves, way, c);
    }
    Interleaved(setup, INITIAL, moves);
  }

  lemma AloneIfTogether(setup: Setup, moves: seq<Move>, way: Way, c: Channel)
    requires Legal(setup, INITIAL, moves)
    ensures Alone(setup, moves, way, c)
    ensures StreamOf(Exec(setup, INITIAL, moves), way, c)
         == Stream.Exec(ConfigOf(setup, c), Stream.INITIAL, StepsOf(moves, way, c))
  {
    InitialInv(setup);
    RunProjects(setup, INITIAL, moves, way, c);
  }

  /** The channels and directions of a link do not disturb each other: any interleaving of runs of the
      sixteen streams, and nothing else, is a run of the link, and it leaves each stream where its own
      run alone would have left it. */
  lemma ChannelsIndependent(setup: Setup, moves: seq<Move>, way: Way, c: Channel)
    ensures Legal(setup, INITIAL, moves) <==> EachAlone(setup, moves)
    ensures EachAlone(setup, moves) ==>
      && Alone(setup, moves, way, c)
      && StreamOf(Exec(setup, INITIAL, moves), way, c)
         == Stream.Exec(ConfigOf(setup, c), Stream.INITIAL, StepsOf(moves, way, c))
  {
    if EachAlone(setup, moves) {
      TogetherIfAlone(setup, moves);
      AloneIfTogether(setup, moves, way, c);
    }
    if Legal(setup, INITIAL, moves) {
      forall way: Way, c: Channel
        ensures Alone(setup, moves, way, c)
      {
        AloneIfTogether(setup, moves, way, c);
      }
    }
  }

  /** What the far end has handed to handlePacket on a channel is a prefix of what the near end enqueued
      on that channel, and the other way round, whatever the other channels carry meanwhile. */
  lemma EveryChannelInOrder(setup: Setup, moves: seq<Move>, way: Way, c: Channel)
    requires Legal(setup, INITIAL, moves)
    ensures var d := From(Exec(setup, INITIAL, moves), way);
      var sent := StreamTheorems.AllReceived(ConfigOf(setup, c), StreamTheorems.Enqueued(StepsOf(moves, way, c)));
      d.far[c].handled <= sent
  {
    AloneIfTogether(setup, moves, way, c);
    StreamTheorems.DeliveryInOrder(ConfigOf(setup, c), StepsOf(moves, way, c));
  }
}

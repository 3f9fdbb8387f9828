/** Sessions used by several threads. SessionBase and Network take no lock, so a buffered send is
    not one step: it buffers its packets, then visits the links one by one, each visit being one
    locked `enqueue`; and addLink replays the buffered packets one by one, each again under the lock of
    the link's send queue, before the link is entered in the list. Here all of these interleave
    freely, except that a channel is not buffered on while a replay is inside it: growing a vector
    that another thread iterates over has no defined outcome. */
module SessionSteps {
  import opened Words
  import opened SessionBuffer

  /** A buffered sendReliable call that has buffered its packets. */
  datatype Call = Call(msg: nat, data: seq<Packet>, exclude: Option<LinkId>, ch: Channel)

  /** ... and the links its forLink has been at so far. */
  datatype Walk = Walk(call: Call, visited: set<LinkId>)

  /** How far addLink is: at which channel, and at which packet of it. */
  datatype Place = Place(ch: nat, at: nat)

  /** `next` numbers the sends, each of which makes new packet objects; `joining` holds the links
      inside addLink, and how far it is with them. */
  datatype Sys = Sys(session: Session, next: nat, walks: seq<Walk>, joining: map<LinkId, Place>)

  datatype Step =
    | Buffer(fragments: seq<Bytes>, exclude: Option<LinkId>, ch: Channel)  // sendReliable: bufferMsg
    | Visit(i: nat, link: LinkId)                                          // its forLink: one link
    | Finish(i: nat)                                                       // its forLink: the end
    | SendOnly(fragments: seq<Bytes>, exclude: Option<LinkId>, ch: Channel) // an un-buffered send
    | SendTo(link: LinkId, fragments: seq<Bytes>, ch: Channel)             // a send to one link
    | BeginAdd(link: LinkId)
    | ReplayPacket(link: LinkId)                                           // addLink: one enqueue
    | NextChannel(link: LinkId)                                            // addLink: a channel is through
    | EndAdd(link: LinkId)                                                 // addLink: into m_Links
    | Remove(link: LinkId)
    | Expire(link: LinkId)

  /** How many packets of a channel the replay under way has copied to the link. */
  function Copied(s: Sys, a: LinkId, c: Channel): nat {
    if a in s.joining && s.joining[a].ch == c then s.joining[a].at else 0
  }

  /** A replay to the link is inside channel c. */
  predicate Inside(s: Sys, a: LinkId, c: Channel) {
    Copied(s, a, c) > 0
  }

  predicate Enabled(s: Sys, step: Step)
    requires Shaped(s.session)
  {
    match step
    case Buffer(_, _, ch) => forall a :: a in s.joining ==> !Inside(s, a, ch)
    case Visit(i, a) => i < |s.walks| && Member(s.session, a) && a !in s.walks[i].visited
    case Finish(i) => i < |s.walks| && forall a :: a in s.session.links && a in s.session.alive ==> a in s.walks[i].visited
    case SendTo(a, _, _) => a in s.session.alive
    case BeginAdd(a) => a in s.session.alive && a !in s.session.links && a !in s.joining
    case ReplayPacket(a) => a in s.joining && s.joining[a].ch < NUM_CHANNELS && s.joining[a].at < |s.session.buffered[s.joining[a].ch]|
    case NextChannel(a) => a in s.joining && s.joining[a].ch < NUM_CHANNELS && s.joining[a].at == |s.session.buffered[s.joining[a].ch]|
    case EndAdd(a) => a in s.joining && s.joining[a].ch == NUM_CHANNELS
    case Expire(a) => a !in s.joining
    case _ => true
  }

  function CallOf(s: Sys, step: Step): Call
    requires step.Buffer?
  {
    Call(s.next, PacketsOf(s.next, step.fragments), step.exclude, step.ch)
  }

  function VisitLink(ss: Session, q: Call, a: LinkId): Session {
    if q.exclude == Some(a) then ss else ss.(out := Enqueue(ss.out, a, q.ch, q.data))
  }

  /** addLink gets the send component of the channel it comes to, which makes it if need be. */
  function Component(ss: Session, a: LinkId, ch: nat): Session {
    if ch < NUM_CHANNELS then ss.(out := Enqueue(ss.out, a, ch, [])) else ss
  }

  function Apply(s: Sys, step: Step): Sys
    requires Shaped(s.session) && Enabled(s, step)
  {
    var ss := s.session;
    match step
    case Buffer(fragments, exclude, ch) =>
      var q := CallOf(s, step);
      s.(session := Buffered(ss, q.data, ch), next := s.next + 1, walks := s.walks + [Walk(q, {})])
    case Visit(i, a) =>
      var w := s.walks[i];
      s.(session := VisitLink(ss, w.call, a), walks := s.walks[i := w.(visited := w.visited + {a})])
    case Finish(i) =>
      s.(session := ss.(links := Others(ss.links, ss.alive, None)), walks := s.walks[..i] + s.walks[i + 1..])
    case SendOnly(fragments, exclude, ch) =>
      s.(session := Dispatched(ss, PacketsOf(s.next, fragments), exclude, ch), next := s.next + 1)
    case SendTo(a, fragments, ch) =>
      s.(session := ss.(out := Enqueue(ss.out, a, ch, PacketsOf(s.next, fragments))), next := s.next + 1)
    case BeginAdd(a) => s.(session := Component(ss, a, 0), joining := s.joining[a := Place(0, 0)])
    case ReplayPacket(a) =>
      var here := s.joining[a];
      s.(session := ss.(out := Enqueue(ss.out, a, here.ch, [ss.buffered[here.ch][here.at]])),
         joining := s.joining[a := Place(here.ch, here.at + 1)])
    case NextChannel(a) =>
      var next := s.joining[a].ch + 1;
      s.(session := Component(ss, a, next), joining := s.joining[a := Place(next, 0)])
    case EndAdd(a) => s.(session := Linked(ss, a), joining := s.joining - {a})
    case Remove(a) => s.(session := RemoveLink(ss, a))
    case Expire(a) => s.(session := ss.(alive := ss.alive - {a}))
  }

  function Start(alive: set<LinkId>): Sys {
    Sys(Initial(alive), 0, [], map[])
  }

  predicate Legal(alive: set<LinkId>, run: seq<Step>)
    decreases |run|, 0
  {
    run == [] || (var n := |run| - 1; Legal(alive, run[..n]) && Enabled(Exec(alive, run[..n]), run[n]))
  }

  function Exec(alive: set<LinkId>, run: seq<Step>): (r: Sys)
    requires Legal(alive, run)
    ensures Shaped(r.session)
    decreases |run|, 1
  {
    if run == [] then Start(alive)
    else Apply(Exec(alive, run[..|run| - 1]), run[|run| - 1])
  }

  lemma Then(alive: set<LinkId>, run: seq<Step>, step: Step)
    requires Legal(alive, run)
    ensures Legal(alive, run + [step]) <==> Enabled(Exec(alive, run), step)
    ensures Enabled(Exec(alive, run), step) ==> Exec(alive, run + [step]) == Apply(Exec(alive, run), step)
  {
    assert (run + [step])[..|run|] == run;
  }

  // ---- What one step does ----

  /** The buffered packets of a channel and the packets given to a link only ever grow at the end,
      by these amounts. */
  function BufferGrowth(s: Sys, step: Step, c: Channel): seq<Packet> {
    if step.Buffer? && step.ch == c then PacketsOf(s.next, step.fragments) else []
  }

  function BoxGrowth(s: Sys, step: Step, a: LinkId, c: Channel): seq<Packet>
    requires Shaped(s.session) && Enabled(s, step)
  {
    match step
    case Visit(i, b) =>
      var q := s.walks[i].call;
      if a == b && c == q.ch && q.exclude != Some(a) then q.data else []
    case SendOnly(fragments, exclude, ch) =>
      if c == ch && Member(s.session, a) && exclude != Some(a) then PacketsOf(s.next, fragments) else []
    case SendTo(b, fragments, ch) => if a == b && c == ch then PacketsOf(s.next, fragments) else []
    case ReplayPacket(b) => if a == b && c == s.joining[b].ch then [s.session.buffered[c][s.joining[b].at]] else []
    case _ => []
  }

  lemma StepGrowth(s: Sys, step: Step, a: LinkId, c: Channel)
    requires Shaped(s.session) && Distinct(s.session.links) && Enabled(s, step)
    ensures Apply(s, step).session.buffered[c] == s.session.buffered[c] + BufferGrowth(s, step, c)
    ensures Box(Apply(s, step).session.out, a, c) == Box(s.session.out, a, c) + BoxGrowth(s, step, a, c)
  {
    var ss := s.session;
    match step
    case SendOnly(fragments, exclude, ch) =>
      OthersAre(ss.links, ss.alive, exclude);
      EnqueueOnAllBox(ss.out, Others(ss.links, ss.alive, exclude), ch, PacketsOf(s.next, fragments), a, c);
    case Visit(i, b) => EnqueueBox(ss.out, b, s.walks[i].call.ch, s.walks[i].call.data, a, c);
    case SendTo(b, fragments, ch) => EnqueueBox(ss.out, b, ch, PacketsOf(s.next, fragments), a, c);
    case BeginAdd(b) => ComponentBox(ss, b, 0, a, c);
    case NextChannel(b) => ComponentBox(ss, b, s.joining[b].ch + 1, a, c);
    case ReplayPacket(b) =>
      var here := s.joining[b];
      EnqueueBox(ss.out, b, here.ch, [ss.buffered[here.ch][here.at]], a, c);
    case _ =>
  }

  lemma ComponentBox(ss: Session, b: LinkId, ch: nat, a: LinkId, c: Channel)
    ensures Box(Component(ss, b, ch).out, a, c) == Box(ss.out, a, c)
  {
    if ch < NUM_CHANNELS {
      EnqueueBox(ss.out, b, ch, [], a, c);
      assert Box(ss.out, a, c) + [] == Box(ss.out, a, c);
    }
  }

  /** A link counts from the replay of a channel on, and as long as it is a member. */
  predicate Served(s: Sys, a: LinkId, c: Channel) {
    Member(s.session, a) || (a in s.joining && c < s.joining[a].ch)
  }

  lemma StepMember(s: Sys, step: Step, a: LinkId)
    requires Shaped(s.session) && Enabled(s, step)
    ensures Member(Apply(s, step).session, a) <==>
      match step
      case EndAdd(b) => (a == b && a in s.session.alive) || Member(s.session, a)
      case Remove(b) => a != b && Member(s.session, a)
      case Expire(b) => a != b && Member(s.session, a)
      case _ => Member(s.session, a)
  {
    match step
    case Finish(_) => OthersAre(s.session.links, s.session.alive, None);
    case SendOnly(_, _, _) => OthersAre(s.session.links, s.session.alive, None);
    case Remove(b) => OthersAre(s.session.links, s.session.alive, Some(b));
    case _ =>
  }

  // ---- What holds in every run ----

  ghost predicate Older(ps: seq<Packet>, next: nat) {
    forall p :: p in ps ==> p.msg < next
  }

  /** The packets of a call under way are its own, and buffered. */
  ghost predicate CallOk(s: Sys, q: Call)
    requires Shaped(s.session)
  {
    q.msg < s.next && forall p :: p in q.data ==> p.msg == q.msg && p in s.session.buffered[q.ch]
  }

  ghost predicate WalksOk(s: Sys)
    requires Shaped(s.session)
  {
    && (forall w :: w in s.walks ==> CallOk(s, w.call))
    && (forall i, j :: 0 <= i < j < |s.walks| ==> s.walks[i].call.msg != s.walks[j].call.msg)
  }

  ghost predicate LinksOk(s: Sys) {
    && Distinct(s.session.links)
    && (forall a :: a in s.joining ==> a in s.session.alive && a !in s.session.links)
  }

  ghost predicate PlacesOk(s: Sys)
    requires Shaped(s.session)
  {
    forall a :: a in s.joining ==> PlaceOk(s.session.buffered, s.joining[a])
  }

  predicate PlaceOk(buffered: seq<seq<Packet>>, here: Place)
    requires |buffered| == NUM_CHANNELS
  {
    here.ch <= NUM_CHANNELS && here.at <= if here.ch < NUM_CHANNELS then |buffered[here.ch]| else 0
  }

  ghost predicate PacketsOk(s: Sys)
    requires Shaped(s.session)
  {
    && (forall c: Channel :: Older(s.session.buffered[c], s.next) && Distinct(s.session.buffered[c]))
    && (forall a, c :: Older(Box(s.session.out, a, c), s.next))
  }

  ghost predicate Inv(s: Sys) {
    Shaped(s.session) && LinksOk(s) && PlacesOk(s) && PacketsOk(s) && WalksOk(s)
  }

  lemma StepLinks(s: Sys, step: Step)
    requires Inv(s) && Enabled(s, step)
    ensures LinksOk(Apply(s, step))
  {
    match step
    case Finish(_) => OthersAre(s.session.links, s.session.alive, None);
    case SendOnly(_, _, _) => OthersAre(s.session.links, s.session.alive, None);
    case Remove(b) => OthersAre(s.session.links, s.session.alive, Some(b));
    case _ =>
  }

  lemma StepPlaces(s: Sys, step: Step)
    requires Inv(s) && Enabled(s, step)
    ensures PlacesOk(Apply(s, step))
  {
    forall a | a in Apply(s, step).joining
      ensures PlaceOk(Apply(s, step).session.buffered, Apply(s, step).joining[a])
    {
      if a in s.joining {
        assert PlaceOk(s.session.buffered, s.joining[a]);
      }
    }
  }

  lemma AppendDistinct(ps: seq<Packet>, more: seq<Packet>, next: nat)
    requires Older(ps, next) && Distinct(ps) && Distinct(more)
    requires forall p :: p in more ==> p.msg == next
    ensures Distinct(ps + more)
  {
    forall i | 0 <= i < |ps|
      ensures ps[i].msg < next
    {
      assert ps[i] in ps;
    }
  }

  lemma StepPacketsAt(s: Sys, step: Step, a: LinkId, c: Channel)
    requires Inv(s) && Enabled(s, step)
    ensures var r := Apply(s, step);
      && Older(r.session.buffered[c], r.next) && Distinct(r.session.buffered[c])
      && Older(Box(r.session.out, a, c), r.next)
  {
    StepGrowth(s, step, a, c);
    AppendDistinct(s.session.buffered[c], BufferGrowth(s, step, c), s.next);
    if step.Visit? {
      assert s.walks[step.i] in s.walks;
    }
  }

  lemma StepWalks(s: Sys, step: Step)
    requires Inv(s) && Enabled(s, step)
    ensures WalksOk(Apply(s, step))
  {
    var r := Apply(s, step);
    forall w | w in r.walks
      ensures CallOk(r, w.call)
    {
      StepCall(s, step, w);
    }
    if step.Buffer? {
      forall i | 0 <= i < |s.walks|
        ensures s.walks[i].call.msg < s.next
      {
        assert s.walks[i] in s.walks;
      }
    }
  }

  lemma StepCall(s: Sys, step: Step, w: Walk)
    requires Inv(s) && Enabled(s, step) && w in Apply(s, step).walks
    ensures CallOk(Apply(s, step), w.call)
  {
    var r := Apply(s, step);
    StepGrowth(s, step, 0, w.call.ch);
    if step.Buffer? && w == Walk(CallOf(s, step), {}) {
    } else if step.Visit? && w !in s.walks {
      assert s.walks[step.i] in s.walks && w.call == s.walks[step.i].call;
    } else {
      assert w in s.walks;
    }
  }

  lemma StepInv(s: Sys, step: Step)
    requires Inv(s) && Enabled(s, step)
    ensures Inv(Apply(s, step))
  {
    var r := Apply(s, step);
    StepLinks(s, step);
    StepPlaces(s, step);
    StepWalks(s, step);
    forall a, c: Channel
      ensures Older(r.session.buffered[c], r.next) && Distinct(r.session.buffered[c])
      ensures Older(Box(r.session.out, a, c), r.next)
    {
      StepPacketsAt(s, step, a, c);
    }
  }

  lemma {:induction false} RunInv(alive: set<LinkId>, run: seq<Step>)
    requires Legal(alive, run)
    ensures Inv(Exec(alive, run))
  {
    if run != [] {
      var n := |run| - 1;
      RunInv(alive, run[..n]);
      StepInv(Exec(alive, run[..n]), run[n]);
    }
  }

  // ---- Calls under way ----

  /** The calls that have buffered their packets and have not been at the link. */
  function Open(walks: seq<Walk>, a: LinkId): set<Call> {
    set w | w in walks && a !in w.visited :: w.call
  }
}

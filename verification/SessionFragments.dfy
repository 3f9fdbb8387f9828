/** When the fragments of a message stay together on a link. addLink enqueues the buffered packets one
    by one, so a send to that very link can fall between two of them. */
module SessionFragments {
  import opened Words
  import opened Chunking
  import opened SessionBuffer
  import opened SessionSteps
  import opened SessionRuns
  import opened SessionRaces

  // ---- A replay packet by packet ----

  /** The position in the replay is between two messages. */
  predicate Boundary(replay: seq<Packet>, i: nat)
    requires i <= |replay|
  {
    i == |replay| || replay[i].part == 0
  }

  /** What has been fed is `before`, in one piece, and the packets from `start` on of the message that
      is being replayed. */
  ghost predicate PiecesAt(replay: seq<Packet>, fed: seq<Packet>, u: nat, before: seq<Packet>, start: nat) {
    && start <= u <= |replay| && fed == before + replay[start..u] && Whole(before)
    && (if start == u then Boundary(replay, u) else u < |replay| && replay[u].part == u - start)
  }

  ghost predicate WholeSoFar(replay: seq<Packet>, fed: seq<Packet>, u: nat) {
    exists before, start: nat :: PiecesAt(replay, fed, u, before, start)
  }

  lemma LastOrNext(ps: seq<Packet>, k: nat)
    requires Whole(ps) && k < |ps|
    ensures ps[k].part + 1 == ps[k].parts
         || (k + 1 < |ps| && ps[k + 1].msg == ps[k].msg && ps[k + 1].part == ps[k].part + 1)
  {
    assert WholeAt(ps, k);
    assert ps[k].part + 1 < ps[k].parts ==> k + 1 < k - ps[k].part + ps[k].parts;
  }

  /** The message that ends at u. */
  lemma MessageSlice(replay: seq<Packet>, start: nat, u: nat)
    requires Whole(replay) && start <= u < |replay| && replay[u].part == u - start && Boundary(replay, u + 1)
    ensures Whole(replay[start..u + 1])
  {
    LastOrNext(replay, u);
    assert WholeAt(replay, u);
    var slice := replay[start..u + 1];
    forall i | 0 <= i < |slice|
      ensures WholeAt(slice, i)
    {
      assert slice[i] == replay[start + i];
    }
  }

  lemma FeedPacket(replay: seq<Packet>, fed: seq<Packet>, u: nat)
    requires Whole(replay) && u < |replay| && WholeSoFar(replay, fed, u)
    ensures WholeSoFar(replay, fed + [replay[u]], u + 1)
  {
    var before, start: nat :| PiecesAt(replay, fed, u, before, start);
    var after := fed + [replay[u]];
    OneLonger(before, replay, start, u);
    if Boundary(replay, u + 1) {
      MessageSlice(replay, start, u);
      WholeAppend(before, replay[start..u + 1]);
      assert after + replay[u + 1..u + 1] == after;
      assert PiecesAt(replay, after, u + 1, after, u + 1);
    } else {
      LastOrNext(replay, u);
      StartsOver(replay, u);
      assert PiecesAt(replay, after, u + 1, before, start);
    }
  }

  lemma OneLonger<T>(before: seq<T>, replay: seq<T>, start: nat, u: nat)
    requires start <= u < |replay|
    ensures before + replay[start..u] + [replay[u]] == before + replay[start..u + 1]
  {
  }

  /** A packet that is not the first of its message comes right after the one before it. */
  lemma StartsOver(ps: seq<Packet>, k: nat)
    requires Whole(ps) && k + 1 < |ps| && ps[k + 1].part > 0
    ensures ps[k + 1].part == ps[k].part + 1 && ps[k + 1].msg == ps[k].msg && ps[k + 1].parts == ps[k].parts
  {
    assert WholeAt(ps, k + 1);
  }

  lemma FeedMessage(replay: seq<Packet>, fed: seq<Packet>, u: nat, data: seq<Packet>)
    requires u <= |replay| && Boundary(replay, u) && WholeSoFar(replay, fed, u) && Whole(data)
    ensures WholeSoFar(replay, fed + data, u)
  {
    var before, start: nat :| PiecesAt(replay, fed, u, before, start);
    assert replay[u..u] == [] && before + [] == before;
    WholeAppend(fed, data);
    assert fed + data + [] == fed + data;
    assert PiecesAt(replay, fed + data, u, fed + data, u);
  }

  /** A packet is followed by one of another message though its own is not complete. */
  ghost predicate Torn(ps: seq<Packet>) {
    exists k :: 0 <= k < |ps| - 1 && TornAt(ps[k], ps[k + 1])
  }

  predicate TornAt(p: Packet, q: Packet) {
    p.part + 1 < p.parts && q.msg != p.msg
  }

  lemma TornStays(ps: seq<Packet>, more: seq<Packet>)
    requires Torn(ps)
    ensures Torn(ps + more)
  {
    var k :| 0 <= k < |ps| - 1 && TornAt(ps[k], ps[k + 1]);
    assert TornAt((ps + more)[k], (ps + more)[k + 1]);
  }

  lemma TearHere(replay: seq<Packet>, fed: seq<Packet>, u: nat, data: seq<Packet>)
    requires Whole(replay) && u <= |replay| && !Boundary(replay, u) && WholeSoFar(replay, fed, u)
    requires data != [] && forall p :: p in replay ==> p.msg != data[0].msg
    ensures Torn(fed + data)
  {
    var before, start: nat :| PiecesAt(replay, fed, u, before, start);
    var k := |fed| - 1;
    assert fed[k] == replay[start..u][u - start - 1] == replay[u - 1];
    StartsOver(replay, u - 1);
    assert WholeAt(replay, u);
    assert (fed + data)[k + 1] == data[0] && replay[u - 1] in replay;
    assert TornAt((fed + data)[k], (fed + data)[k + 1]);
  }

  lemma NotTorn(replay: seq<Packet>, fed: seq<Packet>, u: nat)
    requires Whole(replay) && WholeSoFar(replay, fed, u)
    ensures !Torn(fed)
  {
    var before, start: nat :| PiecesAt(replay, fed, u, before, start);
    forall k | 0 <= k < |fed| - 1
      ensures !TornAt(fed[k], fed[k + 1])
    {
      if k < |before| {
        LastOrNext(before, k);
      } else {
        var i := start + (k - |before|);
        assert fed[k] == replay[i] && fed[k + 1] == replay[i + 1];
        assert WholeAt(replay, u);
      }
    }
  }

  /** At the start and at the end of the replay, in one piece so far means in one piece. */
  lemma BetweenReplays(replay: seq<Packet>, fed: seq<Packet>, u: nat)
    requires Whole(replay) && (u == 0 || u == |replay|)
    ensures WholeSoFar(replay, fed, u) <==> Whole(fed)
  {
    assert replay[u..u] == [] && fed + [] == fed;
    if Whole(fed) {
      if u < |replay| {
        assert WholeAt(replay, u);
      }
      assert PiecesAt(replay, fed, u, fed, u);
    }
    if WholeSoFar(replay, fed, u) {
      var before, start: nat :| PiecesAt(replay, fed, u, before, start);
      assert start == u && before + [] == before;
    }
  }

  // ---- Over runs ----

  /** The step is a send to the link that falls inside a message that is being replayed to it. */
  predicate Splits(s: Sys, step: Step, a: LinkId, c: Channel)
    requires Shaped(s.session)
  {
    && step.SendTo? && step.link == a && step.ch == c && step.fragments != []
    && Copied(s, a, c) < |s.session.buffered[c]| && s.session.buffered[c][Copied(s, a, c)].part > 0
  }

  predicate SplitBySend(alive: set<LinkId>, run: seq<Step>, a: LinkId, c: Channel)
    requires Legal(alive, run)
  {
    run != [] &&
    (var n := |run| - 1;
     SplitBySend(alive, run[..n], a, c) || Splits(Exec(alive, run[..n]), run[n], a, c))
  }

  /** What is buffered and what is being sent is in one piece. */
  ghost predicate SourcesWhole(s: Sys)
    requires Shaped(s.session)
  {
    && (forall c: Channel :: Whole(s.session.buffered[c]))
    && (forall w :: w in s.walks ==> Whole(w.call.data))
  }

  lemma WholeMessage(msg: nat, fragments: seq<Bytes>)
    ensures Whole(PacketsOf(msg, fragments))
  {
  }

  lemma StepSources(s: Sys, step: Step)
    requires Inv(s) && Enabled(s, step) && SourcesWhole(s)
    ensures SourcesWhole(Apply(s, step))
  {
    var r := Apply(s, step);
    forall c: Channel
      ensures Whole(r.session.buffered[c])
    {
      StepGrowth(s, step, 0, c);
      WholeAppend(s.session.buffered[c], BufferGrowth(s, step, c));
    }
    forall w | w in r.walks
      ensures Whole(w.call.data)
    {
      if step.Visit? && w !in s.walks {
        assert s.walks[step.i] in s.walks && w.call == s.walks[step.i].call;
      } else if step.Buffer? && w !in s.walks {
        WholeMessage(s.next, step.fragments);
      }
    }
  }

  /** The link's packets on a channel: torn for good, or in one piece so far. */
  ghost predicate Pieces(s: Sys, a: LinkId, c: Channel, split: bool)
    requires Shaped(s.session)
  {
    var box, buffered, k := Box(s.session.out, a, c), s.session.buffered[c], Copied(s, a, c);
    if split then Torn(box) else k <= |buffered| && WholeSoFar(buffered, box, k)
  }

  /** A send to the link itself. */
  lemma SendToPieces(s: Sys, step: Step, a: LinkId, c: Channel)
    requires Inv(s) && Enabled(s, step) && SourcesWhole(s) && Pieces(s, a, c, false)
    requires step.SendTo? && step.link == a && step.ch == c
    ensures Pieces(Apply(s, step), a, c, Splits(s, step, a, c))
  {
    var box, buffered, data := Box(s.session.out, a, c), s.session.buffered[c], PacketsOf(s.next, step.fragments);
    StepGrowth(s, step, a, c);
    assert buffered + [] == buffered && box + [] == box;
    if Splits(s, step, a, c) {
      TearHere(buffered, box, Copied(s, a, c), data);
    } else if step.fragments != [] {
      WholeMessage(s.next, step.fragments);
      FeedMessage(buffered, box, Copied(s, a, c), data);
    }
  }

  lemma PacketGrows(s: Sys, a: LinkId, c: Channel)
    requires Inv(s) && Enabled(s, ReplayPacket(a)) && s.joining[a].ch == c
    ensures var s', k := Apply(s, ReplayPacket(a)), Copied(s, a, c);
      && s'.session.buffered == s.session.buffered && Copied(s', a, c) == k + 1 && k < |s.session.buffered[c]|
      && Box(s'.session.out, a, c) == Box(s.session.out, a, c) + [s.session.buffered[c][k]]
  {
    StepGrowth(s, ReplayPacket(a), a, c);
  }

  /** The replay of the channel to the link. */
  lemma PacketPieces(s: Sys, a: LinkId, c: Channel)
    requires Inv(s) && Enabled(s, ReplayPacket(a)) && s.joining[a].ch == c
    requires SourcesWhole(s) && Pieces(s, a, c, false)
    ensures Pieces(Apply(s, ReplayPacket(a)), a, c, false)
  {
    var box, buffered, k := Box(s.session.out, a, c), s.session.buffered[c], Copied(s, a, c);
    PacketGrows(s, a, c);
    InOnePieceSoFar(s, a, c, buffered, box, k);
    FeedPacket(buffered, box, k);
    InOnePieceSoFar(Apply(s, ReplayPacket(a)), a, c, buffered, box + [buffered[k]], k + 1);
  }

  lemma InOnePieceSoFar(s: Sys, a: LinkId, c: Channel, buffered: seq<Packet>, box: seq<Packet>, k: nat)
    requires Shaped(s.session) && s.session.buffered[c] == buffered && Box(s.session.out, a, c) == box
    requires Copied(s, a, c) == k <= |buffered|
    ensures Pieces(s, a, c, false) <==> WholeSoFar(buffered, box, k)
  {
  }

  lemma ChannelPieces(s: Sys, step: Step, a: LinkId, c: Channel)
    requires Inv(s) && Enabled(s, step) && Whole(s.session.buffered[c]) && Pieces(s, a, c, false)
    requires step.NextChannel? && step.link == a && s.joining[a].ch == c
    ensures Pieces(Apply(s, step), a, c, false)
  {
    var box, buffered, s' := Box(s.session.out, a, c), s.session.buffered[c], Apply(s, step);
    StepGrowth(s, step, a, c);
    assert box + [] == box;
    assert s'.session.buffered[c] == buffered && Box(s'.session.out, a, c) == box && Copied(s', a, c) == 0;
    BetweenReplays(buffered, box, |buffered|);
    BetweenReplays(buffered, box, 0);
  }

  /** What members are given, and what is buffered, when no replay to the link is inside the channel. */
  lemma IdlePieces(s: Sys, step: Step, a: LinkId, c: Channel)
    requires Inv(s) && Enabled(s, step) && SourcesWhole(s) && Pieces(s, a, c, false)
    requires Copied(s, a, c) == 0 && Copied(Apply(s, step), a, c) == 0
    ensures Pieces(Apply(s, step), a, c, false)
  {
    var box, buffered := Box(s.session.out, a, c), s.session.buffered[c];
    StepGrowth(s, step, a, c);
    StepSources(s, step);
    BetweenReplays(buffered, box, 0);
    GrowthWhole(s, step, a, c);
    WholeAppend(box, BoxGrowth(s, step, a, c));
    BetweenReplays(Apply(s, step).session.buffered[c], Box(Apply(s, step).session.out, a, c), 0);
  }

  lemma GrowthWhole(s: Sys, step: Step, a: LinkId, c: Channel)
    requires Inv(s) && Enabled(s, step) && SourcesWhole(s)
    requires !(step.ReplayPacket? && step.link == a && s.joining[a].ch == c)
    ensures Whole(BoxGrowth(s, step, a, c))
  {
    match step
    case Visit(i, _) => assert s.walks[i] in s.walks;
    case SendOnly(fragments, _, _) => WholeMessage(s.next, fragments);
    case SendTo(_, fragments, _) => WholeMessage(s.next, fragments);
    case _ =>
  }

  lemma StepPieces(s: Sys, step: Step, a: LinkId, c: Channel, split: bool)
    requires Inv(s) && Enabled(s, step) && SourcesWhole(s) && Pieces(s, a, c, split)
    ensures Pieces(Apply(s, step), a, c, split || Splits(s, step, a, c))
  {
    var box := Box(s.session.out, a, c);
    StepGrowth(s, step, a, c);
    if split {
      TornStays(box, BoxGrowth(s, step, a, c));
    } else if step.SendTo? && step.link == a && step.ch == c {
      SendToPieces(s, step, a, c);
    } else if step.ReplayPacket? && step.link == a && s.joining[a].ch == c {
      PacketPieces(s, a, c);
    } else if step.NextChannel? && step.link == a && s.joining[a].ch == c {
      ChannelPieces(s, step, a, c);
    } else if Copied(s, a, c) == 0 {
      IdlePieces(s, step, a, c);
    } else {
      assert box + [] == box && s.session.buffered[c] + [] == s.session.buffered[c];
    }
  }

  lemma {:induction false} RunPieces(alive: set<LinkId>, run: seq<Step>, a: LinkId, c: Channel)
    requires Legal(alive, run)
    ensures SourcesWhole(Exec(alive, run)) && Pieces(Exec(alive, run), a, c, SplitBySend(alive, run, a, c))
  {
    if run == [] {
      BetweenReplays([], [], 0);
      assert Start(alive).session.buffered[c] == [];
    } else {
      var n := |run| - 1;
      RunInv(alive, run[..n]);
      RunPieces(alive, run[..n], a, c);
      StepSources(Exec(alive, run[..n]), run[n]);
      StepPieces(Exec(alive, run[..n]), run[n], a, c, SplitBySend(alive, run[..n], a, c));
    }
  }

  /** At every moment of every run, a link has been given a torn message if and only if a send to it
      has fallen inside a message that was being replayed to it. */
  lemma TornExactly(alive: set<LinkId>, run: seq<Step>, a: LinkId, c: Channel)
    requires Legal(alive, run)
    ensures Torn(Box(Exec(alive, run).session.out, a, c)) <==> SplitBySend(alive, run, a, c)
  {
    RunPieces(alive, run, a, c);
    var s := Exec(alive, run);
    if !SplitBySend(alive, run, a, c) {
      NotTorn(s.session.buffered[c], Box(s.session.out, a, c), Copied(s, a, c));
    }
  }

  // ---- Sequence numbers ----

  /** `part` and `part + 1` of a message are neighbours, and their numbers differ by one, wrapping. */
  ghost predicate ContiguousAt(box: seq<Packet>, at: nat)
    requires at < |box|
  {
    && (box[at].part + 1 < box[at].parts ==>
          && at + 1 < |box| && box[at + 1].msg == box[at].msg && box[at + 1].part == box[at].part + 1
          && NumberOf(box, at + 1) == Wrap(NumberOf(box, at) + 1))
    && (box[at].part > 0 ==>
          && at > 0 && box[at - 1].msg == box[at].msg && box[at - 1].part == box[at].part - 1
          && NumberOf(box, at) == Wrap(NumberOf(box, at - 1) + 1))
  }

  ghost predicate Contiguous(box: seq<Packet>) {
    forall at :: 0 <= at < |box| ==> ContiguousAt(box, at)
  }

  lemma WholeIsContiguous(box: seq<Packet>)
    requires Whole(box)
    ensures Contiguous(box)
  {
    forall at | 0 <= at < |box|
      ensures ContiguousAt(box, at)
    {
      assert WholeAt(box, at);
      NextNumber(box, at);
      if at > 0 {
        NextNumber(box, at - 1);
      }
    }
  }

  lemma TornIsNotContiguous(box: seq<Packet>)
    requires Torn(box)
    ensures !Contiguous(box)
  {
    var k :| 0 <= k < |box| - 1 && TornAt(box[k], box[k + 1]);
    assert !ContiguousAt(box, k);
  }

  /** In every run, on every link and channel, once no replay to the link is inside the channel, the
      fragments of every message are neighbours and have consecutive sequence numbers, live or
      replayed, if and only if no send to the link has fallen inside a message that was being
      replayed to it. */
  lemma FragmentsContiguous(alive: set<LinkId>, run: seq<Step>, a: LinkId, c: Channel)
    requires Legal(alive, run) && !Inside(Exec(alive, run), a, c)
    ensures Contiguous(Box(Exec(alive, run).session.out, a, c)) <==> !SplitBySend(alive, run, a, c)
  {
    var s := Exec(alive, run);
    var box := Box(s.session.out, a, c);
    RunPieces(alive, run, a, c);
    if SplitBySend(alive, run, a, c) {
      TornIsNotContiguous(box);
    } else {
      BetweenReplays(s.session.buffered[c], box, 0);
      WholeIsContiguous(box);
    }
  }

  // ---- A torn message ----

  /** What the rest of addLink still copies to the link on a channel. */
  function Rest(s: Sys, a: LinkId, c: Channel): seq<Packet>
    requires Inv(s) && a in s.joining
  {
    var here := s.joining[a];
    assert PlaceOk(s.session.buffered, here);
    if c < here.ch then [] else if c == here.ch then s.session.buffered[c][here.at..] else s.session.buffered[c]
  }

  /** How many packets of the channel addLink is at are left. */
  function PacketsLeft(s: Sys, a: LinkId): nat
    requires Inv(s) && a in s.joining
  {
    var here := s.joining[a];
    assert PlaceOk(s.session.buffered, here);
    if here.ch < NUM_CHANNELS then |s.session.buffered[here.ch]| - here.at else 0
  }

  /** addLink goes on undisturbed to its end. */
  lemma {:induction false} FinishAdd(alive: set<LinkId>, run: seq<Step>, a: LinkId, c: Channel) returns (longer: seq<Step>)
    requires Legal(alive, run) && Inv(Exec(alive, run)) && a in Exec(alive, run).joining
    ensures Legal(alive, longer) && Member(Exec(alive, longer).session, a) && a !in Exec(alive, longer).joining
    ensures var s, s' := Exec(alive, run), Exec(alive, longer);
      Box(s'.session.out, a, c) == Box(s.session.out, a, c) + Rest(s, a, c)
    ensures SplitBySend(alive, run, a, c) ==> SplitBySend(alive, longer, a, c)
    decreases NUM_CHANNELS - Exec(alive, run).joining[a].ch, PacketsLeft(Exec(alive, run), a)
  {
    var s := Exec(alive, run);
    var step := if s.joining[a].ch == NUM_CHANNELS then EndAdd(a)
                else if PacketsLeft(s, a) > 0 then ReplayPacket(a) else NextChannel(a);
    longer := run + [step];
    assert longer[..|run|] == run;
    if step.EndAdd? {
      EndOfAdd(s, a, c);
      Then(alive, run, step);
    } else {
      assert PlaceOk(s.session.buffered, s.joining[a]);
      if step.ReplayPacket? {
        PacketForward(s, a, c);
      } else {
        ChannelForward(s, a, c);
      }
      Then(alive, run, step);
      longer := FinishAdd(alive, run + [step], a, c);
      Regroup(Box(s.session.out, a, c), BoxGrowth(s, step, a, c), Rest(Exec(alive, run + [step]), a, c));
    }
  }

  lemma EndOfAdd(s: Sys, a: LinkId, c: Channel)
    requires Inv(s) && a in s.joining && s.joining[a].ch == NUM_CHANNELS
    ensures Enabled(s, EndAdd(a)) && Rest(s, a, c) == []
    ensures var s' := Apply(s, EndAdd(a));
      && Member(s'.session, a) && a !in s'.joining
      && Box(s'.session.out, a, c) == Box(s.session.out, a, c) + Rest(s, a, c)
  {
    assert Box(s.session.out, a, c) + [] == Box(s.session.out, a, c);
  }

  /** The step brings addLink forward, and gives the link what it takes off the rest. */
  ghost predicate Forward(s: Sys, step: Step, a: LinkId, c: Channel)
    requires Inv(s) && a in s.joining && Enabled(s, step)
  {
    var s' := Apply(s, step);
    && Inv(s') && a in s'.joining
    && (s'.joining[a].ch > s.joining[a].ch || (s'.joining[a].ch == s.joining[a].ch && PacketsLeft(s', a) < PacketsLeft(s, a)))
    && Box(s'.session.out, a, c) == Box(s.session.out, a, c) + BoxGrowth(s, step, a, c)
    && Rest(s, a, c) == BoxGrowth(s, step, a, c) + Rest(s', a, c)
  }

  lemma PacketForward(s: Sys, a: LinkId, c: Channel)
    requires Inv(s) && Enabled(s, ReplayPacket(a))
    ensures Forward(s, ReplayPacket(a), a, c)
  {
    var here, s' := s.joining[a], Apply(s, ReplayPacket(a));
    StepInv(s, ReplayPacket(a));
    StepGrowth(s, ReplayPacket(a), a, c);
    CutFirst(s.session.buffered[here.ch], here.at);
    assert [] + Rest(s', a, c) == Rest(s', a, c);
  }

  lemma ChannelForward(s: Sys, a: LinkId, c: Channel)
    requires Inv(s) && Enabled(s, NextChannel(a))
    ensures Forward(s, NextChannel(a), a, c)
  {
    var here, s' := s.joining[a], Apply(s, NextChannel(a));
    StepInv(s, NextChannel(a));
    StepGrowth(s, NextChannel(a), a, c);
    CutFirst(s.session.buffered[here.ch], here.at);
    assert s.session.buffered[c][0..] == s.session.buffered[c];
    assert [] + Rest(s', a, c) == Rest(s', a, c);
  }

  lemma CutFirst<T>(xs: seq<T>, at: nat)
    requires at <= |xs|
    ensures if at < |xs| then xs[at..] == [xs[at]] + xs[at + 1..] else xs[at..] == []
  {
  }

  /** For every message of two fragments and every other message there is a run from the start in
      which the link, when it is a member, has been given the second message between the two
      fragments of the first. */
  lemma TornRun(alive: set<LinkId>, x: seq<Bytes>, y: seq<Bytes>, a: LinkId, c: Channel) returns (run: seq<Step>)
    requires a in alive && |x| == 2 && y != []
    ensures Legal(alive, run) && Member(Exec(alive, run).session, a)
    ensures var box := Box(Exec(alive, run).session.out, a, c);
      && box == [PacketsOf(0, x)[0]] + PacketsOf(1, y) + [PacketsOf(0, x)[1]]
      && Torn(box) && !Contiguous(box)
  {
    var half, s := HalfReplayed(alive, x, a, c);
    RunInv(alive, half);
    SendInside(alive, half, s, y, a, c);
    var split := half + [SendTo(a, y, c)];
    run := FinishAdd(alive, split, a, c);
    FragmentsContiguous(alive, run, a, c);
    TornExactly(alive, run, a, c);
  }

  /** A send to the link between the first and the second packet of the replay. */
  lemma SendInside(alive: set<LinkId>, half: seq<Step>, s: Sys, y: seq<Bytes>, a: LinkId, c: Channel)
    requires Shaped(s.session) && Legal(alive, half) && a in s.session.alive && y != []
    requires |s.session.buffered[c]| == 2 && s.session.buffered[c][1].part > 0
    requires Exec(alive, half) == Replaying(s, a, c, 1) && Inv(Exec(alive, half))
    ensures var split := half + [SendTo(a, y, c)];
      && Legal(alive, split) && Inv(Exec(alive, split)) && SplitBySend(alive, split, a, c)
      && a in Exec(alive, split).joining && Rest(Exec(alive, split), a, c) == [s.session.buffered[c][1]]
      && Box(Exec(alive, split).session.out, a, c) == Box(Exec(alive, half).session.out, a, c) + PacketsOf(s.next, y)
  {
    var here, step := Exec(alive, half), SendTo(a, y, c);
    Then(alive, half, step);
    StepInv(here, step);
    StepGrowth(here, step, a, c);
    assert Splits(here, step, a, c);
    assert (half + [step])[..|half|] == half;
    assert s.session.buffered[c][1..] == [s.session.buffered[c][1]];
  }

  /** One message is buffered, and one packet of it is replayed to the link. */
  lemma HalfReplayed(alive: set<LinkId>, x: seq<Bytes>, a: LinkId, c: Channel) returns (run: seq<Step>, s: Sys)
    requires a in alive && |x| == 2
    ensures Shaped(s.session) && s.session.buffered[c] == PacketsOf(0, x) && s.session.alive == alive && s.next == 1
    ensures Legal(alive, run) && Exec(alive, run) == Replaying(s, a, c, 1)
    ensures Box(Replaying(s, a, c, 1).session.out, a, c) == [PacketsOf(0, x)[0]]
  {
    Then(alive, [], Buffer(x, None, c));
    var sent := [] + [Buffer(x, None, c)];
    Then(alive, sent, Finish(0));
    var done := sent + [Finish(0)];
    s := Exec(alive, done);
    BeginAlone(alive, done, a);
    var before := ReplayAlone(alive, done + [BeginAdd(a)], s, a, c, c);
    run := CopyAlone(alive, before, s, a, c, 1, c, Tracked(alive, before, a, c));
    EmptyBox(s, a, c);
  }

  lemma EmptyBox(s: Sys, a: LinkId, c: Channel)
    requires Shaped(s.session) && s.session.out == map[] && |s.session.buffered[c]| > 0
    ensures Box(Replaying(s, a, c, 1).session.out, a, c) == [s.session.buffered[c][0]]
  {
    ReplayBox(s.session.out, a, s.session.buffered, c, a, c);
    assert s.session.buffered[c][..1] == [s.session.buffered[c][0]];
  }
}

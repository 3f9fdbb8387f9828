/** Exactly when a member of a session has been given what was buffered, over every interleaving of
    sends and adds; and the runs in which it has not. */
module SessionRuns {
  import opened Words
  import opened Chunking
  import opened SessionBuffer
  import opened SessionSteps
  import opened SessionStanding

  // ---- When a member has seen exactly what was buffered ----

  /** What a link was given of the buffered packets of a channel. */
  function Reached(s: Session, a: LinkId, c: Channel): seq<Packet>
    requires Shaped(s)
  {
    Only(Box(s.out, a, c), s.buffered[c])
  }

  ghost predicate Consistent(s: Session, a: LinkId, c: Channel)
    requires Shaped(s)
  {
    Reached(s, a, c) == s.buffered[c]
  }

  /** The standing after a step. */
  function Track(s: Sys, step: Step, a: LinkId, c: Channel, t: Standing): Standing
    requires Shaped(s.session) && Enabled(s, step)
  {
    match step
    case Buffer(fragments, _, ch) =>
      if ch == c && fragments != [] && Served(s, a, c) then t.(owed := t.owed + [CallOf(s, step)]) else t
    case Visit(i, b) =>
      var q := s.walks[i].call;
      if b == a && q.ch == c && q.data != [] then TrackLeave(t, q, q.exclude != Some(a)) else t
    case Finish(i) =>
      var w := s.walks[i];
      if a !in w.visited && w.call.ch == c && w.call.data != [] && Served(s, a, c) then TrackLeave(t, w.call, false) else t
    case NextChannel(b) =>
      if b == a && s.joining[b].ch == c then Standing(s.session.buffered[c] != [], false, t.got, false, []) else t
    case _ => t
  }

  function Tracked(alive: set<LinkId>, run: seq<Step>, a: LinkId, c: Channel): Standing
    requires Legal(alive, run)
  {
    if run == [] then Standing(false, false, false, false, [])
    else
      var n := |run| - 1;
      Track(Exec(alive, run[..n]), run[n], a, c, Tracked(alive, run[..n], a, c))
  }

  // ---- Steps and runs ----

  /** Whether a step is the end of call q for a link. */
  predicate Leaves(s: Sys, step: Step, a: LinkId)
    requires Shaped(s.session) && Enabled(s, step)
  {
    (step.Visit? && step.link == a) || (step.Finish? && a !in s.walks[step.i].visited)
  }

  lemma StepOpen(s: Sys, step: Step, a: LinkId)
    requires Inv(s) && Enabled(s, step)
    ensures Open(Apply(s, step).walks, a)
         == if step.Buffer? then Open(s.walks, a) + {CallOf(s, step)}
            else if Leaves(s, step, a) then Open(s.walks, a) - {s.walks[step.i].call}
            else Open(s.walks, a)
    ensures Leaves(s, step, a) ==> s.walks[step.i].call in Open(s.walks, a)
  {
    match step
    case Buffer(_, _, _) => OpenAppend(s.walks, Walk(CallOf(s, step), {}), a);
    case Visit(i, b) => OpenVisit(s.walks, i, a, b);
    case Finish(i) => OpenFinish(s.walks, i, a);
    case _ =>
  }

  lemma OpenAppend(walks: seq<Walk>, w: Walk, a: LinkId)
    requires a !in w.visited
    ensures Open(walks + [w], a) == Open(walks, a) + {w.call}
  {
    assert w in walks + [w];
  }

  ghost predicate Told(walks: seq<Walk>) {
    forall i, j :: 0 <= i < j < |walks| ==> walks[i].call.msg != walks[j].call.msg
  }

  /** A call that is open for the link, other than walk i's, is in another walk. */
  lemma OpenElsewhere(walks: seq<Walk>, i: nat, a: LinkId, q: Call) returns (j: nat)
    requires Told(walks) && i < |walks| && q in Open(walks, a) && q != walks[i].call
    ensures j < |walks| && j != i && walks[j].call == q && a !in walks[j].visited
  {
    var w :| w in walks && a !in w.visited && w.call == q;
    j :| 0 <= j < |walks| && walks[j] == w;
  }

  lemma OpenVisit(walks: seq<Walk>, i: nat, a: LinkId, b: LinkId)
    requires Told(walks) && i < |walks| && b !in walks[i].visited
    ensures var w := walks[i];
      Open(walks[i := w.(visited := w.visited + {b})], a) == if a == b then Open(walks, a) - {w.call} else Open(walks, a)
    ensures a == b ==> walks[i].call in Open(walks, a)
  {
    var w := walks[i];
    var after := walks[i := w.(visited := w.visited + {b})];
    assert w in walks && after[i] in after;
    forall q | q in Open(walks, a) && q != w.call
      ensures q in Open(after, a)
    {
      var j := OpenElsewhere(walks, i, a, q);
      assert after[j] in after;
    }
    forall q | q in Open(after, a)
      ensures q in Open(walks, a) && (a == b ==> q != w.call)
    {
      var v :| v in after && a !in v.visited && v.call == q;
      var j :| 0 <= j < |after| && after[j] == v;
      assert walks[j] in walks;
    }
  }

  lemma OpenFinish(walks: seq<Walk>, i: nat, a: LinkId)
    requires Told(walks) && i < |walks|
    ensures Open(walks[..i] + walks[i + 1..], a)
         == if a in walks[i].visited then Open(walks, a) else Open(walks, a) - {walks[i].call}
    ensures a !in walks[i].visited ==> walks[i].call in Open(walks, a)
  {
    var after := walks[..i] + walks[i + 1..];
    assert walks[i] in walks;
    forall q | q in Open(walks, a) && (a in walks[i].visited || q != walks[i].call)
      ensures q in Open(after, a)
    {
      StaysOpen(walks, i, a, q);
    }
    forall q | q in Open(after, a)
      ensures q in Open(walks, a) && (a !in walks[i].visited ==> q != walks[i].call)
    {
      WasOpen(walks, i, a, q);
    }
  }

  lemma StaysOpen(walks: seq<Walk>, i: nat, a: LinkId, q: Call)
    requires i < |walks| && q in Open(walks, a) && (a in walks[i].visited || q != walks[i].call)
    ensures q in Open(walks[..i] + walks[i + 1..], a)
  {
    var w :| w in walks && a !in w.visited && w.call == q;
    var j :| 0 <= j < |walks| && walks[j] == w;
    assert w == (walks[..i] + walks[i + 1..])[if j < i then j else j - 1];
  }

  lemma WasOpen(walks: seq<Walk>, i: nat, a: LinkId, q: Call)
    requires Told(walks) && i < |walks| && q in Open(walks[..i] + walks[i + 1..], a)
    ensures q in Open(walks, a) && q != walks[i].call
  {
    var after := walks[..i] + walks[i + 1..];
    var w :| w in after && a !in w.visited && w.call == q;
    var j :| 0 <= j < |after| && after[j] == w;
    var k := if j < i then j else j + 1;
    assert w == walks[k] && k != i;
  }

  lemma OpenIsOk(s: Sys, a: LinkId, c: Channel)
    requires Inv(s)
    ensures OpenOk(Open(s.walks, a), s.session.buffered[c], c)
    ensures forall q :: q in Open(s.walks, a) ==> q.msg < s.next
  {
    var open := Open(s.walks, a);
    forall q | q in open
      ensures CallOk(s, q)
    {
      var w :| w in s.walks && a !in w.visited && w.call == q;
    }
    forall q, r | q in open && r in open && q.msg == r.msg
      ensures q == r
    {
      var v :| v in s.walks && a !in v.visited && v.call == q;
      var w :| w in s.walks && a !in w.visited && w.call == r;
      var i :| 0 <= i < |s.walks| && s.walks[i] == v;
      var j :| 0 <= j < |s.walks| && s.walks[j] == w;
    }
  }

  /** Packets made by one un-buffered send are not among the buffered ones. */
  lemma OtherPackets(box: seq<Packet>, buffered: seq<Packet>, data: seq<Packet>, next: nat)
    requires Older(buffered, next) && forall p :: p in data ==> p.msg == next
    ensures Only(box + data, buffered) == Only(box, buffered)
  {
    OnlyAppend(box, data, buffered);
    OnlyNone(data, buffered);
  }

  lemma BufferedPackets(box: seq<Packet>, buffered: seq<Packet>, data: seq<Packet>)
    requires forall p :: p in data ==> p in buffered
    ensures Only(box + data, buffered) == Only(box, buffered) + data
  {
    OnlyAppend(box, data, buffered);
    OnlyAll(data, buffered);
  }

  /** What the link was given before the replay under way, and how it stands. */
  ghost predicate StandsIn(s: Sys, a: LinkId, c: Channel, t: Standing)
    requires Shaped(s.session)
  {
    exists before ::
      && SplitsInto(Reached(s.session, a, c), before, s.session.buffered[c], Copied(s, a, c))
      && Stands(before, s.session.buffered[c], Open(s.walks, a), Served(s, a, c), c, t)
  }

  ghost predicate SplitsInto(reached: seq<Packet>, before: seq<Packet>, buffered: seq<Packet>, k: nat) {
    k <= |buffered| && reached == before + buffered[..k]
  }

  /** Served, after a step. */
  lemma StepServed(s: Sys, step: Step, a: LinkId, c: Channel)
    requires Inv(s) && Enabled(s, step)
    ensures var after := Served(Apply(s, step), a, c);
      && (after ==> Served(s, a, c) || (step.NextChannel? && step.link == a && s.joining[a].ch == c))
      && (!step.Remove? && !step.Expire? && Served(s, a, c) ==> after)
      && (step.NextChannel? && step.link == a && s.joining[a].ch == c ==> after)
  {
    StepMember(s, step, a);
  }

  /** A link that counts has no replay of the channel under way. */
  lemma ServedIsThrough(s: Sys, a: LinkId, c: Channel)
    requires Inv(s) && Served(s, a, c)
    ensures Copied(s, a, c) == 0
  {
  }

  lemma NothingCopied(reached: seq<Packet>, before: seq<Packet>, buffered: seq<Packet>)
    ensures SplitsInto(reached, before, buffered, 0) <==> reached == before
  {
    assert before + [] == before;
  }

  lemma BufferStep(s: Sys, step: Step, a: LinkId, c: Channel, t: Standing)
    requires Inv(s) && step.Buffer? && Enabled(s, step) && StandsIn(s, a, c, t)
    ensures StandsIn(Apply(s, step), a, c, Track(s, step, a, c, t))
  {
    var q, box, buffered, open := CallOf(s, step), Box(s.session.out, a, c), s.session.buffered[c], Open(s.walks, a);
    StepGrowth(s, step, a, c);
    StepOpen(s, step, a);
    StepServed(s, step, a, c);
    OpenIsOk(s, a, c);
    var before :| SplitsInto(Only(box, buffered), before, buffered, Copied(s, a, c))
                  && Stands(before, buffered, open, Served(s, a, c), c, t);
    assert buffered + [] == buffered && box + [] == box;
    if q.ch == c && q.data != [] {
      OnlyNew(box, buffered, q.data);
      BufferStands(before, buffered, open, Served(s, a, c), c, t, q);
      NothingCopied(Only(box, buffered), before, buffered);
      NothingCopied(Only(box, buffered), before, buffered + q.data);
      assert SplitsInto(Only(box, buffered + q.data), before, buffered + q.data, 0);
    } else {
      OtherBufferStands(before, buffered, open, Served(s, a, c), c, t, q);
      assert SplitsInto(Only(box, buffered), before, buffered, Copied(s, a, c));
    }
  }

  lemma LeaveStep(s: Sys, step: Step, a: LinkId, c: Channel, t: Standing)
    requires Inv(s) && Enabled(s, step) && Leaves(s, step, a) && StandsIn(s, a, c, t)
    ensures StandsIn(Apply(s, step), a, c, Track(s, step, a, c, t))
  {
    var w := s.walks[step.i];
    var q, box, buffered, open := w.call, Box(s.session.out, a, c), s.session.buffered[c], Open(s.walks, a);
    StepGrowth(s, step, a, c);
    StepOpen(s, step, a);
    StepServed(s, step, a, c);
    OpenIsOk(s, a, c);
    assert buffered + [] == buffered && box + [] == box && w in s.walks;
    var reached, served := Only(box, buffered), Served(s, a, c);
    var before :| SplitsInto(reached, before, buffered, Copied(s, a, c)) && Stands(before, buffered, open, served, c, t);
    if q.ch == c && q.data != [] && served {
      var gets := step.Visit? && q.exclude != Some(a);
      ServedIsThrough(s, a, c);
      NothingCopied(reached, before, buffered);
      if gets {
        BufferedPackets(box, buffered, q.data);
        NothingCopied(reached + q.data, reached + q.data, buffered);
      }
      LeaveStands(reached, buffered, open, c, t, q, gets);
    } else {
      OtherLeaveStands(before, buffered, open, served, c, t, q);
      assert SplitsInto(reached, before, buffered, Copied(s, a, c));
    }
  }

  lemma OneMoreCopied(reached: seq<Packet>, before: seq<Packet>, buffered: seq<Packet>, k: nat)
    requires SplitsInto(reached, before, buffered, k) && k < |buffered|
    ensures SplitsInto(reached + [buffered[k]], before, buffered, k + 1)
  {
    Regroup(before, buffered[..k], [buffered[k]]);
    assert buffered[..k + 1] == buffered[..k] + [buffered[k]];
  }

  /** One more packet of the channel is copied. */
  lemma PacketStep(s: Sys, step: Step, a: LinkId, c: Channel, t: Standing)
    requires Inv(s) && Enabled(s, step) && StandsIn(s, a, c, t)
    requires step.ReplayPacket? && step.link == a && s.joining[a].ch == c
    ensures StandsIn(Apply(s, step), a, c, Track(s, step, a, c, t))
  {
    var box, buffered, open, k := Box(s.session.out, a, c), s.session.buffered[c], Open(s.walks, a), Copied(s, a, c);
    StepGrowth(s, step, a, c);
    StepOpen(s, step, a);
    StepServed(s, step, a, c);
    assert buffered + [] == buffered;
    var before :| SplitsInto(Only(box, buffered), before, buffered, k) && Stands(before, buffered, open, Served(s, a, c), c, t);
    BufferedPackets(box, buffered, [buffered[k]]);
    OneMoreCopied(Only(box, buffered), before, buffered, k);
    StandsLess(before, buffered, open, Served(s, a, c), Served(Apply(s, step), a, c), c, t);
  }

  /** The channel is through. */
  lemma ChannelStep(s: Sys, step: Step, a: LinkId, c: Channel, t: Standing)
    requires Inv(s) && Enabled(s, step) && StandsIn(s, a, c, t)
    requires step.NextChannel? && step.link == a && s.joining[a].ch == c
    ensures StandsIn(Apply(s, step), a, c, Track(s, step, a, c, t))
  {
    var box, buffered, open := Box(s.session.out, a, c), s.session.buffered[c], Open(s.walks, a);
    var reached := Only(box, buffered);
    StepGrowth(s, step, a, c);
    StepServed(s, step, a, c);
    OpenIsOk(s, a, c);
    assert buffered + [] == buffered && box + [] == box;
    var before :| SplitsInto(reached, before, buffered, |buffered|) && Stands(before, buffered, open, Served(s, a, c), c, t);
    assert buffered[..|buffered|] == buffered;
    forall p | p in before
      ensures p in buffered
    {
      OnlyMember(box, buffered, p);
    }
    ReplayStands(before, buffered, open, Served(s, a, c), c, t);
    NothingCopied(reached, reached, buffered);
  }

  /** Other steps give the link nothing that is buffered, and do not move its replay of the channel. */
  lemma SameReached(s: Sys, step: Step, a: LinkId, c: Channel)
    requires Inv(s) && Enabled(s, step) && !step.Buffer? && !Leaves(s, step, a)
    requires !((step.ReplayPacket? || step.NextChannel?) && step.link == a && s.joining[a].ch == c)
    ensures var s' := Apply(s, step);
      && s'.session.buffered[c] == s.session.buffered[c] && Reached(s'.session, a, c) == Reached(s.session, a, c)
      && Copied(s', a, c) == Copied(s, a, c)
  {
    var box, buffered := Box(s.session.out, a, c), s.session.buffered[c];
    StepGrowth(s, step, a, c);
    assert buffered + [] == buffered && box + [] == box;
    if step.SendOnly? || step.SendTo? {
      OtherPackets(box, buffered, BoxGrowth(s, step, a, c), s.next);
    }
  }

  lemma OtherStep(s: Sys, step: Step, a: LinkId, c: Channel, t: Standing)
    requires Inv(s) && Enabled(s, step) && !step.Buffer? && !Leaves(s, step, a) && StandsIn(s, a, c, t)
    requires !((step.ReplayPacket? || step.NextChannel?) && step.link == a && s.joining[a].ch == c)
    ensures StandsIn(Apply(s, step), a, c, Track(s, step, a, c, t))
  {
    var reached, buffered, open := Reached(s.session, a, c), s.session.buffered[c], Open(s.walks, a);
    StepOpen(s, step, a);
    StepServed(s, step, a, c);
    var before :| SplitsInto(reached, before, buffered, Copied(s, a, c)) && Stands(before, buffered, open, Served(s, a, c), c, t);
    SameReached(s, step, a, c);
    StandsLess(before, buffered, open, Served(s, a, c), Served(Apply(s, step), a, c), c, t);
  }

  lemma StepStands(s: Sys, step: Step, a: LinkId, c: Channel, t: Standing)
    requires Inv(s) && Enabled(s, step) && StandsIn(s, a, c, t)
    ensures StandsIn(Apply(s, step), a, c, Track(s, step, a, c, t))
  {
    if step.Buffer? {
      BufferStep(s, step, a, c, t);
    } else if Leaves(s, step, a) {
      LeaveStep(s, step, a, c, t);
    } else if step.ReplayPacket? && step.link == a && s.joining[a].ch == c {
      PacketStep(s, step, a, c, t);
    } else if step.NextChannel? && step.link == a && s.joining[a].ch == c {
      ChannelStep(s, step, a, c, t);
    } else {
      OtherStep(s, step, a, c, t);
    }
  }

  lemma StartStands(alive: set<LinkId>, a: LinkId, c: Channel)
    ensures StandsIn(Start(alive), a, c, Standing(false, false, false, false, []))
  {
    var s := Start(alive);
    assert s.session.buffered[c] == [] && Reached(s.session, a, c) == [] && Copied(s, a, c) == 0;
    NothingCopied([], [], []);
    assert SplitsInto([], [], [], 0);
    assert Stands([], [], Open(s.walks, a), Served(s, a, c), c, Standing(false, false, false, false, []));
  }

  lemma {:induction false} RunStands(alive: set<LinkId>, run: seq<Step>, a: LinkId, c: Channel)
    requires Legal(alive, run)
    ensures StandsIn(Exec(alive, run), a, c, Tracked(alive, run, a, c))
  {
    if run == [] {
      StartStands(alive, a, c);
    } else {
      var n := |run| - 1;
      RunInv(alive, run[..n]);
      RunStands(alive, run[..n], a, c);
      StepStands(Exec(alive, run[..n]), run[n], a, c, Tracked(alive, run[..n], a, c));
    }
  }

  /** Exactly when a member has what was buffered: in every run, however the sends and adds of
      several threads interleave, a member's history restricted to the buffered packets of a
      channel is the session's buffer if and only if, since the channel was replayed to it, no
      buffered send passed it over, none came to it twice over and none overtook another, it was not
      replayed to on top of earlier packets, and no buffered send still has to come to it. */
  lemma MemberConsistentIff(alive: set<LinkId>, run: seq<Step>, a: LinkId, c: Channel)
    requires Legal(alive, run) && Member(Exec(alive, run).session, a)
    ensures var t := Tracked(alive, run, a, c);
      Consistent(Exec(alive, run).session, a, c) <==> Intact(t) && t.owed == []
  {
    var s, t := Exec(alive, run), Tracked(alive, run, a, c);
    RunInv(alive, run);
    RunStands(alive, run, a, c);
    var buffered := s.session.buffered[c];
    var reached :| SplitsInto(Reached(s.session, a, c), reached, buffered, Copied(s, a, c))
                   && Stands(reached, buffered, Open(s.walks, a), Served(s, a, c), c, t);
    ServedIsThrough(s, a, c);
    NothingCopied(Reached(s.session, a, c), reached, buffered);
    if Intact(t) {
      if t.owed == [] {
        assert reached + [] == reached;
      } else {
        assert t.owed[0] in t.owed && |Data(t.owed)| > 0;
      }
    } else {
      BrokenIsInconsistent(reached, buffered, Open(s.walks, a));
    }
  }

  // ---- One operation at a time ----

  /** No buffered send and no addLink begins while another one is under way: what a lock around the
      operations of the session would ensure. */
  predicate Serial(alive: set<LinkId>, run: seq<Step>)
    requires Legal(alive, run)
  {
    run == [] ||
    (var n := |run| - 1;
     && Serial(alive, run[..n])
     && (run[n].Buffer? || run[n].BeginAdd? ==> Exec(alive, run[..n]).walks == [] && Exec(alive, run[..n]).joining == map[]))
  }

  predicate Unexcluded(run: seq<Step>) {
    forall i :: 0 <= i < |run| && run[i].Buffer? ==> run[i].exclude == None
  }

  predicate AddedOnce(run: seq<Step>, a: LinkId) {
    forall i, j :: 0 <= i < j < |run| && run[i] == BeginAdd(a) ==> run[j] != BeginAdd(a)
  }

  /** The one send under way, if it still has to come to the link. */
  function Owing(walks: seq<Walk>, a: LinkId, c: Channel): seq<Call> {
    if walks != [] && walks[0].call.ch == c && walks[0].call.data != [] && a !in walks[0].visited
    then [walks[0].call] else []
  }

  ghost predicate SerialOk(s: Sys, a: LinkId, c: Channel, t: Standing, added: bool) {
    && |s.walks| <= 1 && (s.walks != [] ==> s.joining == map[] && s.walks[0].call.exclude == None)
    && Intact(t)
    && (!added ==> !t.got && a !in s.session.links && a !in s.joining)
    && (a in s.joining && s.joining[a].ch <= c ==> !t.got)
    && (Served(s, a, c) ==> t.owed == Owing(s.walks, a, c))
  }

  lemma SerialStep(s: Sys, step: Step, a: LinkId, c: Channel, t: Standing, added: bool)
    requires Inv(s) && Enabled(s, step) && SerialOk(s, a, c, t, added)
    requires step.Buffer? || step.BeginAdd? ==> s.walks == [] && s.joining == map[]
    requires step.Buffer? ==> step.exclude == None
    requires step == BeginAdd(a) ==> !added
    ensures SerialOk(Apply(s, step), a, c, Track(s, step, a, c, t), added || step == BeginAdd(a))
  {
    StepServed(s, step, a, c);
    match step
    case Finish(_) => OthersAre(s.session.links, s.session.alive, None);
    case SendOnly(_, _, _) => OthersAre(s.session.links, s.session.alive, None);
    case Remove(b) => OthersAre(s.session.links, s.session.alive, Some(b));
    case _ =>
  }

  lemma {:induction false} SerialRun(alive: set<LinkId>, run: seq<Step>, a: LinkId, c: Channel)
    requires Legal(alive, run) && Serial(alive, run) && Unexcluded(run) && AddedOnce(run, a)
    ensures SerialOk(Exec(alive, run), a, c, Tracked(alive, run, a, c), BeginAdd(a) in run)
  {
    if run != [] {
      var n := |run| - 1;
      RunInv(alive, run[..n]);
      SerialRun(alive, run[..n], a, c);
      assert run == run[..n] + [run[n]];
      SerialStep(Exec(alive, run[..n]), run[n], a, c, Tracked(alive, run[..n], a, c), BeginAdd(a) in run[..n]);
    }
  }

  /** Late-join consistency: if operations do not overlap, buffered sends exclude nobody and a link
      is added once, then between sends every member, whenever it was added, has been given exactly
      the buffered packets of each channel, in the order in which they were buffered. */
  lemma LateJoinConsistency(alive: set<LinkId>, run: seq<Step>, a: LinkId, c: Channel)
    requires Legal(alive, run) && Serial(alive, run) && Unexcluded(run) && AddedOnce(run, a)
    requires Member(Exec(alive, run).session, a) && Exec(alive, run).walks == []
    ensures Consistent(Exec(alive, run).session, a, c)
  {
    SerialRun(alive, run, a, c);
    MemberConsistentIff(alive, run, a, c);
  }
}

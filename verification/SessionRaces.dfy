/** How the parts of an operation make it up when nothing comes in between, and the runs in which
    something does and a member is left without what was buffered. */
module SessionRaces {
  import opened Words
  import opened SessionBuffer
  import opened SessionSteps
  import opened SessionStanding
  import opened SessionRuns

  // ---- Undisturbed, the parts make up the operations ----

  /** Exec, Legal and the standing after one more step. */
  lemma More(alive: set<LinkId>, run: seq<Step>, step: Step, a: LinkId, c: Channel)
    requires Legal(alive, run) && Enabled(Exec(alive, run), step)
    ensures Legal(alive, run + [step]) && Exec(alive, run + [step]) == Apply(Exec(alive, run), step)
    ensures Tracked(alive, run + [step], a, c) == Track(Exec(alive, run), step, a, c, Tracked(alive, run, a, c))
  {
    Then(alive, run, step);
    assert (run + [step])[..|run|] == run;
  }

  /** The first n channels and i packets of the next one have been replayed to the link. */
  function Replaying(s: Sys, a: LinkId, n: nat, i: nat): Sys
    requires Shaped(s.session) && n <= NUM_CHANNELS && i <= if n < NUM_CHANNELS then |s.session.buffered[n]| else 0
  {
    var out := Replay(s.session.out, a, s.session.buffered, n);
    s.(session := s.session.(out := if n < NUM_CHANNELS then Enqueue(out, a, n, s.session.buffered[n][..i]) else out),
       joining := s.joining[a := Place(n, i)])
  }

  lemma ReplayedPacket(s: Sys, a: LinkId, n: nat, i: nat)
    requires Shaped(s.session) && n < NUM_CHANNELS && i < |s.session.buffered[n]|
    ensures Enabled(Replaying(s, a, n, i), ReplayPacket(a))
    ensures Apply(Replaying(s, a, n, i), ReplayPacket(a)) == Replaying(s, a, n, i + 1)
  {
    var data, box := s.session.buffered[n], Box(Replay(s.session.out, a, s.session.buffered, n), a, n);
    assert data[..i + 1] == data[..i] + [data[i]];
    assert box + data[..i] + [data[i]] == box + data[..i + 1];
    assert s.joining[a := Place(n, i)][a := Place(n, i + 1)] == s.joining[a := Place(n, i + 1)];
  }

  lemma ReplayedChannel(s: Sys, a: LinkId, n: nat)
    requires Shaped(s.session) && n < NUM_CHANNELS
    ensures var here := Replaying(s, a, n, |s.session.buffered[n]|);
      Enabled(here, NextChannel(a)) && Apply(here, NextChannel(a)) == Replaying(s, a, n + 1, 0)
  {
    var data, next := s.session.buffered[n], Place(n + 1, 0);
    assert data[..|data|] == data;
    assert n + 1 < NUM_CHANNELS ==> s.session.buffered[n + 1][..0] == [];
    assert s.joining[a := Place(n, |data|)][a := next] == s.joining[a := next];
  }

  /** The run leads to state s, in which the link stands as t on the channel. */
  ghost predicate Leads(alive: set<LinkId>, run: seq<Step>, s: Sys, a: LinkId, c: Channel, t: Standing) {
    Legal(alive, run) && Exec(alive, run) == s && Tracked(alive, run, a, c) == t
  }

  /** One state follows from another by a step, or is the same, and the link stands as before. */
  ghost predicate Follows(s: Sys, step: Option<Step>, s': Sys, a: LinkId, c: Channel, t: Standing) {
    if step.None? then s' == s
    else Shaped(s.session) && Enabled(s, step.value) && Apply(s, step.value) == s' && Track(s, step.value, a, c, t) == t
  }

  lemma LeadsOn(alive: set<LinkId>, run: seq<Step>, s: Sys, step: Option<Step>, s': Sys, a: LinkId, c: Channel, t: Standing)
    returns (longer: seq<Step>)
    requires Leads(alive, run, s, a, c, t) && Follows(s, step, s', a, c, t)
    ensures Leads(alive, longer, s', a, c, t)
  {
    longer := run;
    if step.Some? {
      More(alive, run, step.value, a, c);
      longer := run + [step.value];
    }
  }

  /** A run goes on through a series of states. */
  lemma {:induction false} Series(alive: set<LinkId>, run: seq<Step>, state: nat -> Sys, step: nat -> Option<Step>, k: nat,
                                  a: LinkId, c: Channel, t: Standing)
    returns (longer: seq<Step>)
    requires Leads(alive, run, state(0), a, c, t)
    requires forall i: nat :: i < k ==> Follows(state(i), step(i), state(i + 1), a, c, t)
    ensures Leads(alive, longer, state(k), a, c, t)
    decreases k
  {
    if k == 0 {
      longer := run;
    } else {
      var before := Series(alive, run, state, step, k - 1, a, c, t);
      longer := LeadsOn(alive, before, state(k - 1), step(k - 1), state(k), a, c, t);
    }
  }

  /** From the beginning of a channel to its k-th packet. */
  lemma CopyAlone(alive: set<LinkId>, run: seq<Step>, s: Sys, a: LinkId, n: nat, k: nat, c: Channel, t: Standing)
    returns (longer: seq<Step>)
    requires Shaped(s.session) && n < NUM_CHANNELS && k <= |s.session.buffered[n]|
    requires Leads(alive, run, Replaying(s, a, n, 0), a, c, t)
    ensures Leads(alive, longer, Replaying(s, a, n, k), a, c, t)
  {
    var state := (i: nat) => if i <= |s.session.buffered[n]| then Replaying(s, a, n, i) else s;
    forall i: nat | i < k
      ensures Follows(state(i), Some(ReplayPacket(a)), state(i + 1), a, c, t)
    {
      ReplayedPacket(s, a, n, i);
    }
    longer := Series(alive, run, state, _ => Some(ReplayPacket(a)), k, a, c, t);
  }

  /** The run leads to the beginning of the n-th channel of an addLink that began in s. */
  ghost predicate AtChannel(alive: set<LinkId>, run: seq<Step>, s: Sys, a: LinkId, n: nat, c: Channel)
    requires Shaped(s.session) && n <= NUM_CHANNELS
  {
    Legal(alive, run) && Exec(alive, run) == Replaying(s, a, n, 0) && (c < n ==> Tracked(alive, run, a, c).owed == [])
  }

  /** From the beginning of addLink to the n-th channel. */
  lemma {:induction false} ReplayAlone(alive: set<LinkId>, run: seq<Step>, s: Sys, a: LinkId, n: nat, c: Channel) returns (longer: seq<Step>)
    requires Shaped(s.session) && n <= NUM_CHANNELS && AtChannel(alive, run, s, a, 0, c)
    ensures AtChannel(alive, longer, s, a, n, c)
    decreases n
  {
    if n == 0 {
      longer := run;
    } else {
      var before := ReplayAlone(alive, run, s, a, n - 1, c);
      longer := ChannelAlone(alive, before, s, a, n - 1, c);
    }
  }

  lemma ChannelAlone(alive: set<LinkId>, run: seq<Step>, s: Sys, a: LinkId, n: nat, c: Channel) returns (longer: seq<Step>)
    requires Shaped(s.session) && n < NUM_CHANNELS && AtChannel(alive, run, s, a, n, c)
    ensures AtChannel(alive, longer, s, a, n + 1, c)
  {
    var copied := CopyAlone(alive, run, s, a, n, |s.session.buffered[n]|, c, Tracked(alive, run, a, c));
    ReplayedChannel(s, a, n);
    More(alive, copied, NextChannel(a), a, c);
    longer := copied + [NextChannel(a)];
  }

  lemma BeginAlone(alive: set<LinkId>, run: seq<Step>, a: LinkId)
    requires Legal(alive, run) && Enabled(Exec(alive, run), BeginAdd(a))
    ensures Legal(alive, run + [BeginAdd(a)])
    ensures Exec(alive, run + [BeginAdd(a)]) == Replaying(Exec(alive, run), a, 0, 0)
  {
    Then(alive, run, BeginAdd(a));
    assert Exec(alive, run).session.buffered[0][..0] == [];
  }

  /** addLink. */
  lemma AddAlone(alive: set<LinkId>, run: seq<Step>, a: LinkId, c: Channel) returns (longer: seq<Step>)
    requires Legal(alive, run) && Enabled(Exec(alive, run), BeginAdd(a))
    ensures Legal(alive, longer)
    ensures Exec(alive, longer) == Exec(alive, run).(session := AddLink(Exec(alive, run).session, a))
    ensures Tracked(alive, longer, a, c).owed == []
  {
    var s := Exec(alive, run);
    BeginAlone(alive, run, a);
    var replayed := ReplayAlone(alive, run + [BeginAdd(a)], s, a, NUM_CHANNELS, c);
    More(alive, replayed, EndAdd(a), a, c);
    longer := replayed + [EndAdd(a)];
    assert s.joining[a := Place(NUM_CHANNELS, 0)] - {a} == s.joining;
  }

  /** The links among the first n that are alive. */
  function LivingSet(links: seq<LinkId>, alive: set<LinkId>, n: nat): set<LinkId>
    requires n <= |links|
  {
    set i | 0 <= i < n && links[i] in alive :: links[i]
  }

  /** The last send has been at the first n links of the list. */
  function Walked(s: Sys, n: nat): Sys
    requires s.walks != [] && n <= |s.session.links|
  {
    var ss, last := s.session, |s.walks| - 1;
    var q := s.walks[last].call;
    s.(session := ss.(out := EnqueueOnAll(ss.out, OthersIn(ss.links, ss.alive, q.exclude, n), q.ch, q.data)),
       walks := s.walks[last := Walk(q, LivingSet(ss.links, ss.alive, n))])
  }

  lemma WalkedOneMore(s: Sys, n: nat)
    requires Shaped(s.session) && s.walks != [] && n < |s.session.links| && Distinct(s.session.links)
    ensures s.session.links[n] !in s.session.alive ==> Walked(s, n + 1) == Walked(s, n)
    ensures var step := Visit(|s.walks| - 1, s.session.links[n]);
      s.session.links[n] in s.session.alive ==>
        Enabled(Walked(s, n), step) && Apply(Walked(s, n), step) == Walked(s, n + 1)
  {
    var ss, last := s.session, |s.walks| - 1;
    LivingSetSnoc(ss.links, ss.alive, n);
    if ss.links[n] in ss.alive {
      WalkOneMore(ss, s.walks[last].call, n);
    }
  }

  /** The visits to the first n links of the list; they do not concern a link that is not in it. */
  lemma WalkAlone(alive: set<LinkId>, run: seq<Step>, s: Sys, n: nat, a: LinkId, c: Channel, t: Standing) returns (longer: seq<Step>)
    requires Leads(alive, run, s, a, c, t) && a !in s.session.links
    requires Distinct(s.session.links) && n <= |s.session.links| && s.walks != [] && s.walks[|s.walks| - 1].visited == {}
    ensures Leads(alive, longer, Walked(s, n), a, c, t)
  {
    NothingWalked(s);
    forall i: nat | i < n
      ensures Follows(WalkState(s, i), VisitOf(s, i), WalkState(s, i + 1), a, c, t)
    {
      VisitFollows(s, i, a, c, t);
    }
    longer := Series(alive, run, (i: nat) => WalkState(s, i), (i: nat) => VisitOf(s, i), n, a, c, t);
  }

  function WalkState(s: Sys, i: nat): Sys {
    if s.walks != [] && i <= |s.session.links| then Walked(s, i) else s
  }

  /** The visit to the i-th link of the list, if it is alive. */
  function VisitOf(s: Sys, i: nat): Option<Step> {
    if i < |s.session.links| && s.session.links[i] in s.session.alive && s.walks != []
    then Some(Visit(|s.walks| - 1, s.session.links[i])) else None
  }

  lemma VisitFollows(s: Sys, i: nat, a: LinkId, c: Channel, t: Standing)
    requires Shaped(s.session) && s.walks != [] && i < |s.session.links| && Distinct(s.session.links) && a !in s.session.links
    ensures Follows(WalkState(s, i), VisitOf(s, i), WalkState(s, i + 1), a, c, t)
  {
    WalkedOneMore(s, i);
  }

  /** After the walk the send may end. */
  lemma WalkedAll(s: Sys)
    requires Shaped(s.session) && s.walks != []
    ensures Enabled(Walked(s, |s.session.links|), Finish(|s.walks| - 1))
  {
  }

  lemma NothingWalked(s: Sys)
    requires s.walks != [] && s.walks[|s.walks| - 1].visited == {}
    ensures Walked(s, 0) == s
  {
    var last := |s.walks| - 1;
    assert LivingSet(s.session.links, s.session.alive, 0) == {};
    assert s.walks[last := Walk(s.walks[last].call, {})] == s.walks;
  }

  lemma WalkOneMore(ss: Session, q: Call, n: nat)
    requires n < |ss.links| && ss.links[n] in ss.alive
    ensures VisitLink(ss.(out := EnqueueOnAll(ss.out, OthersIn(ss.links, ss.alive, q.exclude, n), q.ch, q.data)), q, ss.links[n])
         == ss.(out := EnqueueOnAll(ss.out, OthersIn(ss.links, ss.alive, q.exclude, n + 1), q.ch, q.data))
  {
    EnqueueOnAllSnoc(ss.out, OthersIn(ss.links, ss.alive, q.exclude, n), ss.links[n], q.ch, q.data);
  }

  lemma LivingSetSnoc(links: seq<LinkId>, alive: set<LinkId>, n: nat)
    requires n < |links| && Distinct(links)
    ensures links[n] !in LivingSet(links, alive, n)
    ensures LivingSet(links, alive, n + 1)
         == if links[n] in alive then LivingSet(links, alive, n) + {links[n]} else LivingSet(links, alive, n)
  {
  }

  lemma {:induction false} Stranger(links: seq<LinkId>) returns (a: LinkId)
    ensures forall b :: b in links ==> b < a
  {
    if links == [] {
      a := 0;
    } else {
      var rest := Stranger(links[1..]);
      a := if links[0] < rest then rest else links[0] + 1;
      assert links == [links[0]] + links[1..];
    }
  }

  /** sendReliable with buffering. */
  lemma SendAlone(alive: set<LinkId>, run: seq<Step>, fragments: seq<Bytes>, exclude: Option<LinkId>, ch: Channel)
    returns (longer: seq<Step>)
    requires Legal(alive, run) && Enabled(Exec(alive, run), Buffer(fragments, exclude, ch))
    ensures Legal(alive, longer)
    ensures var s, s' := Exec(alive, run), Exec(alive, longer);
      && s'.session == SendReliable(s.session, PacketsOf(s.next, fragments), exclude, true, ch)
      && s'.walks == s.walks && s'.joining == s.joining
  {
    RunInv(alive, run);
    var s := Exec(alive, run);
    Then(alive, run, Buffer(fragments, exclude, ch));
    var buffered := run + [Buffer(fragments, exclude, ch)];
    var a := Stranger(s.session.links);
    var walked := WalkAlone(alive, buffered, Exec(alive, buffered), |s.session.links|, a, 0, Tracked(alive, buffered, a, 0));
    WalkedAll(Exec(alive, buffered));
    var w := Exec(alive, walked);
    Then(alive, walked, Finish(|s.walks|));
    longer := walked + [Finish(|s.walks|)];
    assert w.walks[..|s.walks|] + w.walks[|s.walks| + 1..] == s.walks;
  }

  // ---- What goes wrong otherwise ----

  /** A buffered message on the channel of a link that counts. */
  lemma MoreBuffer(alive: set<LinkId>, run: seq<Step>, step: Step, a: LinkId)
    requires Legal(alive, run) && step.Buffer? && step.fragments != [] && Enabled(Exec(alive, run), step)
    ensures Legal(alive, run + [step])
    ensures var s, s' := Exec(alive, run), Exec(alive, run + [step]);
      && s'.walks == s.walks + [Walk(CallOf(s, step), {})] && s'.joining == s.joining && s'.next == s.next + 1
      && s'.session.links == s.session.links && s'.session.alive == s.session.alive
    ensures var s, t := Exec(alive, run), Tracked(alive, run, a, step.ch);
      Tracked(alive, run + [step], a, step.ch) == if Served(s, a, step.ch) then t.(owed := t.owed + [CallOf(s, step)]) else t
  {
    More(alive, run, step, a, step.ch);
  }

  /** Its forLink comes to the member. */
  lemma MoreVisit(alive: set<LinkId>, run: seq<Step>, i: nat, a: LinkId)
    requires Legal(alive, run) && Enabled(Exec(alive, run), Visit(i, a)) && Exec(alive, run).walks[i].call.data != []
    ensures Legal(alive, run + [Visit(i, a)])
    ensures var s, s' := Exec(alive, run), Exec(alive, run + [Visit(i, a)]);
      var w := s.walks[i];
      && s'.walks == s.walks[i := w.(visited := w.visited + {a})]
      && s'.session.links == s.session.links && s'.session.alive == s.session.alive
      && Tracked(alive, run + [Visit(i, a)], a, w.call.ch)
         == TrackLeave(Tracked(alive, run, a, w.call.ch), w.call, w.call.exclude != Some(a))
  {
    More(alive, run, Visit(i, a), a, Exec(alive, run).walks[i].call.ch);
  }

  /** The failing race of a send and an add: a link that is added between the two halves of a
      buffered send gets the message twice, whatever happened before. */
  lemma AddedBetweenHalves(alive: set<LinkId>, run: seq<Step>, fragments: seq<Bytes>, a: LinkId, c: Channel)
    returns (longer: seq<Step>)
    requires Legal(alive, run) && Enabled(Exec(alive, run), BeginAdd(a))
    requires fragments != [] && Enabled(Exec(alive, run), Buffer(fragments, None, c))
    ensures Legal(alive, longer) && Member(Exec(alive, longer).session, a)
    ensures !Consistent(Exec(alive, longer).session, a, c)
  {
    var s, send := Exec(alive, run), Buffer(fragments, None, c);
    MoreBuffer(alive, run, send, a);
    var added := AddAlone(alive, run + [send], a, c);
    MoreVisit(alive, added, |s.walks|, a);
    longer := added + [Visit(|s.walks|, a)];
    MemberConsistentIff(alive, longer, a, c);
  }

  /** Exclusion and buffering do not go together: a buffered message that excludes a member leaves
      that member behind, whatever happened before. */
  lemma ExcludedMemberMisses(alive: set<LinkId>, run: seq<Step>, fragments: seq<Bytes>, a: LinkId, c: Channel)
    returns (longer: seq<Step>)
    requires Legal(alive, run) && Member(Exec(alive, run).session, a)
    requires fragments != [] && Enabled(Exec(alive, run), Buffer(fragments, Some(a), c))
    ensures Legal(alive, longer) && Member(Exec(alive, longer).session, a)
    ensures !Consistent(Exec(alive, longer).session, a, c)
  {
    var s, send := Exec(alive, run), Buffer(fragments, Some(a), c);
    MoreBuffer(alive, run, send, a);
    MoreVisit(alive, run + [send], |s.walks|, a);
    longer := run + [send] + [Visit(|s.walks|, a)];
    MemberConsistentIff(alive, longer, a, c);
  }

  /** Two sends that overlap can come to a member in the other order. */
  lemma OvertakenSend(alive: set<LinkId>, run: seq<Step>, x: seq<Bytes>, y: seq<Bytes>, a: LinkId, c: Channel)
    returns (longer: seq<Step>)
    requires Legal(alive, run) && Member(Exec(alive, run).session, a) && Tracked(alive, run, a, c).owed == []
    requires x != [] && y != [] && Enabled(Exec(alive, run), Buffer(x, None, c))
    ensures Legal(alive, longer) && Member(Exec(alive, longer).session, a)
    ensures Tracked(alive, longer, a, c).owed == [] && !Consistent(Exec(alive, longer).session, a, c)
  {
    var i := |Exec(alive, run).walks|;
    var both := TwoOwed(alive, run, x, y, a, c);
    var owed := Tracked(alive, both, a, c).owed;
    assert owed == [owed[0], owed[1]];
    SecondComesFirst(alive, both, i, owed[0], owed[1], a, c);
    MoreVisit(alive, both + [Visit(i + 1, a)], i, a);
    longer := both + [Visit(i + 1, a)] + [Visit(i, a)];
    DropSecond(owed[0], owed[1]);
    MemberConsistentIff(alive, longer, a, c);
  }

  /** Of two sends that are owed, the second comes to the member. */
  lemma SecondComesFirst(alive: set<LinkId>, both: seq<Step>, i: nat, p: Call, q: Call, a: LinkId, c: Channel)
    requires Legal(alive, both) && p != q && p.ch == q.ch == c && q.data != [] && q.exclude == None
    requires var s := Exec(alive, both);
      Member(s.session, a) && |s.walks| == i + 2 && s.walks[i] == Walk(p, {}) && s.walks[i + 1] == Walk(q, {})
    requires Tracked(alive, both, a, c).owed == [p, q]
    ensures var late := both + [Visit(i + 1, a)];
      && Legal(alive, late) && Tracked(alive, late, a, c).owed == [p] && Tracked(alive, late, a, c).overtaken
      && Member(Exec(alive, late).session, a) && |Exec(alive, late).walks| == i + 2 && Exec(alive, late).walks[i] == Walk(p, {})
  {
    MoreVisit(alive, both, i + 1, a);
    DropSecond(p, q);
  }

  lemma DropSecond(p: Call, q: Call)
    requires p != q
    ensures Drop([p, q], q) == [p] && Drop([p], p) == []
  {
    assert [p, q][1..] == [q] && [q][1..] == [] && [p][1..] == [];
    assert Drop([q], q) == [];
  }

  lemma TwoOwed(alive: set<LinkId>, run: seq<Step>, x: seq<Bytes>, y: seq<Bytes>, a: LinkId, c: Channel)
    returns (both: seq<Step>)
    requires Legal(alive, run) && Member(Exec(alive, run).session, a) && Tracked(alive, run, a, c).owed == []
    requires x != [] && y != [] && Enabled(Exec(alive, run), Buffer(x, None, c))
    ensures Legal(alive, both)
    ensures var s, s', i := Exec(alive, run), Exec(alive, both), |Exec(alive, run).walks|;
      var owed := Tracked(alive, both, a, c).owed;
      && |owed| == 2 && owed[0] != owed[1] && Member(s'.session, a) && |s'.walks| == i + 2
      && s'.walks[i] == Walk(owed[0], {}) && s'.walks[i + 1] == Walk(owed[1], {})
      && owed[0].data != [] && owed[0].ch == c && owed[0].exclude == None
      && owed[1].data != [] && owed[1].ch == c && owed[1].exclude == None
  {
    MoreBuffer(alive, run, Buffer(x, None, c), a);
    MoreBuffer(alive, run + [Buffer(x, None, c)], Buffer(y, None, c), a);
    both := run + [Buffer(x, None, c)] + [Buffer(y, None, c)];
  }

  /** The other race: a buffered send that comes and goes while a link has had its replay but is
      not in the list yet passes it over, whatever happened before. */
  lemma PassedOverWhileJoining(alive: set<LinkId>, run: seq<Step>, fragments: seq<Bytes>, a: LinkId, c: Channel)
    returns (longer: seq<Step>)
    requires Legal(alive, run) && Enabled(Exec(alive, run), BeginAdd(a))
    requires fragments != [] && Enabled(Exec(alive, run), Buffer(fragments, None, c))
    ensures Legal(alive, longer) && Member(Exec(alive, longer).session, a)
    ensures !Consistent(Exec(alive, longer).session, a, c)
  {
    RunInv(alive, run);
    var i := |Exec(alive, run).walks|;
    var sent := SentWhileJoining(alive, run, fragments, a, c);
    var s := Exec(alive, sent);
    var walked := WalkAlone(alive, sent, s, |s.session.links|, a, c, Tracked(alive, sent, a, c));
    WalkedAll(s);
    NotVisited(s, a);
    MoreFinish(alive, walked, i, a);
    More(alive, walked + [Finish(i)], EndAdd(a), a, c);
    longer := walked + [Finish(i)] + [EndAdd(a)];
    MemberConsistentIff(alive, longer, a, c);
  }

  lemma NotVisited(s: Sys, a: LinkId)
    requires s.walks != [] && a !in s.session.links
    ensures a !in Walked(s, |s.session.links|).walks[|s.walks| - 1].visited
  {
  }

  lemma SentWhileJoining(alive: set<LinkId>, run: seq<Step>, fragments: seq<Bytes>, a: LinkId, c: Channel)
    returns (sent: seq<Step>)
    requires Legal(alive, run) && Enabled(Exec(alive, run), BeginAdd(a))
    requires fragments != [] && Enabled(Exec(alive, run), Buffer(fragments, None, c))
    ensures Legal(alive, sent)
    ensures var s, s', i := Exec(alive, run), Exec(alive, sent), |Exec(alive, run).walks|;
      && |s'.walks| == i + 1 && s'.walks[i].visited == {}
      && s'.session.links == s.session.links && s'.session.alive == s.session.alive
      && a in s'.joining && s'.joining[a] == Place(NUM_CHANNELS, 0)
      && var q := s'.walks[i].call; q.ch == c && q.data != [] && Tracked(alive, sent, a, c).owed == [q]
  {
    var s := Exec(alive, run);
    BeginAlone(alive, run, a);
    var replayed := ReplayAlone(alive, run + [BeginAdd(a)], s, a, NUM_CHANNELS, c);
    StillBuffers(s, a, c);
    MoreBuffer(alive, replayed, Buffer(fragments, None, c), a);
    sent := replayed + [Buffer(fragments, None, c)];
  }

  /** A replay that is through does not keep anyone from buffering. */
  lemma StillBuffers(s: Sys, a: LinkId, c: Channel)
    requires Shaped(s.session) && forall b :: b in s.joining ==> !Inside(s, b, c)
    ensures var s' := Replaying(s, a, NUM_CHANNELS, 0); forall b :: b in s'.joining ==> !Inside(s', b, c)
  {
    var s' := Replaying(s, a, NUM_CHANNELS, 0);
    forall b | b in s'.joining
      ensures !Inside(s', b, c)
    {
      assert b != a ==> b in s.joining && !Inside(s, b, c);
    }
  }

  /** Its forLink ends without having been at a link in the middle of addLink. */
  lemma MoreFinish(alive: set<LinkId>, run: seq<Step>, i: nat, a: LinkId)
    requires Legal(alive, run)
    requires var s := Exec(alive, run);
      && i < |s.walks| && a !in s.walks[i].visited && s.walks[i].call.data != []
      && Enabled(s, Finish(i)) && a in s.joining && s.joining[a] == Place(NUM_CHANNELS, 0)
    ensures Legal(alive, run + [Finish(i)])
    ensures var s, s' := Exec(alive, run), Exec(alive, run + [Finish(i)]);
      var q := s.walks[i].call;
      && s'.joining == s.joining && s'.session.alive == s.session.alive
      && Tracked(alive, run + [Finish(i)], a, q.ch) == TrackLeave(Tracked(alive, run, a, q.ch), q, false)
  {
    More(alive, run, Finish(i), a, Exec(alive, run).walks[i].call.ch);
  }
}

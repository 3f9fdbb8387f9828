/** The matchmaking server's view of a session: members, host election with announcements, and
    the connect requests that mesh a peer-to-peer session; and what the members make of the
    announcements. Each operation of the server is one step; the original takes no lock around them,
    so that no two of them overlap is an assumption. */
module MasterSession {
  import opened Words

  /** A link, known by its address. */
  type LinkId = nat

  datatype Msg =
    | NewHost(host: Option<LinkId>)     // masterSessionNewHost; None is the empty address: "you are host"
    | ConnectTo(addr: LinkId)           // masterSessionConnectTo

  datatype Sent = Sent(to: LinkId, msg: Msg)

  datatype Session = Session(
    p2p: bool, canJoinAfterStart: bool,
    started: bool, someoneLeft: bool,
    links: seq<LinkId>,                 // m_Links
    host: LinkId,                       // m_Host
    log: seq<Sent>)                     // every RPC sent to a member, in order

  /** hostScore() of every link. */
  type Scores = LinkId -> nat

  // ---- Operations ----

  predicate CanJoin(s: Session) {
    (!s.p2p || !s.someoneLeft) && (!s.started || s.canJoinAfterStart)
  }

  /** What a link is told about the host: nothing, the empty address, if it is the host itself. */
  function HostFor(host: LinkId, to: LinkId): Option<LinkId> {
    if to == host then None else Some(host)
  }

  /** MasterSession::addLink after canJoin. */
  function AddLink(s: Session, l: LinkId): Session {
    if !CanJoin(s) then s
    else s.(links := s.links + [l], log := s.log + [Sent(l, NewHost(HostFor(s.host, l)))])
  }

  /** The two requests per member, over the first n members; the new link is a member by now. */
  function ConnectRequests(links: seq<LinkId>, l: LinkId, n: nat): seq<Sent>
    requires n <= |links|
  {
    if n == 0 then []
    else ConnectRequests(links, l, n - 1) + [Sent(links[n - 1], ConnectTo(l)), Sent(l, ConnectTo(links[n - 1]))]
  }

  function SendConnectRequests(s: Session, l: LinkId): Session {
    s.(log := s.log + if s.p2p then ConnectRequests(s.links, l, |s.links|) else [Sent(l, ConnectTo(s.host))])
  }

  /** The election loop over the first n members: the host so far and the highest score so far. */
  function Elect(links: seq<LinkId>, scores: Scores, current: LinkId, n: nat): (LinkId, nat)
    requires n <= |links|
  {
    if n == 0 then (current, 0)
    else
      var (host, highest) := Elect(links, scores, current, n - 1);
      if scores(links[n - 1]) > highest then (links[n - 1], scores(links[n - 1])) else (host, highest)
  }

  /** The announcement to everyone but the host, over the first n members. */
  function Announcements(links: seq<LinkId>, host: LinkId, n: nat): seq<Sent>
    requires n <= |links|
  {
    if n == 0 then []
    else Announcements(links, host, n - 1)
         + if links[n - 1] == host then [] else [Sent(links[n - 1], NewHost(Some(host)))]
  }

  function IndexOf(links: seq<LinkId>, l: LinkId): (i: nat)
    ensures i <= |links| && (i < |links| <==> l in links)
    ensures i < |links| ==> links[i] == l
    ensures forall j :: 0 <= j < i ==> links[j] != l
  {
    if links == [] then 0 else if links[0] == l then 0 else 1 + IndexOf(links[1..], l)
  }

  function Erase(links: seq<LinkId>, l: LinkId): seq<LinkId> {
    var i := IndexOf(links, l);
    if i < |links| then links[..i] + links[i + 1..] else links
  }

  /** MasterSession::removeLink. The leaving link is still alive, so m_Host can always be locked
      and the branch that removes the session is never taken. */
  function RemoveLink(s: Session, l: LinkId, scores: Scores): Session {
    if l !in s.links then s
    else
      var left := s.(links := Erase(s.links, l), someoneLeft := true);
      if l != s.host then left
      else
        var host := Elect(left.links, scores, s.host, |left.links|).0;
        left.(host := host,
              log := s.log + Announcements(left.links, host, |left.links|) + [Sent(host, NewHost(None))])
  }

  /** masterLinkRpcRegisterServer: the registering link becomes host and first member. */
  function Register(p2p: bool, canJoinAfterStart: bool, l: LinkId): Session {
    AddLink(Session(p2p, canJoinAfterStart, false, false, [], l, []), l)
  }

  /** masterLinkRpcJoinServer on the session found. */
  function Join(s: Session, l: LinkId): Session {
    SendConnectRequests(AddLink(s, l), l)
  }

  // ---- Runs ----

  /** A member's own session: how much of the log it has seen, and m_Host (None: it is boss). */
  datatype Client = Client(seen: nat, host: Option<LinkId>)

  datatype Sys = Sys(session: Session, clients: map<LinkId, Client>)

  datatype Step =
    | JoinServer(l: LinkId)
    | Leave(l: LinkId, scores: Scores)
    | StartSession
    | Process(l: LinkId)                // l moves one entry further in the log, handling its own

  const NEW_CLIENT := Client(0, None)

  function ClientOf(s: Sys, l: LinkId): Client {
    if l in s.clients then s.clients[l] else NEW_CLIENT
  }

  /** The masterSessionNewHost handler; other messages do not touch the host. */
  function Handle(c: Client, l: LinkId, e: Sent): Client {
    Client(c.seen + 1, if e.to == l && e.msg.NewHost? then e.msg.host else c.host)
  }

  /** Joining needs a session that can be joined and a link that is not in it; leaving keeps at
      least one member, and scores are positive. */
  ghost predicate Enabled(s: Sys, step: Step) {
    match step
    case JoinServer(l) => CanJoin(s.session) && l !in s.session.links
    case Leave(l, scores) => l in s.session.links && |s.session.links| > 1 && forall k :: scores(k) > 0
    case StartSession => true
    case Process(l) => ClientOf(s, l).seen < |s.session.log|
  }

  ghost function Apply(s: Sys, step: Step): Sys
    requires Enabled(s, step)
  {
    match step
    case JoinServer(l) => s.(session := Join(s.session, l))
    case Leave(l, scores) => s.(session := RemoveLink(s.session, l, scores))
    case StartSession => s.(session := s.session.(started := true))
    case Process(l) =>
      var c := ClientOf(s, l);
      s.(clients := s.clients[l := Handle(c, l, s.session.log[c.seen])])
  }

  ghost predicate Legal(s: Sys, steps: seq<Step>)
    decreases |steps|
  {
    steps == [] || (Enabled(s, steps[0]) && Legal(Apply(s, steps[0]), steps[1..]))
  }

  ghost function Exec(s: Sys, steps: seq<Step>): Sys
    requires Legal(s, steps)
    decreases |steps|
  {
    if steps == [] then s else Exec(Apply(s, steps[0]), steps[1..])
  }

  function Initial(p2p: bool, canJoinAfterStart: bool, l: LinkId): Sys {
    Sys(Register(p2p, canJoinAfterStart, l), map[])
  }

  // ---- Elections ----

  /** The election picks the first member of maximal score; with no positive score it changes
      nothing. */
  lemma {:induction false} ElectFirstMax(links: seq<LinkId>, scores: Scores, current: LinkId, n: nat)
    requires n <= |links|
    ensures var (host, highest) := Elect(links, scores, current, n);
            && (forall i :: 0 <= i < n ==> scores(links[i]) <= highest)
            && (highest == 0 ==> host == current)
            && (highest > 0 ==> exists i :: 0 <= i < n && links[i] == host && scores(links[i]) == highest
                                         && forall j :: 0 <= j < i ==> scores(links[j]) < highest)
  {
    if n > 0 {
      ElectFirstMax(links, scores, current, n - 1);
      var (host, highest) := Elect(links, scores, current, n - 1);
      if scores(links[n - 1]) > highest {
        assert links[n - 1] == Elect(links, scores, current, n).0;
      }
    }
  }

  /** After the host left, m_Host is a current member if and only if some remaining member has a
      positive score, and then it is the first one of maximal score. In particular it is no member
      when the last one leaves. */
  lemma HostAfterLeave(s: Session, scores: Scores)
    requires s.host in s.links && Distinct(s.links)
    ensures var after := RemoveLink(s, s.host, scores);
            && (after.host in after.links <==> exists l :: l in after.links && scores(l) > 0)
            && (after.host in after.links ==>
                  exists i :: 0 <= i < |after.links| && after.links[i] == after.host
                           && (forall j :: 0 <= j < i ==> scores(after.links[j]) < scores(after.host))
                           && (forall j :: i <= j < |after.links| ==> scores(after.links[j]) <= scores(after.host)))
  {
    var links := Erase(s.links, s.host);
    EraseFacts(s.links, s.host);
    ElectFirstMax(links, scores, s.host, |links|);
    var (host, highest) := Elect(links, scores, s.host, |links|);
    if highest > 0 {
      assert host in links && scores(host) > 0;
    }
  }

  /** A member that is not host leaves without a word to anybody; a stranger changes nothing. */
  lemma OthersLeaveQuietly(s: Session, l: LinkId, scores: Scores)
    requires l != s.host && Distinct(s.links)
    ensures var after := RemoveLink(s, l, scores);
            && after.host == s.host && after.log == s.log
            && (after.someoneLeft <==> s.someoneLeft || l in s.links)
            && forall k :: k in after.links <==> k in s.links && k != l
  {
    EraseFacts(s.links, l);
  }

  /** When the last member leaves, the session is not removed and m_Host keeps naming the link
      that left, which is also told that it is host. */
  lemma LastMemberLeaves(s: Session, l: LinkId, scores: Scores)
    requires s.links == [l] && s.host == l
    ensures var after := RemoveLink(s, l, scores);
            after.links == [] && after.host == l && after.log == s.log + [Sent(l, NewHost(None))]
  {
    assert IndexOf(s.links, l) == 0;
    assert Erase(s.links, l) == [];
  }

  predicate Distinct(links: seq<LinkId>) {
    forall i, j :: 0 <= i < j < |links| ==> links[i] != links[j]
  }

  lemma EraseFacts(links: seq<LinkId>, l: LinkId)
    requires Distinct(links)
    ensures Distinct(Erase(links, l)) && l !in Erase(links, l)
    ensures forall k :: k != l ==> (k in Erase(links, l) <==> k in links)
    ensures l in links ==> |Erase(links, l)| == |links| - 1
  {
    var i := IndexOf(links, l);
    if i < |links| {
      var r := Erase(links, l);
      forall k | k in links && k != l
        ensures k in r
      {
        var j :| 0 <= j < |links| && links[j] == k;
        assert r[if j < i then j else j - 1] == k;
      }
    }
  }

  // ---- What members believe ----

  /** The last host a link was told, in a log. */
  function LastHost(log: seq<Sent>, l: LinkId): Option<Option<LinkId>> {
    if log == [] then None
    else
      var e := log[|log| - 1];
      if e.to == l && e.msg.NewHost? then Some(e.msg.host) else LastHost(log[..|log| - 1], l)
  }

  lemma {:induction false} LastHostAppend(a: seq<Sent>, b: seq<Sent>, l: LinkId)
    ensures LastHost(a + b, l) == if LastHost(b, l).Some? then LastHost(b, l) else LastHost(a, l)
  {
    if b == [] {
      assert a + b == a;
    } else {
      var n := |b| - 1;
      assert (a + b)[..|a + b| - 1] == a + b[..n];
      LastHostAppend(a, b[..n], l);
    }
  }

  lemma LastHostOne(e: Sent, l: LinkId)
    ensures LastHost([e], l) == if e.to == l && e.msg.NewHost? then Some(e.msg.host) else None
  {
    assert [e][..0] == [];
  }

  lemma {:induction false} AnnouncementsReach(links: seq<LinkId>, host: LinkId, n: nat, l: LinkId)
    requires n <= |links|
    ensures LastHost(Announcements(links, host, n), l)
         == if l != host && l in links[..n] then Some(Some(host)) else None
  {
    if n > 0 {
      AnnouncementsReach(links, host, n - 1, l);
      var e := Sent(links[n - 1], NewHost(Some(host)));
      LastHostOne(e, l);
      LastHostAppend(Announcements(links, host, n - 1), if links[n - 1] == host then [] else [e], l);
      assert links[..n] == links[..n - 1] + [links[n - 1]];
    }
  }

  lemma {:induction false} RequestsNameNoHost(links: seq<LinkId>, l: LinkId, n: nat, k: LinkId)
    requires n <= |links|
    ensures LastHost(ConnectRequests(links, l, n), k) == None
  {
    if n > 0 {
      RequestsNameNoHost(links, l, n - 1, k);
      var two := [Sent(links[n - 1], ConnectTo(l)), Sent(l, ConnectTo(links[n - 1]))];
      LastHostAppend([two[0]], [two[1]], k);
      LastHostOne(two[0], k);
      LastHostOne(two[1], k);
      assert two == [two[0]] + [two[1]];
      LastHostAppend(ConnectRequests(links, l, n - 1), two, k);
    }
  }

  /** The host is a member, members are distinct, and every member's latest announcement names
      the host (or, to the host itself, nobody). */
  ghost predicate HostOk(s: Session) {
    && Distinct(s.links) && s.host in s.links
    && forall l :: l in s.links ==> LastHost(s.log, l) == Some(HostFor(s.host, l))
  }

  lemma RegisterHostOk(p2p: bool, canJoinAfterStart: bool, l: LinkId)
    ensures HostOk(Register(p2p, canJoinAfterStart, l))
  {
    var s := Register(p2p, canJoinAfterStart, l);
    assert s.links == [l] && s.log == [Sent(l, NewHost(None))];
    LastHostOne(Sent(l, NewHost(None)), l);
  }

  lemma AddHostOk(s: Session, l: LinkId)
    requires HostOk(s) && CanJoin(s) && l !in s.links
    ensures HostOk(AddLink(s, l))
  {
    var e := Sent(l, NewHost(HostFor(s.host, l)));
    forall k | k in s.links + [l]
      ensures LastHost(s.log + [e], k) == Some(HostFor(s.host, k))
    {
      LastHostOne(e, k);
      LastHostAppend(s.log, [e], k);
    }
  }

  lemma RequestsHostOk(s: Session, l: LinkId)
    requires HostOk(s)
    ensures HostOk(SendConnectRequests(s, l))
  {
    var more := if s.p2p then ConnectRequests(s.links, l, |s.links|) else [Sent(l, ConnectTo(s.host))];
    forall k | k in s.links
      ensures LastHost(s.log + more, k) == LastHost(s.log, k)
    {
      RequestsNameNoHost(s.links, l, |s.links|, k);
      LastHostOne(Sent(l, ConnectTo(s.host)), k);
      LastHostAppend(s.log, more, k);
    }
  }

  lemma LeaveHostOk(s: Session, l: LinkId, scores: Scores)
    requires HostOk(s) && l in s.links && |s.links| > 1 && forall k :: scores(k) > 0
    ensures HostOk(RemoveLink(s, l, scores))
  {
    EraseFacts(s.links, l);
    if l == s.host {
      var links := Erase(s.links, l);
      ElectFirstMax(links, scores, s.host, |links|);
      var host := Elect(links, scores, s.host, |links|).0;
      assert scores(links[0]) > 0;
      assert host in links;
      var told := Announcements(links, host, |links|);
      forall k | k in links
        ensures LastHost(s.log + told + [Sent(host, NewHost(None))], k) == Some(HostFor(host, k))
      {
        assert links[..|links|] == links;
        AnnouncementsReach(links, host, |links|, k);
        LastHostAppend(s.log, told, k);
        LastHostOne(Sent(host, NewHost(None)), k);
        LastHostAppend(s.log + told, [Sent(host, NewHost(None))], k);
      }
    }
  }

  /** A client's m_Host is what the part of the log it has seen says. */
  ghost predicate ClientOk(log: seq<Sent>, l: LinkId, c: Client) {
    && c.seen <= |log|
    && c.host == match LastHost(log[..c.seen], l) case None => None case Some(host) => host
  }

  ghost predicate ClientsOk(s: Sys) {
    forall l :: ClientOk(s.session.log, l, ClientOf(s, l))
  }

  lemma ProcessOk(log: seq<Sent>, l: LinkId, c: Client)
    requires ClientOk(log, l, c) && c.seen < |log|
    ensures ClientOk(log, l, Handle(c, l, log[c.seen]))
  {
    assert log[..c.seen + 1] == log[..c.seen] + [log[c.seen]];
    LastHostAppend(log[..c.seen], [log[c.seen]], l);
    LastHostOne(log[c.seen], l);
  }

  lemma MoreLogOk(log: seq<Sent>, more: seq<Sent>, l: LinkId, c: Client)
    requires ClientOk(log, l, c)
    ensures ClientOk(log + more, l, c)
  {
    assert (log + more)[..c.seen] == log[..c.seen];
  }

  /** How often a link was told who is host. */
  function Tells(log: seq<Sent>, l: LinkId): nat {
    if log == [] then 0
    else Tells(log[..|log| - 1], l) + (if log[|log| - 1].to == l && log[|log| - 1].msg.NewHost? then 1 else 0)
  }

  lemma {:induction false} TellsAppend(x: seq<Sent>, y: seq<Sent>, l: LinkId)
    ensures Tells(x + y, l) == Tells(x, l) + Tells(y, l)
  {
    if y == [] {
      assert x + y == x;
    } else {
      assert (x + y)[..|x + y| - 1] == x + y[..|y| - 1];
      TellsAppend(x, y[..|y| - 1], l);
    }
  }

  lemma TellsOne(e: Sent, l: LinkId)
    ensures Tells([e], l) == if e.to == l && e.msg.NewHost? then 1 else 0
  {
    assert [e][..0] == [] && Tells([], l) == 0;
  }

  lemma {:induction false} AnnouncementsTell(links: seq<LinkId>, host: LinkId, n: nat, l: LinkId)
    requires n <= |links| && Distinct(links)
    ensures Tells(Announcements(links, host, n), l) == if l != host && l in links[..n] then 1 else 0
  {
    if n > 0 {
      AnnouncementsTell(links, host, n - 1, l);
      var k, before := links[n - 1], Announcements(links, host, n - 1);
      if k != host {
        TellsOne(Sent(k, NewHost(Some(host))), l);
        TellsAppend(before, [Sent(k, NewHost(Some(host)))], l);
      } else {
        assert before + [] == before;
      }
      LastIsNew(links, n, l);
    }
  }

  lemma LastIsNew(links: seq<LinkId>, n: nat, l: LinkId)
    requires 0 < n <= |links| && Distinct(links)
    ensures links[n - 1] !in links[..n - 1]
    ensures l in links[..n] <==> l in links[..n - 1] || l == links[n - 1]
  {
    assert links[..n] == links[..n - 1] + [links[n - 1]];
  }

  /** When the host leaves, every remaining member and the new host are told once; when a link joins,
      that link is; and nobody else. */
  lemma ToldOnce(s: Session, l: LinkId, scores: Scores, k: LinkId)
    requires Distinct(s.links)
    ensures l == s.host && l in s.links ==>
              var after := RemoveLink(s, l, scores);
              Tells(after.log, k) == Tells(s.log, k) + if k in after.links || k == after.host then 1 else 0
    ensures CanJoin(s) ==> Tells(AddLink(s, l).log, k) == Tells(s.log, k) + if k == l then 1 else 0
  {
    var e := Sent(l, NewHost(HostFor(s.host, l)));
    TellsOne(e, k);
    TellsAppend(s.log, [e], k);
    if l == s.host && l in s.links {
      var after := RemoveLink(s, l, scores);
      EraseFacts(s.links, l);
      assert after.links[..|after.links|] == after.links;
      AnnouncementsTell(after.links, after.host, |after.links|, k);
      var told, last := Announcements(after.links, after.host, |after.links|), Sent(after.host, NewHost(None));
      TellsAppend(s.log, told, k);
      TellsOne(last, k);
      TellsAppend(s.log + told, [last], k);
    }
  }

  // ---- The peer-to-peer mesh ----

  /** How often `a` was told to connect to `b`. */
  function Requests(log: seq<Sent>, a: LinkId, b: LinkId): nat {
    if log == [] then 0
    else Requests(log[..|log| - 1], a, b) + (if log[|log| - 1] == Sent(a, ConnectTo(b)) then 1 else 0)
  }

  lemma {:induction false} RequestsAppend(x: seq<Sent>, y: seq<Sent>, a: LinkId, b: LinkId)
    ensures Requests(x + y, a, b) == Requests(x, a, b) + Requests(y, a, b)
  {
    if y == [] {
      assert x + y == x;
    } else {
      assert (x + y)[..|x + y| - 1] == x + y[..|y| - 1];
      RequestsAppend(x, y[..|y| - 1], a, b);
    }
  }

  lemma RequestsOne(e: Sent, a: LinkId, b: LinkId)
    ensures Requests([e], a, b) == if e == Sent(a, ConnectTo(b)) then 1 else 0
  {
    assert [e][..0] == [];
    assert Requests([e], a, b) == Requests([], a, b) + if e == Sent(a, ConnectTo(b)) then 1 else 0;
  }

  function Occurs(links: seq<LinkId>, k: LinkId, n: nat): nat
    requires n <= |links|
  {
    if n == 0 then 0 else Occurs(links, k, n - 1) + if links[n - 1] == k then 1 else 0
  }

  lemma {:induction false} OccursOnce(links: seq<LinkId>, k: LinkId, n: nat)
    requires n <= |links| && Distinct(links)
    ensures Occurs(links, k, n) == if k in links[..n] then 1 else 0
  {
    if n > 0 {
      OccursOnce(links, k, n - 1);
      assert links[..n] == links[..n - 1] + [links[n - 1]];
    }
  }

  /** What one round of connect requests for l adds. */
  lemma {:induction false} RoundAdds(links: seq<LinkId>, l: LinkId, n: nat, a: LinkId, b: LinkId)
    requires n <= |links|
    ensures Requests(ConnectRequests(links, l, n), a, b)
         == (if b == l then Occurs(links, a, n) else 0) + (if a == l then Occurs(links, b, n) else 0)
  {
    if n > 0 {
      RoundAdds(links, l, n - 1, a, b);
      var e, f := Sent(links[n - 1], ConnectTo(l)), Sent(l, ConnectTo(links[n - 1]));
      RequestsOne(e, a, b);
      RequestsOne(f, a, b);
      assert [e, f] == [e] + [f];
      RequestsAppend([e], [f], a, b);
      RequestsAppend(ConnectRequests(links, l, n - 1), [e, f], a, b);
    }
  }

  lemma {:induction false} AnnouncementsRequestNothing(links: seq<LinkId>, host: LinkId, n: nat, a: LinkId, b: LinkId)
    requires n <= |links|
    ensures Requests(Announcements(links, host, n), a, b) == 0
  {
    if n > 0 {
      AnnouncementsRequestNothing(links, host, n - 1, a, b);
      var e := Sent(links[n - 1], NewHost(Some(host)));
      RequestsOne(e, a, b);
      RequestsAppend(Announcements(links, host, n - 1), if links[n - 1] == host then [] else [e], a, b);
    }
  }

  /** Every ordered pair of distinct members has had its request exactly once; a link that never
      joined has had none, in either role, as long as nobody left. `first` is the registering
      link; every other member was also told, twice, to connect to itself. */
  ghost predicate Meshed(s: Session, first: LinkId) {
    s.p2p ==>
      && (forall a, b :: a in s.links && b in s.links ==>
            Requests(s.log, a, b) == if a != b then 1 else if a == first then 0 else 2)
      && (!s.someoneLeft ==> first in s.links)
      && (!s.someoneLeft ==> forall a, b :: a !in s.links || b !in s.links ==> Requests(s.log, a, b) == 0)
  }

  lemma RegisterMeshed(p2p: bool, canJoinAfterStart: bool, l: LinkId)
    ensures Meshed(Register(p2p, canJoinAfterStart, l), l)
  {
    var s := Register(p2p, canJoinAfterStart, l);
    assert s.links == [l] && s.log == [Sent(l, NewHost(None))];
    forall a, b
      ensures Requests(s.log, a, b) == 0
    {
      RequestsOne(Sent(l, NewHost(None)), a, b);
    }
  }

  lemma JoinMeshed(s: Session, first: LinkId, l: LinkId)
    requires Meshed(s, first) && s.p2p && Distinct(s.links) && CanJoin(s) && l !in s.links
    ensures Meshed(Join(s, l), first)
  {
    var links, e := s.links + [l], Sent(l, NewHost(HostFor(s.host, l)));
    var round := ConnectRequests(links, l, |links|);
    forall a, b
      ensures Requests(Join(s, l).log, a, b)
           == Requests(s.log, a, b) + (if b == l && a in links then 1 else 0) + (if a == l && b in links then 1 else 0)
    {
      RequestsAppend(s.log, [e], a, b);
      RequestsOne(e, a, b);
      RequestsAppend(s.log + [e], round, a, b);
      RoundAdds(links, l, |links|, a, b);
      OccursOnce(links, a, |links|);
      OccursOnce(links, b, |links|);
      assert links[..|links|] == links;
    }
  }

  lemma LeaveRequests(s: Session, l: LinkId, scores: Scores, a: LinkId, b: LinkId)
    ensures Requests(RemoveLink(s, l, scores).log, a, b) == Requests(s.log, a, b)
  {
    if l == s.host && l in s.links {
      var links := Erase(s.links, l);
      var host := Elect(links, scores, s.host, |links|).0;
      var told, last := Announcements(links, host, |links|), Sent(host, NewHost(None));
      AnnouncementsRequestNothing(links, host, |links|, a, b);
      RequestsAppend(s.log, told, a, b);
      RequestsOne(last, a, b);
      RequestsAppend(s.log + told, [last], a, b);
    }
  }

  lemma LeaveMeshed(s: Session, first: LinkId, l: LinkId, scores: Scores)
    requires Meshed(s, first) && Distinct(s.links) && l in s.links
    ensures Meshed(RemoveLink(s, l, scores), first)
  {
    EraseFacts(s.links, l);
    forall a, b
      ensures Requests(RemoveLink(s, l, scores).log, a, b) == Requests(s.log, a, b)
    {
      LeaveRequests(s, l, scores, a, b);
    }
  }

  // ---- Whole runs ----

  ghost predicate Inv(s: Sys, first: LinkId) {
    HostOk(s.session) && Meshed(s.session, first) && ClientsOk(s)
  }

  /** The log only grows, so what clients made of it stays right. */
  lemma LogGrows(s: Sys, session: Session, more: seq<Sent>)
    requires ClientsOk(s) && session.log == s.session.log + more
    ensures ClientsOk(s.(session := session))
  {
    forall l
      ensures ClientOk(session.log, l, ClientOf(s.(session := session), l))
    {
      MoreLogOk(s.session.log, more, l, ClientOf(s, l));
    }
  }

  lemma JoinInv(s: Sys, first: LinkId, l: LinkId)
    requires Inv(s, first) && Enabled(s, JoinServer(l))
    ensures Inv(Apply(s, JoinServer(l)), first)
  {
    var ses := s.session;
    AddHostOk(ses, l);
    RequestsHostOk(AddLink(ses, l), l);
    if ses.p2p {
      JoinMeshed(ses, first, l);
    }
    var e := Sent(l, NewHost(HostFor(ses.host, l)));
    var added := AddLink(ses, l);
    var requests := if ses.p2p then ConnectRequests(added.links, l, |added.links|) else [Sent(l, ConnectTo(ses.host))];
    assert Join(ses, l).log == ses.log + ([e] + requests);
    LogGrows(s, Join(ses, l), [e] + requests);
  }

  lemma LeaveInv(s: Sys, first: LinkId, l: LinkId, scores: Scores)
    requires Inv(s, first) && Enabled(s, Leave(l, scores))
    ensures Inv(Apply(s, Leave(l, scores)), first)
  {
    var ses, after := s.session, RemoveLink(s.session, l, scores);
    LeaveHostOk(ses, l, scores);
    LeaveMeshed(ses, first, l, scores);
    var more := if l != ses.host then [] else Announcements(after.links, after.host, |after.links|) + [Sent(after.host, NewHost(None))];
    assert after.log == ses.log + more;
    LogGrows(s, after, more);
  }

  lemma ProcessInv(s: Sys, first: LinkId, l: LinkId)
    requires Inv(s, first) && Enabled(s, Process(l))
    ensures Inv(Apply(s, Process(l)), first)
  {
    var s' := Apply(s, Process(l));
    forall k
      ensures ClientOk(s'.session.log, k, ClientOf(s', k))
    {
      assert ClientOk(s.session.log, k, ClientOf(s, k));
      if k == l {
        ProcessOk(s.session.log, l, ClientOf(s, l));
      }
    }
  }

  lemma {:induction false} RunInv(s: Sys, first: LinkId, steps: seq<Step>)
    requires Inv(s, first) && Legal(s, steps)
    ensures Inv(Exec(s, steps), first)
    decreases |steps|
  {
    if steps != [] {
      match steps[0] {
        case JoinServer(l) => JoinInv(s, first, l);
        case Leave(l, scores) => LeaveInv(s, first, l, scores);
        case StartSession => LogGrows(s, s.session.(started := true), []);
        case Process(l) => ProcessInv(s, first, l);
      }
      RunInv(Apply(s, steps[0]), first, steps[1..]);
    }
  }

  lemma InitialInv(p2p: bool, canJoinAfterStart: bool, l: LinkId)
    ensures Inv(Initial(p2p, canJoinAfterStart, l), l)
  {
    RegisterHostOk(p2p, canJoinAfterStart, l);
    RegisterMeshed(p2p, canJoinAfterStart, l);
    var s := Initial(p2p, canJoinAfterStart, l);
    assert s.session.log[..0] == [];
  }

  /** Host agreement: in every run that keeps at least one member, m_Host is a current member, and
      once every member has processed what it was sent, exactly one of them believes it is boss,
      namely m_Host, and all others name that one. */
  lemma HostAgreement(p2p: bool, canJoinAfterStart: bool, first: LinkId, steps: seq<Step>)
    requires Legal(Initial(p2p, canJoinAfterStart, first), steps)
    ensures var s := Exec(Initial(p2p, canJoinAfterStart, first), steps);
            && s.session.host in s.session.links
            && ((forall l :: l in s.session.links ==> ClientOf(s, l).seen == |s.session.log|) ==>
                  forall l :: l in s.session.links ==> ClientOf(s, l).host == HostFor(s.session.host, l))
  {
    InitialInv(p2p, canJoinAfterStart, first);
    RunInv(Initial(p2p, canJoinAfterStart, first), first, steps);
    var s := Exec(Initial(p2p, canJoinAfterStart, first), steps);
    forall l | l in s.session.links && ClientOf(s, l).seen == |s.session.log|
      ensures ClientOf(s, l).host == HostFor(s.session.host, l)
    {
      assert ClientOk(s.session.log, l, ClientOf(s, l));
      assert s.session.log[..|s.session.log|] == s.session.log;
    }
  }

  /** Full mesh: in every reachable peer-to-peer session each ordered pair of distinct members
      (a, b) has had connect-to-b sent to a exactly once. Because sendConnectRequests runs after
      the new link became a member, every member except the registering one was also told, twice,
      to connect to itself. */
  lemma FullMesh(canJoinAfterStart: bool, first: LinkId, steps: seq<Step>, a: LinkId, b: LinkId)
    requires Legal(Initial(true, canJoinAfterStart, first), steps)
    requires var s := Exec(Initial(true, canJoinAfterStart, first), steps).session; a in s.links && b in s.links
    ensures Requests(Exec(Initial(true, canJoinAfterStart, first), steps).session.log, a, b)
         == if a != b then 1 else if a == first then 0 else 2
  {
    InitialInv(true, canJoinAfterStart, first);
    RunInv(Initial(true, canJoinAfterStart, first), first, steps);
    RunFlags(Initial(true, canJoinAfterStart, first), steps);
  }

  // ---- Client-server sessions ----

  /** How often `a` joined in a run while `b` was host. */
  ghost function JoinsUnder(s: Sys, steps: seq<Step>, a: LinkId, b: LinkId): nat
    requires Legal(s, steps)
    decreases |steps|
  {
    if steps == [] then 0
    else (if steps[0] == JoinServer(a) && s.session.host == b then 1 else 0)
         + JoinsUnder(Apply(s, steps[0]), steps[1..], a, b)
  }

  lemma JoinRequests(s: Session, l: LinkId, a: LinkId, b: LinkId)
    requires !s.p2p && CanJoin(s)
    ensures Requests(Join(s, l).log, a, b) == Requests(s.log, a, b) + if a == l && b == s.host then 1 else 0
  {
    var e, f := Sent(l, NewHost(HostFor(s.host, l))), Sent(l, ConnectTo(s.host));
    RequestsOne(e, a, b);
    RequestsOne(f, a, b);
    RequestsAppend(s.log, [e], a, b);
    RequestsAppend(s.log + [e], [f], a, b);
  }

  lemma {:induction false} RunRequests(s: Sys, steps: seq<Step>, a: LinkId, b: LinkId)
    requires !s.session.p2p && Legal(s, steps)
    ensures Requests(Exec(s, steps).session.log, a, b) == Requests(s.session.log, a, b) + JoinsUnder(s, steps, a, b)
    decreases |steps|
  {
    if steps != [] {
      match steps[0] {
        case JoinServer(l) => JoinRequests(s.session, l, a, b);
        case Leave(l, scores) => LeaveRequests(s.session, l, scores, a, b);
        case _ =>
      }
      RunRequests(Apply(s, steps[0]), steps[1..], a, b);
    }
  }

  lemma {:induction false} NeverToItself(s: Sys, first: LinkId, steps: seq<Step>, a: LinkId)
    requires Inv(s, first) && Legal(s, steps)
    ensures JoinsUnder(s, steps, a, a) == 0
    decreases |steps|
  {
    if steps != [] {
      RunInv(s, first, steps[..1]);
      assert steps[..1][1..] == [] && Exec(s, steps[..1]) == Apply(s, steps[0]);
      NeverToItself(Apply(s, steps[0]), first, steps[1..], a);
    }
  }

  /** In every reachable client-server session a link has been told to connect once for each time it
      joined, namely to the host of that moment, and nobody has been told to connect to anything else;
      no link to itself. */
  lemma ToldToConnectToHost(canJoinAfterStart: bool, first: LinkId, steps: seq<Step>, a: LinkId, b: LinkId)
    requires Legal(Initial(false, canJoinAfterStart, first), steps)
    ensures var s0 := Initial(false, canJoinAfterStart, first);
            && Requests(Exec(s0, steps).session.log, a, b) == JoinsUnder(s0, steps, a, b)
            && (a == b ==> Requests(Exec(s0, steps).session.log, a, b) == 0)
  {
    var s0 := Initial(false, canJoinAfterStart, first);
    RequestsOne(Sent(first, NewHost(None)), a, b);
    RunRequests(s0, steps, a, b);
    InitialInv(false, canJoinAfterStart, first);
    NeverToItself(s0, first, steps, a);
  }

  // ---- Who is in, and who can still come ----

  function Without(links: seq<LinkId>, l: LinkId): seq<LinkId> {
    if links == [] then [] else (if links[0] == l then [] else [links[0]]) + Without(links[1..], l)
  }

  lemma {:induction false} EraseIsWithout(links: seq<LinkId>, l: LinkId)
    requires Distinct(links)
    ensures Erase(links, l) == Without(links, l)
  {
    if links != [] {
      EraseIsWithout(links[1..], l);
      if links[0] == l {
        assert l !in links[1..];
      } else {
        var i := IndexOf(links[1..], l);
        assert IndexOf(links, l) == i + 1;
        if i < |links[1..]| {
          assert links[..i + 1] + links[i + 2..] == [links[0]] + (links[1..][..i] + links[1..][i + 1..]);
        } else {
          assert links == [links[0]] + links[1..];
        }
      }
    }
  }

  /** The members a run leaves, in the order in which they came. */
  function MembersBy(links: seq<LinkId>, steps: seq<Step>): seq<LinkId>
    decreases |steps|
  {
    if steps == [] then links
    else match steps[0]
      case JoinServer(l) => MembersBy(links + [l], steps[1..])
      case Leave(l, _) => MembersBy(Without(links, l), steps[1..])
      case _ => MembersBy(links, steps[1..])
  }

  lemma {:induction false} RunMembers(s: Sys, steps: seq<Step>)
    requires Distinct(s.session.links) && Legal(s, steps)
    ensures Exec(s, steps).session.links == MembersBy(s.session.links, steps)
    decreases |steps|
  {
    if steps != [] {
      if steps[0].Leave? {
        EraseFacts(s.session.links, steps[0].l);
        EraseIsWithout(s.session.links, steps[0].l);
      }
      RunMembers(Apply(s, steps[0]), steps[1..]);
    }
  }

  ghost predicate SomeoneLeaves(steps: seq<Step>) {
    exists i :: 0 <= i < |steps| && steps[i].Leave?
  }

  lemma SomeoneLeavesCons(steps: seq<Step>)
    requires steps != []
    ensures SomeoneLeaves(steps) <==> steps[0].Leave? || SomeoneLeaves(steps[1..])
    ensures StartSession in steps <==> steps[0] == StartSession || StartSession in steps[1..]
  {
    assert steps == [steps[0]] + steps[1..];
    if SomeoneLeaves(steps[1..]) {
      var i :| 0 <= i < |steps[1..]| && steps[1..][i].Leave?;
      assert steps[i + 1].Leave?;
    }
    if i :| 0 < i < |steps| && steps[i].Leave? {
      assert steps[1..][i - 1].Leave?;
    }
  }

  lemma {:induction false} RunFlags(s: Sys, steps: seq<Step>)
    requires Legal(s, steps)
    ensures var after := Exec(s, steps).session;
            && after.p2p == s.session.p2p && after.canJoinAfterStart == s.session.canJoinAfterStart
            && (after.started <==> s.session.started || StartSession in steps)
            && (after.someoneLeft <==> s.session.someoneLeft || SomeoneLeaves(steps))
    decreases |steps|
  {
    if steps != [] {
      SomeoneLeavesCons(steps);
      RunFlags(Apply(s, steps[0]), steps[1..]);
    }
  }

  /** The members of a session are those who registered or joined and have not left since, in order;
      it can be joined if and only if it was not started or was registered as open after the start,
      and is client-server or has lost nobody. */
  lemma JoinableExactly(p2p: bool, canJoinAfterStart: bool, first: LinkId, steps: seq<Step>)
    requires Legal(Initial(p2p, canJoinAfterStart, first), steps)
    ensures var s := Exec(Initial(p2p, canJoinAfterStart, first), steps).session;
            && s.links == MembersBy([first], steps)
            && (CanJoin(s) <==> (StartSession !in steps || canJoinAfterStart) && (!p2p || !SomeoneLeaves(steps)))
  {
    var s0 := Initial(p2p, canJoinAfterStart, first);
    assert s0.session.links == [first];
    RunFlags(s0, steps);
    RunMembers(s0, steps);
  }

  /** A session that cannot be joined stays so: no run joins it, and its members only become fewer. */
  lemma {:induction false} StaysClosed(s: Sys, steps: seq<Step>)
    requires !CanJoin(s.session) && Distinct(s.session.links) && Legal(s, steps)
    ensures !CanJoin(Exec(s, steps).session)
    ensures forall i :: 0 <= i < |steps| ==> !steps[i].JoinServer?
    ensures forall l :: l in Exec(s, steps).session.links ==> l in s.session.links
    decreases |steps|
  {
    if steps != [] {
      if steps[0].Leave? {
        EraseFacts(s.session.links, steps[0].l);
      }
      StaysClosed(Apply(s, steps[0]), steps[1..]);
      forall i | 0 <= i < |steps|
        ensures !steps[i].JoinServer?
      {
        if i > 0 {
          assert !steps[1..][i - 1].JoinServer?;
        }
      }
    }
  }

  /** After the first leave a peer-to-peer session can never be joined again. */
  lemma NoJoinAfterLeave(s: Sys, steps: seq<Step>)
    requires s.session.p2p && s.session.someoneLeft && Distinct(s.session.links) && Legal(s, steps)
    ensures var after := Exec(s, steps).session;
            !CanJoin(after) && forall l :: l in after.links ==> l in s.session.links
    ensures forall i :: 0 <= i < |steps| ==> !steps[i].JoinServer?
  {
    StaysClosed(s, steps);
  }

  /** Nor can one that was started, unless it was registered as open after the start. */
  lemma NoJoinAfterStart(s: Sys, steps: seq<Step>)
    requires !s.session.canJoinAfterStart && Distinct(s.session.links) && Legal(s, [StartSession] + steps)
    ensures var after := Exec(s, [StartSession] + steps).session;
            !CanJoin(after) && forall l :: l in after.links ==> l in s.session.links
    ensures forall i :: 0 <= i < |steps| ==> !steps[i].JoinServer?
  {
    assert ([StartSession] + steps)[1..] == steps;
    StaysClosed(Apply(s, StartSession), steps);
  }

  // ---- The component ----

  class Master {
    const p2p: bool
    const canJoinAfterStart: bool
    var started: bool
    var someoneLeftTheSession: bool
    var links: seq<LinkId>
    var host: LinkId
    var log: seq<Sent>       // callRpc appends here

    ghost function View(): Session
      reads this
    {
      Session(p2p, canJoinAfterStart, started, someoneLeftTheSession, links, host, log)
    }

    constructor (host: LinkId, p2p: bool, canJoinAfterStart: bool)
      ensures View() == Session(p2p, canJoinAfterStart, false, false, [], host, [])
    {
      this.p2p, this.canJoinAfterStart, this.host := p2p, canJoinAfterStart, host;
      started, someoneLeftTheSession, links, log := false, false, [], [];
    }

    method Join(l: LinkId) returns (ok: bool)
      modifies this
      ensures ok == CanJoin(old(View()))
      ensures View() == AddLink(old(View()), l)
    {
      ok := (!p2p || !someoneLeftTheSession) && (!started || canJoinAfterStart);
      if !ok {
        return;
      }
      links := links + [l];
      if l == host {
        log := log + [Sent(l, NewHost(None))];
      } else {
        log := log + [Sent(l, NewHost(Some(host)))];
      }
    }

    method RequestConnects(l: LinkId)
      modifies this`log
      ensures View() == SendConnectRequests(old(View()), l)
      ensures !p2p ==> log == old(log) + [Sent(l, ConnectTo(host))]
    {
      if p2p {
        for i := 0 to |links|
          invariant log == old(log) + ConnectRequests(links, l, i)
        {
          log := log + [Sent(links[i], ConnectTo(l))];
          log := log + [Sent(l, ConnectTo(links[i]))];
        }
      } else {
        log := log + [Sent(l, ConnectTo(host))];
      }
    }

    /** The position of a link in m_Links, or its length. */
    method Find(l: LinkId) returns (i: nat)
      ensures i == IndexOf(links, l)
    {
      i := 0;
      while i < |links| && links[i] != l
        invariant i <= |links| && forall j :: 0 <= j < i ==> links[j] != l
      {
        i := i + 1;
      }
    }

    method Remove(l: LinkId, scores: Scores)
      modifies this
      ensures View() == RemoveLink(old(View()), l, scores)
    {
      var at := Find(l);
      if at == |links| {
        return;
      }
      links := links[..at] + links[at + 1..];
      someoneLeftTheSession := true;
      if l == host {
        host := BestHost(scores);
        AnnounceHost();
      }
    }

    /** The host's address to everyone else, the empty address to the host. */
    method AnnounceHost()
      modifies this`log
      ensures log == old(log) + Announcements(links, host, |links|) + [Sent(host, NewHost(None))]
    {
      for i := 0 to |links|
        invariant log == old(log) + Announcements(links, host, i)
      {
        if links[i] != host {
          log := log + [Sent(links[i], NewHost(Some(host)))];
        }
      }
      log := log + [Sent(host, NewHost(None))];
    }

    /** The election loop of removeLink. */
    method BestHost(scores: Scores) returns (best: LinkId)
      ensures best == Elect(links, scores, host, |links|).0
    {
      var highest := 0;
      best := host;
      for i := 0 to |links|
        invariant (best, highest) == Elect(links, scores, host, i)
      {
        if scores(links[i]) > highest {
          best, highest := links[i], scores(links[i]);
        }
      }
    }
  }
}

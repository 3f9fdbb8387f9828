/** SessionBase and Network::sendReliable: a session keeps the packets of buffered messages and
    replays them to every link that is added later. The original takes no lock around these
    operations; the modules SessionSteps and SessionRuns say what that costs. */
module SessionBuffer {
  import opened Words
  import Sender

  const NUM_CHANNELS: nat := 8

  type Channel = c: nat | c < 8

  /** The identity of a link object. */
  type LinkId = nat

  /** The identity of a shared packet object: which sendReliable call made it, its place among the
      fragments of that call, and the payload. */
  datatype Packet = Packet(msg: nat, part: nat, parts: nat, payload: Bytes)

  function PacketsOf(msg: nat, fragments: seq<Bytes>): (r: seq<Packet>)
    ensures |r| == |fragments|
  {
    seq(|fragments|, i requires 0 <= i < |fragments| => Packet(msg, i, |fragments|, fragments[i]))
  }

  /** What the links' ReliableSend components were given, per link and channel; a missing entry is
      a component that does not exist yet. */
  type Outbox = map<(LinkId, Channel), seq<Packet>>

  function Box(out: Outbox, a: LinkId, ch: Channel): seq<Packet> {
    if (a, ch) in out then out[(a, ch)] else []
  }

  function Enqueue(out: Outbox, a: LinkId, ch: Channel, data: seq<Packet>): Outbox {
    out[(a, ch) := Box(out, a, ch) + data]
  }

  /** `alive` are the link objects that still exist: `links` holds weak pointers. */
  datatype Session = Session(links: seq<LinkId>, alive: set<LinkId>, buffered: seq<seq<Packet>>, out: Outbox)

  predicate Shaped(s: Session) {
    |s.buffered| == NUM_CHANNELS
  }

  // ---- Specification of the operations ----

  predicate Member(s: Session, a: LinkId) {
    a in s.links && a in s.alive
  }

  function Initial(alive: set<LinkId>): Session {
    Session([], alive, seq(NUM_CHANNELS, _ => []), map[])
  }

  function BufferMsg(buffered: seq<seq<Packet>>, ch: Channel, data: seq<Packet>): seq<seq<Packet>>
    requires |buffered| == NUM_CHANNELS
  {
    buffered[ch := buffered[ch] + data]
  }

  /** The links among the first n of a list that are still alive, without one. */
  function OthersIn(links: seq<LinkId>, alive: set<LinkId>, exclude: Option<LinkId>, n: nat): seq<LinkId>
    requires n <= |links|
  {
    if n == 0 then []
    else
      var rest := OthersIn(links, alive, exclude, n - 1);
      if links[n - 1] in alive && exclude != Some(links[n - 1]) then rest + [links[n - 1]] else rest
  }

  function Others(links: seq<LinkId>, alive: set<LinkId>, exclude: Option<LinkId>): seq<LinkId> {
    OthersIn(links, alive, exclude, |links|)
  }

  function EnqueueOnAll(out: Outbox, to: seq<LinkId>, ch: Channel, data: seq<Packet>): Outbox {
    if to == [] then out
    else Enqueue(EnqueueOnAll(out, to[..|to| - 1], ch, data), to[|to| - 1], ch, data)
  }

  /** The buffered packets of the channels below n, enqueued on one link. */
  function Replay(out: Outbox, a: LinkId, buffered: seq<seq<Packet>>, n: nat): Outbox
    requires n <= |buffered| == NUM_CHANNELS
  {
    if n == 0 then out else Enqueue(Replay(out, a, buffered, n - 1), a, n - 1, buffered[n - 1])
  }

  /** The first half of a buffered send ... */
  function Buffered(s: Session, data: seq<Packet>, ch: Channel): Session
    requires Shaped(s)
  {
    s.(buffered := BufferMsg(s.buffered, ch, data))
  }

  /** ... and the second: forLink, enqueueing on every living link but the excluded one. */
  function Dispatched(s: Session, data: seq<Packet>, exclude: Option<LinkId>, ch: Channel): Session {
    s.(links := Others(s.links, s.alive, None), out := EnqueueOnAll(s.out, Others(s.links, s.alive, exclude), ch, data))
  }

  function SendReliable(s: Session, data: seq<Packet>, exclude: Option<LinkId>, buffer: bool, ch: Channel): Session
    requires Shaped(s)
  {
    Dispatched(if buffer then Buffered(s, data, ch) else s, data, exclude, ch)
  }

  /** The first half of addLink ... */
  function Replayed(s: Session, a: LinkId): Session
    requires Shaped(s)
  {
    s.(out := Replay(s.out, a, s.buffered, NUM_CHANNELS))
  }

  /** ... and the second. */
  function Linked(s: Session, a: LinkId): Session {
    s.(links := s.links + [a])
  }

  function AddLink(s: Session, a: LinkId): Session
    requires Shaped(s)
  {
    Linked(Replayed(s, a), a)
  }

  function RemoveLink(s: Session, a: LinkId): Session {
    s.(links := Others(s.links, s.alive, Some(a)))
  }

  // ---- The session object ----

  datatype SendResult = Fine | NotSent

  class SessionBase {
    var links: seq<LinkId>
    const buffered: array<seq<Packet>>
    // The world outside the session: which links exist, and their send components.
    var alive: set<LinkId>
    var out: Outbox

    ghost predicate Valid()
      reads this
    {
      buffered.Length == NUM_CHANNELS
    }

    ghost function View(): Session
      reads this, buffered
    {
      Session(links, alive, buffered[..], out)
    }

    constructor (alive: set<LinkId>)
      ensures Valid() && fresh(buffered)
      ensures View() == Initial(alive)
    {
      this.links, this.alive, this.out := [], alive, map[];
      buffered := new seq<Packet>[NUM_CHANNELS](_ => []);
    }

    /** SessionBase::bufferMsg. */
    method BufferMessage(data: seq<Packet>, ch: Channel)
      requires Valid()
      modifies buffered
      ensures buffered[..] == BufferMsg(old(buffered[..]), ch, data)
    {
      ghost var before := buffered[..];
      for i := 0 to |data|
        invariant buffered[ch] == before[ch] + data[..i]
        invariant forall c :: 0 <= c < NUM_CHANNELS && c != ch ==> buffered[c] == before[c]
      {
        buffered[ch] := buffered[ch] + [data[i]];
        assert data[..i + 1] == data[..i] + [data[i]];
      }
      assert data[..|data|] == data;
    }

    /** SessionBase::addLink: its assertion is the requires. */
    method Add(a: LinkId)
      requires Valid() && a in alive && a !in links
      modifies this`links, this`out
      ensures View() == AddLink(old(View()), a)
    {
      for ch := 0 to NUM_CHANNELS
        invariant out == Replay(old(out), a, buffered[..], ch)
        invariant links == old(links)
      {
        ReplayChannel(a, ch);
      }
      links := links + [a];
    }

    /** The buffered packets of one channel, one by one. */
    method ReplayChannel(a: LinkId, ch: Channel)
      requires Valid()
      modifies this`out
      ensures out == Enqueue(old(out), a, ch, buffered[ch])
    {
      out := Enqueue(out, a, ch, []);
      for i := 0 to |buffered[ch]|
        invariant out == Enqueue(old(out), a, ch, buffered[ch][..i])
      {
        out := Enqueue(out, a, ch, [buffered[ch][i]]);
        assert buffered[ch][..i + 1] == buffered[ch][..i] + [buffered[ch][i]];
        assert Box(old(out), a, ch) + buffered[ch][..i] + [buffered[ch][i]]
            == Box(old(out), a, ch) + buffered[ch][..i + 1];
      }
      assert buffered[ch][..|buffered[ch]|] == buffered[ch];
    }

    /** SessionBase::forLink with the callback of sendReliable: expired links are erased from the
        list that is being walked. */
    method ForLink(exclude: Option<LinkId>, data: seq<Packet>, ch: Channel) returns (queued: bool)
      requires Valid()
      modifies this`links, this`out
      ensures links == Others(old(links), alive, None)
      ensures out == EnqueueOnAll(old(out), Others(old(links), alive, exclude), ch, data)
      ensures queued <==> Others(old(links), alive, exclude) != []
    {
      queued := false;
      var i := 0;
      ghost var seen := 0;
      KeptNothing(links, alive, None);
      while i < |links|
        invariant KeptSoFar(old(links), alive, None, seen, links, i)
        invariant out == EnqueueOnAll(old(out), OthersIn(old(links), alive, exclude, seen), ch, data)
        invariant queued <==> OthersIn(old(links), alive, exclude, seen) != []
        decreases |links| - i
      {
        KeepOneMore(old(links), alive, None, seen, links, i);
        EnqueueOnAllSnoc(old(out), OthersIn(old(links), alive, exclude, seen), links[i], ch, data);
        if links[i] !in alive {
          links := links[..i] + links[i + 1..];
        } else {
          if exclude != Some(links[i]) {
            out := Enqueue(out, links[i], ch, data);
            queued := true;
          }
          i := i + 1;
        }
        seen := seen + 1;
      }
      KeptAll(old(links), alive, None, seen, links, i);
    }

    /** Network::sendReliable with a session. */
    method Send(data: seq<Packet>, exclude: Option<LinkId>, buffer: bool, ch: Channel) returns (r: SendResult)
      requires Valid()
      modifies this`links, this`out, buffered
      ensures View() == SendReliable(old(View()), data, exclude, buffer, ch)
      ensures forall c: Channel :: buffered[c] == old(buffered[c]) + if buffer && c == ch then data else []
      ensures r == Fine <==> exists a :: a in old(links) && a in alive && exclude != Some(a)
    {
      if buffer {
        BufferMessage(data, ch);
      }
      SomeOther(links, alive, exclude);
      var queued := ForLink(exclude, data, ch);
      r := if queued then Fine else NotSent;
    }

    /** Network::sendReliable without a session: the packets go to the one link named, if any. */
    method SendToLink(data: seq<Packet>, specific: Option<LinkId>, ch: Channel) returns (r: SendResult)
      modifies this`out
      ensures r == Fine <==> specific.Some?
      ensures forall a: LinkId, c: Channel :: Box(out, a, c) == Box(old(out), a, c) + if specific == Some(a) && c == ch then data else []
      ensures out == if specific.Some? then Enqueue(old(out), specific.value, ch, data) else old(out)
    {
      r := NotSent;
      if specific.Some? {
        out := Enqueue(out, specific.value, ch, data);
        r := Fine;
      }
    }

    /** Session::removeLink: expired links go as well. */
    method Remove(a: LinkId)
      modifies this`links
      ensures View() == RemoveLink(old(View()), a)
      ensures forall b :: b in links <==> b in old(links) && b in alive && b != a
    {
      var i := 0;
      ghost var seen := 0;
      KeptNothing(links, alive, Some(a));
      while i < |links|
        invariant KeptSoFar(old(links), alive, Some(a), seen, links, i)
        decreases |links| - i
      {
        KeepOneMore(old(links), alive, Some(a), seen, links, i);
        if links[i] !in alive || links[i] == a {
          links := links[..i] + links[i + 1..];
        } else {
          i := i + 1;
        }
        seen := seen + 1;
      }
      KeptAll(old(links), alive, Some(a), seen, links, i);
      OthersAre(old(links), alive, Some(a));
    }
  }

  // ---- What the list operations do, element by element ----

  /** Walking a list while erasing from it: `seen` elements of the original list have been looked at,
      and what was kept of them are the first i elements now. */
  ghost predicate KeptSoFar(all: seq<LinkId>, alive: set<LinkId>, exclude: Option<LinkId>, seen: nat, links: seq<LinkId>, i: nat) {
    i <= |links| && seen <= |all| && links[i..] == all[seen..] && links[..i] == OthersIn(all, alive, exclude, seen)
  }

  lemma KeptNothing(all: seq<LinkId>, alive: set<LinkId>, exclude: Option<LinkId>)
    ensures KeptSoFar(all, alive, exclude, 0, all, 0)
  {
  }

  lemma KeepOneMore(all: seq<LinkId>, alive: set<LinkId>, exclude: Option<LinkId>, seen: nat, links: seq<LinkId>, i: nat)
    requires KeptSoFar(all, alive, exclude, seen, links, i) && i < |links|
    ensures seen < |all| && links[i] == all[seen]
    ensures if links[i] in alive && exclude != Some(links[i]) then KeptSoFar(all, alive, exclude, seen + 1, links, i + 1)
            else KeptSoFar(all, alive, exclude, seen + 1, links[..i] + links[i + 1..], i)
  {
    WalkList(links, i, all, seen);
  }

  lemma KeptAll(all: seq<LinkId>, alive: set<LinkId>, exclude: Option<LinkId>, seen: nat, links: seq<LinkId>, i: nat)
    requires KeptSoFar(all, alive, exclude, seen, links, i) && i == |links|
    ensures seen == |all| && links == Others(all, alive, exclude)
  {
    assert links[..i] == links;
  }

  lemma WalkList<T>(xs: seq<T>, i: nat, all: seq<T>, seen: nat)
    requires i < |xs| && seen <= |all| && xs[i..] == all[seen..]
    ensures seen < |all| && xs[i] == all[seen]
    ensures (xs[..i] + xs[i + 1..])[..i] == xs[..i] && xs[..i + 1] == xs[..i] + [xs[i]]
    ensures (xs[..i] + xs[i + 1..])[i..] == all[seen + 1..] && xs[i + 1..] == all[seen + 1..]
  {
    assert xs[i..][0] == xs[i] && all[seen..][0] == all[seen];
    assert xs[i..][1..] == xs[i + 1..] && all[seen..][1..] == all[seen + 1..];
  }

  predicate Distinct<T(==)>(xs: seq<T>) {
    forall i, j :: 0 <= i < j < |xs| ==> xs[i] != xs[j]
  }

  lemma {:induction false} OthersInAre(links: seq<LinkId>, alive: set<LinkId>, exclude: Option<LinkId>, n: nat)
    requires n <= |links|
    ensures forall a :: a in OthersIn(links, alive, exclude, n) <==> a in links[..n] && a in alive && exclude != Some(a)
    ensures Distinct(links) ==> Distinct(OthersIn(links, alive, exclude, n))
  {
    if n > 0 {
      OthersInAre(links, alive, exclude, n - 1);
      assert links[..n] == links[..n - 1] + [links[n - 1]];
    }
  }

  lemma OthersAre(links: seq<LinkId>, alive: set<LinkId>, exclude: Option<LinkId>)
    ensures forall a :: a in Others(links, alive, exclude) <==> a in links && a in alive && exclude != Some(a)
    ensures Distinct(links) ==> Distinct(Others(links, alive, exclude))
  {
    OthersInAre(links, alive, exclude, |links|);
    assert links[..|links|] == links;
  }

  lemma SomeOther(links: seq<LinkId>, alive: set<LinkId>, exclude: Option<LinkId>)
    ensures (exists a :: a in links && a in alive && exclude != Some(a)) <==> Others(links, alive, exclude) != []
  {
    OthersAre(links, alive, exclude);
    var r := Others(links, alive, exclude);
    if r != [] {
      assert r[0] in r;
    }
  }

  lemma EnqueueBox(out: Outbox, a: LinkId, ch: Channel, data: seq<Packet>, b: LinkId, c: Channel)
    ensures Box(Enqueue(out, a, ch, data), b, c)
         == if b == a && c == ch then Box(out, b, c) + data else Box(out, b, c)
  {
  }

  lemma EnqueueOnAllSnoc(out: Outbox, to: seq<LinkId>, a: LinkId, ch: Channel, data: seq<Packet>)
    ensures EnqueueOnAll(out, to + [a], ch, data) == Enqueue(EnqueueOnAll(out, to, ch, data), a, ch, data)
  {
    assert (to + [a])[..|to|] == to;
  }

  lemma {:induction false} EnqueueOnAllBox(out: Outbox, to: seq<LinkId>, ch: Channel, data: seq<Packet>, a: LinkId, c: Channel)
    requires Distinct(to)
    ensures Box(EnqueueOnAll(out, to, ch, data), a, c)
         == if a in to && c == ch then Box(out, a, c) + data else Box(out, a, c)
  {
    if to != [] {
      var n := |to| - 1;
      SplitLast(to, a);
      EnqueueOnAllBox(out, to[..n], ch, data, a, c);
      EnqueueBox(EnqueueOnAll(out, to[..n], ch, data), to[n], ch, data, a, c);
    }
  }

  lemma SplitLast<T>(xs: seq<T>, x: T)
    requires xs != [] && Distinct(xs)
    ensures var n := |xs| - 1;
      && Distinct(xs[..n]) && xs[n] !in xs[..n]
      && (x in xs <==> x in xs[..n] || x == xs[n])
  {
    assert xs == xs[..|xs| - 1] + [xs[|xs| - 1]];
  }

  lemma {:induction false} ReplayBox(out: Outbox, a: LinkId, buffered: seq<seq<Packet>>, n: nat, b: LinkId, c: Channel)
    requires n <= |buffered| == NUM_CHANNELS
    ensures Box(Replay(out, a, buffered, n), b, c)
         == if b == a && c < n then Box(out, b, c) + buffered[c] else Box(out, b, c)
  {
    if n > 0 {
      ReplayBox(out, a, buffered, n - 1, b, c);
      EnqueueBox(Replay(out, a, buffered, n - 1), a, n - 1, buffered[n - 1], b, c);
    }
  }

  // ---- Histories restricted to buffered packets ----

  /** The elements of a history that are among those kept, in order. */
  function Only<T(==)>(history: seq<T>, kept: seq<T>): seq<T> {
    if history == [] then []
    else
      var n := |history| - 1;
      var rest := Only(history[..n], kept);
      if history[n] in kept then rest + [history[n]] else rest
  }

  lemma {:induction false} OnlyAppend<T>(h: seq<T>, more: seq<T>, kept: seq<T>)
    ensures Only(h + more, kept) == Only(h, kept) + Only(more, kept)
  {
    if more == [] {
      assert h + more == h;
    } else {
      var n := |more| - 1;
      OnlyAppend(h, more[..n], kept);
      assert (h + more)[..|h| + n] == h + more[..n];
    }
  }

  lemma {:induction false} OnlyAll<T>(h: seq<T>, kept: seq<T>)
    requires forall x :: x in h ==> x in kept
    ensures Only(h, kept) == h
  {
    if h != [] {
      OnlyAll(h[..|h| - 1], kept);
    }
  }

  lemma {:induction false} OnlyNone<T>(h: seq<T>, kept: seq<T>)
    requires forall x :: x in h ==> x !in kept
    ensures Only(h, kept) == []
  {
    if h != [] {
      OnlyNone(h[..|h| - 1], kept);
    }
  }

  /** Keeping also things that the history does not hold changes nothing. */
  lemma {:induction false} OnlyNew<T>(h: seq<T>, kept: seq<T>, more: seq<T>)
    requires forall x :: x in h ==> x !in more
    ensures Only(h, kept + more) == Only(h, kept)
  {
    if h != [] {
      var n := |h| - 1;
      OnlyNew(h[..n], kept, more);
      assert h[n] in h;
    }
  }

  lemma {:induction false} OnlyMember<T>(h: seq<T>, kept: seq<T>, x: T)
    ensures x in Only(h, kept) <==> x in h && x in kept
  {
    if h != [] {
      var n := |h| - 1;
      OnlyMember(h[..n], kept, x);
      assert h == h[..n] + [h[n]];
    }
  }

  // ---- Messages that stay in one piece ----

  /** Every packet is next to the other packets of its message, in order, with none missing. */
  ghost predicate Whole(ps: seq<Packet>) {
    forall i :: 0 <= i < |ps| ==> WholeAt(ps, i)
  }

  ghost predicate WholeAt(ps: seq<Packet>, i: nat)
    requires i < |ps|
  {
    var p := ps[i];
    && p.part < p.parts
    && p.part <= i && i + (p.parts - p.part) <= |ps|
    && (forall k :: i - p.part <= k < i - p.part + p.parts ==>
          ps[k].msg == p.msg && ps[k].parts == p.parts && ps[k].part == k - (i - p.part))
  }

  lemma WholeAppend(ps: seq<Packet>, more: seq<Packet>)
    requires Whole(ps) && Whole(more)
    ensures Whole(ps + more)
  {
    forall i | 0 <= i < |ps + more|
      ensures WholeAt(ps + more, i)
    {
      if i < |ps| {
        assert WholeAt(ps, i);
      } else {
        assert WholeAt(more, i - |ps|);
      }
    }
  }

  function Payloads(ps: seq<Packet>): (r: seq<Bytes>)
    ensures |r| == |ps|
  {
    seq(|ps|, i requires 0 <= i < |ps| => ps[i].payload)
  }

  /** The sequence number under which ReliableSend queues packet i of a box. */
  function NumberOf(box: seq<Packet>, i: nat): U32
    requires i <= |box|
  {
    Sender.EnqueueAll(Sender.INITIAL, Payloads(box)[..i]).sendSeq
  }

  lemma {:induction false} NumbersAreConsecutive(box: seq<Packet>, i: nat)
    requires i <= |box|
    ensures NumberOf(box, i) == KeyAt(0, i)
  {
    if i > 0 {
      NumbersAreConsecutive(box, i - 1);
      assert Payloads(box)[..i][..i - 1] == Payloads(box)[..i - 1];
      WrapAdd(i - 1, 1);
    }
  }

  lemma NextNumber(box: seq<Packet>, i: nat)
    requires i < |box|
    ensures NumberOf(box, i + 1) == Wrap(NumberOf(box, i) + 1)
  {
    NumbersAreConsecutive(box, i);
    NumbersAreConsecutive(box, i + 1);
    WrapAdd(i, 1);
  }
}

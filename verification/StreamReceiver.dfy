/** The wrapping receiver refines one that knows the layout of the stream and has no sequence
    numbers at all: it only records which messages were handed over, which wait complete, and
    which fragments are held. */
module StreamReceiver {
  import opened Words
  import opened Packets
  import opened Reassembly
  import opened Receiver
  import opened Layout

  // ---- The simple receiver ----

  /** `done` messages were handed over; the messages in `ready` are complete and wait their turn;
      `parts` are the fragments held. */
  datatype Progress = Progress(done: nat, ready: set<nat>, parts: set<Slot>)

  const NOTHING := Progress(0, {}, {})

  /** Fragments lo..hi-1 of message m are held. */
  predicate HeldRange(parts: set<Slot>, m: nat, lo: nat, hi: nat) {
    forall i: nat :: lo <= i < hi ==> Slot(m, i) in parts
  }

  predicate Complete(ms: Messages, parts: set<Slot>, m: nat)
    requires m < |ms|
  {
    HeldRange(parts, m, 0, |ms[m]|)
  }

  function Without(parts: set<Slot>, m: nat): set<Slot> {
    set s | s in parts && s.msg != m
  }

  function Arrive(ms: Messages, p: Progress, s: Slot): Progress
    requires IsSlot(ms, s)
  {
    if s.msg < p.done then p
    else if |ms[s.msg]| == 1 then p.(ready := p.ready + {s.msg})
    else if s in p.parts then p
    else if Complete(ms, p.parts + {s}, s.msg) then
      p.(parts := Without(p.parts, s.msg), ready := p.ready + {s.msg})
    else p.(parts := p.parts + {s})
  }

  /** Progress after handing over the expected message. */
  function Handed(p: Progress): Progress {
    p.(done := p.done + 1, ready := p.ready - {p.done})
  }

  function Advance(p: Progress): Progress
    decreases p.ready
  {
    if p.done in p.ready then Advance(Handed(p)) else p
  }

  // ---- What the stream's packets must look like ----

  ghost predicate Shaped(ms: Messages) {
    forall m :: 0 <= m < |ms| ==> ShapedMessage(ms[m], RELIABLE_SEND)
  }

  /** The packet `receive` makes of one fragment. */
  function Part(mode: IdMode, payload: Bytes): RecvPacket {
    if |payload| < 3 then RecvPacket(0, [], 0)
    else if mode == OnFirstOnly && !IsFirst(payload) then RecvPacket(0, payload[2..], payload[1])
    else RecvPacket(payload[2], payload[3..], payload[1])
  }

  lemma PartIsUnpacked(mode: IdMode, payload: Bytes)
    requires |payload| >= 3
    ensures Unpack(mode, payload[1], payload[2..]) == Some(Part(mode, payload))
  {
    assert payload[2..][1..] == payload[3..];
  }

  function Joined(mode: IdMode, msg: seq<Bytes>, n: nat): Bytes
    requires n <= |msg|
  {
    if n == 0 then [] else Joined(mode, msg, n - 1) + Part(mode, msg[n - 1]).data
  }

  /** The packet handed over for a whole message: id and flags of its first fragment, the
      data of all of them in order. */
  function Whole(mode: IdMode, msg: seq<Bytes>): RecvPacket
    requires msg != []
  {
    RecvPacket(Part(mode, msg[0]).id, Joined(mode, msg, |msg|), Part(mode, msg[0]).flags)
  }

  lemma WholeOfSingle(mode: IdMode, payload: Bytes)
    ensures Whole(mode, [payload]) == Part(mode, payload)
  {
    assert Joined(mode, [payload], 1) == Joined(mode, [payload], 0) + Part(mode, payload).data;
  }

  // ---- The refinement relation ----

  /** The map of fragments holds exactly `parts`, each under its number. */
  ghost predicate PartsMatch(mode: IdMode, ms: Messages, parts: set<Slot>, f: Fragments) {
    && (forall s :: s in parts ==>
          && Live(ms, s) && |ms[s.msg]| > 1
          && KeyOf(ms, s) in f && f[KeyOf(ms, s)] == Part(mode, ms[s.msg][s.idx]))
    && (forall k :: k in f ==> exists s :: s in parts && KeyOf(ms, s) == k)
  }

  /** The map of packets holds exactly the `ready` messages, each under the number of its first
      fragment, inside the window that starts at the expected number. */
  ghost predicate ReadyMatch(mode: IdMode, ms: Messages, done: nat, ready: set<nat>, packets: map<U32, Entry>) {
    && done <= |ms|
    && (forall m :: m in ready ==> Waiting(ms, done, m) && Stored(mode, ms, packets, m))
    && (forall k :: k in packets ==> exists m :: m in ready && MsgKey(ms, m) == k)
  }

  ghost predicate Waiting(ms: Messages, done: nat, m: nat)
    requires done <= |ms|
  {
    done <= m < |ms| && 0 < |ms[m]| < CYCLE && Start(ms, m) < Start(ms, done) + WINDOW
  }

  ghost predicate Stored(mode: IdMode, ms: Messages, packets: map<U32, Entry>, m: nat) {
    m < |ms| && 0 < |ms[m]| < CYCLE
    && MsgKey(ms, m) in packets && packets[MsgKey(ms, m)] == Entry(Whole(mode, ms[m]), |ms[m]|)
  }

  /** The number of a message's first fragment, under which the message is kept. */
  function MsgKey(ms: Messages, m: nat): U32 {
    if m < |ms| && ms[m] != [] then KeyOf(ms, Slot(m, 0)) else 0
  }

  ghost predicate Matches(mode: IdMode, ms: Messages, p: Progress, st: RecvState) {
    && p.done <= |ms|
    && st.recvSeq == Wrap(Start(ms, p.done))
    && ReadyMatch(mode, ms, p.done, p.ready, st.packets)
    && PartsMatch(mode, ms, p.parts, st.fragments)
  }

  /** Fewer than 2^32 numbers lie between the oldest one the receiver still remembers and the
      newest one assigned. Runs of fewer than 2^32 numbers always satisfy it. */
  ghost predicate Horizon(ms: Messages, p: Progress) {
    && p.done <= |ms|
    && Total(ms) < Start(ms, p.done) + CYCLE
    && forall s :: s in p.parts ==> IsSlot(ms, s) && Total(ms) < SeqOf(ms, s) + CYCLE
  }

  // ---- Fragments ----

  /** Looking up a place of the stream in the map of fragments. */
  lemma PartLookup(mode: IdMode, ms: Messages, parts: set<Slot>, f: Fragments, s: Slot)
    requires PartsMatch(mode, ms, parts, f) && Live(ms, s)
    ensures KeyOf(ms, s) in f <==> s in parts
    ensures s in parts ==> f[KeyOf(ms, s)] == Part(mode, ms[s.msg][s.idx])
  {
    if KeyOf(ms, s) in f {
      var t :| t in parts && KeyOf(ms, t) == KeyOf(ms, s);
      KeyInjective(ms, s, t);
    }
  }

  lemma PartsInsert(mode: IdMode, ms: Messages, parts: set<Slot>, f: Fragments, s: Slot)
    requires PartsMatch(mode, ms, parts, f) && Live(ms, s) && |ms[s.msg]| > 1
    ensures PartsMatch(mode, ms, parts + {s}, f[KeyOf(ms, s) := Part(mode, ms[s.msg][s.idx])])
  {
    forall t | t in parts && KeyOf(ms, t) == KeyOf(ms, s)
      ensures t == s
    {
      KeyInjective(ms, t, s);
    }
    var g := f[KeyOf(ms, s) := Part(mode, ms[s.msg][s.idx])];
    forall k | k in g
      ensures exists t :: t in parts + {s} && KeyOf(ms, t) == k
    {
      if k != KeyOf(ms, s) {
        var t :| t in parts && KeyOf(ms, t) == k;
        assert t in parts + {s};
      } else {
        assert s in parts + {s};
      }
    }
  }

  /** Keys in a message, counted from one of its fragments. */
  lemma NeighbourKey(ms: Messages, s: Slot, d: int)
    requires IsSlot(ms, s) && 0 <= s.idx + d < |ms[s.msg]|
    ensures KeyAt(KeyOf(ms, s), d) == KeyOf(ms, Slot(s.msg, s.idx + d))
  {
    WrapAdd(SeqOf(ms, s), d);
  }

  /** A place at distance d from a fragment of the same message: whether it is held, and where
      in the message it says it is. */
  lemma NeighbourLookup(mode: IdMode, ms: Messages, parts: set<Slot>, f: Fragments, s: Slot, d: int)
    requires Shaped(ms) && PartsMatch(mode, ms, parts, f)
    requires IsSlot(ms, s) && 0 <= s.idx + d < |ms[s.msg]| && Live(ms, Slot(s.msg, s.idx + d))
    ensures var t := Slot(s.msg, s.idx + d);
            && KeyAt(KeyOf(ms, s), d) == KeyOf(ms, t)
            && (KeyOf(ms, t) in f <==> t in parts)
            && (t in parts ==>
                  && HasBit(f[KeyOf(ms, t)].flags, FirstBit) == (t.idx == 0)
                  && HasBit(f[KeyOf(ms, t)].flags, LastBit) == (t.idx == |ms[t.msg]| - 1))
  {
    var t := Slot(s.msg, s.idx + d);
    NeighbourKey(ms, s, d);
    PartLookup(mode, ms, parts, f, t);
    assert ShapedFragment(ms[t.msg][t.idx], RELIABLE_SEND, t.idx == 0, t.idx == |ms[t.msg]| - 1);
  }

  ghost predicate AllLive(ms: Messages, m: nat) {
    m < |ms| && |ms[m]| <= CYCLE && forall i :: 0 <= i < |ms[m]| ==> Live(ms, Slot(m, i))
  }

  /** The last place reached going up from a held one: a gap, or the message's last place. */
  lemma {:induction false} GapAbove(parts: set<Slot>, m: nat, lo: nat, last: nat) returns (j: nat)
    requires lo <= last
    ensures lo <= j <= last && HeldRange(parts, m, lo, j)
    ensures j < last ==> Slot(m, j) !in parts
    ensures HeldRange(parts, m, lo, last + 1) <==> Slot(m, j) in parts
    decreases last - lo
  {
    if lo == last || Slot(m, lo) !in parts {
      j := lo;
    } else {
      j := GapAbove(parts, m, lo + 1, last);
    }
  }

  lemma {:induction false} GapBelow(parts: set<Slot>, m: nat, hi: nat) returns (j: nat)
    ensures j <= hi && HeldRange(parts, m, j + 1, hi + 1)
    ensures j > 0 ==> Slot(m, j) !in parts
    ensures HeldRange(parts, m, 0, hi + 1) <==> Slot(m, j) in parts
  {
    if hi == 0 || Slot(m, hi) !in parts {
      j := hi;
    } else {
      j := GapBelow(parts, m, hi - 1);
    }
  }

  lemma HeldPassesDown(mode: IdMode, ms: Messages, parts: set<Slot>, f: Fragments, s: Slot, j: nat)
    requires Shaped(ms) && PartsMatch(mode, ms, parts, f) && AllLive(ms, s.msg) && IsSlot(ms, s)
    requires j <= s.idx && HeldRange(parts, s.msg, j + 1, s.idx + 1)
    ensures PassesDown(f, KeyOf(ms, s), s.idx - j)
  {
    forall d | 0 - (s.idx - j) < d <= 0
      ensures KeyAt(KeyOf(ms, s), d) in f && !HasBit(f[KeyAt(KeyOf(ms, s), d)].flags, FirstBit)
    {
      NeighbourLookup(mode, ms, parts, f, s, d);
      assert Slot(s.msg, s.idx + d) in parts;
    }
  }

  lemma HeldPassesUp(mode: IdMode, ms: Messages, parts: set<Slot>, f: Fragments, s: Slot, j: nat)
    requires Shaped(ms) && PartsMatch(mode, ms, parts, f) && AllLive(ms, s.msg) && IsSlot(ms, s)
    requires s.idx <= j < |ms[s.msg]| && HeldRange(parts, s.msg, s.idx, j)
    ensures PassesUp(f, KeyOf(ms, s), j - s.idx)
  {
    forall d | 0 <= d < j - s.idx
      ensures KeyAt(KeyOf(ms, s), d) in f && !HasBit(f[KeyAt(KeyOf(ms, s), d)].flags, LastBit)
    {
      NeighbourLookup(mode, ms, parts, f, s, d);
      assert Slot(s.msg, s.idx + d) in parts;
    }
  }

  /** The walk down from a fragment finds the start of its message exactly when everything from
      the start up to it is held. */
  lemma WalkDown(mode: IdMode, ms: Messages, parts: set<Slot>, f: Fragments, s: Slot)
    requires Shaped(ms) && PartsMatch(mode, ms, parts, f) && AllLive(ms, s.msg) && IsSlot(ms, s)
    ensures FindBegin(f, KeyOf(ms, s))
         == if HeldRange(parts, s.msg, 0, s.idx + 1) then Some(KeyOf(ms, Slot(s.msg, 0))) else None
  {
    var j := GapBelow(parts, s.msg, s.idx);
    WalkDownTo(mode, ms, parts, f, s, j);
  }

  lemma WalkDownTo(mode: IdMode, ms: Messages, parts: set<Slot>, f: Fragments, s: Slot, j: nat)
    requires Shaped(ms) && PartsMatch(mode, ms, parts, f) && AllLive(ms, s.msg) && IsSlot(ms, s)
    requires j <= s.idx && HeldRange(parts, s.msg, j + 1, s.idx + 1) && (j > 0 ==> Slot(s.msg, j) !in parts)
    ensures FindBegin(f, KeyOf(ms, s))
         == if Slot(s.msg, j) in parts then Some(KeyOf(ms, Slot(s.msg, j))) else None
  {
    NeighbourLookup(mode, ms, parts, f, s, j - s.idx);
    HeldPassesDown(mode, ms, parts, f, s, j);
    FindBeginIs(f, KeyOf(ms, s), s.idx - j);
  }

  /** The walk up finds the end of the message exactly when everything from the fragment on is
      held. */
  lemma WalkUp(mode: IdMode, ms: Messages, parts: set<Slot>, f: Fragments, s: Slot)
    requires Shaped(ms) && PartsMatch(mode, ms, parts, f) && AllLive(ms, s.msg) && IsSlot(ms, s)
    ensures FindEnd(f, KeyOf(ms, s))
         == if HeldRange(parts, s.msg, s.idx, |ms[s.msg]|) then Some(KeyOf(ms, Slot(s.msg, |ms[s.msg]| - 1))) else None
  {
    var j := GapAbove(parts, s.msg, s.idx, |ms[s.msg]| - 1);
    WalkUpTo(mode, ms, parts, f, s, j);
  }

  lemma WalkUpTo(mode: IdMode, ms: Messages, parts: set<Slot>, f: Fragments, s: Slot, j: nat)
    requires Shaped(ms) && PartsMatch(mode, ms, parts, f) && AllLive(ms, s.msg) && IsSlot(ms, s)
    requires s.idx <= j < |ms[s.msg]| && HeldRange(parts, s.msg, s.idx, j)
    requires j < |ms[s.msg]| - 1 ==> Slot(s.msg, j) !in parts
    ensures FindEnd(f, KeyOf(ms, s))
         == if Slot(s.msg, j) in parts then Some(KeyOf(ms, Slot(s.msg, j))) else None
  {
    NeighbourLookup(mode, ms, parts, f, s, j - s.idx);
    HeldPassesUp(mode, ms, parts, f, s, j);
    FindEndIs(f, KeyOf(ms, s), j - s.idx);
  }

  /** The bodies read from the map are the message's, in order. */
  lemma {:induction false} RangeIsJoined(mode: IdMode, ms: Messages, parts: set<Slot>, f: Fragments, m: nat, n: nat)
    requires PartsMatch(mode, ms, parts, f) && AllLive(ms, m) && n <= |ms[m]| && HeldRange(parts, m, 0, n)
    ensures DataRange(f, Start(ms, m), n) == Joined(mode, ms[m], n)
  {
    if n > 0 {
      RangeIsJoined(mode, ms, parts, f, m, n - 1);
      var last := Slot(m, n - 1);
      PartLookup(mode, ms, parts, f, last);
      assert KeyAt(Start(ms, m), n - 1) == KeyOf(ms, last);
    }
  }

  /** On a well-formed stream, with fragment s held, reassembly succeeds exactly when every
      fragment of s's message is held; it then returns the message's true bounds and its whole
      packet, and erases exactly the message's keys. Other messages' fragments, stale ones
      included, play no part. */
  lemma ReassemblyExact(mode: IdMode, ms: Messages, parts: set<Slot>, f: Fragments, s: Slot)
    requires Shaped(ms) && PartsMatch(mode, ms, parts, f) && AllLive(ms, s.msg) && IsSlot(ms, s)
    requires s in parts
    ensures TryReassemble(f, KeyOf(ms, s)) ==
            if Complete(ms, parts, s.msg) then Some(WholeMessage(mode, ms, f, s.msg)) else None
  {
    var m, n := s.msg, |ms[s.msg]|;
    WalkDown(mode, ms, parts, f, s);
    WalkUp(mode, ms, parts, f, s);
    HeldRangeSplit(parts, m, s.idx, n);
    if Complete(ms, parts, m) {
      ReassembleWhole(mode, ms, parts, f, m, KeyOf(ms, s));
    }
  }

  lemma ReassembleWhole(mode: IdMode, ms: Messages, parts: set<Slot>, f: Fragments, m: nat, seqNr: U32)
    requires PartsMatch(mode, ms, parts, f) && AllLive(ms, m) && ms[m] != [] && Complete(ms, parts, m)
    requires FindBegin(f, seqNr) == Some(KeyOf(ms, Slot(m, 0)))
    requires FindEnd(f, seqNr) == Some(KeyOf(ms, Slot(m, |ms[m]| - 1)))
    ensures TryReassemble(f, seqNr) == Some(WholeMessage(mode, ms, f, m))
  {
    MessageBounds(ms, m);
    RangeIsJoined(mode, ms, parts, f, m, |ms[m]|);
    RangeFromImage(f, Start(ms, m), |ms[m]|);
    PartLookup(mode, ms, parts, f, Slot(m, 0));
  }

  /** What reassembling message m out of f must give. */
  ghost function WholeMessage(mode: IdMode, ms: Messages, f: Fragments, m: nat): Reassembled
    requires m < |ms| && ms[m] != []
  {
    var n := |ms[m]|;
    Reassembled(Whole(mode, ms[m]), KeyOf(ms, Slot(m, 0)), KeyOf(ms, Slot(m, n - 1)), f - KeyRange(Start(ms, m), n))
  }

  lemma HeldRangeSplit(parts: set<Slot>, m: nat, mid: nat, hi: nat)
    requires mid < hi
    ensures HeldRange(parts, m, 0, hi) <==> HeldRange(parts, m, 0, mid + 1) && HeldRange(parts, m, mid, hi)
  {
  }

  lemma MessageBounds(ms: Messages, m: nat)
    requires m < |ms| && 0 < |ms[m]| <= CYCLE
    ensures Count(KeyOf(ms, Slot(m, 0)), KeyOf(ms, Slot(m, |ms[m]| - 1))) == |ms[m]|
  {
    WrapSub(SeqOf(ms, Slot(m, |ms[m]| - 1)), SeqOf(ms, Slot(m, 0)));
  }

  /** Among live places, a message's keys belong to its fragments only. */
  lemma KeysOfMessage(ms: Messages, m: nat, s: Slot)
    requires AllLive(ms, m) && Live(ms, s)
    ensures KeyOf(ms, s) in KeyRange(Start(ms, m), |ms[m]|) <==> s.msg == m
  {
    if s.msg == m {
      assert KeyAt(Start(ms, m), s.idx) == KeyOf(ms, s);
    } else if KeyOf(ms, s) in KeyRange(Start(ms, m), |ms[m]|) {
      var i :| 0 <= i < |ms[m]| && KeyAt(Start(ms, m), i) == KeyOf(ms, s);
      KeyInjective(ms, s, Slot(m, i));
    }
  }

  /** Erasing a message's keys erases exactly its places. */
  lemma PartsErase(mode: IdMode, ms: Messages, parts: set<Slot>, f: Fragments, m: nat)
    requires PartsMatch(mode, ms, parts, f) && AllLive(ms, m)
    ensures PartsMatch(mode, ms, Without(parts, m), f - KeyRange(Start(ms, m), |ms[m]|))
  {
    var keys := KeyRange(Start(ms, m), |ms[m]|);
    forall s | s in parts
      ensures KeyOf(ms, s) in keys <==> s.msg == m
    {
      KeysOfMessage(ms, m, s);
    }
    forall k | k in f - keys
      ensures exists s :: s in Without(parts, m) && KeyOf(ms, s) == k
    {
      var s :| s in parts && KeyOf(ms, s) == k;
      assert s in Without(parts, m);
    }
  }

  // ---- Complete messages ----

  lemma MsgKeyInjective(ms: Messages, done: nat, a: nat, b: nat)
    requires done <= a < |ms| && done <= b < |ms| && ms[a] != [] && ms[b] != []
    requires Total(ms) <= Start(ms, done) + CYCLE && MsgKey(ms, a) == MsgKey(ms, b)
    ensures a == b
  {
    LiveFrom(ms, done, Slot(a, 0));
    LiveFrom(ms, done, Slot(b, 0));
    KeyInjective(ms, Slot(a, 0), Slot(b, 0));
  }

  /** Looking up a message in the map of packets. */
  lemma ReadyLookup(mode: IdMode, ms: Messages, done: nat, ready: set<nat>, packets: map<U32, Entry>, m: nat)
    requires ReadyMatch(mode, ms, done, ready, packets) && Total(ms) <= Start(ms, done) + CYCLE
    requires done <= m < |ms| && ms[m] != []
    ensures MsgKey(ms, m) in packets <==> m in ready
  {
    if MsgKey(ms, m) in packets {
      var m' :| m' in ready && MsgKey(ms, m') == MsgKey(ms, m);
      assert Waiting(ms, done, m');
      MsgKeyInjective(ms, done, m, m');
    }
  }

  lemma ReadyInsert(mode: IdMode, ms: Messages, done: nat, ready: set<nat>, packets: map<U32, Entry>, m: nat)
    requires ReadyMatch(mode, ms, done, ready, packets) && Total(ms) <= Start(ms, done) + CYCLE
    requires Waiting(ms, done, m)
    ensures ReadyMatch(mode, ms, done, ready + {m},
                       TryEmplace(packets, MsgKey(ms, m), Entry(Whole(mode, ms[m]), |ms[m]|)))
  {
    ReadyLookup(mode, ms, done, ready, packets, m);
    if m in ready {
      assert ready + {m} == ready;
    } else {
      ReadyAdd(mode, ms, done, ready, packets, m);
    }
  }

  lemma ReadyAdd(mode: IdMode, ms: Messages, done: nat, ready: set<nat>, packets: map<U32, Entry>, m: nat)
    requires ReadyMatch(mode, ms, done, ready, packets)
    requires Waiting(ms, done, m) && MsgKey(ms, m) !in packets
    ensures ReadyMatch(mode, ms, done, ready + {m}, packets[MsgKey(ms, m) := Entry(Whole(mode, ms[m]), |ms[m]|)])
  {
    var after := packets[MsgKey(ms, m) := Entry(Whole(mode, ms[m]), |ms[m]|)];
    forall m' | m' in ready
      ensures Waiting(ms, done, m') && Stored(mode, ms, after, m')
    {
      assert Waiting(ms, done, m') && Stored(mode, ms, packets, m');
    }
    assert Stored(mode, ms, after, m);
    forall k | k in after
      ensures exists m' :: m' in ready + {m} && MsgKey(ms, m') == k
    {
      if k in packets {
        var m' :| m' in ready && MsgKey(ms, m') == k;
        assert m' in ready + {m};
      } else {
        assert m in ready + {m};
      }
    }
  }

  /** Handing over the expected message. */
  lemma ReadyRemove(mode: IdMode, ms: Messages, done: nat, ready: set<nat>, packets: map<U32, Entry>)
    requires ReadyMatch(mode, ms, done, ready, packets) && Total(ms) <= Start(ms, done) + CYCLE
    requires done in ready
    ensures ReadyMatch(mode, ms, done + 1, ready - {done}, packets - {MsgKey(ms, done)})
  {
    var after := packets - {MsgKey(ms, done)};
    assert Waiting(ms, done, done);
    forall m | m in ready - {done}
      ensures Waiting(ms, done + 1, m) && Stored(mode, ms, after, m)
    {
      StillStored(mode, ms, done, ready, packets, m);
    }
    forall k | k in after
      ensures exists m :: m in ready - {done} && MsgKey(ms, m) == k
    {
      var m := OtherReady(mode, ms, done, ready, packets, k);
    }
  }

  lemma OtherReady(mode: IdMode, ms: Messages, done: nat, ready: set<nat>, packets: map<U32, Entry>, k: U32)
    returns (m: nat)
    requires ReadyMatch(mode, ms, done, ready, packets) && k in packets && k != MsgKey(ms, done)
    ensures m in ready - {done} && MsgKey(ms, m) == k
  {
    m :| m in ready && MsgKey(ms, m) == k;
  }

  lemma StillStored(mode: IdMode, ms: Messages, done: nat, ready: set<nat>, packets: map<U32, Entry>, m: nat)
    requires ReadyMatch(mode, ms, done, ready, packets) && Total(ms) <= Start(ms, done) + CYCLE
    requires done in ready && m in ready && m != done
    ensures Waiting(ms, done, done) && Waiting(ms, done + 1, m)
    ensures Stored(mode, ms, packets - {MsgKey(ms, done)}, m)
  {
    assert Waiting(ms, done, done) && Waiting(ms, done, m) && Stored(mode, ms, packets, m);
    if MsgKey(ms, m) == MsgKey(ms, done) {
      MsgKeyInjective(ms, done, m, done);
    }
  }

  // ---- receive refines Arrive ----

  /** Within the age assumptions, the window filter lets through exactly what is not delivered. */
  ghost predicate InWindow(ms: Messages, p: Progress, s: Slot) {
    && p.done <= |ms| && IsSlot(ms, s)
    && Start(ms, p.done) - 3 * WINDOW <= SeqOf(ms, s) < Start(ms, p.done) + WINDOW
  }

  lemma FilterExact(ms: Messages, p: Progress, s: Slot)
    requires InWindow(ms, p, s)
    ensures IsSeqNewer(KeyOf(ms, s), Wrap(Start(ms, p.done))) <==> s.msg >= p.done
  {
    NewerIsGreaterOrEqual(SeqOf(ms, s), Start(ms, p.done));
    SlotBounds(ms, s, p.done);
  }

  lemma MessageInHorizon(ms: Messages, p: Progress, m: nat)
    requires Horizon(ms, p) && p.done <= m < |ms|
    ensures |ms[m]| < CYCLE && AllLive(ms, m)
  {
    StartMonotone(ms, p.done, m);
    StartMonotone(ms, m + 1, |ms|);
    forall i | 0 <= i < |ms[m]|
      ensures Live(ms, Slot(m, i))
    {
      LiveFrom(ms, p.done, Slot(m, i));
    }
  }

  lemma ArriveSingle(mode: IdMode, ms: Messages, p: Progress, st: RecvState, s: Slot)
    requires Shaped(ms) && Matches(mode, ms, p, st) && Horizon(ms, p) && InWindow(ms, p, s)
    requires s.msg >= p.done && |ms[s.msg]| == 1
    ensures var payload := ms[s.msg][s.idx];
            var r := ReceiveStep(mode, st, KeyOf(ms, s), payload[1], payload[2..]);
            r.Received? && r.jobAdded && Matches(mode, ms, Arrive(ms, p, s), r.st)
  {
    var payload := ms[s.msg][s.idx];
    FilterExact(ms, p, s);
    assert ShapedFragment(payload, RELIABLE_SEND, true, true);
    PartIsUnpacked(mode, payload);
    assert ms[s.msg] == [payload];
    WholeOfSingle(mode, payload);
    MessageInHorizon(ms, p, s.msg);
    ReadyInsert(mode, ms, p.done, p.ready, st.packets, s.msg);
  }

  lemma ArriveFragment(mode: IdMode, ms: Messages, p: Progress, st: RecvState, s: Slot)
    requires Shaped(ms) && Matches(mode, ms, p, st) && Horizon(ms, p) && InWindow(ms, p, s)
    requires s.msg >= p.done && |ms[s.msg]| > 1 && s !in p.parts
    ensures var st' := ReceiveFragment(st, KeyOf(ms, s), Part(mode, ms[s.msg][s.idx]));
            Matches(mode, ms, Arrive(ms, p, s), st')
  {
    var m, parts := s.msg, p.parts + {s};
    MessageInHorizon(ms, p, m);
    PartsInsert(mode, ms, p.parts, st.fragments, s);
    var held := st.fragments[KeyOf(ms, s) := Part(mode, ms[m][s.idx])];
    ReassemblyExact(mode, ms, parts, held, s);
    if Complete(ms, parts, m) {
      CompleteMessage(mode, ms, p, st, s, held);
    }
  }

  /** The fragment that completes its message moves it from one map to the other. */
  lemma CompleteMessage(mode: IdMode, ms: Messages, p: Progress, st: RecvState, s: Slot, held: Fragments)
    requires Matches(mode, ms, p, st) && Horizon(ms, p) && InWindow(ms, p, s)
    requires s.msg >= p.done && |ms[s.msg]| > 1 && AllLive(ms, s.msg)
    requires PartsMatch(mode, ms, p.parts + {s}, held)
    requires held == st.fragments[KeyOf(ms, s) := Part(mode, ms[s.msg][s.idx])]
    requires TryReassemble(held, KeyOf(ms, s)) == Some(WholeMessage(mode, ms, held, s.msg))
    ensures var st' := ReceiveFragment(st, KeyOf(ms, s), Part(mode, ms[s.msg][s.idx]));
            Matches(mode, ms, p.(parts := Without(p.parts, s.msg), ready := p.ready + {s.msg}), st')
  {
    var m := s.msg;
    PartsErase(mode, ms, p.parts + {s}, held, m);
    WithoutAdded(p.parts, s);
    MessageInHorizon(ms, p, m);
    MessageBounds(ms, m);
    ReadyInsert(mode, ms, p.done, p.ready, st.packets, m);
    Completed(st, KeyOf(ms, s), Part(mode, ms[s.msg][s.idx]), WholeMessage(mode, ms, held, m));
  }

  lemma WithoutAdded(parts: set<Slot>, s: Slot)
    ensures Without(parts + {s}, s.msg) == Without(parts, s.msg)
  {
  }

  lemma Completed(st: RecvState, key: U32, pack: RecvPacket, r: Reassembled)
    requires TryReassemble(st.fragments[key := pack], key) == Some(r)
    requires Count(r.begin, r.end) < CYCLE
    ensures ReceiveFragment(st, key, pack)
         == RecvState(st.recvSeq, TryEmplace(st.packets, r.begin, Entry(r.pack, Count(r.begin, r.end))), r.rest)
  {
  }

  lemma ReceiveOfFragment(mode: IdMode, ms: Messages, p: Progress, st: RecvState, s: Slot)
    requires Shaped(ms) && Matches(mode, ms, p, st) && Horizon(ms, p) && InWindow(ms, p, s)
    requires s.msg >= p.done && |ms[s.msg]| > 1
    ensures var payload := ms[s.msg][s.idx];
            ReceiveStep(mode, st, KeyOf(ms, s), payload[1], payload[2..]) ==
              if s in p.parts then Received(st, false)
              else Received(ReceiveFragment(st, KeyOf(ms, s), Part(mode, payload)), true)
  {
    var payload := ms[s.msg][s.idx];
    FilterExact(ms, p, s);
    assert ShapedFragment(payload, RELIABLE_SEND, s.idx == 0, s.idx == |ms[s.msg]| - 1);
    PartIsUnpacked(mode, payload);
    MessageInHorizon(ms, p, s.msg);
    PartLookup(mode, ms, p.parts, st.fragments, s);
  }

  /** `receive` on u32 numbers and maps does what the simple receiver does on places. A job is
      added whenever anything changed. */
  lemma ReceiveRefines(mode: IdMode, ms: Messages, p: Progress, st: RecvState, s: Slot)
    requires Shaped(ms) && Matches(mode, ms, p, st) && Horizon(ms, p) && InWindow(ms, p, s)
    ensures var payload := ms[s.msg][s.idx];
            && |payload| >= 3
            && (var r := ReceiveStep(mode, st, KeyOf(ms, s), payload[1], payload[2..]);
                && r.Received? && Matches(mode, ms, Arrive(ms, p, s), r.st)
                && (!r.jobAdded ==> Arrive(ms, p, s) == p))
  {
    assert ShapedFragment(ms[s.msg][s.idx], RELIABLE_SEND, s.idx == 0, s.idx == |ms[s.msg]| - 1);
    FilterExact(ms, p, s);
    if s.msg < p.done {
    } else if |ms[s.msg]| == 1 {
      ArriveSingle(mode, ms, p, st, s);
    } else {
      ReceiveOfFragment(mode, ms, p, st, s);
      if s !in p.parts {
        ArriveFragment(mode, ms, p, st, s);
      }
    }
  }

  // ---- proceedRecvQueue refines Advance ----

  /** The packets of messages a..b-1. */
  function Wholes(mode: IdMode, ms: Messages, a: nat, b: nat): seq<RecvPacket>
    requires a <= b <= |ms| && NoneEmpty(ms)
    decreases b - a
  {
    if a == b then [] else [Whole(mode, ms[a])] + Wholes(mode, ms, a + 1, b)
  }

  lemma DrainStep(mode: IdMode, ms: Messages, p: Progress, st: RecvState)
    requires NoneEmpty(ms) && Matches(mode, ms, p, st) && Horizon(ms, p)
    ensures st.recvSeq in st.packets <==> p.done in p.ready
    ensures p.done in p.ready ==>
              && p.done < |ms| && |ms[p.done]| < CYCLE
              && st.packets[st.recvSeq] == Entry(Whole(mode, ms[p.done]), |ms[p.done]|)
              && var after := RecvState(Wrap(st.recvSeq + |ms[p.done]|), st.packets - {st.recvSeq}, st.fragments);
                 Matches(mode, ms, Handed(p), after) && Horizon(ms, Handed(p))
  {
    if p.done < |ms| {
      ReadyLookup(mode, ms, p.done, p.ready, st.packets, p.done);
      assert MsgKey(ms, p.done) == st.recvSeq;
    }
    if p.done in p.ready {
      assert Waiting(ms, p.done, p.done) && Stored(mode, ms, st.packets, p.done);
      ReadyRemove(mode, ms, p.done, p.ready, st.packets);
      WrapAdd(Start(ms, p.done), |ms[p.done]|);
    }
  }

  lemma {:induction false} AdvanceFacts(p: Progress)
    ensures var q := Advance(p);
            && p.done <= q.done && q.done !in q.ready && q.ready <= p.ready && q.parts == p.parts
            && (forall m :: m in p.ready && m !in q.ready ==> m < q.done)
            && (forall m :: p.done <= m < q.done ==> m in p.ready)
    decreases p.ready
  {
    if p.done in p.ready {
      AdvanceFacts(Handed(p));
    }
  }

  lemma DrainUnfold(st: RecvState, pack: RecvPacket, n: U32)
    requires st.recvSeq in st.packets && st.packets[st.recvSeq] == Entry(pack, n)
    ensures var rest := Drain(RecvState(Wrap(st.recvSeq + n), st.packets - {st.recvSeq}, st.fragments));
            Drain(st) == DrainResult(rest.st, [pack] + rest.handled)
  {
  }

  /** What a drain from (p, st) must end in. */
  ghost predicate DrainedTo(mode: IdMode, ms: Messages, p: Progress, q: Progress, r: DrainResult)
    requires NoneEmpty(ms)
  {
    && p.done <= q.done <= |ms|
    && Matches(mode, ms, q, r.st) && Horizon(ms, q)
    && r.handled == Wholes(mode, ms, p.done, q.done)
  }

  lemma DrainedOneMore(mode: IdMode, ms: Messages, p: Progress, q: Progress, r: DrainResult)
    requires NoneEmpty(ms) && p.done < |ms|
    requires DrainedTo(mode, ms, Handed(p), q, r)
    ensures DrainedTo(mode, ms, p, q, DrainResult(r.st, [Whole(mode, ms[p.done])] + r.handled))
  {
  }

  lemma DrainStops(mode: IdMode, ms: Messages, p: Progress, st: RecvState)
    requires NoneEmpty(ms) && Matches(mode, ms, p, st) && Horizon(ms, p)
    requires p.done !in p.ready && st.recvSeq !in st.packets
    ensures DrainedTo(mode, ms, p, Advance(p), Drain(st))
  {
  }

  /** If the drain after the expected message is right, so is the drain before it. */
  lemma DrainContinues(mode: IdMode, ms: Messages, p: Progress, st: RecvState, after: RecvState)
    requires NoneEmpty(ms) && p.done < |ms| && p.done in p.ready && |ms[p.done]| < CYCLE
    requires st.recvSeq in st.packets && st.packets[st.recvSeq] == Entry(Whole(mode, ms[p.done]), |ms[p.done]|)
    requires after == RecvState(Wrap(st.recvSeq + |ms[p.done]|), st.packets - {st.recvSeq}, st.fragments)
    requires DrainedTo(mode, ms, Handed(p), Advance(Handed(p)), Drain(after))
    ensures DrainedTo(mode, ms, p, Advance(p), Drain(st))
  {
    DrainUnfold(st, Whole(mode, ms[p.done]), |ms[p.done]|);
    DrainedOneMore(mode, ms, p, Advance(Handed(p)), Drain(after));
  }

  /** The drain hands over exactly the next complete messages, in order, and stops at the first
      one that is not complete. */
  lemma {:induction false} DrainRefines(mode: IdMode, ms: Messages, p: Progress, st: RecvState)
    requires NoneEmpty(ms) && Matches(mode, ms, p, st) && Horizon(ms, p)
    ensures DrainedTo(mode, ms, p, Advance(p), Drain(st))
    decreases p.ready
  {
    DrainStep(mode, ms, p, st);
    if p.done in p.ready {
      var after := RecvState(Wrap(st.recvSeq + |ms[p.done]|), st.packets - {st.recvSeq}, st.fragments);
      DrainRefines(mode, ms, Handed(p), after);
      DrainContinues(mode, ms, p, st, after);
    } else {
      DrainStops(mode, ms, p, st);
    }
  }
}

/** PacketHelper::tryReassembleBigPacket and reAssembleBigPacket: two walks over the map of
    held fragments, whose u32 keys wrap. */
module Reassembly {
  import opened Words
  import opened Packets

  datatype RecvPacket = RecvPacket(id: Byte, data: Bytes, flags: Byte)

  type Fragments = map<U32, RecvPacket>

  /** Result of a successful reassembly: the packet, the bounds, and the map without the
      fragments used. */
  datatype Reassembled = Reassembled(pack: RecvPacket, begin: U32, end: U32, rest: Fragments)

  // ---- Specification ----

  /** Walk down to the nearest FIRST fragment. Visited keys are dropped, which bounds the walk;
      the original's walk does not return where this one would revisit a key. */
  function FindBegin(f: Fragments, seqNr: U32): (r: Option<U32>)
    ensures r.Some? ==> r.value in f
    decreases |f|
  {
    if seqNr !in f then None
    else if HasBit(f[seqNr].flags, FirstBit) then Some(seqNr)
    else
      assert (f - {seqNr}).Keys == f.Keys - {seqNr};
      FindBegin(f - {seqNr}, Wrap(seqNr - 1))
  }

  /** Walk up to the nearest LAST fragment. */
  function FindEnd(f: Fragments, seqNr: U32): (r: Option<U32>)
    ensures r.Some? ==> r.value in f
    decreases |f|
  {
    if seqNr !in f then None
    else if HasBit(f[seqNr].flags, LastBit) then Some(seqNr)
    else
      assert (f - {seqNr}).Keys == f.Keys - {seqNr};
      FindEnd(f - {seqNr}, Wrap(seqNr + 1))
  }

  function DataRange(f: Fragments, begin: int, n: nat): Bytes {
    if n == 0 then []
    else
      var key := KeyAt(begin, n - 1);
      DataRange(f, begin, n - 1) + (if key in f then f[key].data else [])
  }

  function Count(begin: U32, end: U32): nat {
    1 + Wrap(end - begin)
  }

  function TryReassemble(f: Fragments, seqNr: U32): Option<Reassembled> {
    var b := FindBegin(f, seqNr);
    var e := FindEnd(f, seqNr);
    if b.None? || e.None? then None
    else
      var n := Count(b.value, e.value);
      var pack := RecvPacket(f[b.value].id, DataRange(f, b.value, n), f[b.value].flags);
      Some(Reassembled(pack, b.value, e.value, f - KeyRange(b.value, n)))
  }

  // ---- What the walks find ----

  /** The walk down from seqNr passes k keys that are held and not FIRST. */
  ghost predicate PassesDown(f: Fragments, seqNr: U32, k: nat) {
    forall i :: 0 - k < i <= 0 ==> KeyAt(seqNr, i) in f && !HasBit(f[KeyAt(seqNr, i)].flags, FirstBit)
  }

  ghost predicate PassesUp(f: Fragments, seqNr: U32, k: nat) {
    forall i :: 0 <= i < k ==> KeyAt(seqNr, i) in f && !HasBit(f[KeyAt(seqNr, i)].flags, LastBit)
  }

  lemma {:induction false} FindBeginIs(f: Fragments, seqNr: U32, k: nat)
    requires k < CYCLE && PassesDown(f, seqNr, k)
    requires KeyAt(seqNr, 0 - k) in f ==> HasBit(f[KeyAt(seqNr, 0 - k)].flags, FirstBit)
    ensures FindBegin(f, seqNr) == if KeyAt(seqNr, 0 - k) in f then Some(KeyAt(seqNr, 0 - k)) else None
    decreases k
  {
    assert KeyAt(seqNr, 0) == seqNr;
    if k > 0 {
      var g, s := f - {seqNr}, Wrap(seqNr - 1);
      forall i | 0 - k < i <= 0
        ensures KeyAt(s, i) == KeyAt(seqNr, i - 1) && KeyAt(s, i) != seqNr
      {
        WrapAdd(seqNr - 1, i);
        KeysDistinct(seqNr, i - 1, 0);
      }
      assert KeyAt(s, 1 - k) == KeyAt(seqNr, 0 - k);
      FindBeginIs(g, s, k - 1);
    }
  }

  lemma {:induction false} FindEndIs(f: Fragments, seqNr: U32, k: nat)
    requires k < CYCLE && PassesUp(f, seqNr, k)
    requires KeyAt(seqNr, k) in f ==> HasBit(f[KeyAt(seqNr, k)].flags, LastBit)
    ensures FindEnd(f, seqNr) == if KeyAt(seqNr, k) in f then Some(KeyAt(seqNr, k)) else None
    decreases k
  {
    assert KeyAt(seqNr, 0) == seqNr;
    if k > 0 {
      var g, s := f - {seqNr}, Wrap(seqNr + 1);
      forall i | 0 <= i < k
        ensures KeyAt(s, i) == KeyAt(seqNr, i + 1) && KeyAt(s, i) != seqNr
      {
        WrapAdd(seqNr + 1, i);
        KeysDistinct(seqNr, i + 1, 0);
      }
      assert KeyAt(s, k - 1) == KeyAt(seqNr, k);
      FindEndIs(g, s, k - 1);
    }
  }

  lemma {:induction false} RangeFromImage(f: Fragments, begin: int, n: nat)
    ensures DataRange(f, Wrap(begin), n) == DataRange(f, begin, n)
    ensures KeyRange(Wrap(begin), n) == KeyRange(begin, n)
  {
    forall i | 0 <= i < n
      ensures KeyAt(Wrap(begin), i) == KeyAt(begin, i)
    {
      WrapAdd(begin, i);
    }
    if n > 0 {
      RangeFromImage(f, begin, n - 1);
    }
  }

  // ---- The loops ----

  /** tryReassembleBigPacket. Both walks terminate because some key is absent: neither can get
      past it. */
  method TryReassembleBigPacket(fragments: Fragments, seqNr: U32)
    returns (ok: bool, finalPack: RecvPacket, seqBegin: U32, seqEnd: U32, rest: Fragments)
    requires exists k: U32 :: k !in fragments
    ensures TryReassemble(fragments, seqNr)
         == if ok then Some(Reassembled(finalPack, seqBegin, seqEnd, rest)) else None
    ensures !ok ==> rest == fragments
  {
    ghost var absent: U32 :| absent !in fragments;
    ok, finalPack, seqEnd, rest := false, RecvPacket(0, [], 0), seqNr, fragments;
    seqBegin := seqNr;
    ghost var down: nat := 0;
    while seqBegin in fragments
      invariant down <= Wrap(seqNr - absent) && seqBegin == KeyAt(seqNr, 0 - down)
      invariant PassesDown(fragments, seqNr, down)
      decreases Wrap(seqNr - absent) - down
    {
      BeforeAbsent(seqNr, absent, 0 - down);
      if HasBit(fragments[seqBegin].flags, FirstBit) {
        FindBeginIs(fragments, seqNr, down);
        ghost var up;
        ok, seqEnd, up := WalkUp(fragments, seqNr, absent);
        if ok {
          BoundsApart(seqNr, absent, down, up);
          finalPack, rest := ReAssembleBigPacket(fragments, seqBegin, seqEnd);
        }
        return;
      }
      seqBegin := Wrap(seqBegin - 1);
      WrapAdd(seqNr - down, -1);
      down := down + 1;
    }
    FindBeginIs(fragments, seqNr, down);
  }

  /** The inner loop: from the new fragment up to the nearest LAST one. */
  method WalkUp(fragments: Fragments, seqNr: U32, ghost absent: U32)
    returns (ok: bool, seqEnd: U32, ghost up: nat)
    requires absent !in fragments
    ensures FindEnd(fragments, seqNr) == if ok then Some(seqEnd) else None
    ensures ok ==> up < Wrap(absent - seqNr) && seqEnd == KeyAt(seqNr, up)
  {
    seqEnd, up := seqNr, 0;
    while seqEnd in fragments
      invariant up <= Wrap(absent - seqNr) && seqEnd == KeyAt(seqNr, up)
      invariant PassesUp(fragments, seqNr, up)
      decreases Wrap(absent - seqNr) - up
    {
      BeforeAbsent(seqNr, absent, up);
      if HasBit(fragments[seqEnd].flags, LastBit) {
        FindEndIs(fragments, seqNr, up);
        return true, seqEnd, up;
      }
      seqEnd := Wrap(seqEnd + 1);
      WrapAdd(seqNr + up, 1);
      up := up + 1;
    }
    FindEndIs(fragments, seqNr, up);
    ok := false;
  }

  /** A held key at signed distance d from seqNr has not reached the absent key. */
  lemma BeforeAbsent(seqNr: U32, absent: U32, d: int)
    requires KeyAt(seqNr, d) != absent
    ensures 0 - d != Wrap(seqNr - absent) && d != Wrap(absent - seqNr)
  {
    WrapSub(seqNr, seqNr - absent);
    WrapAdd(absent - seqNr, seqNr);
    assert Wrap(seqNr) == seqNr && Wrap(absent) == absent;
  }

  /** The two walks together stay short of a full cycle. */
  lemma BoundsApart(seqNr: U32, absent: U32, down: nat, up: nat)
    requires down < Wrap(seqNr - absent) && up < Wrap(absent - seqNr)
    ensures Count(KeyAt(seqNr, 0 - down), KeyAt(seqNr, up)) == down + up + 1 < CYCLE
    ensures Wrap(KeyAt(seqNr, up) + 1) != KeyAt(seqNr, 0 - down)
  {
    assert Wrap(seqNr - absent) + Wrap(absent - seqNr) == CYCLE;
    WrapSub(seqNr + up, seqNr - down);
    WrapAdd(seqNr + up, 1);
    KeysDistinct(seqNr, up + 1, 0 - down);
  }

  /** reAssembleBigPacket: copies the bodies in order and erases exactly the fragments used. */
  method ReAssembleBigPacket(fragments: Fragments, seqBegin: U32, seqEnd: U32)
    returns (finalPack: RecvPacket, rest: Fragments)
    requires seqBegin in fragments
    requires Wrap(seqEnd + 1) != seqBegin
    ensures var n := Count(seqBegin, seqEnd);
            && finalPack == RecvPacket(fragments[seqBegin].id, DataRange(fragments, seqBegin, n), fragments[seqBegin].flags)
            && rest == fragments - KeyRange(seqBegin, n)
  {
    var curSeq: U32, data := seqBegin, [];
    rest := fragments;
    ghost var n, count := 0, Count(seqBegin, seqEnd);
    WrapAdd(seqEnd - seqBegin, seqBegin + 1);
    assert KeyAt(seqBegin, count) == Wrap(seqEnd + 1);
    assert KeyRange(seqBegin, 0) == {};
    while curSeq != Wrap(seqEnd + 1)
      invariant 0 <= n <= count && curSeq == KeyAt(seqBegin, n)
      invariant data == DataRange(fragments, seqBegin, n)
      invariant rest == fragments - KeyRange(seqBegin, n)
      decreases count - n
    {
      data := data + (if curSeq in fragments then fragments[curSeq].data else []);
      rest := rest - {curSeq};
      KeyRangeSnoc(seqBegin, n);
      curSeq := Wrap(curSeq + 1);
      WrapAdd(seqBegin + n, 1);
      n := n + 1;
    }
    if n != count {
      KeysDistinct(seqBegin, n, count);
      assert false;
    }
    finalPack := RecvPacket(fragments[seqBegin].id, data, fragments[seqBegin].flags);
  }
}

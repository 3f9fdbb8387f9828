/** Machine words, sequence-number arithmetic modulo 2^32 and the big-endian wire
    form of integers. Bytes and words are bounded mathematical integers; every
    wrap-around of the original's unsigned arithmetic is written out with `Wrap`. */
module Words {

  type Byte = x: int | 0 <= x < 0x100
  type U16 = x: int | 0 <= x < 0x1_0000
  type U32 = x: int | 0 <= x < 0x1_0000_0000
  type U64 = x: int | 0 <= x < 0x1_0000_0000_0000_0000
  type Bytes = seq<Byte>

  const CYCLE: int := 0x1_0000_0000
  // MM_NEWER_SEQ_RANGE is UINT_MAX >> 2, so "newer" spans 2^30 numbers.
  const NEWER_SEQ_RANGE: int := 0x3FFF_FFFF
  const WINDOW: int := 0x4000_0000

  datatype Option<+T> = None | Some(value: T)

  /** The u32 image of an unbounded sequence number. Defined by steps of one cycle, which keeps
      reasoning about neighbouring numbers linear; `WrapIsMod` says that it is the remainder. */
  function Wrap(x: int): U32
    decreases if x < 0 then CYCLE - x else x
  {
    if x < 0 then Wrap(x + 0x1_0000_0000)
    else if x >= 0x1_0000_0000 then Wrap(x - 0x1_0000_0000)
    else x
  }

  /** PacketHelper::isSeqNewer. */
  predicate IsSeqNewer(incoming: U32, having: U32) {
    Wrap(incoming - having) <= NEWER_SEQ_RANGE
  }

  // ---- Wrap-around arithmetic ----

  lemma {:induction false} WrapIsMod(x: int)
    ensures Wrap(x) == x % 0x1_0000_0000
    decreases if x < 0 then CYCLE - x else x
  {
    if x < 0 {
      WrapIsMod(x + 0x1_0000_0000);
      ModStep(x);
    } else if x >= 0x1_0000_0000 {
      WrapIsMod(x - 0x1_0000_0000);
      ModStep(x - 0x1_0000_0000);
    }
  }

  lemma ModStep(x: int)
    ensures (x + 0x1_0000_0000) % 0x1_0000_0000 == x % 0x1_0000_0000
  {
  }

  lemma WrapShift(a: int, k: int)
    ensures Wrap(a + CYCLE * k) == Wrap(a)
  {
    WrapIsMod(a);
    WrapIsMod(a + CYCLE * k);
  }

  /** On numbers less than one cycle apart the image is injective. */
  lemma WrapInjective(a: int, b: int)
    requires Wrap(a) == Wrap(b)
    requires -CYCLE < a - b < CYCLE
    ensures a == b
  {
    WrapIsMod(a);
    WrapIsMod(b);
    assert (a - b) % CYCLE == 0;
  }

  /** Adding to or subtracting from an image gives the image of the sum or difference. */
  lemma WrapAdd(a: int, b: int)
    ensures Wrap(Wrap(a) + b) == Wrap(a + b)
  {
    WrapIsMod(a);
    var k := a / CYCLE;
    assert a == Wrap(a) + CYCLE * k;
    WrapShift(Wrap(a) + b, k);
  }

  lemma WrapSub(a: int, b: int)
    ensures Wrap(Wrap(a) - Wrap(b)) == Wrap(a - b)
  {
    WrapIsMod(b);
    var k := b / CYCLE;
    assert b == Wrap(b) + CYCLE * k;
    WrapAdd(a, 0 - Wrap(b));
    WrapShift(a - Wrap(b), 0 - k);
  }

  /** The window test on u32 images decides the order of the unbounded numbers as long
      as the incoming number is at most 3 * 2^30 behind and less than 2^30 ahead ... */
  lemma NewerIsGreaterOrEqual(g: int, r: int)
    requires r - 3 * WINDOW <= g < r + WINDOW
    ensures IsSeqNewer(Wrap(g), Wrap(r)) <==> g >= r
  {
    WrapSub(g, r);
  }

  /** ... and that range cannot be widened on either side: the first number on each side
      of it is already misjudged. */
  lemma NewerRangeIsTight(r: int)
    ensures !IsSeqNewer(Wrap(r + WINDOW), Wrap(r))
    ensures IsSeqNewer(Wrap(r - 3 * WINDOW - 1), Wrap(r))
  {
    WrapSub(r + WINDOW, r);
    WrapSub(r - 3 * WINDOW - 1, r);
  }

  /** The key i places after begin (before it, for negative i). */
  function KeyAt(begin: int, i: int): U32 {
    Wrap(begin + i)
  }

  /** The n keys from begin on, wrapping. */
  function KeyRange(begin: int, n: nat): set<U32> {
    set i | 0 <= i < n :: KeyAt(begin, i)
  }

  /** Distinct offsets within one cycle give distinct keys. */
  lemma KeysDistinct(begin: int, i: int, j: int)
    requires -CYCLE < i - j < CYCLE && i != j
    ensures KeyAt(begin, i) != KeyAt(begin, j)
  {
    if KeyAt(begin, i) == KeyAt(begin, j) {
      WrapInjective(begin + i, begin + j);
    }
  }

  lemma KeyRangeSnoc(begin: int, n: nat)
    ensures KeyRange(begin, n + 1) == KeyRange(begin, n) + {KeyAt(begin, n)}
  {
    forall k | k in KeyRange(begin, n + 1)
      ensures k in KeyRange(begin, n) + {KeyAt(begin, n)}
    {
      var i :| 0 <= i < n + 1 && k == KeyAt(begin, i);
      assert i < n ==> k in KeyRange(begin, n);
    }
  }

  // ---- Network byte order ----

  function BE16(x: U16): (b: Bytes)
    ensures |b| == 2
  {
    [x / 0x100, x % 0x100]
  }

  function BE32(x: U32): (b: Bytes)
    ensures |b| == 4
  {
    BE16(x / 0x1_0000) + BE16(x % 0x1_0000)
  }

  function BE64(x: U64): (b: Bytes)
    ensures |b| == 8
  {
    BE32(x / 0x1_0000_0000) + BE32(x % 0x1_0000_0000)
  }

  function FromBE16(b: Bytes): U16
    requires |b| == 2
  {
    var hi: int := b[0];
    hi * 0x100 + b[1]
  }

  function FromBE32(b: Bytes): U32
    requires |b| == 4
  {
    var hi: int := FromBE16(b[..2]);
    hi * 0x1_0000 + FromBE16(b[2..])
  }

  function FromBE64(b: Bytes): U64
    requires |b| == 8
  {
    var hi: int := FromBE32(b[..4]);
    hi * 0x1_0000_0000 + FromBE32(b[4..])
  }

  lemma BERoundTrip16(x: U16)
    ensures FromBE16(BE16(x)) == x
  {
  }

  lemma BERoundTrip32(x: U32)
    ensures FromBE32(BE32(x)) == x
  {
    var b := BE32(x);
    assert b[..2] == BE16(x / 0x1_0000) && b[2..] == BE16(x % 0x1_0000);
    BERoundTrip16(x / 0x1_0000);
    BERoundTrip16(x % 0x1_0000);
  }

  lemma BERoundTrip64(x: U64)
    ensures FromBE64(BE64(x)) == x
  {
    var b := BE64(x);
    assert b[..4] == BE32(x / 0x1_0000_0000) && b[4..] == BE32(x % 0x1_0000_0000);
    BERoundTrip32(x / 0x1_0000_0000);
    BERoundTrip32(x % 0x1_0000_0000);
  }
}

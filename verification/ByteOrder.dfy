/** The byte swaps of Util, bit for bit as on a little-endian machine, and why storing a swapped
    word in memory puts its bytes in network order. */
module ByteOrder {
  import opened Words

  function Htons(v: bv16): bv16 {
    ((v & 255) << 8) | (v >> 8)
  }

  function Htonl(v: bv32): bv32 {
    ((v & 255) << 24) | (v >> 24) | ((v & 0xFF0000) >> 8) | ((v & 0xFF00) << 8)
  }

  /** Swap halves, then the quarters in each half, then the bytes in each quarter. */
  function Htonll(v: bv64): bv64 {
    SwapBytes(SwapQuarters(SwapHalves(v)))
  }

  function SwapHalves(x: bv64): bv64 {
    ((x & 0x0000_0000_FFFF_FFFF) << 32) | ((x & 0xFFFF_FFFF_0000_0000) >> 32)
  }

  function SwapQuarters(x: bv64): bv64 {
    ((x & 0x0000_FFFF_0000_FFFF) << 16) | ((x & 0xFFFF_0000_FFFF_0000) >> 16)
  }

  function SwapBytes(x: bv64): bv64 {
    ((x & 0x00FF_00FF_00FF_00FF) << 8) | ((x & 0xFF00_FF00_FF00_FF00) >> 8)
  }

  // ---- Involutions: ntoh is the same function as hton ----

  lemma HtonsInvolution(v: bv16)
    ensures Htons(Htons(v)) == v
  {
  }

  lemma HtonlInvolution(v: bv32)
    ensures Htonl(Htonl(v)) == v
  {
  }

  lemma HtonllInvolution(v: bv64)
    ensures Htonll(Htonll(v)) == v
  {
  }

  // ---- Memory ----

  /** What a little-endian machine stores at ascending addresses. */
  function Store16(v: bv16): (r: seq<bv8>)
    ensures |r| == 2
  {
    [(v & 0xFF) as bv8, (v >> 8) as bv8]
  }

  function Store32(v: bv32): (r: seq<bv8>)
    ensures |r| == 4
  {
    Store16((v & 0xFFFF) as bv16) + Store16((v >> 16) as bv16)
  }

  function Store64(v: bv64): (r: seq<bv8>)
    ensures |r| == 8
  {
    Store32((v & 0xFFFF_FFFF) as bv32) + Store32((v >> 32) as bv32)
  }

  function Reversed<T>(s: seq<T>): (r: seq<T>)
    ensures |r| == |s|
    ensures forall i :: 0 <= i < |s| ==> r[i] == s[|s| - 1 - i]
  {
    seq(|s|, i requires 0 <= i < |s| => s[|s| - 1 - i])
  }

  /** The swaps reverse the bytes of a word. */
  lemma HtonsReverses(v: bv16)
    ensures Store16(Htons(v)) == Reversed(Store16(v))
  {
  }

  lemma HtonlReverses(v: bv32)
    ensures Store32(Htonl(v)) == Reversed(Store32(v))
  {
  }

  /** The 64-bit swap exchanges the halves and swaps each of them. */
  lemma HtonllLow(v: bv64)
    ensures (Htonll(v) & 0xFFFF_FFFF) as bv32 == Htonl((v >> 32) as bv32)
  {
  }

  lemma HtonllHigh(v: bv64)
    ensures (Htonll(v) >> 32) as bv32 == Htonl((v & 0xFFFF_FFFF) as bv32)
  {
  }

  lemma HtonllReverses(v: bv64)
    ensures Store64(Htonll(v)) == Reversed(Store64(v))
  {
    HtonllLow(v);
    HtonllHigh(v);
    HtonlReverses((v >> 32) as bv32);
    HtonlReverses((v & 0xFFFF_FFFF) as bv32);
    ReversedAppend(Store32((v & 0xFFFF_FFFF) as bv32), Store32((v >> 32) as bv32));
  }

  lemma ReversedAppend<T>(a: seq<T>, b: seq<T>)
    ensures Reversed(a + b) == Reversed(b) + Reversed(a)
  {
  }

  // ---- Network order ----

  /** The number a word stands for, told from its bytes. */
  function Value16(v: bv16): U16 {
    v as int
  }

  function Value32(v: bv32): U32 {
    var hi: int := Value16((v >> 16) as bv16);
    hi * 0x1_0000 + Value16((v & 0xFFFF) as bv16)
  }

  function Value64(v: bv64): U64 {
    var hi: int := Value32((v >> 32) as bv32);
    hi * 0x1_0000_0000 + Value32((v & 0xFFFF_FFFF) as bv32)
  }

  function Numbers(s: seq<bv8>): (r: Bytes)
    ensures |r| == |s|
    ensures forall i :: 0 <= i < |s| ==> r[i] == s[i] as int
  {
    seq(|s|, i requires 0 <= i < |s| => s[i] as int)
  }

  /** What write16, write32 and write64 leave in the buffer is the number in network byte order. */
  lemma StoredInNetworkOrder16(v: bv16)
    ensures Numbers(Store16(Htons(v))) == BE16(Value16(v))
  {
    var hi, lo := (v >> 8) as bv8, (v & 0xFF) as bv8;
    SwappedBytes(v);
    Split16(v);
    NumbersOfTwo(hi, lo);
    TwoDigits16(hi as int, lo as int);
  }

  lemma SwappedBytes(v: bv16)
    ensures Store16(Htons(v)) == [(v >> 8) as bv8, (v & 0xFF) as bv8]
  {
    HtonsReverses(v);
  }

  lemma Split16(v: bv16)
    ensures Value16(v) == 0x100 * ((v >> 8) as bv8 as int) + ((v & 0xFF) as bv8 as int)
  {
  }

  lemma NumbersOfTwo(a: bv8, b: bv8)
    ensures Numbers([a, b]) == [a as int, b as int]
  {
  }

  lemma StoredInNetworkOrder32(v: bv32)
    ensures Numbers(Store32(Htonl(v))) == BE32(Value32(v))
  {
    var hi, lo := (v >> 16) as bv16, (v & 0xFFFF) as bv16;
    SwappedHalves(v);
    StoredInNetworkOrder16(hi);
    StoredInNetworkOrder16(lo);
    NumbersAppend(Store16(Htons(hi)), Store16(Htons(lo)));
    TwoDigits32(Value16(hi), Value16(lo));
  }

  lemma SwappedHalves(v: bv32)
    ensures Store32(Htonl(v)) == Store16(Htons((v >> 16) as bv16)) + Store16(Htons((v & 0xFFFF) as bv16))
  {
  }

  lemma StoredInNetworkOrder64(v: bv64)
    ensures Numbers(Store64(Htonll(v))) == BE64(Value64(v))
  {
    var hi, lo := (v >> 32) as bv32, (v & 0xFFFF_FFFF) as bv32;
    HtonllLow(v);
    HtonllHigh(v);
    StoredInNetworkOrder32(hi);
    StoredInNetworkOrder32(lo);
    NumbersAppend(Store32(Htonl(hi)), Store32(Htonl(lo)));
    TwoDigits64(Value32(hi), Value32(lo));
  }

  lemma NumbersAppend(a: seq<bv8>, b: seq<bv8>)
    ensures Numbers(a + b) == Numbers(a) + Numbers(b)
  {
  }

  lemma TwoDigits16(hi: Byte, lo: Byte)
    ensures BE16(hi * 0x100 + lo) == [hi, lo]
  {
  }

  lemma TwoDigits32(hi: U16, lo: U16)
    ensures BE32(hi * 0x1_0000 + lo) == BE16(hi) + BE16(lo)
  {
  }

  lemma TwoDigits64(hi: U32, lo: U32)
    ensures BE64(hi * 0x1_0000_0000 + lo) == BE32(hi) + BE32(lo)
  {
  }

  // ---- Reading back ----

  /** What a little-endian machine loads from ascending addresses. */
  function Load16(b: seq<bv8>): bv16
    requires |b| == 2
  {
    (b[0] as bv16) | ((b[1] as bv16) << 8)
  }

  function Load32(b: seq<bv8>): bv32
    requires |b| == 4
  {
    (Load16(b[..2]) as bv32) | ((Load16(b[2..]) as bv32) << 16)
  }

  function Load64(b: seq<bv8>): bv64
    requires |b| == 8
  {
    (Load32(b[..4]) as bv64) | ((Load32(b[4..]) as bv64) << 32)
  }

  lemma StoreLoaded16(b: seq<bv8>)
    requires |b| == 2
    ensures Store16(Load16(b)) == b
  {
  }

  lemma StoreLoaded32(b: seq<bv8>)
    requires |b| == 4
    ensures Store32(Load32(b)) == b
  {
    StoreLoaded16(b[..2]);
    StoreLoaded16(b[2..]);
    Halves32(Load16(b[..2]), Load16(b[2..]));
  }

  lemma StoreLoaded64(b: seq<bv8>)
    requires |b| == 8
    ensures Store64(Load64(b)) == b
  {
    StoreLoaded32(b[..4]);
    StoreLoaded32(b[4..]);
    Halves64(Load32(b[..4]), Load32(b[4..]));
  }

  lemma Halves32(lo: bv16, hi: bv16)
    ensures var v := (lo as bv32) | ((hi as bv32) << 16);
      (v & 0xFFFF) as bv16 == lo && (v >> 16) as bv16 == hi
  {
  }

  lemma Halves64(lo: bv32, hi: bv32)
    ensures var v := (lo as bv64) | ((hi as bv64) << 32);
      (v & 0xFFFF_FFFF) as bv32 == lo && (v >> 32) as bv32 == hi
  {
  }

  /** What read16, read32 and read64 return is the number whose network-order form they find. */
  lemma LoadedFromNetworkOrder16(b: seq<bv8>)
    requires |b| == 2
    ensures Value16(Htons(Load16(b))) == FromBE16(Numbers(b))
  {
    var v := Htons(Load16(b));
    HtonsInvolution(Load16(b));
    StoreLoaded16(b);
    StoredInNetworkOrder16(v);
    BERoundTrip16(Value16(v));
  }

  lemma LoadedFromNetworkOrder32(b: seq<bv8>)
    requires |b| == 4
    ensures Value32(Htonl(Load32(b))) == FromBE32(Numbers(b))
  {
    var v := Htonl(Load32(b));
    HtonlInvolution(Load32(b));
    StoreLoaded32(b);
    StoredInNetworkOrder32(v);
    BERoundTrip32(Value32(v));
  }

  lemma LoadedFromNetworkOrder64(b: seq<bv8>)
    requires |b| == 8
    ensures Value64(Htonll(Load64(b))) == FromBE64(Numbers(b))
  {
    var v := Htonll(Load64(b));
    HtonllInvolution(Load64(b));
    StoreLoaded64(b);
    StoredInNetworkOrder64(v);
    BERoundTrip64(Value64(v));
  }
}

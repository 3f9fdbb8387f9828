/** PacketHelper: the channel-and-flags byte and the splitting of a message, given as
    several serializers, into fragments. */
module Packets {
  import opened Words
  import opened Chunking

  const MIN_HDR_SIZE := 6
  const MAX_FRAGMENT_SIZE := 1900
  // Positions in the EComponentType enumeration.
  const RELIABLE_SEND: Byte := 17
  const RELIABLE_ACK_SEND: Byte := 23

  // ---- Channel and flags ----

  /** The four bits of the flags byte, with their masks 4, 8, 16 and 32. */
  datatype Flag = RelayBit | FirstBit | LastBit | SystemBit {
    function Mask(): (m: nat)
      ensures 4 <= m <= 32
    {
      match this case RelayBit => 4 case FirstBit => 8 case LastBit => 16 case SystemBit => 32
    }
  }

  /** `(f & mask) != 0`. */
  predicate HasBit(f: Byte, flag: Flag) {
    match flag
    case RelayBit => f / 4 % 2 == 1
    case FirstBit => f / 8 % 2 == 1
    case LastBit => f / 16 % 2 == 1
    case SystemBit => f / 32 % 2 == 1
  }

  /** `f | mask`. */
  function SetBit(f: Byte, flag: Flag): Byte {
    if HasBit(f, flag) then f else f + flag.Mask()
  }

  /** `f & ~mask`. */
  function ClearBit(f: Byte, flag: Flag): Byte {
    if HasBit(f, flag) then f - flag.Mask() else f
  }

  /** `f & MM_CHANNEL_MASK`. */
  function ChannelOf(f: Byte): Byte {
    f % 8
  }

  /** makeChannelAndFlags. FIRST, LAST and SYSTEM lie outside the channel mask, so or-ing them
      in adds them; RELAY lies inside it. */
  function MakeChannelAndFlags(channel: Byte, relay: bool, sysBit: bool, first: bool, last: bool): Byte
    requires channel <= 7
  {
    (if relay && channel < 4 then channel + 4 else channel)
    + (if first then 8 else 0) + (if last then 16 else 0) + (if sysBit then 32 else 0)
  }

  /** The arithmetic above is the original's bit expression, and the bit tests are the masks. */
  lemma FlagsMatchBitOperations(channel: bv8, relay: bool, sysBit: bool, first: bool, last: bool)
    requires channel <= 7
    ensures ((channel & 7) | (if relay then 4 else 0) | (if sysBit then 32 else 0)
             | (if first then 8 else 0) | (if last then 16 else 0)) as int
         == MakeChannelAndFlags(channel as int, relay, sysBit, first, last)
  {
    assert channel == 0 || channel == 1 || channel == 2 || channel == 3
        || channel == 4 || channel == 5 || channel == 6 || channel == 7;
  }

  lemma ChannelMaskMatches(f: bv8)
    ensures (f & 7) as int == ChannelOf(f as int)
  {
  }

  lemma FirstMaskMatches(f: bv8)
    ensures (f & 8 != 0) == HasBit(f as int, FirstBit)
  {
  }

  lemma LastMaskMatches(f: bv8)
    ensures (f & 16 != 0) == HasBit(f as int, LastBit)
  {
  }

  lemma BitsOfSum(c: int, k: int)
    requires 0 <= c <= 7 && 0 <= k <= 7
    ensures (c + 8 * k) % 8 == c
    ensures (c + 8 * k) / 8 == k && (c + 8 * k) / 16 == k / 2 && (c + 8 * k) / 32 == k / 4
  {
  }

  /** The flag bits always decode; the channel decodes exactly when the relay bit, which
      lies inside the channel mask, does not disturb it. */
  lemma FlagsDecode(channel: Byte, relay: bool, sysBit: bool, first: bool, last: bool)
    requires channel <= 7
    ensures var f := MakeChannelAndFlags(channel, relay, sysBit, first, last);
            && HasBit(f, FirstBit) == first
            && HasBit(f, LastBit) == last
            && HasBit(f, SystemBit) == sysBit
            && (ChannelOf(f) == channel <==> !relay || HasBit(channel, RelayBit))
  {
    BitsOfSum(if relay && channel < 4 then channel + 4 else channel,
              (if first then 1 else 0) + (if last then 2 else 0) + (if sysBit then 4 else 0));
  }

  /** How the fragmenter edits the byte between fragments. */
  lemma FlagsUpdate(channel: Byte, relay: bool, sysBit: bool, first: bool, last: bool)
    requires channel <= 7
    ensures SetBit(MakeChannelAndFlags(channel, relay, sysBit, first, false), LastBit)
         == MakeChannelAndFlags(channel, relay, sysBit, first, true)
    ensures ClearBit(MakeChannelAndFlags(channel, relay, sysBit, true, last), FirstBit)
         == MakeChannelAndFlags(channel, relay, sysBit, false, last)
  {
    FlagsDecode(channel, relay, sysBit, first, false);
    FlagsDecode(channel, relay, sysBit, true, last);
  }

  // ---- Fragments of one message ----

  /** What every fragment of a message shares, plus the data id its first fragment carries. */
  datatype Header = Header(compType: Byte, dataId: Byte, channel: Byte, relay: bool, sysBit: bool)

  function Fragment(h: Header, body: Bytes, first: bool, last: bool): Bytes
    requires h.channel <= 7
  {
    [h.compType, MakeChannelAndFlags(h.channel, h.relay, h.sysBit, first, last)]
    + (if first then [h.dataId] else []) + body
  }

  /** The bodies of the fragments; an empty message still has one fragment. */
  function Bodies(data: Bytes, room: nat): (r: seq<Bytes>)
    requires room > 0
    ensures r != []
  {
    if data == [] then [[]] else Chunks(data, room)
  }

  /** One fragment per body; `ended` says that the last body ends the message. */
  function FragmentsOf(h: Header, bodies: seq<Bytes>, ended: bool): seq<Bytes>
    requires h.channel <= 7
  {
    if bodies == [] then []
    else
      var n := |bodies| - 1;
      FragmentsOf(h, bodies[..n], false) + [Fragment(h, bodies[n], n == 0, ended)]
  }

  lemma {:induction false} FragmentsOfAt(h: Header, bodies: seq<Bytes>, ended: bool)
    requires h.channel <= 7
    ensures |FragmentsOf(h, bodies, ended)| == |bodies|
    ensures forall i :: 0 <= i < |bodies| ==>
              FragmentsOf(h, bodies, ended)[i] == Fragment(h, bodies[i], i == 0, ended && i == |bodies| - 1)
  {
    if bodies != [] {
      FragmentsOfAt(h, bodies[..|bodies| - 1], false);
    }
  }

  /** Specification of createNormalPacket: the message's bytes cut into bodies of at most
      maxFragmentSize - 6 bytes, each behind its header. */
  function NormalPacket(h: Header, data: Bytes, maxFragmentSize: nat): seq<Bytes>
    requires h.channel <= 7 && maxFragmentSize > MIN_HDR_SIZE
  {
    FragmentsOf(h, Bodies(data, maxFragmentSize - MIN_HDR_SIZE), true)
  }

  predicate IsFirst(payload: Bytes) {
    |payload| >= 2 && HasBit(payload[1], FirstBit)
  }

  predicate IsLast(payload: Bytes) {
    |payload| >= 2 && HasBit(payload[1], LastBit)
  }

  /** The message bytes a fragment carries. */
  function BodyOf(payload: Bytes): Bytes {
    if IsFirst(payload) then (if |payload| >= 3 then payload[3..] else [])
    else if |payload| >= 2 then payload[2..] else []
  }

  /** A fragment of component `compType` in its place within a message. */
  predicate ShapedFragment(p: Bytes, compType: Byte, first: bool, last: bool) {
    |p| >= 3 && p[0] == compType && IsFirst(p) == first && IsLast(p) == last
  }

  /** The fragments of one message: only the first says FIRST, only the last says LAST, and
      each has at least one byte after its flags. */
  predicate ShapedMessage(ps: seq<Bytes>, compType: Byte) {
    |ps| >= 1 && forall i :: 0 <= i < |ps| ==> ShapedFragment(ps[i], compType, i == 0, i == |ps| - 1)
  }

  lemma FragmentShape(h: Header, body: Bytes, first: bool, last: bool)
    requires h.channel <= 7
    requires first || body != []
    ensures var p := Fragment(h, body, first, last);
            && ShapedFragment(p, h.compType, first, last)
            && BodyOf(p) == body
            && |p| == |body| + (if first then 3 else 2)
            && p[1] == MakeChannelAndFlags(h.channel, h.relay, h.sysBit, first, last)
            && (first ==> p[2] == h.dataId)
  {
    FlagsDecode(h.channel, h.relay, h.sysBit, first, last);
  }

  /** Fragmentation conserves the message: the bodies concatenate to it, their number is
      max(1, ceil(|data| / room)), only the first fragment says FIRST and only the last
      says LAST, no continuation body is empty, and every payload is at most
      maxFragmentSize - 3 bytes, so `enqueue`'s size assertion holds. */
  lemma FragmentationConserves(h: Header, data: Bytes, maxFragmentSize: nat)
    requires h.channel <= 7 && maxFragmentSize > MIN_HDR_SIZE
    ensures var ps := NormalPacket(h, data, maxFragmentSize);
            var room := maxFragmentSize - MIN_HDR_SIZE;
            && ShapedMessage(ps, h.compType)
            && Flatten(Map(BodyOf, ps)) == data
            && (|ps| == 1 <==> |data| <= room)
            && (|ps| > 1 ==> RoundedUp(|ps|, |data|, room))
            && (forall i :: 0 <= i < |ps| ==> |ps[i]| <= maxFragmentSize - 3)
  {
    FragmentCount(h, data, maxFragmentSize);
    FragmentBodies(h, data, maxFragmentSize);
  }

  lemma FragmentCount(h: Header, data: Bytes, maxFragmentSize: nat)
    requires h.channel <= 7 && maxFragmentSize > MIN_HDR_SIZE
    ensures var ps := NormalPacket(h, data, maxFragmentSize);
            var room := maxFragmentSize - MIN_HDR_SIZE;
            && (|ps| == 1 <==> |data| <= room)
            && (|ps| > 1 ==> RoundedUp(|ps|, |data|, room))
  {
    var room := maxFragmentSize - MIN_HDR_SIZE;
    BodiesConserve(data, room);
    BodiesCount(data, room);
    FragmentsOfAt(h, Bodies(data, room), true);
  }

  lemma FragmentBodies(h: Header, data: Bytes, maxFragmentSize: nat)
    requires h.channel <= 7 && maxFragmentSize > MIN_HDR_SIZE
    ensures var ps := NormalPacket(h, data, maxFragmentSize);
            && ShapedMessage(ps, h.compType)
            && Flatten(Map(BodyOf, ps)) == data
            && (forall i :: 0 <= i < |ps| ==> |ps[i]| <= maxFragmentSize - 3)
  {
    var room := maxFragmentSize - MIN_HDR_SIZE;
    BodiesConserve(data, room);
    FragmentsShape(h, Bodies(data, room), room);
  }

  /** n is length / room, rounded up. */
  predicate RoundedUp(n: nat, length: nat, room: nat) {
    (n - 1) * room < length <= n * room
  }

  lemma FragmentsShape(h: Header, bodies: seq<Bytes>, room: nat)
    requires h.channel <= 7 && bodies != []
    requires forall i :: 0 <= i < |bodies| ==> |bodies[i]| <= room && (i > 0 ==> bodies[i] != [])
    ensures var ps := FragmentsOf(h, bodies, true);
            && |ps| == |bodies|
            && ShapedMessage(ps, h.compType)
            && Flatten(Map(BodyOf, ps)) == Flatten(bodies)
            && (forall i :: 0 <= i < |ps| ==> |ps[i]| <= room + 3)
  {
    var ps := FragmentsOf(h, bodies, true);
    FragmentsOfAt(h, bodies, true);
    forall i | 0 <= i < |ps|
      ensures ShapedFragment(ps[i], h.compType, i == 0, i == |ps| - 1)
      ensures BodyOf(ps[i]) == bodies[i] && |ps[i]| <= room + 3
    {
      FragmentShape(h, bodies[i], i == 0, i == |bodies| - 1);
    }
    assert Map(BodyOf, ps) == bodies;
  }

  /** Every fragment names the channel. */
  lemma FragmentsOnChannel(h: Header, bodies: seq<Bytes>)
    requires h.channel <= 7 && !h.relay
    ensures var ps := FragmentsOf(h, bodies, true);
            forall i :: 0 <= i < |ps| ==> |ps[i]| >= 2 && ChannelOf(ps[i][1]) == h.channel
  {
    FragmentsOfAt(h, bodies, true);
    forall i | 0 <= i < |bodies|
      ensures var p := Fragment(h, bodies[i], i == 0, i == |bodies| - 1); ChannelOf(p[1]) == h.channel
    {
      FlagsDecode(h.channel, false, h.sysBit, i == 0, i == |bodies| - 1);
    }
  }

  lemma BodiesConserve(data: Bytes, room: nat)
    requires room > 0
    ensures var bodies := Bodies(data, room);
            && Flatten(bodies) == data
            && (|bodies| == 1 <==> |data| <= room)
            && (forall i :: 0 <= i < |bodies| ==> |bodies[i]| <= room && (i > 0 ==> bodies[i] != []))
  {
    if data == [] {
      var bodies := Bodies(data, room);
      assert bodies[1..] == [] && Flatten(bodies) == [];
    } else {
      ChunksSizes(data, room);
      ChunksConserve(data, room);
    }
  }

  lemma BodiesCount(data: Bytes, room: nat)
    requires room > 0
    ensures |Bodies(data, room)| > 1 ==> RoundedUp(|Bodies(data, room)|, |data|, room)
  {
    if data != [] {
      ChunksCount(data, room);
    }
  }

  // ---- createNormalPacket ----

  /** All bytes of the serializers from number i on. */
  ghost function From(serializers: seq<Bytes>, i: nat): Bytes
    requires i <= |serializers|
    decreases |serializers| - i
  {
    if i == |serializers| then [] else serializers[i] + From(serializers, i + 1)
  }

  lemma {:induction false} FromIsFlatten(serializers: seq<Bytes>, i: nat)
    requires i <= |serializers|
    ensures From(serializers, i) == Flatten(serializers[i..])
    decreases |serializers| - i
  {
    if i < |serializers| {
      FromIsFlatten(serializers, i + 1);
      assert serializers[i..][1..] == serializers[i + 1..];
    }
  }

  lemma FromStart(serializers: seq<Bytes>)
    ensures From(serializers, 0) == Flatten(serializers)
  {
    FromIsFlatten(serializers, 0);
    assert serializers[0..] == serializers;
  }

  /** The bytes from read position (srIdx, offset) on, through all remaining serializers. */
  ghost function Remaining(serializers: seq<Bytes>, srIdx: nat, offset: nat): Bytes
    requires IsPosition(serializers, srIdx, offset)
  {
    if srIdx == |serializers| then [] else serializers[srIdx][offset..] + From(serializers, srIdx + 1)
  }

  ghost predicate IsPosition(serializers: seq<Bytes>, srIdx: nat, offset: nat) {
    srIdx <= |serializers| && offset <= if srIdx < |serializers| then |serializers[srIdx]| else 0
  }

  lemma RemainingStep(serializers: seq<Bytes>, srIdx: nat, offset: nat, n: nat)
    requires srIdx < |serializers| && offset + n <= |serializers[srIdx]|
    ensures Remaining(serializers, srIdx, offset)
         == serializers[srIdx][offset..offset + n] + Remaining(serializers, srIdx, offset + n)
    ensures offset + n == |serializers[srIdx]| ==>
              Remaining(serializers, srIdx, offset + n) == Remaining(serializers, srIdx + 1, 0)
  {
    CutFront(serializers[srIdx], offset, n, From(serializers, srIdx + 1));
    RemainingAtStart(serializers, srIdx + 1);
  }

  lemma RemainingAtStart(serializers: seq<Bytes>, i: nat)
    requires i <= |serializers|
    ensures Remaining(serializers, i, 0) == From(serializers, i)
  {
    if i < |serializers| {
      assert serializers[i][0..] == serializers[i];
    }
  }

  lemma CutFront<T>(xs: seq<T>, offset: nat, n: nat, rest: seq<T>)
    requires offset + n <= |xs|
    ensures xs[offset..] + rest == xs[offset..offset + n] + (xs[offset + n..] + rest)
    ensures offset + n == |xs| ==> xs[offset + n..] + rest == rest
  {
  }

  /** One more full body, or the last one. */
  lemma BodiesStep(done: seq<Bytes>, piece: Bytes, rest: Bytes, room: nat)
    requires |piece| <= room && room > 0 && (rest != [] ==> |piece| == room)
    ensures done + Bodies(piece + rest, room)
         == if rest == [] then done + [piece] else done + [piece] + Bodies(rest, room)
  {
    if rest == [] {
      assert piece + rest == piece;
    } else {
      assert (piece + rest)[..room] == piece && (piece + rest)[room..] == rest;
    }
  }

  /** `bodies` were cut off the front of the message; what is left starts at (srIdx, offset). */
  ghost predicate Cutting(h: Header, serializers: seq<Bytes>, room: nat, srIdx: nat, offset: nat, total: nat,
                          quit: bool, bodies: seq<Bytes>, fragments: seq<Bytes>) {
    && h.channel <= 7 && room > 0
    && IsPosition(serializers, srIdx, offset) && total == |Remaining(serializers, srIdx, offset)|
    && quit == (total == 0 && bodies != [])
    && CutSoFar(Flatten(serializers), room, Remaining(serializers, srIdx, offset), bodies, quit)
    && fragments == FragmentsOf(h, bodies, quit)
  }

  ghost predicate CutSoFar(data: Bytes, room: nat, rest: Bytes, bodies: seq<Bytes>, quit: bool)
    requires room > 0
  {
    Bodies(data, room) == if quit then bodies else bodies + Bodies(rest, room)
  }

  lemma CutNothing(h: Header, serializers: seq<Bytes>, room: nat)
    requires h.channel <= 7 && room > 0
    ensures Cutting(h, serializers, room, 0, 0, |Flatten(serializers)|, false, [], [])
  {
    FromStart(serializers);
    RemainingAtStart(serializers, 0);
    assert [] + Bodies(Flatten(serializers), room) == Bodies(Flatten(serializers), room);
  }

  lemma CutOneMore(h: Header, serializers: seq<Bytes>, room: nat, srIdx0: nat, offset0: nat, bodies: seq<Bytes>,
                   fragments: seq<Bytes>, piece: Bytes, srIdx: nat, offset: nat, quit: bool)
    requires IsPosition(serializers, srIdx0, offset0) && IsPosition(serializers, srIdx, offset)
    requires Cutting(h, serializers, room, srIdx0, offset0, |Remaining(serializers, srIdx0, offset0)|, false, bodies, fragments)
    requires Remaining(serializers, srIdx0, offset0) == piece + Remaining(serializers, srIdx, offset)
    requires quit == (|Remaining(serializers, srIdx, offset)| == 0) && |piece| <= room && (!quit ==> |piece| == room)
    ensures Cutting(h, serializers, room, srIdx, offset, |Remaining(serializers, srIdx, offset)|, quit,
                    bodies + [piece], fragments + [Fragment(h, piece, bodies == [], quit)])
  {
    BodiesStep(bodies, piece, Remaining(serializers, srIdx, offset), room);
    FragmentsSnoc(h, bodies, piece, quit);
  }

  /** PacketHelper::createNormalPacket. `ok` is false exactly where the original throws. */
  method CreateNormalPacket(h: Header, serializers: seq<Bytes>, maxSize: int)
    returns (ok: bool, fragments: seq<Bytes>)
    requires h.channel <= 7                        // asserted by makeChannelAndFlags
    requires |Flatten(serializers)| < CYCLE        // the u32 total does not wrap
    ensures ok <==> maxSize - MIN_HDR_SIZE > 2 * MIN_HDR_SIZE
    ensures ok ==> fragments == NormalPacket(h, Flatten(serializers), maxSize)
  {
    fragments := [];
    var room := maxSize - MIN_HDR_SIZE;
    if room <= MIN_HDR_SIZE * 2 {
      return false, [];
    }
    var flags := MakeChannelAndFlags(h.channel, h.relay, h.sysBit, true, false);
    var total := TotalLength(serializers);
    var offset: nat, srIdx: nat := 0, 0;
    var quit, first := false, true;
    ghost var bodies: seq<Bytes> := [];
    CutNothing(h, serializers, room);
    while !quit
      invariant Cutting(h, serializers, room, srIdx, offset, total, quit, bodies, fragments)
      invariant first == (bodies == []) && flags == MakeChannelAndFlags(h.channel, h.relay, h.sysBit, first, quit)
      decreases !quit, total
    {
      var fragment;
      ghost var piece, before, at := [], srIdx, offset;
      fragment, flags, total, quit, srIdx, offset, piece :=
        NextFragment(h, serializers, room, flags, first, total, srIdx, offset);
      CutOneMore(h, serializers, room, before, at, bodies, fragments, piece, srIdx, offset, quit);
      first := false;
      bodies := bodies + [piece];
      fragments := fragments + [fragment];
    }
    return true, fragments;
  }

  /** The body of createNormalPacket's main loop. */
  method NextFragment(h: Header, serializers: seq<Bytes>, room: nat, flags0: Byte, first: bool,
                      total0: nat, srIdx0: nat, offset0: nat)
    returns (fragment: Bytes, flags: Byte, total: nat, quit: bool, srIdx: nat, offset: nat, ghost piece: Bytes)
    requires h.channel <= 7 && room > 0
    requires flags0 == MakeChannelAndFlags(h.channel, h.relay, h.sysBit, first, false)
    requires IsPosition(serializers, srIdx0, offset0) && total0 == |Remaining(serializers, srIdx0, offset0)|
    ensures IsPosition(serializers, srIdx, offset) && total == |Remaining(serializers, srIdx, offset)|
    ensures Remaining(serializers, srIdx0, offset0) == piece + Remaining(serializers, srIdx, offset)
    ensures quit == (total == 0) && |piece| == (if quit then total0 else room) <= room
    ensures fragment == Fragment(h, piece, first, quit)
    ensures flags == MakeChannelAndFlags(h.channel, h.relay, h.sysBit, false, quit)
  {
    var writeLen := if total0 < room then total0 else room;
    total := total0 - writeLen;
    quit := total == 0;
    fragment, flags := WriteHeader(h, flags0, first, quit);
    var bytes;
    bytes, srIdx, offset := TakeBytes(serializers, srIdx0, offset0, writeLen);
    AppendBody(h, bytes, first, quit);
    fragment, piece := fragment + bytes, bytes;
  }

  lemma AppendBody(h: Header, body: Bytes, first: bool, last: bool)
    requires h.channel <= 7
    ensures Fragment(h, [], first, last) + body == Fragment(h, body, first, last)
  {
  }

  lemma FragmentsSnoc(h: Header, bodies: seq<Bytes>, body: Bytes, ended: bool)
    requires h.channel <= 7
    ensures FragmentsOf(h, bodies + [body], ended)
         == FragmentsOf(h, bodies, false) + [Fragment(h, body, bodies == [], ended)]
  {
    assert (bodies + [body])[..|bodies|] == bodies;
  }

  /** Component type, flags and, on the first fragment, the data id; returns the flags byte
      carried over to the next fragment. */
  method WriteHeader(h: Header, flags0: Byte, first: bool, isLast: bool) returns (fragment: Bytes, flags: Byte)
    requires h.channel <= 7
    requires flags0 == MakeChannelAndFlags(h.channel, h.relay, h.sysBit, first, false)
    ensures fragment == Fragment(h, [], first, isLast)
    ensures flags == MakeChannelAndFlags(h.channel, h.relay, h.sysBit, false, isLast)
  {
    flags := flags0;
    FlagsUpdate(h.channel, h.relay, h.sysBit, first, isLast);
    if isLast {
      flags := SetBit(flags, LastBit);
    }
    fragment := [h.compType, flags];
    if first {
      fragment := fragment + [h.dataId];
      flags := ClearBit(flags, FirstBit);
    }
  }

  /** The first loop of createNormalPacket. */
  method TotalLength(serializers: seq<Bytes>) returns (total: nat)
    ensures total == |Flatten(serializers)|
  {
    total := 0;
    FromStart(serializers);
    for i := 0 to |serializers|
      invariant total + |From(serializers, i)| == |Flatten(serializers)|
    {
      total := total + |serializers[i]|;
    }
  }

  /** The inner loop of createNormalPacket: the next `writeLen` bytes, moving on to the next
      serializer whenever one is used up (empty ones included). */
  method TakeBytes(serializers: seq<Bytes>, srIdx0: nat, offset0: nat, writeLen0: nat)
    returns (piece: Bytes, srIdx: nat, offset: nat)
    requires IsPosition(serializers, srIdx0, offset0)
    requires writeLen0 <= |Remaining(serializers, srIdx0, offset0)|
    ensures IsPosition(serializers, srIdx, offset) && |piece| == writeLen0
    ensures Remaining(serializers, srIdx0, offset0) == piece + Remaining(serializers, srIdx, offset)
  {
    srIdx, offset, piece := srIdx0, offset0, [];
    var writeLen := writeLen0;
    while srIdx < |serializers| && writeLen > 0
      invariant IsPosition(serializers, srIdx, offset)
      invariant 0 <= writeLen && |piece| == writeLen0 - writeLen
      invariant Remaining(serializers, srIdx0, offset0) == piece + Remaining(serializers, srIdx, offset)
      decreases |serializers| - srIdx
    {
      var part, moreLeft;
      ghost var before := Remaining(serializers, srIdx, offset);
      part, moreLeft, srIdx, offset := TakeFromOne(serializers, srIdx, offset, writeLen);
      Regroup(piece, part, Remaining(serializers, srIdx, offset));
      piece := piece + part;
      writeLen := writeLen - |part|;
      if moreLeft {
        return;
      }
    }
  }

  /** One turn of the inner loop: bytes of a single serializer; `moreLeft` if it was not used up. */
  method TakeFromOne(serializers: seq<Bytes>, srIdx0: nat, offset0: nat, writeLen: nat)
    returns (part: Bytes, moreLeft: bool, srIdx: nat, offset: nat)
    requires srIdx0 < |serializers| && IsPosition(serializers, srIdx0, offset0)
    ensures IsPosition(serializers, srIdx, offset) && |part| <= writeLen
    ensures Remaining(serializers, srIdx0, offset0) == part + Remaining(serializers, srIdx, offset)
    ensures moreLeft ==> |part| == writeLen
    ensures !moreLeft ==> srIdx == srIdx0 + 1
  {
    var leftOver := |serializers[srIdx0]| - offset0;
    moreLeft := writeLen < leftOver;
    var n := if moreLeft then writeLen else leftOver;
    RemainingStep(serializers, srIdx0, offset0, n);
    part := serializers[srIdx0][offset0..offset0 + n];
    if moreLeft {
      srIdx, offset := srIdx0, offset0 + n;
    } else {
      srIdx, offset := srIdx0 + 1, 0;
    }
  }
}

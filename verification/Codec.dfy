/** The wire form of the values a BinSerializer carries, and what reading gives back. A reader is
    a function from the unread bytes to a value and the bytes after it, or to a failure and the
    bytes it leaves unread. */
module Codec {
  import opened Words
  import opened Chunking

  const TEMP_BUFF_SIZE: nat := 4096
  const ADDRESS_SIZE: nat := 28 // sizeof(SOCKADDR_INET)
  const MAX_ENTRIES: nat := 0xFFFF

  /** The characters of a std::string; any of them may be NUL. */
  type Text = Bytes

  type Address = b: Bytes | |b| == ADDRESS_SIZE witness seq(ADDRESS_SIZE, _ => 0)

  type Meta = map<Text, Text>

  type Pair = (Text, Text)

  datatype Read<+T> = Ok(value: T, rest: Bytes) | Fail(rest: Bytes)

  /** What a reader returns that goes on after `xs` have been read. */
  function Prepend<T>(xs: seq<T>, r: Read<seq<T>>): Read<seq<T>> {
    match r
    case Fail(rest) => Fail(rest)
    case Ok(more, rest) => Ok(xs + more, rest)
  }

  lemma PrependNothing<T>(r: Read<seq<T>>)
    ensures Prepend([], r) == r
  {
    if r.Ok? {
      assert [] + r.value == r.value;
    }
  }

  lemma PrependOne<T>(xs: seq<T>, x: T, r: Read<seq<T>>)
    ensures Prepend(xs, Prepend([x], r)) == Prepend(xs + [x], r)
  {
    if r.Ok? {
      Regroup(xs, [x], r.value);
    }
  }

  // ---- Fixed width ----

  /** BinSerializer::read(byte*, u32). */
  function Take(n: nat, b: Bytes): Read<Bytes> {
    if |b| < n then Fail(b) else Ok(b[..n], b[n..])
  }

  function DecodeByte(b: Bytes): Read<Byte> {
    if |b| < 1 then Fail(b) else Ok(b[0], b[1..])
  }

  function DecodeU16(b: Bytes): Read<U16> {
    if |b| < 2 then Fail(b) else Ok(FromBE16(b[..2]), b[2..])
  }

  function DecodeU32(b: Bytes): Read<U32> {
    if |b| < 4 then Fail(b) else Ok(FromBE32(b[..4]), b[4..])
  }

  function DecodeU64(b: Bytes): Read<U64> {
    if |b| < 8 then Fail(b) else Ok(FromBE64(b[..8]), b[8..])
  }

  lemma Cut<T>(a: seq<T>, b: seq<T>)
    ensures (a + b)[..|a|] == a && (a + b)[|a|..] == b
  {
  }

  lemma U16RoundTrip(x: U16, suffix: Bytes)
    ensures DecodeU16(BE16(x) + suffix) == Ok(x, suffix)
  {
    Cut(BE16(x), suffix);
    BERoundTrip16(x);
  }

  lemma U32RoundTrip(x: U32, suffix: Bytes)
    ensures DecodeU32(BE32(x) + suffix) == Ok(x, suffix)
  {
    Cut(BE32(x), suffix);
    BERoundTrip32(x);
  }

  lemma U64RoundTrip(x: U64, suffix: Bytes)
    ensures DecodeU64(BE64(x) + suffix) == Ok(x, suffix)
  {
    Cut(BE64(x), suffix);
    BERoundTrip64(x);
  }

  // ---- Strings ----

  /** What write(string) accepts. */
  predicate Short(s: Text) {
    |s| <= TEMP_BUFF_SIZE - 1
  }

  predicate Plain(s: Text) {
    0 !in s
  }

  function EncodeText(s: Text): Bytes {
    s + [0]
  }

  /** read(string) once k characters are in its buffer. */
  function Scan(b: Bytes, k: nat): Read<Text>
    requires k <= TEMP_BUFF_SIZE
    decreases |b|
  {
    if k == TEMP_BUFF_SIZE || b == [] then Fail(b)
    else if b[0] == 0 then Ok([], b[1..])
    else Prepend([b[0]], Scan(b[1..], k + 1))
  }

  function DecodeText(b: Bytes): Read<Text> {
    Scan(b, 0)
  }

  lemma {:induction false} ScanEncoded(s: Text, k: nat, suffix: Bytes)
    requires Plain(s) && k + |s| < TEMP_BUFF_SIZE
    ensures Scan(EncodeText(s) + suffix, k) == Ok(s, suffix)
  {
    if s == [] {
      Cut([0], suffix);
    } else {
      ScanEncoded(s[1..], k + 1, suffix);
      assert (EncodeText(s) + suffix)[1..] == EncodeText(s[1..]) + suffix;
      assert [s[0]] + s[1..] == s;
    }
  }

  /** Whatever is read is free of NUL, short, and was there: the bytes are its encoding followed
      by the rest. So reading inverts writing and nothing else. */
  lemma {:induction false} ScanReads(b: Bytes, k: nat)
    requires k <= TEMP_BUFF_SIZE
    ensures var r := Scan(b, k);
      if r.Ok? then Plain(r.value) && k + |r.value| < TEMP_BUFF_SIZE && EncodeText(r.value) + r.rest == b
      else |r.rest| <= |b|
    decreases |b|
  {
    if k < TEMP_BUFF_SIZE && b != [] {
      if b[0] == 0 {
        assert EncodeText([]) + b[1..] == b;
      } else {
        ScanReads(b[1..], k + 1);
        var r := Scan(b[1..], k + 1);
        if r.Ok? {
          PutFirst(b, r.value, r.rest);
        }
      }
    }
  }

  lemma PutFirst(b: Bytes, s: Text, rest: Bytes)
    requires b != [] && EncodeText(s) + rest == b[1..]
    ensures EncodeText([b[0]] + s) + rest == b
  {
    assert EncodeText([b[0]] + s) + rest == [b[0]] + (EncodeText(s) + rest);
  }

  /** A string that could be written is read back, before any suffix, exactly when it has no NUL. */
  lemma TextRoundTrip(s: Text, suffix: Bytes)
    requires Short(s)
    ensures DecodeText(EncodeText(s) + suffix) == Ok(s, suffix) <==> Plain(s)
  {
    if Plain(s) {
      ScanEncoded(s, 0, suffix);
    }
    ScanReads(EncodeText(s) + suffix, 0);
  }

  // ---- Metadata ----

  /** std::map::insert keeps the value of a key that is already there. */
  function Insert(m: Meta, p: Pair): Meta {
    if p.0 in m then m else m[p.0 := p.1]
  }

  function InsertAll(m: Meta, pairs: seq<Pair>): Meta
    decreases |pairs|
  {
    if pairs == [] then m else InsertAll(Insert(m, pairs[0]), pairs[1..])
  }

  function EncodePair(p: Pair): Bytes {
    EncodeText(p.0) + EncodeText(p.1)
  }

  function EncodePairs(pairs: seq<Pair>): Bytes {
    if pairs == [] then [] else EncodePair(pairs[0]) + EncodePairs(pairs[1..])
  }

  /** Written as the count and the entries in the order the map iterates over them. */
  function EncodeMeta(pairs: seq<Pair>): Bytes
    requires |pairs| < CYCLE
  {
    BE32(|pairs|) + EncodePairs(pairs)
  }

  function DecodePair(b: Bytes): Read<Pair> {
    match DecodeText(b)
    case Fail(rest) => Fail(rest)
    case Ok(key, rest) =>
      match DecodeText(rest)
      case Fail(rest2) => Fail(rest2)
      case Ok(value, rest2) => Ok((key, value), rest2)
  }

  lemma DecodePairReads(b: Bytes)
    ensures var r := DecodePair(b);
      r.Ok? ==> Plain(r.value.0) && Plain(r.value.1) && |r.rest| < |b|
  {
    ScanReads(b, 0);
    if DecodeText(b).Ok? {
      ScanReads(DecodeText(b).rest, 0);
    }
  }

  /** The loop of read(MetaData): its counter is a u16, the bound a u32. */
  function DecodePairs(b: Bytes, i: U16, count: U32, m: Meta): Read<Meta>
    decreases |b|
  {
    if i >= count then Ok(m, b)
    else match DecodePair(b)
      case Fail(rest) => Fail(rest)
      case Ok(p, rest) =>
        DecodePairReads(b);
        DecodePairs(rest, Next16(i), count, Insert(m, p))
  }

  function Next16(i: U16): U16 {
    if i == 0xFFFF then 0 else i + 1
  }

  /** read(MetaData) into a map that may already hold entries. */
  function DecodeMeta(b: Bytes, m: Meta): Read<Meta> {
    match DecodeU32(b)
    case Fail(rest) => Fail(rest)
    case Ok(count, rest) => DecodePairs(rest, 0, count, m)
  }

  predicate PairPlain(p: Pair) {
    Plain(p.0) && Plain(p.1)
  }

  predicate PairShort(p: Pair) {
    Short(p.0) && Short(p.1)
  }

  predicate AllPlain(m: Meta) {
    forall k :: k in m ==> PairPlain((k, m[k]))
  }

  predicate AllShort(m: Meta) {
    forall k :: k in m ==> PairShort((k, m[k]))
  }

  lemma PairRoundTrip(p: Pair, suffix: Bytes)
    requires PairPlain(p) && PairShort(p)
    ensures DecodePair(EncodePair(p) + suffix) == Ok(p, suffix)
  {
    TextRoundTrip(p.0, EncodeText(p.1) + suffix);
    TextRoundTrip(p.1, suffix);
    assert EncodePair(p) + suffix == EncodeText(p.0) + (EncodeText(p.1) + suffix);
  }

  /** Reading a written run of entries inserts them one by one. */
  lemma {:induction false} PairsRoundTrip(pairs: seq<Pair>, i: U16, count: U32, m: Meta, suffix: Bytes)
    requires i + |pairs| == count <= MAX_ENTRIES
    requires forall j :: 0 <= j < |pairs| ==> PairPlain(pairs[j]) && PairShort(pairs[j])
    ensures DecodePairs(EncodePairs(pairs) + suffix, i, count, m) == Ok(InsertAll(m, pairs), suffix)
    decreases |pairs|
  {
    if pairs == [] {
      assert [] + suffix == suffix;
    } else {
      var more := EncodePairs(pairs[1..]) + suffix;
      assert EncodePairs(pairs) + suffix == EncodePair(pairs[0]) + more;
      PairRoundTrip(pairs[0], more);
      PairsRoundTrip(pairs[1..], i + 1, count, Insert(m, pairs[0]), suffix);
    }
  }

  /** Above 65535 the u16 counter never reaches the count, so reading ends in failure, whatever
      the bytes are. */
  lemma {:induction false} TooManyNeverRead(b: Bytes, i: U16, count: U32, m: Meta)
    requires count > MAX_ENTRIES
    ensures DecodePairs(b, i, count, m).Fail?
    decreases |b|
  {
    var r := DecodePair(b);
    if r.Ok? {
      DecodePairReads(b);
      TooManyNeverRead(r.rest, Next16(i), count, Insert(m, r.value));
    }
  }

  lemma {:induction false} DecodedPairsPlain(b: Bytes, i: U16, count: U32, m: Meta)
    requires AllPlain(m)
    ensures var r := DecodePairs(b, i, count, m); r.Ok? ==> AllPlain(r.value)
    decreases |b|
  {
    if i < count {
      var r := DecodePair(b);
      if r.Ok? {
        DecodePairReads(b);
        DecodedPairsPlain(r.rest, Next16(i), count, Insert(m, r.value));
      }
    }
  }

  /** The entries of m, each once, in some order. */
  ghost predicate Lists(pairs: seq<Pair>, m: Meta) {
    && |pairs| == |m|
    && (forall i :: 0 <= i < |pairs| ==> pairs[i].0 in m && m[pairs[i].0] == pairs[i].1)
    && InsertAll(map[], pairs) == m
  }

  /** Whatever the iteration order, a map is read back, before any suffix, exactly when its
      strings are free of NUL and it has at most 65535 entries. */
  lemma MetaRoundTrip(pairs: seq<Pair>, m: Meta, suffix: Bytes)
    requires Lists(pairs, m) && AllShort(m) && |m| < CYCLE
    ensures DecodeMeta(EncodeMeta(pairs) + suffix, map[]) == Ok(m, suffix) <==> AllPlain(m) && |m| <= MAX_ENTRIES
  {
    var body := EncodePairs(pairs) + suffix;
    assert EncodeMeta(pairs) + suffix == BE32(|pairs|) + body;
    U32RoundTrip(|pairs|, body);
    if |m| > MAX_ENTRIES {
      TooManyNeverRead(body, 0, |pairs|, map[]);
    } else if AllPlain(m) {
      forall j | 0 <= j < |pairs|
        ensures PairPlain(pairs[j]) && PairShort(pairs[j])
      {
        assert pairs[j] == (pairs[j].0, m[pairs[j].0]);
      }
      PairsRoundTrip(pairs, 0, |pairs|, map[], suffix);
    } else {
      DecodedPairsPlain(body, 0, |pairs|, map[]);
    }
  }

  // ---- Listing a map ----

  lemma {:induction false} InsertAllSnoc(m: Meta, pairs: seq<Pair>, p: Pair)
    ensures InsertAll(m, pairs + [p]) == Insert(InsertAll(m, pairs), p)
    decreases |pairs|
  {
    if pairs == [] {
      assert [p][1..] == [];
    } else {
      assert (pairs + [p])[1..] == pairs[1..] + [p];
      InsertAllSnoc(Insert(m, pairs[0]), pairs[1..], p);
    }
  }

  // ---- What is written when there may not be room ----

  /** The room left in a serializer; None when it can grow. */
  type Room = Option<nat>

  predicate Fits(room: Room, n: nat) {
    room.None? || n <= room.value
  }

  function Minus(room: Room, n: nat): Room
    requires Fits(room, n)
  {
    if room.None? then None else Some(room.value - n)
  }

  /** Writing strings one after the other until one is refused: what is written, and whether that is
      all of it. */
  function WriteTexts(room: Room, ts: seq<Text>): (Bytes, bool)
    decreases |ts|
  {
    if ts == [] then ([], true)
    else if !Short(ts[0]) || !Fits(room, |ts[0]| + 1) then ([], false)
    else
      var (b, all) := WriteTexts(Minus(room, |ts[0]| + 1), ts[1..]);
      (EncodeText(ts[0]) + b, all)
  }

  function EncodeTexts(ts: seq<Text>): Bytes {
    if ts == [] then [] else EncodeText(ts[0]) + EncodeTexts(ts[1..])
  }

  /** Everything is written exactly when every string is short and there is room for all of them. */
  lemma {:induction false} WriteTextsAll(room: Room, ts: seq<Text>)
    ensures var (b, all) := WriteTexts(room, ts);
      && (all <==> (forall i :: 0 <= i < |ts| ==> Short(ts[i])) && Fits(room, |EncodeTexts(ts)|))
      && (all ==> b == EncodeTexts(ts))
    decreases |ts|
  {
    if ts != [] && Short(ts[0]) && Fits(room, |ts[0]| + 1) {
      WriteTextsAll(Minus(room, |ts[0]| + 1), ts[1..]);
      assert ts == [ts[0]] + ts[1..];
    }
  }

  lemma {:induction false} WriteTextsAppend(room: Room, a: seq<Text>, b: seq<Text>)
    ensures var (x, all) := WriteTexts(room, a);
      if all then
        && Fits(room, |x|)
        && WriteTexts(room, a + b) == (x + WriteTexts(Minus(room, |x|), b).0, WriteTexts(Minus(room, |x|), b).1)
      else WriteTexts(room, a + b) == (x, false)
    decreases |a|
  {
    if a == [] {
      assert a + b == b;
      assert [] + WriteTexts(room, b).0 == WriteTexts(room, b).0;
    } else {
      assert (a + b)[1..] == a[1..] + b && (a + b)[0] == a[0];
      if Short(a[0]) && Fits(room, |a[0]| + 1) {
        var rest := Minus(room, |a[0]| + 1);
        WriteTextsAppend(rest, a[1..], b);
        var (y, all) := WriteTexts(rest, a[1..]);
        if all {
          Regroup(EncodeText(a[0]), y, WriteTexts(Minus(rest, |y|), b).0);
        }
      }
    }
  }

  /** The strings of a run of entries, in the order they are written. */
  function Texts(pairs: seq<Pair>): seq<Text> {
    if pairs == [] then [] else [pairs[0].0, pairs[0].1] + Texts(pairs[1..])
  }

  lemma {:induction false} TextsAppend(a: seq<Pair>, b: seq<Pair>)
    ensures Texts(a + b) == Texts(a) + Texts(b)
  {
    if a == [] {
      assert a + b == b;
    } else {
      assert (a + b)[1..] == a[1..] + b;
      TextsAppend(a[1..], b);
    }
  }

  lemma {:induction false} TextsEncode(pairs: seq<Pair>)
    ensures EncodeTexts(Texts(pairs)) == EncodePairs(pairs)
  {
    if pairs != [] {
      TextsEncode(pairs[1..]);
      var p, ts := pairs[0], Texts(pairs);
      assert ts[1..] == [p.1] + Texts(pairs[1..]) && ts[1..][1..] == Texts(pairs[1..]);
      Regroup(EncodeText(p.0), EncodeText(p.1), EncodePairs(pairs[1..]));
    }
  }

  /** The same for a whole map: the count, then the strings. */
  function WriteMap(room: Room, pairs: seq<Pair>): (Bytes, bool)
    requires |pairs| < CYCLE
  {
    if !Fits(room, 4) then ([], false)
    else
      var (b, all) := WriteTexts(Minus(room, 4), Texts(pairs));
      (BE32(|pairs|) + b, all)
  }

  /** All of a map is written exactly when its strings are short and it fits, and then it is the
      map's encoding. */
  lemma WriteMapAll(room: Room, pairs: seq<Pair>, m: Meta)
    requires Lists(pairs, m) && |m| < CYCLE
    ensures var (b, all) := WriteMap(room, pairs);
      && (all <==> AllShort(m) && Fits(room, |EncodeMeta(pairs)|))
      && (all ==> b == EncodeMeta(pairs))
  {
    TextsEncode(pairs);
    ShortTexts(pairs, m);
    if Fits(room, 4) {
      WriteTextsAll(Minus(room, 4), Texts(pairs));
    }
  }

  lemma ShortTexts(pairs: seq<Pair>, m: Meta)
    requires Lists(pairs, m)
    ensures (forall i :: 0 <= i < |Texts(pairs)| ==> Short(Texts(pairs)[i])) <==> AllShort(m)
  {
    TextsShort(pairs);
    ListsAll(pairs, m);
    if AllShort(m) {
      forall j | 0 <= j < |pairs|
        ensures PairShort(pairs[j])
      {
        assert pairs[j] == (pairs[j].0, m[pairs[j].0]);
      }
    }
  }

  lemma {:induction false} TextsShort(pairs: seq<Pair>)
    ensures (forall i :: 0 <= i < |Texts(pairs)| ==> Short(Texts(pairs)[i])) <==> forall j :: 0 <= j < |pairs| ==> PairShort(pairs[j])
  {
    if pairs != [] {
      TextsShort(pairs[1..]);
      var ts, rest := Texts(pairs), Texts(pairs[1..]);
      assert forall i :: 0 <= i < |rest| ==> ts[i + 2] == rest[i];
      assert forall i :: 2 <= i < |ts| ==> ts[i] == rest[i - 2];
      assert ts[0] == pairs[0].0 && ts[1] == pairs[0].1;
      assert forall j :: 0 <= j < |pairs| - 1 ==> pairs[1..][j] == pairs[j + 1];
      assert forall j :: 1 <= j < |pairs| ==> pairs[j] == pairs[1..][j - 1];
    }
  }

  lemma {:induction false} InsertedFrom(m: Meta, pairs: seq<Pair>, k: Text)
    requires k in InsertAll(m, pairs)
    ensures k in m || exists j :: 0 <= j < |pairs| && pairs[j].0 == k
    decreases |pairs|
  {
    if pairs != [] && k !in m && k != pairs[0].0 {
      InsertedFrom(Insert(m, pairs[0]), pairs[1..], k);
      var j :| 0 <= j < |pairs[1..]| && pairs[1..][j].0 == k;
      assert pairs[j + 1].0 == k;
    }
  }

  lemma ListsAll(pairs: seq<Pair>, m: Meta)
    requires Lists(pairs, m)
    ensures forall k :: k in m ==> exists j :: 0 <= j < |pairs| && pairs[j] == (k, m[k])
  {
    forall k | k in m
      ensures exists j :: 0 <= j < |pairs| && pairs[j] == (k, m[k])
    {
      InsertedFrom(map[], pairs, k);
      var j :| 0 <= j < |pairs| && pairs[j].0 == k;
      assert pairs[j] == (k, m[k]);
    }
  }

  // ---- Optional addresses ----

  function EncodeAddress(a: Option<Address>): Bytes {
    if a.None? then [0] else [1] + a.value
  }

  function DecodeAddress(b: Bytes): Read<Option<Address>> {
    match DecodeByte(b)
    case Fail(rest) => Fail(rest)
    case Ok(present, rest) =>
      if present == 0 then Ok(None, rest)
      else match Take(ADDRESS_SIZE, rest)
        case Fail(rest2) => Fail(rest2)
        case Ok(a, rest2) => Ok(Some(a), rest2)
  }

  lemma AddressRoundTrip(a: Option<Address>, suffix: Bytes)
    ensures DecodeAddress(EncodeAddress(a) + suffix) == Ok(a, suffix)
  {
    if a.Some? {
      Cut(a.value, suffix);
      assert (EncodeAddress(a) + suffix)[1..] == a.value + suffix;
    }
  }

  // ---- Sequences of values ----

  datatype Kind = ByteKind | U16Kind | U32Kind | U64Kind | TextKind | MetaKind | AddressKind

  datatype Value =
    | ByteValue(byte: Byte)
    | U16Value(u16: U16)
    | U32Value(u32: U32)
    | U64Value(u64: U64)
    | TextValue(text: Text)
    | MetaValue(meta: Meta)
    | AddressValue(address: Option<Address>)

  function KindOf(v: Value): Kind {
    match v
    case ByteValue(_) => ByteKind
    case U16Value(_) => U16Kind
    case U32Value(_) => U32Kind
    case U64Value(_) => U64Kind
    case TextValue(_) => TextKind
    case MetaValue(_) => MetaKind
    case AddressValue(_) => AddressKind
  }

  /** b is what a successful write of v appends. */
  ghost predicate Encodes(v: Value, b: Bytes) {
    match v
    case ByteValue(x) => b == [x]
    case U16Value(x) => b == BE16(x)
    case U32Value(x) => b == BE32(x)
    case U64Value(x) => b == BE64(x)
    case TextValue(s) => Short(s) && b == EncodeText(s)
    case MetaValue(m) => EncodesMeta(m, b)
    case AddressValue(a) => b == EncodeAddress(a)
  }

  ghost predicate EncodesMeta(m: Meta, b: Bytes) {
    AllShort(m) && |m| < CYCLE && exists pairs :: Lists(pairs, m) && b == EncodeMeta(pairs)
  }

  /** The values that survive the trip. */
  predicate Faithful(v: Value) {
    match v
    case TextValue(s) => Plain(s)
    case MetaValue(m) => AllPlain(m) && |m| <= MAX_ENTRIES
    case _ => true
  }

  function Lift<T>(r: Read<T>, wrap: T -> Value): Read<Value> {
    match r
    case Fail(rest) => Fail(rest)
    case Ok(x, rest) => Ok(wrap(x), rest)
  }

  function Decode(k: Kind, b: Bytes): Read<Value> {
    match k
    case ByteKind => Lift(DecodeByte(b), x => ByteValue(x))
    case U16Kind => Lift(DecodeU16(b), x => U16Value(x))
    case U32Kind => Lift(DecodeU32(b), x => U32Value(x))
    case U64Kind => Lift(DecodeU64(b), x => U64Value(x))
    case TextKind => Lift(DecodeText(b), x => TextValue(x))
    case MetaKind => Lift(DecodeMeta(b, map[]), x => MetaValue(x))
    case AddressKind => Lift(DecodeAddress(b), x => AddressValue(x))
  }

  lemma ValueRoundTrip(v: Value, b: Bytes, suffix: Bytes)
    requires Encodes(v, b)
    ensures Decode(KindOf(v), b + suffix) == Ok(v, suffix) <==> Faithful(v)
  {
    match v
    case ByteValue(x) => assert (b + suffix)[1..] == suffix;
    case U16Value(x) => U16RoundTrip(x, suffix);
    case U32Value(x) => U32RoundTrip(x, suffix);
    case U64Value(x) => U64RoundTrip(x, suffix);
    case TextValue(s) => TextRoundTrip(s, suffix);
    case MetaValue(m) =>
      var pairs :| Lists(pairs, m) && b == EncodeMeta(pairs);
      MetaRoundTrip(pairs, m, suffix);
    case AddressValue(a) => AddressRoundTrip(a, suffix);
  }

  /** Only such values are ever read, from any bytes. */
  lemma DecodedFaithful(k: Kind, b: Bytes)
    ensures var r := Decode(k, b); r.Ok? ==> Faithful(r.value)
  {
    match k
    case TextKind => ScanReads(b, 0);
    case MetaKind => DecodedMetaFaithful(b);
    case _ =>
  }

  lemma DecodedMetaFaithful(b: Bytes)
    ensures var r := DecodeMeta(b, map[]); r.Ok? ==> AllPlain(r.value) && |r.value| <= MAX_ENTRIES
  {
    var head := DecodeU32(b);
    if head.Ok? {
      DecodedPairsPlain(head.rest, 0, head.value, map[]);
      if head.value > MAX_ENTRIES {
        TooManyNeverRead(head.rest, 0, head.value, map[]);
      } else {
        DecodedPairsSize(head.rest, 0, head.value, map[]);
      }
    }
  }

  lemma {:induction false} DecodedPairsSize(b: Bytes, i: U16, count: U32, m: Meta)
    requires i <= count <= MAX_ENTRIES && |m| <= i
    ensures var r := DecodePairs(b, i, count, m); r.Ok? ==> |r.value| <= count
    decreases |b|
  {
    if i < count {
      var r := DecodePair(b);
      if r.Ok? {
        DecodePairReads(b);
        DecodedPairsSize(r.rest, i + 1, count, Insert(m, r.value));
      }
    }
  }

  function DecodeAll(kinds: seq<Kind>, b: Bytes): Read<seq<Value>> {
    if kinds == [] then Ok([], b)
    else match Decode(kinds[0], b)
      case Fail(rest) => Fail(rest)
      case Ok(v, rest) => Prepend([v], DecodeAll(kinds[1..], rest))
  }

  ghost predicate EncodesAll(vs: seq<Value>, bs: seq<Bytes>) {
    |vs| == |bs| && forall i :: 0 <= i < |vs| ==> Encodes(vs[i], bs[i])
  }

  function Kinds(vs: seq<Value>): seq<Kind> {
    if vs == [] then [] else [KindOf(vs[0])] + Kinds(vs[1..])
  }

  predicate AllFaithful(vs: seq<Value>) {
    forall i :: 0 <= i < |vs| ==> Faithful(vs[i])
  }

  /** The codec round trip: any sequence of values that could be written is read back, the reader
      stopping at the suffix, exactly when each of the values survives. */
  lemma CodecRoundTrip(vs: seq<Value>, bs: seq<Bytes>, suffix: Bytes)
    requires EncodesAll(vs, bs)
    ensures DecodeAll(Kinds(vs), Flatten(bs) + suffix) == Ok(vs, suffix) <==> AllFaithful(vs)
  {
    if AllFaithful(vs) {
      CodecReadsBack(vs, bs, suffix);
    } else {
      DecodedAllFaithful(Kinds(vs), Flatten(bs) + suffix);
    }
  }

  lemma {:induction false} CodecReadsBack(vs: seq<Value>, bs: seq<Bytes>, suffix: Bytes)
    requires EncodesAll(vs, bs) && AllFaithful(vs)
    ensures DecodeAll(Kinds(vs), Flatten(bs) + suffix) == Ok(vs, suffix)
  {
    if vs == [] {
      assert Flatten(bs) + suffix == suffix;
    } else {
      var more := Flatten(bs[1..]) + suffix;
      assert Flatten(bs) + suffix == bs[0] + more;
      assert Encodes(vs[0], bs[0]) && Faithful(vs[0]);
      ValueRoundTrip(vs[0], bs[0], more);
      CodecReadsBack(vs[1..], bs[1..], suffix);
      assert vs == [vs[0]] + vs[1..];
      assert Kinds(vs)[1..] == Kinds(vs[1..]);
    }
  }

  lemma {:induction false} DecodedAllFaithful(kinds: seq<Kind>, b: Bytes)
    ensures var r := DecodeAll(kinds, b); r.Ok? ==> AllFaithful(r.value)
  {
    if kinds != [] {
      DecodedFaithful(kinds[0], b);
      var r := Decode(kinds[0], b);
      if r.Ok? {
        DecodedAllFaithful(kinds[1..], r.rest);
      }
    }
  }
}

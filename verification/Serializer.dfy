/** BinSerializer: a byte buffer with a write and a read position, which grows when it owns its
    memory. Every operation is tied to the wire form of module Codec. */
module Serializer {
  import opened Words
  import opened Chunking
  import opened Codec

  /** What a read must do with the unread bytes, success or not. */
  ghost predicate ReadAs<T(!new)>(expected: Read<T>, ok: bool, value: T, unread: Bytes) {
    && (ok <==> expected.Ok?)
    && (ok ==> value == expected.value)
    && unread == expected.rest
  }

  class BinSerializer {
    var data: array<Byte> // m_DataPtr and m_MaxSize
    var writePos: nat
    var readPos: nat
    const owns: bool

    ghost predicate Valid()
      reads this
    {
      readPos <= writePos <= data.Length
    }

    ghost function Content(): Bytes
      requires Valid()
      reads this, data
    {
      data[..writePos]
    }

    ghost function Unread(): Bytes
      requires Valid()
      reads this, data
    {
      data[readPos..writePos]
    }

    /** What can still be written. */
    ghost function Left(): Room
      requires Valid()
      reads this
    {
      if owns then None else Some(data.Length - writePos)
    }

    /** An empty serializer that owns its memory. */
    constructor ()
      ensures Valid() && owns && fresh(data) && Content() == [] && Unread() == []
    {
      data, writePos, readPos, owns := new Byte[0], 0, 0, true;
    }

    /** A serializer over memory of someone else, of which the first bytes are written. */
    constructor Over(stream: array<Byte>, written: nat)
      requires written <= stream.Length
      ensures Valid() && !owns && data == stream && Content() == Unread() == stream[..written]
    {
      data, writePos, readPos, owns := stream, written, 0, false;
    }

    // ---- Writing ----

    /** Any capacity above the required size may be picked. What is written stays. */
    method GrowTo(required: nat)
      requires Valid()
      modifies this`data
      ensures Valid() && (data == old(data) || fresh(data))
      ensures Content() == old(Content())
      ensures owns ==> data.Length >= required
      ensures !owns ==> data == old(data)
    {
      if !owns || required <= data.Length {
        return;
      }
      var capacity: nat :| capacity > required;
      var grown := new Byte[capacity];
      for i := 0 to writePos
        invariant data == old(data) && fresh(grown) && grown.Length == capacity
        invariant forall k :: 0 <= k < i ==> grown[k] == data[k]
      {
        grown[i] := data[i];
      }
      data := grown;
    }

    /** write(const byte*, u32). All or nothing: only foreign memory can be too small. */
    method WriteBytes(b: Bytes) returns (ok: bool)
      requires Valid()
      modifies this, data
      ensures Valid() && (data == old(data) || (owns && fresh(data))) && readPos == old(readPos)
      ensures ok <==> Fits(old(Left()), |b|)
      ensures Content() == old(Content()) + if ok then b else []
    {
      GrowTo(writePos + |b|);
      if writePos + |b| > data.Length {
        return false;
      }
      Store(b);
      writePos := writePos + |b|;
      ok := true;
    }

    method Store(b: Bytes)
      requires Valid() && writePos + |b| <= data.Length
      modifies data
      ensures data[..writePos + |b|] == old(Content()) + b
    {
      for i := 0 to |b|
        invariant data[..writePos] == old(Content())
        invariant data[writePos..writePos + i] == b[..i]
      {
        data[writePos + i] := b[i];
      }
      assert data[..writePos + |b|] == data[..writePos] + data[writePos..writePos + |b|];
    }

    method Write8(x: Byte) returns (ok: bool)
      requires Valid()
      modifies this, data
      ensures Valid() && (data == old(data) || (owns && fresh(data))) && readPos == old(readPos)
      ensures ok <==> Fits(old(Left()), 1)
      ensures Content() == old(Content()) + if ok then [x] else []
    {
      ok := WriteBytes([x]);
    }

    method Write16(x: U16) returns (ok: bool)
      requires Valid()
      modifies this, data
      ensures Valid() && (data == old(data) || (owns && fresh(data))) && readPos == old(readPos)
      ensures ok <==> Fits(old(Left()), 2)
      ensures Content() == old(Content()) + if ok then BE16(x) else []
    {
      ok := WriteBytes(BE16(x));
    }

    method Write32(x: U32) returns (ok: bool)
      requires Valid()
      modifies this, data
      ensures Valid() && (data == old(data) || (owns && fresh(data))) && readPos == old(readPos)
      ensures ok <==> Fits(old(Left()), 4)
      ensures Content() == old(Content()) + if ok then BE32(x) else []
    {
      ok := WriteBytes(BE32(x));
    }

    method Write64(x: U64) returns (ok: bool)
      requires Valid()
      modifies this, data
      ensures Valid() && (data == old(data) || (owns && fresh(data))) && readPos == old(readPos)
      ensures ok <==> Fits(old(Left()), 8)
      ensures Content() == old(Content()) + if ok then BE64(x) else []
    {
      ok := WriteBytes(BE64(x));
    }

    method WriteText(s: Text) returns (ok: bool)
      requires Valid()
      modifies this, data
      ensures Valid() && (data == old(data) || (owns && fresh(data))) && readPos == old(readPos)
      ensures ok <==> Short(s) && Fits(old(Left()), |s| + 1)
      ensures Content() == old(Content()) + if ok then EncodeText(s) else []
    {
      if |s| > TEMP_BUFF_SIZE - 1 {
        return false;
      }
      ok := WriteBytes(s + [0]);
    }

    /** write(sptr<IAddress>): foreign memory may have room for the presence byte alone. */
    method WriteAddress(a: Option<Address>) returns (ok: bool)
      requires Valid()
      modifies this, data
      ensures Valid() && (data == old(data) || (owns && fresh(data))) && readPos == old(readPos)
      ensures ok <==> Fits(old(Left()), |EncodeAddress(a)|)
      ensures Content() == old(Content())
                           + if ok then EncodeAddress(a) else if a.Some? && Fits(old(Left()), 1) then [1] else []
    {
      if a.None? {
        ok := Write8(0);
        return;
      }
      ok := Write8(1);
      if ok {
        ok := WriteBytes(a.value);
        Regroup(old(Content()), [1], a.value);
      }
    }

    /** One entry of a map. */
    method WritePair(p: Pair) returns (ok: bool)
      requires Valid()
      modifies this, data
      ensures Valid() && (data == old(data) || (owns && fresh(data))) && readPos == old(readPos)
      ensures ok == WriteTexts(old(Left()), [p.0, p.1]).1
      ensures Content() == old(Content()) + WriteTexts(old(Left()), [p.0, p.1]).0
    {
      TwoTexts(Left(), p.0, p.1);
      ok := WriteText(p.0);
      if ok {
        ok := WriteText(p.1);
        Regroup(old(Content()), EncodeText(p.0), if ok then EncodeText(p.1) else []);
      }
    }

    /** write(MetaData): the entries in whatever order the map yields them, up to the first string
        that is refused. */
    method WriteMeta(m: Meta) returns (ok: bool)
      requires Valid()
      modifies this, data
      ensures Valid() && (data == old(data) || (owns && fresh(data))) && readPos == old(readPos)
      ensures |m| >= CYCLE ==> !ok && Content() == old(Content())
      ensures |m| < CYCLE ==> WritesMap(m, old(Left()), old(Content()), Content(), ok)
    {
      if |m| >= CYCLE {
        return false;
      }
      ok := Write32(|m|);
      if !ok {
        NothingListed(m);
        ghost var some := CompleteListing(m, m.Keys, []);
        return;
      }
      ghost var pairs;
      ok, pairs := WriteEntries(m);
      Regroup(old(Content()), BE32(|m|), WriteTexts(Minus(old(Left()), 4), Texts(pairs)).0);
      assert WritesMap(m, old(Left()), old(Content()), Content(), ok);
    }

    method WriteEntries(m: Meta) returns (ok: bool, ghost pairs: seq<Pair>)
      requires Valid()
      modifies this, data
      ensures Valid() && (data == old(data) || (owns && fresh(data))) && readPos == old(readPos)
      ensures Lists(pairs, m)
      ensures ok == WriteTexts(old(Left()), Texts(pairs)).1
      ensures Content() == old(Content()) + WriteTexts(old(Left()), Texts(pairs)).0
    {
      ok, pairs := true, [];
      var todo := m.Keys;
      NothingListed(m);
      while todo != {}
        invariant Valid() && (data == old(data) || (owns && fresh(data))) && readPos == old(readPos)
        invariant Listed(m, todo, pairs)
        invariant WriteTexts(old(Left()), Texts(pairs)).1
        invariant Content() == old(Content()) + WriteTexts(old(Left()), Texts(pairs)).0
        decreases todo
      {
        var k :| k in todo;
        ok := WriteNext((k, m[k]), pairs, old(Left()), old(Content()));
        ListOne(m, todo, pairs, k);
        todo := todo - {k};
        pairs := pairs + [(k, m[k])];
        if !ok {
          pairs := StopHere(m, todo, pairs, old(Left()));
          return;
        }
      }
      AllListed(m, pairs);
    }

    /** One more entry after those already written from `start` on. */
    method WriteNext(p: Pair, ghost pairs: seq<Pair>, ghost room: Room, ghost start: Bytes) returns (ok: bool)
      requires Valid() && WriteTexts(room, Texts(pairs)).1
      requires Content() == start + WriteTexts(room, Texts(pairs)).0
      requires room == if owns then None else Some(data.Length - |start|)
      modifies this, data
      ensures Valid() && (data == old(data) || (owns && fresh(data))) && readPos == old(readPos)
      ensures ok == WriteTexts(room, Texts(pairs + [p])).1
      ensures Content() == start + WriteTexts(room, Texts(pairs + [p])).0
    {
      OneMorePair(room, pairs, p, start);
      ok := WritePair(p);
    }

    // ---- Reading: fails, and stops, where the pure reader does ----

    method ReadBytes(n: nat) returns (ok: bool, b: Bytes)
      requires Valid()
      modifies this`readPos
      ensures Valid() && Content() == old(Content())
      ensures ReadAs(Take(n, old(Unread())), ok, b, Unread())
    {
      if readPos + n > writePos {
        return false, [];
      }
      ok, b := true, data[readPos..readPos + n];
      assert b == Unread()[..n];
      readPos := readPos + n;
    }

    method Read8() returns (ok: bool, x: Byte)
      requires Valid()
      modifies this`readPos
      ensures Valid() && Content() == old(Content())
      ensures ReadAs(DecodeByte(old(Unread())), ok, x, Unread())
    {
      if readPos + 1 > writePos {
        return false, 0;
      }
      ok, x := true, data[readPos];
      readPos := readPos + 1;
    }

    method Read16() returns (ok: bool, x: U16)
      requires Valid()
      modifies this`readPos
      ensures Valid() && Content() == old(Content())
      ensures ReadAs(DecodeU16(old(Unread())), ok, x, Unread())
    {
      var found, b := ReadBytes(2);
      ok, x := found, if found then FromBE16(b) else 0;
    }

    method Read32() returns (ok: bool, x: U32)
      requires Valid()
      modifies this`readPos
      ensures Valid() && Content() == old(Content())
      ensures ReadAs(DecodeU32(old(Unread())), ok, x, Unread())
    {
      var found, b := ReadBytes(4);
      ok, x := found, if found then FromBE32(b) else 0;
    }

    method Read64() returns (ok: bool, x: U64)
      requires Valid()
      modifies this`readPos
      ensures Valid() && Content() == old(Content())
      ensures ReadAs(DecodeU64(old(Unread())), ok, x, Unread())
    {
      var found, b := ReadBytes(8);
      ok, x := found, if found then FromBE64(b) else 0;
    }

    /** read(string): character by character into a bounded buffer, up to the NUL. */
    method ReadText() returns (ok: bool, s: Text)
      requires Valid()
      modifies this`readPos
      ensures Valid() && Content() == old(Content())
      ensures ReadAs(DecodeText(old(Unread())), ok, s, Unread())
    {
      s := [];
      PrependNothing(Scan(Unread(), 0));
      while true
        invariant Valid() && |s| <= TEMP_BUFF_SIZE
        invariant DecodeText(old(Unread())) == Prepend(s, Scan(Unread(), |s|))
        decreases writePos - readPos
      {
        if |s| == TEMP_BUFF_SIZE || readPos >= writePos {
          return false, s;
        }
        ghost var unread := Unread();
        var c := data[readPos];
        readPos := readPos + 1;
        assert c == unread[0] && Unread() == unread[1..];
        if c == 0 {
          assert s + [] == s;
          return true, s;
        }
        PrependOne(s, c, Scan(Unread(), |s| + 1));
        s := s + [c];
      }
    }

    method ReadAddress() returns (ok: bool, a: Option<Address>)
      requires Valid()
      modifies this`readPos
      ensures Valid() && Content() == old(Content())
      ensures ReadAs(DecodeAddress(old(Unread())), ok, a, Unread())
    {
      a := None;
      var present;
      ok, present := Read8();
      if ok && present != 0 {
        var b;
        ok, b := ReadBytes(ADDRESS_SIZE);
        if ok {
          a := Some(b);
        }
      }
    }

    method ReadPair() returns (ok: bool, p: Pair)
      requires Valid()
      modifies this`readPos
      ensures Valid() && Content() == old(Content())
      ensures ReadAs(DecodePair(old(Unread())), ok, p, Unread())
    {
      var key, value: Text := [], [];
      ok, key := ReadText();
      if ok {
        ok, value := ReadText();
      }
      p := (key, value);
    }

    /** read(MetaData) into a map that may hold entries; the counter wraps. On failure the entries
        read so far stay inserted. */
    method ReadMeta(into: Meta) returns (ok: bool, m: Meta)
      requires Valid()
      modifies this`readPos
      ensures Valid() && Content() == old(Content())
      ensures ReadAs(DecodeMeta(old(Unread()), into), ok, m, Unread())
    {
      m := into;
      var count: U32;
      ok, count := Read32();
      if !ok {
        return;
      }
      ghost var body := Unread();
      var i: U16 := 0;
      while i < count
        invariant Valid() && Content() == old(Content())
        invariant DecodePairs(body, 0, count, into) == DecodePairs(Unread(), i, count, m)
        decreases writePos - readPos
      {
        DecodePairReads(Unread());
        var p;
        ok, p := ReadPair();
        if !ok {
          return;
        }
        m := Insert(m, p);
        i := Next16(i);
      }
    }
  }

  /** For some order of the entries, what was written is what WriteMap says. */
  ghost predicate WritesMap(m: Meta, room: Room, before: Bytes, after: Bytes, ok: bool)
    requires |m| < CYCLE
  {
    exists pairs :: Lists(pairs, m) && ok == WriteMap(room, pairs).1 && after == before + WriteMap(room, pairs).0
  }

  /** A success appends an encoding of the map; with memory that grows, it fails only on an overlong
      string. */
  lemma WrittenMap(m: Meta, room: Room, before: Bytes, after: Bytes, ok: bool) returns (b: Bytes)
    requires |m| < CYCLE && WritesMap(m, room, before, after, ok)
    ensures ok ==> EncodesMeta(m, b) && after == before + b
    ensures room.None? ==> (ok <==> AllShort(m))
  {
    var pairs :| Lists(pairs, m) && ok == WriteMap(room, pairs).1 && after == before + WriteMap(room, pairs).0;
    WriteMapAll(room, pairs, m);
    b := EncodeMeta(pairs);
  }

  // ---- Loop facts ----

  /** The keys of m outside `todo` have been listed. */
  ghost predicate Listed(m: Meta, todo: set<Text>, pairs: seq<Pair>) {
    && todo <= m.Keys
    && |pairs| + |todo| == |m|
    && (forall i :: 0 <= i < |pairs| ==> pairs[i].0 in m && m[pairs[i].0] == pairs[i].1)
    && InsertAll(map[], pairs) == m - todo
  }

  lemma NothingListed(m: Meta)
    ensures Listed(m, m.Keys, [])
  {
    assert m - m.Keys == map[];
  }

  lemma ListOne(m: Meta, todo: set<Text>, pairs: seq<Pair>, k: Text)
    requires Listed(m, todo, pairs) && k in todo
    ensures Listed(m, todo - {k}, pairs + [(k, m[k])])
  {
    InsertAllSnoc(map[], pairs, (k, m[k]));
    assert m - (todo - {k}) == (m - todo)[k := m[k]];
  }

  lemma AllListed(m: Meta, pairs: seq<Pair>)
    requires Listed(m, {}, pairs)
    ensures Lists(pairs, m)
  {
    assert m - {} == m;
  }

  /** Some order for the keys that were not reached. */
  lemma {:induction false} CompleteListing(m: Meta, todo: set<Text>, pairs: seq<Pair>) returns (all: seq<Pair>)
    requires Listed(m, todo, pairs)
    ensures Lists(all, m) && pairs <= all
    decreases todo
  {
    if todo == {} {
      AllListed(m, pairs);
      all := pairs;
    } else {
      var k :| k in todo;
      ListOne(m, todo, pairs, k);
      all := CompleteListing(m, todo - {k}, pairs + [(k, m[k])]);
    }
  }

  lemma TwoTexts(room: Room, a: Text, b: Text)
    ensures WriteTexts(room, [a, b])
         == if !Short(a) || !Fits(room, |a| + 1) then ([], false)
            else if !Short(b) || !Fits(Minus(room, |a| + 1), |b| + 1) then (EncodeText(a), false)
            else (EncodeText(a) + EncodeText(b), true)
  {
    assert [a, b][1..] == [b];
    if Short(a) && Fits(room, |a| + 1) {
      OneText(Minus(room, |a| + 1), b);
      assert EncodeText(a) + [] == EncodeText(a);
    }
  }

  lemma OneText(room: Room, b: Text)
    ensures WriteTexts(room, [b]) == if !Short(b) || !Fits(room, |b| + 1) then ([], false) else (EncodeText(b), true)
  {
    if Short(b) && Fits(room, |b| + 1) {
      assert [b][1..] == [];
      assert WriteTexts(Minus(room, |b| + 1), []) == ([], true);
      assert EncodeText(b) + [] == EncodeText(b);
    }
  }

  lemma OneMorePair(room: Room, pairs: seq<Pair>, p: Pair, start: Bytes)
    requires WriteTexts(room, Texts(pairs)).1
    ensures var x := WriteTexts(room, Texts(pairs)).0;
      && Fits(room, |x|)
      && start + WriteTexts(room, Texts(pairs + [p])).0 == start + x + WriteTexts(Minus(room, |x|), [p.0, p.1]).0
      && WriteTexts(room, Texts(pairs + [p])).1 == WriteTexts(Minus(room, |x|), [p.0, p.1]).1
  {
    TextsAppend(pairs, [p]);
    assert [p][1..] == [] && Texts([p]) == [p.0, p.1] + [] == [p.0, p.1];
    WriteTextsAppend(room, Texts(pairs), [p.0, p.1]);
    var x := WriteTexts(room, Texts(pairs)).0;
    Regroup(start, x, WriteTexts(Minus(room, |x|), [p.0, p.1]).0);
  }

  /** Some order for the rest, of which nothing is written any more. */
  lemma StopHere(m: Meta, todo: set<Text>, pairs: seq<Pair>, room: Room) returns (all: seq<Pair>)
    requires Listed(m, todo, pairs) && !WriteTexts(room, Texts(pairs)).1
    ensures Lists(all, m) && WriteTexts(room, Texts(all)) == (WriteTexts(room, Texts(pairs)).0, false)
  {
    all := CompleteListing(m, todo, pairs);
    StoppedEarly(room, pairs, all);
  }

  lemma StoppedEarly(room: Room, pairs: seq<Pair>, all: seq<Pair>)
    requires pairs <= all && !WriteTexts(room, Texts(pairs)).1
    ensures WriteTexts(room, Texts(all)) == (WriteTexts(room, Texts(pairs)).0, false)
  {
    assert all == pairs + all[|pairs|..];
    TextsAppend(pairs, all[|pairs|..]);
    WriteTextsAppend(room, Texts(pairs), Texts(all[|pairs|..]));
  }
}

/** AddressList: addresses with metadata, written one after the other without a count, and read
    back until the serializer is exhausted. */
module Addresses {
  import opened Words
  import opened Chunking
  import opened Codec
  import opened Serializer

  datatype Entry = Entry(address: Option<Address>, meta: Meta)

  /** One entry as it is read. */
  function DecodeEntry(b: Bytes): Read<Entry> {
    match DecodeAddress(b)
    case Fail(rest) => Fail(rest)
    case Ok(a, rest) =>
      match DecodeMeta(rest, map[])
      case Fail(rest2) => Fail(rest2)
      case Ok(m, rest2) => Ok(Entry(a, m), rest2)
  }

  lemma {:induction false} PairsConsume(b: Bytes, i: U16, count: U32, m: Meta)
    ensures |DecodePairs(b, i, count, m).rest| <= |b|
    decreases |b|
  {
    if i < count {
      ScanReads(b, 0);
      if DecodeText(b).Ok? {
        ScanReads(DecodeText(b).rest, 0);
      }
      var r := DecodePair(b);
      if r.Ok? {
        PairsConsume(r.rest, Next16(i), count, Insert(m, r.value));
      }
    }
  }

  lemma EntryConsumes(b: Bytes)
    ensures DecodeEntry(b).Ok? ==> |DecodeEntry(b).rest| < |b|
  {
    var a := DecodeAddress(b);
    if a.Ok? {
      var head := DecodeU32(a.rest);
      if head.Ok? {
        PairsConsume(head.rest, 0, head.value, map[]);
      }
    }
  }

  /** The reading half of readOrWrite; `Fail` where the original throws. */
  function DecodeList(b: Bytes): Read<seq<Entry>>
    decreases |b|
  {
    if b == [] then Ok([], [])
    else match DecodeEntry(b)
      case Fail(rest) => Fail(rest)
      case Ok(e, rest) =>
        EntryConsumes(b);
        Prepend([e], DecodeList(rest))
  }

  /** b is what writing the entry appends. */
  ghost predicate EncodesEntry(e: Entry, b: Bytes) {
    exists mb :: EncodesMeta(e.meta, mb) && b == EncodeAddress(e.address) + mb
  }

  ghost predicate EncodesList(es: seq<Entry>, bs: seq<Bytes>) {
    |es| == |bs| && forall i :: 0 <= i < |es| ==> EncodesEntry(es[i], bs[i])
  }

  predicate FaithfulMeta(m: Meta) {
    AllPlain(m) && |m| <= MAX_ENTRIES
  }

  predicate FaithfulList(es: seq<Entry>) {
    forall i :: 0 <= i < |es| ==> FaithfulMeta(es[i].meta)
  }

  lemma EntryRoundTrip(e: Entry, b: Bytes, suffix: Bytes)
    requires EncodesEntry(e, b) && FaithfulMeta(e.meta)
    ensures DecodeEntry(b + suffix) == Ok(e, suffix) && b != []
  {
    var mb :| EncodesMeta(e.meta, mb) && b == EncodeAddress(e.address) + mb;
    var pairs :| Lists(pairs, e.meta) && mb == EncodeMeta(pairs);
    Regroup(EncodeAddress(e.address), mb, suffix);
    AddressRoundTrip(e.address, mb + suffix);
    MetaRoundTrip(pairs, e.meta, suffix);
  }

  lemma {:induction false} ListReadsBack(es: seq<Entry>, bs: seq<Bytes>)
    requires EncodesList(es, bs) && FaithfulList(es)
    ensures DecodeList(Flatten(bs)) == Ok(es, [])
  {
    if es != [] {
      ListReadsBack(es[1..], bs[1..]);
      assert EncodesEntry(es[0], bs[0]) && FaithfulMeta(es[0].meta);
      OneMoreRead(es[0], bs[0], es[1..], Flatten(bs[1..]));
      assert es == [es[0]] + es[1..];
    }
  }

  lemma OneMoreRead(e: Entry, b: Bytes, es: seq<Entry>, rest: Bytes)
    requires EncodesEntry(e, b) && FaithfulMeta(e.meta) && DecodeList(rest) == Ok(es, [])
    ensures DecodeList(b + rest) == Ok([e] + es, [])
  {
    EntryRoundTrip(e, b, rest);
  }

  /** Reading succeeds only at the very end, and only with entries that survive. */
  lemma {:induction false} ListReads(b: Bytes)
    ensures var r := DecodeList(b); r.Ok? ==> r.rest == [] && FaithfulList(r.value)
    decreases |b|
  {
    if b != [] {
      var r := DecodeEntry(b);
      if r.Ok? {
        EntryConsumes(b);
        DecodedMetaFaithful(DecodeAddress(b).rest);
        ListReads(r.rest);
      }
    }
  }

  /** A written list is read back exactly when every entry survives and nothing follows it: having
      no count, an address list can only be the last thing in a message. */
  lemma ListRoundTrip(es: seq<Entry>, bs: seq<Bytes>, suffix: Bytes)
    requires EncodesList(es, bs)
    ensures DecodeList(Flatten(bs) + suffix) == Ok(es, suffix) <==> FaithfulList(es) && suffix == []
  {
    ListReads(Flatten(bs) + suffix);
    if FaithfulList(es) && suffix == [] {
      ListReadsBack(es, bs);
      assert Flatten(bs) + suffix == Flatten(bs);
    }
  }

  class AddressList {
    var addresses: seq<Entry>

    constructor ()
      ensures addresses == []
    {
      addresses := [];
    }

    method Write(bs: BinSerializer) returns (ok: bool)
      requires bs.Valid()
      modifies bs, bs.data
      ensures bs.Valid() && (bs.data == old(bs.data) || fresh(bs.data)) && bs.readPos == old(bs.readPos)
      ensures bs.owns ==> (ok <==> Writable(addresses))
      ensures ok ==> exists parts :: EncodesList(addresses, parts) && bs.Content() == old(bs.Content()) + Flatten(parts)
    {
      ghost var parts: seq<Bytes> := [];
      for i := 0 to |addresses|
        invariant bs.Valid() && (bs.data == old(bs.data) || fresh(bs.data)) && bs.readPos == old(bs.readPos)
        invariant Writable(addresses[..i]) && EncodesList(addresses[..i], parts)
        invariant bs.Content() == old(bs.Content()) + Flatten(parts)
      {
        ghost var part;
        ok, part := WriteEntry(bs, addresses[i]);
        if !ok {
          return;
        }
        ListOneMore(addresses, i, parts, part);
        FlattenSnoc(parts, part);
        Regroup(old(bs.Content()), Flatten(parts), part);
        parts := parts + [part];
      }
      assert addresses[..|addresses|] == addresses;
      ok := true;
    }

    method WriteEntry(bs: BinSerializer, e: Entry) returns (ok: bool, ghost part: Bytes)
      requires bs.Valid()
      modifies bs, bs.data
      ensures bs.Valid() && (bs.data == old(bs.data) || fresh(bs.data)) && bs.readPos == old(bs.readPos)
      ensures bs.owns ==> (ok <==> WritableMeta(e.meta))
      ensures ok ==> WritableMeta(e.meta) && EncodesEntry(e, part) && bs.Content() == old(bs.Content()) + part
    {
      part := [];
      ok := bs.WriteAddress(e.address);
      if !ok {
        return;
      }
      ghost var before, room := bs.Content(), bs.Left();
      ok := bs.WriteMeta(e.meta);
      if |e.meta| < CYCLE {
        ghost var mb := WrittenMap(e.meta, room, before, bs.Content(), ok);
        part := EncodeAddress(e.address) + mb;
        Regroup(old(bs.Content()), EncodeAddress(e.address), mb);
      }
    }

    method Read(bs: BinSerializer) returns (ok: bool)
      requires bs.Valid()
      modifies this, bs`readPos
      ensures bs.Valid() && bs.Content() == old(bs.Content())
      ensures ok <==> DecodeList(old(bs.Unread())).Ok?
      ensures ok ==> addresses == old(addresses) + DecodeList(old(bs.Unread())).value
      ensures bs.Unread() == DecodeList(old(bs.Unread())).rest
    {
      ghost var done: seq<Entry> := [];
      PrependNothing(DecodeList(bs.Unread()));
      while bs.readPos != bs.writePos
        invariant bs.Valid() && bs.Content() == old(bs.Content())
        invariant addresses == old(addresses) + done
        invariant DecodeList(old(bs.Unread())) == Prepend(done, DecodeList(bs.Unread()))
        decreases bs.writePos - bs.readPos
      {
        EntryConsumes(bs.Unread());
        ghost var unread := bs.Unread();
        var e;
        ok, e := ReadEntry(bs);
        if !ok {
          return;
        }
        PrependOne(done, e, DecodeList(bs.Unread()));
        addresses := addresses + [e];
        done := done + [e];
      }
      assert done + [] == done;
      ok := true;
    }

    method ReadEntry(bs: BinSerializer) returns (ok: bool, e: Entry)
      requires bs.Valid()
      modifies bs`readPos
      ensures bs.Valid() && bs.Content() == old(bs.Content())
      ensures ReadAs(DecodeEntry(old(bs.Unread())), ok, e, bs.Unread())
    {
      var a, m := None, map[];
      ok, a := bs.ReadAddress();
      if ok {
        ok, m := bs.ReadMeta(map[]);
      }
      e := Entry(a, m);
    }
  }

  predicate WritableMeta(m: Meta) {
    AllShort(m) && |m| < CYCLE
  }

  predicate Writable(es: seq<Entry>) {
    forall i :: 0 <= i < |es| ==> WritableMeta(es[i].meta)
  }

  lemma ListOneMore(es: seq<Entry>, i: nat, parts: seq<Bytes>, part: Bytes)
    requires i < |es| && Writable(es[..i]) && EncodesList(es[..i], parts)
    requires WritableMeta(es[i].meta) && EncodesEntry(es[i], part)
    ensures Writable(es[..i + 1]) && EncodesList(es[..i + 1], parts + [part])
  {
  }
}

/** The two packet encoders: one counts bytes, the other fills a buffer; a message is passed to both in turn. */
module Encoder {
  import opened Integers
  import opened Search
  import opened Bytes
  import opened MessageCodec

  /** Tracks the running length of the serialized bytes. */
  class LenEncoder {
    var length: nat

    constructor ()
      ensures length == 0
    {
      length := 0;
    }

    method Add(n: nat)
      modifies this
      ensures length == old(length) + n
    {
      length := length + n;
    }

    /** False for a slice too long for its length prefix. */
    method PutBytes(data: Blob) returns (ok: bool)
      modifies this
      ensures ok == ShortBlob(data)
      ensures ok ==> length == old(length) + BlobSize(data)
    {
      Add(4);
      if data.None? {
        return true;
      }
      if |data.value| > I32 - 1 {
        return false;
      }
      Add(|data.value|);
      return true;
    }

    method PutString(data: seq<Byte>) returns (ok: bool)
      modifies this
      ensures ok == (|data| < I16)
      ensures ok ==> length == old(length) + 2 + |data|
    {
      Add(2);
      if |data| > I16 - 1 {
        return false;
      }
      Add(|data|);
      return true;
    }

    /** The first pass over a message, visiting its headers in the order `hs`. */
    method EncodeMessage(m: Message, hs: seq<(seq<Byte>, Blob)>) returns (ok: bool)
      requires length == 0
      modifies this
      ensures ok <==> ShortBlob(m.key) && ShortBlob(m.value) && forall i :: 0 <= i < |hs| ==> ShortHeader(hs[i])
      ensures ok ==> length == EncodedSize(m, hs)
    {
      Add(4);
      Add(1);
      Add(1);
      ok := PutBytes(m.key);
      if !ok {
        return;
      }
      ok := PutBytes(m.value);
      if !ok {
        return;
      }
      Add(2);
      for i := 0 to |hs|
        invariant forall j :: 0 <= j < i ==> ShortHeader(hs[j])
        invariant length == EncodedSize(m, hs[..i])
      {
        assert hs[..i + 1][..i] == hs[..i];
        ok := PutString(hs[i].0);
        if !ok {
          return;
        }
        ok := PutBytes(hs[i].1);
        if !ok {
          return;
        }
      }
      assert hs[..|hs|] == hs;
      return true;
    }
  }

  /** Serializes into a buffer allocated beforehand; the stack holds where the digests are still to be filled in. */
  class ByteEncoder {
    const b: array<Byte>
    var off: nat
    var stack: seq<nat>

    constructor (b: array<Byte>)
      ensures this.b == b && off == 0 && stack == []
    {
      this.b := b;
      off := 0;
      stack := [];
    }

    ghost predicate Valid()
      reads this
    {
      off <= b.Length
    }

    /** What has been written so far. */
    ghost function Written(): seq<Byte>
      requires Valid()
      reads this, b
    {
      b[..off]
    }

    method Put(data: seq<Byte>)
      requires Valid() && off + |data| <= b.Length
      modifies this`off, b
      ensures Valid() && off == old(off) + |data|
      ensures Written() == old(Written()) + data
    {
      for i := 0 to |data|
        invariant off + i <= b.Length && off == old(off)
        invariant b[..off + i] == old(b[..off]) + data[..i]
      {
        b[off + i] := data[i];
      }
      off := off + |data|;
    }

    method PutBytes(data: Blob)
      requires Valid() && ShortBlob(data) && off + BlobSize(data) <= b.Length
      modifies this`off, b
      ensures Valid() && off == old(off) + BlobSize(data)
      ensures Written() == old(Written()) + BlobBytes(data)
    {
      if data.None? {
        Put(PutInt32(-1));
        return;
      }
      Put(PutInt32(|data.value|));
      Put(data.value);
    }

    method PutString(data: seq<Byte>)
      requires Valid() && |data| < I16 && off + 2 + |data| <= b.Length
      modifies this`off, b
      ensures Valid() && off == old(off) + 2 + |data|
      ensures Written() == old(Written()) + StringBytes(data)
    {
      Put(BE(|data|, 2));
      Put(data);
    }

    /** Leaves room for a digest. */
    method Push()
      requires Valid() && off + 4 <= b.Length
      modifies this
      ensures Valid() && off == old(off) + 4 && stack == old(stack) + [old(off)]
    {
      stack := stack + [off];
      off := off + 4;
    }

    /** Fills in the digest left open last, over all that was written after it. */
    method Pop(crc: Digest)
      requires Valid() && stack != [] && stack[|stack| - 1] + 4 <= off
      modifies this`stack, b
      ensures Valid() && stack == old(stack)[..|old(stack)| - 1]
      ensures var s := old(stack)[|old(stack)| - 1];
              Written() == old(Written())[..s] + BE(crc(old(Written())[s + 4..]), 4) + old(Written())[s + 4..]
    {
      var s := stack[|stack| - 1];
      stack := stack[..|stack| - 1];
      var digest := BE(crc(b[s + 4..off]), 4);
      ghost var was := b[..off];
      assert b[s + 4..off] == was[s + 4..];
      b[s], b[s + 1], b[s + 2], b[s + 3] := digest[0], digest[1], digest[2], digest[3];
      assert b[..off] == was[..s] + digest + was[s + 4..];
    }

    method PutHeaders(hs: seq<Header>)
      requires Valid() && off + HeaderSizes(hs) <= b.Length
      modifies this`off, b
      ensures Valid() && off == old(off) + HeaderSizes(hs)
      ensures Written() == old(Written()) + HeaderBytes(hs)
    {
      ghost var was := Written();
      for i := 0 to |hs|
        invariant Valid() && off == old(off) + HeaderSizes(hs[..i])
        invariant Written() == was + HeaderBytes(hs[..i])
      {
        OneMore(was, hs, i);
        RoomFor(hs, i);
        PutString(hs[i].0);
        PutBytes(hs[i].1);
      }
      assert hs[..|hs|] == hs;
    }

    method PutBody(m: Message, hs: seq<Header>)
      requires Valid() && ShortBlob(m.key) && ShortBlob(m.value) && off + EncodedSize(m, hs) - 4 == b.Length
      modifies this`off, b
      ensures Valid() && off == b.Length
      ensures Written() == old(Written()) + Body(m, hs)
    {
      ghost var c := Written();
      ghost var k, v, n, h := BlobBytes(m.key), BlobBytes(m.value), BE(|hs| % U16, 2), HeaderBytes(hs);
      Put([Int8Byte(m.magic)]);
      Put([Int8Byte(m.attributes)]);
      PutBytes(m.key);
      PutBytes(m.value);
      Put(BE(|hs| % U16, 2));
      PutHeaders(hs);
      Bundled(c, Int8Byte(m.magic), Int8Byte(m.attributes), k, v, n, h);
    }

    /** The second pass over a message. */
    method EncodeMessage(m: Message, hs: seq<Header>, crc: Digest)
      requires off == 0 && stack == [] && ShortBlob(m.key) && ShortBlob(m.value) && EncodedSize(m, hs) == b.Length
      modifies this, b
      ensures b[..] == Encoded(m, hs, crc)
    {
      Push();
      ghost var c := Written();
      PutBody(m, hs);
      assert Written()[4..] == Body(m, hs);
      Pop(crc);
      assert b[..] == Written();
    }
  }

  lemma {:induction false} Bundled<T>(c: seq<T>, x: T, y: T, k: seq<T>, v: seq<T>, n: seq<T>, h: seq<T>)
    ensures c + [x] + [y] + k + v + n + h == c + ([x, y] + k + v + (n + h))
  {
  }

  lemma {:induction false} RoomFor(hs: seq<Header>, i: nat)
    requires i < |hs|
    ensures HeaderSizes(hs[..i + 1]) == HeaderSizes(hs[..i]) + HeaderSize(hs[i])
    ensures HeaderSizes(hs[..i + 1]) <= HeaderSizes(hs)
  {
    assert hs[..i + 1][..i] == hs[..i];
    assert hs == hs[..i + 1] + hs[i + 1..];
    SizesSplit(hs[..i + 1], hs[i + 1..]);
  }

  lemma {:induction false} OneMore(was: seq<Byte>, hs: seq<Header>, i: nat)
    requires i < |hs|
    ensures was + HeaderBytes(hs[..i + 1]) == was + HeaderBytes(hs[..i]) + StringBytes(hs[i].0) + BlobBytes(hs[i].1)
  {
    assert HeaderBlocks(hs[..i + 1])[..i] == HeaderBlocks(hs[..i]);
    Regroup(was, HeaderBytes(hs[..i]), StringBytes(hs[i].0), BlobBytes(hs[i].1));
  }

  /** The whole of encoding: nothing for a message with a field too long, and otherwise its bytes. */
  method Encode(m: Message, first: seq<(seq<Byte>, Blob)>, second: seq<(seq<Byte>, Blob)>, crc: Digest)
      returns (r: Option<seq<Byte>>)
    requires Visits(first, m) && Visits(second, m)
    ensures r.Some? <==> Encodable(m)
    ensures r.Some? ==> (forall i :: 0 <= i < |second| ==> ShortHeader(second[i])) && r.value == Encoded(m, second, crc)
  {
    AllShort(first, m);
    AllShort(second, m);
    var lenEnc := new LenEncoder();
    var ok := lenEnc.EncodeMessage(m, first);
    if !ok {
      return None;
    }
    SizesAgree(first, second);
    var b := new Byte[lenEnc.length];
    var byteEnc := new ByteEncoder(b);
    byteEnc.EncodeMessage(m, second, crc);
    return Some(b[..]);
  }

  lemma {:induction false} AllShort(order: seq<(seq<Byte>, Blob)>, m: Message)
    requires Visits(order, m)
    ensures (forall i :: 0 <= i < |order| ==> ShortHeader(order[i])) <==>
            forall k <- m.headers :: ShortHeader((k, m.headers[k]))
  {
    VisitsAll(order, m);
    assert forall i :: 0 <= i < |order| ==> order[i] in order;
    assert forall k <- m.headers :: (k, m.headers[k]) in order;
  }
}
